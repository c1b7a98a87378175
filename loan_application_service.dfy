/** Creation and lookup of loan applications, with the borrower eligibility
    checks and idempotency-key reuse (app/services/loan_application_service.py). */
module LoanApplicationService {
  import opened Common
  import opened Records
  import opened Db

  /** _validate_user_eligibility, in this order: KYC completed, approved by
      the bank, not a minor. A missing is_minor field reads as not a minor. */
  function EligibilityError(u: User): (e: Option<Error>)
    ensures e == Some(KycNotCompleted) <==> u.kycStatus != KycCompleted
    ensures e == Some(UserNotApprovedByBank) <==> u.kycStatus == KycCompleted && u.approvalStatus != ApprovalApproved
    ensures e == Some(MinorNotEligible) <==>
      u.kycStatus == KycCompleted && u.approvalStatus == ApprovalApproved && u.isMinor == Some(true)
    ensures e == None <==>
      u.kycStatus == KycCompleted && u.approvalStatus == ApprovalApproved && u.isMinor != Some(true)
  {
    if u.kycStatus != KycCompleted then Some(KycNotCompleted)
    else if u.approvalStatus != ApprovalApproved then Some(UserNotApprovedByBank)
    else if u.isMinor == Some(true) then Some(MinorNotEligible)
    else None
  }

  /** find_by_idempotency_key finds a document. */
  predicate KeyUsed(apps: map<AppId, LoanApplication>, key: string)
  {
    exists id :: id in apps && apps[id].idempotencyKey == key
  }

  /** No two applications share an idempotency key. */
  predicate KeysUnique(apps: map<AppId, LoanApplication>)
  {
    forall a, b :: a in apps && b in apps && apps[a].idempotencyKey == apps[b].idempotencyKey ==> a == b
  }

  /** The document create_loan_application inserts: PENDING, owned by the
      caller, carrying the key, with no decision yet. */
  function NewApplication(userId: UserId, req: LoanRequest, key: string, now: Time): LoanApplication
  {
    LoanApplication(userId, req.loanType, req.loanAmount, req.tenureMonths, req.reason, req.incomeSlipUrl,
                    Pending, now, key, None)
  }

  /** Inserting under a fresh key keeps keys unique, and afterwards the key
      belongs to the new application only. */
  lemma InsertKeepsKeysUnique(apps: map<AppId, LoanApplication>, id: AppId, a: LoanApplication)
    requires KeysUnique(apps) && id !in apps && !KeyUsed(apps, a.idempotencyKey)
    ensures KeysUnique(apps[id := a])
    ensures KeyUsed(apps[id := a], a.idempotencyKey)
  {
    assert apps[id := a][id].idempotencyKey == a.idempotencyKey;
  }

  /** get_loan_application: the stored application with its id, or "Loan
      application not found". */
  function GetLoanApplication(apps: map<AppId, LoanApplication>, loanId: AppId): (r: Result<(AppId, LoanApplication), Error>)
    ensures r.Success? <==> loanId in apps
    ensures r.Failure? ==> r.error == LoanApplicationNotFound
    ensures r.Success? ==> r.value.0 == loanId && r.value.1 == apps[loanId]
  {
    if loanId in apps then Success((loanId, apps[loanId])) else Failure(LoanApplicationNotFound)
  }

  /** create_loan_application: unknown user, then the eligibility checks, then
      the idempotency lookup. A used key returns that application with
      reused = true and inserts nothing; a fresh key inserts one PENDING
      application under a fresh id and returns it with reused = false. */
  method CreateLoanApplication(db: Database, userId: UserId, req: LoanRequest, key: string, newId: AppId, now: Time)
    returns (r: Result<(AppId, bool), Error>)
    requires newId !in db.applications
    modifies db`applications
    ensures userId !in db.users ==> r == Failure(UserNotFound)
    ensures userId in db.users && EligibilityError(db.users[userId]).Some? ==>
      r == Failure(EligibilityError(db.users[userId]).value)
    ensures r.Failure? ==> db.applications == old(db.applications)
    ensures userId in db.users && EligibilityError(db.users[userId]).None? && KeyUsed(old(db.applications), key) ==>
      && r.Success? && r.value.1
      && db.applications == old(db.applications)
      && r.value.0 in db.applications && db.applications[r.value.0].idempotencyKey == key
    ensures userId in db.users && EligibilityError(db.users[userId]).None? && !KeyUsed(old(db.applications), key) ==>
      && r == Success((newId, false))
      && db.applications == old(db.applications)[newId := NewApplication(userId, req, key, now)]
      && GetLoanApplication(db.applications, newId) == Success((newId, NewApplication(userId, req, key, now)))
    ensures KeysUnique(old(db.applications)) ==> KeysUnique(db.applications)
  {
    if userId !in db.users {
      return Failure(UserNotFound);
    }
    var eligibility := EligibilityError(db.users[userId]);
    if eligibility.Some? {
      return Failure(eligibility.value);
    }
    if KeyUsed(db.applications, key) {
      var existing :| existing in db.applications && db.applications[existing].idempotencyKey == key;
      return Success((existing, true));
    }
    var a := NewApplication(userId, req, key, now);
    if KeysUnique(db.applications) {
      InsertKeepsKeysUnique(db.applications, newId, a);
    }
    db.applications := db.applications[newId := a];
    return Success((newId, false));
  }

  /** A retried request with the same key, after a create that succeeded,
      gets back the same id marked as reused, and inserts nothing more. */
  method CreateThenRetry(db: Database, userId: UserId, req: LoanRequest, key: string, id1: AppId, id2: AppId, now: Time, later: Time)
    returns (first: Result<(AppId, bool), Error>, second: Result<(AppId, bool), Error>)
    requires KeysUnique(db.applications)
    requires id1 !in db.applications && id2 !in db.applications && id1 != id2
    modifies db`applications
    ensures first.Success? ==> second == Success((first.value.0, true))
    ensures first == Success((id1, false)) ==> db.applications == old(db.applications)[id1 := NewApplication(userId, req, key, now)]
  {
    first := CreateLoanApplication(db, userId, req, key, id1, now);
    ghost var afterFirst := db.applications;
    second := CreateLoanApplication(db, userId, req, key, id2, later);
    if first.Success? {
      assert first.value.0 in afterFirst && afterFirst[first.value.0].idempotencyKey == key;
      assert KeyUsed(afterFirst, key);
    }
  }
}
