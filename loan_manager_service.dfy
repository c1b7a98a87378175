/** The loan manager's decision on a loan application
    (app/services/loan_manager_service.py). */
module LoanManagerService {
  import opened Common
  import opened Records
  import opened Db

  /** The guard of decide_loan as written. Once the application is found,
      building the list of allowed statuses looks up a MANUAL_REVIEW member
      that the status enumeration does not declare, and that lookup raises
      before any further check: no decision ever gets past the guard. */
  function LoanDecisionErrorAsWritten(apps: map<AppId, LoanApplication>, loanId: AppId): (e: Option<Error>)
    ensures e.Some?
    ensures e == Some(LoanApplicationNotFound) <==> loanId !in apps
  {
    if loanId !in apps then Some(LoanApplicationNotFound)
    else Some(UndefinedStatusMember("MANUAL_REVIEW"))
  }

  /** The guard of decide_loan with the allowed statuses limited to the ones
      the enumeration declares, i.e. PENDING; checked in this order: unknown
      application, no longer PENDING, REJECT without a reason. */
  function LoanDecisionError(apps: map<AppId, LoanApplication>, loanId: AppId, d: Decision, reason: Option<string>): (e: Option<Error>)
    ensures e == Some(LoanApplicationNotFound) <==> loanId !in apps
    ensures e == Some(LoanAlreadyProcessed) <==> loanId in apps && apps[loanId].status != Pending
    ensures e == Some(RejectionReasonMandatory) <==>
      loanId in apps && apps[loanId].status == Pending && d.Reject? && !Truthy(reason)
    ensures e == None <==> loanId in apps && apps[loanId].status == Pending && (d.Approve? || Truthy(reason))
  {
    if loanId !in apps then Some(LoanApplicationNotFound)
    else if apps[loanId].status != Pending then Some(LoanAlreadyProcessed)
    else if d.Reject? && !Truthy(reason) then Some(RejectionReasonMandatory)
    else None
  }

  /** Every decision the corrected guard lets through is blocked as written. */
  lemma AsWrittenBlocksEveryDecision(apps: map<AppId, LoanApplication>, loanId: AppId, d: Decision, reason: Option<string>)
    requires LoanDecisionError(apps, loanId, d, reason) == None
    ensures LoanDecisionErrorAsWritten(apps, loanId) == Some(UndefinedStatusMember("MANUAL_REVIEW"))
  {
  }

  /** A freshly created application to decide on. */
  function FreshApplication(): LoanApplication
  {
    LoanApplication("u1", Personal, 5000000, 12, "education", "https://example.org/slip.pdf", Pending, 0, "k1", None)
  }

  /** The concrete input: approving a PENDING application. The corrected
      guard lets it through; the guard as written raises. */
  lemma AsWrittenCounterexample()
    ensures LoanDecisionError(map["a1" := FreshApplication()], "a1", Approve, None) == None
    ensures LoanDecisionErrorAsWritten(map["a1" := FreshApplication()], "a1") == Some(UndefinedStatusMember("MANUAL_REVIEW"))
  {
  }

  /** APPROVE approves, REJECT rejects. */
  function StatusOf(d: Decision): LoanStatus
  {
    match d
    case Approve => Approved
    case Reject => Rejected
  }

  /** update_decision: APPROVE sets APPROVED and REJECT sets REJECTED,
      together with the reason, who decided and when; everything else about
      the application is kept. */
  function DecidedApplication(a: LoanApplication, d: Decision, managerId: string, reason: Option<string>, now: Time): (v: LoanApplication)
    ensures v.status == (if d.Approve? then Approved else Rejected)
    ensures v.decision == Some(DecisionRecord(reason, managerId, now))
    ensures v.(status := a.status, decision := a.decision) == a
  {
    a.(status := StatusOf(d), decision := Some(DecisionRecord(reason, managerId, now)))
  }

  /** The audit entry of a loan decision. */
  function LoanAudit(managerId: string, loanId: AppId, d: Decision, reason: Option<string>, now: Time): AuditEntry
  {
    AuditEntry(managerId, "LOAN_MANAGER", "LOAN_" + DecisionName(d), "LOAN", loanId, reason, now)
  }

  /** An application can be decided once: any later decision fails with
      "Loan already processed". */
  lemma SecondLoanDecisionFails(apps: map<AppId, LoanApplication>, loanId: AppId, d: Decision, reason: Option<string>,
                                managerId: string, now: Time, d2: Decision, reason2: Option<string>)
    requires LoanDecisionError(apps, loanId, d, reason) == None
    ensures LoanDecisionError(apps[loanId := DecidedApplication(apps[loanId], d, managerId, reason, now)], loanId, d2, reason2)
         == Some(LoanAlreadyProcessed)
  {
  }

  /** decide_loan with the corrected guard: on a failed guard neither the
      applications nor the audit log change; otherwise the application gets
      the decision and exactly one audit entry is appended. */
  method DecideLoan(db: Database, loanId: AppId, managerId: string, d: Decision, reason: Option<string>, now: Time)
    returns (failure: Option<Error>)
    modifies db`applications, db`auditLogs
    ensures failure == LoanDecisionError(old(db.applications), loanId, d, reason)
    ensures failure.Some? ==> db.applications == old(db.applications) && db.auditLogs == old(db.auditLogs)
    ensures failure.None? ==>
      && db.applications == old(db.applications)[loanId := DecidedApplication(old(db.applications)[loanId], d, managerId, reason, now)]
      && db.auditLogs == old(db.auditLogs) + [LoanAudit(managerId, loanId, d, reason, now)]
  {
    failure := LoanDecisionError(db.applications, loanId, d, reason);
    if failure.Some? {
      return;
    }
    var status := if d == Approve then Approved else Rejected;
    var a := db.applications[loanId];
    db.applications := db.applications[loanId := a.(status := status, decision := Some(DecisionRecord(reason, managerId, now)))];
    db.auditLogs := db.auditLogs + [AuditEntry(managerId, "LOAN_MANAGER", "LOAN_" + DecisionName(d), "LOAN", loanId, reason, now)];
  }
}
