/** The bank manager's approval of a registered user
    (app/services/bank_manager_service.py). */
module BankManagerService {
  import opened Common
  import opened Records
  import opened Db

  /** The guard of decide_user, checked in this order: unknown user, KYC not
      completed, approval no longer PENDING, REJECT without a reason. */
  function UserDecisionError(users: map<UserId, User>, userId: UserId, d: Decision, reason: Option<string>): (e: Option<Error>)
    ensures e == Some(UserNotFound) <==> userId !in users
    ensures e == Some(KycNotCompleted) <==> userId in users && users[userId].kycStatus != KycCompleted
    ensures e == Some(UserAlreadyProcessed) <==>
      userId in users && users[userId].kycStatus == KycCompleted && users[userId].approvalStatus != ApprovalPending
    ensures e == Some(RejectionReasonMandatory) <==>
      userId in users && users[userId].kycStatus == KycCompleted && users[userId].approvalStatus == ApprovalPending
      && d.Reject? && !Truthy(reason)
    ensures e == None <==>
      userId in users && users[userId].kycStatus == KycCompleted && users[userId].approvalStatus == ApprovalPending
      && (d.Approve? || Truthy(reason))
  {
    if userId !in users then Some(UserNotFound)
    else if users[userId].kycStatus != KycCompleted then Some(KycNotCompleted)
    else if users[userId].approvalStatus != ApprovalPending then Some(UserAlreadyProcessed)
    else if d.Reject? && !Truthy(reason) then Some(RejectionReasonMandatory)
    else None
  }

  /** APPROVE approves, REJECT rejects. */
  function ApprovalOf(d: Decision): ApprovalStatus
  {
    match d
    case Approve => ApprovalApproved
    case Reject => ApprovalRejected
  }

  /** update_approval_status: APPROVE sets APPROVED and REJECT sets
      REJECTED, together with who decided and when; every other field of the
      user is kept. */
  function Decided(u: User, d: Decision, managerId: string, now: Time): (v: User)
    ensures v.approvalStatus == (if d.Approve? then ApprovalApproved else ApprovalRejected)
    ensures v.approvedByManagerId == Some(managerId) && v.updatedAt == now
    ensures v.(approvalStatus := u.approvalStatus, approvedByManagerId := u.approvedByManagerId, updatedAt := u.updatedAt) == u
  {
    u.(approvalStatus := ApprovalOf(d), approvedByManagerId := Some(managerId), updatedAt := now)
  }

  /** The audit entry of a user decision. */
  function UserAudit(managerId: string, userId: UserId, d: Decision, reason: Option<string>, now: Time): AuditEntry
  {
    AuditEntry(managerId, "BANK_MANAGER", "USER_" + DecisionName(d), "USER", userId, reason, now)
  }

  /** A user can be decided once: whatever the second decision and reason,
      it fails with "User already processed". */
  lemma SecondUserDecisionFails(users: map<UserId, User>, userId: UserId, d: Decision, reason: Option<string>,
                                managerId: string, now: Time, d2: Decision, reason2: Option<string>)
    requires UserDecisionError(users, userId, d, reason) == None
    ensures UserDecisionError(users[userId := Decided(users[userId], d, managerId, now)], userId, d2, reason2)
         == Some(UserAlreadyProcessed)
  {
  }

  /** decide_user: on a failed guard neither the users nor the audit log
      change; otherwise the user gets the decision and exactly one audit entry
      is appended. */
  method DecideUser(db: Database, managerId: string, userId: UserId, d: Decision, reason: Option<string>, now: Time)
    returns (failure: Option<Error>)
    modifies db`users, db`auditLogs
    ensures failure == UserDecisionError(old(db.users), userId, d, reason)
    ensures failure.Some? ==> db.users == old(db.users) && db.auditLogs == old(db.auditLogs)
    ensures failure.None? ==>
      && db.users == old(db.users)[userId := Decided(old(db.users)[userId], d, managerId, now)]
      && db.auditLogs == old(db.auditLogs) + [UserAudit(managerId, userId, d, reason, now)]
  {
    failure := UserDecisionError(db.users, userId, d, reason);
    if failure.Some? {
      return;
    }
    var status := if d == Approve then ApprovalApproved else ApprovalRejected;
    db.users := db.users[userId := db.users[userId].(approvalStatus := status, approvedByManagerId := Some(managerId), updatedAt := now)];
    db.auditLogs := db.auditLogs + [AuditEntry(managerId, "BANK_MANAGER", "USER_" + DecisionName(d), "USER", userId, reason, now)];
  }
}
