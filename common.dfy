/** Vocabulary shared by every service: opaque ids, clock values, the
    enumerations of the application and the error outcomes of the services. */
module Common {

  /** Opaque store identifiers (Mongo ObjectIds rendered as strings). */
  type UserId = string
  type AppId = string
  type LoanId = string

  /** A point in time as read from the injected clock. */
  type Time = int

  /** A calendar date as the KYC form carries it. */
  datatype Date = Date(year: int, month: int, day: int)

  datatype Option<+T> = None | Some(value: T)

  datatype Result<+T, +E> = Success(value: T) | Failure(error: E)

  /** Roles carried by authenticated actors. */
  datatype Role = UserRole | BankManagerRole | LoanManagerRole | AdminRole

  datatype KycStatus = KycPending | KycCompleted

  datatype ApprovalStatus = ApprovalPending | ApprovalApproved | ApprovalRejected | ApprovalDeleted

  datatype Gender = Male | Female | Other

  datatype LoanType = Personal | Home | Auto | Education

  /** The members of the loan application status enumeration, exactly as
      declared: there is no MANUAL_REVIEW member. */
  datatype LoanStatus =
    | Pending
    | Approved
    | Rejected
    | Escalated
    | AdminApproved
    | AdminRejected
    | Finalized

  datatype SystemDecision = AutoApproved | ManualReview | AutoRejected

  /** Decision payload of both manager endpoints (APPROVE / REJECT). */
  datatype Decision = Approve | Reject

  datatype RepaymentStatus = RepaymentPending | RepaymentPaid | RepaymentFailed

  datatype TransactionType = Emi | Penalty | Refund

  datatype TransactionStatus = TxnPaid | TxnFailed | TxnPending

  /** Every failure a service raises, one per distinct message. */
  datatype Error =
    | UserNotFound
    | UserAlreadyExists
    | KycAlreadyCompleted
    | KycNotCompleted
    | UserNotApprovedByBank
    | MinorNotEligible
    | UserAlreadyProcessed
    | RejectionReasonMandatory
    | LoanApplicationNotFound
    | LoanAlreadyProcessed
    | InvalidAmount
    | InvalidManagerRole
    | ManagerIdExists
    | UnknownSystemDecision(text: string)
    | UndefinedStatusMember(name: string)

  /** Python truthiness of an optional string: None and "" are both false. */
  predicate Truthy(s: Option<string>)
  {
    s.Some? && s.value != ""
  }

  /** The text of a manager decision as it appears in audit actions. */
  function DecisionName(d: Decision): string
  {
    match d
    case Approve => "APPROVE"
    case Reject => "REJECT"
  }
}
