/** The documents kept in each collection. Amounts and balances are integer
    paise; fields no modelled operation reads or writes are omitted. */
module Records {
  import opened Common

  datatype Address = Address(line1: string, city: string, state: string, pincode: string)

  /** What a completed KYC submission stores on the user. */
  datatype KycDetails = KycDetails(
    aadhaar: string,
    pan: string,
    dob: Date,
    gender: Gender,
    occupation: string,
    address: Address)

  datatype User = User(
    name: string,
    phone: string,
    passwordHash: string,
    kycStatus: KycStatus,
    approvalStatus: ApprovalStatus,
    /** None stands for a document without the field. */
    isMinor: Option<bool>,
    kyc: Option<KycDetails>,
    approvedByManagerId: Option<string>,
    cibilScore: Option<int>,
    cibilUpdatedAt: Option<Time>,
    createdAt: Time,
    updatedAt: Time)

  datatype Account = Account(balance: int, updatedAt: Time)

  datatype Manager = Manager(
    managerId: string,
    name: string,
    phone: string,
    role: Role,
    passwordHash: string,
    status: string,
    approvedByAdmin: bool,
    createdAt: Time)

  /** The fields a loan manager's decision sets. */
  datatype DecisionRecord = DecisionRecord(reason: Option<string>, decidedBy: string, decidedAt: Time)

  datatype LoanApplication = LoanApplication(
    userId: UserId,
    loanType: LoanType,
    loanAmount: int,
    tenureMonths: int,
    reason: string,
    incomeSlipUrl: string,
    status: LoanStatus,
    appliedAt: Time,
    idempotencyKey: string,
    decision: Option<DecisionRecord>)

  /** The request body of a loan application. */
  datatype LoanRequest = LoanRequest(
    loanType: LoanType,
    loanAmount: int,
    tenureMonths: int,
    reason: string,
    incomeSlipUrl: string)

  /** A disbursed loan; only its owner and the two counters that settlement
      increments are modelled (a missing counter reads as 0 under $inc). */
  datatype Loan = Loan(userId: UserId, missedEmis: nat, paidEmis: nat)

  /** One installment of a repayment schedule. */
  datatype Repayment = Repayment(
    loanId: LoanId,
    userId: UserId,
    emiNumber: int,
    dueDate: Time,
    emiAmount: int,
    status: RepaymentStatus,
    attempts: nat,
    paidAt: Option<Time>,
    updatedAt: Option<Time>)

  /** An entry of the loan ledger (its random transaction id is not modelled). */
  datatype Transaction = Transaction(
    loanId: LoanId,
    userId: UserId,
    emiNumber: Option<int>,
    amount: int,
    transactionType: TransactionType,
    status: TransactionStatus,
    balanceAfter: int,
    createdAt: Time)

  datatype AuditEntry = AuditEntry(
    actorId: string,
    actorRole: string,
    action: string,
    entityType: string,
    entityId: string,
    remarks: Option<string>,
    timestamp: Time)

  /** A stored rule configuration; `decision` is the raw stored text. */
  datatype RuleConfig = RuleConfig(
    ruleType: string,
    active: bool,
    minScore: int,
    maxScore: int,
    decision: string)

  /** The collections the EMI settlement batch reads and writes. */
  datatype Books = Books(
    users: map<UserId, User>,
    accounts: map<UserId, Account>,
    loans: map<LoanId, Loan>,
    repayments: seq<Repayment>,
    transactions: seq<Transaction>)
}
