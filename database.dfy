/** The document store shared by every service: one field per collection,
    updated in place by the service methods. */
module Db {
  import opened Common
  import opened Records

  class Database {
    var users: map<UserId, User>
    var accounts: map<UserId, Account>
    var managers: seq<Manager>
    var applications: map<AppId, LoanApplication>
    var loans: map<LoanId, Loan>
    var repayments: seq<Repayment>
    var transactions: seq<Transaction>
    var auditLogs: seq<AuditEntry>
    var ruleConfigurations: seq<RuleConfig>

    constructor ()
      ensures users == map[] && accounts == map[] && managers == []
      ensures applications == map[] && loans == map[]
      ensures repayments == [] && transactions == [] && auditLogs == []
      ensures ruleConfigurations == []
    {
      users := map[];
      accounts := map[];
      managers := [];
      applications := map[];
      loans := map[];
      repayments := [];
      transactions := [];
      auditLogs := [];
      ruleConfigurations := [];
    }

    /** The part of the store the EMI settlement batch works on. */
    function CurrentBooks(): Books
      reads this
    {
      Books(users, accounts, loans, repayments, transactions)
    }
  }
}
