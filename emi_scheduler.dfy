/** The EMI auto-debit batch as it runs against the store
    (app/scheduler/emi_scheduler.py): the loop over the due installments and
    the writes of each iteration, in the order the batch issues them. */
module EmiScheduler {
  import opened Common
  import opened Records
  import opened RepaymentSummaryService
  import opened CibilService
  import opened Settlement
  import opened SettlementProperties
  import opened Db

  /** The loop body on the installment at position i: skip it if PAID;
      otherwise record a failed attempt (no account, or a balance short of
      the installment) or debit the account. */
  method SettleInstallment(db: Database, i: nat, now: Time)
    modifies db`users, db`accounts, db`loans, db`repayments, db`transactions
    ensures db.CurrentBooks() == SettleStep(old(db.CurrentBooks()), i, now)
  {
    if i >= |db.repayments| {
      return;
    }
    var emi := db.repayments[i];
    if emi.status == RepaymentPaid {
      return;
    }
    if emi.userId !in db.accounts || db.accounts[emi.userId].balance < emi.emiAmount {
      RecordFailedAttempt(db, i, now);
    } else {
      DebitInstallment(db, i, now);
    }
  }

  /** The branch for a missing account or a short balance: the installment
      becomes FAILED with one more attempt, the loan's missed counter grows,
      and the user's score is recomputed after those writes. */
  method RecordFailedAttempt(db: Database, i: nat, now: Time)
    requires i < |db.repayments| && db.repayments[i].status != RepaymentPaid
    requires !CanDebit(db.accounts, db.repayments[i])
    modifies db`users, db`loans, db`repayments
    ensures db.CurrentBooks() == SettleStep(old(db.CurrentBooks()), i, now)
  {
    var emi := db.repayments[i];
    db.repayments := db.repayments[i := FailedAttempt(emi, now)];
    db.loans := IncMissed(db.loans, emi.loanId);
    var score := Calculate(BuildSummary(db.repayments, db.transactions, emi.loanId));
    db.users := SetScore(db.users, emi.userId, score, now);
  }

  /** The branch for a sufficient balance: debit the account, mark the
      installment PAID, write the ledger entry, bump the loan's paid counter
      and store the recomputed score. */
  method DebitInstallment(db: Database, i: nat, now: Time)
    requires i < |db.repayments| && db.repayments[i].status != RepaymentPaid
    requires CanDebit(db.accounts, db.repayments[i])
    modifies db`users, db`accounts, db`loans, db`repayments, db`transactions
    ensures db.CurrentBooks() == SettleStep(old(db.CurrentBooks()), i, now)
  {
    var emi := db.repayments[i];
    var newBalance := db.accounts[emi.userId].balance - emi.emiAmount;
    db.accounts := db.accounts[emi.userId := Account(newBalance, now)];
    db.repayments := db.repayments[i := Settled(emi, now)];
    db.transactions := db.transactions + [EmiEntry(emi, newBalance, now)];
    db.loans := IncPaid(db.loans, emi.loanId);
    var score := Calculate(BuildSummary(db.repayments, db.transactions, emi.loanId));
    db.users := SetScore(db.users, emi.userId, score, now);
  }

  /** The loop of the batch over the given positions, in order. */
  method SettleEach(db: Database, ids: seq<nat>, now: Time)
    modifies db`users, db`accounts, db`loans, db`repayments, db`transactions
    ensures db.CurrentBooks() == SettleAll(old(db.CurrentBooks()), ids, now)
  {
    ghost var start := db.CurrentBooks();
    var k := 0;
    while k < |ids|
      invariant 0 <= k <= |ids|
      invariant db.CurrentBooks() == SettleAll(start, ids[..k], now)
    {
      assert ids[..k + 1] == ids[..k] + [ids[k]];
      SettleAllSnoc(start, ids[..k], ids[k], now);
      SettleInstallment(db, ids[k], now);
      k := k + 1;
    }
    assert ids[..k] == ids;
  }

  /** process_due_emis: query the due installments once, then settle them one
      after the other. The store ends as the specification of a run says;
      hence installments that were not due are untouched, due ones end FAILED
      with one more attempt or PAID at `now`, and money, ledger, loan
      counters and users keep the run invariant. */
  method ProcessDueEmis(db: Database, now: Time)
    modifies db`users, db`accounts, db`loans, db`repayments, db`transactions
    ensures db.CurrentBooks() == ProcessDue(old(db.CurrentBooks()), now)
    ensures RunInvariant(old(db.CurrentBooks()), db.CurrentBooks())
    ensures forall i :: 0 <= i < |old(db.repayments)| && !IsDue(old(db.repayments)[i], now) ==>
      db.repayments[i] == old(db.repayments)[i]
    ensures forall i :: 0 <= i < |old(db.repayments)| && IsDue(old(db.repayments)[i], now) ==>
      db.repayments[i] == FailedAttempt(old(db.repayments)[i], now) || db.repayments[i] == Settled(old(db.repayments)[i], now)
  {
    ghost var start := db.CurrentBooks();
    var due := DueIndices(db.repayments, now);
    SettleEach(db, due, now);
    ProcessDueOutcome(start, now);
  }
}
