/** The EMI auto-debit batch as a function of the collections it touches
    (app/scheduler/emi_scheduler.py): which installments are due, what
    settling one of them does, and what a whole run does. */
module Settlement {
  import opened Common
  import opened Records
  import opened RepaymentSummaryService
  import opened CibilService

  /** The query of the batch: due_date <= now and status PENDING or FAILED. */
  predicate IsDue(r: Repayment, now: Time)
  {
    r.dueDate <= now && (r.status == RepaymentPending || r.status == RepaymentFailed)
  }

  /** Positions of the due installments, in stored order. */
  function DueIndices(rows: seq<Repayment>, now: Time): (ids: seq<nat>)
    ensures forall k :: 0 <= k < |ids| ==> ids[k] < |rows| && IsDue(rows[ids[k]], now)
    ensures forall i :: 0 <= i < |rows| && IsDue(rows[i], now) ==> i in ids
    ensures forall k, l :: 0 <= k < l < |ids| ==> ids[k] < ids[l]
  {
    if |rows| == 0 then []
    else
      var n := |rows| - 1;
      var prefix := DueIndices(rows[..n], now);
      if IsDue(rows[n], now) then prefix + [n] else prefix
  }

  /** The installment after a failed debit: FAILED, one more attempt. */
  function FailedAttempt(r: Repayment, now: Time): Repayment
  {
    r.(status := RepaymentFailed, attempts := r.attempts + 1, updatedAt := Some(now))
  }

  /** The installment after a successful debit: PAID at `now`. */
  function Settled(r: Repayment, now: Time): Repayment
  {
    r.(status := RepaymentPaid, paidAt := Some(now), updatedAt := Some(now))
  }

  /** The ledger entry of a successful debit. */
  function EmiEntry(r: Repayment, balanceAfter: int, now: Time): Transaction
  {
    Transaction(r.loanId, r.userId, Some(r.emiNumber), r.emiAmount, Emi, TxnPaid, balanceAfter, now)
  }

  /** $inc missed_emis on the loan; a missing loan document is left alone. */
  function IncMissed(loans: map<LoanId, Loan>, id: LoanId): map<LoanId, Loan>
  {
    if id in loans then loans[id := loans[id].(missedEmis := loans[id].missedEmis + 1)] else loans
  }

  /** $inc paid_emis on the loan; a missing loan document is left alone. */
  function IncPaid(loans: map<LoanId, Loan>, id: LoanId): map<LoanId, Loan>
  {
    if id in loans then loans[id := loans[id].(paidEmis := loans[id].paidEmis + 1)] else loans
  }

  /** $set cibil_score and cibil_updated_at on the user; a missing user is left alone. */
  function SetScore(users: map<UserId, User>, id: UserId, score: int, now: Time): map<UserId, User>
  {
    if id in users then users[id := users[id].(cibilScore := Some(score), cibilUpdatedAt := Some(now))] else users
  }

  /** The user's account exists and covers the installment. */
  predicate CanDebit(accounts: map<UserId, Account>, r: Repayment)
  {
    r.userId in accounts && accounts[r.userId].balance >= r.emiAmount
  }

  /** One iteration of the batch on the installment at position i. It only
      rewrites that installment, appends to the ledger and updates existing
      accounts, loans and users. */
  function SettleStep(b: Books, i: nat, now: Time): (r: Books)
    ensures |r.repayments| == |b.repayments|
    ensures forall j :: 0 <= j < |b.repayments| && j != i ==> r.repayments[j] == b.repayments[j]
    ensures |b.transactions| <= |r.transactions| && r.transactions[..|b.transactions|] == b.transactions
    ensures r.accounts.Keys == b.accounts.Keys && r.loans.Keys == b.loans.Keys && r.users.Keys == b.users.Keys
  {
    if i >= |b.repayments| then b
    else
      var emi := b.repayments[i];
      if emi.status == RepaymentPaid then b
      else if !CanDebit(b.accounts, emi) then
        var rows := b.repayments[i := FailedAttempt(emi, now)];
        var loans := IncMissed(b.loans, emi.loanId);
        var score := Calculate(BuildSummary(rows, b.transactions, emi.loanId));
        Books(SetScore(b.users, emi.userId, score, now), b.accounts, loans, rows, b.transactions)
      else
        var newBalance := b.accounts[emi.userId].balance - emi.emiAmount;
        var accounts := b.accounts[emi.userId := Account(newBalance, now)];
        var rows := b.repayments[i := Settled(emi, now)];
        var txns := b.transactions + [EmiEntry(emi, newBalance, now)];
        var loans := IncPaid(b.loans, emi.loanId);
        var score := Calculate(BuildSummary(rows, txns, emi.loanId));
        Books(SetScore(b.users, emi.userId, score, now), accounts, loans, rows, txns)
  }

  /** The batch over the positions `ids`, one after the other; each step sees
      the balances left by the steps before it. */
  function SettleAll(b: Books, ids: seq<nat>, now: Time): (r: Books)
    ensures |r.repayments| == |b.repayments|
    ensures forall j :: 0 <= j < |b.repayments| && j !in ids ==> r.repayments[j] == b.repayments[j]
    ensures |b.transactions| <= |r.transactions| && r.transactions[..|b.transactions|] == b.transactions
    ensures r.accounts.Keys == b.accounts.Keys && r.loans.Keys == b.loans.Keys && r.users.Keys == b.users.Keys
  {
    if |ids| == 0 then b
    else
      var prefix := ids[..|ids| - 1];
      var m := SettleAll(b, prefix, now);
      assert forall j :: j in prefix ==> j in ids;
      assert m.transactions[..|b.transactions|] == b.transactions;
      SettleStep(m, ids[|ids| - 1], now)
  }

  /** Extending the positions by one settles one more installment. */
  lemma SettleAllSnoc(b: Books, ids: seq<nat>, i: nat, now: Time)
    ensures SettleAll(b, ids + [i], now) == SettleStep(SettleAll(b, ids, now), i, now)
  {
    assert (ids + [i])[..|ids|] == ids;
  }

  /** process_due_emis: settle every due installment of the store. */
  function ProcessDue(b: Books, now: Time): (r: Books)
    ensures |r.repayments| == |b.repayments|
    ensures |b.transactions| <= |r.transactions|
    ensures r.accounts.Keys == b.accounts.Keys && r.loans.Keys == b.loans.Keys && r.users.Keys == b.users.Keys
  {
    SettleAll(b, DueIndices(b.repayments, now), now)
  }
}
