/** What one settlement step and one whole run of the EMI batch guarantee:
    the branch outcomes, conservation of money against the installments that
    became PAID, the ledger, the loan counters, and that PAID or not-yet-due
    installments are never touched. */
module SettlementProperties {
  import opened Common
  import opened Records
  import opened RepaymentSummaryService
  import opened CibilService
  import opened Settlement

  // ---------------------------------------------------------------------
  // One step
  // ---------------------------------------------------------------------

  /** An installment that is already PAID is skipped: nothing changes. */
  lemma SettleStepSkipsPaid(b: Books, i: nat, now: Time)
    requires i < |b.repayments| && b.repayments[i].status == RepaymentPaid
    ensures SettleStep(b, i, now) == b
  {
  }

  /** Missing account or short balance: the installment becomes FAILED with
      one more attempt, the loan's missed counter grows by one, no money moves,
      no ledger entry is written, and the user's score (and its timestamp) is
      recomputed from the schedule as it is after the FAILED write, which is
      at most 670; every other user is untouched. */
  lemma SettleStepFailure(b: Books, i: nat, now: Time)
    requires i < |b.repayments|
    requires b.repayments[i].status != RepaymentPaid && !CanDebit(b.accounts, b.repayments[i])
    ensures var r := SettleStep(b, i, now); var emi := b.repayments[i];
      && r.repayments == b.repayments[i := FailedAttempt(emi, now)]
      && r.repayments[i].status == RepaymentFailed
      && r.repayments[i].attempts == emi.attempts + 1
      && r.accounts == b.accounts
      && r.transactions == b.transactions
      && (emi.loanId in b.loans ==> r.loans == b.loans[emi.loanId := b.loans[emi.loanId].(missedEmis := b.loans[emi.loanId].missedEmis + 1)])
      && (emi.loanId !in b.loans ==> r.loans == b.loans)
      && r.users.Keys == b.users.Keys
      && (forall u :: u in b.users && u != emi.userId ==> r.users[u] == b.users[u])
      && (emi.userId in b.users ==>
            && r.users[emi.userId] == b.users[emi.userId].(cibilScore := r.users[emi.userId].cibilScore, cibilUpdatedAt := Some(now))
            && r.users[emi.userId].cibilScore == Some(Calculate(BuildSummary(r.repayments, b.transactions, emi.loanId)))
            && r.users[emi.userId].cibilScore.value <= 670)
  {
    var rows := b.repayments[i := FailedAttempt(b.repayments[i], now)];
    CountWithStatusPositive(rows, i);
    CalculateOnBuiltSummary(BuildSummary(rows, b.transactions, b.repayments[i].loanId));
  }

  /** Sufficient balance: the account is debited by exactly the installment
      amount (so the new balance is never negative), the installment becomes
      PAID at `now`, exactly one EMI entry carrying the amount and the new
      balance is appended, the loan's paid counter grows by one, and the
      user's score (and its timestamp) is recomputed, every other user being
      untouched; the EMI entry itself never counts as late. */
  lemma SettleStepSuccess(b: Books, i: nat, now: Time)
    requires i < |b.repayments|
    requires b.repayments[i].status != RepaymentPaid && CanDebit(b.accounts, b.repayments[i])
    ensures var r := SettleStep(b, i, now); var emi := b.repayments[i];
      var newBalance := b.accounts[emi.userId].balance - emi.emiAmount;
      && newBalance >= 0
      && r.accounts == b.accounts[emi.userId := Account(newBalance, now)]
      && r.repayments == b.repayments[i := Settled(emi, now)]
      && r.repayments[i].status == RepaymentPaid && r.repayments[i].paidAt == Some(now)
      && r.transactions == b.transactions + [EmiEntry(emi, newBalance, now)]
      && r.transactions[|b.transactions|].amount == emi.emiAmount
      && r.transactions[|b.transactions|].balanceAfter == newBalance
      && (emi.loanId in b.loans ==> r.loans == b.loans[emi.loanId := b.loans[emi.loanId].(paidEmis := b.loans[emi.loanId].paidEmis + 1)])
      && (emi.loanId !in b.loans ==> r.loans == b.loans)
      && r.users.Keys == b.users.Keys
      && (forall u :: u in b.users && u != emi.userId ==> r.users[u] == b.users[u])
      && (emi.userId in b.users ==>
            && r.users[emi.userId] == b.users[emi.userId].(cibilScore := r.users[emi.userId].cibilScore, cibilUpdatedAt := Some(now))
            && r.users[emi.userId].cibilScore == Some(Calculate(BuildSummary(r.repayments, b.transactions, emi.loanId))))
  {
    var emi := b.repayments[i];
    var newBalance := b.accounts[emi.userId].balance - emi.emiAmount;
    SummaryIgnoresOtherTransactions(b.repayments[i := Settled(emi, now)], b.transactions, EmiEntry(emi, newBalance, now), emi.loanId);
  }

  // ---------------------------------------------------------------------
  // Tallies: what a run changed, installment by installment
  // ---------------------------------------------------------------------

  /** What a run is measured by. */
  datatype Measure =
    | DebitOf(user: UserId)        // amounts of the user's installments that became PAID
    | PaidTotal                    // installments that became PAID
    | PaidOfLoan(loan: LoanId)     // the loan's installments that became PAID
    | AttemptsOfLoan(loan: LoanId) // failed attempts added to the loan's installments

  /** What one installment contributes to a measure, given its state before
      and after the run. */
  function Contribution(m: Measure, before: Repayment, after: Repayment): int
  {
    var newlyPaid := before.status != RepaymentPaid && after.status == RepaymentPaid;
    match m
    case DebitOf(u) => if newlyPaid && after.userId == u then after.emiAmount else 0
    case PaidTotal => if newlyPaid then 1 else 0
    case PaidOfLoan(l) => if newlyPaid && after.loanId == l then 1 else 0
    case AttemptsOfLoan(l) => if after.loanId == l then after.attempts - before.attempts else 0
  }

  /** The sum of the contributions of all installments. */
  function Tally(m: Measure, before: seq<Repayment>, after: seq<Repayment>): int
    requires |before| == |after|
  {
    if |after| == 0 then 0
    else
      var n := |after| - 1;
      Tally(m, before[..n], after[..n]) + Contribution(m, before[n], after[n])
  }

  /** Nothing changed, nothing tallied. */
  lemma {:induction false} TallyUnchanged(m: Measure, rows: seq<Repayment>)
    ensures Tally(m, rows, rows) == 0
  {
    if |rows| > 0 {
      TallyUnchanged(m, rows[..|rows| - 1]);
    }
  }

  /** Rewriting one installment changes a tally by the difference of its
      contributions. */
  lemma {:induction false} TallyUpdate(m: Measure, before: seq<Repayment>, after: seq<Repayment>, i: nat, x: Repayment)
    requires |before| == |after| && i < |after|
    ensures Tally(m, before, after[i := x])
         == Tally(m, before, after) - Contribution(m, before[i], after[i]) + Contribution(m, before[i], x)
  {
    var n := |after| - 1;
    if i < n {
      TallyUpdate(m, before[..n], after[..n], i, x);
      assert after[i := x][..n] == after[..n][i := x];
    } else {
      assert after[i := x][..n] == after[..n];
    }
  }

  // ---------------------------------------------------------------------
  // The run invariant
  // ---------------------------------------------------------------------

  /** A settlement never alters which loan, user, number, due date or amount
      an installment has. */
  predicate SameSchedule(x: Repayment, y: Repayment)
  {
    x.loanId == y.loanId && x.userId == y.userId && x.emiNumber == y.emiNumber
    && x.dueDate == y.dueDate && x.emiAmount == y.emiAmount
  }

  /** The schedule keeps its rows, PAID rows are never touched and attempt
      counters never fall. */
  ghost predicate ScheduleKept(b: Books, m: Books)
  {
    && |m.repayments| == |b.repayments|
    && (forall i :: 0 <= i < |b.repayments| ==> SameSchedule(b.repayments[i], m.repayments[i]))
    && (forall i :: 0 <= i < |b.repayments| && b.repayments[i].status == RepaymentPaid ==> m.repayments[i] == b.repayments[i])
    && (forall i :: 0 <= i < |b.repayments| ==> m.repayments[i].attempts >= b.repayments[i].attempts)
  }

  /** Every balance fell by exactly the installments of its user that became
      PAID; a non-negative balance stays non-negative. */
  ghost predicate MoneyKept(b: Books, m: Books)
  {
    && |m.repayments| == |b.repayments|
    && m.accounts.Keys == b.accounts.Keys
    && (forall u :: u in b.accounts ==> b.accounts[u].balance - m.accounts[u].balance == Tally(DebitOf(u), b.repayments, m.repayments))
    && (forall u :: u in b.accounts && b.accounts[u].balance >= 0 ==> m.accounts[u].balance >= 0)
    && (forall u :: u !in b.accounts ==> Tally(DebitOf(u), b.repayments, m.repayments) == 0)
  }

  /** The amounts of a user's paid EMI entries in a stretch of the ledger. */
  function LedgerDebit(u: UserId, txns: seq<Transaction>): int
  {
    if |txns| == 0 then 0
    else
      var n := |txns| - 1;
      var t := txns[n];
      LedgerDebit(u, txns[..n]) + (if t.userId == u && t.transactionType == Emi && t.status == TxnPaid then t.amount else 0)
  }

  /** The ledger is append-only and gained one paid EMI entry, with a
      non-negative balance snapshot, per installment that became PAID; the
      new entries of each user add up to exactly that user's installments
      that became PAID. */
  ghost predicate LedgerKept(b: Books, m: Books)
  {
    && |m.repayments| == |b.repayments|
    && |b.transactions| <= |m.transactions|
    && m.transactions[..|b.transactions|] == b.transactions
    && |m.transactions| - |b.transactions| == Tally(PaidTotal, b.repayments, m.repayments)
    && (forall k :: |b.transactions| <= k < |m.transactions| ==>
          m.transactions[k].transactionType == Emi && m.transactions[k].status == TxnPaid && m.transactions[k].balanceAfter >= 0)
    && (forall u :: LedgerDebit(u, m.transactions[|b.transactions|..]) == Tally(DebitOf(u), b.repayments, m.repayments))
  }

  /** A loan's paid counter grew by its installments that became PAID and its
      missed counter by the failed attempts added to its installments. */
  ghost predicate LoansKept(b: Books, m: Books)
  {
    && |m.repayments| == |b.repayments|
    && m.loans.Keys == b.loans.Keys
    && (forall l :: l in b.loans ==>
          && m.loans[l].userId == b.loans[l].userId
          && m.loans[l].paidEmis - b.loans[l].paidEmis == Tally(PaidOfLoan(l), b.repayments, m.repayments)
          && m.loans[l].missedEmis - b.loans[l].missedEmis == Tally(AttemptsOfLoan(l), b.repayments, m.repayments))
  }

  /** Users keep everything but their score fields. */
  ghost predicate UsersKept(b: Books, m: Books)
  {
    && m.users.Keys == b.users.Keys
    && (forall u :: u in b.users ==>
          m.users[u] == b.users[u].(cibilScore := m.users[u].cibilScore, cibilUpdatedAt := m.users[u].cibilUpdatedAt))
  }

  /** The relation between the books before a run (`b`) and at any point of
      it (`m`). */
  ghost predicate RunInvariant(b: Books, m: Books)
  {
    ScheduleKept(b, m) && MoneyKept(b, m) && LedgerKept(b, m) && LoansKept(b, m) && UsersKept(b, m)
  }

  lemma RunInvariantStart(b: Books)
    ensures RunInvariant(b, b)
  {
    forall m: Measure ensures Tally(m, b.repayments, b.repayments) == 0 {
      TallyUnchanged(m, b.repayments);
    }
    assert b.transactions[|b.transactions|..] == [];
  }

  /** How one step moves every tally: by the contributions of the one row it
      rewrites. */
  lemma StepTallies(b: Books, m: Books, i: nat, now: Time)
    requires ScheduleKept(b, m) && i < |m.repayments|
    ensures var r := SettleStep(m, i, now);
      forall ms: Measure :: Tally(ms, b.repayments, r.repayments)
        == Tally(ms, b.repayments, m.repayments) - Contribution(ms, b.repayments[i], m.repayments[i])
           + Contribution(ms, b.repayments[i], r.repayments[i])
  {
    var r := SettleStep(m, i, now);
    assert r.repayments == m.repayments[i := r.repayments[i]];
    forall ms: Measure
      ensures Tally(ms, b.repayments, r.repayments)
        == Tally(ms, b.repayments, m.repayments) - Contribution(ms, b.repayments[i], m.repayments[i])
           + Contribution(ms, b.repayments[i], r.repayments[i])
    {
      TallyUpdate(ms, b.repayments, m.repayments, i, r.repayments[i]);
    }
  }

  lemma StepKeepsSchedule(b: Books, m: Books, i: nat, now: Time)
    requires ScheduleKept(b, m)
    ensures ScheduleKept(b, SettleStep(m, i, now))
  {
  }

  /** What one step on an unpaid installment writes to the schedule, the
      accounts and the loans, in either branch. */
  lemma StepShape(m: Books, i: nat, now: Time)
    requires i < |m.repayments| && m.repayments[i].status != RepaymentPaid
    ensures var r := SettleStep(m, i, now); var emi := m.repayments[i];
      && (CanDebit(m.accounts, emi) ==>
            && r.repayments == m.repayments[i := Settled(emi, now)]
            && r.accounts == m.accounts[emi.userId := Account(m.accounts[emi.userId].balance - emi.emiAmount, now)]
            && r.loans == IncPaid(m.loans, emi.loanId))
      && (!CanDebit(m.accounts, emi) ==>
            && r.repayments == m.repayments[i := FailedAttempt(emi, now)]
            && r.accounts == m.accounts
            && r.loans == IncMissed(m.loans, emi.loanId))
  {
  }

  /** One settled installment moves the balance of a user by exactly its
      change of that user's debit tally. */
  lemma BalanceMove(before: seq<Repayment>, rows: seq<Repayment>, accounts: map<UserId, Account>, i: nat,
                    x: Repayment, after: map<UserId, Account>, u: UserId, now: Time)
    requires |before| == |rows| && i < |rows|
    requires before[i].status != RepaymentPaid && rows[i].status != RepaymentPaid && SameSchedule(before[i], rows[i])
    requires var emi := rows[i];
      || (CanDebit(accounts, emi) && x == Settled(emi, now)
          && after == accounts[emi.userId := Account(accounts[emi.userId].balance - emi.emiAmount, now)])
      || (!CanDebit(accounts, emi) && x == FailedAttempt(emi, now) && after == accounts)
    ensures after.Keys == accounts.Keys
    ensures u in accounts ==>
      accounts[u].balance - after[u].balance == Tally(DebitOf(u), before, rows[i := x]) - Tally(DebitOf(u), before, rows)
    ensures u in accounts && accounts[u].balance >= 0 ==> after[u].balance >= 0
    ensures u !in accounts ==> Tally(DebitOf(u), before, rows[i := x]) == Tally(DebitOf(u), before, rows)
  {
    TallyUpdate(DebitOf(u), before, rows, i, x);
  }

  lemma StepKeepsMoney(b: Books, m: Books, i: nat, now: Time)
    requires ScheduleKept(b, m) && MoneyKept(b, m)
    ensures MoneyKept(b, SettleStep(m, i, now))
  {
    if i < |m.repayments| && m.repayments[i].status != RepaymentPaid {
      StepShape(m, i, now);
      var r := SettleStep(m, i, now);
      assert b.repayments[i].status != RepaymentPaid;
      assert SameSchedule(b.repayments[i], m.repayments[i]);
      var x := r.repayments[i];
      assert r.repayments == m.repayments[i := x];
      forall u ensures
        && (u in b.accounts ==> b.accounts[u].balance - r.accounts[u].balance == Tally(DebitOf(u), b.repayments, r.repayments))
        && (u in b.accounts && b.accounts[u].balance >= 0 ==> r.accounts[u].balance >= 0)
        && (u !in b.accounts ==> Tally(DebitOf(u), b.repayments, r.repayments) == 0)
      {
        BalanceMove(b.repayments, m.repayments, m.accounts, i, x, r.accounts, u, now);
      }
    }
  }

  /** One settled installment moves a user's new ledger amounts by exactly
      its change of that user's debit tally. */
  lemma LedgerMove(before: seq<Repayment>, rows: seq<Repayment>, start: seq<Transaction>, txns: seq<Transaction>,
                   i: nat, x: Repayment, bal: int, newTxns: seq<Transaction>, u: UserId, now: Time)
    requires |before| == |rows| && i < |rows| && |start| <= |txns|
    requires before[i].status != RepaymentPaid && rows[i].status != RepaymentPaid
    requires var emi := rows[i];
      || (x == Settled(emi, now) && newTxns == txns + [EmiEntry(emi, bal, now)])
      || (x == FailedAttempt(emi, now) && newTxns == txns)
    ensures |start| <= |newTxns|
    ensures LedgerDebit(u, newTxns[|start|..]) - LedgerDebit(u, txns[|start|..])
         == Tally(DebitOf(u), before, rows[i := x]) - Tally(DebitOf(u), before, rows)
  {
    TallyUpdate(DebitOf(u), before, rows, i, x);
    if x == Settled(rows[i], now) {
      var tail := txns[|start|..];
      assert newTxns[|start|..] == tail + [EmiEntry(rows[i], bal, now)];
      assert (tail + [EmiEntry(rows[i], bal, now)])[..|tail|] == tail;
    }
  }

  lemma StepKeepsLedger(b: Books, m: Books, i: nat, now: Time)
    requires ScheduleKept(b, m) && LedgerKept(b, m)
    ensures LedgerKept(b, SettleStep(m, i, now))
  {
    if i < |m.repayments| && m.repayments[i].status != RepaymentPaid {
      StepTallies(b, m, i, now);
      assert b.repayments[i].status != RepaymentPaid;
      var r := SettleStep(m, i, now);
      var emi := m.repayments[i];
      var bal := 0;
      if CanDebit(m.accounts, emi) {
        SettleStepSuccess(m, i, now);
        bal := m.accounts[emi.userId].balance - emi.emiAmount;
      } else {
        SettleStepFailure(m, i, now);
      }
      var x := r.repayments[i];
      assert r.repayments == m.repayments[i := x];
      forall u ensures LedgerDebit(u, r.transactions[|b.transactions|..]) == Tally(DebitOf(u), b.repayments, r.repayments) {
        LedgerMove(b.repayments, m.repayments, b.transactions, m.transactions, i, x, bal, r.transactions, u, now);
      }
    }
  }

  /** One settled installment moves the counters of a loan by exactly its
      change of that loan's paid and failed-attempt tallies. */
  lemma CountersMove(before: seq<Repayment>, rows: seq<Repayment>, loans: map<LoanId, Loan>, i: nat,
                     x: Repayment, after: map<LoanId, Loan>, l: LoanId, now: Time)
    requires |before| == |rows| && i < |rows|
    requires before[i].status != RepaymentPaid && rows[i].status != RepaymentPaid && before[i].loanId == rows[i].loanId
    requires l in loans
    requires var emi := rows[i];
      || (x == Settled(emi, now) && after == IncPaid(loans, emi.loanId))
      || (x == FailedAttempt(emi, now) && after == IncMissed(loans, emi.loanId))
    ensures l in after && after[l].userId == loans[l].userId
    ensures after[l].paidEmis - loans[l].paidEmis
         == Tally(PaidOfLoan(l), before, rows[i := x]) - Tally(PaidOfLoan(l), before, rows)
    ensures after[l].missedEmis - loans[l].missedEmis
         == Tally(AttemptsOfLoan(l), before, rows[i := x]) - Tally(AttemptsOfLoan(l), before, rows)
  {
    TallyUpdate(PaidOfLoan(l), before, rows, i, x);
    TallyUpdate(AttemptsOfLoan(l), before, rows, i, x);
  }

  lemma StepKeepsLoans(b: Books, m: Books, i: nat, now: Time)
    requires ScheduleKept(b, m) && LoansKept(b, m)
    ensures LoansKept(b, SettleStep(m, i, now))
  {
    if i < |m.repayments| && m.repayments[i].status != RepaymentPaid {
      StepShape(m, i, now);
      var r := SettleStep(m, i, now);
      assert b.repayments[i].status != RepaymentPaid;
      assert SameSchedule(b.repayments[i], m.repayments[i]);
      var x := r.repayments[i];
      assert r.repayments == m.repayments[i := x];
      forall l | l in b.loans ensures
        && r.loans[l].userId == b.loans[l].userId
        && r.loans[l].paidEmis - b.loans[l].paidEmis == Tally(PaidOfLoan(l), b.repayments, r.repayments)
        && r.loans[l].missedEmis - b.loans[l].missedEmis == Tally(AttemptsOfLoan(l), b.repayments, r.repayments)
      {
        CountersMove(b.repayments, m.repayments, m.loans, i, x, r.loans, l, now);
      }
    }
  }

  lemma StepKeepsUsers(b: Books, m: Books, i: nat, now: Time)
    requires UsersKept(b, m)
    ensures UsersKept(b, SettleStep(m, i, now))
  {
  }

  /** A whole run keeps the run invariant. */
  lemma {:induction false} SettleAllKeepsRunInvariant(b: Books, ids: seq<nat>, now: Time)
    ensures RunInvariant(b, SettleAll(b, ids, now))
  {
    if |ids| == 0 {
      RunInvariantStart(b);
    } else {
      var m := SettleAll(b, ids[..|ids| - 1], now);
      var i := ids[|ids| - 1];
      SettleAllKeepsRunInvariant(b, ids[..|ids| - 1], now);
      StepKeepsSchedule(b, m, i, now);
      StepKeepsMoney(b, m, i, now);
      StepKeepsLedger(b, m, i, now);
      StepKeepsLoans(b, m, i, now);
      StepKeepsUsers(b, m, i, now);
    }
  }

  /** With distinct positions, each given installment is settled once: it
      ends FAILED with one more attempt or PAID at `now`, unless it was
      already PAID. */
  lemma {:induction false} SettleAllRowOutcome(b: Books, ids: seq<nat>, now: Time, i: nat)
    requires i < |b.repayments| && i in ids && b.repayments[i].status != RepaymentPaid
    requires forall k, l :: 0 <= k < l < |ids| ==> ids[k] != ids[l]
    ensures var r := SettleAll(b, ids, now);
      r.repayments[i] == FailedAttempt(b.repayments[i], now) || r.repayments[i] == Settled(b.repayments[i], now)
  {
    var n := |ids| - 1;
    var prefix := ids[..n];
    var m := SettleAll(b, prefix, now);
    if ids[n] == i {
      assert i !in prefix;
      assert m.repayments[i] == b.repayments[i];
    } else {
      assert i in prefix;
      assert forall k, l :: 0 <= k < l < |prefix| ==> prefix[k] != prefix[l];
      SettleAllRowOutcome(b, prefix, now, i);
    }
  }

  // ---------------------------------------------------------------------
  // The run over the due installments
  // ---------------------------------------------------------------------

  /** process_due_emis: installments that are not due (PAID, or due later)
      are left exactly as they were; every due installment ends FAILED with
      one more attempt or PAID at `now`; and the run invariant holds between
      the books before and after (money, ledger, counters, users). */
  lemma ProcessDueOutcome(b: Books, now: Time)
    ensures var r := ProcessDue(b, now);
      && RunInvariant(b, r)
      && |r.repayments| == |b.repayments|
      && (forall i :: 0 <= i < |b.repayments| && !IsDue(b.repayments[i], now) ==> r.repayments[i] == b.repayments[i])
      && (forall i :: 0 <= i < |b.repayments| && IsDue(b.repayments[i], now) ==>
            r.repayments[i] == FailedAttempt(b.repayments[i], now) || r.repayments[i] == Settled(b.repayments[i], now))
  {
    var ids := DueIndices(b.repayments, now);
    SettleAllKeepsRunInvariant(b, ids, now);
    forall i | 0 <= i < |b.repayments| && IsDue(b.repayments[i], now)
      ensures var r := ProcessDue(b, now);
        r.repayments[i] == FailedAttempt(b.repayments[i], now) || r.repayments[i] == Settled(b.repayments[i], now)
    {
      SettleAllRowOutcome(b, ids, now, i);
    }
  }

  /** Money is conserved: each account's balance falls by exactly the sum of
      the amounts of that user's installments that became PAID, no balance
      goes negative, and the ledger gained exactly one paid EMI entry per
      installment that became PAID. */
  lemma ProcessDueConservesMoney(b: Books, now: Time)
    ensures var r := ProcessDue(b, now);
      && r.accounts.Keys == b.accounts.Keys
      && (forall u :: u in b.accounts ==>
            b.accounts[u].balance - r.accounts[u].balance == Tally(DebitOf(u), b.repayments, r.repayments))
      && (forall u :: u in b.accounts && b.accounts[u].balance >= 0 ==> r.accounts[u].balance >= 0)
      && r.transactions[..|b.transactions|] == b.transactions
      && |r.transactions| - |b.transactions| == Tally(PaidTotal, b.repayments, r.repayments)
      && (forall u :: LedgerDebit(u, r.transactions[|b.transactions|..]) == Tally(DebitOf(u), b.repayments, r.repayments))
  {
    ProcessDueOutcome(b, now);
  }

  /** A second run never debits an installment the first run settled: every
      PAID row of the first run's result is left exactly as it is. */
  lemma RerunLeavesPaidRows(b: Books, now: Time, later: Time)
    ensures var r1 := ProcessDue(b, now); var r2 := ProcessDue(r1, later);
      && |r2.repayments| == |r1.repayments|
      && forall i :: 0 <= i < |r1.repayments| && r1.repayments[i].status == RepaymentPaid ==> r2.repayments[i] == r1.repayments[i]
  {
    ProcessDueOutcome(ProcessDue(b, now), later);
  }

  // ---------------------------------------------------------------------
  // Scenarios
  // ---------------------------------------------------------------------

  const Owner: UserId := "u1"
  const OwnerLoan: LoanId := "l1"

  function Holder(): User
  {
    User("A", "9000000000", "h", KycCompleted, ApprovalApproved, Some(false), None, None, None, None, 0, 0)
  }

  function DueRow(number: int, amount: int): Repayment
  {
    Repayment(OwnerLoan, Owner, number, 10, amount, RepaymentPending, 0, None, None)
  }

  /** One customer with one loan, the given balance and schedule, and an empty ledger. */
  function StartBooks(balance: int, rows: seq<Repayment>): Books
  {
    Books(map[Owner := Holder()], map[Owner := Account(balance, 0)], map[OwnerLoan := Loan(Owner, 0, 0)], rows, [])
  }

  /** Balance 0 and a due installment of 5000: the installment becomes FAILED
      with attempt counter 1, the loan's missed counter becomes 1, nothing is
      debited and the score is recomputed with one missed EMI (670). */
  lemma InsufficientBalanceScenario()
    ensures var b := StartBooks(0, [DueRow(1, 5000)]);
      var r := ProcessDue(b, 20);
      && r.repayments[0].status == RepaymentFailed && r.repayments[0].attempts == 1
      && r.loans[OwnerLoan].missedEmis == 1
      && r.accounts == b.accounts && r.transactions == []
      && r.users[Owner].cibilScore == Some(670)
  {
    var b := StartBooks(0, [DueRow(1, 5000)]);
    OneDueRow(b, 20);
    SettleStepFailure(b, 0, 20);
    var rows := [FailedAttempt(DueRow(1, 5000), 20)];
    assert CountWithStatus(rows, OwnerLoan, RepaymentFailed) == 1 by {
      assert rows[..0] == [];
    }
    assert BuildSummary(rows, [], OwnerLoan).missedEmis == 1;
  }

  /** A one-row schedule whose row is due is settled by a single step. */
  lemma OneDueRow(b: Books, now: Time)
    requires |b.repayments| == 1 && IsDue(b.repayments[0], now)
    ensures ProcessDue(b, now) == SettleStep(b, 0, now)
  {
    assert b.repayments[..0] == [];
    assert DueIndices(b.repayments, now) == [0];
    SettleAllSnoc(b, [], 0, now);
    assert [] + [0] == [0];
  }

  /** The account is re-read for every installment: with balance 100 and two
      due installments of 60, the first is paid and the second fails against
      the remaining 40. */
  lemma SequentialDebitScenario()
    ensures var r := ProcessDue(StartBooks(100, [DueRow(1, 60), DueRow(2, 60)]), 20);
      && r.repayments[0].status == RepaymentPaid
      && r.repayments[1].status == RepaymentFailed
      && r.accounts[Owner].balance == 40
      && |r.transactions| == 1 && r.transactions[0].balanceAfter == 40
      && r.loans[OwnerLoan].paidEmis == 1 && r.loans[OwnerLoan].missedEmis == 1
  {
    var b := StartBooks(100, [DueRow(1, 60), DueRow(2, 60)]);
    var b1 := SettleStep(b, 0, 20);
    var b2 := SettleStep(b1, 1, 20);
    TwoDueRows(b, 20);
    SettleStepSuccess(b, 0, 20);
    assert b1.accounts[Owner].balance == 40;
    SettleStepFailure(b1, 1, 20);
  }

  /** Two due installments are settled in stored order, each step seeing the
      books the previous one left. */
  lemma TwoDueRows(b: Books, now: Time)
    requires |b.repayments| == 2 && IsDue(b.repayments[0], now) && IsDue(b.repayments[1], now)
    ensures ProcessDue(b, now) == SettleStep(SettleStep(b, 0, now), 1, now)
  {
    BothDue(b.repayments, now);
    SettleAllSnoc(b, [], 0, now);
    SettleAllSnoc(b, [0], 1, now);
    assert [] + [0] == [0] && [0] + [1] == [0, 1];
  }

  /** Both positions of a two-row schedule whose rows are due. */
  lemma BothDue(rows: seq<Repayment>, now: Time)
    requires |rows| == 2 && IsDue(rows[0], now) && IsDue(rows[1], now)
    ensures DueIndices(rows, now) == [0, 1]
  {
    assert rows[..1][..0] == [];
    assert DueIndices(rows[..1][..0], now) == [];
    assert rows[..1][0] == rows[0];
    assert DueIndices(rows[..1], now) == [0];
  }

}
