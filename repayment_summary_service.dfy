/** The repayment history of one loan, as four counts over the repayment
    schedule and the loan ledger (app/services/repayment_summary_service.py). */
module RepaymentSummaryService {
  import opened Common
  import opened Records

  datatype Summary = Summary(
    totalEmis: nat,
    paidEmis: nat,
    missedEmis: nat,
    latePayments: nat,
    loanClosedClean: bool)

  /** Number of schedule rows belonging to `loanId` (count_documents on loan_id). */
  function CountOfLoan(rows: seq<Repayment>, loanId: LoanId): nat
  {
    if |rows| == 0 then 0
    else CountOfLoan(rows[..|rows| - 1], loanId) + (if rows[|rows| - 1].loanId == loanId then 1 else 0)
  }

  /** Number of schedule rows belonging to `loanId` whose status is `st`. */
  function CountWithStatus(rows: seq<Repayment>, loanId: LoanId, st: RepaymentStatus): nat
  {
    if |rows| == 0 then 0
    else
      var last := rows[|rows| - 1];
      CountWithStatus(rows[..|rows| - 1], loanId, st) + (if last.loanId == loanId && last.status == st then 1 else 0)
  }

  /** Whether a ledger entry is a paid penalty of `loanId`. */
  predicate IsPaidPenalty(t: Transaction, loanId: LoanId)
  {
    t.loanId == loanId && t.transactionType == Penalty && t.status == TxnPaid
  }

  /** Number of paid penalty entries of `loanId` in the ledger. */
  function CountPaidPenalties(txns: seq<Transaction>, loanId: LoanId): nat
  {
    if |txns| == 0 then 0
    else CountPaidPenalties(txns[..|txns| - 1], loanId) + (if IsPaidPenalty(txns[|txns| - 1], loanId) then 1 else 0)
  }

  /** build_summary: the counts the post-disbursement score is computed from. */
  function BuildSummary(rows: seq<Repayment>, txns: seq<Transaction>, loanId: LoanId): (s: Summary)
    ensures s.paidEmis + s.missedEmis <= s.totalEmis
    ensures s.loanClosedClean <==> s.missedEmis == 0
    ensures s.missedEmis == CountWithStatus(rows, loanId, RepaymentFailed)
  {
    TotalIsSumOfStatuses(rows, loanId);
    var missed := CountWithStatus(rows, loanId, RepaymentFailed);
    Summary(
      CountOfLoan(rows, loanId),
      CountWithStatus(rows, loanId, RepaymentPaid),
      missed,
      CountPaidPenalties(txns, loanId),
      missed == 0)
  }

  /** Every row of a loan is PENDING, PAID or FAILED, so the total is the sum
      of the three status counts; hence the PAID and FAILED counts never
      exceed the total. */
  lemma {:induction false} TotalIsSumOfStatuses(rows: seq<Repayment>, loanId: LoanId)
    ensures CountOfLoan(rows, loanId)
         == CountWithStatus(rows, loanId, RepaymentPending)
          + CountWithStatus(rows, loanId, RepaymentPaid)
          + CountWithStatus(rows, loanId, RepaymentFailed)
  {
    if |rows| > 0 {
      TotalIsSumOfStatuses(rows[..|rows| - 1], loanId);
    }
  }

  /** The set of row positions a status count covers. */
  ghost function PositionsWithStatus(rows: seq<Repayment>, loanId: LoanId, st: RepaymentStatus): set<nat>
  {
    set i: nat | i < |rows| && rows[i].loanId == loanId && rows[i].status == st
  }

  /** The recursive count agrees with the size of the set of matching
      positions: it counts every matching row exactly once. */
  lemma {:induction false} CountWithStatusIsCardinality(rows: seq<Repayment>, loanId: LoanId, st: RepaymentStatus)
    ensures CountWithStatus(rows, loanId, st) == |PositionsWithStatus(rows, loanId, st)|
  {
    if |rows| > 0 {
      var n := |rows| - 1;
      var prefix := rows[..n];
      CountWithStatusIsCardinality(prefix, loanId, st);
      var before := PositionsWithStatus(prefix, loanId, st);
      var after := PositionsWithStatus(rows, loanId, st);
      if rows[n].loanId == loanId && rows[n].status == st {
        assert after == before + {n};
        assert n !in before;
      } else {
        assert after == before;
      }
    }
  }

  /** Replacing one row changes a status count only by what the old and the
      new row contribute. */
  lemma {:induction false} CountWithStatusUpdate(rows: seq<Repayment>, i: nat, x: Repayment, loanId: LoanId, st: RepaymentStatus)
    requires i < |rows|
    ensures CountWithStatus(rows[i := x], loanId, st)
         == CountWithStatus(rows, loanId, st)
          - (if rows[i].loanId == loanId && rows[i].status == st then 1 else 0)
          + (if x.loanId == loanId && x.status == st then 1 else 0)
  {
    var n := |rows| - 1;
    if i < n {
      CountWithStatusUpdate(rows[..n], i, x, loanId, st);
      assert rows[i := x][..n] == rows[..n][i := x];
    } else {
      assert rows[i := x][..n] == rows[..n];
    }
  }

  /** Replacing one row never changes the per-loan total when the loan of the
      row stays the same. */
  lemma {:induction false} CountOfLoanUpdate(rows: seq<Repayment>, i: nat, x: Repayment, loanId: LoanId)
    requires i < |rows| && x.loanId == rows[i].loanId
    ensures CountOfLoan(rows[i := x], loanId) == CountOfLoan(rows, loanId)
  {
    var n := |rows| - 1;
    if i < n {
      CountOfLoanUpdate(rows[..n], i, x, loanId);
      assert rows[i := x][..n] == rows[..n][i := x];
    } else {
      assert rows[i := x][..n] == rows[..n];
    }
  }

  /** A row present in the schedule is counted by its own loan and status. */
  lemma {:induction false} CountWithStatusPositive(rows: seq<Repayment>, i: nat)
    requires i < |rows|
    ensures CountWithStatus(rows, rows[i].loanId, rows[i].status) >= 1
  {
    var n := |rows| - 1;
    if i < n {
      CountWithStatusPositive(rows[..n], i);
    }
  }

  /** Rows of other loans never affect any count of the summary: rewriting a
      row that belongs, before and after, to another loan leaves it equal. */
  lemma SummaryIgnoresOtherLoans(rows: seq<Repayment>, txns: seq<Transaction>, i: nat, x: Repayment, loanId: LoanId)
    requires i < |rows| && rows[i].loanId != loanId && x.loanId != loanId
    ensures BuildSummary(rows[i := x], txns, loanId) == BuildSummary(rows, txns, loanId)
  {
    CountWithStatusUpdate(rows, i, x, loanId, RepaymentPaid);
    CountWithStatusUpdate(rows, i, x, loanId, RepaymentFailed);
    CountOfLoanOtherUpdate(rows, i, x, loanId);
  }

  lemma {:induction false} CountOfLoanOtherUpdate(rows: seq<Repayment>, i: nat, x: Repayment, loanId: LoanId)
    requires i < |rows| && rows[i].loanId != loanId && x.loanId != loanId
    ensures CountOfLoan(rows[i := x], loanId) == CountOfLoan(rows, loanId)
  {
    var n := |rows| - 1;
    if i < n {
      CountOfLoanOtherUpdate(rows[..n], i, x, loanId);
      assert rows[i := x][..n] == rows[..n][i := x];
    } else {
      assert rows[i := x][..n] == rows[..n];
    }
  }

  /** Only paid penalties of the loan count as late payments: appending any
      other ledger entry, in particular an EMI entry, leaves the summary equal. */
  lemma SummaryIgnoresOtherTransactions(rows: seq<Repayment>, txns: seq<Transaction>, t: Transaction, loanId: LoanId)
    requires !IsPaidPenalty(t, loanId)
    ensures BuildSummary(rows, txns + [t], loanId) == BuildSummary(rows, txns, loanId)
  {
    assert (txns + [t])[..|txns|] == txns;
  }
}
