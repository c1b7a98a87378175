/** The post-disbursement CIBIL score, recomputed from a loan's repayment
    summary (app/services/cibil_service.py). */
module CibilService {
  import opened RepaymentSummaryService

  const MinScore: int := 300
  const MaxScore: int := 900

  /** max(300, min(score, 900)). */
  function Clamp(score: int): (r: int)
    ensures MinScore <= r <= MaxScore
    ensures MinScore <= score <= MaxScore ==> r == score
  {
    if score < MinScore then MinScore else if score > MaxScore then MaxScore else score
  }

  /** calculate: base 700, +50 with no missed EMI or -30 per missed EMI, a
      further -40 for more than two late payments, +30 for a clean loan,
      clamped to [300, 900]. */
  function Calculate(s: Summary): (r: int)
    ensures MinScore <= r <= MaxScore
  {
    var base := 700;
    var afterMissed := if s.missedEmis == 0 then base + 50 else base - s.missedEmis * 30;
    var afterLate := if s.latePayments > 2 then afterMissed - 40 else afterMissed;
    var afterClean := if s.loanClosedClean then afterLate + 30 else afterLate;
    Clamp(afterClean)
  }

  /** The upper clamp is never reached: the best history scores 780. */
  lemma CalculateBelowCeiling(s: Summary)
    ensures Calculate(s) <= 780
    ensures Calculate(s) == 780 <==> s.missedEmis == 0 && s.latePayments <= 2 && s.loanClosedClean
  {
  }

  /** With every other input fixed, more missed EMIs never raise the score. */
  lemma CalculateNonIncreasingInMissed(s: Summary, fewer: nat, more: nat)
    requires fewer <= more
    ensures Calculate(s.(missedEmis := more)) <= Calculate(s.(missedEmis := fewer))
  {
  }

  /** Each missed EMI beyond the first costs exactly 30 points until the floor. */
  lemma CalculateMissedStep(s: Summary, m: nat)
    requires m >= 1
    requires Calculate(s.(missedEmis := m + 1)) > MinScore
    ensures Calculate(s.(missedEmis := m + 1)) == Calculate(s.(missedEmis := m)) - 30
  {
  }

  /** Two late payments cost nothing; a third costs 40 (down to the floor). */
  lemma CalculateLateThreshold(s: Summary, late: nat)
    ensures Calculate(s.(latePayments := 2)) == Calculate(s.(latePayments := 0))
    ensures late > 2 ==> Calculate(s.(latePayments := late)) == Clamp(Calculate(s.(latePayments := 0)) - 40)
  {
  }

  /** A clean loan adds 30 unless the score sits at the floor. */
  lemma CalculateCleanBonus(s: Summary)
    ensures Calculate(s.(loanClosedClean := true)) >= Calculate(s.(loanClosedClean := false))
    ensures Calculate(s.(loanClosedClean := false)) > MinScore
        ==> Calculate(s.(loanClosedClean := true)) == Calculate(s.(loanClosedClean := false)) + 30
  {
  }

  /** The score reads only missed EMIs, late payments and the clean flag. */
  lemma CalculateReadsOnlyHistory(s: Summary, t: Summary)
    requires s.missedEmis == t.missedEmis && s.latePayments == t.latePayments
    requires s.loanClosedClean == t.loanClosedClean
    ensures Calculate(s) == Calculate(t)
  {
  }

  /** On a summary as build_summary produces it (clean exactly when nothing is
      missed): no missed EMI scores 740 or 780, any missed EMI at most 670,
      fourteen or more the floor. */
  lemma CalculateOnBuiltSummary(s: Summary)
    requires s.loanClosedClean <==> s.missedEmis == 0
    ensures s.missedEmis == 0 ==> Calculate(s) == (if s.latePayments > 2 then 740 else 780)
    ensures s.missedEmis >= 1 ==> Calculate(s) <= 670
    ensures s.missedEmis >= 14 ==> Calculate(s) == MinScore
  {
  }
}
