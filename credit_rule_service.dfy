/** The score-to-decision rule evaluator (app/services/credit_rule_service.py)
    and the rule query it consumes (app/repositories/rule_configuration_repository.py). */
module CreditRuleService {
  import opened Common
  import opened Records
  import Db

  const CibilRuleType: string := "CIBIL_SCORE"

  /** The filter of the rule query: active CIBIL_SCORE rules. */
  predicate IsActiveCibilRule(r: RuleConfig)
  {
    r.ruleType == CibilRuleType && r.active
  }

  /** Both bounds of a rule are inclusive. */
  predicate Matches(r: RuleConfig, score: int)
  {
    r.minScore <= score <= r.maxScore
  }

  /** SystemDecision(text): the enumeration lookup by value. */
  function ParseSystemDecision(text: string): (d: Option<SystemDecision>)
    ensures d == Some(AutoApproved) <==> text == "AUTO_APPROVED"
    ensures d == Some(ManualReview) <==> text == "MANUAL_REVIEW"
    ensures d == Some(AutoRejected) <==> text == "AUTO_REJECTED"
  {
    if text == "AUTO_APPROVED" then Some(AutoApproved)
    else if text == "MANUAL_REVIEW" then Some(ManualReview)
    else if text == "AUTO_REJECTED" then Some(AutoRejected)
    else None
  }

  /** The outcome of a matching rule: its decision, or the ValueError the
      enumeration lookup raises on an unknown text. */
  function RuleDecision(r: RuleConfig): Result<SystemDecision, Error>
  {
    match ParseSystemDecision(r.decision)
    case Some(d) => Success(d)
    case None => Failure(UnknownSystemDecision(r.decision))
  }

  /** evaluate_cibil over a given rule list: the first rule, in list order,
      whose range holds the score decides; with none, AUTO_REJECTED. */
  function Evaluate(rules: seq<RuleConfig>, score: int): (d: Result<SystemDecision, Error>)
    ensures (forall j :: 0 <= j < |rules| ==> !Matches(rules[j], score)) ==> d == Success(AutoRejected)
    ensures d.Failure? ==> exists j :: 0 <= j < |rules| && Matches(rules[j], score) && RuleDecision(rules[j]) == d
  {
    if |rules| == 0 then Success(AutoRejected)
    else if Matches(rules[0], score) then RuleDecision(rules[0])
    else
      var rest := Evaluate(rules[1..], score);
      assert forall j :: 0 <= j < |rules[1..]| ==> rules[1..][j] == rules[j + 1];
      rest
  }

  /** The first matching rule decides, whatever the later rules say. */
  lemma {:induction false} EvaluateFirstMatch(rules: seq<RuleConfig>, score: int, i: nat)
    requires i < |rules| && Matches(rules[i], score)
    requires forall j :: 0 <= j < i ==> !Matches(rules[j], score)
    ensures Evaluate(rules, score) == RuleDecision(rules[i])
  {
    if i > 0 {
      EvaluateFirstMatch(rules[1..], score, i - 1);
    }
  }

  /** Conversely, a result other than the fallback comes from the first
      matching rule. */
  lemma {:induction false} EvaluateComesFromFirstMatch(rules: seq<RuleConfig>, score: int)
    ensures Evaluate(rules, score) == Success(AutoRejected)
         || exists i :: 0 <= i < |rules| && Matches(rules[i], score)
              && (forall j :: 0 <= j < i ==> !Matches(rules[j], score))
              && Evaluate(rules, score) == RuleDecision(rules[i])
  {
    if |rules| > 0 && !Matches(rules[0], score) {
      EvaluateComesFromFirstMatch(rules[1..], score);
      if Evaluate(rules, score) != Success(AutoRejected) {
        var i :| 0 <= i < |rules[1..]| && Matches(rules[1..][i], score)
              && (forall j :: 0 <= j < i ==> !Matches(rules[1..][j], score))
              && Evaluate(rules[1..], score) == RuleDecision(rules[1..][i]);
        assert forall j :: 0 <= j < i + 1 ==> !Matches(rules[j], score) by {
          forall j | 0 <= j < i + 1 ensures !Matches(rules[j], score) {
            if j > 0 { assert rules[j] == rules[1..][j - 1]; }
          }
        }
      }
    }
  }

  /** Once a rule matches, appending further rules changes nothing: later
      rules, overlapping or not, are never consulted. */
  lemma {:induction false} EvaluateIgnoresLaterRules(rules: seq<RuleConfig>, later: seq<RuleConfig>, score: int, i: nat)
    requires i < |rules| && Matches(rules[i], score)
    ensures Evaluate(rules + later, score) == Evaluate(rules, score)
  {
    if !Matches(rules[0], score) {
      assert (rules + later)[1..] == rules[1..] + later;
      EvaluateIgnoresLaterRules(rules[1..], later, score, i - 1);
    }
  }

  /** Rules ordered by min_score, highest first. */
  predicate SortedByMinScoreDesc(rules: seq<RuleConfig>)
  {
    forall i, j :: 0 <= i < j < |rules| ==> rules[i].minScore >= rules[j].minScore
  }

  /** The active CIBIL_SCORE rules, in stored order. */
  function SelectActiveCibil(configs: seq<RuleConfig>): (r: seq<RuleConfig>)
    ensures forall k :: 0 <= k < |r| ==> IsActiveCibilRule(r[k])
    ensures forall c :: multiset(r)[c] == if IsActiveCibilRule(c) then multiset(configs)[c] else 0
  {
    if |configs| == 0 then []
    else
      var rest := SelectActiveCibil(configs[1..]);
      assert configs == [configs[0]] + configs[1..];
      if IsActiveCibilRule(configs[0]) then [configs[0]] + rest else rest
  }

  /** Inserts a rule before the first rule whose min_score it reaches. */
  function InsertByMinScore(r: RuleConfig, sorted: seq<RuleConfig>): (s: seq<RuleConfig>)
    requires SortedByMinScoreDesc(sorted)
    ensures SortedByMinScoreDesc(s)
    ensures multiset(s) == multiset(sorted) + multiset{r}
  {
    if |sorted| == 0 then [r]
    else if r.minScore >= sorted[0].minScore then [r] + sorted
    else
      var rest := InsertByMinScore(r, sorted[1..]);
      assert sorted == [sorted[0]] + sorted[1..];
      assert forall k :: 0 <= k < |rest| ==> rest[k].minScore <= sorted[0].minScore by {
        forall k | 0 <= k < |rest| ensures rest[k].minScore <= sorted[0].minScore {
          assert rest[k] in multiset(rest);
          assert rest[k] == r || rest[k] in multiset(sorted[1..]);
        }
      }
      [sorted[0]] + rest
  }

  /** Sorts by min_score descending; rules with equal min_score keep their
      stored order. */
  function SortByMinScoreDesc(rules: seq<RuleConfig>): (s: seq<RuleConfig>)
    ensures SortedByMinScoreDesc(s)
    ensures multiset(s) == multiset(rules)
  {
    if |rules| == 0 then []
    else
      assert rules == [rules[0]] + rules[1..];
      InsertByMinScore(rules[0], SortByMinScoreDesc(rules[1..]))
  }

  /** get_active_cibil_rules: find({rule_type: CIBIL_SCORE, active: true})
      sorted by min_score descending. */
  function ActiveCibilRules(configs: seq<RuleConfig>): (r: seq<RuleConfig>)
    ensures SortedByMinScoreDesc(r)
    ensures forall k :: 0 <= k < |r| ==> IsActiveCibilRule(r[k])
    ensures forall c :: multiset(r)[c] == if IsActiveCibilRule(c) then multiset(configs)[c] else 0
  {
    var selected := SelectActiveCibil(configs);
    var sorted := SortByMinScoreDesc(selected);
    assert forall k :: 0 <= k < |sorted| ==> sorted[k] in multiset(selected);
    sorted
  }

  /** evaluate_cibil as the service runs it: the configured rules are read
      from the store and nothing is written. */
  function EvaluateCibil(db: Db.Database, score: int): (d: Result<SystemDecision, Error>)
    reads db
    ensures (forall c :: c in db.ruleConfigurations && IsActiveCibilRule(c) ==> !Matches(c, score))
        ==> d == Success(AutoRejected)
  {
    var rules := ActiveCibilRules(db.ruleConfigurations);
    assert forall j :: 0 <= j < |rules| ==> multiset(rules)[rules[j]] > 0;
    Evaluate(rules, score)
  }

  /** The usual three-band table (750-900 approve, 550-749 review, 300-549
      reject) with a score taken from [300, 900]. */
  const ThreeBands: seq<RuleConfig> := [
    RuleConfig(CibilRuleType, true, 750, 900, "AUTO_APPROVED"),
    RuleConfig(CibilRuleType, true, 550, 749, "MANUAL_REVIEW"),
    RuleConfig(CibilRuleType, true, 300, 549, "AUTO_REJECTED")
  ]

  /** Under the three-band table a score in [300, 900] is approved exactly from
      750, rejected exactly below 550 and reviewed in between. */
  lemma ThreeBandsDecisions(score: int)
    requires 300 <= score <= 900
    ensures Evaluate(ThreeBands, score) == Success(AutoApproved) <==> score >= 750
    ensures Evaluate(ThreeBands, score) == Success(AutoRejected) <==> score < 550
    ensures Evaluate(ThreeBands, score) == Success(ManualReview) <==> 550 <= score < 750
  {
    assert RuleDecision(ThreeBands[0]) == Success(AutoApproved);
    assert RuleDecision(ThreeBands[1]) == Success(ManualReview);
    assert RuleDecision(ThreeBands[2]) == Success(AutoRejected);
    if score >= 750 {
      EvaluateFirstMatch(ThreeBands, score, 0);
    } else if score >= 550 {
      EvaluateFirstMatch(ThreeBands, score, 1);
    } else {
      EvaluateFirstMatch(ThreeBands, score, 2);
    }
  }

  /** Outside [300, 900] no band matches and the fallback rejects, even above 900. */
  lemma ThreeBandsOutOfRange(score: int)
    requires score < 300 || score > 900
    ensures Evaluate(ThreeBands, score) == Success(AutoRejected)
  {
    assert ThreeBands[1..][1..][1..] == [];
  }
}
