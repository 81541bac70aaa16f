/**
 * node_evaluator's scoring of change records against the playbook
 * (app/graph/nodes.py lines 68-143).
 *
 * Scores are kept in half-points so that the arithmetic is exact: a keyword
 * found in the change text is worth 2, one found in the rule's own
 * description is worth 1. The first rule with the highest positive score is
 * matched; without a match a fixed tiering by change kind and similarity
 * applies.
 */
module Evaluator {
  import opened Common
  import opened Schemas

  /** Similarity threshold above which an unmatched modification is green. */
  const SimilarityThreshold: real := 0.8

  // ---------------------------------------------------------------------
  // Keyword scoring
  // ---------------------------------------------------------------------

  /** `[k.strip() for k in rule.keywords.lower().split(",")]` */
  function Keywords(rule: PlaybookRule): (kws: seq<string>)
    ensures |kws| >= 1
  {
    var parts := SplitOn(Lower(rule.keywords), ',');
    seq(|parts|, i requires 0 <= i < |parts| => Strip(parts[i]))
  }

  /** The text a keyword is looked up in: `(modified + " " + original).lower()`. */
  function CheckedText(d: Difference): string
  {
    Lower(d.modifiedSection + " " + d.originalSection)
  }

  /** Half-points one keyword earns: 2 for the change text, 1 for the description. */
  function KeywordPoints(kw: string, text: string, desc: string): nat
  {
    (if Contains(text, kw) then 2 else 0) + (if Contains(desc, kw) then 1 else 0)
  }

  /** Half-points of a keyword list, summed left to right. */
  function HalfPoints(kws: seq<string>, text: string, desc: string): nat
  {
    if kws == [] then 0
    else HalfPoints(kws[..|kws| - 1], text, desc) + KeywordPoints(kws[|kws| - 1], text, desc)
  }

  /** A rule's score for a change record, in half-points; an empty keyword column scores 0. */
  function Score(rule: PlaybookRule, d: Difference): nat
  {
    if Lower(rule.keywords) == "" then 0
    else HalfPoints(Keywords(rule), CheckedText(d), Lower(rule.description))
  }

  /** Some keyword of the list occurs in the text or in the description. */
  predicate AnyHit(kws: seq<string>, text: string, desc: string)
  {
    exists i :: 0 <= i < |kws| && (Contains(text, kws[i]) || Contains(desc, kws[i]))
  }

  lemma {:induction false} HalfPointsPositive(kws: seq<string>, text: string, desc: string)
    ensures HalfPoints(kws, text, desc) > 0 <==> AnyHit(kws, text, desc)
    ensures HalfPoints(kws, text, desc) <= 3 * |kws|
  {
    if kws != [] {
      var init := kws[..|kws| - 1];
      HalfPointsPositive(init, text, desc);
      if AnyHit(kws, text, desc) {
        var i :| 0 <= i < |kws| && (Contains(text, kws[i]) || Contains(desc, kws[i]));
        if i < |kws| - 1 {
          assert init[i] == kws[i];
        }
      }
      if AnyHit(init, text, desc) {
        var i :| 0 <= i < |init| && (Contains(text, init[i]) || Contains(desc, init[i]));
        assert kws[i] == init[i];
      }
    }
  }

  /**
   * A rule scores above zero exactly when its keyword column is non-empty and
   * one of its keywords occurs in the change text or in the rule's own
   * description; a description-only hit is enough. The score never exceeds
   * three half-points per keyword.
   */
  lemma ScorePositive(rule: PlaybookRule, d: Difference)
    ensures Score(rule, d) > 0 <==>
            rule.keywords != "" && AnyHit(Keywords(rule), CheckedText(d), Lower(rule.description))
    ensures Score(rule, d) <= 3 * |Keywords(rule)|
  {
    HalfPointsPositive(Keywords(rule), CheckedText(d), Lower(rule.description));
    assert |Lower(rule.keywords)| == |rule.keywords|;
  }

  /**
   * A rule whose keyword column holds an empty entry (such as "a,,b") earns
   * the text and description points of that entry for every change record.
   */
  lemma {:induction false} EmptyKeywordAlwaysHits(kws: seq<string>, text: string, desc: string, i: nat)
    requires i < |kws| && kws[i] == ""
    ensures HalfPoints(kws, text, desc) >= 3
  {
    var init := kws[..|kws| - 1];
    assert Contains(text, "") && Contains(desc, "");
    if i < |kws| - 1 {
      assert init[i] == kws[i];
      EmptyKeywordAlwaysHits(init, text, desc, i);
    }
  }

  /**
   * A rule whose keyword column is not empty but has an empty piece (as in
   * "a,,b" or "a, ") scores at least 1.5 against every change record; the
   * empty column itself scores 0.
   */
  lemma EmptyPieceScores(rule: PlaybookRule, d: Difference, i: nat)
    requires rule.keywords != ""
    requires i < |Keywords(rule)| && Keywords(rule)[i] == ""
    ensures Score(rule, d) >= 3
  {
    assert |Lower(rule.keywords)| == |rule.keywords|;
    EmptyKeywordAlwaysHits(Keywords(rule), CheckedText(d), Lower(rule.description), i);
  }

  /** Extending the keyword prefix by one entry adds that entry's points. */
  lemma HalfPointsStep(kws: seq<string>, i: nat, text: string, desc: string)
    requires i < |kws|
    ensures HalfPoints(kws[..i + 1], text, desc) == HalfPoints(kws[..i], text, desc) + KeywordPoints(kws[i], text, desc)
  {
    assert kws[..i + 1][..i] == kws[..i];
  }

  /** The keyword loop of node_evaluator: points for each keyword, in order. */
  method KeywordScore(kws: seq<string>, text: string, desc: string) returns (score: nat)
    ensures score == HalfPoints(kws, text, desc)
  {
    score := 0;
    var i := 0;
    while i < |kws|
      invariant 0 <= i <= |kws|
      invariant score == HalfPoints(kws[..i], text, desc)
    {
      HalfPointsStep(kws, i, text, desc);
      var kw := kws[i];
      if Contains(text, kw) {
        score := score + 2;
      }
      if Contains(desc, kw) {
        score := score + 1;
      }
      i := i + 1;
    }
    assert kws[..|kws|] == kws;
  }

  /** The scoring of one rule in node_evaluator: no keywords score 0. */
  method RuleScore(rule: PlaybookRule, d: Difference) returns (score: nat)
    ensures score == Score(rule, d)
  {
    var keywords := Lower(rule.keywords);
    score := 0;
    if keywords != "" {
      score := KeywordScore(Keywords(rule), CheckedText(d), Lower(rule.description));
    }
  }

  // ---------------------------------------------------------------------
  // Choosing the rule
  // ---------------------------------------------------------------------

  /** The score of every rule for one record, in playbook order. */
  function Scores(rules: seq<PlaybookRule>, d: Difference): (s: seq<nat>)
    ensures |s| == |rules| && forall j :: 0 <= j < |rules| ==> s[j] == Score(rules[j], d)
  {
    seq(|rules|, j requires 0 <= j < |rules| => Score(rules[j], d))
  }

  /**
   * The rule loop's final `(best_score, index of best_match_rule)` over a
   * score list: a later rule replaces the current best only with a strictly
   * larger score.
   */
  function BestOf(scores: seq<nat>): (r: (nat, Option<nat>))
    ensures r.1.Some? ==> r.1.value < |scores|
  {
    if scores == [] then (0, None)
    else
      var prev := BestOf(scores[..|scores| - 1]);
      var sc := scores[|scores| - 1];
      if sc > prev.0 then (sc, Some(|scores| - 1)) else prev
  }

  /**
   * The best score is the highest score in the list. No index is chosen
   * exactly when every score is 0; otherwise the chosen index is the FIRST one
   * holding the highest score, and that score is positive.
   */
  lemma {:induction false} BestOfIsFirstMaximum(scores: seq<nat>)
    ensures forall j :: 0 <= j < |scores| ==> scores[j] <= BestOf(scores).0
    ensures BestOf(scores).1 == None <==> forall j :: 0 <= j < |scores| ==> scores[j] == 0
    ensures BestOf(scores).1 == None ==> BestOf(scores).0 == 0
    ensures BestOf(scores).1.Some? ==>
              var i := BestOf(scores).1.value;
              && BestOf(scores).0 == scores[i] > 0
              && forall j :: 0 <= j < i ==> scores[j] < BestOf(scores).0
  {
    if scores != [] {
      var init := scores[..|scores| - 1];
      BestOfIsFirstMaximum(init);
      forall j | 0 <= j < |init|
        ensures scores[j] == init[j]
      {
      }
    }
  }

  /** `best_match_rule` after the rule loop. */
  function MatchedRule(rules: seq<PlaybookRule>, d: Difference): Option<PlaybookRule>
  {
    match BestOf(Scores(rules, d)).1
    case None => None
    case Some(i) => Some(rules[i])
  }

  /** The rule an optional index picks. */
  function Chosen(rules: seq<PlaybookRule>, index: Option<nat>): Option<PlaybookRule>
  {
    if index.Some? && index.value < |rules| then Some(rules[index.value]) else None
  }

  /** One turn of the rule loop: score rule `k` and keep it if it beats the best so far. */
  method ConsiderRule(rules: seq<PlaybookRule>, d: Difference, k: nat, best: Option<PlaybookRule>, bestScore: nat,
                      ghost index: Option<nat>)
    returns (best': Option<PlaybookRule>, bestScore': nat, ghost index': Option<nat>)
    requires k < |rules|
    requires (bestScore, index) == BestOf(Scores(rules, d)[..k]) && best == Chosen(rules, index)
    ensures (bestScore', index') == BestOf(Scores(rules, d)[..k + 1]) && best' == Chosen(rules, index')
  {
    ghost var scores := Scores(rules, d);
    assert scores[..k + 1][..k] == scores[..k];
    var score := RuleScore(rules[k], d);
    best', bestScore', index' := best, bestScore, index;
    if score > bestScore {
      best', bestScore', index' := Some(rules[k]), score, Some(k);
    }
  }

  /** The rule loop of node_evaluator for one change record. */
  method SelectRule(rules: seq<PlaybookRule>, d: Difference) returns (best: Option<PlaybookRule>, bestScore: nat)
    ensures best == MatchedRule(rules, d) && bestScore == BestOf(Scores(rules, d)).0
  {
    best, bestScore := None, 0;
    ghost var index: Option<nat> := None;
    for k := 0 to |rules|
      invariant (bestScore, index) == BestOf(Scores(rules, d)[..k]) && best == Chosen(rules, index)
    {
      best, bestScore, index := ConsiderRule(rules, d, k, best, bestScore, index);
    }
    assert Scores(rules, d)[..|rules|] == Scores(rules, d);
  }

  // ---------------------------------------------------------------------
  // One evaluation
  // ---------------------------------------------------------------------

  /** The tier, suggestion and explanation given when no rule matched. */
  function Fallback(d: Difference): (string, string, string)
  {
    match d.changeType
    case Added => (Yellow, "请确认此新增条款是否符合公司标准", "新增条款，未匹配到明确的合规规则")
    case Removed => (Yellow, "请确认删除此条款的原因", "删除了原有条款")
    case Modified =>
      var similarity := if d.similarity.Some? then d.similarity.value else 1.0;
      if similarity > SimilarityThreshold then (Green, "符合标准", "修改内容与原文高度相似，无明显风险")
      else (Yellow, "请人工审核此修改", "修改内容较复杂，建议人工确认")
  }

  /** The evaluation of the record at position `idx`. */
  function EvaluateOne(idx: nat, d: Difference, rules: seq<PlaybookRule>): Evaluation
  {
    match MatchedRule(rules, d)
    case Some(rule) => Evaluation(idx, d, rule.riskLevel, Some(rule), rule.action, rule.description)
    case None =>
      var fb := Fallback(d);
      Evaluation(idx, d, fb.0, None, fb.1, fb.2)
  }

  /**
   * The evaluation of one record: it carries the record unchanged; it matches
   * a rule exactly when some rule scores above zero, and then copies the tier,
   * action and description of the first highest-scoring rule verbatim;
   * otherwise added and removed records are yellow, a modification is green
   * when its similarity (1.0 when missing) exceeds 0.8, and yellow otherwise.
   */
  lemma EvaluateOneSpec(idx: nat, d: Difference, rules: seq<PlaybookRule>)
    ensures var e := EvaluateOne(idx, d, rules);
            && e.id == idx && e.difference == d
            && (e.matchedRule == None <==> forall j :: 0 <= j < |rules| ==> Score(rules[j], d) == 0)
            && (e.matchedRule.Some? ==>
                  exists i :: 0 <= i < |rules| && rules[i] == e.matchedRule.value
                    && Score(rules[i], d) > 0
                    && (forall j :: 0 <= j < |rules| ==> Score(rules[j], d) <= Score(rules[i], d))
                    && (forall j :: 0 <= j < i ==> Score(rules[j], d) < Score(rules[i], d))
                    && e.riskLevel == rules[i].riskLevel
                    && e.suggestion == rules[i].action
                    && e.explanation == rules[i].description)
            && (e.matchedRule == None ==>
                  e.riskLevel == (if d.changeType == Modified &&
                                     (d.similarity == None || d.similarity.value > 0.8)
                                  then Green else Yellow))
  {
    MatchedRuleIsFirstBest(rules, d);
    FallbackTier(d);
  }

  /** The matched rule is the first rule with the highest score, and there is one exactly when some score is positive. */
  lemma MatchedRuleIsFirstBest(rules: seq<PlaybookRule>, d: Difference)
    ensures MatchedRule(rules, d) == None <==> forall j :: 0 <= j < |rules| ==> Score(rules[j], d) == 0
    ensures MatchedRule(rules, d).Some? ==>
              exists i :: 0 <= i < |rules| && rules[i] == MatchedRule(rules, d).value
                && Score(rules[i], d) > 0
                && (forall j :: 0 <= j < |rules| ==> Score(rules[j], d) <= Score(rules[i], d))
                && (forall j :: 0 <= j < i ==> Score(rules[j], d) < Score(rules[i], d))
  {
    BestOfIsFirstMaximum(Scores(rules, d));
    if MatchedRule(rules, d).Some? {
      var i := BestOf(Scores(rules, d)).1.value;
      assert rules[i] == MatchedRule(rules, d).value;
    }
  }

  /** Without a matching rule, only a close enough modification is green. */
  lemma FallbackTier(d: Difference)
    ensures Fallback(d).0 == (if d.changeType == Modified && (d.similarity == None || d.similarity.value > 0.8)
                              then Green else Yellow)
  {
  }

  /** `evaluations`: one evaluation per record, numbered by position. */
  function Evaluations(ds: seq<Difference>, rules: seq<PlaybookRule>): seq<Evaluation>
  {
    if ds == [] then []
    else Evaluations(ds[..|ds| - 1], rules) + [EvaluateOne(|ds| - 1, ds[|ds| - 1], rules)]
  }

  /**
   * node_evaluator emits exactly one evaluation per record, the i-th with id i
   * carrying the i-th record unchanged.
   */
  lemma {:induction false} EvaluationsShape(ds: seq<Difference>, rules: seq<PlaybookRule>)
    ensures |Evaluations(ds, rules)| == |ds|
    ensures forall i :: 0 <= i < |ds| ==>
              Evaluations(ds, rules)[i] == EvaluateOne(i, ds[i], rules)
              && Evaluations(ds, rules)[i].id == i
              && Evaluations(ds, rules)[i].difference == ds[i]
  {
    if ds != [] {
      var init := ds[..|ds| - 1];
      EvaluationsShape(init, rules);
      forall i | 0 <= i < |init|
        ensures ds[i] == init[i]
      {
      }
    }
  }

  /** The evaluator's loop over the records. */
  method EvaluateAll(ds: seq<Difference>, rules: seq<PlaybookRule>) returns (evals: seq<Evaluation>)
    ensures evals == Evaluations(ds, rules)
  {
    evals := [];
    var idx := 0;
    while idx < |ds|
      invariant 0 <= idx <= |ds|
      invariant evals == Evaluations(ds[..idx], rules)
    {
      var d := ds[idx];
      assert ds[..idx + 1][..idx] == ds[..idx];
      var best, bestScore := SelectRule(rules, d);
      var e;
      if best.Some? && bestScore > 0 {
        var rule := best.value;
        e := Evaluation(idx, d, rule.riskLevel, best, rule.action, rule.description);
      } else {
        var fb := Fallback(d);
        e := Evaluation(idx, d, fb.0, best, fb.1, fb.2);
      }
      BestOfIsFirstMaximum(Scores(rules, d));
      assert e == EvaluateOne(idx, d, rules);
      evals := evals + [e];
      idx := idx + 1;
    }
    assert ds[..|ds|] == ds;
  }

  // ---------------------------------------------------------------------
  // The human-review flag
  // ---------------------------------------------------------------------

  /** `any(e["risk_level"] in ["yellow", "red"] for e in evaluations)` */
  predicate NeedsHuman(evals: seq<Evaluation>)
  {
    exists i :: 0 <= i < |evals| && (evals[i].riskLevel == Yellow || evals[i].riskLevel == Red)
  }

  /** The status node_evaluator leaves behind. */
  function EvaluatorStatus(evals: seq<Evaluation>): (s: Status)
    ensures s == WaitingHuman <==> NeedsHuman(evals)
    ensures s == WaitingHuman || s == InProgress
  {
    if NeedsHuman(evals) then WaitingHuman else InProgress
  }

  /**
   * Without playbook rules (or when no rule scores) every evaluation is
   * unmatched and takes the fallback tier, so human review is needed exactly
   * when some record is added, removed, or a modification with similarity at
   * most 0.8.
   */
  lemma NoRulesNeedsHuman(ds: seq<Difference>)
    ensures NeedsHuman(Evaluations(ds, [])) <==>
            exists i :: 0 <= i < |ds| &&
              (ds[i].changeType != Modified || (ds[i].similarity.Some? && ds[i].similarity.value <= 0.8))
  {
    var evals := Evaluations(ds, []);
    EvaluationsShape(ds, []);
    forall i | 0 <= i < |ds|
      ensures (evals[i].riskLevel == Yellow || evals[i].riskLevel == Red) <==>
              (ds[i].changeType != Modified || (ds[i].similarity.Some? && ds[i].similarity.value <= 0.8))
    {
      EvaluateOneSpec(i, ds[i], []);
    }
    if NeedsHuman(evals) {
      var i :| 0 <= i < |evals| && (evals[i].riskLevel == Yellow || evals[i].riskLevel == Red);
      assert 0 <= i < |ds|;
    }
  }
}
