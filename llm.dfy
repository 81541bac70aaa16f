/**
 * The deterministic parts of app/services/llm.py: the cleanup of the model's
 * reply before JSON decoding, the defaults applied to the decoded result and
 * its failure value, the reference-rules block of the prompt (at most five
 * rules), and generate_final_report, which shares the report builder with
 * node_finalizer.
 */
module Llm {
  import opened Common
  import opened Schemas
  import Report

  // ---------------------------------------------------------------------------
  // Reply cleanup
  // ---------------------------------------------------------------------------

  const JsonFence: string := "```json"
  const Fence: string := "```"

  predicate EndsWith(s: string, suffix: string)
  {
    |suffix| <= |s| && s[|s| - |suffix|..] == suffix
  }

  /**
   * The cleanup of a string reply, in the source's order: drop a leading
   * "```json", then a leading "```", then a trailing "```", then strip
   * whitespace from both ends.
   */
  function Unfence(content: string): (r: string)
    ensures |r| <= |content|
    ensures r != [] ==> !IsSpace(r[0]) && !IsSpace(r[|r| - 1])
  {
    Strip(DropFences(content))
  }

  /** The three fence removals, before the strip. */
  function DropFences(content: string): (r: string)
    ensures |r| <= |content|
  {
    var c1 := if JsonFence <= content then content[7..] else content;
    var c2 := if Fence <= c1 then c1[3..] else c1;
    if EndsWith(c2, Fence) then c2[..|c2| - 3] else c2
  }

  /** The text of a JSON object: braces at both ends. */
  predicate ObjectText(j: string)
  {
    |j| >= 2 && j[0] == '{' && j[|j| - 1] == '}'
  }

  predicate AllSpace(w: string)
  {
    forall i :: 0 <= i < |w| ==> IsSpace(w[i])
  }

  lemma {:induction false} TrimLeftPadded(w: string, s: string)
    requires AllSpace(w) && s != [] && !IsSpace(s[0])
    ensures TrimLeft(w + s) == s
    decreases |w|
  {
    if w == [] {
      assert w + s == s;
    } else {
      var t := w + s;
      assert t[0] == w[0] && IsSpace(w[0]);
      assert t[1..] == w[1..] + s;
      assert TrimLeft(t) == TrimLeft(t[1..]);
      assert AllSpace(w[1..]);
      TrimLeftPadded(w[1..], s);
    }
  }

  lemma {:induction false} TrimRightPadded(s: string, w: string)
    requires AllSpace(w) && s != [] && !IsSpace(s[|s| - 1])
    ensures TrimRight(s + w) == s
    decreases |w|
  {
    if w == [] {
      assert s + w == s;
    } else {
      assert (s + w)[..|s + w| - 1] == s + w[..|w| - 1];
      TrimRightPadded(s, w[..|w| - 1]);
    }
  }

  /** Whitespace around an object's text is stripped away. */
  lemma StripPadded(w1: string, j: string, w2: string)
    requires AllSpace(w1) && AllSpace(w2) && ObjectText(j)
    ensures Strip(w1 + j + w2) == j
  {
    assert w1 + j + w2 == w1 + (j + w2);
    TrimLeftPadded(w1, j + w2);
    TrimRightPadded(j, w2);
  }

  /**
   * A JSON object the model wrapped in a "```json" or "```" fence, with any
   * whitespace inside the fence, comes out of the cleanup as the object's text.
   */
  lemma UnfenceFenced(fence: string, w1: string, j: string, w2: string)
    requires fence == JsonFence || fence == Fence
    requires AllSpace(w1) && AllSpace(w2) && ObjectText(j)
    ensures Unfence(fence + w1 + j + w2 + Fence) == j
  {
    var inner := w1 + j + w2;
    assert inner[0] != '`' && inner[0] != 'j' by {
      if w1 != [] {
        assert inner[0] == w1[0] && IsSpace(w1[0]);
      } else {
        assert inner[0] == j[0];
      }
    }
    assert fence + w1 + j + w2 + Fence == fence + inner + Fence;
    DropFencesFenced(fence, inner);
    StripPadded(w1, j, w2);
  }

  /** The fences around a text that starts with neither a backquote nor 'j' are removed exactly. */
  lemma DropFencesFenced(fence: string, inner: string)
    requires fence == JsonFence || fence == Fence
    requires inner != [] && inner[0] != '`' && inner[0] != 'j'
    ensures DropFences(fence + inner + Fence) == inner
  {
    if fence == JsonFence {
      DropJsonFences(inner);
    } else {
      DropPlainFences(inner);
    }
  }

  lemma DropJsonFences(inner: string)
    requires inner != [] && inner[0] != '`'
    ensures DropFences(JsonFence + inner + Fence) == inner
  {
    var c2 := inner + Fence;
    assert JsonFence + inner + Fence == JsonFence + c2;
    OpeningJsonFence(c2);
    ClosingFence(inner);
  }

  lemma DropPlainFences(inner: string)
    requires inner != [] && inner[0] != '`' && inner[0] != 'j'
    ensures DropFences(Fence + inner + Fence) == inner
  {
    var c2 := inner + Fence;
    assert Fence + inner + Fence == Fence + c2;
    OpeningPlainFence(c2);
    ClosingFence(inner);
  }

  /** After a leading "```json" is cut, the rest remains. */
  lemma OpeningJsonFence(rest: string)
    ensures JsonFence <= JsonFence + rest && (JsonFence + rest)[7..] == rest
  {
  }

  /** A leading "```" not followed by 'j' is not a "```json" fence; cutting it leaves the rest. */
  lemma OpeningPlainFence(rest: string)
    requires rest != [] && rest[0] != 'j'
    ensures !(JsonFence <= Fence + rest) && (Fence + rest)[3..] == rest
  {
    assert (Fence + rest)[3] == rest[0];
  }

  /** Text not starting with a backquote, followed by "```": only the closing fence is cut. */
  lemma ClosingFence(inner: string)
    requires inner != [] && inner[0] != '`'
    ensures var c2 := inner + Fence;
            !(Fence <= c2) && EndsWith(c2, Fence) && c2[..|c2| - 3] == inner
  {
    var c2 := inner + Fence;
    assert c2[0] == inner[0];
    assert c2[|c2| - 3..] == Fence;
  }

  /** A reply that is just the object, with whitespace around it, comes out unchanged. */
  lemma UnfenceBare(w1: string, j: string, w2: string)
    requires AllSpace(w1) && AllSpace(w2) && ObjectText(j)
    ensures Unfence(w1 + j + w2) == j
  {
    var content := w1 + j + w2;
    assert content[0] != '`' && content[|content| - 1] != '`';
    assert !(JsonFence <= content) && !(Fence <= content) && !EndsWith(content, Fence);
    assert DropFences(content) == content;
    StripPadded(w1, j, w2);
  }

  // ---------------------------------------------------------------------------
  // Result defaults
  // ---------------------------------------------------------------------------

  /** The decoded reply object's fields; None is a missing key. */
  datatype Reply = Reply(riskLevel: Option<string>, explanation: Option<string>,
                         suggestion: Option<string>, matchedRule: Option<string>)

  /** The dictionary analyze_contract_difference returns. */
  datatype Assessment = Assessment(riskLevel: string, explanation: string, suggestion: string,
                                   matchedRule: Option<string>)

  const DefaultExplanation: string := "需要人工确认"
  const DefaultSuggestion: string := "请人工审核"
  const FailurePrefix: string := "AI分析失败: "
  const FailureSuggestion: string := "请人工审核此修改"

  function OrElse(v: Option<string>, d: string): string
  {
    match v
    case Some(x) => x
    case None => d
  }

  /** The decoded reply, if the model answered and its cleaned text decodes. */
  function Decoded(answer: Result<string, string>, decode: string -> Result<Reply, string>): Result<Reply, string>
  {
    match answer
    case Err(e) => Err(e)
    case Ok(content) => decode(Unfence(content))
  }

  /**
   * The result of analyze_contract_difference for the model's answer (an
   * error is the exception text of the call) and the JSON decoder. A failed
   * call or decode gives yellow, the failure text, the fixed suggestion and
   * no rule; otherwise each present field is taken and each missing one
   * defaults, the tier to "yellow".
   */
  function Assess(answer: Result<string, string>, decode: string -> Result<Reply, string>): (a: Assessment)
    ensures Decoded(answer, decode).Err? ==>
      a == Assessment(Yellow, FailurePrefix + Decoded(answer, decode).error, FailureSuggestion, None)
    ensures a.riskLevel != Yellow ==> Decoded(answer, decode).Ok? && Decoded(answer, decode).value.riskLevel == Some(a.riskLevel)
    ensures a.matchedRule.Some? ==> Decoded(answer, decode).Ok? && Decoded(answer, decode).value.matchedRule == a.matchedRule
    ensures Decoded(answer, decode).Ok? ==>
      var reply := Decoded(answer, decode).value;
      && (reply.riskLevel.Some? ==> a.riskLevel == reply.riskLevel.value)
      && (reply.riskLevel.None? ==> a.riskLevel == Yellow)
      && a.matchedRule == reply.matchedRule
      && (reply.explanation.Some? ==> a.explanation == reply.explanation.value)
      && (reply.explanation.None? ==> a.explanation == DefaultExplanation)
      && (reply.suggestion.Some? ==> a.suggestion == reply.suggestion.value)
      && (reply.suggestion.None? ==> a.suggestion == DefaultSuggestion)
  {
    match Decoded(answer, decode)
    case Err(e) => Assessment(Yellow, FailurePrefix + e, FailureSuggestion, None)
    case Ok(reply) =>
      Assessment(OrElse(reply.riskLevel, Yellow), OrElse(reply.explanation, DefaultExplanation),
                 OrElse(reply.suggestion, DefaultSuggestion), reply.matchedRule)
  }

  // ---------------------------------------------------------------------------
  // Prompt rules block
  // ---------------------------------------------------------------------------

  const RulesHeader: string := "\n参考规则:\n"
  const PromptRuleLimit: nat := 5

  /** One reference rule as the prompt renders it. */
  function RuleLine(rule: PlaybookRule): string
  {
    "- " + rule.ruleName + ": " + rule.description + " (风险:" + rule.riskLevel + "), 建议:" + rule.action + "\n"
  }

  function RuleLines(rules: seq<PlaybookRule>): string
  {
    if rules == [] then "" else RuleLines(rules[..|rules| - 1]) + RuleLine(rules[|rules| - 1])
  }

  /** The rules block: empty without rules, else the header and the first five rules' lines. */
  function RulesText(rules: seq<PlaybookRule>): string
  {
    if rules == [] then "" else RulesHeader + RuleLines(rules[..if |rules| < PromptRuleLimit then |rules| else PromptRuleLimit])
  }

  /** The loop that builds rules_text. */
  method RulesPrompt(rules: seq<PlaybookRule>) returns (text: string)
    ensures text == RulesText(rules)
  {
    text := "";
    if rules != [] {
      var n := if |rules| < PromptRuleLimit then |rules| else PromptRuleLimit;
      var lines := "";
      for i := 0 to n
        invariant lines == RuleLines(rules[..i])
      {
        assert rules[..i + 1][..i] == rules[..i];
        lines := lines + RuleLine(rules[i]);
      }
      text := RulesHeader + lines;
    }
  }

  lemma {:induction false} RuleLinesAppend(a: seq<PlaybookRule>, b: seq<PlaybookRule>)
    ensures RuleLines(a + b) == RuleLines(a) + RuleLines(b)
    decreases |b|
  {
    if b == [] {
      AppendEmpty(a);
      AppendEmpty(RuleLines(a));
    } else {
      var b' := b[..|b| - 1];
      AppendLast(a, b);
      assert RuleLines(a + b) == RuleLines(a + b') + RuleLine(b[|b| - 1]);
      RuleLinesAppend(a, b');
      AppendAssoc(RuleLines(a), RuleLines(b'), RuleLine(b[|b| - 1]));
    }
  }

  /** Rules after the fifth never reach the prompt. */
  lemma RulesTextCap(rules: seq<PlaybookRule>, extra: seq<PlaybookRule>)
    requires |rules| >= PromptRuleLimit
    ensures RulesText(rules + extra) == RulesText(rules)
  {
    assert (rules + extra)[..PromptRuleLimit] == rules[..PromptRuleLimit];
  }

  /** The block of lines splits around any one rule's line. */
  lemma RuleLinesAround(shown: seq<PlaybookRule>, i: nat)
    requires i < |shown|
    ensures RuleLines(shown) == RuleLines(shown[..i]) + RuleLine(shown[i]) + RuleLines(shown[i + 1..])
  {
    RuleLinesStep(shown, i);
    RuleLinesSplit(shown, i + 1);
  }

  /** Cutting the rules anywhere cuts their lines at the same place. */
  lemma RuleLinesSplit(rules: seq<PlaybookRule>, k: nat)
    requires k <= |rules|
    ensures RuleLines(rules) == RuleLines(rules[..k]) + RuleLines(rules[k..])
  {
    SplitJoin(rules, k);
    RuleLinesAppend(rules[..k], rules[k..]);
  }

  /** One more rule adds its line at the end. */
  lemma RuleLinesStep(rules: seq<PlaybookRule>, i: nat)
    requires i < |rules|
    ensures RuleLines(rules[..i + 1]) == RuleLines(rules[..i]) + RuleLine(rules[i])
  {
    assert rules[..i + 1][..i] == rules[..i];
  }

  /** Each of the first five rules is rendered into the block. */
  lemma RulesTextShowsFirstFive(rules: seq<PlaybookRule>, i: nat)
    requires i < |rules| && i < PromptRuleLimit
    ensures Contains(RulesText(rules), RuleLine(rules[i]))
  {
    var n := if |rules| < PromptRuleLimit then |rules| else PromptRuleLimit;
    var shown := rules[..n];
    assert RulesText(rules) == RulesHeader + RuleLines(shown);
    RuleLinesAround(shown, i);
    ContainsMiddle(RuleLines(shown[..i]), RuleLine(rules[i]), RuleLines(shown[i + 1..]));
    ContainsPrefixed(RulesHeader, RuleLines(shown), RuleLine(rules[i]));
  }

  // ---------------------------------------------------------------------------
  // Final report
  // ---------------------------------------------------------------------------

  /** `human_reviews or []`: a missing review list is an empty one. */
  function ReviewsOrEmpty(reviews: Option<seq<HumanReview>>): (r: seq<HumanReview>)
    ensures reviews.None? ==> r == []
    ensures reviews.Some? ==> r == reviews.value
  {
    match reviews
    case None => []
    case Some(rs) => rs
  }

  /**
   * generate_final_report: the shared report with 80-character excerpts, no
   * risk line, and the yellow verdict; a missing review list reports exactly
   * as an empty one.
   */
  method GenerateFinalReport(evals: seq<Evaluation>, reviews: Option<seq<HumanReview>>) returns (report: string)
    ensures report == Join(Report.ReportLines(evals, ReviewsOrEmpty(reviews), Report.LlmStyle), "\n")
    ensures reviews.None? ==> report == Join(Report.ReportLines(evals, [], Report.LlmStyle), "\n")
  {
    report := Report.BuildReport(evals, ReviewsOrEmpty(reviews), Report.LlmStyle);
  }
}
