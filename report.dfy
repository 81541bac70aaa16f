/**
 * The markdown review report, as node_finalizer (app/graph/nodes.py lines
 * 148-217) and LLMService.generate_final_report (app/services/llm.py lines
 * 102-173) build it. The two differ only in the excerpt length of green
 * items, in the "风险" line of red items, and in whether a yellow-only
 * result gets its own verdict; a Style value carries those differences.
 */
module Report {
  import opened Common
  import opened Schemas

  datatype Style = Style(excerpt: nat, riskLine: bool, yellowVerdict: bool)

  /** node_finalizer: 100-character excerpts, a risk line for red items, no yellow verdict. */
  const FinalizerStyle: Style := Style(100, true, false)

  /** generate_final_report: 80-character excerpts, no risk line, a yellow verdict. */
  const LlmStyle: Style := Style(80, false, true)

  const Approved: string := "已批准"
  const Pending: string := "待确认"

  /** The closing recommendation. */
  datatype Outcome = Renegotiate | Acknowledged | YellowPresent | Clear

  function OutcomeText(o: Outcome): string
  {
    match o
    case Renegotiate => "存在未批准的红色风险项，建议与合同对方协商修改后再签约。"
    case Acknowledged => "红色风险项已全部得到法务确认，但建议谨慎处理。"
    case YellowPresent => "存在黄色风险项，建议法务人工确认后继续流程。"
    case Clear => "合同经审查未发现重大合规风险，可以继续流程。"
  }

  const Title: string := "# 合同对比审查报告"
  const SummaryHeader: string := "## 审查摘要"
  const GreenHeader: string := "## 绿色项（符合标准）"
  const YellowHeader: string := "## 黄色项（需人工确认）"
  const RedHeader: string := "## 红色项（违反合规）"
  const VerdictHeader: string := "## 最终建议"

  // ---------------------------------------------------------------------
  // Review lookup
  // ---------------------------------------------------------------------

  /** `{r["evaluation_id"]: r for r in human_reviews}`: a later review replaces an earlier one. */
  function ReviewMap(reviews: seq<HumanReview>): map<int, HumanReview>
  {
    if reviews == [] then map[]
    else
      var r := reviews[|reviews| - 1];
      ReviewMap(reviews[..|reviews| - 1])[r.evaluationId := r]
  }

  /** Review `k` is the last one submitted for `id`. */
  predicate LastFor(reviews: seq<HumanReview>, id: int, k: int)
  {
    0 <= k < |reviews| && reviews[k].evaluationId == id &&
    forall k' :: k < k' < |reviews| ==> reviews[k'].evaluationId != id
  }

  /**
   * An id is in the review map exactly when some review carries it, and it
   * then maps to the last review carrying it.
   */
  lemma ReviewMapLookup(reviews: seq<HumanReview>, id: int)
    ensures id in ReviewMap(reviews) <==> exists k :: 0 <= k < |reviews| && reviews[k].evaluationId == id
    ensures id in ReviewMap(reviews) ==> exists k :: LastFor(reviews, id, k) && ReviewMap(reviews)[id] == reviews[k]
  {
    ReviewMapHas(reviews, id);
    if id in ReviewMap(reviews) {
      ReviewMapLast(reviews, id);
    }
  }

  lemma {:induction false} ReviewMapHas(reviews: seq<HumanReview>, id: int)
    ensures id in ReviewMap(reviews) <==> exists k :: 0 <= k < |reviews| && reviews[k].evaluationId == id
  {
    if reviews != [] {
      var n := |reviews| - 1;
      var init := reviews[..n];
      assert ReviewMap(reviews) == ReviewMap(init)[reviews[n].evaluationId := reviews[n]];
      ReviewMapHas(init, id);
      if exists k :: 0 <= k < |reviews| && reviews[k].evaluationId == id {
        var k :| 0 <= k < |reviews| && reviews[k].evaluationId == id;
        if k < n {
          assert init[k] == reviews[k];
        }
      }
      if exists k :: 0 <= k < |init| && init[k].evaluationId == id {
        var k :| 0 <= k < |init| && init[k].evaluationId == id;
        assert reviews[k] == init[k];
      }
    }
  }

  lemma {:induction false} ReviewMapLast(reviews: seq<HumanReview>, id: int)
    requires id in ReviewMap(reviews)
    ensures exists k :: LastFor(reviews, id, k) && ReviewMap(reviews)[id] == reviews[k]
  {
    var n := |reviews| - 1;
    var init := reviews[..n];
    assert ReviewMap(reviews) == ReviewMap(init)[reviews[n].evaluationId := reviews[n]];
    if reviews[n].evaluationId == id {
      assert LastFor(reviews, id, n);
    } else {
      ReviewMapLast(init, id);
      var k :| LastFor(init, id, k) && ReviewMap(init)[id] == init[k];
      assert reviews[k] == init[k];
      assert LastFor(reviews, id, k);
    }
  }

  /** Reviews whose ids are all different from `id` do not change what `id` maps to. */
  lemma {:induction false} ReviewMapIgnoresOtherIds(reviews: seq<HumanReview>, extra: seq<HumanReview>, id: int)
    requires forall k :: 0 <= k < |extra| ==> extra[k].evaluationId != id
    ensures (id in ReviewMap(reviews + extra)) == (id in ReviewMap(reviews))
    ensures id in ReviewMap(reviews) ==> ReviewMap(reviews + extra)[id] == ReviewMap(reviews)[id]
    decreases |extra|
  {
    if extra == [] {
      assert reviews + extra == reviews;
    } else {
      var n := |extra| - 1;
      assert (reviews + extra)[..|reviews + extra| - 1] == reviews + extra[..n];
      assert (reviews + extra)[|reviews + extra| - 1] == extra[n];
      ReviewMapIgnoresOtherIds(reviews, extra[..n], id);
    }
  }

  /** `review_map.get(item["id"], {})`, with the empty dict as None. */
  function Lookup(rmap: map<int, HumanReview>, id: int): Option<HumanReview>
  {
    if id in rmap then Some(rmap[id]) else None
  }

  // ---------------------------------------------------------------------
  // Item lines
  // ---------------------------------------------------------------------

  function StatusLabel(review: Option<HumanReview>): string
  {
    if review.Some? && review.value.approved then Approved else Pending
  }

  /**
   * `review.get("modified_suggestion", item["suggestion"])`: the review's
   * value whenever the key is present, a null rendering as "None".
   */
  function SuggestionText(item: Evaluation, review: Option<HumanReview>): string
  {
    if review.Some? && review.value.modifiedSuggestion.Some? then
      match review.value.modifiedSuggestion.value
      case None => "None"
      case Some(s) => s
    else item.suggestion
  }

  /** The "法务意见" line, present when the review has a non-empty comment. */
  function CommentLines(review: Option<HumanReview>): seq<string>
  {
    if review.Some? && review.value.comment.Some? && review.value.comment.value != "" then
      ["  法务意见: " + review.value.comment.value]
    else []
  }

  /** The "风险" text of a red item: its rule's description, or a fixed phrase. */
  function RiskText(item: Evaluation): string
  {
    match item.matchedRule
    case Some(rule) => rule.description
    case None => "高风险条款"
  }

  function GreenItemLines(item: Evaluation, excerpt: nat): seq<string>
  {
    ["- " + item.explanation,
     "  原文: " + Take(item.difference.originalSection, excerpt) + "...",
     "  修改: " + Take(item.difference.modifiedSection, excerpt) + "..."]
  }

  /** The lines of a yellow item (riskLine false) or a red item. */
  function ReviewedItemLines(item: Evaluation, rmap: map<int, HumanReview>, riskLine: bool): seq<string>
  {
    var review := Lookup(rmap, item.id);
    ["- [" + StatusLabel(review) + "] " + item.explanation]
    + (if riskLine then ["  风险: " + RiskText(item)] else [])
    + ["  建议: " + SuggestionText(item, review)]
    + CommentLines(review)
  }

  /**
   * A yellow or red item is shown approved exactly when some review carries its
   * id and the last such review is approved; that review supplies the
   * suggestion and comment. Without a review the item is pending, shows its
   * own suggestion and has no comment line.
   */
  lemma ItemStatusFromLastReview(item: Evaluation, reviews: seq<HumanReview>)
    ensures var review := Lookup(ReviewMap(reviews), item.id);
            && (StatusLabel(review) == Approved <==>
                  exists k :: LastFor(reviews, item.id, k) && reviews[k].approved)
            && (review.Some? ==> exists k :: LastFor(reviews, item.id, k) && review.value == reviews[k])
            && ((forall k :: 0 <= k < |reviews| ==> reviews[k].evaluationId != item.id) ==>
                  && StatusLabel(review) == Pending
                  && SuggestionText(item, review) == item.suggestion
                  && CommentLines(review) == [])
  {
    var rmap := ReviewMap(reviews);
    ReviewMapLookup(reviews, item.id);
    assert Approved[0] != Pending[0];
    if exists k :: LastFor(reviews, item.id, k) && reviews[k].approved {
      var k :| LastFor(reviews, item.id, k) && reviews[k].approved;
      var k2 :| LastFor(reviews, item.id, k2) && rmap[item.id] == reviews[k2];
      assert k == k2;
    }
  }

  /**
   * Reviews for ids that no evaluation carries leave every item's lines as
   * they are.
   */
  lemma UnknownReviewsIgnored(item: Evaluation, reviews: seq<HumanReview>, extra: seq<HumanReview>, riskLine: bool)
    requires forall k :: 0 <= k < |extra| ==> extra[k].evaluationId != item.id
    ensures ReviewedItemLines(item, ReviewMap(reviews + extra), riskLine) ==
            ReviewedItemLines(item, ReviewMap(reviews), riskLine)
  {
    ReviewMapIgnoresOtherIds(reviews, extra, item.id);
  }

  // ---------------------------------------------------------------------
  // Grouping and sections
  // ---------------------------------------------------------------------

  /** `[e for e in evaluations if e["risk_level"] == level]` */
  function Tier(evals: seq<Evaluation>, level: string): (r: seq<Evaluation>)
    ensures |r| <= |evals|
    ensures forall i :: 0 <= i < |r| ==> r[i].riskLevel == level
  {
    if evals == [] then []
    else
      var e := evals[|evals| - 1];
      Tier(evals[..|evals| - 1], level) + (if e.riskLevel == level then [e] else [])
  }

  predicate KnownTier(level: string)
  {
    level == Green || level == Yellow || level == Red
  }

  /** The number of evaluations whose tier is green, yellow or red. */
  function KnownCount(evals: seq<Evaluation>): nat
  {
    if evals == [] then 0
    else KnownCount(evals[..|evals| - 1]) + (if KnownTier(evals[|evals| - 1].riskLevel) then 1 else 0)
  }

  lemma {:induction false} KnownCountAll(evals: seq<Evaluation>)
    ensures KnownCount(evals) <= |evals|
    ensures KnownCount(evals) == |evals| <==> forall i :: 0 <= i < |evals| ==> KnownTier(evals[i].riskLevel)
  {
    if evals != [] {
      var init := evals[..|evals| - 1];
      KnownCountAll(init);
      if forall i :: 0 <= i < |evals| ==> KnownTier(evals[i].riskLevel) {
        forall i | 0 <= i < |init|
          ensures KnownTier(init[i].riskLevel)
        {
          assert init[i] == evals[i];
        }
      }
    }
  }

  /**
   * Every evaluation lands in at most one group: the three group sizes add up
   * to the number of evaluations with a known tier, hence to the number of all
   * evaluations exactly when every tier is green, yellow or red.
   */
  lemma {:induction false} TierCounts(evals: seq<Evaluation>)
    ensures |Tier(evals, Green)| + |Tier(evals, Yellow)| + |Tier(evals, Red)| == KnownCount(evals)
    ensures |Tier(evals, Green)| + |Tier(evals, Yellow)| + |Tier(evals, Red)| == |evals| <==>
            forall i :: 0 <= i < |evals| ==> KnownTier(evals[i].riskLevel)
  {
    KnownCountAll(evals);
    if evals != [] {
      TierCounts(evals[..|evals| - 1]);
    }
  }

  /** An evaluation is in a tier's group exactly when it is an evaluation with that tier. */
  lemma {:induction false} TierMembers(evals: seq<Evaluation>, level: string, e: Evaluation)
    ensures e in Tier(evals, level) <==> e in evals && e.riskLevel == level
  {
    if evals != [] {
      var init := evals[..|evals| - 1];
      TierMembers(init, level, e);
      assert evals == init + [evals[|evals| - 1]];
    }
  }

  function GreenBody(items: seq<Evaluation>, excerpt: nat): seq<string>
  {
    if items == [] then []
    else GreenBody(items[..|items| - 1], excerpt) + GreenItemLines(items[|items| - 1], excerpt)
  }

  function ReviewedBody(items: seq<Evaluation>, rmap: map<int, HumanReview>, riskLine: bool): seq<string>
  {
    if items == [] then []
    else ReviewedBody(items[..|items| - 1], rmap, riskLine) + ReviewedItemLines(items[|items| - 1], rmap, riskLine)
  }

  /** A section appears only for a non-empty group: its header, its body, a blank line. */
  function Section(header: string, nonEmpty: bool, body: seq<string>): seq<string>
  {
    if nonEmpty then [header] + body + [""] else []
  }

  function SummaryLines(g: nat, y: nat, r: nat): seq<string>
  {
    [Title, "",
     SummaryHeader,
     "- 绿色（通过）: " + NatToString(g) + " 项",
     "- 黄色（需确认）: " + NatToString(y) + " 项",
     "- 红色（不可接受）: " + NatToString(r) + " 项",
     ""]
  }

  // ---------------------------------------------------------------------
  // Verdict
  // ---------------------------------------------------------------------

  /** Some evaluation of the group carries `id`. */
  predicate HasId(items: seq<Evaluation>, id: int)
  {
    exists j :: 0 <= j < |items| && items[j].id == id
  }

  /** `unapproved_red`: some review, of all submitted, names a red item and is not approved. */
  predicate UnapprovedRed(reviews: seq<HumanReview>, red: seq<Evaluation>)
  {
    exists k :: 0 <= k < |reviews| && HasId(red, reviews[k].evaluationId) && !reviews[k].approved
  }

  function Verdict(evals: seq<Evaluation>, reviews: seq<HumanReview>, style: Style): Outcome
  {
    var red := Tier(evals, Red);
    if red != [] then
      if UnapprovedRed(reviews, red) then Renegotiate else Acknowledged
    else if style.yellowVerdict && Tier(evals, Yellow) != [] then YellowPresent
    else Clear
  }

  /** There are red items exactly when some evaluation is red. */
  lemma RedTierNonEmpty(evals: seq<Evaluation>)
    ensures (exists i :: 0 <= i < |evals| && evals[i].riskLevel == Red) <==> Tier(evals, Red) != []
  {
    var red := Tier(evals, Red);
    if exists i :: 0 <= i < |evals| && evals[i].riskLevel == Red {
      var i :| 0 <= i < |evals| && evals[i].riskLevel == Red;
      TierMembers(evals, Red, evals[i]);
    }
    if red != [] {
      TierMembers(evals, Red, red[0]);
    }
  }

  /**
   * With red items the verdict asks for renegotiation exactly when some
   * review names a red item and is not approved, and is "acknowledged"
   * otherwise; without red items it is the yellow verdict when the style has
   * one and yellow items exist, and "no significant risk" otherwise.
   */
  lemma VerdictCases(evals: seq<Evaluation>, reviews: seq<HumanReview>, style: Style)
    ensures var hasRed := exists i :: 0 <= i < |evals| && evals[i].riskLevel == Red;
            var v := Verdict(evals, reviews, style);
            && (v == Renegotiate <==> hasRed && UnapprovedRed(reviews, Tier(evals, Red)))
            && (v == Acknowledged <==> hasRed && !UnapprovedRed(reviews, Tier(evals, Red)))
            && (v == YellowPresent <==> !hasRed && style.yellowVerdict && Tier(evals, Yellow) != [])
            && (v == Clear <==> !hasRed && !(style.yellowVerdict && Tier(evals, Yellow) != []))
  {
    RedTierNonEmpty(evals);
  }

  /** node_finalizer never gives the yellow verdict, even when yellow items exist. */
  lemma FinalizerHasNoYellowVerdict(evals: seq<Evaluation>, reviews: seq<HumanReview>)
    ensures Verdict(evals, reviews, FinalizerStyle) != YellowPresent
  {
  }

  /** Red items with no review at all count as acknowledged. */
  lemma UnreviewedRedIsAcknowledged(evals: seq<Evaluation>, style: Style)
    requires exists i :: 0 <= i < |evals| && evals[i].riskLevel == Red
    ensures Verdict(evals, [], style) == Acknowledged
  {
    RedTierNonEmpty(evals);
  }

  // ---------------------------------------------------------------------
  // The whole report
  // ---------------------------------------------------------------------

  function ReportLines(evals: seq<Evaluation>, reviews: seq<HumanReview>, style: Style): seq<string>
  {
    var rmap := ReviewMap(reviews);
    var green, yellow, red := Tier(evals, Green), Tier(evals, Yellow), Tier(evals, Red);
    SummaryLines(|green|, |yellow|, |red|)
    + Section(GreenHeader, green != [], GreenBody(green, style.excerpt))
    + Section(YellowHeader, yellow != [], ReviewedBody(yellow, rmap, false))
    + Section(RedHeader, red != [], ReviewedBody(red, rmap, style.riskLine))
    + [VerdictHeader, OutcomeText(Verdict(evals, reviews, style))]
  }

  /**
   * The report always opens with the title and the three counts, and its last
   * line is the verdict.
   */
  lemma ReportFrame(evals: seq<Evaluation>, reviews: seq<HumanReview>, style: Style)
    ensures var lines := ReportLines(evals, reviews, style);
            && |lines| >= 9
            && lines[..7] == SummaryLines(|Tier(evals, Green)|, |Tier(evals, Yellow)|, |Tier(evals, Red)|)
            && lines[|lines| - 2] == VerdictHeader
            && lines[|lines| - 1] == OutcomeText(Verdict(evals, reviews, style))
  {
  }

  lemma GreenBodyStep(items: seq<Evaluation>, i: nat, excerpt: nat)
    requires i < |items|
    ensures GreenBody(items[..i + 1], excerpt) == GreenBody(items[..i], excerpt) + GreenItemLines(items[i], excerpt)
  {
    assert items[..i + 1][..i] == items[..i];
  }

  /** The loop over the green items: three lines each. */
  method GreenLines(items: seq<Evaluation>, excerpt: nat) returns (body: seq<string>)
    ensures body == GreenBody(items, excerpt)
  {
    body := [];
    var i := 0;
    while i < |items|
      invariant 0 <= i <= |items|
      invariant body == GreenBody(items[..i], excerpt)
    {
      GreenBodyStep(items, i, excerpt);
      var item := items[i];
      var explanation := "- " + item.explanation;
      var original := "  原文: " + Take(item.difference.originalSection, excerpt) + "...";
      var modified := "  修改: " + Take(item.difference.modifiedSection, excerpt) + "...";
      assert [explanation, original, modified] == GreenItemLines(item, excerpt);
      body := body + [explanation, original, modified];
      i := i + 1;
    }
    assert items[..|items|] == items;
  }

  /** The green section: header, item lines, blank line. */
  method AppendGreen(lines: seq<string>, items: seq<Evaluation>, excerpt: nat) returns (out: seq<string>)
    ensures out == lines + Section(GreenHeader, items != [], GreenBody(items, excerpt))
  {
    out := lines;
    if items != [] {
      var body := GreenLines(items, excerpt);
      out := out + [GreenHeader] + body + [""];
    }
  }

  lemma ReviewedBodyStep(items: seq<Evaluation>, i: nat, rmap: map<int, HumanReview>, riskLine: bool)
    requires i < |items|
    ensures ReviewedBody(items[..i + 1], rmap, riskLine) ==
            ReviewedBody(items[..i], rmap, riskLine) + ReviewedItemLines(items[i], rmap, riskLine)
  {
    assert items[..i + 1][..i] == items[..i];
  }

  /** The lines of one yellow or red item, appended one by one. */
  method ItemLines(item: Evaluation, rmap: map<int, HumanReview>, riskLine: bool) returns (itemLines: seq<string>)
    ensures itemLines == ReviewedItemLines(item, rmap, riskLine)
  {
    var review := Lookup(rmap, item.id);
    var approved := review.Some? && review.value.approved;
    var status := if approved then Approved else Pending;
    var suggestion := SuggestionText(item, review);
    itemLines := ["- [" + status + "] " + item.explanation];
    if riskLine {
      itemLines := itemLines + ["  风险: " + RiskText(item)];
    }
    itemLines := itemLines + ["  建议: " + suggestion];
    if review.Some? && review.value.comment.Some? && review.value.comment.value != "" {
      itemLines := itemLines + ["  法务意见: " + review.value.comment.value];
    }
  }

  /** The loop over the items of the yellow or red section. */
  method ReviewedLines(items: seq<Evaluation>, rmap: map<int, HumanReview>, riskLine: bool) returns (body: seq<string>)
    ensures body == ReviewedBody(items, rmap, riskLine)
  {
    body := [];
    var i := 0;
    while i < |items|
      invariant 0 <= i <= |items|
      invariant body == ReviewedBody(items[..i], rmap, riskLine)
    {
      ReviewedBodyStep(items, i, rmap, riskLine);
      var itemLines := ItemLines(items[i], rmap, riskLine);
      body := body + itemLines;
      i := i + 1;
    }
    assert items[..|items|] == items;
  }

  /** The yellow or red section: header, item lines, blank line. */
  method AppendReviewed(lines: seq<string>, header: string, items: seq<Evaluation>,
                        rmap: map<int, HumanReview>, riskLine: bool) returns (out: seq<string>)
    ensures out == lines + Section(header, items != [], ReviewedBody(items, rmap, riskLine))
  {
    out := lines;
    if items != [] {
      var body := ReviewedLines(items, rmap, riskLine);
      out := out + [header] + body + [""];
    }
  }

  /** Builds `report_lines` and joins them with newlines. */
  method BuildReport(evals: seq<Evaluation>, reviews: seq<HumanReview>, style: Style) returns (report: string)
    ensures report == Join(ReportLines(evals, reviews, style), "\n")
  {
    var rmap := ReviewMap(reviews);
    var green, yellow, red := Tier(evals, Green), Tier(evals, Yellow), Tier(evals, Red);
    var lines := SummaryLines(|green|, |yellow|, |red|);
    lines := AppendGreen(lines, green, style.excerpt);
    lines := AppendReviewed(lines, YellowHeader, yellow, rmap, false);
    lines := AppendReviewed(lines, RedHeader, red, rmap, style.riskLine);
    var outcome;
    if red != [] {
      if UnapprovedRed(reviews, red) {
        outcome := Renegotiate;
      } else {
        outcome := Acknowledged;
      }
    } else if style.yellowVerdict && yellow != [] {
      outcome := YellowPresent;
    } else {
      outcome := Clear;
    }
    lines := lines + [VerdictHeader, OutcomeText(outcome)];
    report := Join(lines, "\n");
  }

  /**
   * With two reviews of the same red item, a rejection followed by an
   * approval, the item itself is shown approved (the later review wins the
   * lookup) while the verdict, which scans every review, still asks for
   * renegotiation.
   */
  lemma DuplicateReviewsDisagree()
    ensures var item := Evaluation(0, Difference("", "", None, Added), Red, None, "s", "e");
            var reviews := [HumanReview(0, false, None, None), HumanReview(0, true, None, None)];
            && ReviewedItemLines(item, ReviewMap(reviews), true)[0] == "- [" + Approved + "] e"
            && Verdict([item], reviews, FinalizerStyle) == Renegotiate
  {
    var item := Evaluation(0, Difference("", "", None, Added), Red, None, "s", "e");
    var reviews := [HumanReview(0, false, None, None), HumanReview(0, true, None, None)];
    assert reviews[..1] == [reviews[0]];
    assert Tier([item], Red) == [item] by {
      assert [item][..0] == [];
    }
    assert HasId([item], reviews[0].evaluationId);
  }
}
