/**
 * node_analyzer's post-processing of a line diff (app/graph/nodes.py).
 *
 * The two texts are cut into stripped, non-blank lines; difflib's opcode list
 * over those lines and its per-pair similarity ratio are inputs (a Matcher);
 * every non-equal span is walked into change records; finally the
 * significance filter keeps the records with a side longer than 10
 * characters, or the first 10 raw records when none qualifies.
 */
module Analyzer {
  import opened Common
  import opened Schemas

  /** Significance threshold (characters) and the size of the fallback prefix. */
  const SignificantLength: nat := 10
  const FallbackCount: nat := 10

  datatype Tag = Equal | Replace | Delete | Insert

  /** One difflib opcode: `tag` turns a[i1:i2] into b[j1:j2]. */
  datatype Opcode = Opcode(tag: Tag, i1: nat, i2: nat, j1: nat, j2: nat)

  /** difflib's opcode computation and SequenceMatcher.ratio(), supplied from outside. */
  datatype Matcher = Matcher(
    opcodes: (seq<string>, seq<string>) -> seq<Opcode>,
    ratio: (string, string) -> real)

  predicate InBounds(op: Opcode, m: nat, n: nat)
  {
    op.i1 <= op.i2 <= m && op.j1 <= op.j2 <= n
  }

  predicate AllInBounds(ops: seq<Opcode>, m: nat, n: nat)
  {
    forall k :: 0 <= k < |ops| ==> InBounds(ops[k], m, n)
  }

  /** The span sizes each tag has in difflib's output. */
  predicate TagShape(op: Opcode)
  {
    match op.tag
    case Equal => op.i2 - op.i1 == op.j2 - op.j1
    case Replace => op.i1 < op.i2 && op.j1 < op.j2
    case Delete => op.i1 < op.i2 && op.j1 == op.j2
    case Insert => op.i1 == op.i2 && op.j1 < op.j2
  }

  /** Contiguous spans that start at (0, 0) and cover both line lists. */
  predicate WellFormed(ops: seq<Opcode>, m: nat, n: nat)
  {
    && (|ops| == 0 ==> m == 0 && n == 0)
    && (|ops| > 0 ==> ops[0].i1 == 0 && ops[0].j1 == 0 && ops[|ops| - 1].i2 == m && ops[|ops| - 1].j2 == n)
    && (forall k :: 0 <= k < |ops| ==> InBounds(ops[k], m, n) && TagShape(ops[k]))
    && (forall k :: 0 < k < |ops| ==> ops[k].i1 == ops[k - 1].i2 && ops[k].j1 == ops[k - 1].j2)
  }

  /** What difflib guarantees about every opcode list it returns. */
  ghost predicate ValidMatcher(mt: Matcher)
  {
    forall a: seq<string>, b: seq<string> :: WellFormed(mt.opcodes(a, b), |a|, |b|)
  }

  predicate NonBlank(lines: seq<string>)
  {
    forall i :: 0 <= i < |lines| ==> lines[i] != ""
  }

  /** max(i2 - i1, j2 - j1): how many positions a replace span walks. */
  function SpanLength(op: Opcode): nat
    requires op.i1 <= op.i2 && op.j1 <= op.j2
  {
    if op.i2 - op.i1 < op.j2 - op.j1 then op.j2 - op.j1 else op.i2 - op.i1
  }

  /** `[line.strip() for line in pieces if line.strip()]` */
  function StrippedNonBlank(pieces: seq<string>): (lines: seq<string>)
    ensures |lines| <= |pieces|
    ensures forall i :: 0 <= i < |lines| ==>
              lines[i] != "" && !IsSpace(lines[i][0]) && !IsSpace(lines[i][|lines[i]| - 1])
  {
    if pieces == [] then []
    else
      var s := Strip(pieces[0]);
      (if s != "" then [s] else []) + StrippedNonBlank(pieces[1..])
  }

  /** The stripped, non-blank lines of a text (nodes.py lines 25-26). */
  function Lines(text: string): (lines: seq<string>)
    ensures NonBlank(lines)
  {
    StrippedNonBlank(SplitOn(text, '\n'))
  }

  /** The pair walked at position `t` of a replace span, padded with "". */
  function PairAt(a: seq<string>, b: seq<string>, op: Opcode, t: nat): (string, string)
    requires InBounds(op, |a|, |b|)
  {
    (if t < op.i2 - op.i1 then a[op.i1 + t] else "",
     if t < op.j2 - op.j1 then b[op.j1 + t] else "")
  }

  /** The record (if any) emitted at position `t` of a replace span; `orig or mod` guards it. */
  function ReplaceStep(a: seq<string>, b: seq<string>, op: Opcode, ratio: (string, string) -> real, t: nat): seq<Difference>
    requires InBounds(op, |a|, |b|)
  {
    var (orig, mod) := PairAt(a, b, op, t);
    if orig != "" || mod != "" then [Difference(orig, mod, Some(ratio(orig, mod)), Modified)] else []
  }

  /** The records of the first `k` positions of a replace span. */
  function ReplaceRecords(a: seq<string>, b: seq<string>, op: Opcode, ratio: (string, string) -> real, k: nat): seq<Difference>
    requires InBounds(op, |a|, |b|)
  {
    if k == 0 then [] else ReplaceRecords(a, b, op, ratio, k - 1) + ReplaceStep(a, b, op, ratio, k - 1)
  }

  /** The records of a whole replace span: max(m, n) positions. */
  function ReplaceSpan(a: seq<string>, b: seq<string>, op: Opcode, ratio: (string, string) -> real): seq<Difference>
    requires InBounds(op, |a|, |b|)
  {
    ReplaceRecords(a, b, op, ratio, SpanLength(op))
  }

  function RemovedRecord(line: string): Difference
  {
    Difference(line, "", Some(0.0), Removed)
  }

  function AddedRecord(line: string): Difference
  {
    Difference("", line, Some(0.0), Added)
  }

  function RemovedRecords(lines: seq<string>): seq<Difference>
  {
    if lines == [] then [] else RemovedRecords(lines[..|lines| - 1]) + [RemovedRecord(lines[|lines| - 1])]
  }

  function AddedRecords(lines: seq<string>): seq<Difference>
  {
    if lines == [] then [] else AddedRecords(lines[..|lines| - 1]) + [AddedRecord(lines[|lines| - 1])]
  }

  /** The records one opcode contributes. */
  function OpRecords(a: seq<string>, b: seq<string>, op: Opcode, ratio: (string, string) -> real): seq<Difference>
    requires InBounds(op, |a|, |b|)
  {
    match op.tag
    case Equal => []
    case Replace => ReplaceSpan(a, b, op, ratio)
    case Delete => RemovedRecords(a[op.i1..op.i2])
    case Insert => AddedRecords(b[op.j1..op.j2])
  }

  /** The raw record list `differences`, span after span. */
  function RawRecords(a: seq<string>, b: seq<string>, ops: seq<Opcode>, ratio: (string, string) -> real): seq<Difference>
    requires AllInBounds(ops, |a|, |b|)
  {
    if ops == [] then []
    else RawRecords(a, b, ops[..|ops| - 1], ratio) + OpRecords(a, b, ops[|ops| - 1], ratio)
  }

  predicate Significant(d: Difference)
  {
    |d.modifiedSection| > SignificantLength || |d.originalSection| > SignificantLength
  }

  /** `[d for d in ds if significant(d)]` */
  function FilterSignificant(ds: seq<Difference>): (r: seq<Difference>)
    ensures |r| <= |ds|
    ensures forall i :: 0 <= i < |r| ==> Significant(r[i]) && r[i] in ds
    ensures r == [] <==> forall i :: 0 <= i < |ds| ==> !Significant(ds[i])
  {
    if ds == [] then []
    else (if Significant(ds[0]) then [ds[0]] else []) + FilterSignificant(ds[1..])
  }

  /** The filter keeps one record exactly when it is significant... */
  lemma FilterSignificantSingle(d: Difference)
    ensures FilterSignificant([d]) == if Significant(d) then [d] else []
  {
    assert [d][1..] == [];
  }

  /** ...and works record by record, so it keeps every significant record, in input order. */
  lemma {:induction false} FilterSignificantAppend(x: seq<Difference>, y: seq<Difference>)
    ensures FilterSignificant(x + y) == FilterSignificant(x) + FilterSignificant(y)
  {
    if x == [] {
      assert x + y == y;
    } else {
      var head := if Significant(x[0]) then [x[0]] else [];
      assert (x + y)[0] == x[0] && (x + y)[1..] == x[1..] + y;
      FilterSignificantAppend(x[1..], y);
      AppendAssoc(head, FilterSignificant(x[1..]), FilterSignificant(y));
    }
  }

  /** Each significant record of the input is kept. */
  lemma FilterSignificantKeepsAll(ds: seq<Difference>, i: nat)
    requires i < |ds| && Significant(ds[i])
    ensures ds[i] in FilterSignificant(ds)
  {
    var x, y := ds[..i], ds[i+1..];
    assert ds == x + ([ds[i]] + y);
    FilterSignificantAppend(x, [ds[i]] + y);
    FilterSignificantAppend([ds[i]], y);
    FilterSignificantSingle(ds[i]);
    var r := FilterSignificant(x) + ([ds[i]] + FilterSignificant(y));
    assert r[|FilterSignificant(x)|] == ds[i];
  }

  /** What node_analyzer stores as `differences` (nodes.py lines 62-64). */
  function SelectDifferences(raw: seq<Difference>): seq<Difference>
  {
    var sig := FilterSignificant(raw);
    if sig != [] then sig else raw[..if |raw| < FallbackCount then |raw| else FallbackCount]
  }

  /** Walk a replace span pairwise up to max(m, n) positions. */
  method ReplaceSpanRecords(a: seq<string>, b: seq<string>, op: Opcode, ratio: (string, string) -> real)
    returns (recs: seq<Difference>)
    requires InBounds(op, |a|, |b|)
    ensures recs == ReplaceSpan(a, b, op, ratio)
  {
    recs := [];
    var m, n := op.i2 - op.i1, op.j2 - op.j1;
    var len := SpanLength(op);
    var i := 0;
    while i < len
      invariant 0 <= i <= len
      invariant recs == ReplaceRecords(a, b, op, ratio, i)
    {
      var orig := if i < m then a[op.i1 + i] else "";
      var mod := if i < n then b[op.j1 + i] else "";
      ReplaceRecordsStep(a, b, op, ratio, i, orig, mod);
      if orig != "" || mod != "" {
        recs := recs + [Difference(orig, mod, Some(ratio(orig, mod)), Modified)];
      }
      i := i + 1;
    }
  }

  /** One position of a replace span: the pair walked there, emitted unless both sides are empty. */
  lemma ReplaceRecordsStep(a: seq<string>, b: seq<string>, op: Opcode, ratio: (string, string) -> real, t: nat,
                           orig: string, mod: string)
    requires InBounds(op, |a|, |b|)
    requires orig == (if t < op.i2 - op.i1 then a[op.i1 + t] else "")
    requires mod == (if t < op.j2 - op.j1 then b[op.j1 + t] else "")
    ensures ReplaceRecords(a, b, op, ratio, t + 1) == ReplaceRecords(a, b, op, ratio, t) +
              (if orig != "" || mod != "" then [Difference(orig, mod, Some(ratio(orig, mod)), Modified)] else [])
  {
    assert PairAt(a, b, op, t) == (orig, mod);
  }

  /** One "removed" record per line of a delete span. */
  method DeleteSpanRecords(lines: seq<string>) returns (recs: seq<Difference>)
    ensures recs == RemovedRecords(lines)
  {
    recs := [];
    var i := 0;
    while i < |lines|
      invariant 0 <= i <= |lines|
      invariant recs == RemovedRecords(lines[..i])
    {
      assert lines[..i + 1][..i] == lines[..i];
      recs := recs + [RemovedRecord(lines[i])];
      i := i + 1;
    }
    assert lines[..|lines|] == lines;
  }

  /** One "added" record per line of an insert span. */
  method InsertSpanRecords(lines: seq<string>) returns (recs: seq<Difference>)
    ensures recs == AddedRecords(lines)
  {
    recs := [];
    var j := 0;
    while j < |lines|
      invariant 0 <= j <= |lines|
      invariant recs == AddedRecords(lines[..j])
    {
      assert lines[..j + 1][..j] == lines[..j];
      recs := recs + [AddedRecord(lines[j])];
      j := j + 1;
    }
    assert lines[..|lines|] == lines;
  }

  /** The body of node_analyzer's opcode loop for one span. */
  method SpanRecords(a: seq<string>, b: seq<string>, op: Opcode, ratio: (string, string) -> real)
    returns (recs: seq<Difference>)
    requires InBounds(op, |a|, |b|)
    ensures recs == OpRecords(a, b, op, ratio)
  {
    match op.tag
    case Equal => recs := [];
    case Replace => recs := ReplaceSpanRecords(a, b, op, ratio);
    case Delete => recs := DeleteSpanRecords(a[op.i1..op.i2]);
    case Insert => recs := InsertSpanRecords(b[op.j1..op.j2]);
  }

  /**
   * The loop of node_analyzer over the opcode list, followed by the
   * significance filter.
   */
  method ComputeDifferences(a: seq<string>, b: seq<string>, ops: seq<Opcode>, ratio: (string, string) -> real)
    returns (diffs: seq<Difference>)
    requires AllInBounds(ops, |a|, |b|)
    ensures diffs == SelectDifferences(RawRecords(a, b, ops, ratio))
  {
    var differences: seq<Difference> := [];
    var k := 0;
    while k < |ops|
      invariant 0 <= k <= |ops|
      invariant differences == RawRecords(a, b, ops[..k], ratio)
    {
      assert InBounds(ops[k], |a|, |b|);
      var recs := SpanRecords(a, b, ops[k], ratio);
      differences := differences + recs;
      assert ops[..k + 1][..k] == ops[..k];
      k := k + 1;
    }
    assert ops[..|ops|] == ops;
    diffs := SelectDifferences(differences);
  }

  /** What node_analyzer stores for two texts under the supplied difflib. */
  ghost function AnalyzeTexts(original: string, modified: string, mt: Matcher): seq<Difference>
    requires ValidMatcher(mt)
  {
    var a, b := Lines(original), Lines(modified);
    SelectDifferences(RawRecords(a, b, mt.opcodes(a, b), mt.ratio))
  }

  /** node_analyzer over two texts. */
  method NodeAnalyzer(original: string, modified: string, mt: Matcher) returns (diffs: seq<Difference>)
    requires ValidMatcher(mt)
    ensures diffs == AnalyzeTexts(original, modified, mt)
  {
    var a := Lines(original);
    var b := Lines(modified);
    var ops := mt.opcodes(a, b);
    assert WellFormed(ops, |a|, |b|);
    diffs := ComputeDifferences(a, b, ops, mt.ratio);
  }

  // ---------------------------------------------------------------------
  // Properties of the records
  // ---------------------------------------------------------------------

  /** Position `t` of a replace span, as a record without the `orig or mod` guard. */
  function PairRecord(a: seq<string>, b: seq<string>, op: Opcode, ratio: (string, string) -> real, t: nat): Difference
    requires InBounds(op, |a|, |b|)
  {
    var (orig, mod) := PairAt(a, b, op, t);
    Difference(orig, mod, Some(ratio(orig, mod)), Modified)
  }

  /**
   * Over non-blank lines, the first `k` positions of a replace span give
   * exactly `k` "modified" records, record `t` pairing the lines at offset `t`
   * of both sides, the shorter side padded with "": the guard drops nothing.
   */
  lemma {:induction false} ReplaceRecordsPairwise(a: seq<string>, b: seq<string>, op: Opcode, ratio: (string, string) -> real, k: nat)
    requires InBounds(op, |a|, |b|) && NonBlank(a) && NonBlank(b)
    requires k <= SpanLength(op)
    ensures |ReplaceRecords(a, b, op, ratio, k)| == k
    ensures forall t :: 0 <= t < k ==> ReplaceRecords(a, b, op, ratio, k)[t] == PairRecord(a, b, op, ratio, t)
  {
    if k > 0 {
      ReplaceRecordsPairwise(a, b, op, ratio, k - 1);
      var t := k - 1;
      if t < op.i2 - op.i1 {
        assert a[op.i1 + t] != "";
      } else {
        assert b[op.j1 + t] != "";
      }
    }
  }

  lemma {:induction false} RemovedRecordsAt(lines: seq<string>)
    ensures |RemovedRecords(lines)| == |lines|
    ensures forall t :: 0 <= t < |lines| ==> RemovedRecords(lines)[t] == RemovedRecord(lines[t])
  {
    if lines != [] {
      RemovedRecordsAt(lines[..|lines| - 1]);
    }
  }

  lemma {:induction false} AddedRecordsAt(lines: seq<string>)
    ensures |AddedRecords(lines)| == |lines|
    ensures forall t :: 0 <= t < |lines| ==> AddedRecords(lines)[t] == AddedRecord(lines[t])
  {
    if lines != [] {
      AddedRecordsAt(lines[..|lines| - 1]);
    }
  }

  /**
   * Per span, over non-blank lines: a replace of m by n lines yields max(m, n)
   * records, a delete one "removed" record per original line, an insert one
   * "added" record per modified line, an equal span nothing.
   */
  lemma SpanRecordCount(a: seq<string>, b: seq<string>, op: Opcode, ratio: (string, string) -> real)
    requires InBounds(op, |a|, |b|) && NonBlank(a) && NonBlank(b)
    ensures |OpRecords(a, b, op, ratio)| ==
            match op.tag
            case Equal => 0
            case Replace => SpanLength(op)
            case Delete => op.i2 - op.i1
            case Insert => op.j2 - op.j1
    ensures op.tag == Delete ==> forall t :: 0 <= t < op.i2 - op.i1 ==>
              OpRecords(a, b, op, ratio)[t] == Difference(a[op.i1 + t], "", Some(0.0), Removed)
    ensures op.tag == Insert ==> forall t :: 0 <= t < op.j2 - op.j1 ==>
              OpRecords(a, b, op, ratio)[t] == Difference("", b[op.j1 + t], Some(0.0), Added)
  {
    match op.tag
    case Equal =>
    case Replace => ReplaceRecordsPairwise(a, b, op, ratio, SpanLength(op));
    case Delete => RemovedRecordsAt(a[op.i1..op.i2]);
    case Insert => AddedRecordsAt(b[op.j1..op.j2]);
  }

  /** Opcode lists made only of equal spans produce no raw records. */
  lemma {:induction false} AllEqualNoRecords(a: seq<string>, b: seq<string>, ops: seq<Opcode>, ratio: (string, string) -> real)
    requires AllInBounds(ops, |a|, |b|)
    requires forall k :: 0 <= k < |ops| ==> ops[k].tag == Equal
    ensures RawRecords(a, b, ops, ratio) == []
  {
    if ops != [] {
      AllEqualNoRecords(a, b, ops[..|ops| - 1], ratio);
    }
  }

  /**
   * The stored differences are the significant raw records when there are
   * any, otherwise the first min(10, total) raw records; they are empty
   * exactly when there are no raw records.
   */
  lemma SelectDifferencesSpec(raw: seq<Difference>)
    ensures var r := SelectDifferences(raw);
            && (r == [] <==> raw == [])
            && |r| <= |raw|
            && ((exists i :: 0 <= i < |raw| && Significant(raw[i])) ==>
                  r == FilterSignificant(raw) && forall i :: 0 <= i < |r| ==> Significant(r[i]))
            && ((forall i :: 0 <= i < |raw| ==> !Significant(raw[i])) ==>
                  |r| == (if |raw| < FallbackCount then |raw| else FallbackCount) && r <= raw)
  {
  }

  /** The stored differences after an all-equal opcode list (identical texts) are empty. */
  lemma AllEqualNoDifferences(a: seq<string>, b: seq<string>, ops: seq<Opcode>, ratio: (string, string) -> real)
    requires AllInBounds(ops, |a|, |b|)
    requires forall k :: 0 <= k < |ops| ==> ops[k].tag == Equal
    ensures SelectDifferences(RawRecords(a, b, ops, ratio)) == []
  {
    AllEqualNoRecords(a, b, ops, ratio);
  }

  // ---------------------------------------------------------------------
  // The modified sides of the records follow the modified text's line order
  // ---------------------------------------------------------------------

  /** The non-empty `modified_section`s of a record list, in order. */
  function ModifiedSides(ds: seq<Difference>): seq<string>
  {
    if ds == [] then []
    else
      var d := ds[|ds| - 1];
      ModifiedSides(ds[..|ds| - 1]) + (if d.modifiedSection != "" then [d.modifiedSection] else [])
  }

  lemma {:induction false} ModifiedSidesAppend(x: seq<Difference>, y: seq<Difference>)
    ensures ModifiedSides(x + y) == ModifiedSides(x) + ModifiedSides(y)
    decreases |y|
  {
    if y == [] {
      AppendEmpty(x);
      AppendEmpty(ModifiedSides(x));
    } else {
      var d := y[|y| - 1];
      var tail := if d.modifiedSection != "" then [d.modifiedSection] else [];
      AppendLast(x, y);
      assert ModifiedSides(x + y) == ModifiedSides(x + y[..|y| - 1]) + tail;
      ModifiedSidesAppend(x, y[..|y| - 1]);
      AppendAssoc(ModifiedSides(x), ModifiedSides(y[..|y| - 1]), tail);
    }
  }

  /** The modified lines an opcode touches: its b-span for replace and insert. */
  function ChangedSpan(b: seq<string>, op: Opcode): seq<string>
    requires op.j1 <= op.j2 <= |b|
  {
    if op.tag == Replace || op.tag == Insert then b[op.j1..op.j2] else []
  }

  function ChangedLines(b: seq<string>, ops: seq<Opcode>): seq<string>
    requires forall k :: 0 <= k < |ops| ==> ops[k].j1 <= ops[k].j2 <= |b|
  {
    if ops == [] then [] else ChangedLines(b, ops[..|ops| - 1]) + ChangedSpan(b, ops[|ops| - 1])
  }

  /** Every b-span, concatenated in opcode order. */
  function AllSpans(b: seq<string>, ops: seq<Opcode>): seq<string>
    requires forall k :: 0 <= k < |ops| ==> ops[k].j1 <= ops[k].j2 <= |b|
  {
    if ops == [] then [] else AllSpans(b, ops[..|ops| - 1]) + b[ops[|ops| - 1].j1..ops[|ops| - 1].j2]
  }

  lemma ModifiedSidesSingle(d: Difference)
    ensures ModifiedSides([d]) == if d.modifiedSection != "" then [d.modifiedSection] else []
  {
    assert [d][..0] == [];
  }

  /** Position `t` of a replace span contributes the modified line at offset `t`, if any. */
  lemma ReplaceStepModifiedSide(a: seq<string>, b: seq<string>, op: Opcode, ratio: (string, string) -> real, t: nat)
    requires InBounds(op, |a|, |b|) && NonBlank(b)
    ensures ModifiedSides(ReplaceStep(a, b, op, ratio, t)) ==
            if t < op.j2 - op.j1 then [b[op.j1 + t]] else []
  {
    var (orig, mod) := PairAt(a, b, op, t);
    if orig != "" || mod != "" {
      ModifiedSidesSingle(Difference(orig, mod, Some(ratio(orig, mod)), Modified));
      if t < op.j2 - op.j1 {
        assert mod == b[op.j1 + t] != "";
      }
    }
  }

  /** How many lines of the modified span the first `k` positions of a replace span reach. */
  function Reached(op: Opcode, k: nat): nat
    requires op.j1 <= op.j2
  {
    if k < op.j2 - op.j1 then k else op.j2 - op.j1
  }

  /** Growing the reached prefix of the modified span by one position. */
  lemma ReachedStep(b: seq<string>, op: Opcode, t: nat)
    requires op.j1 <= op.j2 <= |b|
    ensures b[op.j1..op.j1 + Reached(op, t)] + (if t < op.j2 - op.j1 then [b[op.j1 + t]] else []) ==
            b[op.j1..op.j1 + Reached(op, t + 1)]
  {
    if t < op.j2 - op.j1 {
      assert b[op.j1..op.j1 + t + 1] == b[op.j1..op.j1 + t] + [b[op.j1 + t]];
    }
  }

  lemma {:induction false} ReplaceModifiedSides(a: seq<string>, b: seq<string>, op: Opcode, ratio: (string, string) -> real, k: nat)
    requires InBounds(op, |a|, |b|) && NonBlank(b)
    ensures ModifiedSides(ReplaceRecords(a, b, op, ratio, k)) == b[op.j1..op.j1 + Reached(op, k)]
  {
    if k > 0 {
      var t := k - 1;
      var prev, step := ReplaceRecords(a, b, op, ratio, t), ReplaceStep(a, b, op, ratio, t);
      assert ReplaceRecords(a, b, op, ratio, k) == prev + step;
      ModifiedSidesAppend(prev, step);
      ReplaceModifiedSides(a, b, op, ratio, t);
      StepExtendsSides(a, b, op, ratio, t);
    }
  }

  /** The modified side of position `t` extends the lines reached so far by one, within the span. */
  lemma StepExtendsSides(a: seq<string>, b: seq<string>, op: Opcode, ratio: (string, string) -> real, t: nat)
    requires InBounds(op, |a|, |b|) && NonBlank(b)
    ensures b[op.j1..op.j1 + Reached(op, t)] + ModifiedSides(ReplaceStep(a, b, op, ratio, t)) ==
            b[op.j1..op.j1 + Reached(op, t + 1)]
  {
    ReplaceStepModifiedSide(a, b, op, ratio, t);
    ReachedStep(b, op, t);
  }

  /** Walking at least the modified span's length yields all of its lines. */
  lemma ReplaceModifiedSidesPast(a: seq<string>, b: seq<string>, op: Opcode, ratio: (string, string) -> real, k: nat)
    requires InBounds(op, |a|, |b|) && NonBlank(b) && k >= op.j2 - op.j1
    ensures ModifiedSides(ReplaceRecords(a, b, op, ratio, k)) == b[op.j1..op.j2]
  {
    ReplaceModifiedSides(a, b, op, ratio, k);
  }



  lemma {:induction false} RemovedModifiedSides(lines: seq<string>)
    ensures ModifiedSides(RemovedRecords(lines)) == []
  {
    if lines != [] {
      RemovedModifiedSides(lines[..|lines| - 1]);
      ModifiedSidesAppend(RemovedRecords(lines[..|lines| - 1]), [RemovedRecord(lines[|lines| - 1])]);
      ModifiedSidesSingle(RemovedRecord(lines[|lines| - 1]));
    }
  }

  lemma {:induction false} AddedModifiedSides(lines: seq<string>)
    requires NonBlank(lines)
    ensures ModifiedSides(AddedRecords(lines)) == lines
  {
    if lines != [] {
      AddedModifiedSides(lines[..|lines| - 1]);
      ModifiedSidesAppend(AddedRecords(lines[..|lines| - 1]), [AddedRecord(lines[|lines| - 1])]);
      ModifiedSidesSingle(AddedRecord(lines[|lines| - 1]));
      DropLastJoin(lines);
    }
  }

  /** A whole replace span contributes its modified lines. */
  lemma ReplaceSpanSides(a: seq<string>, b: seq<string>, op: Opcode, ratio: (string, string) -> real)
    requires InBounds(op, |a|, |b|) && NonBlank(b)
    ensures ModifiedSides(ReplaceSpan(a, b, op, ratio)) == b[op.j1..op.j2]
  {
    ReplaceModifiedSidesPast(a, b, op, ratio, SpanLength(op));
  }

  lemma ReplaceSpanModifiedSides(a: seq<string>, b: seq<string>, op: Opcode, ratio: (string, string) -> real)
    requires InBounds(op, |a|, |b|) && NonBlank(b) && op.tag == Replace
    ensures ModifiedSides(OpRecords(a, b, op, ratio)) == b[op.j1..op.j2]
  {
    OpRecordsReplace(a, b, op, ratio);
    ReplaceSpanSides(a, b, op, ratio);
  }

  lemma {:induction false} OpRecordsReplace(a: seq<string>, b: seq<string>, op: Opcode, ratio: (string, string) -> real)
    requires InBounds(op, |a|, |b|) && op.tag == Replace
    ensures OpRecords(a, b, op, ratio) == ReplaceSpan(a, b, op, ratio)
  {
  }

  /** One span's records contribute exactly its changed modified lines. */
  lemma SpanModifiedSides(a: seq<string>, b: seq<string>, op: Opcode, ratio: (string, string) -> real)
    requires InBounds(op, |a|, |b|) && NonBlank(b)
    ensures ModifiedSides(OpRecords(a, b, op, ratio)) == ChangedSpan(b, op)
  {
    if op.tag == Replace {
      ReplaceSpanModifiedSides(a, b, op, ratio);
    } else if op.tag == Delete {
      RemovedModifiedSides(a[op.i1..op.i2]);
    } else if op.tag == Insert {
      assert NonBlank(b[op.j1..op.j2]);
      AddedModifiedSides(b[op.j1..op.j2]);
    }
  }

  /**
   * Over non-blank lines, the non-empty modified sides of the raw records are
   * exactly the modified lines of the replace and insert spans, in order.
   */
  lemma {:induction false} ModifiedSidesAreChangedLines(a: seq<string>, b: seq<string>, ops: seq<Opcode>, ratio: (string, string) -> real)
    requires AllInBounds(ops, |a|, |b|) && NonBlank(b)
    ensures ModifiedSides(RawRecords(a, b, ops, ratio)) == ChangedLines(b, ops)
  {
    if ops != [] {
      var op := ops[|ops| - 1];
      assert InBounds(op, |a|, |b|);
      ModifiedSidesAreChangedLines(a, b, ops[..|ops| - 1], ratio);
      ModifiedSidesAppend(RawRecords(a, b, ops[..|ops| - 1], ratio), OpRecords(a, b, op, ratio));
      SpanModifiedSides(a, b, op, ratio);
    }
  }

  /** For well-formed opcodes the b-spans tile the modified line list. */
  lemma {:induction false} SpansCover(b: seq<string>, ops: seq<Opcode>, m: nat, k: nat)
    requires WellFormed(ops, m, |b|)
    requires 0 < k <= |ops|
    ensures AllSpans(b, ops[..k]) == b[..ops[k - 1].j2]
  {
    assert InBounds(ops[k - 1], m, |b|);
    assert ops[..k][..k - 1] == ops[..k - 1];
    if k > 1 {
      SpansCover(b, ops, m, k - 1);
      assert ops[k - 1].j1 == ops[k - 2].j2;
    }
  }

  /** `x` is obtained from `y` by deleting elements. */
  predicate IsSubsequence(x: seq<string>, y: seq<string>)
    decreases |y|
  {
    if x == [] then true
    else if y == [] then false
    else (x[|x| - 1] == y[|y| - 1] && IsSubsequence(x[..|x| - 1], y[..|y| - 1]))
         || IsSubsequence(x, y[..|y| - 1])
  }

  lemma {:induction false} SubsequenceExtendRight(x: seq<string>, y: seq<string>, z: seq<string>)
    requires IsSubsequence(x, y)
    ensures IsSubsequence(x, y + z)
    decreases |z|
  {
    if z != [] && x != [] {
      SubsequenceExtendRight(x, y, z[..|z| - 1]);
      assert (y + z)[..|y + z| - 1] == y + z[..|z| - 1];
      assert IsSubsequence(x, (y + z)[..|y + z| - 1]);
    } else if z == [] {
      assert y + z == y;
    }
  }

  lemma {:induction false} SubsequenceExtendBoth(x: seq<string>, y: seq<string>, z: seq<string>)
    requires IsSubsequence(x, y)
    ensures IsSubsequence(x + z, y + z)
    decreases |z|
  {
    if z != [] {
      SubsequenceExtendBoth(x, y, z[..|z| - 1]);
      assert (x + z)[..|x + z| - 1] == x + z[..|z| - 1];
      assert (y + z)[..|y + z| - 1] == y + z[..|z| - 1];
      assert (x + z)[|x + z| - 1] == (y + z)[|y + z| - 1];
    } else {
      assert x + z == x && y + z == y;
    }
  }

  lemma {:induction false} ChangedLinesSubsequence(b: seq<string>, ops: seq<Opcode>)
    requires forall k :: 0 <= k < |ops| ==> ops[k].j1 <= ops[k].j2 <= |b|
    ensures IsSubsequence(ChangedLines(b, ops), AllSpans(b, ops))
  {
    if ops != [] {
      var op, init := ops[|ops| - 1], ops[..|ops| - 1];
      var changed, spans := ChangedLines(b, init), AllSpans(b, init);
      ChangedLinesSubsequence(b, init);
      assert AllSpans(b, ops) == spans + b[op.j1..op.j2];
      if op.tag == Replace || op.tag == Insert {
        assert ChangedLines(b, ops) == changed + b[op.j1..op.j2];
        SubsequenceExtendBoth(changed, spans, b[op.j1..op.j2]);
      } else {
        assert ChangedLines(b, ops) == changed + [];
        assert changed + [] == changed;
        SubsequenceExtendRight(changed, spans, b[op.j1..op.j2]);
      }
    }
  }

  /**
   * For a well-formed opcode list over non-blank lines, the non-empty modified
   * sides of the raw records, read in order, form a subsequence of the
   * modified text's lines.
   */
  lemma ModifiedSidesFollowModifiedText(a: seq<string>, b: seq<string>, ops: seq<Opcode>, ratio: (string, string) -> real)
    requires WellFormed(ops, |a|, |b|) && NonBlank(a) && NonBlank(b)
    ensures IsSubsequence(ModifiedSides(RawRecords(a, b, ops, ratio)), b)
  {
    ModifiedSidesAreChangedLines(a, b, ops, ratio);
    ChangedLinesSubsequence(b, ops);
    if ops == [] {
      assert b == [];
    } else {
      SpansCover(b, ops, |a|, |ops|);
      assert ops[..|ops|] == ops;
      assert b[..|b|] == b;
    }
  }
}
