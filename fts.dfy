/**
 * The pure helpers of app/rag/db.py: escape_fts_query, which turns free text
 * into an SQLite FTS5 MATCH expression, and the playbook rows the database
 * is seeded with.
 */
module Fts {
  import opened Common
  import opened Schemas
  import Evaluator

  // ---------------------------------------------------------------------------
  // escape_fts_query
  // ---------------------------------------------------------------------------

  const MaxTerms: nat := 10
  const MatchAll: string := "\"*\""
  const Or: string := " OR "

  /** The CJK Unified Ideographs block U+4E00..U+9FFF. */
  predicate IsCjk(c: char)
  {
    '一' <= c <= '鿿'
  }

  /**
   * The characters the substitution keeps: word characters (`isWord` stands
   * for Python's \w), whitespace, and CJK ideographs.
   */
  predicate Kept(c: char, isWord: char -> bool)
  {
    isWord(c) || IsSpace(c) || IsCjk(c)
  }

  /** `re.sub(r'[^\w\s一-鿿]', ' ', query)` */
  function Clean(query: string, isWord: char -> bool): (r: string)
    ensures |r| == |query|
    ensures forall i :: 0 <= i < |r| ==> Kept(r[i], isWord)
    ensures forall i :: 0 <= i < |r| ==> r[i] == query[i] || r[i] == ' '
  {
    seq(|query|, i requires 0 <= i < |query| => if Kept(query[i], isWord) then query[i] else ' ')
  }

  /** The length of the run of non-whitespace characters that `s` starts with. */
  function WordLength(s: string): (n: nat)
    ensures n <= |s|
    ensures forall i :: 0 <= i < n ==> !IsSpace(s[i])
    ensures n < |s| ==> IsSpace(s[n])
  {
    if s == [] || IsSpace(s[0]) then 0 else 1 + WordLength(s[1..])
  }

  predicate NoSpace(w: string)
  {
    forall i :: 0 <= i < |w| ==> !IsSpace(w[i])
  }

  /** Every entry is a non-empty run of non-whitespace characters. */
  predicate WordList(ws: seq<string>)
  {
    forall k :: 0 <= k < |ws| ==> ws[k] != [] && NoSpace(ws[k])
  }

  lemma WordListCons(w: string, rest: seq<string>)
    requires w != [] && NoSpace(w) && WordList(rest)
    ensures WordList([w] + rest)
  {
    var ws := [w] + rest;
    forall k | 0 <= k < |ws|
      ensures ws[k] != [] && NoSpace(ws[k])
    {
      if k > 0 {
        assert ws[k] == rest[k - 1];
      }
    }
  }

  /** `s.split()`: the maximal runs of non-whitespace characters, in order. */
  function Words(s: string): (ws: seq<string>)
    ensures WordList(ws)
    decreases |s|
  {
    var t := TrimLeft(s);
    if t == [] then []
    else
      var n := WordLength(t);
      FirstWordShape(t);
      var rest := Words(t[n..]);
      WordListCons(t[..n], rest);
      [t[..n]] + rest
  }

  /** A text that starts with a non-space character starts with a non-empty word. */
  lemma FirstWordShape(t: string)
    requires t != [] && !IsSpace(t[0])
    ensures 0 < WordLength(t) && NoSpace(t[..WordLength(t)])
  {
    var n := WordLength(t);
    assert forall i :: 0 <= i < n ==> t[..n][i] == t[i];
  }

  predicate AllKept(s: string, isWord: char -> bool)
  {
    forall i :: 0 <= i < |s| ==> Kept(s[i], isWord)
  }

  /** Made only of word characters and CJK ideographs. */
  predicate TermChars(w: string, isWord: char -> bool)
  {
    forall i :: 0 <= i < |w| ==> isWord(w[i]) || IsCjk(w[i])
  }

  /** The first word of a text, and the rest of the text after it. */
  lemma WordsUnfold(s: string)
    requires TrimLeft(s) != []
    ensures var t := TrimLeft(s);
            && 0 < WordLength(t) && |t[WordLength(t)..]| < |s|
            && Words(s) == [t[..WordLength(t)]] + Words(t[WordLength(t)..])
  {
  }

  /** Splitting a trimmed cleaned text: its first word is made of term characters and the rest stays cleaned. */
  lemma FirstWordKept(t: string, isWord: char -> bool)
    requires AllKept(t, isWord) && t != [] && !IsSpace(t[0])
    ensures TermChars(t[..WordLength(t)], isWord) && AllKept(t[WordLength(t)..], isWord)
  {
    var n := WordLength(t);
    FirstWordShape(t);
    KeptSlice(t, 0, n, isWord);
    assert t[0..n] == t[..n];
    KeptWordIsTerm(t[..n], isWord);
    KeptSlice(t, n, |t|, isWord);
    assert t[n..|t|] == t[n..];
  }

  /** Trimming a cleaned text leaves it cleaned. */
  lemma TrimLeftKept(s: string, isWord: char -> bool)
    requires AllKept(s, isWord)
    ensures AllKept(TrimLeft(s), isWord)
  {
    var t := TrimLeft(s);
    KeptSlice(s, |s| - |t|, |s|, isWord);
    assert s[|s| - |t|..|s|] == t;
  }

  /** A slice of a cleaned text is cleaned. */
  lemma KeptSlice(s: string, lo: nat, hi: nat, isWord: char -> bool)
    requires lo <= hi <= |s| && AllKept(s, isWord)
    ensures AllKept(s[lo..hi], isWord)
  {
    assert forall i :: 0 <= i < hi - lo ==> s[lo..hi][i] == s[lo + i];
  }

  /** A cleaned run without whitespace holds only term characters. */
  lemma KeptWordIsTerm(w: string, isWord: char -> bool)
    requires AllKept(w, isWord) && NoSpace(w)
    ensures TermChars(w, isWord)
  {
  }

  /** Every word of a cleaned text is made of word characters and CJK ideographs. */
  lemma {:induction false} WordsKeep(s: string, isWord: char -> bool)
    requires AllKept(s, isWord)
    ensures forall k :: 0 <= k < |Words(s)| ==> TermChars(Words(s)[k], isWord)
    decreases |s|
  {
    var t := TrimLeft(s);
    if t != [] {
      var n := WordLength(t);
      WordsUnfold(s);
      TrimLeftKept(s, isWord);
      FirstWordKept(t, isWord);
      var rest := Words(t[n..]);
      WordsKeep(t[n..], isWord);
      var ws := Words(s);
      forall k | 0 <= k < |ws|
        ensures TermChars(ws[k], isWord)
      {
        if k > 0 {
          assert ws[k] == rest[k - 1];
        }
      }
    }
  }

  // split() is pinned down by three equations: nothing in an empty text, a
  // leading whitespace character is skipped, and a leading maximal run of
  // non-whitespace characters is the first word. Every text is taken apart
  // by exactly one of them, so any function meeting all three is Words.

  lemma WordsOfEmpty()
    ensures Words([]) == []
  {
  }

  lemma WordsOfSpaceFirst(sp: string, s: string)
    requires |sp| == 1 && IsSpace(sp[0])
    ensures Words(sp + s) == Words(s)
  {
    assert (sp + s)[1..] == s;
  }

  lemma {:induction false} WordLengthOfWord(w: string, rest: string)
    requires NoSpace(w) && (rest == [] || IsSpace(rest[0]))
    ensures WordLength(w + rest) == |w|
  {
    if w == [] {
      assert w + rest == rest;
    } else {
      assert (w + rest)[1..] == w[1..] + rest;
      WordLengthOfWord(w[1..], rest);
    }
  }

  lemma WordsOfWordFirst(w: string, rest: string)
    requires w != [] && NoSpace(w) && (rest == [] || IsSpace(rest[0]))
    ensures Words(w + rest) == [w] + Words(rest)
  {
    var s := w + rest;
    assert TrimLeft(s) == s;
    WordLengthOfWord(w, rest);
    assert s[..|w|] == w && s[|w|..] == rest;
  }

  /** The non-whitespace characters of a text, in order. */
  function NonSpace(s: string): string
  {
    if s == [] then [] else (if IsSpace(s[0]) then [] else [s[0]]) + NonSpace(s[1..])
  }

  /** Strings laid end to end. */
  function Concat(ws: seq<string>): string
  {
    if ws == [] then [] else ws[0] + Concat(ws[1..])
  }

  lemma {:induction false} NonSpaceAppend(x: string, y: string)
    ensures NonSpace(x + y) == NonSpace(x) + NonSpace(y)
  {
    if x == [] {
      assert x + y == y;
    } else {
      assert (x + y)[1..] == x[1..] + y;
      NonSpaceAppend(x[1..], y);
    }
  }

  lemma {:induction false} NonSpaceOfWord(w: string)
    requires NoSpace(w)
    ensures NonSpace(w) == w
  {
    if w != [] {
      NonSpaceOfWord(w[1..]);
    }
  }

  lemma {:induction false} NonSpaceTrimLeft(s: string)
    ensures NonSpace(TrimLeft(s)) == NonSpace(s)
  {
    if s != [] && IsSpace(s[0]) {
      NonSpaceTrimLeft(s[1..]);
    }
  }

  lemma ConcatCons(w: string, rest: seq<string>)
    ensures Concat([w] + rest) == w + Concat(rest)
  {
    assert ([w] + rest)[1..] == rest;
  }

  /** split() drops only whitespace: its words, laid end to end, are the text's other characters in order. */
  lemma {:induction false} WordsContent(s: string)
    ensures Concat(Words(s)) == NonSpace(s)
    decreases |s|
  {
    var t := TrimLeft(s);
    NonSpaceTrimLeft(s);
    if t != [] {
      var n := WordLength(t);
      WordsUnfold(s);
      FirstWordShape(t);
      WordsContent(t[n..]);
      ConcatCons(t[..n], Words(t[n..]));
      NonSpaceSplit(t, n);
    }
  }

  lemma NonSpaceSplit(t: string, n: nat)
    requires n <= |t| && NoSpace(t[..n])
    ensures NonSpace(t) == t[..n] + NonSpace(t[n..])
  {
    assert t == t[..n] + t[n..];
    NonSpaceAppend(t[..n], t[n..]);
    NonSpaceOfWord(t[..n]);
  }

  /** The words that become search terms: the first ten, in order. */
  function Terms(query: string, isWord: char -> bool): (ts: seq<string>)
    ensures |ts| <= MaxTerms
    ensures var ws := Words(Clean(query, isWord));
            && |ts| == (if |ws| < MaxTerms then |ws| else MaxTerms)
            && ts == ws[..|ts|]
  {
    var ws := Words(Clean(query, isWord));
    if |ws| <= MaxTerms then ws else ws[..MaxTerms]
  }

  function Quote(w: string): string
  {
    "\"" + w + "\""
  }

  /** Each term wrapped in double quotes. */
  function Quoted(ts: seq<string>): (qs: seq<string>)
    ensures |qs| == |ts|
    ensures forall k :: 0 <= k < |ts| ==> qs[k] == Quote(ts[k])
  {
    seq(|ts|, k requires 0 <= k < |ts| => Quote(ts[k]))
  }

  /**
   * escape_fts_query: "*" in double quotes when nothing is left after the
   * cleanup, otherwise the first ten words, each in double quotes, joined
   * by " OR ".
   */
  function EscapeFtsQuery(query: string, isWord: char -> bool): (r: string)
    ensures r != []
    ensures Terms(query, isWord) == [] ==> r == MatchAll
    ensures Terms(query, isWord) != [] ==> r == Join(Quoted(Terms(query, isWord)), Or)
  {
    var ts := Terms(query, isWord);
    if ts == [] then MatchAll
    else
      var quoted := Quoted(ts);
      JoinNonEmpty(quoted, Or);
      Join(quoted, Or)
  }

  /**
   * The words of parts joined by " OR ": the parts at the even positions and
   * the keyword OR at the odd ones, so one OR fewer than there are parts.
   */
  function WithOr(parts: seq<string>): (ws: seq<string>)
    ensures |ws| == (if parts == [] then 0 else 2 * |parts| - 1)
    ensures forall j :: 0 <= j < |ws| ==> ws[j] == if j % 2 == 0 then parts[j / 2] else "OR"
  {
    if |parts| <= 1 then parts else [parts[0]] + (["OR"] + WithOr(parts[1..]))
  }

  /** A word with a space on each side, then a text, splits into the word and the text's words. */
  lemma WordsOfPadded(k: string, j: string)
    requires k != [] && NoSpace(k)
    ensures Words(" " + k + " " + j) == [k] + Words(j)
  {
    var sj := " " + j;
    assert " " + k + " " + j == " " + (k + sj);
    WordsOfSpaceFirst(" ", k + sj);
    WordsOfWordFirst(k, sj);
    WordsOfSpaceFirst(" ", j);
  }

  /** " OR " and what follows it split into the keyword and the words after it. */
  lemma WordsOfOr(j: string)
    ensures Words(Or + j) == ["OR"] + Words(j)
  {
    assert NoSpace("OR");
    assert Or + j == " " + "OR" + " " + j;
    WordsOfPadded("OR", j);
  }

  /** A word followed by a separator that starts with whitespace splits into the word and the separator's words. */
  lemma WordsOfWordThenSep(w: string, sep: string, j: string, ks: seq<string>)
    requires w != [] && NoSpace(w)
    requires sep != [] && IsSpace(sep[0])
    requires Words(sep + j) == ks + Words(j)
    ensures Words(w + sep + j) == [w] + (ks + Words(j))
  {
    AppendAssoc(w, sep, j);
    WordsOfWordFirst(w, sep + j);
  }

  lemma WordListTail(ws: seq<string>)
    requires ws != [] && WordList(ws)
    ensures WordList(ws[1..])
  {
    assert forall k :: 0 <= k < |ws| - 1 ==> ws[1..][k] == ws[k + 1];
  }

  /** Splitting parts joined by " OR " gives the parts back, with OR between each two. */
  lemma {:induction false} WordsJoinOr(parts: seq<string>)
    requires |parts| >= 1 && WordList(parts)
    ensures Words(Join(parts, Or)) == WithOr(parts)
  {
    if |parts| == 1 {
      WordsOfWordFirst(parts[0], []);
      AppendEmpty(parts[0]);
    } else {
      WordListTail(parts);
      WordsJoinOr(parts[1..]);
      WordsJoinOrStep(parts);
    }
  }

  lemma WordsJoinOrStep(parts: seq<string>)
    requires |parts| >= 2 && parts[0] != [] && NoSpace(parts[0])
    requires Words(Join(parts[1..], Or)) == WithOr(parts[1..])
    ensures Words(Join(parts, Or)) == WithOr(parts)
  {
    var j := Join(parts[1..], Or);
    WordsOfOr(j);
    WordsOfWordThenSep(parts[0], Or, j, ["OR"]);
  }

  /** Quoting keeps a word a single word. */
  lemma QuotedWords(ts: seq<string>)
    requires WordList(ts)
    ensures WordList(Quoted(ts))
  {
    forall k | 0 <= k < |ts|
      ensures NoSpace(Quote(ts[k]))
    {
      var q := Quote(ts[k]);
      assert forall i :: 0 < i < |q| - 1 ==> q[i] == ts[k][i - 1];
    }
  }

  /**
   * The query escape_fts_query builds splits back into its quoted terms with
   * the keyword OR between each two (one " OR " fewer than terms), or into
   * the quoted "*" alone when there are no terms.
   */
  lemma EscapeSplitsBack(query: string, isWord: char -> bool)
    ensures var ts := Terms(query, isWord);
            Words(EscapeFtsQuery(query, isWord)) == if ts == [] then [MatchAll] else WithOr(Quoted(ts))
  {
    var ts := Terms(query, isWord);
    if ts == [] {
      WordsOfWordFirst(MatchAll, []);
      assert MatchAll + [] == MatchAll;
    } else {
      QuotedWords(ts);
      WordsJoinOr(Quoted(ts));
    }
  }

  lemma JoinNonEmpty(parts: seq<string>, sep: string)
    requires |parts| >= 1 && parts[0] != []
    ensures Join(parts, sep) != []
  {
  }

  /**
   * Every search term is made only of word characters and CJK ideographs:
   * no whitespace, and no punctuation that is not a word character, survives
   * into a term.
   */
  lemma TermsAreClean(query: string, isWord: char -> bool)
    ensures var ts := Terms(query, isWord);
            forall k :: 0 <= k < |ts| ==> TermChars(ts[k], isWord)
  {
    var c := Clean(query, isWord);
    WordsKeep(c, isWord);
    var ws := Words(c);
    var ts := Terms(query, isWord);
    assert forall k :: 0 <= k < |ts| ==> ts[k] == ws[k];
  }

  /** When the double quote is not a word character, no term contains one. */
  lemma NoQuoteInTerms(query: string, isWord: char -> bool)
    requires !isWord('"')
    ensures var ts := Terms(query, isWord);
            forall k :: 0 <= k < |ts| ==> '"' !in ts[k]
  {
    TermsAreClean(query, isWord);
    var ts := Terms(query, isWord);
    forall k | 0 <= k < |ts|
      ensures '"' !in ts[k]
    {
      forall i | 0 <= i < |ts[k]|
        ensures ts[k][i] != '"'
      {
        assert TermChars(ts[k], isWord);
      }
    }
  }

  /** Joining n quoted terms uses n - 1 separators: the output's length is fixed by the terms. */
  lemma {:induction false} JoinLength(parts: seq<string>, sep: string)
    requires |parts| >= 1
    ensures |Join(parts, sep)| == (|parts| - 1) * |sep| + SumLengths(parts)
    decreases |parts|
  {
    if |parts| > 1 {
      JoinLength(parts[1..], sep);
    }
  }

  function SumLengths(parts: seq<string>): nat
  {
    if parts == [] then 0 else |parts[0]| + SumLengths(parts[1..])
  }

  // ---------------------------------------------------------------------------
  // Seeded playbook
  // ---------------------------------------------------------------------------

  /** seed_playbook_data: (rule_name, category, description, risk_level, action, keywords). */
  const SeedPlaybook: seq<PlaybookRule> := [
    PlaybookRule("付款比例", "采购", "预付款不超过合同金额的30%，验收款不超过60%，尾款不低于10%", "绿色", "建议调整付款比例", "预付款,30%,验收款,60%"),
    PlaybookRule("付款比例", "采购", "预付款超过40%或验收款超过70%", "红色", "预付款比例过高，不符合公司财务规定", "预付款,40%,验收款,70%"),
    PlaybookRule("违约金上限", "通用", "违约金不超过合同金额的20%", "绿色", "符合标准", "违约金,20%"),
    PlaybookRule("违约金上限", "通用", "违约金超过合同金额的30%", "红色", "违约金过高，可能存在法律风险", "违约金,30%"),
    PlaybookRule("管辖法院", "通用", "优先选择原告所在地或被告所在地法院", "绿色", "符合标准", "管辖法院,原告,被告"),
    PlaybookRule("管辖法院", "通用", "约定由外地的仲裁机构或法院管辖", "黄色", "异地管辖会增加维权成本，建议修改为本地", "仲裁,外地"),
    PlaybookRule("质保期", "采购", "质保期不少于12个月", "绿色", "符合标准", "质保,12月"),
    PlaybookRule("质保期", "采购", "质保期少于6个月", "黄色", "质保期较短，建议延长至12个月", "质保,6月"),
    PlaybookRule("知识产权", "服务", "服务成果知识产权归甲方所有", "绿色", "符合标准", "知识产权,甲方"),
    PlaybookRule("知识产权", "服务", "服务成果知识产权归乙方所有或共有", "红色", "知识产权归属不符合公司利益", "知识产权,乙方,共有"),
    PlaybookRule("竞业限制", "劳动", "竞业限制期限不超过2年", "绿色", "符合标准", "竞业,2年"),
    PlaybookRule("竞业限制", "劳动", "竞业限制期限超过3年或无补偿", "红色", "竞业限制期限过长或违反劳动法规定", "竞业,3年,无补偿"),
    PlaybookRule("押金", "租赁", "押金不超过2个月租金", "绿色", "符合标准", "押金,2月"),
    PlaybookRule("押金", "租赁", "押金超过3个月租金", "黄色", "押金过高，建议降低", "押金,3月"),
    PlaybookRule("保密期限", "保密", "保密期限不超过劳动关系解除后2年", "绿色", "符合标准", "保密,2年"),
    PlaybookRule("保密期限", "保密", "保密期限为永久或过长", "黄色", "永久保密可能无法执行，建议限定合理期限", "永久,保密")
  ]

  const SeedGreen: string := "绿色"
  const SeedYellow: string := "黄色"
  const SeedRed: string := "红色"

  /**
   * The seed rows carry Chinese tier names, so none of them is spelled
   * "green", "yellow" or "red" as the evaluator and the report compare.
   */
  lemma SeedTiers()
    ensures |SeedPlaybook| == 16
    ensures forall i :: 0 <= i < |SeedPlaybook| ==> SeedTier(SeedPlaybook[i].riskLevel)
    ensures forall i :: 0 <= i < |SeedPlaybook| ==>
              SeedPlaybook[i].riskLevel != Green && SeedPlaybook[i].riskLevel != Yellow && SeedPlaybook[i].riskLevel != Red
  {
    forall i | 0 <= i < |SeedPlaybook|
      ensures SeedTier(SeedPlaybook[i].riskLevel)
    {
    }
    forall i | 0 <= i < |SeedPlaybook|
      ensures SeedPlaybook[i].riskLevel != Green && SeedPlaybook[i].riskLevel != Yellow && SeedPlaybook[i].riskLevel != Red
    {
      SeedTierNotEnglish(SeedPlaybook[i].riskLevel);
    }
  }

  /** One of the three Chinese tier names of the seed rows. */
  predicate SeedTier(level: string)
  {
    level == SeedGreen || level == SeedYellow || level == SeedRed
  }

  /** A Chinese tier name differs from each English one in its first character. */
  lemma SeedTierNotEnglish(level: string)
    requires SeedTier(level)
    ensures level != Green && level != Yellow && level != Red
  {
    assert SeedGreen[0] != Green[0] && SeedGreen[0] != Yellow[0] && SeedGreen[0] != Red[0];
    assert SeedYellow[0] != Green[0] && SeedYellow[0] != Yellow[0] && SeedYellow[0] != Red[0];
    assert SeedRed[0] != Green[0] && SeedRed[0] != Yellow[0] && SeedRed[0] != Red[0];
  }

  /** Rules none of whose tiers is spelled "yellow" or "red". */
  predicate NeverFlagging(rules: seq<PlaybookRule>)
  {
    forall j :: 0 <= j < |rules| ==> rules[j].riskLevel != Yellow && rules[j].riskLevel != Red
  }

  /**
   * Against such rules, a record that matches a rule is never flagged for
   * human review: only the fallback tiering can set the flag.
   */
  lemma MatchNeverFlagged(ds: seq<Difference>, rules: seq<PlaybookRule>)
    requires NeverFlagging(rules)
    ensures var evals := Evaluator.Evaluations(ds, rules);
            forall i :: 0 <= i < |evals| && evals[i].matchedRule.Some? ==> evals[i].riskLevel != Yellow && evals[i].riskLevel != Red
    ensures Evaluator.NeedsHuman(Evaluator.Evaluations(ds, rules)) ==>
              exists i :: 0 <= i < |Evaluator.Evaluations(ds, rules)| && Evaluator.Evaluations(ds, rules)[i].matchedRule.None?
  {
    var evals := Evaluator.Evaluations(ds, rules);
    Evaluator.EvaluationsShape(ds, rules);
    forall i | 0 <= i < |evals| && evals[i].matchedRule.Some?
      ensures evals[i].riskLevel != Yellow && evals[i].riskLevel != Red
    {
      Evaluator.EvaluateOneSpec(i, ds[i], rules);
    }
  }

  /** The seeded playbook is such a rule list. */
  lemma SeedNeverFlagging()
    ensures NeverFlagging(SeedPlaybook)
  {
    SeedTiers();
  }
}
