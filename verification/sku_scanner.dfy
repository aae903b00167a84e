/**
 * The two regular expressions of the SKU extractor, matched case-insensitively:
 *
 *   SKU[:\s]+([A-Z0-9\-]+)      found with `finditer` over the whole text
 *   QTY[:\s]+(\d+)              found with `search` in a 100-character window
 *
 * Both have the shape "keyword, one or more separators, a run of value
 * characters"; `KeywordMatchAt` is that shape matched at one position.
 * Separators and value characters are disjoint classes, so the greedy
 * separator run never backtracks and the value is the maximal run that follows.
 */
module SkuScanner {
  import opened Wrappers
  import opened Chars
  import opened Decimal
  import opened SkuModel

  /** `[:\s]` */
  predicate IsSeparator(c: char)
  {
    c == ':' || IsSpace(c)
  }

  /** `[A-Z0-9\-]` under IGNORECASE */
  predicate IsCodeChar(c: char)
  {
    IsUpper(c) || IsLower(c) || IsDigit(c) || c == '-'
  }

  const SkuKeyword: string := "sku"
  const QtyKeyword: string := "qty"
  /** Width of the text searched for a quantity, from the start of each SKU match. */
  const QtyWindow: nat := 100
  const DefaultQuantity: nat := 1

  /** A match: the keyword starts at `start`, the captured value spans `valueStart..end`. */
  datatype Span = Span(start: nat, valueStart: nat, end: nat)

  /** The end of the run of `cls` characters that begins at `i`. */
  function RunEnd(text: string, i: nat, cls: char -> bool): (e: nat)
    requires i <= |text|
    ensures i <= e <= |text|
    ensures forall j :: i <= j < e ==> cls(text[j])
    ensures e < |text| ==> !cls(text[e])
    decreases |text| - i
  {
    if i == |text| || !cls(text[i]) then i else RunEnd(text, i + 1, cls)
  }

  /** What it means for `m` to be a match of "keyword, separators, value run" in `text`. */
  ghost predicate ValidSpan(text: string, kw: string, cls: char -> bool, m: Span)
  {
    && m.start + |kw| < m.valueStart < m.end <= |text|
    && Lower(text[m.start..m.start + |kw|]) == kw
    && (forall j :: m.start + |kw| <= j < m.valueStart ==> IsSeparator(text[j]))
    && (forall j :: m.valueStart <= j < m.end ==> cls(text[j]))
    && (m.end == |text| || !cls(text[m.end]))
  }

  /** Value characters never count as separators (true of both patterns). */
  ghost predicate DisjointFromSeparators(cls: char -> bool)
  {
    forall c :: cls(c) ==> !IsSeparator(c)
  }

  /** The pattern tried at position `i`: `kw` ignoring case, separators, then the greedy value run. */
  function KeywordMatchAt(text: string, i: nat, kw: string, cls: char -> bool): (r: Option<Span>)
    requires i <= |text|
    ensures r.Some? ==> r.value.start == i && ValidSpan(text, kw, cls, r.value)
  {
    if i + |kw| <= |text| && Lower(text[i..i + |kw|]) == kw then
      var a := RunEnd(text, i + |kw|, IsSeparator);
      var b := RunEnd(text, a, cls);
      if a > i + |kw| && b > a then Some(Span(i, a, b)) else None
    else None
  }

  /** Conversely, a valid match is exactly what the pattern finds at its start: at most one match per position. */
  lemma ValidSpanIsFound(text: string, kw: string, cls: char -> bool, m: Span)
    requires DisjointFromSeparators(cls)
    requires ValidSpan(text, kw, cls, m)
    ensures KeywordMatchAt(text, m.start, kw, cls) == Some(m)
  {
    assert !IsSeparator(text[m.valueStart]);
    assert RunEnd(text, m.start + |kw|, IsSeparator) == m.valueStart;
  }

  lemma CodeAndDigitsDisjoint()
    ensures DisjointFromSeparators(IsCodeChar)
    ensures DisjointFromSeparators(IsDigit)
  {
  }

  /** Both patterns as matchers: what each finds at a position, None past the end of the text. */
  function PatternAt(text: string, kw: string, cls: char -> bool): nat -> Option<Span>
  {
    (p: nat) => if p <= |text| then KeywordMatchAt(text, p, kw, cls) else None
  }

  function SkuMatcher(text: string): nat -> Option<Span>
  {
    PatternAt(text, SkuKeyword, IsCodeChar)
  }

  function QtyMatcher(w: string): nat -> Option<Span>
  {
    PatternAt(w, QtyKeyword, IsDigit)
  }

  // ---------------------------------------------------------------- finditer and search

  /** `f` tells what a pattern matches at each position of a text of length `n`. */
  ghost predicate Matcher(f: nat -> Option<Span>, n: nat)
  {
    forall p: nat :: f(p).Some? ==> f(p).value.start == p < f(p).value.valueStart < f(p).value.end <= n
  }

  lemma PatternIsMatcher(text: string, kw: string, cls: char -> bool)
    ensures Matcher(PatternAt(text, kw, cls), |text|)
  {
  }

  /** `finditer` from `pos`: try each position in turn; after a match, resume at its end. */
  function FindAll(f: nat -> Option<Span>, n: nat, pos: nat): (ms: seq<Span>)
    requires Matcher(f, n) && pos <= n
    ensures forall k :: 0 <= k < |ms| ==> pos <= ms[k].start < ms[k].valueStart < ms[k].end <= n
    decreases n - pos
  {
    if pos == n then []
    else match f(pos)
      case Some(m) => [m] + FindAll(f, n, m.end)
      case None => FindAll(f, n, pos + 1)
  }

  /** Where the search for the `k`-th match begins. */
  function ResumeAt(ms: seq<Span>, pos: nat, k: nat): nat
    requires k <= |ms|
  {
    if k == 0 then pos else ms[k - 1].end
  }

  ghost predicate NoMatchIn(f: nat -> Option<Span>, lo: nat, hi: nat)
  {
    forall p :: lo <= p < hi ==> f(p).None?
  }

  /** `m` is the leftmost match at or after `from`. */
  ghost predicate MatchStep(f: nat -> Option<Span>, from: nat, m: Span)
  {
    from <= m.start && f(m.start) == Some(m) && NoMatchIn(f, from, m.start)
  }

  /**
   * The semantics of `finditer` stated without recursion: every element is
   * the leftmost match at or after the end of the previous one (or `pos`),
   * and no match starts after the last.
   */
  ghost predicate IsFindIter(f: nat -> Option<Span>, n: nat, pos: nat, ms: seq<Span>)
  {
    && (forall k {:trigger ResumeAt(ms, pos, k)} :: 0 <= k < |ms| ==> MatchStep(f, ResumeAt(ms, pos, k), ms[k]))
    && ResumeAt(ms, pos, |ms|) <= n
    && NoMatchIn(f, ResumeAt(ms, pos, |ms|), n)
  }

  /** A match at `pos` followed by `finditer` from its end is `finditer` from `pos`. */
  lemma FindIterCons(f: nat -> Option<Span>, n: nat, pos: nat, m: Span, rest: seq<Span>)
    requires f(pos) == Some(m) && m.start == pos
    requires IsFindIter(f, n, m.end, rest)
    ensures IsFindIter(f, n, pos, [m] + rest)
  {
    var ms := [m] + rest;
    forall k | 0 <= k < |ms|
      ensures MatchStep(f, ResumeAt(ms, pos, k), ms[k])
    {
      if k > 0 {
        assert ResumeAt(ms, pos, k) == ResumeAt(rest, m.end, k - 1);
        assert ms[k] == rest[k - 1];
      }
    }
    assert ResumeAt(ms, pos, |ms|) == ResumeAt(rest, m.end, |rest|);
  }

  /** A position with no match may be skipped. */
  lemma FindIterSkip(f: nat -> Option<Span>, n: nat, pos: nat, ms: seq<Span>)
    requires f(pos).None?
    requires IsFindIter(f, n, pos + 1, ms)
    ensures IsFindIter(f, n, pos, ms)
  {
    forall k | 0 <= k < |ms|
      ensures MatchStep(f, ResumeAt(ms, pos, k), ms[k])
    {
      if k == 0 {
        assert ResumeAt(ms, pos + 1, 0) == pos + 1;
      } else {
        assert ResumeAt(ms, pos, k) == ResumeAt(ms, pos + 1, k);
      }
    }
    if ms != [] {
      assert ResumeAt(ms, pos, |ms|) == ResumeAt(ms, pos + 1, |ms|);
    }
  }

  lemma {:induction false} FindAllIsFindIter(f: nat -> Option<Span>, n: nat, pos: nat)
    requires Matcher(f, n) && pos <= n
    ensures IsFindIter(f, n, pos, FindAll(f, n, pos))
    decreases n - pos
  {
    if pos < n {
      match f(pos)
      case Some(m) =>
        FindAllIsFindIter(f, n, m.end);
        FindIterCons(f, n, pos, m, FindAll(f, n, m.end));
      case None =>
        FindAllIsFindIter(f, n, pos + 1);
        FindIterSkip(f, n, pos, FindAll(f, n, pos + 1));
    }
  }

  /** The first element of a `finditer` result is the leftmost match from `pos`. */
  lemma FindIterHead(f: nat -> Option<Span>, n: nat, pos: nat, ms: seq<Span>)
    requires IsFindIter(f, n, pos, ms) && ms != []
    ensures MatchStep(f, pos, ms[0])
  {
    assert ResumeAt(ms, pos, 0) == pos;
  }

  /** After the first match, the rest is `finditer` from its end. */
  lemma FindIterTail(f: nat -> Option<Span>, n: nat, pos: nat, ms: seq<Span>)
    requires IsFindIter(f, n, pos, ms) && ms != []
    ensures IsFindIter(f, n, ms[0].end, ms[1..])
  {
    var rest := ms[1..];
    forall k | 0 <= k < |rest|
      ensures MatchStep(f, ResumeAt(rest, ms[0].end, k), rest[k])
    {
      assert ResumeAt(rest, ms[0].end, k) == ResumeAt(ms, pos, k + 1);
    }
    assert ResumeAt(rest, ms[0].end, |rest|) == ResumeAt(ms, pos, |ms|);
  }

  /** Skipping a position where nothing matches keeps the result. */
  lemma FindIterAdvance(f: nat -> Option<Span>, n: nat, pos: nat, ms: seq<Span>)
    requires IsFindIter(f, n, pos, ms) && f(pos).None? && pos < n
    requires ms != [] ==> ms[0].start != pos
    ensures IsFindIter(f, n, pos + 1, ms)
  {
    forall k | 0 <= k < |ms|
      ensures MatchStep(f, ResumeAt(ms, pos + 1, k), ms[k])
    {
      if k == 0 {
        assert ResumeAt(ms, pos, 0) == pos;
      } else {
        assert ResumeAt(ms, pos + 1, k) == ResumeAt(ms, pos, k);
      }
    }
    if ms != [] {
      assert ResumeAt(ms, pos + 1, |ms|) == ResumeAt(ms, pos, |ms|);
    }
  }

  /** `finditer`'s result is the only sequence with those properties. */
  lemma {:induction false} FindIterUnique(f: nat -> Option<Span>, n: nat, pos: nat, ms: seq<Span>)
    requires Matcher(f, n) && pos <= n
    requires IsFindIter(f, n, pos, ms)
    ensures ms == FindAll(f, n, pos)
    decreases n - pos
  {
    if ms != [] {
      FindIterHead(f, n, pos, ms);
    }
    if pos == n {
    } else if ms != [] && ms[0].start == pos {
      FindIterTail(f, n, pos, ms);
      FindIterUnique(f, n, ms[0].end, ms[1..]);
      assert ms == [ms[0]] + ms[1..];
    } else {
      assert f(pos).None?;
      FindIterAdvance(f, n, pos, ms);
      FindIterUnique(f, n, pos + 1, ms);
    }
  }

  /** `re.search` from `i`: the leftmost match. */
  function Search(f: nat -> Option<Span>, n: nat, i: nat): (r: Option<Span>)
    requires Matcher(f, n) && i <= n
    ensures r.Some? ==> i <= r.value.start < n && f(r.value.start) == r
    decreases n - i
  {
    if i == n then None
    else if f(i).Some? then f(i)
    else Search(f, n, i + 1)
  }

  lemma {:induction false} SearchLeftmost(f: nat -> Option<Span>, n: nat, i: nat)
    requires Matcher(f, n) && i <= n
    ensures Search(f, n, i).None? <==> NoMatchIn(f, i, n)
    ensures forall j :: i <= j < n && f(j).Some? && NoMatchIn(f, i, j) ==> Search(f, n, i) == f(j)
    decreases n - i
  {
    if i < n && f(i).None? {
      SearchLeftmost(f, n, i + 1);
      forall j | i + 1 <= j < n && f(j).Some? && NoMatchIn(f, i, j)
        ensures Search(f, n, i + 1) == f(j)
      {
        assert NoMatchIn(f, i + 1, j);
      }
    }
  }

  // ---------------------------------------------------------------- the SKU scan

  /** The SKU matches `finditer` yields over the whole text, in order. */
  function SkuMatches(text: string): (ms: seq<Span>)
    ensures forall k :: 0 <= k < |ms| ==> ms[k].start < ms[k].valueStart < ms[k].end <= |text|
  {
    PatternIsMatcher(text, SkuKeyword, IsCodeChar);
    FindAll(SkuMatcher(text), |text|, 0)
  }

  /** Each SKU match is the pattern: "sku" in any case, separators, then a maximal code run. */
  lemma SkuMatchesAreMatches(text: string, k: nat)
    requires k < |SkuMatches(text)|
    ensures ValidSpan(text, SkuKeyword, IsCodeChar, SkuMatches(text)[k])
  {
    PatternIsMatcher(text, SkuKeyword, IsCodeChar);
    FindAllIsFindIter(SkuMatcher(text), |text|, 0);
    assert MatchStep(SkuMatcher(text), ResumeAt(SkuMatches(text), 0, k), SkuMatches(text)[k]);
  }

  /** The text `re.search` sees for a SKU match: 100 characters from its start, cut at the end of the text. */
  function QtyWindowOf(text: string, m: Span): (w: string)
    requires m.start <= |text|
    ensures |w| == if m.start + QtyWindow <= |text| then QtyWindow else |text| - m.start
    ensures w == text[m.start..m.start + |w|]
  {
    text[m.start..if m.start + QtyWindow <= |text| then m.start + QtyWindow else |text|]
  }

  /** `int(qty_match.group(1))` if the window holds a quantity, else 1. */
  function QuantityFor(text: string, m: Span): (q: int)
    requires m.start <= |text|
    ensures q >= 0
  {
    var w := QtyWindowOf(text, m);
    match Search(QtyMatcher(w), |w|, 0)
    case None => DefaultQuantity
    case Some(qm) => DecimalValue(w[qm.valueStart..qm.end])
  }

  /**
   * The quantity rule: 1 when no "QTY", separators and digits occur in the
   * window; otherwise the decimal value of the first such digit run, that run
   * ending at the first non-digit or at the window's edge.
   */
  lemma QuantityRule(text: string, m: Span)
    requires m.start <= |text|
    ensures var w := QtyWindowOf(text, m);
            NoMatchIn(QtyMatcher(w), 0, |w|) ==> QuantityFor(text, m) == DefaultQuantity
    ensures var w := QtyWindowOf(text, m);
            forall j :: 0 <= j < |w| && QtyMatcher(w)(j).Some? && NoMatchIn(QtyMatcher(w), 0, j) ==>
              var qm := QtyMatcher(w)(j).value;
              && ValidSpan(w, QtyKeyword, IsDigit, qm)
              && QuantityFor(text, m) == DecimalValue(w[qm.valueStart..qm.end])
  {
    var w := QtyWindowOf(text, m);
    PatternIsMatcher(w, QtyKeyword, IsDigit);
    SearchLeftmost(QtyMatcher(w), |w|, 0);
  }

  // ---------------------------------------------------------------- extracted records

  /** Python's `str.strip()` on ASCII whitespace. */
  function Strip(s: string): (r: string)
    ensures |r| <= |s|
    ensures r != [] ==> !IsSpace(r[0]) && !IsSpace(r[|r| - 1])
    decreases |s|
  {
    if s != [] && IsSpace(s[0]) then Strip(s[1..])
    else if s != [] && IsSpace(s[|s| - 1]) then Strip(s[..|s| - 1])
    else s
  }

  /** Everything of `s` before `i` and from `j` on is whitespace. */
  ghost predicate SpaceOutside(s: string, i: int, j: int)
  {
    (forall k :: 0 <= k < i && k < |s| ==> IsSpace(s[k])) &&
    (forall k :: 0 <= j <= k < |s| ==> IsSpace(s[k]))
  }

  /** Stripping a leading whitespace character first: the slice found for the rest, shifted by one. */
  lemma StripDropFirst(s: string, i: int, j: int)
    requires s != [] && IsSpace(s[0]) && 0 <= i <= j <= |s| - 1
    requires Strip(s[1..]) == s[1..][i..j] && SpaceOutside(s[1..], i, j)
    ensures Strip(s) == s[i + 1..j + 1] && SpaceOutside(s, i + 1, j + 1)
  {
    assert s[1..][i..j] == s[i + 1..j + 1];
    forall k | 0 < k < |s|
      ensures s[k] == s[1..][k - 1]
    {
    }
  }

  /** Stripping a trailing whitespace character first: the slice found for the rest. */
  lemma StripDropLast(s: string, i: int, j: int)
    requires s != [] && !IsSpace(s[0]) && IsSpace(s[|s| - 1]) && 0 <= i <= j <= |s| - 1
    requires Strip(s[..|s| - 1]) == s[..|s| - 1][i..j] && SpaceOutside(s[..|s| - 1], i, j)
    ensures Strip(s) == s[i..j] && SpaceOutside(s, i, j)
  {
    assert s[..|s| - 1][i..j] == s[i..j];
    forall k | 0 <= k < |s| - 1
      ensures s[k] == s[..|s| - 1][k]
    {
    }
  }

  /** The stripped string is a slice of the original with only whitespace cut off on either side. */
  lemma {:induction false} StripSpec(s: string)
    ensures exists i, j :: 0 <= i <= j <= |s| && Strip(s) == s[i..j] && SpaceOutside(s, i, j)
    decreases |s|
  {
    if s != [] && IsSpace(s[0]) {
      var t := s[1..];
      StripSpec(t);
      var i, j :| 0 <= i <= j <= |t| && Strip(t) == t[i..j] && SpaceOutside(t, i, j);
      StripDropFirst(s, i, j);
    } else if s != [] && IsSpace(s[|s| - 1]) {
      var t := s[..|s| - 1];
      StripSpec(t);
      var i, j :| 0 <= i <= j <= |t| && Strip(t) == t[i..j] && SpaceOutside(t, i, j);
      StripDropLast(s, i, j);
    } else {
      assert Strip(s) == s[0..|s|];
    }
  }

  /** The record built for one SKU match: the stripped capture, the window's quantity, no source, not validated, no entry. */
  function SkuFromMatch(text: string, m: Span): (r: SkuInfo)
    requires m.valueStart <= m.end <= |text| && m.start <= |text|
    ensures |r.skuCode| <= m.end - m.valueStart && r.quantity >= 0
    ensures r.sourceEmailId.None? && !r.validated && r.erpEntryId.None?
  {
    SkuInfo(Strip(text[m.valueStart..m.end]), QuantityFor(text, m), None, false, None)
  }

  /** `_extract_skus_from_text` as a value: one record per `finditer` match, in order. */
  function ExtractedSkus(text: string): (skus: seq<SkuInfo>)
    ensures |skus| == |SkuMatches(text)|
  {
    var ms := SkuMatches(text);
    seq(|ms|, k requires 0 <= k < |ms| => SkuFromMatch(text, ms[k]))
  }

  /** The strip applied to each captured code is a no-op: codes contain no whitespace. */
  lemma StripOfCodeIsNoOp(code: string)
    requires forall j :: 0 <= j < |code| ==> IsCodeChar(code[j])
    ensures Strip(code) == code
  {
    if code != [] {
      assert !IsSpace(code[0]) && !IsSpace(code[|code| - 1]);
    }
  }

  /**
   * Each extracted record: the code is the text captured by the k-th match,
   * non-empty and made only of letters, digits and '-'; the quantity follows
   * the quantity rule and is never negative; the other fields are at their
   * defaults.
   */
  lemma ExtractedSkuShape(text: string, k: nat)
    requires k < |ExtractedSkus(text)|
    ensures var s := ExtractedSkus(text)[k];
            var m := SkuMatches(text)[k];
            && m.valueStart < m.end <= |text|
            && s.skuCode == text[m.valueStart..m.end]
            && |s.skuCode| > 0
            && (forall j :: 0 <= j < |s.skuCode| ==> IsCodeChar(s.skuCode[j]))
            && s.quantity == QuantityFor(text, m) && s.quantity >= 0
            && s.sourceEmailId.None? && !s.validated && s.erpEntryId.None?
  {
    SkuMatchesAreMatches(text, k);
    var m := SkuMatches(text)[k];
    StripOfCodeIsNoOp(text[m.valueStart..m.end]);
  }

  /** Matches are in text order and do not overlap. */
  lemma MatchesOrdered(text: string, k: nat)
    requires k + 1 < |SkuMatches(text)|
    ensures var ms := SkuMatches(text);
            ms[k].start < ms[k].end <= ms[k + 1].start < ms[k + 1].end
  {
    var ms := SkuMatches(text);
    PatternIsMatcher(text, SkuKeyword, IsCodeChar);
    FindAllIsFindIter(SkuMatcher(text), |text|, 0);
    assert MatchStep(SkuMatcher(text), ResumeAt(ms, 0, k + 1), ms[k + 1]);
  }

  /** "sku" in any case, then a colon, then a code. */
  lemma ExampleLowerCaseKeyword()
    ensures SkuMatcher("sku:ab-1 ")(0) == Some(Span(0, 4, 8))
  {
    assert Lower("sku") == "sku";
    assert RunEnd("sku:ab-1 ", 3, IsSeparator) == 4;
    assert RunEnd("sku:ab-1 ", 4, IsCodeChar) == 8;
  }
}
