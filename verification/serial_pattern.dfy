/**
  The regular expression both host scripts use to pick a reading out of a
  serial line,

      Keyword\(?([^)]*)\)?:\s*([-+]?\d+\.?\d*)

  applied with `re.search`. `IsMatch` states declaratively which spans of a
  line the pattern can match; `Search` is a deterministic scan that finds the
  match Python's backtracking matcher reports: the leftmost start, and at
  that start the longest label (the greedy `[^)]*`) and the longest number.
  Only keywords without regular-expression metacharacters are modelled, and
  `\s` and `\d` are taken as their ASCII classes.
 */
module SerialPattern {
  import opened Options
  import opened DecimalText

  /** `\s` over ASCII: space, tab, newline, carriage return, vertical tab, form feed. */
  predicate IsSpace(c: char)
  {
    c == ' ' || c == '\t' || c == '\n' || c == '\r' || c as int == 11 || c as int == 12
  }

  /** A keyword that a regular expression matches literally. */
  predicate PlainKeyword(kw: string)
  {
    forall i :: 0 <= i < |kw| ==> kw[i] !in "\\.^$*+?{}[]|()"
  }

  type Keyword = kw: string | PlainKeyword(kw) witness ""

  predicate KeywordAt(s: string, kw: string, i: nat)
  {
    i + |kw| <= |s| && s[i..i + |kw|] == kw
  }

  /** Python's `kw in s`, scanning from position `i`. */
  predicate OccursFrom(s: string, kw: string, i: nat)
    decreases |s| + 1 - i
  {
    i + |kw| <= |s| && (s[i..i + |kw|] == kw || OccursFrom(s, kw, i + 1))
  }

  /** `\d+\.?\d*` matches exactly `s[d..y]`: a digit, then digits with at most one point. */
  predicate UnsignedDecimalSpan(s: string, d: nat, y: nat)
    requires d <= y <= |s|
  {
    && d < y
    && IsDigit(s[d])
    && (forall k :: d <= k < y ==> IsDigit(s[k]) || s[k] == '.')
    && (forall j, k :: d <= j < k < y ==> !(s[j] == '.' && s[k] == '.'))
  }

  /** `[-+]?\d+\.?\d*` matches exactly `s[x..y]`. */
  predicate NumberSpan(s: string, x: nat, y: nat)
    requires x <= y <= |s|
  {
    x < y && if IsSign(s[x]) then x + 1 <= y && UnsignedDecimalSpan(s, x + 1, y) else UnsignedDecimalSpan(s, x, y)
  }

  /**
    A way the whole pattern matches: the keyword at `start`, the label (group 1)
    at `[labelStart, labelEnd)`, the colon at `colon`, and the number (group 2)
    at `[numStart, numEnd)`.
   */
  datatype Match = Match(start: nat, labelStart: nat, labelEnd: nat, colon: nat, numStart: nat, numEnd: nat)

  predicate IsMatch(s: string, kw: string, m: Match)
  {
    && KeywordAt(s, kw, m.start)
    && (var p := m.start + |kw|;
        m.labelStart == p || (m.labelStart == p + 1 && p < |s| && s[p] == '('))
    && m.labelStart <= m.labelEnd <= m.colon <= m.labelEnd + 1
    && m.colon < m.numStart <= m.numEnd <= |s|
    && s[m.colon] == ':'
    && (m.colon == m.labelEnd + 1 ==> s[m.labelEnd] == ')')
    && (forall k :: m.labelStart <= k < m.labelEnd ==> s[k] != ')')
    && (forall k :: m.colon < k < m.numStart ==> IsSpace(s[k]))
    && NumberSpan(s, m.numStart, m.numEnd)
  }

  /** `\s*`, greedy. */
  function SkipSpaces(s: string, i: nat): (j: nat)
    requires i <= |s|
    ensures i <= j <= |s|
    ensures forall k :: i <= k < j ==> IsSpace(s[k])
    ensures j == |s| || !IsSpace(s[j])
    decreases |s| - i
  {
    if i < |s| && IsSpace(s[i]) then SkipSpaces(s, i + 1) else i
  }

  /** `[^)]*`, greedy: the first closing parenthesis at or after `i`, or the end. */
  function RunEnd(s: string, i: nat): (j: nat)
    requires i <= |s|
    ensures i <= j <= |s|
    ensures forall k :: i <= k < j ==> s[k] != ')'
    ensures j == |s| || s[j] == ')'
    decreases |s| - i
  {
    if i < |s| && s[i] != ')' then RunEnd(s, i + 1) else i
  }

  /** `[-+]?\d+\.?\d*` at `x`, greedy: the end of the longest match, if any. */
  function NumberEnd(s: string, x: nat): (r: Option<nat>)
    requires x <= |s|
    ensures r.Some? ==> x < r.value <= |s| && NumberSpan(s, x, r.value)
  {
    var d := if x + 1 < |s| && IsSign(s[x]) && IsDigit(s[x + 1]) then x + 1 else x;
    if d < |s| && IsDigit(s[d]) then
      var e := DigitsEnd(s, d);
      if e < |s| && s[e] == '.' then Some(DigitsEnd(s, e + 1)) else Some(e)
    else
      None
  }

  /** `\s*([-+]?\d+\.?\d*)` at `x`: the span of the number, if any. */
  function SpacedNumber(s: string, x: nat): (r: Option<(nat, nat)>)
    requires x <= |s|
    ensures r.Some? ==> x <= r.value.0 < r.value.1 <= |s| && NumberSpan(s, r.value.0, r.value.1)
    ensures r.Some? ==> forall k :: x <= k < r.value.0 ==> IsSpace(s[k])
  {
    var n := SkipSpaces(s, x);
    match NumberEnd(s, n)
    case None => None
    case Some(y) => Some((n, y))
  }

  /**
    Backtracking of the label group: try each shorter label, longest first,
    for one that is followed by a colon and a number.
   */
  function ColonScan(s: string, kw: string, i: nat, q: nat, e: nat): (r: Option<Match>)
    requires KeywordAt(s, kw, i)
    requires q == i + |kw| || (q == i + |kw| + 1 && i + |kw| < |s| && s[i + |kw|] == '(')
    requires q <= e <= |s|
    requires forall k :: q <= k < e ==> s[k] != ')'
    ensures r.Some? ==> IsMatch(s, kw, r.value) && r.value.start == i && r.value.labelStart == q
    ensures r.Some? ==> r.value.labelEnd < e
    decreases e - q
  {
    if e == q then None
    else if s[e - 1] == ':' && SpacedNumber(s, e).Some? then
      var span := SpacedNumber(s, e).value;
      Some(Match(i, q, e - 1, e - 1, span.0, span.1))
    else
      ColonScan(s, kw, i, q, e - 1)
  }

  /** `\)?:\s*([-+]?\d+\.?\d*)` matches right at `close`, with the parenthesis consumed. */
  predicate ClosedBeforeColon(s: string, close: nat)
  {
    close + 1 < |s| && s[close + 1] == ':' && SpacedNumber(s, close + 2).Some?
  }

  /** The match Python reports at `i`, where the keyword occurs, if any. */
  function MatchAt(s: string, kw: string, i: nat): (r: Option<Match>)
    requires KeywordAt(s, kw, i)
    ensures r.Some? ==> IsMatch(s, kw, r.value) && r.value.start == i
  {
    var p := i + |kw|;
    var q := if p < |s| && s[p] == '(' then p + 1 else p;
    var close := RunEnd(s, q);
    if ClosedBeforeColon(s, close) then
      var span := SpacedNumber(s, close + 2).value;
      ClosedIsMatch(s, kw, i, q, close, span.0, span.1);
      Some(Match(i, q, close, close + 1, span.0, span.1))
    else
      ColonScan(s, kw, i, q, close)
  }

  /** A label closed by `)`, then `:`, optional spaces and a number, is a match. */
  lemma ClosedIsMatch(s: string, kw: string, i: nat, q: nat, close: nat, x: nat, y: nat)
    requires KeywordAt(s, kw, i)
    requires q == i + |kw| || (q == i + |kw| + 1 && i + |kw| < |s| && s[i + |kw|] == '(')
    requires q <= close && close + 1 < |s| && s[close] == ')' && s[close + 1] == ':'
    requires forall k :: q <= k < close ==> s[k] != ')'
    requires close + 2 <= x < y <= |s| && NumberSpan(s, x, y)
    requires forall k :: close + 2 <= k < x ==> IsSpace(s[k])
    ensures IsMatch(s, kw, Match(i, q, close, close + 1, x, y))
  {
  }

  /** `re.search` from position `i` on. */
  function SearchFrom(s: string, kw: string, i: nat): (r: Option<Match>)
    decreases |s| + 1 - i
    ensures r.Some? ==> IsMatch(s, kw, r.value) && i <= r.value.start
    ensures r.Some? ==> OccursFrom(s, kw, i)
  {
    if i + |kw| > |s| then None
    else if s[i..i + |kw|] == kw && MatchAt(s, kw, i).Some? then MatchAt(s, kw, i)
    else SearchFrom(s, kw, i + 1)
  }

  function Search(s: string, kw: string): (r: Option<Match>)
    ensures r.Some? ==> IsMatch(s, kw, r.value)
    ensures r.Some? ==> OccursFrom(s, kw, 0)
  {
    SearchFrom(s, kw, 0)
  }

  /** The number group is greedy: it ends no earlier than any span the pattern could match there. */
  lemma NumberEndGreedy(s: string, x: nat, y: nat)
    requires x <= y <= |s| && NumberSpan(s, x, y)
    ensures NumberEnd(s, x).Some? && NumberEnd(s, x).value >= y
  {
    var d := if IsSign(s[x]) then x + 1 else x;
    assert UnsignedDecimalSpan(s, d, y);
    var e := DigitsEnd(s, d);
    if e < y {
      assert s[e] == '.';
    }
  }

  /** `\s*(number)` finds the number after any run of spaces that precedes a matchable number. */
  lemma SpacedNumberComplete(s: string, c: nat, x: nat, y: nat)
    requires c <= x <= y <= |s|
    requires forall k :: c <= k < x ==> IsSpace(s[k])
    requires NumberSpan(s, x, y)
    ensures SpacedNumber(s, c).Some?
    ensures SpacedNumber(s, c).value.0 == x && SpacedNumber(s, c).value.1 >= y
  {
    assert !IsSpace(s[x]);
    assert SkipSpaces(s, c) == x;
    NumberEndGreedy(s, x, y);
  }

  /** The colon scan finds a label at least as long as any label that leads to a match. */
  lemma {:induction false} ColonScanComplete(s: string, kw: string, i: nat, q: nat, e: nat, m: Match)
    requires KeywordAt(s, kw, i)
    requires q == i + |kw| || (q == i + |kw| + 1 && i + |kw| < |s| && s[i + |kw|] == '(')
    requires q <= e <= |s|
    requires forall k :: q <= k < e ==> s[k] != ')'
    requires IsMatch(s, kw, m) && m.start == i
    requires q <= m.labelEnd < e && m.colon == m.labelEnd
    ensures var r := ColonScan(s, kw, i, q, e);
      && r.Some?
      && r.value.labelEnd >= m.labelEnd
      && (r.value.labelEnd == m.labelEnd ==> r.value.numStart == m.numStart && r.value.numEnd >= m.numEnd)
    decreases e - q
  {
    if e - 1 == m.labelEnd {
      SpacedNumberComplete(s, e, m.numStart, m.numEnd);
    }
    if s[e - 1] == ':' && SpacedNumber(s, e).Some? {
      var span := SpacedNumber(s, e).value;
      ColonScanStops(s, kw, i, q, e, span.0, span.1);
    } else {
      ColonScanSkips(s, kw, i, q, e);
      ColonScanComplete(s, kw, i, q, e - 1, m);
    }
  }

  /** The colon scan stops at the first colon from the right that a number follows. */
  lemma ColonScanStops(s: string, kw: string, i: nat, q: nat, e: nat, x: nat, y: nat)
    requires KeywordAt(s, kw, i)
    requires q == i + |kw| || (q == i + |kw| + 1 && i + |kw| < |s| && s[i + |kw|] == '(')
    requires q < e <= |s|
    requires forall k :: q <= k < e ==> s[k] != ')'
    requires s[e - 1] == ':' && SpacedNumber(s, e) == Some((x, y))
    ensures ColonScan(s, kw, i, q, e) == Some(Match(i, q, e - 1, e - 1, x, y))
  {
  }

  /** Otherwise it moves one position to the left. */
  lemma ColonScanSkips(s: string, kw: string, i: nat, q: nat, e: nat)
    requires KeywordAt(s, kw, i)
    requires q == i + |kw| || (q == i + |kw| + 1 && i + |kw| < |s| && s[i + |kw|] == '(')
    requires q < e <= |s|
    requires forall k :: q <= k < e ==> s[k] != ')'
    requires !(s[e - 1] == ':' && SpacedNumber(s, e).Some?)
    ensures ColonScan(s, kw, i, q, e) == ColonScan(s, kw, i, q, e - 1)
  {
  }

  /** The label of any match lies inside the run of non-parentheses that `MatchAt` scans. */
  lemma LabelWithinRun(s: string, kw: string, m: Match)
    requires IsMatch(s, kw, m)
    ensures var p := m.start + |kw|;
      var q := if p < |s| && s[p] == '(' then p + 1 else p;
      m.labelStart <= q <= m.labelEnd <= RunEnd(s, q)
  {
    var p := m.start + |kw|;
    var q := if p < |s| && s[p] == '(' then p + 1 else p;
    if m.labelStart == p && p < |s| && s[p] == '(' {
      assert m.labelEnd != p by {
        assert s[p] != ':' && s[p] != ')';
      }
    }
    RunEndBound(s, q, m.labelEnd);
  }

  /** A stretch without a closing parenthesis ends no later than the run that `RunEnd` finds. */
  lemma RunEndBound(s: string, q: nat, j: nat)
    requires q <= j <= |s|
    requires forall k :: q <= k < j ==> s[k] != ')'
    ensures j <= RunEnd(s, q)
  {
  }

  /** Where the keyword is followed by `label)` and a colon and a number, `MatchAt` takes that label. */
  lemma MatchAtClosing(s: string, kw: string, i: nat, q: nat, close: nat, x: nat, y: nat)
    requires KeywordAt(s, kw, i)
    requires q == (if i + |kw| < |s| && s[i + |kw|] == '(' then i + |kw| + 1 else i + |kw|)
    requires close == RunEnd(s, q)
    requires close + 1 < |s| && s[close + 1] == ':' && SpacedNumber(s, close + 2) == Some((x, y))
    ensures MatchAt(s, kw, i) == Some(Match(i, q, close, close + 1, x, y))
  {
    assert ClosedBeforeColon(s, close);
    assert SpacedNumber(s, close + 2).value == (x, y);
  }

  /** Otherwise `MatchAt` falls back on the colon scan. */
  lemma MatchAtScan(s: string, kw: string, i: nat, q: nat, close: nat)
    requires KeywordAt(s, kw, i)
    requires q == (if i + |kw| < |s| && s[i + |kw|] == '(' then i + |kw| + 1 else i + |kw|)
    requires close == RunEnd(s, q)
    requires !ClosedBeforeColon(s, close)
    ensures MatchAt(s, kw, i) == ColonScan(s, kw, i, q, close)
  {
  }

  /** A label that runs up to a closing parenthesis is followed by it and then by the colon. */
  lemma ClosedLabel(s: string, kw: string, m: Match, q: nat)
    requires IsMatch(s, kw, m)
    requires q <= |s| && m.labelEnd == RunEnd(s, q)
    ensures m.colon == m.labelEnd + 1
  {
  }

  /** A label that stops before the closing parenthesis is followed directly by the colon. */
  lemma OpenLabel(s: string, kw: string, m: Match, q: nat)
    requires IsMatch(s, kw, m)
    requires q <= m.labelEnd < RunEnd(s, q)
    ensures m.colon == m.labelEnd
  {
  }

  /**
    At a start where the pattern can match, `MatchAt` finds a match, and its
    label is at least as long as that of any match there: the greedy choice.
   */
  lemma MatchAtComplete(s: string, kw: string, m: Match)
    requires IsMatch(s, kw, m)
    ensures var r := MatchAt(s, kw, m.start);
      && r.Some?
      && r.value.labelStart >= m.labelStart
      && r.value.labelEnd >= m.labelEnd
      && (r.value.labelEnd == m.labelEnd ==> r.value.numStart == m.numStart && r.value.numEnd >= m.numEnd)
  {
    var i := m.start;
    var p := i + |kw|;
    var q := if p < |s| && s[p] == '(' then p + 1 else p;
    var close := RunEnd(s, q);
    LabelWithinRun(s, kw, m);
    if m.labelEnd == close {
      MatchAtCompleteClosed(s, kw, m, q, close);
    } else if ClosedBeforeColon(s, close) {
      MatchAtCompleteBeaten(s, kw, m, q, close);
    } else {
      MatchAtCompleteOpen(s, kw, m, q, close);
    }
  }

  /** A match whose label runs up to the closing parenthesis is the one `MatchAt` takes. */
  lemma MatchAtCompleteClosed(s: string, kw: string, m: Match, q: nat, close: nat)
    requires IsMatch(s, kw, m)
    requires q == (if m.start + |kw| < |s| && s[m.start + |kw|] == '(' then m.start + |kw| + 1 else m.start + |kw|)
    requires close == RunEnd(s, q) && m.labelStart <= q && m.labelEnd == close
    ensures var r := MatchAt(s, kw, m.start);
      r.Some? && r.value.labelStart >= m.labelStart && r.value.labelEnd == m.labelEnd
      && r.value.numStart == m.numStart && r.value.numEnd >= m.numEnd
  {
    ClosedLabel(s, kw, m, q);
    SpacedNumberComplete(s, close + 2, m.numStart, m.numEnd);
    var span := SpacedNumber(s, close + 2).value;
    assert span.0 == m.numStart && span.1 >= m.numEnd;
    MatchAtClosing(s, kw, m.start, q, close, span.0, span.1);
    assert MatchAt(s, kw, m.start) == Some(Match(m.start, q, close, close + 1, span.0, span.1));
  }

  /** A match whose label stops short of a parenthesis that a colon and a number follow loses to the longer label. */
  lemma MatchAtCompleteBeaten(s: string, kw: string, m: Match, q: nat, close: nat)
    requires IsMatch(s, kw, m)
    requires q == (if m.start + |kw| < |s| && s[m.start + |kw|] == '(' then m.start + |kw| + 1 else m.start + |kw|)
    requires close == RunEnd(s, q) && m.labelStart <= q && m.labelEnd < close
    requires ClosedBeforeColon(s, close)
    ensures var r := MatchAt(s, kw, m.start);
      r.Some? && r.value.labelStart >= m.labelStart && r.value.labelEnd > m.labelEnd
  {
    var span := SpacedNumber(s, close + 2).value;
    MatchAtClosing(s, kw, m.start, q, close, span.0, span.1);
  }

  /** A match whose label stops short of the parenthesis is found by the colon scan, or beaten by a longer label. */
  lemma MatchAtCompleteOpen(s: string, kw: string, m: Match, q: nat, close: nat)
    requires IsMatch(s, kw, m)
    requires q == (if m.start + |kw| < |s| && s[m.start + |kw|] == '(' then m.start + |kw| + 1 else m.start + |kw|)
    requires close == RunEnd(s, q) && m.labelStart <= q <= m.labelEnd < close
    requires !ClosedBeforeColon(s, close)
    ensures var r := MatchAt(s, kw, m.start);
      && r.Some?
      && r.value.labelStart >= m.labelStart
      && r.value.labelEnd >= m.labelEnd
      && (r.value.labelEnd == m.labelEnd ==> r.value.numStart == m.numStart && r.value.numEnd >= m.numEnd)
  {
    OpenLabel(s, kw, m, q);
    MatchAtScan(s, kw, m.start, q, close);
    ColonScanComplete(s, kw, m.start, q, close, m);
  }

  /** The scan from `i` reaches every start at or after `i` where the pattern matches. */
  lemma {:induction false} SearchFromComplete(s: string, kw: string, i: nat, m: Match)
    requires IsMatch(s, kw, m) && i <= m.start
    ensures var r := SearchFrom(s, kw, i);
      && r.Some?
      && r.value.start <= m.start
      && (r.value.start == m.start ==> r == MatchAt(s, kw, m.start))
    decreases m.start - i
  {
    if i < m.start {
      if !(s[i..i + |kw|] == kw && MatchAt(s, kw, i).Some?) {
        SearchFromComplete(s, kw, i + 1, m);
      }
    } else {
      MatchAtComplete(s, kw, m);
    }
  }

  /**
    `Search` is exactly `re.search` for this pattern: it finds a match whenever
    one exists, at the leftmost start, and there it takes the longest label
    (preferring to consume the opening parenthesis) and the longest number.
   */
  lemma SearchLeftmostGreedy(s: string, kw: string, m: Match)
    requires IsMatch(s, kw, m)
    ensures var r := Search(s, kw);
      && r.Some?
      && r.value.start <= m.start
      && (r.value.start == m.start ==>
            && r.value.labelStart >= m.labelStart
            && r.value.labelEnd >= m.labelEnd
            && (r.value.labelEnd == m.labelEnd ==> r.value.numStart == m.numStart && r.value.numEnd >= m.numEnd))
  {
    SearchFromComplete(s, kw, 0, m);
    var r := Search(s, kw);
    if r.value.start == m.start {
      MatchAtComplete(s, kw, m);
    }
  }
}
