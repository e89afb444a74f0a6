/** The string operations of Rust's `str` that the models rely on: `find` and `rfind`,
    `trim` and its one-sided forms, `replace` and `contains`.  A string is a sequence of
    Unicode scalar values; all patterns searched for are ASCII, so a character index and a
    byte index find the same matches. */
module Text {
  import opened Wrappers

  // ----- whitespace and trimming -----

  /** The Unicode White_Space property, as `char::is_whitespace` has it.  The
      zero-width space U+200B is not in it. */
  predicate IsWhitespace(c: char) {
    || '\U{0009}' <= c <= '\U{000D}'
    || c in {' ', '\U{0085}', '\U{00A0}', '\U{1680}', '\U{2028}', '\U{2029}', '\U{202F}', '\U{205F}', '\U{3000}'}
    || '\U{2000}' <= c <= '\U{200A}'
  }

  predicate Blank(s: string) {
    forall c <- s :: IsWhitespace(c)
  }

  /** The whole leading blank stretch goes, and nothing else. */
  function TrimStart(s: string): string {
    if s != [] && IsWhitespace(s[0]) then TrimStart(s[1..]) else s
  }

  lemma TrimStartDrops(s: string)
    ensures var r := TrimStart(s);
      && |r| <= |s| && r == s[|s| - |r|..] && Blank(s[..|s| - |r|])
      && (r != [] ==> !IsWhitespace(r[0]))
  {
    if s != [] && IsWhitespace(s[0]) {
      TrimStartDrops(s[1..]);
    }
  }

  /** The whole trailing blank stretch goes, and nothing else. */
  function TrimEnd(s: string): string {
    if s != [] && IsWhitespace(s[|s| - 1]) then TrimEnd(s[..|s| - 1]) else s
  }

  lemma {:induction false} TrimEndDrops(s: string)
    ensures var r := TrimEnd(s);
      && r <= s && Blank(s[|r|..])
      && (r != [] ==> !IsWhitespace(r[|r| - 1]))
  {
    if s != [] && IsWhitespace(s[|s| - 1]) {
      TrimEndDrops(s[..|s| - 1]);
    }
  }

  function Trim(s: string): string {
    TrimStart(TrimEnd(s))
  }

  /** A trimmed string neither starts nor ends with whitespace. */
  predicate Trimmed(s: string) {
    s != [] ==> !IsWhitespace(s[0]) && !IsWhitespace(s[|s| - 1])
  }

  /** Trimming keeps the middle slice between two blank ends. */
  lemma TrimSlice(s: string) returns (i: nat, j: nat)
    ensures i <= j <= |s| && Trim(s) == s[i..j] && Blank(s[..i]) && Blank(s[j..])
    ensures Trimmed(Trim(s))
  {
    TrimEndDrops(s);
    var e := TrimEnd(s);
    TrimStartDrops(e);
    i, j := |e| - |Trim(s)|, |e|;
    assert e == s[..j];
    assert s[..i] == e[..i] && e[i..] == s[i..j];
  }

  lemma TrimFixesTrimmed(s: string)
    ensures Trim(s) == s <==> Trimmed(s)
  {
    var i, j := TrimSlice(s);
  }

  lemma {:induction false} TrimStartDropsBlank(w: string, s: string)
    requires Blank(w)
    ensures TrimStart(w + s) == TrimStart(s)
  {
    if w == [] {
      assert w + s == s;
    } else {
      assert (w + s)[1..] == w[1..] + s;
      TrimStartDropsBlank(w[1..], s);
    }
  }

  lemma {:induction false} TrimEndDropsBlank(s: string, w: string)
    requires Blank(w)
    ensures TrimEnd(s + w) == TrimEnd(s)
  {
    if w == [] {
      assert s + w == s;
    } else {
      assert (s + w)[..|s + w| - 1] == s + w[..|w| - 1];
      TrimEndDropsBlank(s, w[..|w| - 1]);
    }
  }

  lemma {:induction false} TrimEndKeeps(p: string, s: string)
    requires !Blank(s)
    ensures TrimEnd(p + s) == p + TrimEnd(s)
  {
    if IsWhitespace(s[|s| - 1]) {
      var init := s[..|s| - 1];
      assert s == init + [s[|s| - 1]];
      TrimEndKeeps(p, init);
      assert (p + s)[..|p + s| - 1] == p + init;
    }
  }

  lemma {:induction false} TrimStartKeeps(p: string, s: string)
    requires !Blank(p)
    ensures TrimStart(p + s) == TrimStart(p) + s
  {
    if IsWhitespace(p[0]) {
      assert p == [p[0]] + p[1..];
      assert (p + s)[1..] == p[1..] + s;
      TrimStartKeeps(p[1..], s);
    }
  }

  lemma BlankTrimsToNothing(s: string)
    requires Blank(s)
    ensures TrimEnd(s) == []
  {
    TrimEndDropsBlank([], s);
    assert [] + s == s;
  }

  /** A character that is no whitespace ends what a trim behind it can reach. */
  lemma TrimEndBehind(p: string, s: string)
    requires p != [] && !IsWhitespace(p[|p| - 1])
    ensures TrimEnd(p + s) == p + TrimEnd(s)
  {
    if Blank(s) {
      TrimEndDropsBlank(p, s);
      BlankTrimsToNothing(s);
    } else {
      TrimEndKeeps(p, s);
    }
  }

  lemma TrimOfBlank(w: string)
    ensures Trim(w) == [] <==> Blank(w)
  {
    var i, j := TrimSlice(w);
    if Blank(w) {
      TrimEndDropsBlank([], w);
      assert [] + w == w;
    } else {
      assert w == w[..i] + w[i..j] + w[j..];
    }
  }

  /** Blank padding on either side of a trimmed string does not survive a trim. */
  lemma TrimDropsPadding(before: string, s: string, after: string)
    requires Blank(before) && Blank(after) && Trimmed(s)
    ensures Trim(before + s + after) == s
  {
    TrimEndDropsBlank(before + s, after);
    if s == [] {
      assert before + s == before;
      TrimOfBlank(before);
    } else {
      TrimStartDropsBlank(before, s);
    }
  }

  // ----- searching -----

  predicate OccursAt(s: string, pat: string, i: nat) {
    i <= |s| && pat <= s[i..]
  }

  ghost predicate Contains(s: string, pat: string) {
    exists i: nat :: OccursAt(s, pat, i)
  }

  /** `str::find`: the first occurrence. */
  function Find(s: string, pat: string): (r: Option<nat>)
    ensures r.Some? ==> r.value + |pat| <= |s|
  {
    FindFrom(s, pat, 0)
  }

  function FindFrom(s: string, pat: string, lo: nat): (r: Option<nat>)
    ensures r.Some? ==> r.value + |pat| <= |s|
    decreases |s| - lo
  {
    if |s| < lo then None
    else if OccursAt(s, pat, lo) then Some(lo)
    else FindFrom(s, pat, lo + 1)
  }

  /** `str::rfind`: the last occurrence. */
  function RFind(s: string, pat: string): (r: Option<nat>)
    ensures r.Some? ==> r.value + |pat| <= |s|
  {
    RFindFrom(s, pat, |s|)
  }

  function RFindFrom(s: string, pat: string, hi: nat): (r: Option<nat>)
    ensures r.Some? ==> r.value + |pat| <= |s|
  {
    if OccursAt(s, pat, hi) then Some(hi)
    else if hi == 0 then None
    else RFindFrom(s, pat, hi - 1)
  }

  ghost predicate FirstAt(s: string, pat: string, i: nat) {
    OccursAt(s, pat, i) && forall j: nat :: j < i ==> !OccursAt(s, pat, j)
  }

  ghost predicate LastAt(s: string, pat: string, i: nat) {
    OccursAt(s, pat, i) && forall j: nat :: i < j ==> !OccursAt(s, pat, j)
  }

  lemma {:induction false} FindFromIsFirst(s: string, pat: string, lo: nat)
    requires forall j: nat :: j < lo ==> !OccursAt(s, pat, j)
    ensures match FindFrom(s, pat, lo)
      case Some(i) => FirstAt(s, pat, i)
      case None => !Contains(s, pat)
    decreases |s| - lo
  {
    if lo <= |s| && !OccursAt(s, pat, lo) {
      FindFromIsFirst(s, pat, lo + 1);
    }
  }

  /** `find` answers with the first occurrence, and with nothing only when there is none. */
  lemma FindIsFirst(s: string, pat: string)
    ensures Find(s, pat).Some? ==> FirstAt(s, pat, Find(s, pat).value)
    ensures Find(s, pat).None? <==> !Contains(s, pat)
  {
    FindFromIsFirst(s, pat, 0);
  }

  lemma FindEquals(s: string, pat: string, i: nat)
    requires FirstAt(s, pat, i)
    ensures Find(s, pat) == Some(i)
  {
    FindIsFirst(s, pat);
    var j := Find(s, pat).value;
    assert !(i < j) && !(j < i);
  }

  lemma {:induction false} RFindFromIsLast(s: string, pat: string, hi: nat)
    requires forall j: nat :: hi < j ==> !OccursAt(s, pat, j)
    ensures match RFindFrom(s, pat, hi)
      case Some(i) => LastAt(s, pat, i)
      case None => !Contains(s, pat)
  {
    if hi > 0 && !OccursAt(s, pat, hi) {
      RFindFromIsLast(s, pat, hi - 1);
    }
  }

  /** `rfind` answers with the last occurrence, and with nothing only when there is none. */
  lemma RFindIsLast(s: string, pat: string)
    ensures RFind(s, pat).Some? ==> LastAt(s, pat, RFind(s, pat).value)
    ensures RFind(s, pat).None? <==> !Contains(s, pat)
  {
    RFindFromIsLast(s, pat, |s|);
  }

  // ----- patterns that cannot overlap themselves or each other -----

  /** `mark` opens `pat` and occurs nowhere else in it. */
  predicate Headed(pat: string, mark: char) {
    pat != [] && pat[0] == mark && mark !in pat[1..]
  }

  /** Two occurrences of patterns headed by the same mark start at the same place or
      do not overlap. */
  lemma HeadedApart(s: string, mark: char, p: string, i: nat, q: string, j: nat)
    requires Headed(p, mark) && Headed(q, mark) && OccursAt(s, p, i) && OccursAt(s, q, j) && i < j
    ensures i + |p| <= j
  {
    assert s[i..][..|p|] == p && s[j..][0] == mark;
    assert forall k :: i < k < i + |p| ==> s[k] == p[1..][k - i - 1];
  }

  /** In `a` followed by the headed pattern, with no occurrence inside `a`, the first
      occurrence is the one after `a`. */
  lemma FindAfter(a: string, pat: string, mark: char, rest: string)
    requires Headed(pat, mark) && !Contains(a, pat)
    ensures Find(a + pat + rest, pat) == Some(|a|)
  {
    var s := a + pat + rest;
    assert s[|a|..] == pat + rest;
    assert OccursAt(s, pat, |a|);
    forall j: nat | j < |a| ensures !OccursAt(s, pat, j) {
      if j + |pat| <= |a| {
        assert a[j..][..|pat|] == s[j..][..|pat|];
        assert !OccursAt(a, pat, j);
      } else if OccursAt(s, pat, j) {
        HeadedApart(s, mark, pat, j, pat, |a|);
      }
    }
    FindEquals(s, pat, |a|);
  }

  lemma FindAtStart(pat: string, rest: string)
    requires pat != []
    ensures Find(pat + rest, pat) == Some(0)
  {
    assert (pat + rest)[0..] == pat + rest;
    assert FirstAt(pat + rest, pat, 0);
    FindEquals(pat + rest, pat, 0);
  }

  /** The last occurrence of a headed pattern, when none is behind it. */
  lemma RFindBefore(a: string, pat: string, mark: char, b: string)
    requires Headed(pat, mark) && !Contains(b, pat)
    ensures RFind(a + pat + b, pat) == Some(|a|)
  {
    var s := a + pat + b;
    assert s[|a|..] == pat + b;
    assert OccursAt(s, pat, |a|);
    forall j: nat | |a| < j ensures !OccursAt(s, pat, j) {
      if OccursAt(s, pat, j) {
        HeadedApart(s, mark, pat, |a|, pat, j);
        assert s[j..] == b[j - |a| - |pat|..];
        assert OccursAt(b, pat, j - |a| - |pat|);
      }
    }
    RFindIsLast(s, pat);
  }

  lemma ContainsPart(s: string, pat: string, i: nat, j: nat)
    requires i <= j <= |s| && Contains(s[i..j], pat)
    ensures Contains(s, pat)
  {
    var k: nat :| OccursAt(s[i..j], pat, k);
    assert s[i..j][k..][..|pat|] == s[i + k..][..|pat|];
    assert OccursAt(s, pat, i + k);
  }

  /** A trimmed-down string has no pattern its original lacks. */
  lemma TrimContains(s: string, pat: string)
    requires Contains(Trim(s), pat)
    ensures Contains(s, pat)
  {
    var i, j := TrimSlice(s);
    ContainsPart(s, pat, i, j);
  }

  // ----- replacing -----

  /** `str::replace`: non-overlapping matches, left to right. */
  function ReplaceAll(s: string, pat: string, sub: string): string
    requires pat != []
    decreases |s|
  {
    if pat <= s then sub + ReplaceAll(s[|pat|..], pat, sub)
    else if s == [] then []
    else [s[0]] + ReplaceAll(s[1..], pat, sub)
  }

  lemma {:induction false} ReplaceNothing(s: string, pat: string, sub: string)
    requires pat != [] && !Contains(s, pat)
    ensures ReplaceAll(s, pat, sub) == s
  {
    assert !OccursAt(s, pat, 0) && s[0..] == s;
    if s != [] {
      if Contains(s[1..], pat) {
        assert s[1..] == s[1..|s|];
        ContainsPart(s, pat, 1, |s|);
      }
      ReplaceNothing(s[1..], pat, sub);
    }
  }

  lemma {:induction false} ReplaceShrinks(s: string, pat: string, sub: string)
    requires |sub| < |pat|
    ensures |ReplaceAll(s, pat, sub)| <= |s|
    ensures Contains(s, pat) ==> |ReplaceAll(s, pat, sub)| < |s|
    decreases |s|
  {
    if pat <= s {
      ReplaceShrinks(s[|pat|..], pat, sub);
    } else if s != [] {
      ReplaceShrinks(s[1..], pat, sub);
      if Contains(s, pat) {
        var i: nat :| OccursAt(s, pat, i);
        assert s[0..] == s;
        assert s[i..] == s[1..][i - 1..];
        assert OccursAt(s[1..], pat, i - 1);
      }
    }
  }

  /** A replacement that keeps the first character of the pattern creates no prefix
      free of that character. */
  lemma {:induction false} ReplaceKeepsPrefixes(s: string, pat: string, sub: string, u: string)
    requires pat != [] && sub != [] && pat[0] == sub[0] && pat[0] !in u
    requires u <= ReplaceAll(s, pat, sub)
    ensures u <= s
    decreases |s|
  {
    if u != [] {
      var r := ReplaceAll(s, pat, sub);
      assert u[0] == r[0];
      assert u[1..] <= r[1..];
      assert r[1..] == ReplaceAll(s[1..], pat, sub);
      ReplaceKeepsPrefixes(s[1..], pat, sub, u[1..]);
      assert s == [s[0]] + s[1..] && u == [u[0]] + u[1..];
    }
  }

  /** A replacement that keeps the first character of the pattern creates no occurrence
      of a string that has neither that character nor starts inside the replacement. */
  lemma {:induction false} ReplaceAddsNo(s: string, pat: string, sub: string, t: string)
    requires pat != [] && sub != [] && pat[0] == sub[0] && pat[0] !in t
    requires t != [] && t[0] !in sub
    requires Contains(ReplaceAll(s, pat, sub), t)
    ensures Contains(s, t)
    decreases |s|
  {
    var r := ReplaceAll(s, pat, sub);
    var i: nat :| OccursAt(r, t, i);
    assert r[i] == t[0];
    if pat <= s {
      var tail := ReplaceAll(s[|pat|..], pat, sub);
      assert r == sub + tail && i >= |sub|;
      assert r[i..] == tail[i - |sub|..];
      assert OccursAt(tail, t, i - |sub|);
      ReplaceAddsNo(s[|pat|..], pat, sub, t);
      assert s[|pat|..] == s[|pat|..|s|];
      ContainsPart(s, t, |pat|, |s|);
    } else if i == 0 {
      assert r[0..] == r && s[0..] == s;
      ReplaceKeepsPrefixes(s, pat, sub, t);
      assert OccursAt(s, t, 0);
    } else {
      var tail := ReplaceAll(s[1..], pat, sub);
      assert r == [s[0]] + tail;
      assert r[i..] == tail[i - 1..];
      assert OccursAt(tail, t, i - 1);
      ReplaceAddsNo(s[1..], pat, sub, t);
      assert s[1..] == s[1..|s|];
      ContainsPart(s, t, 1, |s|);
    }
  }
}
