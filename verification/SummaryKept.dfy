/** What cleaning a summary keeps: the body of every kind of summary, and all of its text. */
module SummaryKept {
  import opened Wrappers
  import opened Text
  import opened CompactSummary

  // ----- which summaries lead with a number -----

  /** Header, list and quote marks, and blanks between them. */
  predicate Mark(c: char) {
    c == '#' || c == '*' || c == '-' || c == '>' || c == ' ' || c == '\t'
  }

  predicate NumberAt(s: string, k: nat) {
    k < |s| && '0' <= s[k] <= '9' && forall i :: 0 <= i < k ==> Mark(s[i])
  }

  lemma {:induction false} LeadMarks(s: string) returns (k: nat)
    ensures k <= |s| && TrimLeadMarks(s) == s[k..]
    ensures forall i :: 0 <= i < k ==> Mark(s[i])
    ensures k < |s| ==> !Mark(s[k])
    decreases |s|
  {
    k := 0;
    if s != [] && Mark(s[0]) {
      k := LeadMarks(s[1..]);
      k := k + 1;
      assert forall i :: 0 < i <= k && i < |s| ==> s[i] == s[1..][i - 1];
    }
  }

  /** A digit with nothing but marks before it. */
  lemma LeadsWithNumberIff(s: string)
    ensures LeadsWithNumber(s) <==> exists k: nat :: NumberAt(s, k)
  {
    var k := LeadMarks(s);
    if LeadsWithNumber(s) {
      assert NumberAt(s, k);
    }
    if j: nat :| NumberAt(s, j) {
      assert j == k;
    }
  }

  // ----- the bodies that no other rule speaks of -----

  /** A summary without a leading number, an orphan closing tag or a wrapper of its own keeps
      its whole body, and what stands around it. */
  lemma UnnumberedSummaryIsKept(tags: TagSet, pre: string, inner: string, post: string)
    requires Outermost(tags, pre, post)
    requires !Contains(Around(tags, pre, inner, post), tags.analysisOpen)
    requires !LeadsWithNumber(Trim(inner)) && !Contains(inner, tags.analysisClose)
    requires !(tags.summaryOpen <= Trim(inner))
    ensures Formatted(tags, Around(tags, pre, inner, post)) == Tidy(tags, pre + tags.heading + Trim(inner) + post)
  {
    NothingToPeel(tags, pre, inner, post);
  }

  /** A summary tag at the start of the body is taken off with the blanks behind it. */
  lemma WrappedSummaryIsKept(tags: TagSet, pre: string, inner: string, rest: string, post: string)
    requires Outermost(tags, pre, post)
    requires !Contains(Around(tags, pre, inner, post), tags.analysisOpen)
    requires Trim(inner) == tags.summaryOpen + rest && !Contains(inner, tags.analysisClose)
    ensures Formatted(tags, Around(tags, pre, inner, post)) == Tidy(tags, pre + tags.heading + TrimStart(rest) + post)
  {
    assert Trim(inner)[|tags.summaryOpen|..] == rest && Trim(inner)[0] == '<';
    NothingToPeel(tags, pre, inner, post);
  }

  lemma NothingToPeel(tags: TagSet, pre: string, inner: string, post: string)
    requires Outermost(tags, pre, post)
    requires !Contains(Around(tags, pre, inner, post), tags.analysisOpen)
    requires !LeadsWithNumber(Trim(inner)) && !Contains(inner, tags.analysisClose)
    ensures Formatted(tags, Around(tags, pre, inner, post))
         == Tidy(tags, pre + tags.heading + WithoutWrapper(tags, Trim(inner)) + post)
  {
    FindIsFirst(Around(tags, pre, inner, post), tags.analysisOpen);
    SummaryIsUnwrapped(tags, pre, inner, post);
    if Contains(Trim(inner), tags.analysisClose) {
      TrimContains(inner, tags.analysisClose);
    }
    RFindIsLast(Trim(inner), tags.analysisClose);
  }

  /** A text without a complete summary and without an opening analysis tag is tidied as it
      stands. */
  lemma PlainTextIsKept(tags: TagSet, s: string)
    requires !Contains(s, tags.analysisOpen)
    requires !Contains(s, tags.summaryOpen) || !Contains(s, tags.summaryClose)
    ensures Formatted(tags, s) == Tidy(tags, s)
  {
    FindIsFirst(s, tags.analysisOpen);
    FindIsFirst(s, tags.summaryOpen);
    RFindIsLast(s, tags.summaryClose);
  }

  // ----- analysis blocks that are not closed, or do not lead -----

  /** A leading block that is never closed goes up to the next summary tag, or to the end. */
  lemma UnclosedScratchpadIsDropped(tags: TagSet, blank: string, scratch: string, rest: string)
    requires Blank(blank) && !Contains(scratch, tags.summaryOpen)
    requires rest == [] || tags.summaryOpen <= rest
    requires !Contains(tags.analysisOpen + scratch + rest, tags.analysisClose)
    ensures StripAnalysis(tags, blank + tags.analysisOpen + scratch + rest) == blank + rest
  {
    var open := tags.analysisOpen;
    var s := blank + open + scratch + rest;
    AnalysisAfterBlankLeads(tags, blank, scratch + rest);
    Regroup(blank + open, scratch, rest);
    BehindBlank(blank, open, scratch, rest);
    FindIsFirst(open + scratch + rest, tags.analysisClose);
    NextSummary(tags, scratch, rest);
    StripDrops(tags, s, s, |blank|);
  }

  lemma BehindBlank(blank: string, open: string, scratch: string, rest: string)
    ensures var s := blank + open + scratch + rest;
      && s[..|blank|] == blank && s[|blank|..] == open + scratch + rest
      && s[|blank| + |open + scratch|..] == rest && s[|s|..] == []
  {
  }

  lemma NextSummary(tags: TagSet, scratch: string, rest: string)
    requires !Contains(scratch, tags.summaryOpen) && (rest == [] || tags.summaryOpen <= rest)
    ensures Find(tags.analysisOpen + scratch + rest, tags.summaryOpen)
         == if rest == [] then None else Some(|tags.analysisOpen + scratch|)
  {
    var body := tags.analysisOpen + scratch;
    NoSummaryInside(tags, scratch);
    if rest == [] {
      assert body + rest == body;
      FindIsFirst(body, tags.summaryOpen);
    } else {
      var behind := rest[|tags.summaryOpen|..];
      assert rest == tags.summaryOpen + behind && body + rest == body + tags.summaryOpen + behind;
      FindAfter(body, tags.summaryOpen, '<', behind);
    }
  }

  lemma NoSummaryInside(tags: TagSet, scratch: string)
    requires !Contains(scratch, tags.summaryOpen)
    ensures !Contains(tags.analysisOpen + scratch, tags.summaryOpen)
  {
    var open := tags.analysisOpen;
    var body := open + scratch;
    forall i: nat ensures !OccursAt(body, tags.summaryOpen, i) {
      TokenAt(body, tags.summaryOpen, i);
      if |open| <= i <= |body| {
        assert body[i..] == scratch[i - |open|..];
        assert !OccursAt(scratch, tags.summaryOpen, i - |open|);
      } else if 0 < i < |open| {
        assert body[i] == open[1..][i - 1];
      } else if i == 0 {
        assert body[1] == open[1];
      }
    }
  }

  /** Behind visible text a block is part of the text: without a summary before it, or in
      the summary. */
  lemma LaterBlockStays(tags: TagSet, pre: string, text: string, tail: string)
    requires !Contains(pre, tags.summaryOpen) && !Blank(text)
    requires var before := pre + tags.summaryOpen + text;
      !Contains(before, tags.analysisOpen)
    ensures var s := pre + tags.summaryOpen + text + tags.analysisOpen + tail; StripAnalysis(tags, s) == s
  {
    var before := pre + tags.summaryOpen + text;
    var s := before + tags.analysisOpen + tail;
    FindAfter(before, tags.analysisOpen, '<', tail);
    assert s == pre + tags.summaryOpen + (text + tags.analysisOpen + tail);
    FindAfter(pre, tags.summaryOpen, '<', text + tags.analysisOpen + tail);
    assert s[|pre| + |tags.summaryOpen|..|before|] == text;
  }

  lemma BlockBehindTextStays(tags: TagSet, text: string, tail: string)
    requires !Blank(text) && !Contains(text, tags.analysisOpen)
    requires !Contains(text + tags.analysisOpen + tail, tags.summaryOpen)
    ensures var s := text + tags.analysisOpen + tail; StripAnalysis(tags, s) == s
  {
    var s := text + tags.analysisOpen + tail;
    FindAfter(text, tags.analysisOpen, '<', tail);
    FindIsFirst(s, tags.summaryOpen);
    assert s[..|text|] == text;
  }

  // ----- defusing only inserts, and only behind the angle bracket of a tag -----

  /** Without every character `c`. */
  function Dropping(s: string, c: char): string {
    if |s| == 0 then [] else (if s[0] == c then [] else [s[0]]) + Dropping(s[1..], c)
  }

  lemma {:induction false} DroppingConcat(a: string, b: string, c: char)
    ensures Dropping(a + b, c) == Dropping(a, c) + Dropping(b, c)
    decreases |a|
  {
    if |a| == 0 {
      assert a + b == b;
    } else {
      assert (a + b)[1..] == a[1..] + b;
      DroppingConcat(a[1..], b, c);
    }
  }

  lemma {:induction false} DroppingNothing(s: string, c: char)
    requires c !in s
    ensures Dropping(s, c) == s
    decreases |s|
  {
    if |s| > 0 {
      assert s[0] in s && forall d :: d in s[1..] ==> d in s;
      DroppingNothing(s[1..], c);
    }
  }

  /** The same but for zero-width spaces. */
  ghost predicate Alike(a: string, b: string) {
    Dropping(a, ZERO_WIDTH_SPACE) == Dropping(b, ZERO_WIDTH_SPACE)
  }

  lemma AlikeConcat(a: string, b: string, x: string, y: string)
    requires Alike(a, b) && Alike(x, y)
    ensures Alike(a + x, b + y)
  {
    DroppingConcat(a, x, ZERO_WIDTH_SPACE);
    DroppingConcat(b, y, ZERO_WIDTH_SPACE);
  }

  lemma DefusedIsAlike(t: Token)
    ensures Alike(Defused(t), t)
  {
    DroppingConcat([t[0], ZERO_WIDTH_SPACE], t[1..], ZERO_WIDTH_SPACE);
    assert [t[0], ZERO_WIDTH_SPACE][1..] == [ZERO_WIDTH_SPACE] && [ZERO_WIDTH_SPACE][1..] == [];
    assert t[0] in t && forall d :: d in t[1..] ==> d in t;
    DroppingNothing(t[1..], ZERO_WIDTH_SPACE);
    DroppingNothing(t, ZERO_WIDTH_SPACE);
  }

  lemma {:induction false} DefusingKeeps(s: string, t: Token)
    ensures Alike(ReplaceAll(s, t, Defused(t)), s)
    decreases |s|
  {
    if t <= s {
      var rest := s[|t|..];
      DefusingKeeps(rest, t);
      DefusedIsAlike(t);
      AlikeConcat(Defused(t), t, ReplaceAll(rest, t, Defused(t)), rest);
      assert s == t + rest;
    } else if s != [] {
      var rest := s[1..];
      DefusingKeeps(rest, t);
      AlikeConcat([s[0]], [s[0]], ReplaceAll(rest, t, Defused(t)), rest);
      assert s == [s[0]] + rest;
    }
  }

  /** Neutralizing changes a text by zero-width spaces alone. */
  lemma {:induction false} NeutralizeKeeps(s: string, tokens: seq<Token>)
    ensures Dropping(Neutralize(s, tokens), ZERO_WIDTH_SPACE) == Dropping(s, ZERO_WIDTH_SPACE)
    decreases |tokens|
  {
    if |tokens| > 0 {
      DefusingKeeps(s, tokens[0]);
      NeutralizeKeeps(ReplaceAll(s, tokens[0], Defused(tokens[0])), tokens[1..]);
    }
  }

  /** A tag echoed in a text without others gets one, behind its angle bracket. */
  lemma {:induction false} EchoIsDefused(tokens: seq<Token>, t: Token, before: string, after: string)
    requires t in tokens && !Contains(before, t) && !Contains(after, t)
    requires forall u <- tokens :: u != t ==> !Contains(before + t + after, u)
    ensures Neutralize(before + t + after, tokens) == before + ("<" + [ZERO_WIDTH_SPACE] + t[1..]) + after
    decreases |tokens|
  {
    var s := before + t + after;
    if tokens[0] == t {
      ReplaceOnly(before, t, after);
      var r := before + Defused(t) + after;
      assert Defused(t) == "<" + [ZERO_WIDTH_SPACE] + t[1..];
      forall u | u in tokens ensures !Contains(r, u) {
        if Contains(r, u) {
          DefusingRemoves(s, t, u);
        }
      }
      NeutralizeNothing(r, tokens[1..]);
    } else {
      ReplaceNothing(s, tokens[0], Defused(tokens[0]));
      EchoIsDefused(tokens[1..], t, before, after);
    }
  }

  lemma ReplaceHere(t: Token, after: string)
    requires !Contains(after, t)
    ensures ReplaceAll(t + after, t, Defused(t)) == Defused(t) + after
  {
    assert (t + after)[|t|..] == after && t <= t + after;
    ReplaceNothing(after, t, Defused(t));
  }

  lemma ReplaceSkips(c: char, rest: string, t: Token)
    requires !(t <= [c] + rest)
    ensures ReplaceAll([c] + rest, t, Defused(t)) == [c] + ReplaceAll(rest, t, Defused(t))
  {
    assert ([c] + rest)[1..] == rest;
  }

  lemma {:induction false} ReplaceOnly(before: string, t: Token, after: string)
    requires !Contains(before, t) && !Contains(after, t)
    ensures ReplaceAll(before + t + after, t, Defused(t)) == before + Defused(t) + after
    decreases |before|
  {
    if before == [] {
      assert before + t + after == t + after && before + Defused(t) + after == Defused(t) + after;
      ReplaceHere(t, after);
    } else {
      var c, more := before[0], before[1..];
      assert before + t + after == [c] + (more + t + after);
      assert before + Defused(t) + after == [c] + (more + Defused(t) + after);
      NotBefore(before, t, after);
      if Contains(more, t) {
        ContainsBehind(before, t, 1);
      }
      ReplaceOnly(more, t, after);
      ReplaceSkips(c, more + t + after, t);
    }
  }

  /** No occurrence begins in a text before the first. */
  lemma NotBefore(before: string, t: Token, after: string)
    requires before != [] && !Contains(before, t)
    ensures !(t <= before + t + after)
  {
    var s := before + t + after;
    FindAfter(before, t, '<', after);
    FindIsFirst(s, t);
    assert s[0..] == s && !OccursAt(s, t, 0);
  }

  // ----- collapsing takes out every third newline of a run and those behind it -----

  /** What is left of `s` behind `n` newlines. */
  function Squeezed(s: string, n: nat): string
    decreases |s|
  {
    if |s| == 0 then []
    else if s[0] != '\n' then [s[0]] + Squeezed(s[1..], 0)
    else if n < 2 then ['\n'] + Squeezed(s[1..], n + 1)
    else Squeezed(s[1..], n)
  }

  lemma SqueezedOne(x: string, n: nat)
    requires n <= 2
    ensures Squeezed("\n" + x, n) == if n < 2 then "\n" + Squeezed(x, n + 1) else Squeezed(x, 2)
  {
    assert ("\n" + x)[1..] == x;
  }

  lemma SqueezedTwo(x: string, n: nat)
    requires n <= 2
    ensures Squeezed(TWO_NEWLINES + x, n)
         == (if n == 0 then TWO_NEWLINES else if n == 1 then "\n" else []) + Squeezed(x, 2)
  {
    assert TWO_NEWLINES + x == "\n" + ("\n" + x);
    SqueezedOne("\n" + x, n);
    SqueezedOne(x, if n < 2 then n + 1 else 2);
    assert n == 0 ==> "\n" + ("\n" + Squeezed(x, 2)) == TWO_NEWLINES + Squeezed(x, 2);
  }

  lemma SqueezedThree(x: string, n: nat)
    requires n <= 2
    ensures Squeezed(THREE_NEWLINES + x, n) == Squeezed(TWO_NEWLINES + x, n)
  {
    assert THREE_NEWLINES + x == TWO_NEWLINES + ("\n" + x);
    SqueezedTwo("\n" + x, n);
    SqueezedOne(x, 2);
    SqueezedTwo(x, n);
  }

  lemma {:induction false} ReplaceSqueezes(s: string, n: nat)
    requires n <= 2
    ensures Squeezed(ReplaceAll(s, THREE_NEWLINES, TWO_NEWLINES), n) == Squeezed(s, n)
    decreases |s|
  {
    if THREE_NEWLINES <= s {
      var tail := ReplaceAll(s[3..], THREE_NEWLINES, TWO_NEWLINES);
      ReplaceSqueezes(s[3..], 2);
      assert s == THREE_NEWLINES + s[3..];
      SqueezedThree(s[3..], n);
      SqueezedTwo(tail, n);
      SqueezedTwo(s[3..], n);
    } else if s != [] {
      var next := if s[0] != '\n' then 0 else if n < 2 then n + 1 else 2;
      ReplaceSqueezes(s[1..], next);
      var tail := ReplaceAll(s[1..], THREE_NEWLINES, TWO_NEWLINES);
      assert ([s[0]] + tail)[1..] == tail;
    }
  }

  /** `n` newlines before a text make no run of three. */
  ghost predicate FewNewlines(s: string, n: nat) {
    !Contains(s, THREE_NEWLINES) && (n >= 1 ==> !("\n\n" <= s)) && (n >= 2 ==> !("\n" <= s))
  }

  lemma {:induction false} SqueezedNothing(s: string, n: nat)
    requires n <= 2 && FewNewlines(s, n)
    ensures Squeezed(s, n) == s
    decreases |s|
  {
    if s != [] {
      if Contains(s[1..], THREE_NEWLINES) {
        ContainsBehind(s, THREE_NEWLINES, 1);
      }
      assert s[0..] == s && !OccursAt(s, THREE_NEWLINES, 0);
      var next := if s[0] == '\n' then n + 1 else 0;
      assert s == [s[0]] + s[1..];
      SqueezedNothing(s[1..], next);
    }
  }

  /** Of every run of newlines the first two are left, and nothing else is changed. */
  lemma {:induction false} CollapseSqueezes(s: string)
    ensures Collapse(s) == Squeezed(s, 0)
    decreases |s|
  {
    if Contains(s, THREE_NEWLINES) {
      ReplaceShrinks(s, THREE_NEWLINES, TWO_NEWLINES);
      ReplaceSqueezes(s, 0);
      CollapseSqueezes(ReplaceAll(s, THREE_NEWLINES, TWO_NEWLINES));
    } else {
      SqueezedNothing(s, 0);
    }
  }

  lemma TrimCuts(s: string) returns (before: string, after: string)
    ensures s == before + Trim(s) + after && Blank(before) && Blank(after)
  {
    var i, j := TrimSlice(s);
    before, after := s[..i], s[j..];
    assert s == s[..i] + s[i..j] + s[j..];
  }

  /** Tidying a text inserts zero-width spaces, takes out newlines behind the second of a
      run, and cuts blanks from both ends: everything else stays, in order. */
  lemma TidyKeeps(tags: TagSet, s: string) returns (defused: string, before: string, after: string)
    ensures Dropping(defused, ZERO_WIDTH_SPACE) == Dropping(s, ZERO_WIDTH_SPACE)
    ensures Squeezed(defused, 0) == before + Tidy(tags, s) + after && Blank(before) && Blank(after)
  {
    defused := Neutralize(s, tags.controls);
    NeutralizeKeeps(s, tags.controls);
    CollapseSqueezes(defused);
    before, after := TrimCuts(Squeezed(defused, 0));
  }
}
