/** What stripping tags and extracting a query leave: everything but the blocks. */
module QueryKept {
  import opened Wrappers
  import opened Text
  import opened QueryTags

  // ----- one block -----

  lemma SlashInFront(name: TagName)
    ensures ['/'] + name != name + ['>']
  {
    assert multiset(['/'] + name)['/'] == multiset(name)['/'] + 1;
    assert multiset(name + ['>'])['/'] == multiset(name)['/'];
  }

  lemma PrefixSlice(t: string, s: string, n: nat)
    requires 1 <= n <= |t| && n <= |s|
    ensures t <= s ==> t[1..n] == s[1..n]
  {
  }

  lemma OpeningIsNoClosing(name: TagName, inner: string)
    ensures !(Closing(name) <= Opening(name) + inner)
  {
    var s, n := Opening(name) + inner, |name| + 2;
    SlashInFront(name);
    assert s[1..n] == name + ['>'] && Closing(name)[1..n] == ['/'] + name;
    PrefixSlice(Closing(name), s, n);
  }

  /** Behind its first character an opening tag begins no other. */
  lemma NoTagInside(name: TagName, inner: string, close: string, i: nat)
    requires 0 < i < |Opening(name)| && close != [] && close[0] == '<'
    ensures !OccursAt(Opening(name) + inner, close, i)
  {
    QueryTagIsHeaded(name);
    assert (Opening(name) + inner)[i..][0] == Opening(name)[1..][i - 1];
  }

  lemma TagsBehind(open: string, inner: string, close: string, i: nat)
    requires |open| <= i
    ensures OccursAt(open + inner, close, i) ==> OccursAt(inner, close, i - |open|)
  {
    if i <= |open + inner| {
      assert (open + inner)[i..] == inner[i - |open|..];
    }
  }

  lemma NoCloseInside(name: TagName, inner: string)
    requires !Contains(inner, Closing(name))
    ensures !Contains(Opening(name) + inner, Closing(name))
  {
    var open, close := Opening(name), Closing(name);
    assert (open + inner)[0..] == open + inner;
    OpeningIsNoClosing(name, inner);
    forall i: nat ensures !OccursAt(open + inner, close, i) {
      if 0 < i < |open| {
        NoTagInside(name, inner, close, i);
      } else if i > 0 {
        TagsBehind(open, inner, close, i);
      }
    }
  }

  /** A text with a complete block at its first opening tag. */
  ghost function Around(name: TagName, before: string, inner: string, behind: string): string {
    before + Opening(name) + inner + Closing(name) + behind
  }

  ghost predicate FirstBlockIs(name: TagName, before: string, inner: string) {
    !Contains(before, Opening(name)) && !Contains(inner, Closing(name))
  }

  lemma TagsAreFound(name: TagName, before: string, inner: string, behind: string)
    requires FirstBlockIs(name, before, inner)
    ensures var s, open := Around(name, before, inner, behind), Opening(name);
      && Find(s, open) == Some(|before|)
      && s[..|before|] == before && s[|before|..] == open + inner + Closing(name) + behind
      && Find(s[|before|..], Closing(name)) == Some(|open + inner|)
      && Find(s[|before| + |open|..], Closing(name)) == Some(|inner|)
  {
    var s, open, close := Around(name, before, inner, behind), Opening(name), Closing(name);
    QueryTagIsHeaded(name);
    assert s == before + open + (inner + close + behind);
    FindAfter(before, open, '<', inner + close + behind);
    NoCloseInside(name, inner);
    FindAfter(open + inner, close, '<', behind);
    FindAfter(inner, close, '<', behind);
    assert s[|before|..] == open + inner + close + behind;
    assert s[|before| + |open|..] == inner + close + behind;
  }

  /** The block goes, from its opening tag to its closing one, and what is before and behind
      it is joined and searched again. */
  lemma BlockIsRemoved(name: TagName, before: string, inner: string, behind: string)
    requires FirstBlockIs(name, before, inner)
    ensures StripBlocks(Around(name, before, inner, behind), Opening(name), Closing(name))
         == StripBlocks(before + behind, Opening(name), Closing(name))
  {
    var s, open := Around(name, before, inner, behind), Opening(name);
    TagsAreFound(name, before, inner, behind);
    assert s[|before| + |open + inner| + |Closing(name)|..] == behind;
  }

  lemma SplitAt(s: string, pat: string, i: nat)
    requires OccursAt(s, pat, i)
    ensures i + |pat| <= |s| && s == s[..i] + pat + s[i + |pat|..]
  {
    assert s[i..] == pat + s[i..][|pat|..];
  }

  /** Every text with a complete block has such a first one. */
  lemma FirstBlockSplits(name: TagName, s: string) returns (before: string, inner: string, behind: string)
    requires HasBlock(s, Opening(name), Closing(name))
    ensures s == Around(name, before, inner, behind) && FirstBlockIs(name, before, inner)
  {
    var open, close := Opening(name), Closing(name);
    FirstBlock(s, open, close);
    FindIsFirst(s, open);
    var start := Find(s, open).value;
    SplitAt(s, open, start);
    before := s[..start];
    var tail := s[start + |open|..];
    NotInFront(s, open, start);
    CloseBehindOpening(name, s, start, tail);
    var end := Find(tail, close).value;
    FindIsFirst(tail, close);
    SplitAt(tail, close, end);
    NotInFront(tail, close, end);
    inner, behind := tail[..end], tail[end + |close|..];
    Joined(before + open, inner, close, behind);
  }

  lemma Joined(a: string, b: string, c: string, d: string)
    ensures a + (b + c + d) == a + b + c + d
  {
  }

  lemma CloseBehindOpening(name: TagName, s: string, start: nat, tail: string)
    requires start <= |s| && s[start..] == Opening(name) + tail && Find(s[start..], Closing(name)).Some?
    ensures Find(tail, Closing(name)).Some?
  {
    var open, close := Opening(name), Closing(name);
    if !Contains(tail, close) {
      NoCloseInside(name, tail);
    }
    FindIsFirst(s[start..], close);
    FindIsFirst(tail, close);
  }

  lemma OccursOutside(s: string, pat: string, lo: nat, hi: nat, i: nat)
    requires lo <= hi <= |s| && OccursAt(s[lo..hi], pat, i)
    ensures OccursAt(s, pat, lo + i)
  {
    assert s[lo + i..][..|pat|] == s[lo..hi][i..][..|pat|];
  }

  lemma NotInFront(s: string, pat: string, i: nat)
    requires FirstAt(s, pat, i) && pat != []
    ensures !Contains(s[..i], pat)
  {
    assert s[0..i] == s[..i];
    forall j: nat ensures !OccursAt(s[..i], pat, j) {
      if OccursAt(s[..i], pat, j) {
        OccursOutside(s, pat, 0, i, j);
      }
    }
  }

  // ----- the system tags -----

  lemma {:induction false} StripNothing(s: string, names: seq<TagName>)
    requires NoBlocks(s, names)
    ensures StripTags(s, names) == s
  {
    StripTagsCuts(s, names);
  }

  /** Of a text whose only blocks are of one tag, and without any when its first is gone,
      everything else is left. */
  lemma {:induction false} OneBlockIsStripped(names: seq<TagName>, name: TagName, before: string, inner: string, behind: string)
    requires name in names && FirstBlockIs(name, before, inner) && NoBlocks(before + behind, names)
    requires forall other <- names :: other != name ==>
      !HasBlock(Around(name, before, inner, behind), Opening(other), Closing(other))
    ensures StripTags(Around(name, before, inner, behind), names) == before + behind
    decreases |names|
  {
    var s, open, close := Around(name, before, inner, behind), Opening(names[0]), Closing(names[0]);
    if names[0] == name {
      BlockIsRemoved(name, before, inner, behind);
      WithoutBlockIsKept(before + behind, open, close);
      StripNothing(before + behind, names[1..]);
    } else {
      WithoutBlockIsKept(s, open, close);
      OneBlockIsStripped(names[1..], name, before, inner, behind);
    }
  }

  /** `strip_system_tags` of such a text. */
  lemma SystemBlockIsStripped(names: seq<TagName>, name: TagName, before: string, inner: string, behind: string)
    requires name in names && FirstBlockIs(name, before, inner) && NoBlocks(before + behind, names)
    requires forall other <- names :: other != name ==>
      !HasBlock(Around(name, before, inner, behind), Opening(other), Closing(other))
    ensures Trim(StripTags(Around(name, before, inner, behind), names)) == Trim(before + behind)
  {
    OneBlockIsStripped(names, name, before, inner, behind);
  }

  // ----- the query -----

  /** Whatever stands around it, the first complete query block is the query: its text,
      trimmed and stripped. */
  lemma QueryBlockIsExtracted(v: Vocabulary, before: string, inner: string, behind: string)
    requires FirstBlockIs(v.query, before, inner)
    ensures ExtractUserQuery(v, Around(v.query, before, inner, behind)) == Trim(StripTags(Trim(inner), v.system))
  {
    var s := Around(v.query, before, inner, behind);
    TagsAreFound(v.query, before, inner, behind);
    ContentIs(v.query, before, inner, behind);
    ExtractOfFound(v, s, |before|, |inner|);
  }

  lemma ExtractOfFound(v: Vocabulary, s: string, start: nat, end: nat)
    requires Find(s, Opening(v.query)) == Some(start)
    requires Find(s[start + |Opening(v.query)|..], Closing(v.query)) == Some(end)
    ensures ExtractUserQuery(v, s) == Trim(StripTags(Trim(s[start + |Opening(v.query)|..][..end]), v.system))
  {
  }

  lemma ContentIs(name: TagName, before: string, inner: string, behind: string)
    ensures Around(name, before, inner, behind)[|before| + |Opening(name)|..][..|inner|] == inner
  {
    assert Around(name, before, inner, behind) == (before + Opening(name)) + (inner + Closing(name) + behind);
  }

  /** So a query without system blocks comes out trimmed. */
  lemma PlainQueryIsExtracted(v: Vocabulary, before: string, inner: string, behind: string)
    requires FirstBlockIs(v.query, before, inner) && NoBlocks(inner, v.system)
    ensures ExtractUserQuery(v, Around(v.query, before, inner, behind)) == Trim(inner)
  {
    QueryBlockIsExtracted(v, before, inner, behind);
    TrimHasNoBlocks(inner, v.system);
    StripNothing(Trim(inner), v.system);
    var i, j := TrimSlice(inner);
    TrimFixesTrimmed(Trim(inner));
  }

  lemma TrimHasNoBlocks(s: string, names: seq<TagName>)
    requires NoBlocks(s, names)
    ensures NoBlocks(Trim(s), names)
  {
    var lo, hi := TrimSlice(s);
    forall name | name in names ensures !HasBlock(Trim(s), Opening(name), Closing(name)) {
      if HasBlock(Trim(s), Opening(name), Closing(name)) {
        var i: nat, j: nat :| i <= j && OccursAt(Trim(s), Opening(name), i) && OccursAt(Trim(s), Closing(name), j);
        OccursOutside(s, Opening(name), lo, hi, i);
        OccursOutside(s, Closing(name), lo, hi, j);
        assert HasBlock(s, Opening(name), Closing(name));
      }
    }
  }

  /** Without a complete query block the whole text is the query, stripped and trimmed. */
  lemma WholeTextIsExtracted(v: Vocabulary, text: string)
    requires !HasBlock(text, Opening(v.query), Closing(v.query))
    ensures ExtractUserQuery(v, text) == Trim(StripTags(text, v.system))
    ensures NoBlocks(text, v.system) ==> ExtractUserQuery(v, text) == Trim(text)
  {
    if Find(text, Opening(v.query)).Some? {
      NoCloseBehind(text, Opening(v.query), Closing(v.query));
    }
    if NoBlocks(text, v.system) {
      StripNothing(text, v.system);
    }
  }
}
