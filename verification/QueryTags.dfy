/** Wrapping a user query in its tag, and extracting it again, for any vocabulary of tags. */
module QueryTags {
  import opened Wrappers
  import opened Text

  /** A tag name: `<name>` and `</name>` have no `<` beyond their first character. */
  type TagName = t: string | t != [] && '<' !in t && '\n' !in t witness "a"

  function Opening(name: TagName): string {
    ['<'] + name + ['>']
  }

  function Closing(name: TagName): string {
    ['<', '/'] + name + ['>']
  }

  datatype Vocabulary = Vocabulary(query: TagName, system: seq<TagName>)

  const USER_QUERY: TagName := "user_query"
  const USER_INFO: TagName := "user_info"
  const PROJECT_LAYOUT: TagName := "project_layout"
  const GIT_STATUS: TagName := "git_status"
  const FORK_CONTEXT: TagName := "fork-context"
  const SYSTEM_DASH_REMINDER: TagName := "system-reminder"
  const AGENT_MEMORY: TagName := "agent-memory"
  const SYSTEM_REMINDER: TagName := "system_reminder"
  const BACKGROUND_CONTEXT: TagName := "background_context"
  const COMMAND_NAME: TagName := "command-name"
  const COMMAND_MESSAGE: TagName := "command-message"
  const COMMAND_ARGS: TagName := "command-args"

  const SOURCE_VOCABULARY := Vocabulary(USER_QUERY, [
    USER_INFO, PROJECT_LAYOUT, GIT_STATUS, FORK_CONTEXT,
    SYSTEM_DASH_REMINDER, AGENT_MEMORY, SYSTEM_REMINDER, BACKGROUND_CONTEXT,
    COMMAND_NAME, COMMAND_MESSAGE, COMMAND_ARGS])

  // ----- strip_system_tags -----

  /** Removes every block from `open` to the next `close`; stops at an unclosed one. */
  function StripBlocks(s: string, open: string, close: string): string
    requires open != [] && close != []
    decreases |s|
  {
    match Find(s, open)
    case None => s
    case Some(start) =>
      match Find(s[start..], close)
      case None => s
      case Some(rel) => StripBlocks(s[..start] + s[start + rel + |close|..], open, close)
  }

  function StripTags(s: string, names: seq<TagName>): string
    decreases |names|
  {
    if |names| == 0 then s
    else StripTags(StripBlocks(s, Opening(names[0]), Closing(names[0])), names[1..])
  }

  method StripSystemTags(names: seq<TagName>, text: string) returns (result: string)
    ensures result == Trim(StripTags(text, names))
  {
    result := text;
    for n := 0 to |names|
      invariant StripTags(text, names) == StripTags(result, names[n..])
    {
      assert names[n..][1..] == names[n + 1..];
      ghost var before := result;
      var open, close := Opening(names[n]), Closing(names[n]);
      var start := Find(result, open);
      while start.Some?
        invariant start == Find(result, open)
        invariant StripBlocks(before, open, close) == StripBlocks(result, open, close)
        decreases |result|
      {
        var rel := Find(result[start.value..], close);
        if rel.None? {
          break;
        }
        var endPos := start.value + rel.value + |close|;
        result := result[..start.value] + result[endPos..];
        start := Find(result, open);
      }
      assert result == StripBlocks(before, open, close);
    }
    result := Trim(result);
  }

  // ----- extract_user_query / wrap_user_query -----

  function ExtractUserQuery(v: Vocabulary, text: string): string {
    match Find(text, Opening(v.query))
    case None => Trim(StripTags(text, v.system))
    case Some(start) =>
      var content := text[start + |Opening(v.query)|..];
      match Find(content, Closing(v.query))
      case None => Trim(StripTags(text, v.system))
      case Some(end) => Trim(StripTags(Trim(content[..end]), v.system))
  }

  function WrapUserQuery(v: Vocabulary, q: string): string {
    Opening(v.query) + ("\n" + q + "\n") + Closing(v.query)
  }

  // ----- stripping leaves alone exactly the trimmed strings without a complete block -----

  /** Some opening tag is followed by its closing tag. */
  ghost predicate HasBlock(s: string, open: string, close: string) {
    exists i: nat, j: nat :: i <= j && OccursAt(s, open, i) && OccursAt(s, close, j)
  }

  lemma BlockIsCut(s: string, open: string, close: string)
    requires open != [] && close != [] && HasBlock(s, open, close)
    ensures |StripBlocks(s, open, close)| < |s|
  {
    FirstBlock(s, open, close);
    var start := Find(s, open).value;
    var rel := Find(s[start..], close).value;
    StripBlocksShrinks(s[..start] + s[start + rel + |close|..], open, close);
  }

  lemma WithoutBlockIsKept(s: string, open: string, close: string)
    requires open != [] && close != [] && !HasBlock(s, open, close)
    ensures StripBlocks(s, open, close) == s
  {
    FirstBlock(s, open, close);
  }

  lemma FirstBlock(s: string, open: string, close: string)
    requires open != [] && close != []
    ensures HasBlock(s, open, close) <==>
      Find(s, open).Some? && Find(s[Find(s, open).value..], close).Some?
  {
    FindIsFirst(s, open);
    if Find(s, open).Some? {
      ClosingAfter(s, open, close, Find(s, open).value);
    }
  }

  lemma ClosingAfter(s: string, open: string, close: string, start: nat)
    requires close != [] && FirstAt(s, open, start)
    ensures Find(s[start..], close).Some? <==> HasBlock(s, open, close)
  {
    FindIsFirst(s[start..], close);
    match Find(s[start..], close) {
      case None =>
        forall j: nat | start <= j <= |s| ensures !OccursAt(s, close, j) {
          assert s[start..][j - start..] == s[j..];
          assert !OccursAt(s[start..], close, j - start);
        }
      case Some(rel) =>
        assert s[start..][rel..] == s[start + rel..];
        assert OccursAt(s, close, start + rel);
    }
  }

  lemma {:induction false} StripBlocksShrinks(s: string, open: string, close: string)
    requires open != [] && close != []
    ensures |StripBlocks(s, open, close)| <= |s|
    decreases |s|
  {
    var start := Find(s, open);
    if start.Some? {
      var rel := Find(s[start.value..], close);
      if rel.Some? {
        StripBlocksShrinks(s[..start.value] + s[start.value + rel.value + |close|..], open, close);
      }
    }
  }

  ghost predicate NoBlocks(s: string, names: seq<TagName>) {
    forall name <- names :: !HasBlock(s, Opening(name), Closing(name))
  }

  lemma {:induction false} StripTagsCuts(s: string, names: seq<TagName>)
    ensures |StripTags(s, names)| <= |s|
    ensures |StripTags(s, names)| == |s| <==> NoBlocks(s, names)
    ensures NoBlocks(s, names) ==> StripTags(s, names) == s
    decreases |names|
  {
    if |names| != 0 {
      var open, close := Opening(names[0]), Closing(names[0]);
      if HasBlock(s, open, close) {
        BlockIsCut(s, open, close);
      } else {
        WithoutBlockIsKept(s, open, close);
      }
      StripTagsCuts(StripBlocks(s, open, close), names[1..]);
      assert names == [names[0]] + names[1..];
    }
  }

  /** `strip_system_tags` changes a string exactly when it is untrimmed or holds a complete block. */
  lemma StripStable(names: seq<TagName>, s: string)
    ensures |Trim(StripTags(s, names))| <= |s|
    ensures Trimmed(Trim(StripTags(s, names)))
    ensures Trim(StripTags(s, names)) == s <==> Trimmed(s) && NoBlocks(s, names)
  {
    StripTagsCuts(s, names);
    var i, j := TrimSlice(StripTags(s, names));
    TrimFixesTrimmed(s);
  }

  // ----- the round trip -----

  lemma QueryTagIsHeaded(name: TagName)
    ensures Headed(Opening(name), '<') && Headed(Closing(name), '<') && '\n' !in Closing(name)
  {
    assert Opening(name)[1..] == name + ['>'];
    assert Closing(name)[1..] == ['/'] + name + ['>'];
  }

  lemma PaddingAddsNoTag(q: string, pat: string)
    requires pat != [] && '\n' !in pat && Contains("\n" + q + "\n", pat)
    ensures Contains(q, pat)
  {
    var s := "\n" + q + "\n";
    var i: nat :| OccursAt(s, pat, i);
    assert s[i] == pat[0] && s[i + |pat| - 1] == s[i..][|pat| - 1] == pat[|pat| - 1];
    assert s[i..][..|pat|] == q[i - 1..][..|pat|];
    assert OccursAt(q, pat, i - 1);
  }

  /** What extraction makes of a wrapped query: the text before its first closing tag,
      trimmed and stripped. */
  lemma ExtractOfWrap(v: Vocabulary, q: string)
    ensures !Contains(q, Closing(v.query)) ==>
      ExtractUserQuery(v, WrapUserQuery(v, q)) == Trim(StripTags(Trim(q), v.system))
    ensures Contains(q, Closing(v.query)) ==> |ExtractUserQuery(v, WrapUserQuery(v, q))| < |q|
  {
    var close := Closing(v.query);
    var padded := "\n" + q + "\n";
    var content := padded + close;
    assert WrapUserQuery(v, q) == Opening(v.query) + content;
    FindAtStart(Opening(v.query), content);
    assert WrapUserQuery(v, q)[|Opening(v.query)|..] == content;
    QueryTagIsHeaded(v.query);
    if Contains(q, close) {
      ClosingInQueryWins(v, q);
    } else {
      assert Find(content, close) == Some(|padded|) by {
        if Contains(padded, close) {
          PaddingAddsNoTag(q, close);
        }
        FindAfter(padded, close, '<', []);
        assert padded + close + [] == content;
      }
      assert content[..|padded|] == padded;
      TrimEndDropsBlank("\n" + q, "\n");
      TrimPadded(q);
    }
  }

  lemma TrimPadded(q: string)
    ensures Trim("\n" + q + "\n") == Trim(q)
  {
    var i, j := TrimSlice(q);
    var t := q[i..j];
    assert Blank("\n" + q[..i]) && Blank(q[j..] + "\n");
    TrimDropsPadding("\n" + q[..i], t, q[j..] + "\n");
    assert ("\n" + q[..i]) + t + (q[j..] + "\n") == "\n" + q + "\n";
  }

  lemma ClosingInQueryWins(v: Vocabulary, q: string)
    requires Contains(q, Closing(v.query))
    ensures |ExtractUserQuery(v, WrapUserQuery(v, q))| < |q|
  {
    var close := Closing(v.query);
    var content := "\n" + q + "\n" + close;
    assert WrapUserQuery(v, q) == Opening(v.query) + content;
    FindAtStart(Opening(v.query), content);
    assert WrapUserQuery(v, q)[|Opening(v.query)|..] == content;
    FoundInsideQuery(q, close);
    var before := content[..Find(content, close).value];
    var i, j := TrimSlice(before);
    StripStable(v.system, Trim(before));
  }

  lemma FoundInsideQuery(q: string, close: string)
    requires Contains(q, close)
    ensures var r := Find("\n" + q + "\n" + close, close); r.Some? && r.value + |close| <= |q| + 1
  {
    var content := "\n" + q + "\n" + close;
    var k: nat :| OccursAt(q, close, k);
    assert content[k + 1..][..|close|] == q[k..][..|close|];
    assert OccursAt(content, close, k + 1);
    FindIsFirst(content, close);
  }

  /** Wrapping and extracting gives the query back exactly when it is trimmed, holds no
      closing query tag and no complete system block. */
  lemma WrapExtractRoundTrip(v: Vocabulary, q: string)
    ensures ExtractUserQuery(v, WrapUserQuery(v, q)) == q
      <==> Trimmed(q) && !Contains(q, Closing(v.query)) && NoBlocks(q, v.system)
  {
    ExtractOfWrap(v, q);
    StripStable(v.system, Trim(q));
    TrimFixesTrimmed(q);
  }

  lemma NoCloseBehind(text: string, open: string, close: string)
    requires !HasBlock(text, open, close) && Find(text, open).Some?
    ensures Find(text[Find(text, open).value + |open|..], close).None?
  {
    FindIsFirst(text, open);
    var start := Find(text, open).value + |open|;
    FindIsFirst(text[start..], close);
    if Find(text[start..], close).Some? {
      var rel := Find(text[start..], close).value;
      assert text[start..][rel..] == text[start + rel..];
      assert OccursAt(text, close, start + rel);
    }
  }

  /** A text without a complete query block is taken whole: it is its own query exactly
      when it is trimmed and holds no complete system block. */
  lemma PlainTextExtract(v: Vocabulary, text: string)
    requires !HasBlock(text, Opening(v.query), Closing(v.query))
    ensures ExtractUserQuery(v, text) == text <==> Trimmed(text) && NoBlocks(text, v.system)
  {
    var open, close := Opening(v.query), Closing(v.query);
    if Find(text, open).Some? {
      NoCloseBehind(text, open, close);
    }
    StripStable(v.system, text);
  }
}
