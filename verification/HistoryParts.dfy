/** Where each part of a compacted history stands, and what the recent messages are. */
module HistoryParts {
  import opened Wrappers
  import opened Conversation
  import opened Compaction

  function One(present: bool): nat {
    if present then 1 else 0
  }

  /** First the system message and the prefix, then the project instructions. */
  lemma FrontStands(cfg: Setting, input: Input)
    ensures var history := Compacted(cfg, input);
      && |history| == 3 + One(input.agentsReminder.Some?) + One(input.lastQuery.Some?) + |input.recent|
                      + One(input.systemReminder.Some?)
      && history[0] == input.systemMessage
      && history[1] == User([Text(input.userPrefix)], Some(CompactionMeta))
      && (input.agentsReminder.Some? ==>
          history[2] == User([Text(input.agentsReminder.value)], Some(ProjectInstructions)))
  {
  }

  /** Then the query, on a line of its own between its tags. */
  lemma QueryStands(cfg: Setting, input: Input)
    requires input.lastQuery.Some?
    ensures var history, k := Compacted(cfg, input), 2 + One(input.agentsReminder.Some?);
      && k < |history| && history[k] == User([Text(Wrapped(cfg.vocabulary.query, input.lastQuery.value))], None)
  {
    WrappedReads(cfg.vocabulary, input.lastQuery.value);
    QueryPosition(cfg, input);
  }

  function Wrapped(name: string, q: string): string {
    "<" + name + ">\n" + q + "\n</" + name + ">"
  }

  lemma WrappedReads(v: Tags.Vocabulary, q: string)
    ensures Tags.WrapUserQuery(v, q) == Wrapped(v.query, q)
  {
  }

  /** Behind them the recent messages in order, the summary behind its preamble with the hint
      at its end, and the reminder last. */
  lemma BackStands(cfg: Setting, input: Input)
    ensures var history := Compacted(cfg, input);
      var start := 2 + One(input.agentsReminder.Some?) + One(input.lastQuery.Some?);
      var end := start + |input.recent|;
      && end < |history| && history[start..end] == input.recent
      && history[end] == User([Text(
          cfg.preamble + Summary.Formatted(cfg.summaryTags, input.summary)
          + if input.transcriptHint.Some? then input.transcriptHint.value else [])], Some(CompactionMeta))
      && (input.systemReminder.Some? ==>
          end + 1 < |history| && history[end + 1] == User([Text(input.systemReminder.value)], Some(SystemReminder)))
  {
    var front := Preface(input) + QueryItems(cfg, input.lastQuery);
    assert Compacted(cfg, input)[|front|..|front| + |input.recent|] == input.recent;
  }

  // ----- the recent messages -----

  /** An assistant turn as it was; of a result, what it answers. */
  function MessageOf(item: Item): seq<Item> {
    if item.Assistant? then [item]
    else if item.ToolResult? then [ToolResult(item.toolCallId, "Tool call omitted...", [])]
    else []
  }

  lemma {:induction false} MessagesNext(items: seq<Item>, item: Item)
    ensures Messages(items + [item]) == Messages(items) + MessageOf(item)
    decreases |items|
  {
    if |items| > 0 {
      assert (items + [item])[1..] == items[1..] + [item];
      MessagesNext(items[1..], item);
    } else {
      assert items + [item] == [item] && [item][1..] == [];
    }
  }

  lemma {:induction false} BoundaryStays(cfg: Setting, conversation: seq<Item>, item: Item, n: nat)
    requires n <= |conversation|
    ensures BoundaryOf(cfg, conversation + [item], n) == BoundaryOf(cfg, conversation, n)
    decreases n
  {
    if n > 0 && !IsRealUserTurn(cfg, conversation[n - 1]) {
      BoundaryStays(cfg, conversation, item, n - 1);
    }
  }

  lemma BoundaryMoves(cfg: Setting, conversation: seq<Item>, item: Item)
    ensures var n := |conversation|;
      BoundaryOf(cfg, conversation + [item], n + 1)
        == if IsRealUserTurn(cfg, item) then n + 1 else BoundaryOf(cfg, conversation, n)
  {
    BoundaryStays(cfg, conversation, item, |conversation|);
  }

  /** A real user turn starts anew; any other item is kept as far as it is a message. */
  lemma RecentNext(cfg: Setting, conversation: seq<Item>, item: Item)
    ensures RecentMessages(cfg, conversation + [item])
         == if IsRealUserTurn(cfg, item) then [] else RecentMessages(cfg, conversation) + MessageOf(item)
  {
    var b := BoundaryOf(cfg, conversation, |conversation|);
    BoundaryMoves(cfg, conversation, item);
    TailNext(conversation, item, b);
    MessagesNext(conversation[b..], item);
  }

  /** The query is the last real user turn's. */
  lemma QueryNext(cfg: Setting, conversation: seq<Item>, item: Item)
    ensures LastQuery(cfg, conversation + [item])
         == if IsRealUserTurn(cfg, item) then Some(QueryOf(cfg, item)) else LastQuery(cfg, conversation)
  {
    BoundaryMoves(cfg, conversation, item);
  }

  lemma TailNext(conversation: seq<Item>, item: Item, b: nat)
    requires b <= |conversation|
    ensures (conversation + [item])[b..] == conversation[b..] + [item]
    ensures (conversation + [item])[|conversation| + 1..] == []
  {
  }

  /** And at first there is nothing. */
  lemma NoContext(cfg: Setting)
    ensures RecentMessages(cfg, []) == [] && LastQuery(cfg, []) == None
  {
  }

  // ----- the text of a user item -----

  predicate HasText(parts: seq<ContentPart>) {
    exists p <- parts :: p.Text?
  }

  lemma {:induction false} TextPartsNext(parts: seq<ContentPart>, part: ContentPart)
    ensures TextParts(parts + [part]) == TextParts(parts) + if part.Text? then [part.text] else []
    ensures TextParts(parts) != [] <==> HasText(parts)
    decreases |parts|
  {
    if |parts| > 0 {
      assert (parts + [part])[1..] == parts[1..] + [part];
      TextPartsNext(parts[1..], part);
      assert parts == [parts[0]] + parts[1..];
    } else {
      assert parts + [part] == [part] && [part][1..] == [];
    }
  }

  lemma {:induction false} JoinedNext(texts: seq<string>, text: string)
    ensures Joined(texts + [text]) == if texts == [] then text else Joined(texts) + "\n" + text
    decreases |texts|
  {
    if |texts| > 0 {
      assert (texts + [text])[1..] == texts[1..] + [text];
      JoinedNext(texts[1..], text);
      assert |texts| == 1 ==> texts[1..] == [];
    } else {
      assert texts + [text] == [text];
    }
  }

  /** Its texts in order, a newline between any two; images add nothing. */
  lemma TextContentNext(parts: seq<ContentPart>, part: ContentPart)
    ensures TextContent(parts + [part]) ==
      if part.Image? then TextContent(parts)
      else if HasText(parts) then TextContent(parts) + "\n" + part.text
      else part.text
  {
    TextPartsNext(parts, part);
    if part.Text? {
      JoinedNext(TextParts(parts), part.text);
    } else {
      assert TextParts(parts) + [] == TextParts(parts);
    }
  }
}
