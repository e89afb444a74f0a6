/** Rebuilding a compacted history from the tail after the last real user turn:
    `is_real_user_turn`, `extract_messages_since_last_real_user`,
    `extract_last_real_user_query` and `build_compacted_history`. */
module Compaction {
  import opened Wrappers
  import opened Conversation
  import opened ToolPairing
  import Text
  import Tags = QueryTags
  import Summary = CompactSummary

  // ----- real user turns -----

  function TextContent(parts: seq<ContentPart>): string {
    Joined(TextParts(parts))
  }

  function TextParts(parts: seq<ContentPart>): seq<string> {
    if |parts| == 0 then []
    else (if parts[0].Text? then [parts[0].text] else []) + TextParts(parts[1..])
  }

  /** `join("\n")` */
  function Joined(texts: seq<string>): string {
    if |texts| == 0 then []
    else if |texts| == 1 then texts[0]
    else texts[0] + ['\n'] + Joined(texts[1..])
  }

  /** The fixed texts: the query tags, the texts that stand for a session-internal turn
      (besides the empty one), the summary's control tags and its preamble. */
  datatype Setting = Setting(
    vocabulary: Tags.Vocabulary,
    synthetic: set<string>,
    summaryTags: Summary.TagSet,
    preamble: string)

  const AUTO_CONTINUE_PROMPT :=
    "Continue the conversation from where it left off without asking the user any further questions. "
    + "Resume directly - do not acknowledge the summary, do not recap what was happening, do not preface "
    + "with \"I'll continue\" or similar.\nPick up the last task as if the break never happened."

  const SOURCE_SETTING := Setting(
    Tags.SOURCE_VOCABULARY,
    {"__auto_continue__", AUTO_CONTINUE_PROMPT},
    Summary.SOURCE_TAGS,
    "This session is being continued from a previous conversation that ran out of context. "
    + "The summary below covers the earlier portion of the conversation.\n\n")

  predicate IsSyntheticQuery(cfg: Setting, text: string) {
    text == [] || text in cfg.synthetic
  }

  function QueryOf(cfg: Setting, item: Item): string
    requires item.User?
  {
    Tags.ExtractUserQuery(cfg.vocabulary, TextContent(item.parts))
  }

  predicate IsRealUserTurn(cfg: Setting, item: Item) {
    item.User? && item.synthetic.None? &&
    ((exists p <- item.parts :: p.Image?) || !IsSyntheticQuery(cfg, QueryOf(cfg, item)))
  }

  // ----- extraction -----

  const OMITTED := "Tool call omitted..."

  /** Keeps assistants, and results with a placeholder for their content. */
  function Messages(items: seq<Item>): seq<Item> {
    if |items| == 0 then []
    else (match items[0]
          case Assistant(_, _) => [items[0]]
          case ToolResult(id, _, _) => [ToolResult(id, OMITTED, [])]
          case _ => []) + Messages(items[1..])
  }

  /** Just behind the last real user turn among the first `n` items, or 0. */
  function BoundaryOf(cfg: Setting, items: seq<Item>, n: nat): (b: nat)
    requires n <= |items|
    ensures b <= n
    ensures b > 0 ==> IsRealUserTurn(cfg, items[b - 1])
    ensures forall i :: b <= i < n ==> !IsRealUserTurn(cfg, items[i])
    decreases n
  {
    if n == 0 || IsRealUserTurn(cfg, items[n - 1]) then n else BoundaryOf(cfg, items, n - 1)
  }

  function RecentMessages(cfg: Setting, conversation: seq<Item>): seq<Item> {
    Messages(conversation[BoundaryOf(cfg, conversation, |conversation|)..])
  }

  function LastQuery(cfg: Setting, conversation: seq<Item>): Option<string> {
    var b := BoundaryOf(cfg, conversation, |conversation|);
    if b == 0 then None else Some(QueryOf(cfg, conversation[b - 1]))
  }

  // ----- build_compacted_history -----

  datatype Input = Input(
    systemMessage: Item,
    userPrefix: string,
    agentsReminder: Option<string>,
    lastQuery: Option<string>,
    recent: seq<Item>,
    summary: string,
    transcriptHint: Option<string>,
    systemReminder: Option<string>)

  function UserItem(text: string, reason: Option<SyntheticReason>): Item {
    User([Text(text)], reason)
  }

  function OptionalItem(text: Option<string>, reason: Option<SyntheticReason>): seq<Item> {
    if text.Some? then [UserItem(text.value, reason)] else []
  }

  /** What stands before the recent messages, the wrapped query excepted. */
  function Preface(input: Input): seq<Item> {
    [input.systemMessage, UserItem(input.userPrefix, Some(CompactionMeta))]
    + OptionalItem(input.agentsReminder, Some(ProjectInstructions))
  }

  function QueryItems(cfg: Setting, query: Option<string>): seq<Item> {
    if query.Some? then [UserItem(Tags.WrapUserQuery(cfg.vocabulary, query.value), None)] else []
  }

  /** `format_compact_summary_content` and the hint behind it. */
  ghost function SummaryContent(cfg: Setting, input: Input): string {
    cfg.preamble + Summary.Formatted(cfg.summaryTags, input.summary)
    + if input.transcriptHint.Some? then input.transcriptHint.value else []
  }

  /** What stands behind the recent messages. */
  ghost function Coda(cfg: Setting, input: Input): seq<Item> {
    [UserItem(SummaryContent(cfg, input), Some(CompactionMeta))] + OptionalItem(input.systemReminder, Some(SystemReminder))
  }

  ghost function Compacted(cfg: Setting, input: Input): seq<Item> {
    Preface(input) + QueryItems(cfg, input.lastQuery) + input.recent + Coda(cfg, input)
  }

  method BuildCompactedHistory(cfg: Setting, input: Input) returns (compacted: seq<Item>)
    ensures compacted == Compacted(cfg, input)
  {
    var content := BuildSummaryContent(cfg, input);
    compacted := [input.systemMessage, UserItem(input.userPrefix, Some(CompactionMeta))];
    if input.agentsReminder.Some? {
      compacted := compacted + [UserItem(input.agentsReminder.value, Some(ProjectInstructions))];
    }
    assert compacted == Preface(input);
    if input.lastQuery.Some? {
      compacted := compacted + [UserItem(Tags.WrapUserQuery(cfg.vocabulary, input.lastQuery.value), None)];
    }
    ghost var before := compacted;
    assert before == Preface(input) + QueryItems(cfg, input.lastQuery);
    for i := 0 to |input.recent|
      invariant compacted == before + input.recent[..i]
    {
      compacted := compacted + [input.recent[i]];
    }
    ghost var middle := compacted;
    assert middle == before + input.recent;
    compacted := compacted + [UserItem(content, Some(CompactionMeta))];
    if input.systemReminder.Some? {
      compacted := compacted + [UserItem(input.systemReminder.value, Some(SystemReminder))];
    }
    assert compacted == middle + Coda(cfg, input);
  }

  /** `format_compact_summary_content`, with the hint. */
  method BuildSummaryContent(cfg: Setting, input: Input) returns (content: string)
    ensures content == SummaryContent(cfg, input)
  {
    var cleaned := Summary.FormatCompactSummary(cfg.summaryTags, input.summary);
    content := cfg.preamble + cleaned;
    if input.transcriptHint.Some? {
      content := content + input.transcriptHint.value;
    }
  }

  /** A system message is any item but a result, a call or a real user turn. */
  ghost predicate SystemLike(cfg: Setting, item: Item) {
    !item.ToolResult? && !item.Assistant? && !IsRealUserTurn(cfg, item)
  }

  /** The context a conversation is compacted with. */
  ghost predicate ContextOf(cfg: Setting, conversation: seq<Item>, input: Input) {
    SystemLike(cfg, input.systemMessage) && input.recent == RecentMessages(cfg, conversation) && input.lastQuery == LastQuery(cfg, conversation)
  }

  // ----- no result is orphaned -----

  ghost predicate NoResultsOrCalls(items: seq<Item>) {
    forall i :: 0 <= i < |items| ==> !items[i].ToolResult? && !items[i].Assistant?
  }

  lemma {:induction false} InertPrefix(rule: Rule, a: seq<Item>, b: seq<Item>)
    requires NoResultsOrCalls(a)
    ensures DroppedIds(rule, a + b, {}) == DroppedIds(rule, b, {})
  {
    if |a| == 0 {
      assert a + b == b;
    } else {
      assert (a + b)[1..] == a[1..] + b;
      InertPrefix(rule, a[1..], b);
    }
  }

  lemma {:induction false} InertSuffix(rule: Rule, a: seq<Item>, b: seq<Item>, ids: set<string>)
    requires NoResultsOrCalls(b)
    ensures DroppedIds(rule, a + b, ids) == DroppedIds(rule, a, ids)
    decreases |a| + |b|
  {
    if |a| > 0 {
      assert (a + b)[1..] == a[1..] + b;
      InertSuffix(rule, a[1..], b, Next(rule, ids, a[0]));
    } else if |b| > 0 {
      assert a + b == b && [] + b[1..] == b[1..];
      InertSuffix(rule, [], b[1..], Next(rule, ids, b[0]));
    }
  }

  lemma FrameIsInert(cfg: Setting, input: Input)
    requires SystemLike(cfg, input.systemMessage)
    ensures NoResultsOrCalls(Preface(input) + QueryItems(cfg, input.lastQuery))
    ensures NoResultsOrCalls(Coda(cfg, input))
  {
  }

  lemma FrameIsNoUserTurn(cfg: Setting, input: Input)
    requires SystemLike(cfg, input.systemMessage)
    ensures forall i :: 0 <= i < |Preface(input)| ==> !IsRealUserTurn(cfg, Preface(input)[i])
    ensures forall i :: 0 <= i < |Coda(cfg, input)| ==> !IsRealUserTurn(cfg, Coda(cfg, input)[i])
  {
  }

  lemma BetweenInert(rule: Rule, before: seq<Item>, items: seq<Item>, after: seq<Item>)
    requires NoResultsOrCalls(before) && NoResultsOrCalls(after)
    ensures DroppedIds(rule, before + items + after, {}) == DroppedIds(rule, items, {})
  {
    InertPrefix(rule, before, items + after);
    InertSuffix(rule, items, after, {});
    assert before + items + after == before + (items + after);
  }

  /** The rebuilt history has exactly the misplaced results of its recent messages. */
  lemma CompactedViolations(rule: Rule, cfg: Setting, input: Input)
    requires SystemLike(cfg, input.systemMessage)
    ensures DroppedIds(rule, Compacted(cfg, input), {}) == DroppedIds(rule, input.recent, {})
  {
    FrameIsInert(cfg, input);
    BetweenInert(rule, Preface(input) + QueryItems(cfg, input.lastQuery), input.recent, Coda(cfg, input));
  }

  lemma {:induction false} MessagesKeepOrphans(items: seq<Item>, ids: set<string>)
    ensures DroppedIds(Precedence, Messages(items), ids) == DroppedIds(Precedence, items, ids)
  {
    if |items| > 0 {
      var rest := Messages(items[1..]);
      MessagesKeepOrphans(items[1..], Next(Precedence, ids, items[0]));
      MessagesStep(items);
      if Messages(items) != rest {
        assert Messages(items)[1..] == rest;
      }
    }
  }

  lemma MessagesStep(items: seq<Item>)
    requires |items| > 0
    ensures var rest := Messages(items[1..]);
      match items[0]
      case Assistant(_, _) => Messages(items) == [items[0]] + rest
      case ToolResult(id, _, _) => Messages(items) == [ToolResult(id, OMITTED, [])] + rest
      case _ => Messages(items) == rest
  {
  }

  lemma {:induction false} MessagesKeepAdjacency(items: seq<Item>, ids: set<string>)
    requires DroppedIds(Adjacency, items, ids) == []
    ensures DroppedIds(Adjacency, Messages(items), ids) == []
  {
    if |items| > 0 {
      var rest := Messages(items[1..]);
      MessagesKeepAdjacency(items[1..], Next(Adjacency, ids, items[0]));
      MessagesStep(items);
      if items[0].Assistant? || items[0].ToolResult? {
        assert Messages(items)[1..] == rest;
      } else {
        MoreIdsDropLess(rest, {}, ids);
      }
    }
  }

  lemma {:induction false} MoreIdsDropLess(items: seq<Item>, fewer: set<string>, more: set<string>)
    requires fewer <= more && DroppedIds(Adjacency, items, fewer) == []
    ensures DroppedIds(Adjacency, items, more) == []
  {
    if |items| > 0 {
      MoreIdsDropLess(items[1..], Next(Adjacency, fewer, items[0]), Next(Adjacency, more, items[0]));
    }
  }

  /** Compacting a conversation reports exactly the results of its tail (after the last
      real user turn) that the tail does not declare before them. */
  lemma CompactionReportsTailOrphans(cfg: Setting, conversation: seq<Item>, input: Input)
    requires ContextOf(cfg, conversation, input)
    ensures var tail := conversation[BoundaryOf(cfg, conversation, |conversation|)..];
      DroppedIds(Precedence, Compacted(cfg, input), {}) == DroppedIds(Precedence, tail, {})
  {
    CompactedViolations(Precedence, cfg, input);
    MessagesKeepOrphans(conversation[BoundaryOf(cfg, conversation, |conversation|)..], {});
  }

  /** Every result has a declaring assistant before it with no real user turn between. */
  ghost predicate PairedWithinTurn(cfg: Setting, items: seq<Item>) {
    forall i :: 0 <= i < |items| && items[i].ToolResult? ==>
      exists j :: 0 <= j < i && Declares(items[j], items[i].toolCallId)
        && forall k :: j < k < i ==> !IsRealUserTurn(cfg, items[k])
  }

  lemma TailIsPaired(cfg: Setting, items: seq<Item>, b: nat)
    requires PairedWithinTurn(cfg, items) && b <= |items| && (b > 0 ==> IsRealUserTurn(cfg, items[b - 1]))
    ensures Obeys(Precedence, items[b..])
  {
    var tail := items[b..];
    forall i | 0 <= i < |tail| && tail[i].ToolResult?
      ensures AnswerableAfter(Precedence, tail[..i], tail[i].toolCallId)
    {
      assert tail[i] == items[b + i];
      var j :| 0 <= j < b + i && Declares(items[j], tail[i].toolCallId)
        && forall k :: j < k < b + i ==> !IsRealUserTurn(cfg, items[k]);
      assert tail[..i][j - b] == items[j];
    }
  }

  /** Compaction never orphans a result. */
  lemma CompactionNeverOrphans(cfg: Setting, conversation: seq<Item>, input: Input)
    requires ContextOf(cfg, conversation, input) && PairedWithinTurn(cfg, conversation)
    ensures DroppedIds(Precedence, Compacted(cfg, input), {}) == []
  {
    var b := BoundaryOf(cfg, conversation, |conversation|);
    CompactionReportsTailOrphans(cfg, conversation, input);
    TailIsPaired(cfg, conversation, b);
    NothingDroppedIffObeys(Precedence, conversation[b..]);
  }

  lemma RecentIsAdjacent(cfg: Setting, conversation: seq<Item>)
    requires Obeys(Adjacency, conversation)
    ensures DroppedIds(Adjacency, RecentMessages(cfg, conversation), {}) == []
  {
    var b := BoundaryOf(cfg, conversation, |conversation|);
    TailKeepsAdjacency(cfg, conversation, b);
    MessagesKeepAdjacency(conversation[b..], {});
  }

  /** Strict adjacency of calls and results survives compaction. */
  lemma CompactionKeepsAdjacency(cfg: Setting, conversation: seq<Item>, input: Input)
    requires ContextOf(cfg, conversation, input) && Obeys(Adjacency, conversation)
    ensures Obeys(Adjacency, Compacted(cfg, input))
  {
    RecentIsAdjacent(cfg, conversation);
    CompactedViolations(Adjacency, cfg, input);
    NothingDroppedIffObeys(Adjacency, Compacted(cfg, input));
  }

  lemma TailKeepsAdjacency(cfg: Setting, items: seq<Item>, b: nat)
    requires Obeys(Adjacency, items) && b <= |items| && (b > 0 ==> items[b - 1].User?)
    ensures DroppedIds(Adjacency, items[b..], {}) == []
  {
    var tail := items[b..];
    forall i | 0 <= i < |tail| && tail[i].ToolResult?
      ensures AnswerableAfter(Adjacency, tail[..i], tail[i].toolCallId)
    {
      var before := items[..b + i];
      assert AnswerableAfter(Adjacency, before, items[b + i].toolCallId);
      var j :| 0 <= j < |before| && Declares(before[j], tail[i].toolCallId)
        && forall k :: j < k < |before| ==> before[k].ToolResult?;
      assert b > 0 ==> before[b - 1] == items[b - 1];
      assert Declares(tail[..i][j - b], tail[i].toolCallId);
      assert forall k :: j - b < k < i ==> tail[..i][k] == before[b + k];
    }
    NothingDroppedIffObeys(Adjacency, tail);
  }

  // ----- compaction is stable -----

  ghost predicate OnlyMessages(items: seq<Item>) {
    forall i :: 0 <= i < |items| ==>
      items[i].Assistant? || (items[i].ToolResult? && items[i].content == OMITTED && items[i].images == [])
  }

  lemma {:induction false} MessagesAreMessages(items: seq<Item>)
    ensures OnlyMessages(Messages(items))
  {
    if |items| > 0 {
      MessagesAreMessages(items[1..]);
    }
  }

  lemma {:induction false} MessagesOfMessages(items: seq<Item>, rest: seq<Item>)
    requires OnlyMessages(items) && NoResultsOrCalls(rest)
    ensures Messages(items + rest) == items
    decreases |items| + |rest|
  {
    if |items| > 0 {
      assert (items + rest)[1..] == items[1..] + rest;
      MessagesOfMessages(items[1..], rest);
      assert items == [items[0]] + items[1..];
    } else if |rest| > 0 {
      assert items + rest == rest && [] + rest[1..] == rest[1..];
      MessagesOfMessages([], rest[1..]);
    }
  }

  lemma {:induction false} MessagesSkipInert(a: seq<Item>, b: seq<Item>)
    requires NoResultsOrCalls(a)
    ensures Messages(a + b) == Messages(b)
  {
    if |a| == 0 {
      assert a + b == b;
    } else {
      assert (a + b)[1..] == a[1..] + b;
      MessagesSkipInert(a[1..], b);
    }
  }

  lemma {:induction false} BoundaryWithin(cfg: Setting, a: seq<Item>, b: seq<Item>, n: nat)
    requires n <= |a|
    ensures BoundaryOf(cfg, a + b, n) == BoundaryOf(cfg, a, n)
  {
    if n > 0 {
      assert (a + b)[n - 1] == a[n - 1];
      BoundaryWithin(cfg, a, b, n - 1);
    }
  }

  lemma {:induction false} BoundaryBehind(cfg: Setting, a: seq<Item>, b: seq<Item>, n: nat)
    requires |a| <= n <= |a + b|
    requires forall i :: 0 <= i < |b| ==> !IsRealUserTurn(cfg, b[i])
    ensures BoundaryOf(cfg, a + b, n) == BoundaryOf(cfg, a, |a|)
  {
    if n == |a| {
      BoundaryWithin(cfg, a, b, n);
    } else {
      assert (a + b)[n - 1] == b[n - 1 - |a|];
      BoundaryBehind(cfg, a, b, n - 1);
    }
  }

  lemma BoundaryOfQuery(cfg: Setting, preface: seq<Item>, query: seq<Item>)
    requires |query| <= 1 && forall i :: 0 <= i < |preface| ==> !IsRealUserTurn(cfg, preface[i])
    ensures BoundaryOf(cfg, preface + query, |preface + query|)
      == if |query| == 1 && IsRealUserTurn(cfg, query[0]) then |preface + query| else 0
  {
    var all := preface + query;
    var b := BoundaryOf(cfg, all, |all|);
    assert forall k :: 0 <= k < |preface| ==> all[k] == preface[k];
    assert |query| == 1 ==> all[|preface|] == query[0];
    assert b > 0 ==> IsRealUserTurn(cfg, all[b - 1]);
  }

  /** Whether the wrapped query is a real turn, and what it is read back as. */
  lemma WrappedQueryTurn(cfg: Setting, q: string)
    ensures var item := UserItem(Tags.WrapUserQuery(cfg.vocabulary, q), None);
      var back := Tags.ExtractUserQuery(cfg.vocabulary, Tags.WrapUserQuery(cfg.vocabulary, q));
      && QueryOf(cfg, item) == back
      && (IsRealUserTurn(cfg, item) <==> !IsSyntheticQuery(cfg, back))
  {
    var text := Tags.WrapUserQuery(cfg.vocabulary, q);
    var parts := [Text(text)];
    assert parts[1..] == [] && TextParts(parts) == [text];
    assert TextContent(parts) == text;
  }

  /** Where the rebuilt history's last real user turn is: the wrapped query, or nowhere. */
  lemma CompactedBoundary(cfg: Setting, input: Input)
    requires OnlyMessages(input.recent) && SystemLike(cfg, input.systemMessage)
    ensures var before := Preface(input) + QueryItems(cfg, input.lastQuery);
      BoundaryOf(cfg, Compacted(cfg, input), |Compacted(cfg, input)|)
        == if input.lastQuery.Some? && IsRealUserTurn(cfg, QueryItems(cfg, input.lastQuery)[0]) then |before| else 0
  {
    var before := Preface(input) + QueryItems(cfg, input.lastQuery);
    var after := input.recent + Coda(cfg, input);
    assert Compacted(cfg, input) == before + after;
    FrameIsNoUserTurn(cfg, input);
    BoundaryBehind(cfg, before, after, |before + after|);
    BoundaryOfQuery(cfg, Preface(input), QueryItems(cfg, input.lastQuery));
  }

  /** The messages extracted from a rebuilt history, from either possible boundary. */
  lemma MessagesOfCompacted(cfg: Setting, input: Input)
    requires OnlyMessages(input.recent) && SystemLike(cfg, input.systemMessage)
    ensures var before := Preface(input) + QueryItems(cfg, input.lastQuery);
      && Messages(Compacted(cfg, input)[|before|..]) == input.recent
      && Messages(Compacted(cfg, input)[0..]) == input.recent
  {
    var before := Preface(input) + QueryItems(cfg, input.lastQuery);
    var after := input.recent + Coda(cfg, input);
    FrameIsInert(cfg, input);
    assert Compacted(cfg, input) == before + after;
    MessagesOfMessages(input.recent, Coda(cfg, input));
    MessagesSkipInert(before, after);
    assert (before + after)[|before|..] == after && (before + after)[0..] == before + after;
  }

  /** Extracting the context of a rebuilt history gives back the recent messages always,
      and the last query exactly when it is absent, or non-synthetic and unchanged by
      wrapping and extracting. */
  lemma CompactionIsStable(cfg: Setting, conversation: seq<Item>, input: Input)
    requires ContextOf(cfg, conversation, input)
    ensures RecentMessages(cfg, Compacted(cfg, input)) == input.recent
    ensures LastQuery(cfg, Compacted(cfg, input)) == input.lastQuery <==>
      match input.lastQuery
      case None => true
      case Some(q) =>
        && !IsSyntheticQuery(cfg, q)
        && Tags.ExtractUserQuery(cfg.vocabulary, Tags.WrapUserQuery(cfg.vocabulary, q)) == q
  {
    MessagesAreMessages(conversation[BoundaryOf(cfg, conversation, |conversation|)..]);
    CompactedBoundary(cfg, input);
    MessagesOfCompacted(cfg, input);
    if input.lastQuery.Some? {
      WrappedQueryTurn(cfg, input.lastQuery.value);
      QueryPosition(cfg, input);
    }
  }

  lemma QueryPosition(cfg: Setting, input: Input)
    requires input.lastQuery.Some?
    ensures var before := Preface(input) + QueryItems(cfg, input.lastQuery);
      Compacted(cfg, input)[|before| - 1] == UserItem(Tags.WrapUserQuery(cfg.vocabulary, input.lastQuery.value), None)
  {
  }

  /** The same, with the condition on the query spelled out: it is not synthetic, it is
      trimmed, holds no closing query tag, and no complete system block. */
  lemma CompactionIsStableIff(cfg: Setting, conversation: seq<Item>, input: Input)
    requires ContextOf(cfg, conversation, input)
    ensures ContextOf(cfg, Compacted(cfg, input), input) <==>
      match input.lastQuery
      case None => true
      case Some(q) =>
        && !IsSyntheticQuery(cfg, q)
        && Text.Trimmed(q)
        && !Text.Contains(q, Tags.Closing(cfg.vocabulary.query))
        && Tags.NoBlocks(q, cfg.vocabulary.system)
  {
    CompactionIsStable(cfg, conversation, input);
    if input.lastQuery.Some? {
      Tags.WrapExtractRoundTrip(cfg.vocabulary, input.lastQuery.value);
    }
  }

  /** A query without angle brackets comes back exactly if it is trimmed and no internal
      prompt. */
  lemma BracketFreeIsStable(cfg: Setting, conversation: seq<Item>, input: Input, q: string)
    requires ContextOf(cfg, conversation, input) && input.lastQuery == Some(q) && '<' !in q
    ensures ContextOf(cfg, Compacted(cfg, input), input) <==> !IsSyntheticQuery(cfg, q) && Text.Trimmed(q)
  {
    CompactionIsStableIff(cfg, conversation, input);
    NoTagWithout(q, Tags.Closing(cfg.vocabulary.query));
    forall name | name in cfg.vocabulary.system
      ensures !Tags.HasBlock(q, Tags.Opening(name), Tags.Closing(name))
    {
      NoTagWithout(q, Tags.Opening(name));
    }
  }

  /** With the source's own tags and texts: which queries come back, for every context. */
  lemma SourceQueryIsStable(conversation: seq<Item>, input: Input)
    requires ContextOf(SOURCE_SETTING, conversation, input)
    ensures ContextOf(SOURCE_SETTING, Compacted(SOURCE_SETTING, input), input) <==>
      match input.lastQuery
      case None => true
      case Some(q) =>
        && q != [] && q != "__auto_continue__" && q != AUTO_CONTINUE_PROMPT
        && Text.Trimmed(q)
        && !Text.Contains(q, Tags.Closing(Tags.USER_QUERY))
        && Tags.NoBlocks(q, Tags.SOURCE_VOCABULARY.system)
  {
    CompactionIsStableIff(SOURCE_SETTING, conversation, input);
    if input.lastQuery.Some? {
      SourcePrompts(input.lastQuery.value);
    }
  }

  lemma SourcePrompts(q: string)
    ensures IsSyntheticQuery(SOURCE_SETTING, q) <==> q == [] || q == "__auto_continue__" || q == AUTO_CONTINUE_PROMPT
  {
  }

  lemma NoTagWithout(q: string, tag: string)
    requires '<' !in q && tag != [] && tag[0] == '<'
    ensures !Text.Contains(q, tag)
  {
    forall i: nat ensures !Text.OccursAt(q, tag, i) {
      if i < |q| {
        assert q[i..][0] == q[i] && q[i] in q;
      }
    }
  }

  /** An image-only turn has an empty query, which the rebuilt history cannot carry: a
      second extraction finds no real user turn at all. */
  lemma ImageOnlyTurnIsForgotten(cfg: Setting, url: string, input: Input)
    requires ContextOf(cfg, [User([Image(url)], None)], input)
    ensures input.lastQuery == Some([]) && LastQuery(cfg, Compacted(cfg, input)) == None
  {
    var turn := User([Image(url)], None);
    assert turn.parts[0].Image? && TextParts(turn.parts[1..]) == [];
    assert TextContent(turn.parts) == [];
    Tags.PlainTextExtract(cfg.vocabulary, []);
    WrappedQueryTurn(cfg, []);
    Tags.WrapExtractRoundTrip(cfg.vocabulary, []);
    MessagesAreMessages([]);
    CompactedBoundary(cfg, input);
  }
}
