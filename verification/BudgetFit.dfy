/** Shrinking a conversation to a token budget: `fit_conversation_to_budget`,
    `recover_truncated_tail_unit` and `truncate_item_to_tokens`.  The per-item estimate
    is an arbitrary function `cost`. */
module BudgetFit {
  import opened Conversation
  import opened ToolPairing
  import opened Truncation

  type Cost = Item -> nat

  function Total(cost: Cost, items: seq<Item>): nat {
    if |items| == 0 then 0 else cost(items[0]) + Total(cost, items[1..])
  }

  function SaturatingSub(a: nat, b: nat): nat {
    if a < b then 0 else a - b
  }

  // ----- truncate_item_to_tokens -----

  const USIZE_MAX: nat := 0xFFFF_FFFF_FFFF_FFFF

  function MaxBytes(maxTokens: nat): nat {
    if 4 * maxTokens > USIZE_MAX then USIZE_MAX else 4 * maxTokens
  }

  function TruncatedOrWhole(text: string, maxBytes: nat): string {
    match TruncatedText(text, maxBytes)
    case None => text
    case Some(t) => t
  }

  function TruncateParts(parts: seq<ContentPart>, maxBytes: nat): (r: seq<ContentPart>)
    ensures |r| == |parts|
  {
    seq(|parts|, i requires 0 <= i < |parts| =>
      match parts[i]
      case Text(t) => Text(TruncatedOrWhole(t, maxBytes))
      case Image(_) => parts[i])
  }

  function TruncateItem(item: Item, maxTokens: nat): Item {
    var maxBytes := MaxBytes(maxTokens);
    match item
    case ToolResult(id, content, images) => ToolResult(id, TruncatedOrWhole(content, maxBytes), images)
    case Assistant(content, calls) => Assistant(TruncatedOrWhole(content, maxBytes), calls)
    case User(parts, synthetic) => User(TruncateParts(parts, maxBytes), synthetic)
    case _ => item
  }

  /** Same kind of item, with the same structural fields. */
  ghost predicate SameShape(a: Item, b: Item) {
    match a
    case ToolResult(id, _, images) => b.ToolResult? && b.toolCallId == id && b.images == images
    case Assistant(_, calls) => b.Assistant? && b.toolCalls == calls
    case User(parts, synthetic) =>
      && b.User? && b.synthetic == synthetic && |b.parts| == |parts|
      && forall i :: 0 <= i < |parts| ==> if parts[i].Image? then b.parts[i] == parts[i] else b.parts[i].Text?
    case _ => a == b
  }

  lemma TruncateKeepsShape(item: Item, maxTokens: nat)
    ensures SameShape(item, TruncateItem(item, maxTokens))
  {
  }

  // ----- recover_truncated_tail_unit -----

  /** Where the trailing run of results begins. */
  function TailStart(body: seq<Item>, end: nat): (k: nat)
    requires end <= |body|
    ensures k <= end
    ensures forall i :: k <= i < end ==> body[i].ToolResult?
    ensures k > 0 ==> !body[k - 1].ToolResult?
  {
    if end > 0 && body[end - 1].ToolResult? then TailStart(body, end - 1) else end
  }

  function TruncateAll(items: seq<Item>, maxTokens: nat): seq<Item> {
    seq(|items|, i requires 0 <= i < |items| => TruncateItem(items[i], maxTokens))
  }

  predicate CallsTools(item: Item) {
    item.Assistant? && item.toolCalls != []
  }

  /** The assistant right before the trailing results, if it called tools. */
  function OwnerOf(body: seq<Item>, k: nat): (owner: seq<Item>)
    requires k <= |body|
    ensures |owner| <= 1
  {
    if k > 0 && CallsTools(body[k - 1]) then [body[k - 1]] else []
  }

  /** The trailing results from `k` on, each cut to `share` tokens, behind their owner. */
  function Unit(body: seq<Item>, k: nat, share: nat): seq<Item>
    requires k <= |body|
  {
    OwnerOf(body, k) + TruncateAll(body[k..], share)
  }

  /** An equal share of what the owner leaves, and at least one token. */
  function Share(budget: nat, ownerCost: nat, n: nat): nat
    requires n > 0
  {
    var share := SaturatingSub(budget, ownerCost) / n;
    if share < 1 then 1 else share
  }

  function Recovered(cost: Cost, body: seq<Item>, budget: nat): seq<Item> {
    var k := TailStart(body, |body|);
    if k == |body| then
      (if k == 0 then [] else [TruncateItem(body[k - 1], budget)])
    else Unit(body, k, Share(budget, Total(cost, OwnerOf(body, k)), |body| - k))
  }

  /** Pops trailing results off `rest` into `results`. */
  method SplitTail(body: seq<Item>) returns (rest: seq<Item>, results: seq<Item>)
    ensures var k := TailStart(body, |body|); rest == body[..k] && results == body[k..]
  {
    rest, results := body, [];
    while rest != [] && rest[|rest| - 1].ToolResult?
      invariant |rest| <= |body| && rest == body[..|rest|] && results == body[|rest|..]
      invariant TailStart(body, |body|) == TailStart(body, |rest|)
    {
      results := [rest[|rest| - 1]] + results;
      rest := rest[..|rest| - 1];
    }
  }

  method RecoverTruncatedTailUnit(cost: Cost, body: seq<Item>, budget: nat) returns (unit: seq<Item>)
    ensures unit == Recovered(cost, body, budget)
  {
    var rest, results := SplitTail(body);
    if results == [] {
      if rest == [] {
        return [];
      }
      return [TruncateItem(rest[|rest| - 1], budget)];
    }
    var owner := if rest != [] && CallsTools(rest[|rest| - 1]) then [rest[|rest| - 1]] else [];
    assert owner == OwnerOf(body, |rest|);
    var per := SaturatingSub(budget, Total(cost, owner)) / |results|;
    if per < 1 {
      per := 1;
    }
    unit := owner + TruncateAll(results, per);
  }

  // ----- fit_conversation_to_budget -----

  /** The greedy walk from the end: where it stops, having `remaining` left at `i`. */
  function GreedyStart(cost: Cost, body: seq<Item>, i: nat, remaining: nat): (start: nat)
    requires i <= |body|
    ensures start <= i
  {
    if i == 0 || cost(body[i - 1]) > remaining then i
    else GreedyStart(cost, body, i - 1, remaining - cost(body[i - 1]))
  }

  function SkipResults(body: seq<Item>, start: nat): (s: nat)
    requires start <= |body|
    ensures start <= s <= |body|
    ensures forall i :: start <= i < s ==> body[i].ToolResult?
    ensures s < |body| ==> !body[s].ToolResult?
    decreases |body| - start
  {
    if start < |body| && body[start].ToolResult? then SkipResults(body, start + 1) else start
  }

  function Head(conversation: seq<Item>): seq<Item> {
    if conversation != [] && conversation[0].System? then conversation[..1] else []
  }

  function Body(conversation: seq<Item>): seq<Item> {
    conversation[|Head(conversation)|..]
  }

  function Fitted(cost: Cost, conversation: seq<Item>, maxTokens: nat): seq<Item> {
    if Total(cost, conversation) <= maxTokens then conversation
    else
      var head, body := Head(conversation), Body(conversation);
      var budget := SaturatingSub(maxTokens, Total(cost, head));
      var start := SkipResults(body, GreedyStart(cost, body, |body|, budget));
      head + if start < |body| then body[start..] else Recovered(cost, body, budget)
  }

  /** The walk from the newest item back, then past leading results. */
  method SuffixStart(cost: Cost, body: seq<Item>, budget: nat) returns (start: nat)
    ensures start == SkipResults(body, GreedyStart(cost, body, |body|, budget))
  {
    var remaining: nat, i: nat := budget, |body|;
    start := |body|;
    while i > 0
      invariant i == start <= |body|
      invariant GreedyStart(cost, body, |body|, budget) == GreedyStart(cost, body, i, remaining)
    {
      i := i - 1;
      if cost(body[i]) > remaining {
        break;
      }
      remaining := remaining - cost(body[i]);
      start := i;
    }
    ghost var greedy := GreedyStart(cost, body, |body|, budget);
    assert start == greedy;
    while start < |body| && body[start].ToolResult?
      invariant start <= |body|
      invariant SkipResults(body, greedy) == SkipResults(body, start)
    {
      start := start + 1;
    }
  }

  method FitConversationToBudget(cost: Cost, conversation: seq<Item>, maxTokens: nat) returns (fitted: seq<Item>)
    ensures fitted == Fitted(cost, conversation, maxTokens)
  {
    if Total(cost, conversation) <= maxTokens {
      return conversation;
    }
    var head, body := [], conversation;
    if body != [] && body[0].System? {
      head, body := [body[0]], body[1..];
    }
    assert head == Head(conversation) && body == Body(conversation);
    var budget := SaturatingSub(maxTokens, Total(cost, head));
    var start := SuffixStart(cost, body, budget);
    if start < |body| {
      fitted := head + body[start..];
    } else {
      var unit := RecoverTruncatedTailUnit(cost, body, budget);
      fitted := head + unit;
    }
  }

  // ----- the suffix path: the longest suffix that fits -----

  ghost predicate LongestSuffixWithin(cost: Cost, body: seq<Item>, budget: nat, start: nat) {
    && start <= |body|
    && Total(cost, body[start..]) <= budget
    && forall j :: 0 <= j < start ==> Total(cost, body[j..]) > budget
  }

  lemma {:induction false} TotalOfSuffix(cost: Cost, body: seq<Item>, j: nat, k: nat)
    requires j <= k <= |body|
    ensures Total(cost, body[k..]) <= Total(cost, body[j..])
    decreases k - j
  {
    if j < k {
      assert body[j..][1..] == body[j + 1..];
      TotalOfSuffix(cost, body, j + 1, k);
    }
  }

  lemma {:induction false} GreedyIsLongest(cost: Cost, body: seq<Item>, i: nat, remaining: nat, budget: nat)
    requires i <= |body| && Total(cost, body[i..]) + remaining == budget
    ensures LongestSuffixWithin(cost, body, budget, GreedyStart(cost, body, i, remaining))
  {
    if i > 0 {
      assert body[i - 1..][1..] == body[i..];
      if cost(body[i - 1]) > remaining {
        forall j | 0 <= j < i ensures Total(cost, body[j..]) > budget {
          TotalOfSuffix(cost, body, j, i - 1);
        }
      } else {
        GreedyIsLongest(cost, body, i - 1, remaining - cost(body[i - 1]), budget);
      }
    }
  }

  lemma {:induction false} TotalConcat(cost: Cost, a: seq<Item>, b: seq<Item>)
    ensures Total(cost, a + b) == Total(cost, a) + Total(cost, b)
  {
    if |a| == 0 {
      assert a + b == b;
    } else {
      assert (a + b)[1..] == a[1..] + b;
      TotalConcat(cost, a[1..], b);
    }
  }

  /** Under budget nothing changes.  Over budget the System head stays, followed by the
      longest body suffix that fits without its leading results, when anything is left of
      it, and the whole is within budget if the head is; otherwise by the recovered tail. */
  lemma FitKeepsLongestSuffix(cost: Cost, conversation: seq<Item>, maxTokens: nat)
    ensures Total(cost, conversation) <= maxTokens ==> Fitted(cost, conversation, maxTokens) == conversation
    ensures Total(cost, conversation) > maxTokens ==>
      var head, body := Head(conversation), Body(conversation);
      var budget := SaturatingSub(maxTokens, Total(cost, head));
      exists start :: LongestSuffixWithin(cost, body, budget, start) &&
        var s := SkipResults(body, start);
        if s < |body|
        then && Fitted(cost, conversation, maxTokens) == head + body[s..]
             && (Total(cost, head) <= maxTokens ==> Total(cost, head + body[s..]) <= maxTokens)
        else Fitted(cost, conversation, maxTokens) == head + Recovered(cost, body, budget)
  {
    if Total(cost, conversation) > maxTokens {
      var head, body := Head(conversation), Body(conversation);
      var budget := SaturatingSub(maxTokens, Total(cost, head));
      var start := GreedyStart(cost, body, |body|, budget);
      assert body[|body|..] == [];
      GreedyIsLongest(cost, body, |body|, budget, budget);
      var s := SkipResults(body, start);
      TotalOfSuffix(cost, body, start, s);
      TotalConcat(cost, head, body[s..]);
    }
  }

  // ----- adjacency survives both paths -----

  lemma SuffixKeepsAdjacency(items: seq<Item>, s: nat)
    requires Obeys(Adjacency, items) && s <= |items| && (s < |items| ==> !items[s].ToolResult?)
    ensures Obeys(Adjacency, items[s..])
  {
    var tail := items[s..];
    forall i | 0 <= i < |tail| && tail[i].ToolResult?
      ensures AnswerableAfter(Adjacency, tail[..i], tail[i].toolCallId)
    {
      var before := items[..s + i];
      assert AnswerableAfter(Adjacency, before, items[s + i].toolCallId);
      var j :| 0 <= j < |before| && Declares(before[j], tail[i].toolCallId)
        && forall k :: j < k < |before| ==> before[k].ToolResult?;
      assert before[s] == items[s];
      assert Declares(tail[..i][j - s], tail[i].toolCallId);
      assert forall k :: j - s < k < i ==> tail[..i][k] == before[s + k];
    }
  }

  /** Nothing is lost by looking further back. */
  lemma AnswerableBehind(head: seq<Item>, before: seq<Item>, id: string)
    requires AnswerableAfter(Adjacency, before, id)
    ensures AnswerableAfter(Adjacency, head + before, id)
  {
    var j :| 0 <= j < |before| && Declares(before[j], id) && forall k :: j < k < |before| ==> before[k].ToolResult?;
    assert Declares((head + before)[|head| + j], id);
  }

  lemma HeadThenBody(head: seq<Item>, rest: seq<Item>)
    requires |head| <= 1 && (|head| == 1 ==> head[0].System?) && Obeys(Adjacency, rest)
    ensures Obeys(Adjacency, head + rest)
  {
    var all := head + rest;
    forall i | 0 <= i < |all| && all[i].ToolResult?
      ensures AnswerableAfter(Adjacency, all[..i], all[i].toolCallId)
    {
      AnswerableBehind(head, rest[..i - |head|], all[i].toolCallId);
      assert all[..i] == head + rest[..i - |head|];
    }
  }

  /** In an adjacent history a trailing run of results has its owner right before it. */
  lemma {:induction false} TailHasOwner(body: seq<Item>, i: nat)
    requires Obeys(Adjacency, body) && TailStart(body, |body|) <= i < |body|
    ensures var k := TailStart(body, |body|); k > 0 && Declares(body[k - 1], body[i].toolCallId)
  {
    var k := TailStart(body, |body|);
    var before := body[..i];
    assert AnswerableAfter(Adjacency, before, body[i].toolCallId);
    var j :| 0 <= j < |before| && Declares(before[j], body[i].toolCallId)
      && forall m :: j < m < |before| ==> before[m].ToolResult?;
    assert before[j] == body[j] && j < k;
    assert before[k - 1] == body[k - 1];
  }

  lemma UnitAt(body: seq<Item>, k: nat, share: nat, i: nat)
    requires k <= |body| && i < |Unit(body, k, share)|
    ensures var owners := |OwnerOf(body, k)|;
      && |Unit(body, k, share)| == owners + (|body| - k)
      && (i < owners ==> Unit(body, k, share)[i] == body[k - 1])
      && (i >= owners ==> Unit(body, k, share)[i] == TruncateItem(body[k + i - owners], share))
  {
  }

  /** An owner followed only by results for its calls. */
  lemma RunIsAdjacent(unit: seq<Item>)
    requires |unit| > 0 && unit[0].Assistant?
    requires forall i :: 0 < i < |unit| ==> unit[i].ToolResult? && Declares(unit[0], unit[i].toolCallId)
    ensures Obeys(Adjacency, unit)
  {
    forall i | 0 <= i < |unit| && unit[i].ToolResult?
      ensures AnswerableAfter(Adjacency, unit[..i], unit[i].toolCallId)
    {
      assert Declares(unit[..i][0], unit[i].toolCallId);
    }
  }

  lemma TruncatedResult(item: Item, share: nat)
    requires item.ToolResult?
    ensures TruncateItem(item, share).ToolResult? && TruncateItem(item, share).toolCallId == item.toolCallId
  {
  }

  lemma DeclarerCallsTools(item: Item, id: string)
    requires Declares(item, id)
    ensures CallsTools(item)
  {
  }

  lemma ResultOfUnit(body: seq<Item>, k: nat, share: nat, i: nat)
    requires 0 < k <= k + i < |body| && CallsTools(body[k - 1]) && body[k + i].ToolResult?
    ensures var unit := Unit(body, k, share);
      && |unit| == |body| - k + 1 && unit[0] == body[k - 1]
      && unit[i + 1].ToolResult? && unit[i + 1].toolCallId == body[k + i].toolCallId
  {
    TruncatedResult(body[k + i], share);
    UnitAt(body, k, share, 0);
    UnitAt(body, k, share, i + 1);
  }

  lemma UnitIsAdjacent(body: seq<Item>, k: nat, share: nat)
    requires 0 < k < |body| && CallsTools(body[k - 1])
    requires forall i :: k <= i < |body| ==> body[i].ToolResult? && Declares(body[k - 1], body[i].toolCallId)
    ensures Obeys(Adjacency, Unit(body, k, share))
  {
    var unit := Unit(body, k, share);
    ResultOfUnit(body, k, share, 0);
    forall i | 0 < i < |unit| ensures unit[i].ToolResult? && Declares(unit[0], unit[i].toolCallId) {
      ResultOfUnit(body, k, share, i - 1);
    }
    RunIsAdjacent(unit);
  }

  lemma RecoveredIsAdjacent(cost: Cost, body: seq<Item>, budget: nat)
    requires Obeys(Adjacency, body)
    ensures Obeys(Adjacency, Recovered(cost, body, budget))
  {
    var k := TailStart(body, |body|);
    if k < |body| {
      forall i | k <= i < |body| ensures body[i].ToolResult? && k > 0 && Declares(body[k - 1], body[i].toolCallId) {
        TailHasOwner(body, i);
      }
      DeclarerCallsTools(body[k - 1], body[k].toolCallId);
      UnitIsAdjacent(body, k, Share(budget, Total(cost, OwnerOf(body, k)), |body| - k));
    }
  }

  /** Fitting to any budget keeps the strict pairing of calls and results. */
  lemma FitKeepsAdjacency(cost: Cost, conversation: seq<Item>, maxTokens: nat)
    requires Obeys(Adjacency, conversation)
    ensures Obeys(Adjacency, Fitted(cost, conversation, maxTokens))
  {
    if Total(cost, conversation) > maxTokens {
      var head, body := Head(conversation), Body(conversation);
      var budget := SaturatingSub(maxTokens, Total(cost, head));
      BodyIsAdjacent(conversation);
      var s := SkipResults(body, GreedyStart(cost, body, |body|, budget));
      if s < |body| {
        SuffixKeepsAdjacency(body, s);
        HeadThenBody(head, body[s..]);
      } else {
        RecoveredIsAdjacent(cost, body, budget);
        HeadThenBody(head, Recovered(cost, body, budget));
      }
    }
  }

  lemma BodyIsAdjacent(conversation: seq<Item>)
    requires Obeys(Adjacency, conversation)
    ensures Obeys(Adjacency, Body(conversation))
  {
    if Head(conversation) == [] {
      assert Body(conversation) == conversation;
    } else if |conversation| > 1 {
      assert conversation[..1][0].System?;
      assert forall id :: !AnswerableAfter(Adjacency, conversation[..1], id);
      SuffixKeepsAdjacency(conversation, 1);
    }
  }

  // ----- the newest item is never lost -----

  /** Either the item itself, or a truncation of it. */
  ghost predicate AtMostShortened(item: Item, out: Item) {
    out == item || exists budget: nat :: out == TruncateItem(item, budget)
  }

  lemma ShortenedKeepsShape(item: Item, out: Item)
    requires AtMostShortened(item, out)
    ensures SameShape(item, out)
  {
    if out != item {
      var budget: nat :| out == TruncateItem(item, budget);
      TruncateKeepsShape(item, budget);
    }
  }

  /** The last items of `items`, in order, each at most shortened. */
  ghost predicate ShortenedTail(items: seq<Item>, tail: seq<Item>) {
    |tail| <= |items|
    && forall i :: 0 <= i < |tail| ==> AtMostShortened(items[|items| - |tail| + i], tail[i])
  }

  lemma UnitIsTail(body: seq<Item>, k: nat, share: nat)
    requires k < |body|
    ensures ShortenedTail(body, Unit(body, k, share)) && Unit(body, k, share) != []
  {
    var unit := Unit(body, k, share);
    forall i | 0 <= i < |unit| ensures AtMostShortened(body[|body| - |unit| + i], unit[i]) {
      UnitAt(body, k, share, i);
    }
  }

  lemma RecoveredIsTail(cost: Cost, body: seq<Item>, budget: nat)
    ensures ShortenedTail(body, Recovered(cost, body, budget))
    ensures body != [] ==> Recovered(cost, body, budget) != []
  {
    var k := TailStart(body, |body|);
    if k < |body| {
      UnitIsTail(body, k, Share(budget, Total(cost, OwnerOf(body, k)), |body| - k));
    }
  }

  lemma SuffixIsTail(body: seq<Item>, s: nat)
    requires s <= |body|
    ensures ShortenedTail(body, body[s..])
  {
  }

  /** The part of the fitted conversation behind the System head. */
  ghost function FittedTail(cost: Cost, conversation: seq<Item>, maxTokens: nat): seq<Item> {
    var head, body := Head(conversation), Body(conversation);
    var budget := SaturatingSub(maxTokens, Total(cost, head));
    var start := SkipResults(body, GreedyStart(cost, body, |body|, budget));
    if Total(cost, conversation) <= maxTokens then body
    else if start < |body| then body[start..]
    else Recovered(cost, body, budget)
  }

  lemma TailKeepsShape(items: seq<Item>, tail: seq<Item>)
    requires ShortenedTail(items, tail)
    ensures forall i :: 0 <= i < |tail| ==> SameShape(items[|items| - |tail| + i], tail[i])
  {
    forall i | 0 <= i < |tail| ensures SameShape(items[|items| - |tail| + i], tail[i]) {
      ShortenedKeepsShape(items[|items| - |tail| + i], tail[i]);
    }
  }

  /** Whatever the budget, what is left is the System head and the newest items in order,
      each at most shortened and of the same shape; only an empty body leaves none. */
  lemma FitKeepsNewest(cost: Cost, conversation: seq<Item>, maxTokens: nat)
    ensures var body, tail := Body(conversation), FittedTail(cost, conversation, maxTokens);
      && Fitted(cost, conversation, maxTokens) == Head(conversation) + tail
      && ShortenedTail(body, tail)
      && (forall i :: 0 <= i < |tail| ==> SameShape(body[|body| - |tail| + i], tail[i]))
      && (tail == [] <==> body == [])
  {
    NewestAreLeft(cost, conversation, maxTokens);
    TailKeepsShape(Body(conversation), FittedTail(cost, conversation, maxTokens));
  }

  lemma NewestAreLeft(cost: Cost, conversation: seq<Item>, maxTokens: nat)
    ensures var tail := FittedTail(cost, conversation, maxTokens);
      && Fitted(cost, conversation, maxTokens) == Head(conversation) + tail
      && ShortenedTail(Body(conversation), tail)
      && (tail == [] <==> Body(conversation) == [])
  {
    var head, body := Head(conversation), Body(conversation);
    assert conversation == head + body;
    var budget := SaturatingSub(maxTokens, Total(cost, head));
    var s := SkipResults(body, GreedyStart(cost, body, |body|, budget));
    if Total(cost, conversation) <= maxTokens {
      SuffixIsTail(body, 0);
      assert body[0..] == body;
    } else if s < |body| {
      SuffixIsTail(body, s);
    } else {
      RecoveredIsTail(cost, body, budget);
    }
  }

  // ----- when the result fits -----

  /** Where the suffix path would cut. */
  function SuffixCut(cost: Cost, body: seq<Item>, budget: nat): (s: nat)
    ensures s <= |body|
  {
    SkipResults(body, GreedyStart(cost, body, |body|, budget))
  }

  /** Some item that is no result fits together with everything behind it. */
  ghost predicate SomeSuffixFits(cost: Cost, body: seq<Item>, budget: nat) {
    exists j :: 0 <= j < |body| && !body[j].ToolResult? && Total(cost, body[j..]) <= budget
  }

  /** The suffix path is taken exactly when some suffix that starts with no result fits. */
  lemma SuffixPathIff(cost: Cost, body: seq<Item>, budget: nat)
    ensures SuffixCut(cost, body, budget) < |body| <==> SomeSuffixFits(cost, body, budget)
    ensures Total(cost, body[SuffixCut(cost, body, budget)..]) <= budget
  {
    var start := GreedyStart(cost, body, |body|, budget);
    assert body[|body|..] == [];
    GreedyIsLongest(cost, body, |body|, budget, budget);
    TotalOfSuffix(cost, body, start, SuffixCut(cost, body, budget));
  }

  /** The result is within the budget exactly if nothing had to go, or the head fits and
      either some suffix fits beside it or the recovered tail does. */
  lemma FittedFitsIff(cost: Cost, conversation: seq<Item>, maxTokens: nat)
    ensures var head, body := Head(conversation), Body(conversation);
      var budget := SaturatingSub(maxTokens, Total(cost, head));
      Total(cost, Fitted(cost, conversation, maxTokens)) <= maxTokens <==>
        || Total(cost, conversation) <= maxTokens
        || (&& Total(cost, head) <= maxTokens
            && (SomeSuffixFits(cost, body, budget) || Total(cost, Recovered(cost, body, budget)) <= budget))
  {
    var head, body := Head(conversation), Body(conversation);
    var budget := SaturatingSub(maxTokens, Total(cost, head));
    SuffixPathIff(cost, body, budget);
    TotalConcat(cost, head, body[SuffixCut(cost, body, budget)..]);
    TotalConcat(cost, head, Recovered(cost, body, budget));
  }

  /** A lone item that is neither System nor a result is truncated to the whole budget. */
  lemma LoneItem(cost: Cost, item: Item, maxTokens: nat)
    requires !item.System? && !item.ToolResult? && cost(item) > maxTokens
    ensures Fitted(cost, [item], maxTokens) == [TruncateItem(item, maxTokens)]
  {
    var conversation := [item];
    assert Head(conversation) == [] && Body(conversation) == conversation;
    assert conversation[1..] == [] && Total(cost, conversation) == cost(item);
    assert GreedyStart(cost, conversation, 1, maxTokens) == 1;
    assert Recovered(cost, conversation, maxTokens) == [TruncateItem(item, maxTokens)];
  }
}
