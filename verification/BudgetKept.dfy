/** What a fitted conversation is made of: its System head, its newest items, its texts. */
module BudgetKept {
  import opened Decimal
  import opened Conversation
  import opened Truncation
  import opened BudgetFit

  // ----- a truncated item -----

  /** `out` is `text` within `bytes` bytes: the text itself, or as many whole characters as
      leave 64 bytes free, and the count of the bytes that are left out. */
  ghost predicate Cut(text: string, bytes: nat, out: string) {
    if ByteLen(text) <= bytes then out == text
    else exists k: nat :: LongestWithin(text, if bytes < 64 then 0 else bytes - 64, k) && CutAt(text, k, out)
  }

  ghost predicate CutAt(text: string, k: nat, out: string) {
    k <= |text| && out == text[..k] + ("\n[... truncated " + Render(ByteLen(text[k..])) + " bytes to fit the compaction window ...]")
  }

  lemma TruncatedIsCut(text: string, bytes: nat)
    ensures Cut(text, bytes, TruncatedOrWhole(text, bytes))
  {
    CharsWithinIsLongest(text, KeepBytes(bytes));
    if ByteLen(text) > bytes {
      assert CutAt(text, CharsWithin(text, KeepBytes(bytes)), TruncatedOrWhole(text, bytes));
    }
  }

  ghost predicate PartIsCut(part: ContentPart, bytes: nat, out: ContentPart) {
    match part
    case Text(text) => out.Text? && Cut(text, bytes, out.text)
    case Image(_) => out == part
  }

  /** Each text of the item is cut to four bytes for each token, and the rest is kept. */
  ghost predicate ItemIsCut(item: Item, tokens: nat, out: Item) {
    match item
    case ToolResult(id, content, images) =>
      out.ToolResult? && out.toolCallId == id && out.images == images && Cut(content, 4 * tokens, out.content)
    case Assistant(content, calls) => out.Assistant? && out.toolCalls == calls && Cut(content, 4 * tokens, out.content)
    case User(parts, synthetic) =>
      && out.User? && out.synthetic == synthetic && |out.parts| == |parts|
      && forall i :: 0 <= i < |parts| ==> PartIsCut(parts[i], 4 * tokens, out.parts[i])
    case _ => out == item
  }

  lemma TruncatedItemIsCut(item: Item, tokens: nat)
    requires 4 * tokens <= 0xFFFF_FFFF_FFFF_FFFF
    ensures ItemIsCut(item, tokens, TruncateItem(item, tokens))
  {
    match item
    case ToolResult(_, content, _) => TruncatedIsCut(content, 4 * tokens);
    case Assistant(content, _) => TruncatedIsCut(content, 4 * tokens);
    case User(parts, _) =>
      forall i | 0 <= i < |parts| ensures PartIsCut(parts[i], 4 * tokens, TruncateParts(parts, 4 * tokens)[i]) {
        if parts[i].Text? {
          TruncatedIsCut(parts[i].text, 4 * tokens);
        }
      }
    case _ =>
  }

  // ----- the System head -----

  /** A leading System item always stays first, and behind it the newest other items, each at
      most shortened; it goes only with the whole conversation. */
  lemma SystemHeadStays(cost: Cost, conversation: seq<Item>, maxTokens: nat)
    requires conversation != [] && conversation[0].System?
    ensures var fitted := Fitted(cost, conversation, maxTokens);
      && fitted != [] && fitted[0] == conversation[0]
      && ShortenedTail(conversation[1..], fitted[1..])
      && (|conversation| > 1 ==> |fitted| > 1)
  {
    FitKeepsNewest(cost, conversation, maxTokens);
    var tail := FittedTail(cost, conversation, maxTokens);
    assert ([conversation[0]] + tail)[1..] == tail && conversation[..1] == [conversation[0]];
  }

  /** Without one, the newest items are left, and an empty conversation alone leaves none. */
  lemma HeadlessFit(cost: Cost, conversation: seq<Item>, maxTokens: nat)
    requires conversation != [] ==> !conversation[0].System?
    ensures ShortenedTail(conversation, Fitted(cost, conversation, maxTokens))
    ensures conversation != [] ==> Fitted(cost, conversation, maxTokens) != []
  {
    FitKeepsNewest(cost, conversation, maxTokens);
    assert conversation[0..] == conversation;
    assert [] + FittedTail(cost, conversation, maxTokens) == FittedTail(cost, conversation, maxTokens);
  }

  /** The first place from `lo` on where no result stands and everything behind fits. */
  ghost predicate CutPoint(cost: Cost, items: seq<Item>, lo: nat, budget: nat, s: nat) {
    && lo <= s < |items| && !items[s].ToolResult? && Total(cost, items[s..]) <= budget
    && forall j :: lo <= j < s ==> items[j].ToolResult? || Total(cost, items[j..]) > budget
  }

  lemma SuffixCutIsFirst(cost: Cost, body: seq<Item>, budget: nat, s: nat)
    requires CutPoint(cost, body, 0, budget, s)
    ensures SuffixCut(cost, body, budget) == s
  {
    var start := GreedyStart(cost, body, |body|, budget);
    assert body[|body|..] == [];
    GreedyIsLongest(cost, body, |body|, budget, budget);
    SuffixPathIff(cost, body, budget);
    assert start <= s;
  }

  lemma CutPointShifts(cost: Cost, items: seq<Item>, budget: nat, s: nat)
    requires CutPoint(cost, items, 1, budget, s)
    ensures CutPoint(cost, items[1..], 0, budget, s - 1)
  {
    var body := items[1..];
    assert forall j :: 0 <= j < |body| ==> body[j] == items[j + 1] && body[j..] == items[j + 1..];
  }

  /** Over budget: the System item, and everything from the first place on at which what is
      left of the budget suffices. */
  lemma SystemAndNewest(cost: Cost, conversation: seq<Item>, maxTokens: nat, s: nat)
    requires conversation != [] && conversation[0].System? && Total(cost, conversation) > maxTokens
    requires CutPoint(cost, conversation, 1, SaturatingSub(maxTokens, cost(conversation[0])), s)
    ensures Fitted(cost, conversation, maxTokens) == [conversation[0]] + conversation[s..]
  {
    var head, body := [conversation[0]], conversation[1..];
    var budget := SaturatingSub(maxTokens, cost(conversation[0]));
    assert conversation[..1] == head && head[1..] == [] && Total(cost, head) == cost(conversation[0]);
    CutPointShifts(cost, conversation, budget, s);
    SuffixCutIsFirst(cost, body, budget, s - 1);
    assert body[s - 1..] == conversation[s..];
  }

  lemma NewestWithoutSystem(cost: Cost, conversation: seq<Item>, maxTokens: nat, s: nat)
    requires conversation != [] && !conversation[0].System? && Total(cost, conversation) > maxTokens
    requires CutPoint(cost, conversation, 0, maxTokens, s)
    ensures Fitted(cost, conversation, maxTokens) == conversation[s..]
  {
    assert conversation[0..] == conversation && [] + conversation[s..] == conversation[s..];
    SuffixCutIsFirst(cost, conversation, maxTokens, s);
  }

  // ----- the recovered tail -----

  lemma {:induction false} TailIs(body: seq<Item>, k: nat, end: nat)
    requires k <= end <= |body| && forall i :: k <= i < end ==> body[i].ToolResult?
    requires k > 0 ==> !body[k - 1].ToolResult?
    ensures TailStart(body, end) == k
    decreases end
  {
    if k < end {
      TailIs(body, k, end - 1);
    }
  }

  /** The last item alone, cut to the budget, if it is no result. */
  lemma LastIsRecovered(cost: Cost, front: seq<Item>, last: Item, budget: nat)
    requires !last.ToolResult?
    ensures Recovered(cost, front + [last], budget) == [TruncateItem(last, budget)]
  {
    TailIs(front + [last], |front| + 1, |front| + 1);
  }

  ghost predicate EachCut(results: seq<Item>, share: nat, out: seq<Item>) {
    |out| == |results| && forall i :: 0 <= i < |results| ==> out[i] == TruncateItem(results[i], share)
  }

  /** An equal share for each of `n`, and one token at least. */
  ghost predicate EvenShare(left: nat, n: nat, share: nat) {
    if left < n then share == 1 else share * n <= left < (share + 1) * n
  }

  lemma ShareIsEven(budget: nat, ownerCost: nat, n: nat)
    requires n > 0
    ensures EvenShare(SaturatingSub(budget, ownerCost), n, Share(budget, ownerCost, n))
  {
    var left := SaturatingSub(budget, ownerCost);
    var share := left / n;
    assert left == share * n + left % n;
    if left < n {
      SmallShare(share, n, left);
    } else {
      SmallShare(0, n, left);
    }
  }

  lemma SmallShare(share: nat, n: nat, left: nat)
    ensures share >= 1 ==> share * n >= n
  {
  }

  lemma TruncatedAllAreCut(results: seq<Item>, share: nat)
    ensures EachCut(results, share, TruncateAll(results, share))
  {
  }

  /** Where the trailing results begin, and whose they are. */
  lemma TrailingResults(front: seq<Item>, results: seq<Item>)
    requires front != [] ==> !front[|front| - 1].ToolResult?
    requires results != [] && forall i :: 0 <= i < |results| ==> results[i].ToolResult?
    ensures var body := front + results;
      && TailStart(body, |body|) == |front| < |body| && body[|front|..] == results
      && OwnerOf(body, |front|) == OwnerOf(front, |front|)
  {
    TailIs(front + results, |front|, |front + results|);
  }

  lemma RecoveredUnit(cost: Cost, body: seq<Item>, budget: nat)
    requires TailStart(body, |body|) < |body|
    ensures var k := TailStart(body, |body|);
      Recovered(cost, body, budget) == Unit(body, k, Share(budget, Total(cost, OwnerOf(body, k)), |body| - k))
  {
  }

  lemma UnitIs(body: seq<Item>, k: nat, owner: seq<Item>, results: seq<Item>, share: nat)
    requires k <= |body| && OwnerOf(body, k) == owner && body[k..] == results
    ensures Unit(body, k, share) == owner + TruncateAll(results, share)
  {
  }

  lemma SharedOut(cost: Cost, front: seq<Item>, owner: seq<Item>, results: seq<Item>, budget: nat)
    requires front != [] ==> !front[|front| - 1].ToolResult?
    requires results != [] && forall i :: 0 <= i < |results| ==> results[i].ToolResult?
    requires owner == OwnerOf(front, |front|)
    ensures Recovered(cost, front + results, budget)
         == owner + TruncateAll(results, Share(budget, Total(cost, owner), |results|))
  {
    TrailingResults(front, results);
    RecoveredUnit(cost, front + results, budget);
    UnitIs(front + results, |front|, owner, results, Share(budget, Total(cost, owner), |results|));
  }

  /** The assistant that called for the trailing results stays whole, and they share what it
      leaves equally, with one token each at least. */
  lemma ResultsAreRecovered(cost: Cost, front: seq<Item>, owner: Item, results: seq<Item>, budget: nat)
    returns (share: nat)
    requires owner.Assistant? && owner.toolCalls != []
    requires results != [] && forall i :: 0 <= i < |results| ==> results[i].ToolResult?
    ensures EvenShare(if cost(owner) <= budget then budget - cost(owner) else 0, |results|, share)
    ensures var out := Recovered(cost, front + [owner] + results, budget);
      out != [] && out[0] == owner && EachCut(results, share, out[1..])
  {
    assert [owner][1..] == [] && Total(cost, [owner]) == cost(owner);
    SharedOut(cost, front + [owner], [owner], results, budget);
    share := Share(budget, cost(owner), |results|);
    ShareIsEven(budget, cost(owner), |results|);
    TruncatedAllAreCut(results, share);
    assert ([owner] + TruncateAll(results, share))[1..] == TruncateAll(results, share);
  }

  /** Behind anything else the results share the whole budget. */
  lemma OrphansAreRecovered(cost: Cost, front: seq<Item>, results: seq<Item>, budget: nat) returns (share: nat)
    requires var last := if front == [] then System([]) else front[|front| - 1];
      !last.ToolResult? && (last.Assistant? ==> last.toolCalls == [])
    requires results != [] && forall i :: 0 <= i < |results| ==> results[i].ToolResult?
    ensures EvenShare(budget, |results|, share)
    ensures EachCut(results, share, Recovered(cost, front + results, budget))
  {
    SharedOut(cost, front, [], results, budget);
    share := Share(budget, 0, |results|);
    ShareIsEven(budget, 0, |results|);
    TruncatedAllAreCut(results, share);
    Nothing(TruncateAll(results, share));
  }

  lemma Nothing(items: seq<Item>)
    ensures [] + items == items
  {
  }
}
