/** The token estimate that budgets are measured with, and when a fitted conversation is
    within its budget under it. */
module TokenEstimate {
  import opened Wrappers
  import opened Conversation
  import opened Truncation
  import opened BudgetFit
  import opened Decimal

  const IMAGE_TOKENS: nat := 765

  function ArgumentBytes(calls: seq<ToolCall>): nat {
    if |calls| == 0 then 0 else ByteLen(calls[0].arguments) + ArgumentBytes(calls[1..])
  }

  function TextBytes(parts: seq<ContentPart>): nat {
    if |parts| == 0 then 0
    else (if parts[0].Text? then ByteLen(parts[0].text) else 0) + TextBytes(parts[1..])
  }

  function Images(parts: seq<ContentPart>): nat {
    if |parts| == 0 then 0 else (if parts[0].Image? then 1 else 0) + Images(parts[1..])
  }

  /** `estimate_item_tokens`: a token for every four bytes, and a flat count for images. */
  function Estimate(item: Item): nat {
    match item
    case System(content) => ByteLen(content) / 4
    case User(parts, _) => TextBytes(parts) / 4 + IMAGE_TOKENS * Images(parts)
    case Assistant(content, calls) => (ByteLen(content) + ArgumentBytes(calls)) / 4
    case ToolResult(_, content, _) => ByteLen(content) / 4
    case BackendToolCall(summary) => ByteLen(summary) / 4
    case Reasoning(text, encrypted) => (ByteLen(text) + ByteLen(encrypted)) / 4
  }

  /** A text or an argument counts by its bytes, four to a token, and an image as 765. */
  lemma {:induction false} PartsAdd(parts: seq<ContentPart>, part: ContentPart)
    ensures TextBytes(parts + [part]) == TextBytes(parts) + if part.Text? then ByteLen(part.text) else 0
    ensures Images(parts + [part]) == Images(parts) + if part.Image? then 1 else 0
    decreases |parts|
  {
    if |parts| == 0 {
      assert parts + [part] == [part] && [part][1..] == [];
    } else {
      assert (parts + [part])[1..] == parts[1..] + [part];
      PartsAdd(parts[1..], part);
    }
  }

  lemma ImageAdds(parts: seq<ContentPart>, url: string, synthetic: Option<SyntheticReason>)
    ensures Estimate(User(parts + [Image(url)], synthetic)) == Estimate(User(parts, synthetic)) + 765
  {
    PartsAdd(parts, Image(url));
  }

  lemma {:induction false} CallAdds(calls: seq<ToolCall>, call: ToolCall)
    ensures ArgumentBytes(calls + [call]) == ArgumentBytes(calls) + ByteLen(call.arguments)
    decreases |calls|
  {
    if |calls| == 0 {
      assert calls + [call] == [call] && [call][1..] == [];
    } else {
      assert (calls + [call])[1..] == calls[1..] + [call];
      CallAdds(calls[1..], call);
    }
  }

  /** So it is read off the bytes: of the texts, or of the content and the arguments. */
  lemma TextsAdd(text: string, more: string, call: ToolCall, synthetic: Option<SyntheticReason>)
    ensures Estimate(User([Text(text), Text(more)], synthetic)) == (ByteLen(text) + ByteLen(more)) / 4
    ensures Estimate(Assistant(text, [call])) == (ByteLen(text) + ByteLen(call.arguments)) / 4
  {
    PartsAdd([], Text(text));
    PartsAdd([Text(text)], Text(more));
    CallAdds([], call);
    assert [] + [Text(text)] == [Text(text)] && [Text(text)] + [Text(more)] == [Text(text), Text(more)];
    assert [] + [call] == [call];
  }

  // ----- the bytes of a truncated text -----

  function Kept(text: string, maxBytes: nat): nat {
    ByteLen(text[..CharsWithin(text, KeepBytes(maxBytes))])
  }

  function Dropped(text: string, maxBytes: nat): nat {
    ByteLen(text[CharsWithin(text, KeepBytes(maxBytes))..])
  }

  /** The bytes a text has left, from its own bytes: its kept prefix, the 56 fixed bytes of
      the marker, and the digits of the dropped count. */
  function BytesAfter(text: string, maxBytes: nat): nat {
    if ByteLen(text) <= maxBytes then ByteLen(text)
    else Kept(text, maxBytes) + 56 + |Render(Dropped(text, maxBytes))|
  }

  lemma BytesOfTruncated(text: string, maxBytes: nat)
    ensures ByteLen(TruncatedOrWhole(text, maxBytes)) == BytesAfter(text, maxBytes)
  {
    if ByteLen(text) > maxBytes {
      MarkedBytes(text[..CharsWithin(text, KeepBytes(maxBytes))], Dropped(text, maxBytes));
    }
  }

  /** There is room for the marker behind a kept prefix, digits included. */
  ghost predicate RoomForMarker(kept: nat, dropped: nat, maxBytes: nat) {
    kept + 56 < maxBytes && dropped < Pow10(maxBytes - 56 - kept)
  }

  lemma MarkerRoom(kept: nat, dropped: nat, maxBytes: nat)
    ensures kept + 56 + |Render(dropped)| <= maxBytes <==> RoomForMarker(kept, dropped, maxBytes)
  {
    RenderIsDigits(dropped);
    if kept + 56 < maxBytes {
      DigitCount(dropped, maxBytes - 56 - kept);
    }
  }

  /** A text is within its limit afterwards exactly if it was before or its marker fits. */
  lemma TextFitsIff(text: string, maxBytes: nat)
    ensures BytesAfter(text, maxBytes) <= maxBytes
      <==> ByteLen(text) <= maxBytes || RoomForMarker(Kept(text, maxBytes), Dropped(text, maxBytes), maxBytes)
  {
    var kept, dropped := Kept(text, maxBytes), Dropped(text, maxBytes);
    MarkerRoom(kept, dropped, maxBytes);
  }

  // ----- the tokens of a truncated item -----

  function PartBytesAfter(parts: seq<ContentPart>, maxBytes: nat): nat {
    if |parts| == 0 then 0
    else (if parts[0].Text? then BytesAfter(parts[0].text, maxBytes) else 0) + PartBytesAfter(parts[1..], maxBytes)
  }

  /** What an item costs after truncation, from the item itself. */
  function TokensAfter(item: Item, maxTokens: nat): nat {
    var maxBytes := MaxBytes(maxTokens);
    match item
    case ToolResult(_, content, _) => BytesAfter(content, maxBytes) / 4
    case Assistant(content, calls) => (BytesAfter(content, maxBytes) + ArgumentBytes(calls)) / 4
    case User(parts, _) => PartBytesAfter(parts, maxBytes) / 4 + IMAGE_TOKENS * Images(parts)
    case _ => Estimate(item)
  }

  lemma {:induction false} PartsOfTruncated(parts: seq<ContentPart>, maxBytes: nat)
    ensures TextBytes(TruncateParts(parts, maxBytes)) == PartBytesAfter(parts, maxBytes)
    ensures Images(TruncateParts(parts, maxBytes)) == Images(parts)
  {
    if |parts| > 0 {
      PartsOfTruncated(parts[1..], maxBytes);
      assert TruncateParts(parts, maxBytes)[1..] == TruncateParts(parts[1..], maxBytes);
      if parts[0].Text? {
        BytesOfTruncated(parts[0].text, maxBytes);
      }
    }
  }

  lemma EstimateOfTruncated(item: Item, maxTokens: nat)
    ensures Estimate(TruncateItem(item, maxTokens)) == TokensAfter(item, maxTokens)
  {
    var maxBytes := MaxBytes(maxTokens);
    match item
    case ToolResult(_, content, _) => BytesOfTruncated(content, maxBytes);
    case Assistant(content, _) => BytesOfTruncated(content, maxBytes);
    case User(parts, _) => PartsOfTruncated(parts, maxBytes);
    case _ =>
  }

  // ----- the tokens of a recovered tail -----

  function SumAfter(items: seq<Item>, maxTokens: nat): nat {
    if |items| == 0 then 0 else TokensAfter(items[0], maxTokens) + SumAfter(items[1..], maxTokens)
  }

  lemma {:induction false} TotalOfTruncated(items: seq<Item>, maxTokens: nat)
    ensures Total(Estimate, TruncateAll(items, maxTokens)) == SumAfter(items, maxTokens)
  {
    if |items| > 0 {
      TotalOfTruncated(items[1..], maxTokens);
      EstimateOfTruncated(items[0], maxTokens);
      assert TruncateAll(items, maxTokens)[1..] == TruncateAll(items[1..], maxTokens);
    }
  }

  /** The owner's tokens and the trailing results', each cut to its share. */
  function UnitTokens(body: seq<Item>, k: nat, share: nat): nat
    requires k <= |body|
  {
    Total(Estimate, OwnerOf(body, k)) + SumAfter(body[k..], share)
  }

  /** What the recovered tail costs, from the body itself. */
  function RecoveredTokens(body: seq<Item>, budget: nat): nat {
    var k := TailStart(body, |body|);
    if k == |body| then (if k == 0 then 0 else TokensAfter(body[k - 1], budget))
    else UnitTokens(body, k, Share(budget, Total(Estimate, OwnerOf(body, k)), |body| - k))
  }

  lemma TokensOfUnit(body: seq<Item>, k: nat, share: nat)
    requires k <= |body|
    ensures Total(Estimate, Unit(body, k, share)) == UnitTokens(body, k, share)
  {
    TotalConcat(Estimate, OwnerOf(body, k), TruncateAll(body[k..], share));
    TotalOfTruncated(body[k..], share);
  }

  lemma TokensOfOne(item: Item)
    ensures Total(Estimate, [item]) == Estimate(item)
  {
    assert [item][1..] == [];
  }

  lemma TokensOfRecovered(body: seq<Item>, budget: nat)
    ensures Total(Estimate, Recovered(Estimate, body, budget)) == RecoveredTokens(body, budget)
  {
    var k := TailStart(body, |body|);
    if k == |body| {
      if k > 0 {
        TokensOfOne(TruncateItem(body[k - 1], budget));
        EstimateOfTruncated(body[k - 1], budget);
      }
    } else {
      TokensOfUnit(body, k, Share(budget, Total(Estimate, OwnerOf(body, k)), |body| - k));
    }
  }

  // ----- when a fitted conversation is within its budget -----

  /** Exactly if nothing had to go, or the head fits and either some suffix fits beside it
      or the truncated tail does, by the bytes its texts have left. */
  lemma FitsBudgetIff(conversation: seq<Item>, maxTokens: nat)
    ensures var head, body := Head(conversation), Body(conversation);
      var budget := SaturatingSub(maxTokens, Total(Estimate, head));
      Total(Estimate, Fitted(Estimate, conversation, maxTokens)) <= maxTokens <==>
        || Total(Estimate, conversation) <= maxTokens
        || (&& Total(Estimate, head) <= maxTokens
            && (SomeSuffixFits(Estimate, body, budget) || RecoveredTokens(body, budget) <= budget))
  {
    FittedFitsIff(Estimate, conversation, maxTokens);
    TokensOfRecovered(Body(conversation), SaturatingSub(maxTokens, Total(Estimate, Head(conversation))));
  }

  /** An owner over the budget always takes the tail over it. */
  lemma OwnerOverBudgetExceeds(body: seq<Item>, budget: nat)
    requires TailStart(body, |body|) < |body|
    requires Total(Estimate, OwnerOf(body, TailStart(body, |body|))) > budget
    ensures RecoveredTokens(body, budget) > budget
  {
  }

  /** No text that has to be cut fits a budget below fourteen tokens: the marker alone
      does not. */
  lemma MarkerNeedsFourteen(text: string, maxTokens: nat)
    requires maxTokens < 14 && ByteLen(text) > 4 * maxTokens
    ensures BytesAfter(text, MaxBytes(maxTokens)) / 4 >= 14
  {
    RenderIsDigits(Dropped(text, MaxBytes(maxTokens)));
  }

  /** Every result's dropped bytes have at most eight digits. */
  ghost predicate FewDropped(items: seq<Item>, maxTokens: nat) {
    forall i :: 0 <= i < |items| ==>
      items[i].ToolResult? && Dropped(items[i].content, MaxBytes(maxTokens)) < 1_0000_0000
  }

  lemma RoomyTextFits(text: string, maxTokens: nat)
    requires maxTokens >= 16 && Dropped(text, MaxBytes(maxTokens)) < 1_0000_0000
    ensures BytesAfter(text, MaxBytes(maxTokens)) / 4 <= maxTokens
  {
    var maxBytes := MaxBytes(maxTokens);
    if ByteLen(text) > maxBytes {
      ByteLenSplit(text, CharsWithin(text, KeepBytes(maxBytes)));
      TruncationFits(text, maxBytes);
      BytesOfTruncated(text, maxBytes);
    }
  }

  lemma {:induction false} RoomyResultsFit(results: seq<Item>, share: nat)
    requires share >= 16 && FewDropped(results, share)
    ensures SumAfter(results, share) <= share * |results|
  {
    if |results| > 0 {
      var rest := results[1..];
      assert forall i :: 0 <= i < |rest| ==> rest[i] == results[i + 1];
      RoomyResultsFit(rest, share);
      RoomyTextFits(results[0].content, share);
      TimesNext(share, |rest|);
    }
  }

  lemma TimesNext(share: nat, n: nat)
    ensures share * (n + 1) == share + share * n
  {
  }

  lemma ShareIsFair(budget: nat, owner: nat, n: nat)
    requires n > 0 && owner + 16 * n <= budget
    ensures Share(budget, owner, n) >= 16 && owner + Share(budget, owner, n) * n <= budget
  {
    var room := budget - owner;
    var share := room / n;
    assert room == share * n + room % n;
    TimesGrows(share, 15, n);
  }

  lemma TimesGrows(a: nat, b: nat, n: nat)
    ensures a <= b ==> a * n <= b * n
  {
  }

  lemma RoomyUnitFits(body: seq<Item>, k: nat, share: nat, budget: nat)
    requires k <= |body| && share >= 16 && FewDropped(body[k..], share)
    requires Total(Estimate, OwnerOf(body, k)) + share * (|body| - k) <= budget
    ensures UnitTokens(body, k, share) <= budget
  {
    RoomyResultsFit(body[k..], share);
  }

  /** The owner leaves sixteen tokens for each result, and no result loses 10^8 bytes or
      more at its share of what it leaves. */
  ghost predicate Roomy(body: seq<Item>, k: nat, budget: nat)
    requires k < |body|
  {
    var owner := Total(Estimate, OwnerOf(body, k));
    owner + 16 * (|body| - k) <= budget && FewDropped(body[k..], Share(budget, owner, |body| - k))
  }

  lemma RoomyShareFits(body: seq<Item>, k: nat, budget: nat)
    requires k < |body| && Roomy(body, k, budget)
    ensures UnitTokens(body, k, Share(budget, Total(Estimate, OwnerOf(body, k)), |body| - k)) <= budget
  {
    var owner := Total(Estimate, OwnerOf(body, k));
    ShareIsFair(budget, owner, |body| - k);
    RoomyUnitFits(body, k, Share(budget, owner, |body| - k), budget);
  }

  lemma RoomyTailFits(body: seq<Item>, budget: nat)
    requires var k := TailStart(body, |body|); k < |body| && Roomy(body, k, budget)
    ensures RecoveredTokens(body, budget) <= budget
  {
    RoomyShareFits(body, TailStart(body, |body|), budget);
  }

  /** The promise can fail, and the result can even be larger than what was to shrink: any
      lone user text over a budget of at most thirteen tokens is replaced by fourteen or
      more. */
  lemma LoneTextExceeds(text: string, maxTokens: nat)
    requires ByteLen(text) / 4 > maxTokens && maxTokens < 14
    ensures Total(Estimate, Fitted(Estimate, [User([Text(text)], None)], maxTokens)) >= 14 > maxTokens
  {
    var item := User([Text(text)], None);
    assert item.parts[1..] == [];
    LoneItem(Estimate, item, maxTokens);
    TokensOfOne(TruncateItem(item, maxTokens));
    EstimateOfTruncated(item, maxTokens);
    MarkerNeedsFourteen(text, maxTokens);
  }

  /** Eight bytes, two tokens, do not fit one token and come out as fourteen or more. */
  lemma FitMayExceedBudget()
    ensures var conversation := [User([Text("aaaaaaaa")], None)];
      && Total(Estimate, conversation) == 2
      && Total(Estimate, Fitted(Estimate, conversation, 1)) >= 14
  {
    var text: AsciiText := "aaaaaaaa";
    AsciiBytes(text);
    var item := User([Text(text)], None);
    assert item.parts[1..] == [];
    TokensOfOne(item);
    LoneTextExceeds(text, 1);
  }
}
