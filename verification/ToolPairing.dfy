/** Pairing tool results with the assistant turns that asked for them. */
module ToolPairing {
  import opened Conversation

  /** Precedence: a result follows an assistant that declares its id.
      Adjacency: it is in the run of results directly behind such an assistant. */
  datatype Rule = Precedence | Adjacency

  // ----- the rules, as statements about positions -----

  ghost predicate AnswerableAfter(rule: Rule, before: seq<Item>, id: string) {
    exists j :: 0 <= j < |before| && Declares(before[j], id)
      && (rule.Adjacency? ==> forall k :: j < k < |before| ==> before[k].ToolResult?)
  }

  ghost predicate Obeys(rule: Rule, items: seq<Item>) {
    forall i :: 0 <= i < |items| && items[i].ToolResult? ==>
      AnswerableAfter(rule, items[..i], items[i].toolCallId)
  }

  // ----- the scan each function makes -----

  /** The ids that may be answered after `item`, when `ids` may be before it. */
  function Next(rule: Rule, ids: set<string>, item: Item): set<string> {
    match item
    case Assistant(_, calls) => if rule.Adjacency? then CallIds(calls) else ids + CallIds(calls)
    case ToolResult(_, _, _) => ids
    case _ => if rule.Adjacency? then {} else ids
  }

  predicate Stays(item: Item, ids: set<string>) {
    !item.ToolResult? || item.toolCallId in ids
  }

  function Kept(rule: Rule, items: seq<Item>, ids: set<string>): seq<Item> {
    if |items| == 0 then []
    else (if Stays(items[0], ids) then [items[0]] else []) + Kept(rule, items[1..], Next(rule, ids, items[0]))
  }

  function DroppedIds(rule: Rule, items: seq<Item>, ids: set<string>): seq<string> {
    if |items| == 0 then []
    else (if Stays(items[0], ids) then [] else [items[0].toolCallId])
         + DroppedIds(rule, items[1..], Next(rule, ids, items[0]))
  }

  /** What a scan has kept and dropped before `i`, and what is yet to come. */
  ghost predicate Scanned(rule: Rule, items: seq<Item>, i: nat, ids: set<string>, kept: seq<Item>, dropped: seq<string>)
    requires i <= |items|
  {
    && Kept(rule, items, {}) == kept + Kept(rule, items[i..], ids)
    && DroppedIds(rule, items, {}) == dropped + DroppedIds(rule, items[i..], ids)
  }

  lemma ScanStarts(rule: Rule, items: seq<Item>)
    ensures Scanned(rule, items, 0, {}, [], [])
  {
    assert items[0..] == items;
  }

  lemma MoveOver<T>(a: seq<T>, x: T, b: seq<T>)
    ensures a + ([x] + b) == (a + [x]) + b
  {
  }

  lemma ScanStep(rule: Rule, items: seq<Item>, i: nat, ids: set<string>, kept: seq<Item>, dropped: seq<string>)
    requires i < |items| && Scanned(rule, items, i, ids, kept, dropped)
    ensures Scanned(rule, items, i + 1, Next(rule, ids, items[i]),
                    if Stays(items[i], ids) then kept + [items[i]] else kept,
                    if Stays(items[i], ids) then dropped else dropped + [items[i].toolCallId])
  {
    var tail, next := items[i..], Next(rule, ids, items[i]);
    assert tail[0] == items[i] && tail[1..] == items[i + 1..];
    if Stays(items[i], ids) {
      MoveOver(kept, items[i], Kept(rule, items[i + 1..], next));
    } else {
      MoveOver(dropped, items[i].toolCallId, DroppedIds(rule, items[i + 1..], next));
    }
  }

  lemma ScanEnds(rule: Rule, items: seq<Item>, ids: set<string>, kept: seq<Item>, dropped: seq<string>)
    requires Scanned(rule, items, |items|, ids, kept, dropped)
    ensures kept == Kept(rule, items, {}) && dropped == DroppedIds(rule, items, {})
  {
    assert items[|items|..] == [];
  }

  method StripDisplacedToolResults(items: seq<Item>) returns (kept: seq<Item>, stripped: seq<string>)
    ensures kept == Kept(Adjacency, items, {})
    ensures stripped == DroppedIds(Adjacency, items, {})
  {
    kept, stripped := [], [];
    var runIds: set<string> := {};
    ScanStarts(Adjacency, items);
    for i := 0 to |items|
      invariant Scanned(Adjacency, items, i, runIds, kept, stripped)
    {
      ScanStep(Adjacency, items, i, runIds, kept, stripped);
      match items[i] {
        case Assistant(_, calls) =>
          runIds := CallIds(calls);
          kept := kept + [items[i]];
        case ToolResult(id, _, _) =>
          if id in runIds {
            kept := kept + [items[i]];
          } else {
            stripped := stripped + [id];
          }
        case _ =>
          runIds := {};
          kept := kept + [items[i]];
      }
    }
    ScanEnds(Adjacency, items, runIds, kept, stripped);
  }

  method SanitizeCompactedHistory(items: seq<Item>) returns (kept: seq<Item>, stripped: seq<string>)
    ensures kept == Kept(Precedence, items, {})
    ensures stripped == DroppedIds(Precedence, items, {})
  {
    kept, stripped := [], [];
    var seenIds: set<string> := {};
    ScanStarts(Precedence, items);
    for i := 0 to |items|
      invariant Scanned(Precedence, items, i, seenIds, kept, stripped)
    {
      ScanStep(Precedence, items, i, seenIds, kept, stripped);
      match items[i] {
        case Assistant(_, calls) =>
          seenIds := seenIds + CallIds(calls);
          kept := kept + [items[i]];
        case ToolResult(id, _, _) =>
          if id in seenIds {
            kept := kept + [items[i]];
          } else {
            stripped := stripped + [id];
          }
        case _ =>
          kept := kept + [items[i]];
      }
    }
    ScanEnds(Precedence, items, seenIds, kept, stripped);
  }

  method ValidateCompactedHistory(items: seq<Item>) returns (invalid: seq<string>)
    ensures invalid == DroppedIds(Precedence, items, {})
  {
    invalid := [];
    var seenIds: set<string> := {};
    ghost var kept: seq<Item> := [];
    ScanStarts(Precedence, items);
    for i := 0 to |items|
      invariant Scanned(Precedence, items, i, seenIds, kept, invalid)
    {
      ScanStep(Precedence, items, i, seenIds, kept, invalid);
      kept := if Stays(items[i], seenIds) then kept + [items[i]] else kept;
      match items[i] {
        case Assistant(_, calls) =>
          seenIds := seenIds + CallIds(calls);
        case ToolResult(id, _, _) =>
          if id !in seenIds {
            invalid := invalid + [id];
          }
        case _ =>
      }
    }
    ScanEnds(Precedence, items, seenIds, kept, invalid);
  }

  // ----- the scan decides the positional rule -----

  ghost predicate AnswerableExactly(rule: Rule, before: seq<Item>, ids: set<string>) {
    forall id :: id in ids <==> AnswerableAfter(rule, before, id)
  }

  lemma AnswerableStep(rule: Rule, before: seq<Item>, item: Item, id: string)
    ensures AnswerableAfter(rule, before + [item], id) <==>
      || Declares(item, id)
      || ((item.ToolResult? || rule.Precedence?) && AnswerableAfter(rule, before, id))
  {
    var after := before + [item];
    assert after[|before|] == item;
    if AnswerableAfter(rule, before, id) {
      var j :| 0 <= j < |before| && Declares(before[j], id)
        && (rule.Adjacency? ==> forall k :: j < k < |before| ==> before[k].ToolResult?);
      assert Declares(after[j], id) && forall k :: j < k < |before| ==> after[k] == before[k];
    }
    if AnswerableAfter(rule, after, id) {
      var j :| 0 <= j < |after| && Declares(after[j], id)
        && (rule.Adjacency? ==> forall k :: j < k < |after| ==> after[k].ToolResult?);
      assert j < |before| ==> Declares(before[j], id);
      assert forall k :: j < k < |before| ==> after[k] == before[k];
    }
  }

  lemma NextIsAnswerable(rule: Rule, before: seq<Item>, ids: set<string>, item: Item)
    requires AnswerableExactly(rule, before, ids)
    ensures AnswerableExactly(rule, before + [item], Next(rule, ids, item))
  {
    forall id ensures id in Next(rule, ids, item) <==> AnswerableAfter(rule, before + [item], id) {
      AnswerableStep(rule, before, item, id);
    }
  }

  lemma {:induction false} ScanDecides(rule: Rule, before: seq<Item>, items: seq<Item>, ids: set<string>)
    requires AnswerableExactly(rule, before, ids)
    ensures DroppedIds(rule, items, ids) == [] <==>
      forall i :: |before| <= i < |before + items| && (before + items)[i].ToolResult? ==>
        AnswerableAfter(rule, (before + items)[..i], (before + items)[i].toolCallId)
    decreases |items|
  {
    if |items| != 0 {
      var all := before + items;
      NextIsAnswerable(rule, before, ids, items[0]);
      ScanDecides(rule, before + [items[0]], items[1..], Next(rule, ids, items[0]));
      assert before + [items[0]] + items[1..] == all;
      assert all[|before|] == items[0] && all[..|before|] == before;
    }
  }

  /** Nothing is dropped exactly when every result obeys the rule; for Precedence this is
      what `validate_compacted_history` reporting nothing means. */
  lemma NothingDroppedIffObeys(rule: Rule, items: seq<Item>)
    ensures DroppedIds(rule, items, {}) == [] <==> Obeys(rule, items)
  {
    ScanDecides(rule, [], items, {});
    assert [] + items == items;
  }

  // ----- what is kept is the largest subsequence that obeys the rule -----

  /** The subsequence a mask selects. */
  ghost function Selected(items: seq<Item>, mask: seq<bool>): seq<Item>
    requires |mask| == |items|
  {
    if |items| == 0 then []
    else (if mask[0] then [items[0]] else []) + Selected(items[1..], mask[1..])
  }

  ghost function KeepMask(rule: Rule, items: seq<Item>, ids: set<string>): (mask: seq<bool>)
    ensures |mask| == |items|
  {
    if |items| == 0 then []
    else [Stays(items[0], ids)] + KeepMask(rule, items[1..], Next(rule, ids, items[0]))
  }

  ghost predicate SparesNonResults(items: seq<Item>, mask: seq<bool>) {
    |mask| == |items| && forall i :: 0 <= i < |items| && !items[i].ToolResult? ==> mask[i]
  }

  ghost predicate Below(a: seq<bool>, b: seq<bool>) {
    |a| == |b| && forall i :: 0 <= i < |a| && a[i] ==> b[i]
  }

  lemma {:induction false} KeepMaskSpares(rule: Rule, items: seq<Item>, ids: set<string>)
    ensures SparesNonResults(items, KeepMask(rule, items, ids))
    decreases |items|
  {
    if |items| != 0 {
      KeepMaskSpares(rule, items[1..], Next(rule, ids, items[0]));
      var mask := KeepMask(rule, items, ids);
      assert mask[1..] == KeepMask(rule, items[1..], Next(rule, ids, items[0]));
      assert forall i :: 0 < i < |items| ==> items[i] == items[1..][i - 1] && mask[i] == mask[1..][i - 1];
    }
  }

  lemma {:induction false} KeptIsClean(rule: Rule, items: seq<Item>, ids: set<string>)
    ensures DroppedIds(rule, Kept(rule, items, ids), ids) == []
    decreases |items|
  {
    if |items| != 0 {
      KeptIsClean(rule, items[1..], Next(rule, ids, items[0]));
      var rest := Kept(rule, items[1..], Next(rule, ids, items[0]));
      assert ([items[0]] + rest)[1..] == rest && [] + rest == rest;
    }
  }

  lemma {:induction false} KeptIsSelected(rule: Rule, items: seq<Item>, ids: set<string>)
    ensures Kept(rule, items, ids) == Selected(items, KeepMask(rule, items, ids))
    decreases |items|
  {
    if |items| != 0 {
      KeptIsSelected(rule, items[1..], Next(rule, ids, items[0]));
      assert KeepMask(rule, items, ids)[1..] == KeepMask(rule, items[1..], Next(rule, ids, items[0]));
    }
  }

  lemma SparesTail(items: seq<Item>, mask: seq<bool>)
    requires |items| > 0 && SparesNonResults(items, mask)
    ensures SparesNonResults(items[1..], mask[1..])
  {
  }

  lemma SelectedTail(rule: Rule, items: seq<Item>, ids: set<string>, mask: seq<bool>)
    requires |items| > 0 && SparesNonResults(items, mask) && DroppedIds(rule, Selected(items, mask), ids) == []
    ensures mask[0] ==> Stays(items[0], ids)
    ensures DroppedIds(rule, Selected(items[1..], mask[1..]), Next(rule, ids, items[0])) == []
  {
    var rest := Selected(items[1..], mask[1..]);
    assert ([items[0]] + rest)[1..] == rest && [] + rest == rest;
  }

  lemma BelowCons(a: seq<bool>, b: seq<bool>)
    requires |a| > 0 && |b| > 0 && (a[0] ==> b[0]) && Below(a[1..], b[1..])
    ensures Below(a, b)
  {
    assert forall i :: 0 < i < |a| ==> a[i] == a[1..][i - 1] && b[i] == b[1..][i - 1];
  }

  lemma {:induction false} KeepMaskIsGreatest(rule: Rule, items: seq<Item>, ids: set<string>, mask: seq<bool>)
    requires SparesNonResults(items, mask) && DroppedIds(rule, Selected(items, mask), ids) == []
    ensures Below(mask, KeepMask(rule, items, ids))
  {
    if |items| != 0 {
      SparesTail(items, mask);
      SelectedTail(rule, items, ids, mask);
      KeepMaskIsGreatest(rule, items[1..], Next(rule, ids, items[0]), mask[1..]);
      assert KeepMask(rule, items, ids)[1..] == KeepMask(rule, items[1..], Next(rule, ids, items[0]));
      BelowCons(mask, KeepMask(rule, items, ids));
    }
  }

  lemma {:induction false} BelowSameSize(items: seq<Item>, a: seq<bool>, b: seq<bool>)
    requires Below(a, b) && |a| == |items|
    ensures |Selected(items, a)| <= |Selected(items, b)|
    ensures |Selected(items, a)| == |Selected(items, b)| ==> a == b
  {
    if |items| != 0 {
      assert forall i :: 0 <= i < |a[1..]| ==> a[1..][i] == a[i + 1] && b[1..][i] == b[i + 1];
      BelowSameSize(items[1..], a[1..], b[1..]);
      assert a == [a[0]] + a[1..] && b == [b[0]] + b[1..];
    }
  }

  /** What is kept has every item that is not a result, obeys the rule, contains every
      other such subsequence, and is the only one of its size. */
  lemma KeptIsLargest(rule: Rule, items: seq<Item>)
    ensures var best := KeepMask(rule, items, {});
      && Kept(rule, items, {}) == Selected(items, best)
      && SparesNonResults(items, best)
      && Obeys(rule, Selected(items, best))
      && forall mask :: SparesNonResults(items, mask) && Obeys(rule, Selected(items, mask)) ==>
           && Below(mask, best)
           && (|Selected(items, mask)| == |Selected(items, best)| ==> mask == best)
  {
    var best := KeepMask(rule, items, {});
    KeptIsSelected(rule, items, {});
    KeepMaskSpares(rule, items, {});
    KeptIsClean(rule, items, {});
    NothingDroppedIffObeys(rule, Selected(items, best));
    forall mask | SparesNonResults(items, mask) && Obeys(rule, Selected(items, mask))
      ensures Below(mask, best) && (|Selected(items, mask)| == |Selected(items, best)| ==> mask == best)
    {
      NothingDroppedIffObeys(rule, Selected(items, mask));
      KeepMaskIsGreatest(rule, items, {}, mask);
      BelowSameSize(items, mask, best);
    }
  }

  lemma {:induction false} NothingDroppedIsKept(rule: Rule, items: seq<Item>, ids: set<string>)
    ensures DroppedIds(rule, items, ids) == [] <==> Kept(rule, items, ids) == items
    ensures |Kept(rule, items, ids)| <= |items|
  {
    if |items| != 0 {
      NothingDroppedIsKept(rule, items[1..], Next(rule, ids, items[0]));
      assert [items[0]] + items[1..] == items;
    }
  }

  /** A history is left alone exactly when it obeys the rule, so a second pass changes
      nothing and finds nothing. */
  lemma KeepingIsIdempotent(rule: Rule, items: seq<Item>)
    ensures Kept(rule, items, {}) == items <==> Obeys(rule, items)
    ensures var once := Kept(rule, items, {});
      Kept(rule, once, {}) == once && DroppedIds(rule, once, {}) == []
  {
    NothingDroppedIffObeys(rule, items);
    NothingDroppedIsKept(rule, items, {});
    KeptIsClean(rule, items, {});
    NothingDroppedIsKept(rule, Kept(rule, items, {}), {});
  }

  /** Adjacency is the stricter rule, so what stripping leaves also validates. */
  lemma StrippedValidates(items: seq<Item>)
    ensures Obeys(Adjacency, items) ==> Obeys(Precedence, items)
    ensures DroppedIds(Precedence, Kept(Adjacency, items, {}), {}) == []
  {
    AdjacencyIsStricter(items);
    var once := Kept(Adjacency, items, {});
    KeepingIsIdempotent(Adjacency, items);
    NothingDroppedIffObeys(Adjacency, once);
    AdjacencyIsStricter(once);
    NothingDroppedIffObeys(Precedence, once);
  }

  lemma AdjacencyIsStricter(items: seq<Item>)
    ensures Obeys(Adjacency, items) ==> Obeys(Precedence, items)
  {
    if Obeys(Adjacency, items) {
      forall i | 0 <= i < |items| && items[i].ToolResult?
        ensures AnswerableAfter(Precedence, items[..i], items[i].toolCallId)
      {
        assert AnswerableAfter(Adjacency, items[..i], items[i].toolCallId);
      }
    }
  }
}
