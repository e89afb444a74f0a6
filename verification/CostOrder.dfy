/** When the order of recorded costs matters: saturating addition of signed costs. */
module CostOrder {
  import opened Wrappers
  import opened Usage

  // ----- the cost of a list of entries -----

  function Tick(e: Entry): I64 {
    if e.totals.costUsdTicks.Some? then e.totals.costUsdTicks.value else 0
  }

  function CostFrom(start: I64, es: seq<Entry>): I64 {
    if |es| == 0 then start else SatAddI64(CostFrom(start, es[..|es| - 1]), Tick(es[|es| - 1]))
  }

  function CostOf(es: seq<Entry>): Option<I64> {
    FoldEntries(EMPTY_LEDGER, es).totals.costUsdTicks
  }

  function Ticks(cost: Option<I64>): I64 {
    if cost.Some? then cost.value else 0
  }

  lemma {:induction false} FoldedCost(l: Ledger, es: seq<Entry>)
    ensures Ticks(FoldEntries(l, es).totals.costUsdTicks) == CostFrom(Ticks(l.totals.costUsdTicks), es)
  {
    if |es| > 0 {
      FoldedCost(l, es[..|es| - 1]);
    }
  }

  lemma {:induction false} CostConcat(start: I64, a: seq<Entry>, b: seq<Entry>)
    ensures CostFrom(start, a + b) == CostFrom(CostFrom(start, a), b)
  {
    if |b| == 0 {
      assert a + b == a;
    } else {
      CostConcat(start, a, b[..|b| - 1]);
      assert (a + b)[..|a + b| - 1] == a + b[..|b| - 1];
    }
  }

  // ----- gains and losses -----

  predicate Counts(e: Entry, gain: bool) {
    (Tick(e) >= 0) == gain
  }

  /** The exact sum of the non-negative ticks, or of the negative ones. */
  ghost function Net(es: seq<Entry>, gain: bool): int {
    if |es| == 0 then 0
    else Net(es[..|es| - 1], gain) + if Counts(es[|es| - 1], gain) then Tick(es[|es| - 1]) else 0
  }

  lemma {:induction false} NetSign(es: seq<Entry>, gain: bool)
    ensures if gain then Net(es, gain) >= 0 else Net(es, gain) <= 0
  {
    if |es| > 0 {
      NetSign(es[..|es| - 1], gain);
    }
  }

  lemma {:induction false} NetConcat(a: seq<Entry>, b: seq<Entry>, gain: bool)
    ensures Net(a + b, gain) == Net(a, gain) + Net(b, gain)
  {
    if |b| == 0 {
      assert a + b == a;
    } else {
      NetConcat(a, b[..|b| - 1], gain);
      assert (a + b)[..|a + b| - 1] == a + b[..|b| - 1];
    }
  }

  lemma NetOfOne(e: Entry, gain: bool)
    ensures Net([e], gain) == if Counts(e, gain) then Tick(e) else 0
  {
    assert [e][..0] == [];
  }

  lemma NetWithout(es: seq<Entry>, k: nat, gain: bool)
    requires k < |es|
    ensures Net(es, gain) == Net(Without(es, k), gain) + if Counts(es[k], gain) then Tick(es[k]) else 0
  {
    assert es == es[..k] + [es[k]] + es[k + 1..];
    NetConcat(es[..k] + [es[k]], es[k + 1..], gain);
    NetConcat(es[..k], [es[k]], gain);
    NetConcat(es[..k], es[k + 1..], gain);
    NetOfOne(es[k], gain);
  }

  lemma {:induction false} NetByContents(a: seq<Entry>, b: seq<Entry>, gain: bool)
    requires multiset(a) == multiset(b)
    ensures Net(a, gain) == Net(b, gain)
    decreases |a|
  {
    EmptyTogether(a, b);
    if |a| > 0 {
      var last := |a| - 1;
      var k := FindSame(a, last, b);
      RemoveSame(a, last, b, k);
      NetWithout(a, last, gain);
      NetWithout(b, k, gain);
      NetByContents(Without(a, last), Without(b, k), gain);
    }
  }

  // ----- folds without both kinds of saturation -----

  function Clamp(x: int): I64 {
    if x > I64_MAX then I64_MAX else if x < I64_MIN then I64_MIN else x
  }

  /** No entry moves the total the other way. */
  ghost predicate AllOf(es: seq<Entry>, gain: bool) {
    forall i :: 0 <= i < |es| ==> Counts(es[i], gain) || Tick(es[i]) == 0
  }

  /** With costs of one sign, only one bound can be met, and meeting it is final. */
  lemma {:induction false} OneSigned(start: I64, es: seq<Entry>, gain: bool)
    requires AllOf(es, gain)
    ensures CostFrom(start, es) == Clamp(start + Net(es, gain))
  {
    if |es| > 0 {
      var init := es[..|es| - 1];
      assert forall i :: 0 <= i < |init| ==> init[i] == es[i];
      NetSign(init, gain);
      OneSigned(start, init, gain);
    }
  }

  /** Within both bounds nothing saturates. */
  lemma {:induction false} NeverSaturates(es: seq<Entry>)
    requires Net(es, true) <= I64_MAX && Net(es, false) >= I64_MIN
    ensures CostFrom(0, es) == Net(es, true) + Net(es, false)
  {
    NetSign(es, true);
    NetSign(es, false);
    if |es| > 0 {
      NeverSaturates(es[..|es| - 1]);
    }
  }

  lemma {:induction false} NoneOf(es: seq<Entry>, gain: bool)
    requires Net(es, gain) == 0
    ensures AllOf(es, !gain)
  {
    if |es| > 0 {
      var init := es[..|es| - 1];
      NetSign(init, gain);
      NoneOf(init, gain);
      assert forall i :: 0 <= i < |init| ==> init[i] == es[i];
    }
  }

  /** Neither bound can be met from one side while there are costs of the other sign. */
  ghost predicate OrderFree(es: seq<Entry>) {
    && (Net(es, true) <= I64_MAX || Net(es, false) == 0)
    && (Net(es, false) >= I64_MIN || Net(es, true) == 0)
  }

  lemma OrderFreeCost(es: seq<Entry>)
    requires OrderFree(es)
    ensures CostFrom(0, es) == Clamp(Net(es, true) + Net(es, false))
  {
    NetSign(es, true);
    NetSign(es, false);
    if Net(es, false) == 0 {
      NoneOf(es, false);
      OneSigned(0, es, true);
    } else if Net(es, true) == 0 {
      NoneOf(es, true);
      OneSigned(0, es, false);
    } else {
      NeverSaturates(es);
    }
  }

  // ----- two orders that differ -----

  /** The entries of one kind, in order. */
  ghost function Only(es: seq<Entry>, gain: bool): seq<Entry> {
    if |es| == 0 then []
    else Only(es[..|es| - 1], gain) + if Counts(es[|es| - 1], gain) then [es[|es| - 1]] else []
  }

  lemma {:induction false} OnlyCounts(es: seq<Entry>, gain: bool)
    ensures AllOf(Only(es, gain), gain)
  {
    if |es| > 0 {
      OnlyCounts(es[..|es| - 1], gain);
    }
  }

  lemma {:induction false} NetOfOnly(es: seq<Entry>, gain: bool)
    ensures Net(Only(es, gain), gain) == Net(es, gain) && Net(Only(es, gain), !gain) == 0
  {
    if |es| > 0 {
      var init, last := es[..|es| - 1], es[|es| - 1];
      NetOfOnly(init, gain);
      if Counts(last, gain) {
        NetConcat(Only(init, gain), [last], gain);
        NetConcat(Only(init, gain), [last], !gain);
        NetOfOne(last, gain);
        NetOfOne(last, !gain);
      } else {
        assert Only(es, gain) == Only(init, gain);
      }
    }
  }

  lemma {:induction false} OnlyAt(es: seq<Entry>, gain: bool, x: Entry)
    ensures multiset(Only(es, gain))[x] == if Counts(x, gain) then multiset(es)[x] else 0
  {
    if |es| > 0 {
      var init, last := es[..|es| - 1], es[|es| - 1];
      OnlyAt(init, gain, x);
      assert es == init + [last];
      if !Counts(last, gain) {
        assert Only(es, gain) == Only(init, gain);
      }
    }
  }

  lemma OnlyContents(es: seq<Entry>, gain: bool)
    ensures multiset(InTurn(es, gain)) == multiset(es)
  {
    forall x: Entry ensures multiset(InTurn(es, gain))[x] == multiset(es)[x] {
      OnlyAt(es, gain, x);
      OnlyAt(es, !gain, x);
    }
  }

  /** The entries of one kind first, then the others. */
  ghost function InTurn(es: seq<Entry>, gain: bool): seq<Entry> {
    Only(es, gain) + Only(es, !gain)
  }

  lemma CostOfTurns(a: seq<Entry>, b: seq<Entry>, gain: bool)
    requires AllOf(a, gain) && AllOf(b, !gain)
    ensures CostFrom(0, a + b) == Clamp(Clamp(Net(a, gain)) + Net(b, !gain))
  {
    CostConcat(0, a, b);
    OneSigned(0, a, gain);
    OneSigned(Clamp(Net(a, gain)), b, !gain);
  }

  lemma CostInTurn(es: seq<Entry>, gain: bool)
    ensures CostFrom(0, InTurn(es, gain)) == Clamp(Clamp(Net(es, gain)) + Net(es, !gain))
  {
    OnlyCounts(es, gain);
    OnlyCounts(es, !gain);
    NetOfOnly(es, gain);
    NetOfOnly(es, !gain);
    CostOfTurns(Only(es, gain), Only(es, !gain), gain);
  }

  lemma TurnsDiffer(gains: int, losses: int)
    requires gains >= 0 >= losses
    requires !((gains <= I64_MAX || losses == 0) && (losses >= I64_MIN || gains == 0))
    ensures Clamp(Clamp(gains) + losses) != Clamp(Clamp(losses) + gains)
  {
  }

  // ----- the exact condition -----

  lemma CostByTicks(a: seq<Entry>, b: seq<Entry>)
    requires multiset(a) == multiset(b)
    ensures CostOf(a) == CostOf(b) <==> CostFrom(0, a) == CostFrom(0, b)
  {
    FoldedCost(EMPTY_LEDGER, a);
    FoldedCost(EMPTY_LEDGER, b);
    CostIsReportedIff(a);
    CostIsReportedIff(b);
    SomeCostByContents(a, b);
    SomeCostByContents(b, a);
  }

  lemma SomeCostByContents(a: seq<Entry>, b: seq<Entry>)
    requires multiset(a) == multiset(b)
    ensures SomeCost(a) ==> SomeCost(b)
  {
    if SomeCost(a) {
      var i :| 0 <= i < |a| && a[i].totals.costUsdTicks.Some?;
      assert a[i] in multiset(b);
    }
  }

  ghost predicate SameInEveryOrder(es: seq<Entry>) {
    forall fs: seq<Entry> :: multiset(fs) == multiset(es) ==> CostOf(fs) == CostOf(es)
  }

  lemma FreeOrder(es: seq<Entry>, fs: seq<Entry>)
    requires OrderFree(es) && multiset(fs) == multiset(es)
    ensures CostOf(fs) == CostOf(es)
  {
    NetByContents(fs, es, true);
    NetByContents(fs, es, false);
    OrderFreeCost(fs);
    OrderFreeCost(es);
    CostByTicks(fs, es);
  }

  lemma BoundOrder(es: seq<Entry>)
    requires !OrderFree(es)
    ensures CostOf(InTurn(es, true)) != CostOf(InTurn(es, false))
  {
    NetSign(es, true);
    NetSign(es, false);
    CostInTurn(es, true);
    CostInTurn(es, false);
    TurnsDiffer(Net(es, true), Net(es, false));
    OnlyContents(es, true);
    OnlyContents(es, false);
    CostByTicks(InTurn(es, true), InTurn(es, false));
  }

  /** The total cost is the same in every order exactly if the gains stay within the upper
      bound or there are no losses, and the losses within the lower or there are no gains. */
  lemma CostIsOrderFreeIff(es: seq<Entry>)
    ensures SameInEveryOrder(es) <==> OrderFree(es)
  {
    if OrderFree(es) {
      forall fs: seq<Entry> | multiset(fs) == multiset(es) ensures CostOf(fs) == CostOf(es) {
        FreeOrder(es, fs);
      }
    } else {
      BoundOrder(es);
      OnlyContents(es, true);
      OnlyContents(es, false);
    }
  }
}
