/** The billing ledger: saturating totals, overall and by model. */
module Usage {
  import opened Wrappers

  const U64_MAX: nat := 0xFFFF_FFFF_FFFF_FFFF
  const I64_MAX: int := 0x7FFF_FFFF_FFFF_FFFF
  const I64_MIN: int := -0x8000_0000_0000_0000

  type U64 = x: nat | x <= U64_MAX
  type U32 = x: nat | x <= 0xFFFF_FFFF
  type I64 = x: int | I64_MIN <= x <= I64_MAX

  function SatAdd(a: U64, b: U64): U64 {
    if a + b > U64_MAX then U64_MAX else a + b
  }

  function SatAddI64(a: I64, b: I64): I64 {
    if a + b > I64_MAX then I64_MAX else if a + b < I64_MIN then I64_MIN else a + b
  }

  datatype Totals = Totals(
    inputTokens: U64,
    outputTokens: U64,
    cachedReadTokens: U64,
    reasoningTokens: U64,
    modelCalls: U64,
    apiDurationMs: U64,
    costUsdTicks: Option<I64>,
    costMissingCalls: U64)

  const ZERO := Totals(0, 0, 0, 0, 0, 0, None, 0)

  function MergeCostTicks(a: Option<I64>, b: Option<I64>): Option<I64> {
    if a.None? && b.None? then None
    else Some(SatAddI64(if a.Some? then a.value else 0, if b.Some? then b.value else 0))
  }

  /** `fold_totals` */
  function FoldTotals(a: Totals, b: Totals): Totals {
    Totals(
      SatAdd(a.inputTokens, b.inputTokens),
      SatAdd(a.outputTokens, b.outputTokens),
      SatAdd(a.cachedReadTokens, b.cachedReadTokens),
      SatAdd(a.reasoningTokens, b.reasoningTokens),
      SatAdd(a.modelCalls, b.modelCalls),
      SatAdd(a.apiDurationMs, b.apiDurationMs),
      MergeCostTicks(a.costUsdTicks, b.costUsdTicks),
      SatAdd(a.costMissingCalls, b.costMissingCalls))
  }

  datatype TokenUsage = TokenUsage(prompt: U32, completion: U32, cachedPrompt: U32, reasoning: U32)

  datatype Call = Call(model: string, usage: TokenUsage, apiDurationMs: Option<U64>, costTicks: Option<I64>)

  /** `from_call`; only a positive cost counts as reported. */
  function FromCall(call: Call): Totals {
    var cost := if call.costTicks.Some? && call.costTicks.value > 0 then call.costTicks else None;
    Totals(call.usage.prompt, call.usage.completion, call.usage.cachedPrompt, call.usage.reasoning, 1,
           if call.apiDurationMs.Some? then call.apiDurationMs.value else 0,
           cost, if cost.None? then 1 else 0)
  }

  // ----- the ledger -----

  /** One folded entry. */
  datatype Entry = Entry(model: string, totals: Totals)

  /** `models` lists the models in insertion order, as the index map keeps them. */
  datatype Ledger = Ledger(
    totals: Totals,
    models: seq<string>,
    byModel: map<string, Totals>,
    mainLoopModelCalls: U64,
    incomplete: bool)

  const EMPTY_LEDGER := Ledger(ZERO, [], map[], 0, false)

  function FoldEntry(l: Ledger, e: Entry): Ledger {
    var before := if e.model in l.byModel then l.byModel[e.model] else ZERO;
    l.(totals := FoldTotals(l.totals, e.totals),
       models := if e.model in l.byModel then l.models else l.models + [e.model],
       byModel := l.byModel[e.model := FoldTotals(before, e.totals)])
  }

  function FoldEntries(l: Ledger, es: seq<Entry>): Ledger {
    if |es| == 0 then l else FoldEntry(FoldEntries(l, es[..|es| - 1]), es[|es| - 1])
  }

  datatype Record =
    | MainLoopCall(call: Call)
    | Subagent(entries: seq<Entry>, partial: bool)
    | MarkedIncomplete

  function EntriesOf(r: Record): seq<Entry> {
    match r
    case MainLoopCall(call) => [Entry(call.model, FromCall(call))]
    case Subagent(entries, _) => entries
    case MarkedIncomplete => []
  }

  function Recorded(l: Ledger, r: Record): Ledger {
    match r
    case MainLoopCall(call) =>
      FoldEntry(l.(mainLoopModelCalls := SatAdd(l.mainLoopModelCalls, 1)), Entry(call.model, FromCall(call)))
    case Subagent(entries, partial) =>
      var folded := FoldEntries(l, entries);
      folded.(incomplete := folded.incomplete || partial)
    case MarkedIncomplete => l.(incomplete := true)
  }

  class UsageLedger {
    var totals: Totals
    var models: seq<string>
    var byModel: map<string, Totals>
    var mainLoopModelCalls: U64
    var incomplete: bool

    function Contents(): Ledger
      reads this
    {
      Ledger(totals, models, byModel, mainLoopModelCalls, incomplete)
    }

    constructor ()
      ensures Contents() == EMPTY_LEDGER
    {
      totals, models, byModel, mainLoopModelCalls, incomplete := ZERO, [], map[], 0, false;
    }

    method FoldOne(model: string, t: Totals)
      modifies this
      ensures Contents() == FoldEntry(old(Contents()), Entry(model, t))
    {
      totals := FoldTotals(totals, t);
      if model !in byModel {
        models := models + [model];
        byModel := byModel[model := ZERO];
      }
      byModel := byModel[model := FoldTotals(byModel[model], t)];
    }

    method RecordMainLoopCall(call: Call)
      modifies this
      ensures Contents() == Recorded(old(Contents()), MainLoopCall(call))
    {
      mainLoopModelCalls := SatAdd(mainLoopModelCalls, 1);
      FoldOne(call.model, FromCall(call));
    }

    method RecordSubagent(entries: seq<Entry>, partial: bool)
      modifies this
      ensures Contents() == Recorded(old(Contents()), Subagent(entries, partial))
    {
      for i := 0 to |entries|
        invariant Contents() == FoldEntries(old(Contents()), entries[..i])
      {
        assert entries[..i + 1][..i] == entries[..i];
        FoldOne(entries[i].model, entries[i].totals);
      }
      assert entries[..|entries|] == entries;
      if partial {
        incomplete := true;
      }
    }

    method MarkIncomplete()
      modifies this
      ensures Contents() == Recorded(old(Contents()), MarkedIncomplete)
    {
      incomplete := true;
    }
  }

  // ----- exact sums -----

  /** The summed fields of a total. */
  datatype Counter = Input | Output | CachedRead | Reasoning | Calls | Duration | CostMissing | CostTicks

  /** A missing cost counts as zero; so does a negative one, which the lemmas exclude. */
  function Get(t: Totals, c: Counter): nat {
    match c
    case Input => t.inputTokens
    case Output => t.outputTokens
    case CachedRead => t.cachedReadTokens
    case Reasoning => t.reasoningTokens
    case Calls => t.modelCalls
    case Duration => t.apiDurationMs
    case CostMissing => t.costMissingCalls
    case CostTicks => if t.costUsdTicks.Some? && t.costUsdTicks.value > 0 then t.costUsdTicks.value else 0
  }

  function Cap(c: Counter): nat {
    if c.CostTicks? then I64_MAX else U64_MAX
  }

  function Capped(n: nat, c: Counter): nat {
    if n > Cap(c) then Cap(c) else n
  }

  ghost predicate NonNegative(t: Totals) {
    t.costUsdTicks.Some? ==> t.costUsdTicks.value >= 0
  }

  /** Costs are asked to be non-negative only where costs are counted. */
  ghost predicate Fits(t: Totals, c: Counter) {
    c.CostTicks? ==> NonNegative(t)
  }

  ghost predicate AllFit(es: seq<Entry>, c: Counter) {
    forall i :: 0 <= i < |es| ==> Fits(es[i].totals, c)
  }

  lemma FoldIsCapped(a: Totals, b: Totals, c: Counter)
    requires Fits(a, c) && Fits(b, c)
    ensures Get(FoldTotals(a, b), c) == Capped(Get(a, c) + Get(b, c), c)
    ensures Fits(FoldTotals(a, b), c)
  {
    match c
    case Input =>
    case Output =>
    case CachedRead =>
    case Reasoning =>
    case Calls =>
    case Duration =>
    case CostMissing =>
    case CostTicks =>
  }

  /** The unbounded sum of a counter over a list of entries. */
  ghost function Sum(es: seq<Entry>, c: Counter): nat {
    if |es| == 0 then 0 else Sum(es[..|es| - 1], c) + Get(es[|es| - 1].totals, c)
  }

  ghost function SumOf(es: seq<Entry>, model: string, c: Counter): nat {
    if |es| == 0 then 0
    else SumOf(es[..|es| - 1], model, c) + if es[|es| - 1].model == model then Get(es[|es| - 1].totals, c) else 0
  }

  ghost predicate Mentions(es: seq<Entry>, model: string) {
    exists i :: 0 <= i < |es| && es[i].model == model
  }

  ghost function ModelGet(byModel: map<string, Totals>, model: string, c: Counter): nat {
    if model in byModel then Get(byModel[model], c) else 0
  }

  lemma CappedTwice(sum: nat, more: nat, c: Counter)
    ensures Capped(Capped(sum, c) + more, c) == Capped(sum + more, c)
  {
  }

  lemma SumStep(es: seq<Entry>, e: Entry, model: string, c: Counter)
    ensures Sum(es + [e], c) == Sum(es, c) + Get(e.totals, c)
    ensures SumOf(es + [e], model, c) == SumOf(es, model, c) + if e.model == model then Get(e.totals, c) else 0
  {
    assert (es + [e])[..|es|] == es;
  }

  /** A total agrees with the entries counted in it. */
  ghost predicate TotalSums(t: Totals, es: seq<Entry>, c: Counter) {
    Fits(t, c) && Get(t, c) == Capped(Sum(es, c), c)
  }

  /** A model's total agrees with the entries of that model. */
  ghost predicate ModelSums(byModel: map<string, Totals>, es: seq<Entry>, model: string, c: Counter) {
    && (model in byModel <==> Mentions(es, model))
    && (model in byModel ==> Fits(byModel[model], c))
    && ModelGet(byModel, model, c) == Capped(SumOf(es, model, c), c)
  }

  lemma TotalStep(t: Totals, es: seq<Entry>, e: Entry, c: Counter)
    requires TotalSums(t, es, c) && Fits(e.totals, c)
    ensures TotalSums(FoldTotals(t, e.totals), es + [e], c)
  {
    FoldIsCapped(t, e.totals, c);
    CappedTwice(Sum(es, c), Get(e.totals, c), c);
    SumStep(es, e, e.model, c);
  }

  lemma ModelStep(byModel: map<string, Totals>, es: seq<Entry>, e: Entry, model: string, c: Counter)
    requires ModelSums(byModel, es, model, c) && Fits(e.totals, c)
    ensures var before := if e.model in byModel then byModel[e.model] else ZERO;
      ModelSums(byModel[e.model := FoldTotals(before, e.totals)], es + [e], model, c)
  {
    MentionsStep(es, e, model);
    SumStep(es, e, model, c);
    if e.model == model {
      FoldIsCapped(if model in byModel then byModel[model] else ZERO, e.totals, c);
      CappedTwice(SumOf(es, model, c), Get(e.totals, c), c);
    }
  }

  lemma {:induction false} SumsFrom(start: Ledger, es: seq<Entry>, model: string, c: Counter)
    requires AllFit(es, c)
    requires TotalSums(start.totals, [], c) && ModelSums(start.byModel, [], model, c)
    ensures var l := FoldEntries(start, es);
      TotalSums(l.totals, es, c) && ModelSums(l.byModel, es, model, c)
  {
    if |es| > 0 {
      var init, e := es[..|es| - 1], es[|es| - 1];
      assert es == init + [e];
      SumsFrom(start, init, model, c);
      TotalStep(FoldEntries(start, init).totals, init, e, c);
      ModelStep(FoldEntries(start, init).byModel, init, e, model, c);
    }
  }

  /** Each total is the capped sum of all entries, each model's of its own; the models
      listed are those mentioned. */
  lemma FoldedTotals(es: seq<Entry>, model: string, c: Counter)
    requires AllFit(es, c)
    ensures var l := FoldEntries(EMPTY_LEDGER, es);
      TotalSums(l.totals, es, c) && ModelSums(l.byModel, es, model, c)
  {
    SumsFrom(EMPTY_LEDGER, es, model, c);
  }

  lemma MentionsStep(es: seq<Entry>, e: Entry, model: string)
    ensures Mentions(es + [e], model) <==> Mentions(es, model) || e.model == model
  {
    assert (es + [e])[|es|] == e;
    if Mentions(es, model) {
      var i :| 0 <= i < |es| && es[i].model == model;
      assert (es + [e])[i].model == model;
    }
  }

  // ----- the total against the models -----

  ghost function SumOverModels(l: Ledger, models: seq<string>, c: Counter): nat
    requires forall m <- models :: m in l.byModel
  {
    if |models| == 0 then 0
    else SumOverModels(l, models[..|models| - 1], c) + Get(l.byModel[models[|models| - 1]], c)
  }

  ghost predicate ListsModels(l: Ledger) {
    && (forall m :: m in l.models <==> m in l.byModel)
    && (forall i, j :: 0 <= i < j < |l.models| ==> l.models[i] != l.models[j])
  }

  lemma {:induction false} FoldListsModels(es: seq<Entry>)
    ensures ListsModels(FoldEntries(EMPTY_LEDGER, es))
  {
    if |es| > 0 {
      FoldListsModels(es[..|es| - 1]);
    }
  }

  /** Exact sums by model add up to the exact sum. */
  ghost function SumOverExact(es: seq<Entry>, models: seq<string>, c: Counter): nat {
    if |models| == 0 then 0
    else SumOverExact(es, models[..|models| - 1], c) + SumOf(es, models[|models| - 1], c)
  }

  ghost predicate Distinct(models: seq<string>) {
    forall i, j :: 0 <= i < j < |models| ==> models[i] != models[j]
  }

  lemma {:induction false} ExactStep(es: seq<Entry>, e: Entry, models: seq<string>, c: Counter)
    requires Distinct(models)
    ensures SumOverExact(es + [e], models, c)
         == SumOverExact(es, models, c) + if e.model in models then Get(e.totals, c) else 0
  {
    if |models| > 0 {
      var init, last := models[..|models| - 1], models[|models| - 1];
      ExactStep(es, e, init, c);
      assert (es + [e])[..|es|] == es;
      assert models == init + [last];
    }
  }

  lemma {:induction false} ExactEmpty(models: seq<string>, c: Counter)
    ensures SumOverExact([], models, c) == 0
  {
    if |models| > 0 {
      ExactEmpty(models[..|models| - 1], c);
    }
  }

  lemma {:induction false} ExactSumsAddUp(es: seq<Entry>, models: seq<string>, c: Counter)
    requires Distinct(models) && forall i :: 0 <= i < |es| ==> es[i].model in models
    ensures SumOverExact(es, models, c) == Sum(es, c)
  {
    if |es| == 0 {
      ExactEmpty(models, c);
    } else {
      var init, e := es[..|es| - 1], es[|es| - 1];
      assert forall i :: 0 <= i < |init| ==> init[i] == es[i];
      ExactSumsAddUp(init, models, c);
      ExactStep(init, e, models, c);
      assert es == init + [e];
    }
  }

  /** Capping each model's sum first does not change the capped sum. */
  lemma {:induction false} CapInsideCap(es: seq<Entry>, l: Ledger, models: seq<string>, c: Counter)
    requires AllFit(es, c) && l == FoldEntries(EMPTY_LEDGER, es) && forall m <- models :: m in l.byModel
    ensures Capped(SumOverModels(l, models, c), c) == Capped(SumOverExact(es, models, c), c)
  {
    if |models| > 0 {
      CapInsideCap(es, l, models[..|models| - 1], c);
      FoldedTotals(es, models[|models| - 1], c);
      assert models[|models| - 1] in models;
    }
  }

  /** Conservation: after any entries each counter of the total is the capped sum of that
      counter over the models, and the capped sum over all entries. */
  lemma TotalsAreConserved(es: seq<Entry>, c: Counter)
    requires AllFit(es, c)
    ensures var l := FoldEntries(EMPTY_LEDGER, es);
      && (forall m <- l.models :: m in l.byModel)
      && Get(l.totals, c) == Capped(SumOverModels(l, l.models, c), c) == Capped(Sum(es, c), c)
  {
    var l := FoldEntries(EMPTY_LEDGER, es);
    FoldListsModels(es);
    FoldedTotals(es, "", c);
    CapInsideCap(es, l, l.models, c);
    forall i | 0 <= i < |es| ensures es[i].model in l.models {
      assert Mentions(es, es[i].model);
      FoldedTotals(es, es[i].model, c);
    }
    ExactSumsAddUp(es, l.models, c);
  }

  // ----- order does not matter -----

  lemma {:induction false} SumAt(es: seq<Entry>, k: nat, c: Counter, model: string)
    requires k < |es|
    ensures Sum(es, c) == Sum(Without(es, k), c) + Get(es[k].totals, c)
    ensures SumOf(es, model, c)
         == SumOf(Without(es, k), model, c) + if es[k].model == model then Get(es[k].totals, c) else 0
    decreases |es|
  {
    if k < |es| - 1 {
      var init := es[..|es| - 1];
      SumAt(init, k, c, model);
      var without := Without(es, k);
      assert without[..|without| - 1] == Without(init, k);
      assert without[|without| - 1] == es[|es| - 1];
    } else {
      assert Without(es, k) == es[..k];
    }
  }

  lemma {:induction false} SumsByContents(a: seq<Entry>, b: seq<Entry>, c: Counter, model: string)
    requires multiset(a) == multiset(b)
    ensures Sum(a, c) == Sum(b, c) && SumOf(a, model, c) == SumOf(b, model, c)
    decreases |a|
  {
    EmptyTogether(a, b);
    if |a| > 0 {
      var last := |a| - 1;
      var k := FindSame(a, last, b);
      RemoveSame(a, last, b, k);
      SumAt(a, last, c, model);
      SumAt(b, k, c, model);
      SumsByContents(Without(a, last), Without(b, k), c, model);
    }
  }

  lemma MentionsByContents(a: seq<Entry>, b: seq<Entry>, model: string)
    requires multiset(a) == multiset(b)
    ensures Mentions(a, model) ==> Mentions(b, model)
  {
    if Mentions(a, model) {
      var i :| 0 <= i < |a| && a[i].model == model;
      assert a[i] in multiset(b);
    }
  }

  lemma FitByContents(a: seq<Entry>, b: seq<Entry>, c: Counter)
    requires multiset(a) == multiset(b) && AllFit(a, c)
    ensures AllFit(b, c)
  {
    forall i | 0 <= i < |b| ensures Fits(b[i].totals, c) {
      assert b[i] in multiset(a);
    }
  }

  /** The same entries in any order leave the same counters, overall and for each model. */
  lemma OrderDoesNotMatter(a: seq<Entry>, b: seq<Entry>, c: Counter, model: string)
    requires multiset(a) == multiset(b) && AllFit(a, c)
    ensures var l, m := FoldEntries(EMPTY_LEDGER, a), FoldEntries(EMPTY_LEDGER, b);
      && Get(l.totals, c) == Get(m.totals, c)
      && (model in l.byModel <==> model in m.byModel)
      && ModelGet(l.byModel, model, c) == ModelGet(m.byModel, model, c)
  {
    FitByContents(a, b, c);
    FoldedTotals(a, model, c);
    FoldedTotals(b, model, c);
    SumsByContents(a, b, c, model);
    MentionsByContents(a, b, model);
    MentionsByContents(b, a, model);
  }

  // ----- cost ticks -----

  ghost predicate SomeCost(es: seq<Entry>) {
    exists i :: 0 <= i < |es| && es[i].totals.costUsdTicks.Some?
  }

  /** The total cost is absent exactly when no entry has one. */
  lemma {:induction false} CostIsReportedIff(es: seq<Entry>)
    ensures FoldEntries(EMPTY_LEDGER, es).totals.costUsdTicks.Some? <==> SomeCost(es)
  {
    if |es| > 0 {
      var init, e := es[..|es| - 1], es[|es| - 1];
      CostIsReportedIff(init);
      assert forall i :: 0 <= i < |init| ==> init[i] == es[i];
      assert SomeCost(es) <==> SomeCost(init) || e.totals.costUsdTicks.Some?;
    }
  }

  function CostEntry(ticks: I64): Entry {
    Entry("m", ZERO.(costUsdTicks := Some(ticks)))
  }

  /** With a negative cost the order can matter: saturation comes before or after it. */
  lemma NegativeCostsDependOnOrder()
    ensures FoldEntries(EMPTY_LEDGER, [CostEntry(I64_MAX), CostEntry(1), CostEntry(-1)]).totals.costUsdTicks
         != FoldEntries(EMPTY_LEDGER, [CostEntry(I64_MAX), CostEntry(-1), CostEntry(1)]).totals.costUsdTicks
  {
    var x, y, z := CostEntry(I64_MAX), CostEntry(1), CostEntry(-1);
    assert [x, y, z][..2] == [x, y] && [x, y][..1] == [x] && [x][..0] == [];
    assert [x, z, y][..2] == [x, z] && [x, z][..1] == [x];
    assert FoldEntries(EMPTY_LEDGER, [x]).totals.costUsdTicks == Some(I64_MAX);
    assert FoldEntries(EMPTY_LEDGER, [x, y]).totals.costUsdTicks == Some(I64_MAX);
    assert FoldEntries(EMPTY_LEDGER, [x, z]).totals.costUsdTicks == Some(I64_MAX - 1);
  }

  // ----- any sequence of records -----

  function RecordAll(l: Ledger, rs: seq<Record>): Ledger {
    if |rs| == 0 then l else Recorded(RecordAll(l, rs[..|rs| - 1]), rs[|rs| - 1])
  }

  function EntriesOfAll(rs: seq<Record>): seq<Entry> {
    if |rs| == 0 then [] else EntriesOfAll(rs[..|rs| - 1]) + EntriesOf(rs[|rs| - 1])
  }

  lemma {:induction false} FoldConcat(l: Ledger, a: seq<Entry>, b: seq<Entry>)
    ensures FoldEntries(l, a + b) == FoldEntries(FoldEntries(l, a), b)
  {
    if |b| == 0 {
      assert a + b == a;
    } else {
      FoldConcat(l, a, b[..|b| - 1]);
      assert (a + b)[..|a + b| - 1] == a + b[..|b| - 1];
    }
  }

  /** Same totals and models; the other fields may differ. */
  ghost predicate SameBill(l: Ledger, m: Ledger) {
    l.totals == m.totals && l.models == m.models && l.byModel == m.byModel
  }

  lemma {:induction false} FoldSameBill(l: Ledger, m: Ledger, es: seq<Entry>)
    requires SameBill(l, m)
    ensures SameBill(FoldEntries(l, es), FoldEntries(m, es))
    ensures FoldEntries(l, es).mainLoopModelCalls == l.mainLoopModelCalls
    ensures FoldEntries(l, es).incomplete == l.incomplete
  {
    if |es| > 0 {
      FoldSameBill(l, m, es[..|es| - 1]);
    }
  }

  /** Any sequence of records bills exactly its entries, in order. */
  lemma {:induction false} RecordsBillTheirEntries(rs: seq<Record>)
    ensures SameBill(RecordAll(EMPTY_LEDGER, rs), FoldEntries(EMPTY_LEDGER, EntriesOfAll(rs)))
  {
    if |rs| > 0 {
      var init, r := rs[..|rs| - 1], rs[|rs| - 1];
      var l := RecordAll(EMPTY_LEDGER, init);
      RecordsBillTheirEntries(init);
      FoldConcat(EMPTY_LEDGER, EntriesOfAll(init), EntriesOf(r));
      FoldSameBill(l, FoldEntries(EMPTY_LEDGER, EntriesOfAll(init)), EntriesOf(r));
      if r.MainLoopCall? {
        FoldSameBill(l.(mainLoopModelCalls := SatAdd(l.mainLoopModelCalls, 1)), l, EntriesOf(r));
        assert EntriesOf(r)[..0] == [];
      }
    }
  }

  ghost predicate SubagentsNonNegative(rs: seq<Record>) {
    forall i :: 0 <= i < |rs| && rs[i].Subagent? ==> AllFit(rs[i].entries, CostTicks)
  }

  lemma {:induction false} EntriesFit(rs: seq<Record>, c: Counter)
    requires c.CostTicks? ==> SubagentsNonNegative(rs)
    ensures AllFit(EntriesOfAll(rs), c)
  {
    if |rs| > 0 {
      var init := rs[..|rs| - 1];
      assert forall i :: 0 <= i < |init| ==> init[i] == rs[i];
      EntriesFit(init, c);
      assert AllFit(EntriesOf(rs[|rs| - 1]), c);
    }
  }

  /** Conservation over any run: every counter, and the cost while subagents report no
      negative one, is the capped sum of what was recorded, and of the models' counters.
      A ledger's own models then have no negative cost, so it may be a subagent's. */
  lemma LedgerConserves(rs: seq<Record>, c: Counter, model: string)
    requires c.CostTicks? ==> SubagentsNonNegative(rs)
    ensures var l := RecordAll(EMPTY_LEDGER, rs);
      && (forall m <- l.models :: m in l.byModel)
      && Get(l.totals, c) == Capped(Sum(EntriesOfAll(rs), c), c) == Capped(SumOverModels(l, l.models, c), c)
      && ModelSums(l.byModel, EntriesOfAll(rs), model, c)
  {
    var es := EntriesOfAll(rs);
    EntriesFit(rs, c);
    RecordsBillTheirEntries(rs);
    TotalsAreConserved(es, c);
    FoldedTotals(es, model, c);
    SumOverSameBill(RecordAll(EMPTY_LEDGER, rs), FoldEntries(EMPTY_LEDGER, es), FoldEntries(EMPTY_LEDGER, es).models, c);
  }

  lemma {:induction false} SumOverSameBill(l: Ledger, m: Ledger, models: seq<string>, c: Counter)
    requires SameBill(l, m) && forall x <- models :: x in m.byModel
    ensures SumOverModels(l, models, c) == SumOverModels(m, models, c)
  {
    if |models| > 0 {
      SumOverSameBill(l, m, models[..|models| - 1], c);
    }
  }

  lemma EntriesStep(rs: seq<Record>, r: Record)
    ensures multiset(EntriesOfAll(rs + [r])) == multiset(EntriesOfAll(rs)) + multiset(EntriesOf(r))
  {
    assert (rs + [r])[..|rs|] == rs;
  }

  /** `all` is billed what `less` is, and what `r` is. */
  ghost predicate BilledMore(all: seq<Record>, less: seq<Record>, r: Record) {
    multiset(EntriesOfAll(all)) == multiset(EntriesOfAll(less)) + multiset(EntriesOf(r))
  }

  lemma BilledMoreStep(all: seq<Record>, less: seq<Record>, r: Record, last: Record)
    requires BilledMore(all, less, r)
    ensures BilledMore(all + [last], less + [last], r)
  {
    EntriesStep(all, last);
    EntriesStep(less, last);
  }

  lemma BilledMoreAtEnd(before: seq<Record>, r: Record)
    ensures BilledMore(before + [r], before, r)
  {
    EntriesStep(before, r);
  }

  lemma {:induction false} EntriesAt(before: seq<Record>, r: Record, after: seq<Record>)
    ensures BilledMore(before + [r] + after, before + after, r)
    decreases |after|
  {
    if |after| == 0 {
      assert before + [r] + after == before + [r] && before + after == before;
      BilledMoreAtEnd(before, r);
    } else {
      var init, last := after[..|after| - 1], after[|after| - 1];
      assert before + [r] + after == (before + [r] + init) + [last];
      assert before + after == (before + init) + [last];
      EntriesAt(before, r, init);
      BilledMoreStep(before + [r] + init, before + init, r, last);
    }
  }

  lemma EntriesWithout(rs: seq<Record>, k: nat)
    requires k < |rs|
    ensures BilledMore(rs, Without(rs, k), rs[k])
  {
    var before, after := rs[..k], rs[k + 1..];
    assert rs == before + [rs[k]] + after;
    EntriesAt(before, rs[k], after);
  }

  lemma {:induction false} EntriesByContents(a: seq<Record>, b: seq<Record>)
    requires multiset(a) == multiset(b)
    ensures multiset(EntriesOfAll(a)) == multiset(EntriesOfAll(b))
    decreases |a|
  {
    EmptyTogether(a, b);
    if |a| > 0 {
      var last := |a| - 1;
      var k := FindSame(a, last, b);
      RemoveSame(a, last, b, k);
      EntriesWithout(a, last);
      EntriesWithout(b, k);
      EntriesByContents(Without(a, last), Without(b, k));
    }
  }

  /** The same records in any order leave the same bill, counter by counter. */
  lemma RecordOrderDoesNotMatter(a: seq<Record>, b: seq<Record>, c: Counter, model: string)
    requires multiset(a) == multiset(b) && (c.CostTicks? ==> SubagentsNonNegative(a))
    ensures var l, m := RecordAll(EMPTY_LEDGER, a), RecordAll(EMPTY_LEDGER, b);
      && Get(l.totals, c) == Get(m.totals, c)
      && (model in l.byModel <==> model in m.byModel)
      && ModelGet(l.byModel, model, c) == ModelGet(m.byModel, model, c)
  {
    EntriesFit(a, c);
    EntriesByContents(a, b);
    OrderDoesNotMatter(EntriesOfAll(a), EntriesOfAll(b), c, model);
    RecordsBillTheirEntries(a);
    RecordsBillTheirEntries(b);
  }

  lemma {:induction false} FoldGrowsCalls(l: Ledger, es: seq<Entry>)
    ensures FoldEntries(l, es).totals.modelCalls >= l.totals.modelCalls
    ensures FoldEntries(l, es).mainLoopModelCalls == l.mainLoopModelCalls
  {
    if |es| > 0 {
      FoldGrowsCalls(l, es[..|es| - 1]);
    }
  }

  /** The main-loop count never exceeds the number of model calls. */
  lemma {:induction false} MainLoopCallsAreModelCalls(rs: seq<Record>)
    ensures RecordAll(EMPTY_LEDGER, rs).mainLoopModelCalls <= RecordAll(EMPTY_LEDGER, rs).totals.modelCalls
  {
    if |rs| > 0 {
      var init := rs[..|rs| - 1];
      assert forall i :: 0 <= i < |init| ==> init[i] == rs[i];
      MainLoopCallsAreModelCalls(init);
      FoldGrowsCalls(RecordAll(EMPTY_LEDGER, init), EntriesOf(rs[|rs| - 1]));
    }
  }

  /** The ledger is incomplete exactly if some record said so: the flag never clears. */
  lemma {:induction false} IncompleteIffReported(rs: seq<Record>)
    ensures RecordAll(EMPTY_LEDGER, rs).incomplete <==>
      exists i :: 0 <= i < |rs| && (rs[i].MarkedIncomplete? || (rs[i].Subagent? && rs[i].partial))
  {
    if |rs| > 0 {
      var init, r := rs[..|rs| - 1], rs[|rs| - 1];
      assert forall i :: 0 <= i < |init| ==> init[i] == rs[i];
      IncompleteIffReported(init);
      var l := RecordAll(EMPTY_LEDGER, init);
      FoldSameBill(l, l, EntriesOf(r));
    }
  }
}
