/** What a run of main-loop calls is billed, field by field. */
module CallUsage {
  import opened Wrappers
  import opened Usage

  /** The exact sums of some calls' own fields. */
  datatype Sums = Sums(
    prompt: nat, completion: nat, cachedPrompt: nat, reasoning: nat,
    calls: nat, durationMs: nat, cost: nat, withoutCost: nat)

  /** A cost counts if it is positive. */
  function Cost(c: Call): nat {
    if c.costTicks.Some? && c.costTicks.value > 0 then c.costTicks.value else 0
  }

  function Plus(s: Sums, c: Call): Sums {
    Sums(
      s.prompt + c.usage.prompt, s.completion + c.usage.completion,
      s.cachedPrompt + c.usage.cachedPrompt, s.reasoning + c.usage.reasoning,
      s.calls + 1, s.durationMs + if c.apiDurationMs.Some? then c.apiDurationMs.value else 0,
      s.cost + Cost(c), s.withoutCost + if Cost(c) == 0 then 1 else 0)
  }

  function SumsOf(calls: seq<Call>): Sums {
    if |calls| == 0 then Sums(0, 0, 0, 0, 0, 0, 0, 0) else Plus(SumsOf(calls[..|calls| - 1]), calls[|calls| - 1])
  }

  function Cap(n: nat): U64 {
    if n > 0xFFFF_FFFF_FFFF_FFFF then 0xFFFF_FFFF_FFFF_FFFF else n
  }

  function CapCost(n: nat): I64 {
    if n > 0x7FFF_FFFF_FFFF_FFFF then 0x7FFF_FFFF_FFFF_FFFF else n
  }

  /** Each total is its own field's capped sum; the cost is absent if none was reported. */
  ghost predicate Bills(t: Totals, s: Sums) {
    && t.inputTokens == Cap(s.prompt) && t.outputTokens == Cap(s.completion)
    && t.cachedReadTokens == Cap(s.cachedPrompt) && t.reasoningTokens == Cap(s.reasoning)
    && t.modelCalls == Cap(s.calls) && t.apiDurationMs == Cap(s.durationMs)
    && t.costUsdTicks == (if s.cost == 0 then None else Some(CapCost(s.cost)))
    && t.costMissingCalls == Cap(s.withoutCost)
  }

  lemma BillsNothing(calls: seq<Call>)
    requires |calls| == 0
    ensures Bills(ZERO, SumsOf(calls))
  {
    assert SumsOf(calls) == Sums(0, 0, 0, 0, 0, 0, 0, 0);
  }

  lemma BillsOneMore(t: Totals, calls: seq<Call>, call: Call)
    requires Bills(t, SumsOf(calls))
    ensures Bills(FoldTotals(t, FromCall(call)), SumsOf(calls + [call]))
  {
    assert (calls + [call])[..|calls|] == calls;
  }

  lemma CapNext(n: nat)
    ensures SatAdd(Cap(n), 1) == Cap(n + 1)
  {
  }

  // ----- a run of calls -----

  function Records(calls: seq<Call>): seq<Record> {
    seq(|calls|, i requires 0 <= i < |calls| => MainLoopCall(calls[i]))
  }

  function OfModel(calls: seq<Call>, model: string): seq<Call> {
    if |calls| == 0 then []
    else OfModel(calls[..|calls| - 1], model) + if calls[|calls| - 1].model == model then [calls[|calls| - 1]] else []
  }

  lemma RecordsNext(calls: seq<Call>, call: Call)
    ensures RecordAll(EMPTY_LEDGER, Records(calls + [call]))
         == Recorded(RecordAll(EMPTY_LEDGER, Records(calls)), MainLoopCall(call))
  {
    assert Records(calls + [call])[..|calls|] == Records(calls);
  }

  function EntryFor(l: Ledger, model: string): Totals {
    if model in l.byModel then l.byModel[model] else ZERO
  }

  /** The ledger's totals are the calls'; a model has an entry exactly if it was called, and
      its entry is its own calls'. */
  ghost predicate Billed(l: Ledger, calls: seq<Call>, model: string) {
    && Bills(l.totals, SumsOf(calls)) && l.mainLoopModelCalls == Cap(|calls|) && !l.incomplete
    && (model in l.byModel <==> OfModel(calls, model) != [])
    && Bills(EntryFor(l, model), SumsOf(OfModel(calls, model)))
  }

  lemma OfModelNext(calls: seq<Call>, call: Call, model: string)
    ensures OfModel(calls + [call], model) == OfModel(calls, model) + if call.model == model then [call] else []
  {
    assert (calls + [call])[..|calls|] == calls;
  }

  lemma EntryNext(l: Ledger, call: Call, model: string)
    ensures var m := Recorded(l, MainLoopCall(call));
      && m.totals == FoldTotals(l.totals, FromCall(call))
      && m.mainLoopModelCalls == SatAdd(l.mainLoopModelCalls, 1) && m.incomplete == l.incomplete
      && (model in m.byModel <==> model in l.byModel || call.model == model)
      && EntryFor(m, model)
         == if call.model == model then FoldTotals(EntryFor(l, model), FromCall(call)) else EntryFor(l, model)
  {
  }

  lemma BilledNext(l: Ledger, calls: seq<Call>, call: Call, model: string)
    requires Billed(l, calls, model)
    ensures Billed(Recorded(l, MainLoopCall(call)), calls + [call], model)
  {
    EntryNext(l, call, model);
    BillsOneMore(l.totals, calls, call);
    OfModelNext(calls, call, model);
    if call.model == model {
      BillsOneMore(EntryFor(l, model), OfModel(calls, model), call);
    } else {
      assert OfModel(calls, model) + [] == OfModel(calls, model);
    }
    CapNext(|calls|);
  }

  lemma NoneBilled(l: Ledger, model: string)
    requires l.totals == ZERO && model !in l.byModel && l.mainLoopModelCalls == 0 && !l.incomplete
    ensures Billed(l, [], model)
  {
    BillsNothing([]);
    BillsNothing(OfModel([], model));
  }

  /** So it is behind any run of calls. */
  lemma {:induction false} CallsAreBilled(calls: seq<Call>, model: string)
    ensures Billed(RecordAll(EMPTY_LEDGER, Records(calls)), calls, model)
    decreases |calls|
  {
    if calls == [] {
      NoneBilled(RecordAll(EMPTY_LEDGER, Records(calls)), model);
    } else {
      var init, last := calls[..|calls| - 1], calls[|calls| - 1];
      CallsAreBilled(init, model);
      BilledNext(RecordAll(EMPTY_LEDGER, Records(init)), init, last, model);
      RecordsNext(init, last);
      LastOf(calls);
    }
  }

  lemma LastOf(calls: seq<Call>)
    requires calls != []
    ensures calls[..|calls| - 1] + [calls[|calls| - 1]] == calls
  {
  }
}
