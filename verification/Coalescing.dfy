/** The index manager's event loop; the disk is fixed while it runs. */
module Coalescing {
  import opened Wrappers

  type Path = string
  type Entry = seq<string>
  type Index = map<Path, Entry>

  datatype Kind = Created | Modified | Removed | Renamed

  datatype FileEvent = FileEvent(kind: Kind, paths: seq<Path>)

  /** What happened to one path. */
  datatype Op = Op(path: Path, kind: Kind)

  datatype Env = Env(
    extract: Path -> Option<Entry>,   // what reindexing a path finds on disk
    indexable: Path -> bool,          // `should_index`
    supported: Path -> bool,          // the language registry knows the file
    rebuilt: Index)                   // what a rebuild yields

  // ----- one-by-one processing -----

  function Lookup(index: Index, p: Path): Option<Entry> {
    if p in index then Some(index[p]) else None
  }

  function Store(index: Index, p: Path, entry: Option<Entry>): Index {
    match entry
    case None => index - {p}
    case Some(e) => index[p := e]
  }

  /** The entry an event leaves its path with. */
  function Effect(env: Env, op: Op): Option<Entry> {
    if op.kind.Removed? then None else env.extract(op.path)
  }

  function ApplyOp(env: Env, index: Index, op: Op): Index {
    if env.indexable(op.path) then Store(index, op.path, Effect(env, op)) else index
  }

  function InOrder(env: Env, index: Index, ops: seq<Op>): Index
    decreases |ops|
  {
    if |ops| == 0 then index else InOrder(env, ApplyOp(env, index, ops[0]), ops[1..])
  }

  /** A rename with both paths removes the one and creates the other. */
  function OpsOfEvent(event: FileEvent): seq<Op> {
    if event.kind.Renamed? && |event.paths| >= 2
    then [Op(event.paths[0], Removed), Op(event.paths[1], Created)]
    else seq(|event.paths|, i requires 0 <= i < |event.paths| => Op(event.paths[i], event.kind))
  }

  function OpsOfEvents(events: seq<FileEvent>): seq<Op> {
    if |events| == 0 then [] else OpsOfEvent(events[0]) + OpsOfEvents(events[1..])
  }

  // ----- coalescing -----

  function Coalesced(events: map<Path, Kind>, op: Op): map<Path, Kind> {
    if op.path !in events then events[op.path := op.kind]
    else match (events[op.path], op.kind)
      case (Created, Removed) => events - {op.path}
      case (Modified, Removed) => events - {op.path}
      case (Removed, Created) => events[op.path := Created]
      case (Removed, Modified) => events[op.path := Created]
      case _ => events[op.path := op.kind]
  }

  function CoalesceAll(events: map<Path, Kind>, ops: seq<Op>): map<Path, Kind>
    decreases |ops|
  {
    if |ops| == 0 then events else CoalesceAll(Coalesced(events, ops[0]), ops[1..])
  }

  class CoalescedEvents {
    var events: map<Path, Kind>

    constructor ()
      ensures events == map[]
    {
      events := map[];
    }

    method Insert(path: Path, kind: Kind)
      modifies this
      ensures events == Coalesced(old(events), Op(path, kind))
    {
      if path !in events {
        events := events[path := kind];
      } else {
        match (events[path], kind) {
          case (Created, Removed) => events := events - {path};
          case (Modified, Removed) => events := events - {path};
          case (Removed, Created) => events := events[path := Created];
          case (Removed, Modified) => events := events[path := Created];
          case _ => events := events[path := kind];
        }
      }
    }

    method Add(event: FileEvent)
      modifies this
      ensures events == CoalesceAll(old(events), OpsOfEvent(event))
    {
      var ops := OpsOfEvent(event);
      if event.kind.Renamed? && |event.paths| >= 2 {
        CoalesceTwo(events, ops[0], ops[1]);
        Insert(event.paths[0], Removed);
        Insert(event.paths[1], Created);
        return;
      }
      for i := 0 to |event.paths|
        invariant CoalesceAll(old(events), ops) == CoalesceAll(events, ops[i..])
      {
        assert ops[i..][0] == Op(event.paths[i], event.kind) && ops[i..][1..] == ops[i + 1..];
        Insert(event.paths[i], event.kind);
      }
    }
  }

  lemma CoalesceTwo(events: map<Path, Kind>, a: Op, b: Op)
    ensures CoalesceAll(events, [a, b]) == Coalesced(Coalesced(events, a), b)
  {
    assert [a, b][1..] == [b] && [b][1..] == [];
    assert CoalesceAll(Coalesced(events, a), [b]) == CoalesceAll(Coalesced(Coalesced(events, a), b), []);
  }

  /** The index with every coalesced event applied to its own path. */
  function AppliedAt(env: Env, index: Index, events: map<Path, Kind>, p: Path): Option<Entry> {
    if p in events && env.indexable(p) then Effect(env, Op(p, events[p])) else Lookup(index, p)
  }

  function Applied(env: Env, index: Index, events: map<Path, Kind>): Index {
    map p | p in index.Keys + events.Keys && AppliedAt(env, index, events, p).Some?
      :: AppliedAt(env, index, events, p).value
  }

  lemma AppliedLookup(env: Env, index: Index, events: map<Path, Kind>)
    ensures forall p :: Lookup(Applied(env, index, events), p) == AppliedAt(env, index, events, p)
  {
  }

  lemma SameLookups(a: Index, b: Index)
    requires forall p :: Lookup(a, p) == Lookup(b, p)
    ensures a == b
  {
    assert forall p :: p in a <==> Lookup(a, p).Some?;
    assert forall p :: p in b <==> Lookup(b, p).Some?;
    assert forall p :: p in a ==> a[p] == Lookup(a, p).value == Lookup(b, p).value == b[p];
  }

  // ----- what coalescing does to one path -----

  /** The kinds of the events on `p`, in order. */
  ghost function KindsOf(ops: seq<Op>, p: Path): seq<Kind> {
    if |ops| == 0 then []
    else KindsOf(ops[..|ops| - 1], p) + if ops[|ops| - 1].path == p then [ops[|ops| - 1].kind] else []
  }

  /** The last two events on the path create or modify it and then remove it. */
  ghost predicate Cancels(kinds: seq<Kind>) {
    |kinds| >= 2 && kinds[|kinds| - 1].Removed?
    && (kinds[|kinds| - 2].Created? || kinds[|kinds| - 2].Modified?)
  }

  ghost predicate Upserts(kind: Kind) {
    kind.Created? || kind.Modified?
  }

  lemma {:induction false} InOrderSnoc(env: Env, index: Index, ops: seq<Op>, op: Op)
    ensures InOrder(env, index, ops + [op]) == ApplyOp(env, InOrder(env, index, ops), op)
    decreases |ops|
  {
    if |ops| == 0 {
      assert ops + [op] == [op] && [op][1..] == [];
      assert InOrder(env, ApplyOp(env, index, op), []) == ApplyOp(env, index, op);
    } else {
      assert (ops + [op])[1..] == ops[1..] + [op];
      InOrderSnoc(env, ApplyOp(env, index, ops[0]), ops[1..], op);
    }
  }

  lemma {:induction false} CoalesceSnoc(events: map<Path, Kind>, ops: seq<Op>, op: Op)
    ensures CoalesceAll(events, ops + [op]) == Coalesced(CoalesceAll(events, ops), op)
    decreases |ops|
  {
    if |ops| == 0 {
      assert ops + [op] == [op] && [op][1..] == [];
      assert CoalesceAll(Coalesced(events, op), []) == Coalesced(events, op);
    } else {
      assert (ops + [op])[1..] == ops[1..] + [op];
      CoalesceSnoc(Coalesced(events, ops[0]), ops[1..], op);
    }
  }

  lemma KindsSnoc(ops: seq<Op>, op: Op, p: Path)
    ensures KindsOf(ops + [op], p) == KindsOf(ops, p) + if op.path == p then [op.kind] else []
  {
    assert (ops + [op])[..|ops|] == ops;
  }

  /** One by one, the last event on a path decides its entry. */
  lemma {:induction false} InOrderAt(env: Env, index: Index, ops: seq<Op>, p: Path)
    ensures var kinds := KindsOf(ops, p);
      Lookup(InOrder(env, index, ops), p)
        == if |kinds| > 0 && env.indexable(p) then Effect(env, Op(p, kinds[|kinds| - 1])) else Lookup(index, p)
    decreases |ops|
  {
    if |ops| > 0 {
      var init, op := ops[..|ops| - 1], ops[|ops| - 1];
      InOrderAt(env, index, init, p);
      assert ops == init + [op];
      InOrderSnoc(env, index, init, op);
    }
  }

  /** Coalescing forgets a path exactly when its last two events cancel; otherwise it
      keeps a kind with the effect of the last one. */
  lemma {:induction false} CoalescedAt(ops: seq<Op>, p: Path)
    ensures var kinds := KindsOf(ops, p);
      var events := CoalesceAll(map[], ops);
      && (p in events <==> |kinds| > 0 && !Cancels(kinds))
      && (p in events ==> (events[p].Removed? <==> kinds[|kinds| - 1].Removed?)
                          && (Upserts(events[p]) <==> Upserts(kinds[|kinds| - 1])))
    decreases |ops|
  {
    if |ops| > 0 {
      var init, op := ops[..|ops| - 1], ops[|ops| - 1];
      CoalescedAt(init, p);
      assert ops == init + [op];
      CoalesceSnoc(map[], init, op);
    }
  }

  // ----- a batch against one-by-one processing -----

  ghost predicate Forgotten(ops: seq<Op>, p: Path) {
    Cancels(KindsOf(ops, p))
  }

  /** A batch gives each path what one-by-one processing gives it, except that a path whose
      last two events cancel keeps its entry from before the batch. */
  lemma BatchAt(env: Env, index: Index, ops: seq<Op>, p: Path)
    ensures Lookup(Applied(env, index, CoalesceAll(map[], ops)), p)
         == if Forgotten(ops, p) then Lookup(index, p) else Lookup(InOrder(env, index, ops), p)
  {
    AppliedLookup(env, index, CoalesceAll(map[], ops));
    CoalescedAt(ops, p);
    InOrderAt(env, index, ops, p);
  }

  /** So the batch agrees with one-by-one processing exactly when no such path was indexed. */
  lemma {:induction false} BatchAgreesIff(env: Env, index: Index, ops: seq<Op>)
    ensures Applied(env, index, CoalesceAll(map[], ops)) == InOrder(env, index, ops)
      <==> forall p :: Forgotten(ops, p) && env.indexable(p) ==> p !in index
  {
    var batch, ordered := Applied(env, index, CoalesceAll(map[], ops)), InOrder(env, index, ops);
    forall p ensures Lookup(batch, p) == if Forgotten(ops, p) then Lookup(index, p) else Lookup(ordered, p) {
      BatchAt(env, index, ops, p);
    }
    forall p | Forgotten(ops, p)
      ensures Lookup(ordered, p) == if env.indexable(p) then None else Lookup(index, p)
    {
      InOrderAt(env, index, ops, p);
    }
    if forall p :: Forgotten(ops, p) && env.indexable(p) ==> p !in index {
      SameLookups(batch, ordered);
    }
  }

  /** The failing batch: a path is modified and then removed, and its old entry stays. */
  lemma StaleEntrySurvives(env: Env, index: Index, p: Path)
    requires p in index && env.indexable(p)
    ensures var ops := [Op(p, Modified), Op(p, Removed)];
      && p in Applied(env, index, CoalesceAll(map[], ops))
      && p !in InOrder(env, index, ops)
  {
    var ops := [Op(p, Modified), Op(p, Removed)];
    assert ops[..1] == [ops[0]] && ops[..1][..0] == [];
    assert KindsOf(ops[..1], p) == [Modified];
    assert KindsOf(ops, p) == [Modified, Removed];
    BatchAt(env, index, ops, p);
    InOrderAt(env, index, ops, p);
  }

  // ----- the command queue -----

  datatype Command =
    | OneEvent(event: FileEvent)
    | Batch(events: seq<FileEvent>)
    | Query
    | Rebuild
    | BackgroundRefresh(stale: seq<Path>, deleted: seq<Path>)
    | Shutdown

  predicate IsFile(c: Command) {
    c.OneEvent? || c.Batch?
  }

  function EventsOf(c: Command): seq<FileEvent>
    requires IsFile(c)
  {
    if c.OneEvent? then [c.event] else c.events
  }

  predicate AllFile(cmds: seq<Command>) {
    forall i :: 0 <= i < |cmds| ==> IsFile(cmds[i])
  }

  function OpsOfCommands(cmds: seq<Command>): seq<Op>
    requires AllFile(cmds)
  {
    if |cmds| == 0 then [] else OpsOfEvents(EventsOf(cmds[0])) + OpsOfCommands(cmds[1..])
  }

  function RemoveAll(index: Index, paths: seq<Path>): Index
    decreases |paths|
  {
    if |paths| == 0 then index else RemoveAll(index - {paths[0]}, paths[1..])
  }

  function ReindexAll(env: Env, index: Index, paths: seq<Path>): Index
    decreases |paths|
  {
    if |paths| == 0 then index
    else
      var next := if env.supported(paths[0]) then Store(index, paths[0], env.extract(paths[0])) else index;
      ReindexAll(env, next, paths[1..])
  }

  /** What a command other than a file event does to the index. */
  function Other(env: Env, index: Index, c: Command): Index {
    match c
    case Rebuild => env.rebuilt
    case BackgroundRefresh(stale, deleted) => ReindexAll(env, RemoveAll(index, deleted), stale)
    case _ => index
  }

  /** How many leading file commands a drain takes when `visible` are in the channel. */
  function DrainCount(cmds: seq<Command>, visible: nat): (n: nat)
    ensures n <= |cmds| && n <= visible
    ensures AllFile(cmds[..n])
    ensures n < |cmds| && n < visible ==> !IsFile(cmds[n])
  {
    if |cmds| == 0 || visible == 0 || !IsFile(cmds[0]) then 0
    else
      var n := DrainCount(cmds[1..], visible - 1);
      assert cmds[..n + 1] == [cmds[0]] + cmds[1..][..n];
      n + 1
  }

  /** How many commands, `cmds[0]` included, the batch started by `cmds[0]` covers. */
  function BatchSize(cmds: seq<Command>, visible: nat): (n: nat)
    requires |cmds| > 0 && IsFile(cmds[0])
    ensures 1 <= n <= |cmds| && AllFile(cmds[..n])
  {
    if cmds[0].Batch? then 1
    else
      var n := DrainCount(cmds[1..], visible);
      assert cmds[..n + 1] == [cmds[0]] + cmds[1..][..n];
      n + 1
  }

  function HeadOr0(schedule: seq<nat>): nat {
    if |schedule| == 0 then 0 else schedule[0]
  }

  /** Only a batch started by a single event drains the channel. */
  function Rest(first: Command, schedule: seq<nat>): seq<nat> {
    if |schedule| == 0 || !first.OneEvent? then schedule else schedule[1..]
  }

  /** The index each query is answered on, when every batch of single events sees as many
      queued commands as the schedule says. */
  ghost function Answers(env: Env, index: Index, cmds: seq<Command>, schedule: seq<nat>): seq<Index>
    decreases |cmds|
  {
    if |cmds| == 0 || cmds[0].Shutdown? then []
    else if IsFile(cmds[0]) then
      var n := BatchSize(cmds, HeadOr0(schedule));
      var batched := Applied(env, index, CoalesceAll(map[], OpsOfCommands(cmds[..n])));
      Answers(env, batched, cmds[n..], Rest(cmds[0], schedule))
    else
      (if cmds[0].Query? then [index] else [])
      + Answers(env, Other(env, index, cmds[0]), cmds[1..], Rest(cmds[0], schedule))
  }

  /** The same, with every event applied on its own, in order. */
  ghost function AnswersInOrder(env: Env, index: Index, cmds: seq<Command>): seq<Index>
    decreases |cmds|
  {
    if |cmds| == 0 || cmds[0].Shutdown? then []
    else if IsFile(cmds[0]) then
      AnswersInOrder(env, InOrder(env, index, OpsOfEvents(EventsOf(cmds[0]))), cmds[1..])
    else
      (if cmds[0].Query? then [index] else [])
      + AnswersInOrder(env, Other(env, index, cmds[0]), cmds[1..])
  }

  lemma {:induction false} InOrderConcat(env: Env, index: Index, a: seq<Op>, b: seq<Op>)
    ensures InOrder(env, index, a + b) == InOrder(env, InOrder(env, index, a), b)
    decreases |a|
  {
    if |a| == 0 {
      assert a + b == b;
    } else {
      assert (a + b)[1..] == a[1..] + b;
      InOrderConcat(env, ApplyOp(env, index, a[0]), a[1..], b);
    }
  }

  /** Taking a run of file commands together or one by one is the same, in order. */
  lemma {:induction false} FileRunInOrder(env: Env, index: Index, files: seq<Command>, rest: seq<Command>)
    requires AllFile(files)
    ensures AnswersInOrder(env, index, files + rest)
         == AnswersInOrder(env, InOrder(env, index, OpsOfCommands(files)), rest)
    decreases |files|
  {
    if |files| == 0 {
      assert files + rest == rest;
    } else {
      var first := OpsOfEvents(EventsOf(files[0]));
      assert (files + rest)[1..] == files[1..] + rest;
      FileRunInOrder(env, InOrder(env, index, first), files[1..], rest);
      InOrderConcat(env, index, first, OpsOfCommands(files[1..]));
    }
  }

  /** In no batch is a path forgotten while it is indexed. */
  ghost predicate NoStaleEntry(env: Env, index: Index, cmds: seq<Command>, schedule: seq<nat>)
    decreases |cmds|
  {
    if |cmds| == 0 || cmds[0].Shutdown? then true
    else if IsFile(cmds[0]) then
      var n := BatchSize(cmds, HeadOr0(schedule));
      var ops := OpsOfCommands(cmds[..n]);
      && (forall p :: Forgotten(ops, p) && env.indexable(p) ==> p !in index)
      && NoStaleEntry(env, Applied(env, index, CoalesceAll(map[], ops)), cmds[n..], Rest(cmds[0], schedule))
    else NoStaleEntry(env, Other(env, index, cmds[0]), cmds[1..], Rest(cmds[0], schedule))
  }

  /** Coalescing refines one-by-one processing: for every queue and every schedule, if no
      indexed path is forgotten, every query is answered on the in-order index. */
  lemma {:induction false} CoalescingRefines(env: Env, index: Index, cmds: seq<Command>, schedule: seq<nat>)
    requires NoStaleEntry(env, index, cmds, schedule)
    ensures Answers(env, index, cmds, schedule) == AnswersInOrder(env, index, cmds)
    decreases |cmds|
  {
    if |cmds| == 0 || cmds[0].Shutdown? {
    } else if IsFile(cmds[0]) {
      var n := BatchSize(cmds, HeadOr0(schedule));
      var ops := OpsOfCommands(cmds[..n]);
      BatchAgreesIff(env, index, ops);
      CoalescingRefines(env, InOrder(env, index, ops), cmds[n..], Rest(cmds[0], schedule));
      FileRunInOrder(env, index, cmds[..n], cmds[n..]);
      assert cmds[..n] + cmds[n..] == cmds;
    } else {
      CoalescingRefines(env, Other(env, index, cmds[0]), cmds[1..], Rest(cmds[0], schedule));
    }
  }

  lemma AnswerBehindBatch(env: Env, index: Index, events: seq<FileEvent>)
    ensures var ops := OpsOfEvents(events);
      && Answers(env, index, [Batch(events), Query], []) == [Applied(env, index, CoalesceAll(map[], ops))]
      && AnswersInOrder(env, index, [Batch(events), Query]) == [InOrder(env, index, ops)]
  {
    var cmds, ops := [Batch(events), Query], OpsOfEvents(events);
    assert cmds[1..] == [Query] && [Query][1..] == [];
    assert cmds[..1] == [Batch(events)] && [Batch(events)][1..] == [];
    assert ops + [] == ops && OpsOfCommands(cmds[..1]) == ops;
  }

  /** The failing queue: an indexed path is modified and removed, and the query behind it is
      still answered with its entry. */
  lemma StaleAnswer(env: Env, index: Index, p: Path)
    requires p in index && env.indexable(p)
    ensures var cmds := [Batch([FileEvent(Modified, [p]), FileEvent(Removed, [p])]), Query];
      && |Answers(env, index, cmds, [])| == 1 && p in Answers(env, index, cmds, [])[0]
      && |AnswersInOrder(env, index, cmds)| == 1 && p !in AnswersInOrder(env, index, cmds)[0]
  {
    var ops := [Op(p, Modified), Op(p, Removed)];
    assert [ops[0]] + [ops[1]] == ops && ops[1..] == [ops[1]];
    assert [ops[1]][1..] == [] && SingleEvents([ops[1]]) == [FileEvent(Removed, [p])];
    assert SingleEvents(ops) == [FileEvent(Modified, [p]), FileEvent(Removed, [p])];
    OpsOfSingleEvents(ops);
    AnswerBehindBatch(env, index, SingleEvents(ops));
    StaleEntrySurvives(env, index, p);
  }

  // ----- without that condition: exactly which events are lost -----

  /** The events of a batch on paths it does not forget. */
  ghost function Remembered(batch: seq<Op>, ops: seq<Op>): seq<Op> {
    if |ops| == 0 then []
    else
      Remembered(batch, ops[..|ops| - 1])
      + if Forgotten(batch, ops[|ops| - 1].path) then [] else [ops[|ops| - 1]]
  }

  lemma {:induction false} RememberedKinds(batch: seq<Op>, ops: seq<Op>, p: Path)
    ensures KindsOf(Remembered(batch, ops), p) == if Forgotten(batch, p) then [] else KindsOf(ops, p)
  {
    if |ops| > 0 {
      var init, op := ops[..|ops| - 1], ops[|ops| - 1];
      RememberedKinds(batch, init, p);
      KindsSnoc(Remembered(batch, init), op, p);
      assert Remembered(batch, init) + [] == Remembered(batch, init);
    }
  }

  lemma RememberedAt(env: Env, index: Index, ops: seq<Op>, p: Path)
    ensures Lookup(InOrder(env, index, Remembered(ops, ops)), p)
         == if Forgotten(ops, p) then Lookup(index, p) else Lookup(InOrder(env, index, ops), p)
  {
    RememberedKinds(ops, ops, p);
    InOrderAt(env, index, ops, p);
    InOrderAt(env, index, Remembered(ops, ops), p);
  }

  /** A batch is in-order processing of the events on the paths it does not forget. */
  lemma {:induction false} BatchIsRememberedInOrder(env: Env, index: Index, ops: seq<Op>)
    ensures Applied(env, index, CoalesceAll(map[], ops)) == InOrder(env, index, Remembered(ops, ops))
  {
    var batch, ordered := Applied(env, index, CoalesceAll(map[], ops)), InOrder(env, index, Remembered(ops, ops));
    forall p ensures Lookup(batch, p) == Lookup(ordered, p) {
      BatchAt(env, index, ops, p);
      RememberedAt(env, index, ops, p);
    }
    SameLookups(batch, ordered);
  }

  ghost function SingleEvents(ops: seq<Op>): seq<FileEvent> {
    if |ops| == 0 then [] else [FileEvent(ops[0].kind, [ops[0].path])] + SingleEvents(ops[1..])
  }

  lemma {:induction false} OpsOfSingleEvents(ops: seq<Op>)
    ensures OpsOfEvents(SingleEvents(ops)) == ops
  {
    if |ops| > 0 {
      OpsOfSingleEvents(ops[1..]);
      var first := FileEvent(ops[0].kind, [ops[0].path]);
      assert OpsOfEvent(first) == [ops[0]];
      assert ([first] + SingleEvents(ops[1..]))[1..] == SingleEvents(ops[1..]);
    }
  }

  /** The queue with each batch replaced by its remembered events. */
  ghost function WithoutForgotten(cmds: seq<Command>, schedule: seq<nat>): seq<Command>
    decreases |cmds|
  {
    if |cmds| == 0 then []
    else if IsFile(cmds[0]) then
      var n := BatchSize(cmds, HeadOr0(schedule));
      var ops := OpsOfCommands(cmds[..n]);
      [Batch(SingleEvents(Remembered(ops, ops)))] + WithoutForgotten(cmds[n..], Rest(cmds[0], schedule))
    else [cmds[0]] + WithoutForgotten(cmds[1..], Rest(cmds[0], schedule))
  }

  /** In general: every query is answered on the index that one-by-one processing gives
      when the events on forgotten paths are left out of their batches. */
  lemma {:induction false} CoalescingExactly(env: Env, index: Index, cmds: seq<Command>, schedule: seq<nat>)
    ensures Answers(env, index, cmds, schedule) == AnswersInOrder(env, index, WithoutForgotten(cmds, schedule))
    decreases |cmds|
  {
    if |cmds| == 0 || cmds[0].Shutdown? {
    } else if IsFile(cmds[0]) {
      var n := BatchSize(cmds, HeadOr0(schedule));
      var ops := OpsOfCommands(cmds[..n]);
      var rest := WithoutForgotten(cmds[n..], Rest(cmds[0], schedule));
      BatchIsRememberedInOrder(env, index, ops);
      OpsOfSingleEvents(Remembered(ops, ops));
      CoalescingExactly(env, InOrder(env, index, Remembered(ops, ops)), cmds[n..], Rest(cmds[0], schedule));
      assert ([Batch(SingleEvents(Remembered(ops, ops)))] + rest)[1..] == rest;
    } else {
      var rest := WithoutForgotten(cmds[1..], Rest(cmds[0], schedule));
      CoalescingExactly(env, Other(env, index, cmds[0]), cmds[1..], Rest(cmds[0], schedule));
      assert ([cmds[0]] + rest)[1..] == rest;
    }
  }

  // ----- the manager -----

  lemma AppliedOne(env: Env, index: Index, events: map<Path, Kind>, p: Path)
    requires p in events
    ensures Applied(env, ApplyOp(env, index, Op(p, events[p])), events - {p}) == Applied(env, index, events)
  {
    var next := ApplyOp(env, index, Op(p, events[p]));
    AppliedLookup(env, index, events);
    AppliedLookup(env, next, events - {p});
    SameLookups(Applied(env, next, events - {p}), Applied(env, index, events));
  }

  lemma AppliedNone(env: Env, index: Index)
    ensures Applied(env, index, map[]) == index
  {
    AppliedLookup(env, index, map[]);
    SameLookups(Applied(env, index, map[]), index);
  }

  lemma {:induction false} CoalesceConcat(events: map<Path, Kind>, a: seq<Op>, b: seq<Op>)
    ensures CoalesceAll(events, a + b) == CoalesceAll(CoalesceAll(events, a), b)
    decreases |a|
  {
    if |a| == 0 {
      assert a + b == b;
    } else {
      assert (a + b)[1..] == a[1..] + b;
      CoalesceConcat(Coalesced(events, a[0]), a[1..], b);
    }
  }

  method AddAll(batch: CoalescedEvents, events: seq<FileEvent>)
    modifies batch
    ensures batch.events == CoalesceAll(old(batch.events), OpsOfEvents(events))
  {
    for i := 0 to |events|
      invariant CoalesceAll(old(batch.events), OpsOfEvents(events)) == CoalesceAll(batch.events, OpsOfEvents(events[i..]))
    {
      assert events[i..][0] == events[i] && events[i..][1..] == events[i + 1..];
      CoalesceConcat(batch.events, OpsOfEvent(events[i]), OpsOfEvents(events[i + 1..]));
      batch.Add(events[i]);
    }
  }

  lemma {:induction false} OpsOfCommandsSnoc(cmds: seq<Command>, c: Command)
    requires AllFile(cmds) && IsFile(c)
    ensures AllFile(cmds + [c])
    ensures OpsOfCommands(cmds + [c]) == OpsOfCommands(cmds) + OpsOfEvents(EventsOf(c))
  {
    if |cmds| == 0 {
      assert cmds + [c] == [c] && OpsOfCommands([c][1..]) == [];
    } else {
      assert (cmds + [c])[1..] == cmds[1..] + [c];
      OpsOfCommandsSnoc(cmds[1..], c);
      var x, y, z := OpsOfEvents(EventsOf(cmds[0])), OpsOfCommands(cmds[1..]), OpsOfEvents(EventsOf(c));
      assert x + (y + z) == x + y + z;
    }
  }

  /** A command that starts no drain is answered for on its own. */
  lemma AnswersOfOne(env: Env, index: Index, command: Command, queue: seq<Command>, schedule: seq<nat>)
    requires !command.OneEvent?
    ensures Answers(env, index, [command] + queue, schedule) ==
      if command.Batch? then
        Answers(env, Applied(env, index, CoalesceAll(map[], OpsOfEvents(command.events))), queue, schedule)
      else if command.Shutdown? then []
      else (if command.Query? then [index] else []) + Answers(env, Other(env, index, command), queue, schedule)
  {
    var cmds := [command] + queue;
    assert cmds[1..] == queue;
    if command.Batch? {
      assert cmds[..1] == [command] && OpsOfCommands([command][1..]) == [];
      assert OpsOfCommands([command]) == OpsOfEvents(command.events);
    }
  }

  lemma DrainSlices(first: Command, queue: seq<Command>, n: nat)
    requires n <= |queue|
    ensures var cmds := [first] + queue;
      cmds[1..] == queue && cmds[..n + 1] == [first] + queue[..n] && cmds[n + 1..] == queue[n..]
  {
  }

  lemma AnswersOfBatch(env: Env, index: Index, cmds: seq<Command>, schedule: seq<nat>, n: nat)
    requires |cmds| > 0 && IsFile(cmds[0]) && n == BatchSize(cmds, HeadOr0(schedule))
    ensures Answers(env, index, cmds, schedule)
         == Answers(env, Applied(env, index, CoalesceAll(map[], OpsOfCommands(cmds[..n]))), cmds[n..],
                    Rest(cmds[0], schedule))
  {
  }

  lemma RestOfCons(first: Command, visible: nat, schedule: seq<nat>)
    requires first.OneEvent?
    ensures HeadOr0([visible] + schedule) == visible && Rest(first, [visible] + schedule) == schedule
  {
    assert ([visible] + schedule)[1..] == schedule;
  }

  lemma BatchOfDrain(event: FileEvent, queue: seq<Command>, visible: nat)
    ensures BatchSize([OneEvent(event)] + queue, visible) == DrainCount(queue, visible) + 1
  {
    assert ([OneEvent(event)] + queue)[1..] == queue;
  }

  /** An event is answered for together with what its drain takes from the queue. */
  lemma AnswersOfDrain(env: Env, index: Index, event: FileEvent, queue: seq<Command>, visible: nat, schedule: seq<nat>)
    ensures var n := DrainCount(queue, visible);
      var files := [OneEvent(event)] + queue[..n];
      && AllFile(files)
      && Answers(env, index, [OneEvent(event)] + queue, [visible] + schedule)
         == Answers(env, Applied(env, index, CoalesceAll(map[], OpsOfCommands(files))), queue[n..], schedule)
  {
    var cmds := [OneEvent(event)] + queue;
    var n := DrainCount(queue, visible);
    DrainSlices(OneEvent(event), queue, n);
    RestOfCons(OneEvent(event), visible, schedule);
    BatchOfDrain(event, queue, visible);
    AnswersOfBatch(env, index, cmds, [visible] + schedule, n + 1);
  }

  /** The drain has coalesced `events` from the first event and `n` commands behind it. */
  ghost predicate Drained(event: FileEvent, queue: seq<Command>, n: nat, events: map<Path, Kind>) {
    && n <= |queue| && AllFile([OneEvent(event)] + queue[..n])
    && events == CoalesceAll(map[], OpsOfCommands([OneEvent(event)] + queue[..n]))
  }

  lemma DrainStarts(event: FileEvent, queue: seq<Command>, events: map<Path, Kind>)
    requires events == CoalesceAll(map[], OpsOfEvent(event))
    ensures Drained(event, queue, 0, events)
  {
    OpsOfDrained(event, queue[..0]);
    assert OpsOfEvent(event) + [] == OpsOfEvent(event);
  }

  lemma DrainGoesOn(event: FileEvent, queue: seq<Command>, n: nat, events: map<Path, Kind>)
    requires n < |queue| && IsFile(queue[n]) && Drained(event, queue, n, events)
    ensures Drained(event, queue, n + 1, CoalesceAll(events, OpsOfEvents(EventsOf(queue[n]))))
  {
    var files := [OneEvent(event)] + queue[..n];
    assert [OneEvent(event)] + queue[..n + 1] == files + [queue[n]];
    OpsOfCommandsSnoc(files, queue[n]);
    CoalesceConcat(map[], OpsOfCommands(files), OpsOfEvents(EventsOf(queue[n])));
  }

  method DrainNext(event: FileEvent, queue: seq<Command>, n: nat, batch: CoalescedEvents)
    requires n < |queue| && IsFile(queue[n]) && Drained(event, queue, n, batch.events)
    modifies batch
    ensures Drained(event, queue, n + 1, batch.events)
  {
    DrainGoesOn(event, queue, n, batch.events);
    AddAll(batch, EventsOf(queue[n]));
  }

  method DrainQueue(event: FileEvent, queue: seq<Command>, visible: nat, batch: CoalescedEvents) returns (n: nat)
    requires Drained(event, queue, 0, batch.events)
    modifies batch
    ensures n == DrainCount(queue, visible) && Drained(event, queue, n, batch.events)
  {
    n := 0;
    while n < |queue| && n < visible && IsFile(queue[n])
      invariant n <= visible && Drained(event, queue, n, batch.events)
    {
      DrainNext(event, queue, n, batch);
      n := n + 1;
    }
    DrainEnd(event, queue, visible, n, batch.events);
  }

  /** The drain: the first event and every file command found behind it, coalesced. */
  method DrainFileEvents(event: FileEvent, queue: seq<Command>, visible: nat)
    returns (events: map<Path, Kind>, n: nat)
    ensures n == DrainCount(queue, visible)
    ensures AllFile([OneEvent(event)] + queue[..n])
    ensures events == CoalesceAll(map[], OpsOfCommands([OneEvent(event)] + queue[..n]))
  {
    var batch := new CoalescedEvents();
    batch.Add(event);
    DrainStarts(event, queue, batch.events);
    n := DrainQueue(event, queue, visible, batch);
    events := batch.events;
  }

  lemma OpsOfDrained(event: FileEvent, files: seq<Command>)
    requires AllFile(files)
    ensures AllFile([OneEvent(event)] + files)
    ensures OpsOfCommands([OneEvent(event)] + files) == OpsOfEvent(event) + OpsOfCommands(files)
  {
    assert ([OneEvent(event)] + files)[1..] == files;
    assert [event][1..] == [] && OpsOfEvents([event]) == OpsOfEvent(event) + [];
  }

  lemma DrainEnd(event: FileEvent, queue: seq<Command>, visible: nat, n: nat, events: map<Path, Kind>)
    requires n <= visible && Drained(event, queue, n, events)
    requires n == |queue| || n == visible || !IsFile(queue[n])
    ensures n == DrainCount(queue, visible)
  {
    var d, files := DrainCount(queue, visible), [OneEvent(event)] + queue[..n];
    assert forall i :: 0 <= i < d ==> queue[..d][i] == queue[i];
    assert forall i :: 0 <= i < n ==> files[i + 1] == queue[i];
  }

  class IndexManager {
    const env: Env
    var index: Index
    var queue: seq<Command>
    var answers: seq<Index>

    constructor (env: Env, index: Index, queue: seq<Command>)
      ensures this.env == env && this.index == index && this.queue == queue && answers == []
    {
      this.env, this.index, this.queue, this.answers := env, index, queue, [];
    }

    /** Whatever order the map yields its paths in, the result is the same. */
    method ApplyCoalesced(events: map<Path, Kind>)
      modifies this`index
      ensures index == Applied(env, old(index), events)
    {
      var pending := events;
      AppliedNone(env, index);
      while pending != map[]
        invariant Applied(env, old(index), events) == Applied(env, index, pending)
        decreases |pending|
      {
        var p :| p in pending;
        AppliedOne(env, index, pending, p);
        index := ApplyOp(env, index, Op(p, pending[p]));
        pending := pending - {p};
      }
      AppliedNone(env, index);
    }

    /** With the answers still to come, `expected` will have been answered. */
    ghost predicate WillAnswer(running: bool, schedule: seq<nat>, expected: seq<Index>)
      reads this
    {
      answers + (if running then Answers(env, index, queue, schedule) else []) == expected
    }

    /** Handles a command that starts no drain. */
    method ProcessAlone(command: Command, ghost schedule: seq<nat>) returns (running: bool)
      requires !command.OneEvent?
      modifies this`index, this`answers
      ensures WillAnswer(running, schedule, old(answers + Answers(env, index, [command] + queue, schedule)))
    {
      AnswersOfOne(env, index, command, queue, schedule);
      running := true;
      if command.Batch? {
        var batch := new CoalescedEvents();
        AddAll(batch, command.events);
        ApplyCoalesced(batch.events);
      } else if command.Query? {
        answers := answers + [index];
      } else if command.Shutdown? {
        running := false;
      } else {
        index := Other(env, index, command);
      }
    }

    /** Handles an event with what its drain takes from the queue. */
    method ProcessDrained(event: FileEvent, visible: nat, ghost schedule: seq<nat>) returns (emptied: bool)
      modifies this`index, this`queue
      ensures WillAnswer(true, schedule,
                         old(answers + Answers(env, index, [OneEvent(event)] + queue, [visible] + schedule)))
      ensures |queue| <= |old(queue)|
      ensures !emptied ==> queue != [] && !IsFile(queue[0])
    {
      AnswersOfDrain(env, index, event, queue, visible, schedule);
      var events, n := DrainFileEvents(event, queue, visible);
      ApplyCoalesced(events);
      emptied := n == |queue| || n == visible;
      queue := queue[n..];
    }

    /** Handles the command that stopped a drain. */
    method ProcessNext(ghost schedule: seq<nat>, ghost expected: seq<Index>) returns (running: bool)
      requires queue != [] && !queue[0].OneEvent? && WillAnswer(true, schedule, expected)
      modifies this
      ensures WillAnswer(running, schedule, expected) && |queue| <= |old(queue)|
    {
      var other := queue[0];
      assert queue == [other] + queue[1..];
      queue := queue[1..];
      running := ProcessAlone(other, schedule);
    }

    /** Handles one command and whatever it drains.  `visible` is how many queued commands
        the drain finds before the channel looks empty, `schedule` what later drains find.
        What stops the drain is no file event, so it starts no other. */
    method ProcessCommandCoalesced(command: Command, visible: nat, ghost schedule: seq<nat>) returns (running: bool)
      modifies this
      ensures WillAnswer(running, schedule,
                         old(answers + Answers(env, index, [command] + queue,
                                               if command.OneEvent? then [visible] + schedule else schedule)))
      ensures |queue| <= |old(queue)|
    {
      if !command.OneEvent? {
        running := ProcessAlone(command, schedule);
        return;
      }
      var emptied := ProcessDrained(command.event, visible, schedule);
      running := true;
      if !emptied {
        running := ProcessNext(schedule, old(answers + Answers(env, index, [command] + queue, [visible] + schedule)));
      }
    }

    /** Answers every query in the queue, as `Answers` says for any schedule. */
    method RunLoop(schedule: seq<nat>)
      modifies this
      ensures answers == old(answers) + Answers(env, old(index), old(queue), schedule)
      decreases |queue|
    {
      if queue == [] {
        return;
      }
      var command := queue[0];
      assert queue == [command] + queue[1..];
      AnswersWithHead(env, index, queue, schedule);
      queue := queue[1..];
      var running := ProcessCommandCoalesced(command, HeadOr0(schedule), Rest(command, schedule));
      if running {
        RunLoop(Rest(command, schedule));
      }
    }
  }

  lemma AnswersWithHead(env: Env, index: Index, cmds: seq<Command>, schedule: seq<nat>)
    requires |cmds| > 0
    ensures Answers(env, index, cmds, schedule)
         == Answers(env, index, cmds,
                    if cmds[0].OneEvent? then [HeadOr0(schedule)] + Rest(cmds[0], schedule) else Rest(cmds[0], schedule))
  {
    if cmds[0].OneEvent? {
      if |schedule| == 0 {
        assert ([0] + schedule)[1..] == schedule;
      } else {
        assert [schedule[0]] + schedule[1..] == schedule;
      }
    }
  }
}
