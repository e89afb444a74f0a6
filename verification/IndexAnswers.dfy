/** What each answer of the index manager holds for one path, read off the queue alone. */
module IndexAnswers {
  import opened Wrappers
  import opened Coalescing

  // ----- what last happened to a path -----

  datatype Touch = Untouched | Gone | Found | Rebuilt

  /** The entry a path has after its last touch: what it had, none, what its file holds, or
      what the rebuild found. */
  function Read(env: Env, index: Index, touch: Touch, p: Path): Option<Entry> {
    match touch
    case Untouched => if p in index then Some(index[p]) else None
    case Gone => None
    case Found => env.extract(p)
    case Rebuilt => if p in env.rebuilt then Some(env.rebuilt[p]) else None
  }

  function Then(before: Touch, now: Touch): Touch {
    if now.Untouched? then before else now
  }

  /** A rename of two paths moves the first to the second; any other event removes its paths
      or finds them anew.  Paths that are not indexed are left alone. */
  function TouchOfEvent(env: Env, event: FileEvent, p: Path): Touch {
    if !env.indexable(p) then Untouched
    else if event.kind.Renamed? && |event.paths| >= 2 then
      if p == event.paths[1] then Found else if p == event.paths[0] then Gone else Untouched
    else if p !in event.paths then Untouched
    else if event.kind.Removed? then Gone
    else Found
  }

  function TouchOfEvents(env: Env, events: seq<FileEvent>, p: Path): Touch
    decreases |events|
  {
    if |events| == 0 then Untouched else Then(TouchOfEvent(env, events[0], p), TouchOfEvents(env, events[1..], p))
  }

  function TouchOf(env: Env, c: Command, p: Path): Touch {
    match c
    case OneEvent(event) => TouchOfEvent(env, event, p)
    case Batch(events) => TouchOfEvents(env, events, p)
    case Rebuild => Rebuilt
    case BackgroundRefresh(stale, deleted) =>
      if p in stale && env.supported(p) then Found else if p in deleted then Gone else Untouched
    case _ => Untouched
  }

  function LastTouch(env: Env, cmds: seq<Command>, p: Path): Touch
    decreases |cmds|
  {
    if |cmds| == 0 then Untouched else Then(TouchOf(env, cmds[0], p), LastTouch(env, cmds[1..], p))
  }

  // ----- one event -----

  /** `after` is `index` with the touch. */
  ghost predicate Touched(env: Env, index: Index, after: Index, touch: Touch, p: Path) {
    Lookup(after, p) == Read(env, index, touch, p)
  }

  lemma TouchedTwice(env: Env, a: Index, b: Index, c: Index, first: Touch, second: Touch, p: Path)
    requires Touched(env, a, b, first, p) && Touched(env, b, c, second, p)
    ensures Touched(env, a, c, Then(first, second), p)
  {
  }

  /** The last event on `p` among operations of one kind. */
  lemma {:induction false} KindsOfPaths(ops: seq<Op>, kind: Kind, p: Path)
    requires forall i :: 0 <= i < |ops| ==> ops[i].kind == kind
    ensures var kinds := KindsOf(ops, p);
      ((exists i :: 0 <= i < |ops| && ops[i].path == p) <==> kinds != [])
      && (kinds != [] ==> kinds[|kinds| - 1] == kind)
    decreases |ops|
  {
    if |ops| > 0 {
      var init := ops[..|ops| - 1];
      assert forall i :: 0 <= i < |init| ==> init[i] == ops[i];
      KindsOfPaths(init, kind, p);
    }
  }

  lemma RenameKinds(before: Path, after: Path, p: Path)
    ensures KindsOf([Op(before, Removed), Op(after, Created)], p)
         == (if p == before then [Removed] else []) + (if p == after then [Created] else [])
  {
    var ops := [Op(before, Removed), Op(after, Created)];
    assert ops[..1] == [ops[0]] && ops[..1][..0] == [];
    assert KindsOf(ops[..1], p) == if before == p then [Removed] else [];
  }

  lemma EventTouches(env: Env, index: Index, event: FileEvent, p: Path)
    ensures Touched(env, index, InOrder(env, index, OpsOfEvent(event)), TouchOfEvent(env, event, p), p)
  {
    var ops := OpsOfEvent(event);
    InOrderAt(env, index, ops, p);
    if event.kind.Renamed? && |event.paths| >= 2 {
      RenameKinds(event.paths[0], event.paths[1], p);
    } else {
      KindsOfPaths(ops, event.kind, p);
      assert forall i :: 0 <= i < |ops| ==> ops[i].path == event.paths[i];
      assert p in event.paths <==> exists i :: 0 <= i < |ops| && ops[i].path == p;
    }
  }

  lemma {:induction false} EventsTouch(env: Env, index: Index, events: seq<FileEvent>, p: Path)
    ensures Touched(env, index, InOrder(env, index, OpsOfEvents(events)), TouchOfEvents(env, events, p), p)
    decreases |events|
  {
    if |events| > 0 {
      var next := InOrder(env, index, OpsOfEvent(events[0]));
      EventTouches(env, index, events[0], p);
      EventsTouch(env, next, events[1..], p);
      InOrderConcat(env, index, OpsOfEvent(events[0]), OpsOfEvents(events[1..]));
      TouchedTwice(env, index, next, InOrder(env, next, OpsOfEvents(events[1..])),
                   TouchOfEvent(env, events[0], p), TouchOfEvents(env, events[1..], p), p);
    }
  }

  // ----- one command -----

  lemma {:induction false} RemoveAllAt(index: Index, paths: seq<Path>, p: Path)
    ensures Lookup(RemoveAll(index, paths), p) == if p in paths then None else Lookup(index, p)
    decreases |paths|
  {
    if |paths| > 0 {
      RemoveAllAt(index - {paths[0]}, paths[1..], p);
      assert p in paths <==> p == paths[0] || p in paths[1..];
    }
  }

  lemma {:induction false} ReindexAllAt(env: Env, index: Index, paths: seq<Path>, p: Path)
    ensures Lookup(ReindexAll(env, index, paths), p)
         == if p in paths && env.supported(p) then env.extract(p) else Lookup(index, p)
    decreases |paths|
  {
    if |paths| > 0 {
      var next := if env.supported(paths[0]) then Store(index, paths[0], env.extract(paths[0])) else index;
      ReindexAllAt(env, next, paths[1..], p);
      assert p in paths <==> p == paths[0] || p in paths[1..];
    }
  }

  /** The index behind a command, with its events applied in order. */
  ghost function IndexAfter(env: Env, index: Index, c: Command): Index {
    if IsFile(c) then InOrder(env, index, OpsOfEvents(EventsOf(c))) else Other(env, index, c)
  }

  lemma CommandTouches(env: Env, index: Index, c: Command, p: Path)
    ensures Touched(env, index, IndexAfter(env, index, c), TouchOf(env, c, p), p)
  {
    match c
    case OneEvent(event) =>
      EventsTouch(env, index, [event], p);
      assert [event][1..] == [];
      assert TouchOfEvents(env, [event], p) == TouchOfEvent(env, event, p);
    case Batch(events) =>
      EventsTouch(env, index, events, p);
    case BackgroundRefresh(stale, deleted) =>
      RemoveAllAt(index, deleted, p);
      ReindexAllAt(env, RemoveAll(index, deleted), stale, p);
    case _ =>
  }

  // ----- every answer -----

  function Queries(cmds: seq<Command>): nat {
    if |cmds| == 0 then 0 else (if cmds[0].Query? then 1 else 0) + Queries(cmds[1..])
  }

  /** `cmds[k]` is a query that is reached. */
  predicate Reached(cmds: seq<Command>, k: nat) {
    k < |cmds| && cmds[k].Query? && Shutdown !in cmds[..k]
  }

  /** One by one, the answer to each query holds for each path what the last command before
      it that touched the path left. */
  lemma {:induction false} InOrderAnswer(env: Env, index: Index, cmds: seq<Command>, k: nat, p: Path)
    requires Reached(cmds, k)
    ensures var answers, n := AnswersInOrder(env, index, cmds), Queries(cmds[..k]);
      n < |answers| && Lookup(answers[n], p) == Read(env, index, LastTouch(env, cmds[..k], p), p)
    decreases |cmds|
  {
    if k > 0 {
      var next, rest := IndexAfter(env, index, cmds[0]), cmds[1..];
      assert cmds[..k][0] == cmds[0] && cmds[..k][1..] == rest[..k - 1];
      InOrderAnswer(env, next, rest, k - 1, p);
      CommandTouches(env, index, cmds[0], p);
      var answer := AnswersInOrder(env, next, rest)[Queries(rest[..k - 1])];
      TouchedTwice(env, index, next, answer, TouchOf(env, cmds[0], p), LastTouch(env, rest[..k - 1], p), p);
    }
  }

  /** So are the answers of the loop that coalesces, for every schedule of its drains, if no
      indexed path is forgotten. */
  lemma CoalescedAnswer(env: Env, index: Index, cmds: seq<Command>, schedule: seq<nat>, k: nat, p: Path)
    requires Reached(cmds, k) && NoStaleEntry(env, index, cmds, schedule)
    ensures var answers, n := Answers(env, index, cmds, schedule), Queries(cmds[..k]);
      n < |answers| && Lookup(answers[n], p) == Read(env, index, LastTouch(env, cmds[..k], p), p)
  {
    CoalescingRefines(env, index, cmds, schedule);
    InOrderAnswer(env, index, cmds, k, p);
  }

  /** The last two events on the path create or modify it and then remove it. */
  ghost predicate Vanishes(events: seq<FileEvent>, p: Path) {
    var kinds := KindsOf(OpsOfEvents(events), p);
    && |kinds| >= 2 && kinds[|kinds| - 1].Removed?
    && (kinds[|kinds| - 2].Created? || kinds[|kinds| - 2].Modified?)
  }

  /** Behind one batch, without any condition: a path whose last two events cancel out has
      the entry it had, and every other what its last event left. */
  lemma BatchAnswer(env: Env, index: Index, events: seq<FileEvent>, p: Path)
    ensures var answers := Answers(env, index, [Batch(events), Query], []);
      && |answers| == 1
      && Lookup(answers[0], p)
         == Read(env, index, if Vanishes(events, p) then Untouched else TouchOfEvents(env, events, p), p)
  {
    AnswerBehindBatch(env, index, events);
    BatchAt(env, index, OpsOfEvents(events), p);
    EventsTouch(env, index, events, p);
  }

  /** A file created, modified or renamed alone is found by the next query exactly as it is
      on disk, and a removed one is not found. */
  lemma CreatedIsFound(env: Env, index: Index, p: Path, kind: Kind)
    requires env.indexable(p)
    ensures var answers := Answers(env, index, [Batch([FileEvent(kind, [p])]), Query], []);
      |answers| == 1 && Lookup(answers[0], p) == if kind.Removed? then None else env.extract(p)
  {
    var event := FileEvent(kind, [p]);
    OneEventBatch(env, event, p);
    KindsOfPaths(OpsOfEvent(event), kind, p);
    BatchAnswer(env, index, [event], p);
  }

  lemma OneEventBatch(env: Env, event: FileEvent, p: Path)
    ensures OpsOfEvents([event]) == OpsOfEvent(event)
    ensures TouchOfEvents(env, [event], p) == TouchOfEvent(env, event, p)
    ensures |event.paths| <= 1 || event.kind.Renamed? ==> !Vanishes([event], p)
  {
    assert [event][1..] == [] && OpsOfEvents([event]) == OpsOfEvent(event) + [];
    if event.kind.Renamed? && |event.paths| >= 2 {
      RenameKinds(event.paths[0], event.paths[1], p);
    } else {
      KindsOfPaths(OpsOfEvent(event), event.kind, p);
      KindsAreFew(OpsOfEvent(event), p);
    }
  }

  lemma {:induction false} KindsAreFew(ops: seq<Op>, p: Path)
    ensures |KindsOf(ops, p)| <= |ops|
    decreases |ops|
  {
    if |ops| > 0 {
      KindsAreFew(ops[..|ops| - 1], p);
    }
  }

  /** A rename of two paths leaves the old one absent and the new one as it is on disk. */
  lemma RenameMoves(env: Env, index: Index, before: Path, after: Path)
    requires env.indexable(before) && env.indexable(after) && before != after
    ensures var answers := Answers(env, index, [Batch([FileEvent(Renamed, [before, after])]), Query], []);
      |answers| == 1 && before !in answers[0] && Lookup(answers[0], after) == env.extract(after)
  {
    var event := FileEvent(Renamed, [before, after]);
    OneEventBatch(env, event, before);
    OneEventBatch(env, event, after);
    BatchAnswer(env, index, [event], before);
    BatchAnswer(env, index, [event], after);
  }
}
