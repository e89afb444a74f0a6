/** Waiting for a screen: every interleaving of the atomic steps of a feeder,
    resizers and waiters. */
module WaitProtocol {
  import opened Wrappers

  type Grid = seq<string>
  type Condition = (nat, Grid) -> bool   // what each waiter waits for

  datatype Actor = Feeder | Resizer(r: nat) | Waiter(w: nat)

  datatype FeederPc =
    | Receiving       // waiting for bytes
    | FeederLocked    // holds the terminal, has not fed yet
    | Fed             // holds the terminal, has fed
    | BumpDue         // has released the terminal, will bump
    | Exited          // the strong sender is dropped

  datatype ResizerPc =
    | Idle
    | Locked          // holds the terminal
    | Resized         // has resized the grid, has not tried to upgrade the weak sender
    | Holding         // holds an upgraded sender, will bump
    | Bumped          // has bumped, still holds the upgraded sender
    | Finishing       // holds only the terminal

  datatype WaiterPc = Marking | Locking | Reading | Evaluating | Parked | Matched | Ended | TimedOut

  /** `silences` is history: how many resizes had stayed unannounced when `screen` was read. */
  datatype WaitState = WaitState(pc: WaiterPc, seen: nat, screen: Grid, silences: nat)

  /** Changing the grid bumps the generation, and a waiter checks its condition again only
      when the generation has moved. */
  datatype State = State(
    grid: Grid,
    generation: nat,
    lock: Option<Actor>,
    feeder: FeederPc,
    resizers: map<nat, ResizerPc>,
    waiters: map<nat, WaitState>,
    silences: nat)    // history: how many resizes could not bump

  predicate HoldsSender(pc: ResizerPc) {
    pc.Holding? || pc.Bumped?
  }

  /** The watch channel is open while a strong sender exists. */
  ghost predicate SenderAlive(s: State) {
    !s.feeder.Exited? || exists r :: r in s.resizers && HoldsSender(s.resizers[r])
  }

  datatype Step =
    | FeederLock | Feed(fed: Grid) | FeederUnlock | FeederBump | FeederExit
    | ResizeStart(r: nat) | ResizeLock(r: nat) | ResizeFail(r: nat) | ResizeGrid(r: nat, resized: Grid)
    | ResizeUpgrade(r: nat) | ResizeBump(r: nat) | ResizeDrop(r: nat) | ResizeDone(r: nat)
    | Join(w: nat, version: nat) | Mark(w: nat) | WaiterLock(w: nat) | Read(w: nat) | Evaluate(w: nat)
    | Wake(w: nat) | End(w: nat) | Timeout(w: nat)

  predicate ResizerAt(s: State, r: nat, pc: ResizerPc) {
    r in s.resizers && s.resizers[r] == pc
  }

  predicate WaiterAt(s: State, w: nat, pc: WaiterPc) {
    w in s.waiters && s.waiters[w].pc == pc
  }

  ghost predicate Enabled(s: State, step: Step) {
    match step
    case FeederLock => s.feeder.Receiving? && s.lock.None?
    case Feed(_) => s.feeder.FeederLocked?
    case FeederUnlock => s.feeder.Fed?
    case FeederBump => s.feeder.BumpDue?
    case FeederExit => s.feeder.Receiving?
    case ResizeStart(r) => r !in s.resizers
    case ResizeLock(r) => ResizerAt(s, r, Idle) && s.lock.None?
    case ResizeFail(r) => ResizerAt(s, r, Locked)
    case ResizeGrid(r, _) => ResizerAt(s, r, Locked)
    case ResizeUpgrade(r) => ResizerAt(s, r, Resized)
    case ResizeBump(r) => ResizerAt(s, r, Holding)
    case ResizeDrop(r) => ResizerAt(s, r, Bumped)
    case ResizeDone(r) => ResizerAt(s, r, Finishing)
    case Join(w, version) => w !in s.waiters && version <= s.generation
    case Mark(w) => WaiterAt(s, w, Marking)
    case WaiterLock(w) => WaiterAt(s, w, Locking) && s.lock.None?
    case Read(w) => WaiterAt(s, w, Reading)
    case Evaluate(w) => WaiterAt(s, w, Evaluating)
    case Wake(w) => WaiterAt(s, w, Parked) && s.waiters[w].seen != s.generation
    case End(w) => WaiterAt(s, w, Parked) && s.waiters[w].seen == s.generation && !SenderAlive(s)
    case Timeout(w) => WaiterAt(s, w, Parked)
  }

  function AtResizer(s: State, r: nat, pc: ResizerPc): State {
    s.(resizers := s.resizers[r := pc])
  }

  function AtWaiter(s: State, w: nat, pc: WaiterPc): State
    requires w in s.waiters
  {
    s.(waiters := s.waiters[w := s.waiters[w].(pc := pc)])
  }

  ghost function Apply(met: Condition, s: State, step: Step): State
    requires Enabled(s, step)
  {
    match step
    case FeederLock => s.(feeder := FeederLocked, lock := Some(Feeder))
    case Feed(g) => s.(feeder := Fed, grid := g)
    case FeederUnlock => s.(feeder := BumpDue, lock := None)
    case FeederBump => s.(feeder := Receiving, generation := s.generation + 1)
    case FeederExit => s.(feeder := Exited)
    case ResizeStart(r) => AtResizer(s, r, Idle)
    case ResizeLock(r) => AtResizer(s, r, Locked).(lock := Some(Resizer(r)))
    case ResizeFail(r) => AtResizer(s, r, Idle).(lock := None)
    case ResizeGrid(r, g) => AtResizer(s, r, Resized).(grid := g)
    case ResizeUpgrade(r) =>
      if SenderAlive(s) then AtResizer(s, r, Holding) else AtResizer(s, r, Finishing).(silences := s.silences + 1)
    case ResizeBump(r) => AtResizer(s, r, Bumped).(generation := s.generation + 1)
    case ResizeDrop(r) => AtResizer(s, r, Finishing)
    case ResizeDone(r) => AtResizer(s, r, Idle).(lock := None)
    case Join(w, version) => s.(waiters := s.waiters[w := WaitState(Marking, version, [], s.silences)])
    case Mark(w) => s.(waiters := s.waiters[w := s.waiters[w].(pc := Locking, seen := s.generation)])
    case WaiterLock(w) => AtWaiter(s, w, Reading).(lock := Some(Waiter(w)))
    case Read(w) => s.(waiters := s.waiters[w := s.waiters[w].(pc := Evaluating, screen := s.grid, silences := s.silences)])
    case Evaluate(w) =>
      AtWaiter(s, w, if met(w, s.waiters[w].screen) then Matched else Parked).(lock := None)
    case Wake(w) => AtWaiter(s, w, Marking)
    case End(w) => AtWaiter(s, w, Ended)
    case Timeout(w) => AtWaiter(s, w, TimedOut)
  }

  ghost predicate Start(s: State) {
    && s.lock.None? && s.feeder.Receiving? && s.silences == 0
    && s.resizers == map[] && s.waiters == map[]
  }

  /** `s'` is where the run of `steps` from `s` ends. */
  ghost predicate Runs(met: Condition, s: State, steps: seq<Step>, s': State)
    decreases |steps|
  {
    if |steps| == 0 then s == s'
    else Enabled(s, steps[0]) && Runs(met, Apply(met, s, steps[0]), steps[1..], s')
  }

  // ----- what every step keeps -----

  ghost predicate InSection(s: State, w: nat) {
    WaiterAt(s, w, Reading) || WaiterAt(s, w, Evaluating)
  }

  ghost predicate FeederHolds(s: State) {
    s.feeder.FeederLocked? || s.feeder.Fed? <==> s.lock == Some(Feeder)
  }

  ghost predicate ResizerHolds(s: State, r: nat) {
    r in s.resizers && !s.resizers[r].Idle? <==> s.lock == Some(Resizer(r))
  }

  ghost predicate WaiterHolds(s: State, w: nat) {
    InSection(s, w) <==> s.lock == Some(Waiter(w))
  }

  /** Whoever is inside a critical section holds the lock, and only they. */
  ghost predicate LockIsHeld(s: State) {
    FeederHolds(s) && (forall r :: ResizerHolds(s, r)) && (forall w :: WaiterHolds(s, w))
  }

  /** Some writer has changed the grid and has yet to bump, or to fail to. */
  ghost predicate ChangePending(s: State) {
    || s.feeder.Fed? || s.feeder.BumpDue?
    || exists r :: r in s.resizers && (s.resizers[r].Resized? || s.resizers[r].Holding?)
  }

  ghost predicate SomeResized(s: State) {
    exists r :: r in s.resizers && s.resizers[r].Resized?
  }

  /** Something has changed the grid, or may have, since the waiter read its screen. */
  ghost predicate Outdated(s: State, x: WaitState) {
    x.seen < s.generation || ChangePending(s) || x.silences < s.silences
  }

  ghost predicate WaiterOk(met: Condition, s: State, w: nat)
    requires w in s.waiters
  {
    var x := s.waiters[w];
    && x.seen <= s.generation && x.silences <= s.silences
    && (x.pc.Evaluating? ==> x.screen == s.grid)
    && (x.pc.Matched? ==> met(w, x.screen))
    && (x.pc.Parked? ==> !met(w, x.screen) && (x.screen == s.grid || Outdated(s, x)))
    && (x.pc.Ended? ==>
        !SenderAlive(s) && !met(w, x.screen) && (x.screen == s.grid || SomeResized(s) || x.silences < s.silences))
  }

  ghost predicate Inv(met: Condition, s: State) {
    && LockIsHeld(s)
    && (s.silences > 0 ==> !SenderAlive(s))
    && forall w :: w in s.waiters ==> WaiterOk(met, s, w)
  }

  ghost function ResizerOf(step: Step): nat {
    match step
    case ResizeStart(r) => r
    case ResizeLock(r) => r
    case ResizeFail(r) => r
    case ResizeGrid(r, _) => r
    case ResizeUpgrade(r) => r
    case ResizeBump(r) => r
    case ResizeDrop(r) => r
    case ResizeDone(r) => r
    case _ => 0
  }

  predicate WaiterStep(step: Step) {
    || step.Join? || step.Mark? || step.WaiterLock? || step.Read? || step.Evaluate?
    || step.Wake? || step.End? || step.Timeout?
  }

  ghost function WaiterOf(step: Step): nat {
    match step
    case Join(w, _) => w
    case Mark(w) => w
    case WaiterLock(w) => w
    case Read(w) => w
    case Evaluate(w) => w
    case Wake(w) => w
    case End(w) => w
    case Timeout(w) => w
    case _ => 0
  }

  lemma StepKeepsFeederLock(met: Condition, s: State, step: Step)
    requires LockIsHeld(s) && Enabled(s, step)
    ensures FeederHolds(Apply(met, s, step))
  {
    assert ResizerHolds(s, ResizerOf(step)) && WaiterHolds(s, WaiterOf(step));
  }

  lemma StepKeepsResizerLock(met: Condition, s: State, step: Step, r: nat)
    requires LockIsHeld(s) && Enabled(s, step)
    ensures ResizerHolds(Apply(met, s, step), r)
  {
    assert ResizerHolds(s, r) && ResizerHolds(s, ResizerOf(step)) && WaiterHolds(s, WaiterOf(step));
  }

  lemma StepKeepsWaiterLock(met: Condition, s: State, step: Step, w: nat)
    requires LockIsHeld(s) && Enabled(s, step)
    ensures WaiterHolds(Apply(met, s, step), w)
  {
    assert WaiterHolds(s, w) && ResizerHolds(s, ResizerOf(step)) && WaiterHolds(s, WaiterOf(step));
  }

  lemma StepKeepsLock(met: Condition, s: State, step: Step)
    requires LockIsHeld(s) && Enabled(s, step)
    ensures LockIsHeld(Apply(met, s, step))
  {
    StepKeepsFeederLock(met, s, step);
    forall r ensures ResizerHolds(Apply(met, s, step), r) {
      StepKeepsResizerLock(met, s, step, r);
    }
    forall w ensures WaiterHolds(Apply(met, s, step), w) {
      StepKeepsWaiterLock(met, s, step, w);
    }
  }

  /** A pending change stays pending until its bump. */
  lemma PendingUntilBump(met: Condition, s: State, step: Step)
    requires LockIsHeld(s) && Enabled(s, step) && ChangePending(s)
    ensures var s' := Apply(met, s, step);
      ChangePending(s') || s'.generation > s.generation || s'.silences > s.silences
  {
    var s' := Apply(met, s, step);
    assert ResizerHolds(s, ResizerOf(step));
    if r :| r in s.resizers && (s.resizers[r].Resized? || s.resizers[r].Holding?) {
      assert ResizerHolds(s, r);
      assert r in s'.resizers;
    }
  }

  /** A closed channel stays closed. */
  lemma ClosedStaysClosed(met: Condition, s: State, step: Step)
    requires Enabled(s, step) && !SenderAlive(s)
    ensures !SenderAlive(Apply(met, s, step))
  {
  }

  lemma GridChangeIsPending(met: Condition, s: State, step: Step)
    requires Enabled(s, step) && Apply(met, s, step).grid != s.grid
    ensures ChangePending(Apply(met, s, step))
    ensures s.feeder.Exited? ==> SomeResized(Apply(met, s, step))
  {
    var s' := Apply(met, s, step);
    if step.ResizeGrid? {
      assert s'.resizers[step.r].Resized?;
    }
  }

  lemma ResizedUntilSilent(met: Condition, s: State, step: Step)
    requires LockIsHeld(s) && Enabled(s, step) && !SenderAlive(s) && SomeResized(s)
    ensures var s' := Apply(met, s, step); SomeResized(s') || s'.silences > s.silences
  {
    var s' := Apply(met, s, step);
    var r :| r in s.resizers && s.resizers[r].Resized?;
    assert r in s'.resizers;
  }

  lemma HistoryGrows(met: Condition, s: State, step: Step)
    requires Enabled(s, step)
    ensures Apply(met, s, step).generation >= s.generation && Apply(met, s, step).silences >= s.silences
  {
  }

  /** Nobody changes the grid under a waiter that holds the lock. */
  lemma GridIsLocked(met: Condition, s: State, step: Step, w: nat)
    requires LockIsHeld(s) && Enabled(s, step) && InSection(s, w)
    ensures Apply(met, s, step).grid == s.grid
  {
    assert WaiterHolds(s, w) && FeederHolds(s) && ResizerHolds(s, ResizerOf(step));
  }

  lemma StaysOutdated(met: Condition, s: State, step: Step, x: WaitState)
    requires LockIsHeld(s) && Enabled(s, step)
    requires x.seen <= s.generation && x.silences <= s.silences
    requires x.screen == s.grid || Outdated(s, x)
    ensures x.screen == Apply(met, s, step).grid || Outdated(Apply(met, s, step), x)
  {
    HistoryGrows(met, s, step);
    if ChangePending(s) {
      PendingUntilBump(met, s, step);
    } else if Apply(met, s, step).grid != s.grid {
      GridChangeIsPending(met, s, step);
    }
  }

  lemma StaysEnded(met: Condition, s: State, step: Step, x: WaitState)
    requires LockIsHeld(s) && Enabled(s, step) && !SenderAlive(s) && x.silences <= s.silences
    requires x.screen == s.grid || SomeResized(s) || x.silences < s.silences
    ensures var s' := Apply(met, s, step);
      !SenderAlive(s') && (x.screen == s'.grid || SomeResized(s') || x.silences < s'.silences)
  {
    HistoryGrows(met, s, step);
    ClosedStaysClosed(met, s, step);
    if SomeResized(s) {
      ResizedUntilSilent(met, s, step);
    } else if Apply(met, s, step).grid != s.grid {
      GridChangeIsPending(met, s, step);
    }
  }

  /** A step of anyone else. */
  lemma OtherStepKeepsWaiter(met: Condition, s: State, step: Step, w: nat)
    requires Inv(met, s) && Enabled(s, step) && w in s.waiters
    requires w in Apply(met, s, step).waiters && Apply(met, s, step).waiters[w] == s.waiters[w]
    ensures WaiterOk(met, Apply(met, s, step), w)
  {
    var x := s.waiters[w];
    assert WaiterOk(met, s, w);
    HistoryGrows(met, s, step);
    match x.pc
    case Evaluating => GridIsLocked(met, s, step, w);
    case Parked => StaysOutdated(met, s, step, x);
    case Ended => StaysEnded(met, s, step, x);
    case _ =>
  }

  /** A waiter's own step. */
  lemma OwnStepKeepsWaiter(met: Condition, s: State, step: Step, w: nat)
    requires Inv(met, s) && Enabled(s, step) && w in Apply(met, s, step).waiters
    requires WaiterStep(step)
    requires WaiterOf(step) == w
    ensures WaiterOk(met, Apply(met, s, step), w)
  {
    if w in s.waiters {
      assert WaiterOk(met, s, w);
    }
    if step.End? {
      SenderIsSame(met, s, step);
      if ChangePending(s) {
        NothingPendingWhenClosed(s);
      }
    }
  }

  lemma SenderIsSame(met: Condition, s: State, step: Step)
    requires Enabled(s, step) && step.End?
    ensures SenderAlive(Apply(met, s, step)) == SenderAlive(s) && SomeResized(Apply(met, s, step)) == SomeResized(s)
  {
  }

  /** With the channel closed, the only change that can be pending is a resize in progress. */
  lemma NothingPendingWhenClosed(s: State)
    requires !SenderAlive(s) && ChangePending(s)
    ensures SomeResized(s)
  {
    var r :| r in s.resizers && (s.resizers[r].Resized? || s.resizers[r].Holding?);
    assert s.resizers[r].Resized?;
  }

  lemma StepKeepsWaiter(met: Condition, s: State, step: Step, w: nat)
    requires Inv(met, s) && Enabled(s, step) && w in Apply(met, s, step).waiters
    ensures WaiterOk(met, Apply(met, s, step), w)
  {
    if WaiterStep(step) && WaiterOf(step) == w {
      OwnStepKeepsWaiter(met, s, step, w);
    } else {
      OtherStepKeepsWaiter(met, s, step, w);
    }
  }

  lemma StepKeepsInv(met: Condition, s: State, step: Step)
    requires Inv(met, s) && Enabled(s, step)
    ensures Inv(met, Apply(met, s, step))
  {
    StepKeepsLock(met, s, step);
    if !SenderAlive(s) {
      ClosedStaysClosed(met, s, step);
    }
    forall w | w in Apply(met, s, step).waiters ensures WaiterOk(met, Apply(met, s, step), w) {
      StepKeepsWaiter(met, s, step, w);
    }
  }

  lemma {:induction false} RunKeepsInv(met: Condition, s: State, steps: seq<Step>, s': State)
    requires Inv(met, s) && Runs(met, s, steps, s')
    ensures Inv(met, s')
    decreases |steps|
  {
    if |steps| > 0 {
      StepKeepsInv(met, s, steps[0]);
      RunKeepsInv(met, Apply(met, s, steps[0]), steps[1..], s');
    }
  }

  // ----- the claims, over every run -----

  /** No lost wakeup: when a waiter is parked on the current generation, no change is
      pending and no resize has gone unannounced since it read the screen (as none does
      while the channel is open), its condition is false on the current grid. */
  lemma NoLostWakeup(met: Condition, s: State, steps: seq<Step>, s': State, w: nat)
    requires Start(s) && Runs(met, s, steps, s')
    requires WaiterAt(s', w, Parked) && s'.waiters[w].seen == s'.generation
    requires !ChangePending(s') && (SenderAlive(s') || s'.waiters[w].silences == s'.silences)
    ensures !met(w, s'.grid)
  {
    RunKeepsInv(met, s, steps, s');
    assert WaiterOk(met, s', w);
  }

  /** A wait that ended has a false condition on the final grid, unless a resize stayed
      unannounced since the waiter read the screen, or is about to. */
  lemma EndedMeansUnmet(met: Condition, s: State, steps: seq<Step>, s': State, w: nat)
    requires Start(s) && Runs(met, s, steps, s')
    requires WaiterAt(s', w, Ended) && s'.waiters[w].silences == s'.silences && !SomeResized(s')
    ensures !met(w, s'.grid)
  {
    RunKeepsInv(met, s, steps, s');
    assert WaiterOk(met, s', w);
  }

  /** A matched wait saw its condition hold on a screen read under the lock. */
  lemma MatchedMeansMet(met: Condition, s: State, steps: seq<Step>, s': State, w: nat)
    requires Start(s) && Runs(met, s, steps, s') && WaiterAt(s', w, Matched)
    ensures met(w, s'.waiters[w].screen)
  {
    RunKeepsInv(met, s, steps, s');
    assert WaiterOk(met, s', w);
  }

  ghost predicate WriterStep(step: Step) {
    step.FeederUnlock? || step.FeederBump? || step.ResizeUpgrade? || step.ResizeBump?
  }

  /** While the channel is open, a parked waiter whose condition holds is woken by at most
      two steps that the pending writer alone takes. */
  lemma WakeupIsOnItsWay(met: Condition, s: State, steps: seq<Step>, s': State, w: nat)
    returns (more: seq<Step>, s'': State)
    requires Start(s) && Runs(met, s, steps, s')
    requires WaiterAt(s', w, Parked) && met(w, s'.grid) && SenderAlive(s')
    ensures Runs(met, s', more, s'') && |more| <= 2
    ensures forall i :: 0 <= i < |more| ==> WriterStep(more[i])
    ensures Enabled(s'', Wake(w))
  {
    RunKeepsInv(met, s, steps, s');
    assert WaiterOk(met, s', w);
    if s'.waiters[w].seen != s'.generation {
      return [], s';
    }
    more, s'' := FinishPending(met, s');
  }

  /** With the channel open, a pending writer can bump without waiting for anyone. */
  lemma FinishPending(met: Condition, s: State) returns (more: seq<Step>, s': State)
    requires SenderAlive(s) && ChangePending(s)
    ensures Runs(met, s, more, s') && |more| <= 2
    ensures forall i :: 0 <= i < |more| ==> WriterStep(more[i])
    ensures s'.generation == s.generation + 1 && s'.waiters == s.waiters
  {
    if s.feeder.Fed? {
      TwoSteps(met, s, FeederUnlock, FeederBump);
      return [FeederUnlock, FeederBump], Apply(met, Apply(met, s, FeederUnlock), FeederBump);
    }
    if s.feeder.BumpDue? {
      OneStep(met, s, FeederBump);
      return [FeederBump], Apply(met, s, FeederBump);
    }
    var r :| r in s.resizers && (s.resizers[r].Resized? || s.resizers[r].Holding?);
    if s.resizers[r].Resized? {
      TwoSteps(met, s, ResizeUpgrade(r), ResizeBump(r));
      return [ResizeUpgrade(r), ResizeBump(r)], Apply(met, Apply(met, s, ResizeUpgrade(r)), ResizeBump(r));
    }
    OneStep(met, s, ResizeBump(r));
    return [ResizeBump(r)], Apply(met, s, ResizeBump(r));
  }

  lemma OneStep(met: Condition, s: State, a: Step)
    requires Enabled(s, a)
    ensures Runs(met, s, [a], Apply(met, s, a))
  {
    assert [a][1..] == [];
  }

  lemma TwoSteps(met: Condition, s: State, a: Step, b: Step)
    requires Enabled(s, a) && Enabled(Apply(met, s, a), b)
    ensures Runs(met, s, [a, b], Apply(met, Apply(met, s, a), b))
  {
    assert [a, b][1..] == [b];
    OneStep(met, Apply(met, s, a), b);
  }

  lemma FirstStep(met: Condition, s: State, a: Step, rest: seq<Step>, s': State)
    requires Enabled(s, a) && Runs(met, Apply(met, s, a), rest, s')
    ensures Runs(met, s, [a] + rest, s')
  {
    assert ([a] + rest)[1..] == rest;
  }

  lemma {:induction false} RunsCompose(met: Condition, s: State, a: seq<Step>, m: State, b: seq<Step>, s': State)
    requires Runs(met, s, a, m) && Runs(met, m, b, s')
    ensures Runs(met, s, a + b, s')
    decreases |a|
  {
    if |a| == 0 {
      assert a + b == b;
    } else {
      assert (a + b)[1..] == a[1..] + b;
      RunsCompose(met, Apply(met, s, a[0]), a[1..], m, b, s');
    }
  }

  /** A waiter checks an unmet condition and parks, and then the feeder exits. */
  lemma ParksThenExits(met: Condition, s: State, w: nat) returns (steps: seq<Step>, s': State)
    requires Start(s) && !met(w, s.grid)
    ensures Runs(met, s, steps, s')
    ensures s' == s.(feeder := Exited, waiters := map[w := WaitState(Parked, s.generation, s.grid, s.silences)])
  {
    var m;
    steps, m := JoinsAndReads(met, s, w);
    TwoSteps(met, m, Evaluate(w), FeederExit);
    s' := Apply(met, Apply(met, m, Evaluate(w)), FeederExit);
    assert s'.waiters == map[w := WaitState(Parked, s.generation, s.grid, s.silences)];
    RunsCompose(met, s, steps, m, [Evaluate(w), FeederExit], s');
    steps := steps + [Evaluate(w), FeederExit];
  }

  lemma JoinsAndReads(met: Condition, s: State, w: nat) returns (steps: seq<Step>, s': State)
    requires Start(s)
    ensures Runs(met, s, steps, s')
    ensures s' == s.(lock := Some(Waiter(w)), waiters := map[w := WaitState(Evaluating, s.generation, s.grid, s.silences)])
  {
    var first, m := JoinsAndMarks(met, s, w);
    s' := Apply(met, Apply(met, m, WaiterLock(w)), Read(w));
    assert s'.waiters == map[w := WaitState(Evaluating, s.generation, s.grid, s.silences)];
    TwoSteps(met, m, WaiterLock(w), Read(w));
    RunsCompose(met, s, first, m, [WaiterLock(w), Read(w)], s');
    steps := first + [WaiterLock(w), Read(w)];
  }

  lemma JoinsAndMarks(met: Condition, s: State, w: nat) returns (steps: seq<Step>, s': State)
    requires Start(s)
    ensures Runs(met, s, steps, s')
    ensures s' == s.(waiters := map[w := WaitState(Locking, s.generation, [], s.silences)])
  {
    var join := Join(w, s.generation);
    s' := Apply(met, Apply(met, s, join), Mark(w));
    assert s'.waiters == map[w := WaitState(Locking, s.generation, [], s.silences)];
    TwoSteps(met, s, join, Mark(w));
    steps := [join, Mark(w)];
  }

  lemma ResizesLocked(met: Condition, s: State, r: nat, after: Grid) returns (steps: seq<Step>, s': State)
    requires s.lock.None? && s.resizers == map[]
    ensures Runs(met, s, steps, s')
    ensures s' == s.(grid := after, lock := Some(Resizer(r)), resizers := map[r := Resized])
  {
    var m := Apply(met, s, ResizeStart(r));
    s' := Apply(met, Apply(met, m, ResizeLock(r)), ResizeGrid(r, after));
    assert s'.resizers == map[r := Resized];
    TwoSteps(met, m, ResizeLock(r), ResizeGrid(r, after));
    FirstStep(met, s, ResizeStart(r), [ResizeLock(r), ResizeGrid(r, after)], s');
    steps := [ResizeStart(r)] + [ResizeLock(r), ResizeGrid(r, after)];
  }

  lemma EndsUnbumped(met: Condition, s: State, w: nat, r: nat) returns (steps: seq<Step>, s': State)
    requires s.feeder.Exited? && s.resizers == map[r := Resized]
    requires WaiterAt(s, w, Parked) && s.waiters[w].seen == s.generation
    ensures Runs(met, s, steps, s') && WaiterAt(s', w, Ended) && s'.grid == s.grid
  {
    var m := Apply(met, s, ResizeUpgrade(r));
    assert m.resizers == map[r := Finishing];
    TwoSteps(met, s, ResizeUpgrade(r), End(w));
    steps, s' := [ResizeUpgrade(r), End(w)], Apply(met, m, End(w));
  }

  /** The exception is real: a resize after the feeder's exit changes the grid without a
      bump, so a waiter can end although its condition holds on the final grid. */
  lemma LateResizeIsMissed(met: Condition, s: State, w: nat, r: nat, after: Grid)
    requires Start(s) && !met(w, s.grid) && met(w, after)
    ensures exists steps, s' :: Runs(met, s, steps, s') && WaiterAt(s', w, Ended) && met(w, s'.grid)
  {
    var parks, m := ParksThenExits(met, s, w);
    var resizes, n := ResizesLocked(met, m, r, after);
    var ends, s' := EndsUnbumped(met, n, w, r);
    RunsCompose(met, m, resizes, n, ends, s');
    RunsCompose(met, s, parks, m, resizes + ends, s');
  }
}
