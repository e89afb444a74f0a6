/** The loop that drives a bound prompt, from one round to the next: `run_doggy_round_end`. */
module HostLoop {
  import opened Wrappers
  import opened Rounds
  import opened RoundLoop
  import opened Deferrals
  import Decimal

  const MAX_ROUNDS_PER_PROMPT: nat := 100

  /** What the host sees of one round, in the order it looks. */
  datatype HostRound = HostRound(
    completed: bool,      // the model's round completed, without a refusal
    bound: bool,          // a goal is active
    budgetHit: bool,      // the token budget is used up
    stillBound: bool,     // the goal is active after its updates are drained
    closedOut: bool,      // verification accepted and the goal is closed already
    openItems: OpenItems,
    verification: VerificationOutcome,
    activity: RoundActivity,
    active: bool,         // the goal is still active when a cut-off is deferred
    criteria: nat)        // how many acceptance criteria its plan lists, if it can be read

  // ----- one round -----

  function InputOf(r: HostRound): RoundInput {
    RoundInput(true, r.openItems, false, false, r.verification, r.activity)
  }

  predicate Measured(r: HostRound) {
    !r.budgetHit && r.stillBound && !r.closedOut
  }

  /** The round is cut off for want of progress. */
  predicate IsCutOff(l: Ledger, r: HostRound) {
    var decision := DecisionOn(l, InputOf(r));
    Measured(r) && decision.TaskPaused? && decision.reason.NoProgress?
  }

  /** A cut-off is deferred for the whole goal, which leaves no criterion to work on; the run
      goes on only if the plan lists none. */
  predicate Resumes(l: Ledger, r: HostRound) {
    IsCutOff(l, r) && r.active && r.criteria == 0
  }

  predicate GoesOn(l: Ledger, r: HostRound) {
    Measured(r) && (DecisionOn(l, InputOf(r)).RunAnotherRound? || Resumes(l, r))
  }

  function LedgerAfter(l: Ledger, r: HostRound): Ledger {
    if !Measured(r) then l
    else if Resumes(l, r) then WithoutStreaks(After(l, InputOf(r)))
    else After(l, InputOf(r))
  }

  /** The one way to Done: no item is open and verification accepted. */
  predicate Accepted(r: HostRound) {
    Measured(r) && r.openItems.items == [] && r.verification.Achieved?
  }

  predicate Running(m: TaskMachine)
    reads m
  {
    m.status == Active && m.phase == Executing
  }

  const IDLE_BLOCKER :=
    " consecutive rounds ended without a single tool call \U{2014} the run is narrating rather than "
    + "implementing"

  const REPEATED_BLOCKER :=
    " consecutive rounds left the open criteria, the verification verdict and the tools used "
    + "identical \U{2014} retrying this is not converging"

  function Blocker(repeats: nat, reason: StallReason): string {
    Decimal.Render(repeats) + if reason.Idle? then IDLE_BLOCKER else REPEATED_BLOCKER
  }

  /** `doggy_cut_off_stalled_work` */
  method CutOffStalledWork(
    ledger: RoundLedger, tracker: GoalTracker, r: HostRound, repeats: nat, reason: StallReason)
    returns (goesOn: bool)
    modifies ledger, tracker
    ensures goesOn <==> r.active && r.criteria == 0
    ensures ledger.Contents() == if goesOn then WithoutStreaks(old(ledger.Contents())) else old(ledger.Contents())
    ensures if r.active then BlockedByOne(old(tracker.deferred), tracker.deferred)
      else tracker.deferred == old(tracker.deferred)
    ensures r.active && !Names(old(tracker.deferred), None) ==>
      tracker.deferred == old(tracker.deferred) + [Deferral(None, Blocker(repeats, reason))]
  {
    var ended := tracker.DeferBlockerOrEndRun(r.active, r.criteria, Blocker(repeats, reason));
    if ended.None? || ended.value {
      return false;
    }
    ledger.ResetStreaks();
    return true;
  }

  /** The message a measured round is followed by, if another is asked for. */
  function MessageAfter(l: Ledger, r: HostRound): Option<Injection> {
    var decision := DecisionOn(l, InputOf(r));
    if Measured(r) && decision.RunAnotherRound? then Some(decision.injection) else None
  }

  /** Why the machine is paused, if the round pauses it. */
  function PauseAfter(l: Ledger, r: HostRound): Option<PauseReason> {
    if r.budgetHit then Some(BudgetExhausted)
    else if !r.stillBound then Some(InfraError)
    else if IsCutOff(l, r) then Some(DecisionOn(l, InputOf(r)).reason)
    else None
  }

  /** `run_doggy_round_end`; `sent` is what is injected. */
  method RunRoundEnd(machine: TaskMachine, ledger: RoundLedger, tracker: GoalTracker, r: HostRound)
    returns (goesOn: bool, sent: Option<Injection>)
    requires Running(machine)
    modifies machine, ledger, tracker
    ensures goesOn == GoesOn(old(ledger.Contents()), r)
    ensures ledger.Contents() == LedgerAfter(old(ledger.Contents()), r)
    ensures machine.status == Done <==> Accepted(r)
    ensures goesOn ==> Running(machine) || machine.status == Paused
    ensures sent == MessageAfter(old(ledger.Contents()), r)
    ensures machine.status == Paused <==> PauseAfter(old(ledger.Contents()), r).Some?
    ensures machine.status == Paused ==> machine.pauseReason == PauseAfter(old(ledger.Contents()), r)
    ensures if IsCutOff(old(ledger.Contents()), r) && r.active then BlockedByOne(old(tracker.deferred), tracker.deferred)
      else tracker.deferred == old(tracker.deferred)
  {
    if r.budgetHit {
      machine.Apply(TaskPaused(BudgetExhausted));
      return false, None;
    }
    if !r.stillBound {
      machine.Apply(TaskPaused(InfraError));
      return false, None;
    }
    if r.closedOut {
      return false, None;
    }
    DoneIff(ledger.Contents(), InputOf(r));
    var stall, delta := ledger.Observe(r.openItems, r.verification, r.activity);
    var decision := DecideAfterRound(
      RoundEnd(true, r.openItems, false, false, r.verification, stall, delta));
    machine.Apply(decision);
    sent := None;
    match decision {
      case TaskPaused(NoProgress(repeats, reason)) =>
        goesOn := CutOffStalledWork(ledger, tracker, r, repeats, reason);
      case RunAnotherRound(injection) =>
        machine.MarkExecuting();
        goesOn, sent := true, Some(injection);
      case _ =>
        goesOn := false;
    }
  }

  // ----- the loop -----

  predicate AllGoOn(l: Ledger, rounds: seq<HostRound>)
    decreases |rounds|
  {
    |rounds| == 0 || (GoesOn(l, rounds[0]) && AllGoOn(LedgerAfter(l, rounds[0]), rounds[1..]))
  }

  function LedgerAfterAll(l: Ledger, rounds: seq<HostRound>): Ledger
    decreases |rounds|
  {
    if |rounds| == 0 then l else LedgerAfterAll(LedgerAfter(l, rounds[0]), rounds[1..])
  }

  lemma {:induction false} OneMoreRound(l: Ledger, rounds: seq<HostRound>, r: HostRound)
    ensures LedgerAfterAll(l, rounds + [r]) == LedgerAfter(LedgerAfterAll(l, rounds), r)
    ensures AllGoOn(l, rounds + [r]) <==> AllGoOn(l, rounds) && GoesOn(LedgerAfterAll(l, rounds), r)
    decreases |rounds|
  {
    if |rounds| == 0 {
      assert rounds + [r] == [r] && [r][1..] == [];
    } else {
      assert (rounds + [r])[1..] == rounds[1..] + [r];
      OneMoreRound(LedgerAfter(l, rounds[0]), rounds[1..], r);
    }
  }

  /** Rounds that the host asks for anything at all. */
  predicate Driven(r: HostRound) {
    r.completed && r.bound
  }

  /** An accepted round never leads to another. */
  lemma DoneEnds(l: Ledger, r: HostRound)
    ensures Accepted(r) ==> !GoesOn(l, r)
  {
    DoneIff(l, InputOf(r));
  }

  /** The first `n` rounds were all asked for and all led to another. */
  ghost predicate GrantedUpTo(l: Ledger, rounds: seq<HostRound>, n: nat)
    requires n <= |rounds|
  {
    AllGoOn(l, rounds[..n]) && forall i :: 0 <= i < n ==> Driven(rounds[i])
  }

  ghost function LedgerAt(l: Ledger, rounds: seq<HostRound>, n: nat): Ledger
    requires n <= |rounds|
  {
    LedgerAfterAll(l, rounds[..n])
  }

  lemma LedgerNext(l: Ledger, rounds: seq<HostRound>, n: nat)
    requires n < |rounds|
    ensures LedgerAt(l, rounds, n + 1) == LedgerAfter(LedgerAt(l, rounds, n), rounds[n])
    ensures AllGoOn(l, rounds[..n + 1]) <==> AllGoOn(l, rounds[..n]) && GoesOn(LedgerAt(l, rounds, n), rounds[n])
  {
    OneMoreRound(l, rounds[..n], rounds[n]);
    assert rounds[..n] + [rounds[n]] == rounds[..n + 1];
  }

  lemma GrantNext(l: Ledger, rounds: seq<HostRound>, n: nat)
    requires n < |rounds| && GrantedUpTo(l, rounds, n) && Driven(rounds[n])
    requires GoesOn(LedgerAt(l, rounds, n), rounds[n])
    ensures GrantedUpTo(l, rounds, n + 1)
  {
    LedgerNext(l, rounds, n);
  }

  /** Round `n` ended the loop. */
  ghost predicate EndedAt(l: Ledger, rounds: seq<HostRound>, n: nat)
    requires n < |rounds|
  {
    !Driven(rounds[n]) || !GoesOn(LedgerAt(l, rounds, n), rounds[n])
  }

  /** Round `n` ended the loop with the goal accepted. */
  predicate AcceptedAt(rounds: seq<HostRound>, n: nat) {
    n < |rounds| && n < MAX_ROUNDS_PER_PROMPT && Driven(rounds[n]) && Accepted(rounds[n])
  }

  /** The completed round `n` of a bound prompt; a paused machine is started again. */
  method DriveRound(
    machine: TaskMachine, ledger: RoundLedger, tracker: GoalTracker, rounds: seq<HostRound>, n: nat,
    ghost start: Ledger, ghost before: seq<Deferral>)
    returns (goesOn: bool)
    requires n < |rounds| && n < MAX_ROUNDS_PER_PROMPT && Driven(rounds[n]) && GrantedUpTo(start, rounds, n)
    requires ledger.Contents() == LedgerAt(start, rounds, n)
    requires machine.status == Active ==> machine.phase == Executing
    requires BlockedAtMost(before, tracker.deferred)
    modifies machine, ledger, tracker
    ensures BlockedAtMost(before, tracker.deferred)
    ensures goesOn ==> GrantedUpTo(start, rounds, n + 1) && ledger.Contents() == LedgerAt(start, rounds, n + 1)
    ensures goesOn ==> machine.status != Done && (machine.status == Active ==> machine.phase == Executing)
    ensures !goesOn ==> EndedAt(start, rounds, n) && (machine.status == Done <==> AcceptedAt(rounds, n))
  {
    if machine.status != Active {
      machine.Start();
    }
    LedgerNext(start, rounds, n);
    DoneEnds(ledger.Contents(), rounds[n]);
    ghost var earlier := tracker.deferred;
    var sent;
    goesOn, sent := RunRoundEnd(machine, ledger, tracker, rounds[n]);
    BlockedOnlyOnce(before, earlier, tracker.deferred);
    if goesOn {
      GrantNext(start, rounds, n);
    }
  }

  /** `granted` rounds led to another one; the one behind them, if there is one, ended the
      loop, unless the cap did. */
  method DriveRounds(machine: TaskMachine, ledger: RoundLedger, tracker: GoalTracker, rounds: seq<HostRound>)
    returns (granted: nat)
    requires machine.status == Active ==> machine.phase == Executing
    requires machine.status != Done
    modifies machine, ledger, tracker
    ensures BlockedAtMost(old(tracker.deferred), tracker.deferred)
    ensures granted <= |rounds| && granted <= MAX_ROUNDS_PER_PROMPT
    ensures GrantedUpTo(old(ledger.Contents()), rounds, granted)
    ensures granted < |rounds| && granted < MAX_ROUNDS_PER_PROMPT ==> EndedAt(old(ledger.Contents()), rounds, granted)
    ensures machine.status == Done <==> AcceptedAt(rounds, granted)
  {
    granted := 0;
    ghost var start, before := ledger.Contents(), tracker.deferred;
    while granted < |rounds| && granted < MAX_ROUNDS_PER_PROMPT
      invariant granted <= |rounds| && granted <= MAX_ROUNDS_PER_PROMPT
      invariant machine.status == Active ==> machine.phase == Executing
      invariant machine.status != Done
      invariant BlockedAtMost(before, tracker.deferred)
      invariant GrantedUpTo(start, rounds, granted) && ledger.Contents() == LedgerAt(start, rounds, granted)
    {
      var r := rounds[granted];
      if !r.completed || !r.bound {
        return;
      }
      var goesOn := DriveRound(machine, ledger, tracker, rounds, granted, start, before);
      if !goesOn {
        return;
      }
      granted := granted + 1;
    }
  }

  /** A prompt starts with a new machine and a new ledger; in all of it at most one deferral
      is recorded. */
  method RunPrompt(tracker: GoalTracker, boundAtStart: bool, rounds: seq<HostRound>)
    returns (machine: TaskMachine, granted: nat)
    modifies tracker
    ensures BlockedAtMost(old(tracker.deferred), tracker.deferred)
    ensures granted <= |rounds| && granted <= MAX_ROUNDS_PER_PROMPT
    ensures GrantedUpTo(NEW_LEDGER, rounds, granted)
    ensures granted < |rounds| && granted < MAX_ROUNDS_PER_PROMPT ==> EndedAt(NEW_LEDGER, rounds, granted)
    ensures machine.status == Done <==> AcceptedAt(rounds, granted)
  {
    machine := new TaskMachine();
    var ledger := new RoundLedger();
    if boundAtStart {
      machine.Start();
    }
    granted := DriveRounds(machine, ledger, tracker, rounds);
  }

  // ----- how long it can go on -----

  function FingerprintAt(r: HostRound): string {
    FingerprintOf(InputOf(r))
  }

  /** How often the fingerprint changes from one round to the next. */
  function HostChanges(last: Option<string>, rounds: seq<HostRound>): nat
    decreases |rounds|
  {
    if |rounds| == 0 then 0
    else
      (if last.Some? && last.value != FingerprintAt(rounds[0]) then 1 else 0)
      + HostChanges(Some(FingerprintAt(rounds[0])), rounds[1..])
  }

  /** How many cut-offs the run survived. */
  function Resumptions(l: Ledger, rounds: seq<HostRound>): nat
    decreases |rounds|
  {
    if |rounds| == 0 then 0
    else (if Resumes(l, rounds[0]) then 1 else 0) + Resumptions(LedgerAfter(l, rounds[0]), rounds[1..])
  }

  function HostWorking(rounds: seq<HostRound>): nat {
    if |rounds| == 0 then 0 else (if Worked(rounds[0].activity) then 1 else 0) + HostWorking(rounds[1..])
  }

  /** The ledger is below both cut-offs and compares with the last round, if with any. */
  predicate Open(l: Ledger, last: Option<string>) {
    && l.repeats < STALL_CUTOFF_AFTER && l.idleStreak < IDLE_CUTOFF_AFTER
    && (if l.lastFingerprint.Some? then last == l.lastFingerprint else l.repeats == 0)
  }

  /** One granted round: either a survived cut-off clears the streaks, or they stay below the
      cut-offs and grow as the round says. */
  lemma GrantedRound(l: Ledger, last: Option<string>, r: HostRound)
    requires Open(l, last) && GoesOn(l, r)
    ensures var n := LedgerAfter(l, r);
      && Open(n, Some(FingerprintAt(r)))
      && (Resumes(l, r) ==> n.repeats == 0 && n.idleStreak == 0)
      && (!Resumes(l, r) ==>
        && n.repeats == (if l.lastFingerprint == Some(FingerprintAt(r)) then l.repeats + 1 else 1)
        && n.idleStreak == (if Worked(r.activity) then 0 else l.idleStreak + 1))
  {
    if !Resumes(l, r) {
      AnotherRoundMeansNotCutOff(l, InputOf(r));
    }
  }

  lemma {:induction false} HostRepeatBudget(l: Ledger, last: Option<string>, rounds: seq<HostRound>)
    requires Open(l, last) && AllGoOn(l, rounds)
    ensures |rounds| + l.repeats <= 5 * (HostChanges(last, rounds) + 1) + 6 * Resumptions(l, rounds)
    decreases |rounds|
  {
    if |rounds| > 0 {
      GrantedRound(l, last, rounds[0]);
      HostRepeatBudget(LedgerAfter(l, rounds[0]), Some(FingerprintAt(rounds[0])), rounds[1..]);
    }
  }

  lemma {:induction false} HostIdleBudget(l: Ledger, last: Option<string>, rounds: seq<HostRound>)
    requires Open(l, last) && AllGoOn(l, rounds)
    ensures |rounds| - HostWorking(rounds) + l.idleStreak <= 2 * (HostWorking(rounds) + 1) + 3 * Resumptions(l, rounds)
    decreases |rounds|
  {
    if |rounds| > 0 {
      GrantedRound(l, last, rounds[0]);
      HostIdleBudget(LedgerAfter(l, rounds[0]), Some(FingerprintAt(rounds[0])), rounds[1..]);
    }
  }

  /** With the streaks forgotten at each survived cut-off: at most five rounds for each
      stretch of equal fingerprints and six for each such cut-off, and tool-less rounds at
      most two for each working one and two more, and three for each such cut-off. */
  lemma HostLoopBound(rounds: seq<HostRound>)
    requires AllGoOn(NEW_LEDGER, rounds)
    ensures var resumed, changes := Resumptions(NEW_LEDGER, rounds), HostChanges(None, rounds);
      && |rounds| <= 5 * (changes + 1) + 6 * resumed
      && |rounds| - resumed <= 5 * (changes + resumed + 1)
      && |rounds| - HostWorking(rounds) <= 2 * (HostWorking(rounds) + 1) + 3 * resumed
  {
    HostRepeatBudget(NEW_LEDGER, None, rounds);
    HostIdleBudget(NEW_LEDGER, None, rounds);
  }

  lemma {:induction false} PlannedNeverResumes(l: Ledger, rounds: seq<HostRound>)
    requires AllGoOn(l, rounds) && forall i :: 0 <= i < |rounds| ==> rounds[i].criteria > 0
    ensures Resumptions(l, rounds) == 0
    decreases |rounds|
  {
    if |rounds| > 0 {
      PlannedNeverResumes(LedgerAfter(l, rounds[0]), rounds[1..]);
    }
  }

  /** A cut-off of a goal whose plan lists a criterion ends the run, whatever has been
      deferred before. */
  lemma PlannedCutOffEnds(l: Ledger, r: HostRound)
    ensures IsCutOff(l, r) && r.criteria > 0 ==> !GoesOn(l, r)
  {
  }

  /** So such a goal is cut off at most once before its run ends, by its last round, and the
      rounds before it are bounded by the fingerprint changes and the working rounds. */
  lemma PlannedGoalIsCutOffOnce(rounds: seq<HostRound>, granted: nat)
    requires granted <= |rounds| && GrantedUpTo(NEW_LEDGER, rounds, granted)
    requires forall i :: 0 <= i < granted ==> rounds[i].criteria > 0
    ensures forall i :: 0 <= i < granted ==> !IsCutOff(LedgerAt(NEW_LEDGER, rounds, i), rounds[i])
    ensures granted <= 5 * (HostChanges(None, rounds[..granted]) + 1)
    ensures granted - HostWorking(rounds[..granted]) <= 2 * (HostWorking(rounds[..granted]) + 1)
  {
    PlannedNeverResumes(NEW_LEDGER, rounds[..granted]);
    HostLoopBound(rounds[..granted]);
    forall i | 0 <= i < granted ensures !IsCutOff(LedgerAt(NEW_LEDGER, rounds, i), rounds[i]) {
      GrantedGoesOn(NEW_LEDGER, rounds, granted, i);
      PlannedCutOffEnds(LedgerAt(NEW_LEDGER, rounds, i), rounds[i]);
    }
  }

  lemma {:induction false} GrantedGoesOn(l: Ledger, rounds: seq<HostRound>, n: nat, i: nat)
    requires i < n <= |rounds| && AllGoOn(l, rounds[..n])
    ensures GoesOn(LedgerAt(l, rounds, i), rounds[i])
    decreases n
  {
    LedgerNext(l, rounds, n - 1);
    if i < n - 1 {
      GrantedGoesOn(l, rounds, n - 1, i);
    }
  }

  /** A survived cut-off gives the next round a fresh start: working, it is progress, and tool-less
      a first warning; what it reports as new is what it would have reported anyway. */
  lemma FreshStart(l: Ledger, r: HostRound, next: HostRound)
    requires Resumes(l, r)
    ensures var n := LedgerAfter(l, r);
      && LevelOf(After(n, InputOf(next))) == (if Worked(next.activity) then Progressing else Reapproach(1, Idle))
      && DeltaOf(n, next.activity) == DeltaOf(After(l, InputOf(r)), next.activity)
  {
  }
}
