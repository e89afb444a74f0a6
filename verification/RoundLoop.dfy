/** The orchestrator's round loop: the progress ledger, the decisions and the task machine. */
module RoundLoop {
  import opened Wrappers
  import opened Rounds
  import opened Fingerprint

  const U32_MAX: nat := 0xFFFF_FFFF
  const STALL_REAPPROACH_AFTER: nat := 3
  const STALL_CUTOFF_AFTER: nat := STALL_REAPPROACH_AFTER * 2
  const IDLE_CUTOFF_AFTER: nat := 3

  function SaturatingInc(n: nat): nat {
    if n < U32_MAX then n + 1 else n
  }

  // ----- the ledger -----

  datatype StallReason = Repeated | Idle

  datatype StallLevel =
    | Progressing
    | Reapproach(repeats: nat, reason: StallReason)
    | CutOff(repeats: nat, reason: StallReason)

  function Severity(level: StallLevel): nat {
    match level
    case Progressing => 0
    case Reapproach(_, _) => 1
    case CutOff(_, _) => 2
  }

  function Worst(a: StallLevel, b: StallLevel): StallLevel {
    if Severity(b) > Severity(a) then b else a
  }

  datatype RoundDelta = RoundDelta(
    round: nat,
    newlyChangedFiles: seq<string>,
    workspaceVisible: bool,
    toolsCalled: seq<string>,
    newlyExeced: seq<nat>,
    newlyVerified: seq<nat>,
    newlyDeferred: seq<nat>)

  /** The entries of `now` that `before` lacks. */
  function Added<T(==)>(before: seq<T>, now: seq<T>): seq<T> {
    if |now| == 0 then []
    else (if now[0] in before then [] else [now[0]]) + Added(before, now[1..])
  }

  datatype Ledger = Ledger(
    round: nat,
    lastFingerprint: Option<string>,
    repeats: nat,
    idleStreak: nat,
    changedFiles: seq<string>,
    execed: seq<nat>,
    verified: seq<nat>,
    deferred: seq<nat>)

  const NEW_LEDGER := Ledger(0, None, 0, 0, [], [], [], [])

  function RepeatLevel(repeats: nat): StallLevel {
    if repeats >= STALL_CUTOFF_AFTER then CutOff(repeats, Repeated)
    else if repeats >= STALL_REAPPROACH_AFTER then Reapproach(repeats, Repeated)
    else Progressing
  }

  function IdleLevel(idleStreak: nat): StallLevel {
    if idleStreak >= IDLE_CUTOFF_AFTER then CutOff(idleStreak, Idle)
    else if idleStreak >= 1 then Reapproach(idleStreak, Idle)
    else Progressing
  }

  function LevelOf(l: Ledger): StallLevel {
    Worst(RepeatLevel(l.repeats), IdleLevel(l.idleStreak))
  }

  /** The ledger after a round. */
  function Observed(l: Ledger, open: OpenItems, v: VerificationOutcome, a: RoundActivity): Ledger {
    var fingerprint := RoundFingerprint(open, v, a);
    Ledger(
      SaturatingInc(l.round),
      Some(fingerprint),
      if l.lastFingerprint == Some(fingerprint) then SaturatingInc(l.repeats) else 1,
      if Worked(a) then 0 else SaturatingInc(l.idleStreak),
      if a.changedFiles.Some? then a.changedFiles.value else l.changedFiles,
      a.execed, a.verified, a.deferred)
  }

  /** The streaks are forgotten, the running totals kept. */
  function WithoutStreaks(l: Ledger): Ledger {
    l.(lastFingerprint := None, repeats := 0, idleStreak := 0)
  }

  /** What that round changed. */
  function DeltaOf(l: Ledger, a: RoundActivity): RoundDelta {
    RoundDelta(
      SaturatingInc(l.round),
      if a.changedFiles.Some? then Added(l.changedFiles, a.changedFiles.value) else [],
      a.changedFiles.Some?,
      a.toolsCalled,
      Added(l.execed, a.execed),
      Added(l.verified, a.verified),
      Added(l.deferred, a.deferred))
  }

  class RoundLedger {
    var round: nat
    var lastFingerprint: Option<string>
    var repeats: nat
    var idleStreak: nat
    var changedFiles: seq<string>
    var execed: seq<nat>
    var verified: seq<nat>
    var deferred: seq<nat>

    function Contents(): Ledger
      reads this
    {
      Ledger(round, lastFingerprint, repeats, idleStreak, changedFiles, execed, verified, deferred)
    }

    constructor ()
      ensures Contents() == NEW_LEDGER
    {
      round, lastFingerprint, repeats, idleStreak := 0, None, 0, 0;
      changedFiles, execed, verified, deferred := [], [], [], [];
    }

    method Observe(open: OpenItems, v: VerificationOutcome, a: RoundActivity)
      returns (level: StallLevel, delta: RoundDelta)
      modifies this
      ensures Contents() == Observed(old(Contents()), open, v, a)
      ensures level == LevelOf(Contents()) && delta == DeltaOf(old(Contents()), a)
    {
      round := SaturatingInc(round);
      var fingerprint := RoundFingerprint(open, v, a);
      if lastFingerprint == Some(fingerprint) {
        repeats := SaturatingInc(repeats);
      } else {
        repeats := 1;
      }
      lastFingerprint := Some(fingerprint);
      if Worked(a) {
        idleStreak := 0;
      } else {
        idleStreak := SaturatingInc(idleStreak);
      }
      delta := RoundDelta(
        round,
        if a.changedFiles.Some? then Added(changedFiles, a.changedFiles.value) else [],
        a.changedFiles.Some?,
        a.toolsCalled,
        Added(execed, a.execed),
        Added(verified, a.verified),
        Added(deferred, a.deferred));
      if a.changedFiles.Some? {
        changedFiles := a.changedFiles.value;
      }
      execed, verified, deferred := a.execed, a.verified, a.deferred;
      level := Worst(RepeatLevel(repeats), IdleLevel(idleStreak));
    }

    method ResetStreaks()
      modifies this
      ensures Contents() == WithoutStreaks(old(Contents()))
    {
      lastFingerprint, repeats, idleStreak := None, 0, 0;
    }
  }

  // ----- decisions -----

  datatype Injection =
    | Continue(openSummary: string, delta: RoundDelta)
    | Fix(findings: seq<AuditFinding>)
    | Retry(repeats: nat, reason: StallReason, openSummary: string, delta: RoundDelta)   // `Reapproach` in the source

  datatype PauseReason = UserCancel | InfraError | BudgetExhausted | NoProgress(repeats: nat, reason: StallReason)

  datatype Decision =
    | RunAnotherRound(injection: Injection)
    | TaskDone
    | TaskPaused(reason: PauseReason)

  datatype RoundEnd = RoundEnd(
    roundOk: bool,
    openItems: OpenItems,
    userCancel: bool,
    budgetHit: bool,
    verification: VerificationOutcome,
    stall: StallLevel,
    delta: RoundDelta)

  const ACCEPTANCE_PENDING :=
    "acceptance pending \U{2014} when every acceptance criterion is met, call "
    + "update_goal(completed: true) so verification can accept the task"

  /** `decide_completion`: the completion rules alone. */
  function DecideCompletion(view: RoundEnd): Decision {
    if view.userCancel then TaskPaused(UserCancel)
    else if view.budgetHit then TaskPaused(BudgetExhausted)
    else if !view.roundOk then TaskPaused(InfraError)
    else if view.openItems.items != [] then
      RunAnotherRound(Continue(SummaryLine(view.openItems), view.delta))
    else match view.verification
      case Achieved => TaskDone
      case Rejected(findings) => RunAnotherRound(Fix(findings))
      case Pending => RunAnotherRound(Continue(ACCEPTANCE_PENDING, view.delta))
  }

  function DecideAfterRound(view: RoundEnd): Decision {
    var decision := DecideCompletion(view);
    if !decision.RunAnotherRound? then decision
    else match view.stall
      case Progressing => decision
      case Reapproach(repeats, reason) =>
        RunAnotherRound(Retry(repeats, reason, SummaryLine(view.openItems), view.delta))
      case CutOff(repeats, reason) => TaskPaused(NoProgress(repeats, reason))
  }

  // ----- the task machine -----

  datatype Phase = PhaseIdle | Executing | CheckOpen | Audit | FixPhase | PhaseDone | PhasePaused

  datatype Status = StatusIdle | Active | Done | Paused

  class TaskMachine {
    var phase: Phase
    var status: Status
    var pauseReason: Option<PauseReason>

    constructor ()
      ensures phase == PhaseIdle && status == StatusIdle && pauseReason == None
    {
      phase, status, pauseReason := PhaseIdle, StatusIdle, None;
    }

    method Start()
      modifies this
      ensures phase == Executing && status == Active && pauseReason == None
    {
      phase, status, pauseReason := Executing, Active, None;
    }

    /** Done is entered by TaskDone and nothing else; a pause keeps its reason. */
    method Apply(decision: Decision)
      modifies this
      ensures status == Done <==> decision.TaskDone?
      ensures status == Paused <==> decision.TaskPaused?
      ensures status == Active <==> decision.RunAnotherRound?
      ensures phase == match decision
        case RunAnotherRound(injection) => (if injection.Fix? then FixPhase else Executing)
        case TaskDone => PhaseDone
        case TaskPaused(_) => PhasePaused
      ensures pauseReason == if decision.TaskPaused? then Some(decision.reason) else None
    {
      match decision {
        case RunAnotherRound(injection) =>
          phase := if injection.Fix? then FixPhase else Executing;
          status, pauseReason := Active, None;
        case TaskDone =>
          phase, status, pauseReason := PhaseDone, Done, None;
        case TaskPaused(reason) =>
          phase, status, pauseReason := PhasePaused, Paused, Some(reason);
      }
    }

    method MarkExecuting()
      modifies this`phase
      ensures phase == if status == Active then Executing else old(phase)
    {
      if status == Active {
        phase := Executing;
      }
    }
  }

  // ----- the loop: observe, then decide, until something other than another round -----

  datatype RoundInput = RoundInput(
    roundOk: bool,
    openItems: OpenItems,
    userCancel: bool,
    budgetHit: bool,
    verification: VerificationOutcome,
    activity: RoundActivity)

  function After(l: Ledger, input: RoundInput): Ledger {
    Observed(l, input.openItems, input.verification, input.activity)
  }

  function DecisionOn(l: Ledger, input: RoundInput): Decision {
    DecideAfterRound(RoundEnd(
      input.roundOk, input.openItems, input.userCancel, input.budgetHit, input.verification,
      LevelOf(After(l, input)), DeltaOf(l, input.activity)))
  }

  /** Every round of `inputs` ended in another round. */
  predicate KeepsGoing(l: Ledger, inputs: seq<RoundInput>)
    decreases |inputs|
  {
    |inputs| == 0 || (DecisionOn(l, inputs[0]).RunAnotherRound? && KeepsGoing(After(l, inputs[0]), inputs[1..]))
  }

  function FingerprintOf(input: RoundInput): string {
    RoundFingerprint(input.openItems, input.verification, input.activity)
  }

  /** How often the fingerprint changes, starting from `last`. */
  function Changes(last: string, inputs: seq<RoundInput>): nat
    decreases |inputs|
  {
    if |inputs| == 0 then 0
    else (if FingerprintOf(inputs[0]) == last then 0 else 1) + Changes(FingerprintOf(inputs[0]), inputs[1..])
  }

  function WorkingRounds(inputs: seq<RoundInput>): nat {
    if |inputs| == 0 then 0 else (if Worked(inputs[0].activity) then 1 else 0) + WorkingRounds(inputs[1..])
  }

  function IdleRounds(inputs: seq<RoundInput>): nat {
    if |inputs| == 0 then 0 else (if Worked(inputs[0].activity) then 0 else 1) + IdleRounds(inputs[1..])
  }

  /** Progress that the summary line does not show, on items behind the fifth, counts as no
      progress: the round repeats the one before. */
  lemma HiddenProgressRepeats(l: Ledger, before: RoundInput, next: RoundInput)
    requires ShownAlike(before.openItems, next.openItems)
    requires before.verification == next.verification && before.activity == next.activity
    ensures After(After(l, before), next).repeats == SaturatingInc(After(l, before).repeats)
  {
    ShownAlikeReadAlike(before.openItems, next.openItems);
  }

  // ----- the loop is bounded -----

  /** Another round is only granted below both cut-offs. */
  lemma AnotherRoundMeansNotCutOff(l: Ledger, input: RoundInput)
    requires DecisionOn(l, input).RunAnotherRound?
    ensures After(l, input).repeats < STALL_CUTOFF_AFTER && After(l, input).idleStreak < IDLE_CUTOFF_AFTER
  {
  }

  lemma {:induction false} RepeatBudget(l: Ledger, inputs: seq<RoundInput>)
    requires KeepsGoing(l, inputs) && l.lastFingerprint.Some? && l.repeats < STALL_CUTOFF_AFTER
    ensures |inputs| + l.repeats <= 5 * (Changes(l.lastFingerprint.value, inputs) + 1)
    decreases |inputs|
  {
    if |inputs| > 0 {
      AnotherRoundMeansNotCutOff(l, inputs[0]);
      RepeatBudget(After(l, inputs[0]), inputs[1..]);
    }
  }

  lemma {:induction false} IdleBudget(l: Ledger, inputs: seq<RoundInput>)
    requires KeepsGoing(l, inputs) && l.idleStreak < IDLE_CUTOFF_AFTER
    ensures IdleRounds(inputs) + l.idleStreak <= 2 * (WorkingRounds(inputs) + 1)
    decreases |inputs|
  {
    if |inputs| > 0 {
      AnotherRoundMeansNotCutOff(l, inputs[0]);
      IdleBudget(After(l, inputs[0]), inputs[1..]);
    }
  }

  /** The round loop is bounded: a run that has never stopped is at most five rounds for
      each stretch of equal fingerprints, and has at most two tool-less rounds for each
      working round and two more. */
  lemma {:induction false} RoundLoopBound(inputs: seq<RoundInput>)
    requires KeepsGoing(NEW_LEDGER, inputs)
    ensures |inputs| > 0 ==> |inputs| <= 5 * (Changes(FingerprintOf(inputs[0]), inputs) + 1)
    ensures IdleRounds(inputs) <= 2 * (WorkingRounds(inputs) + 1)
  {
    IdleBudget(NEW_LEDGER, inputs);
    if |inputs| > 0 {
      AnotherRoundMeansNotCutOff(NEW_LEDGER, inputs[0]);
      RepeatBudget(After(NEW_LEDGER, inputs[0]), inputs[1..]);
    }
  }

  /** The first bound is tight: five equal working rounds with open work all continue. */
  lemma FiveRoundsAreGranted(input: RoundInput)
    requires input.roundOk && !input.userCancel && !input.budgetHit && input.openItems.items != []
    requires Worked(input.activity)
    ensures KeepsGoing(NEW_LEDGER, [input, input, input, input, input])
    ensures !KeepsGoing(NEW_LEDGER, [input, input, input, input, input, input])
  {
    var l1 := After(NEW_LEDGER, input);
    var l2 := After(l1, input);
    var l3 := After(l2, input);
    var l4 := After(l3, input);
    assert [input, input, input, input, input][1..] == [input, input, input, input];
    assert [input, input, input, input][1..] == [input, input, input];
    assert [input, input, input][1..] == [input, input];
    assert [input, input][1..] == [input];
    assert KeepsGoing(l4, [input]);
    assert KeepsGoing(l2, [input, input, input]);
    if KeepsGoing(NEW_LEDGER, [input, input, input, input, input, input]) {
      RoundLoopBound([input, input, input, input, input, input]);
      SameRoundsNeverChange(input, [input, input, input, input, input, input]);
    }
  }

  lemma {:induction false} SameRoundsNeverChange(input: RoundInput, inputs: seq<RoundInput>)
    requires forall i :: 0 <= i < |inputs| ==> inputs[i] == input
    ensures Changes(FingerprintOf(input), inputs) == 0
  {
    if |inputs| > 0 {
      SameRoundsNeverChange(input, inputs[1..]);
    }
  }

  // ----- what each decision means -----

  /** A tool-less round is never answered with Continue or Fix. */
  lemma ToolLessRoundIsNotContinued(l: Ledger, input: RoundInput)
    requires !Worked(input.activity)
    ensures var d := DecisionOn(l, input); d.RunAnotherRound? ==> d.injection.Retry?
  {
  }

  /** The task is done exactly after an undisturbed round with no open item whose
      verification is Achieved, however stuck the run looks. */
  lemma DoneIff(l: Ledger, input: RoundInput)
    ensures DecisionOn(l, input).TaskDone? <==>
      && !input.userCancel && !input.budgetHit && input.roundOk
      && input.openItems.items == [] && input.verification.Achieved?
  {
  }

  /** The stall measure only ever turns a request for another round into a retry or a
      pause for lack of progress; every other conclusion stands. */
  lemma StallOnlyDowngrades(view: RoundEnd)
    ensures var base, final := DecideCompletion(view), DecideAfterRound(view);
      && (final != base ==> base.RunAnotherRound?)
      && (final.TaskPaused? && final.reason.NoProgress? <==> base.RunAnotherRound? && view.stall.CutOff?)
      && (final == base <==> !base.RunAnotherRound? || view.stall.Progressing?)
  {
  }

  // ----- what each round reports as newly changed -----

  /** The newly changed files each workspace-visible round reports, in order. */
  function VisibleReports(l: Ledger, inputs: seq<RoundInput>): seq<seq<string>>
    decreases |inputs|
  {
    if |inputs| == 0 then []
    else
      (if inputs[0].activity.changedFiles.Some? then [DeltaOf(l, inputs[0].activity).newlyChangedFiles] else [])
      + VisibleReports(After(l, inputs[0]), inputs[1..])
  }

  function VisibleOnly(inputs: seq<RoundInput>): seq<RoundInput> {
    if |inputs| == 0 then []
    else (if inputs[0].activity.changedFiles.Some? then [inputs[0]] else []) + VisibleOnly(inputs[1..])
  }

  lemma {:induction false} BlindRoundsDropOut(l: Ledger, m: Ledger, inputs: seq<RoundInput>)
    requires l.changedFiles == m.changedFiles
    ensures VisibleReports(l, inputs) == VisibleReports(m, VisibleOnly(inputs))
    decreases |inputs|
  {
    if |inputs| > 0 {
      if inputs[0].activity.changedFiles.Some? {
        BlindRoundsDropOut(After(l, inputs[0]), After(m, inputs[0]), inputs[1..]);
        assert ([inputs[0]] + VisibleOnly(inputs[1..]))[1..] == VisibleOnly(inputs[1..]);
      } else {
        BlindRoundsDropOut(After(l, inputs[0]), m, inputs[1..]);
        assert [] + VisibleOnly(inputs[1..]) == VisibleOnly(inputs[1..]);
      }
    }
  }

  /** Leaving the workspace-blind rounds out of a run changes no report of a visible one. */
  lemma BlindRoundsChangeNoReport(l: Ledger, inputs: seq<RoundInput>)
    ensures VisibleReports(l, inputs) == VisibleReports(l, VisibleOnly(inputs))
  {
    BlindRoundsDropOut(l, l, inputs);
  }

  ghost predicate NoDuplicates(xs: seq<string>) {
    forall i, j :: 0 <= i < j < |xs| ==> xs[i] != xs[j]
  }

  /** Each readable file list is duplicate-free and contains the one before. */
  ghost predicate Growing(known: seq<string>, inputs: seq<RoundInput>)
    decreases |inputs|
  {
    |inputs| == 0 ||
    match inputs[0].activity.changedFiles
    case None => Growing(known, inputs[1..])
    case Some(files) => NoDuplicates(files) && (forall f <- known :: f in files) && Growing(files, inputs[1..])
  }

  function LastFiles(known: seq<string>, inputs: seq<RoundInput>): seq<string>
    decreases |inputs|
  {
    if |inputs| == 0 then known
    else LastFiles(if inputs[0].activity.changedFiles.Some? then inputs[0].activity.changedFiles.value else known,
                   inputs[1..])
  }

  function Flatten(lists: seq<seq<string>>): seq<string> {
    if |lists| == 0 then [] else lists[0] + Flatten(lists[1..])
  }

  lemma {:induction false} AddedContents(before: seq<string>, now: seq<string>, x: string)
    ensures multiset(Added(before, now))[x] == if x in before then 0 else multiset(now)[x]
  {
    if |now| > 0 {
      AddedContents(before, now[1..], x);
      assert now == [now[0]] + now[1..];
    }
  }

  lemma {:induction false} NoDuplicatesOnce(xs: seq<string>, x: string)
    requires NoDuplicates(xs)
    ensures multiset(xs)[x] == if x in xs then 1 else 0
  {
    if |xs| > 0 {
      NoDuplicatesOnce(xs[1..], x);
      assert xs == [xs[0]] + xs[1..];
    }
  }

  lemma FirstReport(l: Ledger, inputs: seq<RoundInput>, x: string)
    requires |inputs| > 0
    ensures multiset(Flatten(VisibleReports(l, inputs)))[x]
         == (match inputs[0].activity.changedFiles
             case None => 0
             case Some(files) => multiset(Added(l.changedFiles, files))[x])
            + multiset(Flatten(VisibleReports(After(l, inputs[0]), inputs[1..])))[x]
  {
    var rest := VisibleReports(After(l, inputs[0]), inputs[1..]);
    assert [] + rest == rest;
    assert forall first: seq<string> :: ([first] + rest)[1..] == rest;
  }

  lemma {:induction false} ReportsOf(l: Ledger, inputs: seq<RoundInput>, x: string)
    requires NoDuplicates(l.changedFiles) && Growing(l.changedFiles, inputs)
    ensures multiset(Flatten(VisibleReports(l, inputs)))[x]
         == if x in l.changedFiles then 0 else if x in LastFiles(l.changedFiles, inputs) then 1 else 0
    decreases |inputs|
  {
    if |inputs| > 0 {
      ReportsOf(After(l, inputs[0]), inputs[1..], x);
      FirstReport(l, inputs, x);
      if inputs[0].activity.changedFiles.Some? {
        var files := inputs[0].activity.changedFiles.value;
        AddedContents(l.changedFiles, files, x);
        NoDuplicatesOnce(files, x);
        if x in files {
          GrowingKeeps(files, inputs[1..], x);
        }
      }
    }
  }

  lemma {:induction false} GrowingKeeps(known: seq<string>, inputs: seq<RoundInput>, x: string)
    requires Growing(known, inputs) && x in known
    ensures x in LastFiles(known, inputs)
    decreases |inputs|
  {
    if |inputs| > 0 {
      GrowingKeeps(if inputs[0].activity.changedFiles.Some? then inputs[0].activity.changedFiles.value else known,
                   inputs[1..], x);
    }
  }

  /** With growing duplicate-free file lists, blind rounds between or not, every path that
      ever appears is reported new exactly once in the whole run, and no other path is. */
  lemma EachPathIsNewOnce(inputs: seq<RoundInput>, x: string)
    requires Growing([], inputs)
    ensures multiset(Flatten(VisibleReports(NEW_LEDGER, inputs)))[x] == if x in LastFiles([], inputs) then 1 else 0
  {
    ReportsOf(NEW_LEDGER, inputs, x);
  }
}
