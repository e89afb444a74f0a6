/** What each round of a run is answered with, and why, from the rounds alone. */
module RoundAnswers {
  import opened Wrappers
  import opened Rounds
  import opened Fingerprint
  import opened RoundLoop

  // ----- what the ledger has counted -----

  function LedgerBehind(inputs: seq<RoundInput>): Ledger {
    if |inputs| == 0 then NEW_LEDGER else After(LedgerBehind(inputs[..|inputs| - 1]), inputs[|inputs| - 1])
  }

  /** How many rounds at the end have this fingerprint. */
  function SameAtEnd(inputs: seq<RoundInput>, fingerprint: string): nat {
    if |inputs| == 0 || FingerprintOf(inputs[|inputs| - 1]) != fingerprint then 0
    else SameAtEnd(inputs[..|inputs| - 1], fingerprint) + 1
  }

  /** How many rounds at the end called no tool. */
  function IdleAtEnd(inputs: seq<RoundInput>): nat {
    if |inputs| == 0 || inputs[|inputs| - 1].activity.toolsCalled != [] then 0
    else IdleAtEnd(inputs[..|inputs| - 1]) + 1
  }

  function Capped32(n: nat): nat {
    if n < 0x1_0000_0000 then n else 0xFFFF_FFFF
  }

  /** The rounds at the end that are just like the last one. */
  function Alike(inputs: seq<RoundInput>): nat
    requires inputs != []
  {
    Capped32(SameAtEnd(inputs, FingerprintOf(inputs[|inputs| - 1])))
  }

  function Idle32(inputs: seq<RoundInput>): nat {
    Capped32(IdleAtEnd(inputs))
  }

  lemma CappedNext(n: nat)
    ensures SaturatingInc(Capped32(n)) == Capped32(n + 1)
  {
  }

  lemma {:induction false} LedgerCounts(inputs: seq<RoundInput>)
    ensures var l := LedgerBehind(inputs);
      && l.round == Capped32(|inputs|) && l.idleStreak == Idle32(inputs)
      && (inputs == [] ==> l.lastFingerprint == None)
      && (inputs != [] ==> l.lastFingerprint == Some(FingerprintOf(inputs[|inputs| - 1])) && l.repeats == Alike(inputs))
    decreases |inputs|
  {
    if |inputs| > 0 {
      var init, last := inputs[..|inputs| - 1], inputs[|inputs| - 1];
      LedgerCounts(init);
      CappedNext(|init|);
      CappedNext(IdleAtEnd(init));
      CappedNext(SameAtEnd(init, FingerprintOf(last)));
      assert SameAtEnd(inputs, FingerprintOf(last)) == SameAtEnd(init, FingerprintOf(last)) + 1;
      if init != [] && FingerprintOf(init[|init| - 1]) == FingerprintOf(last) {
        assert LedgerBehind(init).repeats == Capped32(SameAtEnd(init, FingerprintOf(last)));
      } else {
        assert SameAtEnd(init, FingerprintOf(last)) == 0;
      }
    }
  }

  // ----- the answers -----

  function AnswerTo(inputs: seq<RoundInput>): Decision
    requires inputs != []
  {
    DecisionOn(LedgerBehind(inputs[..|inputs| - 1]), inputs[|inputs| - 1])
  }

  predicate Undisturbed(r: RoundInput) {
    !r.userCancel && !r.budgetHit && r.roundOk
  }

  /** Nothing is left to ask for. */
  predicate Finished(r: RoundInput) {
    r.openItems.items == [] && r.verification.Achieved?
  }

  /** The user comes first, then the budget, then a failed round. */
  lemma PausedIff(inputs: seq<RoundInput>)
    requires inputs != []
    ensures var d, r := AnswerTo(inputs), inputs[|inputs| - 1];
      && (d == TaskPaused(UserCancel) <==> r.userCancel)
      && (d == TaskPaused(BudgetExhausted) <==> !r.userCancel && r.budgetHit)
      && (d == TaskPaused(InfraError) <==> !r.userCancel && !r.budgetHit && !r.roundOk)
  {
  }

  /** Six rounds alike, or three without a tool, cut an unfinished run off. */
  lemma CutOffIff(inputs: seq<RoundInput>)
    requires inputs != []
    ensures var d, r := AnswerTo(inputs), inputs[|inputs| - 1];
      && (d.TaskPaused? && d.reason.NoProgress? <==>
          Undisturbed(r) && !Finished(r) && (Alike(inputs) >= 6 || Idle32(inputs) >= 3))
      && (d.TaskPaused? && d.reason.NoProgress? ==>
          d.reason == if Alike(inputs) >= 6 then NoProgress(Alike(inputs), Repeated) else NoProgress(Idle32(inputs), Idle))
  {
    LedgerCounts(inputs);
  }

  /** Below that, three alike, or one without a tool, are asked to try another way. */
  lemma RetriedIff(inputs: seq<RoundInput>)
    requires inputs != []
    ensures var d, r := AnswerTo(inputs), inputs[|inputs| - 1];
      var retried := d.RunAnotherRound? && d.injection.Retry?;
      && (retried <==>
          && Undisturbed(r) && !Finished(r) && Alike(inputs) < 6 && Idle32(inputs) < 3
          && (Alike(inputs) >= 3 || Idle32(inputs) >= 1))
      && (retried ==>
          && d.injection.repeats == (if Alike(inputs) >= 3 then Alike(inputs) else Idle32(inputs))
          && d.injection.reason == (if Alike(inputs) >= 3 then Repeated else Idle)
          && d.injection.openSummary == SummaryLine(r.openItems)
          && d.injection.delta == DeltaOf(LedgerBehind(inputs[..|inputs| - 1]), r.activity))
  {
    LedgerCounts(inputs);
  }

  /** Below both, a rejection is answered with its findings if nothing is open. */
  lemma FixedIff(inputs: seq<RoundInput>)
    requires inputs != []
    ensures var d, r := AnswerTo(inputs), inputs[|inputs| - 1];
      var fixed := d.RunAnotherRound? && d.injection.Fix?;
      && (fixed <==>
          && Undisturbed(r) && Alike(inputs) < 3 && Idle32(inputs) == 0
          && r.openItems.items == [] && r.verification.Rejected?)
      && (fixed ==> d.injection.findings == r.verification.findings)
  {
    LedgerCounts(inputs);
  }

  /** And open items, or a verification that has not come, with a request to go on. */
  lemma ContinuedIff(inputs: seq<RoundInput>)
    requires inputs != []
    ensures var d, r := AnswerTo(inputs), inputs[|inputs| - 1];
      var continued := d.RunAnotherRound? && d.injection.Continue?;
      && (continued <==>
          && Undisturbed(r) && Alike(inputs) < 3 && Idle32(inputs) == 0
          && (r.openItems.items != [] || r.verification.Pending?))
      && (continued ==>
          && d.injection.delta == DeltaOf(LedgerBehind(inputs[..|inputs| - 1]), r.activity)
          && d.injection.openSummary == if r.openItems.items != [] then SummaryLine(r.openItems) else
            "acceptance pending \U{2014} when every acceptance criterion is met, call "
            + "update_goal(completed: true) so verification can accept the task")
  {
    LedgerCounts(inputs);
  }

  // ----- what the delta says -----

  /** The files of the last workspace that was seen. */
  function FilesSeen(inputs: seq<RoundInput>): seq<string> {
    if |inputs| == 0 then []
    else match inputs[|inputs| - 1].activity.changedFiles
      case Some(files) => files
      case None => FilesSeen(inputs[..|inputs| - 1])
  }

  lemma {:induction false} LedgerRemembers(inputs: seq<RoundInput>)
    ensures var l := LedgerBehind(inputs);
      && l.changedFiles == FilesSeen(inputs)
      && l.execed == (if inputs == [] then [] else inputs[|inputs| - 1].activity.execed)
      && l.verified == (if inputs == [] then [] else inputs[|inputs| - 1].activity.verified)
      && l.deferred == (if inputs == [] then [] else inputs[|inputs| - 1].activity.deferred)
  {
    if |inputs| > 0 {
      LedgerRemembers(inputs[..|inputs| - 1]);
    }
  }

  lemma {:induction false} AddedIs<T>(before: seq<T>, now: seq<T>, x: T)
    ensures x in Added(before, now) <==> x in now && x !in before
    decreases |now|
  {
    if |now| > 0 {
      AddedIs(before, now[1..], x);
      assert now == [now[0]] + now[1..];
    }
  }

  /** Every list of the delta holds what `before` did not: the files only if they are seen. */
  ghost predicate SaysNew(delta: RoundDelta, seen: seq<string>, before: RoundActivity, a: RoundActivity) {
    && (forall file :: file in delta.newlyChangedFiles <==>
        a.changedFiles.Some? && file in a.changedFiles.value && file !in seen)
    && (forall n :: n in delta.newlyExeced <==> n in a.execed && n !in before.execed)
    && (forall n :: n in delta.newlyVerified <==> n in a.verified && n !in before.verified)
    && (forall n :: n in delta.newlyDeferred <==> n in a.deferred && n !in before.deferred)
  }

  lemma DeltaOfLedger(l: Ledger, before: RoundActivity, a: RoundActivity)
    requires l.execed == before.execed && l.verified == before.verified && l.deferred == before.deferred
    ensures SaysNew(DeltaOf(l, a), l.changedFiles, before, a)
  {
    if a.changedFiles.Some? {
      forall file { AddedIs(l.changedFiles, a.changedFiles.value, file); }
    }
    forall n { AddedIs(l.execed, a.execed, n); }
    forall n { AddedIs(l.verified, a.verified, n); }
    forall n { AddedIs(l.deferred, a.deferred, n); }
  }

  /** New are the files that the last workspace seen did not have, and the criteria executed,
      verified or deferred now that were not in the round before. */
  lemma DeltaSaysWhatIsNew(inputs: seq<RoundInput>, a: RoundActivity)
    requires inputs != []
    ensures SaysNew(DeltaOf(LedgerBehind(inputs), a), FilesSeen(inputs), inputs[|inputs| - 1].activity, a)
  {
    var l := LedgerBehind(inputs);
    LedgerRemembers(inputs);
    DeltaOfLedger(l, inputs[|inputs| - 1].activity, a);
  }

  /** It also carries the round's number, its tools, and whether the workspace was seen. */
  lemma DeltaDescribesRound(inputs: seq<RoundInput>, a: RoundActivity)
    ensures var delta := DeltaOf(LedgerBehind(inputs), a);
      && delta.round == Capped32(|inputs| + 1)
      && delta.toolsCalled == a.toolsCalled && delta.workspaceVisible == a.changedFiles.Some?
  {
    LedgerCounts(inputs);
    CappedNext(|inputs|);
  }
}
