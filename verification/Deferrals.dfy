/** What a goal has put aside, and when nothing is left of it to attempt. */
module Deferrals {
  import opened Wrappers

  /** No criterion means that the whole goal is blocked. */
  datatype Deferral = Deferral(criterion: Option<nat>, reason: string)

  predicate Names(deferred: seq<Deferral>, criterion: Option<nat>) {
    exists d <- deferred :: d.criterion == criterion
  }

  /** Each criterion is put aside once, with the first reason given. */
  function WithDeferral(deferred: seq<Deferral>, criterion: Option<nat>, reason: string): seq<Deferral> {
    if Names(deferred, criterion) then deferred else deferred + [Deferral(criterion, reason)]
  }

  /** `all_remaining_work_deferred` */
  predicate Exhausted(deferred: seq<Deferral>, total: nat) {
    if total == 0 || deferred == [] then false
    else Names(deferred, None) || forall n :: 1 <= n <= total ==> Names(deferred, Some(n))
  }

  ghost predicate Blocked(deferred: seq<Deferral>, n: nat) {
    Names(deferred, None) || Names(deferred, Some(n))
  }

  /** Nothing is left exactly if there are criteria and each of them is blocked. */
  lemma ExhaustedIff(deferred: seq<Deferral>, total: nat)
    ensures Exhausted(deferred, total) <==> total > 0 && forall n :: 1 <= n <= total ==> Blocked(deferred, n)
  {
    if Names(deferred, None) {
      forall n | 1 <= n <= total ensures Blocked(deferred, n) {
      }
    } else {
      forall n | 1 <= n <= total ensures Blocked(deferred, n) <==> Names(deferred, Some(n)) {
      }
      if total > 0 && deferred == [] {
        assert !Blocked(deferred, 1);
      }
    }
  }

  /** A deferral without a criterion blocks every criterion there is. */
  lemma GoalWideExhausts(deferred: seq<Deferral>, reason: string, total: nat)
    ensures var after := WithDeferral(deferred, None, reason);
      Names(after, None) && (Exhausted(after, total) <==> total > 0)
  {
    var after := WithDeferral(deferred, None, reason);
    if !Names(deferred, None) {
      assert after[|deferred|] == Deferral(None, reason);
      assert Deferral(None, reason) in after;
    }
  }

  /** The whole goal is on record as blocked, by at most one new deferral. */
  predicate BlockedByOne(before: seq<Deferral>, after: seq<Deferral>) {
    Names(after, None) && (after == before || (|after| > 0 && after[..|after| - 1] == before && !Names(before, None)))
  }

  /** Nothing happened, or the whole goal was put aside. */
  predicate BlockedAtMost(before: seq<Deferral>, after: seq<Deferral>) {
    after == before || BlockedByOne(before, after)
  }

  /** A goal is put aside as a whole only once. */
  lemma BlockedOnlyOnce(a: seq<Deferral>, b: seq<Deferral>, c: seq<Deferral>)
    requires BlockedAtMost(a, b) && BlockedAtMost(b, c)
    ensures BlockedAtMost(a, c)
  {
  }

  lemma DeferringBlocks(deferred: seq<Deferral>, reason: string)
    ensures BlockedByOne(deferred, WithDeferral(deferred, None, reason))
  {
    GoalWideExhausts(deferred, reason, 0);
  }

  class GoalTracker {
    var deferred: seq<Deferral>

    constructor (deferred: seq<Deferral>)
      ensures this.deferred == deferred
    {
      this.deferred := deferred;
    }

    /** A deferral is recorded unless its criterion has one. */
    method DeferCriterion(criterion: Option<nat>, reason: string) returns (isNew: bool)
      modifies this
      ensures deferred == WithDeferral(old(deferred), criterion, reason)
      ensures isNew <==> !Names(old(deferred), criterion)
    {
      if Names(deferred, criterion) {
        return false;
      }
      deferred := deferred + [Deferral(criterion, reason)];
      return true;
    }

    /** Whether the run ended, if there was an active goal to defer against: a blocker is
        put down to the whole goal, so it ends exactly if the plan lists any criterion. */
    method DeferBlockerOrEndRun(active: bool, total: nat, blocker: string) returns (ended: Option<bool>)
      modifies this
      ensures if active then BlockedByOne(old(deferred), deferred) else deferred == old(deferred)
      ensures active && !Names(old(deferred), None) ==> deferred == old(deferred) + [Deferral(None, blocker)]
      ensures ended == if active then Some(total > 0) else None
    {
      if !active {
        return None;
      }
      GoalWideExhausts(deferred, blocker, total);
      DeferringBlocks(deferred, blocker);
      var isNew := DeferCriterion(None, blocker);
      return Some(Exhausted(deferred, total));
    }
  }
}
