/** The frame walk with its numbers: eight bytes to a word, and no page below 4096. */
module WalkNumbers {
  import opened CrashBlob
  import opened FrameWalk

  /** An aligned pointer outside the first page. */
  predicate Plausible(fp: nat) {
    fp >= 4096 && fp % 8 == 0
  }

  predicate Mapped(mem: Memory, fp: nat) {
    fp in mem && fp + 8 in mem
  }

  /** The word at each frame holds the next one's address, higher up, and the word behind it
      a return address outside the first page. */
  ghost predicate Ascends(mem: Memory, fp: nat, fps: seq<nat>) {
    && (fps != [] ==> fps[0] == fp)
    && (forall i :: 0 <= i < |fps| ==> Plausible(fps[i]) && Mapped(mem, fps[i]) && mem[fps[i] + 8] >= 4096)
    && (forall i :: 0 < i < |fps| ==> fps[i] == mem[fps[i - 1]] && fps[i - 1] < fps[i])
  }

  /** Where the chain would go on, and whether it may: only upwards. */
  ghost predicate GoesTo(mem: Memory, fp: nat, fps: seq<nat>, next: nat) {
    if fps == [] then next == fp
    else fps[|fps| - 1] in mem && next == mem[fps[|fps| - 1]] && next > fps[|fps| - 1]
  }

  /** No frame follows: the pointer does not ascend, is implausible, or its return address is. */
  ghost predicate Ends(mem: Memory, fp: nat, fps: seq<nat>) {
    forall next: nat :: GoesTo(mem, fp, fps, next) ==>
      !Plausible(next) || (Mapped(mem, next) && mem[next + 8] < 4096)
  }

  lemma ChainIsAscending(mem: Memory, fp: nat, fps: seq<nat>)
    ensures Chain(mem, fp, fps) <==> Ascends(mem, fp, fps)
  {
  }

  lemma StoppedEnds(mem: Memory, fp: nat, fps: seq<nat>)
    requires Chain(mem, fp, fps) && Stops(mem, fp, fps)
    requires forall next: nat :: GoesTo(mem, fp, fps, next) && Plausible(next) ==> Mapped(mem, next)
    ensures Ends(mem, fp, fps)
  {
    forall next: nat | GoesTo(mem, fp, fps, next) && Plausible(next)
      ensures Mapped(mem, next) && mem[next + 8] < 4096
    {
      assert next == NextOf(mem, fp, fps);
    }
  }

  /** A walk that does not fault collects the words behind the frames of an ascending chain,
      until it is full or no frame follows. */
  lemma WalkAscends(mem: Memory, fp: nat, max: nat) returns (fps: seq<nat>)
    requires WalkFrom(mem, fp, max).Walked?
    ensures var addrs := WalkFrom(mem, fp, max).addrs;
      && Ascends(mem, fp, fps) && |addrs| == |fps| <= max
      && (forall i :: 0 <= i < |fps| ==> addrs[i] == mem[fps[i] + 8])
      && (|fps| == max || Ends(mem, fp, fps))
  {
    fps := WalkIsChain(mem, fp, max);
    ChainIsAscending(mem, fp, fps);
    if |fps| < max {
      if next: nat :| GoesTo(mem, fp, fps, next) && Plausible(next) && !Mapped(mem, next) {
        LeadingAwayFaults(mem, fp, max, fps);
      }
      StoppedEnds(mem, fp, fps);
    }
  }

  lemma LastStays(mem: Memory, fp: nat, rest: seq<nat>)
    requires fp in mem && mem[fp] > fp
    ensures forall next: nat :: GoesTo(mem, fp, [fp] + rest, next) <==> GoesTo(mem, mem[fp], rest, next)
  {
    if rest != [] {
      assert ([fp] + rest)[|rest|] == rest[|rest| - 1];
    }
  }

  /** A walk faults where the chain leads to a plausible pointer that is not mapped. */
  ghost predicate LeadsAway(mem: Memory, fp: nat, max: nat, fps: seq<nat>) {
    Ascends(mem, fp, fps) && |fps| < max
    && exists next: nat :: GoesTo(mem, fp, fps, next) && Plausible(next) && !Mapped(mem, next)
  }

  lemma {:induction false} FaultLeadsAway(mem: Memory, fp: nat, max: nat) returns (fps: seq<nat>)
    requires WalkFrom(mem, fp, max).Faulted?
    ensures LeadsAway(mem, fp, max, fps)
    decreases max
  {
    if !Readable(mem, fp) {
      fps := [];
      assert GoesTo(mem, fp, fps, fp);
    } else {
      var rest := FaultLeadsAway(mem, mem[fp], max - 1);
      fps := [fp] + rest;
      LastStays(mem, fp, rest);
      var next: nat :| GoesTo(mem, mem[fp], rest, next) && Plausible(next) && !Mapped(mem, next);
      assert GoesTo(mem, fp, fps, next);
    }
  }

  lemma {:induction false} LeadingAwayFaults(mem: Memory, fp: nat, max: nat, fps: seq<nat>)
    requires LeadsAway(mem, fp, max, fps)
    ensures WalkFrom(mem, fp, max).Faulted?
    decreases max
  {
    if fps != [] {
      var rest := fps[1..];
      assert fps == [fp] + rest;
      if rest == [] {
        var next: nat :| GoesTo(mem, fp, fps, next) && Plausible(next) && !Mapped(mem, next);
        assert GoesTo(mem, mem[fp], rest, next);
      } else {
        LastStays(mem, fp, rest);
        var next: nat :| GoesTo(mem, fp, fps, next) && Plausible(next) && !Mapped(mem, next);
        assert GoesTo(mem, mem[fp], rest, next);
      }
      LeadingAwayFaults(mem, mem[fp], max - 1, rest);
    }
  }

  /** Exactly then. */
  lemma WalkFaultsIff(mem: Memory, fp: nat, max: nat)
    ensures WalkFrom(mem, fp, max).Faulted? <==> exists fps :: LeadsAway(mem, fp, max, fps)
  {
    if WalkFrom(mem, fp, max).Faulted? {
      var fps := FaultLeadsAway(mem, fp, max);
    }
    if fps :| LeadsAway(mem, fp, max, fps) {
      LeadingAwayFaults(mem, fp, max, fps);
    }
  }

  /** So the frames a reader of the crash file finds, unless the walk faulted, are the crash
      address and the words behind the frames of an ascending chain of at most 63. */
  lemma CrashFileReads(mem: Memory, ctx: Context, contents: seq<Bytes.Byte>) returns (fps: seq<nat>)
    requires BlobBytes(ctx.header, FramesOnDisk(mem, ctx)) <= contents
    requires WordsAreU64(mem) && InRange(ctx.header) && ctx.pc < Bytes.Pow256(8)
    requires ctx.pc != 0 && ctx.fp != 0 && WalkFrom(mem, ctx.fp, 63).Walked?
    ensures Ascends(mem, ctx.fp, fps) && |fps| <= 63 && (|fps| == 63 || Ends(mem, ctx.fp, fps))
    ensures Parsed(contents).Some?
    ensures var frames := Parsed(contents).value.frames;
      |frames| == |fps| + 1 && frames[0] == ctx.pc && forall i :: 0 <= i < |fps| ==> frames[i + 1] == mem[fps[i] + 8]
  {
    fps := WalkAscends(mem, ctx.fp, 63);
    FramesAreRead(mem, ctx, contents);
  }
}
