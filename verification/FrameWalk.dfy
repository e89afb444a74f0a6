/** The crash handler's frame walk over arbitrary memory, and its two-phase write. */
module FrameWalk {
  import opened Wrappers
  import opened Bytes
  import opened CrashBlob

  /** The readable words, by address; a read of any other address faults. */
  type Memory = map<nat, nat>

  const ZERO_PAGE: nat := 4096
  const WORD: nat := 8

  datatype Walk = Walked(addrs: seq<nat>) | Faulted

  predicate ValidPointer(fp: nat) {
    fp >= ZERO_PAGE && fp % 8 == 0
  }

  predicate Readable(mem: Memory, fp: nat) {
    fp in mem && fp + WORD in mem
  }

  /** The return addresses `walk_frame_pointers` collects, at most `max`, or a fault. */
  function WalkFrom(mem: Memory, fp: nat, max: nat): Walk
    decreases max
  {
    if max == 0 || !ValidPointer(fp) then Walked([])
    else if !Readable(mem, fp) then Faulted
    else if mem[fp + WORD] < ZERO_PAGE then Walked([])
    else if mem[fp] <= fp then Walked([mem[fp + WORD]])
    else match WalkFrom(mem, mem[fp], max - 1)
      case Faulted => Faulted
      case Walked(addrs) => Walked([mem[fp + WORD]] + addrs)
  }

  function Prepend(addrs: seq<nat>, walk: Walk): Walk {
    match walk
    case Faulted => Faulted
    case Walked(more) => Walked(addrs + more)
  }

  /** Collects into `out` from index `base`; `faulted` stands for the signal that a bad
      read raises, which ends the process. */
  method WalkFramePointers(mem: Memory, initialFp: nat, out: array<nat>, base: nat, max: nat)
    returns (count: nat, faulted: bool)
    requires base + max <= out.Length
    modifies out
    ensures count <= max && (faulted <==> WalkFrom(mem, initialFp, max).Faulted?)
    ensures forall k :: 0 <= k < base ==> out[k] == old(out[k])
    ensures !faulted ==> var addrs := WalkFrom(mem, initialFp, max).addrs;
      |addrs| == count && forall k :: 0 <= k < count ==> out[base + k] == addrs[k]
  {
    var fp: nat := initialFp;
    ghost var addrs: seq<nat> := [];
    count, faulted := 0, false;
    while count < max
      invariant count <= max && |addrs| == count
      invariant forall k :: 0 <= k < base ==> out[k] == old(out[k])
      invariant forall k :: 0 <= k < count ==> out[base + k] == addrs[k]
      invariant Walking(mem, initialFp, max, addrs, fp)
    {
      if !ValidPointer(fp) {
        break;
      }
      if fp !in mem || fp + WORD !in mem {
        WalkFaults(mem, initialFp, max, addrs, fp);
        return count, true;
      }
      var prevFp, retAddr := mem[fp], mem[fp + WORD];
      if retAddr < ZERO_PAGE {
        break;
      }
      WalkStep(mem, initialFp, max, addrs, fp);
      addrs := addrs + [retAddr];
      out[base + count] := retAddr;
      count := count + 1;
      if prevFp <= fp {
        return;
      }
      fp := prevFp;
    }
    WalkStops(mem, initialFp, max, addrs, fp);
  }

  /** `addrs` have been collected, and the walk goes on at `fp`. */
  ghost predicate Walking(mem: Memory, initialFp: nat, max: nat, addrs: seq<nat>, fp: nat) {
    |addrs| <= max && WalkFrom(mem, initialFp, max) == Prepend(addrs, WalkFrom(mem, fp, max - |addrs|))
  }

  lemma WalkFaults(mem: Memory, initialFp: nat, max: nat, addrs: seq<nat>, fp: nat)
    requires Walking(mem, initialFp, max, addrs, fp) && |addrs| < max && ValidPointer(fp) && !Readable(mem, fp)
    ensures WalkFrom(mem, initialFp, max).Faulted?
  {
  }

  lemma WalkStops(mem: Memory, initialFp: nat, max: nat, addrs: seq<nat>, fp: nat)
    requires Walking(mem, initialFp, max, addrs, fp)
    requires |addrs| == max || !ValidPointer(fp) || (Readable(mem, fp) && mem[fp + WORD] < ZERO_PAGE)
    ensures WalkFrom(mem, initialFp, max) == Walked(addrs)
  {
  }

  lemma WalkStep(mem: Memory, initialFp: nat, max: nat, addrs: seq<nat>, fp: nat)
    requires Walking(mem, initialFp, max, addrs, fp) && |addrs| < max
    requires ValidPointer(fp) && Readable(mem, fp) && mem[fp + WORD] >= ZERO_PAGE
    ensures if mem[fp] <= fp then WalkFrom(mem, initialFp, max) == Walked(addrs + [mem[fp + WORD]])
      else Walking(mem, initialFp, max, addrs + [mem[fp + WORD]], mem[fp])
  {
    if mem[fp] > fp {
      match WalkFrom(mem, mem[fp], max - |addrs| - 1)
      case Faulted =>
      case Walked(more) => Regroup(addrs, [mem[fp + WORD]], more);
    }
  }

  // ----- the walk, as a chain of frames -----

  /** A frame the walk takes: a valid readable pointer with a plausible return address. */
  ghost predicate Frame(mem: Memory, fp: nat) {
    ValidPointer(fp) && Readable(mem, fp) && mem[fp + WORD] >= ZERO_PAGE
  }

  /** `fps` is a strictly ascending chain of frames starting at `fp`. */
  ghost predicate Chain(mem: Memory, fp: nat, fps: seq<nat>) {
    && (|fps| > 0 ==> fps[0] == fp)
    && (forall i :: 0 <= i < |fps| ==> Frame(mem, fps[i]))
    && (forall i :: 0 < i < |fps| ==> fps[i] == mem[fps[i - 1]] && fps[i - 1] < fps[i])
  }

  /** Where the walk goes on after `fps`. */
  ghost function NextOf(mem: Memory, fp: nat, fps: seq<nat>): nat {
    if |fps| > 0 && fps[|fps| - 1] in mem then mem[fps[|fps| - 1]] else fp
  }

  /** The chain cannot be extended: the next pointer does not ascend, or is no frame. */
  ghost predicate Stops(mem: Memory, fp: nat, fps: seq<nat>) {
    var next := NextOf(mem, fp, fps);
    (|fps| > 0 && next <= fps[|fps| - 1]) || !Frame(mem, next)
  }

  /** A walk that does not fault returns the return addresses of an ascending chain, in
      order, and goes on until it is full or the chain cannot be extended. */
  lemma {:induction false} WalkIsChain(mem: Memory, fp: nat, max: nat) returns (fps: seq<nat>)
    requires WalkFrom(mem, fp, max).Walked?
    ensures var addrs := WalkFrom(mem, fp, max).addrs;
      && Chain(mem, fp, fps) && |addrs| == |fps| <= max
      && (forall i :: 0 <= i < |fps| ==> addrs[i] == mem[fps[i] + WORD])
      && (|fps| == max || Stops(mem, fp, fps))
    decreases max
  {
    fps := [];
    if max > 0 && Frame(mem, fp) {
      if mem[fp] <= fp {
        fps := [fp];
      } else {
        var rest := WalkIsChain(mem, mem[fp], max - 1);
        fps := [fp] + rest;
        assert |rest| > 0 ==> fps[|fps| - 1] == rest[|rest| - 1];
      }
    }
  }

  /** Only one list of frames fits: the chain, its bound and its end decide it. */
  lemma {:induction false} ChainIsUnique(mem: Memory, fp: nat, max: nat, a: seq<nat>, b: seq<nat>)
    requires Chain(mem, fp, a) && Chain(mem, fp, b) && |a| <= max && |b| <= max
    requires |a| == max || Stops(mem, fp, a)
    requires |b| == max || Stops(mem, fp, b)
    ensures a == b
  {
    ChainsAgree(mem, fp, a, b);
    if |a| < |b| {
      LongerGoesOn(mem, fp, a, b);
    } else if |b| < |a| {
      LongerGoesOn(mem, fp, b, a);
    }
  }

  lemma LongerGoesOn(mem: Memory, fp: nat, a: seq<nat>, b: seq<nat>)
    requires Chain(mem, fp, a) && Chain(mem, fp, b) && |a| < |b|
    requires forall i :: 0 <= i < |a| ==> a[i] == b[i]
    ensures !Stops(mem, fp, a)
  {
    assert NextOf(mem, fp, a) == b[|a|];
  }

  lemma {:induction false} ChainsAgree(mem: Memory, fp: nat, a: seq<nat>, b: seq<nat>)
    requires Chain(mem, fp, a) && Chain(mem, fp, b)
    ensures forall i :: 0 <= i < |a| && i < |b| ==> a[i] == b[i]
    decreases |a|
  {
    if |a| > 0 {
      var last := |a| - 1;
      ChainsAgree(mem, fp, a[..last], b);
      assert forall i :: 0 <= i < last ==> a[i] == a[..last][i];
      if 0 < last < |b| {
        assert a[last] == mem[a[last - 1]] && b[last] == mem[b[last - 1]];
      }
    }
  }

  // ----- the two-phase write -----

  /** The contents with `bytes` written over them from `at` on, longer if need be. */
  function Overwritten(contents: seq<Byte>, at: nat, bytes: seq<Byte>): seq<Byte>
    requires at <= |contents|
  {
    contents[..at] + bytes + if at + |bytes| < |contents| then contents[at + |bytes|..] else []
  }

  /** A file open for writing. */
  class File {
    var contents: seq<Byte>
    var position: nat

    constructor (contents: seq<Byte>)
      ensures this.contents == contents && position == 0
    {
      this.contents, position := contents, 0;
    }

    /** The system may take fewer bytes than it is given. */
    method Write(bytes: seq<Byte>, taken: nat)
      requires position <= |contents| && taken <= |bytes|
      modifies this
      ensures position == old(position) + taken
      ensures contents == Overwritten(old(contents), old(position), bytes[..taken])
    {
      contents := Overwritten(contents, position, bytes[..taken]);
      position := position + taken;
    }

    method SeekStart()
      modifies this`position
      ensures position == 0
    {
      position := 0;
    }
  }

  datatype Context = Context(header: Header, pc: nat, fp: nat)

  /** The frames on disk when the handler is done, or when the walk has faulted. */
  function FramesOnDisk(mem: Memory, ctx: Context): seq<nat> {
    if ctx.pc == 0 then []
    else if ctx.fp == 0 then [ctx.pc]
    else match WalkFrom(mem, ctx.fp, MAX_FRAMES - 1)
      case Faulted => [ctx.pc]
      case Walked(addrs) => [ctx.pc] + addrs
  }

  /** Writes the header and the first `n` of `frames` into the buffer. */
  method Compose(buf: array<Byte>, h: Header, frames: array<nat>, n: nat) returns (offset: nat)
    requires buf.Length == MAX_FILE_SIZE && n <= frames.Length && n <= MAX_FRAMES
    modifies buf
    ensures offset <= buf.Length && buf[..offset] == BlobBytes(h, frames[..n])
  {
    offset := WriteHeader(buf, h, n);
    assert buf[..offset] == HeaderBytes(h, n) + FrameBytes(frames[..0]);
    for i := 0 to n
      invariant offset == HEADER_SIZE + 8 * i
      invariant buf[..offset] == HeaderBytes(h, n) + FrameBytes(frames[..i])
    {
      assert frames[..i + 1][..i] == frames[..i];
      ghost var before := buf[..];
      offset := WriteFrame(buf, offset, frames[i]);
      PatchedPrefix(before, HEADER_SIZE + 8 * i, ToLe(frames[i], 8));
      ComposeStep(HeaderBytes(h, n), frames[..i], frames[i]);
      assert frames[..i + 1] == frames[..i] + [frames[i]];
    }
  }

  lemma PatchedPrefix(s: seq<Byte>, at: nat, bytes: seq<Byte>)
    requires at + |bytes| <= |s|
    ensures Patched(s, at, bytes)[..at + |bytes|] == s[..at] + bytes
  {
  }

  lemma ComposeStep(header: seq<Byte>, frames: seq<nat>, addr: nat)
    ensures header + FrameBytes(frames) + ToLe(addr, 8) == header + FrameBytes(frames + [addr])
  {
    assert (frames + [addr])[..|frames|] == frames;
  }

  function Front(s: seq<Byte>, n: nat): seq<Byte> {
    s[..if n < |s| then n else |s|]
  }

  /** Composes the blob and writes it at the file's start; at most `limit` bytes are taken. */
  method WriteFrames(buf: array<Byte>, h: Header, frames: array<nat>, n: nat, file: File, limit: nat)
    requires buf.Length == MAX_FILE_SIZE && n <= frames.Length && n <= MAX_FRAMES && file.position == 0
    modifies buf, file
    ensures file.contents == Overwritten(old(file.contents), 0, Front(BlobBytes(h, frames[..n]), limit))
  {
    var offset := Compose(buf, h, frames, n);
    file.Write(buf[..offset], if limit < offset then limit else offset);
  }

  /** The crash address alone, or nothing. */
  function FirstFrames(ctx: Context): seq<nat> {
    if ctx.pc == 0 then [] else [ctx.pc]
  }

  /** The walk survives and finds something. */
  predicate Rewrites(mem: Memory, ctx: Context) {
    ctx.pc != 0 && ctx.fp != 0 &&
    var walk := WalkFrom(mem, ctx.fp, MAX_FRAMES - 1); walk.Walked? && walk.addrs != []
  }

  /** The file's contents when the system takes at most `first` and `second` bytes. */
  function DiskAfter(contents: seq<Byte>, mem: Memory, ctx: Context, first: nat, second: nat): seq<Byte> {
    var one := Overwritten(contents, 0, Front(BlobBytes(ctx.header, FirstFrames(ctx)), first));
    if Rewrites(mem, ctx) then Overwritten(one, 0, Front(BlobBytes(ctx.header, FramesOnDisk(mem, ctx)), second))
    else one
  }

  /** Without a file nothing is done.  The first phase writes the crash address alone; the
      second, if the walk survives and finds anything, rewrites the file with the walked
      frames. */
  method WriteCrashBlob(mem: Memory, ctx: Context, buf: array<Byte>, file: File?, first: nat, second: nat)
    requires buf.Length == MAX_FILE_SIZE && (file != null ==> file.position == 0)
    modifies buf, file
    ensures file == null ==> buf[..] == old(buf[..])
    ensures file != null ==> file.contents == DiskAfter(old(file.contents), mem, ctx, first, second)
  {
    if file == null {
      return;
    }
    var frames := new nat[MAX_FRAMES](_ => 0);
    var nFrames := 0;
    if ctx.pc != 0 {
      frames[0] := ctx.pc;
      nFrames := 1;
    }
    assert frames[..nFrames] == FirstFrames(ctx);
    WriteFrames(buf, ctx.header, frames, nFrames, file, first);
    if ctx.fp != 0 && ctx.pc != 0 {
      WriteWalkedFrames(mem, ctx, frames, buf, file, second);
    }
  }

  method WriteWalkedFrames(mem: Memory, ctx: Context, frames: array<nat>, buf: array<Byte>, file: File, limit: nat)
    requires ctx.fp != 0 && ctx.pc != 0 && frames.Length == MAX_FRAMES && frames[0] == ctx.pc
    requires buf.Length == MAX_FILE_SIZE
    modifies buf, file, frames
    ensures file.contents == if Rewrites(mem, ctx)
      then Overwritten(old(file.contents), 0, Front(BlobBytes(ctx.header, FramesOnDisk(mem, ctx)), limit))
      else old(file.contents)
  {
    var walked, faulted := WalkFramePointers(mem, ctx.fp, frames, 1, MAX_FRAMES - 1);
    if faulted || walked == 0 {
      return;
    }
    assert frames[..1 + walked] == FramesOnDisk(mem, ctx);
    file.SeekStart();
    WriteFrames(buf, ctx.header, frames, 1 + walked, file, limit);
  }

  lemma FrontStays(contents: seq<Byte>, bytes: seq<Byte>)
    ensures bytes <= Overwritten(contents, 0, bytes)
  {
  }

  /** If the last write is taken whole, the file starts with the blob of the frames on disk,
      whatever it held and whatever became of the first write. */
  lemma WholeWriteStays(contents: seq<Byte>, mem: Memory, ctx: Context, first: nat, second: nat)
    requires |BlobBytes(ctx.header, FramesOnDisk(mem, ctx))| <= if Rewrites(mem, ctx) then second else first
    ensures BlobBytes(ctx.header, FramesOnDisk(mem, ctx)) <= DiskAfter(contents, mem, ctx, first, second)
  {
    var blob := BlobBytes(ctx.header, FramesOnDisk(mem, ctx));
    if Rewrites(mem, ctx) {
      FrontStays(Overwritten(contents, 0, Front(BlobBytes(ctx.header, FirstFrames(ctx)), first)), blob);
    } else {
      assert FramesOnDisk(mem, ctx) == FirstFrames(ctx);
      FrontStays(contents, blob);
    }
  }

  /** A second write that is cut short behind its header takes the first blob with it: the
      new header announces frames that a file which was empty does not hold. */
  lemma ShortRewriteLosesBlob(mem: Memory, ctx: Context, first: nat, second: nat)
    requires Rewrites(mem, ctx) && InRange(ctx.header) && WordsAreU64(mem) && ctx.pc < Pow256(8)
    requires HEADER_SIZE <= second < |BlobBytes(ctx.header, FramesOnDisk(mem, ctx))|
    ensures Parsed(DiskAfter([], mem, ctx, first, second)) == None
  {
    var frames := FramesOnDisk(mem, ctx);
    FramesFit(mem, ctx);
    var one := Overwritten([], 0, Front(BlobBytes(ctx.header, FirstFrames(ctx)), first));
    var data := DiskAfter([], mem, ctx, first, second);
    var header := HeaderBytes(ctx.header, |frames|);
    assert data == header + data[HEADER_SIZE..];
    HeaderReadsBack(ctx.header, |frames|, data[HEADER_SIZE..]);
    ShortOfFrames(data, ctx.header, |frames|);
  }

  ghost predicate WordsAreU64(mem: Memory) {
    forall a :: a in mem ==> mem[a] < Pow256(8)
  }

  lemma {:induction false} WalkedWords(mem: Memory, fp: nat, max: nat)
    requires WordsAreU64(mem) && WalkFrom(mem, fp, max).Walked?
    ensures |WalkFrom(mem, fp, max).addrs| <= max
    ensures forall i :: 0 <= i < |WalkFrom(mem, fp, max).addrs| ==> WalkFrom(mem, fp, max).addrs[i] < Pow256(8)
    decreases max
  {
    if max > 0 && Frame(mem, fp) && mem[fp] > fp {
      WalkedWords(mem, mem[fp], max - 1);
    }
  }

  lemma FramesFit(mem: Memory, ctx: Context)
    requires WordsAreU64(mem) && ctx.pc < Pow256(8)
    ensures |FramesOnDisk(mem, ctx)| <= MAX_FRAMES
    ensures forall i :: 0 <= i < |FramesOnDisk(mem, ctx)| ==> FramesOnDisk(mem, ctx)[i] < Pow256(8)
  {
    if WalkFrom(mem, ctx.fp, MAX_FRAMES - 1).Walked? {
      WalkedWords(mem, ctx.fp, MAX_FRAMES - 1);
    }
  }

  /** Whatever the memory, the fault context and the old contents of the file: what is on
      disk afterwards parses to the header's fields and the crash address followed by the
      walked return addresses, or the crash address alone if the walk faulted. */
  lemma CrashFileParses(mem: Memory, ctx: Context, contents: seq<Byte>)
    requires BlobBytes(ctx.header, FramesOnDisk(mem, ctx)) <= contents
    requires WordsAreU64(mem) && InRange(ctx.header) && ctx.pc < Pow256(8)
    ensures |FramesOnDisk(mem, ctx)| <= MAX_FRAMES
    ensures var h := ctx.header;
      Parsed(contents)
      == Some(Blob(h.signal, h.siCode, h.siAddr, h.pid, h.timestamp,
                   FramesOnDisk(mem, ctx), DecodeVersion(VersionField(h.version))))
  {
    FramesFit(mem, ctx);
    var blob := BlobBytes(ctx.header, FramesOnDisk(mem, ctx));
    assert contents == blob + contents[|blob|..];
    BlobRoundTrip(ctx.header, FramesOnDisk(mem, ctx), contents[|blob|..]);
  }

  lemma FramesAreRead(mem: Memory, ctx: Context, contents: seq<Byte>)
    requires BlobBytes(ctx.header, FramesOnDisk(mem, ctx)) <= contents
    requires WordsAreU64(mem) && InRange(ctx.header) && ctx.pc < Pow256(8)
    ensures Parsed(contents).Some? && Parsed(contents).value.frames == FramesOnDisk(mem, ctx)
  {
    CrashFileParses(mem, ctx, contents);
  }

  function ReturnAddresses(mem: Memory, fps: seq<nat>): (addrs: seq<nat>)
    requires forall i :: 0 <= i < |fps| ==> fps[i] + WORD in mem
    ensures |addrs| == |fps| && forall i :: 0 <= i < |fps| ==> addrs[i] == mem[fps[i] + WORD]
  {
    seq(|fps|, i requires 0 <= i < |fps| => mem[fps[i] + WORD])
  }

  /** A chain of at most 63 frames that goes as far as one can: full, or to its end. */
  ghost predicate CrashChain(mem: Memory, ctx: Context, fps: seq<nat>) {
    && Chain(mem, ctx.fp, fps) && |fps| <= MAX_FRAMES - 1
    && (|fps| == MAX_FRAMES - 1 || Stops(mem, ctx.fp, fps))
  }

  /** What a reader of the file finds, unless the walk faulted: the crash address, and behind
      it the return addresses of the one ascending chain of at most 63 frames. */
  lemma CrashFileHoldsChain(mem: Memory, ctx: Context, contents: seq<Byte>) returns (fps: seq<nat>)
    requires BlobBytes(ctx.header, FramesOnDisk(mem, ctx)) <= contents
    requires WordsAreU64(mem) && InRange(ctx.header) && ctx.pc < Pow256(8)
    requires ctx.pc != 0 && ctx.fp != 0 && WalkFrom(mem, ctx.fp, MAX_FRAMES - 1).Walked?
    ensures CrashChain(mem, ctx, fps)
    ensures forall other :: CrashChain(mem, ctx, other) ==> other == fps
    ensures Parsed(contents).Some? && Parsed(contents).value.frames == [ctx.pc] + ReturnAddresses(mem, fps)
  {
    fps := WalkIsChain(mem, ctx.fp, MAX_FRAMES - 1);
    FramesAreRead(mem, ctx, contents);
    AddressesAre(mem, fps, WalkFrom(mem, ctx.fp, MAX_FRAMES - 1).addrs);
    OnlyChain(mem, ctx, fps);
  }

  lemma AddressesAre(mem: Memory, fps: seq<nat>, addrs: seq<nat>)
    requires forall i :: 0 <= i < |fps| ==> fps[i] + WORD in mem
    requires |addrs| == |fps| && forall i :: 0 <= i < |fps| ==> addrs[i] == mem[fps[i] + WORD]
    ensures addrs == ReturnAddresses(mem, fps)
  {
  }

  lemma OnlyChain(mem: Memory, ctx: Context, fps: seq<nat>)
    requires CrashChain(mem, ctx, fps)
    ensures forall other :: CrashChain(mem, ctx, other) ==> other == fps
  {
    forall other | CrashChain(mem, ctx, other) ensures other == fps {
      ChainIsUnique(mem, ctx.fp, MAX_FRAMES - 1, other, fps);
    }
  }
}
