/** The bytes of a crash file, one by one. */
module BlobLayout {
  import opened Bytes
  import opened CrashBlob

  /** The digit of `x` to base 256, counted from the lowest. */
  function DigitAt(x: nat, k: nat): nat {
    if k == 0 then x % 256 else DigitAt(x / 256, k - 1)
  }

  lemma {:induction false} LowestFirst(x: nat, width: nat, k: nat)
    requires k < width
    ensures ToLe(x, width)[k] == DigitAt(x, k)
    decreases k
  {
    if k > 0 {
      LowestFirst(x / 256, width - 1, k - 1);
    }
  }

  /** `width` bytes from `at` on hold `x`, its lowest digit first. */
  ghost predicate Holds(data: seq<Byte>, at: nat, width: nat, x: nat) {
    at + width <= |data| && forall k :: 0 <= k < width ==> data[at + k] == DigitAt(x, k)
  }

  lemma SliceHolds(data: seq<Byte>, at: nat, width: nat, x: nat)
    requires at + width <= |data| && data[at..at + width] == ToLe(x, width)
    ensures Holds(data, at, width, x)
  {
    forall k | 0 <= k < width ensures data[at + k] == DigitAt(x, k) {
      assert data[at + k] == data[at..at + width][k];
      LowestFirst(x, width, k);
    }
  }

  /** The text "GCRX", a 1, and the signal. */
  lemma MarksStand(h: Header, nFrames: nat, rest: seq<Byte>)
    ensures var data := HeaderBytes(h, nFrames) + rest;
      && data[0] == 0x47 && data[1] == 0x43 && data[2] == 0x52 && data[3] == 0x58
      && data[4] == 1 && data[5] == h.signal
  {
    HeaderFields(h, nFrames, rest);
    var data := HeaderBytes(h, nFrames) + rest;
    assert forall k :: 0 <= k < 4 ==> data[k] == data[0..4][k] == MAGIC[k];
  }

  ghost predicate NumbersAre(data: seq<Byte>, code: nat, address: nat, pid: nat, timestamp: nat, nFrames: nat) {
    && Holds(data, 6, 4, code) && Holds(data, 10, 8, address) && Holds(data, 18, 4, pid)
    && Holds(data, 22, 8, timestamp) && Holds(data, 30, 2, nFrames)
  }

  lemma FieldsHold(data: seq<Byte>, code: nat, address: nat, pid: nat, timestamp: nat, nFrames: nat)
    requires |data| >= 64
    requires data[6..10] == ToLe(code, 4) && data[10..18] == ToLe(address, 8) && data[18..22] == ToLe(pid, 4)
    requires data[22..30] == ToLe(timestamp, 8) && data[30..32] == ToLe(nFrames, 2)
    ensures NumbersAre(data, code, address, pid, timestamp, nFrames)
  {
    SliceHolds(data, 6, 4, code);
    SliceHolds(data, 10, 8, address);
    SliceHolds(data, 18, 4, pid);
    SliceHolds(data, 22, 8, timestamp);
    SliceHolds(data, 30, 2, nFrames);
  }

  /** Two's complement in 32 bits. */
  function CodeBits(siCode: int): nat
    requires -0x8000_0000 <= siCode < 0x8000_0000
  {
    if siCode < 0 then siCode + 0x1_0000_0000 else siCode
  }

  lemma CodeIs(siCode: int)
    requires -0x8000_0000 <= siCode < 0x8000_0000
    ensures AsU32(siCode) == CodeBits(siCode)
  {
  }

  /** Then the numbers: the signal's code, the address, the process, the time, the frames. */
  lemma NumbersStand(h: Header, nFrames: nat, rest: seq<Byte>)
    requires -0x8000_0000 <= h.siCode < 0x8000_0000
    ensures NumbersAre(HeaderBytes(h, nFrames) + rest, CodeBits(h.siCode), h.siAddr, h.pid, h.timestamp, nFrames)
  {
    CodeIs(h.siCode);
    HeaderFields(h, nFrames, rest);
    FieldsHold(HeaderBytes(h, nFrames) + rest, CodeBits(h.siCode), h.siAddr, h.pid, h.timestamp, nFrames);
  }

  /** Then 32 bytes of version, cut or filled up with zeros. */
  lemma VersionStands(h: Header, nFrames: nat, rest: seq<Byte>, k: nat)
    requires k < 32
    ensures (HeaderBytes(h, nFrames) + rest)[32 + k] == if k < |h.version| then h.version[k] else 0
  {
    HeaderFields(h, nFrames, rest);
    var data := HeaderBytes(h, nFrames) + rest;
    assert data[32 + k] == data[32..64][k];
    FieldAt(h.version, k);
  }

  lemma {:induction false} ZeroAt(n: nat, k: nat)
    requires k < n
    ensures Zeros(n)[k] == 0
    decreases n
  {
  }

  lemma FieldAt(v: seq<Byte>, k: nat)
    requires k < 32
    ensures VersionField(v)[k] == if k < |v| then v[k] else 0
  {
    if k >= |v| {
      ZeroAt(32 - |v|, k - |v|);
    }
  }

  /** And each frame in eight bytes. */
  lemma {:induction false} FramesStand(h: Header, frames: seq<nat>, i: nat)
    requires i < |frames|
    ensures Holds(BlobBytes(h, frames), 64 + 8 * i, 8, frames[i])
  {
    var header := HeaderBytes(h, |frames|);
    FrameAtIs(frames, i);
    var data := header + FrameBytes(frames);
    assert data[64 + 8 * i..64 + 8 * i + 8] == FrameBytes(frames)[8 * i..8 * i + 8];
    SliceHolds(data, 64 + 8 * i, 8, frames[i]);
  }

  lemma {:induction false} FrameAtIs(frames: seq<nat>, i: nat)
    requires i < |frames|
    ensures |FrameBytes(frames)| == 8 * |frames| && FrameBytes(frames)[8 * i..8 * i + 8] == ToLe(frames[i], 8)
    decreases |frames|
  {
    var n := |frames| - 1;
    var init := frames[..n];
    assert FrameBytes(frames) == FrameBytes(init) + ToLe(frames[n], 8);
    if i < n {
      FrameAtIs(init, i);
      assert FrameBytes(frames)[8 * i..8 * i + 8] == FrameBytes(init)[8 * i..8 * i + 8];
    }
  }
}
