/** The binary crash blob of `format.rs`: a fixed header, the version in 32 bytes and one
    little-endian word for each frame.  Its writer fills a pre-allocated buffer in place, as
    a signal handler must; its parser takes any bytes, and rejects those that are no blob. */
module CrashBlob {
  import opened Wrappers
  import opened Bytes

  const MAGIC: seq<Byte> := [0x47, 0x43, 0x52, 0x58]   // "GCRX"
  const VERSION: Byte := 1
  const MAX_FRAMES: nat := 64
  const VERSION_STRING_LEN: nat := 32
  const HEADER_SIZE: nat := 64
  const MAX_FILE_SIZE: nat := HEADER_SIZE + MAX_FRAMES * 8

  datatype Header = Header(
    signal: Byte,
    siCode: int,      // i32
    siAddr: nat,      // u64
    pid: nat,         // u32
    timestamp: nat,   // u64
    version: seq<Byte>)

  ghost predicate InRange(h: Header) {
    && -0x8000_0000 <= h.siCode < 0x8000_0000
    && h.siAddr < Pow256(8) && h.pid < Pow256(4) && h.timestamp < Pow256(8)
  }

  datatype Blob = Blob(
    signal: Byte, siCode: int, siAddr: nat, pid: nat, timestamp: nat,
    frames: seq<nat>, appVersion: seq<Byte>)

  // ----- encodings -----

  /** A 32-bit two's complement value as the unsigned value with the same bytes. */
  function AsU32(i: int): nat {
    i % 0x1_0000_0000
  }

  function AsI32(u: nat): int {
    if u < 0x8000_0000 then u else u - 0x1_0000_0000
  }

  function Zeros(n: nat): seq<Byte> {
    seq(n, _ => 0)
  }

  /** The null-padded version field; a longer string is cut. */
  function VersionField(v: seq<Byte>): (field: seq<Byte>)
    ensures |field| == VERSION_STRING_LEN
  {
    if |v| >= VERSION_STRING_LEN then v[..VERSION_STRING_LEN] else v + Zeros(VERSION_STRING_LEN - |v|)
  }

  function FrameBytes(frames: seq<nat>): (b: seq<Byte>)
    ensures |b| == 8 * |frames|
  {
    if |frames| == 0 then [] else FrameBytes(frames[..|frames| - 1]) + ToLe(frames[|frames| - 1], 8)
  }

  // ----- the writer -----

  /** `s` with `bytes` written over it from `at` on. */
  function Patched(s: seq<Byte>, at: nat, bytes: seq<Byte>): (r: seq<Byte>)
    requires at + |bytes| <= |s|
    ensures |r| == |s|
  {
    s[..at] + bytes + s[at + |bytes|..]
  }

  /** `buf[at..at + bytes.len()].copy_from_slice(bytes)` */
  method CopyAt(buf: array<Byte>, at: nat, bytes: seq<Byte>)
    requires at + |bytes| <= buf.Length
    modifies buf
    ensures buf[..] == Patched(old(buf[..]), at, bytes)
  {
    for i := 0 to |bytes|
      invariant forall k :: at <= k < at + i ==> buf[k] == bytes[k - at]
      invariant forall k :: 0 <= k < buf.Length && !(at <= k < at + i) ==> buf[k] == old(buf[k])
    {
      buf[at + i] := bytes[i];
    }
  }

  /** Writing behind what has been written so far. */
  lemma PatchNext(s: seq<Byte>, written: seq<Byte>, bytes: seq<Byte>)
    requires |written| + |bytes| <= |s|
    ensures Patched(written + s[|written|..], |written|, bytes) == (written + bytes) + s[|written| + |bytes|..]
  {
  }

  /** Writing over the first part of some padding. */
  lemma PatchPadding(written: seq<Byte>, n: nat, bytes: seq<Byte>, tail: seq<Byte>)
    requires |bytes| <= n
    ensures Patched(written + Zeros(n) + tail, |written|, bytes) == (written + (bytes + Zeros(n - |bytes|))) + tail
  {
  }

  /** The header before the version field. */
  function FixedFields(h: Header, nFrames: nat): (b: seq<Byte>)
    ensures |b| == 32
  {
    MAGIC + [VERSION] + [h.signal] + ToLe(AsU32(h.siCode), 4) + ToLe(h.siAddr, 8) + ToLe(h.pid, 4)
    + ToLe(h.timestamp, 8) + ToLe(nFrames, 2)
  }

  function HeaderBytes(h: Header, nFrames: nat): (b: seq<Byte>)
    ensures |b| == HEADER_SIZE
  {
    FixedFields(h, nFrames) + VersionField(h.version)
  }

  method WriteHeader(buf: array<Byte>, h: Header, nFrames: nat) returns (offset: nat)
    requires HEADER_SIZE <= buf.Length
    modifies buf
    ensures offset == HEADER_SIZE && buf[..] == HeaderBytes(h, nFrames) + old(buf[HEADER_SIZE..])
  {
    WriteFixedFields(buf, h, nFrames);
    WriteVersion(buf, FixedFields(h, nFrames), h.version, buf[..]);
    offset := 64;
  }

  /** Null-pads the version field, then copies what fits into it. */
  method WriteVersion(buf: array<Byte>, ghost fixed: seq<Byte>, version: seq<Byte>, ghost before: seq<Byte>)
    requires HEADER_SIZE <= buf.Length && |fixed| == 32 && before == buf[..] == fixed + before[32..]
    modifies buf
    ensures buf[..] == fixed + VersionField(version) + before[HEADER_SIZE..]
  {
    PatchNext(before, fixed, Zeros(VERSION_STRING_LEN));
    CopyAt(buf, 32, Zeros(VERSION_STRING_LEN));
    var copyLen := if |version| < VERSION_STRING_LEN then |version| else VERSION_STRING_LEN;
    PatchPadding(fixed, VERSION_STRING_LEN, version[..copyLen], before[HEADER_SIZE..]);
    CopyAt(buf, 32, version[..copyLen]);
    assert version[..copyLen] + Zeros(VERSION_STRING_LEN - copyLen) == VersionField(version);
  }

  method WriteFixedFields(buf: array<Byte>, h: Header, nFrames: nat)
    requires HEADER_SIZE <= buf.Length
    modifies buf
    ensures buf[..] == FixedFields(h, nFrames) + old(buf[32..])
  {
    ghost var s := buf[..];
    CopyAt(buf, 0, MAGIC);
    ghost var w := MAGIC;
    assert buf[..] == w + s[|w|..];
    w := WriteNext(buf, s, w, 4, [VERSION]);
    w := WriteNext(buf, s, w, 5, [h.signal]);
    w := WriteNext(buf, s, w, 6, ToLe(AsU32(h.siCode), 4));
    w := WriteNext(buf, s, w, 10, ToLe(h.siAddr, 8));
    w := WriteNext(buf, s, w, 18, ToLe(h.pid, 4));
    w := WriteNext(buf, s, w, 22, ToLe(h.timestamp, 8));
    w := WriteNext(buf, s, w, 30, ToLe(nFrames, 2));
  }

  /** The next field, over the buffer that held `s` at first. */
  method WriteNext(buf: array<Byte>, ghost s: seq<Byte>, ghost written: seq<Byte>, at: nat, bytes: seq<Byte>)
    returns (ghost w: seq<Byte>)
    requires |written| == at && at + |bytes| <= buf.Length == |s| && buf[..] == written + s[|written|..]
    modifies buf
    ensures w == written + bytes && buf[..] == w + s[|w|..]
  {
    PatchNext(s, written, bytes);
    CopyAt(buf, at, bytes);
    w := written + bytes;
  }

  method WriteFrame(buf: array<Byte>, offset: nat, addr: nat) returns (next: nat)
    requires offset + 8 <= buf.Length
    modifies buf
    ensures next == offset + 8 && buf[..] == Patched(old(buf[..]), offset, ToLe(addr, 8))
  {
    CopyAt(buf, offset, ToLe(addr, 8));
    next := offset + 8;
  }

  // ----- UTF-8 validity, as `str::from_utf8` has it -----

  predicate Continuation(b: Byte) {
    0x80 <= b <= 0xBF
  }

  /** The length of the well-formed sequence that `s` starts with, or 0. */
  function SequenceLength(s: seq<Byte>): nat {
    if |s| == 0 then 0
    else if s[0] < 0x80 then 1
    else if 0xC2 <= s[0] <= 0xDF && |s| >= 2 && Continuation(s[1]) then 2
    else if 0xE0 <= s[0] <= 0xEF && |s| >= 3 && Continuation(s[1]) && Continuation(s[2])
            && (s[0] == 0xE0 ==> s[1] >= 0xA0) && (s[0] == 0xED ==> s[1] <= 0x9F) then 3
    else if 0xF0 <= s[0] <= 0xF4 && |s| >= 4 && Continuation(s[1]) && Continuation(s[2]) && Continuation(s[3])
            && (s[0] == 0xF0 ==> s[1] >= 0x90) && (s[0] == 0xF4 ==> s[1] <= 0x8F) then 4
    else 0
  }

  predicate ValidUtf8(s: seq<Byte>)
    decreases |s|
  {
    |s| == 0 || (SequenceLength(s) > 0 && ValidUtf8(s[SequenceLength(s)..]))
  }

  function TrimNul(s: seq<Byte>): (r: seq<Byte>)
    ensures r <= s && (r != [] ==> r[|r| - 1] != 0)
  {
    if |s| > 0 && s[|s| - 1] == 0 then TrimNul(s[..|s| - 1]) else s
  }

  function DecodeVersion(field: seq<Byte>): seq<Byte> {
    if ValidUtf8(field) then TrimNul(field) else []
  }

  // ----- the parser -----

  function FrameAt(data: seq<Byte>, i: nat): nat
    requires HEADER_SIZE + 8 * (i + 1) <= |data|
  {
    FromLe(data[HEADER_SIZE + 8 * i..HEADER_SIZE + 8 * (i + 1)])
  }

  function FramesAt(data: seq<Byte>, n: nat): (frames: seq<nat>)
    requires HEADER_SIZE + 8 * n <= |data|
    ensures |frames| == n
  {
    if n == 0 then [] else FramesAt(data, n - 1) + [FrameAt(data, n - 1)]
  }

  function Parsed(data: seq<Byte>): Option<Blob> {
    if |data| < HEADER_SIZE || data[0..4] != MAGIC || data[4] != VERSION then None
    else
      var nFrames := FromLe(data[30..32]);
      if nFrames > MAX_FRAMES || |data| < HEADER_SIZE + 8 * nFrames then None
      else Some(Blob(
        data[5], AsI32(FromLe(data[6..10])), FromLe(data[10..18]), FromLe(data[18..22]), FromLe(data[22..30]),
        FramesAt(data, nFrames),
        DecodeVersion(data[32..64])))
  }

  method Parse(data: seq<Byte>) returns (blob: Option<Blob>)
    ensures blob == Parsed(data)
  {
    if |data| < HEADER_SIZE || data[0..4] != MAGIC || data[4] != VERSION {
      return None;
    }
    var nFrames := FromLe(data[30..32]);
    var appVersion := DecodeVersion(data[32..64]);
    if nFrames > MAX_FRAMES || |data| < HEADER_SIZE + nFrames * 8 {
      return None;
    }
    var frames := [];
    for i := 0 to nFrames
      invariant frames == FramesAt(data, i)
    {
      var offset := HEADER_SIZE + i * 8;
      frames := frames + [FromLe(data[offset..offset + 8])];
    }
    blob := Some(Blob(
      data[5], AsI32(FromLe(data[6..10])), FromLe(data[10..18]), FromLe(data[18..22]), FromLe(data[22..30]),
      frames, appVersion));
  }

  // ----- the round trip -----

  /** A field between what is before and behind it. */
  lemma Peel(before: seq<Byte>, field: seq<Byte>, behind: seq<Byte>)
    ensures var data := before + field + behind;
      data == before + (field + behind) && data[|before|..|before| + |field|] == field
  {
  }

  lemma HeaderFields(h: Header, nFrames: nat, rest: seq<Byte>)
    ensures var data := HeaderBytes(h, nFrames) + rest;
      && data[0..4] == MAGIC && data[4] == VERSION && data[5] == h.signal
      && data[6..10] == ToLe(AsU32(h.siCode), 4) && data[10..18] == ToLe(h.siAddr, 8)
      && data[18..22] == ToLe(h.pid, 4) && data[22..30] == ToLe(h.timestamp, 8)
      && data[30..32] == ToLe(nFrames, 2) && data[32..64] == VersionField(h.version)
  {
    var b2 := MAGIC + [VERSION] + [h.signal];
    var b3 := b2 + ToLe(AsU32(h.siCode), 4);
    var b4 := b3 + ToLe(h.siAddr, 8);
    var b5 := b4 + ToLe(h.pid, 4);
    var b6 := b5 + ToLe(h.timestamp, 8);
    var r7 := VersionField(h.version) + rest;
    var r6 := ToLe(nFrames, 2) + r7;
    var r5 := ToLe(h.timestamp, 8) + r6;
    var r4 := ToLe(h.pid, 4) + r5;
    var r3 := ToLe(h.siAddr, 8) + r4;
    var r2 := ToLe(AsU32(h.siCode), 4) + r3;
    Peel(FixedFields(h, nFrames), VersionField(h.version), rest);
    Peel(b6, ToLe(nFrames, 2), r7);
    Peel(b5, ToLe(h.timestamp, 8), r6);
    Peel(b4, ToLe(h.pid, 4), r5);
    Peel(b3, ToLe(h.siAddr, 8), r4);
    Peel(b2, ToLe(AsU32(h.siCode), 4), r3);
    FirstFields(h.signal, r2);
  }

  lemma FirstFields(signal: Byte, behind: seq<Byte>)
    ensures var data := MAGIC + [VERSION] + [signal] + behind;
      data[0..4] == MAGIC && data[4] == VERSION && data[5] == signal
  {
  }

  lemma {:induction false} FramesReadBack(header: seq<Byte>, frames: seq<nat>, rest: seq<Byte>)
    requires |header| == HEADER_SIZE && forall i :: 0 <= i < |frames| ==> frames[i] < Pow256(8)
    ensures FramesAt(header + FrameBytes(frames) + rest, |frames|) == frames
    decreases |frames|
  {
    if |frames| > 0 {
      var n := |frames| - 1;
      var init, last := frames[..n], ToLe(frames[n], 8);
      var data := header + FrameBytes(init) + (last + rest);
      assert header + FrameBytes(frames) == header + FrameBytes(init) + last;
      Peel(header + FrameBytes(init), last, rest);
      FramesReadBack(header, init, last + rest);
      FromToLe(frames[n], 8);
      assert FramesAt(data, n + 1) == init + [frames[n]];
    }
  }

  lemma PowersOf256()
    ensures Pow256(2) == 0x1_0000 && Pow256(4) == 0x1_0000_0000
  {
    assert Pow256(2) == 256 * Pow256(1) && Pow256(1) == 256 * Pow256(0);
    assert Pow256(4) == 256 * Pow256(3) && Pow256(3) == 256 * Pow256(2);
  }

  /** `data` starts with a header for `h` and `nFrames`. */
  ghost predicate HasHeader(data: seq<Byte>, h: Header, nFrames: nat) {
    && |data| >= HEADER_SIZE && data[0..4] == MAGIC && data[4] == VERSION && data[5] == h.signal
    && AsI32(FromLe(data[6..10])) == h.siCode && FromLe(data[10..18]) == h.siAddr
    && FromLe(data[18..22]) == h.pid && FromLe(data[22..30]) == h.timestamp
    && FromLe(data[30..32]) == nFrames && data[32..64] == VersionField(h.version)
  }

  lemma HeaderReadsBack(h: Header, nFrames: nat, rest: seq<Byte>)
    requires InRange(h) && nFrames <= MAX_FRAMES
    ensures HasHeader(HeaderBytes(h, nFrames) + rest, h, nFrames)
  {
    HeaderFields(h, nFrames, rest);
    PowersOf256();
    FromToLe(AsU32(h.siCode), 4);
    FromToLe(h.siAddr, 8);
    FromToLe(h.pid, 4);
    FromToLe(h.timestamp, 8);
    FromToLe(nFrames, 2);
  }

  lemma ParsedOfParts(data: seq<Byte>, h: Header, frames: seq<nat>)
    requires HasHeader(data, h, |frames|) && |frames| <= MAX_FRAMES
    requires HEADER_SIZE + 8 * |frames| <= |data| && FramesAt(data, |frames|) == frames
    ensures Parsed(data)
         == Some(Blob(h.signal, h.siCode, h.siAddr, h.pid, h.timestamp, frames, DecodeVersion(VersionField(h.version))))
  {
  }

  lemma PartsReadBack(header: seq<Byte>, h: Header, frames: seq<nat>, rest: seq<Byte>)
    requires |header| == HEADER_SIZE && HasHeader(header + (FrameBytes(frames) + rest), h, |frames|)
    requires forall i :: 0 <= i < |frames| ==> frames[i] < Pow256(8)
    ensures HasHeader(header + FrameBytes(frames) + rest, h, |frames|)
    ensures FramesAt(header + FrameBytes(frames) + rest, |frames|) == frames
  {
    assert header + FrameBytes(frames) + rest == header + (FrameBytes(frames) + rest);
    FramesReadBack(header, frames, rest);
  }

  lemma ShortOfFrames(data: seq<Byte>, h: Header, nFrames: nat)
    requires HasHeader(data, h, nFrames) && |data| < HEADER_SIZE + 8 * nFrames
    ensures Parsed(data) == None
  {
  }

  function BlobBytes(h: Header, frames: seq<nat>): seq<Byte> {
    HeaderBytes(h, |frames|) + FrameBytes(frames)
  }

  /** Whatever is written is parsed back: every header field, every frame, and the version
      as its null-padded field decodes, whatever follows in the file. */
  lemma BlobRoundTrip(h: Header, frames: seq<nat>, rest: seq<Byte>)
    requires InRange(h) && |frames| <= MAX_FRAMES && forall i :: 0 <= i < |frames| ==> frames[i] < Pow256(8)
    ensures Parsed(BlobBytes(h, frames) + rest)
         == Some(Blob(h.signal, h.siCode, h.siAddr, h.pid, h.timestamp, frames, DecodeVersion(VersionField(h.version))))
  {
    HeaderReadsBack(h, |frames|, FrameBytes(frames) + rest);
    PartsReadBack(HeaderBytes(h, |frames|), h, frames, rest);
    ParsedOfParts(BlobBytes(h, frames) + rest, h, frames);
  }

  // ----- when the version survives -----

  lemma DropOfAppend(a: seq<Byte>, b: seq<Byte>, k: nat)
    requires k <= |a|
    ensures (a + b)[k..] == a[k..] + b
  {
  }

  lemma {:induction false} PaddingKeepsUtf8(v: seq<Byte>, n: nat)
    ensures ValidUtf8(v + Zeros(n)) <==> ValidUtf8(v)
    decreases |v|, n
  {
    var padded := v + Zeros(n);
    if |v| > 0 {
      assert SequenceLength(padded) == SequenceLength(v);
      var k := SequenceLength(v);
      if k > 0 {
        DropOfAppend(v, Zeros(n), k);
        PaddingKeepsUtf8(v[k..], n);
      }
    } else if n > 0 {
      assert padded[1..] == [] + Zeros(n - 1);
      PaddingKeepsUtf8([], n - 1);
    }
  }

  lemma {:induction false} TrimNulOfPadded(v: seq<Byte>, n: nat)
    ensures TrimNul(v + Zeros(n)) == TrimNul(v)
  {
    if n == 0 {
      assert v + Zeros(0) == v;
    } else {
      assert (v + Zeros(n))[..|v| + n - 1] == v + Zeros(n - 1);
      TrimNulOfPadded(v, n - 1);
    }
  }

  /** A version string is recovered exactly when it has at most 32 bytes and does not end
      in a NUL. */
  lemma {:induction false} VersionSurvivesIff(v: seq<Byte>)
    requires ValidUtf8(v)
    ensures DecodeVersion(VersionField(v)) == v <==> |v| <= VERSION_STRING_LEN && (v != [] ==> v[|v| - 1] != 0)
  {
    if |v| < VERSION_STRING_LEN {
      PaddingKeepsUtf8(v, VERSION_STRING_LEN - |v|);
      TrimNulOfPadded(v, VERSION_STRING_LEN - |v|);
    } else if |v| == VERSION_STRING_LEN {
      assert v[..VERSION_STRING_LEN] == v;
    }
  }
}
