/** The bounded tail of raw output kept for diagnostics: `push_raw_tail`. */
module RawTail {
  import opened Bytes

  const RAW_TAIL_CAP: nat := 2048

  function LastBytes(s: seq<Byte>, n: nat): seq<Byte> {
    if |s| <= n then s else s[|s| - n..]
  }

  /** Cutting early loses nothing that a later cut would keep. */
  lemma LastBytesOfLast(a: seq<Byte>, b: seq<Byte>, n: nat)
    ensures LastBytes(LastBytes(a, n) + b, n) == LastBytes(a + b, n)
  {
  }

  /** The oldest byte of a tail that is too long is of no account. */
  lemma OldestIsDropped(a: seq<Byte>, b: seq<Byte>, n: nat)
    requires |a| > 0 && |a| + |b| > n
    ensures LastBytes(a[1..] + b, n) == LastBytes(a + b, n)
  {
    assert (a + b)[1..] == a[1..] + b;
  }

  lemma LongChunkIsEnough(a: seq<Byte>, b: seq<Byte>, n: nat)
    requires |b| >= n
    ensures LastBytes(a + b, n) == b[|b| - n..]
  {
  }

  class Tail {
    var bytes: seq<Byte>
    ghost var stream: seq<Byte>   // everything ever pushed

    ghost predicate Valid()
      reads this
    {
      bytes == LastBytes(stream, 2048)
    }

    constructor ()
      ensures Valid() && stream == []
    {
      bytes, stream := [], [];
    }

    /** Keeps exactly the last RAW_TAIL_CAP bytes of everything pushed so far. */
    method Push(chunk: seq<Byte>)
      requires Valid()
      modifies this
      ensures Valid() && stream == old(stream) + chunk
    {
      LastBytesOfLast(stream, chunk, RAW_TAIL_CAP);
      stream := stream + chunk;
      if |chunk| >= RAW_TAIL_CAP {
        LongChunkIsEnough(old(stream), chunk, RAW_TAIL_CAP);
        bytes := chunk[|chunk| - RAW_TAIL_CAP..];
        return;
      }
      while |bytes| + |chunk| > RAW_TAIL_CAP
        invariant LastBytes(bytes + chunk, RAW_TAIL_CAP) == LastBytes(old(bytes) + chunk, RAW_TAIL_CAP)
        invariant stream == old(stream) + chunk
      {
        OldestIsDropped(bytes, chunk, RAW_TAIL_CAP);
        bytes := bytes[1..];
      }
      bytes := bytes + chunk;
    }
  }
}
