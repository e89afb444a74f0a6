/** Bytes and little-endian integers. */
module Bytes {

  type Byte = x: int | 0 <= x < 256

  function Pow256(n: nat): nat {
    if n == 0 then 1 else 256 * Pow256(n - 1)
  }

  /** `to_le_bytes` of a `width`-byte unsigned integer. */
  function ToLe(x: nat, width: nat): (b: seq<Byte>)
    ensures |b| == width
  {
    if width == 0 then [] else [x % 256] + ToLe(x / 256, width - 1)
  }

  /** `from_le_bytes` */
  function FromLe(b: seq<Byte>): nat {
    if |b| == 0 then 0 else b[0] + 256 * FromLe(b[1..])
  }

  /** Reading back what was written gives the value modulo the width. */
  lemma {:induction false} FromToLe(x: nat, width: nat)
    ensures x < Pow256(width) ==> FromLe(ToLe(x, width)) == x
  {
    if width > 0 {
      FromToLe(x / 256, width - 1);
      assert ([x % 256] + ToLe(x / 256, width - 1))[1..] == ToLe(x / 256, width - 1);
    }
  }
}
