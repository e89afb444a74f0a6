/** Byte-budgeted truncation of one text: `truncate_text_to_bytes`. */
module Truncation {
  import opened Wrappers
  import opened Decimal

  /** The UTF-8 width of a scalar value. */
  function Width(c: char): nat {
    if c < '\U{80}' then 1 else if c < '\U{800}' then 2 else if c < '\U{10000}' then 3 else 4
  }

  function ByteLen(s: string): nat {
    if |s| == 0 then 0 else Width(s[0]) + ByteLen(s[1..])
  }

  predicate IsCharBoundary(s: string, b: nat) {
    b == 0 || (|s| > 0 && Width(s[0]) <= b && IsCharBoundary(s[1..], b - Width(s[0])))
  }

  /** The slice `&s[..b]`. */
  function BytePrefix(s: string, b: nat): string
    requires IsCharBoundary(s, b)
  {
    if b == 0 then [] else [s[0]] + BytePrefix(s[1..], b - Width(s[0]))
  }

  const MARKER_RESERVE := 64
  type AsciiText = s: string | forall i :: 0 <= i < |s| ==> s[i] < '\U{80}' witness []

  const MARKER_OPEN: AsciiText := "\n[... truncated "
  const MARKER_CLOSE: AsciiText := " bytes to fit the compaction window ...]"

  function Marker(dropped: nat): string {
    MARKER_OPEN + Render(dropped) + MARKER_CLOSE
  }

  /** How many leading characters fit in `bytes`. */
  function CharsWithin(s: string, bytes: nat): (k: nat)
    ensures k <= |s|
  {
    if |s| == 0 || Width(s[0]) > bytes then 0 else 1 + CharsWithin(s[1..], bytes - Width(s[0]))
  }

  function KeepBytes(maxBytes: nat): nat {
    if maxBytes < MARKER_RESERVE then 0 else maxBytes - MARKER_RESERVE
  }

  function TruncatedText(s: string, maxBytes: nat): Option<string> {
    if ByteLen(s) <= maxBytes then None
    else
      var k := CharsWithin(s, KeepBytes(maxBytes));
      Some(s[..k] + Marker(ByteLen(s[k..])))
  }

  method TruncateTextToBytes(s: string, maxBytes: nat) returns (r: Option<string>)
    ensures r == TruncatedText(s, maxBytes)
  {
    if ByteLen(s) <= maxBytes {
      return None;
    }
    var keep := if maxBytes < MARKER_RESERVE then 0 else maxBytes - MARKER_RESERVE;
    ghost var k := CharsWithin(s, keep);
    BoundaryAtCharsWithin(s, keep);
    ByteLenSplit(s, k);
    var end := if keep < ByteLen(s) then keep else ByteLen(s);
    while end > 0 && !IsCharBoundary(s, end)
      invariant ByteLen(s[..k]) <= end
    {
      end := end - 1;
    }
    LastBoundary(s, keep, end);
    var dropped := ByteLen(s) - end;
    return Some(BytePrefix(s, end) + Marker(dropped));
  }

  // ----- byte arithmetic -----

  lemma {:induction false} ByteLenSplit(s: string, k: nat)
    requires k <= |s|
    ensures ByteLen(s) == ByteLen(s[..k]) + ByteLen(s[k..])
  {
    if k == 0 {
      assert s[0..] == s;
    } else {
      ByteLenSplit(s[1..], k - 1);
      assert s[1..][..k - 1] == s[..k][1..] && s[1..][k - 1..] == s[k..];
    }
  }

  /** As many whole characters as fit: they fit, and one more would not. */
  lemma {:induction false} BoundaryAtCharsWithin(s: string, bytes: nat)
    ensures var k := CharsWithin(s, bytes);
      && ByteLen(s[..k]) <= bytes
      && (k < |s| ==> ByteLen(s[..k + 1]) > bytes)
      && IsCharBoundary(s, ByteLen(s[..k]))
      && BytePrefix(s, ByteLen(s[..k])) == s[..k]
  {
    var k := CharsWithin(s, bytes);
    if k > 0 {
      BoundaryAtCharsWithin(s[1..], bytes - Width(s[0]));
      assert s[..k][1..] == s[1..][..k - 1] && s[..k] == [s[0]] + s[1..][..k - 1];
      assert k < |s| ==> s[..k + 1][1..] == s[1..][..k];
    } else if |s| > 0 {
      assert s[..1][1..] == [];
    }
  }

  /** No character boundary lies between the last fitting one and the budget. */
  lemma {:induction false} LastBoundary(s: string, bytes: nat, b: nat)
    requires IsCharBoundary(s, b) && ByteLen(s[..CharsWithin(s, bytes)]) <= b <= bytes
    ensures BytePrefix(s, b) == s[..CharsWithin(s, bytes)] && b == ByteLen(s[..CharsWithin(s, bytes)])
  {
    var k := CharsWithin(s, bytes);
    if b > 0 {
      assert k > 0;
      assert s[..k][1..] == s[1..][..k - 1];
      LastBoundary(s[1..], bytes - Width(s[0]), b - Width(s[0]));
    }
  }

  lemma ByteLenConcat(a: string, b: string)
    ensures ByteLen(a + b) == ByteLen(a) + ByteLen(b)
  {
    ByteLenSplit(a + b, |a|);
    assert (a + b)[..|a|] == a && (a + b)[|a|..] == b;
  }

  lemma {:induction false} AsciiBytes(s: AsciiText)
    ensures ByteLen(s) == |s|
  {
    if |s| > 0 {
      AsciiBytes(s[1..]);
    }
  }

  lemma AsciiSandwichBytes(kept: string, open: AsciiText, digits: AsciiText, close: AsciiText)
    ensures ByteLen(kept + (open + digits + close)) == ByteLen(kept) + |open| + |digits| + |close|
  {
    AsciiBytes(open + digits + close);
    ByteLenConcat(kept, open + digits + close);
  }

  lemma MarkedBytes(kept: string, dropped: nat)
    ensures ByteLen(kept + Marker(dropped)) == ByteLen(kept) + 56 + |Render(dropped)|
  {
    var digits := Render(dropped);
    RenderIsDigits(dropped);
    assert forall i :: 0 <= i < |digits| ==> digits[i] in digits;
    AsciiSandwichBytes(kept, MARKER_OPEN, digits, MARKER_CLOSE);
  }

  // ----- what truncation promises -----

  /** The longest prefix of whole characters within some bytes. */
  ghost predicate LongestWithin(s: string, bytes: nat, k: nat) {
    k <= |s| && ByteLen(s[..k]) <= bytes && (k < |s| ==> ByteLen(s[..k + 1]) > bytes)
  }

  lemma CharsWithinIsLongest(s: string, bytes: nat)
    ensures LongestWithin(s, bytes, CharsWithin(s, bytes))
  {
    BoundaryAtCharsWithin(s, bytes);
  }

  lemma TruncatedIsMarked(s: string, maxBytes: nat)
    requires ByteLen(s) > maxBytes
    ensures var kept := s[..CharsWithin(s, KeepBytes(maxBytes))];
      ByteLen(kept) <= ByteLen(s) && TruncatedText(s, maxBytes) == Some(kept + Marker(ByteLen(s) - ByteLen(kept)))
  {
    ByteLenSplit(s, CharsWithin(s, KeepBytes(maxBytes)));
  }

  /** A text that fits is left alone; of any other, the longest prefix of whole
      characters within the reserve-reduced budget is kept, and the marker names exactly
      the number of bytes left out. */
  lemma TruncationKeepsLongestPrefix(s: string, maxBytes: nat)
    ensures TruncatedText(s, maxBytes).None? <==> ByteLen(s) <= maxBytes
    ensures ByteLen(s) > maxBytes ==>
      var k := CharsWithin(s, KeepBytes(maxBytes));
      && LongestWithin(s, KeepBytes(maxBytes), k)
      && ByteLen(s[..k]) <= ByteLen(s)
      && TruncatedText(s, maxBytes) == Some(s[..k] + Marker(ByteLen(s) - ByteLen(s[..k])))
  {
    CharsWithinIsLongest(s, KeepBytes(maxBytes));
    if ByteLen(s) > maxBytes {
      TruncatedIsMarked(s, maxBytes);
    }
  }

  /** The last whole character leaves at most 3 of the kept bytes unused. */
  lemma SlackBelowFour(s: string, bytes: nat)
    requires ByteLen(s) > bytes
    ensures 0 <= bytes - ByteLen(s[..CharsWithin(s, bytes)]) <= 3
  {
    var k := CharsWithin(s, bytes);
    BoundaryAtCharsWithin(s, bytes);
    assert s[..|s|] == s;
    assert k < |s|;
    assert s[..k + 1] == s[..k] + [s[k]];
    ByteLenConcat(s[..k], [s[k]]);
  }

  /** Exactly when the result, marker included, is within the budget.  `slack` is what
      the last whole character leaves of the kept bytes. */
  lemma TruncationFitsIff(s: string, maxBytes: nat)
    requires ByteLen(s) > maxBytes
    ensures var kept := ByteLen(s[..CharsWithin(s, KeepBytes(maxBytes))]);
      var dropped := ByteLen(s) - kept;
      var slack := KeepBytes(maxBytes) - kept;
      && 0 <= slack <= 3
      && (ByteLen(TruncatedText(s, maxBytes).value) <= maxBytes <==>
          if maxBytes >= 64 then dropped < Pow10(8 + slack)
          else maxBytes > 56 && dropped < Pow10(maxBytes - 56))
  {
    var k := CharsWithin(s, KeepBytes(maxBytes));
    SlackBelowFour(s, KeepBytes(maxBytes));
    ByteLenSplit(s, k);
    var dropped := ByteLen(s[k..]);
    MarkedBytes(s[..k], dropped);
    RenderIsDigits(dropped);
    if maxBytes >= 64 {
      DigitCount(dropped, 8 + (KeepBytes(maxBytes) - ByteLen(s[..k])));
    } else if maxBytes > 56 {
      DigitCount(dropped, maxBytes - 56);
    }
  }

  /** The promised case: a budget of at least the reserve, and under 10^8 bytes dropped. */
  lemma TruncationFits(s: string, maxBytes: nat)
    requires ByteLen(s) > maxBytes >= 64
    requires ByteLen(s) - ByteLen(s[..CharsWithin(s, KeepBytes(maxBytes))]) < 1_0000_0000
    ensures ByteLen(TruncatedText(s, maxBytes).value) <= maxBytes
  {
    TruncationFitsIff(s, maxBytes);
    Pow10Grows(8, 8 + (KeepBytes(maxBytes) - ByteLen(s[..CharsWithin(s, KeepBytes(maxBytes))])));
    assert Pow10(8) == 1_0000_0000 by {
      assert Pow10(4) == 1_0000;
    }
  }

  lemma {:induction false} Pow10Grows(a: nat, b: nat)
    requires a <= b
    ensures Pow10(a) <= Pow10(b)
    decreases b
  {
    if a < b {
      Pow10Grows(a, b - 1);
    }
  }
}
