/** What every component model shares: the option type, regrouping of concatenations, and the
    facts about permutations that let a lemma by induction take the same element out of two
    lists: `Without` leaves one position out, and `RemoveSame` keeps the rest permutations. */
module Wrappers {
  datatype Option<+T> = None | Some(value: T)

  lemma Regroup<T>(x: seq<T>, y: seq<T>, z: seq<T>)
    ensures x + y + z == x + (y + z)
  {
  }

  function Without<T>(s: seq<T>, k: nat): seq<T>
    requires k < |s|
  {
    s[..k] + s[k + 1..]
  }

  lemma RemoveOne<T>(s: seq<T>, k: nat)
    requires k < |s|
    ensures multiset(s) == multiset(Without(s, k)) + multiset{s[k]}
  {
    assert s == s[..k] + [s[k]] + s[k + 1..];
  }

  /** Permutations stay permutations when the same element is left out of both. */
  lemma RemoveSame<T>(a: seq<T>, i: nat, b: seq<T>, k: nat)
    requires i < |a| && k < |b| && a[i] == b[k] && multiset(a) == multiset(b)
    ensures multiset(Without(a, i)) == multiset(Without(b, k))
  {
    RemoveOne(a, i);
    RemoveOne(b, k);
    assert multiset(Without(a, i)) == multiset(a) - multiset{a[i]};
    assert multiset(Without(b, k)) == multiset(b) - multiset{b[k]};
  }

  lemma FindSame<T>(a: seq<T>, i: nat, b: seq<T>) returns (k: nat)
    requires i < |a| && multiset(a) == multiset(b)
    ensures |a| == |b| && k < |b| && b[k] == a[i]
  {
    assert |multiset(a)| == |a| && |multiset(b)| == |b|;
    assert a[i] in multiset(b);
    k :| 0 <= k < |b| && b[k] == a[i];
  }

  lemma EmptyTogether<T>(a: seq<T>, b: seq<T>)
    requires multiset(a) == multiset(b)
    ensures |a| == |b|
  {
    assert |multiset(a)| == |a| && |multiset(b)| == |b|;
  }
}
