/** The arena-based string interner, against a plain table of distinct strings.  The hash
    function is arbitrary. */
module Interner {
  import opened Wrappers
  import opened Bytes

  type Text = seq<Byte>
  type Hash = Text -> nat

  const U16: nat := 0x1_0000
  const U32: nat := 0x1_0000_0000

  /** `as u16` and `as u32` */
  function AsU16(n: nat): nat {
    n % 0x1_0000
  }

  function AsU32(n: nat): nat {
    n % 0x1_0000_0000
  }

  lemma CastsKeep(n: nat)
    ensures n < U16 ==> AsU16(n) == n
    ensures n < U32 ==> AsU32(n) == n
    ensures AsU16(n) == n ==> n < U16
  {
  }

  datatype Tables = Tables(arena: seq<Byte>, offsets: seq<(nat, nat)>, lookup: map<nat, seq<nat>>)

  // ----- the operations -----

  function GetBytes(t: Tables, id: nat): Option<Text> {
    if id < |t.offsets| && t.offsets[id].0 + t.offsets[id].1 <= |t.arena|
    then Some(t.arena[t.offsets[id].0..t.offsets[id].0 + t.offsets[id].1])
    else None
  }

  function Bucket(lookup: map<nat, seq<nat>>, h: nat): seq<nat> {
    if h in lookup then lookup[h] else []
  }

  function Push(lookup: map<nat, seq<nat>>, h: nat, id: nat): map<nat, seq<nat>> {
    lookup[h := Bucket(lookup, h) + [id]]
  }

  /** The first id of a bucket that stands for `s`. */
  function Search(t: Tables, ids: seq<nat>, s: Text): Option<nat> {
    if |ids| == 0 then None
    else if GetBytes(t, ids[0]) == Some(s) then Some(ids[0])
    else Search(t, ids[1..], s)
  }

  function GetBytesId(hash: Hash, t: Tables, s: Text): Option<nat> {
    Search(t, Bucket(t.lookup, hash(s)), s)
  }

  /** `intern_bytes`, with its casts of the start to 32 bits and the length to 16. */
  function Intern(hash: Hash, t: Tables, s: Text): (Tables, nat) {
    match GetBytesId(hash, t, s)
    case Some(id) => (t, id)
    case None =>
      var id := AsU32(|t.offsets|);
      (Tables(t.arena + s,
              t.offsets + [(AsU32(|t.arena|), AsU16(|s|))],
              Push(t.lookup, hash(s), id)),
       id)
  }

  /** `from_parts`: the lookup of the first `n` offsets, dangling ones skipped. */
  function Relinked(hash: Hash, arena: seq<Byte>, offsets: seq<(nat, nat)>, n: nat): map<nat, seq<nat>>
    requires n <= |offsets|
  {
    if n == 0 then map[]
    else
      var before := Relinked(hash, arena, offsets, n - 1);
      match GetBytes(Tables(arena, offsets, map[]), n - 1)
      case None => before
      case Some(s) => Push(before, hash(s), AsU32(n - 1))
  }

  class StringInterner {
    const hash: Hash
    var arena: seq<Byte>
    var offsets: seq<(nat, nat)>
    var lookup: map<nat, seq<nat>>

    function Contents(): Tables
      reads this
    {
      Tables(arena, offsets, lookup)
    }

    constructor (hash: Hash)
      ensures this.hash == hash && Contents() == Tables([], [], map[])
    {
      this.hash, arena, offsets, lookup := hash, [], [], map[];
    }

    constructor FromParts(hash: Hash, arena: seq<Byte>, offsets: seq<(nat, nat)>)
      ensures this.hash == hash
      ensures Contents() == Tables(arena, offsets, Relinked(hash, arena, offsets, |offsets|))
    {
      this.hash, this.arena, this.offsets, this.lookup := hash, arena, offsets, map[];
      new;
      for idx := 0 to |offsets|
        invariant this.arena == arena && this.offsets == offsets
        invariant this.lookup == Relinked(hash, arena, offsets, idx)
      {
        var start, len := offsets[idx].0, offsets[idx].1;
        if start + len <= |arena| {
          var bytes := arena[start..start + len];
          this.lookup := Push(this.lookup, hash(bytes), AsU32(idx));
        }
      }
    }

    method Find(s: Text) returns (id: Option<nat>)
      ensures id == GetBytesId(hash, Contents(), s)
    {
      var ids := Bucket(lookup, hash(s));
      for i := 0 to |ids|
        invariant Search(Contents(), ids, s) == Search(Contents(), ids[i..], s)
      {
        assert ids[i..][0] == ids[i] && ids[i..][1..] == ids[i + 1..];
        if GetBytes(Contents(), ids[i]) == Some(s) {
          return Some(ids[i]);
        }
      }
      return None;
    }

    method InternBytes(s: Text) returns (id: nat)
      modifies this
      ensures (Contents(), id) == Intern(hash, old(Contents()), s)
    {
      var found := Find(s);
      if found.Some? {
        return found.value;
      }
      var start, len := AsU32(|arena|), AsU16(|s|);
      arena := arena + s;
      id := AsU32(|offsets|);
      offsets := offsets + [(start, len)];
      lookup := Push(lookup, hash(s), id);
    }
  }

  // ----- the plain table -----

  ghost predicate Distinct(table: seq<Text>) {
    forall i, j :: 0 <= i < j < |table| ==> table[i] != table[j]
  }

  ghost function IndexOf(table: seq<Text>, s: Text): nat
    requires s in table
    ensures IndexOf(table, s) < |table| && table[IndexOf(table, s)] == s
  {
    var i :| 0 <= i < |table| && table[i] == s; i
  }

  /** Interning in a table of distinct strings: the position, appending if new. */
  ghost function PlainIntern(table: seq<Text>, s: Text): (seq<Text>, nat) {
    if s in table then (table, IndexOf(table, s)) else (table + [s], |table|)
  }

  // ----- what the tables stand for -----

  ghost function LookupOf(hash: Hash, table: seq<Text>): map<nat, seq<nat>> {
    if |table| == 0 then map[]
    else Push(LookupOf(hash, table[..|table| - 1]), hash(table[|table| - 1]), |table| - 1)
  }

  ghost function Concat(table: seq<Text>): seq<Byte> {
    if |table| == 0 then [] else Concat(table[..|table| - 1]) + table[|table| - 1]
  }

  /** `t` stands for the plain table. */
  ghost predicate Represents(hash: Hash, t: Tables, table: seq<Text>) {
    && |t.offsets| == |table| <= U32
    && Distinct(table)
    && (forall id :: 0 <= id < |table| ==> GetBytes(t, id) == Some(table[id]))
    && t.arena == Concat(table)
    && t.lookup == LookupOf(hash, table)
  }

  lemma {:induction false} BucketIds(hash: Hash, table: seq<Text>, h: nat)
    ensures forall id: nat :: id in Bucket(LookupOf(hash, table), h) <==> id < |table| && hash(table[id]) == h
  {
    if |table| > 0 {
      var init, last := table[..|table| - 1], |table| - 1;
      BucketIds(hash, init, h);
      assert forall id: nat :: id < last ==> init[id] == table[id];
    }
  }

  lemma {:induction false} SearchFinds(t: Tables, ids: seq<nat>, s: Text)
    ensures match Search(t, ids, s)
      case Some(id) => id in ids && GetBytes(t, id) == Some(s)
      case None => forall id :: id in ids ==> GetBytes(t, id) != Some(s)
  {
    if |ids| > 0 {
      SearchFinds(t, ids[1..], s);
    }
  }

  /** A lookup answers exactly the position in the table, whatever collides. */
  lemma LookupIsPosition(hash: Hash, t: Tables, table: seq<Text>, s: Text)
    requires Represents(hash, t, table)
    ensures GetBytesId(hash, t, s) == if s in table then Some(IndexOf(table, s)) else None
  {
    BucketIds(hash, table, hash(s));
    SearchFinds(t, Bucket(t.lookup, hash(s)), s);
    if s in table {
      assert IndexOf(table, s) in Bucket(t.lookup, hash(s));
    }
  }

  /** Distinct strings take at least one byte each, but for one empty one. */
  lemma {:induction false} DistinctTakeBytes(table: seq<Text>)
    requires Distinct(table)
    ensures |Concat(table)| >= |table| - 1
    ensures [] !in table ==> |Concat(table)| >= |table|
  {
    if |table| > 0 {
      var init := table[..|table| - 1];
      DistinctTakeBytes(init);
      if table[|table| - 1] == [] {
        assert forall i :: 0 <= i < |init| ==> init[i] == table[i];
      }
    }
  }

  /** Room for one more string: within the widths the source casts to. */
  ghost predicate Fits(t: Tables, s: Text) {
    |s| < U16 && |t.arena| + |s| < U32
  }

  lemma EmptyRepresentsEmpty(hash: Hash)
    ensures Represents(hash, Tables([], [], map[]), [])
  {
  }

  /** Interning agrees with the plain table, for any hash, as long as the string fits. */
  lemma InternRefinesTable(hash: Hash, t: Tables, table: seq<Text>, s: Text)
    requires Represents(hash, t, table) && (s in table || Fits(t, s))
    ensures var (t', id) := Intern(hash, t, s); var (table', id') := PlainIntern(table, s);
      id == id' && Represents(hash, t', table')
  {
    LookupIsPosition(hash, t, table, s);
    if s !in table {
      DistinctTakeBytes(table);
      InternAppends(hash, t, s);
      AppendedRepresents(hash, t, table, s);
    }
  }

  /** Within the widths, the casts change nothing. */
  lemma InternAppends(hash: Hash, t: Tables, s: Text)
    requires GetBytesId(hash, t, s) == None && |s| < U16 && |t.arena| < U32 && |t.offsets| < U32
    ensures Intern(hash, t, s) ==
      (Tables(t.arena + s, t.offsets + [(|t.arena|, |s|)], Push(t.lookup, hash(s), |t.offsets|)), |t.offsets|)
  {
    CastsKeep(|s|);
    CastsKeep(|t.arena|);
    CastsKeep(|t.offsets|);
  }

  lemma AppendedRepresents(hash: Hash, t: Tables, table: seq<Text>, s: Text)
    requires Represents(hash, t, table) && s !in table && |table| < U32
    ensures Represents(hash,
      Tables(t.arena + s, t.offsets + [(|t.arena|, |s|)], Push(t.lookup, hash(s), |table|)), table + [s])
  {
    var t' := Tables(t.arena + s, t.offsets + [(|t.arena|, |s|)], Push(t.lookup, hash(s), |table|));
    var table' := table + [s];
    assert table'[..|table|] == table;
    forall i | 0 <= i < |table'| ensures GetBytes(t', i) == Some(table'[i]) {
      AppendedReadsBack(t, t', s, i);
    }
    forall i, j | 0 <= i < j < |table'| ensures table'[i] != table'[j] {
      assert table[i] in table;
    }
  }

  lemma AppendedReadsBack(t: Tables, t': Tables, s: Text, i: nat)
    requires t'.arena == t.arena + s && t'.offsets == t.offsets + [(|t.arena|, |s|)]
    requires i < |t.offsets| ==> GetBytes(t, i).Some?
    ensures i < |t.offsets| ==> GetBytes(t', i) == GetBytes(t, i)
    ensures i == |t.offsets| ==> GetBytes(t', i) == Some(s)
  {
    if i < |t.offsets| {
      var start, len := t.offsets[i].0, t.offsets[i].1;
      assert t'.arena[start..start + len] == t.arena[start..start + len];
    } else {
      assert t'.arena[|t.arena|..|t.arena| + |s|] == s;
    }
  }

  /** An entry of another length reads back another string. */
  lemma ReadBackLength(t: Tables, s: Text, len: nat, lookup: map<nat, seq<nat>>)
    requires len <= |s|
    ensures GetBytes(Tables(t.arena + s, t.offsets + [(|t.arena|, len)], lookup), |t.offsets|) == Some(s[..len])
    ensures s[..len] == s <==> len == |s|
  {
    assert (t.arena + s)[|t.arena|..|t.arena| + len] == s[..len];
  }

  /** A new string is read back exactly when it is shorter than 2^16 bytes. */
  lemma NewStringReadBackIff(hash: Hash, t: Tables, table: seq<Text>, s: Text)
    requires Represents(hash, t, table) && s !in table && |t.arena| + |s| < U32
    ensures var (t', id) := Intern(hash, t, s);
      GetBytes(t', id) == Some(s) <==> |s| < U16
  {
    LookupIsPosition(hash, t, table, s);
    DistinctTakeBytes(table);
    CastsKeep(|t.arena|);
    CastsKeep(|table|);
    CastsKeep(|s|);
    ReadBackLength(t, s, AsU16(|s|), Push(t.lookup, hash(s), |table|));
  }

  // ----- any sequence of interns -----

  function InternAll(hash: Hash, t: Tables, ss: seq<Text>): (Tables, seq<nat>)
    decreases |ss|
  {
    if |ss| == 0 then (t, [])
    else
      var (t1, id) := Intern(hash, t, ss[0]);
      var (t2, ids) := InternAll(hash, t1, ss[1..]);
      (t2, [id] + ids)
  }

  ghost function TotalBytes(ss: seq<Text>): nat {
    if |ss| == 0 then 0 else |ss[0]| + TotalBytes(ss[1..])
  }

  /** The table after interning each string, with `table` a prefix of it. */
  lemma {:induction false} InternAllRefines(hash: Hash, t: Tables, table: seq<Text>, ss: seq<Text>)
    returns (final: seq<Text>)
    requires Represents(hash, t, table)
    requires (forall s <- ss :: |s| < U16) && |t.arena| + TotalBytes(ss) < U32
    ensures var (t', ids) := InternAll(hash, t, ss);
      && Represents(hash, t', final) && table <= final
      && |ids| == |ss|
      && forall i :: 0 <= i < |ss| ==> ids[i] < |final| && final[ids[i]] == ss[i]
    decreases |ss|
  {
    final := table;
    if |ss| > 0 {
      var (t1, id) := Intern(hash, t, ss[0]);
      InternRefinesTable(hash, t, table, ss[0]);
      var table1 := PlainIntern(table, ss[0]).0;
      LookupIsPosition(hash, t, table, ss[0]);
      final := InternAllRefines(hash, t1, table1, ss[1..]);
      assert table1[id] == ss[0];
      var (t', ids) := InternAll(hash, t, ss);
      forall i | 0 <= i < |ss| ensures ids[i] < |final| && final[ids[i]] == ss[i] {
        assert i > 0 ==> ss[i] == ss[1..][i - 1];
      }
    }
  }

  /** The interner is a bijection between the strings interned and their ids: ids read
      back as their strings, equal strings get equal ids, distinct ones distinct ids, and
      ids handed out before still read back the same. */
  lemma InternerIsBijection(hash: Hash, t: Tables, table: seq<Text>, ss: seq<Text>)
    requires Represents(hash, t, table)
    requires (forall s <- ss :: |s| < U16) && |t.arena| + TotalBytes(ss) < U32
    ensures var (t', ids) := InternAll(hash, t, ss);
      && |ids| == |ss|
      && (forall i :: 0 <= i < |ss| ==> GetBytes(t', ids[i]) == Some(ss[i]) && GetBytesId(hash, t', ss[i]) == Some(ids[i]))
      && (forall i, j :: 0 <= i < |ss| && 0 <= j < |ss| ==> (ids[i] == ids[j] <==> ss[i] == ss[j]))
      && (forall id :: 0 <= id < |table| ==> GetBytes(t', id) == GetBytes(t, id))
  {
    var final := InternAllRefines(hash, t, table, ss);
    var (t', ids) := InternAll(hash, t, ss);
    forall i | 0 <= i < |ss| ensures GetBytesId(hash, t', ss[i]) == Some(ids[i]) {
      LookupIsPosition(hash, t', final, ss[i]);
    }
  }

  /** From the empty interner on: whatever is interned reads back, is found again, and is
      told apart from everything else. */
  lemma InternedFromEmpty(hash: Hash, ss: seq<Text>)
    requires (forall s <- ss :: |s| < U16) && TotalBytes(ss) < U32
    ensures var (t, ids) := InternAll(hash, Tables([], [], map[]), ss);
      && |ids| == |ss|
      && (forall i :: 0 <= i < |ss| ==> GetBytes(t, ids[i]) == Some(ss[i]) && GetBytesId(hash, t, ss[i]) == Some(ids[i]))
      && (forall i, j :: 0 <= i < |ss| && 0 <= j < |ss| ==> (ids[i] == ids[j] <==> ss[i] == ss[j]))
  {
    EmptyRepresentsEmpty(hash);
    InternerIsBijection(hash, Tables([], [], map[]), [], ss);
  }

  lemma RelinkedNext(hash: Hash, t: Tables, table: seq<Text>, n: nat)
    requires Represents(hash, t, table) && 0 < n <= |table|
    ensures Relinked(hash, t.arena, t.offsets, n)
         == Push(Relinked(hash, t.arena, t.offsets, n - 1), hash(table[n - 1]), n - 1)
  {
    CastsKeep(n - 1);
    assert GetBytes(Tables(t.arena, t.offsets, map[]), n - 1) == GetBytes(t, n - 1);
  }

  lemma {:induction false} RelinkedIsLookup(hash: Hash, t: Tables, table: seq<Text>, n: nat)
    requires Represents(hash, t, table) && n <= |table|
    ensures Relinked(hash, t.arena, t.offsets, n) == LookupOf(hash, table[..n])
    decreases n
  {
    if n > 0 {
      RelinkedIsLookup(hash, t, table, n - 1);
      LookupOfPrefix(hash, table, n);
      RelinkedNext(hash, t, table, n);
    }
  }

  lemma LookupOfPrefix(hash: Hash, table: seq<Text>, n: nat)
    requires 0 < n <= |table|
    ensures LookupOf(hash, table[..n]) == Push(LookupOf(hash, table[..n - 1]), hash(table[n - 1]), n - 1)
  {
    assert table[..n][..n - 1] == table[..n - 1];
  }

  /** Rebuilding from the serialized parts gives back the very same interner. */
  lemma FromPartsRestores(hash: Hash, t: Tables, table: seq<Text>)
    requires Represents(hash, t, table)
    ensures Tables(t.arena, t.offsets, Relinked(hash, t.arena, t.offsets, |t.offsets|)) == t
  {
    RelinkedIsLookup(hash, t, table, |table|);
    assert table[..|table|] == table;
  }
}
