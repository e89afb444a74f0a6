/** What an audit agent's answer comes to: the object picked, and the verdict read from it. */
module AuditVerdict {
  import opened Wrappers
  import opened Text
  import opened AuditBraces
  import opened Rounds
  import Decimal

  // ----- extract_audit_brace_object -----

  const PASS_KEY := "\"pass\""

  predicate HasPass(s: string) {
    Find(s, PASS_KEY).Some?
  }

  /** A stretch of the text. */
  datatype Span = Span(start: nat, length: nat)

  predicate InText(text: string, s: Span) {
    s.start + s.length <= |text|
  }

  function SliceOf(text: string, s: Span): string
    requires InText(text, s)
  {
    text[s.start..s.start + s.length]
  }

  /** An object in the text. */
  ghost predicate ObjectAt(text: string, s: Span) {
    InText(text, s) && IsObject(SliceOf(text, s))
  }

  /** The objects the search stops at from `i` on: it goes on behind each. */
  function Roots(text: string, i: nat): seq<Span>
    decreases |text| - i
  {
    if i >= |text| then []
    else
      match BalancedLength(text, i)
      case None => Roots(text, i + 1)
      case Some(n) => [Span(i, n)] + Roots(text, i + n)
  }

  /** The scan finds `s`, at `i` or behind it. */
  ghost predicate ScannedFrom(text: string, i: nat, s: Span) {
    i <= s.start && BalancedLength(text, s.start) == Some(s.length)
  }

  /** The search goes on at `next`, behind an object or one character further. */
  lemma RootsFrom(text: string, i: nat) returns (found: bool, next: nat)
    ensures i < |text| ==> i < next <= |text|
    ensures i >= |text| ==> Roots(text, i) == []
    ensures found ==> i < next && Roots(text, i) == [Span(i, next - i)] + Roots(text, next)
    ensures found ==> ScannedFrom(text, i, Span(i, next - i))
    ensures !found ==> next == i + 1 && BalancedLength(text, i).None? && Roots(text, i) == Roots(text, next)
  {
    match BalancedLength(text, i)
    case None => found, next := false, i + 1;
    case Some(n) => found, next := true, i + n;
  }

  lemma ScannedEarlier(text: string, i: nat, j: nat, s: Span)
    requires i <= j && ScannedFrom(text, j, s)
    ensures ScannedFrom(text, i, s)
  {
  }

  lemma {:induction false} RootsAreScanned(text: string, i: nat, k: nat)
    requires k < |Roots(text, i)|
    ensures ScannedFrom(text, i, Roots(text, i)[k])
    decreases |text| - i
  {
    var found, next := RootsFrom(text, i);
    if !found {
      RootsAreScanned(text, next, k);
      ScannedEarlier(text, i, next, Roots(text, i)[k]);
    } else if k > 0 {
      RootsAreScanned(text, next, k - 1);
      ScannedEarlier(text, i, next, Roots(text, i)[k]);
    }
  }

  lemma RootsAreObjects(text: string, i: nat, k: nat)
    requires k < |Roots(text, i)|
    ensures i <= Roots(text, i)[k].start && Roots(text, i)[k].length > 0 && ObjectAt(text, Roots(text, i)[k])
  {
    RootsAreScanned(text, i, k);
    var s := Roots(text, i)[k];
    BalancedIffObject(text, s.start, s.length);
  }

  /** The index of the root chosen: the first with the key, else the first. */
  function Choose(text: string, roots: seq<Span>): (r: Option<nat>)
    requires forall s <- roots :: InText(text, s)
    ensures r.None? <==> roots == []
    ensures r.Some? ==> r.value < |roots|
  {
    match FirstPass(text, roots, 0)
    case Some(k) => Some(k)
    case None => if roots == [] then None else Some(0)
  }

  function FirstPass(text: string, roots: seq<Span>, k: nat): (r: Option<nat>)
    requires forall s <- roots :: InText(text, s)
    ensures r.Some? ==> k <= r.value < |roots|
    decreases |roots| - k
  {
    if k >= |roots| then None
    else if HasPass(SliceOf(text, roots[k])) then Some(k)
    else FirstPass(text, roots, k + 1)
  }

  lemma {:induction false} FirstPassIsFirst(text: string, roots: seq<Span>, k: nat, j: nat)
    requires forall s <- roots :: InText(text, s)
    requires k <= j < |roots| && HasPass(SliceOf(text, roots[j]))
    ensures FirstPass(text, roots, k).Some? && FirstPass(text, roots, k).value <= j
    ensures HasPass(SliceOf(text, roots[FirstPass(text, roots, k).value]))
    decreases |roots| - k
  {
    if !HasPass(SliceOf(text, roots[k])) {
      FirstPassIsFirst(text, roots, k + 1, j);
    }
  }

  lemma RootsInText(text: string)
    ensures forall s <- Roots(text, 0) :: InText(text, s)
  {
    forall k | 0 <= k < |Roots(text, 0)| ensures InText(text, Roots(text, 0)[k]) {
      RootsAreObjects(text, 0, k);
    }
  }

  ghost function RootsOf(text: string): (roots: seq<Span>)
    ensures roots == Roots(text, 0) && forall s <- roots :: InText(text, s)
  {
    RootsInText(text);
    Roots(text, 0)
  }

  /** The search is at `i`, with `k` roots behind it and none of them chosen for the key. */
  ghost predicate Searching(text: string, i: nat, k: nat, first: Option<string>) {
    var roots := RootsOf(text);
    && k <= |roots| && roots[k..] == Roots(text, i)
    && first == (if k == 0 then None else Some(SliceOf(text, roots[0])))
    && FirstPass(text, roots, 0) == FirstPass(text, roots, k)
  }

  /** What the source returns for the whole text. */
  ghost function Picked(text: string): Option<string> {
    var roots := RootsOf(text);
    match Choose(text, roots)
    case None => None
    case Some(k) => Some(SliceOf(text, roots[k]))
  }

  lemma SearchStart(text: string)
    ensures Searching(text, 0, 0, None)
  {
    assert RootsOf(text)[0..] == RootsOf(text);
  }

  lemma SearchPasses(text: string, i: nat, k: nat, first: Option<string>)
    requires Searching(text, i, k, first) && i < |text| && BalancedLength(text, i).None?
    ensures Searching(text, i + 1, k, first)
  {
  }

  lemma NextRoot(text: string, i: nat, roots: seq<Span>, k: nat)
    requires k <= |roots| && roots[k..] == Roots(text, i) && BalancedLength(text, i).Some?
    ensures var n := BalancedLength(text, i).value;
      k < |roots| && roots[k] == Span(i, n) && roots[k + 1..] == Roots(text, i + n)
  {
    var n := BalancedLength(text, i).value;
    assert Roots(text, i) == [Span(i, n)] + Roots(text, i + n);
    assert roots[k] == roots[k..][0];
    assert roots[k + 1..] == roots[k..][1..];
  }

  lemma SearchFinds(text: string, i: nat, k: nat, first: Option<string>)
    requires Searching(text, i, k, first) && BalancedLength(text, i).Some?
    ensures var n := BalancedLength(text, i).value;
      var obj := text[i..i + n];
      if HasPass(obj) then Picked(text) == Some(obj)
      else Searching(text, i + n, k + 1, if first.None? then Some(obj) else first)
  {
    NextRoot(text, i, RootsOf(text), k);
  }

  lemma SearchEnds(text: string, i: nat, k: nat, first: Option<string>)
    requires Searching(text, i, k, first) && i >= |text|
    ensures Picked(text) == first
  {
    assert |RootsOf(text)[k..]| == 0;
  }

  method ExtractAuditBraceObject(text: string) returns (r: Option<string>)
    ensures r == Picked(text)
  {
    SearchStart(text);
    var first: Option<string> := None;
    var i := 0;
    ghost var k := 0;
    while i < |text|
      invariant Searching(text, i, k, first)
      decreases |text| - i
    {
      if text[i] != '{' {
        SearchPasses(text, i, k, first);
        i := i + 1;
        continue;
      }
      var obj := ExtractBalancedFrom(text, i);
      if obj.Some? {
        SearchFinds(text, i, k, first);
        if first.None? {
          first := obj;
        }
        if Find(obj.value, PASS_KEY).Some? {
          return obj;
        }
        i := i + if |obj.value| > 1 then |obj.value| else 1;
        k := k + 1;
      } else {
        SearchPasses(text, i, k, first);
        i := i + 1;
      }
    }
    SearchEnds(text, i, k, first);
    return first;
  }

  // ----- which objects the search can miss -----

  /** The root covers where `s` starts but not where it ends. */
  ghost predicate Straddles(root: Span, s: Span) {
    root.start < s.start < root.start + root.length < s.start + s.length
  }

  ghost predicate Inside(root: Span, s: Span) {
    root.start <= s.start && s.start + s.length <= root.start + root.length
  }

  /** Every object lies within a root or straddles one's end. */
  ghost predicate Covers(root: Span, s: Span) {
    Inside(root, s) || Straddles(root, s)
  }

  lemma ObjectIsScannedWhole(text: string, s: Span)
    requires ObjectAt(text, s)
    ensures BalancedLength(text, s.start) == Some(s.length)
  {
    BalancedIffObject(text, s.start, s.length);
  }

  lemma {:induction false} RootCovers(text: string, i: nat, s: Span) returns (k: nat)
    requires i <= s.start && ObjectAt(text, s)
    ensures k < |Roots(text, i)| && Covers(Roots(text, i)[k], s)
    decreases |text| - i
  {
    ObjectIsScannedWhole(text, s);
    var found, next := RootsFrom(text, i);
    if !found {
      k := RootCovers(text, next, s);
    } else if s.start < next {
      k := 0;
    } else {
      k := RootCovers(text, next, s);
      k := k + 1;
    }
  }

  lemma {:induction false} RootsAreApart(text: string, i: nat, j: nat, k: nat)
    requires j < k < |Roots(text, i)|
    ensures Roots(text, i)[j].start + Roots(text, i)[j].length <= Roots(text, i)[k].start
    decreases |text| - i
  {
    var found, next := RootsFrom(text, i);
    if !found {
      RootsAreApart(text, next, j, k);
    } else if j == 0 {
      RootsAreScanned(text, next, k - 1);
    } else {
      RootsAreApart(text, next, j - 1, k - 1);
    }
  }

  /** Nothing is picked exactly when the text holds no object. */
  lemma NothingPickedIff(text: string)
    ensures Picked(text).None? <==> forall s :: !ObjectAt(text, s)
  {
    if s :| ObjectAt(text, s) {
      var k := RootCovers(text, 0, s);
    }
    if RootsOf(text) != [] {
      RootsAreObjects(text, 0, 0);
    }
  }

  /** No root ends inside the object. */
  ghost predicate Reached(text: string, s: Span) {
    forall k :: 0 <= k < |Roots(text, 0)| ==> !Straddles(Roots(text, 0)[k], s)
  }

  lemma SliceOfSlice(text: string, lo: nat, hi: nat, a: nat, b: nat)
    requires lo <= hi <= |text| && a <= b <= hi - lo
    ensures text[lo..hi][a..b] == text[lo + a..lo + b]
  {
    var x, y := text[lo..hi][a..b], text[lo + a..lo + b];
    assert |x| == |y| && forall k :: 0 <= k < b - a ==> x[k] == text[lo + a + k] == y[k];
  }

  lemma HasPassInside(text: string, root: Span, s: Span)
    requires InText(text, root) && InText(text, s) && Inside(root, s) && HasPass(SliceOf(text, s))
    ensures HasPass(SliceOf(text, root))
  {
    var a, b := s.start - root.start, s.start - root.start + s.length;
    SliceOfSlice(text, root.start, root.start + root.length, a, b);
    FindIsFirst(SliceOf(text, s), PASS_KEY);
    FindIsFirst(SliceOf(text, root), PASS_KEY);
    ContainsPart(SliceOf(text, root), PASS_KEY, a, b);
  }

  lemma RootIsReached(text: string, k: nat)
    requires k < |Roots(text, 0)|
    ensures Reached(text, Roots(text, 0)[k])
  {
    forall j | 0 <= j < |Roots(text, 0)| ensures !Straddles(Roots(text, 0)[j], Roots(text, 0)[k]) {
      if j < k {
        RootsAreApart(text, 0, j, k);
      } else if k < j {
        RootsAreApart(text, 0, k, j);
        RootsAreObjects(text, 0, k);
      }
    }
  }

  /** The picked object has the key exactly if some object in the text has it that no
      root straddles; without one it is the first object of the text. */
  lemma PickedHasPassIff(text: string) returns (picked: Span)
    requires Picked(text).Some?
    ensures ObjectAt(text, picked) && Reached(text, picked) && Picked(text) == Some(SliceOf(text, picked))
    ensures HasPass(Picked(text).value) <==>
      exists s :: ObjectAt(text, s) && Reached(text, s) && HasPass(SliceOf(text, s))
    ensures !HasPass(Picked(text).value) ==> forall s :: ObjectAt(text, s) ==> picked.start <= s.start
  {
    var roots := RootsOf(text);
    var c := Choose(text, roots).value;
    picked := roots[c];
    RootsAreObjects(text, 0, c);
    RootIsReached(text, c);
    if s :| ObjectAt(text, s) && Reached(text, s) && HasPass(SliceOf(text, s)) {
      var k := RootCovers(text, 0, s);
      RootsAreObjects(text, 0, k);
      HasPassInside(text, roots[k], s);
      FirstPassIsFirst(text, roots, 0, k);
    }
    if !HasPass(SliceOf(text, picked)) {
      if FirstPass(text, roots, 0).Some? {
        FirstPassHasIt(text, roots, 0);
      }
      forall s | ObjectAt(text, s) ensures picked.start <= s.start {
        FirstRootIsFirst(text, s);
      }
    }
  }

  /** Nothing nested wins: no other object within reach holds the pick. */
  lemma PickedIsOutermost(text: string) returns (picked: Span)
    requires Picked(text).Some?
    ensures ObjectAt(text, picked) && Reached(text, picked) && Picked(text) == Some(SliceOf(text, picked))
    ensures forall s :: ObjectAt(text, s) && Reached(text, s) && Inside(s, picked) ==> s == picked
  {
    var c := Choose(text, RootsOf(text)).value;
    picked := RootsOf(text)[c];
    RootsAreObjects(text, 0, c);
    RootIsReached(text, c);
    forall s | ObjectAt(text, s) && Reached(text, s) && Inside(s, picked) ensures s == picked {
      RootIsOutermost(text, c, s);
    }
  }

  /** A pick with the key is the first to have it. */
  lemma PickedIsFirst(text: string) returns (picked: Span)
    requires Picked(text).Some? && HasPass(Picked(text).value)
    ensures ObjectAt(text, picked) && Picked(text) == Some(SliceOf(text, picked))
    ensures forall s :: ObjectAt(text, s) && Reached(text, s) && HasPass(SliceOf(text, s)) ==> picked.start <= s.start
  {
    var c := Choose(text, RootsOf(text)).value;
    picked := RootsOf(text)[c];
    RootsAreObjects(text, 0, c);
    forall s | ObjectAt(text, s) && Reached(text, s) && HasPass(SliceOf(text, s)) ensures picked.start <= s.start {
      FirstWithKey(text, c, s);
    }
  }

  /** The root around an object with the key has it too. */
  lemma RootWithKey(text: string, s: Span) returns (k: nat)
    requires ObjectAt(text, s) && Reached(text, s) && HasPass(SliceOf(text, s))
    ensures k < |RootsOf(text)| && RootsOf(text)[k].start <= s.start && HasPass(SliceOf(text, RootsOf(text)[k]))
  {
    k := RootCovers(text, 0, s);
    RootsAreObjects(text, 0, k);
    HasPassInside(text, RootsOf(text)[k], s);
  }

  lemma FirstWithKey(text: string, c: nat, s: Span)
    requires Choose(text, RootsOf(text)) == Some(c)
    requires ObjectAt(text, s) && Reached(text, s) && HasPass(SliceOf(text, s))
    ensures RootsOf(text)[c].start <= s.start
  {
    var k := RootWithKey(text, s);
    FirstPassIsFirst(text, RootsOf(text), 0, k);
    if c < k {
      RootsAreApart(text, 0, c, k);
    }
  }

  lemma RootIsOutermost(text: string, c: nat, s: Span)
    requires c < |Roots(text, 0)| && ObjectAt(text, s) && Reached(text, s)
    ensures Inside(s, Roots(text, 0)[c]) ==> s == Roots(text, 0)[c]
  {
    var k := RootCovers(text, 0, s);
    RootsAreObjects(text, 0, c);
    if k < c {
      RootsAreApart(text, 0, k, c);
    } else if c < k {
      RootsAreApart(text, 0, c, k);
    }
  }

  /** No object of the text starts in another and ends behind it. */
  ghost predicate NoneStraddle(text: string) {
    forall s, t :: ObjectAt(text, s) && ObjectAt(text, t) ==> !Straddles(s, t)
  }

  /** In such a text the pick has the key exactly if any object has it. */
  lemma PickedHasPassIfAny(text: string)
    requires NoneStraddle(text)
    ensures Picked(text).Some? && HasPass(Picked(text).value) <==>
      exists s :: ObjectAt(text, s) && HasPass(SliceOf(text, s))
  {
    NothingPickedIff(text);
    if Picked(text).Some? {
      var picked := PickedHasPassIff(text);
      if s :| ObjectAt(text, s) && HasPass(SliceOf(text, s)) {
        AllAreReached(text, s);
      }
    }
  }

  lemma AllAreReached(text: string, s: Span)
    requires NoneStraddle(text) && ObjectAt(text, s)
    ensures Reached(text, s)
  {
    forall k | 0 <= k < |Roots(text, 0)| ensures !Straddles(Roots(text, 0)[k], s) {
      RootsAreObjects(text, 0, k);
    }
  }

  lemma FirstRootIsFirst(text: string, s: Span)
    requires ObjectAt(text, s)
    ensures |Roots(text, 0)| > 0 && Roots(text, 0)[0].start <= s.start
  {
    var k := RootCovers(text, 0, s);
    if k > 0 {
      RootsAreApart(text, 0, 0, k);
    }
  }

  lemma {:induction false} FirstPassHasIt(text: string, roots: seq<Span>, k: nat)
    requires forall s <- roots :: InText(text, s)
    requires FirstPass(text, roots, k).Some?
    ensures HasPass(SliceOf(text, roots[FirstPass(text, roots, k).value]))
    decreases |roots| - k
  {
    if !HasPass(SliceOf(text, roots[k])) {
      FirstPassHasIt(text, roots, k + 1);
    }
  }

  lemma {:induction false} NoRoots(text: string, i: nat)
    requires forall k :: i <= k < |text| ==> text[k] != '{'
    ensures Roots(text, i) == []
    decreases |text| - i
  {
    if i < |text| {
      NoRoots(text, i + 1);
    }
  }

  const STRADDLED := "{\"{\"}\"pass\"\"}"

  lemma WriteNext(head: AuditBraces.Item, tail: Items, first: string, rest: string)
    requires Write(head) == first && WriteAll(tail) == rest
    ensures WriteAll(Items.Item(head, tail)) == first + rest
  {
  }

  lemma HiddenItems() returns (items: Items)
    ensures ItemsOk(items) && WriteAll(items) == "\"}\"pass\"\""
  {
    var brace := Quoted(Pieces.Piece(Bare('}'), NoPiece));
    var empty := Items.Item(Quoted(NoPiece), NoItem);
    var s1 := Items.Item(Plain('s'), empty);
    var s2 := Items.Item(Plain('s'), s1);
    var a := Items.Item(Plain('a'), s2);
    var pass := Items.Item(Plain('p'), a);
    assert WritePieces(brace.pieces) == "}";
    assert WritePieces(NoPiece) == "" && WriteAll(NoItem) == "";
    WriteNext(Quoted(NoPiece), NoItem, "\"\"", "");
    WriteNext(Plain('s'), empty, "s", "\"\"");
    WriteNext(Plain('s'), s1, "s", "s\"\"");
    WriteNext(Plain('a'), s2, "a", "ss\"\"");
    WriteNext(Plain('p'), a, "p", "ass\"\"");
    WriteNext(brace, pass, "\"}\"", "pass\"\"");
    items := Items.Item(brace, pass);
  }

  lemma HiddenObject()
    ensures |STRADDLED| == 13 && IsObject(STRADDLED[2..13])
  {
    var items := HiddenItems();
    assert Write(Braced(items)) == "{" + WriteAll(items) + "}";
    assert STRADDLED[2..13] == "{" + WriteAll(items) + "}";
  }

  lemma HiddenHasKey()
    ensures HasPass(STRADDLED[2..13])
  {
    var hidden := STRADDLED[2..13];
    assert hidden[3..][..6] == PASS_KEY;
    assert OccursAt(hidden, PASS_KEY, 3);
    FindIsFirst(hidden, PASS_KEY);
  }

  lemma ShownObject()
    ensures BalancedLength(STRADDLED, 0) == Some(5)
  {
    var shown := Items.Item(Quoted(Pieces.Piece(Bare('{'), NoPiece)), NoItem);
    assert WritePieces(shown.head.pieces) == "{";
    assert STRADDLED[0..5] == Write(Braced(shown));
    BalancedIffObject(STRADDLED, 0, 5);
  }

  lemma ShownHasNoKey()
    requires BalancedLength(STRADDLED, 0) == Some(5)
    ensures Picked(STRADDLED) == Some(STRADDLED[0..5]) && !HasPass(STRADDLED[0..5])
  {
    NoRoots(STRADDLED, 5);
    assert Roots(STRADDLED, 0) == [Span(0, 5)];
    FindIsFirst(STRADDLED[0..5], PASS_KEY);
  }

  /** The brace in a string of one object may start another that has the key and is
      never looked at. */
  lemma StraddlingObjectIsMissed()
    ensures ObjectAt(STRADDLED, Span(2, 11)) && HasPass(SliceOf(STRADDLED, Span(2, 11)))
    ensures Picked(STRADDLED).Some? && !HasPass(Picked(STRADDLED).value)
  {
    HiddenObject();
    HiddenHasKey();
    ShownObject();
    ShownHasNoKey();
  }

  // ----- the verdict -----

  /** A parsed value; a number has its value if it is a 64-bit natural. */
  datatype Json =
    | Null
    | Bool(b: bool)
    | Number(asU64: Option<nat>)
    | Str(s: string)
    | Array(elements: seq<Json>)
    | Object(fields: map<string, Json>)

  datatype AuditVerdict = AuditVerdict(pass: bool, findings: seq<AuditFinding>)
  datatype ParseError = NoJson | Invalid
  datatype Parsed<T> = Ok(value: T) | Err(error: ParseError)

  const U64_MAX: nat := 0xFFFF_FFFF_FFFF_FFFF
  const U32_MAX: nat := 0xFFFF_FFFF

  predicate IsDigit(c: char) {
    '0' <= c <= '9'
  }

  function LeadingDigits(s: string): string {
    if s != [] && IsDigit(s[0]) then [s[0]] + LeadingDigits(s[1..]) else []
  }

  function DigitsFrom(s: string): string {
    if s == [] then [] else if IsDigit(s[0]) then LeadingDigits(s) else DigitsFrom(s[1..])
  }

  function DigitValue(c: char): nat {
    if IsDigit(c) then (c - '0') as nat else 0
  }

  function ValueOf(digits: string): nat {
    if digits == [] then 0 else 10 * ValueOf(digits[..|digits| - 1]) + DigitValue(digits[|digits| - 1])
  }

  /** `first_integer`; a run of digits above 64 bits does not parse. */
  function FirstInteger(s: string): Option<nat> {
    var digits := DigitsFrom(s);
    if digits == [] || ValueOf(digits) > U64_MAX then None else Some(ValueOf(digits))
  }

  function CriterionFromJson(v: Json): Option<nat> {
    var n := match v
      case Number(asU64) => asU64
      case Str(s) => FirstInteger(s)
      case _ => None;
    if n.Some? && 0 < n.value <= U32_MAX then n else None
  }

  function ParseFinding(v: Json): Parsed<AuditFinding> {
    if !v.Object? then Err(Invalid)
    else if "message" !in v.fields || !v.fields["message"].Str? || Trim(v.fields["message"].s) == [] then Err(Invalid)
    else
      var severity := if "severity" in v.fields && v.fields["severity"].Str? && Trim(v.fields["severity"].s) != []
        then Some(Trim(v.fields["severity"].s)) else None;
      var criterion := if "criterion" in v.fields then CriterionFromJson(v.fields["criterion"]) else None;
      Ok(AuditFinding(severity, criterion, Trim(v.fields["message"].s)))
  }

  /** All findings, or the first error. */
  function ParseFindings(vs: seq<Json>): Parsed<seq<AuditFinding>> {
    if |vs| == 0 then Ok([])
    else
      match ParseFinding(vs[0])
      case Err(e) => Err(e)
      case Ok(f) =>
        match ParseFindings(vs[1..])
        case Err(e) => Err(e)
        case Ok(fs) => Ok([f] + fs)
  }

  const PLACEHOLDER := AuditFinding(Some("error"), None,
    "Audit reported pass=false with no findings; treat as incomplete.")

  /** `extracted` is the object's text, if one was found. */
  function ParseOutput(extracted: Option<string>, parse: string -> Option<Json>): Parsed<AuditVerdict> {
    if extracted.None? then Err(NoJson)
    else
      match parse(extracted.value)
      case Some(Object(fields)) =>
        if "pass" !in fields || !fields["pass"].Bool? then Err(Invalid)
        else
          var findings :=
            if "findings" !in fields then Ok([])
            else match fields["findings"]
              case Array(elements) => ParseFindings(elements)
              case _ => Err(Invalid);
          if findings.Err? then Err(findings.error)
          else if fields["pass"].b && findings.value != [] then Ok(AuditVerdict(false, findings.value))
          else if fields["pass"].b then Ok(AuditVerdict(true, []))
          else Ok(AuditVerdict(false, if findings.value == [] then [PLACEHOLDER] else findings.value))
      case _ => Err(Invalid)
  }

  ghost predicate FindingUsable(v: Json) {
    v.Object? && "message" in v.fields && v.fields["message"].Str? && !Blank(v.fields["message"].s)
  }

  lemma FindingUsableIff(v: Json)
    ensures ParseFinding(v).Ok? <==> FindingUsable(v)
    ensures ParseFinding(v).Ok? ==> var f := ParseFinding(v).value;
      && f.message != [] && Trimmed(f.message)
      && (f.criterion.Some? ==> 0 < f.criterion.value <= U32_MAX)
      && (f.severity.Some? ==> f.severity.value != [] && Trimmed(f.severity.value))
  {
    if v.Object? && "message" in v.fields && v.fields["message"].Str? {
      TrimOfBlank(v.fields["message"].s);
      var i, j := TrimSlice(v.fields["message"].s);
    }
    if v.Object? && "severity" in v.fields && v.fields["severity"].Str? {
      var i, j := TrimSlice(v.fields["severity"].s);
    }
  }

  /** The findings parse exactly if each does, and then one for one, in order. */
  lemma {:induction false} ParseFindingsIff(vs: seq<Json>)
    ensures ParseFindings(vs).Err? ==> ParseFindings(vs) == Err(Invalid)
    ensures ParseFindings(vs).Ok? <==> forall i :: 0 <= i < |vs| ==> FindingUsable(vs[i])
    ensures ParseFindings(vs).Ok? ==> var fs := ParseFindings(vs).value;
      |fs| == |vs| && forall i :: 0 <= i < |vs| ==> ParseFinding(vs[i]) == Ok(fs[i])
  {
    if |vs| > 0 {
      FindingUsableIff(vs[0]);
      ParseFindingsIff(vs[1..]);
      assert vs == [vs[0]] + vs[1..];
    }
  }

  /** The findings of an answer without a `findings` field are none. */
  ghost function FindingsOf(fields: map<string, Json>): seq<Json> {
    if "findings" in fields && fields["findings"].Array? then fields["findings"].elements else []
  }

  ghost predicate Usable(v: Option<Json>) {
    && v.Some? && v.value.Object?
    && "pass" in v.value.fields && v.value.fields["pass"].Bool?
    && ("findings" in v.value.fields ==> v.value.fields["findings"].Array?)
    && (forall i :: 0 <= i < |FindingsOf(v.value.fields)| ==> FindingUsable(FindingsOf(v.value.fields)[i]))
  }

  /** There is a verdict exactly for a usable answer; it passes exactly if its findings
      are empty, which is so exactly if the answer says pass and lists nothing. */
  lemma VerdictIff(extracted: Option<string>, parse: string -> Option<Json>)
    ensures var r := ParseOutput(extracted, parse);
      && (r == Err(NoJson) <==> extracted.None?)
      && (r.Ok? <==> extracted.Some? && Usable(parse(extracted.value)))
      && (r.Ok? ==>
        var fields := parse(extracted.value).value.fields;
        && (r.value.pass <==> r.value.findings == [])
        && (r.value.pass <==> fields["pass"].b && FindingsOf(fields) == [])
        && (FindingsOf(fields) != [] ==> ParseFindings(FindingsOf(fields)) == Ok(r.value.findings))
        && (FindingsOf(fields) == [] && !fields["pass"].b ==> r.value.findings == [PLACEHOLDER]))
  {
    if extracted.Some? && parse(extracted.value).Some? && parse(extracted.value).value.Object? {
      ParseFindingsIff(FindingsOf(parse(extracted.value).value.fields));
    }
  }

  // ----- reading a criterion -----

  lemma {:induction false} LeadingDigitsOf(digits: string, after: string)
    requires Decimal.IsDigits(digits) && (after != [] ==> !IsDigit(after[0]))
    ensures LeadingDigits(digits + after) == digits
  {
    if digits == [] {
      assert digits + after == after;
    } else {
      assert (digits + after)[1..] == digits[1..] + after;
      assert digits[0] in digits && forall c <- digits[1..] :: c in digits;
      LeadingDigitsOf(digits[1..], after);
    }
  }

  lemma {:induction false} DigitsFromAfter(before: string, s: string)
    requires forall c <- before :: !IsDigit(c)
    ensures DigitsFrom(before + s) == DigitsFrom(s)
  {
    if before == [] {
      assert before + s == s;
    } else {
      assert (before + s)[1..] == before[1..] + s;
      DigitsFromAfter(before[1..], s);
    }
  }

  lemma {:induction false} ValueOfRender(n: nat)
    ensures ValueOf(Decimal.Render(n)) == n
  {
    if n >= 10 {
      ValueOfRender(n / 10);
    } else {
      assert Decimal.Render(n) == [Decimal.Digit(n)];
    }
  }

  /** A criterion number written anywhere in a string is read back, if it is the first
      number there and fits 32 bits; zero and larger ones are no criterion. */
  lemma CriterionIsReadBack(before: string, n: nat, after: string)
    requires (forall c <- before :: !IsDigit(c)) && (after != [] ==> !IsDigit(after[0]))
    ensures CriterionFromJson(Str(before + (Decimal.Render(n) + after)))
         == if 0 < n <= U32_MAX then Some(n) else None
  {
    Decimal.RenderIsDigits(n);
    DigitsFromAfter(before, Decimal.Render(n) + after);
    LeadingDigitsOf(Decimal.Render(n), after);
    ValueOfRender(n);
  }
}
