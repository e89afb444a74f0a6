/** The brace scan of `audit_parse.rs`, and the objects it finds. */
module AuditBraces {
  import opened Wrappers

  // ----- extract_balanced_from -----

  datatype Scanner = Scanner(depth: int, inStr: bool, escape: bool)

  function Step(s: Scanner, c: char): Scanner {
    if s.inStr then
      if s.escape then s.(escape := false)
      else if c == '\\' then s.(escape := true)
      else if c == '"' then s.(inStr := false)
      else s
    else if c == '"' then s.(inStr := true)
    else if c == '{' then s.(depth := s.depth + 1)
    else if c == '}' then s.(depth := s.depth - 1)
    else s
  }

  /** The step that closes the object. */
  predicate Closes(s: Scanner, c: char) {
    !s.inStr && c == '}' && s.depth == 1
  }

  /** How much of `text` is read up to and including the closing brace. */
  function Scan(text: string, s: Scanner): (r: Option<nat>)
    ensures r.Some? ==> 0 < r.value <= |text|
  {
    if text == [] then None
    else if Closes(s, text[0]) then Some(1)
    else
      match Scan(text[1..], Step(s, text[0]))
      case None => None
      case Some(n) => Some(n + 1)
  }

  const START := Scanner(0, false, false)

  /** The length of the object that starts at `start`. */
  function BalancedLength(text: string, start: nat): (r: Option<nat>)
    ensures r.Some? ==> 0 < r.value <= |text| - start
  {
    if start >= |text| || text[start] != '{' then None else Scan(text[start..], START)
  }

  function ExtractedFrom(text: string, start: nat): Option<string> {
    match BalancedLength(text, start)
    case None => None
    case Some(n) => Some(text[start..start + n])
  }

  method ExtractBalancedFrom(text: string, start: nat) returns (r: Option<string>)
    ensures r == ExtractedFrom(text, start)
  {
    if start >= |text| || text[start] != '{' {
      return None;
    }
    var depth, inStr, escape := 0, false, false;
    var i := start;
    while i < |text|
      invariant start <= i <= |text|
      invariant BalancedLength(text, start)
             == match Scan(text[i..], Scanner(depth, inStr, escape))
                case None => None
                case Some(n) => Some(i - start + n)
    {
      var c := text[i];
      assert text[i..][1..] == text[i + 1..];
      if inStr {
        if escape {
          escape := false;
        } else if c == '\\' {
          escape := true;
        } else if c == '"' {
          inStr := false;
        }
      } else if c == '"' {
        inStr := true;
      } else if c == '{' {
        depth := depth + 1;
      } else if c == '}' {
        depth := depth - 1;
        if depth == 0 {
          return Some(text[start..i + 1]);
        }
      }
      i := i + 1;
    }
    return None;
  }

  // ----- what an object is: a grammar -----

  datatype Piece = Bare(c: char) | Escaped(c: char)
  datatype Pieces = NoPiece | Piece(first: Piece, more: Pieces)

  /** Text outside strings, a string, or a nested object. */
  datatype Item = Plain(c: char) | Quoted(pieces: Pieces) | Braced(items: Items)
  datatype Items = NoItem | Item(head: Item, tail: Items)

  predicate PiecesOk(p: Pieces) {
    match p
    case NoPiece => true
    case Piece(first, more) => (first.Bare? ==> first.c !in {'"', '\\'}) && PiecesOk(more)
  }

  predicate ItemOk(i: Item) {
    match i
    case Plain(c) => c !in {'"', '{', '}'}
    case Quoted(pieces) => PiecesOk(pieces)
    case Braced(items) => ItemsOk(items)
  }

  predicate ItemsOk(items: Items) {
    match items
    case NoItem => true
    case Item(head, tail) => ItemOk(head) && ItemsOk(tail)
  }

  function WritePieces(p: Pieces): string {
    match p
    case NoPiece => []
    case Piece(Bare(c), more) => [c] + WritePieces(more)
    case Piece(Escaped(c), more) => ['\\', c] + WritePieces(more)
  }

  function Write(i: Item): string {
    match i
    case Plain(c) => [c]
    case Quoted(pieces) => ['"'] + WritePieces(pieces) + ['"']
    case Braced(items) => ['{'] + WriteAll(items) + ['}']
  }

  function WriteAll(items: Items): string {
    match items
    case NoItem => []
    case Item(head, tail) => Write(head) + WriteAll(tail)
  }

  /** `s` is an object: braces around items. */
  ghost predicate IsObject(s: string) {
    exists items :: ItemsOk(items) && s == Write(Braced(items))
  }

  // ----- every object is scanned to its last character, and no further -----

  function After(n: nat, r: Option<nat>): Option<nat> {
    if r.None? then None else Some(n + r.value)
  }

  lemma ScanOne(c: char, rest: string, s: Scanner)
    requires !Closes(s, c)
    ensures Scan([c] + rest, s) == After(1, Scan(rest, Step(s, c)))
  {
    assert ([c] + rest)[1..] == rest;
  }

  lemma {:induction false} ScanPieces(p: Pieces, rest: string, depth: int)
    requires PiecesOk(p)
    ensures Scan(WritePieces(p) + rest, Scanner(depth, true, false))
         == After(|WritePieces(p)|, Scan(rest, Scanner(depth, true, false)))
  {
    var inside := Scanner(depth, true, false);
    match p
    case NoPiece =>
      assert WritePieces(p) + rest == rest;
    case Piece(Bare(c), more) =>
      assert WritePieces(p) + rest == [c] + (WritePieces(more) + rest);
      ScanOne(c, WritePieces(more) + rest, inside);
      ScanPieces(more, rest, depth);
    case Piece(Escaped(c), more) =>
      assert WritePieces(p) + rest == ['\\'] + ([c] + (WritePieces(more) + rest));
      ScanOne('\\', [c] + (WritePieces(more) + rest), inside);
      ScanOne(c, WritePieces(more) + rest, Scanner(depth, true, true));
      ScanPieces(more, rest, depth);
  }

  lemma ScanQuoted(p: Pieces, rest: string, depth: int)
    requires PiecesOk(p)
    ensures var out := Scanner(depth, false, false);
      Scan(Write(Quoted(p)) + rest, out) == After(|Write(Quoted(p))|, Scan(rest, out))
  {
    var out, inside := Scanner(depth, false, false), Scanner(depth, true, false);
    assert Write(Quoted(p)) + rest == ['"'] + (WritePieces(p) + (['"'] + rest));
    ScanOne('"', WritePieces(p) + (['"'] + rest), out);
    ScanPieces(p, ['"'] + rest, depth);
    ScanOne('"', rest, inside);
  }

  lemma BracedParts(items: Items, rest: string)
    ensures Write(Braced(items)) + rest == ['{'] + (WriteAll(items) + (['}'] + rest))
    ensures |Write(Braced(items))| == |WriteAll(items)| + 2
  {
    var all := WriteAll(items);
    assert ['{'] + all + ['}'] + rest == ['{'] + (all + (['}'] + rest));
  }

  lemma {:induction false} ScanItem(i: Item, rest: string, depth: int)
    requires ItemOk(i) && depth >= 1
    ensures var out := Scanner(depth, false, false);
      Scan(Write(i) + rest, out) == After(|Write(i)|, Scan(rest, out))
    decreases i
  {
    match i
    case Plain(c) =>
      ScanOne(c, rest, Scanner(depth, false, false));
    case Quoted(pieces) =>
      ScanQuoted(pieces, rest, depth);
    case Braced(items) =>
      ScanItems(items, ['}'] + rest, depth + 1);
      ScanBraced(items, rest, depth);
  }

  lemma ScanBraced(items: Items, rest: string, depth: int)
    requires depth >= 1
    requires Scan(WriteAll(items) + (['}'] + rest), Scanner(depth + 1, false, false))
          == After(|WriteAll(items)|, Scan(['}'] + rest, Scanner(depth + 1, false, false)))
    ensures Scan(Write(Braced(items)) + rest, Scanner(depth, false, false))
         == After(|Write(Braced(items))|, Scan(rest, Scanner(depth, false, false)))
  {
    var out, inside := Scanner(depth, false, false), Scanner(depth + 1, false, false);
    var all := WriteAll(items);
    calc {
      Scan(Write(Braced(items)) + rest, out);
      { BracedParts(items, rest); }
      Scan(['{'] + (all + (['}'] + rest)), out);
      { ScanOne('{', all + (['}'] + rest), out); }
      After(1, Scan(all + (['}'] + rest), inside));
      After(1, After(|all|, Scan(['}'] + rest, inside)));
      { ScanOne('}', rest, inside); }
      After(1, After(|all|, After(1, Scan(rest, out))));
      { BracedParts(items, rest); }
      After(|Write(Braced(items))|, Scan(rest, out));
    }
  }

  lemma {:induction false} ScanItems(items: Items, rest: string, depth: int)
    requires ItemsOk(items) && depth >= 1
    ensures var out := Scanner(depth, false, false);
      Scan(WriteAll(items) + rest, out) == After(|WriteAll(items)|, Scan(rest, out))
    decreases items
  {
    match items
    case NoItem =>
      assert WriteAll(items) + rest == rest;
    case Item(head, tail) =>
      assert WriteAll(items) + rest == Write(head) + (WriteAll(tail) + rest);
      ScanItem(head, WriteAll(tail) + rest, depth);
      ScanItems(tail, rest, depth);
  }

  lemma ScanObject(items: Items, rest: string)
    requires ItemsOk(items)
    ensures Scan(Write(Braced(items)) + rest, START) == Some(|Write(Braced(items))|)
  {
    BracedParts(items, rest);
    ScanOne('{', WriteAll(items) + (['}'] + rest), START);
    ScanItems(items, ['}'] + rest, 1);
    assert (['}'] + rest)[0] == '}';
  }

  // ----- whatever is scanned is an object -----

  lemma ScanHead(s: string, scanner: Scanner)
    requires Scan(s, scanner).Some? && !Closes(scanner, s[0])
    ensures Scan(s[1..], Step(scanner, s[0])).Some? && s == [s[0]] + s[1..]
  {
  }

  /** A string is read up to its closing quote. */
  lemma {:induction false} ReadPieces(s: string, depth: int) returns (p: Pieces, rest: string)
    requires Scan(s, Scanner(depth, true, false)).Some?
    ensures PiecesOk(p) && s == WritePieces(p) + (['"'] + rest)
    decreases |s|
  {
    ScanHead(s, Scanner(depth, true, false));
    if s[0] == '"' {
      p, rest := NoPiece, s[1..];
      assert WritePieces(p) + s == s;
    } else if s[0] == '\\' {
      ScanHead(s[1..], Scanner(depth, true, true));
      var more;
      more, rest := ReadPieces(s[1..][1..], depth);
      p := Pieces.Piece(Escaped(s[1]), more);
      Regroup(['\\', s[1]], WritePieces(more), ['"'] + rest);
    } else {
      var more;
      more, rest := ReadPieces(s[1..], depth);
      p := Pieces.Piece(Bare(s[0]), more);
      Regroup([s[0]], WritePieces(more), ['"'] + rest);
    }
  }

  lemma {:induction false} ReadItem(s: string, depth: int) returns (i: Item, rest: string)
    requires depth >= 1 && Scan(s, Scanner(depth, false, false)).Some? && s[0] != '}'
    ensures ItemOk(i) && s == Write(i) + rest
    decreases |s|, 0
  {
    ScanHead(s, Scanner(depth, false, false));
    if s[0] == '"' {
      var p;
      p, rest := ReadPieces(s[1..], depth);
      i := Quoted(p);
      assert s == ['"'] + WritePieces(p) + ['"'] + rest;
    } else if s[0] == '{' {
      var items;
      items, rest := ReadItems(s[1..], depth + 1);
      i := Braced(items);
      assert s == ['{'] + WriteAll(items) + ['}'] + rest;
    } else {
      i, rest := Plain(s[0]), s[1..];
    }
  }

  /** The scan passes items up to the brace that closes their object. */
  lemma {:induction false} ReadItems(s: string, depth: int) returns (items: Items, rest: string)
    requires depth >= 1 && Scan(s, Scanner(depth, false, false)).Some?
    ensures ItemsOk(items) && s == WriteAll(items) + (['}'] + rest)
    decreases |s|, 1
  {
    if s[0] == '}' {
      items, rest := NoItem, s[1..];
      assert s == [] + (['}'] + rest);
    } else {
      var head, behind := ReadItem(s, depth);
      ScanItem(head, behind, depth);
      var tail;
      tail, rest := ReadItems(behind, depth);
      items := Items.Item(head, tail);
      Regroup(Write(head), WriteAll(tail), ['}'] + rest);
    }
  }

  /** The scan succeeds exactly where an object starts, and then it returns that object:
      no object is a proper prefix of another. */
  lemma BalancedIffObject(text: string, start: nat, n: nat)
    requires start <= |text|
    ensures BalancedLength(text, start) == Some(n) <==> start + n <= |text| && IsObject(text[start..start + n])
  {
    if start + n <= |text| && IsObject(text[start..start + n]) {
      ObjectIsScanned(text[start..], n);
    }
    if BalancedLength(text, start) == Some(n) {
      ScannedIsObject(text[start..], n);
    }
  }

  lemma ObjectIsScanned(s: string, n: nat)
    requires n <= |s| && IsObject(s[..n])
    ensures s[0] == '{' && Scan(s, START) == Some(n)
  {
    var items :| ItemsOk(items) && s[..n] == Write(Braced(items));
    assert s == Write(Braced(items)) + s[n..];
    ScanObject(items, s[n..]);
  }

  lemma ScannedIsObject(s: string, n: nat)
    requires s != [] && s[0] == '{' && Scan(s, START) == Some(n)
    ensures IsObject(s[..n])
  {
    var items, rest := ReadItems(s[1..], 1);
    assert s == Write(Braced(items)) + rest;
    ScanObject(items, rest);
    assert s[..n] == Write(Braced(items));
  }
}
