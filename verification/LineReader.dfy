/** The cancel-safe line reader: a producer task reads whole lines and sends them through
    a bounded channel, and `poll_read` serves them in pieces. */
module LineReader {
  import opened Wrappers
  import opened Bytes

  const NEWLINE: Byte := 10
  const MAX_LINE_SIZE: nat := 64 * 1024 * 1024
  const CAPACITY: nat := 65    // a futures channel of 64 has one more slot for its sender

  // ----- lines of a stream -----

  /** Up to and including the first newline, or everything. */
  function FirstLine(s: seq<Byte>): (line: seq<Byte>)
    ensures line <= s && (s != [] ==> line != [])
  {
    if |s| == 0 then []
    else if s[0] == NEWLINE then [NEWLINE]
    else [s[0]] + FirstLine(s[1..])
  }

  /** A newline can only be the last byte of a line, and ends every line but the last. */
  lemma {:induction false} FirstLineShape(s: seq<Byte>)
    ensures var line := FirstLine(s);
      && (|line| > 0 ==> NEWLINE !in line[..|line| - 1])
      && (|line| < |s| ==> line[|line| - 1] == NEWLINE)
  {
    if |s| > 0 && s[0] != NEWLINE {
      FirstLineShape(s[1..]);
      var rest := FirstLine(s[1..]);
      assert |rest| > 0 ==> FirstLine(s)[..|rest|] == [s[0]] + rest[..|rest| - 1];
    }
  }

  /** The first line of a stream whose newline-free beginning is known. */
  lemma {:induction false} FirstLineAfter(a: seq<Byte>, b: seq<Byte>)
    requires NEWLINE !in a
    ensures FirstLine(a + b) == a + FirstLine(b)
  {
    if |a| == 0 {
      assert a + b == b;
    } else {
      assert (a + b)[1..] == a[1..] + b;
      FirstLineAfter(a[1..], b);
    }
  }

  // ----- read_line_capped over a chunked source -----

  datatype LineRead = Line(bytes: seq<Byte>) | TooLong(read: nat) | ReadError

  /** A buffered reader over a source that yields its bytes in arbitrary chunks; the end
      of the list is end of input, or a read error if the source is broken. */
  class ChunkedReader {
    var buffered: seq<Byte>
    var source: seq<seq<Byte>>
    const broken: bool

    ghost predicate Valid()
      reads this
    {
      forall i :: 0 <= i < |source| ==> source[i] != []
    }

    ghost function Remaining(): seq<Byte>
      reads this
    {
      buffered + Flatten(source)
    }

    constructor (source: seq<seq<Byte>>, broken: bool)
      requires forall i :: 0 <= i < |source| ==> source[i] != []
      ensures Valid() && Remaining() == Flatten(source) && this.broken == broken
    {
      this.buffered, this.source, this.broken := [], source, broken;
    }

    method FillBuf() returns (available: Option<seq<Byte>>)
      requires Valid()
      modifies this
      ensures Valid() && Remaining() == old(Remaining())
      ensures available.None? <==> Remaining() == [] && broken
      ensures available.Some? ==> available.value == buffered && (buffered == [] <==> Remaining() == [])
    {
      if buffered == [] {
        if source == [] {
          return if broken then None else Some([]);
        }
        buffered, source := source[0], source[1..];
      }
      return Some(buffered);
    }

    method Consume(n: nat)
      requires Valid() && n <= |buffered|
      modifies this
      ensures Valid() && Remaining() == old(Remaining())[n..]
    {
      buffered := buffered[n..];
    }
  }

  function Flatten(chunks: seq<seq<Byte>>): seq<Byte> {
    if |chunks| == 0 then [] else chunks[0] + Flatten(chunks[1..])
  }

  method Position(s: seq<Byte>, b: Byte) returns (pos: Option<nat>)
    ensures match pos
      case Some(p) => p < |s| && s[p] == b && b !in s[..p]
      case None => b !in s
  {
    for i := 0 to |s|
      invariant b !in s[..i]
    {
      if s[i] == b {
        return Some(i);
      }
    }
    return None;
  }

  function Consumed(available: seq<Byte>, pos: Option<nat>): nat {
    if pos.Some? then pos.value + 1 else |available|
  }

  ghost predicate FirstAt(available: seq<Byte>, pos: Option<nat>) {
    match pos
    case Some(p) => p < |available| && available[p] == NEWLINE && NEWLINE !in available[..p]
    case None => NEWLINE !in available
  }

  /** What one buffer-full contributes to the line: all of it, or up to its newline. */
  lemma ConsumedOfLine(s: seq<Byte>, available: seq<Byte>, pos: Option<nat>)
    requires available <= s && FirstAt(available, pos)
    ensures FirstLine(s) == match pos
      case Some(p) => available[..p + 1]
      case None => available + FirstLine(s[|available|..])
  {
    match pos {
      case Some(p) =>
        FirstLineAfter(available[..p], s[p..]);
        assert available[..p] + s[p..] == s && FirstLine(s[p..]) == [NEWLINE];
      case None =>
        FirstLineAfter(available, s[|available|..]);
        assert available + s[|available|..] == s;
    }
  }

  predicate Terminated(line: seq<Byte>) {
    |line| > 0 && line[|line| - 1] == NEWLINE
  }

  /** `buf` is a beginning of the stream's first line without its newline, and `rest` is
      unread. */
  ghost predicate Reading(stream: seq<Byte>, buf: seq<Byte>, rest: seq<Byte>) {
    stream == buf + rest && FirstLine(stream) == buf + FirstLine(rest) && !Terminated(buf)
  }

  /** A round that reaches the newline. */
  lemma TakenToNewline(stream: seq<Byte>, buf: seq<Byte>, rest: seq<Byte>, available: seq<Byte>, p: nat)
    requires Reading(stream, buf, rest) && available <= rest && FirstAt(available, Some(p))
    ensures var taken := buf + available[..p + 1];
      stream == taken + rest[p + 1..] && FirstLine(stream) == taken && Terminated(taken)
  {
    ConsumedOfLine(rest, available, Some(p));
    TakeFront(buf, rest, available, p + 1);
  }

  /** A round that takes all there is. */
  lemma TakenWhole(stream: seq<Byte>, buf: seq<Byte>, rest: seq<Byte>, available: seq<Byte>)
    requires Reading(stream, buf, rest) && available <= rest && available != [] && FirstAt(available, None)
    ensures Reading(stream, buf + available, rest[|available|..])
  {
    ConsumedOfLine(rest, available, None);
    TakeFront(buf, rest, available, |available|);
    assert available[..|available|] == available && available[|available| - 1] in available;
    Regroup(buf, available, FirstLine(rest[|available|..]));
  }

  lemma TakeFront(buf: seq<Byte>, rest: seq<Byte>, available: seq<Byte>, n: nat)
    requires available <= rest && n <= |available|
    ensures buf + available[..n] + rest[n..] == buf + rest
  {
    assert available[..n] == rest[..n] && rest[..n] + rest[n..] == rest;
    Regroup(buf, rest[..n], rest[n..]);
  }

  /** The source breaks before its first line has ended. */
  predicate BreaksOff(stream: seq<Byte>, broken: bool) {
    broken && !Terminated(FirstLine(stream))
  }

  /** What reading a line of `stream` should come to, leaving `rest`. */
  ghost predicate ReadAs(stream: seq<Byte>, broken: bool, r: LineRead, rest: seq<Byte>) {
    var line := FirstLine(stream);
    if |line| > 0x400_0000 then r.TooLong? && 0x400_0000 < r.read <= |line|
    else if BreaksOff(stream, broken) then r == ReadError && rest == []
    else r == Line(line) && stream == line + rest
  }

  lemma EndsWithInput(stream: seq<Byte>, broken: bool, buf: seq<Byte>, rest: seq<Byte>)
    requires Reading(stream, buf, rest) && rest == [] && |buf| <= MAX_LINE_SIZE
    ensures ReadAs(stream, broken, if broken then ReadError else Line(buf), rest)
  {
    assert buf + [] == buf;
  }

  /** After a round the line is done, over the limit, or still being read. */
  ghost predicate RoundEnds(stream: seq<Byte>, broken: bool, buf: seq<Byte>, done: bool, rest: seq<Byte>) {
    if |buf| > MAX_LINE_SIZE then ReadAs(stream, broken, TooLong(|buf|), rest)
    else if done then ReadAs(stream, broken, Line(buf), rest)
    else Reading(stream, buf, rest)
  }

  lemma RoundEnded(stream: seq<Byte>, broken: bool, buf: seq<Byte>, done: bool, rest: seq<Byte>)
    requires stream == buf + rest
    requires if done then FirstLine(stream) == buf && Terminated(buf) else Reading(stream, buf, rest)
    ensures RoundEnds(stream, broken, buf, done, rest)
  {
  }

  lemma RoundGoes(stream: seq<Byte>, broken: bool, buf: seq<Byte>, rest: seq<Byte>, available: seq<Byte>, pos: Option<nat>)
    requires Reading(stream, buf, rest) && available <= rest && available != [] && FirstAt(available, pos)
    ensures var n := Consumed(available, pos);
      0 < n <= |available| && RoundEnds(stream, broken, buf + available[..n], pos.Some?, rest[n..])
  {
    var n := Consumed(available, pos);
    match pos {
      case Some(p) => TakenToNewline(stream, buf, rest, available, p);
      case None =>
        TakenWhole(stream, buf, rest, available);
        assert available[..n] == available;
    }
    RoundEnded(stream, broken, buf + available[..n], pos.Some?, rest[n..]);
  }

  /** However the source is chunked: the first line, unless it is over the limit or the
      source breaks before its end.  An empty line read is end of input. */
  method ReadLineCapped(reader: ChunkedReader) returns (r: LineRead)
    requires reader.Valid()
    modifies reader
    ensures reader.Valid() && ReadAs(old(reader.Remaining()), reader.broken, r, reader.Remaining())
  {
    var buf: seq<Byte> := [];
    ghost var stream := reader.Remaining();
    assert [] + stream == stream && [] + FirstLine(stream) == FirstLine(stream);
    while true
      invariant reader.Valid() && Reading(stream, buf, reader.Remaining()) && |buf| <= MAX_LINE_SIZE
      decreases |reader.Remaining()|
    {
      ghost var rest := reader.Remaining();
      var filled := reader.FillBuf();
      if filled.None? || filled.value == [] {
        EndsWithInput(stream, reader.broken, buf, rest);
        return if filled.None? then ReadError else Line(buf);
      }
      var consumed, done := TakeAvailable(reader, buf, stream);
      buf := buf + filled.value[..consumed];
      if |buf| > MAX_LINE_SIZE {
        return TooLong(|buf|);
      }
      if done {
        return Line(buf);
      }
    }
  }

  /** One round: consumes up to the newline, or all that is available. */
  method TakeAvailable(reader: ChunkedReader, buf: seq<Byte>, ghost stream: seq<Byte>)
    returns (consumed: nat, done: bool)
    requires reader.Valid() && reader.buffered != [] && Reading(stream, buf, reader.Remaining())
    modifies reader
    ensures reader.Valid() && 0 < consumed <= |old(reader.buffered)|
    ensures reader.Remaining() == old(reader.Remaining())[consumed..]
    ensures RoundEnds(stream, reader.broken, buf + old(reader.buffered)[..consumed], done, reader.Remaining())
  {
    ghost var rest := reader.Remaining();
    var available := reader.buffered;
    var pos := Position(available, NEWLINE);
    RoundGoes(stream, reader.broken, buf, rest, available, pos);
    consumed, done := Consumed(available, pos), pos.Some?;
    reader.Consume(consumed);
  }

  // ----- poll_read -----

  datatype Message = Received(line: seq<Byte>) | Failure

  datatype Poll = Ready(bytes: seq<Byte>) | Failed | Pending

  /** The consumer's side: unread rest of the current line, and the channel. */
  datatype Inbox = Inbox(stash: seq<Byte>, queue: seq<Message>, closed: bool)

  function Min(a: nat, b: nat): nat {
    if a < b then a else b
  }

  /** What a poll with a buffer of `n` bytes returns and leaves. */
  function Polled(inbox: Inbox, n: nat): (Poll, Inbox) {
    if inbox.stash != [] then
      var k := Min(|inbox.stash|, n);
      (Ready(inbox.stash[..k]), inbox.(stash := inbox.stash[k..]))
    else if inbox.queue != [] then
      match inbox.queue[0]
      case Received(line) =>
        var k := Min(|line|, n);
        (Ready(line[..k]), inbox.(stash := line[k..], queue := inbox.queue[1..]))
      case Failure => (Failed, inbox.(queue := inbox.queue[1..]))
    else if inbox.closed then (Ready([]), inbox)
    else (Pending, inbox)
  }

  class LineBufferedRead {
    var buf: seq<Byte>
    var pos: nat
    var queue: seq<Message>    // the receiving half of the channel
    var closed: bool

    ghost predicate Valid()
      reads this
    {
      pos <= |buf|
    }

    function View(): Inbox
      requires Valid()
      reads this
    {
      Inbox(buf[pos..], queue, closed)
    }

    constructor ()
      ensures Valid() && View() == Inbox([], [], false)
    {
      buf, pos, queue, closed := [], 0, [], false;
    }

    method PollRead(dst: array<Byte>) returns (poll: Poll)
      requires Valid()
      modifies this, dst
      ensures Valid() && (poll, View()) == Polled(old(View()), dst.Length)
      ensures var filled := if poll.Ready? then |poll.bytes| else 0;
        && filled <= dst.Length
        && dst[filled..] == old(dst[..])[filled..]
        && (poll.Ready? ==> dst[..filled] == poll.bytes)
    {
      if pos < |buf| {
        var n := Min(|buf| - pos, dst.Length);
        assert buf[pos..][..n] == buf[pos..pos + n] && buf[pos..][n..] == buf[pos + n..];
        CopyTo(dst, buf[pos..pos + n]);
        poll := Ready(buf[pos..pos + n]);
        pos := pos + n;
        if pos >= |buf| {
          buf, pos := [], 0;
        }
        return;
      }
      if queue != [] {
        var message := queue[0];
        queue := queue[1..];
        if message.Failure? {
          return Failed;
        }
        var n := Min(|message.line|, dst.Length);
        CopyTo(dst, message.line[..n]);
        if n < |message.line| {
          buf, pos := message.line, n;
        }
        assert buf[pos..] == message.line[n..];
        return Ready(message.line[..n]);
      }
      if closed {
        return Ready([]);
      }
      return Pending;
    }
  }

  method CopyTo(dst: array<Byte>, bytes: seq<Byte>)
    requires |bytes| <= dst.Length
    modifies dst
    ensures dst[..|bytes|] == bytes && dst[|bytes|..] == old(dst[..])[|bytes|..]
  {
    for i := 0 to |bytes|
      invariant dst[..i] == bytes[..i]
      invariant dst[i..] == old(dst[..])[i..]
    {
      dst[i] := bytes[i];
    }
  }

  // ----- producer and consumer, interleaved -----

  datatype State = State(
    unread: seq<Byte>,          // what the producer has not read yet
    broken: bool,               // and whether a read error follows it
    held: Option<Message>,      // read, waiting for room in the channel
    inbox: Inbox,
    returned: seq<Byte>,        // history: everything handed out by polls
    taken: seq<Message>)        // history: the messages received by polls

  datatype Step = ReadLine | Send | PollStep(n: nat)

  /** Reading the next line is an error. */
  predicate Fails(unread: seq<Byte>, broken: bool) {
    |FirstLine(unread)| > MAX_LINE_SIZE || BreaksOff(unread, broken)
  }

  predicate Enabled(s: State, step: Step) {
    match step
    case ReadLine => s.held.None? && !s.inbox.closed
    case Send => s.held.Some? && |s.inbox.queue| < CAPACITY
    case PollStep(_) => true
  }

  function Apply(s: State, step: Step): State
    requires Enabled(s, step)
  {
    match step
    case ReadLine =>
      var line := FirstLine(s.unread);
      if Fails(s.unread, s.broken) then s.(held := Some(Failure), unread := [], broken := false)
      else if line == [] then s.(inbox := s.inbox.(closed := true))
      else s.(held := Some(Received(line)), unread := s.unread[|line|..])
    case Send =>
      s.(held := None,
         inbox := s.inbox.(queue := s.inbox.queue + [s.held.value], closed := s.held.value.Failure?))
    case PollStep(n) =>
      var (poll, inbox) := Polled(s.inbox, n);
      s.(inbox := inbox,
         returned := s.returned + if poll.Ready? then poll.bytes else [],
         taken := s.taken + if s.inbox.stash == [] && s.inbox.queue != [] then [s.inbox.queue[0]] else [])
  }

  predicate Runs(s: State, steps: seq<Step>, s': State)
    decreases |steps|
  {
    if |steps| == 0 then s == s' else Enabled(s, steps[0]) && Runs(Apply(s, steps[0]), steps[1..], s')
  }

  function Initial(stream: seq<Byte>, broken: bool): State {
    State(stream, broken, None, Inbox([], [], false), [], [])
  }

  /** The messages a stream is turned into: its lines, up to the first that is oversized or
      breaks off. */
  function Messages(stream: seq<Byte>, broken: bool): seq<Message>
    decreases |stream|
  {
    if Fails(stream, broken) then [Failure]
    else if stream == [] then []
    else
      var line := FirstLine(stream);
      [Received(line)] + Messages(stream[|line|..], broken)
  }

  function BytesOf(messages: seq<Message>): seq<Byte> {
    if |messages| == 0 then []
    else (if messages[0].Received? then messages[0].line else []) + BytesOf(messages[1..])
  }

  function HeldSeq(held: Option<Message>): seq<Message> {
    if held.Some? then [held.value] else []
  }

  /** No line of the stream is over the limit. */
  predicate LinesFit(stream: seq<Byte>)
    decreases |stream|
  {
    stream == [] ||
    (|FirstLine(stream)| <= 0x400_0000 && LinesFit(stream[|FirstLine(stream)|..]))
  }

  /** A read error, if there is one, comes between lines. */
  predicate WholeLines(stream: seq<Byte>, broken: bool) {
    broken && stream != [] ==> Terminated(stream)
  }

  /** Every line can be sent. */
  predicate Carried(stream: seq<Byte>, broken: bool) {
    LinesFit(stream) && WholeLines(stream, broken)
  }

  lemma CarriedRest(stream: seq<Byte>, broken: bool)
    requires Carried(stream, broken) && stream != []
    ensures Carried(stream[|FirstLine(stream)|..], broken)
  {
  }

  /** Nothing is lost, duplicated or reordered, at any moment of any interleaving. */
  ghost predicate Inv(stream: seq<Byte>, broken: bool, s: State) {
    && Messages(stream, broken) == s.taken + s.inbox.queue + HeldSeq(s.held) + Messages(s.unread, s.broken)
    && BytesOf(s.taken) == s.returned + s.inbox.stash
    && (Carried(stream, broken) ==> Carried(s.unread, s.broken))
    && (s.inbox.closed ==> s.held.None? && s.unread == [] && !s.broken)
    && (s.held == Some(Failure) ==> s.unread == [] && !s.broken)
  }

  lemma {:induction false} BytesOfConcat(a: seq<Message>, b: seq<Message>)
    ensures BytesOf(a + b) == BytesOf(a) + BytesOf(b)
  {
    if |a| == 0 {
      assert a + b == b;
    } else {
      assert (a + b)[1..] == a[1..] + b;
      BytesOfConcat(a[1..], b);
    }
  }

  /** Reading a line takes the next message. */
  lemma ReadTakesNext(s: State)
    requires Enabled(s, ReadLine)
    ensures var s' := Apply(s, ReadLine);
      HeldSeq(s'.held) + Messages(s'.unread, s'.broken) == Messages(s.unread, s.broken)
  {
  }

  lemma ReadKeepsCarried(s: State)
    requires Enabled(s, ReadLine) && Carried(s.unread, s.broken)
    ensures var s' := Apply(s, ReadLine); Carried(s'.unread, s'.broken)
  {
    if s.unread != [] {
      CarriedRest(s.unread, s.broken);
    }
  }

  lemma ReadKeepsInv(stream: seq<Byte>, broken: bool, s: State)
    requires Inv(stream, broken, s) && Enabled(s, ReadLine)
    ensures Inv(stream, broken, Apply(s, ReadLine))
  {
    var s' := Apply(s, ReadLine);
    var before := s.taken + s.inbox.queue;
    ReadTakesNext(s);
    Regroup(before, HeldSeq(s'.held), Messages(s'.unread, s'.broken));
    assert before + HeldSeq(None) == before;
    if Carried(stream, broken) {
      ReadKeepsCarried(s);
    }
  }

  lemma SendKeepsInv(stream: seq<Byte>, broken: bool, s: State)
    requires Inv(stream, broken, s) && Enabled(s, Send)
    ensures Inv(stream, broken, Apply(s, Send))
  {
    var before := s.taken + s.inbox.queue;
    assert s.taken + (s.inbox.queue + [s.held.value]) + [] == before + [s.held.value];
  }

  /** A poll takes the first queued message or none. */
  lemma PollTakesFirst(s: State, n: nat)
    ensures var s' := Apply(s, PollStep(n));
      && s'.taken + s'.inbox.queue == s.taken + s.inbox.queue
      && s'.held == s.held && s'.unread == s.unread && s'.broken == s.broken && s'.inbox.closed == s.inbox.closed
  {
    if s.inbox.stash == [] && s.inbox.queue != [] {
      assert s.inbox.queue == [s.inbox.queue[0]] + s.inbox.queue[1..];
      Regroup(s.taken, [s.inbox.queue[0]], s.inbox.queue[1..]);
    } else {
      assert s.taken + [] == s.taken;
    }
  }

  lemma PollKeepsInv(stream: seq<Byte>, broken: bool, s: State, n: nat)
    requires Inv(stream, broken, s)
    ensures Inv(stream, broken, Apply(s, PollStep(n)))
  {
    PollMovesBytes(s, n);
    PollTakesFirst(s, n);
  }

  /** What a poll hands out and stashes is what it takes from the stash or the channel. */
  lemma PollMovesBytes(s: State, n: nat)
    requires BytesOf(s.taken) == s.returned + s.inbox.stash
    ensures var s' := Apply(s, PollStep(n)); BytesOf(s'.taken) == s'.returned + s'.inbox.stash
  {
    if s.inbox.stash != [] {
      SplitBehind(s.returned, s.inbox.stash, Min(|s.inbox.stash|, n));
      assert s.taken + [] == s.taken;
    } else if s.inbox.queue != [] {
      assert s.returned + [] == s.returned;
      TakeBytes(s.taken, s.inbox.queue[0]);
      if s.inbox.queue[0].Received? {
        var line := s.inbox.queue[0].line;
        SplitBehind(s.returned, line, Min(|line|, n));
      }
    } else {
      assert s.taken + [] == s.taken && s.returned + [] == s.returned;
    }
  }

  lemma SplitBehind(a: seq<Byte>, b: seq<Byte>, k: nat)
    requires k <= |b|
    ensures a + b[..k] + b[k..] == a + b
  {
    assert b[..k] + b[k..] == b;
  }

  lemma TakeBytes(taken: seq<Message>, m: Message)
    ensures BytesOf(taken + [m]) == BytesOf(taken) + if m.Received? then m.line else []
  {
    BytesOfConcat(taken, [m]);
    assert [m][1..] == [];
  }

  lemma {:induction false} RunKeepsInv(stream: seq<Byte>, broken: bool, s: State, steps: seq<Step>, s': State)
    requires Inv(stream, broken, s) && Runs(s, steps, s')
    ensures Inv(stream, broken, s')
    decreases |steps|
  {
    if |steps| > 0 {
      match steps[0]
      case ReadLine => ReadKeepsInv(stream, broken, s);
      case Send => SendKeepsInv(stream, broken, s);
      case PollStep(n) => PollKeepsInv(stream, broken, s, n);
    }
    if |steps| > 0 {
      RunKeepsInv(stream, broken, Apply(s, steps[0]), steps[1..], s');
    }
  }

  lemma InitialInv(stream: seq<Byte>, broken: bool)
    ensures Inv(stream, broken, Initial(stream, broken))
  {
    assert [] + Messages(stream, broken) == Messages(stream, broken);
  }

  ghost predicate Carries(stream: seq<Byte>, broken: bool) {
    && (Carried(stream, broken) <==> BytesOf(Messages(stream, broken)) == stream)
    && |BytesOf(Messages(stream, broken))| <= |stream|
  }

  ghost predicate Announces(stream: seq<Byte>, broken: bool) {
    LinesFit(stream) && !broken <==> Failure !in Messages(stream, broken)
  }

  lemma FailureCarries(stream: seq<Byte>, broken: bool)
    requires Fails(stream, broken)
    ensures Carries(stream, broken) && Announces(stream, broken)
  {
    FirstLineShape(stream);
    assert [Failure][1..] == [];
  }

  /** One line, in front of the rest. */
  ghost predicate LineThen(stream: seq<Byte>, line: seq<Byte>, rest: seq<Byte>) {
    line == FirstLine(stream) && line != [] && rest == stream[|line|..] && stream == line + rest
  }

  lemma SplitLine(stream: seq<Byte>)
    requires stream != []
    ensures LineThen(stream, FirstLine(stream), stream[|FirstLine(stream)|..])
  {
  }

  lemma CarriedFrom(stream: seq<Byte>, broken: bool, line: seq<Byte>, rest: seq<Byte>)
    requires LineThen(stream, line, rest) && !Fails(stream, broken)
    ensures Carried(stream, broken) <==> Carried(rest, broken)
  {
    assert WholeLines(stream, broken) <==> WholeLines(rest, broken);
  }

  lemma BytesOfLine(stream: seq<Byte>, broken: bool, line: seq<Byte>, rest: seq<Byte>)
    requires LineThen(stream, line, rest) && !Fails(stream, broken)
    ensures BytesOf(Messages(stream, broken)) == line + BytesOf(Messages(rest, broken))
  {
    assert Messages(stream, broken) == [Received(line)] + Messages(rest, broken);
    assert ([Received(line)] + Messages(rest, broken))[1..] == Messages(rest, broken);
  }

  lemma LineCarries(stream: seq<Byte>, broken: bool, line: seq<Byte>, rest: seq<Byte>)
    requires LineThen(stream, line, rest) && !Fails(stream, broken) && Carries(rest, broken)
    ensures Carries(stream, broken)
  {
    CarriedFrom(stream, broken, line, rest);
    BytesOfLine(stream, broken, line, rest);
    SameBehind(line, BytesOf(Messages(rest, broken)), rest);
  }

  lemma SameBehind(a: seq<Byte>, b: seq<Byte>, c: seq<Byte>)
    ensures a + b == a + c <==> b == c
  {
    if a + b == a + c {
      assert (a + b)[|a|..] == b && (a + c)[|a|..] == c;
    }
  }

  lemma LineAnnounces(stream: seq<Byte>, broken: bool, line: seq<Byte>, rest: seq<Byte>)
    requires LineThen(stream, line, rest) && !Fails(stream, broken) && Announces(rest, broken)
    ensures Announces(stream, broken)
  {
    assert Messages(stream, broken) == [Received(line)] + Messages(rest, broken);
  }

  /** The lines sent carry the whole stream exactly if every line fits and none is broken
      off, and no error is sent exactly if there is no read error either. */
  lemma {:induction false} MessagesCarryStream(stream: seq<Byte>, broken: bool)
    ensures Carries(stream, broken) && Announces(stream, broken)
    decreases |stream|
  {
    if Fails(stream, broken) {
      FailureCarries(stream, broken);
    } else if stream != [] {
      var line, rest := FirstLine(stream), stream[|FirstLine(stream)|..];
      SplitLine(stream);
      MessagesCarryStream(rest, broken);
      LineCarries(stream, broken, line, rest);
      LineAnnounces(stream, broken, line, rest);
    }
  }

  // ----- the claims, over every interleaving -----

  /** Conservation: with lines within the limit, the bytes returned, the stash, the queued
      and held lines and the unread rest are always the whole stream. */
  lemma BytesAreConserved(stream: seq<Byte>, broken: bool, steps: seq<Step>, s: State)
    requires Carried(stream, broken) && Runs(Initial(stream, broken), steps, s)
    ensures s.returned + s.inbox.stash + BytesOf(s.inbox.queue) + BytesOf(HeldSeq(s.held)) + s.unread == stream
  {
    InitialInv(stream, broken);
    RunKeepsInv(stream, broken, Initial(stream, broken), steps, s);
    MessagesCarryStream(stream, broken);
    MessagesCarryStream(s.unread, s.broken);
    var before := s.taken + s.inbox.queue;
    BytesOfConcat(before + HeldSeq(s.held), Messages(s.unread, s.broken));
    BytesOfConcat(before, HeldSeq(s.held));
    BytesOfConcat(s.taken, s.inbox.queue);
  }

  /** Pending only between lines: whenever a poll is Pending, what has been returned is
      exactly some number of whole leading lines. */
  lemma PendingOnlyBetweenLines(stream: seq<Byte>, broken: bool, steps: seq<Step>, s: State, n: nat)
    requires Runs(Initial(stream, broken), steps, s) && Polled(s.inbox, n).0.Pending?
    ensures exists j :: 0 <= j <= |Messages(stream, broken)| && s.returned == BytesOf(Messages(stream, broken)[..j])
  {
    InitialInv(stream, broken);
    RunKeepsInv(stream, broken, Initial(stream, broken), steps, s);
    assert Messages(stream, broken)[..|s.taken|] == s.taken;
    assert s.returned + [] == s.returned;
  }

  /** Nothing is left anywhere. */
  ghost predicate AllReturned(stream: seq<Byte>, broken: bool, s: State) {
    s.taken == Messages(stream, broken) && s.returned == BytesOf(s.taken)
  }

  lemma EmptyPollFindsNothing(stream: seq<Byte>, broken: bool, s: State, n: nat)
    requires Inv(stream, broken, s) && n > 0 && Polled(s.inbox, n).0 == Ready([])
    ensures s.inbox.stash == [] && s.inbox.queue == [] && s.inbox.closed
  {
    if s.inbox.queue != [] {
      NextIsNotEmpty(stream, broken, s);
    }
  }

  lemma NothingLeft(stream: seq<Byte>, broken: bool, s: State)
    requires Inv(stream, broken, s) && s.inbox.stash == [] && s.inbox.queue == [] && s.inbox.closed
    ensures AllReturned(stream, broken, s)
  {
    assert s.taken + [] + [] + [] == s.taken;
    assert s.returned + [] == s.returned;
  }

  /** A poll with room that returns no byte means the end: everything before the first
      failing line has been returned, and without one that is the whole stream. */
  lemma EmptyReadMeansEnd(stream: seq<Byte>, broken: bool, steps: seq<Step>, s: State, n: nat)
    requires Runs(Initial(stream, broken), steps, s) && n > 0 && Polled(s.inbox, n).0 == Ready([])
    ensures s.returned == BytesOf(Messages(stream, broken))
    ensures s.returned == stream <==> Carried(stream, broken)
  {
    InitialInv(stream, broken);
    RunKeepsInv(stream, broken, Initial(stream, broken), steps, s);
    EmptyPollFindsNothing(stream, broken, s, n);
    NothingLeft(stream, broken, s);
    MessagesCarryStream(stream, broken);
  }

  lemma NextIsNotEmpty(stream: seq<Byte>, broken: bool, s: State)
    requires Inv(stream, broken, s) && s.inbox.queue != []
    ensures s.inbox.queue[0] != Received([])
  {
    NoEmptyLines(stream, broken);
    assert Messages(stream, broken)[|s.taken|] == s.inbox.queue[0];
  }

  lemma {:induction false} NoEmptyLines(stream: seq<Byte>, broken: bool)
    ensures forall i :: 0 <= i < |Messages(stream, broken)| ==> Messages(stream, broken)[i] != Received([])
    decreases |stream|
  {
    if stream != [] {
      NoEmptyLines(stream[|FirstLine(stream)|..], broken);
    }
  }
}
