/** The round fingerprint: everything the gate can watch, as one string of labelled parts. */
module Fingerprint {
  import opened Wrappers
  import opened Decimal
  import opened Rounds

  // ----- joining -----

  function Join(parts: seq<string>, sep: char): string {
    if |parts| == 0 then []
    else if |parts| == 1 then parts[0]
    else parts[0] + [sep] + Join(parts[1..], sep)
  }

  ghost predicate Free(parts: seq<string>, sep: char) {
    forall i :: 0 <= i < |parts| ==> sep !in parts[i]
  }

  ghost predicate NonEmpty(parts: seq<string>) {
    forall i :: 0 <= i < |parts| ==> parts[i] != []
  }

  lemma SplitUnique(a: string, x: string, b: string, y: string, sep: char)
    requires sep !in a && sep !in b && a + [sep] + x == b + [sep] + y
    ensures a == b && x == y
  {
    var s := a + [sep] + x;
    assert s[|a|] == sep && s[|b|] == sep;
    assert forall i :: 0 <= i < |a| ==> s[i] == a[i];
    assert forall i :: 0 <= i < |b| ==> s[i] == b[i];
    assert a == s[..|a|] && b == s[..|b|] && x == s[|a| + 1..] && y == s[|b| + 1..];
  }

  /** Separator-free lists are told apart by their joins, if they have the same length or
      no empty element. */
  lemma {:induction false} JoinInjective(xs: seq<string>, ys: seq<string>, sep: char)
    requires Free(xs, sep) && Free(ys, sep)
    requires |xs| == |ys| || (NonEmpty(xs) && NonEmpty(ys))
    requires Join(xs, sep) == Join(ys, sep)
    ensures xs == ys
    decreases |xs|
  {
    assert |xs| >= 2 ==> Join(xs, sep)[|xs[0]|] == sep;
    assert |ys| >= 2 ==> Join(ys, sep)[|ys[0]|] == sep;
    if |xs| >= 2 && |ys| >= 2 {
      SplitUnique(xs[0], Join(xs[1..], sep), ys[0], Join(ys[1..], sep), sep);
      JoinInjective(xs[1..], ys[1..], sep);
      assert xs == [xs[0]] + xs[1..] && ys == [ys[0]] + ys[1..];
    }
  }

  lemma {:induction false} JoinFree(parts: seq<string>, sep: char, c: char)
    requires Free(parts, c) && c != sep
    ensures c !in Join(parts, sep)
  {
    if |parts| >= 2 {
      JoinFree(parts[1..], sep, c);
    }
  }

  // ----- sorting -----

  /** The order of `str`: by scalar values, a prefix first. */
  predicate Leq(a: string, b: string) {
    |a| == 0 || (|b| > 0 && (a[0] < b[0] || (a[0] == b[0] && Leq(a[1..], b[1..]))))
  }

  lemma {:induction false} LeqTotal(a: string, b: string)
    ensures Leq(a, b) || Leq(b, a)
    ensures Leq(a, b) && Leq(b, a) ==> a == b
  {
    if |a| > 0 && |b| > 0 {
      LeqTotal(a[1..], b[1..]);
      assert a == [a[0]] + a[1..] && b == [b[0]] + b[1..];
    }
  }

  lemma {:induction false} LeqTransitive(a: string, b: string, c: string)
    requires Leq(a, b) && Leq(b, c)
    ensures Leq(a, c)
  {
    if |a| > 0 && a[0] == b[0] == c[0] {
      LeqTransitive(a[1..], b[1..], c[1..]);
    }
  }

  function Insert(x: string, sorted: seq<string>): seq<string> {
    if |sorted| == 0 || Leq(x, sorted[0]) then [x] + sorted else [sorted[0]] + Insert(x, sorted[1..])
  }

  function Sort(xs: seq<string>): seq<string> {
    if |xs| == 0 then [] else Insert(xs[0], Sort(xs[1..]))
  }

  ghost predicate Sorted(xs: seq<string>) {
    forall i, j :: 0 <= i < j < |xs| ==> Leq(xs[i], xs[j])
  }

  lemma {:induction false} InsertContents(x: string, xs: seq<string>)
    ensures multiset(Insert(x, xs)) == multiset(xs) + multiset{x}
  {
    if |xs| > 0 && !Leq(x, xs[0]) {
      InsertContents(x, xs[1..]);
      assert xs == [xs[0]] + xs[1..];
    }
  }

  lemma SortedCons(x: string, xs: seq<string>)
    requires Sorted(xs) && forall y :: y in multiset(xs) ==> Leq(x, y)
    ensures Sorted([x] + xs)
  {
    assert forall i :: 0 <= i < |xs| ==> xs[i] in multiset(xs);
  }

  lemma {:induction false} InsertSorts(x: string, sorted: seq<string>)
    requires Sorted(sorted)
    ensures Sorted(Insert(x, sorted))
  {
    if |sorted| > 0 {
      LeqTotal(x, sorted[0]);
      LeqTotal(sorted[0], sorted[0]);
      if Leq(x, sorted[0]) {
        forall y | y in multiset(sorted) ensures Leq(x, y) {
          LeqTransitive(x, sorted[0], y);
        }
        SortedCons(x, sorted);
      } else {
        InsertSorts(x, sorted[1..]);
        InsertContents(x, sorted[1..]);
        assert forall y :: y in sorted[1..] ==> Leq(sorted[0], y);
        SortedCons(sorted[0], Insert(x, sorted[1..]));
      }
    }
  }

  lemma {:induction false} SortSorts(xs: seq<string>)
    ensures Sorted(Sort(xs)) && multiset(Sort(xs)) == multiset(xs)
  {
    if |xs| > 0 {
      SortSorts(xs[1..]);
      InsertSorts(xs[0], Sort(xs[1..]));
      InsertContents(xs[0], Sort(xs[1..]));
      assert xs == [xs[0]] + xs[1..];
    }
  }

  lemma {:induction false} SortedUnique(a: seq<string>, b: seq<string>)
    requires Sorted(a) && Sorted(b) && multiset(a) == multiset(b)
    ensures a == b
  {
    assert |a| == |multiset(a)| && |b| == |multiset(b)|;
    if |a| > 0 {
      assert a[0] in multiset(b) && b[0] in multiset(a);
      LeqTotal(a[0], b[0]);
      assert a[0] == b[0];
      assert a == [a[0]] + a[1..] && b == [b[0]] + b[1..];
      assert multiset(a[1..]) == multiset(a) - multiset{a[0]};
      SortedUnique(a[1..], b[1..]);
    }
  }

  lemma SortByContents(a: seq<string>, b: seq<string>)
    ensures Sort(a) == Sort(b) <==> multiset(a) == multiset(b)
  {
    SortSorts(a);
    SortSorts(b);
    if multiset(a) == multiset(b) {
      SortedUnique(Sort(a), Sort(b));
    }
  }

  // ----- the fingerprint -----

  function Messages(findings: seq<AuditFinding>): seq<string> {
    seq(|findings|, i requires 0 <= i < |findings| => findings[i].message)
  }

  function Numbers(ns: seq<nat>): seq<string> {
    seq(|ns|, i requires 0 <= i < |ns| => Render(ns[i]))
  }

  function Heads(items: seq<OpenItem>, n: nat): seq<string>
    requires n <= |items|
  {
    seq(n, i requires 0 <= i < n => items[i].summary)
  }

  function JoinHeads(heads: seq<string>): string {
    if |heads| == 0 then []
    else if |heads| == 1 then heads[0]
    else heads[0] + "; " + JoinHeads(heads[1..])
  }

  /** `summary_line` */
  function SummaryLine(open: OpenItems): string {
    if open.items == [] then
      if open.acceptancePending then "acceptance pending (awaiting audit)" else "no open items"
    else
      var shown := Shown(open.items);
      var extra := |open.items| - shown;
      "open items: " + JoinHeads(Heads(open.items, shown))
      + if extra == 0 then [] else "; " + AndMore(extra)
  }

  function Verdict(v: VerificationOutcome): string {
    match v
    case Pending => "pending"
    case Achieved => "achieved"
    case Rejected(findings) => "rejected:" + Join(Sort(Messages(findings)), '|')
  }

  function Changed(files: Option<seq<string>>): string {
    match files
    case None => "?"
    case Some(fs) => Join(fs, ',')
  }

  const LABELS := ["open=", "verdict=", "changed=", "exec=", "verified=", "deferred=", "tools="]

  function Values(open: OpenItems, v: VerificationOutcome, a: RoundActivity): (values: seq<string>)
    ensures |values| == 7
  {
    [SummaryLine(open), Verdict(v), Changed(a.changedFiles), Join(Numbers(a.execed), '+'),
     Join(Numbers(a.verified), '+'), Join(Numbers(a.deferred), '+'), Join(a.toolsCalled, ',')]
  }

  /** Each value behind its label. */
  function Labelled(labels: seq<string>, values: seq<string>): seq<string>
    requires |labels| == |values|
  {
    seq(|labels|, i requires 0 <= i < |labels| => labels[i] + values[i])
  }

  /** `round_fingerprint`: one labelled line for each component. */
  function RoundFingerprint(open: OpenItems, v: VerificationOutcome, a: RoundActivity): string {
    Join(Labelled(LABELS, Values(open, v, a)), '\n')
  }

  // ----- what a summary line tells apart -----

  /** "; " does not occur. */
  ghost predicate NoBreak(s: string) {
    forall i :: 0 < i < |s| ==> !(s[i - 1] == ';' && s[i] == ' ')
  }

  ghost predicate NoBreaks(parts: seq<string>) {
    forall i :: 0 <= i < |parts| ==> NoBreak(parts[i])
  }

  /** A break is not seen before the text ends. */
  lemma NoBreakBefore(a: string, rest: string, k: nat)
    requires NoBreak(a) && k + 1 < |a + "; " + rest|
    requires var s := a + "; " + rest; s[k] == ';' && s[k + 1] == ' '
    ensures k >= |a|
  {
    var s := a + "; " + rest;
    assert s[|a|] == ';';
    assert forall i :: 0 <= i < |a| ==> s[i] == a[i];
  }

  lemma BreakIsSeen(a: string, rest: string)
    ensures var s := a + "; " + rest; s[|a|] == ';' && s[|a| + 1] == ' '
  {
  }

  /** A text without a break ends where the first break begins. */
  lemma BreakUnique(a: string, x: string, b: string, y: string)
    requires NoBreak(a) && NoBreak(b) && a + "; " + x == b + "; " + y
    ensures a == b && x == y
  {
    var s := a + "; " + x;
    BreakIsSeen(a, x);
    BreakIsSeen(b, y);
    NoBreakBefore(a, x, |b|);
    NoBreakBefore(b, y, |a|);
    assert a == s[..|a|] && b == s[..|b|] && x == s[|a| + 2..] && y == s[|b| + 2..];
  }

  lemma NoBreakInside(a: string, b: string, y: string)
    requires NoBreak(a)
    ensures a != b + "; " + y
  {
    BreakIsSeen(b, y);
  }

  lemma {:induction false} JoinHeadsInjective(xs: seq<string>, ys: seq<string>)
    requires xs != [] && ys != [] && NoBreaks(xs) && NoBreaks(ys) && JoinHeads(xs) == JoinHeads(ys)
    ensures xs == ys
    decreases |xs|
  {
    if |xs| == 1 && |ys| > 1 {
      NoBreakInside(xs[0], ys[0], JoinHeads(ys[1..]));
    } else if |xs| > 1 && |ys| == 1 {
      NoBreakInside(ys[0], xs[0], JoinHeads(xs[1..]));
    } else if |xs| > 1 {
      BreakUnique(xs[0], JoinHeads(xs[1..]), ys[0], JoinHeads(ys[1..]));
      JoinHeadsInjective(xs[1..], ys[1..]);
      assert xs == [xs[0]] + xs[1..] && ys == [ys[0]] + ys[1..];
    }
  }

  lemma {:induction false} JoinHeadsSnoc(parts: seq<string>, last: string)
    requires parts != []
    ensures JoinHeads(parts + [last]) == JoinHeads(parts) + "; " + last
    decreases |parts|
  {
    assert (parts + [last])[1..] == parts[1..] + [last];
    if |parts| == 1 {
      assert parts[1..] == [];
    } else {
      JoinHeadsSnoc(parts[1..], last);
    }
  }

  function Shown(items: seq<OpenItem>): nat {
    if |items| < 5 then |items| else 5
  }

  function AndMore(n: nat): string {
    "\U{2026}and " + Render(n) + " more"
  }

  /** The parts of the line behind its prefix. */
  function Parts(items: seq<OpenItem>): seq<string> {
    Heads(items, Shown(items)) + if |items| > 5 then [AndMore(|items| - 5)] else []
  }

  lemma LineOfParts(open: OpenItems)
    requires open.items != []
    ensures SummaryLine(open) == "open items: " + JoinHeads(Parts(open.items))
  {
    var heads := Heads(open.items, Shown(open.items));
    if |open.items| > 5 {
      JoinHeadsSnoc(heads, AndMore(|open.items| - 5));
    } else {
      assert Parts(open.items) == heads;
    }
  }

  ghost predicate PlainItems(items: seq<OpenItem>) {
    forall i :: 0 <= i < |items| && i < 5 ==> NoBreak(items[i].summary)
  }

  lemma AndMoreHasNoBreak(n: nat)
    ensures NoBreak(AndMore(n))
  {
    RenderIsDigits(n);
    assert ';' !in Render(n) && ';' !in "\U{2026}and " && ';' !in " more";
    assert ';' !in AndMore(n);
  }

  lemma PartsHaveNoBreak(items: seq<OpenItem>)
    requires PlainItems(items)
    ensures NoBreaks(Parts(items))
  {
    if |items| > 5 {
      AndMoreHasNoBreak(|items| - 5);
    }
  }

  /** What a line shows: how many items there are, the summaries of the first five, and of
      no items whether acceptance is pending. */
  ghost predicate ShownAlike(open: OpenItems, open': OpenItems) {
    && |open.items| == |open'.items|
    && (forall i :: 0 <= i < |open.items| && i < 5 ==> open.items[i].summary == open'.items[i].summary)
    && (open.items == [] ==> open.acceptancePending == open'.acceptancePending)
  }

  lemma SamePartsShownAlike(items: seq<OpenItem>, items': seq<OpenItem>)
    requires Parts(items) == Parts(items')
    ensures |items| == |items'|
    ensures forall i :: 0 <= i < |items| && i < 5 ==> items[i].summary == items'[i].summary
  {
    var xs, ys := Parts(items), Parts(items');
    if |items| > 5 {
      assert xs[5] == AndMore(|items| - 5) && ys[5] == AndMore(|items'| - 5);
      AndMoreInjective(|items| - 5, |items'| - 5);
    }
    forall i | 0 <= i < |items| && i < 5 ensures items[i].summary == items'[i].summary {
      assert xs[i] == items[i].summary && ys[i] == items'[i].summary;
    }
  }

  lemma AndMoreInjective(m: nat, n: nat)
    requires AndMore(m) == AndMore(n)
    ensures m == n
  {
    var prefix, suffix := "\U{2026}and ", " more";
    var a, b := Render(m), Render(n);
    assert |prefix + a + suffix| == |prefix + b + suffix|;
    assert (prefix + a + suffix)[|prefix|..][..|a|] == a && (prefix + b + suffix)[|prefix|..][..|b|] == b;
    RenderInjective(m, n);
  }

  lemma ShownAlikeReadAlike(open: OpenItems, open': OpenItems)
    requires ShownAlike(open, open')
    ensures SummaryLine(open) == SummaryLine(open')
  {
    if open.items != [] {
      LineOfParts(open);
      LineOfParts(open');
      assert Parts(open.items) == Parts(open'.items);
    }
  }

  lemma SameLinesSameParts(open: OpenItems, open': OpenItems)
    requires open.items != [] && open'.items != [] && SummaryLine(open) == SummaryLine(open')
    ensures JoinHeads(Parts(open.items)) == JoinHeads(Parts(open'.items))
  {
    LineOfParts(open);
    LineOfParts(open');
    var prefix, s, t := "open items: ", JoinHeads(Parts(open.items)), JoinHeads(Parts(open'.items));
    assert (prefix + s)[|prefix|..] == s && (prefix + t)[|prefix|..] == t;
  }

  /** Of items whose summaries have no "; ", the lines are equal exactly if they show alike;
      items behind the fifth are only counted. */
  lemma SummaryLineTellsApart(open: OpenItems, open': OpenItems)
    requires PlainItems(open.items) && PlainItems(open'.items)
    ensures SummaryLine(open) == SummaryLine(open') <==> ShownAlike(open, open')
  {
    LineStarts(open);
    LineStarts(open');
    if ShownAlike(open, open') {
      ShownAlikeReadAlike(open, open');
    } else if open.items != [] && open'.items != [] && SummaryLine(open) == SummaryLine(open') {
      SameLinesSameParts(open, open');
      PartsHaveNoBreak(open.items);
      PartsHaveNoBreak(open'.items);
      JoinHeadsInjective(Parts(open.items), Parts(open'.items));
      SamePartsShownAlike(open.items, open'.items);
    }
  }

  lemma LineStarts(open: OpenItems)
    ensures SummaryLine(open) != []
    ensures SummaryLine(open)[0] == if open.items != [] then 'o' else if open.acceptancePending then 'a' else 'n'
  {
  }

  // ----- what a fingerprint tells apart -----

  /** What the fingerprint distinguishes: findings only by the multiset of their messages. */
  ghost predicate SameVerdict(v: VerificationOutcome, w: VerificationOutcome) {
    match v
    case Pending => w.Pending?
    case Achieved => w.Achieved?
    case Rejected(f) => w.Rejected? && multiset(Messages(f)) == multiset(Messages(w.findings))
  }

  ghost predicate SameComponents(
    open: OpenItems, v: VerificationOutcome, a: RoundActivity,
    open': OpenItems, v': VerificationOutcome, a': RoundActivity)
  {
    && SummaryLine(open) == SummaryLine(open')
    && SameVerdict(v, v')
    && a == a'
  }

  ghost predicate PlainList(texts: seq<string>, sep: char) {
    NonEmpty(texts) && Free(texts, sep) && Free(texts, '\n')
  }

  /** The texts hold no delimiter, and no file list is the one that reads as unreadable. */
  ghost predicate Plain(open: OpenItems, v: VerificationOutcome, a: RoundActivity) {
    && '\n' !in SummaryLine(open)
    && (v.Rejected? ==> PlainList(Messages(v.findings), '|'))
    && (a.changedFiles.Some? ==> PlainList(a.changedFiles.value, ',') && a.changedFiles.value != ["?"])
    && PlainList(a.toolsCalled, ',')
  }

  /** Reordering the findings of a rejection leaves the fingerprint as it is. */
  lemma FindingOrderIsIgnored(open: OpenItems, a: RoundActivity, f: seq<AuditFinding>, g: seq<AuditFinding>)
    requires multiset(Messages(f)) == multiset(Messages(g))
    ensures RoundFingerprint(open, Rejected(f), a) == RoundFingerprint(open, Rejected(g), a)
  {
    SortByContents(Messages(f), Messages(g));
  }

  lemma NumbersArePlain(ns: seq<nat>)
    ensures PlainList(Numbers(ns), '+')
  {
    forall i | 0 <= i < |ns| ensures Numbers(ns)[i] != [] && '+' !in Numbers(ns)[i] && '\n' !in Numbers(ns)[i] {
      RenderIsDigits(ns[i]);
    }
  }

  lemma NumbersInjective(ms: seq<nat>, ns: seq<nat>)
    requires Join(Numbers(ms), '+') == Join(Numbers(ns), '+')
    ensures ms == ns
  {
    NumbersArePlain(ms);
    NumbersArePlain(ns);
    JoinInjective(Numbers(ms), Numbers(ns), '+');
    forall i | 0 <= i < |ms| ensures ms[i] == ns[i] {
      assert Numbers(ms)[i] == Numbers(ns)[i];
      RenderInjective(ms[i], ns[i]);
    }
    assert |ms| == |Numbers(ms)| == |ns|;
  }

  lemma SortedMessagesArePlain(f: seq<AuditFinding>)
    requires PlainList(Messages(f), '|')
    ensures PlainList(Sort(Messages(f)), '|')
  {
    var s := Sort(Messages(f));
    SortSorts(Messages(f));
    forall i | 0 <= i < |s| ensures s[i] != [] && '|' !in s[i] && '\n' !in s[i] {
      assert s[i] in multiset(s);
      assert s[i] in Messages(f);
    }
  }

  lemma VerdictInjective(v: VerificationOutcome, w: VerificationOutcome)
    requires v.Rejected? ==> PlainList(Messages(v.findings), '|')
    requires w.Rejected? ==> PlainList(Messages(w.findings), '|')
    requires Verdict(v) == Verdict(w)
    ensures SameVerdict(v, w)
  {
    assert Verdict(v)[0] == Verdict(w)[0];
    if v.Rejected? {
      var prefix := "rejected:";
      var s, t := Join(Sort(Messages(v.findings)), '|'), Join(Sort(Messages(w.findings)), '|');
      assert (prefix + s)[|prefix|..] == s && (prefix + t)[|prefix|..] == t;
      SortedMessagesArePlain(v.findings);
      SortedMessagesArePlain(w.findings);
      JoinInjective(Sort(Messages(v.findings)), Sort(Messages(w.findings)), '|');
      SortByContents(Messages(v.findings), Messages(w.findings));
    }
  }

  lemma ChangedInjective(f: Option<seq<string>>, g: Option<seq<string>>)
    requires f.Some? ==> PlainList(f.value, ',') && f.value != ["?"]
    requires g.Some? ==> PlainList(g.value, ',') && g.value != ["?"]
    requires Changed(f) == Changed(g)
    ensures f == g
  {
    var unreadable := ["?"];
    assert Join(unreadable, ',') == "?";
    JoinInjective(if f.Some? then f.value else unreadable, if g.Some? then g.value else unreadable, ',');
  }

  lemma VerdictIsPlain(v: VerificationOutcome)
    requires v.Rejected? ==> PlainList(Messages(v.findings), '|')
    ensures '\n' !in Verdict(v)
  {
    if v.Rejected? {
      SortedMessagesArePlain(v.findings);
      JoinFree(Sort(Messages(v.findings)), '|', '\n');
    }
  }

  lemma ChangedIsPlain(files: Option<seq<string>>)
    requires files.Some? ==> PlainList(files.value, ',')
    ensures '\n' !in Changed(files)
  {
    if files.Some? {
      JoinFree(files.value, ',', '\n');
    }
  }

  lemma NumbersJoinPlain(ns: seq<nat>)
    ensures '\n' !in Join(Numbers(ns), '+')
  {
    NumbersArePlain(ns);
    JoinFree(Numbers(ns), '+', '\n');
  }

  lemma ValuesArePlain(open: OpenItems, v: VerificationOutcome, a: RoundActivity)
    requires Plain(open, v, a)
    ensures Free(Values(open, v, a), '\n')
  {
    VerdictIsPlain(v);
    ChangedIsPlain(a.changedFiles);
    NumbersJoinPlain(a.execed);
    NumbersJoinPlain(a.verified);
    NumbersJoinPlain(a.deferred);
    JoinFree(a.toolsCalled, ',', '\n');
  }

  lemma LabelledInjective(labels: seq<string>, xs: seq<string>, ys: seq<string>)
    requires |labels| == |xs| == |ys| && Free(labels, '\n') && Free(xs, '\n') && Free(ys, '\n')
    requires Join(Labelled(labels, xs), '\n') == Join(Labelled(labels, ys), '\n')
    ensures xs == ys
  {
    JoinInjective(Labelled(labels, xs), Labelled(labels, ys), '\n');
    forall i | 0 <= i < |xs| ensures xs[i] == ys[i] {
      assert Labelled(labels, xs)[i] == Labelled(labels, ys)[i];
      assert (labels[i] + xs[i])[|labels[i]|..] == xs[i] && (labels[i] + ys[i])[|labels[i]|..] == ys[i];
    }
  }

  /** Of rounds with delimiter-free, non-empty texts the fingerprints are equal exactly
      when every component is, findings being compared as a multiset of messages. */
  lemma FingerprintTellsApart(
    open: OpenItems, v: VerificationOutcome, a: RoundActivity,
    open': OpenItems, v': VerificationOutcome, a': RoundActivity)
    requires Plain(open, v, a) && Plain(open', v', a')
    ensures RoundFingerprint(open, v, a) == RoundFingerprint(open', v', a')
      <==> SameComponents(open, v, a, open', v', a')
  {
    if SameComponents(open, v, a, open', v', a') {
      if v.Rejected? {
        SortByContents(Messages(v.findings), Messages(v'.findings));
      }
    } else if RoundFingerprint(open, v, a) == RoundFingerprint(open', v', a') {
      EqualFingerprints(open, v, a, open', v', a');
    }
  }

  /** With summaries free of breaks as well, open items are told apart by what is shown of
      them: progress behind the fifth item leaves the fingerprint as it is. */
  lemma FingerprintTellsItemsApart(
    open: OpenItems, v: VerificationOutcome, a: RoundActivity,
    open': OpenItems, v': VerificationOutcome, a': RoundActivity)
    requires Plain(open, v, a) && Plain(open', v', a') && PlainItems(open.items) && PlainItems(open'.items)
    ensures RoundFingerprint(open, v, a) == RoundFingerprint(open', v', a')
      <==> ShownAlike(open, open') && SameVerdict(v, v') && a == a'
  {
    FingerprintTellsApart(open, v, a, open', v', a');
    SummaryLineTellsApart(open, open');
  }

  lemma EqualFingerprints(
    open: OpenItems, v: VerificationOutcome, a: RoundActivity,
    open': OpenItems, v': VerificationOutcome, a': RoundActivity)
    requires Plain(open, v, a) && Plain(open', v', a')
    requires RoundFingerprint(open, v, a) == RoundFingerprint(open', v', a')
    ensures SameComponents(open, v, a, open', v', a')
  {
    ValuesArePlain(open, v, a);
    ValuesArePlain(open', v', a');
    LabelsAreFree();
    LabelledInjective(LABELS, Values(open, v, a), Values(open', v', a'));
    var xs, ys := Values(open, v, a), Values(open', v', a');
    assert xs[0] == ys[0] && xs[1] == ys[1] && xs[2] == ys[2] && xs[3] == ys[3]
        && xs[4] == ys[4] && xs[5] == ys[5] && xs[6] == ys[6];
    VerdictInjective(v, v');
    ChangedInjective(a.changedFiles, a'.changedFiles);
    NumbersInjective(a.execed, a'.execed);
    NumbersInjective(a.verified, a'.verified);
    NumbersInjective(a.deferred, a'.deferred);
    JoinInjective(a.toolsCalled, a'.toolsCalled, ',');
  }

  lemma LabelsAreFree()
    ensures Free(LABELS, '\n')
  {
  }
}
