/** Cleaning the compaction model's raw output: `format_compact_summary` and its helpers.
    Everything is stated for any vocabulary of control tags of the right shape;
    SOURCE_TAGS is the one the source uses. */
module CompactSummary {
  import opened Wrappers
  import opened Text

  const ZERO_WIDTH_SPACE := '\U{200B}'
  const THREE_NEWLINES := "\n\n\n"
  const TWO_NEWLINES := "\n\n"

  /** Opens with `<`, has no other `<`, no zero-width space, no newline, and no blank end. */
  predicate TokenShaped(t: string) {
    Headed(t, '<') && |t| >= 2 && ZERO_WIDTH_SPACE !in t && '\n' !in t && !IsWhitespace(t[|t| - 1])
  }

  type Token = t: string | TokenShaped(t) witness "<a"

  datatype Tags = Tags(
    analysisOpen: Token,
    analysisClose: Token,
    summaryOpen: Token,
    summaryClose: Token,
    heading: string,        // what replaces the summary's opening tag
    controls: seq<Token>)   // the tokens to defuse, in order

  predicate WellFormed(tags: Tags) {
    && tags.analysisOpen in tags.controls
    && tags.analysisClose in tags.controls
    && tags.summaryOpen in tags.controls
    && tags.summaryClose in tags.controls
    && tags.analysisOpen[1] != tags.summaryOpen[1]
    && tags.analysisOpen[1] != tags.analysisClose[1]
  }

  type TagSet = t: Tags | WellFormed(t) witness SOURCE_TAGS

  const ANALYSIS_OPEN: Token := "<analysis>"
  const ANALYSIS_CLOSE: Token := "</analysis>"
  const SUMMARY_OPEN: Token := "<summary>"
  const SUMMARY_CLOSE: Token := "</summary>"
  const REQUEST_OPEN: Token := "<summary_request>"
  const REQUEST_CLOSE: Token := "</summary_request>"

  const SOURCE_TAGS := Tags(
    ANALYSIS_OPEN, ANALYSIS_CLOSE, SUMMARY_OPEN, SUMMARY_CLOSE, "Summary:\n",
    [SUMMARY_CLOSE, SUMMARY_OPEN, ANALYSIS_CLOSE, ANALYSIS_OPEN, REQUEST_CLOSE, REQUEST_OPEN])

  // ----- step 1: drop leading scratchpad blocks -----

  /** Whether the analysis tag at `start` comes before the summary, or at its very start. */
  predicate IsLeading(tags: TagSet, s: string, start: nat)
    requires start <= |s|
  {
    match Find(s, tags.summaryOpen)
    case None => Blank(s[..start])
    case Some(sp) =>
      start < sp || (sp + |tags.summaryOpen| <= start && Blank(s[sp + |tags.summaryOpen|..start]))
  }

  /** The slice taken when the summary tag is not after the analysis tag is in range. */
  lemma SummaryBeforeAnalysis(tags: TagSet, s: string, sp: nat, start: nat)
    requires OccursAt(s, tags.summaryOpen, sp) && OccursAt(s, tags.analysisOpen, start) && sp <= start
    ensures sp + |tags.summaryOpen| <= start
  {
    assert s[sp..][1] == tags.summaryOpen[1] && s[start..][1] == tags.analysisOpen[1];
    HeadedApart(s, '<', tags.summaryOpen, sp, tags.analysisOpen, start);
  }

  function StripAnalysis(tags: TagSet, s: string): string
    decreases |s|
  {
    match Find(s, tags.analysisOpen)
    case None => s
    case Some(start) =>
      if !IsLeading(tags, s, start) then s
      else
        match Find(s[start..], tags.analysisClose)
        case Some(rel) => StripAnalysis(tags, s[..start] + s[start + rel + |tags.analysisClose|..])
        case None =>
          var dropTo := match Find(s[start..], tags.summaryOpen)
            case Some(rel) => start + rel
            case None => |s|;
          s[..start] + s[dropTo..]
  }

  // ----- step 2: unwrap the summary block -----

  function TrimLeadMarks(s: string): string {
    if s != [] && s[0] in {'#', '*', '-', '>', ' ', '\t'} then TrimLeadMarks(s[1..]) else s
  }

  predicate LeadsWithNumber(s: string) {
    var lead := TrimLeadMarks(s);
    lead != [] && '0' <= lead[0] <= '9'
  }

  /** A summary tag at the very start is taken off. */
  function WithoutWrapper(tags: TagSet, s: string): string {
    if tags.summaryOpen <= s then TrimStart(s[|tags.summaryOpen|..]) else s
  }

  /** `strip_leading_scratchpad`, once trimmed. */
  function Peeled(tags: TagSet, s: string): string {
    if LeadsWithNumber(s) then WithoutWrapper(tags, s)
    else match RFind(s, tags.analysisClose)
      case None => WithoutWrapper(tags, s)
      case Some(pos) => WithoutWrapper(tags, TrimStart(s[pos + |tags.analysisClose|..]))
  }

  function StripLeadingScratchpad(tags: TagSet, inner: string): string {
    Peeled(tags, Trim(inner))
  }

  /** The slice between a summary tag and a later closing tag is in range. */
  lemma SummaryTagsApart(tags: TagSet, s: string, start: nat, end: nat)
    requires OccursAt(s, tags.summaryOpen, start) && OccursAt(s, tags.summaryClose, end) && start < end
    ensures start + |tags.summaryOpen| <= end
  {
    HeadedApart(s, '<', tags.summaryOpen, start, tags.summaryClose, end);
  }

  /** Unwrapping asks for the closing tag to begin behind the opening one's start; it then
      begins behind its end. */
  lemma UnwrapGuard(tags: TagSet, s: string, start: nat, end: nat)
    requires Find(s, tags.summaryOpen) == Some(start) && RFind(s, tags.summaryClose) == Some(end)
    ensures end > start <==> end >= start + |tags.summaryOpen|
  {
    FindIsFirst(s, tags.summaryOpen);
    RFindIsLast(s, tags.summaryClose);
    if start < end {
      SummaryTagsApart(tags, s, start, end);
    }
  }

  /** The summary between tags at `start` and `end`, peeled and behind the heading. */
  function WithHeading(tags: TagSet, s: string, start: nat, end: nat): string
    requires start + |tags.summaryOpen| <= end && end + |tags.summaryClose| <= |s|
  {
    s[..start] + tags.heading
    + StripLeadingScratchpad(tags, Trim(s[start + |tags.summaryOpen|..end]))
    + s[end + |tags.summaryClose|..]
  }

  function UnwrapSummary(tags: TagSet, s: string): string {
    match Find(s, tags.summaryOpen)
    case None => s
    case Some(start) =>
      match RFind(s, tags.summaryClose)
      case None => s
      case Some(end) =>
        if end < start + |tags.summaryOpen| then s
        else WithHeading(tags, s, start, end)
  }

  // ----- step 3: defuse echoed tokens, collapse blank lines, trim -----

  function Defused(token: Token): string {
    [token[0], ZERO_WIDTH_SPACE] + token[1..]
  }

  /** `neutralize_compaction_control_tokens` */
  function Neutralize(s: string, tokens: seq<Token>): string
    decreases |tokens|
  {
    if |tokens| == 0 then s
    else Neutralize(ReplaceAll(s, tokens[0], Defused(tokens[0])), tokens[1..])
  }

  ghost function Collapse(s: string): (r: string)
    ensures !Contains(r, THREE_NEWLINES)
    decreases |s|
  {
    ReplaceShrinks(s, THREE_NEWLINES, TWO_NEWLINES);
    if Contains(s, THREE_NEWLINES) then Collapse(ReplaceAll(s, THREE_NEWLINES, TWO_NEWLINES)) else s
  }

  ghost function Tidy(tags: TagSet, s: string): string {
    Trim(Collapse(Neutralize(s, tags.controls)))
  }

  /** What `format_compact_summary` computes. */
  ghost function Formatted(tags: TagSet, s: string): string {
    Tidy(tags, UnwrapSummary(tags, StripAnalysis(tags, s)))
  }

  // ----- the method, as the source runs it -----

  method FormatCompactSummary(tags: TagSet, summary: string) returns (result: string)
    ensures result == Formatted(tags, summary)
  {
    result := DropScratchpad(tags, summary);
    result := UnwrapSummary(tags, result);
    result := Neutralize(result, tags.controls);
    result := CollapseBlankLines(result);
    result := Trim(result);
  }

  /** What is left of `whole` is still to be stripped as `s`. */
  ghost predicate StripsAs(tags: TagSet, whole: string, s: string) {
    StripAnalysis(tags, whole) == StripAnalysis(tags, s)
  }

  lemma StripCloses(tags: TagSet, whole: string, s: string, start: nat, rel: nat)
    requires StripsAs(tags, whole, s) && Find(s, tags.analysisOpen) == Some(start) && IsLeading(tags, s, start)
    requires Find(s[start..], tags.analysisClose) == Some(rel)
    ensures StripsAs(tags, whole, s[..start] + s[start + rel + |tags.analysisClose|..])
  {
  }

  lemma StripDrops(tags: TagSet, whole: string, s: string, start: nat)
    requires StripsAs(tags, whole, s) && Find(s, tags.analysisOpen) == Some(start) && IsLeading(tags, s, start)
    requires Find(s[start..], tags.analysisClose).None?
    ensures var next := Find(s[start..], tags.summaryOpen);
      StripAnalysis(tags, whole) == s[..start] + s[if next.Some? then start + next.value else |s|..]
  {
  }

  lemma StripEnds(tags: TagSet, whole: string, s: string)
    requires StripsAs(tags, whole, s)
    requires var open := Find(s, tags.analysisOpen); open.None? || !IsLeading(tags, s, open.value)
    ensures StripAnalysis(tags, whole) == s
  {
  }

  method DropScratchpad(tags: TagSet, summary: string) returns (result: string)
    ensures result == StripAnalysis(tags, summary)
  {
    result := summary;
    var open := Find(result, tags.analysisOpen);
    while open.Some? && IsLeading(tags, result, open.value)
      invariant open == Find(result, tags.analysisOpen) && StripsAs(tags, summary, result)
      decreases |result|
    {
      var start := open.value;
      var close := Find(result[start..], tags.analysisClose);
      if close.None? {
        StripDrops(tags, summary, result, start);
        var next := Find(result[start..], tags.summaryOpen);
        var dropTo := if next.Some? then start + next.value else |result|;
        result := result[..start] + result[dropTo..];
        return;
      }
      StripCloses(tags, summary, result, start, close.value);
      var end := start + close.value + |tags.analysisClose|;
      result := result[..start] + result[end..];
      open := Find(result, tags.analysisOpen);
    }
    StripEnds(tags, summary, result);
  }

  method CollapseBlankLines(text: string) returns (result: string)
    ensures result == Collapse(text)
  {
    result := text;
    var blankLines := Find(result, THREE_NEWLINES);
    FindIsFirst(result, THREE_NEWLINES);
    while blankLines.Some?
      invariant Collapse(result) == Collapse(text)
      invariant blankLines.Some? <==> Contains(result, THREE_NEWLINES)
      decreases |result|
    {
      ReplaceShrinks(result, THREE_NEWLINES, TWO_NEWLINES);
      result := ReplaceAll(result, THREE_NEWLINES, TWO_NEWLINES);
      blankLines := Find(result, THREE_NEWLINES);
      FindIsFirst(result, THREE_NEWLINES);
    }
  }

  // ----- what the result looks like -----

  /** No live control token, no triple newline, trimmed. */
  ghost predicate Clean(tags: TagSet, s: string) {
    && (forall t <- tags.controls :: !Contains(s, t))
    && !Contains(s, THREE_NEWLINES)
    && Trimmed(s)
  }

  /** A token found in a defused one and what follows lies in what follows. */
  lemma BehindDefused(pat: Token, tail: string, t: Token, i: nat)
    requires OccursAt(Defused(pat) + tail, t, i)
    ensures i >= |Defused(pat)| && OccursAt(tail, t, i - |Defused(pat)|)
  {
    var q := Defused(pat);
    var r := q + tail;
    assert r[i] == t[0] && r[i + 1] == t[1];
    assert forall k :: 0 < k < |q| ==> q[k] != '<';
    assert q[1] == ZERO_WIDTH_SPACE;
    assert r[i..] == tail[i - |q|..];
  }

  /** After replacing `pat` by its defused form, a token is present only if it was
      present before and is not `pat`. */
  lemma {:induction false} DefusingRemoves(s: string, pat: Token, t: Token)
    requires Contains(ReplaceAll(s, pat, Defused(pat)), t)
    ensures Contains(s, t) && t != pat
    decreases |s|
  {
    var r := ReplaceAll(s, pat, Defused(pat));
    var i: nat :| OccursAt(r, t, i);
    if pat <= s {
      BehindDefused(pat, ReplaceAll(s[|pat|..], pat, Defused(pat)), t, i);
      DefusingRemoves(s[|pat|..], pat, t);
      ContainsBehind(s, t, |pat|);
    } else if s != [] {
      var tail := ReplaceAll(s[1..], pat, Defused(pat));
      assert r == [s[0]] + tail;
      if i == 0 {
        DefusedAtStart(s, pat, t);
      } else {
        assert r[i..] == tail[i - 1..];
        assert OccursAt(tail, t, i - 1);
        DefusingRemoves(s[1..], pat, t);
        ContainsBehind(s, t, 1);
      }
    }
  }

  lemma ContainsBehind(s: string, t: string, k: nat)
    requires k <= |s| && Contains(s[k..], t)
    ensures Contains(s, t)
  {
    assert s[k..] == s[k..|s|];
    ContainsPart(s, t, k, |s|);
  }

  lemma PrefixFromTail(s: string, t: string)
    requires s != [] && t != [] && s[0] == t[0] && t[1..] <= s[1..]
    ensures t <= s
  {
    assert forall k :: 0 < k < |t| ==> t[k] == t[1..][k - 1] == s[1..][k - 1] == s[k];
  }

  lemma DefusedAtStart(s: string, pat: Token, t: Token)
    requires s != [] && !(pat <= s) && t <= ReplaceAll(s, pat, Defused(pat))
    ensures Contains(s, t) && t != pat
  {
    var tail := ReplaceAll(s[1..], pat, Defused(pat));
    assert ReplaceAll(s, pat, Defused(pat)) == [s[0]] + tail;
    assert t[1..] <= tail;
    ReplaceKeepsPrefixes(s[1..], pat, Defused(pat), t[1..]);
    PrefixFromTail(s, t);
    assert s[0..] == s;
    assert OccursAt(s, t, 0);
  }

  lemma {:induction false} NeutralizeRemoves(s: string, tokens: seq<Token>, t: Token)
    requires Contains(Neutralize(s, tokens), t)
    ensures Contains(s, t) && t !in tokens
    decreases |tokens|
  {
    if |tokens| != 0 {
      NeutralizeRemoves(ReplaceAll(s, tokens[0], Defused(tokens[0])), tokens[1..], t);
      DefusingRemoves(s, tokens[0], t);
    }
  }

  lemma {:induction false} CollapseAddsNoToken(s: string, t: Token)
    requires Contains(Collapse(s), t)
    ensures Contains(s, t)
    decreases |s|
  {
    if Contains(s, THREE_NEWLINES) {
      ReplaceShrinks(s, THREE_NEWLINES, TWO_NEWLINES);
      CollapseAddsNoToken(ReplaceAll(s, THREE_NEWLINES, TWO_NEWLINES), t);
      ReplaceAddsNo(s, THREE_NEWLINES, TWO_NEWLINES, t);
    }
  }

  lemma TidyIsClean(tags: TagSet, s: string)
    ensures Clean(tags, Tidy(tags, s))
  {
    var n := Neutralize(s, tags.controls);
    var c := Collapse(n);
    forall t | t in tags.controls ensures !Contains(Trim(c), t) {
      if Contains(Trim(c), t) {
        TrimContains(c, t);
        CollapseAddsNoToken(n, t);
        NeutralizeRemoves(s, tags.controls, t);
      }
    }
    if Contains(Trim(c), THREE_NEWLINES) {
      TrimContains(c, THREE_NEWLINES);
    }
    var i, j := TrimSlice(c);
  }

  lemma {:induction false} NeutralizeNothing(s: string, tokens: seq<Token>)
    requires forall t <- tokens :: !Contains(s, t)
    ensures Neutralize(s, tokens) == s
    decreases |tokens|
  {
    if |tokens| != 0 {
      ReplaceNothing(s, tokens[0], Defused(tokens[0]));
      NeutralizeNothing(s, tokens[1..]);
    }
  }

  lemma CleanIsFixed(tags: TagSet, s: string)
    requires Clean(tags, s)
    ensures Formatted(tags, s) == s
  {
    FindIsFirst(s, tags.analysisOpen);
    FindIsFirst(s, tags.summaryOpen);
    CleanIsTidy(tags, s);
  }

  lemma CleanIsTidy(tags: TagSet, s: string)
    requires Clean(tags, s)
    ensures Tidy(tags, s) == s
  {
    NeutralizeNothing(s, tags.controls);
    TrimFixesTrimmed(s);
  }

  /** The output is always clean, and cleaning leaves exactly the clean strings alone;
      in particular it is idempotent. */
  lemma FormattedIsClean(tags: TagSet, s: string)
    ensures Clean(tags, Formatted(tags, s))
    ensures Formatted(tags, s) == s <==> Clean(tags, s)
    ensures Formatted(tags, Formatted(tags, s)) == Formatted(tags, s)
  {
    TidyIsClean(tags, UnwrapSummary(tags, StripAnalysis(tags, s)));
    CleanIsFixed(tags, Formatted(tags, s));
    if Clean(tags, s) {
      CleanIsFixed(tags, s);
    }
  }

  // ----- what is kept and what is dropped -----

  /** A leading scratchpad block is dropped whole, whatever it contains: the result
      does not depend on it. */
  lemma ScratchpadNeverLeaks(tags: TagSet, blank: string, scratch: string, rest: string)
    requires Blank(blank) && !Contains(scratch, tags.analysisClose)
    ensures Formatted(tags, blank + tags.analysisOpen + scratch + tags.analysisClose + rest)
         == Formatted(tags, blank + rest)
  {
    LeadingBlockIsStripped(tags, blank, scratch, rest);
  }

  lemma LeadingBlockIsStripped(tags: TagSet, blank: string, scratch: string, rest: string)
    requires Blank(blank) && !Contains(scratch, tags.analysisClose)
    ensures StripAnalysis(tags, blank + tags.analysisOpen + scratch + tags.analysisClose + rest)
         == StripAnalysis(tags, blank + rest)
  {
    AnalysisAfterBlankLeads(tags, blank, scratch + tags.analysisClose + rest);
    BlockIsStripped(tags, blank, scratch, rest);
  }

  /** A closed block is cut if it is the first and leads. */
  lemma BlockIsStripped(tags: TagSet, before: string, scratch: string, rest: string)
    requires !Contains(scratch, tags.analysisClose)
    requires var s := before + tags.analysisOpen + (scratch + tags.analysisClose + rest);
      Find(s, tags.analysisOpen) == Some(|before|) && IsLeading(tags, s, |before|)
    ensures StripAnalysis(tags, before + tags.analysisOpen + scratch + tags.analysisClose + rest)
         == StripAnalysis(tags, before + rest)
  {
    var tail := scratch + tags.analysisClose + rest;
    var s := before + tags.analysisOpen + tail;
    assert s == before + tags.analysisOpen + scratch + tags.analysisClose + rest;
    assert s[|before|..] == tags.analysisOpen + tail && s[..|before|] == before;
    assert s[|before| + |tags.analysisOpen + scratch| + |tags.analysisClose|..] == rest;
    CloseAfterScratch(tags, scratch, rest);
  }

  lemma TokenAt(s: string, t: Token, i: nat)
    ensures OccursAt(s, t, i) ==> i + 1 < |s| && s[i] == '<' && s[i + 1] == t[1]
  {
    if OccursAt(s, t, i) {
      assert s[i..][0] == s[i] && s[i..][1] == s[i + 1];
    }
  }

  lemma OccursInFront(pre: string, rest: string, t: Token, i: nat)
    requires OccursAt(pre + rest, t, i) && i + |t| <= |pre|
    ensures OccursAt(pre, t, i)
  {
    assert (pre + rest)[i..][..|t|] == pre[i..][..|t|];
  }

  /** An analysis tag in a text, a summary tag and blanks lies in the text. */
  lemma AnalysisIsInFront(tags: TagSet, pre: string, blank: string, i: nat)
    requires Blank(blank)
    ensures OccursAt(pre + (tags.summaryOpen + blank), tags.analysisOpen, i) ==> OccursAt(pre, tags.analysisOpen, i)
  {
    var open := tags.summaryOpen;
    var a := pre + (open + blank);
    TokenAt(a, tags.analysisOpen, i);
    if i < |pre| {
      assert a[|pre|..] == open + blank;
      if OccursAt(a, tags.analysisOpen, i) {
        HeadedApart(a, '<', tags.analysisOpen, i, open, |pre|);
        OccursInFront(pre, open + blank, tags.analysisOpen, i);
      }
    } else if i == |pre| {
      assert a[i + 1] == open[1];
    } else if i < |pre| + |open| {
      assert a[i] == open[1..][i - |pre| - 1];
    } else if i < |a| {
      assert a[i] == blank[i - |pre| - |open|];
    }
  }

  lemma NoAnalysisBefore(tags: TagSet, pre: string, blank: string)
    requires !Contains(pre, tags.analysisOpen) && Blank(blank)
    ensures !Contains(pre + tags.summaryOpen + blank, tags.analysisOpen)
  {
    Regroup(pre, tags.summaryOpen, blank);
    forall i: nat ensures !OccursAt(pre + (tags.summaryOpen + blank), tags.analysisOpen, i) {
      AnalysisIsInFront(tags, pre, blank, i);
    }
  }

  /** The second path: a block at the very start of the summary is dropped whole too,
      whatever stands before the summary. */
  lemma ScratchpadInSummaryNeverLeaks(tags: TagSet, pre: string, blank: string, scratch: string, rest: string)
    requires !Contains(pre, tags.analysisOpen) && !Contains(pre, tags.summaryOpen) && Blank(blank)
    requires !Contains(scratch, tags.analysisClose)
    ensures var before := pre + tags.summaryOpen + blank;
      Formatted(tags, before + tags.analysisOpen + scratch + tags.analysisClose + rest)
        == Formatted(tags, before + rest)
  {
    var before, tail := pre + tags.summaryOpen + blank, scratch + tags.analysisClose + rest;
    AnalysisInSummaryLeads(tags, pre, blank, tail);
    BlockIsStripped(tags, before, scratch, rest);
  }

  lemma AnalysisInSummaryLeads(tags: TagSet, pre: string, blank: string, tail: string)
    requires !Contains(pre, tags.analysisOpen) && !Contains(pre, tags.summaryOpen) && Blank(blank)
    ensures var before := pre + tags.summaryOpen + blank;
      var s := before + tags.analysisOpen + tail;
      Find(s, tags.analysisOpen) == Some(|before|) && IsLeading(tags, s, |before|)
  {
    var before := pre + tags.summaryOpen + blank;
    var s := before + tags.analysisOpen + tail;
    NoAnalysisBefore(tags, pre, blank);
    FindAfter(before, tags.analysisOpen, '<', tail);
    assert s == pre + tags.summaryOpen + (blank + tags.analysisOpen + tail);
    FindAfter(pre, tags.summaryOpen, '<', blank + tags.analysisOpen + tail);
    assert s[|pre| + |tags.summaryOpen|..|before|] == blank;
  }

  lemma CloseAfterScratch(tags: TagSet, scratch: string, rest: string)
    requires !Contains(scratch, tags.analysisClose)
    ensures Find(tags.analysisOpen + (scratch + tags.analysisClose + rest), tags.analysisClose)
         == Some(|tags.analysisOpen + scratch|)
  {
    var body := tags.analysisOpen + scratch;
    OpenTagAddsNoClose(tags, scratch);
    FindAfter(body, tags.analysisClose, '<', rest);
    assert body + tags.analysisClose + rest == tags.analysisOpen + (scratch + tags.analysisClose + rest);
  }

  lemma AnalysisAfterBlankLeads(tags: TagSet, blank: string, tail: string)
    requires Blank(blank)
    ensures var s := blank + tags.analysisOpen + tail;
      Find(s, tags.analysisOpen) == Some(|blank|) && IsLeading(tags, s, |blank|)
  {
    var s := blank + tags.analysisOpen + tail;
    BlankHasNoTag(blank, tags.analysisOpen);
    FindAfter(blank, tags.analysisOpen, '<', tail);
    NoSummaryBefore(tags, blank, tail);
    FindIsFirst(s, tags.summaryOpen);
    assert s[..|blank|] == blank;
  }

  lemma NoSummaryBefore(tags: TagSet, blank: string, tail: string)
    requires Blank(blank)
    ensures forall sp: nat :: sp <= |blank| ==> !OccursAt(blank + tags.analysisOpen + tail, tags.summaryOpen, sp)
  {
    var s := blank + tags.analysisOpen + tail;
    assert '<' !in blank;
    forall sp: nat | sp <= |blank| ensures !OccursAt(s, tags.summaryOpen, sp) {
      assert s[sp..][0] == s[sp];
      if sp < |blank| {
        assert s[sp] == blank[sp];
      } else {
        assert s[sp..][1] == tags.analysisOpen[1];
      }
    }
  }

  lemma BlankHasNoTag(blank: string, tag: Token)
    requires Blank(blank)
    ensures !Contains(blank, tag)
  {
    assert '<' !in blank;
    forall i: nat | i < |blank| ensures !OccursAt(blank, tag, i) {
      assert blank[i] in blank;
      assert blank[i..][0] == blank[i];
    }
  }

  lemma OpenTagAddsNoClose(tags: TagSet, scratch: string)
    requires !Contains(scratch, tags.analysisClose)
    ensures !Contains(tags.analysisOpen + scratch, tags.analysisClose)
  {
    var open := tags.analysisOpen;
    var body := open + scratch;
    forall i: nat ensures !OccursAt(body, tags.analysisClose, i) {
      if |open| <= i <= |body| {
        assert body[i..] == scratch[i - |open|..];
        assert !OccursAt(scratch, tags.analysisClose, i - |open|);
      } else if i < |open| {
        assert body[i..][0] == open[i];
        assert i > 0 ==> open[i] == open[1..][i - 1];
        assert i == 0 ==> body[i..][1] == open[1];
      }
    }
  }

  /** A summary with what stands before and behind it. */
  ghost function Around(tags: TagSet, pre: string, inner: string, post: string): string {
    pre + tags.summaryOpen + inner + tags.summaryClose + post
  }

  /** Its tags are the first opening and the last closing one. */
  ghost predicate Outermost(tags: TagSet, pre: string, post: string) {
    !Contains(pre, tags.summaryOpen) && !Contains(post, tags.summaryClose)
  }

  /** A summary that already leads with a numbered section keeps its whole body, even
      when the body quotes the control tags, and what stands around it: all is only tidied. */
  lemma NumberedSummaryIsKept(tags: TagSet, pre: string, inner: string, post: string)
    requires Outermost(tags, pre, post) && !Contains(pre, tags.analysisOpen)
    requires LeadsWithNumber(Trim(inner))
    ensures Formatted(tags, Around(tags, pre, inner, post)) == Tidy(tags, pre + tags.heading + Trim(inner) + post)
  {
    NoLeadingAnalysis(tags, pre, inner, post);
    NumberedBodyIsUnwrapped(tags, pre, inner, post);
  }

  lemma SummaryParts(tags: TagSet, pre: string, inner: string, post: string)
    requires Outermost(tags, pre, post)
    ensures var s, start, end := Around(tags, pre, inner, post), |pre|, |pre + tags.summaryOpen + inner|;
      && Find(s, tags.summaryOpen) == Some(start) && RFind(s, tags.summaryClose) == Some(end)
      && end + |tags.summaryClose| <= |s|
      && s[start + |tags.summaryOpen|..end] == inner && s[..start] == pre && s[end + |tags.summaryClose|..] == post
  {
    var s := Around(tags, pre, inner, post);
    assert s == pre + tags.summaryOpen + (inner + tags.summaryClose + post);
    FindAfter(pre, tags.summaryOpen, '<', inner + tags.summaryClose + post);
    RFindBefore(pre + tags.summaryOpen + inner, tags.summaryClose, '<', post);
  }

  /** What stands between the tags is trimmed before it is peeled, to the same effect. */
  lemma PeelingTrims(tags: TagSet, inner: string)
    ensures StripLeadingScratchpad(tags, Trim(inner)) == StripLeadingScratchpad(tags, inner)
  {
    var i, j := TrimSlice(inner);
    TrimFixesTrimmed(Trim(inner));
  }

  /** A summary is peeled and put behind the heading, where it stands. */
  lemma SummaryIsUnwrapped(tags: TagSet, pre: string, inner: string, post: string)
    requires Outermost(tags, pre, post)
    ensures UnwrapSummary(tags, Around(tags, pre, inner, post))
         == pre + tags.heading + StripLeadingScratchpad(tags, inner) + post
  {
    var s, start, end := Around(tags, pre, inner, post), |pre|, |pre + tags.summaryOpen + inner|;
    SummaryParts(tags, pre, inner, post);
    PeelingTrims(tags, inner);
    assert UnwrapSummary(tags, s) == WithHeading(tags, s, start, end);
  }

  lemma NumberedBodyIsUnwrapped(tags: TagSet, pre: string, inner: string, post: string)
    requires Outermost(tags, pre, post) && LeadsWithNumber(Trim(inner))
    ensures UnwrapSummary(tags, Around(tags, pre, inner, post)) == pre + tags.heading + Trim(inner) + post
  {
    SummaryIsUnwrapped(tags, pre, inner, post);
    NumberedIsNotATag(Trim(inner));
  }

  /** A header that ends at an orphan closing tag is peeled off with everything before it. */
  lemma OrphanHeaderIsPeeled(tags: TagSet, header: string, body: string)
    requires !Contains(body, tags.analysisClose)
    requires !LeadsWithNumber(Trim(header + tags.analysisClose + body))
    ensures StripLeadingScratchpad(tags, header + tags.analysisClose + body) == WithoutWrapper(tags, Trim(body))
  {
    var close, tail := tags.analysisClose, TrimEnd(body);
    TrimmedHeader(tags, header, body);
    if Contains(tail, close) {
      TrimEndDrops(body);
      assert body[0..|tail|] == tail;
      ContainsPart(body, close, 0, |tail|);
    }
    RFindBefore(TrimStart(header), close, '<', tail);
    assert (TrimStart(header) + close + tail)[|TrimStart(header)| + |close|..] == tail;
  }

  /** Trimming stops at a tag from either side. */
  lemma TrimmedHeader(tags: TagSet, header: string, body: string)
    ensures Trim(header + tags.analysisClose + body) == TrimStart(header) + tags.analysisClose + TrimEnd(body)
  {
    var close := tags.analysisClose;
    TrimEndBehind(header + close, body);
    TrimmedFront(header, close, TrimEnd(body));
  }

  lemma TrimmedFront(header: string, close: Token, tail: string)
    ensures TrimStart(header + close + tail) == TrimStart(header) + close + tail
  {
    assert close[0] in close;
    if Blank(header) {
      TrimStartDropsBlank(header, close + tail);
      Regroup(header, close, tail);
      TrimStartDropsBlank(header, []);
      assert header + [] == header && [] + close + tail == close + tail;
    } else {
      TrimStartKeeps(header, close + tail);
      Regroup(header, close, tail);
      Regroup(TrimStart(header), close, tail);
    }
  }

  /** The third path: of a summary that does not lead with a number, in a text without an
      opening analysis tag, nothing up to its last closing analysis tag is kept. */
  lemma OrphanHeaderNeverLeaks(tags: TagSet, pre: string, header: string, body: string, post: string)
    requires Outermost(tags, pre, post) && !Contains(body, tags.analysisClose)
    requires !LeadsWithNumber(Trim(header + tags.analysisClose + body))
    requires !Contains(Around(tags, pre, header + tags.analysisClose + body, post), tags.analysisOpen)
    ensures Formatted(tags, Around(tags, pre, header + tags.analysisClose + body, post))
         == Tidy(tags, pre + tags.heading + WithoutWrapper(tags, Trim(body)) + post)
  {
    FindIsFirst(Around(tags, pre, header + tags.analysisClose + body, post), tags.analysisOpen);
    SummaryIsUnwrapped(tags, pre, header + tags.analysisClose + body, post);
    OrphanHeaderIsPeeled(tags, header, body);
  }

  /** An analysis tag is not in front of the summary's tag, nor does it overlap it. */
  lemma AnalysisIsBehindTag(tags: TagSet, pre: string, behind: string, start: nat)
    requires !Contains(pre, tags.analysisOpen)
    requires OccursAt(pre + (tags.summaryOpen + behind), tags.analysisOpen, start)
    ensures |pre| + |tags.summaryOpen| <= start
  {
    var rest := tags.summaryOpen + behind;
    var s := pre + rest;
    assert s[|pre|..] == rest && OccursAt(s, tags.summaryOpen, |pre|);
    if start < |pre| {
      HeadedApart(s, '<', tags.analysisOpen, start, tags.summaryOpen, |pre|);
      OccursInFront(pre, rest, tags.analysisOpen, start);
    }
    SummaryBeforeAnalysis(tags, s, |pre|, start);
  }

  /** Nor does a tag begin in blanks, or at a character that begins none. */
  lemma TagIsBehindVisible(inner: string, i: nat, k: nat)
    requires i < |inner| && Blank(inner[..i]) && inner[i] != '<' && (k < |inner| ==> inner[k] == '<')
    ensures i < k
  {
    assert '<' !in inner[..i];
    assert forall m :: 0 <= m < i ==> inner[m] == inner[..i][m];
  }

  /** So it is behind the first visible character of the summary. */
  lemma AnalysisIsBehindBody(tags: TagSet, pre: string, inner: string, tail: string, i: nat, start: nat)
    requires !Contains(pre, tags.analysisOpen)
    requires i < |inner| && Blank(inner[..i]) && inner[i] != '<'
    requires OccursAt(pre + (tags.summaryOpen + (inner + tail)), tags.analysisOpen, start)
    ensures var s, n := pre + (tags.summaryOpen + (inner + tail)), |pre| + |tags.summaryOpen|;
      n + i < start && s[n..start][i] == inner[i]
  {
    var s, n := pre + (tags.summaryOpen + (inner + tail)), |pre| + |tags.summaryOpen|;
    AnalysisIsBehindTag(tags, pre, inner + tail, start);
    TokenAt(s, tags.analysisOpen, start);
    assert start - n < |inner| ==> s[start] == inner[start - n];
    TagIsBehindVisible(inner, i, start - n);
  }

  /** Where a numbered text becomes visible. */
  lemma FirstVisible(inner: string) returns (i: nat)
    requires LeadsWithNumber(Trim(inner))
    ensures i < |inner| && Blank(inner[..i]) && inner[i] != '<' && !IsWhitespace(inner[i])
  {
    var j;
    i, j := TrimSlice(inner);
    NumberedIsNotATag(Trim(inner));
    assert Trim(inner)[0] == inner[i];
  }

  lemma NoLeadingAnalysis(tags: TagSet, pre: string, inner: string, post: string)
    requires Outermost(tags, pre, post) && !Contains(pre, tags.analysisOpen)
    requires LeadsWithNumber(Trim(inner))
    ensures StripAnalysis(tags, Around(tags, pre, inner, post)) == Around(tags, pre, inner, post)
  {
    var tail := tags.summaryClose + post;
    var s := pre + (tags.summaryOpen + (inner + tail));
    assert s == Around(tags, pre, inner, post);
    SummaryParts(tags, pre, inner, post);
    FindIsFirst(s, tags.analysisOpen);
    var open := Find(s, tags.analysisOpen);
    if open.Some? {
      var i := FirstVisible(inner);
      AnalysisIsBehindBody(tags, pre, inner, tail, i, open.value);
      NotLeading(tags, s, |pre|, open.value, i);
    }
  }

  lemma NotLeading(tags: TagSet, s: string, sp: nat, start: nat, i: nat)
    requires Find(s, tags.summaryOpen) == Some(sp) && sp + |tags.summaryOpen| + i < start <= |s|
    requires !IsWhitespace(s[sp + |tags.summaryOpen|..start][i])
    ensures !IsLeading(tags, s, start)
  {
    assert s[sp + |tags.summaryOpen|..start][i] in s[sp + |tags.summaryOpen|..start];
  }

  lemma NumberedIsNotATag(body: string)
    requires LeadsWithNumber(body)
    ensures body != [] && body[0] != '<'
  {
  }
}
