# Verified models of the terminal agent's core algorithms

This project models the parts of the coding agent whose correctness is hard to see by
reading: compacting a conversation, waiting for a terminal screen, batching index updates,
the orchestrator's round loop, the line reader, the crash file, the usage ledger, the two
screen views and the audit scan. Each part that works by changing state is a class or a
method proved against a specification function; what the part is for is then proved of that
function, for all inputs, all runs and all interleavings.

Check it with `dafny verify dfyconfig.toml` (Dafny 4.11).

| files | component |
|---|---|
| `Conversation`, `ToolPairing` | items; which tool results may stay, and the scans that decide it |
| `Truncation`, `Utf8`, `BudgetFit`, `BudgetKept`, `TokenEstimate` | fitting a conversation to a token budget; the estimate budgets are measured with |
| `Text`, `CompactSummary`, `SummaryKept`, `QueryTags`, `QueryKept` | Rust string operations; cleaning a summary and what is kept of it; wrapping and extracting a query |
| `Compaction`, `HistoryParts` | extracting a context and rebuilding a history from it; where each part stands |
| `WaitProtocol`, `RawTail` | feeder, resizers and waiters over one lock and one generation |
| `Coalescing`, `IndexAnswers` | the index manager's event queue; what each answer holds |
| `Bytes`, `Interner` | little-endian integers; the string interner |
| `Rounds`, `Fingerprint`, `RoundLoop`, `RoundAnswers`, `Deferrals`, `HostLoop` | the round fingerprint, the progress ledger, the decisions, how each round of a run is answered, what a goal has deferred, the loop that drives a prompt |
| `LineReader` | the cancel-safe line reader |
| `CrashBlob`, `BlobLayout`, `FrameWalk`, `WalkNumbers` | the crash file format, its writer and parser, its bytes; the stack walk |
| `Usage`, `CallUsage`, `CostOrder` | the saturating usage ledger; what a run of calls is billed; when the order of costs matters |
| `ScreenText`, `ScreenCells` | plain and styled views of a screen; which characters stand where |
| `AuditBraces`, `AuditVerdict`, `AuditFields` | the brace scan, the object picked, the verdict, a finding's fields |
| `Wrappers`, `Decimal` | shared: options and permutations, decimal numbers |

Strings are sequences of Unicode scalar values. Every pattern the source searches for is
ASCII, so character positions and byte positions find the same matches; where bytes are
counted (`Truncation`) the UTF-8 widths are explicit. Integer widths are explicit where they
matter: saturation in `Usage` and `RoundLoop`, casts in `Interner`, little-endian fields in
`CrashBlob`. Tag vocabularies and fixed texts are parameters of the right shape, with the
source's own values as instances.

## Where the code and its description differ

- `truncate_text_to_bytes` reserves 64 bytes for its marker, which needs 56 and the digits of
  the dropped count. `TruncationFitsIff` says exactly when the result is within the budget.
- `fit_conversation_to_budget` may exceed its budget: a user text of eight bytes, two tokens,
  fitted to one token comes out as fourteen or more (`FitMayExceedBudget`). `FitsBudgetIff` says
  for every conversation when the result is within the budget: nothing had to go, or the head
  fits and either some suffix fits beside it or the truncated tail does. The tail does not fit
  if its owner, kept whole, is over the budget (`OwnerOverBudgetExceeds`) or if a lone text has
  to be cut to fewer than the fourteen tokens its marker needs (`LoneTextExceeds`); images,
  tool-call arguments and items that are never truncated can fill the budget too. It fits if the owner
  leaves sixteen tokens for each result and none loses 10^8 bytes (`RoomyTailFits`).
- A compacted history yields its own context again except for some queries
  (`CompactionIsStableIff`); an image-only turn is forgotten (`ImageOnlyTurnIsForgotten`).
- `is_synthetic_extracted_query` is documented to exclude a bootstrap note too; in this build its
  test is constantly false, and `SourceQueryIsStable` says which texts are left.
- A created or modified path that is then removed within one batch cancels out, even if it was
  indexed before; its old entry stays (`StaleAnswer`). `BatchAgreesIff` is the exact condition,
  `CoalescingExactly` says what happens in general.
- A cut-off is said to point the run at the criteria that are still reachable, and the streaks
  are forgotten so that they get a chance. But its deferral is goal-wide, so the run goes on
  only if the plan lists no criterion at all (`DeferBlockerOrEndRun`, `PlannedCutOffEnds`), and
  a goal with a plan is cut off at most once (`PlannedGoalIsCutOffOnce`).
- The fingerprint sees open items only through their summary line, which shows the first five
  and counts the others (`SummaryLineTellsApart`): progress on the sixth counts as none
  (`HiddenProgressRepeats`).
- The second write of the crash file is meant to be an optional addition; taken only in part
  behind its header, it leaves a file that does not parse (`ShortRewriteLosesBlob`).
- A resize that overlaps or follows the feeder's exit cannot bump the generation, so a waiter
  that read the screen before it can end although its condition holds on the final grid
  (`LateResizeIsMissed`).
- `intern_bytes` casts the length to 16 bits: a new string reads back exactly when it is
  shorter than 2^16 bytes (`NewStringReadBackIff`).
- A crash-file version survives only if it has at most 32 bytes and no trailing NUL
  (`VersionSurvivesIff`).
- With negative costs the cost total can depend on the order of the records
  (`NegativeCostsDependOnOrder`); it does exactly if the gains exceed the upper bound and there
  are losses, or the losses the lower and there are gains (`CostIsOrderFreeIff`). The ledger
  itself never produces a negative cost.
- The plain view drops the zero-width characters of the cell under a shown cursor, the styled
  view keeps them (`RowViewsAgreeIff`, `ScreensAgreeIff`).
- The styled view is said to drop trailing blank runs of default style; it looks only at the
  colours and at bold, so blank runs in reverse video, underlined or struck out are dropped too
  (`ShownBlankIsDropped`).
- The audit scan goes on behind each balanced object, so an object that starts inside a string
  of another and ends behind it is never looked at (`StraddlingObjectIsMissed`);
  `PickedHasPassIff` is the exact condition, and `PickedHasPassIfAny` what it comes to in a text
  in which no two objects straddle.

## Model

| member | source | states |
|---|---|---|
| ToolPairing.StripDisplacedToolResults | crates/codegen/xai-chat-state/src/compaction_utils.rs:996-1022 | the loop over `run_ids` keeps and reports what the adjacency scan says |
| ToolPairing.SanitizeCompactedHistory | crates/codegen/xai-chat-state/src/compaction_utils.rs:917-944 | the loop over `seen_ids` keeps and reports what the precedence scan says |
| ToolPairing.ValidateCompactedHistory | crates/codegen/xai-chat-state/src/compaction_utils.rs:881-900 | reports exactly the ids that sanitizing strips, in order |
| ToolPairing.NothingDroppedIffObeys | crates/codegen/xai-chat-state/src/compaction_utils.rs:881-900 | nothing is reported if and only if every result has its declaring assistant (before it, or for adjacency right before its run) |
| ToolPairing.KeptIsLargest | crates/codegen/xai-chat-state/src/compaction_utils.rs:996-1022 | what is kept has every non-result item, obeys the rule, contains every other such subsequence and is the only one of its size |
| ToolPairing.KeepingIsIdempotent | crates/codegen/xai-chat-state/src/compaction_utils.rs:917-944 | a history is left alone exactly when it obeys the rule; a second pass changes and finds nothing |
| ToolPairing.StrippedValidates | crates/codegen/xai-chat-state/src/compaction_utils.rs:970-1022 | adjacency implies precedence, so what stripping leaves validates to nothing |
| Truncation.TruncateTextToBytes | crates/codegen/xai-chat-state/src/compaction_utils.rs:225-240 | walking back to a character boundary finds the longest fitting prefix |
| Truncation.TruncationKeepsLongestPrefix | crates/codegen/xai-chat-state/src/compaction_utils.rs:225-240 | None exactly when the text fits; otherwise the longest whole-character prefix within the reserve-reduced budget, and kept plus dropped is the length |
| Truncation.TruncationFitsIff | crates/codegen/xai-chat-state/src/compaction_utils.rs:229-238 | exactly when the result, marker included, is within the budget, for every text and budget |
| Truncation.TruncationFits | crates/codegen/xai-chat-state/src/compaction_utils.rs:225-240 | it is, with a budget of at least 64 and under 10^8 bytes dropped |
| Utf8.EncodedLength | crates/codegen/xai-chat-state/src/compaction_utils.rs:225-240 | byte lengths are those of the UTF-8 encoding |
| Utf8.BoundaryIff | crates/codegen/xai-chat-state/src/compaction_utils.rs:229-236 | a character boundary is the end of the encoding or a byte that continues no character |
| Utf8.PrefixBytes | crates/codegen/xai-chat-state/src/compaction_utils.rs:229-238 | the prefix up to a boundary has exactly the bytes up to there |
| BudgetFit.RecoverTruncatedTailUnit | crates/codegen/xai-chat-state/src/compaction_utils.rs:163-194 | popping trailing results and sharing the budget gives the owner and every result truncated |
| BudgetFit.TruncateKeepsShape | crates/codegen/xai-chat-state/src/compaction_utils.rs:196-223 | truncating an item changes only its texts |
| BudgetFit.FitConversationToBudget | crates/codegen/xai-chat-state/src/compaction_utils.rs:128-161 | the two loops find the greedy suffix without its leading results |
| BudgetFit.FitKeepsLongestSuffix | crates/codegen/xai-chat-state/src/compaction_utils.rs:128-161 | under budget the identity; otherwise the System head and the longest suffix that fits, minus leading results, within budget if the head fits |
| BudgetFit.FitKeepsAdjacency | crates/codegen/xai-chat-state/src/compaction_utils.rs:128-194 | strict adjacency survives both the suffix path and the recover path |
| BudgetFit.FitKeepsNewest | crates/codegen/xai-chat-state/src/compaction_utils.rs:128-194 | what is left is the head and the newest items in order, each at most shortened and of the same shape; only an empty body leaves none |
| BudgetKept.SystemHeadStays | crates/codegen/xai-chat-state/src/compaction_utils.rs:128-160 | a leading System item stays first for every estimate and budget, with the newest other items behind it, each at most shortened |
| BudgetKept.HeadlessFit | crates/codegen/xai-chat-state/src/compaction_utils.rs:128-160 | without one the newest items are left, and only an empty conversation leaves none |
| BudgetKept.SystemAndNewest | crates/codegen/xai-chat-state/src/compaction_utils.rs:128-160 | over budget, the System item and everything from the first place on at which no result stands and the rest fits |
| BudgetKept.NewestWithoutSystem | crates/codegen/xai-chat-state/src/compaction_utils.rs:128-160 | the same without a System item |
| BudgetKept.TruncatedItemIsCut | crates/codegen/xai-chat-state/src/compaction_utils.rs:196-240 | each text is itself within four bytes for each token, or the longest prefix that leaves 64 bytes and the count of what is left out; everything else is kept |
| BudgetKept.LastIsRecovered | crates/codegen/xai-chat-state/src/compaction_utils.rs:163-175 | a last item that is no result is cut to the whole budget |
| BudgetKept.ResultsAreRecovered | crates/codegen/xai-chat-state/src/compaction_utils.rs:176-194 | the calling assistant stays whole, and the trailing results share what it leaves equally, one token each at least |
| BudgetKept.OrphansAreRecovered | crates/codegen/xai-chat-state/src/compaction_utils.rs:176-194 | without one they share the whole budget |
| BudgetFit.SuffixPathIff | crates/codegen/xai-chat-state/src/compaction_utils.rs:128-161 | a suffix is kept exactly if some suffix that starts with no result fits |
| BudgetFit.FittedFitsIff | crates/codegen/xai-chat-state/src/compaction_utils.rs:128-194 | for any estimate: the result is within the budget exactly if nothing had to go, or the head fits and some suffix or the recovered tail does |
| TokenEstimate.EstimateOfTruncated | crates/codegen/xai-chat-state/src/actor/state.rs:42-73 | what an item costs after truncation, from its own bytes, the marker and the digits of the dropped counts |
| TokenEstimate.ImageAdds | crates/codegen/xai-chat-state/src/actor/state.rs:47-60 | an image adds 765 tokens |
| TokenEstimate.TextsAdd | crates/codegen/xai-chat-state/src/actor/state.rs:42-73 | texts, or a content and its arguments, count a token for every four bytes together |
| TokenEstimate.TextFitsIff | crates/codegen/xai-chat-state/src/compaction_utils.rs:225-240 | a text is within its limit afterwards exactly if it was before, or the marker and its digits fit behind the kept prefix |
| TokenEstimate.FitsBudgetIff | crates/codegen/xai-chat-state/src/compaction_utils.rs:128-194 | under the code's own estimate, for every conversation, when the result is within the budget |
| TokenEstimate.OwnerOverBudgetExceeds | crates/codegen/xai-chat-state/src/compaction_utils.rs:163-194 | an owner over the budget always takes the recovered tail over it |
| TokenEstimate.RoomyTailFits | crates/codegen/xai-chat-state/src/compaction_utils.rs:163-194 | an owner that leaves sixteen tokens for each result never does, with under 10^8 bytes dropped from each |
| TokenEstimate.LoneTextExceeds | crates/codegen/xai-chat-state/src/compaction_utils.rs:163-223 | any lone user text over a budget of at most thirteen tokens comes out with fourteen or more |
| TokenEstimate.FitMayExceedBudget | crates/codegen/xai-chat-state/src/compaction_utils.rs:128-240 | eight bytes, two tokens, fitted to one token come out with fourteen or more |
| CompactSummary.FormatCompactSummary | crates/codegen/xai-chat-state/src/compaction_utils.rs:625-663 | terminates on every string and computes the specified cleaning |
| CompactSummary.FormattedIsClean | crates/codegen/xai-chat-state/src/compaction_utils.rs:625-698 | the output has no live control token, no triple newline and is trimmed; exactly such strings are left alone; idempotent |
| CompactSummary.ScratchpadNeverLeaks | crates/codegen/xai-chat-state/src/compaction_utils.rs:625-663 | the result does not depend on a leading closed analysis block (first of three peeling paths) |
| CompactSummary.ScratchpadInSummaryNeverLeaks | crates/codegen/xai-chat-state/src/compaction_utils.rs:625-663 | nor on a closed block at the very start of the summary, whatever precedes the summary |
| CompactSummary.OrphanHeaderNeverLeaks | crates/codegen/xai-chat-state/src/compaction_utils.rs:625-686 | of a summary that leads with no number, in a text without an opening analysis tag, nothing up to its last closing analysis tag is kept, whatever stands around the summary |
| CompactSummary.UnwrapGuard | crates/codegen/xai-chat-state/src/compaction_utils.rs:644-650 | the closing tag begins behind the opening one's start exactly if it begins behind its end |
| CompactSummary.NumberedSummaryIsKept | crates/codegen/xai-chat-state/src/compaction_utils.rs:625-686 | a summary that leads with a number keeps its whole trimmed body, whatever tags it quotes, and what stands around it is kept too |
| SummaryKept.LeadsWithNumberIff | crates/codegen/xai-chat-state/src/compaction_utils.rs:674-680 | a text leads with a number exactly if a digit has nothing but marks and blanks before it |
| SummaryKept.UnnumberedSummaryIsKept | crates/codegen/xai-chat-state/src/compaction_utils.rs:643-686 | a summary without leading number, orphan closing tag or own wrapper keeps its whole trimmed body, and what stands around it |
| SummaryKept.WrappedSummaryIsKept | crates/codegen/xai-chat-state/src/compaction_utils.rs:682-686 | a summary tag at the start of the body is taken off with the blanks behind it, and the rest is kept |
| SummaryKept.PlainTextIsKept | crates/codegen/xai-chat-state/src/compaction_utils.rs:625-663 | a text without a complete summary or an opening analysis tag is tidied as it stands |
| SummaryKept.UnclosedScratchpadIsDropped | crates/codegen/xai-chat-state/src/compaction_utils.rs:635-642 | a leading block that is never closed goes up to the next summary tag, or to the end |
| SummaryKept.LaterBlockStays | crates/codegen/xai-chat-state/src/compaction_utils.rs:627-633 | a block behind visible text of the summary is part of it |
| SummaryKept.BlockBehindTextStays | crates/codegen/xai-chat-state/src/compaction_utils.rs:627-633 | so is a block behind visible text when there is no summary |
| SummaryKept.EchoIsDefused | crates/codegen/xai-chat-state/src/compaction_utils.rs:691-698 | an echoed tag gets a zero-width space behind its angle bracket, and nothing else changes |
| SummaryKept.CollapseSqueezes | crates/codegen/xai-chat-state/src/compaction_utils.rs:656-658 | of every run of newlines the first two are left, and nothing else is changed |
| SummaryKept.TidyKeeps | crates/codegen/xai-chat-state/src/compaction_utils.rs:655-662 | tidying inserts zero-width spaces, takes out newlines behind the second of a run, and cuts blanks from both ends; everything else stays in order |
| QueryTags.StripSystemTags | crates/codegen/xai-chat-state/src/compaction_utils.rs:259-274 | the nested loops remove every closed block of each tag and trim |
| QueryTags.StripStable | crates/codegen/xai-chat-state/src/compaction_utils.rs:259-274 | a string is unchanged exactly if it is trimmed and has no complete block; the result is never longer and is trimmed |
| QueryKept.BlockIsRemoved | crates/codegen/xai-chat-state/src/compaction_utils.rs:259-274 | the first complete block of a tag goes, and what stands before and behind it is joined and searched again |
| QueryKept.FirstBlockSplits | crates/codegen/xai-chat-state/src/compaction_utils.rs:259-274 | every text with a complete block of a tag splits at such a first one |
| QueryKept.SystemBlockIsStripped | crates/codegen/xai-chat-state/src/compaction_utils.rs:259-274 | of a text whose only blocks are of one tag, without any when its first is gone, everything else is left, trimmed |
| QueryTags.WrapExtractRoundTrip | crates/codegen/xai-chat-state/src/compaction_utils.rs:280-289 | extracting a wrapped query gives it back exactly if it is trimmed, has no closing query tag and no complete system block (wrapping: lines 777-780) |
| QueryTags.PlainTextExtract | crates/codegen/xai-chat-state/src/compaction_utils.rs:280-289 | a text without a complete query block is its own query exactly if it is trimmed and has no system block |
| QueryKept.QueryBlockIsExtracted | crates/codegen/xai-chat-state/src/compaction_utils.rs:280-287 | whatever stands around it, the first complete query block gives its own text, trimmed and stripped |
| QueryKept.PlainQueryIsExtracted | crates/codegen/xai-chat-state/src/compaction_utils.rs:280-287 | so a query without system blocks comes out trimmed |
| QueryKept.WholeTextIsExtracted | crates/codegen/xai-chat-state/src/compaction_utils.rs:280-289 | without a complete query block the whole text is stripped and trimmed |
| Compaction.BuildCompactedHistory | crates/codegen/xai-chat-state/src/compaction_utils.rs:828-863 | pushes the items of the specified history, in order |
| HistoryParts.FrontStands | crates/codegen/xai-chat-state/src/compaction_utils.rs:832-850 | how long the history is, and that the system message, the prefix and the project instructions stand first |
| HistoryParts.QueryStands | crates/codegen/xai-chat-state/src/compaction_utils.rs:777-780 | then the query, on a line of its own between its tags |
| HistoryParts.BackStands | crates/codegen/xai-chat-state/src/compaction_utils.rs:832-861 | then the recent messages in order, the cleaned summary behind its preamble with the hint at its end, and the reminder |
| HistoryParts.RecentNext | crates/codegen/xai-chat-state/src/compaction_utils.rs:440-464 | a real user turn starts the recent messages anew; any other item adds itself as an assistant turn, or what it answers as a result |
| HistoryParts.QueryNext | crates/codegen/xai-chat-state/src/compaction_utils.rs:391-397 | the last query is the last real user turn's |
| HistoryParts.NoContext | crates/codegen/xai-chat-state/src/compaction_utils.rs:391-464 | an empty conversation has neither |
| HistoryParts.TextContentNext | crates/codegen/xai-chat-state/src/compaction_utils.rs:350-397 | a user item's text is its texts in order with a newline between any two |
| Compaction.CompactionReportsTailOrphans | crates/codegen/xai-chat-state/src/compaction_utils.rs:828-863 | validating a compacted history reports exactly the orphans of the tail behind the last real user turn |
| Compaction.CompactionNeverOrphans | crates/codegen/xai-chat-state/src/compaction_utils.rs:828-863 | if every result has its assistant before it with no real user turn between, the compacted history validates |
| Compaction.CompactionKeepsAdjacency | crates/codegen/xai-chat-state/src/compaction_utils.rs:828-863 | strict adjacency survives extraction and rebuilding |
| Compaction.CompactionIsStable | crates/codegen/xai-chat-state/src/compaction_utils.rs:391-464 | extracting from a compacted history returns the recent messages always, and the query exactly if absent, or non-synthetic and fixed by wrapping and extracting |
| Compaction.CompactionIsStableIff | crates/codegen/xai-chat-state/src/compaction_utils.rs:828-863 | the same condition in terms of the query's own text |
| Compaction.SourceQueryIsStable | crates/codegen/xai-chat-state/src/compaction_utils.rs:350-397 | with the source's own tags and prompts, for every context: a query comes back exactly if it is not empty, neither internal prompt, trimmed, and holds no closing query tag and no complete system block |
| Compaction.BracketFreeIsStable | crates/codegen/xai-chat-state/src/compaction_utils.rs:391-464 | a query without angle brackets comes back exactly if it is trimmed and no internal prompt |
| Compaction.ImageOnlyTurnIsForgotten | crates/codegen/xai-chat-state/src/compaction_utils.rs:350-397 | an image-only turn is real, but its compacted history has no real turn |
| WaitProtocol.StepKeepsInv | crates/codegen/ptyctl/src/wait.rs:97-128 | every atomic step of feeder, resizer and waiter keeps the lock discipline and the waiter invariant |
| WaitProtocol.NoLostWakeup | crates/codegen/ptyctl/src/wait.rs:97-128 | in every interleaving, a waiter parked on the current generation with no change pending and no resize unannounced since its own read has a false condition on the current grid |
| WaitProtocol.WakeupIsOnItsWay | crates/codegen/ptyctl/src/session.rs:158-173 | otherwise the pending writer alone wakes it within two steps, while the channel is open |
| WaitProtocol.MatchedMeansMet | crates/codegen/ptyctl/src/wait.rs:97-116 | a matched wait saw its condition hold on a screen read under the lock |
| WaitProtocol.EndedMeansUnmet | crates/codegen/ptyctl/src/wait.rs:117-123 | an ended wait has a false condition on the final grid unless a resize stayed unannounced since its own read, or is about to |
| WaitProtocol.LateResizeIsMissed | crates/codegen/ptyctl/src/session.rs:272-283 | the exception is reachable: a run in which the condition holds on the final grid and the wait ended |
| RawTail.Tail.Push | crates/codegen/ptyctl/src/wait.rs:202-213 | the tail is always the last 2048 bytes of everything pushed |
| Coalescing.CoalescedEvents.Insert | crates/codegen/xai-codebase-graph/src/index_manager.rs:1545-1569 | one insertion, by the kinds remembered and new |
| Coalescing.CoalescedEvents.Add | crates/codegen/xai-codebase-graph/src/index_manager.rs:1531-1543 | an event is its path operations folded in order; a rename removes and creates |
| Coalescing.IndexManager.ApplyCoalesced | crates/codegen/xai-codebase-graph/src/index_manager.rs:1133-1161 | whatever order the map is walked in, every path gets its own event's effect |
| Coalescing.DrainFileEvents | crates/codegen/xai-codebase-graph/src/index_manager.rs:843-866 | the drain coalesces the first event and every file command found behind it |
| Coalescing.IndexManager.ProcessCommandCoalesced | crates/codegen/xai-codebase-graph/src/index_manager.rs:838-953 | one command and what it drains answer the queries the specification says |
| Coalescing.IndexManager.RunLoop | crates/codegen/xai-codebase-graph/src/index_manager.rs:797-828 | the loop answers every query until shutdown, for any schedule of what each drain finds |
| Coalescing.CoalescedAt | crates/codegen/xai-codebase-graph/src/index_manager.rs:1545-1569 | a path is forgotten exactly if its last two events cancel; otherwise the kept kind has the last event's effect |
| Coalescing.InOrderAt | crates/codegen/xai-codebase-graph/src/index_manager.rs:1182-1249 | one by one, the last event on a path decides its entry |
| IndexAnswers.InOrderAnswer | crates/codegen/xai-codebase-graph/src/index_manager.rs:838-953 | one by one, each answer holds for each path what the last command before it that touched the path left: nothing, what is on disk, or what the rebuild found |
| IndexAnswers.CoalescedAnswer | crates/codegen/xai-codebase-graph/src/index_manager.rs:797-874 | so do the answers of the coalescing loop, for every queue and schedule, if no indexed path is forgotten |
| IndexAnswers.BatchAnswer | crates/codegen/xai-codebase-graph/src/index_manager.rs:1133-1182 | behind one batch, unconditionally: a path whose last two events cancel has the entry it had, every other what its last event left |
| IndexAnswers.CreatedIsFound | crates/codegen/xai-codebase-graph/src/index_manager.rs:1133-1249 | a created, modified or singly renamed indexable path is found exactly as it is on disk, a removed one is absent |
| IndexAnswers.RenameMoves | crates/codegen/xai-codebase-graph/src/index_manager.rs:1531-1543 | a rename of two paths leaves the old one absent and the new one as it is on disk |
| Coalescing.BatchAgreesIff | crates/codegen/xai-codebase-graph/src/index_manager.rs:1133-1161 | a batch equals one-by-one processing if and only if no forgotten indexable path was indexed |
| Coalescing.StaleAnswer | crates/codegen/xai-codebase-graph/src/index_manager.rs:1545-1569 | the failing queue: an indexed path modified and removed in one batch, and the query behind it still finds it |
| Coalescing.CoalescingRefines | crates/codegen/xai-codebase-graph/src/index_manager.rs:838-874 | for every queue and schedule, if no indexed path is forgotten, every query is answered on the in-order index |
| Coalescing.CoalescingExactly | crates/codegen/xai-codebase-graph/src/index_manager.rs:838-874 | in general, every query is answered as if the forgotten paths' events were left out of their batches |
| Interner.StringInterner.InternBytes | crates/codegen/xai-codebase-graph/src/interner.rs:119-144 | the method computes the specified tables and id, casts included |
| Interner.StringInterner.Find | crates/codegen/xai-codebase-graph/src/interner.rs:157-168 | the first id of the hash bucket that reads back as the string |
| Interner.StringInterner.FromParts | crates/codegen/xai-codebase-graph/src/interner.rs:286-303 | rebuilds the lookup from the offsets, skipping dangling ones |
| Interner.LookupIsPosition | crates/codegen/xai-codebase-graph/src/interner.rs:157-168 | for any hash function a lookup answers the string's position in the table of distinct strings, or nothing |
| Interner.InternRefinesTable | crates/codegen/xai-codebase-graph/src/interner.rs:119-144 | interning agrees with a plain table of distinct strings, within the widths of the casts |
| Interner.InternerIsBijection | crates/codegen/xai-codebase-graph/src/interner.rs:119-184 | over any sequence of interns: ids read back, equal strings and only they share ids, earlier ids never change |
| Interner.InternedFromEmpty | crates/codegen/xai-codebase-graph/src/interner.rs:119-184 | from the empty interner on, whatever is interned reads back, is found again and is told apart |
| Interner.NewStringReadBackIff | crates/codegen/xai-codebase-graph/src/interner.rs:131-134 | a new string reads back exactly if it is shorter than 2^16 bytes |
| Interner.FromPartsRestores | crates/codegen/xai-codebase-graph/src/interner.rs:286-303 | rebuilding from arena and offsets gives back the very same tables |
| Fingerprint.FindingOrderIsIgnored | crates/codegen/xai-doggy-orchestrator/src/progress.rs:281-311 | permuting a rejection's findings leaves the fingerprint equal |
| Fingerprint.FingerprintTellsApart | crates/codegen/xai-doggy-orchestrator/src/progress.rs:281-311 | with delimiter-free non-empty texts, fingerprints are equal if and only if every component is, open items being compared by their summary line |
| Fingerprint.SummaryLineTellsApart | crates/codegen/xai-doggy-orchestrator/src/open_items.rs:66-90 | of summaries without "; ", the lines are equal exactly if there are as many items, the first five read alike, and of no items the pending flag is equal |
| Fingerprint.FingerprintTellsItemsApart | crates/codegen/xai-doggy-orchestrator/src/progress.rs:281-311 | with such summaries, fingerprints are equal exactly if what is shown of the open items, the verdict and the activity are |
| Fingerprint.JoinInjective | crates/codegen/xai-doggy-orchestrator/src/progress.rs:281-311 | joined lists of separator-free non-empty texts are told apart |
| Fingerprint.SortByContents | crates/codegen/xai-doggy-orchestrator/src/progress.rs:281-311 | sorted lists are equal exactly if the lists are permutations |
| RoundLoop.RoundLedger.Observe | crates/codegen/xai-doggy-orchestrator/src/progress.rs:337-383 | updates streaks and totals as specified and returns the worse of the two stall levels and the delta |
| RoundLoop.TaskMachine.Apply | crates/codegen/xai-doggy-orchestrator/src/decide.rs:80-105 | Done is entered by a done decision and nothing else; a pause keeps its reason |
| RoundLoop.RoundLoopBound | crates/codegen/xai-doggy-orchestrator/src/progress.rs:337-421 | every run that keeps going is at most five rounds per stretch of equal fingerprints, and two tool-less rounds per working round and two more |
| RoundLoop.FiveRoundsAreGranted | crates/codegen/xai-doggy-orchestrator/src/progress.rs:388-402 | the bound is tight: five equal working rounds continue, the sixth does not |
| RoundLoop.ToolLessRoundIsNotContinued | crates/codegen/xai-doggy-orchestrator/src/decide.rs:129-148 | a tool-less round never yields Continue or Fix |
| RoundLoop.DoneIff | crates/codegen/xai-doggy-orchestrator/src/decide.rs:129-190 | Done exactly after an undisturbed round with no open item and an achieved verification, whatever the stall |
| RoundAnswers.PausedIff | crates/codegen/xai-doggy-orchestrator/src/decide.rs:151-167 | a pause for the user comes first, then the budget, then a failed round |
| RoundAnswers.CutOffIff | crates/codegen/xai-doggy-orchestrator/src/decide.rs:129-148 | over any run: an unfinished round is cut off exactly at six rounds alike or three without a tool, with that count and reason |
| RoundAnswers.RetriedIff | crates/codegen/xai-doggy-orchestrator/src/progress.rs:388-421 | below that, exactly from three alike or one without a tool on, another way is asked for, with the count, the reason, the open items and the delta |
| RoundAnswers.FixedIff | crates/codegen/xai-doggy-orchestrator/src/decide.rs:168-190 | otherwise a rejection is answered with its own findings exactly if nothing is open |
| RoundAnswers.ContinuedIff | crates/codegen/xai-doggy-orchestrator/src/decide.rs:168-190 | otherwise open items, or a pending verification, with a request to go on that carries the summary line, or the acceptance text, and the delta |
| RoundAnswers.DeltaSaysWhatIsNew | crates/codegen/xai-doggy-orchestrator/src/progress.rs:360-383 | the delta names exactly the files that the last workspace seen did not have, and the criteria that the round before did not |
| RoundAnswers.DeltaDescribesRound | crates/codegen/xai-doggy-orchestrator/src/progress.rs:337-383 | and the number of the round, its tools and whether the workspace was seen |
| RoundLoop.StallOnlyDowngrades | crates/codegen/xai-doggy-orchestrator/src/decide.rs:129-148 | the stall measure changes only requests for another round |
| RoundLoop.HiddenProgressRepeats | crates/codegen/xai-doggy-orchestrator/src/progress.rs:337-358 | a round whose only progress is on items behind the fifth counts as a repetition |
| RoundLoop.BlindRoundsChangeNoReport | crates/codegen/xai-doggy-orchestrator/src/progress.rs:360-380 | leaving out rounds with an unreadable workspace changes no other round's newly changed files |
| RoundLoop.EachPathIsNewOnce | crates/codegen/xai-doggy-orchestrator/src/progress.rs:463-468 | with growing duplicate-free lists every path is reported new exactly once in a run |
| HostLoop.RunRoundEnd | crates/codegen/xai-grok-shell/src/session/acp_session_impl/doggy_gate.rs:566-680 | a completed round is measured, decided and applied; the machine is done afterwards exactly if nothing was open and verification accepted, and paused with the reason the guards give; what is injected is the decision's message; a cut-off puts the whole goal on record as blocked |
| HostLoop.RunPrompt | crates/codegen/xai-grok-shell/src/session/acp_session_impl/turn.rs:796-850 | over a whole prompt: every round before the last led to another, the machine is done exactly if the last one was accepted, and at most one deferral is recorded |
| HostLoop.DoneEnds | crates/codegen/xai-grok-shell/src/session/acp_session_impl/doggy_gate.rs:566-680 | an accepted round never leads to another, whatever the ledger holds |
| HostLoop.HostLoopBound | crates/codegen/xai-grok-shell/src/session/acp_session_impl/doggy_gate.rs:683-742 | with the streaks forgotten at each survived cut-off: five rounds for each stretch of equal fingerprints and six for each such cut-off; tool-less rounds two for each working one and two more, and three for each such cut-off |
| HostLoop.PlannedCutOffEnds | crates/codegen/xai-grok-shell/src/session/acp_session_impl/doggy_gate.rs:683-724 | a cut-off of a goal whose plan lists a criterion ends the run |
| HostLoop.PlannedGoalIsCutOffOnce | crates/codegen/xai-grok-shell/src/session/acp_session_impl/doggy_gate.rs:683-693 | such a goal is cut off at most once, by its last round, after at most five rounds for each stretch of equal fingerprints, and two tool-less ones for each working one and two more |
| Deferrals.ExhaustedIff | crates/codegen/xai-grok-shell/src/session/goal_tracker.rs:1576-1602 | nothing is left exactly if there are criteria and each is blocked, by its own deferral or by one without a criterion |
| Deferrals.GoalTracker.DeferCriterion | crates/codegen/xai-grok-shell/src/session/goal_tracker.rs:1505-1515 | a criterion is deferred once, with the first reason given |
| Deferrals.GoalTracker.DeferBlockerOrEndRun | crates/codegen/xai-grok-shell/src/session/acp_session_impl/goal.rs:1342-1397 | with an active goal, the whole goal is put on record as blocked, and the run ends exactly if the plan lists a criterion |
| HostLoop.FreshStart | crates/codegen/xai-grok-shell/src/session/acp_session_impl/doggy_gate.rs:727-731 | behind a survived cut-off a working round is progress and a tool-less one a first warning, and what is newly changed is what it would have been |
| LineReader.ReadLineCapped | crates/codegen/xai-acp-lib/src/line_reader.rs:140-177 | for every chunking, whether the source ends or breaks: the first line and the rest of the stream, or an error exactly if the line is over the limit or breaks off before its end |
| LineReader.LineBufferedRead.PollRead | crates/codegen/xai-acp-lib/src/line_reader.rs:96-132 | serves the stash, then the channel, into the front of the buffer and nothing else |
| LineReader.BytesAreConserved | crates/codegen/xai-acp-lib/src/line_reader.rs:68-132 | in every interleaving, bytes returned, stash, queue, held line and unread rest are the whole stream |
| LineReader.PendingOnlyBetweenLines | crates/codegen/xai-acp-lib/src/line_reader.rs:96-132 | whenever a poll is pending, whole leading lines have been returned |
| LineReader.EmptyReadMeansEnd | crates/codegen/xai-acp-lib/src/line_reader.rs:96-132 | an empty read into a non-empty buffer means everything before the first oversized or broken-off line was returned; the whole stream exactly if there is none |
| LineReader.MessagesCarryStream | crates/codegen/xai-acp-lib/src/line_reader.rs:71-85 | the lines sent carry the whole stream exactly if every line fits and none breaks off; an error is sent exactly if a line is over the limit or the source breaks |
| CrashBlob.WriteHeader | crates/codegen/xai-crash-handler/src/format.rs:126-152 | writes the header bytes in place and leaves the rest of the buffer alone |
| CrashBlob.WriteFrame | crates/codegen/xai-crash-handler/src/format.rs:160-163 | writes eight bytes in place and nothing else |
| CrashBlob.Parse | crates/codegen/xai-crash-handler/src/format.rs:49-111 | parses as specified, rejecting bad magic, version, frame count and truncation |
| CrashBlob.BlobRoundTrip | crates/codegen/xai-crash-handler/src/format.rs:49-163 | every written blob parses to its fields, frames and decoded version, whatever follows it |
| BlobLayout.MarksStand | crates/codegen/xai-crash-handler/src/format.rs:18-31 | the file begins with "GCRX", the format version and the signal |
| BlobLayout.NumbersStand | crates/codegen/xai-crash-handler/src/format.rs:18-31 | the code, address, process, time and frame count stand at their offsets, lowest byte first |
| BlobLayout.VersionStands | crates/codegen/xai-crash-handler/src/format.rs:18-31 | then 32 bytes of version, cut or filled up with zeros |
| BlobLayout.FramesStand | crates/codegen/xai-crash-handler/src/format.rs:160-163 | then each frame in eight bytes |
| CrashBlob.VersionSurvivesIff | crates/codegen/xai-crash-handler/src/format.rs:77-81 | a UTF-8 version is recovered exactly if it has at most 32 bytes and no trailing NUL |
| FrameWalk.WalkFramePointers | crates/codegen/xai-crash-handler/src/handler.rs:155-185 | the loop over arbitrary memory collects what the specified walk does, or faults with it |
| FrameWalk.WalkIsChain | crates/codegen/xai-crash-handler/src/handler.rs:155-185 | a walk returns the return addresses of a strictly ascending aligned frame chain, until full or no further frame |
| FrameWalk.ChainIsUnique | crates/codegen/xai-crash-handler/src/handler.rs:155-185 | there is only one such chain |
| WalkNumbers.WalkAscends | crates/codegen/xai-crash-handler/src/handler.rs:155-185 | the chain in numbers: pointers from 4096 on and aligned to 8, return addresses eight bytes behind them and from 4096 on, ascending, until full or no frame follows |
| WalkNumbers.WalkFaultsIff | crates/codegen/xai-crash-handler/src/handler.rs:155-185 | the walk faults exactly if such a chain leads to a plausible pointer that is not mapped |
| FrameWalk.WriteCrashBlob | crates/codegen/xai-crash-handler/src/handler.rs:328-399 | without a file nothing is done; otherwise the file holds what the two writes leave, however many bytes the system takes of each |
| FrameWalk.WholeWriteStays | crates/codegen/xai-crash-handler/src/handler.rs:361-393 | if the last write is taken whole, the file starts with the blob of the walked frames, or of the crash address if the walk faulted |
| FrameWalk.ShortRewriteLosesBlob | crates/codegen/xai-crash-handler/src/handler.rs:377-393 | a second write cut short behind its header leaves a file that does not parse |
| FrameWalk.CrashFileParses | crates/codegen/xai-crash-handler/src/handler.rs:361-393 | whatever the memory and context, that file parses to the header fields, the crash address and the walked frames |
| FrameWalk.CrashFileHoldsChain | crates/codegen/xai-crash-handler/src/handler.rs:361-393 | unless the walk faulted, the parsed frames are the crash address and the return addresses of the one ascending chain of at most 63 frames |
| WalkNumbers.CrashFileReads | crates/codegen/xai-crash-handler/src/handler.rs:361-393 | the same for that chain in numbers |
| Usage.UsageLedger.RecordMainLoopCall | crates/codegen/xai-chat-state/src/usage.rs:114-124 | folds one call into the totals and its model, and counts it |
| Usage.UsageLedger.RecordSubagent | crates/codegen/xai-chat-state/src/usage.rs:127-134 | folds every entry and only ever sets the incomplete flag |
| Usage.UsageLedger.FoldOne | crates/codegen/xai-chat-state/src/usage.rs:140-146 | one entry is folded into the totals and its model's entry |
| Usage.UsageLedger.MarkIncomplete | crates/codegen/xai-chat-state/src/usage.rs:136-138 | sets the flag and nothing else |
| Usage.LedgerConserves | crates/codegen/xai-chat-state/src/usage.rs:71-146 | after any records each total is the capped sum of what was recorded and of the models' totals; costs too while subagents report none negative |
| CallUsage.CallsAreBilled | crates/codegen/xai-chat-state/src/usage.rs:45-124 | after any run of main-loop calls every total, overall and of each model, is the capped sum of the calls' own field, and the cost is absent exactly if none reported a positive one |
| Usage.RecordOrderDoesNotMatter | crates/codegen/xai-chat-state/src/usage.rs:71-146 | permuting the records leaves every counter of the bill and of each model equal |
| Usage.CostIsReportedIff | crates/codegen/xai-chat-state/src/usage.rs:93-98 | the total cost is absent exactly if no entry has one |
| Usage.NegativeCostsDependOnOrder | crates/codegen/xai-chat-state/src/usage.rs:93-98 | three costs, one negative, whose order changes the total |
| CostOrder.CostIsOrderFreeIff | crates/codegen/xai-chat-state/src/usage.rs:93-98 | the total cost is the same in every order exactly if the gains stay within the upper bound or there are no losses, and the losses within the lower or there are no gains |
| Usage.MainLoopCallsAreModelCalls | crates/codegen/xai-chat-state/src/usage.rs:104-124 | the main-loop count never exceeds the model calls |
| Usage.IncompleteIffReported | crates/codegen/xai-chat-state/src/usage.rs:127-138 | the flag is set exactly if some record set it, so it never clears |
| ScreenText.ExtractStyledLine | crates/codegen/ptyctl/src/styled.rs:91-163 | the loop coalesces cells into runs and pops trailing blank ones that have no colour and are not bold |
| ScreenText.StyledRowIsCanonical | crates/codegen/ptyctl/src/styled.rs:91-163 | the line is the one list of non-empty runs with differing neighbours that shows every character in its cell's style, without exactly its trailing blank runs that have no colour and are not bold |
| ScreenText.ShownBlankIsDropped | crates/codegen/ptyctl/src/styled.rs:149-157 | a trailing blank run is dropped whatever its other attributes show |
| ScreenText.RunsAreUnique | crates/codegen/ptyctl/src/styled.rs:119-147 | two coalesced run lists that show the same are the same |
| ScreenText.ScreenContent | crates/codegen/ptyctl/src/term.rs:249-310 | builds, trims and right-trims the plain lines |
| ScreenCells.CellsRead | crates/codegen/ptyctl/src/term.rs:262-289 | which cell shows the cursor character, by row and column, in either view |
| ScreenCells.PlainScreenReads | crates/codegen/ptyctl/src/term.rs:249-305 | each line is the chosen row's chosen columns from left to right, right-trimmed |
| ScreenCells.AllRowsAreShown | crates/codegen/ptyctl/src/term.rs:296-300 | with empty lines every chosen row is shown |
| ScreenCells.ShownCount | crates/codegen/ptyctl/src/term.rs:296-300 | without them there are as many lines as are left when the blank rows at the end go |
| ScreenCells.DroppedRow | crates/codegen/ptyctl/src/term.rs:296-300 | each row that goes is blank |
| ScreenCells.LastLineShows | crates/codegen/ptyctl/src/term.rs:296-300 | and the last line is not |
| ScreenText.ScreenStyled | crates/codegen/ptyctl/src/term.rs:313-339 | builds and trims the styled lines |
| ScreenText.ResolvedRangeSelects | crates/codegen/ptyctl/src/term.rs:349-358 | a range selects exactly its own 1-based inclusive positions that are on the screen |
| ScreenText.RowViewsAgreeIff | crates/codegen/ptyctl/src/styled.rs:91-163 | the runs' text, right-trimmed, is the plain line; at a shown cursor exactly if the cell has no zero-width characters or only blanks follow |
| ScreenText.ScreensAgreeIff | crates/codegen/ptyctl/src/term.rs:249-339 | whole screens agree line by line, the styled one adding only blank lines at the end, exactly if no row shows a cursor that hides zero-width characters with something visible from there on |
| ScreenText.ScreensAgree | crates/codegen/ptyctl/src/term.rs:249-339 | without a cursor whole screens always agree, line for line if empty lines are kept, and each styled line carries its place on the screen |
| AuditBraces.ExtractBalancedFrom | crates/codegen/xai-doggy-orchestrator/src/audit_parse.rs:191-223 | the loop returns what the specified scan does |
| AuditBraces.BalancedIffObject | crates/codegen/xai-doggy-orchestrator/src/audit_parse.rs:191-223 | the scan succeeds with a length exactly if that stretch is an object of the brace-and-string grammar, so no object is a proper prefix of another |
| AuditVerdict.ExtractAuditBraceObject | crates/codegen/xai-doggy-orchestrator/src/audit_parse.rs:167-189 | the loop picks the first scanned object with the key, else the first |
| AuditVerdict.NothingPickedIff | crates/codegen/xai-doggy-orchestrator/src/audit_parse.rs:167-189 | nothing is picked exactly if the text holds no object |
| AuditVerdict.PickedHasPassIff | crates/codegen/xai-doggy-orchestrator/src/audit_parse.rs:165-189 | the pick has the key exactly if some object has it that no scanned object straddles; without one it is the text's first object |
| AuditVerdict.PickedIsOutermost | crates/codegen/xai-doggy-orchestrator/src/audit_parse.rs:131-189 | no nested object wins: no other object that no scanned one straddles holds the pick |
| AuditVerdict.PickedIsFirst | crates/codegen/xai-doggy-orchestrator/src/audit_parse.rs:167-189 | a pick with the key starts no later than any object with the key that no scanned one straddles |
| AuditVerdict.PickedHasPassIfAny | crates/codegen/xai-doggy-orchestrator/src/audit_parse.rs:165-189 | if no two objects of the text straddle, the pick has the key exactly if any object has it |
| AuditVerdict.StraddlingObjectIsMissed | crates/codegen/xai-doggy-orchestrator/src/audit_parse.rs:165-189 | a text with an object that has the key whose pick has none |
| AuditVerdict.VerdictIff | crates/codegen/xai-doggy-orchestrator/src/audit_parse.rs:33-102 | a verdict exactly for a usable answer; it passes exactly if it has no finding, and exactly if the answer says pass and lists nothing |
| AuditFields.FindingIsRead | crates/codegen/xai-doggy-orchestrator/src/audit_parse.rs:80-102 | a finding's message and severity are its own texts without the blanks around them; a blank severity is none |
| AuditFields.CriterionIsRead | crates/codegen/xai-doggy-orchestrator/src/audit_parse.rs:104-121 | its criterion is a number from 1 to 2^32-1, and anything else is none |
| AuditFields.CriterionTextIsRead | crates/codegen/xai-doggy-orchestrator/src/audit_parse.rs:104-128 | in a text it is the first number, if it is one of these |
| AuditVerdict.CriterionIsReadBack | crates/codegen/xai-doggy-orchestrator/src/audit_parse.rs:111-128 | the first number in a string is read as the criterion if it is positive and fits 32 bits |

## Left out

- BudgetFit.FitConversationToBudget: sums of token estimates are unbounded, so the `u64` sum does not overflow in the model; what a backend tool call or a reasoning item is estimated from is given as text.
- ToolPairing.StripDisplacedToolResults: returns the kept items instead of shrinking the caller's vector in place.
- WaitProtocol.NoLostWakeup: `wait_for` is modelled as the atomic steps of its loop, not as a method; time is abstract, and a parked waiter may time out at any step.
- `wait_stable`: when a change and the end of its window are ready together, which branch runs is up to the scheduler, so its match promises nothing about the grid.
- Coalescing.IndexManager.ApplyCoalesced: paths are compared as strings; two different paths that normalise to the same relative path, the update counter and the cache file are not modelled.
- Coalescing.IndexManager.RunLoop: the queue is fixed at the start, with an arbitrary number of commands visible to each drain; the disk does not change during a run.
- Interner.InternRefinesTable: arenas of 2^32 bytes and more, where the start wraps too, are outside the bound.
- RoundLoop.RoundLoopBound: runs without `reset_streaks`; `HostLoop.HostLoopBound` covers the runs with it.
- HostLoop.RunPrompt: what each round finds (the plan's criteria, the verdict, the token budget) is given; requests for verification, the messages injected and shown, the deferral recorded at the round cap, and how the goal is closed are not part of this model.
- LineReader.BytesAreConserved: a dropped receiver, after which nobody reads; what kind of error was sent.
- LineReader.EmptyReadMeansEnd: after an error the stream ends for the consumer, as in the source.
- FrameWalk.WriteCrashBlob: how the program counter and frame pointer are read from the signal context.
- AuditBraces.BalancedIffObject: the depth is unbounded; in the source it is 32 bits wide, so texts with 2^31 open braces are outside the model.
- AuditVerdict.VerdictIff: the JSON parser is an arbitrary function, and whether the text came from a fenced block or from the brace scan does not matter to it; finding the fence is not modelled.
- ScreenText.ScreensAgreeIff: the grid is given; colours are the text they are rendered as, and the HTML rendering is not modelled.
- `repair_history` as a whole: its other passes are in another crate.
- `extract_last_user_query`, `extract_messages_since_last_user`, `is_degenerate_summary`, `bound_captured_output`, the stripping passes before summarization.
- The alternate summary carrier of the compacted history, which the source always leaves empty.
