# Models of the agent runtime's stateful core

This project models the parts of the repository whose correctness is a statement about every
input, every interleaving or every run, and proves those statements:

- **Conversation surgery and compaction** (`xai-chat-state`, `xai-grok-sampling-types`): repairing
  tool pairing, fitting a history to a token budget, rebuilding a compacted history, cleaning the
  summary, and finding the user's last query again.
  (`Conversation`, `HistoryRepair`, `RepairPasses`, `RepairedRuns`, `Budget`, `Compaction`,
  `UserQuery`, `QueryText`, `TagBlocks`, `SummaryCleaner`, `SummaryText`, `Text`, `TextTags`)
- **The event-driven wait protocol** of `ptyctl`: a transition system of the feeder, any number of
  resizes and any number of waiters over a lock and a generation watch; and the bounded raw tail.
  (`WaitProtocol`, `WaitRounds`, `RawTail`)
- **The index manager actor** of `xai-codebase-graph`: event coalescing, the draining command loop
  and copy-on-write snapshots over heap objects. (`IndexEvents`, `IndexManager`)
- **The arena string interner** for an arbitrary hash function. (`Interner`)
- **The line-framing reader** of `xai-acp-lib`, producer and consumer. (`LineReader`)
- **The lease-based day runner** with crashes, restarts, stops and dying threads. (`DayRunner`,
  `DayRuns`, `DayProgress`)
- **The author/reviewer retry machine, worker reports and the health-ranked roster.**
  (`AuthorReviewer`, `WorkerReports`, `ModelRoster`)
- **The usage ledger**, saturating sums at two granularities. (`UsageLedger`)

Where the source changes state step by step, the model does: classes with `modifies` clauses
(`CoalescedEvents`, `Manager`, `StringInterner`, `ChunkedSource`, `LineBufferedRead`, `Ledger`,
`Recorder`) and methods with the source's loops, each proved against a specification function or
predicate; the theorems are about those, and say what the result is without naming how it is
computed. What lies outside the program is a parameter: the token estimate of an item (`cost`), a
waiter's condition (`met`), the disk and the set of indexable paths (`World`), the hash function,
worker runs (`runs`), scores and health statuses, clocks and process liveness (`now`, `pidAlive`),
and the choice of chunk and buffer sizes.

`dafny verify dfyconfig.toml` checks everything.

## Where the code and what is said about it differ

The model follows the code. Each of these has a concrete counterexample and, where the property is a
law, the exact condition under which it holds.

- `repair_history` is documented as idempotent. A call id declared twice by one assistant and
  answered by nobody gets two synthetic results, which the next repair reduces to one
  (`RepairTwiceCanChange`). A second repair is a no-op exactly when no such assistant exists
  (`SecondRepairIsNoopIff`); a third always is (`ThirdRepairIsNoop`).
- A wait that ends because the sender is gone takes the grid to be final. A resize after the feeder's
  exit still changes it, without a bump, so the report can show a grid on which the condition holds
  (`EndedCanMissAResize`). All output has been seen by then; only resizes can be missed
  (`EndedSawAllOutput`, `NoLostWakeup`).
- The truncation of an over-long text is meant to stay within its byte limit, but the marker is
  appended even when the limit has no room for it. It stays within exactly when the limit covers
  what is kept and a marker with as many digits as what is dropped needs (`TruncationFitsIff`); for
  limits up to the 64 bytes reserved that only depends on the length (`SmallLimitFitsIff`).
- Coalescing drops a change followed by a removal of the same path. If the path was indexed before
  the batch, its stale entry stays (`EditThenDeleteLeavesStaleEntry`, `CoalescingRefinesReplayIff`).
- An interned string of 65536 bytes or more is stored with its length cut to 16 bits
  (`NewStringComesBackIff`), and again under a new id each time (`InternOverlongTwice`).
- A query that quotes the closing `user_query` tag is cut short by the next compaction
  (`QuotedClosingTagIsLost`, `QuerySurvivesIff`).
- The removal of system tags from a query is documented to remove them all. A tag is stripped in one
  pass over the list of tags, so removing a later tag can put the halves of an earlier one together
  and a complete block comes out (`BlockCanBeLeft`). That takes a tag inside a tag: for a text with a
  `>` between any two `<` nothing is left (`NoneIsLeftIfSeparate`). How it comes about is exact: a
  block of a tag is left when, after the tag's own pass, the seam of a later removal spells one out
  that stays (`BlockIsLeftIff`, `CutMakesBlockIff`); and nothing is left exactly when stripping the
  result again changes nothing (`StrippingKeepsIff`).
- A done or failed job is meant to stay so, and it does once no thread has it in hand
  (`TerminalStays`); a null result changes nothing, since it comes with a failed report only
  (`TrippingChangesNothing`). There are two ways out. The handler for exceptions in a job also covers
  the line logged after its report: if that line cannot be printed, the done job is put back
  (`DoneCanBeLeft`). And the `reclaim` command may come while a job is past its lease, which is
  renewed only once: a job on its last attempt is failed under its thread's hands and then reported
  done (`FailedCanBeLeft`). Over all runs nothing is ever left exactly if every line can be printed and
  no reclaim finds such a job (`TerminalIsNeverLeftIff`) -- given that no two processes save the queue
  file at the same time.
- Saturating cost sums are conserved after every record exactly when the true sum never comes back
  from beyond the 64-bit limits (`ConservedThroughoutIff`), as it never does with non-negative costs
  (`BooksBalance`). The type of a subagent's entries admits negative costs; the ledger's own calls
  report none.

## Model

| member | source | states |
|---|---|---|
| `WaitProtocol.InvStep` | crates/codegen/ptyctl/src/wait.rs:97-129 | Every atomic step of feeder, resizers and waiters keeps the lock discipline, the flow of chunks, and what each waiter knows in each phase |
| `WaitProtocol.InvRun` | crates/codegen/ptyctl/src/session.rs:158-173 | The invariant holds after every interleaving |
| `WaitProtocol.NoLostWakeup` | crates/codegen/ptyctl/src/wait.rs:97-129 | In every interleaving a parked waiter that has seen the current generation, with no bump pending, last checked exactly the current grid, if and only if no resize came after the sender was gone that it has not checked |
| `WaitProtocol.TrueConditionWakes` | crates/codegen/ptyctl/src/wait.rs:97-129 | A parked waiter whose condition has come true, the sender alive, can be woken or has a bump on its way; the next row says what waking leads to |
| `WaitProtocol.WokenChecksAgain` | crates/codegen/ptyctl/src/wait.rs:97-121 | A parked waiter that can be woken while the lock is free can mark, lock and check, which ends in a match on the current grid if the condition holds there and else parks it again with this grid and generation seen |
| `WaitProtocol.FailureHasItsReason` | crates/codegen/ptyctl/src/wait.rs:116-127 | Over every interleaving a wait is reported unmatched only after its deadline passed, or, as ended, only after the closed watch was found |
| `WaitProtocol.FailingReportsTheGrid` | crates/codegen/ptyctl/src/wait.rs:116-127 | A waiter whose deadline passes or whose watch is closed can report, and then reports the current grid, unmatched |
| `WaitRounds.FeedRound` | crates/codegen/ptyctl/src/session.rs:158-173 | With the lock free the feeder brings the next chunk, as it is, to the grid and announces it once, changing nothing else |
| `WaitRounds.ResizeRound` | crates/codegen/ptyctl/src/session.rs:272-283 | With the lock free and the feeder running a resize reaches the grid with the size asked for and is announced once, changing nothing else |
| `WaitProtocol.EndedSawAllOutput` | crates/codegen/ptyctl/src/wait.rs:116-125 | An `ended` failure is reported only after a failed check of a grid with every chunk ever produced; what the report shows beyond it are resizes that found the sender gone, and it shows exactly the grid last checked if and only if there is none |
| `WaitProtocol.EndedCanMissAResize` | crates/codegen/ptyctl/src/session.rs:272-283 | An interleaving in which the reported final grid satisfies the condition that was reported unmatched |
| `WaitProtocol.MatchedWasTrue` | crates/codegen/ptyctl/src/wait.rs:100-115 | A match is reported only on a grid the terminal had and on which the condition holds |
| `WaitProtocol.ReadingExcludesWriting` | crates/codegen/ptyctl/src/wait.rs:166-175 | While a waiter reads the grid no step can change it and no second waiter reads |
| `WaitProtocol.ClosedMeansFinal` | crates/codegen/ptyctl/src/session.rs:85-90 | When the watch is closed and all generations are seen, the last check covered all output and nothing will be announced any more |
| `RawTail.Recorder.Push` | crates/codegen/ptyctl/src/wait.rs:202-214 | The tail is the last 2048 bytes of everything fed, or all of it |
| `RawTail.Recorder.PushAll` | crates/codegen/ptyctl/src/wait.rs:202-214 | The same over any sequence of chunks |
| `RawTail.TailOfTail` | crates/codegen/ptyctl/src/wait.rs:202-214 | Evicting early makes no difference to the tail of the whole stream |
| `HistoryRepair.RepairIsRunwise` | crates/codegen/xai-chat-state/src/compaction_utils.rs:983-1041 | The three passes together equal one rewriting of each assistant's run: last result per id, declared ids only, a synthetic result for the rest |
| `HistoryRepair.RepairRunCount` | crates/codegen/xai-grok-sampling-types/src/conversation.rs:2879-2936 | How many results of each id a repaired run holds |
| `HistoryRepair.RepairEstablishesPairing` | crates/codegen/xai-chat-state/src/compaction_utils.rs:983-1041 | After a repair every result is in the contiguous run of the assistant declaring its id, and every call of an assistant with distinct ids has exactly one result there |
| `HistoryRepair.RepairKeepsOtherItems` | crates/codegen/xai-chat-state/src/compaction_utils.rs:983-1041 | A repair neither drops, adds nor reorders anything but tool results |
| `HistoryRepair.SecondRepairIsNoopIff` | crates/codegen/xai-chat-state/src/compaction_utils.rs:971-1003 | A second repair reports no change exactly when no assistant of the original history declares an id twice that its run does not answer |
| `HistoryRepair.RepairIsNoopIff` | crates/codegen/xai-chat-state/src/compaction_utils.rs:971-1003 | A repair reports no change if and only if every result is in the run of its owner and every declared call is answered exactly once there |
| `HistoryRepair.ThirdRepairIsNoop` | crates/codegen/xai-chat-state/src/compaction_utils.rs:971-1003 | A third repair never reports a change |
| `HistoryRepair.RepairTwiceCanChange` | crates/codegen/xai-chat-state/src/compaction_utils.rs:983-1003 | A history on which the second repair still changes something |
| `RepairPasses.DedupDuplicateToolResults` | crates/codegen/xai-grok-sampling-types/src/conversation.rs:3006-3066 | The in-place loop keeps exactly the last result of each id in each run and counts what it removed |
| `RepairPasses.StripDisplacedToolResults` | crates/codegen/xai-chat-state/src/compaction_utils.rs:1015-1041 | The left-to-right scan keeps exactly the results in the run of their owner and lists the ids of the others |
| `RepairPasses.CollectInsertions` | crates/codegen/xai-grok-sampling-types/src/conversation.rs:2879-2936 | The collected insertions, spliced in at their positions, give the backfilled history |
| `RepairPasses.RepairDanglingToolCalls` | crates/codegen/xai-grok-sampling-types/src/conversation.rs:2879-2936 | Splicing from the back backfills every unanswered call after its run |
| `RepairPasses.RepairHistory` | crates/codegen/xai-chat-state/src/compaction_utils.rs:983-1003 | The whole repair gives a paired, answered history with all other items kept and each run holding the last answers and the made-up results of the next row; the report tells what each pass did |
| `RepairedRuns.RepairedIsRepaired` | crates/codegen/xai-chat-state/src/compaction_utils.rs:983-1041 | For every history, told without the passes: other items stay, each run becomes the last answer to each of its calls in their order, then a made-up result for each call without an answer in call order, and results outside such a run are gone |
| `RepairedRuns.KeptAreLastAnswers` | crates/codegen/xai-grok-sampling-types/src/conversation.rs:3006-3066 | The results kept of a run are those at exactly the positions that answer a declared call and have no later result of the same id |
| `RepairedRuns.SyntheticAreMadeUp` | crates/codegen/xai-grok-sampling-types/src/conversation.rs:2879-2936 | The results made up are one for exactly each unanswered call, naming its id and tool |
| `RepairedRuns.StrippedIdsCount` | crates/codegen/xai-chat-state/src/compaction_utils.rs:1015-1041 | The ids reported as stripped are those of the results stripped, each as often as it was |
| `RepairedRuns.ReportAddsUp` | crates/codegen/xai-chat-state/src/compaction_utils.rs:971-1003 | The items before a repair and the made-up results are as many as the items after it, the duplicates and the stripped ids |
| `Budget.FitConversationToBudget` | crates/codegen/xai-chat-state/src/compaction_utils.rs:128-161 | Everything if it fits; else System and the longest suffix of whole turns within the budget; else System and the truncated last turn |
| `Budget.SuffixStart` | crates/codegen/xai-chat-state/src/compaction_utils.rs:136-150 | The backward scan finds the longest suffix within the budget |
| `Budget.RecoverTruncatedTailUnit` | crates/codegen/xai-chat-state/src/compaction_utils.rs:163-195 | The truncated last turn is the trailing run of results behind its calls, each result cut to an equal share of what the calls leave, or else the last item cut to the budget; cutting keeps the longest prefix that leaves the reserve free and notes the bytes dropped |
| `Budget.ShareIsFair` | crates/codegen/xai-chat-state/src/compaction_utils.rs:163-195 | The share of each result is at least one token, affordable for all if it is more, and one token more would not be |
| `Budget.TruncationKeepsPrefix` | crates/codegen/xai-chat-state/src/compaction_utils.rs:226-242 | A text over the limit becomes its longest prefix of whole characters that leaves the reserve free, and a marker with the length of the rest |
| `Budget.DigitsStandFor` | crates/codegen/xai-chat-state/src/compaction_utils.rs:226-242 | The numeral in the marker stands for the number it is made from |
| `Budget.FitCutsLastTurn` | crates/codegen/xai-chat-state/src/compaction_utils.rs:128-195 | Where no whole turn fits, the result is System and the cut last turn |
| `Budget.FitKeepsPairing` | crates/codegen/xai-chat-state/src/compaction_utils.rs:128-195 | Fitting a paired history gives a paired history, for any cost function, the recovery branch included |
| `Budget.FitKeepsEnds` | crates/codegen/xai-chat-state/src/compaction_utils.rs:128-195 | A leading System stays first and the last item stays last, differing at most in its text |
| `Budget.FitStaysWithinBudget` | crates/codegen/xai-chat-state/src/compaction_utils.rs:128-161 | Outside the recovery branch the result is System plus an untouched suffix and costs at most the budget, or at most System |
| `Budget.TruncationFitsIff` | crates/codegen/xai-chat-state/src/compaction_utils.rs:226-242 | The truncated text is within the limit if and only if the text was, or the limit covers the kept bytes and a marker with enough digits for the dropped ones |
| `Budget.SmallLimitFitsIff` | crates/codegen/xai-chat-state/src/compaction_utils.rs:226-242 | Up to the reserved 64 bytes: if and only if the text was within it or its length has few enough digits |
| `Budget.TruncationFits` | crates/codegen/xai-chat-state/src/compaction_utils.rs:226-242 | Corollary: with room for the marker and fewer than 10^8 bytes it is within the limit |
| `Budget.TruncationOverflows` | crates/codegen/xai-chat-state/src/compaction_utils.rs:226-242 | Corollary: below the length of the marker every truncated text is over the limit |
| `SummaryCleaner.FormatCompactSummary` | crates/codegen/xai-chat-state/src/compaction_utils.rs:636-677 | The loops compute the cleaned summary; the rows on `SummaryText` say what that keeps and drops |
| `SummaryCleaner.PeelLeadingAnalysis` | crates/codegen/xai-chat-state/src/compaction_utils.rs:636-661 | The peel loop computes the peeled text; the rows on drafts say what is gone |
| `SummaryCleaner.PeeledHasNoLeading` | crates/codegen/xai-chat-state/src/compaction_utils.rs:636-661 | The peeled text has no leading scratchpad block, unless the loop stopped at one that is never closed |
| `SummaryCleaner.NeutralizeCompactionControlTokens` | crates/codegen/xai-chat-state/src/compaction_utils.rs:702-709 | Each of the six tokens is defused in turn |
| `SummaryCleaner.CollapseBlankLines` | crates/codegen/xai-chat-state/src/compaction_utils.rs:673-677 | Replacing until no triple newline is left; the next row says what that computes |
| `SummaryText.CollapseIsSqueeze` | crates/codegen/xai-chat-state/src/compaction_utils.rs:673-675 | Replacing until there is nothing to replace equals one pass that lets at most two newlines in a row through |
| `SummaryCleaner.CleanedIsClean` | crates/codegen/xai-chat-state/src/compaction_utils.rs:636-709 | For every input the output has none of the six control tokens, no triple newline and no blank ends |
| `SummaryCleaner.CleaningTwice` | crates/codegen/xai-chat-state/src/compaction_utils.rs:636-709 | Cleaning is idempotent |
| `SummaryCleaner.PlainTextPassesThrough` | crates/codegen/xai-chat-state/src/compaction_utils.rs:636-709 | Text without tokens and blank runs is only trimmed |
| `SummaryCleaner.NumberedSummaryIsPreserved` | crates/codegen/xai-chat-state/src/compaction_utils.rs:685-700 | A summary block that leads with a numbered section is kept whole, whatever tags it quotes |
| `SummaryText.PlainSummaryIsKept` | crates/codegen/xai-chat-state/src/compaction_utils.rs:662-697 | A block without drafting, numbered or not, is kept whole under the heading, and so is the text before and after it |
| `SummaryText.PlainBlockIsKept` | crates/codegen/xai-chat-state/src/compaction_utils.rs:662-697 | The same for the block alone |
| `SummaryText.DraftIsDropped` | crates/codegen/xai-chat-state/src/compaction_utils.rs:685-697 | Drafting in the block that ends in an orphan closing tag is dropped up to the last such tag, and what follows it is kept whole with the text around the block |
| `SummaryText.LeadingDraftIsDropped` | crates/codegen/xai-chat-state/src/compaction_utils.rs:638-653 | A closed draft before the summary, or at the start, is cut out and nothing else |
| `SummaryText.OpeningDraftIsDropped` | crates/codegen/xai-chat-state/src/compaction_utils.rs:638-653 | So is one that opens the summary block |
| `SummaryText.QuotedDraftIsKept` | crates/codegen/xai-chat-state/src/compaction_utils.rs:639-645 | One that follows text of the summary is left alone |
| `SummaryText.LaterDraftIsKept` | crates/codegen/xai-chat-state/src/compaction_utils.rs:639-645 | So is one that follows text where there is no summary block |
| `SummaryText.UnclosedDraftIsCut` | crates/codegen/xai-chat-state/src/compaction_utils.rs:654-660 | An unclosed draft is cut up to the summary |
| `SummaryText.UnclosedDraftIsAll` | crates/codegen/xai-chat-state/src/compaction_utils.rs:654-660 | Or to the end if there is no summary |
| `SummaryText.CleaningKeepsText` | crates/codegen/xai-chat-state/src/compaction_utils.rs:671-677 | For every input, once drafts are dropped and the block unwrapped, nothing but blanks is removed and nothing but zero-width spaces added |
| `SummaryText.UnblockedTextIsKept` | crates/codegen/xai-chat-state/src/compaction_utils.rs:662-677 | So a text without a draft and without a closed block keeps everything |
| `SummaryText.NoControlTagIsLeft` | crates/codegen/xai-chat-state/src/compaction_utils.rs:702-709 | None of the six control tags is left, whatever the input |
| `UserQuery.StripSystemTags` | crates/codegen/xai-chat-state/src/compaction_utils.rs:260-276 | The nested loops compute the stripped text, tag after tag; the next eight rows say what that leaves |
| `TagBlocks.BlockFoundIff` | crates/codegen/xai-chat-state/src/compaction_utils.rs:265-273 | The search for a block succeeds if and only if some opening tag is followed by a closing tag |
| `TagBlocks.PassLeavesNone` | crates/codegen/xai-chat-state/src/compaction_utils.rs:262-274 | After a tag's own pass no complete block of that tag is left |
| `TagBlocks.CutMakesBlockIff` | crates/codegen/xai-chat-state/src/compaction_utils.rs:262-274 | A removal brings back a block of another tag if and only if its seam spells the opening or the closing tag |
| `TagBlocks.BlockIsLeftIff` | crates/codegen/xai-chat-state/src/compaction_utils.rs:256-276 | How a block is left: the stripped text has a complete block of a system tag if and only if a later removal's seam spelled out one that stays |
| `TagBlocks.NoneIsLeftIfSeparate` | crates/codegen/xai-chat-state/src/compaction_utils.rs:256-276 | If there is a `>` between any two `<` of the text, the stripped text has no complete block of any system tag |
| `TagBlocks.StrippingTwice` | crates/codegen/xai-chat-state/src/compaction_utils.rs:256-276 | And stripping it twice is stripping it once |
| `TagBlocks.StrippingKeepsIff` | crates/codegen/xai-chat-state/src/compaction_utils.rs:260-276 | A trimmed text is left alone if and only if it has no complete block of any system tag |
| `TagBlocks.BlockCanBeLeft` | crates/codegen/xai-chat-state/src/compaction_utils.rs:256-276 | For every body, a block whose opening tag is split by an empty block of a later tag comes out whole |
| `UserQuery.LastWhere` | crates/codegen/xai-chat-state/src/compaction_utils.rs:392-398 | The last item that satisfies the predicate, or none does |
| `UserQuery.ExtractOfWrapped` | crates/codegen/xai-chat-state/src/compaction_utils.rs:281-290 | A trimmed query comes back from its wrapping exactly when it holds no closing tag and stripping system tags leaves it unchanged |
| `QueryText.QueryIsExtracted` | crates/codegen/xai-chat-state/src/compaction_utils.rs:281-290 | The query is what stands between the first pair of query tags, whatever surrounds them, trimmed and stripped |
| `QueryText.UntaggedIsStripped` | crates/codegen/xai-chat-state/src/compaction_utils.rs:281-290 | Without an opening tag it is the whole message, stripped |
| `QueryText.UnclosedIsStripped` | crates/codegen/xai-chat-state/src/compaction_utils.rs:281-290 | So it is if the tag is never closed |
| `QueryText.BlockIsCut` | crates/codegen/xai-chat-state/src/compaction_utils.rs:265-270 | Removing a block cuts out the block and nothing else |
| `QueryText.SystemBlockIsStripped` | crates/codegen/xai-chat-state/src/compaction_utils.rs:260-276 | A message with one system block loses exactly that block |
| `QueryText.ImageIsRealTurn` | crates/codegen/xai-chat-state/src/compaction_utils.rs:351-369 | A message with an image is a real user turn, even without text, exactly if the runtime did not write it |
| `QueryText.ContinuationIsNotReal` | crates/codegen/xai-chat-state/src/compaction_utils.rs:329-369 | A message that is only system blocks or a prompt to go on is none |
| `Compaction.ValidateCompactedHistory` | crates/codegen/xai-chat-state/src/compaction_utils.rs:900-919 | The scan returns exactly the ids of results with no earlier call, in order |
| `Compaction.SanitizeCompactedHistory` | crates/codegen/xai-chat-state/src/compaction_utils.rs:936-963 | The scan drops exactly those results and reports their ids |
| `Compaction.OrphansNoneIff` | crates/codegen/xai-chat-state/src/compaction_utils.rs:900-919 | Validation is clean if and only if every result has an earlier assistant declaring its id |
| `Compaction.SanitizeKeepsIff` | crates/codegen/xai-chat-state/src/compaction_utils.rs:936-963 | A result is kept if and only if a call before it declared its id |
| `Compaction.OrphansAreDropped` | crates/codegen/xai-chat-state/src/compaction_utils.rs:900-919 | The ids reported are those of exactly the results dropped, in order |
| `Compaction.SanitizeAgreesWithValidate` | crates/codegen/xai-chat-state/src/compaction_utils.rs:936-963 | A sanitized history validates clean, sanitizing again changes nothing, and what is dropped is what validation reports |
| `Compaction.StripKeptIsSanitizeKept` | crates/codegen/xai-chat-state/src/compaction_utils.rs:1015-1041 | Position by position, what the adjacency rule keeps the earlier-call rule keeps too |
| `Compaction.CompactedLayout` | crates/codegen/xai-chat-state/src/compaction_utils.rs:839-882 | A compacted history is, item by item: the system message, the prefix, the instructions if any, the wrapped query if any in the user's name, the assistants and results after the last real user turn in order with only result contents replaced, one message that ends in the cleaned summary and the hint, the reminder if any; and nothing else |
| `Compaction.CompactedOrphans` | crates/codegen/xai-chat-state/src/compaction_utils.rs:839-882 | Validating a compacted history reports exactly the orphans of the tail after the last real user turn |
| `Compaction.CompactedIsValidIff` | crates/codegen/xai-chat-state/src/compaction_utils.rs:839-882 | A compacted history is valid if and only if every result after the last real user turn has its call after that turn, too |
| `Compaction.CompactingPairedIsValid` | crates/codegen/xai-chat-state/src/compaction_utils.rs:445-465 | Compacting any paired history gives a valid one |
| `Compaction.QueryAfterCompaction` | crates/codegen/xai-chat-state/src/compaction_utils.rs:839-882 | The query found in a compacted history is the old one wrapped and extracted again, or none if that is synthetic |
| `Compaction.QuerySurvivesIff` | crates/codegen/xai-chat-state/src/compaction_utils.rs:329-398 | The last real query survives a compaction exactly when it is durable and not synthetic |
| `Compaction.QuerySurvivesAll` | crates/codegen/xai-chat-state/src/compaction_utils.rs:788-791 | And then any number of compactions |
| `Compaction.QuotedClosingTagIsLost` | crates/codegen/xai-chat-state/src/compaction_utils.rs:281-290 | A query quoting the closing tag does not survive |
| `IndexEvents.CoalescedEvents.Insert` | crates/codegen/xai-codebase-graph/src/index_manager.rs:1545-1570 | Inserting a change updates the coalescing map as its four-way rule says |
| `IndexEvents.CoalescedEvents.Add` | crates/codegen/xai-codebase-graph/src/index_manager.rs:1531-1543 | Adding an event inserts its changes in order, a rename as a removal and a creation |
| `IndexEvents.CoalescedTracks` | crates/codegen/xai-codebase-graph/src/index_manager.rs:1513-1570 | What the map holds for a path is a function of that path's own changes: its last kind, or nothing after a cancelled pair |
| `IndexEvents.CoalescedEntry` | crates/codegen/xai-codebase-graph/src/index_manager.rs:1133-1161 | Path by path, batch and replay agree unless the path's last two changes cancelled, it is indexable and was indexed; a cancelled path keeps its starting entry |
| `IndexEvents.CoalescingRefinesReplayIff` | crates/codegen/xai-codebase-graph/src/index_manager.rs:1513-1570 | A coalesced batch equals replaying event by event if and only if no indexed path ends in a cancelled pair |
| `IndexEvents.EditThenDeleteLeavesStaleEntry` | crates/codegen/xai-codebase-graph/src/index_manager.rs:1545-1570 | The failing family in its smallest form |
| `IndexEvents.BatchFollowsLastChange` | crates/codegen/xai-codebase-graph/src/index_manager.rs:1133-1161 | After a batch a changed indexable path has what the disk holds, or no entry if its last change was a removal not cancelled; every other path keeps its entry |
| `IndexEvents.OneEventOutcome` | crates/codegen/xai-codebase-graph/src/index_manager.rs:1531-1570 | An event that is no rename, alone, indexes its paths anew or drops them and touches no other |
| `IndexEvents.RenameMoves` | crates/codegen/xai-codebase-graph/src/index_manager.rs:1531-1543 | A rename drops the old path, indexes the new one and touches no other |
| `IndexEvents.ApplyNext` | crates/codegen/xai-codebase-graph/src/index_manager.rs:1133-1161 | Applying any pending path of the batch next keeps the others' outcomes, so the iteration order does not matter |
| `IndexManager.Manager.ApplyCoalesced` | crates/codegen/xai-codebase-graph/src/index_manager.rs:1133-1161 | In whatever order the map is iterated the index becomes the batch's outcome, and no snapshot changes |
| `IndexManager.Manager.ReindexFile` | crates/codegen/xai-codebase-graph/src/index_manager.rs:1182-1244 | The path's entry is replaced by what the disk holds, or removed; no snapshot changes |
| `IndexManager.Manager.Mutate` | crates/codegen/xai-codebase-graph/src/index_manager.rs:556-561 | A mutation through make_mut reaches no object that a snapshot refers to |
| `IndexManager.Manager.ProcessBackgroundRefresh` | crates/codegen/xai-codebase-graph/src/index_manager.rs:1100-1131 | Path by path: a supported stale path has what the disk holds, any other deleted path has no entry, every other path keeps its entry; no snapshot changes |
| `IndexManager.Manager.Handle` | crates/codegen/xai-codebase-graph/src/index_manager.rs:873-953 | A command without file events has its effect on index and answers; snapshots held before stay held with their contents, and a new one is recorded with its answer |
| `IndexManager.Manager.Drain` | crates/codegen/xai-codebase-graph/src/index_manager.rs:838-872 | Gathering stops at the first other command and loses, duplicates or reorders nothing |
| `IndexManager.Manager.ProcessCommandCoalesced` | crates/codegen/xai-codebase-graph/src/index_manager.rs:838-953 | Commands are conserved in order and the recursion never nests deeper than one |
| `IndexManager.Manager.RunLoop` | crates/codegen/xai-codebase-graph/src/index_manager.rs:797-825 | The whole loop takes the channel's commands in order up to a shutdown; every snapshot that is still held, handed out before or during the loop, has the contents of the answer it went out with |
| `IndexManager.QuerySeesExactlyWhatCameBefore` | crates/codegen/xai-codebase-graph/src/index_manager.rs:838-953 | Each query is answered on the index produced by exactly the commands and events queued before it |
| `IndexManager.BatchingDoesNotMatter` | crates/codegen/xai-codebase-graph/src/index_manager.rs:838-872 | However the drain cuts the events into batches, with the disk fixed the index equals handling every event on its own, unless a batch leaves a stale entry |
| `Interner.StringInterner.InternBytes` | crates/codegen/xai-codebase-graph/src/interner.rs:119-145 | Within the widths, interning is appending to a list of distinct strings and returning the position; in any state the string is found under an id that gives it back or stored, and one of 65536 bytes or more is always stored anew |
| `Interner.StringInterner.InternOverlongTwice` | crates/codegen/xai-codebase-graph/src/interner.rs:119-145 | Interning a string of 65536 bytes or more twice gives two ids |
| `Interner.StringInterner.GetBytesId` | crates/codegen/xai-codebase-graph/src/interner.rs:157-169 | The bucket scan agrees with linear search in the list, for any hash function |
| `Interner.StringInterner.GetBytes` | crates/codegen/xai-codebase-graph/src/interner.rs:180-187 | The id's string in the list, or none beyond the list |
| `Interner.StringInterner.InternThenGet` | crates/codegen/xai-codebase-graph/src/interner.rs:119-187 | Over any sequence of interns, looking up the ids afterwards gives exactly the strings back |
| `Interner.StringInterner.InternAll` | crates/codegen/xai-codebase-graph/src/interner.rs:119-145 | Over any sequence of interns the contents and ids are those of the list |
| `Interner.StringInterner.FromParts` | crates/codegen/xai-codebase-graph/src/interner.rs:286-303 | Rebuilding indexes exactly the spans that lie in the arena |
| `Interner.StringInterner.Restored` | crates/codegen/xai-codebase-graph/src/interner.rs:286-303 | A rebuilt interner has the same strings under the same ids |
| `Interner.IdsPointAtStrings` | crates/codegen/xai-codebase-graph/src/interner.rs:119-145 | The id handed out for each string is where that string is in the final list |
| `Interner.EqualIdsIffEqualStrings` | crates/codegen/xai-codebase-graph/src/interner.rs:119-145 | Two interns give equal ids if and only if the strings are equal |
| `Interner.IdsAreDense` | crates/codegen/xai-codebase-graph/src/interner.rs:119-145 | The ids handed out are exactly the positions of the list |
| `Interner.ListedAllKeeps` | crates/codegen/xai-codebase-graph/src/interner.rs:119-145 | Ids are stable: later interns only extend the list |
| `Interner.NewStringComesBackIff` | crates/codegen/xai-codebase-graph/src/interner.rs:131-142 | A new string comes back from its id if and only if it is shorter than 65536 bytes |
| `LineReader.ChunkedSource.ReadLineCapped` | crates/codegen/xai-acp-lib/src/line_reader.rs:140-177 | However the source is chunked, the call returns the first frame of the remaining bytes and leaves the rest |
| `LineReader.LineBufferedRead.ReaderTurn` | crates/codegen/xai-acp-lib/src/line_reader.rs:66-88 | One turn of the reader task conserves the frames |
| `LineReader.LineBufferedRead.PollRead` | crates/codegen/xai-acp-lib/src/line_reader.rs:96-133 | Served bytes are conserved; Pending only when no part of a line is buffered; an empty read only when everything has been served |
| `LineReader.LineBufferedRead.Run` | crates/codegen/xai-acp-lib/src/line_reader.rs:66-133 | Under any interleaving and buffer sizes what was served is a prefix of the lines |
| `LineReader.ReadToEnd` | crates/codegen/xai-acp-lib/src/line_reader.rs:66-133 | For every chunking, every sequence of non-empty buffers and every pattern of the reader task running ahead, the client gets exactly the source bytes, or exactly the lines before the first oversized one and an error |
| `LineReader.FramesAreTheSource` | crates/codegen/xai-acp-lib/src/line_reader.rs:140-177 | Without an oversized line the frames concatenate to the source |
| `LineReader.FramesAreLines` | crates/codegen/xai-acp-lib/src/line_reader.rs:140-177 | Every frame but an error is one non-empty line within the limit with a newline at most at its end, and only the last may lack it |
| `LineReader.FramesStopAtOversized` | crates/codegen/xai-acp-lib/src/line_reader.rs:140-177 | With one, they are the lines before the first of them and the error |
| `LineReader.FramesOfFailingSource` | crates/codegen/xai-acp-lib/src/line_reader.rs:66-88 | A failing source loses only its unfinished last line |
| `DayRunner.ReclaimStale` | experimental/scripts/ik_day_runner.py:104-150 | Exactly the jobs in progress with an expired lease or a dead owner are retried: pending and nobody's while attempts are left, else failed; all else of them and all other jobs are kept; exactly their ids are reported |
| `DayRunner.ClaimJobs` | experimental/scripts/ik_day_runner.py:153-185 | Exactly the first n pending jobs by priority, age and position are leased to the runner, each using an attempt; all else is kept |
| `DayRunner.UpdateJob` | experimental/scripts/ik_day_runner.py:187-196 | The job with the id, and no other, is rewritten |
| `DayRunner.DayStopRequeue` | experimental/scripts/ik_day_runner.py:749-762 | Every claimed or running job becomes pending with lease and owner cleared and id, attempts, limit, priority and time kept; every other job is unchanged; exactly the ids of the former are reported |
| `DayRuns.InvStep` | experimental/scripts/ik_day_runner.py:228-386 | Every step -- start, crash, stop, add, reclaim at any time, claim, mark, renew, report, exception, return, a null result, a line that cannot be printed, a dying thread -- keeps attempts within the limit plus stops, ids unique and threads in step with their jobs |
| `DayRuns.StepKeepsJobs` | experimental/scripts/ik_day_runner.py:187-196 | No step drops, duplicates, renames or reorders a job, steps being atomic |
| `DayRuns.ThreadStepEffect` | experimental/scripts/ik_day_runner.py:228-386 | What each step of a worker thread makes of its job, field by field: running, renewed, done, or retried; no other job is touched |
| `DayRuns.QueueStepEffect` | experimental/scripts/ik_day_runner.py:104-185 | The same for reclaim, claim, add, start and crash |
| `DayRuns.StopPutsBack` | experimental/scripts/ik_day_runner.py:749-762 | After a stop no job is in progress, and exactly the jobs that were are newly pending and counted as put back |
| `DayRuns.DoneMeansSuccess` | experimental/scripts/ik_day_runner.py:309-383 | Over every run a job is done only if its thread reported success |
| `DayRuns.AttemptsAreBounded` | experimental/scripts/ik_day_runner.py:153-185 | Over every run a job's attempts never exceed its limit plus the number of stops that put it back, and a failed job has used up its limit |
| `DayRuns.TrippingChangesNothing` | experimental/scripts/ik_day_runner.py:346-383 | Tripping over a null result after a report leaves the queue as it was |
| `DayRuns.TerminalIsLeftIff` | experimental/scripts/ik_day_runner.py:309-383 | A step changes the status of a done or failed job if and only if it is the failure to print the line after a successful report, or the mark or successful report of a thread whose job a reclaim has failed in its hands |
| `DayRuns.TerminalStays` | experimental/scripts/ik_day_runner.py:309-383 | Over every run a done or failed job that no thread has in hand, or whose thread has only printable lines left to log, never changes status |
| `DayRuns.TerminalIsNeverLeftIff` | experimental/scripts/ik_day_runner.py:309-383 | Over all runs from the empty queue no done or failed job ever changes status, if and only if every line can be printed and no reclaim finds a job past its lease in the hands of a thread |
| `DayRuns.DoneCanBeLeft` | experimental/scripts/ik_day_runner.py:360-383 | A run from the empty queue in which a line cannot be printed and a done job becomes pending again |
| `DayRuns.FailedCanBeLeft` | experimental/scripts/ik_day_runner.py:104-150 | A run from the empty queue in which a reclaim from outside fails a job on its last attempt and its thread then reports it done |
| `DayProgress.WorkToTheEnd` | experimental/scripts/ik_day_runner.py:583-594 | However the worker threads interleave and whatever the outcomes, they finish; the jobs left leased are exactly those whose threads died outside the code that catches exceptions |
| `DayProgress.RunCycle` | experimental/scripts/ik_day_runner.py:550-602 | From any queue: a cycle claims the first pending jobs after the reclaim, strictly lowers the attempts left unless it is idle, is idle exactly when nothing is pending, and leaves leased just what the reclaim did not free and the claimed jobs whose threads died; jobs are conserved |
| `DayProgress.DayLoop` | experimental/scripts/ik_day_runner.py:605-667 | At most as many cycles are busy as attempts are left and an idle one leaves nothing to do; with one more clear cycle than attempts left -- clear: what was leased at the start has been stale, and the leases of cycles with a dying thread have been over, by then -- every job is done or failed, however long leases outlast cycles; without dying threads and with nothing leased at the start every cycle is clear, and as many as attempts left suffice |
| `DayProgress.AlwaysClear` | experimental/scripts/ik_day_runner.py:605-667 | If only cycles with a dying thread need their leases to end before the next, and what was leased at the start is stale at first, every cycle is clear |
| `AuthorReviewer.ChainHasTwoWorkers` | experimental/scripts/ik_herdr_free.py:2243-2251 | The chain repeats no key, starts with the primary, and has two different workers if two are known |
| `AuthorReviewer.ChainIsRanked` | experimental/scripts/ik_herdr_free.py:2243-2251 | The chain is the health order with the primary moved to the front |
| `AuthorReviewer.Attempt` | experimental/scripts/ik_herdr_free.py:1043-1073 | The author writes; if it does not deliver and there is another worker, that one writes, and the roles swap if it delivers or scores higher |
| `AuthorReviewer.AttemptDelivers` | experimental/scripts/ik_herdr_free.py:1043-1073 | So roles stay or swap, one or two author runs and no review happen, and the author is ok exactly when one of them was |
| `AuthorReviewer.AuthorReviewerPass` | experimental/scripts/ik_herdr_free.py:1027-1188 | For any worker outcomes the log starts with the primary, takes turns, has no review after one that passed, and reviews by the other worker only; there are at most 1 + max_retries of them; a report is not ok only if the author did not deliver, the review was no good or the retries are used up; an ok report means that the last step was the other worker passing exactly the output returned, which is not empty |
| `WorkerReports.OneshotReport` | experimental/scripts/ik_herdr_free.py:1960-1990 | A run is ok exactly when every condition of the script holds, and then its result is not empty |
| `WorkerReports.InteractiveReport` | experimental/scripts/ik_herdr_free.py:2138-2215 | A run in a pane is ok exactly when its first reading or, after an interrupt, its second delivers, and then its result is not empty |
| `WorkerReports.RunWithFailover` | experimental/scripts/ik_herdr_free.py:2318-2408 | The first settling success wins, else the first best thin one, under that worker's key; ok exactly when some run is; the law that success has a result is kept |
| `ModelRoster.RankCandidates` | experimental/scripts/ik_model_roster.py:553-590 | The ranking holds exactly the usable candidates, each ranked at its first position |
| `ModelRoster.PickBestModel` | experimental/scripts/ik_model_roster.py:532-623 | The pick is the seed exactly when in sticky mode it is fit and the best or not beaten by the margin, or when all rank below -50 and it is not excluded; otherwise it is the best-ranked candidate not excluded; exclusion is lifted only when everything is excluded |
| `ModelRoster.BestIsUnique` | experimental/scripts/ik_model_roster.py:605-607 | There is only one best-ranked candidate, so the pick is determined |
| `ModelRoster.RestedNeverWins` | experimental/scripts/ik_model_roster.py:584-589 | A model in cooldown or banned is not the best while a candidate ranks above -100 |
| `ModelRoster.BestScoresHighest` | experimental/scripts/ik_model_roster.py:577-589 | No healthy candidate has a score above that of the best, but for the price of positions and, if the best is poor, of that |
| `ModelRoster.ChoiceLeft` | experimental/scripts/ik_model_roster.py:632-693 | With more distinct choices than models taken one is left (pigeonhole) |
| `ModelRoster.RebuildRoster` | experimental/scripts/ik_model_roster.py:632-693 | Every slot has the pick among what its earlier siblings left, else among all its candidates. Anti-collapse: the slots of a provider that is not banned and has at least as many case-fold-distinct usable models as slots get pairwise distinct models, for any scores, statuses and slot order |
| `UsageLedger.Ledger.RecordMainLoopCall` | crates/codegen/xai-chat-state/src/usage.rs:114-125 | Prompt tokens are added to the input, completion tokens to the output, and so on field by field; a cost that is not positive counts as missing; both granularities balance if no cost is negative; main-loop calls never exceed all calls |
| `UsageLedger.Ledger.RecordSubagent` | crates/codegen/xai-chat-state/src/usage.rs:127-134 | Entries of any cost are folded in; all counts are conserved at both granularities, and so are costs if none is negative; `incomplete` is never reset |
| `UsageLedger.Ledger.MarkIncomplete` | crates/codegen/xai-chat-state/src/usage.rs:136-138 | Only the flag changes, to true |
| `UsageLedger.FoldIsClippedPlus` | crates/codegen/xai-chat-state/src/usage.rs:71-98 | Folding into a saturated sum gives the saturated true sum |
| `UsageLedger.ModelsPartitionTheEntries` | crates/codegen/xai-chat-state/src/usage.rs:140-147 | Summing per model and then over models gives the sum of all entries |
| `UsageLedger.ModelTotalsAddUp` | crates/codegen/xai-chat-state/src/usage.rs:110-147 | The saturated sum over by_model equals the saturated true total |
| `UsageLedger.FoldingKeepsBalance` | crates/codegen/xai-chat-state/src/usage.rs:110-147 | Folding one more entry keeps totals, by_model and the true sums in agreement |
| `UsageLedger.CostAbsentIffUnreported` | crates/codegen/xai-chat-state/src/usage.rs:93-98 | The total cost is absent exactly when no entry reported one |
| `UsageLedger.MergeIsClippedPlusIff` | crates/codegen/xai-chat-state/src/usage.rs:93-98 | Merging one cost into a saturated sum gives the saturated true sum if and only if the sum does not come back from beyond a limit |
| `UsageLedger.ConservedThroughoutIff` | crates/codegen/xai-chat-state/src/usage.rs:71-98 | Over any sequence of records the totals are the saturated true sums throughout if and only if the true cost never comes back from beyond a limit |
| `UsageLedger.BooksBalance` | crates/codegen/xai-chat-state/src/usage.rs:110-147 | After any records with non-negative costs every total equals the saturated true sum and the saturated sum over by_model |
| `UsageLedger.CountsAreConserved` | crates/codegen/xai-chat-state/src/usage.rs:71-91 | Tokens, calls and durations are conserved whatever the costs |
| `UsageLedger.CountsAreFieldSums` | crates/codegen/xai-chat-state/src/usage.rs:71-91 | Each count of the ledger is the saturated sum of that very count over the records |
| `UsageLedger.CostIsSumOfReported` | crates/codegen/xai-chat-state/src/usage.rs:93-98 | The true cost is the sum of the costs reported, absent exactly when none was |
| `UsageLedger.SumOfIsSum` | crates/codegen/xai-chat-state/src/usage.rs:140-147 | The true sum of a model is that of the records with its name |
| `UsageLedger.CountsByModelAreConserved` | crates/codegen/xai-chat-state/src/usage.rs:110-147 | So they are by model: each slot has the saturated counts of its model's entries, and the slots add up |
| `UsageLedger.NegativeCostBreaksConservation` | crates/codegen/xai-chat-state/src/usage.rs:93-98 | The smallest sequence in which the sum comes back |

## Left out

- `StableMs` waits: their outcome depends on which ready branch `select!` takes and on wall-clock time.
- PTY, terminal emulation, screen rendering, HTTP and WebSocket: the terminal is the history of operations applied to it, and conditions are arbitrary functions of that history.
- `watch` is taken to report an unseen value before closure, as the tokio documentation promises; its implementation is not modelled.
- Tree-sitter parsing, the scope graph, cache files, cross-process locks and cache-save timing: the index is a map from path to symbols.
- IndexManager.Manager.ReindexFile: identifies a path with its key relative to the root, so two spellings of one path in a batch are two paths here.
- Token sums of a conversation are unbounded integers; a sum beyond 64 bits is not modelled.
- The alternative compacted-history layout with the summary before the recent messages, which the code compiles in as never chosen.
- Reasoning and image stripping, segment rendering, keyword extraction, transcript hints: filters and formatting.
- UserQuery.LastWhere: `extract_last_user_query` and `extract_real_user_queries` are the same search with another predicate or with all hits and are not modelled separately.
- DayProgress.DayLoop: no reclaim from outside, stop, add or crash during the loop; an endless loop is covered by its prefixes; sleeping, dashboards and metrics are not modelled.
- DayRuns.InvStep: writing the queue file succeeds as a whole or leaves it as it was; a torn file is not modelled.
- DayRuns.StepKeepsJobs: every step loads and saves the queue file as a whole; an add or reclaim from another process, which takes no lock, that overlaps an update of the runner would lose one of the two writes and is not modelled.
- DayRuns.AttemptsAreBounded: a stop kills the runner and puts its jobs back in one step; one runner at a time; the queue worker daemon, a second kind of runner, is not modelled.
- DayRunner.ClaimJobs: timestamps are integers in place of ISO strings; job payload and progress logs are not modelled.
- AuthorReviewer.AuthorReviewerPass: a worker run and the parsing of its verdict are an oracle; an empty chain, on which the script raises an index error, is a report of its own here.
- AuthorReviewer.ChainHasTwoWorkers: the health order is a parameter, assumed to list every known worker once or to be empty.
- ModelRoster.RebuildRoster: the order of slots is a parameter, and so are scores and statuses; the floating-point weights, time parsing, the written roster file and its metadata are not modelled.
- ModelRoster.PickBestModel: the returned score, which only feeds reports, is not modelled.
- WorkerReports.RunWithFailover: the parallel mode, whose winner the mesh scoring picks, is not modelled; the runner only uses the sequential one.
- LineReader.LineBufferedRead.ReaderTurn: the channel between the reader task and its client is unbounded here (64 frames in the source), which allows more interleavings, not fewer.
- LineReader.ReadToEnd: client buffers are non-empty, since an empty buffer cannot tell the end of the stream from a full buffer; PollRead itself covers empty ones.
- The gateway, message enums, chat-state commands, persistence and the command-line front ends: plumbing over libraries and code without a law of their own.
