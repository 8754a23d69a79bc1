# Meterbility: a verified model of its stores, captures and parsers

Meterbility records what coding agents do. Adapters rebuild conversations as runs of steps in a
SQLite table, captures turn file-system snapshots into change rows that replay turns back into
trees, a proxy groups and reassembles streamed model calls, and a live inspector announces new
steps. This project models that logic in Dafny and proves what it keeps.

| module | models |
|---|---|
| `StepTable` | the `steps` and `file_change` tables as a class, with the statements that write them |
| `CursorIngest`, `CursorBands` | the Cursor adapter's re-ingest of a conversation, and its reserved sequence bands |
| `CopilotRouting`, `CopilotCarve`, `CarvedSteps`, `CopilotCommit`, `CopilotFleet` | event routing with memo, the carve of a fleet into runs and where each step comes from, the commit of one run and of all in one transaction |
| `LineDiff` | the LCS line diff |
| `Replay`, `ChangeLog`, `Manifest` | applying change rows, the order they are stored and replayed in, and the baseline manifest |
| `HookCapture`, `StashDrain`, `FileSentinel`, `SentinelRuns`, `SentinelDisk` | change capture by hooks and by watching, attribution, and what snapshot and replay show of the disk after whole sessions |
| `LiveInspector` | the announcing cursors of the live inspector |
| `JsonLines`, `CodexUsage`, `CodexTraces` | session parsing from an offset; token and patch attribution of the Codex adapter, traced to the records |
| `SseFraming`, `ChunkTimes`, `StreamReassembly`, `StreamRecuts`, `RunGrouper`, `GroupedTurns` | the proxy: event framing, arrival times, stream rebuilding however it is cut, conversation grouping |
| `Lineage` | the depth-first listing of a run's descendants |

Code that changes state in place is a class or a loop, proved against a specification function or
relation; the theorems are lemmas about that specification. Hashes that name rows are injective
constructors. Clocks, scans, random ids and JSON readers are inputs.

Some promises do not hold for every input. For these the condition is stated and proved in both
directions, with a lemma that gives an input where the promise fails.

* A Copilot commit of one run rebuilds its main band exactly when no stored step is carved at a higher
  index than the sequence it is stored at (`NothingMovesUp`) and its change rows keep the change
  invariants; the transaction over a fleet goes through with every run rebuilt exactly when every run
  meets that (`CommitFleet`). Two steps carved in swapped order always fail (`SwappedStepsNeverCommit`).
* Capture and replay agree exactly when no path falls out of the size cap or back into it between
  the two looks (`CoverageKept`; `GrowthPastCapDiverges`). The manifest holds what is on disk exactly
  when no content changes under the same size and mtime (`SameStatHidesChange`).
* A second pass over a stash record inserts nothing exactly when it finds no step, or the step it
  finds carries every delta without the first pass, or it is the first pass's step and each delta kept
  its refs in its row. The comment at packages/server/src/hook_capture.ts:359-361 promises it for every
  record. A modification that grows past the cap is inserted twice (`OversizeGrowthDrainsTwice`), and so
  is any delta when the record's own step is ingested after a sibling claimed it by time alone
  (`LateExactStepDrainsAgain`).
* A run's rows, replayed by step and then by sequence, show what was last seen exactly when every
  content the watcher moves is attributed to a step of the run that no row of a later step outranks
  there, readable on both sides within the cap, not stored for the step by another writer, and no
  repeat of a transition of its path within the step. A late tool call row replays before the step's
  watch rows, whatever the order of arrival (`LateToolRowReplaysFirst`). The duplicate test drops the
  last of x to y, y to x, x to y (`RepeatedWriteIsDropped`), and a write attributed to an earlier step
  or another run stays hidden (`GoingBackHidesLastWrite`); replay then differs from the disk.
* After a flush its path is tracked as it lies on disk exactly unless a folder took the place of a file
  tracked there (`FlushSettlesIff`); that file stays in the snapshot (`ReplacedFileStaysTracked`).
* Resuming a JSONL file at the end of its last record equals reading it whole, for every way the
  file can grow, exactly when the tail does not parse yet. A parsed tail that goes on keeps its short
  record and loses the line (`ExtendedTailDoesNotResume`); one that is closed is counted one byte
  short (`ClosedTailDoesNotResume`).
* Stored Codex input tokens add up exactly when no step reports more cached input than input
  (`CachedBeyondInputAddsUp`). Step and change ids survive every growth of a file exactly when its
  `session_meta` was read, or no step was (`LateMetaRenames`).
* Every grouped call gets an entry of its own provider exactly when no explicit run id in use is the
  digest of a conversation seed (`DigestIdIsShared`).
* Unnamed conversations whose system prompts have equally many lines are told apart exactly by provider,
  model, system prompt and first user message (`OpeningTells`); a line break moved from the prompt to the
  message goes unnoticed (`MovedBreakIsUnnoticed`).
* Two carved steps share an id exactly when they are of one run and the events they come from share a key
  (`SameIdIff`; `RepeatedKeySharesId`).
* The next sequence of a band is its first free slot exactly when the band has no gap
  (`GapMakesCountCollide`).

Two steps of one grouped run get the same number exactly when an explicit run id is entered again
after its entry was evicted (`NumbersRepeatIffReentered`).

## Model

| member | source | states |
|---|---|---|
| StepTable.Store.InsertStep | packages/collector/src/queries.ts:314-391 | the two-arm upsert succeeds exactly when a row found by id moves to a free slot; found only by slot, the stored id survives |
| StepTable.Store.InsertFileChange | packages/collector/src/queries.ts:1088-1200 | a row that breaks the change invariants is refused, a taken id or (step, sequence) is a duplicate, a missing step a foreign-key failure, and only otherwise is the row added |
| StepTable.Store.DeleteStepsFromSequence | packages/collector/src/queries.ts:517-537 | deletes exactly the run's rows in the range, their children with them, and keeps slots unique and children attached |
| StepTable.Store.OffsetStepSequences | packages/collector/src/queries.ts:545-574 | moves every row below the bound by one offset past all others and leaves every slot unique |
| StepTable.Store.MigrateStepId | packages/collector/src/queries.ts:589-615 | renames one row with its children, parent links and notes, and fails without effect when the id is taken |
| StepTable.OffsetNeverCollides | packages/collector/src/queries.ts:545-574 | at every moment of the row-by-row offset, moved and unmoved rows share no slot |
| CursorIngest.DedupeBubbles | adapters/cursor/src/ingest.ts:286-299 | the fetched rows at strictly increasing positions, just those whose id no earlier row has |
| CursorIngest.WalkIsFetchOrder | adapters/cursor/src/ingest.ts:286-299 | the walk is the fetched conversation at strictly increasing positions: every user or assistant bubble whose id was not fetched before, and nothing else |
| CursorIngest.DetectShift | adapters/cursor/src/ingest.ts:320-361 | shifted exactly when some bubble's step sits elsewhere in the walk or another deterministic step holds its slot |
| CursorIngest.PlanMigrations | adapters/cursor/src/ingest.ts:363-385 | one rename per legacy row inside the conversation, to the id of the bubble at its slot, with no name used twice |
| CursorIngest.BuildSteps | adapters/cursor/src/ingest.ts:387-541 | row i carries bubble i's id and content under the id of bubble i-1; the added count and the tool steps come out as specified |
| CursorIngest.ToolStepsAreTurns | adapters/cursor/src/ingest.ts:526-530 | the steps left to have their file changes extracted are the tool turns, all of them, in order, each under its own id |
| CursorIngest.RunMigrations | adapters/cursor/src/ingest.ts:562-574 | all renames succeed, every row, parent link and note follows its new name and no child is left behind |
| CursorIngest.RenameDanglesMidway | packages/collector/src/queries.ts:589-615 | between the two statements of a rename a child does dangle, and after the second none does |
| CursorIngest.UpsertWalk | adapters/cursor/src/ingest.ts:575-591 | on a vacated table no upsert violates a key and the walk overwrites exactly its own rows |
| CursorIngest.Settles | adapters/cursor/src/ingest.ts:561-591 | staging, upserting and trimming leave exactly the reconciled table, from either staging route |
| CursorIngest.IngestOneComposer | adapters/cursor/src/ingest.ts:245-627 | skips exactly when a guard holds, never rolls back on a healthy table, and otherwise sequence i of the walk range tells the i-th user or assistant bubble first fetched, parent, action, status, context and all, and nothing else is there; every other row, child and note is as specified |
| CursorIngest.ConversationIsTold | adapters/cursor/src/ingest.ts:387-541 | a reconciled walk holds, turn by turn in fetch order, the role, text, tool, status and time of each turn, the id of the turn before it as parent and the turns it heard as context |
| CursorIngest.NotesFollow | adapters/cursor/src/ingest.ts:562-574 | a note on a legacy row of the walk moves to the bubble at its place, every other note stays |
| CursorIngest.ParentsFollow | packages/collector/src/queries.ts:589-615 | rows of the bands keep every column, and their parent link follows a legacy row of the walk to the bubble at its place; rows of other runs stay |
| CursorIngest.SettledAfterIngest | adapters/cursor/src/ingest.ts:320-361 | after an ingest the same conversation is unshifted, healthy, has nothing new, and every row keeps its id |
| CursorIngest.AddedIsNovel | adapters/cursor/src/ingest.ts:448-453 | the step count reported as added is the number of bubbles no stored row answers to |
| CursorIngest.ReingestChangesNothing | adapters/cursor/src/ingest.ts:245-627 | a second ingest of the same snapshot adds, drops and re-parents nothing, and changes no row when the stamps agree |
| CursorIngest.ChildrenOfSurvivorsKept | adapters/cursor/src/ingest.ts:561-591 | children of bubbles still in the conversation survive any rebuild, legacy ones under the new id, and no child dangles afterwards |
| CursorBands.NextSequenceInBand | adapters/cursor/src/bands.ts:30-42 | the count never passes the limit, and names the first free slot of the band exactly when the band has no gap |
| CursorBands.CountIsFirstFree | adapters/cursor/src/bands.ts:30-42 | in a gapless range the occupied slots are exactly those below base plus count |
| CursorBands.FullPrefixCount | adapters/cursor/src/bands.ts:30-42 | n slots each held once make n rows |
| CursorBands.GapMakesCountCollide | adapters/cursor/src/bands.ts:30-42 | with a gap the count can name a taken slot |
| CursorBands.BandedIsHealthy | adapters/cursor/src/ingest.ts:245-627 | a banded table is one any run can be ingested into without a rollback |
| CursorBands.InsertBandStep | adapters/cursor/src/hooks.ts:149-209 | a known step keeps its slot, a new one takes the first free slot, the band stays gapless, and the write is one of the events of `BandsHoldOverRuns` |
| CursorBands.BandsHoldOverRuns | adapters/cursor/src/ingest.ts:575-591 | over any interleaving of walk ingests and band writers, from any banded table with or without legacy rows, base plus count is every band's first free slot, every row stays in its plane and every run stays ingestable |
| CursorBands.OtherPlanesUntouched | adapters/cursor/src/admin_api.ts:315-351 | no event moves, rewrites, deletes or adds rows of another plane or run; only a parent link may follow a rename |
| CopilotRouting.Router.RouteByAncestry | adapters/github-copilot/src/ingest.ts:341-378 | the memoised walk returns the plain walk's owner and unrouted flag on any parent map, and memoises only ids on the walk |
| CopilotRouting.Router.RegisterChild | adapters/github-copilot/src/ingest.ts:693-763 | after registering a child the memo is right exactly when no other memoised walk passes its start |
| CopilotRouting.PlainRouteIs | adapters/github-copilot/src/ingest.ts:340-378 | a walk that decides within any number of steps decides the same as one bounded by the ids left to visit |
| CopilotRouting.CycleNeverDecides | adapters/github-copilot/src/ingest.ts:340-378 | a walk inside a cycle never decides, so the visited check alone ends it |
| CopilotRouting.RouteAfterStart | adapters/github-copilot/src/ingest.ts:303-378 | registering a start reroutes exactly the walks that pass it |
| CopilotRouting.UnmemoisedIsNotMet | adapters/github-copilot/src/ingest.ts:340-378 | a start no walk has visited is passed by no memoised walk |
| CopilotRouting.Router.RouteEvent | adapters/github-copilot/src/ingest.ts:303-378 | an event goes to its interaction's owner, else to a known sub-agent, else where the plain ancestry walk leads, and only such a walk adds to the memo |
| CopilotRouting.RouteStream | adapters/github-copilot/src/ingest.ts:303-378 | over any stream whose starts come before the walks that pass them, every event, starts included, goes to the started sub-agent it names, else where the memo-free ancestry walk leads |
| CopilotRouting.RouteByChains | adapters/github-copilot/src/ingest.ts:340-378 | an ancestry walk leads to a child exactly when a chain of parent ids through no other start ends on its start, to the root exactly when one ends on an event without a parent, nowhere exactly otherwise |
| CopilotRouting.NamedEventGoesToChild | adapters/github-copilot/src/ingest.ts:336-340 | an event that names a sub-agent goes to the child last started under that name before it |
| CopilotRouting.DescendantGoesToChild | adapters/github-copilot/src/ingest.ts:340-378 | any other event goes to the child whose start its parent ids lead up to first, among those started before it |
| CopilotRouting.IndexCalls | adapters/github-copilot/src/ingest.ts:257-270 | the scan of the file gives each tool call the interaction of its first completion that names one |
| CopilotRouting.StartGoesWithCompletion | adapters/github-copilot/src/ingest.ts:303-334 | a tool start goes where the first completion of its call goes |
| CopilotRouting.EndGoesWithStart | adapters/github-copilot/src/ingest.ts:303-334 | a turn end goes where the start that last used its turn id goes |
| CopilotRouting.UnjoinedStaysWithParent | adapters/github-copilot/src/ingest.ts:303-334 | sub-agent life cycle events, and events nothing joins to an interaction, stay with the parent run |
| CopilotCarve.Carve.AddStep | adapters/github-copilot/src/ingest.ts:388-429 | appends one step numbered by the length before and chained to the last; `EventAdds` says which id, kind and outcome it has |
| CopilotCarve.Carve.CompleteTool | adapters/github-copilot/src/ingest.ts:647-692 | settles the call of its own run, else the oldest pending call of its context, else nothing, and drops just that entry |
| CopilotCarve.CarveStream | adapters/github-copilot/src/ingest.ts:440-852 | over any stream, from one empty run, every event makes exactly its transition, every run stays numbered 0,1,2,... and chained, and a completion settles only a step of the run it was routed to |
| CarvedSteps.EventAdds | adapters/github-copilot/src/ingest.ts:440-852 | an event leaves exactly one step at the end of its run, or none, with the deterministic id of the run and the event key, the kind and outcome of the event, and opens a run exactly when it starts a child |
| CarvedSteps.EventSettles | adapters/github-copilot/src/ingest.ts:647-692 | only a completion changes the outcome of a tool step, to its own verdict, and a finished child run leaves its dispatch settled well |
| CarvedSteps.CompletionSettlesCall | adapters/github-copilot/src/ingest.ts:647-692 | a live call of its own run is the step a completion settles, with the verdict of the completion |
| CarvedSteps.StepOrigin | adapters/github-copilot/src/ingest.ts:388-429 | every carved step comes from one event, whose run and key name it (the "turn_" key for a synthetic usage step) |
| CarvedSteps.SameIdIff | adapters/github-copilot/src/ingest.ts:388-429 | two carved steps share an id exactly when they are of one run and their events share a key |
| CarvedSteps.CarvedIdsAreDistinct | adapters/github-copilot/src/ingest.ts:910-992 | events with distinct keys make a fleet in which no run repeats an id and no two runs share one: what the commit takes for granted |
| CarvedSteps.RepeatedKeySharesId | adapters/github-copilot/src/ingest.ts:388-429 | two events of one key in one run make two steps of one id, the second its own parent |
| CarvedSteps.CallIsAnswered | adapters/github-copilot/src/ingest.ts:600-692 | a tool call is settled by the completion of its run that carries its id, whatever other runs did between |
| CarvedSteps.TurnStepIff | adapters/github-copilot/src/ingest.ts:509-600 | a turn has an assistant step to carry its usage exactly when a message came after the last event that started or ended a turn of the context |
| CopilotCarve.ResolvesOne | adapters/github-copilot/src/ingest.ts:647-680 | a completion resolves at most one pending call, and a live call of its own run is the one |
| CopilotCarve.EntryKeepsPending | adapters/github-copilot/src/ingest.ts:620-628 | a repeated call id points the pending map at the newer step, and every entry still names its own pending step |
| CopilotCarve.OutcomeWrittenOnce | adapters/github-copilot/src/ingest.ts:620-692 | a tool step's outcome, once settled, never changes |
| CopilotCommit.UpsertCarve | adapters/github-copilot/src/ingest.ts:989-992 | the upsert loop builds the carve exactly when nothing moves up |
| CopilotCommit.CommitRun | adapters/github-copilot/src/ingest.ts:962-1008 | one run's part succeeds with ids, sequences 0..n-1 and contents of the carve exactly when nothing moves up and every change row keeps the change invariants; the reserved band and other runs are untouched and a failure changes nothing |
| CopilotFleet.CommitFleet | adapters/github-copilot/src/ingest.ts:910-1008 | over the parent and all child runs: every run holds its carve afterwards exactly when every run met its condition before the transaction; a failing statement of any run leaves no trace of the others; reserved bands and other runs are untouched |
| CopilotFleet.WaitingIsUntouched | adapters/github-copilot/src/ingest.ts:962-1008 | a run still to be committed finds its rows, and so its condition, as before the transaction |
| CopilotCommit.LowestBlockedSlot | adapters/github-copilot/src/ingest.ts:989-992 | below any slot blocked by a later stored step there is a lowest one |
| CopilotCommit.RecarveChangesNothing | adapters/github-copilot/src/ingest.ts:962-1008 | committing the same carve again changes no row and no child |
| CopilotCommit.SubsequenceThenNewMovesNothingUp | adapters/github-copilot/src/ingest.ts:962-1008 | stored steps kept in order and followed by new ones meet the condition |
| CopilotCommit.SwappedStepsNeverCommit | packages/collector/src/queries.ts:351-363 | two stored steps carved in the opposite order never commit |
| CopilotCommit.AbsorbedKeeps | adapters/github-copilot/src/ingest.ts:993-1004 | inserting carved changes keeps every stored child and leaves none of them to insert |
| LineDiff.FillTable | packages/shared/src/diff.ts:75-99 | every cell of the table is the LCS length of its prefixes |
| LineDiff.LcsIsBound | packages/shared/src/diff.ts:75-99 | no common subsequence is longer than the table says |
| LineDiff.DoubleReverse | packages/shared/src/diff.ts:117-120 | reversing the ops and then each op's lines reverses the script line by line |
| LineDiff.Backtrack | packages/shared/src/diff.ts:101-115 | the backtrack explains both files, keeps an LCS, and never pushes an addition after a removal |
| LineDiff.LcsDiff | packages/shared/src/diff.ts:75-122 | kept and removed lines spell the old file, kept and added the new, as many as possible are kept, and ops are merged with removals before additions |
| LineDiff.KeepingLcsIsShortest | packages/shared/src/diff.ts:32-68 | a script that keeps an LCS is no longer than any script between the files |
| LineDiff.DiffLines | packages/shared/src/diff.ts:32-68 | the hunk's body spells both files, is absent exactly when they agree, and added plus removed is the least any script reaches |
| LineDiff.SplitJoined | packages/shared/src/diff.ts:32-37 | lines free of breaks, joined with any mix of LF and CRLF, are split into those lines |
| LineDiff.JoinedSplit | packages/shared/src/diff.ts:32-37 | every text is its lines joined again, none of which holds a break |
| LineDiff.LinesAreBreaksPlusOne | packages/shared/src/diff.ts:32-37 | a text has one line more than line feeds |
| LineDiff.BodySpellsFiles | packages/shared/src/diff.ts:32-68 | the marked lines of a rendered script spell both files |
| Replay.WorkingTree.Apply | packages/collector/src/replay.ts:219-261 | one change row turns the tree into the tree the row describes, and a partial row leaves it |
| Replay.ReplayedConcat | packages/collector/src/replay.ts:179-202 | replaying two lists one after the other is replaying their concatenation |
| Replay.ChmodLasts | packages/collector/src/replay.ts:219-261 | a changed mode outlasts every later row that names none, and moves no content |
| Replay.CreatedMode | packages/collector/src/replay.ts:219-261 | a file created anew has the mode of its row or the default, whatever it had before |
| Replay.RenamedMode | packages/collector/src/replay.ts:219-261 | a renamed file takes the mode of its row or of the file it replaces; its old mode does not travel |
| ChangeLog.ListedIsOrdered | packages/collector/src/queries.ts:1214-1252 | the listing of a run holds just the viewed rows, each as often as the table does, by the sequence of their step and then their own |
| ChangeLog.ListedIsUnique | packages/collector/src/queries.ts:1214-1252 | with no slot taken twice the order leaves no choice |
| ChangeLog.WatchRowsReplayLast | packages/server/src/file_sentinel.ts:134-145 | a tool call's row replays before every watch row of its step, however late it was stored |
| ChangeLog.WorkingTreeAt | packages/collector/src/replay.ts:179-202 | the tree of a run at a step is the baseline with the listed rows of earlier steps applied |
| ChangeLog.ScrubForward | packages/collector/src/replay.ts:179-202 | moving from one step to a later one applies just the rows of the steps between them, on any table |
| ChangeLog.ContentAfterRow | packages/collector/src/replay.ts:179-261 | a newly stored row changes what a run shows at a path exactly when it is of the run, sets the path, and no stored row of the run above it sets it |
| HookCapture.Capture.CapturePre | packages/server/src/hook_capture.ts:166-216 | the manifest afterwards reads every scanned path once and forgets vanished ones |
| HookCapture.Capture.CapturePost | packages/server/src/hook_capture.ts:218-316 | refreshes the manifest and reports one delta for each path whose content or existence changed, none before the first look |
| HookCapture.DeltaIsAcceptable | packages/server/src/hook_capture.ts:255-289 | every delta meets the row invariants, is partial exactly when an end was not captured, and otherwise names both contents |
| HookCapture.NewStatIsRead | packages/server/src/hook_capture.ts:166-216 | a file seen in a new stat is remembered with that stat, and with its content exactly when it is read and within the cap |
| HookCapture.CaptureReplayAgree | packages/server/src/hook_capture.ts:218-289 | replaying the deltas turns the earlier snapshot's tree into the later one's exactly when coverage is kept |
| HookCapture.GrowthPastCapDiverges | packages/server/src/hook_capture.ts:232-273 | a captured file that grows past the cap: replay goes on showing the old content |
| HookCapture.ReadableKeepsCoverage | packages/server/src/hook_capture.ts:612-627 | scans within the size cap that read without error keep coverage |
| HookCapture.ReportNeedsStatChange | packages/server/src/hook_capture.ts:232-289 | a reported path changed its stat between the two scans |
| HookCapture.ManifestsAreCurrentIff | packages/server/src/hook_capture.ts:189-216 | over any run of passes the manifest holds what was last scanned exactly when no content changes between two scans under the same size and mtime |
| HookCapture.SameStatHidesChange | packages/server/src/hook_capture.ts:232-234 | a rewrite that keeps size and mtime is neither reported nor folded in |
| HookCapture.BashCall | packages/server/src/hook_capture.ts:166-289 | one call between two looks: acceptable deltas for changed paths only, a manifest that holds the disk exactly when every change showed in its stat, and deltas that replay to the later manifest when all is readable |
| StashDrain.FindStep | packages/server/src/hook_capture.ts:409-459 | the best claim by tier, then gap, then order, or none exactly when no step has a claim |
| StashDrain.ClaimIsNearestOfBestKind | packages/server/src/hook_capture.ts:409-459 | the best claim is the nearest step of the record's tool with its input, else the nearest with its command, else, once the record is a minute old, the nearest within a quarter of an hour; the earlier on a tie |
| StashDrain.ClaimedIff | packages/server/src/hook_capture.ts:409-459 | a record is claimed exactly when some step stands to it in one of these ways |
| StashDrain.YoungRecordsWait | packages/server/src/hook_capture.ts:409-459 | a fresh record is attributed only by input or command, and an exact match always wins |
| StashDrain.InsertDeltas | packages/server/src/hook_capture.ts:487-574 | inserts exactly the novel deltas, numbered on from the watch base without reusing a slot |
| StashDrain.ClaimIsKept | packages/server/src/hook_capture.ts:409-459 | a claim survives later ingests and the passing of time exactly when none of the new steps claims the record better |
| StashDrain.DrainRecord | packages/server/src/hook_capture.ts:338-364 | one pass inserts the novel deltas at the best claim's step, and expires a record exactly when no step claims it and it outlived its time |
| StashDrain.SecondDrainInsertsNothing | packages/server/src/hook_capture.ts:338-364 | a second pass, with its own ingest and search and other writers' rows in between, inserts nothing exactly when it finds no step, or each delta is carried at the step it finds without the first pass or was kept there by it |
| StashDrain.LateExactStepDrainsAgain | packages/server/src/hook_capture.ts:338-459 | a record claimed by time alone goes again, in full, to its own step once that is ingested |
| StashDrain.OversizeGrowthDrainsTwice | packages/server/src/hook_capture.ts:323-367 | a modification that grows past the cap is inserted again |
| FileSentinel.Sentinel.InsertChange | packages/server/src/file_sentinel.ts:553-684 | appends one row in the next watch slot of the step the change is attributed to, unless there is none or the step already has it |
| FileSentinel.Sentinel.ProcessPath | packages/server/src/file_sentinel.ts:419-519 | the snapshot follows the path and each touched path gets the one row its change calls for, numbered on from the next free sequence: the step `Processed` of every session |
| FileSentinel.Sentinel.DeleteBeneath | packages/server/src/file_sentinel.ts:419-519 | a vanished directory deletes every tracked path under it, one row each, numbered on from the next free sequence |
| FileSentinel.Attribute | packages/server/src/file_sentinel.ts:691-711 | the newest last step of the running overlapping runs, the first among equals, if it lies within the window; otherwise why there is none |
| FileSentinel.EventAgreesIff | packages/server/src/file_sentinel.ts:419-684 | after an event the replay of a run shows the snapshot exactly when they agreed on all other paths and each touched path was already replayed to its new content or is recorded in full (readable on both sides within the cap, carried by no row of the step) for a step of the run no later step outranks there |
| FileSentinel.ContentAfterEvent | packages/server/src/file_sentinel.ts:419-684 | path by path, what the replay of any run shows after an event |
| FileSentinel.ToolRowSilencesWatcher | packages/server/src/file_sentinel.ts:584-613 | a path the tool call of the step recorded in full gets no row from the watcher |
| FileSentinel.UncoveredChangeIsRecorded | packages/server/src/file_sentinel.ts:584-684 | with no such row and no equal watch row in the step, a readable change is recorded once, with both contents |
| SentinelRuns.RunAgreesIff | packages/server/src/file_sentinel.ts:419-684 | over any session of events among rows other writers store, the ordered replay of a run shows at every moment what was last seen at each path exactly when every event meets the guards, read off the events and the initial state |
| SentinelRuns.WatcherAloneAgreesIff | packages/server/src/file_sentinel.ts:419-711 | for the watcher alone the run's replay always shows the snapshot exactly when every moved content is attributed to the run, path by path never to an earlier step than before, and readable, and no path repeats a transition within a step |
| SentinelRuns.CoveredIff | packages/server/src/file_sentinel.ts:584-613 | a transition is carried by the rows exactly when it was stored at the start or by another writer, or an earlier event of the step made it |
| SentinelRuns.SetBeforeIff | packages/collector/src/queries.ts:1214-1252 | a row beyond a place in replay order sets a path exactly when one was there at the start, another writer stored one, or an event left one |
| SentinelRuns.OverridesIff | packages/collector/src/queries.ts:1214-1252 | another writer's row moves what the run shows exactly when no later step and no higher row of its step set the path before |
| SentinelRuns.ShownIsSnapshot | packages/server/src/file_sentinel.ts:419-546 | what was last seen at a path is the snapshot's content unless another writer's row, not outranked, set it since the watcher looked there |
| SentinelRuns.SessionStaysNumbered | packages/server/src/file_sentinel.ts:134-145 | over any session slots stay unique and watch rows stay at or above the watch base |
| SentinelRuns.LateToolRowReplaysFirst | packages/server/src/file_sentinel.ts:134-145 | after x to y and y to z by the watcher and a late tool call row x to y, the run shows z, while the rows in order of arrival end on y |
| SentinelRuns.GoingBackHidesLastWrite | packages/server/src/file_sentinel.ts:691-711 | y to z attributed to an earlier step than x to y, or to another run, leaves the run showing y |
| SentinelRuns.RepeatedWriteIsDropped | packages/server/src/file_sentinel.ts:553-684 | after x to y, back to x, and to y again within a step, replay shows x and the snapshot holds y |
| SentinelDisk.FlushSettlesIff | packages/server/src/file_sentinel.ts:419-546 | after a flush, whatever changed before it, a path is tracked as it lies on disk exactly when it is the path flushed (unless a folder replaced a tracked file), or beneath a vanished one, or was right before |
| SentinelDisk.SnapshotFollowsDisk | packages/server/src/file_sentinel.ts:419-546 | over any session of writes, removals and folder removals, each followed by its flush, the snapshot is at every moment what the disk holds, and nothing that vanished |
| SentinelDisk.ReplayShowsDiskIff | packages/server/src/file_sentinel.ts:419-711 | with the watcher alone, replay shows the disk at every moment exactly when every moved content is attributed in order, readable and no repeat |
| SentinelDisk.ReplacedFileStaysTracked | packages/server/src/file_sentinel.ts:449-453 | a tracked file replaced by a folder before its flush stays in the snapshot |
| Manifest.ManifestRoundTrip | packages/collector/src/replay.ts:47-121 | parsing what was serialised gives the entries back, sorted bytewise, for all legal entries |
| Manifest.ManifestIsCanonical | packages/collector/src/replay.ts:47-75 | two orderings of the same distinct-path entries serialise to the same bytes |
| Manifest.Serialize | packages/collector/src/replay.ts:47-75 | the records of the sorted entries, or failure exactly when a path or ref holds a separator |
| Manifest.Parse | packages/collector/src/replay.ts:82-121 | the byte-cursor loop reads every non-empty line as a record and fails when any is malformed |
| Manifest.BytewiseOrder | packages/collector/src/replay.ts:47-52 | of two paths the first is a prefix of the other or has the smaller byte where they first differ |
| Manifest.FieldsParse | packages/collector/src/replay.ts:95-117 | a record is a path, a mode and a ref with NULs between, and is refused exactly when the mode is no number |
| Manifest.ParseIntLeniently | packages/collector/src/replay.ts:108-113 | a mode is read after white space and a sign up to the first byte that is no digit |
| LiveInspector.Inspector.CollectNewSteps | packages/server/src/live.ts:943-974 | walk steps past the cursor; a shrunken walk rewinds the cursor and yields none |
| LiveInspector.Inspector.Start | packages/server/src/live.ts:266-293 | every stored run is seeded as by a silent look, the first tick is silent, and nothing is emitted |
| LiveInspector.Inspector.Tick | packages/server/src/live.ts:446-524 | own ingests and scanned arrivals are taken as loud looks on shared cursors, and the log is what those looks emit |
| LiveInspector.LogByRun | packages/server/src/live.ts:446-513 | whatever the interleaving, the events logged for a run are those its own looks emit |
| LiveInspector.AnnouncementsIncrease | packages/server/src/live.ts:943-974 | between rewinds announced sequences strictly increase, so no step is announced twice |
| LiveInspector.AnnouncedExactlyOnce | packages/server/src/live.ts:600-667 | under append-only growth, what any look saw followed by every announcement of the loud looks after it is the walk, each step once and in order |
| LiveInspector.LogAnnouncesOnce | packages/server/src/live.ts:446-667 | of what is logged for a run: the walk it had at its last silent look, or at its creation, followed by the steps of its events is the walk last seen |
| LiveInspector.FirstLookCreates | packages/server/src/live.ts:464-481 | a run's first loud look creates it |
| LiveInspector.CompletionsSeparated | packages/server/src/live.ts:500-513 | two completions of a run are separated by a look at a non-terminal status |
| LiveInspector.CompletedIff | packages/server/src/live.ts:500-513 | a look announces completion, once, exactly when it is loud, the run is ok or in error, and the look before it, if any, saw neither |
| LiveInspector.CreatedIff | packages/server/src/live.ts:464-481 | a look announces creation exactly when it is loud and the first at the run |
| LiveInspector.UpdatedIff | packages/server/src/live.ts:446-481 | a look announces steps exactly when it is loud, not the first and has steps above all the look before it had; and then all of them in order |
| JsonLines.ParseBuffer | adapters/claude-code/src/parser.ts:29-65 | the byte loop yields the readable lines from the first line start on, with their extents |
| JsonLines.WrittenIsRead | adapters/claude-code/src/parser.ts:29-65 | lines written one after the other, the last still open, are read back: the readable ones, in order, at the extents they were written |
| JsonLines.StartInsideLine | adapters/claude-code/src/parser.ts:29-65 | reading from within a line drops that line and gives the lines after it at the extents they were written |
| JsonLines.ExtentsAscend | adapters/codex-cli/src/parser.ts:18-49 | record extents ascend, do not overlap, stay in the file and hold no newline but a last one |
| JsonLines.ResumesWhenTailOpen | adapters/claude-code/src/parser.ts:72-76 | when the tail does not parse yet, resuming at the end of the last record gives the rest, for any growth |
| JsonLines.ClosedTailDoesNotResume | adapters/claude-code/src/parser.ts:29-76 | a tail that parses already is counted one byte short of the newline that ends it |
| JsonLines.ExtendedTailDoesNotResume | adapters/claude-code/src/parser.ts:29-76 | when a line whose tail parsed already goes on, resuming keeps the short record and loses the line |
| JsonLines.IncrementalEqualsWhole | adapters/codex-cli/src/parser.ts:18-55 | incremental equals whole parsing for every growth, in extents or in lines alone, exactly when the tail does not parse |
| CodexUsage.AnchorUsage | adapters/codex-cli/src/ingest.ts:329-362 | every step is given exactly the usage events before the next step |
| CodexUsage.UsageIsConserved | adapters/codex-cli/src/ingest.ts:329-362 | each of the four counters summed over steps is its sum over the events after the first step |
| CodexUsage.TokensAreConserved | adapters/codex-cli/src/ingest.ts:403-422 | stored output, cached and reasoning tokens add up; input does exactly when no step has more cached input than input |
| CodexUsage.CachedBeyondInputAddsUp | adapters/codex-cli/src/ingest.ts:403-422 | a step with 0 input and 5 cached tokens stores 5 where 0 input was reported |
| CodexUsage.BuildSteps | adapters/codex-cli/src/ingest.ts:364-671 | the loop's rows, tokens and changes, a moved file under its new path, are the specified functions of the rollout |
| CodexTraces.RowsAreTheSteps | adapters/codex-cli/src/ingest.ts:441-671 | the rows are the step records, one each and in order, named by their offset and chained |
| CodexTraces.StepIdsAreDistinct | adapters/codex-cli/src/ingest.ts:441-671 | records at different offsets make steps of different ids |
| CodexTraces.ChangesAreTraced | adapters/codex-cli/src/ingest.ts:441-671 | the change rows are the files of the patches that have a step, one row each in order, at the step of the last call of the patch's id before it or, when none before it has that id, at the last step before it; an added file in full, any other partial, a moved one under its new path |
| CodexUsage.RelativeToRoot | adapters/codex-cli/src/ingest.ts:751-760 | a path beneath the working directory is named from there on, any other is kept |
| CodexUsage.ChangesAreNumbered | adapters/codex-cli/src/ingest.ts:371-375 | the changes of each step are numbered 0,1,2,... across all patch events |
| CodexUsage.NumbersClimb | adapters/codex-cli/src/ingest.ts:371-375 | no two changes of a step share a number |
| CodexUsage.GrowthContinues | adapters/codex-cli/src/ingest.ts:441-671 | once `session_meta` was read, steps and changes of a prefix begin those of the grown file |
| CodexUsage.LateMetaRenames | adapters/codex-cli/src/ingest.ts:122-124 | a `session_meta` read later renames every step of a file named by its path |
| CodexUsage.IdsSurviveGrowth | adapters/codex-cli/src/ingest.ts:214-219 | ids survive every growth exactly when `session_meta` was read, or no step was |
| SseFraming.ParseSseStream | packages/proxy/src/sse.ts:107-144 | the two loops give the events of the blocks between blank lines |
| SseFraming.OffsetsIncrease | packages/proxy/src/sse.ts:107-144 | event offsets strictly increase on every text |
| SseFraming.RoundTrip | packages/proxy/src/sse.ts:107-144 | printed messages, with either line end, read back with the same names and payloads at the offset of their block |
| ChunkTimes.TimeAtOffset | packages/proxy/src/sse.ts:91-96 | the arrival of the first chunk past the offset, or none exactly when no chunk reaches it |
| ChunkTimes.ArrivalIsMonotone | packages/proxy/src/sse.ts:91-96 | an earlier offset arrived no later than a later one |
| StreamReassembly.ReassembleOpenAIResponse | packages/proxy/src/capture-openai.ts:222-313 | the response and the two first offsets are what the stream says per call index |
| StreamReassembly.ArgumentsAreConcatenated | packages/proxy/src/capture-openai.ts:269-279 | a call's arguments are its own fragments joined in order |
| StreamRecuts.CutsAndInterleavingDoNotMatter | packages/proxy/src/capture-openai.ts:222-313 | streams any number of cuts of a chunk in two, joins, swaps of independent neighbours and silent chunks apart are rebuilt into the same response |
| StreamRecuts.EditKeepsResponse | packages/proxy/src/capture-openai.ts:222-313 | one such edit keeps the response |
| StreamRecuts.WholeRoundTrips | packages/proxy/src/capture-openai.ts:222-313 | a response said in one chunk is rebuilt with text, reasoning and tool calls each in its own place; without a model it is "unknown", and one that says nothing is none |
| StreamRecuts.ResponseComesBack | packages/proxy/src/capture-openai.ts:222-313 | however a response is cut and interleaved on the way, it is rebuilt as it was |
| StreamReassembly.SayingTheSameIsEnough | packages/proxy/src/capture-openai.ts:240-313 | the text, the first model, the last finish reason and usage, and each call's own fragments decide the response |
| StreamReassembly.CutKeepsCalls | packages/proxy/src/capture-openai.ts:269-279 | cutting a fragment's arguments in two changes no call |
| StreamReassembly.SwapKeepsCalls | packages/proxy/src/capture-openai.ts:269-279 | swapping neighbouring runs of fragments that share no call changes no call |
| StreamReassembly.FirstDeltaComesFirst | packages/proxy/src/capture-openai.ts:149-167 | a first visible time comes with a first delta time that is no later |
| StreamReassembly.FirstOffsetsAre | packages/proxy/src/capture-openai.ts:222-313 | the first visible offset is that of the first chunk with text or part of a tool call, the first delta that of the first with those or reasoning; none exactly when no chunk has any |
| StreamReassembly.ReassembleAnthropicMessage | packages/proxy/src/capture-anthropic.ts:234-308 | each content index holds what its own events make of it, and there is a message exactly when one was started |
| StreamReassembly.BlockIsThereIff | packages/proxy/src/capture-anthropic.ts:254-263 | an index holds a block exactly when one was started there since the message last started; a tool block alone has an input of its own |
| StreamReassembly.NoteDeltas | packages/proxy/src/capture-anthropic.ts:264-274 | the offsets of the first delta and the first visible delta after the message started |
| StreamReassembly.FirstMessageOffsetsAre | packages/proxy/src/capture-anthropic.ts:264-274 | the first offsets are those of the first delta, and of the first text or input delta, after a message start; none exactly when there is no such |
| StreamReassembly.OwnEventsDecide | packages/proxy/src/capture-anthropic.ts:234-308 | a block is unaffected by how other blocks' events are interleaved with its own |
| StreamReassembly.FragmentsAreConcatenated | packages/proxy/src/capture-anthropic.ts:254-283 | from a block's start on, its text and partial JSON are its fragments joined in order |
| StreamReassembly.StopReadsFragments | packages/proxy/src/capture-anthropic.ts:284-296 | a stopped tool block's input is read from its joined fragments when its index carried none before |
| StreamReassembly.FirstMessageDeltaComesFirst | packages/proxy/src/capture-anthropic.ts:156-174 | the same ordering of first times for a streamed message |
| RunGrouper.Grouper.Resolve | packages/proxy/src/grouping.ts:68-127 | continues the entry under the call's key or makes a new one and evicts |
| RunGrouper.Grouper.EvictIfNeeded | packages/proxy/src/grouping.ts:164-174 | above the maximum exactly the 102 least recently seen go, ties in insertion order |
| RunGrouper.OldestIsUnique | packages/proxy/src/grouping.ts:164-174 | which entries go is determined |
| RunGrouper.StepsAreNumbered | packages/proxy/src/grouping.ts:68-124 | over any calls the map stays within 1024 entries, an entry keeps its run id and provider, and its steps are numbered 0,1,2,... |
| RunGrouper.NumbersRepeatIffReentered | packages/proxy/src/grouping.ts:68-127 | with fresh random ids, two steps of one run get the same number exactly when an explicit id is entered again after its entry was evicted |
| RunGrouper.NothingNewIsEvicted | packages/proxy/src/grouping.ts:164-174 | with a non-decreasing clock the entry a call returns is still in the map after it |
| RunGrouper.OwnedUnlessIdIsDigest | packages/proxy/src/grouping.ts:75-161 | every call of every run gets an entry of its own provider exactly when no explicit id is the digest of a seed |
| RunGrouper.DigestIdIsShared | packages/proxy/src/grouping.ts:75-161 | an explicit id equal to another provider's seed digest does share its entry |
| GroupedTurns.NextTurnIff | packages/proxy/src/grouping.ts:68-161 | of two unnamed calls in a row the second continues the first exactly when it has the same opening, comes within half an hour and has no shorter history |
| GroupedTurns.NamedTurnsShareRun | packages/proxy/src/grouping.ts:75-107 | calls of one provider that name a run share it, however long ago and however short |
| GroupedTurns.TakenNameIsScoped | packages/proxy/src/grouping.ts:75-107 | a name another provider uses gives a run of its own and leaves the other entry alone |
| GroupedTurns.OpeningTells | packages/proxy/src/grouping.ts:150-161 | openings with one-line providers and models and system prompts of equally many lines are equal exactly when all four parts are |
| GroupedTurns.MovedBreakIsUnnoticed | packages/proxy/src/grouping.ts:150-161 | a line break moved from the system prompt to the first message leaves the opening the same |
| Lineage.Children | packages/collector/src/queries.ts:243-250 | exactly the runs whose parent is the given one, in query order |
| Lineage.Walker.Walk | packages/collector/src/queries.ts:266-282 | terminates on any table and appends the forest under a run in preorder |
| Lineage.GetDescendantRuns | packages/collector/src/queries.ts:266-282 | exactly the runs that reach the root, once each and without it, at their distance, each subtree contiguous, siblings in query order |
| Lineage.OneDistance | packages/collector/src/queries.ts:266-282 | a run has one distance from the root |

## Left out

- SQLite itself, its query planner and its SQL: the tables are maps, each statement a method with the statement's effect; `updateRunTotals`, run status, tags, annotations other than notes on steps, probe state and schema migrations.
- Blob storage, redaction, context snapshots, pricing and the JSON text of actions: values or constructors.
- File systems, `fs.watch`, timers, debouncing and HTTP: scans, events and clocks are inputs; concurrent writers are interleavings of whole transactions.
- JSON parsing: `JsonLines` takes the readable lines as a function, `StreamReassembly` starts from parsed chunks and `SseFraming` stops at the raw payload.
- `parseRmCommand`, `applyEdit`, `buildFileTree`, `pullCursorUsage`'s paging and counters, and the Slack rate limiter.
- Tool extras and checkpoint file changes of the Cursor adapter: `ToolSteps` lists the steps they belong to.
- Aliasing of grouped entries: entries are values carrying the identity of the source's object; their pending tool calls are not modelled.
- CursorIngest.IngestOneComposer: the fetch, the run row, its status and totals, and the file changes extracted after the commit are not part of it; white space in `IsBlank` is space, tab, LF and CR.
- CursorIngest.BuildSteps: token counts, prices and tags of a step are left out.
- CopilotCarve.CarveStream: tokens, prices, tags, models, conversation history and file changes of the steps are left out; an event comes with its routed context.
- HookCapture.BashCall: what lies on disk is what the scan read.
- StepTable.Store.MigrateStepId: its three statements run inside one transaction, so a failure after the first is not modelled apart.
- FileSentinel.Sentinel.InsertChange: one view of the runs and one reading of the clock serve all paths of an event; notes, sizes and line counts of a row are left out, and so is the retry after a slot is lost to a concurrent writer.
- SentinelRuns.RunAgreesIff: a step keeps its sequence for the length of a session, and other writers' rows number below the watch base unless they are watch rows, as packages/server/src/file_sentinel.ts:134-145 takes for granted.
- SentinelDisk.SnapshotFollowsDisk: every flush reads what lies at its path and follows one operation there; what a flush makes of several operations at once is `FlushSettlesIff`.
- StashDrain.DrainRecord: the ingest before a pass is its input, the steps and rows then stored; reading, rewriting and unlinking record files is left out.
- CopilotRouting.RouteStream: the files without interaction ids; those with them take no ancestry walk, and `RouteEvent` states each event's route. That starts come before the walks that pass them is what a file written in order gives; `RegisterChild` states what happens to the memo otherwise.
- CopilotFleet.CommitFleet: run rows and their metadata, context snapshots, status, totals and compaction notes are left out.
- LiveInspector.Inspector.Tick: one view per run is read at each look, and looks after the boot are loud; alerts, probe tracks and file-change arrivals are left out.
- CodexUsage.BuildSteps: latency, outcomes, prices, models, snapshots and the contents and line counts of changes are left out; counters are naturals.
- Manifest.ManifestRoundTrip: modes are natural numbers below 1e21, where JavaScript prints plain digits.
- StreamReassembly.ReassembleOpenAIResponse: one choice, with absent strings as empty ones; usage is the text the last chunk with one carries.
- StreamReassembly.ReassembleAnthropicMessage: usage and stop reason are left out; a block that starts again at an index keeps the partial JSON gathered before, as the source does.
- CodexUsage.IdsSurviveGrowth: a run found by its session id is taken to be the one an ingest of that session made.
- RunGrouper.OwnedUnlessIdIsDigest: the digest is an injective function with newline-free results.
- Lineage.Walker.Walk: the table is listed in the child query's order.
