# config-watch, modelled and proved in Dafny

config-watch runs an agent on every host. The agent watches YAML files, renders a diff of each change, keeps
an event about it in a spool on disk and publishes it to a control plane, which stores it and shows it in a
dashboard. This project models the parts of that system where the logic is hard and proves what they are for.
`dafny verify dfyconfig.toml` checks it.

## The parts

**Diffs and their readers.** `EditScripts`, `LineWalk`, `HunkRanges`, `Patches`, `ContextHunks`, `Rendering`,
`ContextRendering`, `SideBySide`, `LineDiff` and `DiffTheorems` model the renderers of
`crates/config-diff/src/difftastic.rs`. They walk two files with two pointers under a change list that an outside
program supplies. `Faithful` says, from the list alone, when it is right: from change to change the two files have
equally many unmentioned lines, and equal ones. A rendering turns out to be an edit script if and only if its list is
faithful. The hunks of a context diff are then a patch, accepted by a program that checks every header number, in both
directions. `RendererTheorems` and `SideText` say what the texts tell about the files, and `MissingLines` what becomes
of numbers of lines that do not exist. `DiffText`, `DiffViewer`, `ViewerTheorems` and `RoundTrip` model the dashboard
that reads the text back, with the exact condition under which it recovers every row; `RowSides` is about the rows it
does not recover, `LineReading` about lines from any other program, and `Highlights` about the words that are marked
as changed. `PatchText` and `PatchReading` read the hunk headers too and apply the text as the patch it is.
`FileCompare`, `UnifiedCompare`, `UnifiedView`, `CompareWords` and `VisibleRows` model the dashboard's own comparison
view.

**Delivery.** `IdempotencyKeys`, `Debounce`, `Snapshots`, `Spool`, `Ingest` and `IngestTheorems` model the stations of
an event; `IngestOutcomes` says what one post does to the table and the screens in terms of what was posted.
`Delivery` is the agent as a step system: every write is a step of its own, a crash can come between any two, the
control plane can store an event although the agent sees an error, and on a restart the agent replays what is pending.
`DeliveryTheorems`, `HashTheorems`, `SpoolTheorems` and `DuplicateTheorems` are about all its runs. `Agent` holds the
agent's own methods; each is proved to do exactly the steps its inputs say, so a prefix of those steps followed by
`Crash` is the same method cut short. `AgentTheorems` and `EventTheorems` are about what the steps of whole operations
do: scans, replays, deletions, and one event from the file on disk to the screens and through a crash.

**Smaller algorithms.** `Retention` (eviction by age, then by size), `Tunnel` (queries over agent connections and the
sockets behind them), `Filters` (two query builders and the pages of a list) and `ChunkedRead`. `Options` and
`Numbers` hold what several modules share.

## Where the code and its documentation or its obvious reading differ

- With no context lines a hunk that only inserts prints start 1 for the side it does not show
  (`difftastic.rs:640-641`). Such hunks patch correctly exactly when the hunk is at the start of the diff
  (`DiffTheorems.ContextDiffIsPatch`); a line added at the end of a file is refused
  (`DiffTheorems.AddedLastWithoutContextIsRefused`).
- The two-column renderer counts differently from the others when a change has one line in range and one out of range;
  it agrees exactly when there is no such change (`DiffTheorems.RenderersCountAlike`,
  `DiffTheorems.HalfOutCountsDiffer`). It resets its pointers where the
  others only advance: they stay together exactly when no change names a line more than one behind the pointers
  (`SideBySide.SamePathIffNeverPast`), and its rows are the others' exactly when both show the same context
  (`SideBySide.ScriptsAgreeIff`); to name the line just passed again is harmless (`SideBySide.LineJustPassedAgrees`).
  A width below 3 underflows (`SideBySide.RenderSideBySide` has no result then). Longer lines are cut off, so its text
  holds both files exactly when every marked line fits its column (`SideText.SideTextHoldsBothIff`).
- The dashboard reads some rows differently from what was printed: an empty context line, a removed line that starts
  with `-- `, an added one that starts with `++ `, a content that ends in a carriage return, a number beyond 32 bits.
  `DiffText.RowRoundTrip` is the exact condition for a row; a path that does not fit on one line is lost too
  (`RoundTrip.FullFileRoundTrip`).
- A deletion never clears the stored hash (`app.rs:384-392`), so a file that comes back is reported exactly when its
  bytes have another hash (`AgentTheorems.ReturnReportedIffNewHash`).
- An append that fails after its file was written leaves the file pending and the hash as it was, so the next event on
  the path starts from the same hash. The pending files of a main loop follow each other exactly when no append of a
  creation or a modification failed that way (`HashTheorems.FoldsIffNoHalfAppend`, `HashTheorems.HalfAppendLeavesTwins`).
- The branch for five failed attempts is never taken: attempts stay at most 1
  (`DeliveryTheorems.SpooledEventsAreNeverLost`). The spool depth counts delivered files too
  (`Spool.DepthIsPendingIffNoneSettled`).
- An `index.json` that cannot be read is replaced by an index with one entry. That is harmless exactly while no other
  event is settled (`SpoolTheorems.UnreadableIndexForgets`, `SpoolTheorems.SettledFilesAreInTheIndex`).
- Two equal changes on a file in one minute have one key: the second event is answered as a duplicate and marked as
  delivered without being stored (`DuplicateTheorems.SwallowedIffRecorded`).
- `ingest.rs:230-231` says that the ring avoids double broadcasts. It does when the notification is handled after the
  ring is updated and at most 63 later events were accepted; otherwise the event is broadcast twice
  (`IngestTheorems.NotificationSkippedIfRecent`, `IngestTheorems.NotificationInBetweenSendsTwice`).
- The previous snapshot is looked up by the newest event time, and nothing orders equal times: the chain is sure to hold
  exactly when all newest rows of the file have the snapshot of its last row (`IngestTheorems.LinksForEveryChoiceIff`),
  which two events at one time undo (`IngestTheorems.EqualTimesBreakTheChain`).
- The end of a socket unregisters its host, not itself: it leaves all other sockets alone exactly when no later socket of
  the host holds the registration (`Tunnel.CloseEndsOnlyItsOwnIffLast`, `Tunnel.StaleSocketRemovesItsSuccessor`). The
  gauge is the number of connections exactly when none was ever replaced (`Tunnel.GaugeIffNeverReplaced`).
- The path and file name filters are LIKE patterns: they mean "starts with" and "contains" exactly for texts without
  wildcards and backslashes (`Filters.PrefixFilterIffPlain`, `Filters.NameFilterIffPlain`).
- `exists_before` of the debounce window becomes true when the file is found after any event, also after its creation
  (`Debounce.CreatedThenModified`).

## What is assumed

The change list of difftastic, the edit scripts of the `similar` crate and the content hash are inputs. Hashes, host
ids and minutes hold no colon, and a hash is never empty. Event ids are fresh. A single file write happens or does
not. One `ingest_change` call is one step, except where its three effects are taken apart. What the world does
(failed reads and writes, lost replies, short reads, directory order, clocks) is a parameter of each operation.

## Model

| member | source | states |
|---|---|---|
| LineWalk.CollectLineChanges | crates/config-diff/src/difftastic.rs:403-431 | The k-th change has the line number of the left side of the k-th chunk that has a side as its previous line, and that of the right side as its current line; it is the list the theorems are about |
| LineWalk.ChunksRoundTrip | crates/config-diff/src/difftastic.rs:403-431 | Chunks made from any list of changes, in any grouping, are collected back as that list |
| LineWalk.BuildEntries | crates/config-diff/src/difftastic.rs:514-563 | The two-pointer loop builds the entries of `Walk`, the function of the change list that the theorems are about |
| LineWalk.WalkCompletesIffFaithful | crates/config-diff/src/difftastic.rs:514-563 | From any pair of pointers, the walk visits every remaining line once and in order and pairs only equal lines, if and only if the list is faithful from there |
| LineWalk.EditScriptIffFaithful | crates/config-diff/src/difftastic.rs:514-563 | For every change list in range, the entries are an edit script from the previous to the current file if and only if the list is faithful |
| MissingLines.MissingLinesAreIgnored | crates/config-diff/src/difftastic.rs:514-563 | For every change list, in any order and range, the walk shows what it shows when the numbers of lines that do not exist are left out |
| MissingLines.EditScriptIffExistingFaithful | crates/config-diff/src/difftastic.rs:514-563 | So when each change names some line that exists, the entries are an edit script if and only if the list of the existing lines is faithful |
| HunkRanges.FindChanges | crates/config-diff/src/difftastic.rs:569-575 | The positions found are those of the entries that are not context |
| HunkRanges.MergeRanges | crates/config-diff/src/difftastic.rs:581-596 | The widening and merging loop computes `Merged`, whose union and separation are proved |
| HunkRanges.HunksShowExactlyTheNeighbourhoods | crates/config-diff/src/difftastic.rs:569-596 | The ranges are non-empty, ascending and apart, and an entry is shown if and only if it is within the context distance of a change |
| Patches.PatchIff | crates/config-diff/src/difftastic.rs:606-663 | Hunks cut from an edit script patch its old text to its new text if every hunk shows both files or starts the script, and are refused otherwise |
| ContextHunks.ContextAnchors | crates/config-diff/src/difftastic.rs:583-596 | With at least one context line every hunk shows lines of both files or starts the diff |
| ContextHunks.HunksPatchForward | crates/config-diff/src/difftastic.rs:606-663 | The hunks of every edit script turn the previous file into the current one, if and only if they are anchored |
| ContextHunks.HunksPatchBackward | crates/config-diff/src/difftastic.rs:606-663 | The same hunks applied in reverse turn the current file into the previous one under the same condition |
| ContextRendering.RenderContext | crates/config-diff/src/difftastic.rs:486-674 | The renderer's status cases, header numbers, bodies and counts are those of `ContextOutput`, built from the walk and the merged ranges |
| ContextRendering.HunksCountEverything | crates/config-diff/src/difftastic.rs:598-663 | The counts taken hunk by hunk are the added and removed entries of the whole list: no change is outside a hunk or in two |
| Rendering.RenderUnified | crates/config-diff/src/difftastic.rs:436-483 | Status cases, text and counts of the unified renderer, one line per named line that exists |
| Rendering.RenderFullFile | crates/config-diff/src/difftastic.rs:677-782 | The text of the full-file renderer is the entries of the walk, printed; unchanged when no change has a line number |
| SideBySide.RenderSideBySide | crates/config-diff/src/difftastic.rs:785-928 | The two-column text and counts are those of the rows of `SideWalk`, for every width; no result exactly when the width underflows |
| SideText.SideTextHoldsBothIff | crates/config-diff/src/difftastic.rs:844-917 | For every faithful list, the left cells of the printed text that are not blank hold the previous file in order and the right ones the current file, if and only if every marked line fits its column |
| SideText.KnownByPrefixOrLabels | web/dashboard/src/components/diff_viewer.rs:23-49 | The two-column text is recognised by its prefix, and without it by the labels of its columns |
| SideBySide.SamePathIffNeverPast | crates/config-diff/src/difftastic.rs:872-888 | On every in-range list the unconditional reset and the guarded advance lead through the same pointers if and only if no change names a line more than one behind them |
| SideBySide.ScriptsAgreeIff | crates/config-diff/src/difftastic.rs:839-917 | On every in-range list, from any pointers of each walk, the two-column rows stand for the same entries as the other walks if and only if both show the same context before each change and at the end |
| SideBySide.SameScript | crates/config-diff/src/difftastic.rs:839-917 | In particular when no change names a line more than one behind the pointers |
| SideBySide.SideRowsAreEditScript | crates/config-diff/src/difftastic.rs:839-917 | For every faithful change list the rows are the same edit script as the other walks |
| SideBySide.LastChangePastDiffersIff | crates/config-diff/src/difftastic.rs:872-888 | When the last change names a line further back, the rows differ if and only if the reset pointers are inside both files |
| SideBySide.BackwardListsDiffer | crates/config-diff/src/difftastic.rs:872-888 | An instance: a change that names line 0 after line 1 was passed makes the rows differ |
| DiffTheorems.RenderersCountAlike | crates/config-diff/src/difftastic.rs:459-472 | In every change list, in any order, the renderers that render count the changes whose lines exist; the two-column one does so if and only if no change is half out of range |
| DiffTheorems.HalfOutCountsDiffer | crates/config-diff/src/difftastic.rs:859-875 | An instance: a change whose previous line exists and whose current one does not counts 1 removed line there and 0 here |
| DiffTheorems.InRangeRenderersAgree | crates/config-diff/src/difftastic.rs:722-760 | When at least one line number is named and all that are named exist, all four renderers report a change with the same counts |
| DiffTheorems.ContextDiffIsPatch | crates/config-diff/src/difftastic.rs:514-663 | For every faithful list the printed hunks are a patch from previous to current and, reversed, back, if and only if they are anchored, which one context line ensures |
| DiffTheorems.AddedLastWithoutContextIsRefused | crates/config-diff/src/difftastic.rs:640-646 | An instance: without context lines, the hunk of a line added at the end of a one-line file is not anchored and is refused |
| DiffTheorems.FullFileIsLossless | crates/config-diff/src/difftastic.rs:722-771 | For every faithful list, the rows without the added ones are the previous file and the rows without the removed ones the current file |
| RendererTheorems.AnswersByStatus | crates/config-diff/src/difftastic.rs:436-457 | For every report, which of unchanged, changed, error and underflow each of the four renderers answers |
| RendererTheorems.ChunksArePrintedAsPatch | crates/config-diff/src/difftastic.rs:403-663 | From the chunks of any faithful list, in any grouping, through collecting, walking, merging and printing with a path on one line, the text is read as a patch from the previous to the current file if and only if hunks are anchored and rows recoverable |
| RendererTheorems.UnifiedRoundTrip | crates/config-diff/src/difftastic.rs:436-483 | For every changed report and any texts, the unified text is read back as the path and then of each change its removed and its added line, with numbers and contents, if and only if the path fits on its line and each of these lines is recoverable |
| LineDiff.DiffLines | crates/config-diff/src/difftastic.rs:324-361 | The fallback reports no change for equal texts only, and otherwise the differing positions of the current file, then those of the previous one |
| LineDiff.LineDiffIsLossless | crates/config-diff/src/difftastic.rs:337-348 | Each file follows from the other, the rows and the counts |
| RendererTheorems.LineDiffRoundTrip | crates/config-diff/src/difftastic.rs:324-361 | For any two texts, the counts are the positions without an equal counterpart, and the text is read back as those rows, added ones first, if and only if each row is recoverable |
| DiffText.LinesOfUnlines | crates/config-diff/src/difftastic.rs:648-660 | Splitting printed text into lines gives back the printed lines, less a trailing carriage return |
| DiffText.LinesOfUnfinished | crates/config-diff/src/difftastic.rs:157-158 | A last line without a newline is a line too, and keeps its carriage return |
| DiffText.RowRoundTrip | web/dashboard/src/components/diff_viewer.rs:346-382 | A printed row is read back with its kind, number and content if and only if the number fits 32 bits and the content is none of the named exceptions |
| LineReading.NumberedLineRead | web/dashboard/src/components/diff_viewer.rs:349-378 | A number with blanks, tabs or a plus sign around it, a separator and any text: the line has the number if and only if it fits 32 bits, and stands for the text by its first characters |
| LineReading.PlainLineRead | web/dashboard/src/components/diff_viewer.rs:349-378 | Every line without a separator stands for itself, without a number |
| LineReading.FormatWithoutPrefix | web/dashboard/src/components/diff_viewer.rs:39-49 | A text without a known prefix is left untouched and taken as two columns if and only if some line has their labels |
| DiffViewer.PrefixRead | web/dashboard/src/components/diff_viewer.rs:23-49 | The prefix of each format is read back as that format and the rest of the text is left untouched |
| DiffViewer.ParseLines | web/dashboard/src/components/diff_viewer.rs:346-382 | The loop classifies each line of the text, in order |
| DiffViewer.WordDiff | web/dashboard/src/components/diff_viewer.rs:487-535 | The segments of one side are the words of the script that belong to that side, highlighted where they changed |
| DiffViewer.WordsRebuildLine | web/dashboard/src/components/diff_viewer.rs:487-535 | The words of each side concatenate to its line, and the unhighlighted text of both sides is the same |
| DiffViewer.PairAndBuild | web/dashboard/src/components/diff_viewer.rs:386-485 | The index-driven loops terminate and build the lines of `BuildFrom` |
| ViewerTheorems.PairingKeepsLines | web/dashboard/src/components/diff_viewer.rs:386-485 | The built lines without the added ones, and those without the removed ones, are the input lines without them, in order |
| ViewerTheorems.RunIsMaximal | web/dashboard/src/components/diff_viewer.rs:405-422 | A run is all of one kind and ends where the kind changes |
| ViewerTheorems.PairsAdjacent | web/dashboard/src/components/diff_viewer.rs:424-440 | The k-th removed line of a block is directly followed by the k-th added line, with the words of that pair |
| ViewerTheorems.DisplayRebuildsLines | web/dashboard/src/components/diff_viewer.rs:386-485 | The words of every built line concatenate to its content |
| Highlights.PairsAreCompared | web/dashboard/src/components/diff_viewer.rs:424-440 | The words of the k-th pair are those of its two sides: what the sides share is plain, the rest highlighted |
| Highlights.LeftoversAreHighlighted | web/dashboard/src/components/diff_viewer.rs:441-468 | The lines of the longer side beyond the pairs follow in order, each highlighted as a whole |
| Highlights.LoneAddedIsHighlighted | web/dashboard/src/components/diff_viewer.rs:470-480 | An added line that follows no removed line is highlighted as a whole |
| Highlights.ContextIsPlain | web/dashboard/src/components/diff_viewer.rs:390-404 | No header and no context line is highlighted, for every input |
| RoundTrip.FullFileRoundTrip | crates/config-diff/src/difftastic.rs:714-771 | The dashboard reads a full-file rendering of any two texts back line for line if and only if the path fits on its line and every row is recoverable |
| RoundTrip.ContextRoundTrip | crates/config-diff/src/difftastic.rs:602-663 | The same for a context rendering with its hunk headers |
| PatchText.HeaderNumbersRead | crates/config-diff/src/difftastic.rs:640-646 | The four numbers of every printed hunk header are read back from its text |
| PatchText.ContextTextIsPatch | crates/config-diff/src/difftastic.rs:602-663 | For every faithful list and recoverable rows, the rendered text itself, read line by line, is a patch from previous to current and, reversed, back, if and only if the hunks are anchored |
| PatchReading.ContextTextIsPatchIff | crates/config-diff/src/difftastic.rs:602-663 | For every faithful list and any rows, the rendered text is read as a patch from previous to current if and only if the hunks are anchored and every single row is recoverable |
| RowSides.SidesReadIffRecoverable | web/dashboard/src/components/diff_viewer.rs:346-382 | Printed rows that are read back show the lines of both files they are about if and only if each of them is recoverable: no loss is made up for by another row |
| RoundTrip.ScreenHoldsBothFiles | web/dashboard/src/components/diff_viewer.rs:346-485 | From a faithful change list through text, parsing and pairing, the lines on screen hold the previous and the current file, for files of less than 2^32 lines if and only if every row is recoverable and no part of the path is read as a line of a file, which a path on one line never is |
| FileCompare.ComputeDiff | web/dashboard/src/components/file_compare.rs:986-1127 | The two columns are those of `DiffOf`, the function of the edit script that the next row is about |
| FileCompare.ColumnsHoldFiles | web/dashboard/src/components/file_compare.rs:986-1127 | For every edit script the columns have equal length, each row pairs what belongs together, and the numbered cells are the left and the right lines numbered from 1 |
| CompareWords.ColumnsSpellLines | web/dashboard/src/components/file_compare.rs:986-1127 | For every edit script and faithful word differ, the words of every cell concatenate to its line |
| Highlights.ColumnsMarkChanges | web/dashboard/src/components/file_compare.rs:1008-1120 | For every script and differ: equal lines are plain, a line without counterpart is highlighted as a whole, and a replaced line and its replacement are compared with each other |
| UnifiedCompare.ComputeUnified | web/dashboard/src/components/file_compare.rs:1129-1256 | Rows, rewritten words and groups are those of `UnifiedOf`, the function of the edit script that the next rows are about |
| UnifiedView.RowsHoldFiles | web/dashboard/src/components/file_compare.rs:1146-1250 | For every edit script the rows hold both files with their line numbers |
| CompareWords.RowsSpellLines | web/dashboard/src/components/file_compare.rs:1146-1250 | For every edit script and faithful word differ, the words of every row, rewritten in place or not, concatenate to its line |
| Highlights.GroupsMarkChanges | web/dashboard/src/components/file_compare.rs:1146-1250 | For every script and differ: unchanged rows are plain, in each group the k-th removed and the k-th added row are compared with each other, and the others are highlighted as a whole |
| UnifiedView.GroupsCoverChanges | web/dashboard/src/components/file_compare.rs:1180-1250 | The groups are ascending and disjoint, cover exactly the changed rows, and each counts its own rows |
| UnifiedView.TotalsMatchScript | web/dashboard/src/components/file_compare.rs:1180-1250 | The group totals are the insertions and deletions of the script |
| VisibleRows.VisibleRowSet | web/dashboard/src/components/file_compare.rs:1258-1281 | The set holds exactly the rows that the format's rule over the groups makes visible |
| VisibleRows.RenderRows | web/dashboard/src/components/file_compare.rs:1283-1375 | Shown rows and folds tile all rows in order; a fold is a maximal run of hidden rows with its number and its first row as key |
| VisibleRows.FormatsShowWhatTheyPromise | web/dashboard/src/components/file_compare.rs:1258-1281 | For every edit script the context format shows exactly the rows at most three rows from a changed row, the unified format exactly the changed rows |
| VisibleRows.FoldsHideOnlyContext | web/dashboard/src/components/file_compare.rs:1290-1308 | A changed row is visible in every format, so a fold hides unchanged lines only |
| VisibleRows.EachChangeHasOneTarget | web/dashboard/src/components/file_compare.rs:1310-1326 | Each change has exactly one marked row, its first, and every format shows it |
| IdempotencyKeys.KeyIsInjective | crates/config-shared/src/validation.rs:22-40 | For hosts, hashes and minutes without colons, two keys are equal if and only if host, path, both hashes and the minute are, even for paths with colons |
| IdempotencyKeys.KeyRoundTrip | crates/config-shared/src/validation.rs:22-40 | A transition is read back from its key: host first, then the path, then both hashes and the minute |
| IdempotencyKeys.KeyIsItsOwnIff | crates/config-shared/src/validation.rs:22-40 | Among all transitions no other one has the key of a transition if and only if it has no colon in any field, the path included |
| Debounce.DebounceWindow.IngestRaw | crates/config-agent/src/debounce.rs:38-53 | A raw event is added to the one open window of its path, whose entry still describes exactly its raw events |
| Debounce.DebounceWindow.FlushExpired | crates/config-agent/src/debounce.rs:55-80 | Exactly the windows whose first raw event is old enough are taken out, each once and whole. Each event has the path, the first time and the number of its raw events, and is a deletion, a creation, a modification or a change of metadata exactly when the last raw event and the findings of the window say so |
| Debounce.DebounceWindow.FlushAll | crates/config-agent/src/debounce.rs:82-95 | All windows are taken out, with events as above |
| Debounce.SummaryIsUnique | crates/config-agent/src/debounce.rs:102-115 | The raw events of a window determine its event |
| Debounce.RawEventsAreCountedOnce | crates/config-agent/src/debounce.rs:38-95 | On every path the raw events ever ingested are as many as the events emitted and the open entry count together |
| Snapshots.SnapshotStore.WriteSnapshot | crates/config-snapshot/src/store.rs:49-72 | Content, memory and saved map after each outcome of the two writes |
| Snapshots.SnapshotStore.SetCurrentHash | crates/config-snapshot/src/store.rs:79-92 | The memory changes at once, the saved map only if saving works |
| AgentTheorems.ContentsAreNamedByHash | crates/config-snapshot/src/store.rs:40-72 | Over every run, with evictions, failed writes and crashes, a content file is named by the hash of its bytes, and the two contents an event is diffed from are those its hashes name |
| Spool.SpoolWriter.AppendEvent | crates/config-agent/src/spool.rs:52-73 | The file comes first, then the index; after a failed index write the file stays |
| Spool.SpoolWriter.MarkDelivered | crates/config-agent/src/spool.rs:75-87 | The index comes first, then the file if there is one and it parses, for each combination of failed reads and writes |
| Spool.SpoolWriter.MarkFailed | crates/config-agent/src/spool.rs:89-104 | The same with the failure reason |
| Spool.SpoolWriter.IncrementAttempts | crates/config-agent/src/spool.rs:174-188 | Adds one attempt and returns the new number, 0 without a file, an error on a failed read, parse or write |
| Spool.SpoolWriter.PendingEntries | crates/config-agent/src/spool.rs:106-128 | Returns the pending files it can read, sorted by creation |
| Spool.PendingEntriesAreThePendingFiles | crates/config-agent/src/spool.rs:106-128 | An entry is returned if and only if it is a pending file, in ascending order of creation |
| Spool.SortIsStable | crates/config-agent/src/spool.rs:106-128 | Entries of one creation time stay in the order of the directory listing |
| Spool.DepthIsPendingIffNoneSettled | crates/config-agent/src/spool.rs:167-172 | The reported depth is the number of pending files if and only if no file is settled, and marking never lowers it |
| Ingest.IngestService.IngestChange | crates/config-control-plane/src/ingest.rs:20-73 | The order of the checks and the outcome of each: schema, event, key, duplicate, then storing |
| Ingest.IngestService.StoreEvent | crates/config-control-plane/src/ingest.rs:75-242 | The row with its previous snapshot, the broadcast and the ring after each outcome of the database calls |
| Ingest.IngestService.HandleNotification | crates/config-control-plane/src/pg_notify.rs:62-90 | A notification is skipped for an id in the ring and otherwise broadcasts the stored row |
| IngestOutcomes.MessagesShowPostedEvents | crates/config-control-plane/src/ingest.rs:58-237 | From an empty table, over every run: each message on the screens, sent by the call or forwarded, shows the host, path, kind and time of an event that was posted |
| IngestOutcomes.StatusIff | crates/config-control-plane/src/http/routes.rs:575-612 | Which posts are answered 400, 409, 201 and 500, exactly |
| IngestOutcomes.RefusedFor | crates/config-control-plane/src/ingest.rs:28-60 | Which reason a refused body gets, in the order of the checks |
| IngestOutcomes.RowAddedIff | crates/config-control-plane/src/ingest.rs:58-211 | A row is added if and only if the event is new and can be inserted, even if the call then fails; otherwise nothing changes |
| IngestOutcomes.RowStartsFromTheNewest | crates/config-control-plane/src/ingest.rs:96-116 | The row's previous snapshot is that of a row of its file that none is newer than, if there is one and the look-up worked |
| IngestOutcomes.AcceptedEventIsBroadcast | crates/config-control-plane/src/ingest.rs:203-241 | An accepted event is sent once, with the host, path and kind that were posted and the environment of its host |
| IngestOutcomes.ForwardedEventIsTheRow | crates/config-control-plane/src/pg_notify.rs:62-90 | A notification about any row sends that row's fields once, if and only if its id is not in the ring and the row can be fetched |
| IngestOutcomes.UnknownNotificationIsIgnored | crates/config-control-plane/src/pg_notify.rs:62-90 | A notification about an id that no row has changes nothing |
| IngestTheorems.RunsAreSound | crates/config-control-plane/src/ingest.rs:58-237 | Over every run of ingests and notifications no two rows share a key or an id, every message sent has the host, path, kind and time of the row with its id, and the ring holds the last 64 accepted events |
| IngestTheorems.NewestRowsAreNewest | crates/config-control-plane/src/ingest.rs:96-116 | The rows the look-up can return are exactly those of the file that no row of the file is newer than |
| IngestTheorems.RunsKeepChain | crates/config-control-plane/src/ingest.rs:96-116 | When the time of each stored row is past those of its file and look-ups work, the rows of each named file form a chain, whatever the database does with equal times |
| IngestTheorems.LinksForEveryChoiceIff | crates/config-control-plane/src/ingest.rs:96-116 | On every table the next row of a file is sure to continue its last row if and only if all newest rows of the file have that row's snapshot |
| IngestTheorems.EqualTimesBreakTheChain | crates/config-control-plane/src/ingest.rs:96-116 | An instance: after two events of one file at one time with two snapshots in an empty table, the look-up may return the first and break the chain |
| IngestTheorems.FailedLookUpKeepsChainIff | crates/config-control-plane/src/ingest.rs:96-116 | A row stored after a failed look-up keeps the chain if and only if its file has no last snapshot |
| IngestTheorems.ChainLinksNeighbours | crates/config-control-plane/src/ingest.rs:96-116 | In such a table each row's previous snapshot is the current snapshot of the row before it on the same file |
| IngestTheorems.NotificationSkippedIfRecent | crates/config-control-plane/src/pg_notify.rs:69-81 | A notification about a server's own event sends it again if and only if at least 64 events were accepted since |
| IngestTheorems.NotificationInBetweenSendsTwice | crates/config-control-plane/src/ingest.rs:203-237 | An accepted call broadcasts and then updates the ring, and a notification handled in between always sends the event twice |
| IngestTheorems.SuccessSeenIff | crates/config-transport/src/client.rs:135-149 | The agent sees a success if and only if the body is well formed, the key is in the table, the reply arrives and parses, and the check, the fetch of a known key or the host look-up of a new one worked |
| DeliveryTheorems.RunsAreSafe | crates/config-agent/src/app.rs:102-391 | Every step keeps: each spooled event is pending or its key is stored, attempts are at most 1, an id in the index has a file, and the agent's phase matches the disk |
| DeliveryTheorems.SpooledEventsAreNeverLost | crates/config-agent/src/app.rs:349-382 | From a first start, over crashes at any step, lost replies, failed writes and restarts, a spooled event is pending or stored, and never failed for good |
| HashTheorems.HashesAreSpooledFirst | crates/config-agent/src/app.rs:384-391 | In every reachable state the hash of a file, in memory and as saved, is a baseline or the current hash of an event in the spool |
| HashTheorems.EventsAreTheNewFiles | crates/config-agent/src/app.rs:349-352 | Over every run the spool files written since the main loop started are exactly one for each recorded event, and hold it |
| HashTheorems.SpooledEventsFoldToTheHashes | crates/config-agent/src/app.rs:267-391 | Over every run without a half-failed append of a change, folding the events of those files gives the stored hashes, and each event starts from the hash the one before it left; strictly so when contents stay readable |
| HashTheorems.FoldsIffNoHalfAppend | crates/config-agent/src/app.rs:349-352 | Over every run with readable contents, fold and links hold between two events if and only if no append of a creation or a modification failed after its file was written |
| HashTheorems.HalfAppendLeavesTwins | crates/config-agent/src/spool.rs:52-73 | From every state between two events, such an append and a second change leave two pending files on one path with the same previous hash |
| HashTheorems.AgentRunsFromFreshStart | crates/config-agent/src/app.rs:102-391 | Safety, provenance of hashes, the files of the events, and the fold with its exact condition hold in every state reached from a first start |
| AgentTheorems.DeletionKeepsStore | crates/config-agent/src/app.rs:349-391 | Whatever fails while a deletion is delivered, contents and hashes stay as they were |
| EventTheorems.DeletionReportedIffTracked | crates/config-agent/src/pipeline.rs:196-210 | A deletion becomes an event from the stored hash to none if and only if a hash is stored for the file; otherwise nothing changes |
| EventTheorems.ChangeReportedIffNewHash | crates/config-agent/src/pipeline.rs:211-268 | Every other event, by the state of the file: what ends the agent, what changes nothing, and from which hash to which the reported event goes, with the contents to diff |
| EventTheorems.DeletionIsSpooled | crates/config-agent/src/app.rs:349-391 | When the append works, the spool holds that deletion, delivered if and only if it was acknowledged and both marks were written |
| EventTheorems.ChangeAdvancesTheHash | crates/config-agent/src/app.rs:349-391 | When the append works, the spool holds the transition to the new hash, and the store has content and hash as far as the writes worked, unless the delivery ended the agent |
| EventTheorems.ReportedEventIsHandled | crates/config-agent/src/app.rs:349-391 | Whatever fails, what a reported event leaves: the spool file with status and attempts, the server, and the new hash if and only if the append worked and the delivery did not end the agent |
| EventTheorems.HashSurvivesCrashIffSaved | crates/config-agent/src/app.rs:384-391 | After a crash and a restart the agent has the new hash if and only if it was set and saved |
| EventTheorems.AcceptedEventIsShown | crates/config-agent/src/pipeline.rs:284-400 | An accepted event is in the table and on the screens with the agent's host, the file's path, the name of its kind and the key of its transition |
| EventTheorems.FailsFromTheFifth | crates/config-agent/src/app.rs:367-381 | A counted failure adds one attempt, and the fifth fails the event for good as far as that can be written |
| AgentTheorems.ReturnReportedIffNewHash | crates/config-agent/src/pipeline.rs:196-228 | After a deletion, delivered in any way, the file that comes back is reported if and only if its hash is not the stored one; otherwise handling it changes nothing at all |
| AgentTheorems.FirstModificationHasPrevious | crates/config-agent/src/app.rs:63-65 | After a baseline scan from any store, the next modification of every file that could be read and kept is diffed against a stored previous version |
| AgentTheorems.ReplaySettlesWhatItDelivers | crates/config-agent/src/app.rs:102-116 | A replay marks exactly the entries it delivers: a file still waits if and only if it did and no try for it worked, and the key of every other is stored |
| AgentTheorems.GoodReplayEmptiesTheSpool | crates/config-agent/src/app.rs:102-116 | After a complete replay whose sends and marks all work, every spool file is delivered and its key is stored |
| SpoolTheorems.SettledFilesAreInTheIndex | crates/config-agent/src/spool.rs:75-159 | Over every run, with crashes and failed writes anywhere: in all its states each file that no longer waits agrees with the index, if and only if no unreadable index is written back while the file of another event is settled |
| SpoolTheorems.UnreadableIndexForgets | crates/config-agent/src/spool.rs:130-159 | An index that cannot be read back and is replaced still covers every settled file if and only if all other events wait |
| SpoolTheorems.IndexAndFilesAgree | crates/config-agent/src/spool.rs:52-165 | Over runs with stops, restarts and failed first writes, index and files agree on every event, as long as no operation is cut short between its two writes |
| SpoolTheorems.ReplayFindsTheIndexPending | crates/config-agent/src/app.rs:102-104 | After such a run, at a restart in particular, the pending entries are exactly the index's pending ids |
| DuplicateTheorems.RowsComeFromTransitions | crates/config-control-plane/src/ingest.rs:58-211 | Over every run, when other posts are those of agents and nothing from outside holds a colon, each row has the key, the host and the path of one transition |
| DuplicateTheorems.DuplicateIsTheSameTransition | crates/config-control-plane/src/ingest.rs:58-73 | Over every such run a duplicate answer to an event the agent publishes names a row with that event's key, host and path, and no transition other than the event's has that key |
| DuplicateTheorems.SwallowedIffRecorded | crates/config-control-plane/src/ingest.rs:58-73 | With a working database an event with a new id adds no row if and only if a row of its transition is there; the agent then sees a success unless the reply is lost |
| Agent.Agent.BaselineScan | crates/config-agent/src/pipeline.rs:34-125 | The scan does exactly its baseline steps over the files found, and its statistics count the files that got a baseline and those that were skipped |
| AgentTheorems.BaselineTakenIff | crates/config-agent/src/pipeline.rs:83-113 | What a baseline leaves of contents, hashes and the saved map, for each outcome of its writes: nothing for a file that is known or over 5 MiB |
| AgentTheorems.ScanCountedIff | crates/config-agent/src/pipeline.rs:83-113 | A file is counted as skipped if and only if its stored content is there, and as created if and only if its baseline was written, noted and saved |
| Agent.Agent.ReplayPending | crates/config-agent/src/app.rs:102-116 | The replay sends the pending entries in order and marks those that succeed, and nothing else |
| Agent.Agent.TakeFile | crates/config-agent/src/pipeline.rs:189-268 | The decision for each kind and file state, and the event built from it |
| Agent.Agent.HandleEvent | crates/config-agent/src/app.rs:267-391 | One event does exactly the steps append, publish, mark or count, keep content and set hash, each with the outcome its inputs say |
| Agent.Agent.CountFailure | crates/config-agent/src/app.rs:367-381 | A failed publish counts an attempt and fails the event for good from the fifth on; an error in counting ends the agent |
| Retention.SnapshotDir.EnforceRetention | crates/config-snapshot/src/retention.rs:41-103 | The files left are those of the two passes, and the statistics are the difference before and after |
| Retention.NoAgedFileSurvives | crates/config-snapshot/src/retention.rs:59-80 | A file more than the maximum age old is left only if removing it failed in the age pass |
| Retention.UnderCapStaysIffYoung | crates/config-snapshot/src/retention.rs:59-82 | Of files under the cap exactly those stay that are not over the maximum age or could not be removed, and all of them when the maximum age is 0 |
| Retention.UnderCapOrStuck | crates/config-snapshot/src/retention.rs:82-97 | Afterwards the total is under the cap, or removing every file that is left failed |
| Retention.LargestFirstIsOptimal | crates/config-snapshot/src/retention.rs:85-96 | No smaller choice of removable files brings the total under the cap |
| Retention.SortIsStable | crates/config-snapshot/src/retention.rs:85 | Files of one size are tried in the order in which they were found |
| Retention.SweepIsOptimal | crates/config-snapshot/src/retention.rs:54-97 | The same for the whole sweep, among the files the age pass leaves |
| Tunnel.AgentRegistry.RegisterAgent | crates/config-control-plane/src/tunnel.rs:35-50 | A new connection replaces the old one, drops its pending channels and raises the gauge |
| Tunnel.AgentRegistry.UnregisterAgent | crates/config-control-plane/src/tunnel.rs:52-66 | The connection goes, each pending channel is answered "agent disconnected", the gauge falls; nothing without a connection |
| Tunnel.AgentRegistry.CloseTunnel | crates/config-control-plane/src/tunnel.rs:205-210 | The end of a socket unregisters the host of the socket |
| Tunnel.AgentRegistry.SendTo | crates/config-control-plane/src/tunnel.rs:68-92 | A new channel pends under the id, an earlier one with that id is dropped, and a failed send withdraws it |
| Tunnel.AgentRegistry.HandleResponse | crates/config-control-plane/src/tunnel.rs:94-106 | A response settles the pending channel of its id on its host, and nothing otherwise |
| Tunnel.QueryIsIssued | crates/config-control-plane/src/tunnel.rs:68-92 | A query to a connected host waits on its connection if it was sent and is dropped otherwise; an earlier query with its id is dropped, and nothing else changes |
| Tunnel.UnconnectedIsNotIssued | crates/config-control-plane/src/tunnel.rs:68-76 | A query to a host without a connection changes nothing |
| Tunnel.RunsKeepRegistry | crates/config-control-plane/src/tunnel.rs:35-106 | Over every interleaving the waiting channels are exactly the pending ones, each connection is on the last socket its host opened, and the gauge is the live connections plus the replacements, so it never underflows |
| Tunnel.StepSettlesOnlyItsOwn | crates/config-control-plane/src/tunnel.rs:35-106 | A channel is answered only by a response with its id from its host, disconnected only when a socket of its host closes, dropped only when its host connects anew or its id is used again |
| Tunnel.SettledForGood | crates/config-control-plane/src/tunnel.rs:35-106 | A query completes at most once |
| Tunnel.ResponseAnswersIffWaiting | crates/config-control-plane/src/tunnel.rs:94-106 | A response with the id and from the host of a query answers it if and only if it waits |
| Tunnel.IssuedArePendingCompletedOrDropped | crates/config-control-plane/src/tunnel.rs:68-106 | The queries issued are as many as the pending, the completed and the dropped ones |
| Tunnel.ClosesOverRuns | crates/config-control-plane/src/tunnel.rs:205-210 | In every reachable state the close of an open socket leaves the connections and queries of all other sockets alone if and only if no later socket of its host holds the registration |
| Tunnel.ReconnectsCloseTheirOwn | crates/config-control-plane/src/tunnel.rs:205-210 | When agents connect again only after their last socket closed, every close ends its own connection only |
| Tunnel.GaugeIffNeverReplaced | crates/config-control-plane/src/tunnel.rs:35-66 | Over every run the gauge is the number of live connections if and only if no registered host registered again |
| Tunnel.StaleSocketRemovesItsSuccessor | crates/config-control-plane/src/tunnel.rs:205-210 | The failing run: after a reconnect the close of the old socket leaves the new one open without a registration, disconnects its query and leaves the gauge one too high |
| Filters.BuildList | crates/config-storage/src/repositories/change_events.rs:76-165 | The clauses, the values bound and the numbers of limit and offset |
| Filters.BuildCount | crates/config-storage/src/repositories/change_events.rs:169-244 | The same clauses and values, without limit and offset |
| Filters.NumberedSelects | crates/config-storage/src/repositories/change_events.rs:82-165 | Each placeholder is bound to the value its condition is about, whatever is bound around them |
| Filters.PlaceholdersAreConsecutive | crates/config-storage/src/repositories/change_events.rs:85-132 | The placeholders are 1 to k in order, for any number of excluded kinds |
| Filters.ListAndCountSelectTheSame | crates/config-storage/src/repositories/change_events.rs:76-244 | Both statements select exactly the rows that match the filters |
| Filters.PrefixFilterIffPlain | crates/config-storage/src/repositories/change_events.rs:143 | The path filter means "starts with" if and only if the prefix holds no wildcard and no backslash |
| Filters.NameFilterIffPlain | crates/config-storage/src/repositories/change_events.rs:145-147 | The file name filter means "contains" if and only if the part holds no wildcard and no backslash |
| Filters.LastNameIs | crates/config-storage/src/repositories/change_events.rs:93-99 | The name the filter looks at is what follows the last slash of the path |
| Filters.PagesAreAllRows | web/dashboard/src/models.rs:220-254 | The pages 1 to the number of pages, one after the other, are all rows, each once, and no offset is beyond the rows |
| ChunkedRead.ChunksAreTheFile | crates/config-agent/src/query_handler.rs:270-300 | Asking on by the length of each chunk until the last yields the file's bytes once each in order, for every limit from 1 and all short reads |
| ChunkedRead.AnswerIsSlice | crates/config-agent/src/query_handler.rs:236-302 | An answer is the slice of the file it says it is, and it is the last if and only if it ends the file |
| ChunkedRead.ChunkIsWhatWasAsked | crates/config-agent/src/query_handler.rs:270-300 | A chunk starts at the given offset or at 0 and is as long as the rest of the file, the limit or 256 KiB, and the system allow |
| ChunkedRead.RefusedIff | crates/config-agent/src/query_handler.rs:242-275 | Which requests are refused and why, exactly |
| ChunkedRead.ZeroLimitNeverEnds | crates/config-agent/src/query_handler.rs:270-293 | A limit of zero makes no progress before the end of a file |

## Left out

- PrefixRead: the formats are recognised from the whole prefix; the status prefix of the dashboard is not modelled.
- RoundTrip.ScreenHoldsBothFiles: for files of 2^32 lines and more each of the two conditions is shown to be exact only when the other holds.
- IngestTheorems.RunsKeepChain: stated for runs of working look-ups and rising times; what one failed look-up, or one row that is not newer, does to the chain is stated for single steps (`FailedLookUpKeepsChainIff`, `LinksForEveryChoiceIff`).
- Machine integers: line positions, byte totals and counts are unbounded; only the 32-bit row numbers of the parser are bounded.
- Raw difftastic output, the difftastic process, temporary files and binary probing: a foreign program.
- The diff algorithm of the `similar` crate: its edit scripts are inputs.
- Unicode: strings are sequences of characters; widths, normalisation and byte offsets inside them are not modelled.
- `parse_side_by_side_rows` and the HTML around rows, words and folds: the two-column text is not read back.
- The agent's announcement of initial snapshots, heartbeats and metrics: other posts to the control plane are arbitrary steps of the model.
- Torn file writes, and two ingests racing between the duplicate check and the insert.
- Reconnecting the notification listener: notifications may come in any order, for any id, or not at all.
- HMAC, BLAKE3, base64, JSON, glob and regular expressions: opaque.
- Path policy, redaction, YAML lint, attribution, severity, GitHub workflow, routes, sessions, login and the command line.
- ORDER BY with equal times: pages are taken of one fixed order of the rows.
