# Models and proofs of the hard cores

A Dafny model of four parts of the repository, with proofs of what they promise. Each part is
modelled with the branches, limits and error cases of its source; what the source updates in
place is a class, an array or a loop here, proved against a function, and the promises are proved
of the functions.

- **Diff, patch and rollback** of the editor plugin: the line diff with its dynamic program, hunk
  grouping, the line shift table, inversion, edit distance and similarity, the two-round anchoring
  search (`Lines`, `Lcs`, `Diff`, `Levenshtein`, `Anchor`, `Matching`, `Rollback`); and the apply_patch parser
  with its block search, line-by-line anchoring and all-or-nothing application (`Hunks`,
  `HunkText`, `BlockSearch`, `LineByLine`, `LineEndings`, `PatchParser`, `PatchChanges`, `PatchInputs`).
- **The projector** that turns frame streams into an event log: the state machine of calls,
  approvals, results and turns, what becomes of every approval and of all streamed text, the merge
  of graph events by time, the open-node list, the handoff segment that survives re-projection, and
  the text form of frames (`Events`, `Projection`, `Protocol`, `Graph`, `Run`, `Approvals`,
  `TextFlow`, `FrameLaw`, `RunLaw`, `OpenList`, `Projector`, `Handoff`, `SseFrame`, `ScanLaw`).
- **Streaming uploads**: an incremental multipart parser that keeps a bounded look-back, feeding a
  writer that re-slices into requests and moves a staging file into place (`Bytes`, `FileStream`,
  `Multipart`, `Sandbox`, `Upload`). The delimiter rule is that of section 5.1.1 of RFC 2046.
- **State keepers of the plugin**: the task watcher with its socket and polling channels, the
  checkpoint store, and the merge of progress frames (`Watcher`, `WatchLaw`, `Checkpoints`, `Progress`,
  `ProgressLaw`).

`Wrappers`, `Numbers` and `Decimals` are shared helpers. `dafny verify dfyconfig.toml` checks everything.

## Where the code does less than its documentation says

The model follows the code. Each of these is stated exactly: with the condition under which the
documented claim holds, and with an input for which it does not.

- A line inside a replaced block is shifted to the block's start without the gains of earlier
  blocks (`Diff.ShiftOfReplacedLine`, `Diff.ReplacedLineCanBeOff`).
- An undo can change another copy of the same lines (`Rollback.LandsInPlace`,
  `Rollback.RollbackCanHitAnotherCopy`), and undoing the emptying of a file goes by line number
  (`Rollback.UndoOfEmptying`).
- An approval without a call id goes to the last buffered call of that tool, decided or not, not to
  the nearest undecided one (`Approvals.NearestUndecidedIff`, `Approvals.DecidedTwice`). A call can
  then be carried as granted while its results are denied (`Approvals.AgreesIff`,
  `Approvals.GrantedButDenied`).
- Text buffered in a session with nothing to close is lost at the end of input
  (`TextFlow.TextAtEnd`, `TextFlow.TextCanBeLost`).
- The idle check of a checkpoint compares lengths: a re-projection of the same length with other
  content counts as no growth (`Handoff.CheckpointAfterHistory`, `Handoff.OtherContentIsSkipped`).
- The file stream skips two bytes behind a false delimiter candidate, and so misses a real one that
  overlaps it (`FileStream.StreamIsExactUnlessShadowed`, `FileStream.ShadowedFails`).
- A failing mode change leaves the new file in place, and a move whose success is not reported can
  have replaced the target (`Sandbox.FailsBehindMoveIff`, `Sandbox.NewFileStays`).
- A line end of the other kind, and a CR before a line end, do not survive a patch
  (`LineEndings.RestoredIsSameIff`, `LineEndings.MixedIsNotRestored`).
- A block for the end of the file that is longer than the file is searched from before its first
  line (`BlockSearch.FoundBeforeFileIff`, `BlockSearch.FoundBeforeTheFile`); chunks that then start
  below zero are refused, and the whole patch with them (`PatchChanges.ApplyChunks`,
  `PatchInputs.RefusedBeforeTheFile`).
- A patch text is taken up to its last end sentinel and read up to its first: what stands behind
  that is not done, and nothing says so (`PatchChanges.AllOrNothing`,
  `PatchInputs.SecondPatchIsIgnored`).
- Two processes that save at one time and count give two checkpoints one name, and the later takes
  the place of the earlier (`Checkpoints.HeldIsTop`, `Checkpoints.OnlyProcessesRepeat`,
  `Checkpoints.RepeatedNameReplaces`).
- A terminal listener that throws can hear the end again: the end is told once for each throw, and
  at most once more (`Watcher.WatchIsSafe`, `Watcher.ThrowingListenerHearsTwice`).
- After a gap the shown text is not the stream from its start (`Progress.WholePrefixIff`,
  `Progress.GapDropsText`).

## Model

| member | source | states |
|---|---|---|
| Lcs.LengthIsOptimal | vscode-plugin/src/diffParse.ts:345-352 | the recursion behind the table gives the length of a longest common subsequence: no common subsequence is longer, and one is that long |
| Lcs.LengthPrefix | vscode-plugin/src/diffParse.ts:335-340 | taking a common prefix off both texts takes exactly its length off the optimum |
| Lcs.LengthSuffix | vscode-plugin/src/diffParse.ts:335-340 | the same for a common suffix, so stripping both loses nothing |
| Lcs.FillTable | vscode-plugin/src/diffParse.ts:345-352 | the flat 32-bit table, filled in place from its end, holds the optimum of the remaining texts in every cell |
| Diff.StrippedUnique | vscode-plugin/src/diffParse.ts:335-340 | greedy stripping finds the one prefix and suffix that nothing else could be, also when the cap refuses the rest |
| Diff.Backtrack | vscode-plugin/src/diffParse.ts:356-392 | the edit blocks are in order, separated by kept lines, explain both texts, and keep exactly as many lines as a longest common subsequence has |
| Diff.EditsWeave | vscode-plugin/src/diffParse.ts:356-392 | both texts are woven from the same kept stretches, each block at its own offset in either |
| Diff.MergeRun | vscode-plugin/src/diffParse.ts:399-410 | a context takes in the following blocks exactly as long as their contexts meet |
| Diff.GroupHunks | vscode-plugin/src/diffParse.ts:394-417 | every hunk covers a run of blocks with clipped context, hunks are disjoint with kept lines between them, and the shift table lists each block's own gain |
| Diff.BuiltIsPatch | vscode-plugin/src/diffParse.ts:327-418 | what is built explains the whole texts: so every round trip below holds of every patch that is built |
| Diff.BuildFilePatch | vscode-plugin/src/diffParse.ts:327-418 | null exactly when the stripped table would exceed the cap; otherwise hunks with context that explain both texts, from a minimal edit |
| Diff.TailIsNotShown | vscode-plugin/src/diffParse.ts:327-334 | between texts that end in a line end or are empty, no hunk shows the empty piece behind the last line end |
| Diff.ShiftLine | vscode-plugin/src/diffParse.ts:432-443 | the loop over the shift table computes the tracked line |
| Diff.ShiftIsFaithful | vscode-plugin/src/diffParse.ts:394-443 | every line that survives the edit is sent to a line of the new text with the same content |
| Diff.ShiftIsIncreasing | vscode-plugin/src/diffParse.ts:394-443 | surviving lines keep their order and never meet |
| Diff.ShiftOfReplacedLine | vscode-plugin/src/diffParse.ts:432-443 | a line inside a replaced block is sent to the block's start in the old text, which is its start in the new text if and only if the blocks before it gained nothing |
| Diff.ReplacedLineCanBeOff | vscode-plugin/src/diffParse.ts:432-443 | two blocks for which that answer is off |
| Lines.SpliceWeave | vscode-plugin/src/diffParse.ts:218-231 | swapping the parts of a woven file gives the file woven from the other parts, whatever lies between them |
| Lines.JoinSplit | vscode-plugin/src/diffParse.ts:328-329 | joining undoes splitting at line ends |
| Levenshtein.Compute | vscode-plugin/src/diffParse.ts:104-119 | the flat matrix filled row by row ends with the edit distance |
| Levenshtein.DistanceIsOptimal | vscode-plugin/src/diffParse.ts:104-119 | the distance is the least cost of an edit script: no script that turns one text into the other is cheaper, and one costs that much |
| Levenshtein.Symmetric | vscode-plugin/src/diffParse.ts:104-119 | the distance is the same in both directions |
| Levenshtein.ZeroIffEqual | vscode-plugin/src/diffParse.ts:104-119 | it is zero exactly for equal texts |
| Levenshtein.AtMostLonger | vscode-plugin/src/diffParse.ts:104-119 | it is at most the length of the longer text |
| Levenshtein.Triangle | vscode-plugin/src/diffParse.ts:104-119 | it obeys the triangle inequality |
| Levenshtein.SimilarityIsAScore | vscode-plugin/src/diffParse.ts:121-126 | similarity lies between 0 and 1, is symmetric, and is 1 exactly for equal texts |
| Levenshtein.SimilarityIsShare | vscode-plugin/src/diffParse.ts:121-126 | similarity is the share of the longer text that a cheapest edit leaves alone, and one for two empty texts |
| Levenshtein.ComputeSimilarity | vscode-plugin/src/diffParse.ts:121-126 | the score as computed from the matrix |
| Anchor.FindContext | vscode-plugin/src/diffParse.ts:152-183 | the four scans compute the located window |
| Matching.TrimEndIs | vscode-plugin/src/diffParse.ts:165-168 | what trimming the end leaves: the text without all the space at its end |
| Matching.TrimStartIs | vscode-plugin/src/diffParse.ts:170-173 | and at its start |
| Matching.TrimIs | vscode-plugin/src/diffParse.ts:170-173 | trimming leaves what stands in the text between nothing but space, with no space at either end |
| Matching.MatchesIff | vscode-plugin/src/diffParse.ts:160-173 | in terms of the lines alone: lines that agree match whatever normalisation does; and when normalisation takes only equal texts to equal ones, a block matches at a level exactly where each of its lines equals the line of the file, or does but for space at the end, or but for space around |
| Matching.SimilarIff | vscode-plugin/src/diffParse.ts:175-180 | by likeness a block matches exactly where a cheapest edit leaves at least 0.66 of the longer text alone |
| Anchor.LocateIsBestThenFirst | vscode-plugin/src/diffParse.ts:152-183 | a hit is the first window of the best level that has one, and there is a miss exactly when no window matches at any level |
| Anchor.LocateReports | vscode-plugin/src/diffParse.ts:175-183 | a hit by likeness reports how alike its window is, and a miss how alike the most alike window is, or zero |
| Anchor.ApplyResolvedChunks | vscode-plugin/src/diffParse.ts:218-231 | accepts exactly ascending, disjoint chunks that start within the file, splices them, and names the first chunk that cannot be |
| Anchor.RefusalNamesFirst | vscode-plugin/src/diffParse.ts:218-231 | the refusal names the first chunk that cannot be spliced, and whether it starts behind the file or before the end of the one before it |
| Anchor.ApplyPatchToLines | vscode-plugin/src/diffParse.ts:235-296 | both rounds, the sort and the splice compute the outcome of the patch |
| Rollback.AllOrNothing | vscode-plugin/src/diffParse.ts:235-296 | a failure leaves no lines; success places every hunk exactly once and splices exactly those: in order of their numbers, each at the first place of its best level behind the hunk before it, and those that had none there, from the top of the file; those at one start keep that order |
| Rollback.FuzzIsTotal | vscode-plugin/src/diffParse.ts:235-296 | the fuzz of a patch that is applied is the sum of what its placements cost |
| Rollback.FailuresSay | vscode-plugin/src/diffParse.ts:235-296 | a patch fails because hunks are nowhere in the file, and then each of them is reported and nothing else is; or else by one clash of places |
| Rollback.RoundTrip | vscode-plugin/src/diffParse.ts:327-427 | splicing the hunks of a patch over the old lines gives the new lines, and the inverted hunks over the new lines give the old ones back |
| Rollback.RoundTripText | vscode-plugin/src/diffParse.ts:327-427 | the same for texts, up to CR LF being written as LF |
| Rollback.InvertTwice | vscode-plugin/src/diffParse.ts:421-427 | inverting swaps the two sides, and twice is nothing |
| Rollback.InvertNames | vscode-plugin/src/diffParse.ts:421-427 | the inverse is for the file that the patch leaves and gives it its old name; twice is nothing if and only if the patch names both files or neither |
| Rollback.LandsInPlace | vscode-plugin/src/diffParse.ts:235-296 | every hunk lands on its own part, with no fuzz, if and only if no earlier place behind the part before it reads the same |
| Rollback.SurgicalRollback | vscode-plugin/src/diffParse.ts:152-296 | after any later edits that leave each new block with one place that reads like it, undoing the first fix succeeds with no fuzz and puts back exactly those blocks, keeping the later edits |
| Rollback.BuiltHasNewLines | vscode-plugin/src/diffParse.ts:327-418 | what undoing asks of the hunks, every built patch has unless the new text is empty |
| Rollback.SurgicalUndoOfBuilt | vscode-plugin/src/diffParse.ts:152-427 | so the same holds of the undo of every built patch |
| Rollback.UndoOfBuilt | vscode-plugin/src/diffParse.ts:235-427 | for every built patch: with no later edit the undo lands on its own blocks if and only if none of them has an earlier copy, and then gives the old lines |
| Rollback.RollbackWithoutLaterEdits | vscode-plugin/src/diffParse.ts:235-296 | with no later edit the undo lands on its own blocks if and only if none of them has an earlier copy, and then gives the old text |
| Rollback.RollbackCanHitAnotherCopy | vscode-plugin/src/diffParse.ts:235-296 | two texts, the patch that is built for them, and an undo that changes another copy of the block |
| Rollback.UndoOfEmptying | vscode-plugin/src/diffParse.ts:421-427 | undoing the emptying of a file puts its lines behind the empty line, which is the old file if and only if all of its lines were empty |
| Hunks.Peek | vscode-plugin/src/applyPatch.ts:500-585 | reads one hunk in a loop: its block, one chunk for each maximal run of changed lines, where it ends, whether it is for the end of the file; rejects stray marker lines |
| HunkText.PeekUndoesPrint | vscode-plugin/src/applyPatch.ts:500-585 | whatever stands before and behind, reading back a printed list of kept, removed and inserted texts gives the kept and removed ones as the block, and chunks that delete exactly the removed and insert exactly the inserted texts and make the new side of the old one |
| HunkText.HunkSaysLines | vscode-plugin/src/applyPatch.ts:500-585 | of any lines: the block and the two sides of a hunk are what stands behind the marks of its lines |
| HunkText.PeekRefusedIff | vscode-plugin/src/applyPatch.ts:500-585 | a hunk is refused exactly when a line beginning with three stars that is no marker comes before anything that ends it |
| Hunks.ChangesAreOk | vscode-plugin/src/applyPatch.ts:500-585 | the chunks of any hunk body delete exactly the block's lines at their index, are strictly ascending with a kept line between them, and applied to the old side give exactly the new side |
| BlockSearch.FindBlock | vscode-plugin/src/applyPatch.ts:407-492 | the scans, with the end of the file first when asked, compute the found place |
| Matching.ShortWindowNever | vscode-plugin/src/applyPatch.ts:424-470 | a window that the end of the file cuts short matches only by likeness, when normalisation takes only equal texts to equal ones |
| Matching.BothSearches | vscode-plugin/src/applyPatch.ts:424-470 | within the file both searches match alike at every level, so all of that holds of either |
| BlockSearch.BlockIsBestThenFirst | vscode-plugin/src/applyPatch.ts:407-492 | a hit is the first window of the best level that has one, from where its scan began; there is a miss exactly when no window from the cursor matches and, for a hunk at the end of the file, the scan of the end misses too |
| BlockSearch.FoundBeforeFileIff | vscode-plugin/src/applyPatch.ts:478-487 | a block for the end of the file is found before the first line if and only if it is at least two lines longer than the file and, at the best level that occurs, reads like that many of the last lines |
| BlockSearch.WindowBeforeIsTail | vscode-plugin/src/applyPatch.ts:424-437 | before its first line, the file reads as its own last lines |
| BlockSearch.FoundBeforeTheFile | vscode-plugin/src/applyPatch.ts:478-487 | a file of one line and a block of three for which that happens |
| PatchInputs.RefusedBeforeTheFile | vscode-plugin/src/applyPatch.ts:873-892 | the patch for them, as text, is refused as a whole |
| LineByLine.TryLineByLineAnchor | vscode-plugin/src/applyPatch.ts:598-645 | the greedy scan, the moved chunks and the order check compute the anchoring |
| LineByLine.GreedyIsComplete | vscode-plugin/src/applyPatch.ts:598-619 | the scan fails exactly when the normalised old lines are not a subsequence of the file from the start |
| LineByLine.GreedyIsEarliest | vscode-plugin/src/applyPatch.ts:605-619 | no other way to place the old lines has any of them before the place found |
| LineByLine.AnchoringIsSafe | vscode-plugin/src/applyPatch.ts:598-645 | anchoring fails exactly when the lines are no subsequence or a deletion would be torn apart; what it returns is ascending, within the file, never refused, and deletes lines that read like its own |
| PatchParser.PlacedIsSound | vscode-plugin/src/applyPatch.ts:238-335 | a hunk that is placed stands at the first window of the best level from where its scan began, which is the end of the file, the cursor, or the top when nothing from the cursor matches; or line by line from the cursor or the top, and then only with a definition line and no window that matches but by likeness; one with a definition line, unless it is for the end of the file, is never placed by likeness alone |
| PatchParser.PlacedIff | vscode-plugin/src/applyPatch.ts:238-335 | a hunk finds no place exactly when none of the ways open to it leads to one, which depends on whether it has a definition line or is for the end of the file |
| PatchParser.DefReadsIff | vscode-plugin/src/applyPatch.ts:206-240 | when normalisation takes only equal texts to equal ones, a line of the file reads like a definition line exactly if it is not empty and equal to it but for space around |
| PatchParser.RoundRefusedIff | vscode-plugin/src/applyPatch.ts:194-242 | a round is refused exactly when a hunk behind the first has no mark, or a stray marker line ends its body |
| PatchParser.SectionRefusedIff | vscode-plugin/src/applyPatch.ts:127-170 | a section is refused exactly when it has no header, its path was taken, the file is missing or there already, its hunks are refused or a line of a new file lacks its mark |
| PatchParser.HeaderSays | vscode-plugin/src/applyPatch.ts:127-142 | a section is for what stands behind its marker, without the space around it |
| PatchParser.MoveSays | vscode-plugin/src/applyPatch.ts:150-170 | a move line right behind the header names the new path, and the hunks begin behind it |
| PatchParser.RoundsTile | vscode-plugin/src/applyPatch.ts:172-347 | every round of an accepted section consumes at least one line, and the rounds take the section's lines one after the other, leaving none out |
| PatchParser.RoundsAreSound | vscode-plugin/src/applyPatch.ts:172-347 | every hunk that a section placed is placed in that way |
| PatchParser.RoundsChain | vscode-plugin/src/applyPatch.ts:172-347 | when no hunk missed, round by round the hunk that was read is the one that was placed, looked for from behind the hunk before it: behind the first line from there that reads like its definition, if one does, at the cost of that line |
| PatchParser.RoundsSay | vscode-plugin/src/applyPatch.ts:172-347 | the chunks of a section that missed no hunk delete in all exactly the texts behind its minus signs and insert exactly those behind its plus signs, and its fuzz is what its placements and definition lines cost |
| PatchParser.SortSorts | vscode-plugin/src/applyPatch.ts:343-346 | sorting by place orders the chunks and loses none |
| PatchParser.SortIsStable | vscode-plugin/src/applyPatch.ts:343-346 | chunks at one place keep their order |
| PatchParser.ParsedReadsAll | vscode-plugin/src/applyPatch.ts:92-142 | a text that is parsed has every section that it reaches in the patch, under a path that no other section has, and nothing else |
| PatchParser.PatchParser.ParseUpdateFile | vscode-plugin/src/applyPatch.ts:172-347 | the loop over the section's hunks, with its progress check, cursor, fuzz and misses |
| PatchParser.PatchParser.ParseUpdate | vscode-plugin/src/applyPatch.ts:150-170 | an update section: missing file, duplicate and move line as in the source |
| PatchParser.PatchParser.ParseDelete | vscode-plugin/src/applyPatch.ts:349-356 | a delete section |
| PatchParser.PatchParser.ParseAdd | vscode-plugin/src/applyPatch.ts:358-396 | an add section: every line up to the next marker must be an added one |
| PatchParser.PatchParser.ParseNextAction | vscode-plugin/src/applyPatch.ts:127-142 | the section at the index is entered and the index moves behind it, or the patch is rejected |
| PatchParser.PatchParser.Parse | vscode-plugin/src/applyPatch.ts:92-104 | the whole text, section by section |
| PatchChanges.NormalizePatchInput | vscode-plugin/src/applyPatch.ts:673-707 | the text between the sentinels, or what is left without its wrapping |
| PatchChanges.RawIs | vscode-plugin/src/applyPatch.ts:673-707 | the lines of the input, each without one CR at its end |
| PatchChanges.NormalizedIs | vscode-plugin/src/applyPatch.ts:673-707 | with a sentinel somewhere, what is parsed is what stands from the first begin to the last end, and the text is refused if that is nothing; without one, what is left when wrapper lines and then blank lines are taken off both ends |
| PatchChanges.NormalizedIsBracketed | vscode-plugin/src/applyPatch.ts:673-707 | what is parsed begins and ends with a sentinel, so no section can run off its end |
| PatchChanges.ApplyChunks | vscode-plugin/src/applyPatch.ts:764-795 | accepts exactly chunks that ascend within the file, and puts them in |
| PatchChanges.ComputePatchChanges | vscode-plugin/src/applyPatch.ts:873-892 | changes are returned if and only if the text parses, every hunk found a place and every file's chunks fit; then for every file of the patch |
| PatchChanges.AllOrNothing | vscode-plugin/src/applyPatch.ts:92-396 | whenever changes are returned: every section header before the first end sentinel has its change, each under a path of its own, and nothing else is changed; an update is done by its own section, from its header to the line that ends it: every round placed its own hunk, from behind the one before, the chunks are exactly those of the hunks, they delete the texts behind the minus signs of the section's lines and insert those behind its plus signs, the move is that of its move line, and the file is kept stretches with the deleted lines between them, each run at its chunk's place, and the result the same stretches with the inserted lines there; an added file is the texts behind the plus signs of its section; a deleted one is deleted; and the fuzz is what all placements and definition lines cost together |
| PatchChanges.NewFileIs | vscode-plugin/src/applyPatch.ts:748-762 | a new file gets CR LF line ends exactly when the platform asks for them and its text has no CR |
| PatchInputs.SecondPatchIsIgnored | vscode-plugin/src/applyPatch.ts:92-125 | two patches in one text: the changes are those of the first, and no error says so |
| PatchChanges.KeptVerbatim | vscode-plugin/src/applyPatch.ts:748-755 | in a file whose line ends are of one kind, a kept line comes out exactly as it was, line end and all, unless it becomes the last line or stops being it; then it loses or gets the file's line end |
| LineEndings.RestoredIsSameIff | vscode-plugin/src/applyPatch.ts:748-755 | normalising and restoring line ends gives the file back if and only if its line ends are all of one kind with no CR before them |
| LineEndings.CrlfInLines | vscode-plugin/src/applyPatch.ts:748-750 | a file is taken for one with CR LF line ends exactly if some line of it but the last ends in CR |
| LineEndings.MixedIsNotRestored | vscode-plugin/src/applyPatch.ts:748-755 | a file with both kinds of line end, and what it becomes |
| LineEndings.RestoredLines | vscode-plugin/src/applyPatch.ts:748-755 | the lines of a text that was given the file's line ends |
| Projection.LastMatchIsLast | baton/internal/project/projector.go:653-659 | the decision goes to the last buffered call that the question is about, or to none if there is none |
| Approvals.NearestUndecidedIff | baton/internal/project/projector.go:635-659 | the decision goes to the nearest undecided call, as documented, if and only if the last call that the question is about is undecided or there is none |
| Approvals.DecidedTwice | baton/internal/project/projector.go:635-667 | two calls of one tool and two questions without a call id: both decisions go to the second call, which is carried as granted while its id is denied |
| Approvals.GrantedButDenied | baton/internal/project/projector.go:639-756 | then the log has a granted call whose result says that it was denied |
| Approvals.OnContentOfMoves | baton/internal/project/projector.go:387-667 | a frame brings at most one call, decides at most one that is still buffered, and leaves the approvals of all others alone |
| Approvals.CallsCarryDecisions | baton/internal/project/projector.go:592-667 | over every run each call carries the last decision that was taken for it while it was buffered, or else the preset of the moment in which it arrived; and an id is denied if and only if a decision denied a call with that id |
| Approvals.LogCarriesDecisions | baton/internal/project/projector.go:186-222 | at the end of input the calls in the log carry exactly that |
| Approvals.AgreesIff | baton/internal/project/projector.go:639-756 | whether a call carries a denial and whether results for its id are denied agree if and only if no call with its id was denied or the last decision for the call itself is a denial |
| Approvals.UndecidedIff | baton/internal/project/projector.go:635-667 | whether a decision was taken for a call can be read off what it carries |
| Approvals.OnceIsEnough | baton/internal/project/projector.go:635-667 | if every decision goes to an undecided call, the last decision for a call is a denial exactly when it was ever denied |
| Protocol.OnCallOk | baton/internal/project/projector.go:592-632 | a call keeps the session invariant: it is open, buffered, and counted as arrived |
| Protocol.OnDecidedOk | baton/internal/project/projector.go:639-667 | a decision keeps it, and a denial holds from then on |
| Protocol.OnResultsOk | baton/internal/project/projector.go:708-756 | results keep it: calls up to the one answered come first, a closing result never precedes its call, and a denied call's result is denied |
| Protocol.CloseTurnOk | baton/internal/project/projector.go:776-802 | closing a turn keeps it and leaves nothing open or buffered |
| Protocol.OnContentOfOk | baton/internal/project/projector.go:387-442 | whatever a frame holds, the invariant is kept |
| Run.OnContentOfExtends | baton/internal/project/projector.go:373-442 | a frame only appends to the log, no graph, snapshot or handoff event among what it adds, and leaves the graph merge alone |
| Run.RunKeeps | baton/internal/project/projector.go:373-442 | in every run over any frames and graph events: buffered calls are a sub-multiset of the open ones, calls are emitted in order of arrival with their own times, closing results follow their calls, denials hold, and snapshots are true |
| Run.RunEndsClosed | baton/internal/project/projector.go:215-228 | at the end of input nothing is open or buffered, every call that arrived is in the log in order, each call id has at least as many results as calls, all graph events are merged, and text is lost exactly in sessions with nothing else to close |
| FrameLaw.FrameObeys | baton/internal/project/projector.go:373-756 | what any frame adds to the log, in what order, session and at what time, and what becomes of its session and of every other one: among it, that the result of a block is denied exactly when its id was denied, else an error exactly when the block says so, else completed |
| RunLaw.RunIsRead | baton/internal/project/projector.go:373-839 | over every run and for every session, read off the frames alone: turns, calls, preset, text and questions are what the frames say; user messages, statuses, subagents and usage are in the log in order and at their times; and its results are those of the blocks with a call id that came, in order, each with its own id and outcome, and those of the calls that the end of a turn found open |
| RunLaw.LogIsRead | baton/internal/project/projector.go:186-222 | at the end of input the log holds all that and then a result for each call that is still open, denied or indeterminate |
| FrameLaw.NewIdsAreOwn | baton/internal/project/projector.go:592-606 | two calls of a session that came without an id get different ids |
| TextFlow.OnContentOfFlows | baton/internal/project/projector.go:511-590 | what a frame does to the text of a session: it is added to the buffer, the buffer becomes a message, or a message's own content takes its place |
| TextFlow.TextIsKept | baton/internal/project/projector.go:511-590 | over every run: the text streamed to a session falls into consecutive stretches and what is still buffered; the messages in the log are one for each stretch, in order, the stretch itself or the content that took its place; and those contents are exactly the ones that came |
| TextFlow.TextAtEnd | baton/internal/project/projector.go:186-222 | the same at the end of input, where text is left in the buffer exactly in sessions that had nothing else to close |
| TextFlow.TextCanBeLost | baton/internal/project/projector.go:826-839 | one delta outside any turn, which no message ever holds |
| Run.ClosedSessionIsComplete | baton/internal/project/projector.go:776-802 | a session with nothing open has all its calls in the log and a result for each |
| Run.FinishIsDeterministic | baton/internal/project/projector.go:826-839 | the end of input does not depend on the order in which the session map is iterated |
| Run.MergeIsByTime | baton/internal/project/graphlog.go:70-83 | with sorted graph times, when a frame is handled exactly the graph events at or before the time of that frame or of one before it are in the log |
| Run.RunIsNamed | baton/internal/project/projector.go:860-867 | no session is ever made for an empty id |
| Graph.OpenIsFold | baton/internal/project/graphlog.go:194-214 | the open list holds, without repeats, exactly the nodes declared or reopened and not ended since |
| Graph.ApplyNextOk | baton/internal/project/graphlog.go:88-191 | applying the next graph event puts it in the log once and keeps every snapshot equal to the open list after the events before it |
| FrameLaw.GraphObeys | baton/internal/project/graphlog.go:88-191 | what one graph event adds to the log: itself at its own time and in its own session, and a snapshot of the list after it exactly for a declaration, a reopening of a named node, or a result that is completed, failed or rejected |
| FrameLaw.ChangeIsShown | baton/internal/project/graphlog.go:88-191 | a snapshot follows whenever the open list changes |
| Graph.FlushBeforeOk | baton/internal/project/graphlog.go:70-75 | everything due is applied, in file order, and nothing that is not |
| Graph.FlushRemainingOk | baton/internal/project/graphlog.go:78-83 | afterwards every graph event is applied, once, in file order |
| OpenList.OpenNodes.Add | baton/internal/project/graphlog.go:194-204 | a node is added once, at the end, in the array or in a larger one |
| OpenList.OpenNodes.Remove | baton/internal/project/graphlog.go:206-214 | compacting in place keeps exactly the other nodes in their order |
| OpenList.OpenNodes.Snapshot | baton/internal/project/projector.go:362-369 | a snapshot is a copy that later changes of the list do not reach |
| Projector.Projector.EmitAs | baton/internal/project/projector.go:338-354 | one more event, with the next number, the current time or the projection's, and the session or main |
| Projector.Projector.EmitSpine | baton/internal/project/projector.go:356-369 | a snapshot of the open list, with the number of events before it |
| Projector.Projector.Sess | baton/internal/project/projector.go:860-867 | the session object of an id, made on first use |
| Projector.Projector.ToolCall | baton/internal/project/projector.go:592-632 | the call is open and buffered under its own or a synthetic id, with its time and the session's preset, and not yet in the log |
| Projector.Projector.DecideApproval | baton/internal/project/projector.go:639-667 | the question is used up; its buffered call, if there is one, carries the decision, and a denial is remembered |
| Projector.Projector.FlushPendingTo | baton/internal/project/projector.go:674-703 | emits the buffered calls up to the one named, each with its own time, or none if it is not buffered |
| Projector.Projector.ToolResult | baton/internal/project/projector.go:708-756 | block by block as the state step: the calls up to it are in the log, its call is off the open list, and its result follows |
| Projector.Projector.CloseTurn | baton/internal/project/projector.go:776-802 | buffered calls, then buffered text, then a result for each open call; nothing happens when there is nothing to close |
| Projector.Projector.FlushAssistant | baton/internal/project/projector.go:805-821 | buffered text becomes one message |
| Projector.Projector.AssistantChunk | baton/internal/project/projector.go:511-529 | deltas are buffered by kind, and usage is recorded at once |
| Projector.Projector.AssistantAttempt | baton/internal/project/projector.go:532-555 | the records in order |
| Projector.Projector.AssistantMessage | baton/internal/project/projector.go:559-590 | the message's own content wins over what was buffered |
| Projector.Projector.SessionEvent | baton/internal/project/projector.go:445-509 | the dispatch of session events |
| Projector.Projector.Frame | baton/internal/project/projector.go:373-442 | graph events due first, then the frame at its own time |
| Projector.Projector.ApplyGraphEnv | baton/internal/project/graphlog.go:88-191 | one graph event enters the log at its own time, updates the open list in place, and is followed by a snapshot when it changes it |
| Projector.Projector.FlushGraphBefore | baton/internal/project/graphlog.go:70-75 | the loop applies what is due |
| Projector.Projector.FlushGraphRemaining | baton/internal/project/graphlog.go:78-83 | the loop applies the rest |
| Projector.Projector.CloseAll | baton/internal/project/projector.go:826-839 | every unfinished session is closed as aborted, in order of id |
| Projector.Project | baton/internal/project/projector.go:186-222 | a whole projection in place computes the log that the run function describes |
| Handoff.TaskLog.ReadHandoffTail | baton/internal/project/projector.go:295-334 | the handoff events at the end of a readable file with none before them, and nothing otherwise |
| Handoff.TaskLog.Reproject | baton/internal/project/projector.go:253-260 | the new derived segment and, renumbered behind it, the old handoff events |
| Handoff.TaskLog.Run | baton/internal/project/projector.go:107-250 | a whole projection into the file |
| Handoff.TaskLog.Checkpoint | baton/internal/handoff/handoff.go:30-98 | refusals, the idle case and the appended anchor |
| Handoff.AcceptsIff | baton/internal/handoff/handoff.go:36-62 | on any file, an anchor is accepted if and only if the file is readable, not empty and numbered by line |
| Handoff.CheckpointSays | baton/internal/handoff/handoff.go:30-98 | on any file: the refusal names the first unreadable line, or else the first with a wrong number; an accepted file is left alone exactly if its last line anchors all before it, and else gets one line, with the next number, the time given and the number of lines it anchors |
| Handoff.TailIs | baton/internal/project/projector.go:295-334 | on any file: a projection keeps the handoff events at the end of a readable file that has none before them, and of any other file nothing |
| Handoff.SecondCheckpointIsIdle | baton/internal/handoff/handoff.go:64-69 | on any file, doing it again changes nothing and gives the same number |
| Handoff.ProjectionIsDerivable | baton/internal/project/projector.go:338-354 | every projection's log is not empty, numbered by line, and free of handoff events |
| Handoff.HistoryIsKept | baton/internal/project/projector.go:253-260 | over any interleaving of projections and checkpoints the file is the latest derived segment followed by every anchor ever appended, in order, unchanged but for its number, and numbered by line |
| Handoff.CheckpointAfterHistory | baton/internal/handoff/handoff.go:30-98 | after any history with a projection a checkpoint is accepted; it appends nothing if and only if the derived segment is as long as when the latest anchor was appended |
| Handoff.SameLengthIsSkipped | baton/internal/handoff/handoff.go:64-69 | two projections of one length around a checkpoint: the next checkpoint appends nothing |
| Handoff.OtherContentIsSkipped | baton/internal/handoff/handoff.go:64-69 | two runs whose logs are as long and differ in content |
| SseFrame.Scan | baton/internal/sseframe/sseframe.go:27-54 | the frames in order, and whether the input was read to its end |
| SseFrame.Print | baton/internal/project/maka.go:110-112 | the text form of frames |
| SseFrame.ScanUndoesPrint | baton/internal/sseframe/sseframe.go:27-54 | scanning the printed form of any writable frames, with heartbeat lines anywhere between, gives the same names, data and times |
| SseFrame.ReadsBackIff | baton/internal/project/maka.go:110-112 | printed text reads back as written if and only if every field is free of line ends, does not end in CR and leaves its line within the limit |
| SseFrame.TimeIsOwn | baton/internal/sseframe/sseframe.go:36-51 | whatever was scanned, a frame's time stands in front of that frame alone |
| ScanLaw.LinesInIs | baton/internal/sseframe/sseframe.go:27-36 | the lines of any text are the text cut at its line ends, the last one unless it is empty |
| ScanLaw.TrimCrsIs | baton/internal/sseframe/sseframe.go:36-51 | a line is read without the CRs at its end, and only without them |
| ScanLaw.ScanReads | baton/internal/sseframe/sseframe.go:27-54 | of any lines, up to the first that is too long: each data line gives one frame, in order, with what stands behind its mark, and with the name and the time that the last such line gave since the data line before it or an empty line |
| FileStream.DrainIsSound | manager/openshell_manager/upload.py:192-232 | what is streamed is always a prefix of the body, and ends at a delimiter when it is said to end |
| FileStream.StreamIsExactUnlessShadowed | manager/openshell_manager/upload.py:192-232 | streaming gives exactly the bytes before the first real delimiter for every split into reads, if and only if no false candidate stands right before it |
| FileStream.ShadowedFails | manager/openshell_manager/upload.py:192-232 | a payload that ends in the delimiter and one more byte: its end is missed although all of it was read at once |
| Multipart.StreamingMultipartParser.ExpectFirstBoundary | manager/openshell_manager/upload.py:93-112 | the body must begin with the boundary and a line end |
| Multipart.StreamingMultipartParser.StripBoundaryTerminator | manager/openshell_manager/upload.py:123-131 | a line end starts a part; anything else ends or refuses the body |
| Multipart.StreamingMultipartParser.ReadHeaders | manager/openshell_manager/upload.py:133-151 | the header block up to its blank line, refused only when it is long |
| Multipart.StreamingMultipartParser.ReadFieldPayload | manager/openshell_manager/upload.py:161-190 | succeeds if and only if the delimiter comes within the limit, and splits the body exactly there |
| Multipart.StreamingMultipartParser.Parse | manager/openshell_manager/upload.py:59-83 | streaming agrees with parsing the whole body: the same fields and the same rest, and it refuses only what that refuses or what has long headers |
| Multipart.StreamingMultipartParser.DrainFile | manager/openshell_manager/upload.py:192-232 | the chunks of the stream, whatever their sizes, are the drained bytes |
| Sandbox.SlicesCount | manager/openshell_manager/gateway.py:282-345 | the number of requests is the length divided by the slice, rounded up, and at least one |
| Sandbox.WriteFileStream | manager/openshell_manager/gateway.py:282-376 | on success the target holds the stream, nothing else changed and no staging file is left, with the right counts; on failure only those two files can differ, and the target is untouched unless the move took effect; which command fails decides the outcome, the step that is reported and whether the move took effect |
| Sandbox.FailsBehindMoveIff | manager/openshell_manager/gateway.py:339-359 | a write fails although the target is new if and only if everything up to the move works and then the move is not reported or the change of mode does not work |
| Sandbox.NewFileStays | manager/openshell_manager/gateway.py:339-359 | a box on which only the change of mode fails: the old content is gone |
| Upload.ParseOfEncoded | manager/openshell_manager/upload.py:59-83 | parsing an encoded body stands at its file part and gives a field for exactly the names that some part has, each with the payload of the last such part |
| Upload.ParsedIff | manager/openshell_manager/upload.py:59-83 | a body is accepted exactly when it is a form up to a file part: any parts with their header blocks and payloads within the limit; the fields are then those of the parts, each with the payload of the last part of its name |
| Upload.OneForm | manager/openshell_manager/upload.py:59-83 | only one map is the fields of given parts |
| Upload.PayloadStreams | manager/openshell_manager/upload.py:192-232 | a payload free of the delimiter streams exactly, for every split into reads |
| Upload.HandleUpload | manager/openshell_manager/api.py:600-621 | the handler accepts what a whole-body parser accepts, and then the outcome is that of writing what was streamed, completely or not, to the path that the fields name: refused for a relative path, written if and only if the stream ends and no command of the box fails, and otherwise failed at the step that the first failing command stands for |
| Upload.UploadEncoded | manager/openshell_manager/api.py:600-621 | end to end: an encoded upload goes to the path that its fields name, each field being the payload of the last part of its name; it is written if and only if the path is absolute and no command of the box fails, and leaves exactly its payload there, with its length and its number of slices; a failure leaves the path as it was unless the move took effect |
| Watcher.WatchIsSafe | vscode-plugin/src/taskWatcher.ts:37-173 | over every interleaving: one poll in flight or scheduled while open, at most one reconnect timer, replaced sockets closed, no snapshot after the close, and the end told once for each time that a terminal listener threw and at most once more |
| Watcher.StepOk | vscode-plugin/src/taskWatcher.ts:37-173 | every callback keeps the invariant behind that |
| Watcher.ClosedIsQuiet | vscode-plugin/src/taskWatcher.ts:162-172 | once closed, no step makes a timer, a socket or a request, or tells anything but that an old socket opened |
| WatchLaw.StepObeys | vscode-plugin/src/taskWatcher.ts:37-173 | for each event, from the event alone: what is told, whether the watch is over, whether a reconnect is pending, and whether a socket or a request is made |
| WatchLaw.StartObeys | vscode-plugin/src/taskWatcher.ts:50-53 | a watch starts with a socket, if one can be made, and a request, unless inside a rate limit |
| WatchLaw.RunTells | vscode-plugin/src/taskWatcher.ts:37-173 | over every run, from the events alone: what is told is, in order, exactly the snapshots that came by message or poll while the watch was open, each followed by its end if and only if it is terminal and its listener did not throw, and that the task is gone; and the watch is over exactly if some event ended it |
| Watcher.ThrowingListenerHearsTwice | vscode-plugin/src/taskWatcher.ts:61-70 | a terminal listener that throws keeps the watch open, and the end is told again |
| Watcher.TaskWatcher.Start | vscode-plugin/src/taskWatcher.ts:50-53 | connects and polls once |
| Watcher.TaskWatcher.Settle | vscode-plugin/src/taskWatcher.ts:61-70 | a snapshot for the listeners, and the end of the watch for a terminal one |
| Watcher.TaskWatcher.ConnectWs | vscode-plugin/src/taskWatcher.ts:72-88 | closes the old socket and makes a new one, unless closed or waiting to reconnect |
| Watcher.TaskWatcher.OnDown | vscode-plugin/src/taskWatcher.ts:100-108 | one reconnect timer at a time |
| Watcher.TaskWatcher.OnClose | vscode-plugin/src/taskWatcher.ts:109-122 | a task that is gone ends the watch; any other close is a drop |
| Watcher.TaskWatcher.OnPollReply | vscode-plugin/src/taskWatcher.ts:130-160 | the reply to a poll, also when it comes after the close |
| Watcher.TaskWatcher.PollOnce | vscode-plugin/src/taskWatcher.ts:130-138 | a request, or a timer inside the rate limit |
| Watcher.TaskWatcher.Close | vscode-plugin/src/taskWatcher.ts:162-172 | clears the timers and closes the socket |
| Checkpoints.HeldIsTop | vscode-plugin/src/checkpoint.ts:32-97 | whatever the clock did, and whichever processes saved in turn, if no two checkpoints have one name: after any saves each file is held by exactly the hundred checkpoints greatest by time and counter among those that had it, each entry as it was saved |
| Checkpoints.OnlyProcessesRepeat | vscode-plugin/src/checkpoint.ts:27-37 | two checkpoints can have one name only when two processes save at one time and at one count |
| Checkpoints.RepeatedNameReplaces | vscode-plugin/src/checkpoint.ts:27-37 | two saves for which that happens: the earlier checkpoint is gone |
| Checkpoints.NewestAreHeld | vscode-plugin/src/checkpoint.ts:32-97 | while the clock does not go back, and no two processes save at one time, an entry is held if and only if fewer than a hundred later saves had the file |
| Checkpoints.NoneIsEmpty | vscode-plugin/src/checkpoint.ts:84-92 | a checkpoint that lost its last entry is gone |
| Checkpoints.PruneAllKeeps | vscode-plugin/src/checkpoint.ts:63-97 | pruning keeps every entry of other files and changes no entry that it keeps |
| Checkpoints.TopOfTop | vscode-plugin/src/checkpoint.ts:63-97 | keeping the newest hundred after every save keeps the newest hundred of all |
| Checkpoints.StoredIsInjective | vscode-plugin/src/checkpoint.ts:41-51 | no two files of a checkpoint are stored under one name |
| Checkpoints.StoredPads | vscode-plugin/src/checkpoint.ts:41-51 | a stored name is the number in decimal with zeros in front up to four digits |
| Checkpoints.DroppedTight | vscode-plugin/src/checkpoint.ts:76-92 | taking an entry out leaves no stored file that no manifest names, and no directory without a manifest |
| Checkpoints.CheckpointStore.Save | vscode-plugin/src/checkpoint.ts:32-55 | writes the files, then the manifest, and prunes each file |
| Checkpoints.CheckpointStore.PruneFile | vscode-plugin/src/checkpoint.ts:63-97 | the walk from the newest takes out exactly the entries behind the first hundred, and leaves no file or directory over |
| Checkpoints.CheckpointStore.List | vscode-plugin/src/checkpoint.ts:99-111 | every checkpoint once, from the newest by time and counter |
| Checkpoints.CheckpointStore.Restore | vscode-plugin/src/checkpoint.ts:125-139 | exactly the retained entries of the checkpoint, with their contents or null |
| Checkpoints.MakeSaves | vscode-plugin/src/checkpoint.ts:32-97 | processes that make these saves in turn, in one directory, end with the described store; and if no two checkpoints have one name, with no stored file that no manifest names and no directory without a manifest |
| Progress.AppendAiChunk | vscode-plugin/src/progressModel.ts:76-103 | the loop over characters computes the merged text |
| Progress.StreamIsShown | vscode-plugin/src/progressModel.ts:76-103 | over pieces of one stream in any order, with repeats, the cursor never goes back and the text is the capped end of a stretch of the stream that reaches to the cursor |
| Progress.WholePrefixIff | vscode-plugin/src/progressModel.ts:76-103 | the text is the capped prefix of the stream up to the cursor if and only if no gap was left behind the start, or what came after it fills the cap |
| Progress.GapDropsText | vscode-plugin/src/progressModel.ts:76-103 | three characters of which the second is missing: only the third is shown |
| Progress.SkipsWhole | vscode-plugin/src/progressModel.ts:92-101 | skipping the bytes of whole characters leaves exactly the others, pairs of code units included |
| Progress.FrameShows | vscode-plugin/src/progressModel.ts:171-179 | a frame whose text is a piece of the stream moves what is shown as the piece does |
| Progress.AbsorbedOk | vscode-plugin/src/progressModel.ts:141-169 | decimal log ids stay strictly increasing, and nothing of the frame remains to be absorbed |
| Progress.AppliedOk | vscode-plugin/src/progressModel.ts:150-189 | a frame keeps the logs increasing and both caps, and never moves the cursor back |
| ProgressLaw.VersionMovesIff | vscode-plugin/src/progressModel.ts:150-189 | the version moves, by one, exactly when the status changes, some log id is new, a chunk reaches behind the cursor or the text becomes complete |
| ProgressLaw.RunShows | vscode-plugin/src/progressModel.ts:150-189 | over any frames: the log is the last five hundred of the entries whose number is greater than all before, status and total are the last that were given, and the text is complete exactly if some frame said so |
| Progress.AppliedTwice | vscode-plugin/src/progressModel.ts:150-189 | applying a frame again at once changes nothing at all |
| Progress.AppliedAgain | vscode-plugin/src/progressModel.ts:141-189 | a frame that comes again after any other frames: logs, last id and cursor stay, and the text does if and only if the cursor has left the start, the frame has no text or that text is what is shown; only its status and total are taken up again |
| Progress.ProgressState.ApplyFrame | vscode-plugin/src/progressModel.ts:150-189 | the in-place update computes the specified state |

## Left out

- Texts are sequences of Unicode characters; JavaScript's strings are sequences of UTF-16 code units. Lengths in `similarity` and `levenshtein` differ for characters outside the basic plane. `Progress` models code units.
- `canonicalize` is an arbitrary function of text: only the equality of its results is used.
- JavaScript's inherited object keys (a path named `constructor`) are not modelled; file tables are maps.
- Message texts of failures, previews, warnings, the similarity shown with them, unknown-frame counters and blob references.
- Reading unified diffs and extracting a diff from a suggestion (`parseUnifiedDiff`, `extractDiffBlock`).
- In the apply_patch parser, searching the definition line again when going back to the top: only a hunk without a definition line gets there.
- JSON, base64, SHA-256 and UTF-8 decoding are not modelled; events, frames and manifests are values, and a file line is an event or unreadable.
- Of frame payloads only what drives calls, approvals, turns, text and the open list is kept; parts of a message are one text each for reasoning and text, so their interleaving is not modelled.
- A buffered call is a value in the session's list; in the source it is a shared record that the decision updates.
- Which JSON types a field may have: a field that is missing or of another type is the empty text, as in the source.
- Graph times and frame times are instants; parsing them is not modelled.
- The warning about events of another agent in the old log, and the workspace file.
- Errors of the frame callback end a scan early in the source; here the callback cannot fail.
- Decoding of multipart headers is an arbitrary function from the header block to what the part is.
- Sizes of reads are any up to 64 KiB in the file stream; the header limit is exact only for full reads, because the source counts whole reads.
- The sandbox is a map from paths to bytes; a request either has its effect or not, and is reported as done or failed independently. Timeouts and cleaning up by others are not modelled.
- HandleUpload: the size limit, the syntax of the mode and the lookup of the sandbox around the upload are not modelled, because they refuse requests before or while the modelled steps run and change nothing else.
- Listeners of the watcher return, close the watcher or throw; what else they do is not modelled. A listener's error that reads like a missing task is not modelled.
- Processes save into the checkpoint directory one after the other; two that write or prune at the same moment are not modelled, nor are directories that the store did not make.
- In progress frames, percentages and stages are left out, and with them their part in the version number. Log ids are whole numbers of any size; JavaScript compares them as floating-point numbers. Ids that are not decimal are compared by character.
- Estimating percentages, the check of empty archives, tree nodes, webviews, commands, the web console, HTTP and gRPC clients, token refresh, configuration and deployment.
