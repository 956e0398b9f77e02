# A verified model of ken

ken is a code-search engine with an MCP server in front of it. This project models the parts of it whose
correctness depends on more than one function, and proves what they promise. `dafny verify dfyconfig.toml`
checks everything.

## The components

**The repo cache** (`mcp/cache.go`, with its two clients in `cmd/ken-mcp/main.go`). `CacheSpec` says what each
section under the cache mutex does, as functions on values. `RepoCache.Cache` is the cache object: its methods
are proved against those functions, including the eviction loop, the by-key deletes, and the rule that nothing
is torn down while the mutex is held. `CacheProtocol` puts the same functions into a world of concurrent
`GetBundle` calls, singleflight turns, `Purge`, `Close`, pending teardowns, the live build mode and the DB-chunk
refresher; a step is one critical section or one unlocked action, and a run is any sequence of enabled steps.
All theorems about it hold in every run: conservation of bundles (`CacheConservation`), staleness
(`CacheFreshness`), what a call's result means (`CacheResults`) and the retry bound (`CacheRetry`), what a Purge
forgets (`CachePurge`), the LRU order (`CacheRecency`), and for DB chunks the self-heal (`DbExtras`, `DbExtrasExact`,
`DbExtrasResolved`, `DbExtrasWitness`) and whose they are (`DbExtrasScope`). `Clients` has the shared holders, their
readers and the upgrade as objects.

**The lazy structural build** (`engine/structural.go`, `engine/refresh.go`, the hooks in `engine/engine.go`).
`StructuralSpec` and `StructuralMachine.StructuralState` are the critical sections, as functions and as an
object. In `StructuralProtocol` files change at any moment, a build observes them one at a time, and reports are
queued, applied or force a discard; `StructuralProgress` says when a build starts and when there is an index.
`BundleBuild.RepoBundle` (`mcp/bundle.go`) is proved to be the same machine without updates.
`EngineWorkspace.Workspace` and `SnapshotProtocol` are the dirty-flag protocol between flush callbacks and the
snapshot file.

**Markdown sections and token estimates** (`engine/markdown.go`, `engine/tokens.go`). `MarkdownLines` is the line
scanner with its fence and front-matter state, `MarkdownSections` the boundaries and the heading stack, both as
loops proved against plain specifications; `MarkdownHeadings` spells out in bytes what single lines say, and
`MarkdownTheorems` has what follows for whole files. Texts are bytes; `Runes` decodes UTF-8 as ranging over a Go
string does, and `Tokens` estimates over runes.

**Benchmark algorithms** (`bench/ndcg`, `bench/contextbench`, `mcp/token_budget.go`). `Ndcg` is NDCG at a cutoff
over any positive non-increasing discount; `ResumeSpec`, `ResumeTheorems` and `Resume` the crash-resumable
runner; `Spans`, `SpanTheorems` and `Traj` interval merging; `Budget` the two packers; `Sample` and
`SampleTheorems` the stratified sample for any shuffle.

## Where the code does less than it says

- The comments at `cmd/ken-mcp/main.go:119-127` and `cmd/ken-mcp/main.go:1317-1322` promise that an evicted default
  repo recovers its DB chunks on the next build. It does in every continuation exactly when no build of the default
  repo that has read another chunk set is still on its way into the cache when the refresher publishes
  (`DbExtrasExact.SelfHealsIffNoStaleBuild`). When the refresher's own Get succeeds, such a build does harm exactly if
  the default repo is cached at that moment (`DbExtrasResolved.SelfHealsWhenResolvedIff`).
  `DbExtrasWitness.SelfHealCanFail` is a whole run, pre-warm included and without a failed build, in which it does.
- `mcp/cache.go:155-159` says that after a Purge new Gets start a fresh turn instead of joining a build begun before it.
  That holds in every continuation exactly when each key whose turn has begun still has its mark as Purge's section runs
  (`CachePurge.PurgeForgetsIffMarksStand`). The mark is deleted by key, so an older turn that ends takes away a newer
  one's: `CachePurge.MarksCanFall` is such a run. What follows for callers is only that one whose call no Purge overlaps
  never sees errPurgedDuringBuild (`CacheRetry.PurgedOnlyUnderPurge`).
- `mcp/bundle.go:195-200` says that no build goroutine outlives the bundle. Once a stop has returned, a build runs
  exactly when one was started after the stop took its sample, and none does if nobody has asked for the index since
  (`StructuralProtocol.RunsOnlyIfStartedLater`). Nothing stops a holder from asking
  (`StructuralProtocol.StoppedMachineCanBuild`).
- `bench/contextbench/resume.go:112-113` says the file never holds two records for one (task, arm, budget). From a file
  that does not, a run without evaluation is sure to keep it so exactly when no arm and no budget is given twice or
  every requested task is complete already (`ResumeTheorems.UniqueAfterRun`, `ResumeTheorems.RepeatedBudget`). With
  evaluation on and a gold file, `AttachEvaluatedMetrics` (`bench/contextbench/runner.go:298-324`) rejects a repeated
  key before anything is appended, so there the task fails.
- `bench/contextbench/resume.go:94-96` says a re-run retries exactly the failed tasks. What is incomplete is always
  reported. What is reported is sure to be incomplete exactly when no task still to run is listed twice and there is an
  arm or nothing to run: a task listed twice can fail and then be scored (`ResumeTheorems.FailedExactlyIncomplete`,
  `ResumeTheorems.TwiceListedTask`).
- Merging gold spans is invisible to a hit exactly when the hit's lines are in order, or it ends before line 1
  (`SpanTheorems.InvisibleExactlyToOrderedHits`).
- Skipping what does not fit is maximal at every budget exactly when no count after the first is negative, or the second
  is negative, none later is smaller, and the running total never exceeds that of the first two hits while a negative
  count is still to come (`Budget.PackingIsMaximal`). A hit passes a negative count on exactly when it comes with one
  and without text (`Budget.NegativeHit`).
- The snapshot is current, marked dirty, or written by Close in every run exactly when the flush callbacks outside
  `Refresh` do not overlap and no `Refresh` overlaps `Close` (`SnapshotProtocol.CurrentOrDirtyIff`). The debouncer runs
  its callbacks one at a time, but `warmCorpusInBackground` (`internal/search/corpus.go:42-108`) runs the same callback
  from its own goroutine, and a watcher flush runs it after unlocking (`internal/search/corpus.go:170-183`): the two
  can overlap with Watch, Snapshot and LazyEnrichment or StagedEmbedding set.
- A stratified sample keeps a language exactly when the shares of the languages before it, in name order, leave a place,
  and so every language exactly when the shares of all but the last do (`SampleTheorems.EveryLanguageKeptIff`). As many
  places as languages are not enough (`SampleTheorems.ThreePlacesLoseTheThird`).

## Model

| member | source | states |
|---|---|---|
| CacheConservation.BundlesConserved | mcp/cache.go:289-386 | in every reachable world every built bundle is in exactly one of held by its turn, cached, detached and waiting, or reaped; so none is reaped twice |
| CacheConservation.ClosedAndQuietReapsAll | mcp/cache.go:372-386 | after a Close anywhere in a run, once all turns have finished and nothing detached waits, every bundle has been reaped exactly once and the cache is empty |
| CacheConservation.ClosedStays | mcp/cache.go:325-329 | once closed, the cache stays closed and empty whatever builds were in flight |
| CacheFreshness.CachedGenerationIsCurrent | mcp/cache.go:293-334 | every cached bundle was built under the current generation, under its own key |
| CacheFreshness.NoOldModeAfterUpgrade | cmd/ken-mcp/main.go:168-191 | after the new mode is stored and Purge's section has run, no bundle built in the old mode is ever cached again |
| CacheRetry.AtMostTwoAttempts | mcp/cache.go:257-273 | no GetBundle makes a third attempt, and one that reports a purged build has seen the generation move since it began |
| CacheRetry.PurgedOnlyUnderPurge | mcp/cache.go:257-273 | a call that no Purge overlaps never returns errPurgedDuringBuild, whatever older turn it joins; how it ends instead is `CacheResults.UndisturbedCallEnds` |
| CacheResults.RunExplained | mcp/cache.go:289-369 | every result of a turn or call has its cause in the run: a failed build, a commit refused or accepted by the world it met, a lookup, or the turn waited for |
| CacheResults.ResultsMean | mcp/cache.go:257-369 | refused: the cache is closed; failed: the turn waited for failed to build; purged: the second attempt, and a Purge overtook its turn; a bundle: built for the key |
| CacheResults.UndisturbedCallEnds | mcp/cache.go:257-273 | a call that no Purge overlaps, on a cache still open, ends in a bundle of its key or in a failed build |
| CacheResults.PurgedBuildIsRetried | mcp/cache.go:265-271 | a first attempt whose turn a Purge overtook goes round again when woken |
| CacheResults.TurnGoesOn | mcp/cache.go:289-366 | an unfinished turn can always take its next step |
| CacheResults.CallGoesOn | mcp/cache.go:257-369 | an unfinished call can take its next step or waits for a turn that can |
| CachePurge.PurgeForgetsIffMarksStand | mcp/cache.go:155-162 | no Get started after Purge's section joins a turn begun before it, in any continuation, if and only if every begun turn's mark stands as the section runs |
| CachePurge.MarksCanFall | mcp/cache.go:297-301 | a reachable world in which a turn under way has lost its mark to an older turn's by-key delete |
| CacheRecency.ListIsLru | mcp/cache.go:335-356 | the list is exactly the `max` (16 if none is given) most recently touched distinct keys since it was last emptied, in order; the touches are read off the run: hits, inserts and lost races |
| CacheRecency.HitMovesToFront | mcp/cache.go:281-286 | a lookup that finds its key on an open cache returns its bundle, moves its entry to the front and keeps the others in order |
| CacheProtocol.StepWellFormed | mcp/cache.go:275-366 | every step keeps map and list in agreement, at most `max` distinct keys, and calls, turns and singleflight consistent |
| CacheSpec.CommitConserves | mcp/cache.go:320-360 | what a commit caches and what it must reap add up to the old list and the new bundle |
| CacheSpec.CommitValid | mcp/cache.go:320-360 | a commit keeps map and list in agreement and within the bound, in all four outcomes |
| CacheSpec.EvictionSplits | mcp/cache.go:344-353 | eviction splits the list into what stays and what goes, with disjoint keys |
| CacheSpec.LookupKeeps | mcp/cache.go:276-287 | a lookup reorders the list but neither loses nor duplicates an entry |
| DbExtras.HealsWithoutStaleBuild | cmd/ken-mcp/main.go:1317-1330 | without a stale build in flight, after onExtras(chunks) has returned any cached default repo carries just those chunks, across evictions, lost races, failures, purges and rebuilds |
| DbExtrasExact.SelfHealsIffNoStaleBuild | cmd/ken-mcp/main.go:1317-1330 | after any Purge-free run on an open cache, the promise is kept in every continuation if and only if no stale build is in flight when the chunks arrive |
| DbExtrasResolved.SelfHealsWhenResolvedIff | cmd/ken-mcp/main.go:1317-1330 | when onExtras' own Get succeeds the promise is kept in every continuation if and only if the default repo is not cached or no stale build is in flight |
| DbExtrasWitness.SelfHealCanFail | cmd/ken-mcp/main.go:1273-1330 | a whole run in which the promise fails: pre-warm complete, no build failed, nothing purged, onExtras returned successfully |
| DbExtrasExact.StaleBuildBreaks | mcp/cache.go:335-360 | from any world with a stale build some continuation breaks the promise, cached default repo or not |
| DbExtrasScope.OnlyDefaultCarriesChunks | cmd/ken-mcp/main.go:885-898 | in every reachable world no bundle of another repo than the default one carries DB chunks |
| RepoCache.Group.JoinOrStart | mcp/cache.go:289-289 | Do joins the live turn of the key or starts one |
| RepoCache.Group.Forget | mcp/cache.go:160-162 | Forget unmaps the key, whatever its turn |
| RepoCache.Group.Finish | mcp/cache.go:289-289 | a finishing turn unmaps itself, never a newer one |
| RepoCache.Cache.constructor | mcp/cache.go:77-82 | an empty open cache; a bound that is not positive becomes the default |
| RepoCache.Cache.Lookup | mcp/cache.go:276-287 | refuse, hit with the entry moved to the front, or miss |
| RepoCache.Cache.BeginBuild | mcp/cache.go:293-296 | reads the generation and marks the key in one section |
| RepoCache.Cache.EndBuild | mcp/cache.go:297-301 | removes the mark by key |
| RepoCache.Cache.EvictTails | mcp/cache.go:344-353 | the loop detaches exactly the tails that make room for one entry |
| RepoCache.Cache.CommitBuild | mcp/cache.go:320-360 | the whole section after a build, and that exactly its leftovers are reaped, with the mutex free |
| RepoCache.Cache.DetachAll | mcp/cache.go:104-112 | empties map and list and returns every entry in list order |
| RepoCache.Cache.ReapAll | mcp/cache.go:164-166 | reaps each entry once, in order, with the mutex free |
| RepoCache.Cache.Purge | mcp/cache.go:141-167 | bumps the generation, forgets exactly the in-flight keys' turns, reaps what was cached; nothing when closed |
| RepoCache.Cache.Close | mcp/cache.go:378-386 | closes, empties, and reaps what was cached |
| RepoCache.Cache.Len | mcp/cache.go:85-89 | the map's size is the list's length |
| Clients.AutoFetchModel | cmd/ken-mcp/main.go:168-191 | failure changes nothing; success stores the mode and purges unless a database is attached; the re-warming Get never hits what the purge left |
| Clients.RepoBuilder.Build | cmd/ken-mcp/main.go:832-898 | a build is configured with the live mode, and a rebuilt default repo gets the stored chunks, any other repo none |
| Clients.OnExtras | cmd/ken-mcp/main.go:1317-1324 | afterwards the chunks are stored and the default repo has been looked up: a hit, a miss, or refused |
| StructuralProtocol.PublishedAgreesWithDisk | engine/structural.go:197-281 | in every run the published index agrees with the disk on every path without an unreported edit |
| StructuralProtocol.QuiescentIndexIsFresh | engine/structural.go:197-281 | when every edit has been reported the incremental index is what a fresh build produces |
| StructuralProtocol.OneBuildAtATime | engine/structural.go:152-229 | one running build at most; done closed once, after the outcome is recorded; the generation counts the published indexes |
| StructuralProtocol.NoBuildInsideCooldown | engine/structural.go:162-172 | no build starts within the cooldown of any earlier failed build |
| StructuralProgress.GetStartsIff | engine/structural.go:152-172 | with the lock free, a call starts a build if and only if there is no index, none is running, and every failed build failed at least the cooldown ago |
| StructuralProgress.PendingIff | engine/structural.go:286-296 | pending if and only if a build runs, or there is no index and every failed build failed at least the cooldown ago |
| StructuralProgress.IndexIsThere | engine/structural.go:197-281 | there is an index exactly when a build has succeeded with no resync since it started, and none since |
| StructuralProgress.BuildGoesOn | engine/structural.go:197-205 | a running build can read on or be recorded |
| StructuralProtocol.StopWaitsForItsBuild | engine/structural.go:233-244 | a stop entered while any build runs has not returned before that very build is over and its channel closed once |
| StructuralProtocol.RunsOnlyIfStartedLater | mcp/bundle.go:195-216 | after a returned stop a build runs exactly when it was started after the stop's sample, and none when the index was not asked for since |
| StructuralProtocol.StoppedMachineCanBuild | mcp/bundle.go:195-216 | a call for the index after a returned stop starts a build |
| StructuralProtocol.WithoutApplyPublishesOnce | mcp/bundle.go:119-193 | in runs without updates nothing is queued or reset and what is published is published once, for good |
| StructuralSpec.Overlay | engine/structural.go:274-276 | an update replaces or drops exactly the paths that were re-read and keeps every other |
| StructuralMachine.StructuralState.Update | engine/structural.go:215-215 | the contract the machine relies on: re-read the listed paths, keep the rest, report no change only when there is none |
| StructuralMachine.StructuralState.constructor | engine/structural.go:118-143 | nothing built, queued, failed or owed |
| StructuralMachine.StructuralState.Get | engine/structural.go:152-179 | hands out the index, or starts a build unless one runs or failed recently; exactly when is `StructuralProgress.GetStartsIff` |
| StructuralMachine.StructuralState.Run | engine/structural.go:197-229 | records a failure, discards under a reset, or publishes the build with the queued paths re-read |
| StructuralMachine.StructuralState.Apply | engine/structural.go:253-281 | queues, resets, drops, updates or does nothing, by the machine's state |
| StructuralMachine.StructuralState.Pending | engine/structural.go:286-296 | true exactly when a build runs or a call now would start one; in terms of the run it is `StructuralProgress.PendingIff` |
| BundleBuild.RepoBundle.StructuralIndex | mcp/bundle.go:119-153 | starts a build exactly when the engine's machine would |
| BundleBuild.RepoBundle.RunStructuralBuild | mcp/bundle.go:176-193 | the engine machine's run with nothing queued; success is kept for good |
| BundleBuild.RepoBundle.StopStructuralBuild | mcp/bundle.go:201-216 | waits for the build in flight, if any |
| BundleBuild.RepoBundle.StructuralPending | mcp/bundle.go:222-238 | the engine machine's answer, and false without a builder |
| BundleBuild.RepoBundle.StructuralIfBuilt | mcp/bundle.go:243-251 | the built index and never a build |
| SnapshotProtocol.SnapshotCurrentOrDirty | engine/engine.go:291-315 | with serial callbacks and none beside Close, whenever no callback is part-way through the snapshot holds the published corpus or is marked dirty; after Close it holds it |
| SnapshotProtocol.CurrentOrDirtyIff | engine/engine.go:291-347 | that holds in every run exactly when callbacks outside Refresh are serial and no Refresh overlaps Close |
| SnapshotProtocol.RefreshBesideCloseLosesACorpus | engine/engine.go:340-347 | a Refresh that overlaps Close can mark the snapshot dirty too late |
| SnapshotProtocol.OverlappingCallbacksLoseACorpus | engine/engine.go:304-307 | two overlapping callbacks outside Refresh can lose the newer corpus for good |
| SnapshotProtocol.WatchFlushWrites | engine/engine.go:296-308 | alone, a watcher flush publishes, clears the mark and rewrites the snapshot |
| SnapshotProtocol.RefreshFlushMarks | engine/engine.go:296-303 | alone, a Refresh publishes, marks the snapshot dirty and leaves the file as it was |
| SnapshotProtocol.CloseWritesIfDirty | engine/engine.go:340-347 | Close writes the published corpus if the snapshot is dirty and nothing otherwise |
| EngineWorkspace.Workspace.OnFlush | engine/engine.go:295-308 | a Refresh flush marks dirty, any other clears the mark and writes |
| EngineWorkspace.Workspace.Refresh | engine/refresh.go:52-90 | the outcome as specified, cancellation and rejection before anything is read, paths in the order given; one flush that leaves the snapshot file alone |
| EngineWorkspace.DiskDecides | engine/refresh.go:28-34 | whichever list a path is in, it is reconciled once, on the side where the disk has it |
| EngineWorkspace.BadIff | engine/refresh.go:58-63 | Refresh rejects exactly when some path is absolute or escapes the root |
| EngineWorkspace.BadIsFirst | engine/refresh.go:58-63 | the path it reports is the first such |
| EngineWorkspace.CleanedGrows | engine/refresh.go:57-69 | paths keep the order of their first mention |
| EngineWorkspace.WhereAdds | engine/refresh.go:74-81 | each side of the split keeps the order it is given |
| EngineWorkspace.SplitByDisk | engine/refresh.go:74-81 | the paths on disk and the others, each in the order given |
| EngineWorkspace.Workspace.Close | engine/engine.go:340-347 | closes the index and writes the snapshot exactly when it is dirty |
| Runes.DecodeConcat | engine/tokens.go:20-20 | decoding runes is split by a cut after an ASCII byte, malformed text included |
| Runes.DecodeLast | engine/tokens.go:20-20 | a text that ends in an ASCII byte ends in that rune |
| Runes.DecodeEncoded | engine/tokens.go:20-20 | decoding undoes the UTF-8 encoding of any code points that have one |
| Runes.MalformedByte | engine/tokens.go:20-20 | a byte with which no encoding begins is the replacement rune by itself |
| Tokens.ApproxTokens | engine/tokens.go:12-33 | the counter loop computes the estimate by maximal runs |
| Tokens.EstimateConcat | engine/tokens.go:12-33 | est(a) + est(b) - 1 <= est(a + b) <= est(a) + est(b) for all rune sequences |
| Tokens.EstimateCutBetweenRuns | engine/tokens.go:22-28 | the estimate is additive where no word run is cut |
| Tokens.EstimateCutBeforeOther | engine/tokens.go:22-28 | and before any rune that is no word rune |
| Tokens.WordRun | engine/tokens.go:14-25 | letters, digits and underscores in a row cost a quarter each, rounded up |
| Tokens.OtherRune | engine/tokens.go:21-28 | space, tab, newline and carriage return cost nothing, any other rune one |
| MarkdownLines.DetectCodeFence | engine/markdown.go:193-214 | the fence a line opens or closes, if any |
| MarkdownLines.ClassifyContentLine | engine/markdown.go:162-191 | the kind of a line outside fences and front matter |
| MarkdownLines.ScanMdLines | engine/markdown.go:84-150 | the loop yields each line with its byte range, and the kind that a fold over the lines before it gives |
| MarkdownLines.LinesWellFormed | engine/markdown.go:98-107 | the lines concatenate back to the text and each but the last ends it |
| MarkdownLines.LinesOfJoin | engine/markdown.go:98-107 | splitting well-formed lines put together gives them back |
| MarkdownLines.ScannedLinesTile | engine/markdown.go:98-149 | scanned ranges tile the source bytes |
| MarkdownLines.InteriorKindsAgree | engine/markdown.go:121-127 | replacing a fence's interior by lines that do not close it changes no line's kind |
| MarkdownSections.SectionBoundaries | engine/markdown.go:325-341 | exactly line 0 and every ATX or setext heading line, in order |
| MarkdownSections.PopTo | engine/markdown.go:397-399 | popping leaves the chain of the nearest earlier heading of smaller level |
| MarkdownSections.ResolveHeading | engine/markdown.go:346-369 | a boundary's heading level and text, or none; in bytes they are `MarkdownHeadings.AtxHeading` and `MarkdownHeadings.SetextHeading` |
| MarkdownHeadings.AtxHeading | engine/markdown.go:291-312 | one to six hashes, a blank and a text, with or without blanks and a closing run of hashes after it, are a heading of that level and text; hashes alone have none |
| MarkdownHeadings.NotAtx | engine/markdown.go:167-177 | seven hashes, or hashes right before a text, open no heading |
| MarkdownHeadings.SetextHeading | engine/markdown.go:358-366 | a text line over `=` or `-` is a heading of level 1 or 2, its text without the white space around it |
| MarkdownHeadings.FenceOpens | engine/markdown.go:193-214 | up to three spaces and three or more marks open a fence of that length; fewer marks or more spaces do not |
| MarkdownHeadings.FenceCloses | engine/markdown.go:121-127 | a fence is closed by at least as many of its own mark |
| MarkdownHeadings.FrontMatterOpens | engine/markdown.go:130-135 | three dashes or pluses open front matter on the first line and on no other |
| MarkdownHeadings.FrontMatterLasts | engine/markdown.go:114-120 | it lasts until its delimiter comes again |
| MarkdownHeadings.LetterIsText | engine/markdown.go:162-191 | a line that begins with a letter is text |
| MarkdownHeadings.ItemIsList | engine/markdown.go:264-285 | a bullet and a blank, or up to nine digits, a dot or parenthesis and a blank, begin a list item |
| MarkdownSections.EnclosingLevels | engine/markdown.go:396-407 | levels along an enclosing chain strictly increase within 1 to 6, so it has at most six |
| MarkdownSections.ParseSection | engine/markdown.go:384-418 | one turn of the loop yields the specified section and keeps the stack the enclosing chain |
| MarkdownSections.ParseMdSections | engine/markdown.go:372-420 | the stack algorithm yields the sections of the plain specification |
| MarkdownTheorems.HeadingPaths | engine/markdown.go:372-420 | a section's path is its heading preceded, repeatedly, by the nearest earlier heading of smaller level; only the first section can lack one |
| MarkdownTheorems.SectionsPartitionLines | engine/markdown.go:384-390 | sections cover the lines in order and every line lies in exactly one |
| MarkdownTheorems.SectionsStartOutsideFences | engine/markdown.go:325-341 | no section after the first starts inside a fence or front matter |
| MarkdownTheorems.FencedTextIsInert | engine/markdown.go:121-127 | replacing a fence's interior leaves every section's range, level and path as they were |
| MarkdownTheorems.ReplacingFencedLines | engine/markdown.go:121-127 | the same for texts put together from lines |
| MarkdownTheorems.SectionTokensSum | engine/markdown.go:392-416 | the sections' estimates sum to the whole file's |
| Ndcg.AtK | bench/ndcg/ndcg.go:41-88 | the loops compute the score of the definition |
| Ndcg.DcgOfRanking | bench/ndcg/ndcg.go:46-59 | the seen-set loop sums each document's first occurrence among the first k |
| Ndcg.Relevant | bench/ndcg/ndcg.go:66-71 | exactly the positive judgements, each once, in any order |
| Ndcg.SortDescending | bench/ndcg/ndcg.go:75-75 | the same judgements, largest first |
| Ndcg.DcgOfIdeal | bench/ndcg/ndcg.go:77-83 | the discounted gain of an ideal ranking |
| Ndcg.IdealsAgree | bench/ndcg/ndcg.go:75-83 | whichever way ties are sorted the ideal discounted gain is the same |
| Ndcg.IdealIsBest | bench/ndcg/ndcg.go:41-88 | no ranking, duplicates included, discounts to more than an ideal one |
| Ndcg.ScoreInUnitInterval | bench/ndcg/ndcg.go:41-88 | the score is in [0, 1] |
| Ndcg.IdealScoresOne | bench/ndcg/ndcg.go:41-88 | an ideal ranking, whatever follows it, scores exactly 1 when a document is relevant |
| Ndcg.NothingRelevantScoresZero | bench/ndcg/ndcg.go:72-74 | without a relevant document the score is 0 |
| Ndcg.SwapNeverLowers | bench/ndcg/ndcg.go:41-88 | moving a document ahead of an adjacent, no more relevant one never lowers the score |
| Ndcg.RankGives | bench/ndcg/ndcg.go:46-59 | a rank adds its document's judgement times its weight, at the first occurrence and if positive |
| Ndcg.SecondAlone | bench/ndcg/ndcg.go:41-88 | of two documents the less relevant one alone scores the ratio of their judgements at cutoff 1 |
| Ndcg.SingleRelevant | bench/ndcg/ndcg.go:41-88 | a single relevant document scores the weight of its first rank over that of the first of all |
| Resume.CompleteTasks | bench/contextbench/resume.go:64-90 | for exactly the tasks in the file, whether each arm and budget has a record |
| Resume.DropPartial | bench/contextbench/resume.go:112-119 | exactly the records of complete tasks, requested or not, in file order |
| Resume.RunResumable | bench/contextbench/resume.go:98-188 | the file goes through exactly the specified states, whatever goes wrong with it, a failed sync after an append included, and a run that is neither interrupted nor troubled returns the selection and the failures |
| Resume.TroubleIsARun | bench/contextbench/resume.go:106-129 | a run that cannot load, rewrite, open or reload leaves the file as no run, a run of no tasks, or a whole run would |
| Resume.SortByPosition | bench/contextbench/resume.go:174-183 | the stable sort by last position yields the grouped selection |
| Resume.Select | bench/contextbench/resume.go:174-183 | position map, filter and stable sort yield the requested tasks' records in task order |
| ResumeTheorems.UniqueAfterRun | bench/contextbench/resume.go:112-124 | from a file without repeated keys, a run leaves one however its tasks turn out, exactly when no arm and no budget is repeated or every requested task is complete |
| ResumeTheorems.RepeatedBudget | bench/contextbench/resume.go:149-163 | a repeated budget writes a key twice |
| ResumeTheorems.NeverTwoRecords | bench/contextbench/resume.go:112-124 | over any runs with failures, stops and changing configurations no key is ever recorded twice |
| ResumeTheorems.OnlyCompleteTasksRemain | bench/contextbench/resume.go:112-124 | every task with a record after a run is complete for its configuration |
| ResumeTheorems.CompleteTasksOnlyGrow | bench/contextbench/resume.go:92-97 | for a fixed configuration a complete task stays complete and keeps exactly its records |
| ResumeTheorems.NoFailureCompletesAll | bench/contextbench/resume.go:92-97 | a run that ends without failures leaves every requested task complete |
| ResumeTheorems.IncompleteIsReported | bench/contextbench/resume.go:92-97 | after any run that reached its end, what is incomplete is reported as failed |
| ResumeTheorems.FailedExactlyIncomplete | bench/contextbench/resume.go:92-97 | reported and incomplete coincide however the tasks turn out, exactly when no task still to run is listed twice and there is an arm or nothing to run |
| ResumeTheorems.TwiceListedTask | bench/contextbench/resume.go:133-164 | a task listed twice that fails and is then scored is complete and reported as failed |
| ResumeTheorems.PairsArmByArm | bench/contextbench/runner.go:220-228 | records come arm by arm |
| ResumeTheorems.PairsBudgetByBudget | bench/contextbench/runner.go:159-161 | and budget by budget |
| ResumeTheorems.DefaultBudgets | bench/contextbench/resume.go:103-105 | no budgets stand for 2048, 8192 and 16384 |
| ResumeTheorems.SelectedInTaskOrder | bench/contextbench/resume.go:170-183 | returned records follow the tasks' last positions |
| ResumeTheorems.SelectedKeepsEachTask | bench/contextbench/resume.go:170-183 | each requested task's records are returned all, once, in file order; others not at all |
| Spans.MergeSpans | bench/contextbench/gold.go:36-75 | sorted, disjoint, non-adjacent spans covering exactly the valid inputs' lines, each with the start and content of one of them |
| Spans.MergeSorted | bench/contextbench/gold.go:63-74 | the merging loop on sorted spans |
| Spans.SortSpans | bench/contextbench/gold.go:53-61 | the same spans ordered by file, start and end |
| SpanTheorems.CanonicalFormIsUnique | bench/contextbench/gold.go:35-75 | two canonical lists covering the same lines have the same ranges |
| SpanTheorems.MergeIgnoresInputOrder | bench/contextbench/gold.go:35-75 | merged ranges do not depend on the input's order or repetitions |
| SpanTheorems.HitOverlapsGold | bench/contextbench/gold.go:86-94 | whether some gold span of the same file shares a line range with the hit |
| SpanTheorems.OverlapIsASharedLine | bench/contextbench/gold.go:77-83 | spans in order overlap exactly when they share a line of one file |
| SpanTheorems.MergedLines | bench/contextbench/gold.go:36-75 | what is kept: the lines from 1 on of spans in order, of files with a usable name |
| SpanTheorems.OverlapUnchanged | bench/contextbench/gold.go:77-99 | a well-formed hit overlaps the merged gold exactly when it overlaps a valid gold span |
| SpanTheorems.InvisibleExactlyToOrderedHits | bench/contextbench/gold.go:77-99 | merging is invisible to a hit if and only if its lines are in order or it ends before line 1 |
| SpanTheorems.FirstOverlapUnchanged | bench/contextbench/gold.go:98-116 | merging does not move the first overlapping hit |
| SpanTheorems.TokensToFirstGoldLine | bench/contextbench/gold.go:98-116 | the tokens before the first overlapping hit, or -1; for well-formed hits the unmerged gold's answer |
| SpanTheorems.GoldInNumbers | bench/contextbench/gold.go:98-116 | 0 if the first hit overlaps, -1 if none does, and a hit before the first overlap adds its count, taken from its text if it has none |
| Traj.BuildTrajRecord | bench/contextbench/traj.go:10-91 | the named files strictly sorted, each with the canonical form of exactly its clamped hits |
| Traj.GroupByFile | bench/contextbench/traj.go:28-43 | hits filed under their path with clamped lines, none lost |
| Traj.HitLines | bench/contextbench/traj.go:28-43 | a hit stands for its lines from 1 on, and at least one |
| StringOrder.SortStrings | bench/contextbench/traj.go:74-74 | the same strings strictly ascending |
| StringOrder.LessAtDifference | bench/contextbench/traj.go:74-74 | the first difference decides, and a prefix comes first |
| Budget.PackBudget | bench/contextbench/budget.go:24-53 | the packing of the specification, with counts filled in; the budget is exceeded by a lone first hit only |
| Budget.ExceedsOnlyAlone | bench/contextbench/budget.go:18-23 | more than the budget is used only when the first hit alone is kept and exceeds it |
| Budget.PackingIsMaximal | bench/contextbench/budget.go:18-53 | for every list of counts: at every budget and after every hit no dropped hit fits beside what is kept, exactly when no count after the first is negative, or the second is negative and least and the running total stays low until the last negative count |
| Budget.NegativeHit | bench/contextbench/budget.go:29-34 | a hit has a negative count exactly when it comes with one and without text |
| Budget.CountFilledIn | bench/contextbench/budget.go:29-34 | a hit with text and no count has it taken from the text; any other keeps its own |
| Budget.ApplyTokenBudget | mcp/token_budget.go:70-84 | the kept prefix, the number dropped and the kept total; a budget that is not positive passes everything |
| Budget.RowCost | mcp/token_budget.go:57-62 | a result costs its text, its path and eight |
| Budget.PrefixIsLongest | mcp/token_budget.go:63-69 | no longer prefix fits |
| Budget.PrefixGrowsWithBudget | mcp/token_budget.go:63-69 | a larger budget keeps no less |
| Budget.PrefixWithinPacked | bench/contextbench/budget.go:24-53 | for equal costs the skipping packer keeps all the stopping one keeps |
| Sample.StratifiedSample | bench/contextbench/loader.go:286-349 | exactly the wanted number, none more often than listed, by ID, for any shuffle; and exactly how many of each language: what the first places hold of the shares, or the share and what falls to it as the languages are emptied in order |
| Sample.Allocate | bench/contextbench/loader.go:313-329 | the proportional shares, rounded down and at least one, lie one after the other in language order |
| Sample.ShareIsProportional | bench/contextbench/loader.go:315-322 | a share is the whole part of the proportional one, and 1 where that is less |
| Sample.Fill | bench/contextbench/loader.go:332-338 | the fill reaches the target with the first of what is left, language by language in order |
| Sample.Shuffle | bench/contextbench/loader.go:307-309 | whatever is drawn, the same tasks as often |
| Sample.GroupByLanguage | bench/contextbench/loader.go:291-294 | each language's list is its tasks in input order |
| Sample.SortById | bench/contextbench/loader.go:343-346 | the same tasks as often, by ID |
| SampleTheorems.LanguageKeptIff | bench/contextbench/loader.go:317-341 | a language occurs in the sample exactly when the shares before it leave a place |
| SampleTheorems.EveryLanguageKeptIff | bench/contextbench/loader.go:317-341 | every language occurs exactly when the shares of all but the last leave a place |
| SampleTheorems.FewerPlacesLoseALanguage | bench/contextbench/loader.go:339-341 | fewer places than languages always lose one |
| SampleTheorems.ThreePlacesLoseTheThird | bench/contextbench/loader.go:339-341 | with three places for six tasks in three languages the third is lost |

## Left out

- Retrieval, ranking, embedding, reranking and watching: uninterpreted; a bundle, an index or a corpus is an identity or a map.
- MCP handlers, rendering, logging, cloning, path confinement, flags and environment: formatting and plumbing, with only easy claims.
- Real time: timeouts and waits are steps that may or may not be taken; only the failure cooldown compares clock readings.
- The cache's generation is unbounded; wrap-around of a 64-bit counter is not modelled. A builder returns a bundle or an error and does not panic.
- singleflight is a map from key to live turn; its own locking is not part of this model.
- How `structural.Index.Update` parses files is not modelled; the model re-reads exactly the reported files, and a reported directory is not expanded.
- Publishing extra chunks outside a flush is not a step of `SnapshotProtocol`, and the static pre-built index, which ignores them, is not modelled.
- A results file torn in the middle of one task's append is not modelled; one append and one rewrite are atomic.
- Path normalisation, the logarithm in the discount and the benchmark's tokenizer are parameters; gold-span theorems ask that normalising a gold path twice is normalising it once.
- Arithmetic of the NDCG score is over the reals, without rounding; a language's share is exact integer division, which the source's floating-point expression equals below 2^53.
- Clients.AutoFetchModel: of the re-warming Get only its first section; what it builds is a call of `CacheProtocol`.
- Clients.OnExtras: of its Get only the first section, and neither the order of store and lookup nor applying the chunks to the resolved index; in `CacheProtocol` these are the steps StoreExtras, CallLookup and ApplyExtras.
- StructuralMachine.StructuralState.Get: leaves out the bounded wait for the build and the index returned after it; waiting changes no state.
- BundleBuild.RepoBundle.StructuralIndex: leaves out the bounded wait, and the delegation to a wired StructuralSource.
- BundleBuild.RepoBundle.StopStructuralBuild: returns the channel to wait for; the cancel only hurries the build, the wait is `StructuralProtocol.StopWaitsForItsBuild`, and delegation to a wired StructuralSource is left out.
- BundleBuild.RepoBundle.StructuralPending: leaves out the delegation to a wired StructuralSource.
- BundleBuild.RepoBundle.StructuralIfBuilt: leaves out the delegation to a wired StructuralSource.
- EngineWorkspace.Workspace.Close: waiting for the structural build is `StructuralProtocol.StopWaitsForItsBuild`; the error closing the index returns is left out.
- SpanTheorems.TokensToFirstGoldLine: its second clause compares with the valid gold spans only; what a span that ends before it starts would overlap by itself is not compared.
- Sorting is by insertion where the source calls the library; sorts that are not stable in the source promise only order and contents.
