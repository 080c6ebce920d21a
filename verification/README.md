# RepoKarta: models and proofs

RepoKarta is a code-search server. This project models its algorithms and concurrent protocols that carry
guarantees, and proves the guarantees for all inputs, all runs or all schedules. Each module follows one
component:

- `Conversation`, `ConversationInvariant`, `ConversationSafety`, `ConversationFlags`, `ConversationWindow`,
  `ConversationOrphans`, `ConversationSessions`, `ConversationProgress`, `ConversationTermination`,
  `ConversationRuns`: turns, deletion, the idle reaper and resumption race over a shared map and an atomic flag per
  conversation. A transition system with a program counter for each operation; safety rests on an ownership token for
  each conversation object.
- `AstSearch`, `RootFilter`: cursor-paged structural search refines one scan without pages; the binary search
  that leaves documents out.
- `ContextFileCache`, `ContextFileAnswers`: a single-flight cache with least-recently-used eviction, as a transition
  system over its critical sections, and the critical sections themselves as methods of a class.
- `SearchScopes`, `QueryFilters`: compaction and filtering by search scopes, and repository filters, in place.
- `OsvEvents`, `OsvBlockSort`, `OsvRanges`, `OsvFixes`, `AdvisoryPool`, `AdvisoryPoolRuns`, `AdvisoryOutcomes`,
  `Findings`, `FindingOrder`: the range evaluator against the OSV Schema (section "Evaluation"), the worker pool that fetches
  advisories, and the accounting and merging of findings.
- `Globs`, `IgnoreRules`, `IgnoreFiles`, `CodeOwners`, `IgnoreWalk`, `IgnoreDiscovery`: glob compilers against a direct
  matcher, last-match-wins resolution, and the directory walk with a pruned stack of ignore rules.
- `TopologyNames`, `TopologyGraph`, `Topology`, `Neighborhood`: what observed names mean; building,
  merging, filtering, summing up and scoping the service topology.
- `JavaComments`, `SourceLines`, `StructuralBudget`: the comment-blanking lexer, the line index, and the
  accumulator that must not lose facts silently.
- `MapSums`, `Text`: sums over maps and the order of text, shared by the others.

Loops are methods with invariants, tied to functions that the lemmas are about; objects and slices that the
program updates in place are classes and arrays. Concurrent code is a set of guarded steps, and theorems hold
for every run. Values from outside (file systems, parsers, engines, clocks, version systems, case folding)
are parameters or choices of a step.

Some expectations do not hold of the code as it is. For each the exact condition is proved:

- A refused deletion can put back a conversation whose own turn has closed its session
  (`ConversationRuns.RestoreCanMapClosedSession`); a mapped conversation has a closed session if and only if that
  happened (`ConversationWindow.MappedIsClosedIffDropped`).
- A refused deletion, or the publishing of an id in use, can take another conversation of the same id out of everybody's
  reach, and its session leaks (`ConversationRuns.RestoreLeaksSession`); an object is out of reach if and only if that
  happened or its own turn dropped it (`ConversationOrphans.OrphanIffUnmapped`, `ConversationOrphans.OrphanIffOutOfReach`),
  and it stays so (`ConversationOrphans.OrphanForever`, `ConversationOrphans.LeakedForever`).
- Repository ids are narrowed to 32 bits; filters are exact if and only if visible ids do not collide
  (`QueryFilters.NarrowingIsExact`). A filter that only denies relies on the engine (`QueryFilters.DenialNeedsTheEngine`).
- The advisory scan differs from the OSV evaluation on event lists that open twice in a row or fix a last
  affected version (`OsvRanges.ScanIsOsvIffReadable`), and leaves out a fix that follows a last affected version
  (`OsvFixes.ReportedFixIsNearest`). Its comparator sorts if and only if two spellings of one version do not meet in a
  circle (`OsvBlockSort.BlockSortsIffNoCircle`).
- What a merged finding shows depends on the order of findings exactly in what its least occurrences disagree on
  (`FindingOrder.ShownDependsOnTies`): never in the place for the usages that manifests give rise to
  (`FindingOrder.ShownPlaceIsOrderless`), possibly in the details (`FindingOrder.OrderDecidesDetails`). The spelling of
  its package, and its id, are those of its first finding (`FindingOrder.LeaderDependsOnGroup`).

`dafny verify dfyconfig.toml` checks the project.

## Model

| member | source | states |
|---|---|---|
| ConversationSafety.NoForeignClose | internal/agent/agent.go:417-490 | in every interleaving of turns, deletions, reaper sweeps and resumptions, no operation that is about to close a session is about to close the session of an object on which somebody else's turn, past its recheck of the map, still runs |
| ConversationSafety.OneTurnPerObject | internal/agent/agent.go:473-488 | at most one turn that passed the recheck runs on a conversation object |
| ConversationSafety.OneHolder | internal/agent/agent.go:417-443 | an object is held by at most one of the map (under one id), one deletion, one unpublished start or one reaper batch |
| ConversationSafety.DoomedForever | internal/agent/agent.go:1290-1309 | an object that was reaped, or that a deletion saw idle, never enters the map again, no turn ever runs on it, and every Send that still holds its pointer fails the recheck |
| ConversationSafety.OnlyCloseCloses | internal/agent/agent.go:1240-1254 | sessions are closed by the close calls that the safety theorem speaks of and by nothing else |
| ConversationInvariant.StepKeeps | internal/agent/agent.go:417-490 | every step of every operation keeps the ownership invariant: a token for each object, with the map, an operation or nobody |
| ConversationSafety.RunKeeps | internal/agent/agent.go:417-490 | every state of every run satisfies the ownership invariant |
| ConversationFlags.ActiveIffFlagged | internal/agent/agent.go:473-488 | in every run exactly the objects of operations between their compare-and-swap and their deferred clearing have the flag set: no flag stays behind |
| ConversationWindow.MappedIsClosedIffDropped | internal/agent/agent.go:419-435 | in every run a mapped object has a closed session if and only if a turn on this object that dropped its conversation closed this session: no deletion, sweep or replacement of a session does |
| ConversationWindow.MappedIsOpenUnlessRestored | internal/agent/agent.go:419-435 | and it happens only to objects that a refused deletion put back |
| ConversationRuns.RestoreCanMapClosedSession | internal/agent/agent.go:419-435 | a run in which a refused deletion puts back an object whose own turn has closed its session, with no operation left that would repair it |
| ConversationRuns.SecondObjectAppears | internal/agent/agent.go:951-1075 | a run in which, while a deletion holds an object with a turn, a request starts and publishes a second object for the same id and gets a turn of its own on it: safety is a matter of objects, not ids |
| ConversationOrphans.OrphanIffUnmapped | internal/agent/agent.go:423-430 | in every run nobody holds an object if and only if some step took it out of the map without a new holder: a turn on it dropped its conversation, or an operation (a refused deletion, or the publishing of an id in use) put another object in its place |
| ConversationOrphans.OrphanIffOutOfReach | internal/agent/agent.go:417-443 | for a published object that was neither deleted nor reaped this is to say that it is not in the map and no operation holds it |
| ConversationOrphans.OrphanForever | internal/agent/agent.go:417-443 | an orphan never enters the map again, no operation ever holds it, and only a turn on it that dropped its conversation can close its session |
| ConversationOrphans.LeakedForever | internal/agent/agent.go:1290-1309 | an orphan on which no turn runs never gets one, and its open session is never closed |
| ConversationSessions.OwedIsClosed | internal/agent/agent.go:417-443 | an operation that took over the session of an object (a deletion that saw it idle, a sweep, a dropping turn, a start given up) closes that very session before it lets go of it; only a Send that publishes the object keeps it open |
| ConversationSessions.StaleIsClosed | internal/agent/agent.go:610-627 | the same for the session that a turn replaced |
| ConversationSessions.RetiredIsClosedOrOwed | internal/agent/agent.go:1290-1309 | in every run the session of a deleted or reaped object is closed or its deletion or sweep has yet to close it, and that of an object that was never published is closed or its start has yet to |
| ConversationSessions.EverySessionIsAccountedFor | internal/agent/agent.go:1268-1309 | in every run every session ever started is closed, or some operation has yet to close it, or it is the current one of an object that is alive or orphaned: orphans are the only leak |
| ConversationProgress.NobodyIsStuck | internal/agent/agent.go:417-490 | an operation that has not finished can move, or the reaper that holds the lock can |
| ConversationTermination.OperationsEnd | internal/agent/agent.go:417-490 | whatever the others do, a Send takes at most 10 steps and a deletion at most 3, and a sweep that has taken the lock at most 3 for each conversation mapped then, and 2 more |
| ConversationTermination.IdleConversationTakesTurn | internal/agent/agent.go:473-488 | from any reachable state in which the lock is free, a Send that names a mapped idle conversation reaches its turn, on that conversation and its current session, by its own steps |
| ConversationRuns.RestoreOrphansSecondObject | internal/agent/agent.go:423-430 | the witness: putting the first object back takes the second one out of the map in the middle of its turn |
| ConversationRuns.RestoreLeaksSession | internal/agent/agent.go:423-430 | and when that turn has ended, its session leaks |
| ConversationRuns.OneTurnRuns | internal/agent/agent.go:446-490 | a run in which a turn passes its recheck and runs: the theorems are not about nothing |
| AstSearch.PagesRefineScan | internal/codeintel/ast_search.go:188-295 | following cursors to the end, with any limits, returns the matches of one scan without pages, in order, each once |
| AstSearch.FinitelyManyPages | internal/codeintel/ast_search.go:188-295 | every page advances, so that the number of pages is bounded by candidates and matches |
| AstSearch.IssuedCursorIsAccepted | internal/codeintel/ast_search.go:322-345 | the cursor a page issues is accepted, at the position where the page stopped, by exactly those indexes that have its id, its request hash and that position |
| AstSearch.AcceptedPageIsStretch | internal/codeintel/ast_search.go:322-345 | the page that any accepted cursor gets is a stretch of the scan of this very request |
| AstSearch.ScanIsTheMatches | internal/codeintel/ast_search.go:188-295 | the scan returns the matches of the candidates that could be scanned, and nothing else |
| AstSearch.SearchPage | internal/codeintel/ast_search.go:99-295 | a request gets a page exactly if its limit is within bounds and it has no cursor, or one of version 1, of this index, of this request and of a position that exists; the page is the stretch of the scan from there on; and the error tells which of these is wrong |
| AstSearch.PageFrom | internal/codeintel/ast_search.go:180-295 | the page loop: at most `limit` matches of at most 32 attempted files, exactly the stretch of the scan between two positions, with counts of scanned and skipped files |
| AstSearch.ReadCandidate | internal/codeintel/ast_search.go:207-291 | one turn of the loop: a skipped or exhausted file leads to the next one, a full page stops behind its last match, and a position beyond the matches of its file is refused |
| AstSearch.AppendMatches | internal/codeintel/ast_search.go:228-286 | the loop over the matches of one file: it stops at the limit, with a cursor behind the last match it appended |
| AstSearch.FollowCursors | internal/codeintel/ast_search.go:188-295 | a client that follows cursors until there is none terminates with the whole scan |
| AstSearch.CompletenessIsHonest | internal/codeintel/ast_search.go:368-373 | if every page says complete, no candidate was skipped or truncated and the inventory was complete |
| RootFilter.CanMatchRoots | internal/codeintel/ast_search.go:298-309 | a document is left out exactly if its node kinds are known and none of them is a root of the query |
| RootFilter.SearchStrings | internal/codeintel/ast_search.go:298-309 | the binary search finds the first of the sorted kinds that is not less than the text |
| ContextFileCache.OneLoaderPerKey | internal/codeintel/service.go:866-881 | in every interleaving at most one caller loads a key |
| ContextFileAnswers.CallersAreToldTheTruth | internal/codeintel/service.go:853-903 | in every interleaving: a caller that hit the cache gets the true listing; one that loaded it or waited for the load gets it exactly if the loader succeeded and a failure exactly if it failed; only a waiter that gave up is told that it was cancelled |
| ContextFileCache.CacheIsSound | internal/codeintel/service.go:853-903 | in every reachable state the cache holds at most 32 listings, every listing returned is what the loader lists for that repository and revision, and no done channel is closed twice |
| ContextFileCache.OnlyTheOldestLeaves | internal/codeintel/service.go:884-895 | a listing leaves the cache only when a successful load finds it full, and it is then a least recently used one; failed loads leave the cache alone |
| ContextFileCache.UseIsRecorded | internal/codeintel/service.go:860-898 | the time of use of an entry changes only by a hit on its key or by storing it, and is then the current time |
| ContextFileCache.NobodyIsStuck | internal/codeintel/service.go:866-903 | a caller that has not returned can move, or the caller whose load it waits for can |
| ContextFileCache.KeysAreInjective | internal/codeintel/service.go:858 | the cache key determines the repository and the revision |
| ContextFileCache.StepKeeps | internal/codeintel/service.go:853-903 | every step keeps the invariant that ties loads in flight, their owners, waiters and the cache together |
| ContextFileCache.Store.Oldest | internal/codeintel/service.go:886-893 | the eviction loop, in whatever order it visits the map, picks a least recently used entry |
| ContextFileCache.Store.Enter | internal/codeintel/service.go:859-880 | the first critical section: a hit refreshes one entry, a miss joins the load in flight or registers a new one, and nothing else changes |
| ContextFileCache.Store.Publish | internal/codeintel/service.go:882-903 | the second critical section: the load is unregistered, and a successful one is stored in place of a least recently used entry if the cache is full |
| ContextFileCache.EnterIsTheSection | internal/codeintel/service.go:859-880 | whatever the first critical section does when a caller runs it is what the step of the caller does to cache, loads and caller |
| ContextFileCache.PublishIsTheSection | internal/codeintel/service.go:882-903 | the second critical section can leave a cache and loads exactly if some step of the caller does, with an admissible victim |
| SearchScopes.CoversIsTransitive | internal/codeintel/service.go:2232-2253 | covering is transitive on scopes that agree on which paths are directories |
| SearchScopes.CoversIffIncludes | internal/codeintel/service.go:2232-2253 | within one repository a scope covers another exactly if it admits every file that the other admits; a symbol is covered exactly if its file is, or by itself |
| SearchScopes.CoversNeedsCompatibility | internal/codeintel/service.go:607-633 | without that agreement it is not: a file scope covers the directory of its name, which covers a file below |
| SearchScopes.CompactSearchScopes | internal/codeintel/service.go:2208-2230 | the loops that compact a slice in place leave the scopes that the compaction of the list defines, in their order |
| SearchScopes.DropCovered | internal/codeintel/service.go:2221-2227 | the inner loop moves the scopes that the new one does not cover to the front of the same slice |
| SearchScopes.CompactIsAntichain | internal/codeintel/service.go:2208-2230 | the compacted scopes come from the list, none covers another, and a list that is not empty stays so |
| SearchScopes.CompactCoversAll | internal/codeintel/service.go:2208-2230 | every scope of a well-formed list is covered by a compacted one |
| SearchScopes.CompactFiltersAlike | internal/codeintel/service.go:2255-2330 | filtering a result by compacted scopes keeps the same files and lines as filtering by the original scopes |
| SearchScopes.CompactedSearchFiltersAlike | internal/codeintel/service.go:1142-1160 | a search with compacted scopes returns the same files and lines as filtering its result by the original scopes, also when compaction removes the last symbol scope and nothing is filtered |
| SearchScopes.CompactThenKeep | internal/codeintel/service.go:1042-1090 | dropping scopes by repository commutes with compaction |
| SearchScopes.FilteredSearchFiltersAlike | internal/codeintel/service.go:1042-1160 | the search as a whole: scopes are compacted, the repository filter drops some, the engine searches the rest and its result is filtered; that keeps the files and lines of those original scopes that the repository filter accepts, and there are none left to search with exactly if it accepts none |
| SearchScopes.EngineScopedFiltersAlike | internal/codeintel/service.go:2259-2270 | for any result that is taken to be scoped already, filtering by the compacted scopes has the same outcome exactly if compaction did not remove the last symbol scope, or the scopes admit every file of the result as a whole |
| SearchScopes.FilterReliesOnTheEngine | internal/codeintel/service.go:2259-2270 | a result that no search with the scopes returns, on which compacted and original scopes would differ: the theorem needs the engine |
| SearchScopes.FilterIsIdempotent | internal/codeintel/service.go:2255-2330 | filtering a filtered result changes nothing |
| SearchScopes.FilterSearchResult | internal/codeintel/service.go:2255-2330 | the filter overwrites the line buffers of the result it is given, and what it returns holds exactly what the filter leaves of the result as it was, with its match and file counts |
| SearchScopes.FilterLines | internal/codeintel/service.go:2305-2317 | the loop over the lines compacts them in place to those that some symbol scope spans |
| SearchScopes.ScopesFor | internal/codeintel/service.go:2276-2299 | the loop over the scopes finds whether one admits the whole file, and the symbol scopes in it |
| SearchScopes.FilterFiles | internal/codeintel/service.go:2273-2323 | the loop over the files keeps their order, their buffers and the match count |
| QueryFilters.PlanSearch | internal/codeintel/query_language.go:214-238 | filters are compiled and applied: if ids narrow to 32 bits without collision, the engine admits a visible repository exactly if it is requested, wanted by every filter and unwanted by none; and an empty plan means that none is left |
| QueryFilters.RestrictIsExact | internal/codeintel/query_language.go:293-340 | for every id: what the engine admits by base, scopes and exclusions is what was requested, within what is allowed and without what is denied; if the plan is empty nothing is |
| QueryFilters.DenialNeedsTheEngine | internal/codeintel/query_language.go:293-340 | base and scopes alone mean this exactly if there was a list to filter or nothing was denied |
| QueryFilters.ActiveFilterRestricts | internal/codeintel/query_language.go:293-340 | an active filter leaves a list that is not empty, or says empty: it is never taken for an absent one |
| QueryFilters.NarrowingIsExact | internal/codeintel/query_language.go:242-269 | the ids of any selectors single out the repositories they select exactly if no two visible repositories narrow to one 32-bit id |
| QueryFilters.CompileQueryFilters | internal/codeintel/query_language.go:214-238 | compilation succeeds exactly if every selector names one visible repository and every revision some; its lists denote intersection and union, and an empty intersection still limits |
| QueryFilters.RepositoryFilterIds | internal/codeintel/query_language.go:242-269 | the ids of the repositories that some selector names, or the first selector that does not name exactly one |
| QueryFilters.RevisionFilterIds | internal/codeintel/query_language.go:271-291 | the ids of the repositories at some revision, or a revision that no visible repository has |
| QueryFilters.IntersectOptionalIds | internal/codeintel/query_language.go:342-357 | the intersection of two id lists, an empty one counting as absent |
| QueryFilters.UnionIds | internal/codeintel/query_language.go:359-375 | the union of id lists, each id once |
| QueryFilters.ApplyQueryRepositoryFilters | internal/codeintel/query_language.go:293-340 | the loops that compact base or scopes in place compute the restriction |
| OsvRanges.EventsContain | internal/dependencies/advisories.go:646-670 | the scan loop computes the verdict of the scan function |
| OsvRanges.ScanIsUnion | internal/dependencies/advisories.go:646-670 | the scan of sorted events holds a version exactly if it lies in the union of the intervals they describe, and reports the version that ends its interval |
| OsvRanges.ScanIsOsvUnlessParted | internal/dependencies/advisories.go:646-670 | for each version: scan and OSV Schema, section "Evaluation", agree exactly if the version is not between two introduced events in a row and not tied with a last affected version that is also fixed |
| OsvRanges.ScanIsOsvIffReadable | internal/dependencies/advisories.go:646-670 | scan and schema agree on all versions if and only if no introduced event follows one of another version and no last affected version is fixed later in the list |
| OsvRanges.OpeningTwiceMissesVersions | internal/dependencies/advisories.go:646-670 | two introduced events in a row make the scan miss the earlier version, which the schema calls affected |
| OsvRanges.AlternatingScanIsOsv | internal/dependencies/advisories.go:616-670 | for alternating events scan and schema agree on every version |
| OsvEvents.TransitiveIffNoCircle | internal/dependencies/advisories.go:621-641 | the comparator orders a list of events if and only if the list does not hold an introduced event, a closing event of the same spelling and an event of another spelling of this version |
| OsvBlockSort.BlockSortsIffNoCircle | internal/dependencies/advisories.go:616-644 | sorting, by insertion within blocks of 20 and merging of the blocks, sorts the events, in whatever order they come and however many they are, if and only if they hold no such circle; how blocks are merged is free as long as a merge keeps the order within either block and sorts sorted blocks of ordered events |
| OsvBlockSort.StableMergeIsMerger | internal/dependencies/advisories.go:616-644 | the textbook merge is such a merge |
| OsvBlockSort.BlockSortIsInsertion | internal/dependencies/advisories.go:616-644 | events that alternate are sorted to the same list by insertion alone, so that the theorems about ranges hold for any number of events |
| OsvEvents.TwoSpellingsCircle | internal/dependencies/advisories.go:621-641 | "1.0", an event that closes it, and "1.0.0" are such a circle |
| OsvEvents.SortStableSorts | internal/dependencies/advisories.go:616-644 | in particular sorting events of distinguished versions sorts them |
| OsvRanges.OrderOfEventsIsIrrelevant | internal/dependencies/advisories.go:616-644 | every permutation of events that alternate when sorted is sorted to the same list, so that verdict and fix do not depend on their order |
| OsvFixes.ReportedFixIsNearest | internal/dependencies/advisories.go:672-690 | the version the scan reports is the nearest fix of the range exactly if no event after a closing last affected event fixes the package |
| OsvFixes.LaterFixIsNotReported | internal/dependencies/advisories.go:659-664 | a range where it is not |
| OsvFixes.NearestFixed | internal/dependencies/advisories.go:672-690 | the least version after the given one that fixes it in some range, or none |
| OsvFixes.AffectedVersion | internal/dependencies/advisories.go:588-614 | listed versions first, then the ranges that are not of type GIT, in order; for regular ranges the verdict is that of the OSV evaluation |
| AdvisoryPoolRuns.PoolIsSound | internal/dependencies/advisories.go:1517-1595 | in every run: somebody can move until the consumer returns, no id is fetched or reported twice, and a result that is not partial holds every id |
| AdvisoryPoolRuns.RunsAreFinite | internal/dependencies/advisories.go:1517-1595 | every run, however scheduled, failing or cancelled, takes at most 9 steps for each id and 6 more |
| AdvisoryPoolRuns.SomebodyMoves | internal/dependencies/advisories.go:1517-1595 | no deadlock: until the consumer returns some step other than a cancellation is possible |
| AdvisoryPoolRuns.BufferHasRoom | internal/dependencies/advisories.go:1526 | a worker with a result to send never blocks: the buffer has room for it |
| AdvisoryPoolRuns.OneResultPerId | internal/dependencies/advisories.go:1533-1552 | an id is fetched at most once and reported at most once, and when the consumer has returned exactly the dispatched ids were reported |
| AdvisoryPoolRuns.NotPartialMeansComplete | internal/dependencies/advisories.go:1367-1374 | the snapshot is partial exactly if fetching returned an error, and one that is not holds every id, each fetched once |
| AdvisoryPoolRuns.FatalIsReported | internal/dependencies/advisories.go:1533-1550 | whatever closed the fatal signal shows as an error in some result |
| AdvisoryOutcomes.ResultsAreOutcomes | internal/dependencies/advisories.go:1543-1552 | in every run a result is good exactly if the fetch of its id returned an advisory, and nothing but a fatal error of a fetch or a cancellation closes the fatal signal |
| AdvisoryOutcomes.OutputIsWhatWasFetched | internal/dependencies/advisories.go:1367-1374 | when the consumer has returned, the output holds exactly the ids whose fetch returned an advisory, the snapshot is partial exactly if some id is not among them, and the fatal signal is closed exactly if some worker gave up |
| AdvisoryOutcomes.DispatchStops | internal/dependencies/advisories.go:1553-1566 | after the fatal signal was closed at most one more id is handed out |
| AdvisoryPool.StepKeeps | internal/dependencies/advisories.go:1517-1595 | every step keeps the invariant: each dispatched id is with one worker or in one result |
| AdvisoryPoolRuns.ConsumerKnows | internal/dependencies/advisories.go:1573-1589 | output and failure count are those of the results received, and the error returned is that of the first failed one |
| Findings.CountDeclarations | internal/dependencies/advisories.go:431-502 | every declaration is counted in exactly one of checked, no version, invalid version, not in snapshot and uncovered (by ecosystem); gaps are announced exactly if some declaration was not checked; findings are those of the checked ones |
| Findings.CategoriesPartition | internal/dependencies/advisories.go:431-463 | the five counts sum to the number of declarations |
| Findings.DeduplicateFindings | internal/dependencies/advisories.go:851-912 | every finding belongs to exactly one group, that of its key; a group has one occurrence for each place where one of its findings was raised, that of the first; it shows the first of the least ones, and is led by its first finding |
| Findings.Merge | internal/dependencies/advisories.go:872-900 | a further finding adds its occurrence exactly if its place is new, and replaces what the group shows exactly if it is less |
| FindingOrder.OrderIsIrrelevant | internal/dependencies/advisories.go:851-912 | findings in another order give groups with the same keys, places and counts, and what they show ties: it is the same place, unless both usages are outside the ranking and differ |
| FindingOrder.ShownPlaceIsOrderless | internal/dependencies/advisories.go:851-936 | if "unknown" is the only usage outside the ranking, the place that a group shows does not depend on the order of the findings |
| FindingOrder.ShownDependsOnTies | internal/dependencies/advisories.go:883-900 | any view of what a group shows, such as its place or its details, is the same for every order of the findings if and only if all least occurrences of the group agree on it |
| FindingOrder.ShownPlaceDependsOnUnranked | internal/dependencies/advisories.go:883-900 | for the place this fails exactly if two least occurrences have different usages outside the ranking |
| FindingOrder.LeaderDependsOnGroup | internal/dependencies/advisories.go:862-868 | any view of the leading finding, such as its spelling of the package, is the same for every order if and only if all findings of the group agree on it |
| FindingOrder.OrderDecidesDetails | internal/dependencies/advisories.go:883-900 | of two findings of one place with different details the order decides which details are shown |
| FindingOrder.OrderDecidesPlace | internal/dependencies/advisories.go:883-900 | of two findings that differ in usages outside the ranking the order decides which place is shown |
| FindingOrder.TiesAgree | internal/dependencies/advisories.go:924-936 | occurrences that tie agree on path, line and relationship, and on the usage unless both usages are outside the ranking |
| Findings.LessIsWeakOrder | internal/dependencies/advisories.go:924-936 | occurrences are strictly weakly ordered |
| Findings.UsagesAreRanked | internal/dependencies/advisories.go:983-998 | production, implementation, build, development and test, in this order, before any other usage |
| Globs.ChainIsGlob | internal/catalog/ignore.go:112-155 | the expression written for a list of glob tokens matches a stretch of text exactly if the direct matcher does |
| Globs.PlainIsByComponents | internal/catalog/ignore.go:112-155 | without two stars and bracket expressions a glob matches a path exactly if it has as many components and each matches its counterpart |
| IgnoreRules.GlobToRegexp | internal/catalog/ignore.go:112-155 | the loop writes, for each token of the pattern, the expression of the token |
| IgnoreRules.WriteToken | internal/catalog/ignore.go:114-153 | one turn of the loop: what it writes and the index it leaves |
| IgnoreRules.CompileIgnorePattern | internal/catalog/ignore.go:65-108 | a line compiles exactly if it says a rule whose bracket expressions Go accepts, and then to the expression of that rule |
| IgnoreRules.CompiledRuleApplies | internal/catalog/ignore.go:90-107 | the compiled expression accepts exactly the paths the rule applies to: at their start or, unanchored, after some slash |
| IgnoreRules.AnchoredAppliesByComponents | internal/catalog/ignore.go:90-107 | an anchored rule without two stars and brackets applies component by component |
| IgnoreRules.UnanchoredAppliesToLastComponent | internal/catalog/ignore.go:90-107 | an unanchored one applies exactly if it matches the last component |
| IgnoreRules.BareLineMatchesLastComponent | internal/catalog/ignore.go:65-108 | the same from the text of a line |
| IgnoreRules.Marks | internal/catalog/ignore.go:66-97 | what the marks on a line say: comment, negation, directory, anchor, trailing blanks |
| CodeOwners.CompiledPatternApplies | internal/graph/codeowners.go:127-168 | the compiled expression, searched for in a path, is found exactly if the pattern applies: from the root or some component on, up to the end or, for a directory, some slash |
| CodeOwners.PlainPatternMatchesComponent | internal/graph/codeowners.go:127-168 | a pattern without slashes, two stars and brackets owns a path exactly if it matches the last component or, for a directory, any component |
| CodeOwners.DirectoryPatternMatchesAncestor | internal/graph/codeowners.go:162-166 | a rooted directory pattern owns the paths it matches and what lies below them |
| CodeOwners.Marks | internal/graph/codeowners.go:128-145 | what the marks of a pattern say: root, directory, and that negated patterns are not supported |
| CodeOwners.CompilePattern | internal/graph/codeowners.go:127-166 | a pattern compiles to the expression of the rule it says, unless it says none |
| CodeOwners.ResolveOwners | internal/graph/codeowners.go:89-125 | the last rule that matches the normalized path decides; without one the path is unowned |
| IgnoreWalk.Walker.WalkDir | internal/catalog/catalog.go:128-177 | the walk with one pruned stack finds the repositories of a recursive walk that passes rules down, makes the same judgements in the same order, and leaves on the stack only what later directories prune |
| IgnoreWalk.Walker.Enter | internal/catalog/catalog.go:128-175 | the closure: what it skips, the stack it leaves, what it finds |
| IgnoreWalk.WalkAppliesRulesAbove | internal/catalog/catalog.go:155-161 | at every directory the rules applied are exactly those loaded at its proper ancestors, outermost first |
| IgnoreWalk.Discover | internal/catalog/catalog.go:113-177 | both together, for a walk from the root |
| IgnoreWalk.LastRuleDecides | internal/catalog/ignore.go:157-180 | the last matching rule of all rules, outermost file first, decides; without one nothing is ignored |
| IgnoreFiles.LastLineDecides | internal/catalog/ignore.go:157-180 | from the lines of the ignore files: a directory is ignored if and only if some usable line applies to it, read as a glob without regular expressions, and the last one that does, of the innermost file with one, is not a negation |
| IgnoreFiles.LoadIgnoreScope | internal/catalog/ignore.go:46-56 | loading a file compiles its usable lines in order, and tells whether there is one |
| IgnoreDiscovery.DiscoveryFollowsLines | internal/catalog/catalog.go:113-177 | a directory that the walk visits is skipped if and only if it is not the root and the last usable line that applies to it, among the lines of the ignore files at its proper ancestors, is not a negation |
| IgnoreWalk.IgnoredDirectory | internal/catalog/ignore.go:160-180 | the loops over scopes and rules compute that verdict |
| IgnoreWalk.ActiveIgnoreScopes | internal/catalog/ignore.go:183-197 | the loop keeps the scopes that enclose the path |
| IgnoreWalk.ActiveOfStack | internal/catalog/ignore.go:183-197 | pruning a stack of enclosing scopes and leftovers gives back the enclosing ones |
| Topology.BuildTopology | internal/dependencies/topology.go:312-560 | components are exactly those of the snapshot and those that names of accepted observations mean, known from where they were seen; every connection is declared by the last static connection of its key or was opened by the first observation that went to it; each has the number, requests and errors of exactly the observations that went to it, which are conserved along every route (same ends, protocol, interaction, transport); its state follows from that; and what is listed is closed, exactly what the view shows, with the summary of a rebuild |
| Topology.Assemble | internal/dependencies/topology.go:449-567 | filtering, counting and listing: exactly the connections and unresolved references the view shows, exactly the components it calls for, each once, and the summary of a rebuild |
| Topology.CollectUnresolved | internal/dependencies/topology.go:500-527 | a reference is listed exactly if its source is known and the view shows it |
| Topology.WantedAreListed | internal/dependencies/topology.go:500-527 | and as often as it is there |
| TopologyGraph.Builder.AddObservation | internal/dependencies/topology.go:392-447 | an accepted observation goes to one connection, the closest to the one between the components that its two names mean, adds its requests and errors to it and leaves all others alone; one that is rejected changes nothing |
| TopologyGraph.Builder.AddObservations | internal/dependencies/topology.go:392-447 | after any number of observations every connection, all of them, and those along any route account for exactly the accepted observations that went there, that there are, and that name a connection on it |
| TopologyGraph.Builder.Resolve | internal/dependencies/topology.go:331-362 | an observed name means the component of the snapshot it may stand for, if there is exactly one, and else one of its own; the component is there afterwards, known from the origin too |
| TopologyGraph.Builder.Candidates | internal/dependencies/topology.go:332-338 | exactly the components that go by a name of this normal form and that a name of this kind may stand for, each once |
| TopologyNames.AmbiguousNameIsItsOwn | internal/dependencies/topology.go:339-350 | a name that two components may stand for means neither, but a component of its own |
| TopologyNames.UniqueNameIsTheirs | internal/dependencies/topology.go:339-347 | a name that exactly one component may stand for means that one |
| TopologyGraph.Builder.AddComponent | internal/dependencies/topology.go:321-330 | the component is stored under its id, in place of an earlier one, and found under each of its names |
| TopologyGraph.Builder.AddConnection | internal/dependencies/topology.go:367-391 | a static connection with an unknown end is dropped and counted, any other is stored as it is under its key, in place of an earlier one |
| TopologyGraph.LastDeclares | internal/dependencies/topology.go:367-391 | a key is declared exactly if some static connection with known ends has it, and as the last of these says |
| TopologyGraph.ConfirmsTheClosest | internal/dependencies/topology.go:413-424 | storing an observation at the closest connection keeps the classification: the states of all connections still follow from what is declared and how often it was observed |
| TopologyGraph.ConfirmedIsSame | internal/dependencies/topology.go:413-424 | everything else that is known of the connection stays as it was, and run time becomes one of its origins |
| TopologyGraph.ConfirmedGrows | internal/dependencies/topology.go:425-446 | the metrics of the connection grow by the observation and stay consistent |
| TopologyGraph.RateIsFraction | internal/dependencies/topology.go:437-439 | error rates lie between 0 and 1 |
| TopologyGraph.KeysAgree | internal/dependencies/topology.go:1022-1028 | connections have one key exactly if they have the same ends and agree in everything else but case |
| Topology.RebuildSummary | internal/dependencies/topology.go:881-923 | the rebuilt summary counts components by kind and connections by state and by resolution |
| Topology.SummaryIsConserved | internal/dependencies/topology.go:881-923 | counts by state, and counts by resolution, sum to the connections; counts by kind to the components |
| Topology.SortingKeepsSummary | internal/dependencies/topology.go:548-558 | the summary does not depend on the order of the lists |
| Topology.SanitizeTopology | internal/dependencies/topology.go:928-951 | the guard returns a closed topology as it is, and any other without exactly the connections that lack an end |
| Neighborhood.ScopeNeighborhood | internal/dependencies/topology.go:569-772 | a scoped topology is closed, shows every selected component and only components within `depth` connections of one, its summary is its own, and its references are exactly those of the selected components, with the others that may mean one counted and cut to 12 |
| Neighborhood.VisibleConnections | internal/dependencies/topology.go:637-688 | exactly the connections in, out and of neighbors, as far as the request asks for them, each list cut to its most useful ones, with what was cut counted |
| Neighborhood.Select | internal/dependencies/topology.go:580-599 | the selected components are those of the repository, and the names are those they go by |
| Neighborhood.CapConnections | internal/dependencies/topology.go:774-814 | kept and omitted connections make up the list, no omitted one is more useful than a kept one, and the group counts the omitted connections and components |
| Neighborhood.RankedIsRanked | internal/dependencies/topology.go:774-796 | of two connections the more useful comes first, or their ids decide |
| Neighborhood.UsefulnessAddsUp | internal/dependencies/topology.go:816-842 | what each merit of a connection is worth |
| Neighborhood.ConfirmedOutranksObserved | internal/dependencies/topology.go:816-842 | a connection known from run time only is less useful than any that was confirmed |
| Neighborhood.TouchingAre | internal/dependencies/topology.go:605-622 | the connections that touch a selected component are told apart, each once: those that lead in from outside are inbound, all others outbound |
| Neighborhood.ContextsAre | internal/dependencies/topology.go:661-682 | context are exactly the connections of neighbors that touch no selected component |
| Neighborhood.ReferencesAre | internal/dependencies/topology.go:699-720 | references of selected components are outgoing, those from elsewhere that may mean one of them possible inbound ones, if the request asks for these |
| Neighborhood.Touching | internal/dependencies/topology.go:605-622 | connections into and out of the selected components, and exactly their other ends as neighbors |
| Neighborhood.Contexts | internal/dependencies/topology.go:661-682 | the list of the connections of neighbors that touch no selected component, each once, all within two connections of one |
| Neighborhood.References | internal/dependencies/topology.go:699-720 | exactly the unresolved references of the selected components, and exactly those of others that may mean one of them |
| JavaComments.StripJavaComments | internal/graph/graph.go:1201-1268 | the state machine blanks the bytes the rules of its states call for, and only these, in place |
| JavaComments.LexByte | internal/graph/graph.go:1206-1266 | one turn of its loop: the state and index it leaves and the bytes it writes |
| JavaComments.StripBlanksExactlyComments | internal/graph/graph.go:1201-1268 | against a token-by-token reading of the file: comments become blanks except for line feeds, and every other byte, literals included, stays |
| JavaComments.StripKeepsLines | internal/graph/graph.go:1201-1268 | the line at every offset is the same before and after |
| JavaComments.StripKeepsLineFeeds | internal/graph/graph.go:1201-1268 | line feeds stay where they are, and none appears |
| JavaComments.StripIsIdempotent | internal/graph/graph.go:1201-1268 | stripping twice is stripping once |
| SourceLines.SourcePoint | internal/analysis/analysis.go:783-790 | the binary search finds the line that counting line feeds gives, and line start plus column gives back the offset |
| SourceLines.LineIndex | internal/analysis/analysis.go:760-768 | the index holds the starts of all lines |
| SourceLines.FirstStartAfter | internal/analysis/analysis.go:784 | the binary search finds the first line that starts after the offset |
| SourceLines.StartsUpTo | internal/graph/graph.go:1141-1146 | the lines that start up to an offset are as many as the line number that counting gives |
| StructuralBudget.Build | internal/graph/graph.go:630-715 | over all repositories, one after the other, the inventory stays within its document limit and five budgets, and unless it says truncated it holds every supported document whole |
| StructuralBudget.StructureBuilder.AddStructuralAnalysis | internal/graph/graph.go:630-715 | documents of a repository are taken in one after the other, each cut to what those before it left, until there is no room for one more or all budgets have become used up; and the inventory is marked exactly if it was before, something of a document or a whole document is missing, or all budgets are used up |
| StructuralBudget.DoneIsUnique | internal/graph/graph.go:630-715 | this determines the inventory and its mark |
| StructuralBudget.StructureBuilder.AddDocument | internal/graph/graph.go:647-713 | one document: what fits is appended and counted, and the inventory is marked exactly if something did not fit, the document was truncated, or all budgets are full |
| StructuralBudget.KeepRelations | internal/graph/graph.go:657-683 | the loop over the relations keeps the first ones of each kind up to its budget, in order |
| StructuralBudget.FittingIsAll | internal/graph/graph.go:657-683 | everything is kept exactly if no kind exceeds its budget |

## Left out

- Conversation: the per-id start lock of resumption (without it there are more interleavings, and the theorems hold for all of them), Manager.Close, ephemeral turns, MCP tokens, citations and transcripts; which conversations count as idle is a free choice of the reaper.
- ConversationSafety.NoForeignClose: says nothing of Manager.Close, which closes every session unconditionally.
- AstSearch: the text form of cursors (JSON, base64, length limit), the request hash as a digest, cancellation of the context and warnings.
- AstSearch.PagesRefineScan: is about a fixed index and fixed outcomes of reading and querying each file.
- ContextFileCache: the listing itself; a loader may fail at any time, and succeeds with what the revision holds.
- SearchScopes: Windows path separators; paths are slash-separated. The queries that the search engine makes of scopes are stated as what they let through at most.
- QueryFilters: parsing of the query and of numbers, trimming and case folding of text, and filters that do not concern repositories.
- OsvRanges: "limit" events, events that set several fields, the range label, package name normalization, and version systems that are not supported.
- OsvBlockSort: how Go's stable sort merges two blocks in place; its merge is any that keeps the order within either block and sorts sorted blocks where the comparator is transitive. Ranges are sorted by insertion, which is the same for events that alternate.
- OsvFixes.AffectedVersion: agreement with the OSV evaluation is stated for ranges whose events are distinct versions that alternate when sorted.
- AdvisoryPool: pacing delays, HTTP, progress reports and the sort of the output; ids are positions in the list of distinct ids.
- Findings: severity, scores, evidence links, the list of at most 100 gaps, and the order of the merged findings and of their occurrences.
- Globs: the text of regular expressions; an expression is a tree, and a bracket expression an opaque set of characters that Go reads as one class.
- IgnoreRules: reading the file and its size limit; text is ASCII.
- IgnoreFiles.LoadIgnoreScope: splitting the file into lines.
- IgnoreWalk: errors of the file system, which end the walk, and the final sort of the repositories; a path is the list of its names below the root.
- Topology: display fields (names on connections, evidence, times, latency, provider and environment of merged metrics, warnings), the text of connection keys, the order of the origins of a component, and 64-bit overflow of counters.
- Topology.Assemble: the filters of a request are arbitrary predicates on connections, components and references.
- Neighborhood: roles of components, labels of groups, staleness, and the sorts by id (so that of more than 12 possible references the first 12 are shown, not those of the least ids); a tie in usefulness is broken by an arbitrary order of ids.
- JavaComments: decoding; the lexer works on single characters as the program works on bytes.
- StructuralBudget: analysis of a file, node kinds and diagnostics, which have no budget.
- Tree-sitter, Zoekt, SCIP, provider adapters, Wiki generation, ranking, citations, configuration, storage, command line and front end are not part of this model.
