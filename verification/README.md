# Verified model of ragota's indexing, linking and retrieval core

ragota indexes source repositories into a code graph and answers questions about them. This project
models the parts where a fast, incremental or batched form has to agree with a simple one, or where
several workers share state, and proves that agreement in Dafny. `dafny verify dfyconfig.toml` checks
all of it.

| files | what they model |
|---|---|
| `JobQueue`, `BatchFate`, `CursorRace` | the distributed commit queue: enqueue, claim, release, heartbeat expiry, completion, repository claim, cursor advance; every interleaving of workers is a run |
| `Edges`, `ConfigRefs`, `KafkaFlows` | the topic edges of the graph, the two-phase rewrite of edge groups, and the incrementally maintained join of producers and consumers |
| `ContractLinks`, `ContractIndex`, `ContractPass`, `LinkTargets`, `RouteTargets` | linking contract edges to contract units, found through hash indexes, by buffered writes, with a disambiguator that may answer anything; where each kind of edge ends up, told on names |
| `Units`, `Words`, `ConfigKeys`, `Receivers`, `Routes`, `ContractKeys` | word, bucket and segment-count indexes against full scans; contract keys and their reduction |
| `IndexPass`, `Failures`, `CommitPlan`, `WalkRules` | full index passes with and without the hash check, pinning failures on files, the incremental pass of a pushed batch, and the two under one set of ignore rules |
| `SqlLike`, `SqlBuilder`, `UnitLookup` | LIKE, placeholder numbering, and the two-statement symbol lookup |
| `Hits`, `Fusion`, `FusionAnswers`, `FusionCorner`, `Rerank`, `Spans` | clustering and fusing hits, blending reranker scores, collapsing overlapping spans |
| `PathSearch`, `Trace` | bounded breadth-first search, and the budgeted depth-first parameter trace |
| `Gitignore`, `IgnorePatterns` | ignore rules and the verdict caches around them |
| `SymbolCache` | the bounded hand-over cache of parsed symbols |
| `Bags`, `Sorting`, `Strings`, `Wrappers` | multisets, Go's sort contracts, the few string functions needed, values that may be missing |

Conventions. Scores and confidences are reals. Strings are sequences of ASCII characters. A store call
that can fail is a method whose outcome is left open. Objects the program updates in place (the edge
table, the resolution writer, the index, the query builder, the loader, the tracer, the ignore rules,
the symbol cache) are classes; pointers into a list the program is still building (fusion clusters,
kept spans) are positions in it.

## Where the code and its documentation differ

The model follows the code. Where a documented property fails, a lemma names how, and another says
when it holds.

- The symbol cache's comment says entries are evicted oldest-first. A key that was taken and put again
  keeps its stale first place, so the newest entry can be the one that goes
  (`SymbolCache.ReputEvictsNewest`). Live entries are as old as their last places say, and the evicted
  one is the oldest exactly when its last place comes before those of all others
  (`SymbolCache.EvictsOldestIff`); while no taken key comes back it always is.
- Fusion's comment says only hits of different searchers are merged. A searcher's second hit joins a
  cluster that already holds one of its hits exactly when its key is that of the hit that opened it
  (`FusionCorner.SameSourceCanMerge`, `Fusion.SameSourceSharesIffKey`).
- Merging spans is described as covering the merged lines. A kept hit that knows only its start loses
  lines up to that start to a hit that ends on it (`Spans.StartOnlyLosesLine`,
  `Spans.WidenKeepsLinesIff`), for good if nothing else covers them (`Spans.MergingKeepsLinesIff`);
  input in which no hit ends on an earlier start-only one loses nothing (`Spans.SafeStartsKeepLines`).
- Blended rerank scores are said never to dip below the best tail score. When the reranker scores all
  documents alike the fusion scores are kept, and then the head is above the tail only if it was before
  (`Rerank.TiedRerankStaysBelowTail`, `Rerank.RerankedDescendsIff`).
- A push is said to produce the index a full pass would. It asks about each file alone, while the walk
  also prunes directories: .git, and any a configured pattern excludes, perhaps without excluding the
  files in it (`CommitPlan.IncrementalIndexesIff`, `WalkRules.ConfiguredPushIndexesIff`,
  `WalkRules.NeverPartIff`, `WalkRules.NamedDirParts`).
- Files an indexer failed on are said to stay unindexed and be retried. They keep the row they had, and
  the next pass skips them if that row carries the hash of the content it finds
  (`IndexPass.FailedFileIsSkipped`, `IndexPass.FailedFileIsRetriedIff`).
- A failure is pinned on the text before the first ": " of its entry, which for a file whose own name
  begins with another batch file's name and ": " is the wrong file (`Failures.ShadowedFailureGoesAstray`,
  `Failures.FailureIsMarkedIff`).
- The cursor is said to advance along parents. The cursor is read before the repository is claimed, and
  a batch that lands in between breaks the chain (`CursorRace.InterposedLandingBreaksChain`,
  `JobQueue.CursorHistoryIsParentChain`).
- A link that fails is retried with what it has already resolved no longer counted as touched, so flows of
  other repositories on those topics stay behind until something rebuilds the topic
  (`KafkaFlows.DefaultedTopicStaysBehind`, `KafkaFlows.LinkRepairsIff`,
  `KafkaFlows.RetryRebuildsOwnTopics`).
- A comment in the worker says the repository claim cleared the pending commit; the claim statements do
  not, and neither does the model's step.

## Model

| member | source | states |
|---|---|---|
| `JobQueue.StepEvolvesJob` | internal/store/interface.go:141-194 | one step changes an existing job only in the ways the store contract allows: a pending job leaves the queue only by being claimed, a claim is renewed only by its holder, a running job goes back only when its holder releases it or a sweep finds it stale, a commit job finishes only by its holder's successful completion with the holder's outcome, and a commit batch is never altered |
| `JobQueue.StepAddsJobs` | internal/store/interface.go:141-147 | a step adds at most one job, under the next id, and never removes one |
| `JobQueue.RunKeepsValid` | internal/app/jobs.go:240-350 | in every run from a consistent queue every worker holds a job that exists with the body it was claimed with, ids are unique and at most one plain index job per repository is pending |
| `JobQueue.CommitJobsSurvive` | internal/store/interface.go:143-147 | through any interleaving of pushes, claims, crashes, stale sweeps and releases a commit job stays queued under its repository with its batch |
| `JobQueue.CommitResultWrittenOnce` | internal/app/jobs.go:209-235 | a commit job that ends finished was finished by exactly one step of the run, the successful completion by the worker the queue showed as its holder, and carries that worker's outcome from then on |
| `JobQueue.OldestStaysOldest` | internal/store/interface.go:155-161 | the oldest unfinished commit job of a repository stays the oldest until it finishes |
| `JobQueue.OldestIsNeverBlocked` | internal/app/jobs.go:255-304 | from the moment a commit job is its repository's oldest unfinished one, no ordering check ever answers that it waits for a predecessor |
| `JobQueue.PassesNeverOverlap` | internal/store/interface.go:115-120 | in every run where no claim outlives its time to live two workers are never inside passes over one repository |
| `JobQueue.RunKeepsHistory` | internal/app/commits.go:204-237 | every cursor write of such a run replaced the target of the write before it and was made under the claim that saw exactly that cursor |
| `JobQueue.CursorHistoryIsParentChain` | internal/app/commits.go:95-106 | a landing's first commit is a child of the previous cursor exactly when its batch continues the cursor found at the repository claim, and always when nothing landed between read and claim |
| `BatchFate.DoneIsAppliedOrCovered` | internal/app/jobs.go:240-350 | in every run a commit job that is done either had a pass over its own batch end, from a cursor its worker read that was empty or a parent of the first commit, or was given up when the cursor its worker had read earlier in the run was one of its commits |
| `BatchFate.CursorDecides` | internal/app/commits.go:521-531 | with the row read, a worker claims the repository if and only if the cursor is empty or a parent of the first commit, gives the job up if and only if otherwise the cursor is a commit of the batch, and looks for a predecessor if and only if it is neither |
| `BatchFate.PredecessorDecides` | internal/app/jobs.go:262-291 | a batch that has to wait is released if an older unfinished one of its repository is in the queue, and otherwise ends as a gap |
| `BatchFate.AppliedMovesCursor` | internal/app/commits.go:204-237 | the write that ends a pass leaves the cursor at the batch's last commit, or fails and leaves every repository alone |
| `BatchFate.ClaimTakesOldest` | internal/store/interface.go:159-162 | a claim takes the oldest pending job and changes no other |
| `CursorRace.InterposedLandingBreaksChain` | internal/app/jobs.go:255-304 | a run of two workers holding the same pushed batch whose second landing replaces a commit that is not its parent |
| `Edges.EdgeTable.DeleteByKindAndDst` | internal/store/interface.go:82 | removes exactly the edges of one kind and destination name, or on failure none |
| `Edges.EdgeTable.BatchStoreEdges` | internal/store/interface.go:75 | adds all of the given edges, or on failure none |
| `ConfigRefs.RewriteEdgeGroups` | internal/graph/linker.go:922-956 | every group is deleted before any is re-inserted; the table afterwards is the old one without the deleted groups plus the re-inserted ones, and the error count is the number of groups with edges that were not re-inserted |
| `ConfigRefs.RewriteConserves` | internal/graph/linker.go:905-956 | whatever failed, the table is the old one with every edge of a deleted group renamed, less the groups that could not be stored again; no edge is ever duplicated, whichever keys the new names land on |
| `ConfigRefs.RewriteKeepsSize` | internal/graph/linker.go:905-956 | the rewritten table has as many edges as the old one, less those of the groups that could not be stored again |
| `ConfigRefs.ResolveAllResolves` | internal/graph/linker.go:105-170 | every edge is resolved on its own: a topic edge whose destination, or recorded topic, is a reference to a key is moved to the key's configured value if there is one, otherwise to the usable default, otherwise stays, and no other edge moves |
| `ConfigRefs.ResolveConfigRefs` | internal/graph/linker.go:105-170 | without errors each edge has been resolved as its own reference, key and default say, and the table is otherwise the old one; whatever failed, only groups whose insert failed are missing and only edges of deleted groups are renamed; the touched topics are exactly the names edges moved from and to |
| `ConfigRefs.SecondRunSettles` | internal/graph/linker.go:105-170 | resolving an edge again changes nothing if and only if its resolved value is no reference, or one without a value, or one that resolves to itself |
| `ConfigRefs.PlainValuesSettle` | internal/graph/linker.go:105-170 | values that are not themselves references make a second run a no-op |
| `ConfigRefs.ResolveTwice` | internal/graph/linker.go:105-170 | what the whole second run does to the table, edge by edge |
| `KafkaFlows.JoinOfSelected` | internal/graph/linker.go:1358-1445 | selecting flows by a property of their two ends is joining the selected producers and consumers |
| `KafkaFlows.StepKeepsView` | internal/graph/linker.go:1358-1445 | an index pass, a link, a link of everything or a link that failed anywhere keeps the stored flows between clean repositories, off the topics a failure left behind, equal to the join of producers and consumers |
| `KafkaFlows.RunKeepsView` | internal/graph/linker.go:1358-1445 | so does every interleaving of them, for any repositories |
| `KafkaFlows.IncrementalEqualsFull` | internal/graph/linker.go:1358-1445 | once every repository has been linked since its last pass and every topic a failed link left behind has been rebuilt, the flows with a destination are those a rebuild from scratch would store |
| `KafkaFlows.IncrementalFlowsArePairs` | internal/graph/linker.go:1358-1445 | on the fields: every such flow leads from a producer to a consumer of its topic with the repository, file, line and meta of the producer and the repository of the consumer, and every such pair has its flow |
| `KafkaFlows.LinkRepairsIff` | internal/graph/linker.go:1358-1445 | whatever went before, a link leaves a flow as the join has it if and only if it rebuilds the flow's topic or the flow was right already |
| `KafkaFlows.RetryRebuildsOwnTopics` | internal/graph/linker.go:70-93 | a link tried again after one that resolved the references and then failed rebuilds the topics of the repository's own edges and flows only |
| `KafkaFlows.FailedLinkStaysBehind` | internal/graph/linker.go:1358-1445 | a producer's reference is resolved onto a consumer's topic by a link that then fails: from a view that was right, the link of a third repository does not store their flow |
| `KafkaFlows.DefaultedTopicStaysBehind` | internal/graph/linker.go:1358-1445 | a table of two edges on which that happens |
| `KafkaFlows.JoinedTopicHasPairs` | internal/graph/linker.go:1405-1445 | the join of a topic has exactly one flow for each pair of a producer and a consumer of it, from the one to the other |
| `KafkaFlows.OnePassEqualsFull` | internal/graph/linker.go:1358-1445 | in particular after one repository's pass, whose own flows may be dropped and flows into it cleared, and its link |
| `KafkaFlows.DeriveKafkaFlows` | internal/graph/linker.go:1358-1445 | every rebuilt topic, the affected ones or all of them, has for each pair of its producers and consumers one flow from the producer's unit to the consumer's and no other, and the other flows are left alone; however it fails, only flows on those topics have changed |
| `KafkaFlows.LinkTopics` | internal/graph/linker.go:70-93 | resolving references and then rebuilding flows is the link step the view theorem speaks of, and leaves on the rebuilt topics the pairs of their producers and consumers; given up or failed anywhere it is the failed link |
| `KafkaFlows.AffectedTopics` | internal/graph/linker.go:1358-1400 | the affected topics are those of the repository's own edges and flows and those the reference pass touched |
| `KafkaFlows.AffectedIs` | internal/graph/linker.go:1358-1400 | a topic is affected if and only if the reference pass touched it, the repository has an edge of a topic kind on it, or a stored flow on it ends in the repository |
| `ConfigKeys.ScanFindsBest` | internal/graph/linker.go:245-269 | the scan returns a matching key that no other key beats by score or, at the same score, by qualified name |
| `ConfigKeys.LoadOrderMattersOnlyOnTies` | internal/graph/linker.go:207-269 | the value is independent of the order keys were loaded in if and only if keys tied for the win hold the same value |
| `ConfigKeys.BuildConfigIndex` | internal/graph/linker.go:207-227 | each bucket lists, in load order, exactly the keys filed under its word |
| `ConfigKeys.BucketScanIsFullScan` | internal/graph/linker.go:245-269 | scanning the bucket of a reference's last word finds what scanning every key finds |
| `ConfigKeys.MatchConfigKeyIndexed` | internal/graph/linker.go:245-269 | the indexed lookup returns the value of the full scan |
| `ConfigKeys.ValueIsOfAnsweringKey` | internal/graph/linker.go:229-280 | the value is that of a key whose path ends in the reference's words or whose leaf, of enough words, ends them, such that no other is preferred: path matches come first, then the repository's own, then the smaller qualified name; it is empty if no key matches |
| `Receivers.UnitComponents.BuildTailIndex` | internal/graph/linker.go:491-542 | the tail index of a candidate list holds under each word the places of the candidates that end in it, in order |
| `Receivers.UnitComponents.OwnedBy` | internal/graph/linker.go:512-542 | the owned candidates, found through the index, are exactly those whose owner matches the receiver, in order |
| `Receivers.ReceiverStandsBefore` | internal/graph/linker.go:544-560 | a receiver owns a unit if and only if its words stand right before as many words as the unit's own name has, at the end of the qualified name |
| `Words.WordsSpellName` | internal/contract/ident.go:104-178 | the words of a name, put together, are its letters and digits in lower case: none is lost, added or moved |
| `Words.SeparatorCuts` | internal/contract/ident.go:109-113 | a character of no identifier separates words |
| `Words.CaseCuts` | internal/contract/ident.go:151-175 | an underscore, a capital after anything but a capital, and a capital before a small letter begin a new word |
| `Words.OtherwiseWhole` | internal/contract/ident.go:151-175 | an identifier with no such place is one word |
| `Routes.RouteMatchScoreSegs` | internal/graph/linker.go:1303-1329 | the early-exit loop computes the product of the segment scores and the method factor |
| `Routes.SegmentScoreGrows` | internal/graph/linker.go:1303-1329 | reducing two segments never lowers their score |
| `Routes.PathScoreGrows` | internal/graph/linker.go:1303-1329 | nor that of two paths of equal length |
| `Routes.ReductionKeepsMatches` | internal/contract/contract.go:74-129 | a positive score on two paths is positive and no smaller on their reduced forms, which have as many segments |
| `Routes.BuildRouteIndex` | internal/graph/linker.go:656-667 | the bucket of n holds, in load order, the parsed routes of n segments |
| `Routes.BucketLosesNoRoute` | internal/graph/linker.go:1074-1107 | scoring the bucket of the call's segment count yields every candidate scoring all routes yields, in order |
| `Routes.RouteCandidates` | internal/graph/linker.go:1074-1107 | the candidates are those of the full scan, sorted by score, repository and place |
| `ContractKeys.ReduceSegment` | internal/contract/contract.go:94-129 | the character loop computes the segment's reduction |
| `ContractKeys.ReducePath` | internal/contract/contract.go:82-91 | the segment loop computes the path's reduction |
| `ContractKeys.ReductionIsIdempotent` | internal/contract/contract.go:94-129 | reducing twice is reducing once if and only if the segment hides no parameter marker behind leading closing braces |
| `ContractKeys.BalancedReductionIsIdempotent` | internal/contract/contract.go:94-129 | in particular for a segment with no closing brace outside a group |
| `ContractKeys.GroupReduces` | internal/contract/contract.go:94-129 | a group in braces after plain text becomes an empty one and the rest is reduced on its own |
| `ContractKeys.HTTPRoundTrip` | internal/contract/contract.go:65-72 | reading a built key back gives the normalised method and the reduced path if and only if the method has no space in it |
| `ContractLinks.ConfidenceSettlesIff` | internal/graph/linker.go:767-776 | any number of unresolve and re-resolve cycles at one tier leaves the confidence of the first if and only if the base was recorded or the tier's factor cannot change it |
| `ContractLinks.CandidatesAreUnits` | internal/graph/linker.go:1074-1262 | every candidate of an edge, in each tier, is a contract unit that was loaded |
| `LinkTargets.RPCEdgeLinks` | internal/graph/linker.go:1118-1160 | an rpc edge the pass has handled points into the units of its very service and method if there are any, otherwise those of a service of that name in some package, otherwise those of the method, otherwise nowhere; at 0.95 of the parser's confidence exactly for a single one of the first two kinds |
| `LinkTargets.ParseGRPCIs` | internal/contract/contract.go:172-186 | a key is read as a service and a method if and only if it is spelled with the two, or with the method alone |
| `LinkTargets.TableEdgeLinks` | internal/graph/linker.go:1215-1262 | a table edge the pass has handled points into the tables of its very key, otherwise those of its bare name, otherwise those declared for an entity it is derived from, the repository's own first in each, at the stated factors |
| `RouteTargets.HTTPEdgeLinks` | internal/graph/linker.go:1070-1107 | an http edge the pass has handled points at a route that fits it and none fits better, or, where the two best are close, perhaps another that fits; without one nowhere |
| `RouteTargets.ScoreIsWorth` | internal/graph/linker.go:1287-1329 | a route scores above nothing if and only if it has as many segments and each pair of them agrees or has a parameter, and verbs agree or one is ANY; it then scores 0.95, times 0.8 where verbs fit by ANY only, times 0.95 for each segment that fits by a parameter only |
| `RouteTargets.AmbiguousRoutesAreClose` | internal/graph/linker.go:1109-1116 | a pick is allowed if and only if the best two are within 0.05 and alike in lying in the repository or not |
| `ContractIndex.BuildRPCIndex` | internal/graph/linker.go:644-654 | the bucket of a method name holds, in load order, the units exposing it with their services |
| `ContractIndex.BucketHoldsTiers` | internal/graph/linker.go:1118-1160 | sorting one bucket into tiers gives the exact, suffix and same-method units of the full scan, in order |
| `ContractIndex.LookupRPC` | internal/graph/linker.go:1118-1160 | the lookup through the index finds the candidates and confidence of the full scan, whose tiers are told on names above |
| `ContractIndex.BuildTableIndex` | internal/graph/linker.go:683-711 | the three maps hold, in load order, the tables a key names in full, by its bare name, and through an entity |
| `ContractIndex.LookupTable` | internal/graph/linker.go:1215-1262 | the first non-empty tier of the three buckets, own tables first, gives the candidates and confidence of the full scan |
| `ContractPass.ResolutionWriter.Add` | internal/graph/linker.go:384-389 | a resolution is queued, or the queue with it is written; nothing is counted twice |
| `ContractPass.ResolutionWriter.Flush` | internal/graph/linker.go:393-413 | every queued resolution ends up applied or counted as an error; without an error all are in the table |
| `ContractPass.WritesCommute` | internal/graph/linker.go:778-903 | writing two buffers that name different edges gives the same table in either order |
| `ContractPass.RankedCandidates` | internal/graph/linker.go:778-903 | the ranked candidates are the candidates, none of them ranked above the first |
| `ContractPass.DisambigRun.Disambiguate` | internal/graph/linker.go:979-1003 | whatever the disambiguator answers, and from the cache or not, the pick is one of the candidates, and no more than twenty calls are made in a run |
| `ContractPass.Pass.LinkEdge` | internal/graph/linker.go:778-903 | one edge is left alone, cleared or pointed at an unbeaten candidate, or, where candidates are ambiguous, at a picked one; a settled edge is not written |
| `ContractPass.PassSettles` | internal/graph/linker.go:778-903 | an edge the pass has handled points at an existing unit, or at nothing for want of a candidate |
| `ContractPass.ResolveContracts` | internal/graph/linker.go:778-903 | without a failed write every edge ends as the pass says for its candidates, picks made only where they are ambiguous, and is settled, whatever the disambiguator answered; over a settled table the run writes nothing |
| `Failures.AttributeFailures` | internal/app/indexing.go:570-585 | marks the files the entries name by their text before the first ": " and counts the entries that name one |
| `Failures.FailureIsMarkedIff` | internal/app/indexing.go:403-437 | a single failure ends up marked, by name or with its whole batch, if and only if no other batch file's name and ": " begin its own |
| `Failures.OnlyItIsMarked` | internal/app/indexing.go:570-585 | a failure of a file without ": " in its name marks that file and no other |
| `Failures.ShadowedFailureGoesAstray` | internal/app/indexing.go:570-585 | a batch of two files in which the failure of one is pinned on the other |
| `Failures.EveryFailureIsMarked` | internal/app/indexing.go:403-437 | without such names every broken file is marked, however few failures the indexer reports, when some are of no file and when a file is counted and named more than once |
| `IndexPass.Index.IndexFileSet` | internal/app/indexing.go:366-437 | files no indexer is marked for get a row of their content; failed files keep the row they had; other paths are untouched |
| `IndexPass.Index.RemoveIndexedPaths` | internal/app/indexing.go:758-774 | the given paths go and, however it ends, no other path changes |
| `IndexPass.Index.RemoveStaleFiles` | internal/app/indexing.go:732-754 | what has a row and is not listed goes |
| `IndexPass.Index.ScanBatch` | internal/app/indexing.go:688-727 | exactly the readable files whose stored hash is missing or different are read in, all of them when forced |
| `IndexPass.Index.DoIndex` | internal/app/indexing.go:152-323 | over windows of 512 files, and told on rows and holdings: what is not listed is swept, an unreadable file or one with the hash of its contents in an indexed row is as it was, any other has a row and holdings of its contents unless it failed; with nothing failed it is the clean pass of the theorems below |
| `IndexPass.PassIndexesIff` | internal/app/indexing.go:152-323 | a pass on which nothing failed leaves the index of the tree if and only if no stored hash matches over other contents and nothing unlisted is held without a row |
| `IndexPass.SkippingChangesNothing` | internal/app/indexing.go:688-727 | from a consistent state, with a collision-free hash, a pass that skips unchanged files ends where a forced one does, and consistent again |
| `IndexPass.FailedFileIsRetriedIff` | internal/app/indexing.go:346-437 | the pass after a failure repairs the file if and only if it is forced or the row that was kept does not carry the hash of the content found |
| `IndexPass.FailedFileIsSkipped` | internal/app/indexing.go:346-437 | a forced pass that fails on an unchanged file, after which the next pass skips it and nothing of it is held |
| `CommitPlan.MergeCommitPlan` | internal/app/commits.go:271-289 | the plan holds exactly the paths the commits mention, each as the last change of the last commit that mentions it says: deleted or renamed away, or with its contents; it is the plan of the changes in order |
| `CommitPlan.LastMentionDecides` | internal/app/commits.go:268-289 | the last change that mentions a path plans its deletion if it deletes it or renames it away to another path, and otherwise its contents; a rename onto itself is contents only |
| `CommitPlan.LastMentionIsHeld` | internal/app/commits.go:268-289 | and it is what replaying the changes one by one leaves there: nothing, the pushed contents, or those on disk |
| `CommitPlan.PlanIsReplay` | internal/app/commits.go:271-289 | at every path whose last word can be read the plan says what replaying the changes one by one leaves there, whatever the earlier changes found |
| `CommitPlan.ApplyPlan` | internal/app/commits.go:317-419 | in any map order, planned deletions and ignored paths go, readable upserts are indexed, and only paths of the plan are touched however it ends; with nothing unapplied it is the clean pass of the theorems below |
| `CommitPlan.CleanApplyLeaves` | internal/app/commits.go:317-419 | applied cleanly, a path whose last change deletes it or renames it away has no row and no holdings, an ignored one neither, one of a known language has a row and holdings of the contents it now has, any other is as it was |
| `CommitPlan.RenameMoves` | internal/app/commits.go:268-289 | after a clean push of a rename the old path is gone from rows and holdings and the new one is indexed |
| `CommitPlan.DoApplyCommits` | internal/app/commits.go:291-299 | merging and applying a batch leaves every path as its last change says, and those no change mentions as they were |
| `CommitPlan.IncrementalIndexesIff` | internal/app/commits.go:302-419 | applying the plan to the index of a tree, or to what interrupted attempts left of it, gives the index of the replayed tree if and only if the walk keeps every file taken in |
| `CommitPlan.PushEqualsFullPass` | internal/app/commits.go:317-326 | a push and a full pass over the pushed tree, forced or not, leave the same rows and holdings |
| `WalkRules.HandedOutIff` | internal/repos/walk.go:34-106 | a file that is not ignored itself is handed out by the walk if and only if no component of its path is .git and no configured pattern excludes a directory above it |
| `WalkRules.ConfiguredPushIndexesIff` | internal/app/commits.go:317-326 | under one configuration a push leaves the index of the pushed tree if and only if no file it takes in has .git in its path or lies below a directory a configured pattern excludes |
| `WalkRules.NeverPartIff` | internal/repos/walk.go:79-106 | push and full pass agree on every plan that stays out of .git if and only if the configured patterns exclude the files below every directory they exclude, where the checkout does not; with none configured they always agree |
| `WalkRules.NamedDirParts` | internal/config/ignore.go:154-183 | the pattern vendor and a pushed vendor/x: the push takes it in and the walk does not |
| `SqlLike.LikeIsContainment` | internal/store/query.go:548-551 | LIKE of an escaped term between percent signs holds of a text if and only if the term occurs in it |
| `SqlLike.FoldedLikeIsContainment` | internal/store/query.go:131-136 | the same with both sides lower-cased by the engine |
| `SqlLike.EqualFoldContains` | internal/store/query.go:122-126 | a name equal to the term up to case contains it |
| `SqlBuilder.PenaltyIsMarkers` | internal/store/query.go:402-410 | the penalty condition in the statement text is the marker test on the path |
| `SqlBuilder.AddsCompose` | internal/store/query.go:92-105 | two additions to a builder together bind their arguments in order and ask for both their conditions |
| `SqlBuilder.Builder.Where` | internal/store/query.go:108-199 | adds one comparison (equal, at most, at least or ending with) binding one new argument |
| `SqlBuilder.Builder.AmongIf` | internal/store/query.go:158-179 | adds a membership test binding one argument a value, or nothing for no values |
| `SqlBuilder.Builder.NameTerm` | internal/store/query.go:122-154 | adds one condition satisfied when any column equals, or contains, the term up to case, the argument bound once a column |
| `SqlBuilder.Builder.Suffix` | internal/store/query.go:184-189 | adds an exact suffix test |
| `UnitLookup.UnitFilters` | internal/store/query.go:268-314 | the conditions added ask a row exactly for what the options and the tier demand |
| `UnitLookup.UnitTermConds` | internal/store/query.go:348-354 | the exact conditions are returned with their arguments registered and the WHERE clause unchanged |
| `UnitLookup.UnitQuery` | internal/store/query.go:447-458 | the statement selects the tier's rows but the excluded, ranks them as the tier does, and its n-th placeholder in text order binds the n-th argument |
| `UnitLookup.RankingIsUnique` | internal/store/query.go:378-427 | the ranking orders any set of rows in one way only |
| `UnitLookup.BestComeFirst` | internal/store/query.go:480-508 | rows that rank before all others begin every ranked list |
| `UnitLookup.HandWrittenComesFirst` | internal/store/query.go:226-251 | the first statement finds a part of the containing rows, all of it ranked before the rest |
| `UnitLookup.RestIsExcluded` | internal/store/query.go:494-502 | excluding the first page's ids leaves exactly the other containing rows |
| `UnitLookup.RankIs` | internal/store/query.go:358-427 | a row ranks before another by path penalty, then exactness for a contained term, then length of the name, then repository, file, line, byte, kind, name, qualified name and id, each ascending |
| `UnitLookup.QueryUnits` | internal/store/query.go:480-508 | the answer holds rows that answer the options, by name, or by containment if none does and the fallback is on, ranked by penalty, exactness, length of the name and place, up to the limit, and omits one only behind a full page; with fallback, a limit and a term the two statements return what one query over all containing names would |
| `Hits.KeyTextIsInjective` | internal/index/interface.go:266-268 | while repository ids hold no colon equal key strings mean the same span of the same file |
| `Hits.FileTextIsInjective` | internal/search/hybrid.go:266 | while repository ids hold no NUL equal file keys mean the same file |
| `Hits.IndexGrows` | internal/search/hybrid.go:268-282 | filing one more place keeps every file's list complete and in order |
| `Spans.WidenKeepsLinesIff` | internal/search/hybrid.go:286-296 | a widened hit covers exactly the lines of both, except when a start-only hit is moved up by one that ends at its start |
| `Spans.MergingKeepsLines` | internal/search/hybrid.go:253-302 | the lines of the input are exactly those of the answer and those some step lost by moving a start-only hit |
| `Spans.MergingKeepsLinesIff` | internal/search/hybrid.go:253-302 | a file keeps exactly its covered lines if and only if every line lost on the way is covered by some kept hit in the end |
| `Spans.SafeStartsKeepLines` | internal/search/hybrid.go:253-302 | input in which no hit ends exactly where an earlier start-only hit of its file starts keeps the covered lines of every file |
| `Spans.ProperHitsKeepLines` | internal/search/hybrid.go:253-302 | for hits with an end the covered lines of every file are the same before and after |
| `Spans.StartOnlyLosesLine` | internal/search/hybrid.go:286-296 | two hits whose merge leaves a line uncovered |
| `Spans.KeptHitsMayOverlap` | internal/search/hybrid.go:253-302 | one pass is not a closure: three hits after which two kept ones overlap |
| `Spans.MergePartitions` | internal/search/hybrid.go:253-302 | every non-nil hit belongs to exactly one kept hit, which is its first member widened, and the kept hits come in the order of those |
| `Spans.MergeKeepsScoreOrder` | internal/search/hybrid.go:226-302 | scores that descended along the input descend along the answer |
| `Spans.MergeSpans` | internal/search/hybrid.go:253-302 | the pass over per-file lists merges as a scan over all kept hits would; kept and merged add up to the non-nil hits |
| `Fusion.ReasonsStayUnique` | internal/search/hybrid.go:614-628 | reasons are kept in first-seen order, none twice and none lost |
| `Fusion.ClustersAreDescribed` | internal/search/hybrid.go:554-610 | each cluster's score is the sum of its members' contributions, its hit the best ranked of them, its sources theirs, all in one file |
| `Fusion.FusionConservesScore` | internal/search/hybrid.go:554-610 | the fused scores sum to everything contributed |
| `Fusion.FusionIsClustering` | internal/search/hybrid.go:554-610 | each hit enters exactly one cluster, clusters are as described, and one searcher's hits share a cluster exactly by the key rule below |
| `FusionAnswers.HomeDecided` | internal/search/hybrid.go:544-610 | a hit goes to the first cluster opened on its very span, otherwise to the first that shares a line with it and has nothing of its searcher, otherwise it opens one |
| `FusionAnswers.EntriesAre` | internal/search/hybrid.go:554-570 | what is fused is exactly the non-nil hits of the lists, each with its searcher and place |
| `FusionAnswers.AnswerIsBestHit` | internal/search/hybrid.go:554-610 | a cluster is answered with its best ranked hit at the sum of what its hits are worth |
| `FusionAnswers.ReasonsAreGiven` | internal/search/hybrid.go:614-628 | the reasons of a cluster are, each once, the trimmed parts of those its hits give, or their searchers where they give none |
| `FusionAnswers.AnswerSaysReasons` | internal/search/hybrid.go:614-628 | read between its plus signs the reason of an answer is that list |
| `Fusion.SameSourceSharesIffKey` | internal/search/hybrid.go:544-610 | two hits of one searcher share a cluster if and only if the later has the key of the hit that opened it |
| `FusionCorner.SameSourceCanMerge` | internal/search/hybrid.go:544-553 | three hits of two searchers that all end in one cluster |
| `Fusion.RanksSeparateIff` | internal/search/hybrid.go:47-57 | every rank of one source is worth less than every rank of another if and only if the weights are that far apart |
| `Fusion.RepeatsSeparateIff` | internal/search/hybrid.go:47-57 | every rank of one source is worth more than m hits of another if and only if the weights are that far apart |
| `Fusion.WeakSourceNeverContributes` | internal/search/hybrid.go:47-57 | then every cluster of m hits that only the weaker source found, keys repeated or not, scores below every cluster the stronger one has a hit in |
| `Fusion.WeakUnrepeatedSource` | internal/search/hybrid.go:47-57 | in particular, while the weaker source repeats no key, at one weight against the other |
| `Fusion.LegBounds` | internal/search/hybrid.go:504-526 | the loop finds the bounds of a leg's scores, both attained |
| `Fusion.NormalisedScale` | internal/search/hybrid.go:528-541 | inside its leg a hit is worth between nothing and the full weight, the best one all of it, in score order |
| `Fusion.SortHits` | internal/search/hybrid.go:655-668 | the answer is a permutation, given place by place, sorted by score, then file and line |
| `Fusion.FuseBy` | internal/search/hybrid.go:554-610 | with key and file indexes over positions the loops build the clusters a scan would, and return them sorted, each in one place |
| `Fusion.OutweighedStandsBehind` | internal/search/hybrid.go:47-57 | among the sorted clusters, every one that only an outweighed searcher found stands behind every one the other has a hit in |
| `Fusion.FuseRRF` | internal/search/hybrid.go:465-473 | the clusters under reciprocal rank contributions, each in one place of the sorted answer, a zero rank constant meaning the default; whenever m hits of one searcher, at any of n ranks, weigh less than one of another, and it has no cluster of more to itself, all it found alone stands behind all the other found |
| `FusionAnswers.SortedIsInOrder` | internal/search/hybrid.go:655-668 | the answer descends by score, then ascends by repository, path and line |
| `FusionAnswers.FuseConvex` | internal/search/hybrid.go:504-541 | the clusters under scores scaled inside each searcher's last list, between bounds that are attained, in answer order |
| `FusionAnswers.ConvexKeepsLegOrder` | internal/search/hybrid.go:475-541 | there a hit is worth between nothing and the weight, and of two of a list the better scored one no less |
| `Fusion.PlacesFollowScores` | internal/search/hybrid.go:655-668 | a lower score means a later place |
| `Rerank.BlendIsMonotone` | internal/search/hybrid.go:792-797 | blending is strictly monotone in the rerank score |
| `Rerank.BlendingRanksAsReranker` | internal/search/hybrid.go:792-854 | unless all rerank scores tie, blended scores rank the head as the reranker did, inside the target range, none below a tail score |
| `Rerank.RangeStarts` | internal/search/hybrid.go:798-838 | the range starts at the worst head score or the best tail score, whichever is higher |
| `Rerank.RangeEnds` | internal/search/hybrid.go:798-838 | it ends at the best head score, or where that leaves no room just above its start |
| `Rerank.BlendedEnds` | internal/search/hybrid.go:792-854 | the reranker's favourite is blended onto the end of the range and its last onto the start |
| `Rerank.BlendRerankScores` | internal/search/hybrid.go:798-854 | the loops compute the blended scores, the degenerate range included |
| `Rerank.HeadFollowsReranker` | internal/search/hybrid.go:715-780 | the head comes in rerank order, ties by fusion rank |
| `Rerank.TiedRerankKeepsOrder` | internal/search/hybrid.go:798-838 | a reranker that scores everything alike leaves a descending head in place |
| `Rerank.RerankedDescendsIff` | internal/search/hybrid.go:792-854 | the answer descends if and only if the tail did and either rerank scores differ or the head was already above the tail |
| `Rerank.TiedRerankStaysBelowTail` | internal/search/hybrid.go:798-838 | three hits and two equal rerank scores whose answer has a head below its tail |
| `Rerank.RerankKeepsDescending` | internal/search/hybrid.go:715-780 | a descending list stays descending |
| `Rerank.ApplyRerank` | internal/search/hybrid.go:715-780 | the head is a stable permutation by blended score and the tail is untouched; without a reranker, with one hit, on failure or a wrong number of scores nothing changes |
| `Rerank.RerankedHitIs` | internal/search/hybrid.go:715-780 | a hit of the head is one that went in, with its blended score and the mark added to its reason |
| `PathSearch.Loader.UnitsByIDs` | internal/graph/graph.go:506-534 | afterwards every id asked for is remembered as the store has it, missing ones included |
| `PathSearch.Loader.Unit` | internal/graph/graph.go:537-553 | from the cache or not, the answer is the store's |
| `PathSearch.Expand` | internal/graph/graph.go:149-197 | the steps are exactly the hops out of a unit: resolved edges, and implements_rpc backwards for rpc methods |
| `PathSearch.NextLayerVisited` | internal/graph/graph.go:97-142 | once a depth has been expanded the next depth is visited |
| `PathSearch.Expanded` | internal/graph/graph.go:116-139 | expanding the first item of the queue keeps the search invariant |
| `PathSearch.Exhausted` | internal/graph/graph.go:111-141 | an empty queue means no path within the depth |
| `PathSearch.Path` | internal/graph/graph.go:97-142 | a path whose steps join source and target through edges of the store, with the fewest edges, if one within the depth exists, otherwise nothing |
| `Trace.DiscardNew` | internal/graph/trace.go:226-237 | not keeping a chain that is no better than the worst kept one leaves no better chain behind |
| `Trace.ReplaceWorst` | internal/graph/trace.go:226-237 | nor does replacing the worst kept one by a better chain |
| `Trace.Tracer.Worst` | internal/graph/trace.go:228-233 | the loop finds a kept chain that is better than no other |
| `Trace.Tracer.Finish` | internal/graph/trace.go:210-238 | a chain is recorded once by its key; at most sixty-four are kept, nothing is discarded before, and no discarded chain is better than a kept one |
| `Trace.Tracer.Dfs` | internal/graph/trace.go:156-192 | at most 5000 expansions; recorded chains are walks of 2 to depth + 1 steps, distinct but for the last, that say truly how they ended; unless the budget ran out every walk that ends where it must has been recorded |
| `Trace.FirstIsBest` | internal/graph/trace.go:82-90 | no chain ever recorded is better than the one shown first |
| `Trace.Alternatives` | internal/graph/trace.go:91-100 | the first four kept chains that are no prefix of the best |
| `Trace.OthersAre` | internal/graph/trace.go:91-100 | those are exactly the kept chains that differ somewhere from the first steps of the best or are longer than it |
| `Trace.Trace` | internal/graph/trace.go:49-101 | the answer counts every recorded chain, shows a best one and up to four others |
| `Trace.NodeKeyTells` | internal/graph/trace.go:156-192 | while no id holds a bar, equal keys of a visit mean the same unit and identifiers |
| `Trace.ChainKeyTells` | internal/graph/trace.go:242-253 | while no such key holds an arrow, equal keys of chains mean the same keys step by step |
| `Gitignore.LastWordIsLast` | pkg/gitignore/gitignore.go:153-160 | the verdict is that of a matching line after which none matches |
| `Gitignore.PruningLosesNothing` | pkg/gitignore/gitignore.go:117-135 | everything below an ignored directory is ignored unless tracked: pruning loses no kept file |
| `Gitignore.AddWithParents` | pkg/gitignore/gitignore.go:342-350 | stopping at the first directory already there adds exactly the path and the directories above it |
| `Gitignore.Closure` | pkg/gitignore/gitignore.go:336-353 | the loaded set is the parent closure of the listed names |
| `Gitignore.Rules.MatchIn` | pkg/gitignore/gitignore.go:180-191 | the backwards scan finds the last matching pattern of a file |
| `Gitignore.Rules.Match` | pkg/gitignore/gitignore.go:161-176 | the scan from the deepest file up is the last matching line of info/exclude followed by the files from the root down |
| `Gitignore.Rules.DirExcluded` | pkg/gitignore/gitignore.go:138-151 | the remembered verdict is whether the directory or one above it matches |
| `Gitignore.Rules.IsTracked` | pkg/gitignore/gitignore.go:298-355 | a path is tracked if the index lists it or something below it |
| `Gitignore.Rules.IsIgnored` | pkg/gitignore/gitignore.go:117-135 | whatever was asked before, a path is ignored if and only if it is untracked and it or a directory above it matches |
| `Gitignore.OwnMatchIs` | pkg/gitignore/gitignore.go:153-191 | whether a path is matched itself is said by the deepest file above it with a line that speaks of it, by its last such line, and else by info/exclude |
| `Gitignore.IgnoredIs` | pkg/gitignore/gitignore.go:108-135 | a path in the tree is ignored if and only if the index lists neither it nor anything below it, and it or a directory above it is excluded in that sense |
| `IgnorePatterns.MatchPattern` | internal/config/ignore.go:154-183 | the loop over components computes the pattern's meaning |
| `IgnorePatterns.PatternMeans` | internal/config/ignore.go:154-183 | a leading double star asks for a component that matches the rest, a trailing one for a path that begins so, and any other glob is asked about the whole path |
| `IgnorePatterns.PatternsAddUp` | internal/config/ignore.go:97-140 | a list of configured patterns excludes what any one of them matches and nothing else |
| `IgnorePatterns.IgnorePatterns.ShouldIgnore` | internal/config/ignore.go:97-140 | whatever was asked before, of files or directories, the answer is the uncached verdict: a configured pattern, or the checkout's own rules |
| `IgnorePatterns.OnlyPatternsPrune` | internal/repos/walk.go:34-58 | above a file kept on its own, a directory is excluded if and only if a configured pattern excludes it: the checkout's own rules never do |
| `IgnorePatterns.PatternPrunesMore` | internal/repos/walk.go:34-58 | a configured pattern that excludes a directory and not a file in it |
| `SymbolCache.KeysAreInjective` | internal/index/symbols.go:105-114 | equal keys mean the same repository, path and hash while the first two hold no NUL |
| `SymbolCache.RunIsBounded` | internal/index/symbols.go:118-163 | after any puts and takes at most cap entries are live, each in the order, which never exceeds three times the capacity |
| `SymbolCache.TakeReturnsLastPublished` | internal/index/symbols.go:133-143 | a take returns v if and only if v is the last value put under the key that no take or eviction undid |
| `SymbolCache.RunStandsByAge` | internal/index/symbols.go:118-163 | after any puts and takes one live key is older than another if and only if its last place in the order comes first |
| `SymbolCache.EvictsOldestIff` | internal/index/symbols.go:146-163 | a put into a full cache evicts the first live key of the order, and that is the oldest if and only if its last place comes before those of all other live keys |
| `SymbolCache.EvictsOldestFirst` | internal/index/symbols.go:146-163 | while no taken key is put again every evicted entry is older than every kept one |
| `SymbolCache.ReputEvictsNewest` | internal/index/symbols.go:118-163 | a run after which the newest entry is evicted |
| `SymbolCache.SymbolCache.Put` | internal/index/symbols.go:118-128 | the cache afterwards is that of the put, evictions and compaction included |
| `SymbolCache.SymbolCache.Take` | internal/index/symbols.go:133-143 | returns the live value and removes it |
| `SymbolCache.SymbolCache.EvictLocked` | internal/index/symbols.go:146-163 | the loops pop until there is room and compact an order that is mostly holes |

## Left out

- KafkaFlows.IncrementalEqualsFull: compares flows that have a destination; a flow without one whose producer is gone may linger in the table until its topic is rebuilt, and the full rebuild would not store it.
- KafkaFlows.DeriveKafkaFlows: edge ids, confidences and the JSON text of edge metadata are not modelled; two flows that differ only in those are equal.
- ConfigRefs.RewriteEdgeGroups: the order in which groups are taken is arbitrary rather than by sorted key.
- KafkaFlows.RunKeepsView: a link is one step; links of different processes, which the linker's lock (internal/app/indexing.go:587-592) does not order, running inside one another are not modelled.
- ContractPass.ResolveContracts: the loaded units and edges are one snapshot; units are unique by id, as the store keeps them.
- IndexPass.Index.DoIndex: coverage counters, summaries, service detection, compaction and the linking at the end of a pass are not modelled.
- CommitPlan.ApplyPlan: updating the working tree before files are read is a parameter, the contents found there.
- WalkRules.ConfiguredPushIndexesIff: paths are the repository-relative ones both passes store, already clean.
- UnitLookup.QueryUnits: case folding is ASCII only; the statement is a syntax tree with numbered placeholders rather than text, and row comparison is by code point.
- Fusion.FuseBy: cluster keys are records; the strings the program uses tell the same spans apart while repository ids hold no colon.
- Fusion.FuseRRF: float32 rounding is not modelled, and a negative rank constant under which some hit's rank has no reciprocal, an infinite score in the program, is excluded.
- PathSearch.Path: store reads do not fail, so neither the error returns nor the reads whose errors are swallowed are modelled.
- Trace.Trace: how hops out of a unit follow from arguments, fields and aliases is an arbitrary function, as is the normalisation of identifiers; a failed edge query, which discards the answer, is not modelled.
- Gitignore.Rules.IsIgnored: parsing pattern lines, glob matching and running git are parameters; paths come as their components.
- JobQueue.CursorHistoryIsParentChain: the in-process mode without a queue and an operator's reset of stuck repositories are not among the steps.
- The SQL and vector backends, search engines, rerankers, the disambiguating model, the HTTP and MCP servers, configuration loading, language servers and service detection are not part of this model.
- Goroutine fan-out over independent slots, logging and metrics are not modelled.
