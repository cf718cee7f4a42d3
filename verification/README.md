# Verified model of OpenMalLab

OpenMalLab analyses an unknown file in jailed workers, folds what they say into one
fail-closed verdict, and lets an AI plane propose enrichment that a trusted gate may accept.
This project models the logic of that pipeline in Dafny and proves what it promises. Every
loop, class and in-place algorithm of the modelled files is written in its own form and
proved equal to a function on values; the main results are lemmas about those functions.

| module | models |
|---|---|
| `Pipeline`, `Scoring` | the verdict lattice, the finding types, the triage score |
| `Order`, `Text`, `Knowledge`, `TreeOrder` | shared ground: byte order and sorted lists, text checks, trust tiers, trees in breadth-first order |
| `BoundedWalk`, `Graph`, `GraphSafety`, `Traversal`, `RelatedReport` | the attribution graph: the bounded walk, the tiered store, its invariants, `Related`, and what its report means on stored edges |
| `DurableGraph` | the file-backed store as a refinement of the in-memory one |
| `Sketch`, `SketchLanes`, `SimilarityIndex` | MinHash sketches on 64-bit words, their lanes, and the index over them |
| `KnowledgeExact` | what the graph and the registry hold after a write, in the caller's terms |
| `Ledger` | the hash-chained handshake log |
| `Registry`, `Gate`, `Graduation`, `AgentLoop`, `GateExact` | the closed loop of facts, gate, human review and earned autonomy, and what becomes of each hypothesis |
| `ArchiveExtractor`, `ExtractorSafety`, `ExtractorEntries` | the archive extractor, what every run of it keeps, and what becomes of each kind of entry |
| `Ingest`, `ExtractionChain` | re-hashing extracted children into the vault, and the chain from archive to vault |
| `SubmissionFlow`, `SubmissionSafety`, `SubmissionRefinement` | the capped workflow over the artifact tree, its invariants, and its refinement of the naive analysis |
| `SubmissionEngines` | which engines a run consults, and that no other has a say |
| `SubmissionLines`, `SubmissionSize`, `SubmissionOversize` | what every run lists, how large that is once serialized, and two results that are too large |
| `Iocs` | the export of observables |

Conventions. Engines, parsers, clocks, disks and hashes are parameters: an engine is an
arbitrary function from a position in the artifact tree to an outcome, a disk answers each
call, a digest is a function. Where a result needs a digest without collisions, that is a
hypothesis of the lemma: `GoodHash` idealises the hash behind the graph's identifiers, and
`GoodDigest` asks it of the finitely many contents at hand, which can be met
(`ExtractionChain.HonestExtractionExists`); `Ledger.SameHeadSameChain` and
`GraphSafety.RunsKeepTrust` need none. Error paths are `Result`, `Option` or outcome
datatypes; apart from these hypotheses nothing the source handles is excluded by a
precondition.

Where the code and its own comments disagree, the code is modelled:

- `internal/knowledge/graph.go:267-270` says an ingest shortcut can never evict a curated
  attribution. The report lists only what the walk over all edges recorded, and its node cap
  counts everything: `Traversal.NodeCapCrowdsOut` gives two writes after which no query with
  depth and node cap one reports a curated neighbour. `BoundedWalk.NothingIsCrowdedOutExactly`
  says exactly when no walk over a part of the edges finds something that the full one leaves
  out, `BoundedWalk.RoomDecides` what decides it for one node, and
  `Traversal.ReportedBitIsExact` when the bit of a reported node is right.
- `internal/pipeline/types.go:95-97` says a wall of floors never buries a real detection when
  findings are ranked by severity and then by score. Between equal severities it does, because
  the divisor stops at 8: `Scoring.FloorsBuryDetections` says exactly when, from 6 floors on
  for a SUSPICIOUS hit of medium confidence and from 17 on for one of high confidence; a
  MALICIOUS one is never buried. `Scoring.FloorWall` is the statement about scores alone.
- `internal/aiplane/graduation.go:121-129`: a rejection can promote, exactly as the outcome
  that completes the required number: `Graduation.RejectionPromotesExactly`.
- `services/mal-extract/src/main.rs:475-484`, `438-441`, `523-526`, `544-548`: a peek that fails
  or comes back short reads as "not this format", and a plain tar that cannot be opened is
  noted without being marked incomplete, so a report can be complete and wrong.
  `ExtractorSafety.CompleteMeansExact` states exactly when, and
  `ExtractorSafety.UnpeekedZipLooksComplete`, `ExtractorSafety.UnpeekedTarLooksLikeMember` and
  `ExtractorSafety.UnopenedTarLooksComplete` show the three cases; in the second the report is
  wrong as soon as the tar's entries are smaller than the tar
  (`ExtractorSafety.MissedInnerIsWrong`).
- `services/mal-extract/src/main.rs:335-338`: an entry whose header cannot be read is marked
  incomplete without a floor. `ExtractorSafety.IncompleteIsFlooredExactly` says exactly when
  the extractor's own report is incomplete and below SUSPICIOUS, and
  `ExtractorSafety.UnreadableEntryIsNotFloored` shows it; the workflow adds the floor
  (`SubmissionSafety.FinalVerdict`).
- `internal/knowledge/graph.go:214-229`: linking is not atomic; endpoints written for a
  refused edge stay. `GraphSafety.RefusedLinkIsNoOpExactly` says exactly when a refused
  relation leaves the store alone, `GraphSafety.RefusedLinkLeavesEndpoint` shows one that does
  not, and `DurableGraph.FailedLinkLeaves` says the same of commits that fail.
- `services/mal-orchestrator/workflow.go:31-36` says the summed serialized size of the findings
  stays well under 2 MiB. The estimate of line 122 is charged for what engines find only, not
  for hash lines and engine errors, and it takes text to be written as it is, while
  `encoding/json` writes `<`, `>`, `&`, most control bytes and invalid bytes as six.
  `SubmissionSize.ResultFitsExactly` says for every run exactly when the serialized findings
  fit, in terms of what the engines answer, and `SubmissionSize.CompleteResultFitsExactly` for
  an input within the caps, as a sum over its extraction tree.
  `SubmissionOversize.FailuresCanExceed` and `SubmissionOversize.EscapesCanExceed` are results
  that do not fit, the first through failed calls, the second complete and without any.
  `SubmissionSize.EstimateIsBounded`, `SubmissionSize.ResultIsBounded` and
  `SubmissionSize.PlainResultIsBounded` say what is bounded in spite of that.

## Model

| member | source | states |
|---|---|---|
| Pipeline.JoinAllIsLeastUpperBound | internal/pipeline/types.go:85-90 | joining a list of verdicts gives their least upper bound |
| Pipeline.ParseVerdictIsExact | internal/pipeline/types.go:41-53 | a word is recognised exactly when it is some verdict's own, and everything else reads as SUSPICIOUS |
| Pipeline.VerdictSurvivesWire | internal/pipeline/types.go:25-53 | a verdict survives its wire form, and only its own word reads back as it |
| Pipeline.ConfidenceFor | internal/pipeline/types.go:162-205 | high exactly for a signature hit that is no gap, medium exactly for any other non-gap finding that is at least SUSPICIOUS |
| Scoring.SinkInPlace | internal/pipeline/types.go:275-281 | the inner sorting loop puts one element in its place in the descending run |
| Scoring.SortDescInPlace | internal/pipeline/types.go:275-281 | the in-place sort equals the sorting function |
| Scoring.SortDescIsDescending | internal/pipeline/types.go:275-281 | the sorted contributions are descending and a permutation of the input |
| Scoring.ScoreFindings | internal/pipeline/types.go:240-271 | the scoring loops compute the score and the aggregate confidence |
| Scoring.SumHalving | internal/pipeline/types.go:257-270 | the contributions are summed strongest first with halving weight down to an eighth |
| Scoring.ScoreIsOrderIndependent | internal/pipeline/types.go:240-271 | score and confidence are the same for every order of the findings |
| Scoring.AddingNeverLowers | internal/pipeline/types.go:240-271 | a further finding lowers neither |
| Scoring.RaisingNeverLowers | internal/pipeline/types.go:222-271 | raising the verdict or confidence of one finding lowers neither |
| Scoring.ScoreBounds | internal/pipeline/types.go:253-271 | the score lies between the largest single contribution and 100 |
| Scoring.AloneItScores | internal/pipeline/types.go:206-232 | what one finding scores on its own, for each verdict and confidence |
| Scoring.AggregateIsStrongest | internal/pipeline/types.go:240-257 | the aggregate confidence is the strongest among the findings that are at least SUSPICIOUS, and LOW without one |
| Scoring.FloorWall | internal/pipeline/types.go:240-271 | low-confidence floors outscore one hit, whatever its weight, exactly from a given number of them on |
| Scoring.FloorsBuryDetections | internal/pipeline/types.go:92-98 | ranked by severity and then score, floors bury a detection exactly when it is no more severe and they are enough: 6 or 17 for a SUSPICIOUS one, never for a MALICIOUS one |
| BoundedWalk.WithinMeansPath | internal/knowledge/graph.go:318-360 | the distance the walk is measured against is the existence of a path of that length |
| BoundedWalk.WalkDistancesAreExact | internal/knowledge/graph.go:318-360 | every depth returned is the shortest distance, and nothing nearer is missing, even after an early exit |
| BoundedWalk.WalkFlagIsExact | internal/knowledge/graph.go:318-360 | the truncation flag is clear exactly when every reachable ID was returned, over all three bounds |
| BoundedWalk.WalkCoversHorizon | internal/knowledge/graph.go:333-352 | everything within the depth limit is returned exactly when the node cap and edge budget admit it |
| BoundedWalk.SmallerWalkCoversHorizon | internal/knowledge/graph.go:288-296 | a walk over a subset of the edges covers its horizon whenever the full one does |
| BoundedWalk.NothingIsCrowdedOutExactly | internal/knowledge/graph.go:267-270 | no walk over a part of the edges finds what the full walk leaves out, if and only if the IDs within reach are no more than the node cap and the edge budget |
| BoundedWalk.RoomDecides | internal/knowledge/graph.go:333-352 | an ID within the depth limit is returned when everything up to its distance fits the node cap and the edge budget, and is not when everything nearer already fills one of them |
| BoundedWalk.WalkFillsItsBounds | internal/knowledge/graph.go:333-352 | the number of IDs returned is the number within the depth limit, or one of the two bounds that is smaller |
| Traversal.NodeCapCrowdsOut | internal/knowledge/graph.go:267-270 | two writes after which a node has a curated path of one hop and no query with a node cap of one reports it |
| Graph.MemGraph.MergeNode | internal/knowledge/graph.go:397-413 | the whole new store after an atomic node merge, cap refusal included |
| Graph.MemGraph.MergeEdge | internal/knowledge/graph.go:415-442 | the whole new store and index after an atomic edge merge, both caps included |
| Graph.MemGraph.OutEdges | internal/knowledge/graph.go:444-455 | exactly the stored edges the index lists for a node, once each |
| Graph.KnowledgeGraph.PutNodeInto | internal/knowledge/graph.go:147-180 | a node write validates, normalises and merges under the tier rule |
| Graph.KnowledgeGraph.PutEdgeInto | internal/knowledge/graph.go:207-230 | a relation write ensures both ends and merges the edge; ends stay if the edge is refused |
| Graph.KnowledgeGraph.Apply | internal/knowledge/graph.go:182-240 | the four public writes |
| GraphSafety.NodeIdIsInjective | internal/knowledge/graph.go:103-106 | the separator keeps kind and key apart in a node ID |
| GraphSafety.EdgeIdIsInjective | internal/knowledge/graph.go:108-111 | an edge ID determines its source, relation and target |
| GraphSafety.StepKeepsSound | internal/knowledge/graph.go:147-240 | every write, accepted or refused, keeps the caps, the exact index and dangling-free edges |
| GraphSafety.RunsAreSound | internal/knowledge/graph.go:377-442 | over every run from empty: ingest nodes and edges at most max each, ingest out-degree at most 4096, an edge ID is indexed under a node exactly when it is stored and leaves it |
| GraphSafety.StepTrust | internal/knowledge/graph.go:164-227 | no write drops a node, an edge or its trust |
| GraphSafety.RunsKeepTrust | internal/knowledge/graph.go:147-240 | over every run trust never drops, and a run of ingest writes leaves the curated tier as it was, for any hash |
| GraphSafety.NodeRefusals | internal/knowledge/graph.go:147-180 | exactly when a node write is refused; a curated one never for capacity |
| GraphSafety.CuratedEdgeRefusals | internal/knowledge/graph.go:207-230 | a curated relation is stored exactly when it is well formed |
| GraphSafety.AddedIsFound | internal/knowledge/graph.go:183-202 | a node added is found under every key of the same canonical form |
| KnowledgeExact.AlikeIsOneKey | internal/knowledge/graph.go:113-123 | two keys meet in one entity exactly when they differ only in outer space and, for names and technique numbers, in case |
| KnowledgeExact.NodeIsWellFormed | internal/knowledge/graph.go:147-163 | exactly which inputs of a node write are well formed, on lengths and characters |
| KnowledgeExact.RelationIsWellFormed | internal/knowledge/graph.go:207-213 | the same for a relation and its ends |
| KnowledgeExact.AddedReadsBack | internal/knowledge/graph.go:147-202 | an added node is found under every spelling of its key with the title, attributes, source and tier that were written; other lookups see no difference |
| GraphSafety.RefusedLinkIsNoOpExactly | internal/knowledge/graph.go:207-230 | a refused relation leaves the store alone if and only if its text was bad, its first end was refused, or neither end had to be written |
| GraphSafety.RefusedLinkLeavesEndpoint | internal/knowledge/graph.go:214-229 | a refused relation that leaves an endpoint behind |
| GraphSafety.NewEdgeIsStored | internal/knowledge/graph.go:207-230 | with room for it a new well-formed relation is stored with the ends it lacked, and nothing else changes |
| Traversal.SortedSliceIsOut | internal/knowledge/graph.go:331-340 | the sorted, filtered edge slice does not depend on the order the store returned |
| Traversal.VisitEdge | internal/knowledge/graph.go:341-356 | one allowed edge: what it costs, which bound stops it, what it records |
| Traversal.ScanEdges | internal/knowledge/graph.go:333-356 | the inner loop of the walk |
| Traversal.ScanItem | internal/knowledge/graph.go:327-356 | one item of the queue: its edges in ID order, as the bounded walk scans its adjacency |
| Traversal.WalkFrom | internal/knowledge/graph.go:318-360 | the walk loop computes the bounded walk |
| Traversal.RelatedTo | internal/knowledge/graph.go:271-312 | the query result: two walks, defaults, ordering and the path bit |
| Traversal.ReportIsExact | internal/knowledge/graph.go:293-312 | the report lists exactly the stored nodes the unrestricted walk recorded, at their depth |
| Traversal.PathCuratedIsReal | internal/knowledge/graph.go:271-312 | a set path bit always has an all-curated path within the depth limit |
| Traversal.PathCuratedIsExact | internal/knowledge/graph.go:288-312 | the bit is exact for every reported node when the unrestricted walk did not exit early |
| RelatedReport.ListedAtShortestRoute | internal/knowledge/graph.go:271-356 | every node listed is stored, and its depth is the length of a shortest route along stored edges of the requested relations |
| RelatedReport.UncutListsEveryRoute | internal/knowledge/graph.go:258-265 | when nothing was cut off every stored node with such a route of any length is listed |
| RelatedReport.UnknownRelationsReachNothing | internal/knowledge/graph.go:258-262 | asking only for unknown relations reaches nothing |
| RelatedReport.ListedNearestFirst | internal/knowledge/graph.go:263-304 | the report ascends by depth and then by ID, so nothing is listed twice |
| Order.BeforeMeans | internal/knowledge/graph.go:298-303 | IDs compare by their first difference, and a proper prefix comes first |
| RelatedReport.QueryStaysWithin | internal/knowledge/graph.go:271-282 | a query reports nothing beyond its depth and no more nodes than asked for, by default four hops and 500 nodes |
| RelatedReport.DefaultsAre | internal/knowledge/graph.go:276-282 | what limits left open stand for |
| Traversal.CuratedWalkIsExact | internal/knowledge/graph.go:288-289 | the curated walk finds exactly the IDs with a curated path within the depth limit, if and only if they are no more than the node cap and the edge budget |
| Traversal.ReportedBitIsExact | internal/knowledge/graph.go:267-312 | for an entry of a query result: a set bit is right, and the bit is exact when the curated paths fit the caps or the unrestricted walk did not exit early |
| Traversal.IngestCannotMoveCuratedWalk | internal/knowledge/graph.go:147-360 | no run of ingest writes changes the depths or the flag of the curated walk from any start |
| Traversal.RunsAreLabelled | internal/knowledge/graph.go:147-240 | every reachable store labels its edges with their own IDs |
| DurableGraph.Seek | internal/knowledge/persist_graph.go:272-312 | the cursor's first key at or after a prefix |
| DurableGraph.Next | internal/knowledge/persist_graph.go:272-312 | the cursor's next key |
| DurableGraph.PrefixIsUnambiguous | internal/knowledge/persist_graph.go:60-62 | a key under a node's prefix belongs to that node and no other |
| DurableGraph.ScanStopsAtBlockEnd | internal/knowledge/persist_graph.go:272-312 | where the prefix scan stops nothing of the block is left |
| DurableGraph.BlockIsAdjacency | internal/knowledge/persist_graph.go:60-62 | the prefix block of a node holds exactly the keys of its edges |
| DurableGraph.BoltGraph.MergeNode | internal/knowledge/persist_graph.go:159-207 | the transaction on the file, a failed commit included |
| DurableGraph.BoltGraph.MergeEdge | internal/knowledge/persist_graph.go:214-267 | the edge transaction with its index row, a failed commit included |
| DurableGraph.BoltGraph.OutDegree | internal/knowledge/persist_graph.go:301-312 | the early-stopped count is the smaller of the degree and the cap |
| DurableGraph.BoltGraph.OutEdges | internal/knowledge/persist_graph.go:272-296 | the prefix scan returns the decoded rows of the block, skipping missing and corrupt ones |
| DurableGraph.MergeTouchesOneRow | internal/knowledge/persist_graph.go:159-267 | on any file a corrupt row is left alone and reported, an uncommitted transaction changes nothing, and no merge touches another row |
| DurableGraph.ScanYieldsDecodable | internal/knowledge/persist_graph.go:272-296 | on any file a scan yields exactly the indexed edges whose rows decode |
| DurableGraph.MergeNodeRefines | internal/knowledge/persist_graph.go:159-207 | a committed node transaction does what the in-memory merge does; an uncommitted one changes nothing |
| DurableGraph.MergeEdgeRefines | internal/knowledge/persist_graph.go:214-267 | the same for an edge, the degree cap decided identically |
| DurableGraph.RunsRefine | internal/knowledge/persist_graph.go:159-267 | on every sequence of merges with any failed commits the file holds the in-memory store |
| DurableGraph.EmptyRefines | internal/knowledge/persist_graph.go:89-120 | a fresh file holds the empty in-memory store |
| DurableGraph.ReopenChangesNothing | internal/knowledge/persist_graph.go:89-120 | the live counts equal the bucket sizes after every run |
| DurableGraph.DerivedIdsAreColonFree | internal/knowledge/persist_graph.go:60-62 | the IDs the graph derives meet the requirement of the key layout |
| DurableGraph.PutEdgeRefines | internal/knowledge/graph.go:207-230 | a relation run on the file leaves what its committed transactions leave in memory, with the in-memory outcome when all commit and no success otherwise |
| DurableGraph.FailedLinkLeaves | internal/knowledge/graph.go:214-229 | when a commit fails, a relation leaves nothing, its first end, or both ends, according to which one |
| DurableGraph.GraphRunsRefine | internal/knowledge/graph.go:147-240 | over every sequence of graph writes and any failed commits, the file is an exact image of what the committed transactions leave in memory, and that is sound |
| DurableGraph.CommittedRunsAreSteps | internal/knowledge/graph.go:147-240 | when every commit succeeds that is the in-memory graph after the same writes |
| DurableGraph.BothStoresFeedTheWalk | internal/knowledge/persist_graph.go:272-296 | the two stores give the walk the same adjacency of a node, for every filter |
| DurableGraph.WalksAreTheSame | internal/knowledge/graph.go:318-360 | the walk over the file equals the walk over the in-memory graph from every stored node |
| DurableGraph.QueriesAgree | internal/knowledge/graph.go:271-312 | after any writes, whatever failed to commit, a query has the same answers on both stores |
| Sketch.Mix64IsInjective | internal/knowledge/similarity.go:44-51 | the mixer never maps two words to one |
| Sketch.Mix64IsSurjective | internal/knowledge/similarity.go:44-51 | every word is reached, by exactly one word: the mixer is a bijection |
| Sketch.LaneHashIsInjective | internal/knowledge/similarity.go:35-41 | two feature hashes that meet in one lane are equal |
| SketchLanes.LanesDiffer | internal/knowledge/similarity.go:35-41 | no feature hash looks the same in two of the 64 lanes |
| SketchLanes.FeaturesRead | internal/knowledge/similarity.go:95-103 | a sketch is over the hashes of the non-empty features and no others |
| SketchLanes.OneFeatureSpreads | internal/knowledge/similarity.go:87-113 | the sketch of a single feature has 64 different minima |
| SketchLanes.MixOfOne | internal/knowledge/similarity.go:44-51 | the value of the mixer at one word |
| Sketch.SignatureOf | internal/knowledge/similarity.go:90-113 | the loops compute the lane-wise minima over the set of feature hashes |
| Sketch.LowerLanes | internal/knowledge/similarity.go:104-110 | the inner loop lowers every lane for one new feature hash |
| Sketch.SketchDependsOnSet | internal/knowledge/similarity.go:87-113 | a sketch depends on the set of features only |
| Sketch.SketchOfUnion | internal/knowledge/similarity.go:90-113 | the sketch of a union is the lane-wise minimum |
| Sketch.Similarity | internal/knowledge/similarity.go:148-159 | the loop counts the agreeing lanes |
| Sketch.AgreementMeansSharedFeature | internal/knowledge/similarity.go:144-159 | two non-empty sketches agreeing in one lane share a feature hash |
| Sketch.SimilarityExtremes | internal/knowledge/similarity.go:144-159 | disjoint sets score exactly 0, identical non-empty ones exactly 1 |
| SimilarityIndex.SimIndex.Add | internal/knowledge/similarity.go:208-238 | the whole new index after an insertion, refusals included |
| SimilarityIndex.SimIndex.Nearest | internal/knowledge/similarity.go:244-280 | the query returns the first hits of the ranking above the clamped threshold |
| SimilarityIndex.AddRefusals | internal/knowledge/similarity.go:208-238 | exactly which insertions are refused |
| SimilarityIndex.AddedReadsBack | internal/knowledge/similarity.go:208-238 | an accepted sketch is listed as handed in, unless an observation met a curated reference, and nothing else changes |
| SimilarityIndex.NearestReads | internal/knowledge/similarity.go:240-280 | neighbours are entries under their own name, at least as similar as asked, by similarity, tier and handle, at most the limit |
| SimilarityIndex.NearestIsDetermined | internal/knowledge/similarity.go:240-280 | the answer does not depend on the order in which the index is scanned |
| SimilarityIndex.NearestKeepsClosest | internal/knowledge/similarity.go:240-280 | nothing closer is left out for something listed, and something only when the limit is used up |
| SimilarityIndex.NeighborsShareFeatures | internal/knowledge/similarity.go:262-266 | above a positive threshold every neighbour shares a feature with the query |
| SimilarityIndex.ObservationsKeepCurated | internal/knowledge/similarity.go:205-228 | no run of observations changes a curated reference or grows the index past its cap |
| SimilarityIndex.ObservationsKeepCuratedHits | internal/knowledge/similarity.go:208-280 | nor does it change what a curated reference contributes to a query |
| SimilarityIndex.StoredFindsItself | internal/knowledge/similarity.go:208-280 | a stored sketch is a hit for itself with score 1 |
| Ledger.Log.Append | internal/aiplane/ledger.go:62-71 | number, link and hash are stamped whatever the caller had set |
| Ledger.Log.Verify | internal/aiplane/ledger.go:76-99 | the loop accepts exactly the chains whose numbers, links, hashes and head all agree |
| Ledger.Log.VerifyAgainst | internal/aiplane/ledger.go:107-120 | the anchored check accepts exactly a verified chain with the given count and head |
| Ledger.CountCatchesTruncation | internal/aiplane/ledger.go:101-120 | a cut chain never passes an anchor that counts what was cut off, for any digest |
| Ledger.AppendAllKeepsRecords | internal/aiplane/ledger.go:58-71 | however many records follow, earlier entries stay, and each new one is its caller's record but for number, link and hash |
| Ledger.HonestRunsVerify | internal/aiplane/ledger.go:62-99 | every run of appends verifies |
| Ledger.TruncationVerifies | internal/aiplane/ledger.go:101-120 | every prefix with its head re-pointed verifies too |
| Ledger.SameHeadSameChain | internal/aiplane/ledger.go:76-99 | two verified chains with one head are identical entry for entry, or records standing in them break the digest |
| Ledger.AnchorPinsChain | internal/aiplane/ledger.go:107-120 | under a sound digest a chain passes against an honest run's anchor exactly when it is that run |
| Ledger.AnchorCatchesTruncation | internal/aiplane/ledger.go:101-120 | a truncated chain passes against the original head, with whatever count, only if records in it break the digest |
| Text.TrimAndFoldAreStable | internal/knowledge/registry.go:161-174 | a canonical key is already canonical: trimming and case folding twice changes nothing more |
| Text.CasesPairUp | internal/knowledge/registry.go:164-169 | each ASCII letter has one partner in the other case and nothing else is folded |
| Text.TrimCuts | internal/knowledge/registry.go:162 | trimming cuts all outer space and nothing else |
| Registry.FactRegistry.PutFact | internal/knowledge/registry.go:284-327 | the whole new store after a tiered write, refusals included |
| Registry.FactRegistry.Verify | internal/knowledge/registry.go:347-371 | a citation resolves exactly when its ID is derived from the claimed kind and key and the stored fact agrees |
| KnowledgeExact.AlikeIsOneClaim | internal/knowledge/registry.go:159-174 | two keys make one claim exactly when they differ only in outer space, in case for names, numbers and hashes, and in the colons of hashes |
| Registry.NumbersHaveForm | internal/knowledge/registry.go:155-156 | the forms of technique and behaviour numbers |
| KnowledgeExact.FactRefusals | internal/knowledge/registry.go:192-317 | exactly which fact writes are refused, for form or for capacity |
| KnowledgeExact.IngestStaysWithinCap | internal/knowledge/registry.go:276-317 | no run of ingest writes grows the registry past its cap |
| KnowledgeExact.PutWrites | internal/knowledge/registry.go:284-317 | a stored fact says what was written, unless an ingest write met a curated fact, which stays |
| KnowledgeExact.PutReadsBack | internal/knowledge/registry.go:284-317 | and it is cited under every spelling of its key and under no other claim |
| Registry.CitationBindsClaim | internal/knowledge/registry.go:347-371 | one cited ID never verifies for two different claims |
| Registry.IngestCannotGround | internal/knowledge/registry.go:280-371 | no run of ingest writes changes which citations may back a verdict |
| Registry.CuratedWriteGrounds | internal/knowledge/registry.go:272-371 | a curated write is refused only for its form, and can then be cited |
| Graduation.Tracker.Record | internal/aiplane/graduation.go:102-112 | one outcome moves the counters of its kind and no other |
| Graduation.Tracker.ModeFor | internal/aiplane/graduation.go:115-135 | the mode as a function of the counts |
| GateExact.ModesAreExact | internal/aiplane/graduation.go:121-136 | autonomous exactly from 20 outcomes at an accuracy of 0.90 on, in shadow exactly from 20 outcomes below 0.30 |
| Graduation.RejectionNeverPromotes | internal/aiplane/graduation.go:121-135 | once the required number is reached a rejection never promotes |
| Graduation.RejectionPromotesExactly | internal/aiplane/graduation.go:121-135 | below it a rejection promotes exactly as the outcome that completes the number |
| Gate.ConfidenceGate.VerifiedCurated | internal/aiplane/gate.go:299-310 | exactly the citations the registry vouches for, in order |
| Gate.ConfidenceGate.EvaluateWithSignals | internal/aiplane/gate.go:184-293 | the disposition of every hypothesis and the need for a human |
| Gate.AcceptanceIsEarned | internal/aiplane/gate.go:191-271 | a hypothesis is accepted exactly when all conditions of the policy hold |
| GateExact.DispositionIsExact | internal/aiplane/gate.go:184-272 | accepted, escalated or dropped: an if-and-only-if for each over citations, kind, mode, signals and confidence |
| GateExact.ReasonIsTrue | internal/aiplane/gate.go:242-271 | the recorded reason is true of the hypothesis, stop signals included |
| GateExact.VouchedAreCited | internal/aiplane/gate.go:295-311 | the recorded citations are those the registry vouches for |
| GateExact.HumanIsAskedExactly | internal/aiplane/gate.go:184-293 | one entry per hypothesis in order under its own signals, leads and submission carried over, and a human asked if and only if something needs triage or the proposal asks for it |
| GateExact.OnlyLowStakesStandAlone | internal/aiplane/gate.go:137-151 | under the default policy only four kinds may stand alone; every other grounded claim goes to a human |
| Gate.SignalsOnlyBlock | internal/aiplane/gate.go:203-262 | signals and stated confidence accept nothing that goes unaccepted without them |
| Gate.IngestCannotInfluenceGate | internal/aiplane/gate.go:184-310 | after any run of ingest writes the same proposal and signals get the same result |
| Gate.EnrichmentIsCapped | internal/aiplane/facade.go:87-102 | enrichment findings are never above SUSPICIOUS, and there are any exactly when something was accepted |
| GateExact.EnrichmentListsAccepted | internal/aiplane/facade.go:81-103 | one finding per accepted hypothesis, in order, with its kind and claim |
| AgentLoop.AgentGraphWorkflow | services/mal-orchestrator/agentgraph.go:386-450 | fold, review flag and recorded outcomes of one enrichment run |
| AgentLoop.FoldFindings | services/mal-orchestrator/agentgraph.go:402-409 | the fold joins verdicts and appends findings |
| AgentLoop.RecordOutcomes | services/mal-orchestrator/agentgraph.go:495-505 | one outcome per escalated kind |
| GateExact.EnrichmentKeepsTheRest | services/mal-orchestrator/agentgraph.go:404-411 | a result is flagged for review exactly when the gate asks or it was flagged; findings are only added, and nothing but these and the verdict changes |
| AgentLoop.EnrichmentRaisesOneStep | services/mal-orchestrator/agentgraph.go:386-409 | a changed verdict moves from below SUSPICIOUS to exactly SUSPICIOUS, and an accepted hypothesis cites a curated fact |
| AgentLoop.RunIsHistory | services/mal-orchestrator/agentgraph.go:386-450 | one run of the workflow takes the steps of the history: the analysis, then the decision or the timeout of the review it opened |
| AgentLoop.HistoryKeepsInvariant | services/mal-orchestrator/agentgraph.go:341-505 | over whole histories the counters agree with the recorded outcomes, and every outcome answers its own escalation |
| AgentLoop.AutonomyIsEarned | services/mal-orchestrator/agentgraph.go:341-505 | every acceptance of a kind comes after at least 20 outcomes of it with at least 90 percent approved |
| AgentLoop.ShadowIsAbsorbing | internal/aiplane/graduation.go:102-135 | a kind in shadow without an open review is never accepted, escalated or re-moded again |
| ArchiveExtractor.SanitizedIsDisplayable | services/mal-extract/src/main.rs:602-628 | manifest text is at most 256 bytes without control or bidi characters, and clean text is unchanged |
| ExtractorEntries.SanitizedIsPrefix | services/mal-extract/src/main.rs:602-617 | a name is shown character by character with a dot for each control, up to the first that does not fit |
| ExtractorEntries.RemarksHaveWords | services/mal-extract/src/main.rs:148-570 | each remark goes by a word of its own, but for three errors that share one |
| ExtractorEntries.RemarksAreGaps | services/mal-extract/src/main.rs:148-570 | every remark but those on the container has a kind that the pipeline treats as a gap |
| ArchiveExtractor.Extractor.AddNote | services/mal-extract/src/main.rs:148-176 | the verdict always counts; text stops after 999 notes with one marker |
| ArchiveExtractor.Extractor.CopyCapped | services/mal-extract/src/main.rs:182-216 | the streaming loop: content, or which cap or failure stopped it |
| ArchiveExtractor.Extractor.FlagTraversal | services/mal-extract/src/main.rs:507-518 | traversal names are flagged |
| ArchiveExtractor.Extractor.StageChild | services/mal-extract/src/main.rs:240-264 | dedup, staging, and release of the slot when the rename fails |
| ArchiveExtractor.Extractor.TakeEntry | services/mal-extract/src/main.rs:223-303 | one regular entry, and whether extraction goes on |
| ArchiveExtractor.Extractor.ExtractZip | services/mal-extract/src/main.rs:305-369 | the zip loop with its caps and skips |
| ArchiveExtractor.Extractor.ExtractTar | services/mal-extract/src/main.rs:371-432 | the tar loop with its caps and skips |
| ArchiveExtractor.Extractor.ExtractGzip | services/mal-extract/src/main.rs:434-459 | a gzip member or a tar inside it |
| ArchiveExtractor.DetectAndExtract | services/mal-extract/src/main.rs:521-570 | detection, extraction, ratio check and report of a whole run |
| ExtractorSafety.EveryExtractionIsGood | services/mal-extract/src/main.rs:148-303 | over every input and disk: all caps hold, at most 1000 findings, the verdict is the join of everything noted, and dedup set, staged files and child hashes coincide |
| ExtractorSafety.CopyIsExact | services/mal-extract/src/main.rs:182-216 | a copy succeeds exactly on a readable stream within both caps, and holds its whole content |
| ExtractorSafety.RunIsExact | services/mal-extract/src/main.rs:305-432 | a run over entries that is not incomplete lists exactly the regular ones, in order |
| ExtractorSafety.RunIsIntact | services/mal-extract/src/main.rs:223-303 | and every entry was produced, readable and of its declared size |
| ExtractorSafety.CompleteListsTaken | services/mal-extract/src/main.rs:521-570 | a report that is not incomplete lists the regular entries of what the extractor took the sample for |
| ExtractorEntries.OnlyRegularFilesAreReported | services/mal-extract/src/main.rs:305-432 | every child of any run is a regular file by its type bits or tar type, under its own name and with its whole content |
| ExtractorEntries.OnlyRegularFilesAreStaged | services/mal-extract/src/main.rs:223-303 | and nothing else is staged |
| ExtractorEntries.ZipOddityIsNoted | services/mal-extract/src/main.rs:335-366 | a link, pipe, device, socket or climbing name anywhere in a zip that was read leaves the verdict at least SUSPICIOUS |
| ExtractorEntries.TarOddityIsNoted | services/mal-extract/src/main.rs:398-425 | the same of a tar, plain or gzipped |
| ExtractorEntries.RatioIsFlaggedExactly | services/mal-extract/src/main.rs:556-569 | a run is marked as a bomb exactly from the ratio and the size on |
| ExtractorEntries.MagicIsExact | services/mal-extract/src/main.rs:475-484 | what the heads of a gzip, a zip and a tar file look like |
| ExtractorEntries.ReportReads | services/mal-extract/src/main.rs:148-180 | the report is the state: one finding per note while there is room, with its verdict, and no name or text that is not displayable |
| ExtractorSafety.CompleteMeansExact | services/mal-extract/src/main.rs:521-570 | it lists exactly the archive's regular entries if and only if the archive was not misread: no peek missed it and no plain tar went unopened |
| ExtractorSafety.UnpeekedZipLooksComplete | services/mal-extract/src/main.rs:523-526 | a zip whose peek fails has a complete, empty, UNKNOWN report |
| ExtractorSafety.UnpeekedTarLooksLikeMember | services/mal-extract/src/main.rs:438-457 | a tar.gz whose inner peek fails has a complete report of one member |
| ExtractorSafety.MissedInnerIsWrong | services/mal-extract/src/main.rs:434-459 | a complete report on a tar.gz whose inner tar was missed does not name its regular entries, if these are smaller than the tar |
| ExtractorSafety.UnopenedTarLooksComplete | services/mal-extract/src/main.rs:542-546 | a tar that cannot be opened has a complete, empty report |
| ExtractorSafety.ExtractionIsSourced | services/mal-extract/src/main.rs:182-303 | everything staged or reported is the content of an entry of the container |
| ExtractorSafety.IncompleteIsFlooredExactly | services/mal-extract/src/main.rs:305-432 | an incomplete report is at least SUSPICIOUS, except exactly when an entry header was unreadable and nothing else about the archive calls for a remark |
| ExtractorSafety.UnreadableEntryIsNotFloored | services/mal-extract/src/main.rs:334-340 | a sample whose report is incomplete and UNKNOWN |
| Ingest.MapReport | services/mal-orchestrator/activity.go:539-561 | the report on the lattice; anything unparseable leaves it incomplete |
| Ingest.Analyzer.IngestChild | services/mal-orchestrator/activity.go:401-471 | a child is taken exactly when it is a regular file within the limit whose bytes hash to its name |
| Ingest.Analyzer.ExtractActivity | services/mal-orchestrator/activity.go:312-353 | the ingest loop: report and vault after all claimed children |
| Ingest.SentIsMapped | services/mal-orchestrator/activity.go:539-561 | mapping gives back every finding that was sent, but for path and confidence |
| Ingest.ConfidenceIsStamped | internal/pipeline/types.go:157-205 | the confidence of a mapped finding: gaps stay LOW, a rule match is HIGH, everything else counts from SUSPICIOUS on |
| Ingest.TakenExactly | services/mal-orchestrator/activity.go:395-471 | exactly which staged files are taken, and the vault gains nothing else |
| Ingest.VaultIsKeyedByContent | services/mal-orchestrator/activity.go:395-471 | the vault is keyed only by hashes of the bytes under them, and never rewritten |
| Ingest.VerifiedAreInVault | services/mal-orchestrator/activity.go:340-348 | every reported child is in the vault under its hash |
| Ingest.DropsAreExplained | services/mal-orchestrator/activity.go:312-353 | every child turned away has a finding of its own, nothing the worker reported is lost, and the bytes reported are those of the children taken |
| Ingest.IngestIsBounded | services/mal-orchestrator/activity.go:40-51 | one extraction brings in less than 512 MiB + 128 MiB, and reports exactly how much |
| Ingest.DropsAreReported | services/mal-orchestrator/activity.go:314-347 | the report is incomplete exactly when it was or a child was dropped; drops floor the verdict; without drops the children are the claimed ones in order |
| ExtractionChain.HonestPrefixIsIngested | services/mal-orchestrator/activity.go:314-347 | the ingest limits, per child and in total, never reject what the extractor's default caps let through |
| ExtractionChain.HonestExtractionSurvives | services/mal-orchestrator/activity.go:274-359 | from archive to vault: verdict, flag and all children survive, each in the vault with the content that was staged for it |
| ExtractionChain.CompleteReportIsTheArchive | services/mal-orchestrator/activity.go:274-359 | a report that reaches the workflow complete names exactly the archive's regular entries, if and only if the archive was not misread |
| ExtractionChain.SubmissionIngestIsBounded | services/mal-orchestrator/workflow.go:38-43 | the extractions of one submission that come back count less than 2 GiB + 512 MiB + 128 MiB of ingested bytes |
| SubmissionFlow.Clamp | services/mal-orchestrator/workflow.go:434-443 | the cutting loop computes the clamped text |
| SubmissionFlow.ScanExecutable | services/mal-orchestrator/workflow.go:364-374 | true exactly when some identification finding names an executable |
| SubmissionFlow.ScanFileType | services/mal-orchestrator/workflow.go:379-399 | true exactly when some identification finding names the type |
| SubmissionFlow.FindFileType | services/mal-orchestrator/workflow.go:343-350 | the first identified type |
| SubmissionFlow.Submission.AddFinding | services/mal-orchestrator/workflow.go:107-140 | one finding: joined always, listed while the byte budget lasts, one marker after |
| SubmissionFlow.Submission.Fold | services/mal-orchestrator/workflow.go:91-148 | one engine outcome folded into the account |
| SubmissionFlow.Submission.Scan | services/mal-orchestrator/workflow.go:175-234 | the read-only engines of one artifact, gated on its identification |
| SubmissionFlow.Submission.EnqueueChildren | services/mal-orchestrator/workflow.go:279-301 | children are queued within the depth cap, otherwise one marker |
| SubmissionFlow.Submission.Unpack | services/mal-orchestrator/workflow.go:257-303 | the ingest budget and the children of one extraction |
| SubmissionFlow.Submission.Advance | services/mal-orchestrator/workflow.go:170-304 | one whole iteration |
| SubmissionFlow.SubmissionWorkflow | services/mal-orchestrator/workflow.go:59-329 | the workflow loop computes the final result |
| SubmissionEngines.CallsAreDue | services/mal-orchestrator/workflow.go:197-262 | the engines of an artifact are those its identification calls for, each once and in order |
| SubmissionEngines.OnlyDueEnginesMatter | services/mal-orchestrator/workflow.go:197-262 | two worlds that agree wherever an engine is called for give the same run: no other engine has a say |
| SubmissionEngines.DetonationNeedsConsent | services/mal-orchestrator/workflow.go:229-237 | what detonation would say changes nothing without consent, of anything but an ELF file, or below the root |
| SubmissionEngines.DueEnginesAreHeard | services/mal-orchestrator/workflow.go:91-262 | every engine that is called for is heard: a failure is listed and leaves the run incomplete, a verdict is never undercut; each artifact below the root is named |
| SubmissionEngines.ResultTells | services/mal-orchestrator/workflow.go:59-329 | the result names each artifact below the root by its hash and each failed engine that was due, and falls short of no verdict heard |
| SubmissionEngines.ResultIsScored | services/mal-orchestrator/workflow.go:306-311 | score and confidence of a result are those of the findings it lists, and its verdict is the join of everything heard |
| SubmissionEngines.ArtifactsDescend | services/mal-orchestrator/workflow.go:279-288 | every artifact was reported by the extraction of an earlier one and carries its hash, its name on the way and its place |
| SubmissionEngines.FileTypeIsTheRoots | services/mal-orchestrator/workflow.go:203-205 | the file type of the result is the first one the identification gives the root |
| SubmissionSafety.FinalIsReached | services/mal-orchestrator/workflow.go:156-170 | a run is at most 200 iterations and then the end of the loop |
| SubmissionSafety.VerdictAtEveryStep | services/mal-orchestrator/workflow.go:91-148 | at every step the verdict is the join of UNKNOWN, everything any engine said, listed or omitted, and the floor of an incomplete run |
| SubmissionSafety.NothingIsTakenBack | services/mal-orchestrator/workflow.go:91-305 | from any step to any later one the verdict never falls, the flag stays and findings are only added |
| SubmissionSafety.FinalVerdict | services/mal-orchestrator/workflow.go:59-329 | the final verdict is that join, at least UNKNOWN, and at least SUSPICIOUS when incomplete |
| SubmissionSafety.CrumbIsShortAndClean | services/mal-orchestrator/workflow.go:401-443 | a breadcrumb stays within 1025 bytes and free of control bytes |
| SubmissionSafety.ShortAndCleanMeans | services/mal-orchestrator/workflow.go:401-432 | what short and clean mean, in bytes |
| SubmissionSafety.CutAtStart | services/mal-orchestrator/workflow.go:434-443 | a text that is too long is cut where a character starts, and shows it |
| SubmissionSafety.CrumbSpellsTheWay | services/mal-orchestrator/workflow.go:401-432 | a breadcrumb spells the names from the root on while they are clean and fit |
| SubmissionSafety.OrderAtEveryStep | services/mal-orchestrator/workflow.go:150-303 | the queue stays in breadth-first order, at most one level ahead, never deeper than 8 |
| SubmissionSafety.BudgetsHold | services/mal-orchestrator/workflow.go:15-43 | at most 200 artifacts in non-decreasing depth up to 8, ingested bytes within the budget plus one extraction, at most 8192 listed findings and 1204 other lines |
| SubmissionLines.EveryRunLists | services/mal-orchestrator/workflow.go:52-329 | the lines of every run, complete or not: the findings that the byte budget admits out of all reported, one marker exactly when that is not all of them, a hash line per artifact, an error per failed call and the caps; the artifacts are the root and what was unpacked before the caps |
| SubmissionSize.ResultFitsExactly | services/mal-orchestrator/workflow.go:31-36 | the serialized findings of a run fit in 2 MiB if and only if the admitted findings, the hash lines, the errors and the markers together do |
| SubmissionSize.CompleteResultFitsExactly | services/mal-orchestrator/workflow.go:31-36 | for an input within the caps: if and only if the findings of all engines and the hash lines, summed over the extraction tree, do |
| SubmissionSize.EstimateIsBounded | services/mal-orchestrator/workflow.go:115-137 | by the estimate of the budget every list of findings is below 2.5 MiB, and below 2 MiB with at most 600 failed engine calls |
| SubmissionSize.ResultIsBounded | services/mal-orchestrator/workflow.go:31-36 | the serialized findings of every run are below 15 MiB |
| SubmissionSize.PlainResultIsBounded | services/mal-orchestrator/workflow.go:31-36 | when no engine says anything that is escaped they are below 3.25 MiB, and below 2 MiB with at most 380 failed engine calls |
| SubmissionOversize.FailuresCanExceed | services/mal-orchestrator/workflow.go:31-36 | a nested archive on which engine calls fail and whose serialized findings exceed 2 MiB |
| SubmissionOversize.EscapesCanExceed | services/mal-orchestrator/workflow.go:31-36 | a complete run without a failed call, charged with 651760 bytes, whose serialized findings exceed 2 MiB |
| SubmissionRefinement.ProcessExactly | services/mal-orchestrator/workflow.go:170-303 | one artifact leaves a run complete exactly when it fits the caps, and then nothing of it is missing |
| SubmissionRefinement.CompleteRunIsNaiveAnalysis | services/mal-orchestrator/workflow.go:52-329 | a complete run processed the whole extraction tree in breadth-first order, every engine completed, every finding is listed with its path, and the verdict is that of plain recursion |
| SubmissionRefinement.CompleteExactlyWhenItFits | services/mal-orchestrator/workflow.go:52-329 | a run is complete if and only if the naive analysis stays within the depth, count, finding-size and ingest caps and no engine failed or reported a gap |
| TreeOrder.ClosedIsWholeTree | services/mal-orchestrator/workflow.go:150-170 | a queue that lists the root and the children of all it lists is the whole tree, level by level |
| TreeOrder.LevelsJoinIsDeep | services/mal-orchestrator/workflow.go:52-58 | joining level by level equals joining by recursion |
| Iocs.CapPerKind | internal/export/iocs.go:456-468 | the in-place filter compacts the kept entries to the front and flags a drop |
| Iocs.Extract | internal/export/iocs.go:400-454 | the collection, sorting and cap of a whole export |
| Iocs.MiningReads | internal/export/iocs.go:416-440 | what a finding contributes: hashes of hash lines, the first 16384 characters of the kinds that speak of the network, nothing of others |
| Iocs.TechniquesRead | internal/export/iocs.go:416-418 | exactly which techniques are exported |
| Iocs.ExportReads | internal/export/iocs.go:400-468 | kinds in rank order, values ascending in each, none empty, at most 128 of a kind, and the sample's own hash among what was found |
| Iocs.CappedCounts | internal/export/iocs.go:456-468 | of each kind exactly the smaller of 128 and the number found is kept |
| Iocs.CappedKeepsSmallest | internal/export/iocs.go:456-468 | an entry is kept exactly when fewer than 128 of its kind come before it |
| Iocs.ExtractionIsSmallestPerKind | internal/export/iocs.go:400-468 | the output is strictly sorted, the smallest per kind, and flagged whenever something was dropped |
| Iocs.ExtractionIgnoresOrder | internal/export/iocs.go:400-468 | the whole export is the same for every order of the findings, for any detail parser |

## Left out

- Docker, Temporal, HTTP, the file system and bbolt internals: they appear as outcomes, disk answers and an ordered key set whose commits may fail. Retries and timeouts are inside an engine's outcome.
- JSON encoding, apart from the size of a serialized finding: a stored row decodes to what was put or is corrupt; the broker either passes a report on or the engine counts as failed, its output caps included. Invalid UTF-8 and the identification of nil with empty lists are not modelled.
- Unicode: `Trim` covers ASCII and Latin-1, `Lower` and `Upper` only ASCII, where Go folds all letters; the key limits of `Graph` and `Registry` count characters where Go's `len` counts bytes, so a key of 257 to 512 Latin-1 characters can be accepted here and refused there; in `SubmissionFlow` a character stands for one byte, so the replacement of invalid UTF-8 in `crumb` is not modelled and a cut may leave a dangling lead byte, as in the source.
- Hashes are parameters; injectivity is a hypothesis where a lemma needs it.
- Floating point: graduation thresholds are cross-multiplied integers and similarity scores are exact fractions of 64; a threshold that is not a number is a separate case.
- Locks and goroutines: every store operation is one atomic step, as the mutexes and transactions make it.
- The result of a submission keeps its identifiers and filename outside the model; the hand-off to the enrichment child is the input of `AgentLoop`.
- Cap markers of the workflow and notes of the extractor are datatypes until the result is written, so their words are rendered at the end instead of at the moment they arise.
- Archive parsing (zip, tar, gzip), regular expressions of the IOC parsers, refanging, STIX and MISP rendering: parameters of the extractor and of `Iocs`.
- A gate activity that fails leaves the result as it was, like a rejected roster, and is modelled as one.
- Ledger appends inside the gate activity, calibration, novelty, self-consistency sampling, the roster, prompts and learning writes of the AI plane: they only supply proposals and signals, which are arbitrary here.
- The L0 file store, `FuzzyKeys`, `NGrams`, `fit_budget`, `cappedBuffer`, the gateway, the console and the Python agents: repeats of modelled code or input and output plumbing.
- SubmissionIngestIsBounded: bounds what completed extractions count; an attempt that times out, fails or is retried may already have written children to the vault, and the workflow does not count these either (workflow.go:62, 92-104, 262).
- Concatenated gzip members: the extractor's gzip reader ends with the first member (main.rs:451), and so does `inflated`; a complete report is exact relative to what the archive readers yield, not to what another tool would unpack.
- The sample does not change between the extractor's peeks and the extraction.
- Partial files of a failed copy are not part of the staged files; removing them cannot fail in the model.
- The findings cap of the workflow keeps the verdict but not the score; no claim is made about the score of an incomplete run beyond `Scoring.ScoreBounds`.
