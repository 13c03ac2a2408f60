# Session memory, modelled in Dafny

A model of the storage-neutral memory engine in `sessionmemory`: how turns and session
boundaries become immutable, chained memory revisions, how those are projected into a
disposable index, and how provenance is traced back. `dafny verify dfyconfig.toml` checks
the whole project.

The model follows the package's own split.

* **Projection** (`Projection`, `ProjectionRuns`, `LogPrefixes`, `ProjectionRebuild`,
  `ProjectionPorts`, `CanonicalLog`, `ActivePages`, `ProjectionRuntime`). `Coordinator.Sync`
  runs against a `World` in which commits land, retention advances and other generations
  activate before every port call, and every call may fail before or after taking effect.
  It is held to two references: `HeadView`, the map from items to their active heads, and
  `Fold`, the index that a prefix of the change log leaves. A `Run` records what one `Sync`
  met that can leave its index behind: a rebuild of several pages with commits between
  them, and scans of changes retention had dropped. `lag` is proof bookkeeping: the items
  the staged and the durable index may be behind on, never more than `Missed` of the runs.
* **Trace graphs** (`TraceGraphs`). The three-colour search as a class with the captured
  variables as fields, held to a declarative `IsClosure`.
* **Boundaries** (`PortsValidation`, `BoundaryGrounding`, `BoundaryStore`,
  `BoundaryCommits`, `BoundaryProvenance`, `BoundaryProcessing`). Grounding loops held to
  declarative acceptance and to what each record must say; a step relation for everything
  any worker can do to one scope; an invariant over all runs; and one worker's code, which
  relies on the steps of the others, guarantees to be such steps itself, and commits the
  model's own answer.
* **Turns** (`Turns`, `Reconciler`, `TurnMutations`, `TurnStore`, `TurnRedelivery`,
  `TurnLog`, `TurnCrowd`, `TurnRecords`, `TurnProcessing`). The same shape for the turn
  processor: validation, reconciliation, the built mutation, the store under one fixed
  policy and derivation, what a delivery leaves there of each candidate, redeliveries, and
  `ProcessTurn` against a changing store.
  `TurnLog` joins it to the projections: it proves when the log of a run of turns is the
  canonical log they take for granted.
* **Codecs and identities** (`Codec`, `Keys`, `Utf8`, `Identity`, `Text`, `Bytes`,
  `Derived`, `Wrappers`). Byte-level formats, with SHA-256 as a function parameter. Above
  this layer a hashed identity is the list of parts it hashes; `Keys` and `Identity` prove
  that such part lists can be recovered from the hashed bytes.

Where an obvious claim is false of the code, the model keeps the code and proves exactly
when the claim holds:

* A paged rebuild reports the change sequence of its last page, so it misses the items
  changed after their own page was read: `ProjectionRebuild.BehindIsExact`, with two
  concrete pages that lose a change in `ProjectionRebuild.LateCommitIsMissed`. One page,
  one whole view, and log replay tolerate concurrent commits, before and after a rebuild
  as well: `Projection.Coordinator.Sync`.
* A scan skips changes exactly when retention has passed its cursor:
  `ProjectionPorts.ScanIsGapless`.
* The Badger adapter pages heads in key order, which is by length first, but compares the
  cursor as a string: `ActivePages.BadgerPagingCorrectIff`, with a scope that loses its
  event in `ActivePages.MixedKindsLoseEvents`.
* The turn processor observes 256 active items. An item beyond them starts its chain
  again: `TurnStore.ChainContinuesIffListed`, with a scope of 257 items in
  `TurnCrowd.ChainStartsAgain`. The change log then stops being one an index can follow,
  and exactly then: `TurnLog.EveryRunIsCanonicalIff`. An index that keeps the highest
  number goes on showing the old revision (`TurnLog.RestartIsPassedOver`), in that scope
  too (`TurnCrowd.CrowdBreaksTheLog`).
* A redelivered turn is answered with its outcome exactly when its candidates are
  acceptable in the scope as it is by then: `TurnRedelivery.BuildableIff` and
  `TurnProcessing.ProcessTurn`. The same candidates are not, for either kind of memory,
  once the scan lists one of their items (`TurnRedelivery.SameDeliveryIsRefused`): they
  are their own parents, or about several items (`TurnRedelivery.TwoEventsAreAmbiguous`).
  Concrete turns are in `ConcreteRedelivery` and `ConcreteAmbiguity`. The effect still
  happens once at most.
* Hashed parts name one revision exactly when the number of content parts agrees:
  `Identity.SamePartsSameRevisionIff`. Otherwise content can imitate a parent
  (`Identity.ContentCanImitateProvenance`); the numbers the engine uses for one item
  always agree (`Identity.AtomIdentityInjective`).

The ports count their `faults`, so the contracts also say when a call succeeds: with no
fault, only for the reasons listed. The model ports record each `Call` and its answer, so
what is committed can be compared with what a model returned. An error of
`Sync` says nothing about the stored status: the checkpoint is activated before the index,
and the answer to either call may be lost. The contract promises an active checkpoint on
success only (`Projection.Coordinator.Activate`).

## Model

| member | source | states |
|---|---|---|
| Projection.UniqueRevisionIds | sessionmemory/projection.go:255-267 | every revision the changes announce exactly once |
| Projection.Coordinator.LoadRevisions | sessionmemory/projection.go:229-246 | each read issued has 1 to 256 distinct identifiers, and on success the revisions come back in the order asked, whole |
| Projection.Coordinator.ReadPage | sessionmemory/projection_views.go:214-245 | a page read while commits land is the page of one single scope state between call and return |
| Projection.Coordinator.LoadHeads | sessionmemory/projection_views.go:221-245 | the revisions of distinct heads, each under its own item, or an error |
| Projection.Coordinator.ReadPages | sessionmemory/projection_views.go:208-250 | the active loop terminates with one page of one scope state, whatever the page limit arithmetic does |
| Projection.Coordinator.LoadActive | sessionmemory/projection_views.go:208-257 | not truncated means no head beyond the page existed; truncated means the page is full and a head beyond it was found |
| Projection.Coordinator.Build | sessionmemory/projection_views.go:170-206 | a view is never older than the change sequence it reports, though commits land between its reads; its flag is backed by a head found beyond the page |
| Projection.ProbeIsConclusive | sessionmemory/projection_views.go:249-256 | an empty probe after a full page proves that the page held every head beyond the cursor |
| Projection.PageIsQuiet | sessionmemory/projection_views.go:208-257 | on a quiet scope a view is the next page of the index, and its flag is true if and only if items remain |
| Projection.MoreNeedsRoom | sessionmemory/projection_views.go:246-257 | a truncated page means the scope has more active items than the page holds, even under concurrent commits |
| Projection.Coordinator.RebuildPage | sessionmemory/projection.go:189-206 | one page applied: every item up to the new cursor is indexed under the head it had when read, and the rest to read shrinks unless commits landed |
| Projection.Coordinator.RebuildPages | sessionmemory/projection.go:187-207 | the page loop terminates under concurrent commits and reads every item the scope had at the start; what is staged is what its pages hold, and on a quiet scope they concatenate to the whole item-ordered active index, each item once |
| Projection.Coordinator.EndRebuild | sessionmemory/projection.go:208-210 | the finished index is behind exactly on the items changed after their page was read |
| Projection.Coordinator.RebuildPaged | sessionmemory/projection.go:182-212 | covers everything up to the reported watermark except items changed while it ran; with one page, or without commits between its beginning and end, it misses nothing and stages the fold of a log prefix; it fails only if a call fails |
| Projection.Coordinator.RebuildWhole | sessionmemory/projection.go:216-226 | one view must hold every head, else LimitExceeded, given only when the scope has more than 256 active items; the index then misses nothing, whatever lands meanwhile |
| Projection.Coordinator.RebuildFromCanonical | sessionmemory/projection.go:177-227 | paged, whole or Conflict by what the applier can do; the durable index and stored watermark are untouched; a steady rebuild stages a fold, and one of several pages means more active items than a page holds; unless a call fails it succeeds, but for a missing extension or one view of more than 256 items |
| Projection.FinishedIsPrefix | sessionmemory/projection.go:187-212 | a rebuild of one page under any commits, or of any number of pages without commits, stages the fold of a prefix at least as long as its watermark |
| Projection.Coordinator.Begin | sessionmemory/projection.go:97-107 | the manifest in hand is dirty and carries the stored watermark |
| Projection.Coordinator.CheckFloor | sessionmemory/projection.go:108-130 | afterwards the watermark is at or above the retention floor read, never below where it was; the index may be behind only on what a rebuild of several pages passed over, which replaces all earlier lag; unless a call fails it refuses only below a floor it cannot be rebuilt from |
| Projection.Coordinator.RebuildToFloor | sessionmemory/projection.go:113-128 | commit comes before the advance, so a failure in between leaves the watermark behind the index, never ahead; reports the rebuild it made and what that one missed |
| Projection.Coordinator.PublishStaged | sessionmemory/projection.go:148-153 | durable first, watermark second: on success both are in place, on failure the watermark is still covered |
| Projection.Coordinator.ReplayBatch | sessionmemory/projection.go:132-156 | each replayed batch raises the watermark strictly; an empty scan leaves the index caught up with the whole log; without a gap the index moves from fold to fold and the empty scan finds the watermark at the end of the log; it fails only if a call fails or the checkpoint is taken away |
| Projection.Coordinator.ScanBatch | sessionmemory/projection.go:133-139 | no change is skipped unless retention has passed the cursor |
| Projection.Coordinator.ApplyBatch | sessionmemory/projection.go:140-155 | applying a batch moves the covered prefix of the log, and the stored watermark, to the batch's last sequence; it succeeds unless a call fails or the checkpoint is taken away |
| Projection.Coordinator.StageBatch | sessionmemory/projection.go:140-147 | the staged index covers the log through the batch, with nothing that was not announced; a full batch makes it a fold, a failed one leaves it within the batch of one |
| Projection.Coordinator.Replay | sessionmemory/projection.go:131-156 | terminates, and leaves the index covering the log as it stood at the empty scan |
| Projection.Coordinator.Finish | sessionmemory/projection.go:157-175 | success leaves the durable index equal to the head view of the last scan except on the items behind, after a moment at which the checkpoint was active with this index and watermark; it succeeds unless a call fails or the checkpoint is taken away |
| Projection.Coordinator.Activate | sessionmemory/projection.go:162-172 | success means the checkpoint was active, and still is at the return unless an index was activated after it |
| Projection.Coordinator.Sync | sessionmemory/projection.go:87-175 | success: Active, watermark as stored, durable index equal to the simple view of the heads at the last empty scan except on the items of changes this run passed over (between the pages of a rebuild, or dropped before a scan), and without such scans the watermark is the end of the log; a rebuild makes good all earlier lag; commits before, after and within a one-page rebuild and all through replay cost nothing; failure harms nothing. It does succeed: unless a call fails, or another activation takes the checkpoint away, the only refusals are below a retention floor, without a rebuild extension, from one view of more than 256 items, or with the floor ahead of the log; and in those states it does refuse |
| Projection.Coordinator.Syncs | sessionmemory/projection.go:87-175 | over any number of Syncs failing anywhere the stored watermark never decreases and the durable index is behind on nothing but what some run passed over; while each run is quiet, whatever retention does between them, the durable index is the fold of a log prefix at least as long as the watermark |
| Projection.SyncsFromNew | sessionmemory/projection.go:87-175 | from a new world on, through any number of Syncs failing anywhere: while each is quiet the indexes are behind on nothing and the durable one is the fold of a log prefix at least as long as the watermark |
| Projection.LoadedIsAll | sessionmemory/projection.go:140-147 | what is read for a batch is everything the batch announced |
| Projection.BatchCovers | sessionmemory/projection.go:132-156 | merging a batch extends the covered prefix although commits landed between scan and apply |
| Projection.WholeViewCovers | sessionmemory/projection.go:216-226 | a view that holds every head covers the sequence it reports, exactly, and is the fold of a log prefix |
| ProjectionRuns.QuietByStates | sessionmemory/projection.go:108-161 | a run is quiet whenever retention passed neither the watermark nor the floor it started from, and either no rebuild was due, or it took one view, or the active items fit one page, or nothing was committed |
| ProjectionRuns.MissedGrows | sessionmemory/projection.go:187-207 | what a run passed over stays missed as the log grows |
| LogPrefixes.FoldIsHeadView | sessionmemory/projection.go:39-46 | the fold of the whole change log is the simple view of the active heads |
| LogPrefixes.BetweenIsFold | sessionmemory/projection.go:39-46 | an index that holds all the first n changes announce and nothing later is the fold of those n, whatever order or repetition led to it |
| LogPrefixes.BatchIsPrefix | sessionmemory/projection.go:132-156 | replaying a whole batch over an index that holds any part of it gives the fold through the batch |
| LogPrefixes.PartIsNear | sessionmemory/projection.go:140-147 | an interrupted batch leaves the index within one batch of a fold |
| LogPrefixes.TogetherIsFold | sessionmemory/projection.go:187-212 | items read at one moment are the fold up to that moment |
| ProjectionRebuild.BehindIsExact | sessionmemory/projection.go:187-207 | a paged rebuild is behind on an item if and only if a change up to the reported watermark touched it after its page was read: the exact cost of keeping the last page's watermark |
| ProjectionRebuild.LateCommitIsMissed | sessionmemory/projection.go:187-207 | a commit lands between two concrete pages, each the view of the scope at its own moment; what they leave staged misses the change the rebuild reports |
| ProjectionRebuild.NothingBehind | sessionmemory/projection.go:187-207 | nothing is behind when every item was read no earlier than the watermark |
| ProjectionRebuild.ReadAllCovers | sessionmemory/projection.go:187-207 | what is behind was changed after the rebuild began |
| ProjectionRebuild.OnePageIsCurrent | sessionmemory/projection.go:203-205 | a single page that holds every head leaves nothing behind, whatever commits land |
| ProjectionRebuild.StillIsTogether | sessionmemory/projection.go:187-207 | any number of pages of a scope that does not change amount to one reading of it |
| ProjectionRebuild.PageShortensTheRest | sessionmemory/projection.go:203-206 | the paging loop's measure: without new changes every page leaves fewer heads to read |
| ProjectionRebuild.PageMakesProgress | sessionmemory/projection.go:189-206 | the loop invariant of the paged rebuild, kept by every page |
| ProjectionRebuild.HeadIsHeadAt | sessionmemory/projection_views.go:214-245 | a head read at some moment is the highest announced revision of its item at that moment, in every later log |
| ProjectionPorts.World.Advance | sessionmemory/projection.go:31-37 | refused unless the generation is dirty and the watermark does not go back; needs a durable index for it first |
| ProjectionPorts.World.Activate | sessionmemory/projection.go:31-37 | only a dirty generation is activated, and it supersedes the one active before |
| ProjectionPorts.World.Commit | sessionmemory/projection.go:39-46 | makes what is staged durable, or leaves the index as it was; the answer may be lost |
| ProjectionPorts.World.Apply | sessionmemory/projection.go:39-46 | merges the highest revision per item; a failed call may have applied a part |
| ProjectionPorts.ScanIsGapless | sessionmemory/projection_views.go:22-31 | a scan is free of gaps if and only if retention has not passed its cursor |
| ProjectionPorts.ActivatedKeepsOneActive | sessionmemory/projection.go:31-37 | only the generation recorded as active is advertised |
| CanonicalLog.CaughtUp | sessionmemory/projection.go:39-46 | an index that holds only announced revisions and is behind none of them is exactly the view of the active heads |
| CanonicalLog.MergeAllCovers | sessionmemory/projection.go:132-156 | merging all revisions of a stretch of the log moves the covered prefix across it, and never makes an index fall behind |
| ActivePages.PageIsExact | sessionmemory/projection_views.go:208-257 | a page is sorted, after its cursor, and complete up to its last item |
| ActivePages.KeyOrder | sessionmemory/store/badger/badger_session_memory_keys.go:68-73 | the store's key order of two items is by length first, because of the length prefix |
| ActivePages.ScanActiveHeads | sessionmemory/store/badger/badger_session_memory.go:676-720 | the scan returns the listed heads that are both at or after the cursor's key and greater as strings, up to the limit |
| ActivePages.BadgerPagingCorrectIff | sessionmemory/store/badger/badger_session_memory.go:676-720 | reading all pages lists every head once at every page size if and only if key order and string order agree on the items |
| ActivePages.EqualLengthsPageCorrectly | sessionmemory/store/badger/badger_session_memory.go:676-720 | items of one length always page correctly |
| ActivePages.MixedKindsLoseEvents | sessionmemory/store/badger/badger_session_memory.go:703-705 | a scope with one state and one event item, read one item a page, never lists the event: the paging claim is false for mixed kinds |
| TraceGraphs.ValidateTraceGraph | sessionmemory/retrieval_helpers.go:18-113 | accepts exactly a graph of the request's scope and root, within the node bound, of valid, unscored, unrepeated records of the scope, each active or superseded and none forgotten, that is the root's closed acyclic provenance closure; a graph of another scope or root is a ScopeViolation and one beyond the bound LimitExceeded |
| TraceGraphs.SearchClosure | sessionmemory/retrieval_helpers.go:63-113 | the search and the two counts decide closure, and each refusal names a real defect |
| TraceGraphs.RefutedIsNotClosure | sessionmemory/retrieval_helpers.go:65-99 | no closure is ever refused: cycle, missing parent or source, forgotten source each rule it out |
| TraceGraphs.FinishedIsAcyclic | sessionmemory/retrieval_helpers.go:75-101 | nodes blackened after all their parents lie on no cycle |
| TraceGraphs.CountsDecideClosure | sessionmemory/retrieval_helpers.go:103-112 | equal counts of visited and given nodes and sources mean the given graph is the closure, no more and no less |
| TraceGraphs.AcceptanceIgnoresOrder | sessionmemory/retrieval_helpers.go:18-113 | acceptance does not depend on the order of the lists |
| TraceGraphs.TraceWalk.Visit | sessionmemory/retrieval_helpers.go:65-102 | a visit finishes the whole provenance of its node or names a defect reachable from the root |
| TraceGraphs.TraceWalk.Explore | sessionmemory/retrieval_helpers.go:75-101 | grey on the way down, black on the way up; the uncoloured nodes strictly decrease |
| TraceGraphs.TraceWalk.VisitSources | sessionmemory/retrieval_helpers.go:80-91 | every raw source of the node resolves and is not a tombstone, and is recorded as visited |
| TraceGraphs.TraceWalk.VisitParents | sessionmemory/retrieval_helpers.go:92-98 | every parent is finished before the node |
| TraceGraphs.IndexHits | sessionmemory/retrieval_helpers.go:27-45 | builds the node table exactly when each hit is unscored, valid by its own field rules, of the scope, active or superseded, and not repeated |
| TraceGraphs.IndexSources | sessionmemory/retrieval_helpers.go:46-58 | the source index is built exactly when every source is valid, in scope and unrepeated |
| PortsValidation.ValidateSnapshot | sessionmemory/ports_validation.go:40-92 | accepts exactly bounded one-scope snapshots of valid records without a repeated source or revision identity |
| PortsValidation.CheckSnapshotRevisions | sessionmemory/ports_validation.go:70-91 | the seen map across three lists detects exactly the repeated identities |
| PortsValidation.ValidateRequest | sessionmemory/ports_validation.go:154-264 | accepts exactly the requests whose stage content, records, transitions and supersessions fit together |
| PortsValidation.CheckTransitions | sessionmemory/ports_validation.go:209-218 | every transition is a legal lifecycle change and none repeats a target |
| PortsValidation.CheckSupersessions | sessionmemory/ports_validation.go:219-243 | every superseding revision has its transition and no target is superseded twice |
| PortsValidation.TransitionsMatchSupersessions | sessionmemory/ports_validation.go:154-264 | in an accepted request the transitions and the superseding revisions are in bijection |
| PortsValidation.ValidateCommittedOutcome | sessionmemory/processing_helpers.go:58-88 | accepts exactly outcomes of the next version whose revisions are a permutation of the request's |
| BoundaryGrounding.ActiveOfMeaning | sessionmemory/engine_boundary.go:203-219 | with one active revision an item, to be a legal supersession target is to be the item's active revision |
| BoundaryGrounding.MaxNumberBounds | sessionmemory/engine_boundary.go:205-210 | the number index holds the highest stored number of each item |
| BoundaryGrounding.IndexScenarios | sessionmemory/engine_boundary.go:203-219 | fails exactly when some item has two active revisions; otherwise indexes active revisions, heads and highest numbers |
| BoundaryGrounding.GroundScenario | sessionmemory/engine_boundary.go:225-316 | accepts exactly a well-put candidate that cites active atoms and replaces the active revision of its topic if there is one, and makes the record of that very candidate |
| BoundaryGrounding.GroundScenarios | sessionmemory/engine_boundary.go:190-318 | succeeds exactly when every candidate fits and topics differ, and then gives one valid active record for each candidate, in order, with its own normalised topic, title and summary, its atoms and replaced revision as parents, the next number and the boundary's time; the transitions supersede exactly the replaced revisions, each once |
| BoundaryGrounding.BuiltScenarioRecords | sessionmemory/engine_boundary.go:240-311 | the stored topic, title and summary are each the normal form of that very field, the parents the cited atoms and then the replaced revision, the number one above all stored ones of the topic, the identity the hash of these |
| BoundaryGrounding.ScenariosAreRecorded | sessionmemory/engine_boundary.go:219-318 | a whole accepted answer becomes one such record for each candidate, and retires exactly what they replace |
| BoundaryGrounding.ScenarioCandidateIff | sessionmemory/derived_validation.go:257-280 | a candidate is well put exactly when topic, title and summary are within their limits and not blank, it cites one atom or more, and no reference is malformed or repeated |
| BoundaryGrounding.ProfileCandidateIff | sessionmemory/derived_validation.go:282-314 | a skip says nothing at all; an update carries text and cites something, nothing malformed or repeated, within the limit |
| BoundaryGrounding.BuiltScenarioIsValid | sessionmemory/engine_boundary.go:312-314 | an accepted candidate always becomes a revision that passes the full record check, so the last check never fires |
| BoundaryGrounding.ScanProfiles | sessionmemory/engine_boundary.go:374-392 | finds the active profile and the highest number, and fails exactly on two active profiles; the foreign-item test never fires on a valid snapshot |
| BoundaryGrounding.GroundProfile | sessionmemory/engine_boundary.go:320-448 | no candidate or a clean skip writes nothing; an update succeeds exactly when it cites active records only and replaces the active profile if and only if there is one |
| BoundaryGrounding.BuiltProfileRecords | sessionmemory/engine_boundary.go:389-448 | the stored profile is the normal form of the summary, the parents the cited atoms, scenarios and then the replaced profile, the number one above all stored ones, the identity the hash of these |
| BoundaryGrounding.BuiltProfileIsValid | sessionmemory/engine_boundary.go:444-446 | an accepted update always becomes a valid profile revision |
| BoundaryGrounding.AtomsAreNotScenarios | sessionmemory/engine_boundary.go:396-397 | atoms and scenarios never share an identity, so their concatenation has no duplicate |
| BoundaryGrounding.GroundedScenariosCommit | sessionmemory/engine_boundary.go:83-95 | if grounding succeeds the scenario commit request passes its own validation |
| BoundaryGrounding.GroundedProfileCommits | sessionmemory/engine_boundary.go:139-152 | if grounding succeeds the profile commit request passes its own validation |
| BoundaryGrounding.RetirementsMeaning | sessionmemory/engine_boundary.go:264-269 | the transitions built are valid, unrepeated and exactly the superseded revisions |
| BoundaryStore.ChainExtends | sessionmemory/engine_boundary.go:190-318 | a grounded batch extends each revision chain: rising numbers, and only the newest active |
| BoundaryStore.ScenarioCommitKeepsInv | sessionmemory/engine_boundary.go:38-96 | a scenario commit keeps every invariant of the scope |
| BoundaryStore.ProfileCommitKeepsInv | sessionmemory/engine_boundary.go:98-153 | a profile commit keeps every invariant of the scope |
| BoundaryStore.ElsewhereKeepsInv | sessionmemory/boundary.go:8-16 | turns and forgetting elsewhere keep every invariant of the scope |
| BoundaryStore.EveryRunKeepsOneActive | sessionmemory/engine_boundary.go:190-448 | over every run of boundaries, any model output, CAS conflicts and crashes: at most one active revision an item, distinct numbers, the active one highest |
| BoundaryStore.CommittedStaysCommitted | sessionmemory/engine_boundary.go:49-61 | a committed stage keeps its outcome and is never committed again |
| BoundaryStore.AtMostOnce | sessionmemory/engine_boundary.go:38-153 | no stage of a boundary takes effect twice in any interleaving |
| BoundaryStore.EffectIsOutcome | sessionmemory/processing_helpers.go:58-88 | the revisions a stage left are exactly those its outcome names |
| BoundaryStore.ProfileCommitKeepsOrder | sessionmemory/derived_validation.go:358-360 | a profile is always committed at a later scope version than the scenarios of its boundary |
| BoundaryStore.GroundedRequestIsValid | sessionmemory/engine_boundary.go:173-176 | the request validation in the commit stage never fails |
| BoundaryStore.EmptySynthesisCompletes | sessionmemory/engine_boundary.go:38-153 | progress: a boundary not yet processed can always complete both stages, if only with empty output |
| BoundaryCommits.ScenarioCommitEffect | sessionmemory/engine_boundary.go:82-95 | a scenario commit adds the records of its candidates and supersedes exactly what they replace; profiles, atoms, sources and earlier outcomes stay, and the recorded outcome names the new records in order |
| BoundaryCommits.ProfileCommitEffect | sessionmemory/engine_boundary.go:139-152 | the same of a profile update; a skip or no answer adds nothing |
| BoundaryCommits.CommitOfSnapshot | sessionmemory/engine_boundary.go:173-188 | a recorded request made at the version of a scope took effect on that very scope |
| BoundaryCommits.CommittedScenariosStay | sessionmemory/ports.go:52-71 | in every later state the records of a stage still record its answer, in their places, and what it replaced is never active again |
| BoundaryCommits.ReachesIsImmutable | sessionmemory/ports.go:52-71 | records stay where they are and as they are but for their lifecycle state, which never returns to active |
| BoundaryCommits.SnapshotFitsIff | sessionmemory/engine_boundary.go:155-171 | only the size of a scope can make its snapshot unacceptable |
| BoundaryProvenance.ScopeIsAcyclic | sessionmemory/engine_boundary.go:235-293 | no run of commits builds a provenance cycle |
| BoundaryProvenance.ParentsResolve | sessionmemory/engine_boundary.go:235-293 | every parent of every committed revision is in the scope |
| BoundaryProvenance.CutIsClosure | sessionmemory/retrieval_helpers.go:63-112 | the part of the scope a root cites is a closed acyclic closure if nothing in it was forgotten |
| BoundaryProvenance.TraceIsWellFormed | sessionmemory/retrieval_helpers.go:27-58 | every record of such a trace passes the check made of it before the search, by the invariant of the scope |
| BoundaryProvenance.CommittedClosureIsAccepted | sessionmemory/retrieval_helpers.go:18-113 | the trace of any revision in the scope, made of the store's own records within the node bound with nothing forgotten or invalidated, is accepted: commits build no cycle, no dangling parent and no invalid record |
| BoundaryProcessing.Port.Commit | sessionmemory/ports.go:76-88 | replays an equal request, refuses an unequal one or a stale version, otherwise takes one atomic step |
| BoundaryProcessing.Processor.LoadBoundarySnapshot | sessionmemory/engine_boundary.go:155-171 | a snapshot handed on is valid and is the scope at one moment |
| BoundaryProcessing.Processor.CommitBoundaryStage | sessionmemory/engine_boundary.go:173-188 | the request passes its validation and the store's answer passes the check of outcomes, always; a success is of a commit made in the very scope the request was grounded in, and a failure is of a call or of a commit by another worker |
| BoundaryProcessing.ScopeViewFromSnapshot | sessionmemory/clone.go:8-17 | a model is shown exactly the active records of the snapshot |
| BoundaryProcessing.ActiveRevisions | sessionmemory/clone.go:68-76 | the active records of a list, each of them and no other |
| BoundaryProcessing.Processor.ProcessScenarioStage | sessionmemory/engine_boundary.go:38-96 | lookup first, then at most one call of the model, shown the active records of the scope, and one commit; when the model was asked, success means that what it returned, acceptable in the scope it was asked about, was committed to that scope: one record for each candidate, exactly the replaced revisions superseded, and that outcome returned; if no call failed and nobody else committed, the stage fails only on a scope too large or an answer that is missing or unacceptable |
| BoundaryProcessing.Processor.ProcessProfileStage | sessionmemory/engine_boundary.go:98-153 | lookup first, then at most one call of the model, shown the active records of the scope, and one commit; when the model was asked, success means that the update it returned, or none for a skip, was committed to the scope it was asked about; failures as for scenarios |
| BoundaryProcessing.Processor.ProcessBoundary | sessionmemory/engine_boundary.go:7-36 | both stages answered from the record, without asking the model, or from the commit of what the model returned to the one call made; the closing check of both outcomes never fails; if no call failed and nobody else committed, a stage fails only on a scope too large or an answer that is missing or unacceptable |
| BoundaryProcessing.StagesPass | sessionmemory/derived_validation.go:339-362 | the recorded outcomes of both stages always pass the boundary outcome check |
| BoundaryProcessing.RecordedOutcome | sessionmemory/ports_validation.go:121-138 | a recorded outcome always passes the lookup validation of its own stage |
| Turns.ValidateTurn | sessionmemory/validation.go:44-105 | accepts exactly turns of a valid session with their own identity, one user message, at most one assistant message and up to 16 distinct tool messages |
| Turns.ValidTurnIsBounded | sessionmemory/validation.go:76-104 | a valid turn has at most 18 messages, identified apart and not empty |
| Turns.CheckRole | sessionmemory/validation.go:137-151 | accepts exactly a message of the role with text, no tool identity and no foreign identity |
| Turns.CheckTool | sessionmemory/validation.go:153-161 | accepts exactly a tool message with text, canonical names and its own identity |
| Turns.TrimMeaning | sessionmemory/validation.go:10-12 | trimming takes away the white space around a text, all of it and nothing else |
| Reconciler.ReconcileActive | sessionmemory/reconciler.go:61-145 | succeeds exactly on a well-formed candidate about at most one active item, and then names item, parent and revision |
| Reconciler.FindMatch | sessionmemory/reconciler.go:106-126 | the scan refuses a foreign or invalid item and a second match, and otherwise returns the only match |
| Reconciler.MatchMeaning | sessionmemory/reconciler.go:106-126 | no match means no active item shares the key or the evidence; a match is one that does |
| Reconciler.CheckMemory | sessionmemory/v2.go:288-305 | accepts exactly a memory of a known kind with a trimmed statement within its limit, a time and distinct well-formed evidence |
| Reconciler.CheckEvidenceRefs | sessionmemory/v2.go:366-378 | accepts exactly when each reference is well formed and none repeats |
| Reconciler.SharesEvent | sessionmemory/reconciler.go:147-156 | two lists share an event exactly when they cite one message in common |
| Reconciler.SemanticPartIff | sessionmemory/reconciler.go:158-164 | a part is usable exactly when it is not blank and, normalised, within the limit |
| Reconciler.FoldIff | sessionmemory/reconciler.go:158-164 | two parts fold to one exactly when they have the same words up to case, however spaced |
| TurnMutations.CanonicalizeCandidate | sessionmemory/canonical_processor.go:259-283 | an evidence claim survives exactly when it points at whole code points of a message of the captured turn, under its role and digest |
| TurnMutations.BuildMutation | sessionmemory/canonical_processor.go:121-235 | succeeds exactly when every candidate is grounded and reconcilable, items differ and the mutation is valid; repeated messages, repeated revisions and unobserved parents never occur |
| TurnMutations.ValidateMutation | sessionmemory/canonical.go:338-439 | accepts exactly bounded mutations of fitting records with identities distinct within each kind |
| TurnMutations.AreUnique | sessionmemory/canonical.go:458-470 | the seen map finds exactly the repeated identities |
| TurnMutations.BuiltIsBounded | sessionmemory/canonical_processor.go:121-235 | at most 198 records, so the limit of 512 is never reached |
| TurnMutations.BuiltIsUnique | sessionmemory/canonical_processor.go:121-235 | source, message, item, revision, lifecycle, head and payload identities are pairwise distinct |
| TurnMutations.BuiltIsValidUnlessRepeated | sessionmemory/v2.go:331-335 | a built mutation is refused if and only if some revision would be its own parent |
| TurnMutations.SupersededIsObserved | sessionmemory/canonical_processor.go:298-308 | the reconciler never selects an item the processor did not observe |
| TurnMutations.ActiveRevision | sessionmemory/canonical_processor.go:298-308 | the parent and next number of the observed item, or number one without a parent |
| TurnRecords.SameStateIff | sessionmemory/reconciler.go:92-96 | with the same qualifiers, two state candidates are about one item exactly when subject and attribute have the same words up to case and spacing |
| TurnRecords.ClaimsAreGrounded | sessionmemory/canonical_processor.go:259-283 | evidence is kept claim by claim, each with the digest of the captured message it points into |
| TurnRecords.ResolvedRecords | sessionmemory/reconciler.go:92-144 | a reconciled candidate becomes a revision with its own statement, first message and grounded evidence, under the item it replaces, as the next after that item's head, or under its own new item as number one |
| TurnRecords.CaptureIsRecorded | sessionmemory/canonical_processor.go:135-176 | a built mutation records the turn's source, each message with its role, and a payload for each of these and of the revisions |
| TurnRecords.BuiltRecords | sessionmemory/canonical_processor.go:178-229 | it has one revision, head, lifecycle event and outcome entry for each candidate, in order, and an item for exactly those that replace nothing |
| TurnRecords.DeliveryRecords | sessionmemory/canonical_processor.go:107-118 | a delivery that takes effect leaves exactly that in the scope: each candidate's revision heads its item, the outcome names them in order, and everything else stays |
| TurnStore.FreshMatch | sessionmemory/reconciler.go:106-126 | for a turn not committed before, an event matches nothing and a state matches the observed item of its key only |
| TurnStore.ChainContinuesIffListed | sessionmemory/canonical_processor.go:80-83 | a new revision follows its item's head if and only if the item has no head or is among the 256 listed; beyond them it restarts at number one |
| TurnCrowd.ChainStartsAgain | sessionmemory/canonical_processor.go:80-83 | a scope of 257 items in which a new revision of the unlisted one is number one without a parent |
| TurnCrowd.CrowdBreaksTheLog | sessionmemory/canonical_processor.go:80-83 | one delivery turns the canonical log of that scope into one that is not, and the fold of the old log with the change merged in is not the view of the heads |
| TurnLog.ContinuesIff | sessionmemory/canonical_processor.go:80-83 | every revision of an accepted mutation continues its item's chain if and only if the item is new or listed |
| TurnLog.StepKeepsOrderIff | sessionmemory/store/badger/badger_session_memory.go:374-390 | one commit keeps the announced revisions of each item rising along the log if and only if every item it comes to is new or listed, and then each head stays the highest |
| TurnLog.RunKeepsOrderIff | sessionmemory/store/badger/badger_session_memory.go:374-390 | the same of a whole run: its log announces exactly the stored revisions, and rises if and only if each delivery comes to new or listed items |
| TurnLog.IsCanonicalIff | sessionmemory/canonical.go:53-60 | under any injective naming of items and revisions, the scope is a canonical state as projections read it if and only if no head is outranked and the numbers rise |
| TurnLog.EveryRunIsCanonicalIff | sessionmemory/canonical_processor.go:74-83 | the log of every run of turns has one change a commit and is a canonical log if and only if every delivery came to new or listed items; so always with at most 256 active items |
| TurnLog.FollowerShowsHeads | sessionmemory/projection.go:46-52 | folding such a log gives each item its head and nothing else |
| TurnLog.RunGrows | sessionmemory/projection.go:131-156 | further deliveries change the canonical state only as projections expect of commits: the log grows at its end, revisions stay, items keep a head |
| TurnLog.RestartIsPassedOver | sessionmemory/projection.go:46-52 | an index that keeps the highest number of an item passes over the revision that starts its chain again and shows one that is no longer the head |
| TurnLog.RestartBreaksTheLog | sessionmemory/canonical_processor.go:80-83 | such a delivery turns any canonical log into one that is not, and its fold with the change merged in is not the view of the heads |
| TurnStore.StepKeepsChains | sessionmemory/canonical_processor.go:178-229 | a commit extends the revision chains while the active set fits the scan |
| TurnStore.EveryRunKeepsChains | sessionmemory/canonical_processor.go:178-229 | in every reachable state with at most 256 active items, walking parents from a head visits numbers n to 1 of its item, each once |
| TurnStore.KeysNameOneItem | sessionmemory/reconciler.go:92-96 | no two items share a memory key, in any run and at any size |
| TurnStore.CommittedStaysCommitted | sessionmemory/canonical.go:233-249 | a committed export keeps its outcome and never changes the scope again, whatever the extractor returns |
| TurnStore.AtMostOnce | sessionmemory/canonical_processor.go:139-152 | no export takes effect twice in any interleaving |
| TurnStore.CollisionIsUnreachable | sessionmemory/canonical_processor.go:314-316 | an operation is only ever recorded with the fingerprint of its own export, so the collision refusal is unreachable |
| TurnRedelivery.FirstDeliveryIsValid | sessionmemory/canonical_processor.go:231-233 | on a first delivery the final validation never refuses |
| TurnRedelivery.ResolvesIff | sessionmemory/reconciler.go:61-145 | a candidate is reconciled if and only if it is well formed and about one listed item at most |
| TurnRedelivery.BuildableIff | sessionmemory/canonical_processor.go:121-235 | first delivery or not, a valid turn becomes a mutation if and only if each candidate is well formed and about one listed item at most, the items differ, and none repeats the revision heading the item it is about |
| TurnRedelivery.RepeatIsRefused | sessionmemory/canonical_processor.go:36-119 | a candidate of either kind that repeats the revision heading a listed item it is about is refused, instead of being answered with the recorded outcome |
| TurnRedelivery.SameDeliveryIsRefused | sessionmemory/canonical_processor.go:36-119 | every turn that commits a listed memory, of a state or an event, is refused when delivered again with the same candidates |
| TurnRedelivery.TwoEventsAreAmbiguous | sessionmemory/reconciler.go:118-125 | two events resting on one message commit, and delivered again each is about both items, so none can be reconciled |
| TurnRedelivery.ConcreteRedelivery | sessionmemory/canonical_processor.go:36-119 | one such turn for each kind, from the empty scope: its first delivery commits and its second is refused |
| TurnRedelivery.ConcreteAmbiguity | sessionmemory/reconciler.go:118-125 | one such pair of events, from the empty scope |
| TurnRedelivery.QuietTurnCommits | sessionmemory/canonical_processor.go:36-119 | progress: a turn with nothing to remember always commits |
| TurnProcessing.TextExceeds | sessionmemory/processing_helpers.go:47-56 | true exactly when the messages together are longer than the limit |
| TurnProcessing.Port.ApplyMutation | sessionmemory/canonical.go:233-249 | replays a recorded operation, whatever the version, refuses a stale version, otherwise one atomic step; the fingerprint refusal is dead |
| TurnProcessing.ProcessTurn | sessionmemory/canonical_processor.go:36-119 | takes only steps of the relation; the extractor is asked once at most, about this turn; success returns the recorded outcome; what this call commits, even if its answer is lost, is the turn with the very candidates the extractor returned, in the scope scanned for them; candidates acceptable there are refused only if a call fails or, for a first delivery, another worker commits after the version was read; without failure nothing else ends the call early but an invalid turn |
| TurnProcessing.DeriveAndCommit | sessionmemory/canonical_processor.go:80-118 | the version is read before the scan, so stale work is refused; a commit made here records the extracted candidates in the scanned scope; acceptable candidates are refused only by a failed call or a commit of another worker |
| TurnProcessing.ActiveIsFit | sessionmemory/canonical_processor.go:285-296 | stored memory always passes the check made of what is scanned |
| ProjectionRuntime.Runtime.CheckClosing | sessionmemory/app/projection.go:75-80 | a call is refused once closing is set, else it takes a serial no other call holds |
| ProjectionRuntime.Runtime.SetClosing | sessionmemory/app/projection.go:99-101 | set under the mutex, so no call is between the test and the count |
| ProjectionRuntime.Runtime.Wait | sessionmemory/app/projection.go:102-103 | returns only when no admitted call is left running |
| ProjectionRuntime.Runtime.Interleave | sessionmemory/app/projection.go:64-104 | every step of every interleaving is the one its call has next, or none while it is blocked; after a returned Close no Sync is running and none is ever admitted; serials are distinct |
| ProjectionRuntime.Runtime.Step | sessionmemory/app/projection.go:64-104 | a call that is not blocked takes its next step: a Sync is refused exactly if the runtime is closing and else numbered, counted, run and finished; only a Close makes the runtime closing |
| ProjectionRuntime.Runtime.Drain | sessionmemory/app/projection.go:64-104 | shutdown comes to an end: whatever calls are under way, each of them ends and every Close returns |
| ProjectionRuntime.NoDeadlock | sessionmemory/app/projection.go:64-104 | while any call has steps to take, some call can take its next one |
| ProjectionRuntime.ClosingStep | sessionmemory/app/projection.go:95-104 | closing seals admission and a returned Close leaves the wait group empty for good |
| Codec.ReadVarint | sessionmemory/v2.go:453-465 | the base-128 value modulo 2 to the 64th of the varint at the offset; fails exactly when there is none |
| Codec.AppendProtoBytes | sessionmemory/v2.go:440-451 | appends one field in wire form |
| Codec.ReadField | sessionmemory/v2.go:396-424 | fails exactly when no known length-delimited field starts at the offset |
| Codec.ReadFields | sessionmemory/v2.go:396-424 | succeeds exactly on the wire form of distinct known fields, in any order and with any varint length |
| Codec.Unmarshal | sessionmemory/v2.go:396-429 | succeeds exactly on the encodings of a sealed envelope, of this schema, with a canonical type, a payload and its digest |
| Codec.Marshal | sessionmemory/v2.go:381-394 | fails exactly on a bad type or an empty payload; the octets are the four fields in order, each with its tag, length and value |
| Codec.Layout | sessionmemory/v2.go:431-438 | the octets of an envelope, tag by tag |
| Codec.WireUnique | sessionmemory/v2.go:396-424 | an encoding has one reading |
| Codec.EncodesUnique | sessionmemory/v2.go:396-429 | an encoding decodes to one envelope |
| Codec.EnvelopeRoundTrip | sessionmemory/v2.go:381-429 | marshalling a sealed envelope yields an encoding of it |
| Codec.AnyOrderDecodes | sessionmemory/v2.go:396-429 | any field order and overlong varints decode to the same envelope |
| Codec.StoreAndLoad | sessionmemory/v2.go:381-429 | what is marshalled is what is unmarshalled, for every record type and payload |
| Keys.WriteHashPart | sessionmemory/types.go:252-257 | eight octets of length, then the part |
| Keys.HashPreimage | sessionmemory/derived_id.go:132-140 | the preimage is the framed schema, kind and parts |
| Keys.ExportPreimage | sessionmemory/types.go:238-246 | the preimage is the bare schema followed by the framed kind and parts |
| Keys.ExportPreimageInjective | sessionmemory/types.go:238-257 | equal export preimages mean equal kind and parts |
| Keys.StreamInjective | sessionmemory/types.go:252-257 | equal streams mean equal part lists |
| Keys.StreamPrefix | sessionmemory/types.go:252-257 | one stream is a byte prefix of another if and only if its parts are a list prefix |
| Keys.TupleKey | sessionmemory/v2.go:467-482 | fails exactly on a component that is not canonical, such as an empty one, or is oversized |
| Keys.TupleKeyPrefix | sessionmemory/v2.go:467-482 | under one namespace and version, byte prefix is exactly list prefix |
| Utf8.BoundaryIsStart | sessionmemory/v2.go:238-243 | in valid UTF-8 the non-continuation octets are exactly the code-point starts |
| Utf8.HeadOfEncoded | sessionmemory/v2.go:238-243 | the encoding of every Unicode scalar value is recognised at the head of a string |
| Utf8.HeadIsEncoded | sessionmemory/v2.go:238-243 | and nothing else is |
| Utf8.ValidIff | sessionmemory/v2.go:223-236 | a string is valid exactly when it is the encoding of some text |
| Utf8.CutAtBoundary | sessionmemory/v2.go:238-243 | a cut at a boundary leaves two valid pieces |
| Utf8.CutInsideCodePoint | sessionmemory/v2.go:238-243 | a cut anywhere else leaves two invalid ones |
| Utf8.NewEvidenceRef | sessionmemory/v2.go:223-236 | succeeds exactly for a non-empty span that cuts the text into three valid pieces, under a fitting role |
| Utf8.SpanFitsIff | sessionmemory/v2.go:223-243 | a span passes the boundary test if and only if it cuts valid text into three valid pieces |
| Identity.CanonicalProvenanceParts | sessionmemory/derived_id.go:95-130 | the sorted sources then the sorted parents, each tagged |
| Identity.SortCorrect | sessionmemory/derived_id.go:97-119 | the sort keeps the elements and orders them |
| Identity.OrderedUnique | sessionmemory/derived_id.go:97-119 | a multiset of references has one sorted order |
| Identity.IdentityIgnoresProvenanceOrder | sessionmemory/derived_id.go:49-93 | permuting raw sources or parents leaves the revision identity unchanged |
| Identity.IdentityInjective | sessionmemory/derived_id.go:49-130 | for a fixed number of content parts equal part lists mean equal scope, item, operation, content and supersession, and provenance equal as multisets |
| Identity.PreimageInjective | sessionmemory/derived_id.go:49-140 | the same of the hashed bytes |
| Identity.SamePartsSameRevisionIff | sessionmemory/derived_id.go:49-130 | equal part lists are of one revision if and only if the numbers of content parts agree |
| Identity.AtomIdentityInjective | sessionmemory/derived_validation.go:176-180 | the numbers the engine uses for an atom, three or five by its relation, always agree, so its identity is injective |
| Identity.ContentCanImitateProvenance | sessionmemory/derived_id.go:49-93 | without the same number the claim is false: the first of two sorted parents can be read as three more content parts, with acceptable provenance on both sides |
| Text.NormalizeIdempotent | sessionmemory/derived_validation.go:537-539 | normalised text is in normal form |
| Text.NormalizeShrinks | sessionmemory/derived_validation.go:515-535 | a size limit met before normalising is met after it |
| Text.NormalizeEmpty | sessionmemory/derived_validation.go:526-535 | text is refused as missing exactly when it is all white space |
| Text.FieldsIff | sessionmemory/derived_validation.go:537-539 | splitting finds exactly the words of a text, in order |
| Text.NormalizeKeepsWords | sessionmemory/derived_validation.go:537-539 | normalising keeps every word, in order and unchanged |
| Text.NormalizeSameIff | sessionmemory/derived_validation.go:537-539 | texts are normalised alike exactly when they have the same words |
| Text.NormalizeIsTight | sessionmemory/derived_validation.go:537-539 | normalised text has a single blank between words and none around them |
| Derived.OperationIdInjective | sessionmemory/processing_helpers.go:11-32 | one idempotency key names one stage of one export under one derivation |
| Derived.RefsErrorMeaning | sessionmemory/derived_validation.go:498-513 | references are accepted exactly when each is well formed and none repeats |
| Derived.SourcesErrorMeaning | sessionmemory/derived_validation.go:114-153 | raw sources are accepted exactly when each is well formed and of the scope, and no export is named twice |
| Derived.ScopeIff | sessionmemory/validation.go:9-24 | a scope key is accepted exactly when it is a lower-case channel and an address around the first colon, without white space around them or in the channel |
| Derived.NormalizedTextIsStorable | sessionmemory/derived_validation.go:184-211 | what the engine normalises from accepted text is accepted stored text |
| Derived.ValidRevisionIsGenuine | sessionmemory/derived_validation.go:401-455 | a valid revision's identities are hashes of its own fields, its related revision and that one's normalised names included, and it is grounded |
| Derived.ValidRevisionIff | sessionmemory/derived_validation.go:401-487 | a revision is valid exactly when its texts are stored texts, kind and item are those of its body, it is numbered, dated and grounded, its relation and supersession fit, and its identity is the hash of its own fields |

## Left out

- Backoffice, command line, HTTP, MCP tools, wiring, configuration, git, logging: not memory logic.
- Bleve index and its generation marker: abstracted by the applier contract (stage, commit, highest revision per item). The adapter commits a generation once, so a Sync of several batches against it fails on the second commit; the abstract applier does not show this.
- Badger store: only its head paging and key order are modelled; elsewhere a store is the contract its tests state (atomic commit, replay by fingerprint, stale version refused).
- Delivery outbox, forgetting commands, recall scoring, search responses and derivedReferenceLess: not part of this model. Forgetting appears as an arbitrary invalidation of boundary records by the rest of the system, and not at all under turn processing.
- Scope checkpoints (ScopeCheckpointRecorder): a single comparison with the prior cursor.
- SHA-256, JSON, clocks and context cancellation: a digest function, identities by parts, integer times, and failures at any call.
- Unicode white space and case folding: text rules are over ASCII; qualifiers are kept as their NUL-joined string, with no claim that joining is injective.
- Unsigned 64-bit wrap-around of versions, sequences, numbers and serials: natural numbers.
- Schema version strings and enumerations fixed by type: a value of the model cannot carry a wrong one, except message text, candidate kinds and turn status.
- Error texts and the order in which independent checks report: only whether a check fails, and the code where a branch gives one.
- Projection.Coordinator.LoadChanges: reads made for a view and not used by a rebuild; only that they leave the index alone.
- Projection.Coordinator.Build: scope ownership and the field rules of a view are not modelled, because one scope of valid records is.
- ProjectionPorts.World: one writer per generation, as the runtime gives each Sync its own; commits during a run are finite in number (the horizon), so termination is of the loops and not of a system that never stops committing.
- CanonicalLog: takes from the writers that an item's revisions rise along the log and its head is the highest. TurnLog proves when the turn processor's runs are such, under any injective naming of identities; the changes of a forgetting are not modelled.
- BoundaryStore: one scope; the snapshot is the whole scope, so superseded and invalidated revisions take part in numbering; atoms cite earlier atoms only.
- BoundaryProvenance.CommittedClosureIsAccepted: takes from the store that it hands back its own records, each once, and from the request its scope and root; that nothing was forgotten or invalidated and that the trace is within the node bound are hypotheses.
- Derived: atoms are validated and hashed but not built, since the boundary stages build none.
- TurnStore: one policy version and one derivation for the life of the store, as the application service fixes them; the order in which heads are listed is arbitrary.
- TurnProcessing.ProcessTurn: source and message identities a caller may leave empty are derived where they are used instead of being written back into the turn.
- ProjectionRuntime.Runtime: the steps of a call are atomic and its work between Admit and Done is opaque; starting the runtime is not modelled.
- TraceGraphs.IndexSources: the raw turn of a record is its own reference and the verdict of its validation.
- PortsValidation.ValidateSnapshot: the raw turn of a source record is its own reference and the verdict of its validation.
- PortsValidation.ValidateRequest: the raw turn of a source record is its own reference and the verdict of its validation.
- Reconciler.ReconcileActive: temporal rules other than the two times, and the sensitivity and retention labels, are carried as the verdicts of their checks, because nothing else depends on them.
- TurnMutations.ValidateMutation: field rules of source, message and payload records are left out, because built mutations copy those fields from a validated turn.
- Text.NormalizeIdempotent: white space is ASCII only.
- Text.NormalizeShrinks: white space is ASCII only.
- Text.NormalizeEmpty: white space is ASCII only.
- TurnCrowd.ChainStartsAgain: the scope satisfies the invariant of every run and its log is canonical; a run of 257 commits that leads to it is not spelled out.
