// One scope of derived memory under concurrent boundary processing: the store as a state
// machine (ports.go; boundary.go, BoundaryStore), and what every run of it keeps.
module BoundaryStore {
  import opened Wrappers
  import opened Text
  import opened Derived
  import opened TraceGraphs
  import opened PortsValidation
  import opened BoundaryGrounding

  datatype Committed = Committed(request: CommitRequest, outcome: Outcome)

  // The lists are in commit order; committed holds one entry for each operation that took
  // effect.
  datatype Store = Store(
    scope: Scope, version: nat, sources: seq<SourceRecord>,
    atoms: seq<AtomRevision>, scenarios: seq<ScenarioRevision>, profiles: seq<ProfileRevision>,
    committed: map<OperationId, Committed>)

  function SnapshotOf(s: Store): Snapshot {
    Snapshot(s.scope, s.version, s.sources, s.atoms, s.scenarios, s.profiles)
  }

  // ----- what a commit does -----

  function Retired(r: Revision, refs: set<RevisionRef>): Revision {
    if r.Ref() in refs && r.meta.state == Active then r.(meta := r.meta.(state := Superseded)) else r
  }

  function Retire(list: seq<Revision>, refs: set<RevisionRef>): (retired: seq<Revision>)
    ensures |retired| == |list| && forall i | 0 <= i < |list| :: retired[i] == Retired(list[i], refs)
  {
    seq(|list|, i requires 0 <= i < |list| => Retired(list[i], refs))
  }

  function OutcomeOf(q: CommitRequest, version: nat): Outcome {
    Outcome(q.operation, q.stage, q.scope, version, Refs(q.Revisions()))
  }

  // A boundary commit: the retired revisions change state, the new ones are appended.
  function Apply(s: Store, q: CommitRequest): Store {
    var refs := TransitionRefs(q.transitions);
    s.(version := s.version + 1,
       scenarios := Retire(s.scenarios, refs) + q.scenarios,
       profiles := Retire(s.profiles, refs) + q.profiles,
       committed := s.committed[q.operation := Committed(q, OutcomeOf(q, s.version + 1))])
  }

  // ----- the steps -----

  // What any worker may do to the scope in one commit.
  datatype Action =
    | CommitScenarios(b: Boundary, d: Derivation, candidates: seq<ScenarioCandidate>)
    | CommitProfile(b: Boundary, d: Derivation, candidate: Option<ProfileCandidate>)
    | Elsewhere(next: Store)

  // The inputs for which ProcessingOperationID succeeds.
  predicate HasOperation(b: Boundary, d: Derivation) {
    IsCanonicalId(b.exportId) && DerivationError(d).None?
  }

  function Operation(stage: Stage, b: Boundary, d: Derivation): OperationId
    requires HasOperation(b, d)
  {
    ProcessingOperationId(stage, b.exportId, d).value
  }

  // Two metadata that differ in the lifecycle state at most.
  predicate SameButState(r: Revision, q: Revision) {
    q == r.(meta := r.meta.(state := q.meta.state))
  }

  predicate KeptOrInvalidated(list: seq<Revision>, next: seq<Revision>) {
    |next| == |list| && forall i | 0 <= i < |list| ::
      SameButState(list[i], next[i]) && (next[i].meta.state == list[i].meta.state || next[i].meta.state == Invalidated)
  }

  predicate CitesEarlierAtoms(list: seq<Revision>, i: nat)
    requires i < |list|
  {
    forall q | q in list[i].meta.provenance.parents :: exists k | 0 <= k < i :: list[k].Ref() == q
  }

  predicate CitesKnownSources(sources: seq<SourceRecord>, r: Revision) {
    forall s | s in r.meta.provenance.rawSources :: exists k | 0 <= k < |sources| :: sources[k].ref == s
  }

  // The rest of the system: turns are ingested, which adds sources and atoms that cite
  // earlier atoms, and memory is forgotten, which invalidates revisions and leaves
  // tombstones. Scenarios and profiles come from boundaries only.
  predicate ElsewhereStep(s: Store, n: Store) {
    && n.scope == s.scope && n.version > s.version
    && KeptOrInvalidated(s.scenarios, n.scenarios) && KeptOrInvalidated(s.profiles, n.profiles)
    && |s.atoms| <= |n.atoms| && (forall i | 0 <= i < |s.atoms| :: SameButState(s.atoms[i], n.atoms[i]))
    && (forall i | |s.atoms| <= i < |n.atoms| ::
          RecordFits(s.scope, n.atoms[i]) && CitesEarlierAtoms(n.atoms, i) && CitesKnownSources(n.sources, n.atoms[i]))
    && UniqueIds(n.atoms)
    && |s.sources| <= |n.sources| && (forall i | 0 <= i < |s.sources| :: n.sources[i].ref == s.sources[i].ref)
    && (forall i | 0 <= i < |n.sources| :: SourceRecordError(n.sources[i]) == None && n.sources[i].ref.scope == s.scope)
    && (forall i, j | 0 <= i < j < |n.sources| :: n.sources[i].ref.exportId != n.sources[j].ref.exportId)
    && (forall op | op in s.committed :: op in n.committed && n.committed[op] == s.committed[op])
    && (forall op | op in n.committed && op !in s.committed :: IsAtomOperation(op))
  }

  predicate IsAtomOperation(op: OperationId) {
    op.OperationId? && op.parts != [] && op.parts[0] == StageName(AtomStage)
  }

  // The candidates are what grounding accepts in this state.
  predicate Grounds(s: Store, a: Action)
    requires !a.Elsewhere?
  {
    && ValidBoundary(a.b) && a.b.scope == s.scope && HasOperation(a.b, a.d)
    && match a
       case CommitScenarios(b, d, candidates) =>
         |candidates| <= MAX_CANDIDATE_COUNT && ScenariosFit(s.scope, SnapshotOf(s), candidates)
       case CommitProfile(b, d, candidate) =>
         Operation(ScenarioStage, b, d) in s.committed && ProfileAccepted(s.scope, SnapshotOf(s), candidate)
  }

  // The operation a boundary commit performs.
  function OperationOf(a: Action): OperationId
    requires !a.Elsewhere? && HasOperation(a.b, a.d)
  {
    Operation(if a.CommitScenarios? then ScenarioStage else ProfileStage, a.b, a.d)
  }

  predicate Enabled(s: Store, a: Action) {
    match a
    case Elsewhere(next) => ElsewhereStep(s, next)
    case _ => Grounds(s, a) && OperationOf(a) !in s.committed
  }

  function RequestOf(s: Store, a: Action): CommitRequest
    requires !a.Elsewhere? && HasOperation(a.b, a.d)
  {
    match a
    case CommitScenarios(b, d, candidates) => ScenarioRequest(b, Operation(ScenarioStage, b, d), SnapshotOf(s),
      candidates)
    case CommitProfile(b, d, candidate) => ProfileRequest(b, Operation(ProfileStage, b, d), SnapshotOf(s), candidate)
  }

  function Next(s: Store, a: Action): Store
    requires Enabled(s, a)
  {
    if a.Elsewhere? then a.next else Apply(s, RequestOf(s, a))
  }

  // ----- the invariant -----

  // Along the list, an item's revisions have rising numbers and only its newest is active.
  ghost predicate Chained(list: seq<Revision>) {
    forall i, j | 0 <= i < j < |list| && list[i].meta.item == list[j].meta.item ::
      list[i].meta.number < list[j].meta.number && list[i].meta.state != Active
  }

  ghost predicate RefIn(list: seq<Revision>, ref: RevisionRef) {
    exists r :: r in list && r.Ref() == ref
  }

  // Every revision cites records of an earlier layer or earlier ones of its own.
  ghost predicate CitesEarlier(base: seq<Revision>, list: seq<Revision>) {
    forall i | 0 <= i < |list| :: forall q | q in list[i].meta.provenance.parents ::
      RefIn(base, q) || RefIn(list[..i], q)
  }

  ghost predicate NoRawSources(list: seq<Revision>) {
    forall i | 0 <= i < |list| :: list[i].meta.provenance.rawSources == []
  }

  // Provenance leads to records already there, atoms before scenarios before profiles.
  ghost predicate Grounded(s: Store) {
    && (forall i | 0 <= i < |s.atoms| :: CitesEarlierAtoms(s.atoms, i) && CitesKnownSources(s.sources, s.atoms[i]))
    && NoRawSources(s.scenarios) && CitesEarlier(s.atoms, s.scenarios)
    && NoRawSources(s.profiles) && CitesEarlier(s.atoms + s.scenarios, s.profiles)
  }

  // An operation's effect is what its recorded outcome says, no more and no less.
  ghost predicate Recorded(s: Store, list: seq<Revision>) {
    forall r | r in list :: r.meta.operation in s.committed &&
      r.Ref() in s.committed[r.meta.operation].outcome.revisions
  }

  ghost predicate HonestOutcome(s: Store, op: OperationId)
    requires op in s.committed
  {
    var o, q := s.committed[op].outcome, s.committed[op].request;
    && o == OutcomeOf(q, q.expected + 1) && ValidOutcome(o) && o.operation == op && o.scope == s.scope &&
      o.version <= s.version
    && (o.stage == ScenarioStage || o.stage == ProfileStage)
    && op.OperationId? && op.parts != [] && op.parts[0] == StageName(o.stage)
    && forall ref | ref in o.revisions :: exists r ::
      r in s.scenarios + s.profiles && r.Ref() == ref && r.meta.operation == op
  }

  // Every profile commit came after the scenario commit of its boundary.
  ghost predicate StagesInOrder(s: Store) {
    forall b: Boundary, d: Derivation | HasOperation(b, d) && Operation(ProfileStage, b, d) in s.committed ::
      && Operation(ScenarioStage, b, d) in s.committed
      && s.committed[Operation(ScenarioStage, b, d)].outcome.version <
        s.committed[Operation(ProfileStage, b, d)].outcome.version
  }

  ghost predicate SourcesFit(s: Store) {
    && (forall i | 0 <= i < |s.sources| :: SourceRecordError(s.sources[i]) == None && s.sources[i].ref.scope == s.scope)
    && (forall i, j | 0 <= i < j < |s.sources| :: s.sources[i].ref.exportId != s.sources[j].ref.exportId)
  }

  ghost predicate RecordsFit(s: Store) {
    && ScopeError(s.scope) == None && SourcesFit(s)
    && AllFit(s.scope, s.atoms) && AllFit(s.scope, s.scenarios) && AllFit(s.scope, s.profiles)
    && UniqueIds(s.atoms) && UniqueIds(s.scenarios) && UniqueIds(s.profiles)
  }

  ghost predicate Effects(s: Store) {
    && Recorded(s, s.scenarios) && Recorded(s, s.profiles)
    && (forall op | op in s.committed && !IsAtomOperation(op) :: HonestOutcome(s, op))
    && StagesInOrder(s)
  }

  ghost predicate Inv(s: Store) {
    RecordsFit(s) && Chained(s.scenarios) && Chained(s.profiles) && Grounded(s) && Effects(s)
  }

  const EMPTY_SCOPE := Store(Scope("a:b", Personal), 0, [], [], [], [], map[])

  lemma EmptyScope(scope: Scope)
    requires ScopeError(scope) == None
    ensures Inv(EMPTY_SCOPE.(scope := scope))
  {
  }

  // ----- records that differ in their state only -----

  ghost predicate SameRecords(list: seq<Revision>, next: seq<Revision>) {
    |next| == |list| && forall i | 0 <= i < |list| :: SameButState(list[i], next[i])
  }

  lemma StateIsFree(r: Revision, q: Revision)
    requires SameButState(r, q)
    ensures RevisionError(q) == RevisionError(r) && q.Ref() == r.Ref()
  {
    hide ScopeError, StoredTextError, ProvenanceError, RefError;
  }

  lemma RetireKeepsRecords(list: seq<Revision>, refs: set<RevisionRef>)
    ensures SameRecords(list, Retire(list, refs))
  {
  }

  lemma SameRecordsKeep(scope: Scope, list: seq<Revision>, next: seq<Revision>)
    requires SameRecords(list, next)
    ensures AllFit(scope, list) ==> AllFit(scope, next)
    ensures UniqueIds(list) ==> UniqueIds(next)
    ensures forall ref :: RefIn(list, ref) <==> RefIn(next, ref)
  {
    hide RevisionError;
    forall i | 0 <= i < |list| ensures RecordFits(scope, list[i]) == RecordFits(scope, next[i]) &&
      list[i].Ref() == next[i].Ref() {
      StateIsFree(list[i], next[i]);
    }
    if AllFit(scope, list) {
      forall r | r in next ensures RecordFits(scope, r) {
        var i :| 0 <= i < |next| && next[i] == r;
        assert list[i] in list;
      }
    }
    forall ref ensures RefIn(list, ref) <==> RefIn(next, ref) {
      if RefIn(list, ref) {
        var r :| r in list && r.Ref() == ref;
        var i :| 0 <= i < |list| && list[i] == r;
        assert next[i] in next;
      }
      if RefIn(next, ref) {
        var r :| r in next && r.Ref() == ref;
        var i :| 0 <= i < |next| && next[i] == r;
        assert list[i] in list;
      }
    }
  }

  lemma SameRecordsPrefix(list: seq<Revision>, next: seq<Revision>, n: nat)
    requires SameRecords(list, next) && n <= |list|
    ensures SameRecords(list[..n], next[..n])
  {
  }

  // ----- revision chains -----

  lemma ChainedIsSingle(list: seq<Revision>)
    requires Chained(list)
    ensures SingleActive(list)
  {
  }

  // Retiring or invalidating breaks no chain.
  lemma WeakeningKeepsChain(list: seq<Revision>, next: seq<Revision>)
    requires Chained(list) && SameRecords(list, next)
    requires forall i | 0 <= i < |list| :: next[i].meta.state == Active ==> list[i].meta.state == Active
    ensures Chained(next)
  {
  }

  // What a grounded batch is to the list it joins: one new revision for each of some
  // items, numbered after all before it and replacing the active one.
  ghost predicate Continues(list: seq<Revision>, built: seq<Revision>) {
    && (forall i, j | 0 <= i < j < |built| :: built[i].meta.item != built[j].meta.item)
    && forall i | 0 <= i < |built| ::
         built[i].meta.number == MaxNumber(list, built[i].meta.item) + 1 &&
           built[i].meta.supersedes == ActiveOf(list, built[i].meta.item)
  }

  lemma ChainExtends(list: seq<Revision>, built: seq<Revision>, refs: set<RevisionRef>)
    requires Chained(list) && Continues(list, built) && refs == Targets(built)
    ensures Chained(Retire(list, refs) + built)
  {
    var next := Retire(list, refs);
    var all := next + built;
    ChainedIsSingle(list);
    forall i, j | 0 <= i < j < |all| && all[i].meta.item == all[j].meta.item
      ensures all[i].meta.number < all[j].meta.number && all[i].meta.state != Active
    {
      if i < |list| && j >= |list| {
        NewestOfItem(list, built, refs, i, j - |list|);
      }
    }
  }

  lemma NewestOfItem(list: seq<Revision>, built: seq<Revision>, refs: set<RevisionRef>, i: nat, k: nat)
    requires SingleActive(list) && Continues(list, built) && refs == Targets(built) && i < |list| && k < |built|
    requires list[i].meta.item == built[k].meta.item
    ensures list[i].meta.number < built[k].meta.number && Retired(list[i], refs).meta.state != Active
  {
    var item := built[k].meta.item;
    assert list[i] in list && built[k] in built;
    MaxNumberBounds(list, item);
    ActiveOfMeaning(list, item);
    if list[i].meta.state == Active {
      assert IsActive(list, list[i].Ref());
      assert built[k].meta.supersedes == Some(list[i].Ref());
    }
  }

  // ----- one boundary commit -----

  lemma UniqueIdsJoin(a: seq<Revision>, b: seq<Revision>)
    requires UniqueIds(a) && UniqueIds(b)
    requires forall r, q | r in a && q in b :: r.meta.revision != q.meta.revision
    ensures UniqueIds(a + b)
  {
  }

  // New records carry a new operation, so their identities are new.
  lemma NewIdsAreNew(s: Store, q: CommitRequest, list: seq<Revision>, built: seq<Revision>)
    requires AllFit(s.scope, list) && Recorded(s, list) && UniqueIds(list) && q.operation !in s.committed
    requires forall i | 0 <= i < |built| :: NewRecordFits(q, built[i])
    requires forall i, j | 0 <= i < j < |built| :: built[i].meta.item != built[j].meta.item
    ensures UniqueIds(list + built)
  {
    hide RevisionError;
    forall i | 0 <= i < |built| ensures built[i].meta.revision.RevisionId? &&
      built[i].meta.revision.item == built[i].meta.item
        && built[i].meta.revision.operation == q.operation
    {
      ValidRevisionIsGenuine(built[i]);
    }
    forall r, n | r in list && n in built ensures r.meta.revision != n.meta.revision {
      ValidRevisionIsGenuine(r);
      var i :| 0 <= i < |built| && built[i] == n;
    }
    UniqueIdsJoin(list, built);
  }

  // A list and the records that join it, after a commit.
  lemma ListAfterCommit(s: Store, q: CommitRequest, list: seq<Revision>, built: seq<Revision>)
    requires AllFit(s.scope, list) && Recorded(s, list) && UniqueIds(list) && Chained(list) &&
      q.operation !in s.committed
    requires q.scope == s.scope && forall i | 0 <= i < |built| :: NewRecordFits(q, built[i])
    requires Continues(list, built) && (built != [] ==> TransitionRefs(q.transitions) == Targets(built))
    ensures var next := Retire(list, TransitionRefs(q.transitions)) + built;
      AllFit(s.scope, next) && UniqueIds(next) && Chained(next) && SameRecords(list + built, next)
  {
    hide RevisionError, Chained, Continues;
    var refs := TransitionRefs(q.transitions);
    var kept := Retire(list, refs);
    RetireKeepsRecords(list, refs);
    assert SameRecords(list + built, kept + built);
    ContinuesMeansOwnItems(list, built);
    NewIdsAreNew(s, q, list, built);
    JoinFits(s.scope, q, list, built);
    SameRecordsKeep(s.scope, list + built, kept + built);
    if built != [] {
      ChainExtends(list, built, refs);
    } else {
      assert kept + built == kept;
      WeakeningKeepsChain(list, kept);
    }
  }

  lemma ContinuesMeansOwnItems(list: seq<Revision>, built: seq<Revision>)
    requires Continues(list, built)
    ensures forall i, j | 0 <= i < j < |built| :: built[i].meta.item != built[j].meta.item
  {
  }

  lemma JoinFits(scope: Scope, q: CommitRequest, list: seq<Revision>, built: seq<Revision>)
    requires AllFit(scope, list) && q.scope == scope && forall i | 0 <= i < |built| :: NewRecordFits(q, built[i])
    ensures AllFit(scope, list + built)
  {
  }

  // What a boundary commit brings to the list of its kind.
  ghost predicate Batch(s: Store, q: CommitRequest, list: seq<Revision>, built: seq<Revision>) {
    && ValidRequest(q) && q.scope == s.scope && q.expected == s.version && q.operation !in s.committed &&
      !IsAtomOperation(q.operation)
    && q.operation.OperationId? && q.operation.parts != [] && q.operation.parts[0] == StageName(q.stage)
    && q.Revisions() == built && TransitionRefs(q.transitions) == Targets(built) && Continues(list, built)
    && forall i | 0 <= i < |built| :: NewRecordFits(q, built[i]) && built[i].meta.provenance.rawSources == []
  }

  ghost predicate CitesKnown(s: Store, built: seq<Revision>) {
    forall i | 0 <= i < |built| :: forall p | p in built[i].meta.provenance.parents ::
      RefIn(s.atoms, p) || RefIn(s.scenarios, p) || RefIn(s.profiles, p)
  }

  lemma OperationShape(stage: Stage, b: Boundary, d: Derivation)
    requires HasOperation(b, d)
    ensures var op := Operation(stage, b, d);
      OperationIdError(op) == None && op.OperationId? && op.parts != [] && op.parts[0] == StageName(stage)
    ensures stage != AtomStage ==> !IsAtomOperation(Operation(stage, b, d))
  {
  }

  lemma ActiveIsThere(list: seq<Revision>, ref: RevisionRef)
    requires IsActive(list, ref)
    ensures RefIn(list, ref)
  {
  }

  lemma BuiltScenarioContinues(b: Boundary, operation: OperationId, snapshot: Snapshot, c: ScenarioCandidate)
    requires ScenarioFits(b.scope, snapshot, c) && SingleActive(snapshot.scenarios)
    ensures var r := BuiltScenario(b, operation, snapshot, c);
      && r.meta.number == MaxNumber(snapshot.scenarios, r.meta.item) + 1
      && r.meta.supersedes == ActiveOf(snapshot.scenarios, r.meta.item)
      && r.meta.item == ScenarioItem(b.scope, c.topicKey) && r.meta.provenance.rawSources == []
      && forall q | q in r.meta.provenance.parents :: RefIn(snapshot.atoms, q) || RefIn(snapshot.scenarios, q)
  {
    hide Normalize, DerivedRevisionId, ScenarioCandidateError, MaxNumber, ActiveOf, RefIn;
    ItemOfNormalized(b.scope, c.topicKey);
    var item := ScenarioItem(b.scope, c.topicKey);
    ActiveOfMeaning(snapshot.scenarios, item);
    forall q | q in ScenarioParents(c) ensures RefIn(snapshot.atoms, q) || RefIn(snapshot.scenarios, q) {
      if q in c.atoms {
        var i :| 0 <= i < |c.atoms| && c.atoms[i] == q;
        ActiveIsThere(snapshot.atoms, c.atoms[i]);
      } else {
        ActiveIsThere(snapshot.scenarios, q);
      }
    }
  }

  lemma ScenarioBatch(s: Store, a: Action)
    requires RecordsFit(s) && Chained(s.scenarios) && a.CommitScenarios? && Enabled(s, a)
    ensures var q := RequestOf(s, a);
      && Batch(s, q, s.scenarios, q.scenarios) && q.profiles == [] && q.stage == ScenarioStage
      && q.operation == Operation(ScenarioStage, a.b, a.d) && q.expected == s.version
      && forall i | 0 <= i < |q.scenarios| :: forall p | p in q.scenarios[i].meta.provenance.parents ::
           RefIn(s.atoms, p) || RefIn(s.scenarios, p)
  {
    hide RevisionError, ScenarioFits, ScopeError, BuiltScenario, Retirements, RefIn, ScenarioItem;
    hide ValidBoundary, OperationIdError, ProcessingOperationId, SourcesFit, UniqueIds, ValidTransitions;
    hide UniqueRefs;
    var q, snapshot := RequestOf(s, a), SnapshotOf(s);
    ChainedIsSingle(s.scenarios);
    OperationShape(ScenarioStage, a.b, a.d);
    FitsAreValid(s.scope, s.scenarios);
    GroundedScenariosCommit(a.b, q.operation, snapshot, a.candidates);
    assert q.Revisions() == q.scenarios;
    forall i | 0 <= i < |q.scenarios|
      ensures NewRecordFits(q, q.scenarios[i]) && q.scenarios[i].meta.provenance.rawSources == []
      ensures q.scenarios[i].meta.item == ScenarioItem(s.scope, a.candidates[i].topicKey)
      ensures q.scenarios[i].meta.number == MaxNumber(s.scenarios, q.scenarios[i].meta.item) + 1
      ensures q.scenarios[i].meta.supersedes == ActiveOf(s.scenarios, q.scenarios[i].meta.item)
      ensures forall p | p in q.scenarios[i].meta.provenance.parents :: RefIn(s.atoms, p) || RefIn(s.scenarios, p)
    {
      assert q.Revisions()[i] == q.scenarios[i];
      BuiltScenarioContinues(a.b, q.operation, snapshot, a.candidates[i]);
    }
  }

  lemma FitsAreValid(scope: Scope, list: seq<Revision>)
    requires AllFit(scope, list)
    ensures forall r | r in list :: RevisionError(r) == None
  {
  }

  lemma BuiltProfileContinues(b: Boundary, operation: OperationId, snapshot: Snapshot, c: ProfileCandidate)
    requires ProfileFits(b.scope, snapshot, c) && SingleActive(snapshot.profiles)
    ensures var r := BuiltProfile(b, operation, snapshot, c);
      && r.meta.number == MaxNumber(snapshot.profiles, r.meta.item) + 1
      && r.meta.supersedes == ActiveOf(snapshot.profiles, r.meta.item) && r.meta.provenance.rawSources == []
      && forall q | q in r.meta.provenance.parents ::
        RefIn(snapshot.atoms, q) || RefIn(snapshot.scenarios, q) || RefIn(snapshot.profiles, q)
  {
    hide Normalize, DerivedRevisionId, ProfileCandidateError, MaxNumber, ActiveOf, RefIn;
    ActiveOfMeaning(snapshot.profiles, ProfileItem(b.scope));
    forall q | q in ProfileParents(c)
      ensures RefIn(snapshot.atoms, q) || RefIn(snapshot.scenarios, q) || RefIn(snapshot.profiles, q)
    {
      if q in c.atoms {
        var i :| 0 <= i < |c.atoms| && c.atoms[i] == q;
        ActiveIsThere(snapshot.atoms, c.atoms[i]);
      } else if q in c.scenarios {
        var i :| 0 <= i < |c.scenarios| && c.scenarios[i] == q;
        ActiveIsThere(snapshot.scenarios, c.scenarios[i]);
      } else {
        ActiveIsThere(snapshot.profiles, q);
      }
    }
  }

  lemma ProfileBatch(s: Store, a: Action)
    requires RecordsFit(s) && Chained(s.profiles) && a.CommitProfile? && Enabled(s, a)
    ensures var q := RequestOf(s, a); Batch(s, q, s.profiles, q.profiles) && CitesKnown(s, q.profiles)
  {
    hide RevisionError, ProfileFits, ScopeError, BuiltProfile, Retirements, RefIn, ValidBoundary;
    hide OperationIdError, ProcessingOperationId, SourcesFit, UniqueIds, ValidTransitions, UniqueRefs, AllFit;
    hide ValidOutcome, NewRecordFits, MaxNumber, ActiveOf, SingleActive;
    var q, snapshot := RequestOf(s, a), SnapshotOf(s);
    OperationShape(ProfileStage, a.b, a.d);
    ValidBoundaryScope(a.b);
    GroundedProfileCommits(a.b, q.operation, snapshot, a.candidate);
    assert q.Revisions() == q.profiles;
    if q.profiles != [] {
      assert NewRecordFits(q, q.Revisions()[0]);
      BuiltProfileContinues(a.b, q.operation, snapshot, a.candidate.value);
    }
  }

  lemma ValidBoundaryScope(b: Boundary)
    requires ValidBoundary(b)
    ensures ScopeError(b.scope) == None
  {
  }

  // ----- a boundary commit keeps the invariant -----

  lemma CommitKeepsRecords(s: Store, q: CommitRequest)
    requires RecordsFit(s) && Chained(s.scenarios) && Chained(s.profiles) && Recorded(s, s.scenarios) &&
      Recorded(s, s.profiles)
    requires (Batch(s, q, s.scenarios, q.scenarios) && q.profiles == []) ||
      (Batch(s, q, s.profiles, q.profiles) && q.scenarios == [])
    ensures RecordsFit(Apply(s, q)) && Chained(Apply(s, q).scenarios) && Chained(Apply(s, q).profiles)
    ensures SameRecords(s.scenarios + q.scenarios, Apply(s, q).scenarios) &&
      SameRecords(s.profiles + q.profiles, Apply(s, q).profiles)
  {
    hide RevisionError, ScopeError, ValidRequest, Chained, AllFit, UniqueIds, Recorded, NewRecordFits;
    ListAfterCommit(s, q, s.scenarios, q.scenarios);
    ListAfterCommit(s, q, s.profiles, q.profiles);
  }

  lemma CitesAfter(base: seq<Revision>, base': seq<Revision>, list: seq<Revision>, built: seq<Revision>,
      next: seq<Revision>)
    requires SameRecords(list + built, next) && CitesEarlier(base, list)
    requires forall ref | RefIn(base, ref) :: RefIn(base', ref)
    requires forall i | 0 <= i < |built| :: forall q | q in built[i].meta.provenance.parents ::
      RefIn(base, q) || RefIn(list, q)
    ensures CitesEarlier(base', next)
  {
    hide RefIn;
    forall i, q | 0 <= i < |next| && q in next[i].meta.provenance.parents
      ensures RefIn(base', q) || RefIn(next[..i], q) {
      assert SameButState((list + built)[i], next[i]);
      SameRecordsPrefix(list + built, next, i);
      SameRecordsKeep(Scope("", Personal), (list + built)[..i], next[..i]);
      if i < |list| {
        assert (list + built)[..i] == list[..i];
      } else {
        assert (list + built)[..i] == list + built[..i - |list|];
        RefInSum(list, built[..i - |list|], q);
      }
    }
  }

  lemma RefInSum(a: seq<Revision>, b: seq<Revision>, ref: RevisionRef)
    ensures RefIn(a + b, ref) <==> RefIn(a, ref) || RefIn(b, ref)
  {
  }

  lemma NoRawAfter(list: seq<Revision>, built: seq<Revision>, next: seq<Revision>)
    requires SameRecords(list + built, next) && NoRawSources(list) && NoRawSources(built)
    ensures NoRawSources(next)
  {
  }

  lemma RefsGrow(list: seq<Revision>, built: seq<Revision>, next: seq<Revision>)
    requires SameRecords(list + built, next)
    ensures forall ref | RefIn(list, ref) :: RefIn(next, ref)
    ensures forall ref | RefIn(built, ref) :: RefIn(next, ref)
  {
    hide RefIn;
    SameRecordsKeep(Scope("", Personal), list + built, next);
    forall ref ensures RefIn(list, ref) || RefIn(built, ref) ==> RefIn(next, ref) {
      RefInSum(list, built, ref);
    }
  }

  lemma CommitKeepsGrounded(s: Store, q: CommitRequest)
    requires Grounded(s)
    requires SameRecords(s.scenarios + q.scenarios, Apply(s, q).scenarios) &&
      SameRecords(s.profiles + q.profiles, Apply(s, q).profiles)
    requires NoRawSources(q.scenarios) && NoRawSources(q.profiles) && CitesKnown(s, q.profiles)
    requires forall i | 0 <= i < |q.scenarios| :: forall p | p in q.scenarios[i].meta.provenance.parents ::
      RefIn(s.atoms, p) || RefIn(s.scenarios, p)
    ensures Grounded(Apply(s, q))
  {
    hide RefIn, SameRecords, NoRawSources, CitesEarlier;
    var n := Apply(s, q);
    NoRawAfter(s.scenarios, q.scenarios, n.scenarios);
    NoRawAfter(s.profiles, q.profiles, n.profiles);
    CitesAfter(s.atoms, s.atoms, s.scenarios, q.scenarios, n.scenarios);
    RefsGrow(s.scenarios, q.scenarios, n.scenarios);
    forall ref ensures RefIn(s.atoms + s.scenarios, ref) <==> RefIn(s.atoms, ref) || RefIn(s.scenarios, ref) {
      RefInSum(s.atoms, s.scenarios, ref);
    }
    forall ref ensures RefIn(n.atoms + n.scenarios, ref) <==> RefIn(n.atoms, ref) || RefIn(n.scenarios, ref) {
      RefInSum(n.atoms, n.scenarios, ref);
    }
    CitesAfter(s.atoms + s.scenarios, n.atoms + n.scenarios, s.profiles, q.profiles, n.profiles);
  }

  // ----- effects -----

  lemma RecordedAfter(s: Store, q: CommitRequest, list: seq<Revision>, built: seq<Revision>, next: seq<Revision>)
    requires SameRecords(list + built, next) && Recorded(s, list) && q.operation !in s.committed
    requires forall i | 0 <= i < |built| :: built[i] in q.Revisions() && built[i].meta.operation == q.operation
    ensures Recorded(Apply(s, q), next)
  {
  }

  // A revision once committed stays, whatever its state becomes.
  lemma StillThere(list: seq<Revision>, built: seq<Revision>, next: seq<Revision>, r: Revision)
    requires SameRecords(list + built, next) && r in list + built
    ensures exists x :: x in next && x.Ref() == r.Ref() && x.meta.operation == r.meta.operation
  {
  }

  lemma OutcomesStayHonest(s: Store, n: Store, op: OperationId, moreScenarios: seq<Revision>,
      moreProfiles: seq<Revision>)
    requires op in s.committed && HonestOutcome(s, op) && n.scope == s.scope && n.version >= s.version
    requires op in n.committed && n.committed[op] == s.committed[op]
    requires SameRecords(s.scenarios + moreScenarios, n.scenarios) && SameRecords(s.profiles + moreProfiles, n.profiles)
    ensures HonestOutcome(n, op)
  {
    hide ValidOutcome, SameRecords;
    var o := s.committed[op].outcome;
    forall ref | ref in o.revisions ensures exists r ::
      r in n.scenarios + n.profiles && r.Ref() == ref && r.meta.operation == op {
      var r :| r in s.scenarios + s.profiles && r.Ref() == ref && r.meta.operation == op;
      if r in s.scenarios {
        StillThere(s.scenarios, moreScenarios, n.scenarios, r);
        var x :| x in n.scenarios && x.Ref() == ref && x.meta.operation == op;
        assert x in n.scenarios + n.profiles;
      } else {
        StillThere(s.profiles, moreProfiles, n.profiles, r);
        var x :| x in n.profiles && x.Ref() == ref && x.meta.operation == op;
        assert x in n.scenarios + n.profiles;
      }
    }
  }

  // The outcome of the commit itself.
  lemma NewOutcomeIsHonest(s: Store, q: CommitRequest)
    requires ValidRequest(q) && q.scope == s.scope && q.expected == s.version && q.atoms == [] &&
      (q.stage == ScenarioStage || q.stage == ProfileStage)
    requires q.operation.OperationId? && q.operation.parts != [] && q.operation.parts[0] == StageName(q.stage)
    requires SameRecords(s.scenarios + q.scenarios, Apply(s, q).scenarios) &&
      SameRecords(s.profiles + q.profiles, Apply(s, q).profiles)
    ensures HonestOutcome(Apply(s, q), q.operation)
  {
    hide ValidRequest, SameRecords, ValidOutcome, RevisionError;
    var n := Apply(s, q);
    var o := n.committed[q.operation].outcome;
    NewOutcomeIsValid(q, s.version + 1);
    forall ref | ref in o.revisions
      ensures exists r :: r in n.scenarios + n.profiles && r.Ref() == ref && r.meta.operation == q.operation
    {
      var k :| 0 <= k < |o.revisions| && o.revisions[k] == ref;
      var r := q.Revisions()[k];
      NewRecordsCarryOperation(q, k);
      if r in q.scenarios {
        assert r in s.scenarios + q.scenarios;
        StillThere(s.scenarios, q.scenarios, n.scenarios, r);
        var x :| x in n.scenarios && x.Ref() == ref && x.meta.operation == q.operation;
        assert x in n.scenarios + n.profiles;
      } else {
        assert r in s.profiles + q.profiles;
        StillThere(s.profiles, q.profiles, n.profiles, r);
        var x :| x in n.profiles && x.Ref() == ref && x.meta.operation == q.operation;
        assert x in n.scenarios + n.profiles;
      }
    }
  }

  lemma NewRecordsCarryOperation(q: CommitRequest, k: nat)
    requires ValidRequest(q) && k < |q.Revisions()|
    ensures q.Revisions()[k].meta.operation == q.operation && RefError(q.Revisions()[k].Ref()) == None
  {
    hide RevisionError, ScopeError, SupersessionsFit, ValidTransitions, UniqueRefs, StageContent;
    assert NewRecordFits(q, q.Revisions()[k]);
    ValidRevisionIsGenuine(q.Revisions()[k]);
  }

  lemma NewOutcomeIsValid(q: CommitRequest, version: nat)
    requires ValidRequest(q) && version > 0
    ensures ValidOutcome(OutcomeOf(q, version))
  {
    hide RevisionError, ScopeError, SupersessionsFit, ValidTransitions, StageContent, RefError, OperationIdError;
    var refs := Refs(q.Revisions());
    forall k | 0 <= k < |refs| ensures RefError(refs[k]) == None {
      NewRecordsCarryOperation(q, k);
    }
    RequestRefsAreDistinct(q);
    RefsErrorMeaning(refs);
  }

  lemma SameProfileOperation(b: Boundary, d: Derivation, b': Boundary, d': Derivation)
    requires HasOperation(b, d) && HasOperation(b', d')
    requires Operation(ProfileStage, b, d) == Operation(ProfileStage, b', d')
    ensures b.exportId == b'.exportId && d == d'
  {
  }

  lemma StagesDiffer(b: Boundary, d: Derivation, b': Boundary, d': Derivation)
    requires HasOperation(b, d) && HasOperation(b', d')
    ensures Operation(ScenarioStage, b, d) != Operation(ProfileStage, b', d')
  {
  }

  lemma ScenarioCommitKeepsOrder(s: Store, q: CommitRequest, b: Boundary, d: Derivation)
    requires StagesInOrder(s) && HasOperation(b, d) && q.operation == Operation(ScenarioStage, b, d)
    requires q.operation !in s.committed
    ensures StagesInOrder(Apply(s, q))
  {
  }

  lemma ProfileCommitKeepsOrder(s: Store, q: CommitRequest, b: Boundary, d: Derivation)
    requires StagesInOrder(s) && HasOperation(b, d) && q.operation == Operation(ProfileStage, b, d)
    requires q.operation !in s.committed && Operation(ScenarioStage, b, d) in s.committed
    requires forall op | op in s.committed && !IsAtomOperation(op) :: HonestOutcome(s, op)
    ensures StagesInOrder(Apply(s, q))
  {
    hide ProcessingOperationId, HasOperation, IsAtomOperation;
    OperationShape(ScenarioStage, b, d);
    assert HonestOutcome(s, Operation(ScenarioStage, b, d));
    forall b': Boundary, d': Derivation | HasOperation(b', d') &&
      Operation(ProfileStage, b', d') in Apply(s, q).committed
      ensures var sc, pr, n := Operation(ScenarioStage, b', d'), Operation(ProfileStage, b', d'), Apply(s, q);
        sc in n.committed && n.committed[sc].outcome.version < n.committed[pr].outcome.version
    {
      StagesDiffer(b', d', b, d);
      if Operation(ProfileStage, b', d') == q.operation {
        SameProfileOperation(b', d', b, d);
        SameOperation(b', b, d);
      }
    }
  }

  lemma SameOperation(b: Boundary, b': Boundary, d: Derivation)
    requires b.exportId == b'.exportId && HasOperation(b, d) && HasOperation(b', d)
    ensures Operation(ScenarioStage, b, d) == Operation(ScenarioStage, b', d)
  {
  }

  lemma ScenarioCommitKeepsInv(s: Store, a: Action)
    requires Inv(s) && a.CommitScenarios? && Enabled(s, a)
    ensures Inv(Next(s, a))
  {
    hide RecordsFit, Chained, Grounded, ValidRequest, Continues, Recorded, HonestOutcome, StagesInOrder;
    hide SameRecords, NoRawSources, RefIn, ScenariosFit, ValidBoundary, ProcessingOperationId, Apply;
    hide ProfileAccepted, ElsewhereStep;
    var q := RequestOf(s, a);
    ScenarioBatch(s, a);
    ScenarioRequestShape(s, a);
    CommitKeepsRecords(s, q);
    NoRawIn(s, q, s.scenarios, q.scenarios);
    CommitKeepsGrounded(s, q);
    CommitKeepsEffects(s, q, s.scenarios, q.scenarios);
    ScenarioCommitKeepsOrder(s, q, a.b, a.d);
  }

  lemma ScenarioRequestShape(s: Store, a: Action)
    requires a.CommitScenarios? && HasOperation(a.b, a.d)
    ensures var q := RequestOf(s, a);
      q.atoms == [] && q.profiles == [] && q.stage == ScenarioStage && q.operation == Operation(ScenarioStage, a.b, a.d)
  {
  }

  lemma ProfileRequestShape(s: Store, a: Action)
    requires a.CommitProfile? && HasOperation(a.b, a.d)
    ensures var q := RequestOf(s, a);
      q.atoms == [] && q.scenarios == [] && q.stage == ProfileStage && q.operation == Operation(ProfileStage, a.b, a.d)
  {
  }

  lemma NoRawIn(s: Store, q: CommitRequest, list: seq<Revision>, built: seq<Revision>)
    requires Batch(s, q, list, built)
    ensures NoRawSources(built) && NoRawSources([])
  {
  }

  lemma CommitKeepsEffects(s: Store, q: CommitRequest, list: seq<Revision>, built: seq<Revision>)
    requires Batch(s, q, list, built) && q.atoms == [] && (q.stage == ScenarioStage || q.stage == ProfileStage)
    requires Recorded(s, s.scenarios) && Recorded(s, s.profiles)
    requires forall op | op in s.committed && !IsAtomOperation(op) :: HonestOutcome(s, op)
    requires SameRecords(s.scenarios + q.scenarios, Apply(s, q).scenarios) &&
      SameRecords(s.profiles + q.profiles, Apply(s, q).profiles)
    ensures Recorded(Apply(s, q), Apply(s, q).scenarios) && Recorded(Apply(s, q), Apply(s, q).profiles)
    ensures forall op | op in Apply(s, q).committed && !IsAtomOperation(op) :: HonestOutcome(Apply(s, q), op)
  {
    hide ValidRequest, Continues, Recorded, HonestOutcome, SameRecords, NewRecordFits;
    var n := Apply(s, q);
    BatchRecordsCarryOperation(s, q, list, built);
    RecordedAfter(s, q, s.scenarios, q.scenarios, n.scenarios);
    RecordedAfter(s, q, s.profiles, q.profiles, n.profiles);
    NewOutcomeIsHonest(s, q);
    forall op | op in n.committed && !IsAtomOperation(op) ensures HonestOutcome(n, op) {
      if op != q.operation {
        OutcomesStayHonest(s, n, op, q.scenarios, q.profiles);
      }
    }
  }

  lemma BatchRecordsCarryOperation(s: Store, q: CommitRequest, list: seq<Revision>, built: seq<Revision>)
    requires Batch(s, q, list, built)
    ensures forall i | 0 <= i < |q.scenarios| ::
      q.scenarios[i] in q.Revisions() && q.scenarios[i].meta.operation == q.operation
    ensures forall i | 0 <= i < |q.profiles| ::
      q.profiles[i] in q.Revisions() && q.profiles[i].meta.operation == q.operation
  {
    hide Continues, ValidRequest, RevisionError, Targets, TransitionRefs;
    forall i | 0 <= i < |q.scenarios|
      ensures q.scenarios[i] in q.Revisions() && q.scenarios[i].meta.operation == q.operation
    {
      assert built[|q.atoms| + i] == q.scenarios[i];
    }
    forall i | 0 <= i < |q.profiles|
      ensures q.profiles[i] in q.Revisions() && q.profiles[i].meta.operation == q.operation
    {
      assert built[|q.atoms| + |q.scenarios| + i] == q.profiles[i];
    }
  }

  lemma ProfileCommitKeepsInv(s: Store, a: Action)
    requires Inv(s) && a.CommitProfile? && Enabled(s, a)
    ensures Inv(Next(s, a))
  {
    hide RecordsFit, Chained, Grounded, ValidRequest, Continues, Recorded, HonestOutcome, StagesInOrder;
    hide SameRecords, NoRawSources, RefIn, ScenariosFit, ValidBoundary, ProcessingOperationId, Apply;
    hide ProfileAccepted, ElsewhereStep, CitesKnown;
    var q := RequestOf(s, a);
    ProfileBatch(s, a);
    ProfileRequestShape(s, a);
    CommitKeepsRecords(s, q);
    NoRawIn(s, q, s.profiles, q.profiles);
    CommitKeepsGrounded(s, q);
    CommitKeepsEffects(s, q, s.profiles, q.profiles);
    ProfileCommitKeepsOrder(s, q, a.b, a.d);
  }

  // ----- commits of the rest of the system -----

  lemma AtomsAfter(s: Store, n: Store)
    requires ElsewhereStep(s, n) && AllFit(s.scope, s.atoms)
    requires forall i | 0 <= i < |s.atoms| :: CitesEarlierAtoms(s.atoms, i) && CitesKnownSources(s.sources, s.atoms[i])
    ensures AllFit(s.scope, n.atoms) && forall ref | RefIn(s.atoms, ref) :: RefIn(n.atoms, ref)
    ensures forall i | 0 <= i < |n.atoms| :: CitesEarlierAtoms(n.atoms, i) && CitesKnownSources(n.sources, n.atoms[i])
  {
    hide RevisionError, KeptOrInvalidated, UniqueIds, RefIn;
    var kept := n.atoms[..|s.atoms|];
    SameRecordsKeep(s.scope, s.atoms, kept);
    RefsOfPrefix(kept, n.atoms);
    forall r | r in n.atoms ensures RecordFits(s.scope, r) {
      var i :| 0 <= i < |n.atoms| && n.atoms[i] == r;
      if i < |s.atoms| { assert kept[i] in kept; }
    }
    forall i | 0 <= i < |s.atoms| ensures CitesEarlierAtoms(n.atoms, i) && CitesKnownSources(n.sources, n.atoms[i]) {
      OldAtomStillCites(s, n, i);
    }
  }

  lemma RefsOfPrefix(prefix: seq<Revision>, list: seq<Revision>)
    requires prefix <= list
    ensures forall ref | RefIn(prefix, ref) :: RefIn(list, ref)
  {
  }

  lemma OldAtomStillCites(s: Store, n: Store, i: nat)
    requires ElsewhereStep(s, n) && i < |s.atoms| && CitesEarlierAtoms(s.atoms, i) &&
      CitesKnownSources(s.sources, s.atoms[i])
    ensures CitesEarlierAtoms(n.atoms, i) && CitesKnownSources(n.sources, n.atoms[i])
  {
  }

  lemma ListElsewhere(scope: Scope, list: seq<Revision>, next: seq<Revision>)
    requires KeptOrInvalidated(list, next) && AllFit(scope, list) && UniqueIds(list) && Chained(list)
    ensures AllFit(scope, next) && UniqueIds(next) && Chained(next) && SameRecords(list + [], next)
  {
    hide RevisionError, AllFit, UniqueIds;
    assert list + [] == list;
    SameRecordsKeep(scope, list, next);
    WeakeningKeepsChain(list, next);
  }

  lemma RecordedElsewhere(s: Store, n: Store, list: seq<Revision>, next: seq<Revision>)
    requires SameRecords(list + [], next) && Recorded(s, list)
    requires forall op | op in s.committed :: op in n.committed && n.committed[op] == s.committed[op]
    ensures Recorded(n, next)
  {
  }

  lemma ElsewhereKeepsGrounded(s: Store, n: Store)
    requires ElsewhereStep(s, n) && Grounded(s) && AllFit(s.scope, s.atoms)
    requires SameRecords(s.scenarios + [], n.scenarios) && SameRecords(s.profiles + [], n.profiles)
    ensures Grounded(n)
  {
    hide RefIn, SameRecords, NoRawSources, CitesEarlier, ElsewhereStep, AllFit;
    AtomsAfter(s, n);
    assert NoRawSources([]) by { NoRawInNone(); }
    NoRawAfter(s.scenarios, [], n.scenarios);
    NoRawAfter(s.profiles, [], n.profiles);
    CitesAfter(s.atoms, n.atoms, s.scenarios, [], n.scenarios);
    RefsGrow(s.scenarios, [], n.scenarios);
    forall ref ensures RefIn(s.atoms + s.scenarios, ref) <==> RefIn(s.atoms, ref) || RefIn(s.scenarios, ref) {
      RefInSum(s.atoms, s.scenarios, ref);
    }
    forall ref ensures RefIn(n.atoms + n.scenarios, ref) <==> RefIn(n.atoms, ref) || RefIn(n.scenarios, ref) {
      RefInSum(n.atoms, n.scenarios, ref);
    }
    CitesAfter(s.atoms + s.scenarios, n.atoms + n.scenarios, s.profiles, [], n.profiles);
  }

  lemma NoRawInNone()
    ensures NoRawSources([])
  {
  }

  lemma ElsewhereKeepsEffects(s: Store, n: Store)
    requires ElsewhereStep(s, n) && Effects(s)
    requires SameRecords(s.scenarios + [], n.scenarios) && SameRecords(s.profiles + [], n.profiles)
    ensures Effects(n)
  {
    hide Recorded, HonestOutcome, SameRecords, KeptOrInvalidated, UniqueIds, CitesEarlierAtoms;
    hide CitesKnownSources, RecordFits, IsAtomOperation;
    RecordedElsewhere(s, n, s.scenarios, n.scenarios);
    RecordedElsewhere(s, n, s.profiles, n.profiles);
    forall op | op in n.committed && !IsAtomOperation(op) ensures HonestOutcome(n, op) {
      OutcomesStayHonest(s, n, op, [], []);
    }
    forall b: Boundary, d: Derivation | HasOperation(b, d) && Operation(ProfileStage, b, d) in n.committed
      ensures Operation(ProfileStage, b, d) in s.committed
    {
      OperationShape(ProfileStage, b, d);
    }
  }

  lemma ElsewhereKeepsInv(s: Store, n: Store)
    requires Inv(s) && ElsewhereStep(s, n)
    ensures Inv(n)
  {
    hide Chained, Grounded, Effects, CitesEarlierAtoms, CitesKnownSources, KeptOrInvalidated, RecordFits;
    hide AllFit, UniqueIds, SameRecords, IsAtomOperation, ScopeError;
    ListElsewhere(s.scope, s.scenarios, n.scenarios);
    ListElsewhere(s.scope, s.profiles, n.profiles);
    AtomsStayFit(s, n);
    ElsewhereKeepsGrounded(s, n);
    ElsewhereKeepsEffects(s, n);
  }

  lemma AtomsStayFit(s: Store, n: Store)
    requires ElsewhereStep(s, n) && Grounded(s) && AllFit(s.scope, s.atoms)
    ensures AllFit(s.scope, n.atoms)
  {
    hide ElsewhereStep, AllFit;
    AtomsAfter(s, n);
  }

  // ----- every run -----

  // Whatever grounding accepts makes a request that passes its own validation.
  lemma GroundedRequestIsValid(s: Store, a: Action)
    requires Inv(s) && !a.Elsewhere? && Grounds(s, a)
    ensures HasOperation(a.b, a.d) && ValidRequest(RequestOf(s, a)) && RequestOf(s, a).operation == OperationOf(a) &&
      RequestOf(s, a).expected == s.version
  {
    hide Inv, ValidRequest, ScenariosFit, ProfileAccepted, BuiltScenarios, BuiltProfiles, Retirements;
    hide ProcessingOperationId, OperationIdError, AllFit, ScopeError;
    OperationShape(if a.CommitScenarios? then ScenarioStage else ProfileStage, a.b, a.d);
    InvFits(s);
    FitsAreValid(s.scope, s.scenarios);
    if a.CommitScenarios? {
      GroundedScenariosCommit(a.b, OperationOf(a), SnapshotOf(s), a.candidates);
    } else {
      GroundedProfileCommits(a.b, OperationOf(a), SnapshotOf(s), a.candidate);
    }
  }

  lemma InvFits(s: Store)
    requires Inv(s)
    ensures AllFit(s.scope, s.atoms) && AllFit(s.scope, s.scenarios) && AllFit(s.scope, s.profiles) &&
      ScopeError(s.scope) == None
  {
  }

  lemma StepKeepsInv(s: Store, a: Action)
    requires Inv(s) && Enabled(s, a)
    ensures Inv(Next(s, a))
  {
    hide Inv, ElsewhereStep, ScenariosFit, ProfileAccepted, ValidBoundary, Apply;
    match a
    case CommitScenarios(_, _, _) => ScenarioCommitKeepsInv(s, a);
    case CommitProfile(_, _, _) => ProfileCommitKeepsInv(s, a);
    case Elsewhere(next) => ElsewhereKeepsInv(s, next);
  }

  ghost predicate Run(s: Store, actions: seq<Action>, t: Store)
    decreases |actions|
  {
    if actions == [] then s == t else Enabled(s, actions[0]) && Run(Next(s, actions[0]), actions[1..], t)
  }

  // t is a state some interleaving of any number of workers can lead to from s.
  ghost predicate Reaches(s: Store, t: Store) {
    exists actions :: Run(s, actions, t)
  }

  // What commits never undo.
  ghost predicate Extends(s: Store, t: Store) {
    && s.version <= t.version && t.scope == s.scope && (s.version == t.version ==> s == t)
    && forall op | op in s.committed :: op in t.committed && t.committed[op] == s.committed[op]
  }

  lemma StepExtends(s: Store, a: Action)
    requires Enabled(s, a)
    ensures Extends(s, Next(s, a))
  {
    hide ScenariosFit, ProfileAccepted, ValidBoundary, ProcessingOperationId, KeptOrInvalidated, UniqueIds;
    hide CitesEarlierAtoms, CitesKnownSources, RecordFits;
  }

  lemma {:induction false} RunKeepsInv(s: Store, actions: seq<Action>, t: Store)
    requires Inv(s) && Run(s, actions, t)
    ensures Inv(t) && Extends(s, t)
    decreases |actions|
  {
    hide Inv, Enabled, Next, Extends;
    if actions != [] {
      StepKeepsInv(s, actions[0]);
      StepExtends(s, actions[0]);
      RunKeepsInv(Next(s, actions[0]), actions[1..], t);
      ExtendsTransitive(s, Next(s, actions[0]), t);
    } else {
      ExtendsSelf(s);
    }
  }

  lemma ExtendsSelf(s: Store)
    ensures Extends(s, s)
  {
  }

  lemma ExtendsTransitive(a: Store, b: Store, c: Store)
    requires Extends(a, b) && Extends(b, c)
    ensures Extends(a, c)
  {
  }

  lemma {:induction false} RunsJoin(a: Store, first: seq<Action>, b: Store, second: seq<Action>, c: Store)
    requires Run(a, first, b) && Run(b, second, c)
    ensures Run(a, first + second, c)
    decreases |first|
  {
    hide Enabled, Next;
    if first == [] {
      assert first + second == second;
    } else {
      RunsJoin(Next(a, first[0]), first[1..], b, second, c);
      assert (first + second)[1..] == first[1..] + second;
    }
  }

  lemma ReachesSelf(s: Store)
    ensures Reaches(s, s)
  {
    assert Run(s, [], s);
  }

  lemma ReachesTransitive(a: Store, b: Store, c: Store)
    requires Reaches(a, b) && Reaches(b, c)
    ensures Reaches(a, c)
  {
    hide Run;
    var first :| Run(a, first, b);
    var second :| Run(b, second, c);
    RunsJoin(a, first, b, second, c);
  }

  lemma ReachesStep(s: Store, a: Action)
    requires Enabled(s, a)
    ensures Reaches(s, Next(s, a))
  {
    hide Enabled, Next;
    assert Run(Next(s, a), [], Next(s, a));
    assert Run(s, [a], Next(s, a));
  }

  lemma ReachesKeepsInv(s: Store, t: Store)
    requires Inv(s) && Reaches(s, t)
    ensures Inv(t) && Extends(s, t)
  {
    hide Inv, Extends, Run;
    var actions :| Run(s, actions, t);
    RunKeepsInv(s, actions, t);
  }

  ghost predicate OneActiveEach(list: seq<Revision>) {
    && SingleActive(list)
    && (forall i, j | 0 <= i < j < |list| && list[i].meta.item == list[j].meta.item ::
      list[i].meta.number != list[j].meta.number)
    && (forall i, j | 0 <= i < |list| && 0 <= j < |list| && list[i].meta.item == list[j].meta.item &&
      list[i].meta.state == Active ::
          list[j].meta.number <= list[i].meta.number)
  }

  // Over every run of boundaries, turns and forgetting, whatever the models return and
  // however workers interleave or crash: a topic, and the profile, never has two active
  // revisions, never numbers two revisions alike, and its active one is its newest.
  lemma EveryRunKeepsOneActive(scope: Scope, actions: seq<Action>, t: Store)
    requires ScopeError(scope) == None && Run(EMPTY_SCOPE.(scope := scope), actions, t)
    ensures OneActiveEach(t.scenarios) && OneActiveEach(t.profiles)
  {
    hide ScopeError, Run, RecordsFit, Grounded, Effects, SingleActive;
    EmptyScope(scope);
    RunKeepsInv(EMPTY_SCOPE.(scope := scope), actions, t);
    ChainedIsSingle(t.scenarios);
    ChainedIsSingle(t.profiles);
  }

  ghost predicate Commits(a: Action, op: OperationId) {
    !a.Elsewhere? && HasOperation(a.b, a.d) && OperationOf(a) == op
  }

  lemma StepCommits(s: Store, a: Action, op: OperationId)
    requires Enabled(s, a) && Commits(a, op)
    ensures op !in s.committed && op in Next(s, a).committed
  {
  }

  // A committed operation never takes effect again, in any run, with any candidates.
  lemma {:induction false} CommittedStaysCommitted(s: Store, actions: seq<Action>, t: Store, op: OperationId)
    requires Run(s, actions, t) && op in s.committed
    ensures op in t.committed && t.committed[op] == s.committed[op]
    ensures forall i | 0 <= i < |actions| :: !Commits(actions[i], op)
    decreases |actions|
  {
    hide Enabled, Next, Commits;
    if actions != [] {
      StepExtends(s, actions[0]);
      if Commits(actions[0], op) { StepCommits(s, actions[0], op); }
      CommittedStaysCommitted(Next(s, actions[0]), actions[1..], t, op);
    }
  }

  // Each stage of each boundary takes effect at most once in a run.
  lemma {:induction false} AtMostOnce(s: Store, actions: seq<Action>, t: Store, op: OperationId, i: nat, j: nat)
    requires Run(s, actions, t) && i < j < |actions| && Commits(actions[i], op)
    ensures !Commits(actions[j], op)
    decreases |actions|
  {
    hide Enabled, Next, Commits;
    if i == 0 {
      StepCommits(s, actions[0], op);
      CommittedStaysCommitted(Next(s, actions[0]), actions[1..], t, op);
      assert actions[1..][j - 1] == actions[j];
    } else {
      AtMostOnce(Next(s, actions[0]), actions[1..], t, op, i - 1, j - 1);
    }
  }

  // What an operation left in the scope is exactly what its outcome reports.
  lemma EffectIsOutcome(s: Store, op: OperationId, ref: RevisionRef)
    requires Inv(s) && op in s.committed && !IsAtomOperation(op)
    ensures ref in s.committed[op].outcome.revisions <==>
      exists r :: r in s.scenarios + s.profiles && r.Ref() == ref && r.meta.operation == op
  {
    hide RecordsFit, Chained, Grounded, StagesInOrder, IsAtomOperation, ValidOutcome;
    assert HonestOutcome(s, op);
  }

  // Progress: a boundary whose stages have not run can always complete, if only with an
  // empty synthesis; so runs of every length exist.
  lemma EmptySynthesisCompletes(s: Store, b: Boundary, d: Derivation)
    requires Inv(s) && ValidBoundary(b) && b.scope == s.scope && HasOperation(b, d)
    requires Operation(ScenarioStage, b, d) !in s.committed
    ensures Enabled(s, CommitScenarios(b, d, []))
    ensures Enabled(Next(s, CommitScenarios(b, d, [])), CommitProfile(b, d, None))
  {
    hide RecordsFit, Grounded, Recorded, HonestOutcome, ProcessingOperationId, ValidBoundary, Chained, Apply;
    ChainedIsSingle(s.scenarios);
    var a := CommitScenarios(b, d, []);
    assert Operation(ProfileStage, b, d) !in s.committed;
    StagesDiffer(b, d, b, d);
    AfterScenarios(s, b, d);
  }

  lemma AfterScenarios(s: Store, b: Boundary, d: Derivation)
    requires HasOperation(b, d)
    ensures var n := Apply(s, RequestOf(s, CommitScenarios(b, d, [])));
      n.scope == s.scope && n.committed.Keys == s.committed.Keys + {Operation(ScenarioStage, b, d)}
  {
    hide ProcessingOperationId;
  }
}
