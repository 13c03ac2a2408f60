// BoundaryProcessor (boundary.go, engine_boundary.go): one worker among many, each taking
// a boundary through the scenario stage and then the profile stage against a store that
// others change and that may fail at any call.
module BoundaryProcessing {
  import opened Wrappers
  import opened Derived
  import opened PortsValidation
  import opened BoundaryGrounding
  import opened BoundaryStore
  import opened BoundaryCommits

  lemma CommitsNoAtoms(a: Action)
    requires !a.Elsewhere? && HasOperation(a.b, a.d)
    ensures !IsAtomOperation(OperationOf(a))
  {
    hide ProcessingOperationId, IsAtomOperation;
    OperationShape(if a.CommitScenarios? then ScenarioStage else ProfileStage, a.b, a.d);
  }

  // BoundaryStore for one scope. Before every call any number of other workers may commit;
  // every call may fail, with or without having taken effect.
  class Port {
    var s: Store
    // The calls that failed, or whose answer was lost.
    ghost var faults: nat

    constructor (scope: Scope)
      requires ScopeError(scope) == None
      ensures Inv(s) && s.scope == scope && faults == 0
    {
      s, faults := EMPTY_SCOPE.(scope := scope), 0;
      new;
      EmptyScope(scope);
    }

    method Interfere()
      requires Inv(s)
      modifies this`s
      ensures Inv(s) && Reaches(old(s), s)
    {
      hide Inv, Enabled, Next, Reaches;
      ReachesSelf(s);
      var n: int := *;
      while n > 0
        invariant Inv(s) && Reaches(old(s), s)
      {
        n := n - 1;
        var a: Action := *;
        if Enabled(s, a) {
          StepKeepsInv(s, a);
          ReachesStep(s, a);
          ReachesTransitive(old(s), s, Next(s, a));
          s := Next(s, a);
        }
      }
    }

    method Fail<T>() returns (r: Result<T>)
      modifies this`faults
      ensures r == Err(StoreFailure) && faults == old(faults) + 1
    {
      faults := faults + 1;
      r := Err(StoreFailure);
    }

    method LookupOperation(op: OperationId) returns (r: Result<Option<Outcome>>)
      requires Inv(s)
      modifies this
      ensures Inv(s) && Reaches(old(s), s)
      ensures r.Ok? ==> r.value == if op in s.committed then Some(s.committed[op].outcome) else None
      ensures faults >= old(faults) && (r.Err? ==> faults > old(faults))
    {
      hide Inv, Reaches;
      Interfere();
      if * {
        r := Fail();
        return;
      }
      r := Ok(if op in s.committed then Some(s.committed[op].outcome) else None);
    }

    method LoadScope() returns (r: Result<Snapshot>)
      requires Inv(s)
      modifies this
      ensures Inv(s) && Reaches(old(s), s)
      ensures r.Ok? ==> r.value == SnapshotOf(s)
      ensures faults >= old(faults) && (r.Err? ==> faults > old(faults))
    {
      hide Inv, Reaches;
      Interfere();
      if * {
        r := Fail();
        return;
      }
      r := Ok(SnapshotOf(s));
    }

    // An operation already recorded is replayed if the request is the same and refused if
    // not; otherwise the scope must still be at the expected version. The ghost action
    // says how the caller arrived at the request.
    method Commit(q: CommitRequest, ghost a: Action) returns (r: Result<Outcome>)
      requires Inv(s) && q.expected <= s.version
      requires !a.Elsewhere? && HasOperation(a.b, a.d) && q.operation == OperationOf(a)
      requires q.expected == s.version ==> Grounds(s, a) && q == RequestOf(s, a)
      modifies this
      ensures Inv(s) && Reaches(old(s), s)
      ensures r.Ok? ==>
        q.operation in s.committed && s.committed[q.operation].request == q &&
        r.value == s.committed[q.operation].outcome
      ensures faults >= old(faults)
      ensures r.Err? ==>
        || faults > old(faults)
        || (if q.operation in s.committed then s.committed[q.operation].request != q else s.version != q.expected)
    {
      hide Inv, Reaches, Grounds, Apply, RequestOf, OperationOf;
      Interfere();
      ReachesKeepsInv(old(s), s);
      if * {
        r := Fail();
        return;
      }
      if q.operation in s.committed {
        return if s.committed[q.operation].request == q then Ok(s.committed[q.operation].outcome) else Err(Conflict);
      }
      if q.expected != s.version {
        return Err(Conflict);
      }
      Perform(q, a);
      if * {
        r := Fail();
        return;
      }
      r := Ok(s.committed[q.operation].outcome);
    }

    method Perform(q: CommitRequest, ghost a: Action)
      requires Inv(s) && !a.Elsewhere? && Grounds(s, a) && OperationOf(a) !in s.committed && q == RequestOf(s, a)
      modifies this`s
      ensures Inv(s) && Reaches(old(s), s)
      ensures q.operation in s.committed && s.committed[q.operation].request == q
    {
      hide Inv, Reaches, Grounds, RequestOf, OperationOf;
      StepKeepsInv(s, a);
      ReachesStep(s, a);
      s := Apply(s, q);
    }
  }

  // What ProcessBoundary hands back: a failed profile stage leaves the scenarios in place.
  datatype BoundaryOutcome = BoundaryOutcome(scope: Scope, scenarios: Option<Outcome>, profile: Option<Outcome>)

  // BoundaryOutcome.Validate
  function BoundaryOutcomeError(o: BoundaryOutcome): Option<Code> {
    if ScopeError(o.scope).Some? then ScopeError(o.scope)
    else if o.scenarios.None? || o.profile.None? then Some(InvalidDerived)
    else if OutcomeError(o.scenarios.value).Some? then OutcomeError(o.scenarios.value)
    else if OutcomeError(o.profile.value).Some? then OutcomeError(o.profile.value)
    else if o.scenarios.value.scope != o.scope || o.profile.value.scope != o.scope then Some(ScopeViolation)
    else if o.scenarios.value.stage != ScenarioStage || o.profile.value.stage != ProfileStage then Some(InvalidDerived)
    else if o.profile.value.version <= o.scenarios.value.version then Some(InvalidDerived)
    else None
  }

  // A recorded outcome of a stage passes every check made on it.
  lemma RecordedOutcome(s: Store, stage: Derived.Stage, b: Boundary, d: Derivation)
    requires Inv(s) && HasOperation(b, d) && stage != AtomStage && Operation(stage, b, d) in s.committed
    ensures var o, q := s.committed[Operation(stage, b, d)].outcome, s.committed[Operation(stage, b, d)].request;
      ValidOutcome(o) && o.operation == Operation(stage, b, d) && o.stage == stage && o.scope == s.scope
      && o == OutcomeOf(q, q.expected + 1)
  {
    hide RecordsFit, Chained, Grounded, StagesInOrder, Recorded, ProcessingOperationId, IsAtomOperation;
    hide ValidOutcome, OutcomeOf;
    OperationShape(stage, b, d);
    assert HonestOutcome(s, Operation(stage, b, d));
    assert forall x: Derived.Stage, y: Derived.Stage :: StageName(x)[0] == StageName(y)[0] ==> x == y;
  }

  // An answer names the next version and exactly the revisions of the request.
  lemma AnswerIsHonest(s: Store, q: CommitRequest, a: Action)
    requires Inv(s) && !a.Elsewhere? && HasOperation(a.b, a.d) && q.operation == OperationOf(a)
    requires q.operation in s.committed && s.committed[q.operation].request == q
    ensures var o := s.committed[q.operation].outcome;
      && ValidOutcome(o) && o.operation == q.operation && o.stage == q.stage && o.scope == q.scope
      && o.version == q.expected + 1 && multiset(o.revisions) == multiset(Refs(q.Revisions()))
  {
    hide Inv, ValidOutcome, ProcessingOperationId;
    RecordedOutcome(s, if a.CommitScenarios? then ScenarioStage else ProfileStage, a.b, a.d);
  }

  // The answer is the record made by the commit itself.
  lemma CommitIsRecorded(s: Store, q: CommitRequest, t: Store)
    requires Reaches(BoundaryStore.Apply(s, q), t)
    ensures q.operation in BoundaryStore.Apply(s, q).committed && q.operation in t.committed
    ensures t.committed[q.operation] == BoundaryStore.Apply(s, q).committed[q.operation]
  {
    hide Run;
    var actions :| Run(BoundaryStore.Apply(s, q), actions, t);
    CommittedStaysCommitted(BoundaryStore.Apply(s, q), actions, t, q.operation);
  }

  ghost predicate Answers(s: Store, op: OperationId, o: Outcome) {
    op in s.committed && o == s.committed[op].outcome
  }

  lemma StagesPass(s: Store, b: Boundary, d: Derivation)
    requires Inv(s) && ValidBoundary(b) && b.scope == s.scope && DerivationError(d) == None
    requires Operation(ScenarioStage, b, d) in s.committed && Operation(ProfileStage, b, d) in s.committed
    ensures BoundaryOutcomeError(BoundaryOutcome(
      s.scope, Some(s.committed[Operation(ScenarioStage, b, d)].outcome),
        Some(s.committed[Operation(ProfileStage, b, d)].outcome))) == None
  {
    hide RecordsFit, Chained, Grounded, Recorded, HonestOutcome, ProcessingOperationId, ValidOutcome, ScopeError;
    RecordedOutcome(s, ScenarioStage, b, d);
    RecordedOutcome(s, ProfileStage, b, d);
  }

  // What a stage worked from: the scope its snapshot showed, what the model answered, if it
  // did, and the scope right after the commit.
  datatype ScenarioWork = ScenarioWork(seen: Store, answer: Option<seq<ScenarioCandidate>>, after: Store)
  datatype ProfileWork = ProfileWork(seen: Store, answer: Option<Option<ProfileCandidate>>, after: Store)

  // The model's own answer, acceptable in the scope it was asked about, was committed to that
  // very scope.
  ghost predicate ScenariosDone(b: Boundary, op: OperationId, from: Store, w: ScenarioWork, to: Store) {
    && w.answer.Some? && |w.answer.value| <= MAX_CANDIDATE_COUNT
    && Reaches(from, w.seen) && ScenariosFit(b.scope, SnapshotOf(w.seen), w.answer.value)
    && ScenariosCommitted(b, op, w.seen, w.answer.value, w.after) && Reaches(w.after, to)
  }

  ghost predicate ProfileDone(b: Boundary, op: OperationId, from: Store, w: ProfileWork, to: Store) {
    && w.answer.Some? && Reaches(from, w.seen) && ProfileAccepted(b.scope, SnapshotOf(w.seen), w.answer.value)
    && ProfileCommitted(b, op, w.seen, w.answer.value, w.after) && Reaches(w.after, to)
  }

  // Why a stage fails though no call did: the scope is too large for a snapshot, or the model
  // gave no answer, or none that is acceptable in this scope.
  predicate ScenariosRefused(b: Boundary, s: Store, answer: Option<seq<ScenarioCandidate>>) {
    || ScopeSize(s) > MAX_SNAPSHOT_ITEMS || answer.None? || |answer.value| > MAX_CANDIDATE_COUNT
    || !ScenariosFit(b.scope, SnapshotOf(s), answer.value)
  }

  predicate ProfileRefused(b: Boundary, s: Store, answer: Option<Option<ProfileCandidate>>) {
    ScopeSize(s) > MAX_SNAPSHOT_ITEMS || answer.None? || !ProfileAccepted(b.scope, SnapshotOf(s), answer.value)
  }

  // ----- what the models are shown and asked -----

  datatype ScopeView = ScopeView(scope: Scope, version: nat, atoms: seq<AtomRevision>,
                                 scenarios: seq<ScenarioRevision>, profiles: seq<ProfileRevision>)

  // The active records of a list, in its order.
  function ActiveOnly(list: seq<Revision>): (active: seq<Revision>)
    ensures forall r :: r in active <==> r in list && r.meta.state == Active
  {
    if list == [] then []
    else
      var rest, last := ActiveOnly(list[..|list| - 1]), list[|list| - 1];
      if last.meta.state == Active then rest + [last] else rest
  }

  function ViewOf(s: Snapshot): ScopeView {
    ScopeView(s.scope, s.version, ActiveOnly(s.atoms), ActiveOnly(s.scenarios), ActiveOnly(s.profiles))
  }

  // activeAtoms, activeScenarios, activeProfiles
  method ActiveRevisions(list: seq<Revision>) returns (active: seq<Revision>)
    ensures active == ActiveOnly(list)
  {
    active := [];
    for i := 0 to |list|
      invariant active == ActiveOnly(list[..i])
    {
      assert list[..i + 1][..i] == list[..i];
      if list[i].meta.state == Active {
        active := active + [list[i]];
      }
    }
    assert list[..|list|] == list;
  }

  // scopeViewFromSnapshot: a model is shown the active records only.
  method ScopeViewFromSnapshot(s: Snapshot) returns (view: ScopeView)
    ensures view == ViewOf(s)
    ensures view.scope == s.scope && view.version == s.version
    ensures forall r: Revision :: r in view.atoms + view.scenarios + view.profiles <==>
      r in s.Revisions() && r.meta.state == Active
  {
    var atoms := ActiveRevisions(s.atoms);
    var scenarios := ActiveRevisions(s.scenarios);
    var profiles := ActiveRevisions(s.profiles);
    view := ScopeView(s.scope, s.version, atoms, scenarios, profiles);
  }

  // One call to a synthesizer: the boundary and the view it was asked about, and what it
  // returned, if it did.
  datatype ScenarioCall = ScenarioCall(b: Boundary, view: ScopeView, answer: Option<seq<ScenarioCandidate>>)
  datatype ProfileCall = ProfileCall(b: Boundary, view: ScopeView, answer: Option<Option<ProfileCandidate>>)

  // The synthesizers may return anything.
  class ScenarioSynthesizer {
    ghost var calls: seq<ScenarioCall>

    constructor ()
      ensures calls == []
    {
      calls := [];
    }

    method Synthesize(b: Boundary, view: ScopeView) returns (r: Result<seq<ScenarioCandidate>>)
      modifies this
      ensures calls == old(calls) + [ScenarioCall(b, view, if r.Ok? then Some(r.value) else None)]
    {
      var candidates: seq<ScenarioCandidate> := *;
      if * {
        calls := calls + [ScenarioCall(b, view, None)];
        return Err(ModelFailure);
      }
      calls := calls + [ScenarioCall(b, view, Some(candidates))];
      r := Ok(candidates);
    }
  }

  class ProfileSynthesizer {
    ghost var calls: seq<ProfileCall>

    constructor ()
      ensures calls == []
    {
      calls := [];
    }

    method Synthesize(b: Boundary, view: ScopeView) returns (r: Result<Option<ProfileCandidate>>)
      modifies this
      ensures calls == old(calls) + [ProfileCall(b, view, if r.Ok? then Some(r.value) else None)]
    {
      var candidate: Option<ProfileCandidate> := *;
      if * {
        calls := calls + [ProfileCall(b, view, None)];
        return Err(ModelFailure);
      }
      calls := calls + [ProfileCall(b, view, Some(candidate))];
      r := Ok(candidate);
    }
  }

  // The model was not asked, or once, about the scope that was seen; the answer is its own.
  ghost predicate AskedScenarios(b: Boundary, before: seq<ScenarioCall>, w: ScenarioWork, after: seq<ScenarioCall>) {
    || (after == before && w.answer.None?)
    || after == before + [ScenarioCall(b, ViewOf(SnapshotOf(w.seen)), w.answer)]
  }

  ghost predicate AskedProfile(b: Boundary, before: seq<ProfileCall>, w: ProfileWork, after: seq<ProfileCall>) {
    || (after == before && w.answer.None?)
    || after == before + [ProfileCall(b, ViewOf(SnapshotOf(w.seen)), w.answer)]
  }

  class Processor {
    const store: Port
    const scenarioModel: ScenarioSynthesizer
    const profileModel: ProfileSynthesizer
    const derivation: Derivation

    constructor (store: Port, scenarioModel: ScenarioSynthesizer, profileModel: ProfileSynthesizer,
        derivation: Derivation)
      requires DerivationError(derivation) == None
      ensures this.store == store && this.derivation == derivation
      ensures this.scenarioModel == scenarioModel && this.profileModel == profileModel
    {
      this.store, this.derivation, this.scenarioModel, this.profileModel :=
        store, derivation, scenarioModel, profileModel;
    }

    // This worker is at work on a boundary of the store's scope.
    ghost predicate Working(b: Boundary)
      reads store
    {
      Inv(store.s) && ValidBoundary(b) && b.scope == store.s.scope && DerivationError(derivation) == None
    }

    // loadBoundarySnapshot: only the size of the scope can make a snapshot unacceptable.
    method LoadBoundarySnapshot(b: Boundary) returns (r: Result<Snapshot>)
      requires Working(b)
      modifies store
      ensures Working(b) && Reaches(old(store.s), store.s)
      ensures r.Ok? ==> r.value == SnapshotOf(store.s) && ValidSnapshot(r.value, MAX_SNAPSHOT_ITEMS)
      ensures store.faults >= old(store.faults)
      ensures r.Err? ==> store.faults > old(store.faults) || ScopeSize(store.s) > MAX_SNAPSHOT_ITEMS
    {
      hide Inv, Reaches, ValidBoundary, ValidSnapshot, DerivationError;
      r := store.LoadScope();
      ReachesKeepsInv(old(store.s), store.s);
      SnapshotFitsIff(store.s);
      if r.Ok? {
        var fault := ValidateSnapshot(r.value, MAX_SNAPSHOT_ITEMS);
        if fault.Some? {
          r := Err(fault.value);
        } else if r.value.scope != b.scope {
          r := Err(ScopeViolation);
        }
      }
    }

    // commitBoundaryStage: the request always passes its own validation, and so does the
    // store's answer, which is of a commit made in the scope the request was made for.
    method CommitBoundaryStage(q: CommitRequest, ghost a: Action) returns (r: Result<Outcome>)
      requires Inv(store.s) && !a.Elsewhere? && Grounds(store.s, a) && q == RequestOf(store.s, a)
      modifies store
      ensures Inv(store.s) && Reaches(old(store.s), store.s)
      ensures r.Ok? ==> Answers(store.s, q.operation, r.value)
      ensures r.Ok? ==> Enabled(old(store.s), a) && Reaches(BoundaryStore.Apply(old(store.s), q), store.s)
      ensures store.faults >= old(store.faults)
      ensures r.Err? ==>
        || store.faults > old(store.faults) || store.s.version != old(store.s).version
        || q.operation in old(store.s).committed
    {
      hide Inv, Reaches, Grounds, ValidRequest, ValidOutcome, ScenarioRequest, ProfileRequest, OperationOf;
      hide BoundaryStore.Apply, IsAtomOperation;
      GroundedRequestIsValid(store.s, a);
      CommitsNoAtoms(a);
      var fault := ValidateRequest(q);
      if fault.Some? {
        assert false;
      }
      r := store.Commit(q, a);
      if r.Ok? {
        AnswerIsHonest(store.s, q, a);
        fault := ValidateCommittedOutcome(q, r.value);
        if fault.Some? {
          assert false;
        }
        CommitOfSnapshot(old(store.s), store.s, q);
      } else {
        ReachesKeepsInv(old(store.s), store.s);
      }
    }

    // The scenario stage. A stage already committed is answered without calling the model;
    // the model is called once at most.
    method ProcessScenarioStage(b: Boundary) returns (r: Result<Outcome>, ghost w: ScenarioWork)
      requires Working(b)
      modifies store, scenarioModel
      ensures Working(b) && Reaches(old(store.s), store.s)
      ensures AskedScenarios(b, old(scenarioModel.calls), w, scenarioModel.calls)
      ensures Operation(ScenarioStage, b, derivation) in old(store.s).committed ==>
        scenarioModel.calls == old(scenarioModel.calls)
      ensures r.Ok? ==> Answers(store.s, Operation(ScenarioStage, b, derivation), r.value)
      ensures r.Ok? && w.answer.None? ==> scenarioModel.calls == old(scenarioModel.calls)
      ensures r.Ok? && w.answer.Some? ==>
        && ScenariosDone(b, Operation(ScenarioStage, b, derivation), old(store.s), w, store.s)
        && Answers(w.after, Operation(ScenarioStage, b, derivation), r.value)
      ensures store.faults >= old(store.faults)
      ensures r.Err? && store.faults == old(store.faults) && store.s.version == old(store.s).version ==>
        Operation(ScenarioStage, b, derivation) !in old(store.s).committed && ScenariosRefused(b, store.s, w.answer)
    {
      hide Inv, Reaches, ProcessingOperationId, ValidOutcome, ScopeError, OutcomeOf;
      hide ProfileAccepted, ScenariosFit, ScenariosCommitted, ProfileCommitted;
      var op := Operation(ScenarioStage, b, derivation);
      w := ScenarioWork(store.s, None, store.s);
      var prior := store.LookupOperation(op);
      ReachesKeepsInv(old(store.s), store.s);
      if prior.Err? {
        return Err(prior.code), w;
      }
      if prior.value.Some? {
        RecordedOutcome(store.s, ScenarioStage, b, derivation);
        var o := prior.value.value;
        if OutcomeError(o).Some? || o.operation != op || o.stage != ScenarioStage || o.scope != b.scope {
          assert false;
        }
        return Ok(o), w;
      }
      ghost var mid := store.s;
      r, w := SynthesizeScenarios(b, op);
      ReachesTransitive(old(store.s), mid, store.s);
      ReachesKeepsInv(mid, store.s);
      if r.Ok? { ReachesTransitive(old(store.s), mid, w.seen); }
    }

    method SynthesizeScenarios(b: Boundary, op: OperationId) returns (r: Result<Outcome>, ghost w: ScenarioWork)
      requires Working(b) && op == Operation(ScenarioStage, b, derivation)
      modifies store, scenarioModel
      ensures Working(b) && Reaches(old(store.s), store.s)
      ensures AskedScenarios(b, old(scenarioModel.calls), w, scenarioModel.calls)
      ensures r.Ok? ==> Answers(store.s, op, r.value) && Answers(w.after, op, r.value)
      ensures r.Ok? ==> ScenariosDone(b, op, old(store.s), w, store.s)
      ensures store.faults >= old(store.faults)
      ensures r.Err? && store.faults == old(store.faults) && store.s.version == old(store.s).version ==>
        op in old(store.s).committed || ScenariosRefused(b, store.s, w.answer)
    {
      hide Inv, Reaches, ProcessingOperationId, ValidSnapshot, ScenariosFit, BuiltScenarios, Retirements;
      hide ScopeError, AllFit;
      hide ScenariosCommitted, ProfileCommitted, BoundaryStore.Apply;
      w := ScenarioWork(store.s, None, store.s);
      var snapshot := LoadBoundarySnapshot(b);
      ReachesKeepsInv(old(store.s), store.s);
      ghost var mid := store.s;
      if snapshot.Err? {
        return Err(snapshot.code), w;
      }
      var view := ScopeViewFromSnapshot(snapshot.value);
      var synthesized := scenarioModel.Synthesize(b, view);
      if synthesized.Err? {
        w := ScenarioWork(mid, None, mid);
        return Err(synthesized.code), w;
      }
      var candidates := synthesized.value;
      w := ScenarioWork(mid, Some(candidates), mid);
      if |candidates| > MAX_CANDIDATE_COUNT {
        return Err(LimitExceeded), w;
      }
      OperationShape(ScenarioStage, b, derivation);
      InvFits(store.s);
      FitsAreValid(store.s.scope, store.s.scenarios);
      var grounded := GroundScenarios(b, op, snapshot.value, candidates);
      if grounded.Err? {
        return Err(grounded.code), w;
      }
      var q := CommitRequest(op, ScenarioStage, b.scope, snapshot.value.version, [], [], grounded.value.0, [],
        grounded.value.1);
      r := CommitBoundaryStage(q, CommitScenarios(b, derivation, candidates));
      ReachesTransitive(old(store.s), mid, store.s);
      ReachesKeepsInv(mid, store.s);
      if r.Ok? {
        w := w.(after := BoundaryStore.Apply(mid, q));
        ScenarioCommitEffect(mid, CommitScenarios(b, derivation, candidates));
        CommitIsRecorded(mid, q, store.s);
      }
    }

    // The profile stage, which ProcessBoundary reaches only after the scenario stage.
    method ProcessProfileStage(b: Boundary) returns (r: Result<Outcome>, ghost w: ProfileWork)
      requires Working(b) && Operation(ScenarioStage, b, derivation) in store.s.committed
      modifies store, profileModel
      ensures Working(b) && Reaches(old(store.s), store.s)
      ensures AskedProfile(b, old(profileModel.calls), w, profileModel.calls)
      ensures Operation(ProfileStage, b, derivation) in old(store.s).committed ==>
        profileModel.calls == old(profileModel.calls)
      ensures r.Ok? ==> Answers(store.s, Operation(ProfileStage, b, derivation), r.value)
      ensures r.Ok? && w.answer.None? ==> profileModel.calls == old(profileModel.calls)
      ensures r.Ok? && w.answer.Some? ==>
        && ProfileDone(b, Operation(ProfileStage, b, derivation), old(store.s), w, store.s)
        && Answers(w.after, Operation(ProfileStage, b, derivation), r.value)
      ensures store.faults >= old(store.faults)
      ensures r.Err? && store.faults == old(store.faults) && store.s.version == old(store.s).version ==>
        Operation(ProfileStage, b, derivation) !in old(store.s).committed && ProfileRefused(b, store.s, w.answer)
    {
      hide Inv, Reaches, ProcessingOperationId, ValidOutcome, ScopeError, OutcomeOf;
      hide ProfileAccepted, ScenariosFit, ScenariosCommitted, ProfileCommitted;
      var op := Operation(ProfileStage, b, derivation);
      w := ProfileWork(store.s, None, store.s);
      var prior := store.LookupOperation(op);
      ReachesKeepsInv(old(store.s), store.s);
      if prior.Err? {
        return Err(prior.code), w;
      }
      if prior.value.Some? {
        RecordedOutcome(store.s, ProfileStage, b, derivation);
        var o := prior.value.value;
        if OutcomeError(o).Some? || o.operation != op || o.stage != ProfileStage || o.scope != b.scope {
          assert false;
        }
        return Ok(o), w;
      }
      ghost var mid := store.s;
      r, w := SynthesizeProfile(b, op);
      ReachesTransitive(old(store.s), mid, store.s);
      ReachesKeepsInv(mid, store.s);
      if r.Ok? { ReachesTransitive(old(store.s), mid, w.seen); }
    }

    method SynthesizeProfile(b: Boundary, op: OperationId) returns (r: Result<Outcome>, ghost w: ProfileWork)
      requires Working(b) && op == Operation(ProfileStage, b, derivation)
      requires Operation(ScenarioStage, b, derivation) in store.s.committed
      modifies store, profileModel
      ensures Working(b) && Reaches(old(store.s), store.s)
      ensures AskedProfile(b, old(profileModel.calls), w, profileModel.calls)
      ensures r.Ok? ==> Answers(store.s, op, r.value) && Answers(w.after, op, r.value)
      ensures r.Ok? ==> ProfileDone(b, op, old(store.s), w, store.s)
      ensures store.faults >= old(store.faults)
      ensures r.Err? && store.faults == old(store.faults) && store.s.version == old(store.s).version ==>
        op in old(store.s).committed || ProfileRefused(b, store.s, w.answer)
    {
      hide Inv, Reaches, ProcessingOperationId, ValidSnapshot, ProfileAccepted, BuiltProfiles, Retirements;
      hide ScopeError, AllFit;
      hide ScenariosCommitted, ProfileCommitted, BoundaryStore.Apply;
      w := ProfileWork(store.s, None, store.s);
      var snapshot := LoadBoundarySnapshot(b);
      ReachesKeepsInv(old(store.s), store.s);
      ghost var mid := store.s;
      ReachesKeepsInv(old(store.s), store.s);
      if snapshot.Err? {
        return Err(snapshot.code), w;
      }
      var view := ScopeViewFromSnapshot(snapshot.value);
      var synthesized := profileModel.Synthesize(b, view);
      if synthesized.Err? {
        w := ProfileWork(mid, None, mid);
        return Err(synthesized.code), w;
      }
      var candidate := synthesized.value;
      w := ProfileWork(mid, Some(candidate), mid);
      OperationShape(ProfileStage, b, derivation);
      InvFits(store.s);
      var grounded := GroundProfile(b, op, snapshot.value, candidate);
      if grounded.Err? {
        return Err(grounded.code), w;
      }
      var q := CommitRequest(op, ProfileStage, b.scope, snapshot.value.version, [], [], [], grounded.value.0,
        grounded.value.1);
      r := CommitBoundaryStage(q, CommitProfile(b, derivation, candidate));
      ReachesTransitive(old(store.s), mid, store.s);
      ReachesKeepsInv(mid, store.s);
      if r.Ok? {
        w := w.(after := BoundaryStore.Apply(mid, q));
        ProfileCommitEffect(mid, CommitProfile(b, derivation, candidate));
        CommitIsRecorded(mid, q, store.s);
      }
    }

    // ProcessBoundary: both stages, each answered from the record or committed once. The
    // check of the two outcomes together, at the end, never fails; so the only failures
    // are those of the ports, the models, the limits and lost races.
    method ProcessBoundary(b: Boundary)
      returns (err: Option<Code>, o: BoundaryOutcome, ghost scenarioWork: ScenarioWork, ghost profileWork: ProfileWork)
      requires Working(b)
      modifies store, scenarioModel, profileModel
      ensures Working(b) && Reaches(old(store.s), store.s)
      ensures AskedScenarios(b, old(scenarioModel.calls), scenarioWork, scenarioModel.calls)
      ensures AskedProfile(b, old(profileModel.calls), profileWork, profileModel.calls)
      ensures o.scenarios.Some? ==> Answers(store.s, Operation(ScenarioStage, b, derivation), o.scenarios.value)
      ensures o.profile.Some? ==> Answers(store.s, Operation(ProfileStage, b, derivation), o.profile.value)
      ensures o.scenarios.Some? && scenarioWork.answer.None? ==> scenarioModel.calls == old(scenarioModel.calls)
      ensures o.profile.Some? && profileWork.answer.None? ==> profileModel.calls == old(profileModel.calls)
      ensures o.scenarios.Some? && scenarioWork.answer.Some? ==>
        && ScenariosDone(b, Operation(ScenarioStage, b, derivation), old(store.s), scenarioWork, store.s)
        && Answers(scenarioWork.after, Operation(ScenarioStage, b, derivation), o.scenarios.value)
      ensures o.profile.Some? && profileWork.answer.Some? ==>
        && ProfileDone(b, Operation(ProfileStage, b, derivation), old(store.s), profileWork, store.s)
        && Answers(profileWork.after, Operation(ProfileStage, b, derivation), o.profile.value)
      ensures o.scenarios.None? && store.faults == old(store.faults) && store.s.version == old(store.s).version ==>
        ScenariosRefused(b, store.s, scenarioWork.answer)
      ensures
        && o.scenarios.Some? && o.profile.None? && store.faults == old(store.faults)
        && store.s.version == (if scenarioWork.answer.Some? then scenarioWork.after else old(store.s)).version ==>
        ProfileRefused(b, store.s, profileWork.answer)
      ensures err.None? <==> o.scenarios.Some? && o.profile.Some?
      ensures err.None? ==> o.scenarios.value.version < o.profile.value.version
      ensures Operation(ScenarioStage, b, derivation) in old(store.s).committed ==>
        scenarioModel.calls == old(scenarioModel.calls)
      ensures Operation(ProfileStage, b, derivation) in old(store.s).committed ==>
        profileModel.calls == old(profileModel.calls)
    {
      hide Inv, Reaches, ProcessingOperationId, ValidOutcome, ScopeError, BoundaryOutcomeError;
      hide ScenariosCommitted, ProfileCommitted, ScenariosFit, ProfileAccepted;
      o := BoundaryOutcome(b.scope, None, None);
      profileWork := ProfileWork(store.s, None, store.s);
      var scenarios;
      scenarios, scenarioWork := ProcessScenarioStage(b);
      ReachesKeepsInv(old(store.s), store.s);
      if scenarios.Err? {
        return Some(scenarios.code), o, scenarioWork, profileWork;
      }
      o := o.(scenarios := Some(scenarios.value));
      ghost var mid := store.s;
      var profile;
      profile, profileWork := ProcessProfileStage(b);
      ReachesTransitive(old(store.s), mid, store.s);
      ReachesKeepsInv(mid, store.s);
      if scenarioWork.answer.Some? {
        ReachesTransitive(scenarioWork.after, mid, store.s);
        ReachesMovesOn(scenarioWork.after, mid);
      }
      if profile.Err? {
        return Some(profile.code), o, scenarioWork, profileWork;
      }
      if profileWork.answer.Some? { ReachesTransitive(old(store.s), mid, profileWork.seen); }
      o := o.(profile := Some(profile.value));
      StagesPass(store.s, b, derivation);
      if BoundaryOutcomeError(o).Some? {
        assert false;
      }
      LaterProfile(store.s, b, derivation);
      err := None;
    }
  }

  lemma LaterProfile(s: Store, b: Boundary, d: Derivation)
    requires Inv(s) && HasOperation(b, d) && Operation(ProfileStage, b, d) in s.committed
    ensures Operation(ScenarioStage, b, d) in s.committed
    ensures s.committed[Operation(ScenarioStage, b, d)].outcome.version <
      s.committed[Operation(ProfileStage, b, d)].outcome.version
  {
  }
}
