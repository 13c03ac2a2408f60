// What a boundary stage leaves in the scope (engine_boundary.go, processScenarioStage and
// processProfileStage): the records of the synthesizer's own answer, the retirement of what
// they replace, and nothing else.
module BoundaryCommits {
  import opened Wrappers
  import opened Text
  import opened Derived
  import opened PortsValidation
  import opened BoundaryGrounding
  import opened BoundaryStore

  // ----- the effect, without naming the request -----

  // The listed revisions, of which exactly the targets are superseded, and new ones behind.
  ghost predicate Superseded(before: seq<Revision>, targets: set<RevisionRef>, after: seq<Revision>) {
    && |before| <= |after|
    && forall i | 0 <= i < |before| :: after[i] ==
         if before[i].Ref() in targets then before[i].(meta := before[i].meta.(state := State.Superseded))
         else before[i]
  }

  // The outcome recorded for the stage names these new revisions, in their order.
  ghost predicate RecordedAs(seen: Store, after: Store, stage: Stage, op: OperationId, made: seq<Revision>) {
    && op !in seen.committed && after.committed.Keys == seen.committed.Keys + {op}
    && (forall other | other in seen.committed :: after.committed[other] == seen.committed[other])
    && after.scope == seen.scope && after.version == seen.version + 1
    && after.atoms == seen.atoms && after.sources == seen.sources
    && after.committed[op].outcome == Outcome(op, stage, seen.scope, seen.version + 1, Refs(made))
    && forall r | r in made :: RevisionError(r) == None && r.meta.state == Active
  }

  // The scenario stage: one new revision for each candidate of the answer, which records that
  // candidate, and exactly the revisions the candidates replace are superseded.
  ghost predicate ScenariosCommitted(b: Boundary, op: OperationId, seen: Store, answer: seq<ScenarioCandidate>,
      after: Store) {
    var n := |seen.scenarios|;
    && |after.scenarios| == n + |answer| && after.profiles == seen.profiles
    && Superseded(seen.scenarios, ScenarioTargets(answer), after.scenarios)
    && RecordedAs(seen, after, ScenarioStage, op, after.scenarios[n..])
    && forall i | 0 <= i < |answer| ::
         RecordsScenario(b, op, seen.scenarios, answer[i], after.scenarios[n + i])
  }

  function ProfileTargets(answer: Option<ProfileCandidate>): set<RevisionRef> {
    if answer.Some? && answer.value.disposition == Upsert && answer.value.supersedes.Some?
    then {answer.value.supersedes.value} else {}
  }

  // The profile stage: an update becomes one new revision; a skip, or no answer, none.
  ghost predicate ProfileCommitted(b: Boundary, op: OperationId, seen: Store, answer: Option<ProfileCandidate>,
      after: Store) {
    var n := |seen.profiles|;
    && |after.profiles| == (if answer.Some? && answer.value.disposition == Upsert then n + 1 else n)
    && after.scenarios == seen.scenarios
    && Superseded(seen.profiles, ProfileTargets(answer), after.profiles)
    && RecordedAs(seen, after, ProfileStage, op, after.profiles[n..])
    && (|after.profiles| > n ==> RecordsProfile(b, op, seen.profiles, answer.value, after.profiles[n]))
  }

  // ----- a commit has it -----

  // Only active revisions are replaced, so retiring the targets supersedes them all.
  lemma RetireSupersedes(list: seq<Revision>, made: seq<Revision>, targets: set<RevisionRef>)
    requires UniqueIds(list) && forall ref | ref in targets :: IsActive(list, ref)
    ensures Superseded(list, targets, Retire(list, targets) + made)
  {
    forall i | 0 <= i < |list| && list[i].Ref() in targets ensures list[i].meta.state == Active {
      var r :| r in list && r.meta.state == Active && r.Ref() == list[i].Ref();
      var k :| 0 <= k < |list| && list[k] == r;
      assert k == i;
    }
  }

  // Nothing of another kind has such an identity.
  lemma RetireNothing(list: seq<Revision>, targets: set<RevisionRef>)
    requires forall r | r in list :: r.Ref() !in targets
    ensures Retire(list, targets) + [] == list
  {
    assert forall i | 0 <= i < |list| :: list[i] in list;
  }

  lemma KindsDiffer(scope: Scope, scenarios: seq<ScenarioRevision>, profiles: seq<ProfileRevision>)
    requires AllFit(scope, scenarios) && AllFit(scope, profiles)
    ensures forall r, q | r in scenarios && q in profiles :: r.Ref() != q.Ref()
  {
    hide RevisionError;
    forall r, q | r in scenarios && q in profiles ensures r.Ref() != q.Ref() {
      assert RecordFits(scope, r) && RecordFits(scope, q);
      KindOfRecord(r);
      KindOfRecord(q);
    }
  }

  lemma TargetsAreRefs(transitions: seq<Transition>, targets: set<RevisionRef>)
    requires RetiresExactly(transitions, targets)
    ensures TransitionRefs(transitions) == targets
  {
  }

  lemma AnswerTargets(b: Boundary, op: OperationId, list: seq<Revision>, answer: seq<ScenarioCandidate>,
      made: seq<Revision>)
    requires |made| == |answer| && forall i | 0 <= i < |answer| :: RecordsScenario(b, op, list, answer[i], made[i])
    ensures forall ref | ref in ScenarioTargets(answer) :: IsActive(list, ref)
  {
    hide IsActive, NextNumber, ParentsAre;
    forall ref | ref in ScenarioTargets(answer) ensures IsActive(list, ref) {
      var c :| c in answer && c.supersedes == Some(ref);
      var i :| 0 <= i < |answer| && answer[i] == c;
      assert CommonFields(b, op, list, c.atoms, c.supersedes, made[i]);
    }
  }

  lemma ScenarioCommitShape(s: Store, b: Boundary, op: OperationId, q: CommitRequest, answer: seq<ScenarioCandidate>)
    requires RecordsFit(s) && op !in s.committed
    requires q == CommitRequest(op, ScenarioStage, s.scope, s.version, [], [], q.scenarios, [], q.transitions)
    requires |q.scenarios| == |answer| && RetiresExactly(q.transitions, ScenarioTargets(answer))
    requires forall i | 0 <= i < |answer| ::
      && RevisionError(q.scenarios[i]) == None && q.scenarios[i].meta.state == Active
      && RecordsScenario(b, op, s.scenarios, answer[i], q.scenarios[i])
    ensures ScenariosCommitted(b, op, s, answer, Apply(s, q))
  {
    hide RecordsScenario, RevisionError, SourcesFit, ScopeError, AllFit, UniqueIds, Superseded, ScenarioTargets;
    hide RetiresExactly;
    var n, targets := Apply(s, q), ScenarioTargets(answer);
    TargetsAreRefs(q.transitions, targets);
    AnswerTargets(b, op, s.scenarios, answer, q.scenarios);
    RetireSupersedes(s.scenarios, q.scenarios, targets);
    KindsDiffer(s.scope, s.scenarios, s.profiles);
    NoneOfOthers(s.scenarios, s.profiles, targets);
    RetireNothing(s.profiles, targets);
    assert n.scenarios[|s.scenarios|..] == q.scenarios;
    assert q.Revisions() == q.scenarios;
  }

  lemma NoneOfOthers(list: seq<Revision>, others: seq<Revision>, targets: set<RevisionRef>)
    requires forall ref | ref in targets :: IsActive(list, ref)
    requires forall r, q | r in list && q in others :: r.Ref() != q.Ref()
    ensures forall q | q in others :: q.Ref() !in targets
  {
  }

  lemma ScenarioCommitEffect(s: Store, a: Action)
    requires Inv(s) && a.CommitScenarios? && Enabled(s, a)
    ensures ScenariosCommitted(a.b, OperationOf(a), s, a.candidates, Apply(s, RequestOf(s, a)))
  {
    hide ScenariosCommitted, Apply, ScenariosFit, BuiltScenarios, Retirements, ScopeError, Chained, Grounded, Effects;
    hide ProcessingOperationId, RetiresExactly, RecordsScenario, RevisionError, AllFit, OperationIdError;
    OperationShape(ScenarioStage, a.b, a.d);
    InvFits(s);
    FitsAreValid(s.scope, s.scenarios);
    ScenariosAreRecorded(a.b, OperationOf(a), SnapshotOf(s), a.candidates);
    ScenarioCommitShape(s, a.b, OperationOf(a), RequestOf(s, a), a.candidates);
  }

  lemma ReplacedIsActive(b: Boundary, op: OperationId, list: seq<Revision>, c: ProfileCandidate, made: Revision)
    requires RecordsProfile(b, op, list, c, made) && c.supersedes.Some?
    ensures IsActive(list, c.supersedes.value)
  {
    hide IsActive, NextNumber, ParentsAre;
    assert ReplacesActive(list, made.meta.item, c.supersedes);
  }

  lemma ProfileCommitShape(s: Store, b: Boundary, op: OperationId, q: CommitRequest, answer: Option<ProfileCandidate>)
    requires RecordsFit(s) && op !in s.committed
    requires q == CommitRequest(op, ProfileStage, s.scope, s.version, [], [], [], q.profiles, q.transitions)
    requires TransitionRefs(q.transitions) == ProfileTargets(answer)
    requires |q.profiles| == if answer.Some? && answer.value.disposition == Upsert then 1 else 0
    requires q.profiles != [] ==>
      && RevisionError(q.profiles[0]) == None && q.profiles[0].meta.state == Active
      && RecordsProfile(b, op, s.profiles, answer.value, q.profiles[0])
    ensures ProfileCommitted(b, op, s, answer, Apply(s, q))
  {
    hide RevisionError, SourcesFit, ScopeError, AllFit, UniqueIds, Superseded, RecordsProfile, IsActive, Retire;
    var n, targets := Apply(s, q), ProfileTargets(answer);
    if targets != {} { ReplacedIsActive(b, op, s.profiles, answer.value, q.profiles[0]); }
    hide ProfileTargets;
    RetireSupersedes(s.profiles, q.profiles, targets);
    KindsDiffer(s.scope, s.scenarios, s.profiles);
    NoneOfOthers(s.profiles, s.scenarios, targets);
    RetireNothing(s.scenarios, targets);
    ProfileApplied(s, q);
    hide Apply;
  }

  lemma ProfileApplied(s: Store, q: CommitRequest)
    requires q == CommitRequest(q.operation, ProfileStage, s.scope, s.version, [], [], [], q.profiles, q.transitions)
    requires q.operation !in s.committed
    requires forall r | r in q.profiles :: RevisionError(r) == None && r.meta.state == Active
    ensures var n := Apply(s, q);
      && n.profiles[|s.profiles|..] == q.profiles
      && RecordedAs(s, n, ProfileStage, q.operation, n.profiles[|s.profiles|..])
  {
    hide RevisionError, Retired;
    assert Apply(s, q).profiles[|s.profiles|..] == q.profiles;
    assert q.Revisions() == q.profiles;
  }

  lemma ProfileRetirements(built: seq<Revision>)
    requires |built| <= 1
    ensures TransitionRefs(Retirements(built)) == Targets(built)
  {
    EmptyRetirements();
    hide Retirements;
    if built == [] {
      NothingRetired();
    } else {
      RetirementsStep([], built[0]);
      assert [] + [built[0]] == built;
      OneRetired(built[0], Retirements(built));
    }
  }

  lemma NothingRetired()
    ensures TransitionRefs([]) == Targets([])
  {
  }

  lemma OneRetired(r: Revision, transitions: seq<Transition>)
    requires transitions == [] +
      if r.meta.supersedes.Some? then [Transition(r.meta.supersedes.value, Some(Active), State.Superseded)] else []
    ensures TransitionRefs(transitions) == Targets([r])
  {
    if r.meta.supersedes.Some? { assert transitions[0] in transitions && r in [r]; }
  }

  lemma ProfileCommitEffect(s: Store, a: Action)
    requires Inv(s) && a.CommitProfile? && Enabled(s, a)
    ensures ProfileCommitted(a.b, OperationOf(a), s, a.candidate, Apply(s, RequestOf(s, a)))
  {
    hide ProfileCommitted, Apply, Retirements, ScopeError, Grounded, Effects, BuiltProfile;
    hide ProcessingOperationId, RecordsProfile, RevisionError, AllFit, OperationIdError, ProfileFits, Chained;
    hide UniqueIds, SourcesFit, SingleActive;
    var q := RequestOf(s, a);
    OperationShape(ProfileStage, a.b, a.d);
    InvFits(s);
    ProfileRetirements(q.profiles);
    if q.profiles != [] {
      BuiltProfileIsValid(a.b, OperationOf(a), SnapshotOf(s), a.candidate.value);
      BuiltProfileRecords(a.b, OperationOf(a), SnapshotOf(s), a.candidate.value);
      BuiltProfileShape(a.b, OperationOf(a), SnapshotOf(s), a.candidate.value);
    }
    ProfileCommitShape(s, a.b, OperationOf(a), q, a.candidate);
  }

  // ----- an answer from the store belongs to this very commit -----

  // A step records an operation with the version it was made at.
  lemma StepRecords(s: Store, a: Action, op: OperationId)
    requires Inv(s) && Enabled(s, a) && op !in s.committed && op in Next(s, a).committed && !IsAtomOperation(op)
    ensures !a.Elsewhere? && Next(s, a) == Apply(s, RequestOf(s, a)) && RequestOf(s, a).expected == s.version
    ensures Next(s, a).committed[op].request == RequestOf(s, a) && RequestOf(s, a).operation == op
  {
    hide ScenariosFit, ProfileAccepted, Inv, ProcessingOperationId, ValidRequest, IsAtomOperation, BuiltScenarios;
    hide BuiltProfiles, Retirements, KeptOrInvalidated;
    if !a.Elsewhere? { GroundedRequestIsValid(s, a); }
  }

  lemma {:induction false} RecordedLater(s: Store, actions: seq<Action>, t: Store, op: OperationId)
    requires Inv(s) && Run(s, actions, t) && op !in s.committed && op in t.committed && !IsAtomOperation(op)
    ensures t.committed[op].request.expected >= s.version
    ensures t.committed[op].request.expected == s.version ==> Reaches(Apply(s, t.committed[op].request), t)
    decreases |actions|
  {
    hide Inv, Enabled, Next, Apply, IsAtomOperation, RequestOf;
    if actions != [] {
      var n := Next(s, actions[0]);
      StepKeepsInv(s, actions[0]);
      StepExtends(s, actions[0]);
      if op in n.committed {
        StepRecords(s, actions[0], op);
        CommittedStaysCommitted(n, actions[1..], t, op);
        assert Run(n, actions[1..], t);
      } else {
        RecordedLater(n, actions[1..], t, op);
        StepMovesOn(s, actions[0]);
      }
    }
  }

  lemma StepMovesOn(s: Store, a: Action)
    requires Enabled(s, a)
    ensures Next(s, a).version > s.version
  {
    hide ScenariosFit, ProfileAccepted, KeptOrInvalidated, UniqueIds, ProcessingOperationId, ValidBoundary;
  }

  lemma {:induction false} RunMovesOn(s: Store, actions: seq<Action>, t: Store)
    requires Run(s, actions, t)
    ensures s.version <= t.version
    decreases |actions|
  {
    hide Enabled, Next;
    if actions != [] {
      StepMovesOn(s, actions[0]);
      RunMovesOn(Next(s, actions[0]), actions[1..], t);
    }
  }

  lemma ReachesMovesOn(s: Store, t: Store)
    requires Reaches(s, t)
    ensures s.version <= t.version
  {
    hide Run;
    var actions :| Run(s, actions, t);
    RunMovesOn(s, actions, t);
  }

  // A recorded request made at the version of a scope was made in that very scope.
  lemma CommitOfSnapshot(s: Store, t: Store, q: CommitRequest)
    requires Inv(s) && Reaches(s, t) && q.expected == s.version && !IsAtomOperation(q.operation)
    requires q.operation in t.committed && t.committed[q.operation].request == q
    ensures q.operation !in s.committed && Reaches(Apply(s, q), t)
  {
    hide Inv, Run, Apply, IsAtomOperation;
    var actions :| Run(s, actions, t);
    if q.operation in s.committed {
      CommittedStaysCommitted(s, actions, t, q.operation);
      RecordedBefore(s, q.operation);
    }
    RecordedLater(s, actions, t, q.operation);
  }

  lemma RecordedBefore(s: Store, op: OperationId)
    requires Inv(s) && op in s.committed && !IsAtomOperation(op)
    ensures s.committed[op].request.expected < s.version
  {
    hide RecordsFit, Chained, Grounded, Recorded, StagesInOrder, ValidOutcome, IsAtomOperation;
    assert HonestOutcome(s, op);
  }

  // ----- what later commits leave of it -----

  // Records stay where they are, and as they are but for their lifecycle state, which never
  // returns to active.
  ghost predicate Immutable(list: seq<Revision>, later: seq<Revision>) {
    && |list| <= |later|
    && forall i | 0 <= i < |list| ::
         SameButState(list[i], later[i]) && (later[i].meta.state == Active ==> list[i].meta.state == Active)
  }

  lemma StepIsImmutable(s: Store, a: Action)
    requires Enabled(s, a)
    ensures Immutable(s.scenarios, Next(s, a).scenarios) && Immutable(s.profiles, Next(s, a).profiles)
  {
    hide ScenariosFit, ProfileAccepted, UniqueIds, ProcessingOperationId, ValidBoundary, RequestOf;
  }

  lemma ImmutableTransitive(a: seq<Revision>, b: seq<Revision>, c: seq<Revision>)
    requires Immutable(a, b) && Immutable(b, c)
    ensures Immutable(a, c)
  {
  }

  lemma {:induction false} RunIsImmutable(s: Store, actions: seq<Action>, t: Store)
    requires Run(s, actions, t)
    ensures Immutable(s.scenarios, t.scenarios) && Immutable(s.profiles, t.profiles)
    decreases |actions|
  {
    hide Enabled, Next;
    if actions != [] {
      hide Immutable;
      var n := Next(s, actions[0]);
      StepIsImmutable(s, actions[0]);
      RunIsImmutable(n, actions[1..], t);
      ImmutableTransitive(s.scenarios, n.scenarios, t.scenarios);
      ImmutableTransitive(s.profiles, n.profiles, t.profiles);
    }
  }

  lemma ReachesIsImmutable(s: Store, t: Store)
    requires Reaches(s, t)
    ensures Immutable(s.scenarios, t.scenarios) && Immutable(s.profiles, t.profiles)
  {
    hide Run, Immutable;
    var actions :| Run(s, actions, t);
    RunIsImmutable(s, actions, t);
  }

  lemma StateIsNoField(b: Boundary, op: OperationId, list: seq<Revision>, c: ScenarioCandidate, r: Revision,
      later: Revision)
    requires RecordsScenario(b, op, list, c, r) && SameButState(r, later)
    ensures RecordsScenario(b, op, list, c, later)
  {
    hide NextNumber, ParentsAre, ReplacesActive, Normalize;
  }

  // In every later state: what the stage recorded still records the answer, in its place, and
  // what it replaced is never active again.
  lemma CommittedScenariosStay(b: Boundary, op: OperationId, seen: Store, answer: seq<ScenarioCandidate>, after: Store,
      t: Store)
    requires ScenariosCommitted(b, op, seen, answer, after) && Reaches(after, t)
    ensures var n := |seen.scenarios|;
      && n + |answer| <= |t.scenarios|
      && (forall i | 0 <= i < |answer| :: RecordsScenario(b, op, seen.scenarios, answer[i], t.scenarios[n + i]))
      && forall i | 0 <= i < n && seen.scenarios[i].Ref() in ScenarioTargets(answer) ::
           t.scenarios[i].Ref() == seen.scenarios[i].Ref() && t.scenarios[i].meta.state != Active
  {
    hide Reaches, RecordsScenario, RecordedAs, ScenarioTargets;
    ReachesIsImmutable(after, t);
    var n := |seen.scenarios|;
    forall i | 0 <= i < |answer| ensures RecordsScenario(b, op, seen.scenarios, answer[i], t.scenarios[n + i]) {
      StateIsNoField(b, op, seen.scenarios, answer[i], after.scenarios[n + i], t.scenarios[n + i]);
    }
  }

  // ----- the snapshot -----

  function ScopeSize(s: Store): nat {
    |s.sources| + |s.atoms| + |s.scenarios| + |s.profiles|
  }

  // Only the size of a scope can make its snapshot unacceptable.
  lemma SnapshotFitsIff(s: Store)
    requires Inv(s)
    ensures ValidSnapshot(SnapshotOf(s), MAX_SNAPSHOT_ITEMS) <==> ScopeSize(s) <= MAX_SNAPSHOT_ITEMS
  {
    hide Chained, Grounded, Effects, RevisionError, ScopeError;
    var all := SnapshotOf(s).Revisions();
    AllRecordsFit(s);
    IdsAcrossKinds(s);
  }

  lemma AllRecordsFit(s: Store)
    requires AllFit(s.scope, s.atoms) && AllFit(s.scope, s.scenarios) && AllFit(s.scope, s.profiles)
    ensures forall i | 0 <= i < |SnapshotOf(s).Revisions()| :: RecordFits(s.scope, SnapshotOf(s).Revisions()[i])
  {
    hide RecordFits;
    var all := SnapshotOf(s).Revisions();
    forall i | 0 <= i < |all| ensures RecordFits(s.scope, all[i]) {
      assert all[i] in s.atoms || all[i] in s.scenarios || all[i] in s.profiles;
    }
  }

  lemma IdsByKind(scope: Scope, r: Revision)
    requires RecordFits(scope, r)
    ensures r.meta.revision.RevisionId? && r.meta.revision.item.ItemId? && r.meta.revision.item.kind == KindOf(r.body)
  {
    hide RevisionError;
    ValidRevisionIsGenuine(r);
    KindOfRecord(r);
  }

  lemma IdsAcrossKinds(s: Store)
    requires AllFit(s.scope, s.atoms) && AllFit(s.scope, s.scenarios) && AllFit(s.scope, s.profiles)
    requires UniqueIds(s.atoms) && UniqueIds(s.scenarios) && UniqueIds(s.profiles)
    ensures UniqueIds(SnapshotOf(s).Revisions())
  {
    hide RecordFits;
    forall r | r in s.atoms ensures r.meta.revision.RevisionId? && r.meta.revision.item.ItemId? &&
      r.meta.revision.item.kind == AtomKind { IdsByKind(s.scope, r); }
    forall r | r in s.scenarios ensures r.meta.revision.RevisionId? && r.meta.revision.item.ItemId? &&
      r.meta.revision.item.kind == ScenarioKind { IdsByKind(s.scope, r); }
    forall r | r in s.profiles ensures r.meta.revision.RevisionId? && r.meta.revision.item.ItemId? &&
      r.meta.revision.item.kind == ProfileKind { IdsByKind(s.scope, r); }
    hide AllFit, UniqueIds;
    UniqueIdsJoin(s.atoms, s.scenarios);
    UniqueIdsJoin(s.atoms + s.scenarios, s.profiles);
  }
}
