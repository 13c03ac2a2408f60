// What the boundary stages exchange with their store (ports.go) and the checks made on
// both sides of a commit (ports_validation.go; processing_helpers.go,
// validateCommittedOutcome).
module PortsValidation {
  import opened Wrappers
  import opened Derived
  import opened TraceGraphs

  // The three record types of the source, which share their metadata.
  type AtomRevision = r: Revision | r.body.Atom? witness SAMPLE.(body := Atom(Fact, "", New, None))
  type ScenarioRevision = r: Revision | r.body.Scenario? witness SAMPLE.(body := Scenario("", "", ""))
  type ProfileRevision = r: Revision | r.body.Profile? witness SAMPLE.(body := Profile(""))

  const SAMPLE := Revision(
    Meta(AtomKind, ForeignItem(""), ForeignRevision(""), 0, ForeignOperation(""), Scope("", Personal), Active,
         Provenance([], []), 0, None),
    Profile(""))

  datatype Snapshot = Snapshot(
    scope: Scope, version: nat, sources: seq<SourceRecord>,
    atoms: seq<AtomRevision>, scenarios: seq<ScenarioRevision>, profiles: seq<ProfileRevision>)
  {
    function Revisions(): seq<Revision> { atoms + scenarios + profiles }
  }

  // An absent from-state creates; the engine only ever writes Active to Superseded.
  datatype Transition = Transition(ref: RevisionRef, from: Option<State>, to: State)

  datatype CommitRequest = CommitRequest(
    operation: OperationId, stage: Stage, scope: Scope, expected: nat, sources: seq<SourceRecord>,
    atoms: seq<AtomRevision>, scenarios: seq<ScenarioRevision>, profiles: seq<ProfileRevision>,
    transitions: seq<Transition>)
  {
    function Revisions(): seq<Revision> { atoms + scenarios + profiles }
  }

  datatype Outcome = Outcome(operation: OperationId, stage: Stage, scope: Scope, version: nat,
      revisions: seq<RevisionRef>)

  function Refs(revisions: seq<Revision>): (refs: seq<RevisionRef>)
    ensures |refs| == |revisions| && forall i | 0 <= i < |refs| :: refs[i] == revisions[i].Ref()
  {
    seq(|revisions|, i requires 0 <= i < |revisions| => revisions[i].Ref())
  }

  // ----- snapshots -----

  predicate RecordFits(scope: Scope, r: Revision) {
    RevisionError(r) == None && r.meta.scope == scope
  }

  // A snapshot the engine accepts: bounded, of one scope, every record valid, and no
  // source or revision identity twice.
  predicate ValidSnapshot(s: Snapshot, maxItems: int) {
    && ScopeError(s.scope) == None
    && 1 <= maxItems <= MAX_SNAPSHOT_ITEMS && |s.sources| + |s.Revisions()| <= maxItems
    && (forall i | 0 <= i < |s.sources| :: SourceRecordError(s.sources[i]) == None && s.sources[i].ref.scope == s.scope)
    && (forall i, j | 0 <= i < j < |s.sources| :: s.sources[i].ref.exportId != s.sources[j].ref.exportId)
    && (forall i | 0 <= i < |s.Revisions()| :: RecordFits(s.scope, s.Revisions()[i]))
    && UniqueIds(s.Revisions())
  }

  predicate UniqueIds(revisions: seq<Revision>) {
    forall i, j | 0 <= i < j < |revisions| :: revisions[i].meta.revision != revisions[j].meta.revision
  }

  method CheckSources(s: Snapshot) returns (err: Option<Code>)
    ensures err.None? <==>
      && (forall i | 0 <= i < |s.sources| ::
        SourceRecordError(s.sources[i]) == None && s.sources[i].ref.scope == s.scope)
      && (forall i, j | 0 <= i < j < |s.sources| :: s.sources[i].ref.exportId != s.sources[j].ref.exportId)
  {
    var seen: set<string> := {};
    var n := 0;
    while n < |s.sources|
      invariant n <= |s.sources|
      invariant forall i | 0 <= i < n :: SourceRecordError(s.sources[i]) == None && s.sources[i].ref.scope == s.scope
      invariant forall i, j | 0 <= i < j < n :: s.sources[i].ref.exportId != s.sources[j].ref.exportId
      invariant forall id :: id in seen <==> exists i :: 0 <= i < n && s.sources[i].ref.exportId == id
    {
      if SourceRecordError(s.sources[n]).Some? {
        return SourceRecordError(s.sources[n]);
      }
      if s.sources[n].ref.scope != s.scope {
        return Some(ScopeViolation);
      }
      if s.sources[n].ref.exportId in seen {
        return Some(InvalidDerived);
      }
      seen := seen + {s.sources[n].ref.exportId};
      n := n + 1;
    }
    err := None;
  }

  function IdSet(revisions: seq<Revision>): set<RevisionId> {
    set r | r in revisions :: r.meta.revision
  }

  lemma UniqueIdsNone()
    ensures UniqueIds([]) && IdSet([]) == {}
  {
  }

  lemma UniqueIdsStep(before: seq<Revision>, r: Revision)
    ensures UniqueIds(before + [r]) <==> UniqueIds(before) && r.meta.revision !in IdSet(before)
    ensures IdSet(before + [r]) == IdSet(before) + {r.meta.revision}
  {
    var all := before + [r];
    assert all[|before|] == r && forall i | 0 <= i < |before| :: all[i] == before[i];
    forall id ensures id in IdSet(all) <==> id in IdSet(before) + {r.meta.revision} {
      if id in IdSet(before) {
        var b :| b in before && b.meta.revision == id;
        assert b in all;
      }
    }
    if UniqueIds(all) {
      forall b | b in before ensures b.meta.revision != r.meta.revision {
        var i :| 0 <= i < |before| && before[i] == b;
        assert all[i] == b;
      }
    }
    if UniqueIds(before) && r.meta.revision !in IdSet(before) {
      forall i, j | 0 <= i < j < |all| ensures all[i].meta.revision != all[j].meta.revision {
        assert before[i] in before;
      }
    }
  }

  lemma UniqueIdsPrefix(a: seq<Revision>, b: seq<Revision>)
    requires UniqueIds(a + b)
    ensures UniqueIds(a)
  {
    forall i, j | 0 <= i < j < |a| ensures a[i].meta.revision != a[j].meta.revision {
      assert (a + b)[i] == a[i] && (a + b)[j] == a[j];
    }
  }

  lemma UniqueIdsScan(before: seq<Revision>, list: seq<Revision>, n: nat)
    requires n < |list|
    ensures UniqueIds(before + list[..n + 1]) <==>
      UniqueIds(before + list[..n]) && list[n].meta.revision !in IdSet(before + list[..n])
    ensures IdSet(before + list[..n + 1]) == IdSet(before + list[..n]) + {list[n].meta.revision}
    ensures UniqueIds(before + list) ==> UniqueIds(before + list[..n + 1])
  {
    UniqueIdsStep(before + list[..n], list[n]);
    assert before + list[..n + 1] == before + list[..n] + [list[n]];
    assert before + list == before + list[..n + 1] + list[n + 1..];
    if UniqueIds(before + list) { UniqueIdsPrefix(before + list[..n + 1], list[n + 1..]); }
  }

  // The loops over atoms, scenarios and profiles; before is what earlier loops scanned.
  method CheckSnapshotRevisions(scope: Scope, ghost before: seq<Revision>, list: seq<Revision>, seen: set<RevisionId>)
    returns (err: Option<Code>, seen': set<RevisionId>)
    requires UniqueIds(before) && seen == IdSet(before)
    ensures err.None? <==> (forall i | 0 <= i < |list| :: RecordFits(scope, list[i])) && UniqueIds(before + list)
    ensures err.None? ==> seen' == IdSet(before + list)
  {
    hide RevisionError;
    seen' := seen;
    var n := 0;
    assert before + list[..0] == before;
    while n < |list|
      invariant n <= |list|
      invariant forall i | 0 <= i < n :: RecordFits(scope, list[i])
      invariant UniqueIds(before + list[..n]) && seen' == IdSet(before + list[..n])
    {
      UniqueIdsScan(before, list, n);
      var fault := RevisionError(list[n]);
      if fault.Some? {
        return fault, seen';
      }
      if list[n].meta.scope != scope {
        return Some(ScopeViolation), seen';
      }
      if list[n].meta.revision in seen' {
        return Some(InvalidDerived), seen';
      }
      seen' := seen' + {list[n].meta.revision};
      n := n + 1;
    }
    assert list[..n] == list;
    err := None;
  }

  // ScopeSnapshot.Validate
  method ValidateSnapshot(s: Snapshot, maxItems: int) returns (err: Option<Code>)
    ensures err.None? <==> ValidSnapshot(s, maxItems)
  {
    err := ScopeError(s.scope);
    if err.Some? {
      return;
    }
    if maxItems < 1 || maxItems > MAX_SNAPSHOT_ITEMS {
      return Some(LimitExceeded);
    }
    if |s.sources| + |s.atoms| + |s.scenarios| + |s.profiles| > maxItems {
      return Some(LimitExceeded);
    }
    err := CheckSources(s);
    if err.None? {
      err := CheckAllRevisions(s);
    }
  }

  method CheckAllRevisions(s: Snapshot) returns (err: Option<Code>)
    ensures err.None? <==>
      (forall i | 0 <= i < |s.Revisions()| :: RecordFits(s.scope, s.Revisions()[i])) && UniqueIds(s.Revisions())
  {
    hide RecordFits, UniqueIds, IdSet;
    UniqueIdsNone();
    var seen: set<RevisionId> := {};
    err, seen := CheckSnapshotRevisions(s.scope, [], s.atoms, seen);
    assert [] + s.atoms == s.atoms;
    ConcatFits(s.scope, s.atoms, s.scenarios);
    ConcatFits(s.scope, s.atoms + s.scenarios, s.profiles);
    if err.None? {
      err, seen := CheckSnapshotRevisions(s.scope, s.atoms, s.scenarios, seen);
    }
    if err.None? {
      err, seen := CheckSnapshotRevisions(s.scope, s.atoms + s.scenarios, s.profiles, seen);
    }
  }

  lemma ConcatFits(scope: Scope, a: seq<Revision>, b: seq<Revision>)
    ensures (forall i | 0 <= i < |a + b| :: RecordFits(scope, (a + b)[i])) <==>
      (forall i | 0 <= i < |a| :: RecordFits(scope, a[i])) && (forall i | 0 <= i < |b| :: RecordFits(scope, b[i]))
    ensures UniqueIds(a + b) ==> UniqueIds(a)
  {
    if forall i | 0 <= i < |a + b| :: RecordFits(scope, (a + b)[i]) {
      forall i | 0 <= i < |a| ensures RecordFits(scope, a[i]) { assert (a + b)[i] == a[i]; }
      forall i | 0 <= i < |b| ensures RecordFits(scope, b[i]) { assert (a + b)[|a| + i] == b[i]; }
    }
    if UniqueIds(a + b) { UniqueIdsPrefix(a, b); }
  }

  // ----- commit requests -----

  // ValidateRevisionStateTransition
  predicate AllowedChange(from: Option<State>, to: State) {
    match from
    case None => to == Active
    case Some(Active) => to == Superseded || to == Invalidated
    case Some(Superseded) => to == Invalidated
    case Some(Invalidated) => false
  }

  predicate ValidTransition(t: Transition) {
    RefError(t.ref) == None && AllowedChange(t.from, t.to)
  }

  predicate ValidTransitions(transitions: seq<Transition>) {
    && (forall i | 0 <= i < |transitions| :: ValidTransition(transitions[i]))
    && forall i, j | 0 <= i < j < |transitions| :: transitions[i].ref != transitions[j].ref
  }

  predicate NewRecordFits(q: CommitRequest, r: Revision) {
    && RevisionError(r) == None && r.meta.scope == q.scope && r.meta.operation == q.operation
    && r.meta.state == Active
  }

  predicate StageContent(q: CommitRequest) {
    match q.stage
    case AtomStage => q.scenarios == [] && q.profiles == []
    case ScenarioStage => q.sources == [] && q.atoms == [] && q.profiles == []
    case ProfileStage => q.sources == [] && q.atoms == [] && q.scenarios == [] && |q.profiles| <= 1
  }

  predicate UniqueRefs(revisions: seq<Revision>) {
    forall i, j | 0 <= i < j < |revisions| :: revisions[i].Ref() != revisions[j].Ref()
  }

  function RefSet(revisions: seq<Revision>): set<RevisionRef> {
    set r | r in revisions :: r.Ref()
  }

  predicate UniqueTargets(revisions: seq<Revision>) {
    forall i, j | 0 <= i < j < |revisions| && revisions[i].meta.supersedes.Some? ::
      revisions[i].meta.supersedes != revisions[j].meta.supersedes
  }

  // The revisions some new revision supersedes.
  function Targets(revisions: seq<Revision>): set<RevisionRef> {
    set r | r in revisions && r.meta.supersedes.Some? :: r.meta.supersedes.value
  }

  function TransitionRefs(transitions: seq<Transition>): set<RevisionRef> {
    set t | t in transitions :: t.ref
  }

  predicate Supersedes(transitions: seq<Transition>, r: Revision) {
    r.meta.supersedes.None? || Transition(r.meta.supersedes.value, Some(Active), Superseded) in transitions
  }

  // Every supersession has its transition, no target is used twice, and nothing else moves.
  predicate SupersessionsFit(revisions: seq<Revision>, transitions: seq<Transition>) {
    && (forall i | 0 <= i < |revisions| :: Supersedes(transitions, revisions[i]))
    && UniqueTargets(revisions) && TransitionRefs(transitions) == Targets(revisions)
  }

  predicate ValidRequest(q: CommitRequest) {
    && OperationIdError(q.operation) == None && ScopeError(q.scope) == None
    && |q.sources| <= 1 && |q.Revisions()| <= MAX_CANDIDATE_COUNT && StageContent(q)
    && (forall i | 0 <= i < |q.sources| :: SourceRecordError(q.sources[i]) == None && q.sources[i].ref.scope == q.scope)
    && (forall i | 0 <= i < |q.Revisions()| :: NewRecordFits(q, q.Revisions()[i])) && UniqueRefs(q.Revisions())
    && ValidTransitions(q.transitions) && SupersessionsFit(q.Revisions(), q.transitions)
  }

  lemma UniqueRefsScan(before: seq<Revision>, list: seq<Revision>, n: nat)
    requires n < |list|
    ensures UniqueRefs(before + list[..n + 1]) <==>
      UniqueRefs(before + list[..n]) && list[n].Ref() !in RefSet(before + list[..n])
    ensures RefSet(before + list[..n + 1]) == RefSet(before + list[..n]) + {list[n].Ref()}
    ensures UniqueRefs(before + list) ==> UniqueRefs(before + list[..n + 1])
  {
    var shorter := before + list[..n];
    assert before + list[..n + 1] == shorter + [list[n]];
    assert before + list == before + list[..n + 1] + list[n + 1..];
    UniqueRefsStep(shorter, list[n]);
    if UniqueRefs(before + list) { UniqueRefsPrefix(before + list[..n + 1], list[n + 1..]); }
  }

  lemma UniqueRefsPrefix(a: seq<Revision>, b: seq<Revision>)
    requires UniqueRefs(a + b)
    ensures UniqueRefs(a)
  {
    forall i, j | 0 <= i < j < |a| ensures a[i].Ref() != a[j].Ref() {
      assert (a + b)[i] == a[i] && (a + b)[j] == a[j];
    }
  }

  lemma UniqueRefsStep(before: seq<Revision>, r: Revision)
    ensures UniqueRefs(before + [r]) <==> UniqueRefs(before) && r.Ref() !in RefSet(before)
    ensures RefSet(before + [r]) == RefSet(before) + {r.Ref()}
  {
    var all := before + [r];
    assert all[|before|] == r && forall i | 0 <= i < |before| :: all[i] == before[i];
    forall ref ensures ref in RefSet(all) <==> ref in RefSet(before) + {r.Ref()} {
      if ref in RefSet(before) {
        var b :| b in before && b.Ref() == ref;
        assert b in all;
      }
    }
    if UniqueRefs(all) {
      forall b | b in before ensures b.Ref() != r.Ref() {
        var i :| 0 <= i < |before| && before[i] == b;
        assert all[i] == b;
      }
    }
    if UniqueRefs(before) && r.Ref() !in RefSet(before) {
      forall i, j | 0 <= i < j < |all| ensures all[i].Ref() != all[j].Ref() {
        assert before[i] in before;
      }
    }
  }

  // The loops over new atoms, scenarios and profiles (validateCommitRevision).
  method CheckNewRevisions(q: CommitRequest, ghost before: seq<Revision>, list: seq<Revision>,
      created: set<RevisionRef>)
    returns (err: Option<Code>, created': set<RevisionRef>)
    requires UniqueRefs(before) && created == RefSet(before)
    ensures err.None? <==> (forall i | 0 <= i < |list| :: NewRecordFits(q, list[i])) && UniqueRefs(before + list)
    ensures err.None? ==> created' == RefSet(before + list)
  {
    hide RevisionError;
    created' := created;
    var n := 0;
    assert before + list[..0] == before;
    while n < |list|
      invariant n <= |list|
      invariant forall i | 0 <= i < n :: NewRecordFits(q, list[i])
      invariant UniqueRefs(before + list[..n]) && created' == RefSet(before + list[..n])
    {
      UniqueRefsScan(before, list, n);
      var fault := RevisionError(list[n]);
      if fault.Some? {
        return fault, created';
      }
      if list[n].meta.scope != q.scope {
        return Some(ScopeViolation), created';
      }
      if list[n].meta.operation != q.operation || list[n].meta.state != Active {
        return Some(InvalidDerived), created';
      }
      if list[n].Ref() in created' {
        return Some(InvalidDerived), created';
      }
      created' := created' + {list[n].Ref()};
      n := n + 1;
    }
    assert list[..n] == list;
    err := None;
  }

  method CheckTransitions(transitions: seq<Transition>) returns (err: Option<Code>, seen: set<RevisionRef>)
    ensures err.None? <==> ValidTransitions(transitions)
    ensures err.None? ==> seen == TransitionRefs(transitions)
  {
    seen := {};
    var n := 0;
    while n < |transitions|
      invariant n <= |transitions| && ValidTransitions(transitions[..n]) && seen == TransitionRefs(transitions[..n])
    {
      var t := transitions[n];
      TransitionsScan(transitions, n);
      if RefError(t.ref).Some? {
        return RefError(t.ref), seen;
      }
      if !AllowedChange(t.from, t.to) {
        return Some(InvalidDerived), seen;
      }
      if t.ref in seen {
        return Some(InvalidDerived), seen;
      }
      seen := seen + {t.ref};
      n := n + 1;
    }
    assert transitions[..n] == transitions;
    err := None;
  }

  lemma TransitionsScan(transitions: seq<Transition>, n: nat)
    requires n < |transitions| && ValidTransitions(transitions[..n])
    ensures ValidTransitions(transitions[..n + 1]) <==>
      ValidTransition(transitions[n]) && transitions[n].ref !in TransitionRefs(transitions[..n])
    ensures TransitionRefs(transitions[..n + 1]) == TransitionRefs(transitions[..n]) + {transitions[n].ref}
    ensures ValidTransitions(transitions) ==> ValidTransitions(transitions[..n + 1])
  {
  }

  // transitionForRef
  method TransitionForRef(transitions: seq<Transition>, ref: RevisionRef) returns (found: Option<Transition>)
    ensures found.None? <==> forall t | t in transitions :: t.ref != ref
    ensures found.Some? ==> found.value in transitions && found.value.ref == ref
  {
    var n := 0;
    while n < |transitions|
      invariant n <= |transitions| && forall i | 0 <= i < n :: transitions[i].ref != ref
    {
      if transitions[n].ref == ref {
        return Some(transitions[n]);
      }
      n := n + 1;
    }
    found := None;
  }

  // The second pass over the new revisions: validateSupersessionTransition and
  // addSupersessionRef.
  method CheckSupersessions(revisions: seq<Revision>, transitions: seq<Transition>)
      returns (err: Option<Code>, want: set<RevisionRef>)
    requires ValidTransitions(transitions)
    ensures err.None? <==>
      (forall i | 0 <= i < |revisions| :: Supersedes(transitions, revisions[i])) && UniqueTargets(revisions)
    ensures err.None? ==> want == Targets(revisions)
  {
    want := {};
    var n := 0;
    while n < |revisions|
      invariant n <= |revisions| && want == Targets(revisions[..n]) && UniqueTargets(revisions[..n])
      invariant forall i | 0 <= i < n :: Supersedes(transitions, revisions[i])
    {
      var target := revisions[n].meta.supersedes;
      TargetsScan(revisions, n);
      if target.Some? {
        var found := TransitionForRef(transitions, target.value);
        OneTransitionPerRef(transitions, target.value);
        if found.None? || found.value.from != Some(Active) || found.value.to != Superseded {
          return Some(InvalidDerived), want;
        }
        if target.value in want {
          return Some(InvalidDerived), want;
        }
        want := want + {target.value};
      }
      n := n + 1;
    }
    assert revisions[..n] == revisions;
    err := None;
  }

  lemma OneTransitionPerRef(transitions: seq<Transition>, ref: RevisionRef)
    requires ValidTransitions(transitions)
    ensures forall t, u | t in transitions && u in transitions && t.ref == u.ref == ref :: t == u
  {
  }

  lemma TargetsScan(revisions: seq<Revision>, n: nat)
    requires n < |revisions| && UniqueTargets(revisions[..n])
    ensures var target := revisions[n].meta.supersedes;
      && (UniqueTargets(revisions[..n + 1]) <==> target.Some? ==> target.value !in Targets(revisions[..n]))
      && Targets(revisions[..n + 1]) == Targets(revisions[..n]) + if target.Some? then {target.value} else {}
    ensures UniqueTargets(revisions) ==> UniqueTargets(revisions[..n + 1])
  {
  }

  // CommitRequest.Validate
  method ValidateRequest(q: CommitRequest) returns (err: Option<Code>)
    ensures err.None? <==> ValidRequest(q)
  {
    hide RevisionError, UniqueTargets, Targets, TransitionRefs, UniqueRefs, NewRecordFits, Supersedes;
    err := CheckEnvelope(q);
    if err.Some? {
      return;
    }
    err := CheckNewContent(q);
    if err.Some? {
      return;
    }
    var seen, want;
    err, seen := CheckTransitions(q.transitions);
    if err.Some? {
      return;
    }
    err, want := CheckSupersessions(q.Revisions(), q.transitions);
    if err.Some? {
      return;
    }
    if |seen| != |want| {
      return Some(InvalidDerived);
    }
    if exists ref | ref in seen :: ref !in want {
      return Some(InvalidDerived);
    }
    SameSize(seen, want);
  }

  lemma SameSize<T>(a: set<T>, b: set<T>)
    requires a <= b && |a| == |b|
    ensures a == b
  {
    assert b == a + (b - a);
  }

  method CheckEnvelope(q: CommitRequest) returns (err: Option<Code>)
    ensures err.None? <==>
      && OperationIdError(q.operation) == None && ScopeError(q.scope) == None
      && |q.sources| <= 1 && |q.Revisions()| <= MAX_CANDIDATE_COUNT && StageContent(q)
      && (forall i | 0 <= i < |q.sources| ::
        SourceRecordError(q.sources[i]) == None && q.sources[i].ref.scope == q.scope)
  {
    if OperationIdError(q.operation).Some? {
      return OperationIdError(q.operation);
    }
    if ScopeError(q.scope).Some? {
      return ScopeError(q.scope);
    }
    if |q.sources| > 1 || |q.atoms| + |q.scenarios| + |q.profiles| > MAX_CANDIDATE_COUNT {
      return Some(LimitExceeded);
    }
    if !StageContent(q) {
      return Some(InvalidDerived);
    }
    if |q.sources| == 1 {
      if SourceRecordError(q.sources[0]).Some? {
        return SourceRecordError(q.sources[0]);
      }
      if q.sources[0].ref.scope != q.scope {
        return Some(ScopeViolation);
      }
    }
    err := None;
  }

  method CheckNewContent(q: CommitRequest) returns (err: Option<Code>)
    ensures err.None? <==>
      (forall i | 0 <= i < |q.Revisions()| :: NewRecordFits(q, q.Revisions()[i])) && UniqueRefs(q.Revisions())
  {
    hide NewRecordFits;
    var created: set<RevisionRef> := {};
    assert [] + q.atoms == q.atoms && RefSet([]) == {};
    err, created := CheckNewRevisions(q, [], q.atoms, created);
    ConcatNew(q, q.atoms, q.scenarios);
    ConcatNew(q, q.atoms + q.scenarios, q.profiles);
    hide UniqueRefs, RefSet;
    if err.None? {
      err, created := CheckNewRevisions(q, q.atoms, q.scenarios, created);
    }
    if err.None? {
      err, created := CheckNewRevisions(q, q.atoms + q.scenarios, q.profiles, created);
    }
  }

  lemma ConcatNew(q: CommitRequest, a: seq<Revision>, b: seq<Revision>)
    ensures (forall i | 0 <= i < |a + b| :: NewRecordFits(q, (a + b)[i])) <==>
      (forall i | 0 <= i < |a| :: NewRecordFits(q, a[i])) && (forall i | 0 <= i < |b| :: NewRecordFits(q, b[i]))
    ensures UniqueRefs(a + b) ==> UniqueRefs(a)
  {
    hide NewRecordFits;
    if forall i | 0 <= i < |a + b| :: NewRecordFits(q, (a + b)[i]) {
      forall i | 0 <= i < |a| ensures NewRecordFits(q, a[i]) { assert (a + b)[i] == a[i]; }
      forall i | 0 <= i < |b| ensures NewRecordFits(q, b[i]) { assert (a + b)[|a| + i] == b[i]; }
    }
    if UniqueRefs(a + b) { UniqueRefsPrefix(a, b); }
  }

  ghost predicate Replaces(revisions: seq<Revision>, k: nat, ref: RevisionRef) {
    k < |revisions| && revisions[k].meta.supersedes == Some(ref)
  }

  // In an accepted request, the transitions and the superseding revisions are in
  // bijection: each transition retires exactly the active revision one new revision
  // replaces.
  lemma TransitionsMatchSupersessions(q: CommitRequest)
    requires ValidRequest(q)
    ensures forall t | t in q.transitions :: t.from == Some(Active) && t.to == Superseded
    ensures forall t | t in q.transitions :: exists k: nat :: Replaces(q.Revisions(), k, t.ref)
    ensures forall k: nat, ref | Replaces(q.Revisions(), k, ref) ::
      Transition(ref, Some(Active), Superseded) in q.transitions
    ensures forall k: nat, m: nat, ref | Replaces(q.Revisions(), k, ref) && Replaces(q.Revisions(), m, ref) :: k == m
    ensures forall i, j | 0 <= i < j < |q.transitions| :: q.transitions[i].ref != q.transitions[j].ref
  {
    hide NewRecordFits, StageContent;
    forall t | t in q.transitions
      ensures t.from == Some(Active) && t.to == Superseded && exists k: nat :: Replaces(q.Revisions(), k, t.ref)
    {
      assert t.ref in TransitionRefs(q.transitions);
      var r :| r in q.Revisions() && r.meta.supersedes == Some(t.ref);
      var k: nat :| k < |q.Revisions()| && q.Revisions()[k] == r;
      assert Supersedes(q.transitions, q.Revisions()[k]) && Replaces(q.Revisions(), k, t.ref);
      OneTransitionPerRef(q.transitions, t.ref);
    }
    forall k: nat, ref | Replaces(q.Revisions(), k, ref)
      ensures Transition(ref, Some(Active), Superseded) in q.transitions {
      assert Supersedes(q.transitions, q.Revisions()[k]);
    }
    TargetsDiffer(q.Revisions());
  }

  lemma TargetsDiffer(revisions: seq<Revision>)
    requires UniqueTargets(revisions)
    ensures forall k: nat, m: nat, ref | Replaces(revisions, k, ref) && Replaces(revisions, m, ref) :: k == m
  {
  }

  // ----- outcomes -----

  predicate ValidOutcome(o: Outcome) {
    && OperationIdError(o.operation) == None && ScopeError(o.scope) == None && o.version != 0
    && |o.revisions| <= MAX_CANDIDATE_COUNT && RefsError(o.revisions) == None
  }

  // OperationOutcome.Validate
  function OutcomeError(o: Outcome): (err: Option<Code>)
    ensures err.None? <==> ValidOutcome(o)
  {
    if OperationIdError(o.operation).Some? then OperationIdError(o.operation)
    else if ScopeError(o.scope).Some? then ScopeError(o.scope)
    else if o.version == 0 then Some(InvalidDerived)
    else if |o.revisions| > MAX_CANDIDATE_COUNT then Some(LimitExceeded)
    else RefsError(o.revisions)
  }

  // An outcome is believed only if it reports the next version and names exactly the
  // revisions of the request, in any order.
  method ValidateCommittedOutcome(q: CommitRequest, o: Outcome) returns (err: Option<Code>)
    requires ValidRequest(q)
    ensures err.None? <==>
      && ValidOutcome(o) && o.operation == q.operation && o.stage == q.stage && o.scope == q.scope
      && o.version == q.expected + 1 && multiset(o.revisions) == multiset(Refs(q.Revisions()))
  {
    hide ValidRequest, ValidOutcome;
    var refs := Refs(q.Revisions());
    assert |multiset(o.revisions)| == |o.revisions| && |multiset(refs)| == |refs|;
    err := OutcomeError(o);
    if err.Some? {
      return;
    }
    if o.operation != q.operation || o.stage != q.stage || o.scope != q.scope {
      return Some(ScopeViolation);
    }
    if o.version != q.expected + 1 {
      return Some(Conflict);
    }
    if |o.revisions| != |q.atoms| + |q.scenarios| + |q.profiles| {
      return Some(InvalidDerived);
    }
    RequestRefsAreDistinct(q);
    var want := set ref | ref in refs;
    err := StrikeOut(want, o.revisions);
    if err.None? { SameElements(o.revisions, refs); }
    if multiset(o.revisions) == multiset(refs) { PermutationDistinct(o.revisions, refs); }
  }

  lemma RequestRefsAreDistinct(q: CommitRequest)
    requires ValidRequest(q)
    ensures Distinct(Refs(q.Revisions()))
  {
  }

  // The want map of the source, emptied as the outcome is read.
  method StrikeOut(all: set<RevisionRef>, refs: seq<RevisionRef>) returns (err: Option<Code>)
    ensures err.None? <==> Distinct(refs) && forall i | 0 <= i < |refs| :: refs[i] in all
  {
    var want := all;
    var n := 0;
    while n < |refs|
      invariant n <= |refs| && want == all - (set ref | ref in refs[..n])
      invariant Distinct(refs[..n]) && forall i | 0 <= i < n :: refs[i] in all
    {
      assert refs[..n + 1] == refs[..n] + [refs[n]];
      if refs[n] !in want {
        if refs[n] in refs[..n] {
          var i :| 0 <= i < n && refs[..n][i] == refs[n];
          assert refs[i] == refs[n];
        }
        return Some(InvalidDerived);
      }
      want := want - {refs[n]};
      n := n + 1;
    }
    assert refs[..n] == refs;
    err := None;
  }

  lemma {:induction false} DistinctMultiset<T>(s: seq<T>)
    requires Distinct(s)
    ensures forall x :: multiset(s)[x] == if x in s then 1 else 0
  {
    if s != [] {
      var n := |s| - 1;
      assert s == s[..n] + [s[n]];
      DistinctMultiset(s[..n]);
      assert s[n] !in s[..n];
    }
  }

  lemma SameElements<T>(a: seq<T>, b: seq<T>)
    requires Distinct(a) && Distinct(b) && |a| == |b| && forall i | 0 <= i < |a| :: a[i] in b
    ensures multiset(a) == multiset(b)
  {
    DistinctCount(a);
    DistinctCount(b);
    EqualBySize(Elements(a), Elements(b));
    DistinctMultiset(a);
    DistinctMultiset(b);
    forall x ensures x in a <==> x in b {
      assert x in Elements(a) <==> x in Elements(b);
    }
  }

  lemma PermutationDistinct<T>(a: seq<T>, b: seq<T>)
    requires multiset(a) == multiset(b) && Distinct(b)
    ensures Distinct(a) && forall i | 0 <= i < |a| :: a[i] in b
  {
    DistinctMultiset(b);
    forall i, j | 0 <= i < j < |a| ensures a[i] != a[j] {
      if a[i] == a[j] { TwiceInMultiset(a, i, j); }
    }
    forall i | 0 <= i < |a| ensures a[i] in b {
      assert a[i] in multiset(a);
    }
  }
}
