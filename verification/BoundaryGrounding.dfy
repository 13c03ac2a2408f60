// Grounding of untrusted model output at a session boundary (engine_boundary.go,
// groundScenarioCandidates and groundProfileCandidate): what is accepted, and the commit
// it becomes.
module BoundaryGrounding {
  import opened Wrappers
  import opened Text
  import opened Derived
  import opened TraceGraphs
  import opened PortsValidation

  datatype Boundary = Boundary(scope: Scope, exportId: string, occurredAt: int)

  datatype ScenarioCandidate = ScenarioCandidate(
    topicKey: string, title: string, summary: string, atoms: seq<RevisionRef>, supersedes: Option<RevisionRef>)

  datatype Disposition = Skip | Upsert
  datatype ProfileCandidate = ProfileCandidate(
    disposition: Disposition, summary: string, atoms: seq<RevisionRef>, scenarios: seq<RevisionRef>,
    supersedes: Option<RevisionRef>)

  // The export identity itself is covered by module Identity.
  predicate ValidBoundary(b: Boundary) {
    ScopeError(b.scope) == None && IsCanonicalId(b.exportId) && b.occurredAt != 0
  }

  // ----- what a snapshot says about an item -----

  predicate IsActive(list: seq<Revision>, ref: RevisionRef) {
    exists r | r in list :: r.meta.state == Active && r.Ref() == ref
  }

  predicate SingleActive(list: seq<Revision>) {
    forall i, j | 0 <= i < j < |list| && list[i].meta.state == Active && list[j].meta.state == Active ::
      list[i].meta.item != list[j].meta.item
  }

  // The last active revision of an item; there is one at most when SingleActive.
  function ActiveOf(list: seq<Revision>, item: ItemId): Option<RevisionRef> {
    if list == [] then None
    else
      var last := list[|list| - 1];
      if last.meta.state == Active && last.meta.item == item then Some(last.Ref())
        else ActiveOf(list[..|list| - 1], item)
  }

  function MaxNumber(list: seq<Revision>, item: ItemId): nat {
    if list == [] then 0
    else
      var last, rest := list[|list| - 1], MaxNumber(list[..|list| - 1], item);
      if last.meta.item == item && last.meta.number > rest then last.meta.number else rest
  }

  lemma {:induction false} MaxNumberBounds(list: seq<Revision>, item: ItemId)
    ensures forall r | r in list && r.meta.item == item :: r.meta.number <= MaxNumber(list, item)
    ensures MaxNumber(list, item) == 0 || exists r ::
      r in list && r.meta.item == item && r.meta.number == MaxNumber(list, item)
  {
    if list != [] {
      var n := |list| - 1;
      MaxNumberBounds(list[..n], item);
      assert list == list[..n] + [list[n]];
    }
  }

  // With one active revision an item, being the target of a supersession means being the
  // active revision of the item.
  lemma {:induction false} ActiveOfMeaning(list: seq<Revision>, item: ItemId)
    requires SingleActive(list)
    ensures forall ref :: ActiveOf(list, item) == Some(ref) <==> IsActive(list, ref) && ref.item == item
  {
    if list != [] {
      var n := |list| - 1;
      var rest := list[..n];
      ActiveOfMeaning(rest, item);
      assert list == rest + [list[n]];
      if list[n].meta.state == Active && list[n].meta.item == item { OtherItems(list, n); }
    }
  }

  lemma OtherItems(list: seq<Revision>, n: nat)
    requires SingleActive(list) && n < |list| && list[n].meta.state == Active
    ensures forall r | r in list[..n] && r.meta.state == Active :: r.meta.item != list[n].meta.item
  {
  }

  // ----- scenarios -----

  // Candidate.Validate
  function ScenarioCandidateError(c: ScenarioCandidate): Option<Code> {
    if TextError(c.topicKey, MAX_SEARCH_QUERY_BYTES).Some? then TextError(c.topicKey, MAX_SEARCH_QUERY_BYTES)
    else if TextError(c.title, MAX_DERIVED_TEXT_BYTES).Some? then TextError(c.title, MAX_DERIVED_TEXT_BYTES)
    else if TextError(c.summary, MAX_DERIVED_TEXT_BYTES).Some? then TextError(c.summary, MAX_DERIVED_TEXT_BYTES)
    else if c.atoms == [] then Some(InvalidDerived)
    else if RefsError(c.atoms).Some? then RefsError(c.atoms)
    else if c.supersedes.Some? then RefError(c.supersedes.value)
    else None
  }

  // Text a candidate may carry: within the limit and not blank.
  predicate Carried(text: string, limit: nat) {
    |text| <= limit && exists i | 0 <= i < |text| :: !IsSpace(text[i])
  }

  predicate Citable(refs: seq<RevisionRef>) {
    |refs| <= MAX_SOURCES_PER_REVISION && Distinct(refs) && forall i | 0 <= i < |refs| :: RefError(refs[i]) == None
  }

  lemma CarriedIff(text: string, limit: nat)
    ensures TextError(text, limit) == None <==> Carried(text, limit)
  {
    NormalizeEmpty(text);
  }

  lemma CitableIff(refs: seq<RevisionRef>)
    ensures RefsError(refs) == None <==> Citable(refs)
  {
    hide RefError, RefsErrorFrom, Distinct;
    RefsErrorMeaning(refs);
  }

  // A candidate is well put exactly when its three texts are carried, it cites at least one
  // atom, and names nothing malformed or twice.
  lemma ScenarioCandidateIff(c: ScenarioCandidate)
    ensures ScenarioCandidateError(c) == None <==>
      && Carried(c.topicKey, MAX_SEARCH_QUERY_BYTES) && Carried(c.title, MAX_DERIVED_TEXT_BYTES)
      && Carried(c.summary, MAX_DERIVED_TEXT_BYTES)
      && c.atoms != [] && Citable(c.atoms) && (c.supersedes.Some? ==> RefError(c.supersedes.value) == None)
  {
    CarriedIff(c.topicKey, MAX_SEARCH_QUERY_BYTES);
    CarriedIff(c.title, MAX_DERIVED_TEXT_BYTES);
    CarriedIff(c.summary, MAX_DERIVED_TEXT_BYTES);
    CitableIff(c.atoms);
    hide TextError, RefsError, RefError, Carried, Citable;
  }

  function AppendUnique(refs: seq<RevisionRef>, ref: Option<RevisionRef>): seq<RevisionRef> {
    if ref.None? || ref.value in refs then refs else refs + [ref.value]
  }

  function ScenarioParents(c: ScenarioCandidate): seq<RevisionRef> {
    AppendUnique(c.atoms, c.supersedes)
  }

  predicate AllActive(list: seq<Revision>, refs: seq<RevisionRef>) {
    forall i | 0 <= i < |refs| :: IsActive(list, refs[i])
  }

  // An accepted candidate cites active atoms only, and replaces the active revision of
  // its topic exactly when there is one.
  predicate ScenarioFits(scope: Scope, snapshot: Snapshot, c: ScenarioCandidate) {
    && ScenarioCandidateError(c) == None && AllActive(snapshot.atoms, c.atoms)
    && c.supersedes == ActiveOf(snapshot.scenarios, ScenarioItem(scope, c.topicKey))
    && |ScenarioParents(c)| <= MAX_SOURCES_PER_REVISION
  }

  // The revision a candidate becomes.
  function BuiltScenario(b: Boundary, operation: OperationId, snapshot: Snapshot,
      c: ScenarioCandidate): ScenarioRevision {
    var topicKey, title, summary := Normalize(c.topicKey), Normalize(c.title), Normalize(c.summary);
    var item, provenance := ScenarioItem(b.scope, topicKey), Provenance([], ScenarioParents(c));
    Revision(
      Meta(ScenarioKind, item, DerivedRevisionId(b.scope, item, operation, [topicKey, title, summary], provenance,
        c.supersedes),
           MaxNumber(snapshot.scenarios, item) + 1, operation, b.scope, Active, provenance, b.occurredAt, c.supersedes),
      Scenario(topicKey, title, summary))
  }

  // ----- what a record says, field by field -----

  // The cited revisions in their order, then the replaced one unless it was cited.
  ghost predicate ParentsAre(parents: seq<RevisionRef>, cited: seq<RevisionRef>, replaced: Option<RevisionRef>) {
    && cited <= parents && (replaced.Some? ==> replaced.value in parents)
    && forall i | |cited| <= i < |parents| ::
         i == |cited| && replaced == Some(parents[i]) && parents[i] !in cited
  }

  // One above the numbers of the item's stored revisions.
  ghost predicate NextNumber(list: seq<Revision>, item: ItemId, number: nat) {
    && (forall r | r in list && r.meta.item == item :: r.meta.number < number)
    && (number == 1 || exists r :: r in list && r.meta.item == item && r.meta.number + 1 == number)
  }

  // The replaced revision is the item's active one; none is replaced only if none is active.
  ghost predicate ReplacesActive(list: seq<Revision>, item: ItemId, replaced: Option<RevisionRef>) {
    forall ref :: replaced == Some(ref) <==> IsActive(list, ref) && ref.item == item
  }

  // What every record of a boundary commit carries besides its texts.
  ghost predicate CommonFields(b: Boundary, operation: OperationId, list: seq<Revision>, cited: seq<RevisionRef>,
      replaced: Option<RevisionRef>, r: Revision) {
    && r.meta.scope == b.scope && r.meta.operation == operation && r.meta.createdAt == b.occurredAt
    && r.meta.provenance.rawSources == [] && ParentsAre(r.meta.provenance.parents, cited, replaced)
    && r.meta.supersedes == replaced && ReplacesActive(list, r.meta.item, replaced)
    && NextNumber(list, r.meta.item, r.meta.number)
  }

  // The record of a scenario candidate, in a scope that holds these scenarios.
  ghost predicate RecordsScenario(b: Boundary, operation: OperationId, list: seq<Revision>, c: ScenarioCandidate,
      r: Revision) {
    && r.body.Scenario? && r.meta.kind == ScenarioKind
    && r.body.topicKey == Normalize(c.topicKey)
    && r.body.title == Normalize(c.title)
    && r.body.summary == Normalize(c.summary)
    && r.meta.item == ItemId(ScenarioKind, b.scope, [Normalize(c.topicKey)])
    && CommonFields(b, operation, list, c.atoms, c.supersedes, r)
    && r.meta.revision == RevisionId(
         b.scope, r.meta.item, operation, [Normalize(c.topicKey), Normalize(c.title), Normalize(c.summary)], None,
         multiset{}, multiset(r.meta.provenance.parents), c.supersedes)
  }

  // The record of a profile update.
  ghost predicate RecordsProfile(b: Boundary, operation: OperationId, list: seq<Revision>, c: ProfileCandidate,
      r: Revision) {
    && r.body.Profile? && r.meta.kind == ProfileKind && r.body.profile == Normalize(c.summary)
    && r.meta.item == ItemId(ProfileKind, b.scope, [])
    && CommonFields(b, operation, list, c.atoms + c.scenarios, c.supersedes, r)
    && r.meta.revision == RevisionId(
         b.scope, r.meta.item, operation, [Normalize(c.summary)], None,
         multiset{}, multiset(r.meta.provenance.parents), c.supersedes)
  }

  lemma AppendedParents(cited: seq<RevisionRef>, replaced: Option<RevisionRef>)
    ensures ParentsAre(AppendUnique(cited, replaced), cited, replaced)
  {
  }

  lemma NextIsAbove(list: seq<Revision>, item: ItemId)
    ensures NextNumber(list, item, MaxNumber(list, item) + 1)
  {
    MaxNumberBounds(list, item);
  }

  // An accepted candidate becomes its own record, each text in its own field.
  lemma BuiltScenarioRecords(b: Boundary, operation: OperationId, snapshot: Snapshot, c: ScenarioCandidate)
    requires ScenarioFits(b.scope, snapshot, c) && SingleActive(snapshot.scenarios)
    ensures RecordsScenario(b, operation, snapshot.scenarios, c, BuiltScenario(b, operation, snapshot, c))
    ensures BuiltScenario(b, operation, snapshot, c).meta.state == Active
  {
    var item := ScenarioItem(b.scope, c.topicKey);
    ItemOfNormalized(b.scope, c.topicKey);
    NormalizeIdempotent(c.topicKey);
    NormalizeIdempotent(c.title);
    NormalizeIdempotent(c.summary);
    hide Normalize, ScenarioCandidateError, ActiveOf, MaxNumber, SingleActive, AppendUnique, ParentsAre, NextNumber;
    hide IsActive;
    AppendedParents(c.atoms, c.supersedes);
    NextIsAbove(snapshot.scenarios, item);
    ActiveOfMeaning(snapshot.scenarios, item);
  }

  lemma BuiltProfileRecords(b: Boundary, operation: OperationId, snapshot: Snapshot, c: ProfileCandidate)
    requires ProfileFits(b.scope, snapshot, c) && SingleActive(snapshot.profiles)
    ensures RecordsProfile(b, operation, snapshot.profiles, c, BuiltProfile(b, operation, snapshot, c))
    ensures BuiltProfile(b, operation, snapshot, c).meta.state == Active
  {
    NormalizeIdempotent(c.summary);
    hide Normalize, ProfileCandidateError, ActiveOf, MaxNumber, SingleActive, AppendUnique, ParentsAre, NextNumber;
    hide IsActive;
    AppendedParents(c.atoms + c.scenarios, c.supersedes);
    NextIsAbove(snapshot.profiles, ProfileItem(b.scope));
    ActiveOfMeaning(snapshot.profiles, ProfileItem(b.scope));
  }

  // Exactly these targets go from active to superseded, each once.
  ghost predicate RetiresExactly(transitions: seq<Transition>, targets: set<RevisionRef>) {
    && (forall t | t in transitions :: t.from == Some(Active) && t.to == Superseded)
    && (forall ref :: ref in targets <==> exists t :: t in transitions && t.ref == ref)
    && forall i, j | 0 <= i < j < |transitions| :: transitions[i].ref != transitions[j].ref
  }

  function ScenarioTargets(candidates: seq<ScenarioCandidate>): set<RevisionRef> {
    set c | c in candidates && c.supersedes.Some? :: c.supersedes.value
  }

  // ----- the built revisions are well formed -----

  lemma ItemOfNormalized(scope: Scope, topicKey: string)
    ensures ScenarioItem(scope, Normalize(topicKey)) == ScenarioItem(scope, topicKey)
  {
    NormalizeIdempotent(topicKey);
  }

  lemma ParentsFit(refs: seq<RevisionRef>, target: Option<RevisionRef>)
    requires RefsErrorFrom(refs, 0) == None && (target.Some? ==> RefError(target.value) == None)
    ensures RefsErrorFrom(AppendUnique(refs, target), 0) == None
  {
    hide RefError;
    RefsErrorMeaning(refs);
    RefsErrorMeaning(AppendUnique(refs, target));
  }

  // The active revision of a topic has a number of its own.
  lemma ReplacedIsNumbered(snapshot: Snapshot, item: ItemId)
    requires SingleActive(snapshot.scenarios) && ActiveOf(snapshot.scenarios, item).Some?
    requires forall r | r in snapshot.scenarios :: RevisionError(r) == None
    ensures ActiveOf(snapshot.scenarios, item).value.item == item && MaxNumber(snapshot.scenarios, item) >= 1
  {
    ActiveOfMeaning(snapshot.scenarios, item);
    MaxNumberBounds(snapshot.scenarios, item);
    var ref := ActiveOf(snapshot.scenarios, item).value;
    var r :| r in snapshot.scenarios && r.meta.state == Active && r.Ref() == ref;
    ValidRevisionIsGenuine(r);
  }

  lemma ScenarioTextsFit(c: ScenarioCandidate)
    requires ScenarioCandidateError(c) == None
    ensures StoredTextError(Normalize(c.topicKey), MAX_SEARCH_QUERY_BYTES) == None
    ensures StoredTextError(Normalize(c.title), MAX_DERIVED_TEXT_BYTES) == None
    ensures StoredTextError(Normalize(c.summary), MAX_DERIVED_TEXT_BYTES) == None
  {
    NormalizedTextIsStorable(c.topicKey, MAX_SEARCH_QUERY_BYTES);
    NormalizedTextIsStorable(c.title, MAX_DERIVED_TEXT_BYTES);
    NormalizedTextIsStorable(c.summary, MAX_DERIVED_TEXT_BYTES);
  }

  lemma ScenarioProvenanceFits(scope: Scope, snapshot: Snapshot, c: ScenarioCandidate)
    requires ScopeError(scope) == None && ScenarioFits(scope, snapshot, c)
    ensures ProvenanceError(Provenance([], ScenarioParents(c)), scope) == None
  {
    hide ScopeError, TextError, ActiveOf, RefError;
    ParentsFit(c.atoms, c.supersedes);
  }

  // Whatever the model returned: an accepted candidate becomes a revision that passes the
  // full record check, so the check at the end of grounding never fires.
  lemma BuiltScenarioIsValid(b: Boundary, operation: OperationId, snapshot: Snapshot, c: ScenarioCandidate)
    requires ValidBoundary(b) && OperationIdError(operation) == None && ScenarioFits(b.scope, snapshot, c)
    requires SingleActive(snapshot.scenarios) && forall r | r in snapshot.scenarios :: RevisionError(r) == None
    ensures RevisionError(BuiltScenario(b, operation, snapshot, c)) == None
  {
    hide ScopeError, StoredTextError, RefError, ProvenanceError, Normalize, RevisionError, DerivedRevisionId;
    ItemOfNormalized(b.scope, c.topicKey);
    ScenarioTextsFit(c);
    ScenarioProvenanceFits(b.scope, snapshot, c);
    var item := ScenarioItem(b.scope, c.topicKey);
    if c.supersedes.Some? { ReplacedIsNumbered(snapshot, item); }
    ScenarioRules(BuiltScenario(b, operation, snapshot, c));
  }

  lemma ScenarioRules(r: ScenarioRevision)
    requires StoredTextError(r.body.topicKey, MAX_SEARCH_QUERY_BYTES) == None
    requires StoredTextError(r.body.title, MAX_DERIVED_TEXT_BYTES) == None
    requires StoredTextError(r.body.summary, MAX_DERIVED_TEXT_BYTES) == None
    requires ScopeError(r.meta.scope) == None && OperationIdError(r.meta.operation) == None
    requires r.meta.kind == ScenarioKind && r.meta.item == ScenarioItem(r.meta.scope, r.body.topicKey) &&
      r.meta.number > 0
    requires ProvenanceError(r.meta.provenance, r.meta.scope) == None && r.meta.createdAt != 0
    requires r.meta.supersedes.Some? ==>
      RefError(r.meta.supersedes.value) == None && r.meta.supersedes.value.item == r.meta.item && r.meta.number >= 2
    requires r.meta.revision == DerivedRevisionId(
      r.meta.scope, r.meta.item, r.meta.operation, [r.body.topicKey, r.body.title, r.body.summary], r.meta.provenance,
        r.meta.supersedes)
    ensures RevisionError(r) == None
  {
  }

  // ----- grounding the scenarios -----

  // activeScenarios, activeItems and maxRevision of the source.
  datatype ItemIndex = ItemIndex(active: set<RevisionRef>, heads: map<ItemId, RevisionRef>, numbers: map<ItemId, nat>)

  ghost predicate Indexes(x: ItemIndex, list: seq<Revision>) {
    && (forall ref :: ref in x.active <==> IsActive(list, ref))
    && (forall item :: ActiveOf(list, item) == if item in x.heads then Some(x.heads[item]) else None)
    && (forall item :: MaxNumber(list, item) == if item in x.numbers then x.numbers[item] else 0)
  }

  // Retires one record into the index; a second active revision of an item is an error.
  method IndexRevision(x: ItemIndex, ghost before: seq<Revision>, r: Revision) returns (y: Result<ItemIndex>)
    requires Indexes(x, before) && SingleActive(before)
    ensures y.Ok? <==> SingleActive(before + [r])
    ensures y.Ok? ==> Indexes(y.value, before + [r])
  {
    ghost var all := before + [r];
    assert all[..|before|] == before && all[|before|] == r;
    IndexStep(before, r);
    var item, number := r.meta.item, if r.meta.item in x.numbers then x.numbers[r.meta.item] else 0;
    var numbers := if r.meta.number > number then x.numbers[item := r.meta.number] else x.numbers;
    if r.meta.state != Active {
      y := Ok(x.(numbers := numbers));
    } else if item in x.heads {
      y := Err(InvalidDerived);
    } else {
      y := Ok(ItemIndex(x.active + {r.Ref()}, x.heads[item := r.Ref()], numbers));
    }
  }

  lemma IndexStep(before: seq<Revision>, r: Revision)
    requires SingleActive(before)
    ensures SingleActive(before + [r]) <==> r.meta.state == Active ==> ActiveOf(before, r.meta.item).None?
    ensures forall ref :: IsActive(before + [r], ref) <==>
      IsActive(before, ref) || (r.meta.state == Active && ref == r.Ref())
  {
    var all := before + [r];
    assert all[|before|] == r && forall i | 0 <= i < |before| :: all[i] == before[i];
    ActiveOfMeaning(before, r.meta.item);
    forall ref ensures IsActive(all, ref) <==> IsActive(before, ref) || (r.meta.state == Active && ref == r.Ref()) {
      if IsActive(before, ref) {
        var b :| b in before && b.meta.state == Active && b.Ref() == ref;
        assert b in all;
      }
      if r.meta.state == Active && ref == r.Ref() { assert r in all; }
    }
    if SingleActive(all) && r.meta.state == Active {
      OtherItems(all, |before|);
      assert all[..|before|] == before;
    }
    if r.meta.state == Active && ActiveOf(before, r.meta.item).None? {
      forall i | 0 <= i < |before| && before[i].meta.state == Active ensures before[i].meta.item != r.meta.item {
        assert before[i] in before && (before[i].meta.item == r.meta.item ==> IsActive(before, before[i].Ref()));
      }
    }
  }

  method IndexScenarios(list: seq<Revision>) returns (r: Result<ItemIndex>)
    ensures r.Ok? <==> SingleActive(list)
    ensures r.Ok? ==> Indexes(r.value, list)
  {
    var x := ItemIndex({}, map[], map[]);
    var n := 0;
    while n < |list|
      invariant n <= |list| && SingleActive(list[..n]) && Indexes(x, list[..n])
    {
      var y := IndexRevision(x, list[..n], list[n]);
      assert list[..n + 1] == list[..n] + [list[n]];
      SingleActivePrefix(list, n + 1);
      if y.Err? {
        return Err(y.code);
      }
      x := y.value;
      n := n + 1;
    }
    assert list[..n] == list;
    r := Ok(x);
  }

  lemma SingleActivePrefix(list: seq<Revision>, n: nat)
    requires n <= |list|
    ensures SingleActive(list) ==> SingleActive(list[..n])
  {
  }

  // activeAtoms of the source
  function ActiveRefs(list: seq<Revision>): (refs: set<RevisionRef>)
    ensures forall ref :: ref in refs <==> IsActive(list, ref)
  {
    set r | r in list && r.meta.state == Active :: r.Ref()
  }

  predicate DistinctTopics(scope: Scope, candidates: seq<ScenarioCandidate>) {
    forall i, j | 0 <= i < j < |candidates| ::
      ScenarioItem(scope, candidates[i].topicKey) != ScenarioItem(scope, candidates[j].topicKey)
  }

  function BuiltScenarios(b: Boundary, operation: OperationId, snapshot: Snapshot,
      candidates: seq<ScenarioCandidate>): (built: seq<ScenarioRevision>)
    ensures |built| == |candidates|
    ensures forall i | 0 <= i < |built| :: built[i] == BuiltScenario(b, operation, snapshot, candidates[i])
  {
    seq(|candidates|, i requires 0 <= i < |candidates| => BuiltScenario(b, operation, snapshot, candidates[i]))
  }

  // One transition for each superseding revision, in order.
  function Retirements(revisions: seq<Revision>): seq<Transition> {
    if revisions == [] then []
    else
      var last, rest := revisions[|revisions| - 1], Retirements(revisions[..|revisions| - 1]);
      if last.meta.supersedes.Some? then rest + [Transition(last.meta.supersedes.value, Some(Active), Superseded)]
        else rest
  }

  // The checks on one candidate, in the order of the source. The targets already taken
  // belong to topics already created, so the test for a second use never decides.
  method GroundScenario(
    b: Boundary, operation: OperationId, atoms: set<RevisionRef>, x: ItemIndex, ghost snapshot: Snapshot,
      c: ScenarioCandidate,
    created: set<ItemId>, taken: set<RevisionRef>)
    returns (r: Result<ScenarioRevision>)
    requires forall t | t in taken :: t.item in created
    requires ValidBoundary(b) && OperationIdError(operation) == None
    requires SingleActive(snapshot.scenarios) && forall r | r in snapshot.scenarios :: RevisionError(r) == None
    requires atoms == ActiveRefs(snapshot.atoms) && Indexes(x, snapshot.scenarios)
    ensures r.Ok? <==> ScenarioFits(b.scope, snapshot, c) && ScenarioItem(b.scope, c.topicKey) !in created
    ensures r.Ok? ==> r.value == BuiltScenario(b, operation, snapshot, c)
    ensures r.Ok? ==>
      RecordsScenario(b, operation, snapshot.scenarios, c, r.value) && r.value.meta.state == Active
  {
    hide RecordsScenario;
    hide RevisionError, TextError, RefsError, RefError, ScopeError, Normalize, DerivedRevisionId;
    if |c.topicKey| > MAX_DERIVED_TEXT_BYTES || |c.title| > MAX_DERIVED_TEXT_BYTES ||
      |c.summary| > MAX_DERIVED_TEXT_BYTES {
      OversizedTextsFail(c);
      return Err(LimitExceeded);
    }
    var fault := ScenarioCandidateError(c);
    if fault.Some? {
      return Err(fault.value);
    }
    if exists i | 0 <= i < |c.atoms| :: c.atoms[i] !in atoms {
      return Err(InvalidDerived);
    }
    ItemOfNormalized(b.scope, c.topicKey);
    var topicKey, title, summary := Normalize(c.topicKey), Normalize(c.title), Normalize(c.summary);
    var item := ScenarioItem(b.scope, topicKey);
    if item in created {
      return Err(InvalidDerived);
    }
    ActiveOfMeaning(snapshot.scenarios, item);
    if c.supersedes.Some? && (c.supersedes.value !in x.active || c.supersedes.value.item != item) {
      return Err(InvalidDerived);
    }
    if c.supersedes.Some? && c.supersedes.value in taken {
      assert false;
    }
    if item in x.heads {
      if c.supersedes.None? || x.heads[item] != c.supersedes.value {
        return Err(InvalidDerived);
      }
    } else if c.supersedes.Some? {
      return Err(InvalidDerived);
    }
    var parents := AppendUnique(c.atoms, c.supersedes);
    if |c.atoms| > MAX_SOURCES_PER_REVISION || |parents| > MAX_SOURCES_PER_REVISION {
      return Err(LimitExceeded);
    }
    var provenance := Provenance([], parents);
    var number := 1 + if item in x.numbers then x.numbers[item] else 0;
    var id := DerivedRevisionId(b.scope, item, operation, [topicKey, title, summary], provenance, c.supersedes);
    var scenario: ScenarioRevision := Revision(
      Meta(ScenarioKind, item, id, number, operation, b.scope, Active, provenance, b.occurredAt, c.supersedes),
      Scenario(topicKey, title, summary));
    BuiltScenarioIsValid(b, operation, snapshot, c);
    BuiltScenarioRecords(b, operation, snapshot, c);
    if RevisionError(scenario).Some? {
      assert false;
    }
    r := Ok(scenario);
  }

  lemma OversizedTextsFail(c: ScenarioCandidate)
    requires |c.topicKey| > MAX_DERIVED_TEXT_BYTES || |c.title| > MAX_DERIVED_TEXT_BYTES ||
      |c.summary| > MAX_DERIVED_TEXT_BYTES
    ensures ScenarioCandidateError(c).Some?
  {
  }

  // groundScenarioCandidates
  method GroundScenarios(b: Boundary, operation: OperationId, snapshot: Snapshot, candidates: seq<ScenarioCandidate>)
    returns (r: Result<(seq<ScenarioRevision>, seq<Transition>)>)
    requires ValidBoundary(b) && OperationIdError(operation) == None
    requires forall r | r in snapshot.scenarios :: RevisionError(r) == None
    ensures r.Ok? <==> ScenariosFit(b.scope, snapshot, candidates)
    ensures r.Ok? ==>
      r.value.0 == BuiltScenarios(b, operation, snapshot, candidates) && r.value.1 == Retirements(r.value.0)
    ensures r.Ok? ==> |r.value.0| == |candidates| && forall i | 0 <= i < |candidates| ::
      && RevisionError(r.value.0[i]) == None && r.value.0[i].meta.state == Active
      && RecordsScenario(b, operation, snapshot.scenarios, candidates[i], r.value.0[i])
    ensures r.Ok? ==> RetiresExactly(r.value.1, ScenarioTargets(candidates))
  {
    hide RecordsScenario, RetiresExactly, ScenarioTargets;
    hide RevisionError, ScenarioFits, ScopeError, BuiltScenario, Indexes, Normalize, Retirements, SingleActive;
    hide ScenarioItem;
    BuiltKeepsTarget(b, operation, snapshot, candidates);
    assert Retirements([]) == [] by { EmptyRetirements(); }
    var x := IndexScenarios(snapshot.scenarios);
    if x.Err? {
      return Err(x.code);
    }
    var atoms := ActiveRefs(snapshot.atoms);
    var created: set<ItemId>, taken: set<RevisionRef> := {}, {};
    var scenarios: seq<ScenarioRevision>, transitions := [], [];
    var n := 0;
    while n < |candidates|
      invariant n <= |candidates|
      invariant forall i | 0 <= i < n :: ScenarioFits(b.scope, snapshot, candidates[i])
      invariant forall item :: item in created <==> exists i ::
        0 <= i < n && ScenarioItem(b.scope, candidates[i].topicKey) == item
      invariant forall i, j | 0 <= i < j < n ::
        ScenarioItem(b.scope, candidates[i].topicKey) != ScenarioItem(b.scope, candidates[j].topicKey)
      invariant |scenarios| == n && forall i | 0 <= i < n ::
        scenarios[i] == BuiltScenario(b, operation, snapshot, candidates[i])
      invariant transitions == Retirements(scenarios)
      invariant forall t | t in taken :: t.item in created
    {
      var c := candidates[n];
      var scenario := GroundScenario(b, operation, atoms, x.value, snapshot, c, created, taken);
      if scenario.Err? {
        return Err(scenario.code);
      }
      created := created + {ScenarioItem(b.scope, c.topicKey)};
      RetirementsStep(scenarios, scenario.value);
      if scenario.value.meta.supersedes.Some? {
        taken := taken + {scenario.value.meta.supersedes.value};
        transitions := transitions + [Transition(scenario.value.meta.supersedes.value, Some(Active), Superseded)];
      }
      scenarios := scenarios + [scenario.value];
      n := n + 1;
    }
    r := Ok((scenarios, transitions));
    ScenariosAreRecorded(b, operation, snapshot, candidates);
  }

  // What a whole accepted answer of the synthesizer becomes.
  lemma ScenariosAreRecorded(b: Boundary, operation: OperationId, snapshot: Snapshot,
      candidates: seq<ScenarioCandidate>)
    requires ValidBoundary(b) && OperationIdError(operation) == None && ScenariosFit(b.scope, snapshot, candidates)
    requires forall r | r in snapshot.scenarios :: RevisionError(r) == None
    ensures var built := BuiltScenarios(b, operation, snapshot, candidates);
      && (forall i | 0 <= i < |candidates| ::
        && RevisionError(built[i]) == None && built[i].meta.state == Active
        && RecordsScenario(b, operation, snapshot.scenarios, candidates[i], built[i]))
      && RetiresExactly(Retirements(built), ScenarioTargets(candidates))
  {
    hide RevisionError, ScenarioFits, ScopeError, BuiltScenario, Retirements, SingleActive, RecordsScenario;
    hide ScenarioItem, RetiresExactly, RefError;
    var built: seq<Revision> := BuiltScenarios(b, operation, snapshot, candidates);
    forall i | 0 <= i < |candidates|
      ensures RevisionError(built[i]) == None && built[i].meta.state == Active
      ensures RecordsScenario(b, operation, snapshot.scenarios, candidates[i], built[i])
      ensures built[i].meta.item == ScenarioItem(b.scope, candidates[i].topicKey)
      ensures built[i].meta.supersedes == candidates[i].supersedes
      ensures built[i].meta.supersedes.Some? ==>
        RefError(built[i].meta.supersedes.value) == None && built[i].meta.supersedes.value.item == built[i].meta.item
    {
      BuiltScenarioRecords(b, operation, snapshot, candidates[i]);
      BuiltScenarioFits(b, operation, snapshot, candidates[i]);
      BuiltKeepsCandidate(b, operation, snapshot, candidates[i]);
    }
    DifferentItems(built);
    RetirementsMeaning(built);
    RetirementsRetire(built);
    hide UniqueRefs, UniqueTargets, ValidTransitions, Supersedes;
    assert Targets(built) == ScenarioTargets(candidates) by { SameTargets(built, candidates); }
  }

  lemma BuiltKeepsCandidate(b: Boundary, operation: OperationId, snapshot: Snapshot, c: ScenarioCandidate)
    ensures BuiltScenario(b, operation, snapshot, c).meta.supersedes == c.supersedes
  {
  }

  lemma SameTargets(built: seq<Revision>, candidates: seq<ScenarioCandidate>)
    requires |built| == |candidates|
    requires forall i | 0 <= i < |built| :: built[i].meta.supersedes == candidates[i].supersedes
    ensures Targets(built) == ScenarioTargets(candidates)
  {
    forall ref | ref in Targets(built) ensures ref in ScenarioTargets(candidates) {
      var r :| r in built && r.meta.supersedes == Some(ref);
      var i :| 0 <= i < |built| && built[i] == r;
      assert candidates[i] in candidates;
    }
    forall ref | ref in ScenarioTargets(candidates) ensures ref in Targets(built) {
      var c :| c in candidates && c.supersedes == Some(ref);
      var i :| 0 <= i < |candidates| && candidates[i] == c;
      assert built[i] in built;
    }
  }

  lemma RetirementsRetire(revisions: seq<Revision>)
    requires ValidTransitions(Retirements(revisions)) && TransitionRefs(Retirements(revisions)) == Targets(revisions)
    ensures RetiresExactly(Retirements(revisions), Targets(revisions))
  {
    hide ValidTransition;
    OnlyRetirements(revisions);
    var transitions := Retirements(revisions);
    hide Retirements;
    forall ref ensures ref in Targets(revisions) <==> exists t :: t in transitions && t.ref == ref {
      assert ref in TransitionRefs(transitions) <==> exists t :: t in transitions && t.ref == ref;
    }
  }

  lemma {:induction false} OnlyRetirements(revisions: seq<Revision>)
    ensures forall t | t in Retirements(revisions) :: t.from == Some(Active) && t.to == Superseded
  {
    if revisions != [] { OnlyRetirements(revisions[..|revisions| - 1]); }
  }

  lemma EmptyRetirements()
    ensures Retirements([]) == []
  {
  }

  // A supersession stays within its topic.
  lemma BuiltKeepsTarget(b: Boundary, operation: OperationId, snapshot: Snapshot, candidates: seq<ScenarioCandidate>)
    ensures SingleActive(snapshot.scenarios) ==> forall i | 0 <= i < |candidates| &&
      ScenarioFits(b.scope, snapshot, candidates[i]) ::
      var target := BuiltScenario(b, operation, snapshot, candidates[i]).meta.supersedes;
      target.Some? ==> target.value.item == ScenarioItem(b.scope, candidates[i].topicKey)
  {
    hide ScenarioItem, Normalize;
    if SingleActive(snapshot.scenarios) {
      forall i | 0 <= i < |candidates| {
        ActiveOfMeaning(snapshot.scenarios, ScenarioItem(b.scope, candidates[i].topicKey));
      }
    }
  }

  lemma RetirementsStep(revisions: seq<Revision>, r: Revision)
    ensures Retirements(revisions + [r]) == Retirements(revisions)
      + if r.meta.supersedes.Some? then [Transition(r.meta.supersedes.value, Some(Active), Superseded)] else []
  {
  }

  predicate ScenariosFit(scope: Scope, snapshot: Snapshot, candidates: seq<ScenarioCandidate>) {
    && SingleActive(snapshot.scenarios) && DistinctTopics(scope, candidates)
    && forall i | 0 <= i < |candidates| :: ScenarioFits(scope, snapshot, candidates[i])
  }

  // ----- the profile -----

  // ProfileCandidate.Validate
  function ProfileCandidateError(c: ProfileCandidate): Option<Code> {
    if c.disposition == Skip then
      if c.summary != "" || c.atoms != [] || c.scenarios != [] || c.supersedes.Some? then Some(InvalidDerived) else None
    else if TextError(c.summary, MAX_DERIVED_TEXT_BYTES).Some? then TextError(c.summary, MAX_DERIVED_TEXT_BYTES)
    else if |c.atoms| + |c.scenarios| == 0 then Some(InvalidDerived)
    else if |c.atoms| + |c.scenarios| > MAX_SOURCES_PER_REVISION then Some(LimitExceeded)
    else if RefsError(c.atoms).Some? then RefsError(c.atoms)
    else if RefsError(c.scenarios).Some? then RefsError(c.scenarios)
    else if c.supersedes.Some? then RefError(c.supersedes.value)
    else None
  }

  // A skip says nothing; an update carries its text and cites something, nothing malformed or
  // twice, within the limit.
  lemma ProfileCandidateIff(c: ProfileCandidate)
    ensures ProfileCandidateError(c) == None <==>
      if c.disposition == Skip then c == ProfileCandidate(Skip, "", [], [], None)
      else
        && Carried(c.summary, MAX_DERIVED_TEXT_BYTES)
        && 0 < |c.atoms| + |c.scenarios| <= MAX_SOURCES_PER_REVISION && Citable(c.atoms) && Citable(c.scenarios)
        && (c.supersedes.Some? ==> RefError(c.supersedes.value) == None)
  {
    CarriedIff(c.summary, MAX_DERIVED_TEXT_BYTES);
    CitableIff(c.atoms);
    CitableIff(c.scenarios);
    hide TextError, RefsError, RefError, Carried, Citable;
  }

  function ProfileParents(c: ProfileCandidate): seq<RevisionRef> {
    AppendUnique(c.atoms + c.scenarios, c.supersedes)
  }

  // An accepted update cites active atoms and scenarios only, and replaces the active
  // profile exactly when there is one.
  predicate ProfileFits(scope: Scope, snapshot: Snapshot, c: ProfileCandidate) {
    && ProfileCandidateError(c) == None && AllActive(snapshot.atoms, c.atoms) &&
      AllActive(snapshot.scenarios, c.scenarios)
    && c.supersedes == ActiveOf(snapshot.profiles, ProfileItem(scope))
    && |ProfileParents(c)| <= MAX_SOURCES_PER_REVISION
  }

  predicate ProfileAccepted(scope: Scope, snapshot: Snapshot, candidate: Option<ProfileCandidate>) {
    match candidate
    case None => true
    case Some(c) =>
      if c.disposition == Skip then ProfileCandidateError(c) == None
      else SingleActive(snapshot.profiles) && ProfileFits(scope, snapshot, c)
  }

  function BuiltProfile(b: Boundary, operation: OperationId, snapshot: Snapshot, c: ProfileCandidate): ProfileRevision {
    var item, summary, provenance := ProfileItem(b.scope), Normalize(c.summary), Provenance([], ProfileParents(c));
    Revision(
      Meta(ProfileKind, item, DerivedRevisionId(b.scope, item, operation, [summary], provenance, c.supersedes),
           MaxNumber(snapshot.profiles, item) + 1, operation, b.scope, Active, provenance, b.occurredAt, c.supersedes),
      Profile(summary))
  }

  function BuiltProfiles(b: Boundary, operation: OperationId, snapshot: Snapshot,
      candidate: Option<ProfileCandidate>): seq<ProfileRevision> {
    if candidate.None? || candidate.value.disposition == Skip then []
    else [BuiltProfile(b, operation, snapshot, candidate.value)]
  }

  predicate AllFit(scope: Scope, list: seq<Revision>) {
    forall r | r in list :: RecordFits(scope, r)
  }

  lemma KindOfRecord(r: Revision)
    requires RevisionError(r) == None
    ensures r.body.Atom? ==> r.meta.item == AtomItem(r.meta.scope, r.body.category, r.body.text)
    ensures r.body.Scenario? ==> r.meta.item == ScenarioItem(r.meta.scope, r.body.topicKey)
    ensures r.body.Profile? ==> r.meta.item == ProfileItem(r.meta.scope)
  {
  }

  // No atom shares its identity with a scenario.
  lemma AtomsAreNotScenarios(scope: Scope, snapshot: Snapshot, atom: RevisionRef, scenario: RevisionRef)
    requires AllFit(scope, snapshot.atoms) && AllFit(scope, snapshot.scenarios)
    requires IsActive(snapshot.atoms, atom) && IsActive(snapshot.scenarios, scenario)
    ensures atom != scenario
  {
    hide RevisionError;
    var a :| a in snapshot.atoms && a.meta.state == Active && a.Ref() == atom;
    var s :| s in snapshot.scenarios && s.meta.state == Active && s.Ref() == scenario;
    BodiesOf(snapshot, a, s);
    KindOfRecord(a);
    KindOfRecord(s);
  }

  lemma BodiesOf(snapshot: Snapshot, a: Revision, s: Revision)
    requires a in snapshot.atoms && s in snapshot.scenarios
    ensures a.body.Atom? && s.body.Scenario?
  {
  }

  lemma ProfileRefsFit(scope: Scope, snapshot: Snapshot, c: ProfileCandidate)
    requires AllFit(scope, snapshot.atoms) && AllFit(scope, snapshot.scenarios)
    requires c.disposition == Upsert && ProfileFits(scope, snapshot, c)
    ensures RefsErrorFrom(ProfileParents(c), 0) == None
  {
    hide TextError, RefError, ActiveOf, RecordFits, IsActive;
    RefsErrorMeaning(c.atoms);
    RefsErrorMeaning(c.scenarios);
    RefsErrorMeaning(c.atoms + c.scenarios);
    forall i, j | 0 <= i < |c.atoms| && 0 <= j < |c.scenarios| ensures c.atoms[i] != c.scenarios[j] {
      AtomsAreNotScenarios(scope, snapshot, c.atoms[i], c.scenarios[j]);
    }
    ParentsFit(c.atoms + c.scenarios, c.supersedes);
  }

  lemma ReplacedProfileIsNumbered(scope: Scope, snapshot: Snapshot)
    requires SingleActive(snapshot.profiles) && ActiveOf(snapshot.profiles, ProfileItem(scope)).Some?
    requires AllFit(scope, snapshot.profiles)
    ensures ActiveOf(snapshot.profiles, ProfileItem(scope)).value.item == ProfileItem(scope)
    ensures MaxNumber(snapshot.profiles, ProfileItem(scope)) >= 1
  {
    hide RevisionError;
    ActiveOfMeaning(snapshot.profiles, ProfileItem(scope));
    MaxNumberBounds(snapshot.profiles, ProfileItem(scope));
    var ref := ActiveOf(snapshot.profiles, ProfileItem(scope)).value;
    var r :| r in snapshot.profiles && r.meta.state == Active && r.Ref() == ref;
    ValidRevisionIsGenuine(r);
  }

  lemma BuiltProfileIsValid(b: Boundary, operation: OperationId, snapshot: Snapshot, c: ProfileCandidate)
    requires ValidBoundary(b) && OperationIdError(operation) == None
    requires AllFit(b.scope, snapshot.atoms) && AllFit(b.scope, snapshot.scenarios) &&
      AllFit(b.scope, snapshot.profiles)
    requires SingleActive(snapshot.profiles) && c.disposition == Upsert && ProfileFits(b.scope, snapshot, c)
    ensures RevisionError(BuiltProfile(b, operation, snapshot, c)) == None
  {
    hide ScopeError, StoredTextError, RefError, ProvenanceError, Normalize, RevisionError, DerivedRevisionId;
    hide RecordFits;
    NormalizedTextIsStorable(c.summary, MAX_DERIVED_TEXT_BYTES);
    ProfileRefsFit(b.scope, snapshot, c);
    ProfileProvenanceFits(b.scope, c);
    if c.supersedes.Some? { ReplacedProfileIsNumbered(b.scope, snapshot); }
    ProfileRules(BuiltProfile(b, operation, snapshot, c));
  }

  lemma ProfileProvenanceFits(scope: Scope, c: ProfileCandidate)
    requires ScopeError(scope) == None && RefsErrorFrom(ProfileParents(c), 0) == None
    requires 0 < |c.atoms| + |c.scenarios| && |ProfileParents(c)| <= MAX_SOURCES_PER_REVISION
    ensures ProvenanceError(Provenance([], ProfileParents(c)), scope) == None
  {
  }

  lemma ProfileRules(r: ProfileRevision)
    requires StoredTextError(r.body.profile, MAX_DERIVED_TEXT_BYTES) == None
    requires ScopeError(r.meta.scope) == None && OperationIdError(r.meta.operation) == None
    requires r.meta.kind == ProfileKind && r.meta.item == ProfileItem(r.meta.scope) && r.meta.number > 0
    requires ProvenanceError(r.meta.provenance, r.meta.scope) == None && r.meta.createdAt != 0
    requires r.meta.supersedes.Some? ==>
      RefError(r.meta.supersedes.value) == None && r.meta.supersedes.value.item == r.meta.item && r.meta.number >= 2
    requires r.meta.revision == DerivedRevisionId(
      r.meta.scope, r.meta.item, r.meta.operation, [r.body.profile], r.meta.provenance, r.meta.supersedes)
    ensures RevisionError(r) == None
  {
  }

  // The scan of the stored profiles: the active one and the highest number. A profile of
  // a foreign item cannot be in a valid snapshot of the scope.
  method ScanProfiles(scope: Scope, list: seq<ProfileRevision>) returns (r: Result<(Option<RevisionRef>, nat)>)
    requires AllFit(scope, list)
    ensures r.Ok? <==> SingleActive(list)
    ensures r.Ok? ==> r.value == (ActiveOf(list, ProfileItem(scope)), MaxNumber(list, ProfileItem(scope)))
  {
    hide RevisionError;
    var active: Option<RevisionRef>, max := None, 0;
    var n := 0;
    while n < |list|
      invariant n <= |list| && SingleActive(list[..n])
      invariant active == ActiveOf(list[..n], ProfileItem(scope)) && max == MaxNumber(list[..n], ProfileItem(scope))
    {
      assert list[..n + 1] == list[..n] + [list[n]] && list[..n + 1][..n] == list[..n];
      assert list[n] in list && RecordFits(scope, list[n]);
      KindOfRecord(list[n]);
      IndexStep(list[..n], list[n]);
      SingleActivePrefix(list, n + 1);
      if list[n].meta.item != ProfileItem(scope) {
        assert false;
      }
      if list[n].meta.number > max {
        max := list[n].meta.number;
      }
      if list[n].meta.state == Active {
        if active.Some? {
          return Err(InvalidDerived);
        }
        active := Some(list[n].Ref());
      }
      n := n + 1;
    }
    assert list[..n] == list;
    r := Ok((active, max));
  }

  // groundProfileCandidate
  method GroundProfile(b: Boundary, operation: OperationId, snapshot: Snapshot, candidate: Option<ProfileCandidate>)
    returns (r: Result<(seq<ProfileRevision>, seq<Transition>)>)
    requires ValidBoundary(b) && OperationIdError(operation) == None
    requires AllFit(b.scope, snapshot.atoms) && AllFit(b.scope, snapshot.scenarios) &&
      AllFit(b.scope, snapshot.profiles)
    ensures r.Ok? <==> ProfileAccepted(b.scope, snapshot, candidate)
    ensures r.Ok? ==>
      r.value.0 == BuiltProfiles(b, operation, snapshot, candidate) && r.value.1 == Retirements(r.value.0)
    ensures r.Ok? && (candidate.None? || candidate.value.disposition == Skip) ==> r.value == ([], [])
    ensures r.Ok? && candidate.Some? && candidate.value.disposition == Upsert ==>
      && |r.value.0| == 1 && RecordsProfile(b, operation, snapshot.profiles, candidate.value, r.value.0[0])
      && RevisionError(r.value.0[0]) == None && r.value.0[0].meta.state == Active
      && r.value.1 == if candidate.value.supersedes.Some?
           then [Transition(candidate.value.supersedes.value, Some(Active), Superseded)] else []
  {
    hide RecordsProfile, RevisionError;
    hide AllFit, TextError, RefsError, ScopeError, ProfileFits, SingleActive;
    assert Retirements([]) == [] by { EmptyRetirements(); }
    if candidate.None? {
      return Ok(([], []));
    }
    var c := candidate.value;
    if c.disposition == Skip {
      var fault := ProfileCandidateError(c);
      return if fault.Some? then Err(fault.value) else Ok(([], []));
    }
    var profile := GroundUpdate(b, operation, snapshot, c);
    if profile.Err? {
      return Err(profile.code);
    }
    var transitions: seq<Transition> := [];
    RetirementsStep([], profile.value);
    assert [] + [profile.value] == [profile.value];
    if c.supersedes.Some? {
      transitions := [Transition(c.supersedes.value, Some(Active), Superseded)];
    }
    r := Ok(([profile.value], transitions));
  }

  method GroundUpdate(b: Boundary, operation: OperationId, snapshot: Snapshot, c: ProfileCandidate)
      returns (r: Result<ProfileRevision>)
    requires ValidBoundary(b) && OperationIdError(operation) == None && c.disposition == Upsert
    requires AllFit(b.scope, snapshot.atoms) && AllFit(b.scope, snapshot.scenarios) &&
      AllFit(b.scope, snapshot.profiles)
    ensures r.Ok? <==> SingleActive(snapshot.profiles) && ProfileFits(b.scope, snapshot, c)
    ensures r.Ok? ==> r.value == BuiltProfile(b, operation, snapshot, c)
    ensures r.Ok? ==> RecordsProfile(b, operation, snapshot.profiles, c, r.value) && r.value.meta.state == Active
    ensures r.Ok? ==> RevisionError(r.value) == None
  {
    hide AllFit, RevisionError, RefsError, RefError, ScopeError, Normalize, DerivedRevisionId, SingleActive;
    hide ActiveOf, MaxNumber;
    if |c.summary| > MAX_DERIVED_TEXT_BYTES {
      return Err(LimitExceeded);
    }
    var fault := ProfileCandidateError(c);
    if fault.Some? {
      return Err(fault.value);
    }
    var atoms, scenarios := ActiveRefs(snapshot.atoms), ActiveRefs(snapshot.scenarios);
    if exists i | 0 <= i < |c.atoms| :: c.atoms[i] !in atoms {
      return Err(InvalidDerived);
    }
    if exists i | 0 <= i < |c.scenarios| :: c.scenarios[i] !in scenarios {
      return Err(InvalidDerived);
    }
    var item := ProfileItem(b.scope);
    var scanned := ScanProfiles(b.scope, snapshot.profiles);
    if scanned.Err? {
      return Err(scanned.code);
    }
    var (active, max) := scanned.value;
    if c.supersedes.Some? && (active.None? || c.supersedes.value != active.value) {
      return Err(InvalidDerived);
    }
    if active.Some? && c.supersedes.None? {
      return Err(InvalidDerived);
    }
    var parents := AppendUnique(c.atoms + c.scenarios, c.supersedes);
    if |parents| > MAX_SOURCES_PER_REVISION {
      return Err(LimitExceeded);
    }
    var summary, provenance := Normalize(c.summary), Provenance([], parents);
    var id := DerivedRevisionId(b.scope, item, operation, [summary], provenance, c.supersedes);
    var profile: ProfileRevision := Revision(
      Meta(ProfileKind, item, id, max + 1, operation, b.scope, Active, provenance, b.occurredAt, c.supersedes),
        Profile(summary));
    BuiltProfileIsValid(b, operation, snapshot, c);
    BuiltProfileRecords(b, operation, snapshot, c);
    hide RecordsProfile;
    if RevisionError(profile).Some? {
      assert false;
    }
    r := Ok(profile);
  }

  // ----- from grounding to a commit -----

  function ScenarioRequest(b: Boundary, operation: OperationId, snapshot: Snapshot,
      candidates: seq<ScenarioCandidate>): CommitRequest {
    var built := BuiltScenarios(b, operation, snapshot, candidates);
    CommitRequest(operation, ScenarioStage, b.scope, snapshot.version, [], [], built, [], Retirements(built))
  }

  function ProfileRequest(b: Boundary, operation: OperationId, snapshot: Snapshot,
      candidate: Option<ProfileCandidate>): CommitRequest {
    var built := BuiltProfiles(b, operation, snapshot, candidate);
    CommitRequest(operation, ProfileStage, b.scope, snapshot.version, [], [], [], built, Retirements(built))
  }

  lemma {:induction false} RetirementsMeaning(revisions: seq<Revision>)
    requires forall i | 0 <= i < |revisions| && revisions[i].meta.supersedes.Some? ::
      RefError(revisions[i].meta.supersedes.value) == None
    requires UniqueTargets(revisions)
    ensures ValidTransitions(Retirements(revisions)) && TransitionRefs(Retirements(revisions)) == Targets(revisions)
    ensures forall i | 0 <= i < |revisions| :: Supersedes(Retirements(revisions), revisions[i])
  {
    hide RefError;
    if revisions == [] {
      EmptyRetirements();
    } else {
      var n := |revisions| - 1;
      var rest := revisions[..n];
      assert revisions == rest + [revisions[n]];
      RetirementsMeaning(rest);
      RetirementsStep(rest, revisions[n]);
      RetirementExtends(rest, revisions[n]);
    }
  }

  lemma RetirementExtends(rest: seq<Revision>, r: Revision)
    requires r.meta.supersedes.Some? ==> RefError(r.meta.supersedes.value) == None
    requires UniqueTargets(rest + [r])
    requires ValidTransitions(Retirements(rest)) && TransitionRefs(Retirements(rest)) == Targets(rest)
    requires forall i | 0 <= i < |rest| :: Supersedes(Retirements(rest), rest[i])
    ensures ValidTransitions(Retirements(rest + [r])) && TransitionRefs(Retirements(rest + [r])) == Targets(rest + [r])
    ensures forall i | 0 <= i < |rest + [r]| :: Supersedes(Retirements(rest + [r]), (rest + [r])[i])
  {
    hide RefError, Retirements, ValidTransitions, TransitionRefs, Targets, UniqueTargets, Supersedes;
    var all, transitions := rest + [r], Retirements(rest);
    assert all[..|rest|] == rest && all[..|rest| + 1] == all;
    RetirementsStep(rest, r);
    PrefixTargets(rest, r);
    TargetsScan(all, |rest|);
    var more: seq<Transition> := [];
    if r.meta.supersedes.Some? {
      var t := Transition(r.meta.supersedes.value, Some(Active), Superseded);
      more := [t];
      TransitionAppended(transitions, t);
    } else {
      assert transitions + more == transitions;
    }
    forall i | 0 <= i < |all| ensures Supersedes(transitions + more, all[i]) {
      if i < |rest| { assert all[i] == rest[i]; }
      if i == |rest| { RetiresIts(r, more); }
      SupersedesMore(transitions, more, all[i]);
    }
  }

  lemma PrefixTargets(rest: seq<Revision>, r: Revision)
    requires UniqueTargets(rest + [r])
    ensures UniqueTargets(rest)
  {
    assert forall i | 0 <= i < |rest| :: (rest + [r])[i] == rest[i];
  }

  lemma RetiresIts(r: Revision, more: seq<Transition>)
    requires r.meta.supersedes.Some? ==> more == [Transition(r.meta.supersedes.value, Some(Active), Superseded)]
    ensures Supersedes(more, r)
  {
  }

  lemma SupersedesMore(transitions: seq<Transition>, more: seq<Transition>, r: Revision)
    requires Supersedes(transitions, r) || Supersedes(more, r)
    ensures Supersedes(transitions + more, r)
  {
  }

  lemma TransitionAppended(transitions: seq<Transition>, t: Transition)
    requires ValidTransitions(transitions) && t == Transition(t.ref, Some(Active), Superseded)
    requires RefError(t.ref) == None && t.ref !in TransitionRefs(transitions)
    ensures ValidTransitions(transitions + [t])
    ensures TransitionRefs(transitions + [t]) == TransitionRefs(transitions) + {t.ref}
  {
  }

  // Requests made of records that fit, with the retirements they ask for, are accepted.
  lemma BuiltRequestIsValid(q: CommitRequest, built: seq<Revision>)
    requires q.Revisions() == built && q.transitions == Retirements(built) && q.sources == [] && StageContent(q)
    requires OperationIdError(q.operation) == None && ScopeError(q.scope) == None && |built| <= MAX_CANDIDATE_COUNT
    requires forall i | 0 <= i < |built| :: NewRecordFits(q, built[i])
    requires forall i | 0 <= i < |built| && built[i].meta.supersedes.Some? ::
      RefError(built[i].meta.supersedes.value) == None
    requires UniqueRefs(built) && UniqueTargets(built)
    ensures ValidRequest(q)
  {
    hide NewRecordFits, RefError, ScopeError, Supersedes, UniqueRefs, UniqueTargets, Targets, TransitionRefs;
    hide StageContent, Retirements, ValidTransitions, OperationIdError, SupersessionsFit;
    RetirementsMeaning(built);
    RetirementsSuffice(built, q.transitions);
  }

  lemma RetirementsSuffice(built: seq<Revision>, transitions: seq<Transition>)
    requires forall i | 0 <= i < |built| :: Supersedes(transitions, built[i])
    requires UniqueTargets(built) && TransitionRefs(transitions) == Targets(built)
    ensures SupersessionsFit(built, transitions)
  {
    hide Supersedes, UniqueTargets, Targets, TransitionRefs;
  }

  // If grounding succeeds, the commit request passes its own validation.
  lemma GroundedScenariosCommit(b: Boundary, operation: OperationId, snapshot: Snapshot,
      candidates: seq<ScenarioCandidate>)
    requires ValidBoundary(b) && OperationIdError(operation) == None && |candidates| <= MAX_CANDIDATE_COUNT
    requires forall r | r in snapshot.scenarios :: RevisionError(r) == None
    requires ScenariosFit(b.scope, snapshot, candidates)
    ensures ValidRequest(ScenarioRequest(b, operation, snapshot, candidates))
  {
    hide RevisionError, ScenarioFits, ScopeError, RefError, BuiltScenario, Retirements, ValidRequest, ScenarioItem;
    var q := ScenarioRequest(b, operation, snapshot, candidates);
    var built: seq<Revision> := BuiltScenarios(b, operation, snapshot, candidates);
    assert q.Revisions() == built;
    forall i | 0 <= i < |built|
      ensures NewRecordFits(q, built[i]) && built[i].meta.item == ScenarioItem(b.scope, candidates[i].topicKey)
      ensures built[i].meta.supersedes.Some? ==>
        RefError(built[i].meta.supersedes.value) == None && built[i].meta.supersedes.value.item == built[i].meta.item
    {
      BuiltScenarioFits(b, operation, snapshot, candidates[i]);
    }
    DifferentItems(built);
    BuiltRequestIsValid(q, built);
  }

  lemma BuiltScenarioFits(b: Boundary, operation: OperationId, snapshot: Snapshot, c: ScenarioCandidate)
    requires ValidBoundary(b) && OperationIdError(operation) == None && ScenarioFits(b.scope, snapshot, c)
    requires SingleActive(snapshot.scenarios) && forall r | r in snapshot.scenarios :: RevisionError(r) == None
    ensures var r := BuiltScenario(b, operation, snapshot, c);
      && RevisionError(r) == None && r.meta.scope == b.scope && r.meta.operation == operation && r.meta.state == Active
      && r.meta.item == ScenarioItem(b.scope, c.topicKey)
      && (r.meta.supersedes.Some? ==>
        RefError(r.meta.supersedes.value) == None && r.meta.supersedes.value.item == r.meta.item)
  {
    hide RevisionError, ScopeError, RefError, Normalize, DerivedRevisionId, RefsError, TextError, ActiveOf;
    BuiltScenarioIsValid(b, operation, snapshot, c);
    ItemOfNormalized(b.scope, c.topicKey);
    ActiveOfMeaning(snapshot.scenarios, ScenarioItem(b.scope, c.topicKey));
  }

  lemma DifferentItems(built: seq<Revision>)
    requires forall i, j | 0 <= i < j < |built| :: built[i].meta.item != built[j].meta.item
    requires forall i | 0 <= i < |built| && built[i].meta.supersedes.Some? ::
      built[i].meta.supersedes.value.item == built[i].meta.item
    ensures UniqueRefs(built) && UniqueTargets(built)
  {
  }

  lemma GroundedProfileCommits(b: Boundary, operation: OperationId, snapshot: Snapshot,
      candidate: Option<ProfileCandidate>)
    requires ValidBoundary(b) && OperationIdError(operation) == None
    requires AllFit(b.scope, snapshot.atoms) && AllFit(b.scope, snapshot.scenarios) &&
      AllFit(b.scope, snapshot.profiles)
    requires ProfileAccepted(b.scope, snapshot, candidate)
    ensures ValidRequest(ProfileRequest(b, operation, snapshot, candidate))
  {
    hide RevisionError, ScopeError, RefError, Retirements, ValidRequest, BuiltProfile, AllFit, TextError;
    hide RefsError, ActiveOf;
    var q := ProfileRequest(b, operation, snapshot, candidate);
    var built: seq<Revision> := BuiltProfiles(b, operation, snapshot, candidate);
    assert q.Revisions() == built;
    if built != [] {
      BuiltProfileIsValid(b, operation, snapshot, candidate.value);
      BuiltProfileShape(b, operation, snapshot, candidate.value);
    }
    BuiltRequestIsValid(q, built);
  }

  lemma BuiltProfileShape(b: Boundary, operation: OperationId, snapshot: Snapshot, c: ProfileCandidate)
    ensures var r := BuiltProfile(b, operation, snapshot, c);
      && r.meta.scope == b.scope && r.meta.operation == operation && r.meta.state == Active
      && r.meta.item == ProfileItem(b.scope) && r.meta.supersedes == c.supersedes
  {
  }
}
