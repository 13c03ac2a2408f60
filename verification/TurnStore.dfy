// One scope of canonical memory under turn processing (canonical.go, CanonicalStore;
// canonical_processor.go): the store as a state machine, with one fixed policy and
// derivation (app/turn.go), and what every run of it keeps.
module TurnStore {
  import opened Wrappers
  import D = Derived
  import TraceGraphs
  import opened Turns
  import opened Reconciler
  import opened TurnMutations

  const MAX_READ := 256

  // Fixed for the life of the application.
  datatype Config = Config(version: string, derivation: D.Derivation)

  datatype Outcome = Outcome(version: nat, changeSeq: nat, revisions: seq<RevisionId>)
  datatype OperationRecord = OperationRecord(fingerprint: Fingerprint, outcome: Outcome)

  // order lists the items that have a head, in the order the store scans them.
  datatype Store = Store(
    scope: D.Scope, version: nat, changeSeq: nat, items: map<ItemId, Item>, revisions: map<RevisionId, Revision>,
    heads: map<ItemId, RevisionId>, order: seq<ItemId>, operations: map<OperationId, OperationRecord>)

  // ----- what the processor observes -----

  predicate Indexed(s: Store) {
    forall item | item in s.order :: item in s.items && item in s.heads && s.heads[item] in s.revisions
  }

  function Memory(s: Store, item: ItemId): ActiveMemory
    requires item in s.items && item in s.heads && s.heads[item] in s.revisions
  {
    var r := s.revisions[s.heads[item]];
    ActiveMemory(s.items[item], s.heads[item], r.number, r.evidence)
  }

  function Listed(s: Store): seq<ItemId> {
    if |s.order| <= MAX_READ then s.order else s.order[..MAX_READ]
  }

  // ScanActiveMemory with the processor's limit.
  function Observation(s: Store): (active: seq<ActiveMemory>)
    requires Indexed(s)
    ensures |active| == |Listed(s)| && forall i | 0 <= i < |active| ::
      Listed(s)[i] in s.order && active[i] == Memory(s, Listed(s)[i])
  {
    var listed := Listed(s);
    assert forall i | 0 <= i < |listed| :: listed[i] == s.order[i];
    seq(|listed|, i requires 0 <= i < |listed| => Memory(s, listed[i]))
  }

  // ----- a commit -----

  function Put<K, V>(m: map<K, V>, keys: seq<K>, values: seq<V>): map<K, V>
    requires |keys| == |values|
  {
    if keys == [] then m else Put(m, keys[..|keys| - 1],
      values[..|values| - 1])[keys[|keys| - 1] := values[|values| - 1]]
  }

  function HeadRevisions(m: Mutation): seq<RevisionId> {
    seq(|m.heads|, i requires 0 <= i < |m.heads| => m.heads[i].revision)
  }

  function Apply(s: Store, m: Mutation, order: seq<ItemId>): Store {
    s.(version := s.version + 1, changeSeq := s.changeSeq + 1,
       items := Put(s.items, ItemIds(m), m.items),
       revisions := Put(s.revisions, RevisionIds(m), m.revisions),
       heads := Put(s.heads, HeadItems(m), HeadRevisions(m)),
       order := order,
       operations := s.operations[m.operation :=
         OperationRecord(m.fingerprint, Outcome(s.version + 1, s.changeSeq + 1, RevisionIds(m)))])
  }

  lemma {:induction false} PutMeaning<K, V>(m: map<K, V>, keys: seq<K>, values: seq<V>)
    requires |keys| == |values| && D.Distinct(keys)
    ensures forall i | 0 <= i < |keys| :: keys[i] in Put(m, keys, values) && Put(m, keys, values)[keys[i]] == values[i]
    ensures forall k | k !in keys ::
      (k in Put(m, keys, values) <==> k in m) && (k in m ==> Put(m, keys, values)[k] == m[k])
  {
    if keys != [] {
      var n := |keys| - 1;
      PutMeaning(m, keys[..n], values[..n]);
      assert keys == keys[..n] + [keys[n]];
      forall i | 0 <= i < |keys| ensures keys[i] in Put(m, keys, values) && Put(m, keys, values)[keys[i]] == values[i] {
        if i < n { assert keys[..n][i] == keys[i] && values[..n][i] == values[i]; }
      }
    }
  }

  // ----- the invariant -----

  // An item is identified by its memory key, or by the message it came from.
  ghost predicate ItemFits(s: Store, d: D.Derivation, item: Item) {
    && ValidItem(item) && item.scope == s.scope
    && match item.id
       case StateItem(scopeKey, key) => item.kind == StateMemory && scopeKey == s.scope.key && item.key == Some(key)
       case EventItem(_, source, _, _, _, _, _) => item.kind == EventMemory && Ingested(s, d, source)
  }

  // The turn behind this source has been committed.
  ghost predicate Ingested(s: Store, d: D.Derivation, source: SourceId) {
    source.SourceOf? && OperationOf(source.exportId, d) in s.operations
  }

  // A revision rests on one ingested turn.
  ghost predicate RevisionFits(s: Store, d: D.Derivation, r: Revision) {
    && r.id.item == r.item && r.item in s.heads && r.number >= 1
    && Ingested(s, d, r.id.source) && ValidEvidenceRefs(r.evidence)
    && forall e | e in r.evidence :: e.source == r.id.source
  }

  ghost predicate ItemsAndHeads(s: Store, d: D.Derivation) {
    && s.items.Keys == s.heads.Keys && D.Distinct(s.order) && (forall item :: item in s.order <==> item in s.heads)
    && (forall item | item in s.items :: s.items[item].id == item && ItemFits(s, d, s.items[item]))
    && (forall item | item in s.heads :: s.heads[item] in s.revisions && s.revisions[s.heads[item]].item == item)
  }

  ghost predicate Revisions(s: Store, d: D.Derivation) {
    forall id | id in s.revisions :: s.revisions[id].id == id && RevisionFits(s, d, s.revisions[id])
  }

  ghost predicate OwnFingerprints(s: Store) {
    forall op | op in s.operations :: s.operations[op].fingerprint == FingerprintOf(op.exportId, op.derivation)
  }

  // What holds in every run.
  ghost predicate Base(s: Store, d: D.Derivation) {
    ItemsAndHeads(s, d) && Revisions(s, d) && OwnFingerprints(s)
  }

  ghost predicate IsPredecessor(s: Store, parent: RevisionId, r: Revision) {
    parent in s.revisions && s.revisions[parent].item == r.item && s.revisions[parent].number + 1 == r.number
  }

  // The parent of a revision is the revision of its item numbered just below it.
  ghost predicate Follows(s: Store, r: Revision) {
    if r.number == 1 then r.parents == [] else |r.parents| == 1 && IsPredecessor(s, r.parents[0], r)
  }

  ghost predicate BelowHead(s: Store, r: Revision)
    requires r.item in s.heads && s.heads[r.item] in s.revisions
  {
    var head := s.revisions[s.heads[r.item]];
    r.number <= head.number && (r.number == head.number ==> r.id == s.heads[r.item])
  }

  // What holds as long as the scan sees the whole active set.
  ghost predicate Chains(s: Store)
    requires forall id | id in s.revisions ::
      s.revisions[id].item in s.heads && s.heads[s.revisions[id].item] in s.revisions
  {
    forall id | id in s.revisions :: Follows(s, s.revisions[id]) && BelowHead(s, s.revisions[id])
  }

  lemma BaseIsIndexed(s: Store, d: D.Derivation)
    requires Base(s, d)
    ensures Indexed(s)
    ensures forall id | id in s.revisions ::
      s.revisions[id].item in s.heads && s.heads[s.revisions[id].item] in s.revisions
  {
  }

  // ----- one candidate of a turn not yet ingested -----

  // A new revision carries on its item's chain.
  ghost predicate Continues(s: Store, r: Revision) {
    if r.item in s.heads && s.heads[r.item] in s.revisions
    then r.parents == [s.heads[r.item]] && r.number == s.revisions[s.heads[r.item]].number + 1
    else r.parents == [] && r.number == 1
  }

  lemma {:induction false} ObservedInOrder(s: Store, listed: seq<ItemId>, active: seq<ActiveMemory>, item: ItemId)
    requires |active| == |listed| && forall i | 0 <= i < |active| :: active[i].item.id == listed[i]
    ensures Observed(active, item).Some? <==> item in listed
    ensures item in listed ==> Observed(active, item).value in active && Observed(active, item).value.item.id == item
  {
    if active != [] {
      if active[0].item.id != item {
        ObservedInOrder(s, listed[1..], active[1..], item);
      }
      assert listed == [listed[0]] + listed[1..];
    }
  }

  // Memory observed for an item is its head.
  lemma ObservedIsHead(s: Store, d: D.Derivation, item: ItemId)
    requires Base(s, d) && Indexed(s)
    ensures Observed(Observation(s), item).Some? <==> item in Listed(s)
    ensures item in Listed(s) ==> item in s.heads && Observed(Observation(s), item).value == Memory(s, item)
  {
    hide ItemFits, RevisionFits, D.Distinct;
    var listed, active := Listed(s), Observation(s);
    ObservedInOrder(s, listed, active, item);
    if item in listed {
      var x := Observed(active, item).value;
      var i :| 0 <= i < |active| && active[i] == x;
      assert x == Memory(s, listed[i]);
    }
  }

  // No active memory shares evidence with a turn that has not been ingested.
  lemma FreshEvidence(s: Store, d: D.Derivation, t: Turn, evidence: seq<EvidenceRef>, i: nat)
    requires Base(s, d) && Indexed(s) && OperationOf(t.exportId, d) !in s.operations && i < |Observation(s)|
    requires forall k | 0 <= k < |evidence| :: evidence[k].source == SourceOf(t.exportId)
    ensures !SameEvent(Observation(s)[i].evidence, evidence)
  {
  }

  lemma GroundedSource(t: Turn, c: SemanticCandidate)
    requires CandidateHolds(SourceOf(t.exportId), MessageMap(t), c)
    ensures forall k | 0 <= k < |c.memory.evidence| ::
      Canonical(MessageMap(t), c).memory.evidence[k].source == SourceOf(t.exportId)
    ensures |Canonical(MessageMap(t), c).memory.evidence| == |c.memory.evidence| > 0
  {
  }

  // A candidate of a new turn about an event matches nothing; one about a state matches
  // the observed item of its key and no other.
  lemma FreshMatch(cfg: Config, s: Store, t: Turn, c: SemanticCandidate)
    requires Base(s, cfg.derivation) && Indexed(s) && t.scope == s.scope &&
      OperationOf(t.exportId, cfg.derivation) !in s.operations
    requires Resolves(cfg.version, t, Observation(s), c)
    ensures var r := Resolved(cfg.version, t, Observation(s), c);
      && (c.kind == EventMemory ==>
        r.supersedes.None? && r.item.id.EventItem? && r.item.id.source == SourceOf(t.exportId))
      && (c.kind == StateMemory ==>
        r.item.id.StateItem? && r.item.id.scopeKey == s.scope.key && r.item.key == Some(r.item.id.key))
      && (r.supersedes.Some? ==> r.supersedes.value.id == r.item.id && r.item.id in Listed(s))
      && (r.supersedes.None? ==> r.item.id !in Listed(s))
      && r.revision.source == SourceOf(t.exportId) && r.item.kind == c.kind && r.item.kind != UnknownMemory
      && (forall e | e in r.provenance :: e.source == SourceOf(t.exportId))
  {
    hide ItemFits, RevisionFits, D.Distinct, SemanticPart, SemanticParts, D.ScopeError, ValidEvidenceRefs;
    hide Trim, MessageMap, Canonical, Utf8.SpanFits, ViewFits, OneMatch, MatchOf, Listed, Base, SameEvent;
    var active := Observation(s);
    var canonical := Canonical(MessageMap(t), c);
    var own := OwnItem(cfg.version, t.scope, canonical);
    GroundedSource(t, c);
    CanonicalKeepsKind(t, c);
    MatchMeaning(canonical, own, View(active));
    forall i | 0 <= i < |active| ensures Matches(canonical, own, View(active)[i]) <==>
      active[i].item.id == own.id && c.kind == StateMemory {
      FreshEvidence(s, cfg.derivation, t, canonical.memory.evidence, i);
      KeyIsIdentity(s, cfg.derivation, i);
    }
    forall i | 0 <= i < |active| ensures active[i].item.id == Listed(s)[i] &&
      (own.id.EventItem? ==> active[i].item.id != own.id) {
      KeyIsIdentity(s, cfg.derivation, i);
    }
  }

  lemma CanonicalKeepsKind(t: Turn, c: SemanticCandidate)
    requires CandidateHolds(SourceOf(t.exportId), MessageMap(t), c)
    ensures Canonical(MessageMap(t), c).kind == c.kind && Canonical(MessageMap(t), c).memory.kind == c.memory.kind
  {
  }

  // Among observed items, a memory key is an identity, and event items belong to
  // ingested turns.
  lemma KeyIsIdentity(s: Store, d: D.Derivation, i: nat)
    requires Base(s, d) && Indexed(s) && i < |Observation(s)|
    ensures var item := Observation(s)[i].item;
      && item.id == Listed(s)[i] && (item.key.Some? <==> item.id.StateItem?)
      && (item.key.Some? ==> item.id == StateItem(s.scope.key, item.key.value))
      && (item.id.EventItem? ==> Ingested(s, d, item.id.source))
  {
  }

  // The scan limit decides whether a chain continues: a new turn's revision follows its
  // item's head exactly when the item has no head or is among the first 256 listed. An
  // item beyond them starts again at number one, without a parent.
  lemma ChainContinuesIffListed(cfg: Config, s: Store, t: Turn, c: SemanticCandidate)
    requires Base(s, cfg.derivation) && Indexed(s) && t.scope == s.scope &&
      OperationOf(t.exportId, cfg.derivation) !in s.operations
    requires Resolves(cfg.version, t, Observation(s), c)
    ensures var r := Resolved(cfg.version, t, Observation(s), c);
      Continues(s, RevisionFor(Observation(s), r)) <==> r.item.id in s.heads ==> r.item.id in Listed(s)
    ensures var r := Resolved(cfg.version, t, Observation(s), c);
      r.item.id !in Listed(s) ==>
        RevisionFor(Observation(s), r).number == 1 && RevisionFor(Observation(s), r).parents == []
  {
    hide Base, Resolves, Resolved, Listed, Observation, Observed, Indexed;
    FreshMatch(cfg, s, t, c);
    var r := Resolved(cfg.version, t, Observation(s), c);
    ObservedIsHead(s, cfg.derivation, r.item.id);
    HeadIsStored(s, cfg.derivation);
  }

  lemma HeadIsStored(s: Store, d: D.Derivation)
    requires Base(s, d)
    ensures forall item | item in s.heads ::
      s.heads[item] in s.revisions && s.revisions[s.heads[item]].item == item && item in s.items && item in s.order
  {
  }

  // ----- one turn -----

  datatype Delivery = Delivery(t: Turn, candidates: seq<SemanticCandidate>, order: seq<ItemId>)

  // A turn not committed before, with candidates the processor accepts in this state. The
  // store keeps its listing in an order of its own.
  predicate Enabled(cfg: Config, s: Store, a: Delivery) {
    && Indexed(s) && ValidTurn(a.t) && a.t.scope == s.scope &&
      OperationOf(a.t.exportId, cfg.derivation) !in s.operations
    && |a.candidates| <= D.MAX_CANDIDATE_COUNT
    && Buildable(cfg.version, a.t, s.version, cfg.derivation, Observation(s), a.candidates)
    && D.Distinct(a.order) && Lists(a.order, Apply(s, MutationOf(cfg, s, a), a.order).heads)
  }

  predicate Lists(order: seq<ItemId>, heads: map<ItemId, RevisionId>) {
    (forall item | item in order :: item in heads) && forall item | item in heads :: item in order
  }

  function MutationOf(cfg: Config, s: Store, a: Delivery): Mutation
    requires Indexed(s) && AllResolve(cfg.version, a.t, Observation(s), a.candidates)
  {
    Built(a.t, s.version, cfg.derivation, Observation(s),
      Reconciliations(cfg.version, a.t, Observation(s), a.candidates))
  }

  function Next(cfg: Config, s: Store, a: Delivery): Store
    requires Enabled(cfg, s, a)
  {
    Apply(s, MutationOf(cfg, s, a), a.order)
  }

  // What the commit of a new turn adds, candidate by candidate.
  ghost predicate NewRecords(cfg: Config, s: Store, t: Turn, m: Mutation, i: nat)
    requires i < |m.revisions|
  {
    var r := m.revisions[i];
    && r.id !in s.revisions && r.id.item == r.item && r.id.source == SourceOf(t.exportId) && r.number >= 1
    && ValidEvidenceRefs(r.evidence) && (forall e | e in r.evidence :: e.source == SourceOf(t.exportId))
    && (|s.order| <= MAX_READ ==> Continues(s, r))
    && (r.item in s.heads || exists x :: x in m.items && x.id == r.item)
  }

  ghost predicate NewItem(s: Store, t: Turn, item: Item) {
    && ValidItem(item) && item.scope == s.scope
    && match item.id
       case StateItem(scopeKey, key) => item.kind == StateMemory && scopeKey == s.scope.key && item.key == Some(key)
       case EventItem(_, source, _, _, _, _, _) => item.kind == EventMemory && source == SourceOf(t.exportId)
  }

  // The mutation of an enabled action, as lists with distinct keys.
  ghost predicate Fresh(cfg: Config, s: Store, t: Turn, m: Mutation) {
    && AllUnique(m) && m.operation == OperationOf(t.exportId, cfg.derivation) &&
      m.fingerprint == FingerprintOf(t.exportId, cfg.derivation)
    && m.operation !in s.operations && |m.heads| == |m.revisions|
    && (forall i | 0 <= i < |m.revisions| :: m.heads[i] == Head(m.revisions[i].item, m.revisions[i].id))
    && (forall i | 0 <= i < |m.revisions| :: NewRecords(cfg, s, t, m, i))
    && (forall x | x in m.items :: NewItem(s, t, x) && exists i ::
      0 <= i < |m.revisions| && m.revisions[i].item == x.id)
  }

  lemma CandidateIsFresh(cfg: Config, s: Store, t: Turn, c: SemanticCandidate)
    requires Base(s, cfg.derivation) && Indexed(s) && t.scope == s.scope &&
      OperationOf(t.exportId, cfg.derivation) !in s.operations
    requires Resolves(cfg.version, t, Observation(s), c)
    ensures var r := Resolved(cfg.version, t, Observation(s), c); var v := RevisionFor(Observation(s), r);
      && v.id == r.revision && v.item == r.item.id
      && v.id !in s.revisions && v.id.item == v.item && v.id.source == SourceOf(t.exportId) && v.number >= 1
      && ValidEvidenceRefs(v.evidence) && (forall e | e in v.evidence :: e.source == SourceOf(t.exportId))
      && (|s.order| <= MAX_READ ==> Continues(s, v))
      && (r.action == Create || v.item in s.heads) && (r.action == Create ==> NewItem(s, t, r.item))
  {
    hide Base, Resolves, Resolved, Observation, Observed, Continues, ValidItem, Indexed, ValidEvidenceRefs;
    var r := Resolved(cfg.version, t, Observation(s), c);
    FreshMatch(cfg, s, t, c);
    ResolvedShape(cfg.version, t, Observation(s), c);
    ResolvedAction(cfg.version, t, Observation(s), c);
    ChainContinuesIffListed(cfg, s, t, c);
    ObservedIsHead(s, cfg.derivation, r.item.id);
    HeadIsStored(s, cfg.derivation);
    StoredSourcesAreIngested(s, cfg.derivation);
  }

  lemma ResolvedAction(version: string, t: Turn, active: seq<ActiveMemory>, c: SemanticCandidate)
    requires Resolves(version, t, active, c)
    ensures var r := Resolved(version, t, active, c); r.action == Create <==> r.supersedes.None?
  {
  }

  lemma StoredSourcesAreIngested(s: Store, d: D.Derivation)
    requires Base(s, d)
    ensures forall id | id in s.revisions :: Ingested(s, d, id.source)
  {
  }

  lemma MutationIsFresh(cfg: Config, s: Store, a: Delivery)
    requires Base(s, cfg.derivation) && Enabled(cfg, s, a)
    ensures Fresh(cfg, s, a.t, MutationOf(cfg, s, a))
  {
    hide Base, Resolves, Resolved, Observation, RevisionFor, ValidTurn, Built, D.Distinct, Apply, Continues;
    hide NewItem, DistinctItems, Indexed;
    var m := MutationOf(cfg, s, a);
    var rs := Reconciliations(cfg.version, a.t, Observation(s), a.candidates);
    BuiltShape(a.t, s.version, cfg.derivation, Observation(s), rs);
    BuiltItems(a.t, s.version, cfg.derivation, Observation(s), rs);
    MutationParts(cfg, s, a);
    forall i | 0 <= i < |m.revisions|
      ensures NewRecords(cfg, s, a.t, m, i) && m.heads[i] == Head(m.revisions[i].item, m.revisions[i].id)
      ensures rs[i].action == Create ==> NewItem(s, a.t, rs[i].item)
      ensures m.revisions[i].item == rs[i].item.id
    {
      CandidateIsFresh(cfg, s, a.t, a.candidates[i]);
      assert rs[i].action == Create ==> rs[i].item in m.items;
    }
    forall x | x in m.items ensures NewItem(s, a.t, x) && exists i ::
      0 <= i < |m.revisions| && m.revisions[i].item == x.id {
      var i :| 0 <= i < |rs| && rs[i].item == x && rs[i].action == Create;
      assert m.revisions[i].item == x.id;
    }
  }

  lemma MutationParts(cfg: Config, s: Store, a: Delivery)
    requires Enabled(cfg, s, a)
    ensures var m := MutationOf(cfg, s, a);
      && AllUnique(m) && m.operation == OperationOf(a.t.exportId, cfg.derivation) &&
        m.fingerprint == FingerprintOf(a.t.exportId, cfg.derivation)
      && DistinctItems(Reconciliations(cfg.version, a.t, Observation(s), a.candidates))
      && m.expected == s.version
  {
    hide Resolves, Resolved, Observation, RevisionFor, ValidTurn, Built, D.Distinct, Apply, Indexed;
    BuiltShape(a.t, s.version, cfg.derivation, Observation(s),
      Reconciliations(cfg.version, a.t, Observation(s), a.candidates));
  }

  // ----- a commit keeps the invariant -----

  // The maps after a commit: the new records, and everything else as it was.
  ghost predicate AppliedRevisions(s: Store, m: Mutation, n: Store) {
    && (forall i | 0 <= i < |m.revisions| ::
      m.revisions[i].id in n.revisions && n.revisions[m.revisions[i].id] == m.revisions[i])
    && (forall id | id in n.revisions :: (id in s.revisions && n.revisions[id] == s.revisions[id]) || exists i ::
      0 <= i < |m.revisions| && m.revisions[i].id == id)
    && (forall id | id in s.revisions && (forall i | 0 <= i < |m.revisions| :: m.revisions[i].id != id) ::
      id in n.revisions && n.revisions[id] == s.revisions[id])
  }

  ghost predicate AppliedHeads(s: Store, m: Mutation, n: Store) {
    && (forall i | 0 <= i < |m.revisions| ::
      m.revisions[i].item in n.heads && n.heads[m.revisions[i].item] == m.revisions[i].id)
    && (forall item | item in n.heads :: (item in s.heads && n.heads[item] == s.heads[item]) || exists i ::
      0 <= i < |m.revisions| && m.revisions[i].item == item)
    && (forall item | item in s.heads :: item in n.heads)
  }

  ghost predicate AppliedItems(s: Store, m: Mutation, n: Store) {
    && (forall i | 0 <= i < |m.items| :: m.items[i].id in n.items && n.items[m.items[i].id] == m.items[i])
    && (forall item | item in n.items :: (item in s.items && n.items[item] == s.items[item]) || exists x ::
      x in m.items && x.id == item)
    && (forall item | item in s.items :: item in n.items)
  }

  ghost predicate AppliedOperation(s: Store, m: Mutation, n: Store) {
    && n.scope == s.scope && n.operations.Keys == s.operations.Keys + {m.operation}
    && (forall op | op in s.operations && op != m.operation :: n.operations[op] == s.operations[op])
    && n.operations[m.operation].fingerprint == m.fingerprint
  }

  ghost predicate Applied(s: Store, m: Mutation, n: Store) {
    AppliedRevisions(s, m, n) && AppliedHeads(s, m, n) && AppliedItems(s, m, n) && AppliedOperation(s, m, n)
  }

  lemma ApplyMeaning(s: Store, m: Mutation, order: seq<ItemId>)
    requires AllUnique(m) && |m.heads| == |m.revisions|
    requires forall i | 0 <= i < |m.revisions| :: m.heads[i] == Head(m.revisions[i].item, m.revisions[i].id)
    ensures Applied(s, m, Apply(s, m, order))
  {
    hide D.Distinct, AppliedRevisions, AppliedHeads, AppliedItems, Put;
    ApplyRevisions(s, m, order);
    ApplyHeads(s, m, order);
    ApplyItems(s, m, order);
  }

  lemma ApplyRevisions(s: Store, m: Mutation, order: seq<ItemId>)
    requires D.Distinct(RevisionIds(m))
    ensures AppliedRevisions(s, m, Apply(s, m, order))
  {
    hide D.Distinct, Put;
    PutMeaning(s.revisions, RevisionIds(m), m.revisions);
    assert forall i | 0 <= i < |m.revisions| :: RevisionIds(m)[i] == m.revisions[i].id;
  }

  lemma ApplyHeads(s: Store, m: Mutation, order: seq<ItemId>)
    requires D.Distinct(HeadItems(m)) && |m.heads| == |m.revisions|
    requires forall i | 0 <= i < |m.revisions| :: m.heads[i] == Head(m.revisions[i].item, m.revisions[i].id)
    ensures AppliedHeads(s, m, Apply(s, m, order))
  {
    hide D.Distinct, Put;
    PutMeaning(s.heads, HeadItems(m), HeadRevisions(m));
    assert forall i | 0 <= i < |m.revisions| ::
      HeadItems(m)[i] == m.revisions[i].item && HeadRevisions(m)[i] == m.revisions[i].id;
  }

  lemma ApplyItems(s: Store, m: Mutation, order: seq<ItemId>)
    requires D.Distinct(ItemIds(m))
    ensures AppliedItems(s, m, Apply(s, m, order))
  {
    hide D.Distinct, Put;
    PutMeaning(s.items, ItemIds(m), m.items);
    assert forall i | 0 <= i < |m.items| :: ItemIds(m)[i] == m.items[i].id && m.items[i] in m.items;
    forall item | item in ItemIds(m) ensures exists x :: x in m.items && x.id == item {
      var i :| 0 <= i < |m.items| && ItemIds(m)[i] == item;
      assert m.items[i] in m.items;
    }
  }

  lemma CommitKeepsItems(cfg: Config, s: Store, t: Turn, m: Mutation, n: Store)
    requires Base(s, cfg.derivation) && Fresh(cfg, s, t, m) && Applied(s, m, n)
    ensures n.items.Keys == n.heads.Keys
    ensures forall item | item in n.items :: n.items[item].id == item && ItemFits(n, cfg.derivation, n.items[item])
  {
    hide Base, Fresh, Applied, ItemFits;
    forall item | item in n.items ensures item in n.heads && n.items[item].id == item &&
      ItemFits(n, cfg.derivation, n.items[item]) {
      ItemStaysFit(cfg, s, t, m, n, item);
    }
    forall item | item in n.heads ensures item in n.items {
      HeadHasItem(cfg, s, t, m, n, item);
    }
  }

  lemma ItemStaysFit(cfg: Config, s: Store, t: Turn, m: Mutation, n: Store, item: ItemId)
    requires Base(s, cfg.derivation) && Fresh(cfg, s, t, m) && Applied(s, m, n) && item in n.items
    ensures item in n.heads && n.items[item].id == item && ItemFits(n, cfg.derivation, n.items[item])
  {
    hide AllUnique, Continues, RevisionFits, ValidItem, D.Distinct, AppliedRevisions, NewRecords, Revisions;
    hide OwnFingerprints;
    if x :| x in m.items && x.id == item {
      var k :| 0 <= k < |m.items| && m.items[k] == x;
      assert NewItem(s, t, x);
      var i :| 0 <= i < |m.revisions| && m.revisions[i].item == x.id;
    } else {
      assert ItemFits(s, cfg.derivation, s.items[item]);
    }
  }

  lemma HeadHasItem(cfg: Config, s: Store, t: Turn, m: Mutation, n: Store, item: ItemId)
    requires Base(s, cfg.derivation) && Fresh(cfg, s, t, m) && Applied(s, m, n) && item in n.heads
    ensures item in n.items
  {
    hide AllUnique, Continues, RevisionFits, ItemFits, NewItem, D.Distinct, AppliedRevisions, AppliedOperation;
    hide Revisions, OwnFingerprints;
    if item !in s.heads {
      var i :| 0 <= i < |m.revisions| && m.revisions[i].item == item;
      assert NewRecords(cfg, s, t, m, i);
      var x :| x in m.items && x.id == item;
      var k :| 0 <= k < |m.items| && m.items[k] == x;
    }
  }

  lemma CommitKeepsRevisions(cfg: Config, s: Store, t: Turn, m: Mutation, n: Store)
    requires Base(s, cfg.derivation) && Fresh(cfg, s, t, m) && Applied(s, m, n)
    ensures Revisions(n, cfg.derivation)
    ensures forall item | item in n.heads :: n.heads[item] in n.revisions && n.revisions[n.heads[item]].item == item
  {
    hide Base, Fresh, Applied, RevisionFits;
    forall id | id in n.revisions ensures n.revisions[id].id == id && RevisionFits(n, cfg.derivation, n.revisions[id]) {
      RevisionStaysFit(cfg, s, t, m, n, id);
    }
    forall item | item in n.heads ensures n.heads[item] in n.revisions && n.revisions[n.heads[item]].item == item {
      HeadStaysStored(cfg, s, t, m, n, item);
    }
  }

  lemma RevisionStaysFit(cfg: Config, s: Store, t: Turn, m: Mutation, n: Store, id: RevisionId)
    requires Base(s, cfg.derivation) && Fresh(cfg, s, t, m) && Applied(s, m, n) && id in n.revisions
    ensures n.revisions[id].id == id && RevisionFits(n, cfg.derivation, n.revisions[id])
  {
    hide Base, Fresh, Applied, RevisionFits;
    if i :| 0 <= i < |m.revisions| && m.revisions[i].id == id {
      NewRevisionFits(cfg, s, t, m, n, i);
    } else {
      OldRevisionFits(cfg, s, t, m, n, id);
    }
  }

  lemma NewRevisionFits(cfg: Config, s: Store, t: Turn, m: Mutation, n: Store, i: nat)
    requires Base(s, cfg.derivation) && Fresh(cfg, s, t, m) && Applied(s, m, n) && i < |m.revisions|
    ensures var id := m.revisions[i].id;
      id in n.revisions && n.revisions[id].id == id && RevisionFits(n, cfg.derivation, n.revisions[id])
  {
    hide AllUnique, Continues, ItemFits, NewItem, D.Distinct, AppliedItems, ItemsAndHeads, OwnFingerprints, Revisions;
    assert NewRecords(cfg, s, t, m, i);
  }

  lemma OldRevisionFits(cfg: Config, s: Store, t: Turn, m: Mutation, n: Store, id: RevisionId)
    requires Base(s, cfg.derivation) && Fresh(cfg, s, t, m) && Applied(s, m, n) && id in n.revisions
    requires forall i | 0 <= i < |m.revisions| :: m.revisions[i].id != id
    ensures n.revisions[id].id == id && RevisionFits(n, cfg.derivation, n.revisions[id])
  {
    hide AllUnique, Continues, ItemFits, NewItem, D.Distinct, AppliedItems, ItemsAndHeads, OwnFingerprints, NewRecords;
    assert RevisionFits(s, cfg.derivation, s.revisions[id]);
  }

  lemma HeadStaysStored(cfg: Config, s: Store, t: Turn, m: Mutation, n: Store, item: ItemId)
    requires Base(s, cfg.derivation) && Fresh(cfg, s, t, m) && Applied(s, m, n) && item in n.heads
    ensures n.heads[item] in n.revisions && n.revisions[n.heads[item]].item == item
  {
    hide AllUnique, Continues, ItemFits, NewItem, D.Distinct, AppliedItems, AppliedOperation, Revisions;
    hide OwnFingerprints, NewRecords;
    if i :| 0 <= i < |m.revisions| && m.revisions[i].item == item {
    } else {
      OldRecordsStay(cfg, s, t, m, n, s.heads[item]);
    }
  }

  lemma OldRecordsStay(cfg: Config, s: Store, t: Turn, m: Mutation, n: Store, id: RevisionId)
    requires Fresh(cfg, s, t, m) && Applied(s, m, n) && id in s.revisions
    ensures id in n.revisions && n.revisions[id] == s.revisions[id]
  {
    hide AllUnique, Continues, NewItem, AppliedHeads, AppliedItems, AppliedOperation;
    forall i | 0 <= i < |m.revisions| ensures m.revisions[i].id != id {
      assert NewRecords(cfg, s, t, m, i);
    }
  }

  lemma StepKeepsBase(cfg: Config, s: Store, a: Delivery)
    requires Base(s, cfg.derivation) && Enabled(cfg, s, a)
    ensures Base(Next(cfg, s, a), cfg.derivation) && |Next(cfg, s, a).order| >= |s.order|
  {
    hide ValidTurn, ItemFits, Fresh, Revisions, Applied, Apply, ValidMutation, Built, Resolves, DistinctItems;
    hide D.Distinct, Observation, Indexed;
    var m := MutationOf(cfg, s, a);
    var n := Apply(s, m, a.order);
    MutationIsFresh(cfg, s, a);
    FreshApplies(cfg, s, a.t, m, a.order);
    CommitKeepsItems(cfg, s, a.t, m, n);
    CommitKeepsRevisions(cfg, s, a.t, m, n);
    CommitKeepsFingerprints(cfg, s, a.t, m, n);
    OrderGrows(s.order, n.order, s.heads.Keys, n.heads.Keys);
  }

  lemma FreshApplies(cfg: Config, s: Store, t: Turn, m: Mutation, order: seq<ItemId>)
    requires Fresh(cfg, s, t, m)
    ensures Applied(s, m, Apply(s, m, order)) && Apply(s, m, order).order == order
    ensures forall item | item in s.heads :: item in Apply(s, m, order).heads
  {
    hide NewRecords, NewItem;
    ApplyMeaning(s, m, order);
  }

  lemma CommitKeepsFingerprints(cfg: Config, s: Store, t: Turn, m: Mutation, n: Store)
    requires OwnFingerprints(s) && Fresh(cfg, s, t, m) && Applied(s, m, n)
    ensures OwnFingerprints(n)
  {
  }

  lemma OrderGrows(a: seq<ItemId>, b: seq<ItemId>, x: set<ItemId>, y: set<ItemId>)
    requires D.Distinct(a) && D.Distinct(b) && (forall item :: item in a <==> item in x) &&
      (forall item :: item in b <==> item in y)
    requires x <= y
    ensures |a| <= |b|
  {
    TraceGraphs.DistinctCount(a);
    TraceGraphs.DistinctCount(b);
    assert TraceGraphs.Elements(a) == x && TraceGraphs.Elements(b) == y;
    assert y == x + (y - x);
  }

  ghost predicate Reads(s: Store) {
    forall id | id in s.revisions :: s.revisions[id].item in s.heads && s.heads[s.revisions[id].item] in s.revisions
  }

  lemma CommitKeepsChains(cfg: Config, s: Store, t: Turn, m: Mutation, n: Store)
    requires Base(s, cfg.derivation) && Fresh(cfg, s, t, m) && Applied(s, m, n) && Base(n, cfg.derivation)
    requires Reads(s) && Reads(n) && Chains(s) && |s.order| <= MAX_READ
    ensures Chains(n)
  {
    hide Base, AllUnique, NewItem, Applied, Fresh, Continues, Follows, BelowHead;
    forall id | id in n.revisions ensures Follows(n, n.revisions[id]) && BelowHead(n, n.revisions[id]) {
      RevisionStaysChained(cfg, s, t, m, n, id);
    }
  }

  lemma RevisionStaysChained(cfg: Config, s: Store, t: Turn, m: Mutation, n: Store, id: RevisionId)
    requires Base(s, cfg.derivation) && Fresh(cfg, s, t, m) && Applied(s, m, n) && Base(n, cfg.derivation)
    requires Reads(s) && Reads(n) && Chains(s) && |s.order| <= MAX_READ && id in n.revisions
    ensures Follows(n, n.revisions[id]) && BelowHead(n, n.revisions[id])
  {
    hide Base, Fresh, Applied, BelowHead;
    if IsNew(m, id) {
      var i :| 0 <= i < |m.revisions| && m.revisions[i].id == id;
      NewRevisionIsStored(s, m, n, i);
      NewRevisionFollows(cfg, s, t, m, n, i);
    } else {
      OldRevisionIsStored(s, m, n, id);
      assert Follows(s, s.revisions[id]) && BelowHead(s, s.revisions[id]);
      if |s.revisions[id].parents| == 1 && s.revisions[id].parents[0] in s.revisions {
        OldRecordsStay(cfg, s, t, m, n, s.revisions[id].parents[0]);
      }
      OldRevisionBelow(cfg, s, t, m, n, id);
    }
  }

  ghost predicate IsNew(m: Mutation, id: RevisionId) {
    exists i :: 0 <= i < |m.revisions| && m.revisions[i].id == id
  }

  lemma NewRevisionIsStored(s: Store, m: Mutation, n: Store, i: nat)
    requires Applied(s, m, n) && i < |m.revisions|
    ensures m.revisions[i].id in n.revisions && n.revisions[m.revisions[i].id] == m.revisions[i]
  {
  }

  lemma OldRevisionIsStored(s: Store, m: Mutation, n: Store, id: RevisionId)
    requires Applied(s, m, n) && id in n.revisions && !IsNew(m, id)
    ensures id in s.revisions && n.revisions[id] == s.revisions[id]
  {
  }

  lemma NewRevisionFollows(cfg: Config, s: Store, t: Turn, m: Mutation, n: Store, i: nat)
    requires Base(s, cfg.derivation) && Fresh(cfg, s, t, m) && Applied(s, m, n) && |s.order| <= MAX_READ &&
      i < |m.revisions|
    ensures Follows(n, m.revisions[i]) && m.revisions[i].item in n.heads && n.heads[m.revisions[i].item] in n.revisions
    ensures BelowHead(n, m.revisions[i])
  {
    hide ItemFits, NewItem, D.Distinct, AllUnique, AppliedItems, AppliedOperation;
    var r := m.revisions[i];
    assert NewRecords(cfg, s, t, m, i) && Continues(s, r);
    if r.item in s.heads {
      var head := s.heads[r.item];
      assert head in s.revisions && RevisionFits(s, cfg.derivation, s.revisions[head]);
      OldRecordsStay(cfg, s, t, m, n, head);
    }
  }

  lemma OldRevisionBelow(cfg: Config, s: Store, t: Turn, m: Mutation, n: Store, id: RevisionId)
    requires Base(s, cfg.derivation) && Fresh(cfg, s, t, m) && Applied(s, m, n) && |s.order| <= MAX_READ
    requires id in s.revisions && id in n.revisions && n.revisions[id] == s.revisions[id]
    requires s.revisions[id].item in s.heads && s.heads[s.revisions[id].item] in s.revisions &&
      BelowHead(s, s.revisions[id])
    ensures s.revisions[id].item in n.heads && n.heads[s.revisions[id].item] in n.revisions &&
      BelowHead(n, n.revisions[id])
  {
    hide Base, ItemFits, NewItem, D.Distinct, AllUnique, RevisionFits, AppliedItems, AppliedOperation;
    var item := s.revisions[id].item;
    if i :| 0 <= i < |m.revisions| && m.revisions[i].item == item {
      assert NewRecords(cfg, s, t, m, i) && Continues(s, m.revisions[i]);
    } else {
      OldRecordsStay(cfg, s, t, m, n, s.heads[item]);
    }
  }

  lemma StepKeepsChains(cfg: Config, s: Store, a: Delivery)
    requires Base(s, cfg.derivation) && Enabled(cfg, s, a) && Reads(s) && Chains(s) && |s.order| <= MAX_READ
    ensures Reads(Next(cfg, s, a)) && Chains(Next(cfg, s, a))
  {
    hide Base, Chains, ValidTurn, Fresh, Applied, Apply, ValidMutation, Built, Resolves, DistinctItems;
    hide D.Distinct, Observation, Indexed;
    var m := MutationOf(cfg, s, a);
    StepKeepsBase(cfg, s, a);
    BaseIsIndexed(Next(cfg, s, a), cfg.derivation);
    MutationIsFresh(cfg, s, a);
    FreshApplies(cfg, s, a.t, m, a.order);
    CommitKeepsChains(cfg, s, a.t, m, Next(cfg, s, a));
  }

  // ----- every run -----

  ghost predicate Run(cfg: Config, s: Store, actions: seq<Delivery>, t: Store)
    decreases |actions|
  {
    if actions == [] then s == t else Enabled(cfg, s, actions[0]) && Run(cfg, Next(cfg, s, actions[0]), actions[1..], t)
  }

  ghost predicate Reaches(cfg: Config, s: Store, t: Store) {
    exists actions :: Run(cfg, s, actions, t)
  }

  function EmptyScope(scope: D.Scope): Store {
    Store(scope, 0, 0, map[], map[], map[], [], map[])
  }

  // What commits never undo.
  ghost predicate Extends(s: Store, t: Store) {
    && s.version <= t.version && t.scope == s.scope && (s.version == t.version ==> s == t) && |s.order| <= |t.order|
    && forall op | op in s.operations :: op in t.operations && t.operations[op] == s.operations[op]
  }

  lemma StepExtends(cfg: Config, s: Store, a: Delivery)
    requires Base(s, cfg.derivation) && Enabled(cfg, s, a)
    ensures Extends(s, Next(cfg, s, a)) && OperationOf(a.t.exportId, cfg.derivation) in Next(cfg, s, a).operations
  {
    hide Base, ValidTurn, AllUnique, ValidMutation, Resolves, DistinctItems, D.Distinct, Observation, Indexed;
    hide Put, Built;
    StepKeepsBase(cfg, s, a);
    MutationParts(cfg, s, a);
  }

  lemma {:induction false} RunKeepsBase(cfg: Config, s: Store, actions: seq<Delivery>, t: Store)
    requires Base(s, cfg.derivation) && Run(cfg, s, actions, t)
    ensures Base(t, cfg.derivation) && Extends(s, t)
    decreases |actions|
  {
    hide Base, Enabled, Next;
    if actions != [] {
      StepKeepsBase(cfg, s, actions[0]);
      StepExtends(cfg, s, actions[0]);
      RunKeepsBase(cfg, Next(cfg, s, actions[0]), actions[1..], t);
    }
  }

  lemma {:induction false} RunKeepsChains(cfg: Config, s: Store, actions: seq<Delivery>, t: Store)
    requires Base(s, cfg.derivation) && Reads(s) && Chains(s) && Run(cfg, s, actions, t) && |t.order| <= MAX_READ
    ensures Base(t, cfg.derivation) && Reads(t) && Chains(t)
    decreases |actions|
  {
    hide Base, Chains, Enabled, Next, Reads;
    RunKeepsBase(cfg, s, actions, t);
    if actions != [] {
      StepKeepsBase(cfg, s, actions[0]);
      StepKeepsChains(cfg, s, actions[0]);
      RunKeepsChains(cfg, Next(cfg, s, actions[0]), actions[1..], t);
    }
  }

  lemma {:induction false} RunsJoin(cfg: Config, a: Store, first: seq<Delivery>, b: Store, second: seq<Delivery>,
      c: Store)
    requires Run(cfg, a, first, b) && Run(cfg, b, second, c)
    ensures Run(cfg, a, first + second, c)
    decreases |first|
  {
    hide Enabled, Next;
    if first == [] {
      assert first + second == second;
    } else {
      RunsJoin(cfg, Next(cfg, a, first[0]), first[1..], b, second, c);
      assert (first + second)[1..] == first[1..] + second;
    }
  }

  lemma ReachesSelf(cfg: Config, s: Store)
    ensures Reaches(cfg, s, s)
  {
    assert Run(cfg, s, [], s);
  }

  lemma ReachesTransitive(cfg: Config, a: Store, b: Store, c: Store)
    requires Reaches(cfg, a, b) && Reaches(cfg, b, c)
    ensures Reaches(cfg, a, c)
  {
    hide Run;
    var first :| Run(cfg, a, first, b);
    var second :| Run(cfg, b, second, c);
    RunsJoin(cfg, a, first, b, second, c);
  }

  lemma ReachesStep(cfg: Config, s: Store, a: Delivery)
    requires Enabled(cfg, s, a)
    ensures Reaches(cfg, s, Next(cfg, s, a))
  {
    hide Enabled, Next;
    assert Run(cfg, Next(cfg, s, a), [], Next(cfg, s, a));
    assert Run(cfg, s, [a], Next(cfg, s, a));
  }

  lemma ReachesKeepsBase(cfg: Config, s: Store, t: Store)
    requires Base(s, cfg.derivation) && Reaches(cfg, s, t)
    ensures Base(t, cfg.derivation) && Extends(s, t)
  {
    hide Base, Extends, Run;
    var actions :| Run(cfg, s, actions, t);
    RunKeepsBase(cfg, s, actions, t);
  }

  // ----- what the invariant means -----

  // A revision and its ancestors, newest first.
  ghost function Walk(s: Store, id: RevisionId): seq<RevisionId>
    requires id in s.revisions && forall x | x in s.revisions :: Follows(s, s.revisions[x])
    decreases s.revisions[id].number
  {
    var r := s.revisions[id];
    assert Follows(s, r);
    if r.number == 1 || r.parents == [] then [id] else [id] + Walk(s, r.parents[0])
  }

  lemma {:induction false} WalkCountsDown(s: Store, id: RevisionId)
    requires id in s.revisions && forall x | x in s.revisions ::
      Follows(s, s.revisions[x]) && s.revisions[x].number >= 1
    ensures var walk, r := Walk(s, id), s.revisions[id];
      && |walk| == r.number
      && forall k | 0 <= k < |walk| ::
        walk[k] in s.revisions && s.revisions[walk[k]].item == r.item && s.revisions[walk[k]].number == r.number - k
    decreases s.revisions[id].number
  {
    var r := s.revisions[id];
    assert Follows(s, r);
    if r.number > 1 {
      WalkCountsDown(s, r.parents[0]);
    }
  }

  // In every state a run can reach while the active set fits the scan: each item has one
  // head, no two state items share a memory key, and walking the parents of a head visits
  // the revisions of its item numbered n, n-1, ... 1, each once.
  lemma EveryRunKeepsChains(cfg: Config, scope: D.Scope, actions: seq<Delivery>, t: Store, item: ItemId)
    requires Run(cfg, EmptyScope(scope), actions, t) && |t.order| <= MAX_READ && item in t.heads
    ensures forall x | x in t.revisions :: Follows(t, t.revisions[x])
    ensures t.heads[item] in t.revisions && t.revisions[t.heads[item]].item == item
    ensures var walk, n := Walk(t, t.heads[item]), t.revisions[t.heads[item]].number;
      && |walk| == n && D.Distinct(walk)
      && forall k | 0 <= k < n ::
        walk[k] in t.revisions && t.revisions[walk[k]].item == item && t.revisions[walk[k]].number == n - k
    ensures forall x | x in t.revisions && t.revisions[x].item == item ::
      t.revisions[x].number <= t.revisions[t.heads[item]].number
  {
    hide Run, Base;
    EmptyIsBase(cfg, scope);
    RunKeepsChains(cfg, EmptyScope(scope), actions, t);
    HeadIsStored(t, cfg.derivation);
    NumbersArePositive(t, cfg.derivation);
    WalkCountsDown(t, t.heads[item]);
    forall x | x in t.revisions && t.revisions[x].item == item
      ensures t.revisions[x].number <= t.revisions[t.heads[item]].number {
      assert BelowHead(t, t.revisions[x]);
    }
  }

  lemma EmptyIsBase(cfg: Config, scope: D.Scope)
    ensures Base(EmptyScope(scope), cfg.derivation) && Reads(EmptyScope(scope)) && Chains(EmptyScope(scope))
  {
  }

  lemma NumbersArePositive(s: Store, d: D.Derivation)
    requires Base(s, d)
    ensures forall x | x in s.revisions :: s.revisions[x].number >= 1
  {
  }

  // A memory key names one item, in every run, however large the active set.
  lemma KeysNameOneItem(cfg: Config, scope: D.Scope, actions: seq<Delivery>, t: Store, a: ItemId, b: ItemId)
    requires Run(cfg, EmptyScope(scope), actions, t) && a in t.items && b in t.items
    requires t.items[a].key.Some? && t.items[a].key == t.items[b].key
    ensures a == b
  {
    hide Run, RevisionFits, D.Distinct, D.ScopeError;
    EmptyIsBase(cfg, scope);
    RunKeepsBase(cfg, EmptyScope(scope), actions, t);
    assert ItemFits(t, cfg.derivation, t.items[a]) && ItemFits(t, cfg.derivation, t.items[b]);
  }

  // ----- one effect for each export -----

  ghost predicate Commits(cfg: Config, a: Delivery, op: OperationId) {
    OperationOf(a.t.exportId, cfg.derivation) == op
  }

  // A committed export never changes the scope again, whatever the extractor returns on
  // redelivery.
  lemma {:induction false} CommittedStaysCommitted(cfg: Config, s: Store, actions: seq<Delivery>, t: Store,
      op: OperationId)
    requires Base(s, cfg.derivation) && Run(cfg, s, actions, t) && op in s.operations
    ensures op in t.operations && t.operations[op] == s.operations[op]
    ensures forall i | 0 <= i < |actions| :: !Commits(cfg, actions[i], op)
    decreases |actions|
  {
    hide Base, Next, Indexed, ValidTurn, Buildable, Apply, D.Distinct;
    if actions != [] {
      StepExtends(cfg, s, actions[0]);
      StepKeepsBase(cfg, s, actions[0]);
      CommittedStaysCommitted(cfg, Next(cfg, s, actions[0]), actions[1..], t, op);
    }
  }

  lemma {:induction false} AtMostOnce(cfg: Config, s: Store, actions: seq<Delivery>, t: Store, i: nat, j: nat)
    requires Base(s, cfg.derivation) && Run(cfg, s, actions, t) && i < j < |actions|
    ensures actions[i].t.exportId != actions[j].t.exportId
    decreases |actions|
  {
    hide Base, Next, Enabled;
    StepKeepsBase(cfg, s, actions[0]);
    if i == 0 {
      StepExtends(cfg, s, actions[0]);
      CommittedStaysCommitted(cfg, Next(cfg, s, actions[0]), actions[1..], t,
        OperationOf(actions[0].t.exportId, cfg.derivation));
      assert !Commits(cfg, actions[1..][j - 1], OperationOf(actions[0].t.exportId, cfg.derivation));
    } else {
      AtMostOnce(cfg, Next(cfg, s, actions[0]), actions[1..], t, i - 1, j - 1);
    }
  }

  // The refusal of a reused operation identity is unreachable for the processor: an
  // operation is only ever recorded with the fingerprint of its own export.
  lemma CollisionIsUnreachable(cfg: Config, scope: D.Scope, actions: seq<Delivery>, t: Store, exportId: ExportId)
    requires Run(cfg, EmptyScope(scope), actions, t) && OperationOf(exportId, cfg.derivation) in t.operations
    ensures t.operations[OperationOf(exportId, cfg.derivation)].fingerprint == FingerprintOf(exportId, cfg.derivation)
  {
    hide Run, RevisionFits, ItemFits, D.Distinct;
    EmptyIsBase(cfg, scope);
    RunKeepsBase(cfg, EmptyScope(scope), actions, t);
  }
}
