// CanonicalTurnProcessor.buildCanonicalMutation (canonical_processor.go) and
// CanonicalMutation.Validate (canonical.go, v2.go): one turn and the candidates of an
// untrusted extractor become one bounded mutation.
module TurnMutations {
  import opened Wrappers
  import Text
  import D = Derived
  import Utf8
  import opened Turns
  import opened Reconciler

  const MAX_MUTATION_RECORDS := 512

  // ----- records -----

  datatype OperationId = OperationId(exportId: ExportId, derivation: D.Derivation)
  datatype Fingerprint = Fingerprint(exportId: ExportId, derivation: D.Derivation)

  datatype PayloadId =
    | SourcePayload(source: SourceId)
    | MessagePayload(message: MessageId)
    | RevisionPayload(revision: RevisionId)

  datatype MessageRecord = MessageRecord(id: MessageId, source: SourceId, role: MessageRole)
  datatype Revision = Revision(id: RevisionId, item: ItemId, number: nat, parents: seq<RevisionId>,
      evidence: seq<EvidenceRef>)
  datatype Head = Head(item: ItemId, revision: RevisionId)

  datatype Mutation = Mutation(
    scope: D.Scope, expected: nat, operation: OperationId, fingerprint: Fingerprint, committedAt: int,
      outcome: seq<RevisionId>,
    sources: seq<SourceId>, messages: seq<MessageRecord>, items: seq<Item>, revisions: seq<Revision>,
    lifecycle: seq<LifecycleEvent>, heads: seq<Head>, payloads: seq<PayloadId>)

  // The active view of the processor (ActiveCanonicalMemory).
  datatype ActiveMemory = ActiveMemory(item: Item, revision: RevisionId, number: nat, evidence: seq<EvidenceRef>)

  function View(active: seq<ActiveMemory>): (view: seq<ActiveItem>)
    ensures |view| == |active| && forall i | 0 <= i < |view| ::
      view[i] == ActiveItem(active[i].item, active[i].evidence)
  {
    seq(|active|, i requires 0 <= i < |active| => ActiveItem(active[i].item, active[i].evidence))
  }

  // CanonicalSemanticOperationID and mustCanonicalFingerprint hash the same facts, so an
  // operation identity never meets a foreign fingerprint.
  function OperationOf(exportId: ExportId, d: D.Derivation): OperationId { OperationId(exportId, d) }

  function FingerprintOf(exportId: ExportId, d: D.Derivation): Fingerprint { Fingerprint(exportId, d) }

  // ----- grounding the evidence -----

  // An evidence claim holds if it points into a message of the captured turn.
  predicate EvidenceHolds(source: SourceId, messages: map<MessageId, Message>, e: EvidenceRef) {
    && e.message in messages && e.source == source && e.role == messages[e.message].role
    && SourceIsId(source) && MessageIsId(e.message)
    && Utf8.SpanFits(messages[e.message].text, e.startByte, e.endByte) && Utf8.ModeMatchesRole(e.mode, e.role)
    && (e.digest == NoDigest || e.digest == DigestOf(messages[e.message].text))
  }

  function Grounded(messages: map<MessageId, Message>, e: EvidenceRef): EvidenceRef
    requires e.message in messages
  {
    e.(digest := DigestOf(messages[e.message].text))
  }

  predicate CandidateHolds(source: SourceId, messages: map<MessageId, Message>, c: SemanticCandidate) {
    ValidMemory(c.memory) && forall i | 0 <= i < |c.memory.evidence| ::
      EvidenceHolds(source, messages, c.memory.evidence[i])
  }

  function Canonical(messages: map<MessageId, Message>, c: SemanticCandidate): SemanticCandidate
    requires forall i | 0 <= i < |c.memory.evidence| :: c.memory.evidence[i].message in messages
  {
    var evidence := c.memory.evidence;
    c.(memory := c.memory.(evidence := seq(|evidence|,
      i requires 0 <= i < |evidence| => Grounded(messages, evidence[i]))))
  }

  // canonicalizeCandidate
  method CanonicalizeCandidate(source: SourceId, messages: map<MessageId, Message>, c: SemanticCandidate)
    returns (r: Result<SemanticCandidate>)
    ensures r.Ok? <==> CandidateHolds(source, messages, c)
    ensures r.Ok? ==> r.value == Canonical(messages, c)
  {
    hide ValidEvidenceRefs, Trimmed, Utf8.SpanFits, Utf8.ValidString, Utf8.Boundary, SourceIsId, MessageIsId;
    hide Utf8.ModeMatchesRole;
    var fault := CheckMemory(c.memory);
    if fault.Some? || |c.memory.evidence| == 0 {
      return Err(InvalidDerived);
    }
    var claims := c.memory.evidence;
    var evidence: seq<EvidenceRef> := [];
    while |evidence| < |claims|
      invariant |evidence| <= |claims|
      invariant forall i | 0 <= i < |evidence| ::
        EvidenceHolds(source, messages, claims[i]) && evidence[i] == Grounded(messages, claims[i])
    {
      var e := claims[|evidence|];
      if e.message !in messages || e.source != source || e.role != messages[e.message].role {
        return Err(ScopeViolation);
      }
      var message := messages[e.message];
      Utf8.SpanFitsIff(message.text, e.startByte, e.endByte);
      var ref := Utf8.NewEvidenceRef(text => DigestOf(text), SourceIsId, MessageIsId, source, e.message, message.role,
                                     message.text, e.startByte, e.endByte, e.mode);
      if ref.Err? {
        return Err(ref.code);
      }
      if e.digest != NoDigest && e.digest != ref.value.digest {
        return Err(InvalidDerived);
      }
      evidence := evidence + [ref.value];
    }
    r := Ok(c.(memory := c.memory.(evidence := evidence)));
  }

  // ----- validating a mutation -----

  // validateUniqueCanonicalIDs; modelled identities are canonical by construction.
  method AreUnique<T(==)>(ids: seq<T>) returns (ok: bool)
    ensures ok <==> D.Distinct(ids)
  {
    var seen: set<T> := {};
    var n := 0;
    while n < |ids|
      invariant n <= |ids| && D.Distinct(ids[..n]) && forall x :: x in seen <==> x in ids[..n]
    {
      assert ids[..n + 1] == ids[..n] + [ids[n]];
      if ids[n] in seen {
        var i :| 0 <= i < n && ids[..n][i] == ids[n];
        return false;
      }
      seen := seen + {ids[n]};
      n := n + 1;
    }
    assert ids[..n] == ids;
    ok := true;
  }

  // MemoryRevision.Validate, beyond the rules its parts have passed already.
  predicate ValidRevision(r: Revision) {
    && r.number != 0 && 0 < |r.evidence| <= D.MAX_SOURCES_PER_REVISION && ValidEvidenceRefs(r.evidence)
    && D.Distinct(r.parents) && r.id !in r.parents
  }

  function Records(m: Mutation): nat {
    |m.sources| + |m.messages| + |m.items| + |m.revisions| + |m.lifecycle| + |m.heads| + |m.payloads|
  }

  function MessageIds(m: Mutation): seq<MessageId> {
    seq(|m.messages|, i requires 0 <= i < |m.messages| => m.messages[i].id)
  }

  function ItemIds(m: Mutation): seq<ItemId> {
    seq(|m.items|, i requires 0 <= i < |m.items| => m.items[i].id)
  }

  function RevisionIds(m: Mutation): seq<RevisionId> {
    seq(|m.revisions|, i requires 0 <= i < |m.revisions| => m.revisions[i].id)
  }

  function LifecycleIds(m: Mutation): seq<LifecycleId> {
    seq(|m.lifecycle|, i requires 0 <= i < |m.lifecycle| => m.lifecycle[i].id)
  }

  function HeadItems(m: Mutation): seq<ItemId> {
    seq(|m.heads|, i requires 0 <= i < |m.heads| => m.heads[i].item)
  }

  // Identities are pairwise distinct within each kind of record.
  predicate AllUnique(m: Mutation) {
    && D.Distinct(m.outcome) && D.Distinct(m.sources) && D.Distinct(MessageIds(m)) && D.Distinct(ItemIds(m))
    && D.Distinct(RevisionIds(m)) && D.Distinct(LifecycleIds(m)) && D.Distinct(HeadItems(m)) && D.Distinct(m.payloads)
  }

  predicate ItemsFit(m: Mutation) {
    forall i | 0 <= i < |m.items| :: ValidItem(m.items[i]) && m.items[i].scope == m.scope
  }

  predicate RevisionsFit(m: Mutation) {
    forall i | 0 <= i < |m.revisions| :: ValidRevision(m.revisions[i])
  }

  predicate ValidMutation(m: Mutation) {
    && D.ScopeError(m.scope) == None && m.committedAt != 0 && 0 < Records(m) <= MAX_MUTATION_RECORDS
    && ItemsFit(m) && RevisionsFit(m) && (forall i | 0 <= i < |m.lifecycle| :: m.lifecycle[i].occurredAt != 0)
    && AllUnique(m)
  }

  method CheckRevision(r: Revision) returns (err: Option<Code>)
    ensures err.None? <==> ValidRevision(r)
  {
    hide ValidEvidenceRefs, D.Distinct;
    if r.number == 0 || r.evidence == [] || |r.evidence| > D.MAX_SOURCES_PER_REVISION {
      return Some(InvalidDerived);
    }
    err := CheckEvidenceRefs(r.evidence);
    if err.Some? {
      return;
    }
    var ok := AreUnique(r.parents);
    if !ok || r.id in r.parents {
      return Some(InvalidDerived);
    }
  }

  method CheckItems(m: Mutation) returns (err: Option<Code>)
    ensures err.None? <==> ItemsFit(m)
  {
    hide ValidItem;
    var n := 0;
    while n < |m.items|
      invariant n <= |m.items| && forall i | 0 <= i < n :: ValidItem(m.items[i]) && m.items[i].scope == m.scope
    {
      err := CheckItem(m.items[n]);
      if err.Some? {
        return;
      }
      if m.items[n].scope != m.scope {
        return Some(ScopeViolation);
      }
      n := n + 1;
    }
    err := None;
  }

  method CheckRevisions(m: Mutation) returns (err: Option<Code>)
    ensures err.None? <==> RevisionsFit(m)
  {
    hide ValidRevision;
    var n := 0;
    while n < |m.revisions|
      invariant n <= |m.revisions| && forall i | 0 <= i < n :: ValidRevision(m.revisions[i])
    {
      err := CheckRevision(m.revisions[n]);
      if err.Some? {
        return;
      }
      n := n + 1;
    }
    err := None;
  }

  // CanonicalMutation.Validate. Its checks are independent of each other, so their order
  // does not matter to the verdict.
  method ValidateMutation(m: Mutation) returns (err: Option<Code>)
    ensures err.None? <==> ValidMutation(m)
  {
    hide D.ScopeError, ItemsFit, RevisionsFit, D.Distinct;
    if D.ScopeError(m.scope).Some? {
      return D.ScopeError(m.scope);
    }
    if m.committedAt == 0 || Records(m) == 0 || Records(m) > MAX_MUTATION_RECORDS {
      return Some(InvalidDerived);
    }
    err := CheckItems(m);
    if err.Some? {
      return;
    }
    err := CheckRevisions(m);
    if err.Some? {
      return;
    }
    if exists i | 0 <= i < |m.lifecycle| :: m.lifecycle[i].occurredAt == 0 {
      return Some(InvalidDerived);
    }
    var ok := AreUnique(m.outcome);
    if ok { ok := AreUnique(m.sources); }
    if ok { ok := AreUnique(MessageIds(m)); }
    if ok { ok := AreUnique(ItemIds(m)); }
    if ok { ok := AreUnique(RevisionIds(m)); }
    if ok { ok := AreUnique(LifecycleIds(m)); }
    if ok { ok := AreUnique(HeadItems(m)); }
    if ok { ok := AreUnique(m.payloads); }
    err := if ok then None else Some(InvalidDerived);
  }

  // ----- building the mutation -----

  function MessageMap(t: Turn): (messages: map<MessageId, Message>)
  {
    MessagesUpTo(t, |t.messages|)
  }

  function MessagesUpTo(t: Turn, n: nat): (messages: map<MessageId, Message>)
    requires n <= |t.messages|
  {
    if n == 0 then map[] else MessagesUpTo(t, n - 1)[IdOf(t, t.messages[n - 1]) := t.messages[n - 1]]
  }

  // What a candidate comes to, given the active view.
  predicate Resolves(version: string, t: Turn, active: seq<ActiveMemory>, c: SemanticCandidate) {
    && CandidateHolds(SourceOf(t.exportId), MessageMap(t), c)
    && Reconcilable(version, t.scope, Canonical(MessageMap(t), c), View(active))
  }

  function Resolved(version: string, t: Turn, active: seq<ActiveMemory>, c: SemanticCandidate): Reconciliation
    requires Resolves(version, t, active, c)
  {
    Reconciled(version, t.scope, Canonical(MessageMap(t), c), View(active))
  }

  // activeRevision: the observed revision of an item; the first of several.
  function Observed(active: seq<ActiveMemory>, item: ItemId): Option<ActiveMemory> {
    if active == [] then None
    else if active[0].item.id == item then Some(active[0])
    else Observed(active[1..], item)
  }

  // The revision a reconciled candidate becomes: number one without a parent, or the next
  // after the observed revision it supersedes.
  function RevisionFor(active: seq<ActiveMemory>, r: Reconciliation): Revision {
    var parent := if r.supersedes.None? then None else Observed(active, r.supersedes.value.id);
    if parent.None? then Revision(r.revision, r.item.id, 1, [], r.provenance)
    else Revision(r.revision, r.item.id, parent.value.number + 1, [parent.value.revision], r.provenance)
  }

  predicate AllResolve(version: string, t: Turn, active: seq<ActiveMemory>, candidates: seq<SemanticCandidate>) {
    forall i | 0 <= i < |candidates| :: Resolves(version, t, active, candidates[i])
  }

  function Reconciliations(version: string, t: Turn, active: seq<ActiveMemory>,
      candidates: seq<SemanticCandidate>): (rs: seq<Reconciliation>)
    requires AllResolve(version, t, active, candidates)
    ensures |rs| == |candidates| && forall i | 0 <= i < |rs| :: rs[i] == Resolved(version, t, active, candidates[i])
  {
    seq(|candidates|, i requires 0 <= i < |candidates| => Resolved(version, t, active, candidates[i]))
  }

  predicate DistinctItems(rs: seq<Reconciliation>) {
    forall i, j | 0 <= i < j < |rs| :: rs[i].item.id != rs[j].item.id
  }

  // The records the loop over candidates appends.
  function StartOf(t: Turn, expected: nat, d: D.Derivation): Mutation {
    Mutation(
      t.scope, expected, OperationOf(t.exportId, d), FingerprintOf(t.exportId, d), t.completedAt, [],
      [SourceOf(t.exportId)],
      seq(|t.messages|, i requires 0 <= i < |t.messages| => MessageRecord(IdOf(t, t.messages[i]),
        SourceOf(t.exportId), t.messages[i].role)),
      [], [], [], [],
      [SourcePayload(SourceOf(t.exportId))] + seq(|t.messages|,
        i requires 0 <= i < |t.messages| => MessagePayload(IdOf(t, t.messages[i]))))
  }

  function Extended(m: Mutation, active: seq<ActiveMemory>, r: Reconciliation): Mutation {
    m.(outcome := m.outcome + [r.revision],
       items := if r.action == Create then m.items + [r.item] else m.items,
       revisions := m.revisions + [RevisionFor(active, r)],
       lifecycle := m.lifecycle + [r.lifecycle],
       heads := m.heads + [Head(r.item.id, r.revision)],
       payloads := m.payloads + [RevisionPayload(r.revision)])
  }

  function Built(t: Turn, expected: nat, d: D.Derivation, active: seq<ActiveMemory>,
      rs: seq<Reconciliation>): Mutation {
    if rs == [] then StartOf(t, expected, d) else Extended(Built(t, expected, d, active, rs[..|rs| - 1]), active,
      rs[|rs| - 1])
  }

  // ----- what was built -----

  // The records of a built mutation, position by position.
  lemma {:induction false} BuiltShape(t: Turn, expected: nat, d: D.Derivation, active: seq<ActiveMemory>,
      rs: seq<Reconciliation>)
    ensures var m := Built(t, expected, d, active, rs);
      && |m.outcome| == |m.revisions| == |m.lifecycle| == |m.heads| == |rs| && |m.items| <= |rs|
      && (forall i | 0 <= i < |rs| :: m.outcome[i] == rs[i].revision && m.revisions[i] == RevisionFor(active, rs[i])
            && m.lifecycle[i] == rs[i].lifecycle && m.heads[i] == Head(rs[i].item.id, rs[i].revision))
    ensures var m, base := Built(t, expected, d, active, rs), StartOf(t, expected, d);
      && m == base.(outcome := m.outcome, items := m.items, revisions := m.revisions, lifecycle := m.lifecycle,
                    heads := m.heads, payloads := m.payloads)
      && |m.payloads| == |base.payloads| + |rs| && m.payloads[..|base.payloads|] == base.payloads
      && (forall i | 0 <= i < |rs| :: m.payloads[|base.payloads| + i] == RevisionPayload(rs[i].revision))
  {
    StartIsBare(t, expected, d);
    hide RevisionFor, IdOf, StartOf;
    if rs != [] {
      BuiltShape(t, expected, d, active, rs[..|rs| - 1]);
    }
  }

  lemma StartIsBare(t: Turn, expected: nat, d: D.Derivation)
    ensures var m := StartOf(t, expected, d);
      m.outcome == [] && m.items == [] && m.revisions == [] && m.lifecycle == [] && m.heads == []
  {
  }

  // The created items are those of the candidates without a match, in order.
  lemma {:induction false} BuiltItems(t: Turn, expected: nat, d: D.Derivation, active: seq<ActiveMemory>,
      rs: seq<Reconciliation>)
    requires DistinctItems(rs)
    ensures var m := Built(t, expected, d, active, rs);
      && D.Distinct(ItemIds(m))
      && (forall x | x in m.items :: exists i :: 0 <= i < |rs| && rs[i].item == x && rs[i].action == Create)
      && (forall i | 0 <= i < |rs| && rs[i].action == Create :: rs[i].item in m.items)
  {
    hide RevisionFor, StartOf;
    if rs != [] {
      var n := |rs| - 1;
      BuiltItems(t, expected, d, active, rs[..n]);
      ItemAppended(Built(t, expected, d, active, rs[..n]), active, rs, n);
    } else {
      assert Built(t, expected, d, active, rs).items == [] by { StartIsBare(t, expected, d); }
    }
  }

  lemma ItemAppended(m: Mutation, active: seq<ActiveMemory>, rs: seq<Reconciliation>, n: nat)
    requires n < |rs| && n + 1 == |rs| && DistinctItems(rs) && D.Distinct(ItemIds(m))
    requires forall x | x in m.items :: exists i :: 0 <= i < n && rs[..n][i].item == x && rs[..n][i].action == Create
    requires forall i | 0 <= i < n && rs[..n][i].action == Create :: rs[..n][i].item in m.items
    ensures var e := Extended(m, active, rs[n]);
      && D.Distinct(ItemIds(e))
      && (forall x | x in e.items :: exists i :: 0 <= i < |rs| && rs[i].item == x && rs[i].action == Create)
      && (forall i | 0 <= i < |rs| && rs[i].action == Create :: rs[i].item in e.items)
  {
    hide RevisionFor;
    var e := Extended(m, active, rs[n]);
    forall x | x in e.items ensures exists i :: 0 <= i < |rs| && rs[i].item == x && rs[i].action == Create {
      if x in m.items {
        var i :| 0 <= i < n && rs[..n][i].item == x && rs[..n][i].action == Create;
        assert rs[i].item == x;
      } else {
        assert rs[n].item == x;
      }
    }
    forall i | 0 <= i < |rs| && rs[i].action == Create ensures rs[i].item in e.items {
      if i < n { assert rs[..n][i] == rs[i]; }
    }
    if rs[n].action == Create {
      forall k | 0 <= k < |m.items| ensures m.items[k].id != rs[n].item.id {
        assert m.items[k] in m.items;
        var i :| 0 <= i < n && rs[..n][i].item == m.items[k] && rs[..n][i].action == Create;
        assert rs[i].item == m.items[k];
      }
      forall i, j | 0 <= i < j < |ItemIds(e)| ensures ItemIds(e)[i] != ItemIds(e)[j] {
        if j < |m.items| { assert ItemIds(m)[i] == ItemIds(e)[i] && ItemIds(m)[j] == ItemIds(e)[j]; }
      }
    }
  }

  // A candidate's revision belongs to its own item, and its lifecycle event to it.
  lemma ResolvedShape(version: string, t: Turn, active: seq<ActiveMemory>, c: SemanticCandidate)
    requires Resolves(version, t, active, c)
    ensures var r := Resolved(version, t, active, c);
      && r.revision.item == r.item.id && r.lifecycle.id == LifecycleId(r.revision, r.action) &&
        r.lifecycle.occurredAt != 0
      && ValidItem(r.item) && r.item.scope == t.scope
      && 0 < |r.provenance| <= D.MAX_SOURCES_PER_REVISION && ValidEvidenceRefs(r.provenance)
  {
  }

  // At most 198 records: one source, 18 messages, 51 payloads and four or five records a
  // candidate. The limit of 512 is never reached.
  lemma BuiltIsBounded(t: Turn, expected: nat, d: D.Derivation, active: seq<ActiveMemory>, rs: seq<Reconciliation>)
    requires ValidMessages(t) && |rs| <= D.MAX_CANDIDATE_COUNT
    ensures 0 < Records(Built(t, expected, d, active, rs)) <= 198
  {
    hide Built, RevisionFor;
    ValidTurnIsBounded(t);
    BuiltShape(t, expected, d, active, rs);
  }

  lemma BuiltIsUnique(t: Turn, expected: nat, d: D.Derivation, active: seq<ActiveMemory>, rs: seq<Reconciliation>)
    requires ValidMessages(t) && DistinctItems(rs)
    requires forall i | 0 <= i < |rs| ::
      rs[i].revision.item == rs[i].item.id && rs[i].lifecycle.id == LifecycleId(rs[i].revision, rs[i].action)
    ensures AllUnique(Built(t, expected, d, active, rs))
  {
    hide Built, RevisionFor, ValidMessages;
    var m, base := Built(t, expected, d, active, rs), StartOf(t, expected, d);
    BuiltShape(t, expected, d, active, rs);
    BuiltItems(t, expected, d, active, rs);
    RevisionIdsMatch(active, rs, m);
    MessagesAreUnique(t, expected, d);
    PayloadsAreUnique(base.payloads, rs, m.payloads);
  }

  lemma RevisionIdsMatch(active: seq<ActiveMemory>, rs: seq<Reconciliation>, m: Mutation)
    requires |m.revisions| == |rs| && forall i | 0 <= i < |rs| :: m.revisions[i] == RevisionFor(active, rs[i])
    ensures forall i | 0 <= i < |rs| :: RevisionIds(m)[i] == rs[i].revision
  {
  }

  lemma MessagesAreUnique(t: Turn, expected: nat, d: D.Derivation)
    requires ValidMessages(t)
    ensures D.Distinct(MessageIds(StartOf(t, expected, d))) && D.Distinct(StartOf(t, expected, d).payloads)
    ensures forall p | p in StartOf(t, expected, d).payloads :: !p.RevisionPayload?
  {
    hide ValidMessages;
    ValidTurnIsBounded(t);
  }

  lemma PayloadsAreUnique(base: seq<PayloadId>, rs: seq<Reconciliation>, payloads: seq<PayloadId>)
    requires D.Distinct(base) && forall p | p in base :: !p.RevisionPayload?
    requires DistinctItems(rs) && forall i | 0 <= i < |rs| :: rs[i].revision.item == rs[i].item.id
    requires |payloads| == |base| + |rs| && payloads[..|base|] == base
    requires forall i | 0 <= i < |rs| :: payloads[|base| + i] == RevisionPayload(rs[i].revision)
    ensures D.Distinct(payloads)
  {
    forall i, j | 0 <= i < j < |payloads| ensures payloads[i] != payloads[j] {
      if i < |base| { assert payloads[..|base|][i] == payloads[i] && base[i] in base; }
      if j < |base| { assert payloads[..|base|][j] == payloads[j]; }
      if i >= |base| {
        assert payloads[|base| + (i - |base|)] == RevisionPayload(rs[i - |base|].revision);
        assert payloads[|base| + (j - |base|)] == RevisionPayload(rs[j - |base|].revision);
      }
      if j >= |base| { assert payloads[|base| + (j - |base|)] == RevisionPayload(rs[j - |base|].revision); }
    }
  }

  predicate OwnParent(active: seq<ActiveMemory>, r: Reconciliation) {
    r.revision in RevisionFor(active, r).parents
  }

  lemma RevisionIsValid(active: seq<ActiveMemory>, r: Reconciliation)
    requires 0 < |r.provenance| <= D.MAX_SOURCES_PER_REVISION && ValidEvidenceRefs(r.provenance)
    ensures ValidRevision(RevisionFor(active, r)) <==> !OwnParent(active, r)
  {
  }

  // Every mutation built from a valid turn and distinct, grounded candidates passes its
  // validation, with one exception: a candidate that repeats the very revision it
  // supersedes, which only a redelivered turn can produce.
  lemma BuiltIsValidUnlessRepeated(
    version: string, t: Turn, expected: nat, d: D.Derivation, active: seq<ActiveMemory>,
      candidates: seq<SemanticCandidate>)
    requires ValidTurn(t) && |candidates| <= D.MAX_CANDIDATE_COUNT && AllResolve(version, t, active, candidates)
    requires DistinctItems(Reconciliations(version, t, active, candidates))
    ensures var rs := Reconciliations(version, t, active, candidates);
      ValidMutation(Built(t, expected, d, active, rs)) <==> forall i | 0 <= i < |rs| :: !OwnParent(active, rs[i])
  {
    hide ValidMessages, Built, RevisionFor, AllUnique, Resolves, Resolved, D.ScopeError, ValidRevision;
    hide ValidItem, OwnParent, ValidEvidenceRefs;
    var rs := Reconciliations(version, t, active, candidates);
    var m := Built(t, expected, d, active, rs);
    forall i | 0 <= i < |rs|
      ensures rs[i].revision.item == rs[i].item.id && rs[i].lifecycle.id == LifecycleId(rs[i].revision, rs[i].action)
      ensures rs[i].lifecycle.occurredAt != 0 && ValidItem(rs[i].item) && rs[i].item.scope == t.scope
      ensures ValidRevision(RevisionFor(active, rs[i])) <==> !OwnParent(active, rs[i])
    {
      ResolvedShape(version, t, active, candidates[i]);
      RevisionIsValid(active, rs[i]);
    }
    TurnParts(t);
    BuiltShape(t, expected, d, active, rs);
    BuiltItems(t, expected, d, active, rs);
    BuiltIsBounded(t, expected, d, active, rs);
    BuiltIsUnique(t, expected, d, active, rs);
    assert ItemsFit(m) by {
      forall i | 0 <= i < |m.items| ensures ValidItem(m.items[i]) && m.items[i].scope == m.scope {
        assert m.items[i] in m.items;
      }
    }
  }

  lemma TurnParts(t: Turn)
    requires ValidTurn(t)
    ensures D.ScopeError(t.scope) == None && t.completedAt != 0 && ValidMessages(t)
  {
  }

  // ----- buildCanonicalMutation -----

  predicate Buildable(version: string, t: Turn, expected: nat, d: D.Derivation, active: seq<ActiveMemory>,
      candidates: seq<SemanticCandidate>) {
    && AllResolve(version, t, active, candidates)
    && DistinctItems(Reconciliations(version, t, active, candidates))
    && ValidMutation(Built(t, expected, d, active, Reconciliations(version, t, active, candidates)))
  }

  // The message loop. A valid turn has no message twice, so the test for it never fires.
  method CollectMessages(t: Turn, expected: nat, d: D.Derivation)
      returns (messages: map<MessageId, Message>, m: Mutation)
    requires ValidMessages(t)
    ensures messages == MessageMap(t) && m == StartOf(t, expected, d)
  {
    hide ValidMessages, IdOf, StartOf;
    ValidTurnIsBounded(t);
    var source := SourceOf(t.exportId);
    messages := map[];
    var records: seq<MessageRecord>, payloads: seq<PayloadId> := [], [SourcePayload(source)];
    var n := 0;
    while n < |t.messages|
      invariant n <= |t.messages| && messages == MessagesUpTo(t, n)
      invariant forall id :: id in messages <==> exists i :: 0 <= i < n && IdOf(t, t.messages[i]) == id
      invariant |records| == n && forall i | 0 <= i < n ::
        records[i] == MessageRecord(IdOf(t, t.messages[i]), source, t.messages[i].role)
      invariant |payloads| == n + 1 && payloads[0] == SourcePayload(source)
      invariant forall i | 0 <= i < n :: payloads[i + 1] == MessagePayload(IdOf(t, t.messages[i]))
    {
      var message := t.messages[n];
      var id := IdOf(t, message);
      if id in messages {
        assert false;
      }
      messages := messages[id := message];
      records := records + [MessageRecord(id, source, message.role)];
      payloads := payloads + [MessagePayload(id)];
      n := n + 1;
    }
    m := StartOf(t, expected, d).(messages := records, payloads := payloads);
    StartHolds(t, expected, d, records, payloads);
  }

  lemma StartHolds(t: Turn, expected: nat, d: D.Derivation, records: seq<MessageRecord>, payloads: seq<PayloadId>)
    requires |records| == |t.messages| && forall i | 0 <= i < |records| ::
      records[i] == MessageRecord(IdOf(t, t.messages[i]), SourceOf(t.exportId), t.messages[i].role)
    requires |payloads| == |t.messages| + 1 && payloads[0] == SourcePayload(SourceOf(t.exportId))
    requires forall i | 0 <= i < |t.messages| :: payloads[i + 1] == MessagePayload(IdOf(t, t.messages[i]))
    ensures records == StartOf(t, expected, d).messages && payloads == StartOf(t, expected, d).payloads
  {
    hide IdOf;
    assert forall i | 0 < i < |payloads| :: payloads[i] == StartOf(t, expected, d).payloads[i];
  }

  // The reconciler's choice always comes from the view it was given.
  lemma SupersededIsObserved(version: string, t: Turn, active: seq<ActiveMemory>, c: SemanticCandidate)
    requires Resolves(version, t, active, c) && Resolved(version, t, active, c).supersedes.Some?
    ensures Observed(active, Resolved(version, t, active, c).supersedes.value.id).Some?
  {
    hide Utf8.SpanFits, ValidEvidenceRefs, Trim, MessagesUpTo, SemanticPart, SemanticParts, OneMatch, ViewFits;
    hide MatchOf, OwnItem, Matches, D.ScopeError;
    var canonical := Canonical(MessageMap(t), c);
    var own := OwnItem(version, t.scope, canonical);
    MatchMeaning(canonical, own, View(active));
    var i :| 0 <= i < |active| && View(active)[i].item == Resolved(version, t, active, c).supersedes.value;
    ObservedFinds(active, i);
  }

  lemma {:induction false} ObservedFinds(active: seq<ActiveMemory>, i: nat)
    requires i < |active|
    ensures Observed(active, active[i].item.id).Some?
  {
    if i > 0 {
      ObservedFinds(active[1..], i - 1);
      assert active[1..][i - 1] == active[i];
    }
  }

  lemma {:induction false} ObservedIsThere(active: seq<ActiveMemory>, item: ItemId)
    requires Observed(active, item).Some?
    ensures Observed(active, item).value in active && Observed(active, item).value.item.id == item
  {
    if active[0].item.id != item { ObservedIsThere(active[1..], item); }
  }

  // activeRevision
  method ActiveRevision(active: seq<ActiveMemory>, item: Option<Item>) returns (r: Result<(Option<RevisionId>, nat)>)
    ensures r.Err? <==> item.Some? && Observed(active, item.value.id).None?
    ensures r.Ok? ==> r.value == if item.None? then (None, 1)
      else (Some(Observed(active, item.value.id).value.revision), Observed(active, item.value.id).value.number + 1)
  {
    if item.None? {
      return Ok((None, 1));
    }
    var n := 0;
    while n < |active|
      invariant n <= |active| && Observed(active[n..], item.value.id) == Observed(active, item.value.id)
    {
      if active[n].item.id == item.value.id {
        return Ok((Some(active[n].revision), active[n].number + 1));
      }
      assert active[n..][1..] == active[n + 1..];
      n := n + 1;
    }
    r := Err(StoreFailure);
  }

  // One turn of the loop over candidates.
  method ResolveCandidate(version: string, t: Turn, messages: map<MessageId, Message>, active: seq<ActiveMemory>,
      c: SemanticCandidate)
    returns (r: Result<(Reconciliation, Revision)>)
    requires messages == MessageMap(t)
    ensures r.Ok? <==> Resolves(version, t, active, c)
    ensures r.Ok? ==> r.value == (Resolved(version, t, active, c), RevisionFor(active, Resolved(version, t, active, c)))
  {
    hide CandidateHolds, Canonical, Reconcilable, Reconciled, Observed, MessagesUpTo;
    var canonical := CanonicalizeCandidate(SourceOf(t.exportId), messages, c);
    if canonical.Err? {
      return Err(canonical.code);
    }
    var reconciled := ReconcileActive(version, t.scope, canonical.value, View(active));
    if reconciled.Err? {
      return Err(reconciled.code);
    }
    var x := reconciled.value;
    if x.supersedes.Some? { SupersededIsObserved(version, t, active, c); }
    var parent := ActiveRevision(active, x.supersedes);
    if parent.Err? {
      assert false;
    }
    var parents := if parent.value.0.Some? then [parent.value.0.value] else [];
    r := Ok((x, Revision(x.revision, x.item.id, parent.value.1, parents, x.provenance)));
  }

  lemma BuiltStep(t: Turn, expected: nat, d: D.Derivation, active: seq<ActiveMemory>, rs: seq<Reconciliation>,
      r: Reconciliation)
    ensures Built(t, expected, d, active, rs + [r]) == Extended(Built(t, expected, d, active, rs), active, r)
  {
  }

  // The candidates must concern different items; different items have different
  // revisions, so the test for a repeated revision never fires.
  method BuildMutation(version: string, t: Turn, expected: nat, d: D.Derivation, active: seq<ActiveMemory>,
      candidates: seq<SemanticCandidate>)
    returns (r: Result<Mutation>)
    requires ValidMessages(t)
    ensures r.Ok? <==> Buildable(version, t, expected, d, active, candidates)
    ensures r.Ok? ==> r.value == Built(t, expected, d, active, Reconciliations(version, t, active, candidates))
  {
    hide ValidMessages, Resolves, Resolved, RevisionFor, ValidMutation, StartOf, MessageMap, Built;
    var messages, m := CollectMessages(t, expected, d);
    var items: set<ItemId>, revisions: set<RevisionId> := {}, {};
    ghost var rs: seq<Reconciliation> := [];
    assert Built(t, expected, d, active, []) == m by { BuiltFromNothing(t, expected, d, active); }
    var n := 0;
    while n < |candidates|
      invariant n == |rs| <= |candidates| && m == Built(t, expected, d, active, rs)
      invariant forall i | 0 <= i < n ::
        Resolves(version, t, active, candidates[i]) && rs[i] == Resolved(version, t, active, candidates[i])
      invariant forall i | 0 <= i < n :: rs[i].revision.item == rs[i].item.id
      invariant forall i | 0 <= i < n :: rs[i].item.id in items
      invariant forall id | id in items :: exists i :: 0 <= i < n && rs[i].item.id == id
      invariant forall id | id in revisions :: id.item in items
      invariant DistinctItems(rs)
    {
      var resolved := ResolveCandidate(version, t, messages, active, candidates[n]);
      if resolved.Err? {
        return Err(resolved.code);
      }
      var (x, revision) := resolved.value;
      ResolvedShape(version, t, active, candidates[n]);
      if x.item.id in items {
        RepeatedItem(version, t, active, candidates, rs, n);
        return Err(InvalidDerived);
      }
      if x.revision in revisions {
        assert false;
      }
      items, revisions := items + {x.item.id}, revisions + {x.revision};
      BuiltStep(t, expected, d, active, rs, x);
      m := m.(outcome := m.outcome + [x.revision],
              items := if x.action == Create then m.items + [x.item] else m.items,
              revisions := m.revisions + [revision],
              lifecycle := m.lifecycle + [x.lifecycle],
              heads := m.heads + [Head(x.item.id, x.revision)],
              payloads := m.payloads + [RevisionPayload(x.revision)]);
      rs := rs + [x];
      n := n + 1;
    }
    assert rs == Reconciliations(version, t, active, candidates);
    var fault := ValidateMutation(m);
    r := if fault.Some? then Err(fault.value) else Ok(m);
  }

  lemma BuiltFromNothing(t: Turn, expected: nat, d: D.Derivation, active: seq<ActiveMemory>)
    ensures Built(t, expected, d, active, []) == StartOf(t, expected, d)
  {
  }

  lemma RepeatedItem(version: string, t: Turn, active: seq<ActiveMemory>, candidates: seq<SemanticCandidate>,
      rs: seq<Reconciliation>, n: nat)
    requires n == |rs| < |candidates| && Resolves(version, t, active, candidates[n])
    requires forall i | 0 <= i < n ::
      Resolves(version, t, active, candidates[i]) && rs[i] == Resolved(version, t, active, candidates[i])
    requires exists i :: 0 <= i < n && rs[i].item.id == Resolved(version, t, active, candidates[n]).item.id
    ensures AllResolve(version, t, active, candidates) ==>
      !DistinctItems(Reconciliations(version, t, active, candidates))
  {
  }
}
