// What one turn leaves in the scope, said of the candidates themselves (reconciler.go,
// ReconcileActive; canonical_processor.go, buildCanonicalMutation): each statement, message
// and piece of evidence under the item the candidate is about, and nothing else.
module TurnRecords {
  import opened Wrappers
  import D = Derived
  import Text
  import Utf8
  import opened Turns
  import opened Reconciler
  import opened TurnMutations
  import opened TurnStore
  import opened TurnRedelivery
  import opened TurnLog

  // ----- the item a candidate is about -----

  // The words of a part in lower case, with one blank between them.
  function Folded(part: string): string {
    Lower(Text.Normalize(part))
  }

  function AllFolded(parts: seq<string>): (folded: seq<string>)
    ensures |folded| == |parts| && forall i | 0 <= i < |parts| :: folded[i] == Folded(parts[i])
  {
    seq(|parts|, i requires 0 <= i < |parts| => Folded(parts[i]))
  }

  // A state is named by its key, an event by the first message it rests on and its time.
  function NameOf(version: string, t: Turn, c: SemanticCandidate): ItemId
    requires c.memory.evidence != []
  {
    var subject, attribute, qualifiers := Folded(c.subject), Folded(c.attribute), JoinNul(AllFolded(c.qualifiers));
    if c.kind == StateMemory
    then StateItem(t.scope.key, MemoryKey(version, t.scope.key, subject, attribute, qualifiers))
    else EventItem(t.scope.key, SourceOf(t.exportId), c.memory.evidence[0].message, c.memory.temporal.eventAt,
                   subject, attribute, qualifiers)
  }

  function NewItemOf(version: string, t: Turn, c: SemanticCandidate): Item
    requires c.memory.evidence != []
  {
    var name := NameOf(version, t, c);
    Item(name, t.scope, c.kind, if name.StateItem? then Some(name.key) else None)
  }

  // The same words up to case.
  ghost predicate SameFold(a: string, b: string) {
    exists words, other :: Text.Spells(a, words) && Text.Spells(b, other) && SameWords(words, other)
  }

  lemma FoldedIff(a: string, b: string)
    ensures Folded(a) == Folded(b) <==> SameFold(a, b)
  {
    Text.FieldsIff(a, Text.Fields(a));
    Text.FieldsIff(b, Text.Fields(b));
    FoldIff(a, b, Text.Fields(a), Text.Fields(b));
    if words, other :| Text.Spells(a, words) && Text.Spells(b, other) && SameWords(words, other) {
      FoldIff(a, b, words, other);
    }
  }

  // Two state candidates with the same qualifiers are about one item exactly when subject and
  // attribute have the same words, however spaced and in whichever case.
  lemma SameStateIff(version: string, t: Turn, c: SemanticCandidate, d: SemanticCandidate)
    requires c.kind == d.kind == StateMemory && c.memory.evidence != [] && d.memory.evidence != []
    requires c.qualifiers == d.qualifiers
    ensures NameOf(version, t, c) == NameOf(version, t, d) <==>
      SameFold(c.subject, d.subject) && SameFold(c.attribute, d.attribute)
  {
    hide Folded, SameFold, JoinNul, AllFolded;
    FoldedIff(c.subject, d.subject);
    FoldedIff(c.attribute, d.attribute);
  }

  // The listed item it replaces the head of: the state of its name, or the event that rests
  // on a message it cites.
  ghost predicate Replaces(version: string, s: Store, t: Turn, c: SemanticCandidate, item: ItemId)
    requires c.memory.evidence != []
  {
    && item in Listed(s)
    && if c.kind == StateMemory then item == NameOf(version, t, c) else SharesMessage(s, item, c.memory.evidence)
  }

  // ----- what is recorded of it -----

  // A claim as it stands, with the digest of the message it points into.
  ghost predicate GroundsClaim(t: Turn, claim: EvidenceRef, e: EvidenceRef) {
    exists k :: 0 <= k < |t.messages| && CapturedAs(t, k, claim, e)
  }

  ghost predicate CapturedAs(t: Turn, k: nat, claim: EvidenceRef, e: EvidenceRef)
    requires k < |t.messages|
  {
    var m := t.messages[k];
    && claim.message == IdOf(t, m) && claim.source == SourceOf(t.exportId) && claim.role == m.role
    && e == Utf8.EvidenceRef(SourceOf(t.exportId), IdOf(t, m), m.role, claim.startByte, claim.endByte, claim.mode,
                             DigestOf(m.text))
  }

  ghost predicate GroundsClaims(t: Turn, claims: seq<EvidenceRef>, evidence: seq<EvidenceRef>) {
    |evidence| == |claims| && forall i | 0 <= i < |claims| :: GroundsClaim(t, claims[i], evidence[i])
  }

  // The revision records this candidate in this scope.
  ghost predicate RecordsCandidate(version: string, s: Store, t: Turn, c: SemanticCandidate, r: Revision)
    requires Indexed(s) && c.memory.evidence != []
  {
    && r.id == RevisionId(r.item, SourceOf(t.exportId), c.memory.evidence[0].message, c.memory.statement)
    && GroundsClaims(t, c.memory.evidence, r.evidence)
    && (forall item | Replaces(version, s, t, c, item) ::
      && item in s.order && r.item == item && r.parents == [s.heads[item]]
      && r.number == s.revisions[s.heads[item]].number + 1)
    && ((forall item :: !Replaces(version, s, t, c, item)) ==>
      r.item == NameOf(version, t, c) && r.parents == [] && r.number == 1)
  }

  // ----- reconciling says it -----

  lemma {:induction false} PartsAreFolded(parts: seq<string>)
    requires SemanticParts(parts).Some?
    ensures SemanticParts(parts).value == AllFolded(parts)
  {
    hide Text.Normalize, Lower;
    if parts != [] {
      var n := |parts| - 1;
      PartsAreFolded(parts[..n]);
      assert AllFolded(parts) == AllFolded(parts[..n]) + [Folded(parts[n])];
    }
  }

  lemma OwnIsNamed(version: string, t: Turn, c: SemanticCandidate)
    requires WellFormed(version, t, c)
    ensures c.memory.evidence != [] && OwnId(version, t, c) == NameOf(version, t, c)
    ensures OwnItem(version, t.scope, Canonical(MessageMap(t), c)) == NewItemOf(version, t, c)
    ensures c.memory.evidence[0].source == SourceOf(t.exportId)
  {
    KindIsKnown(version, t, c);
    WellFormedParts(version, t, c);
    CanonicalShape(t, c);
    FirstIsOwn(version, t, c);
    hide WellFormed, CandidateHolds, Canonical, MessageMap, Text.Normalize, Lower, JoinNul;
    PartsAreFolded(c.qualifiers);
  }

  lemma FirstIsOwn(version: string, t: Turn, c: SemanticCandidate)
    requires WellFormed(version, t, c) && c.memory.evidence != []
    ensures forall i | 0 <= i < |c.memory.evidence| ::
      EvidenceHolds(SourceOf(t.exportId), MessageMap(t), c.memory.evidence[i])
    ensures c.memory.evidence[0].source == SourceOf(t.exportId)
  {
    hide MessageMap, Canonical, Utf8.SpanFits, HasParts, ValidEvidenceRefs, Trim;
  }

  lemma {:induction false} MapHasMessage(t: Turn, n: nat, id: MessageId)
    requires n <= |t.messages| && id in MessagesUpTo(t, n)
    ensures exists k :: 0 <= k < n && IdOf(t, t.messages[k]) == id && MessagesUpTo(t, n)[id] == t.messages[k]
  {
    hide IdOf;
    if IdOf(t, t.messages[n - 1]) != id { MapHasMessage(t, n - 1, id); }
  }

  lemma ClaimIsGrounded(t: Turn, claim: EvidenceRef)
    requires EvidenceHolds(SourceOf(t.exportId), MessageMap(t), claim)
    ensures GroundsClaim(t, claim, Grounded(MessageMap(t), claim))
  {
    hide IdOf, Utf8.SpanFits;
    MapHasMessage(t, |t.messages|, claim.message);
    var k :| 0 <= k < |t.messages| && IdOf(t, t.messages[k]) == claim.message &&
      MessageMap(t)[claim.message] == t.messages[k];
    assert CapturedAs(t, k, claim, Grounded(MessageMap(t), claim));
  }

  lemma ClaimsAreGrounded(version: string, t: Turn, c: SemanticCandidate)
    requires WellFormed(version, t, c)
    ensures GroundsClaims(t, c.memory.evidence, Canonical(MessageMap(t), c).memory.evidence)
  {
    KindIsKnown(version, t, c);
    WellFormedParts(version, t, c);
    FirstIsOwn(version, t, c);
    CanonicalShape(t, c);
    hide WellFormed, MessageMap, EvidenceHolds, GroundsClaim;
    forall i | 0 <= i < |c.memory.evidence|
      ensures GroundsClaim(t, c.memory.evidence[i], Canonical(MessageMap(t), c).memory.evidence[i]) {
      ClaimIsGrounded(t, c.memory.evidence[i]);
    }
  }

  lemma AboutIsReplaced(version: string, s: Store, t: Turn, c: SemanticCandidate, item: ItemId)
    requires WellFormed(version, t, c) && Indexed(s)
    ensures c.memory.evidence != []
    ensures About(version, s, t, c, item) <==> Replaces(version, s, t, c, item)
  {
    OwnIsNamed(version, t, c);
    hide WellFormed, OwnId, NameOf, Listed, Indexed;
  }

  // What the reconciler makes of a candidate, besides names.
  lemma ResolvedContent(version: string, t: Turn, active: seq<ActiveMemory>, c: SemanticCandidate)
    requires Resolves(version, t, active, c) && WellFormed(version, t, c)
    ensures var canonical := Canonical(MessageMap(t), c); var r := Resolved(version, t, active, c);
      && r.provenance == canonical.memory.evidence
      && (r.supersedes.None? ==> r.item == OwnItem(version, t.scope, canonical))
      && r.action == (if r.supersedes.None? then Create else Supersede)
      && r.lifecycle == LifecycleEvent(LifecycleId(r.revision, r.action), r.revision, c.memory.temporal.observedAt)
  {
    WellFormedParts(version, t, c);
    CanonicalShape(t, c);
    hide WellFormed, MessageMap, OwnItem, MatchOf, View, ViewFits, OneMatch;
  }

  lemma RevisionForMeaning(active: seq<ActiveMemory>, r: Reconciliation)
    ensures var v := RevisionFor(active, r);
      && v.id == r.revision && v.item == r.item.id && v.evidence == r.provenance
      && (r.supersedes.None? ==> v.parents == [] && v.number == 1)
      && (r.supersedes.Some? && Observed(active, r.supersedes.value.id).Some? ==>
        var x := Observed(active, r.supersedes.value.id).value; v.parents == [x.revision] && v.number == x.number + 1)
  {
  }

  // A candidate that is reconciled is recorded as what it is.
  lemma ResolvedRecords(cfg: Config, s: Store, t: Turn, c: SemanticCandidate)
    requires Base(s, cfg.derivation) && Indexed(s) && ValidTurn(t) && t.scope == s.scope
    requires Resolves(cfg.version, t, Observation(s), c)
    ensures c.memory.evidence != []
    ensures var r := Resolved(cfg.version, t, Observation(s), c);
      && RecordsCandidate(cfg.version, s, t, c, RevisionFor(Observation(s), r))
      && (r.supersedes.None? <==> forall item :: !Replaces(cfg.version, s, t, c, item))
      && (r.supersedes.None? ==> r.item == NewItemOf(cfg.version, t, c))
      && r.action == (if r.supersedes.None? then Create else Supersede)
      && r.lifecycle == LifecycleEvent(LifecycleId(r.revision, r.action), r.revision, c.memory.temporal.observedAt)
  {
    var r, v := Resolved(cfg.version, t, Observation(s), c), RevisionFor(Observation(s),
      Resolved(cfg.version, t, Observation(s), c));
    ResolvesIff(cfg, s, t, c);
    hide *;
    OwnIsNamed(cfg.version, t, c);
    ResolvedNames(cfg, s, t, c);
    ResolvedContent(cfg.version, t, Observation(s), c);
    ClaimsAreGrounded(cfg.version, t, c);
    RevisionForMeaning(Observation(s), r);
    ReplacedIsTarget(cfg.version, s, t, c);
    RevisionOfParts(cfg.version, s, t, c);
    var target := Target(cfg.version, s, t, c);
    if target.Some? {
      TargetIsItem(cfg.version, s, t, c);
      AboutIsListed(cfg.version, s, t, c);
      ObservedIsHead(s, cfg.derivation, target.value);
      ListedIsStored(s, cfg.derivation, target.value);
    } else {
      NoTargetIsOwn(cfg.version, s, t, c);
    }
    RecordFrom(cfg.version, s, t, c, target, v);
  }

  lemma RevisionOfParts(version: string, s: Store, t: Turn, c: SemanticCandidate)
    requires WellFormed(version, t, c) && Indexed(s) && c.memory.evidence != []
    ensures RevisionOf(version, s, t, c) == RevisionId(ItemOf(version, s, t, c), c.memory.evidence[0].source,
      c.memory.evidence[0].message, c.memory.statement)
  {
    hide WellFormed, ItemOf, Indexed;
  }

  lemma NoTargetIsOwn(version: string, s: Store, t: Turn, c: SemanticCandidate)
    requires WellFormed(version, t, c) && Indexed(s) && Target(version, s, t, c).None?
    ensures ItemOf(version, s, t, c) == OwnId(version, t, c)
  {
    hide WellFormed, About, Indexed, OwnId;
  }

  lemma ReplacedIsTarget(version: string, s: Store, t: Turn, c: SemanticCandidate)
    requires WellFormed(version, t, c) && Indexed(s) && AboutOneAtMost(version, s, t, c)
    ensures c.memory.evidence != []
    ensures forall item :: Replaces(version, s, t, c, item) <==> Target(version, s, t, c) == Some(item)
  {
    KindIsKnown(version, t, c);
    hide WellFormed, About, Indexed, Replaces;
    forall item ensures About(version, s, t, c, item) <==> Replaces(version, s, t, c, item) {
      AboutIsReplaced(version, s, t, c, item);
    }
  }

  lemma RecordFrom(version: string, s: Store, t: Turn, c: SemanticCandidate, target: Option<ItemId>, r: Revision)
    requires Indexed(s) && c.memory.evidence != []
    requires forall item :: Replaces(version, s, t, c, item) <==> target == Some(item)
    requires r.id == RevisionId(r.item, SourceOf(t.exportId), c.memory.evidence[0].message, c.memory.statement)
    requires GroundsClaims(t, c.memory.evidence, r.evidence)
    requires target.Some? ==>
      && target.value in s.order && target.value in s.heads && s.heads[target.value] in s.revisions
      && r.item == target.value && r.parents == [s.heads[r.item]] && r.number == s.revisions[s.heads[r.item]].number + 1
    requires target.None? ==> r.item == NameOf(version, t, c) && r.parents == [] && r.number == 1
    ensures RecordsCandidate(version, s, t, c, r)
    ensures target.None? <==> forall item :: !Replaces(version, s, t, c, item)
  {
    hide Replaces, GroundsClaims, NameOf, Indexed;
    if target.Some? { assert Replaces(version, s, t, c, target.value); }
  }

  lemma TargetIsItem(version: string, s: Store, t: Turn, c: SemanticCandidate)
    requires WellFormed(version, t, c) && Indexed(s) && Target(version, s, t, c).Some?
    ensures ItemOf(version, s, t, c) == Target(version, s, t, c).value
  {
    TargetIsOwn(version, s, t, c);
    KindIsKnown(version, t, c);
    hide WellFormed, About, Indexed, OwnId;
  }

  lemma ListedIsStored(s: Store, d: D.Derivation, item: ItemId)
    requires Base(s, d) && Indexed(s) && item in Listed(s)
    ensures item in s.order && item in s.heads && s.heads[item] in s.revisions && item in s.items
    ensures Memory(s, item).revision == s.heads[item]
    ensures Memory(s, item).number == s.revisions[s.heads[item]].number
  {
    hide Base;
  }

  // ----- the whole mutation -----

  ghost predicate IsNew(version: string, s: Store, t: Turn, c: SemanticCandidate)
    requires c.memory.evidence != []
  {
    forall item :: !Replaces(version, s, t, c, item)
  }

  predicate AllCite(candidates: seq<SemanticCandidate>) {
    forall i | 0 <= i < |candidates| :: candidates[i].memory.evidence != []
  }

  // What the turn itself brings: its source, its messages with their roles, and their payloads.
  ghost predicate RecordsCapture(t: Turn, m: Mutation) {
    var n := |t.messages|;
    && m.scope == t.scope && m.committedAt == t.completedAt && m.sources == [SourceOf(t.exportId)]
    && |m.messages| == n && |m.payloads| == 1 + n + |m.revisions|
    && m.payloads[0] == SourcePayload(SourceOf(t.exportId))
    && (forall k | 0 <= k < n ::
      && m.messages[k] == MessageRecord(IdOf(t, t.messages[k]), SourceOf(t.exportId), t.messages[k].role)
      && m.payloads[1 + k] == MessagePayload(IdOf(t, t.messages[k])))
    && forall i | 0 <= i < |m.revisions| :: m.payloads[1 + n + i] == RevisionPayload(m.revisions[i].id)
  }

  // One revision, head and lifecycle event for each candidate, in their order; and an item for
  // each that replaces nothing.
  ghost predicate RecordsAll(version: string, s: Store, t: Turn, candidates: seq<SemanticCandidate>, m: Mutation)
    requires Indexed(s) && AllCite(candidates)
  {
    && |m.revisions| == |m.heads| == |m.lifecycle| == |m.outcome| == |candidates|
    && (forall i | 0 <= i < |candidates| ::
      var c, r := candidates[i], m.revisions[i];
      && RecordsCandidate(version, s, t, c, r)
      && m.outcome[i] == r.id && m.heads[i] == Head(r.item, r.id)
      && var action := if IsNew(version, s, t, c) then Create else Supersede;
         m.lifecycle[i] == LifecycleEvent(LifecycleId(r.id, action), r.id, c.memory.temporal.observedAt))
    && (forall i | 0 <= i < |candidates| && IsNew(version, s, t, candidates[i]) ::
      NewItemOf(version, t, candidates[i]) in m.items)
    && forall x | x in m.items :: exists i ::
         0 <= i < |candidates| && IsNew(version, s, t, candidates[i]) && x == NewItemOf(version, t, candidates[i])
  }

  lemma CaptureIsRecorded(t: Turn, expected: nat, d: D.Derivation, active: seq<ActiveMemory>, rs: seq<Reconciliation>)
    ensures RecordsCapture(t, Built(t, expected, d, active, rs))
  {
    BuiltShape(t, expected, d, active, rs);
    var m, base := Built(t, expected, d, active, rs), StartOf(t, expected, d);
    hide Built, RevisionFor, IdOf;
    assert |base.payloads| == 1 + |t.messages|;
    forall k | 0 <= k < |base.payloads| ensures m.payloads[k] == base.payloads[k] {
      assert m.payloads[..|base.payloads|][k] == m.payloads[k];
    }
    forall i | 0 <= i < |rs| ensures m.payloads[|base.payloads| + i] == RevisionPayload(m.revisions[i].id) {
      RevisionForMeaning(active, rs[i]);
    }
  }

  lemma CandidatesCite(cfg: Config, s: Store, t: Turn, candidates: seq<SemanticCandidate>)
    requires Base(s, cfg.derivation) && Indexed(s) && ValidTurn(t) && t.scope == s.scope
    requires AllResolve(cfg.version, t, Observation(s), candidates)
    ensures AllCite(candidates)
  {
    hide Base, Resolves, Observation, ValidTurn, Indexed;
    forall i | 0 <= i < |candidates| ensures candidates[i].memory.evidence != [] {
      ResolvedRecords(cfg, s, t, candidates[i]);
    }
  }

  // The mutation of acceptable candidates says of each of them what it is.
  lemma BuiltRecords(cfg: Config, s: Store, t: Turn, expected: nat, candidates: seq<SemanticCandidate>)
    requires Base(s, cfg.derivation) && Indexed(s) && ValidTurn(t) && t.scope == s.scope
    requires AllResolve(cfg.version, t, Observation(s), candidates)
    requires DistinctItems(Reconciliations(cfg.version, t, Observation(s), candidates))
    ensures var m := Built(t, expected, cfg.derivation, Observation(s),
        Reconciliations(cfg.version, t, Observation(s), candidates));
      && AllCite(candidates) && RecordsAll(cfg.version, s, t, candidates, m) && RecordsCapture(t, m)
      && |m.revisions| == |candidates|
  {
    var rs := Reconciliations(cfg.version, t, Observation(s), candidates);
    var m := Built(t, expected, cfg.derivation, Observation(s), rs);
    hide Base, Resolves, Resolved, Observation, ValidTurn, Indexed, Built, RevisionFor, RecordsCandidate, IsNew;
    hide NewItemOf, RecordsCapture, StartOf, RecordsAll, Extended, DistinctItems, D.Distinct;
    CandidatesCite(cfg, s, t, candidates);
    CaptureIsRecorded(t, expected, cfg.derivation, Observation(s), rs);
    BuiltShape(t, expected, cfg.derivation, Observation(s), rs);
    BuiltItems(t, expected, cfg.derivation, Observation(s), rs);
    AllReconciled(cfg, s, t, candidates);
    hide ReconciledAs, AllCite;
    RecordsAllFrom(cfg.version, s, t, candidates, rs, m);
  }

  lemma AllReconciled(cfg: Config, s: Store, t: Turn, candidates: seq<SemanticCandidate>)
    requires Base(s, cfg.derivation) && Indexed(s) && ValidTurn(t) && t.scope == s.scope && AllCite(candidates)
    requires AllResolve(cfg.version, t, Observation(s), candidates)
    ensures var rs := Reconciliations(cfg.version, t, Observation(s), candidates);
      forall i | 0 <= i < |rs| ::
        ReconciledAs(cfg.version, s, t, candidates[i], rs[i], RevisionFor(Observation(s), rs[i]))
  {
    hide Base, Resolves, Resolved, Observation, ValidTurn, Indexed, RevisionFor, RecordsCandidate, IsNew, NewItemOf;
    var rs := Reconciliations(cfg.version, t, Observation(s), candidates);
    forall i | 0 <= i < |rs|
      ensures ReconciledAs(cfg.version, s, t, candidates[i], rs[i], RevisionFor(Observation(s), rs[i]))
    {
      OneRecorded(cfg, s, t, candidates[i]);
      RevisionForMeaning(Observation(s), rs[i]);
    }
  }

  ghost predicate ReconciledAs(version: string, s: Store, t: Turn, c: SemanticCandidate, x: Reconciliation, r: Revision)
    requires Indexed(s) && c.memory.evidence != []
  {
    && RecordsCandidate(version, s, t, c, r) && r.id == x.revision && r.item == x.item.id
    && x.action == (if IsNew(version, s, t, c) then Create else Supersede)
    && (IsNew(version, s, t, c) ==> x.item == NewItemOf(version, t, c))
    && x.lifecycle == LifecycleEvent(LifecycleId(x.revision, x.action), x.revision, c.memory.temporal.observedAt)
  }

  lemma RecordsAllFrom(version: string, s: Store, t: Turn, candidates: seq<SemanticCandidate>,
      rs: seq<Reconciliation>, m: Mutation)
    requires Indexed(s) && AllCite(candidates) && |rs| == |candidates|
    requires |m.outcome| == |m.revisions| == |m.lifecycle| == |m.heads| == |rs|
    requires forall i | 0 <= i < |rs| :: ReconciledAs(version, s, t, candidates[i], rs[i], m.revisions[i])
    requires forall i | 0 <= i < |rs| ::
      m.outcome[i] == rs[i].revision && m.lifecycle[i] == rs[i].lifecycle &&
      m.heads[i] == Head(rs[i].item.id, rs[i].revision)
    requires forall x | x in m.items :: exists i :: 0 <= i < |rs| && rs[i].item == x && rs[i].action == Create
    requires forall i | 0 <= i < |rs| && rs[i].action == Create :: rs[i].item in m.items
    ensures RecordsAll(version, s, t, candidates, m)
  {
    hide RecordsCandidate, IsNew, NewItemOf, Indexed;
    forall x | x in m.items ensures exists i ::
      0 <= i < |candidates| && IsNew(version, s, t, candidates[i]) && x == NewItemOf(version, t, candidates[i]) {
      var i :| 0 <= i < |rs| && rs[i].item == x && rs[i].action == Create;
      assert ReconciledAs(version, s, t, candidates[i], rs[i], m.revisions[i]);
    }
  }

  lemma OneRecorded(cfg: Config, s: Store, t: Turn, c: SemanticCandidate)
    requires Base(s, cfg.derivation) && Indexed(s) && ValidTurn(t) && t.scope == s.scope
    requires Resolves(cfg.version, t, Observation(s), c)
    ensures c.memory.evidence != []
    ensures var r := Resolved(cfg.version, t, Observation(s), c);
      && RecordsCandidate(cfg.version, s, t, c, RevisionFor(Observation(s), r))
      && (IsNew(cfg.version, s, t, c) ==> r.item == NewItemOf(cfg.version, t, c))
      && r.action == (if IsNew(cfg.version, s, t, c) then Create else Supersede)
      && r.lifecycle == LifecycleEvent(LifecycleId(r.revision, r.action), r.revision, c.memory.temporal.observedAt)
  {
    hide Base, Resolves, Resolved, Observation, ValidTurn, Indexed, RevisionFor, RecordsCandidate, NewItemOf, Replaces;
    ResolvedRecords(cfg, s, t, c);
  }

  // ----- the scope after the commit -----

  // The turn took effect on scope s: its operation is recorded with one revision for each
  // candidate, which records that candidate and heads its item; new items are those of the
  // candidates that replace nothing; and everything else is as it was.
  ghost predicate TurnCommitted(cfg: Config, s: Store, t: Turn, candidates: seq<SemanticCandidate>, n: Store)
    requires Indexed(s) && AllCite(candidates)
  {
    var op := OperationOf(t.exportId, cfg.derivation);
    && op !in s.operations && op in n.operations
    && n.scope == s.scope && n.version == s.version + 1 && n.changeSeq == s.changeSeq + 1
    && var ids := n.operations[op].outcome.revisions;
       && n.operations[op] == OperationRecord(FingerprintOf(t.exportId, cfg.derivation),
            Outcome(s.version + 1, s.changeSeq + 1, ids))
       && n.operations == s.operations[op := n.operations[op]]
       && |ids| == |candidates| && CandidatesStored(cfg.version, s, t, candidates, ids, n)
       && OthersStay(s, ids, n)
  }

  ghost predicate CandidatesStored(version: string, s: Store, t: Turn, candidates: seq<SemanticCandidate>,
      ids: seq<RevisionId>, n: Store)
    requires Indexed(s) && AllCite(candidates) && |ids| == |candidates|
  {
    forall i | 0 <= i < |candidates| ::
      && ids[i] in n.revisions && n.revisions[ids[i]].id == ids[i]
      && RecordsCandidate(version, s, t, candidates[i], n.revisions[ids[i]])
      && n.revisions[ids[i]].item in n.heads && n.heads[n.revisions[ids[i]].item] == ids[i]
      && n.revisions[ids[i]].item in n.items
      && (IsNew(version, s, t, candidates[i]) ==>
        n.items[n.revisions[ids[i]].item] == NewItemOf(version, t, candidates[i]))
  }

  ghost predicate OthersStay(s: Store, ids: seq<RevisionId>, n: Store) {
    && (forall id | id in s.revisions :: id !in ids && id in n.revisions && n.revisions[id] == s.revisions[id])
    && (forall id | id in n.revisions :: id in s.revisions || id in ids)
    && (forall item | item in s.heads :: item in n.heads)
    && forall item | item in n.heads :: (item in s.heads && n.heads[item] == s.heads[item]) || n.heads[item] in ids
  }

  lemma NewItemsStored(s: Store, m: Mutation, n: Store)
    requires Applied(s, m, n)
    ensures forall x | x in m.items :: x.id in n.items && n.items[x.id] == x
  {
    hide AppliedRevisions, AppliedHeads, AppliedOperation;
    forall x | x in m.items ensures x.id in n.items && n.items[x.id] == x {
      var k :| 0 <= k < |m.items| && m.items[k] == x;
    }
  }

  lemma DeliveredOthers(s: Store, m: Mutation, n: Store)
    requires Delivered(s, m, n)
    ensures OthersStay(s, RevisionIds(m), n)
  {
    AnnouncedIds(m);
    hide RevisionIds;
    forall id | id in s.revisions
      ensures id !in RevisionIds(m) && id in n.revisions && n.revisions[id] == s.revisions[id]
    {
      OldStays(s, m, n, id);
      if r :| r in m.revisions && r.id == id { NewStored(s, m, n, r); }
    }
  }

  lemma NameIsItem(version: string, t: Turn, c: SemanticCandidate)
    requires c.memory.evidence != []
    ensures NewItemOf(version, t, c).id == NameOf(version, t, c)
  {
  }

  lemma RecordedIsNamed(version: string, s: Store, t: Turn, c: SemanticCandidate, r: Revision)
    requires Indexed(s) && c.memory.evidence != [] && RecordsCandidate(version, s, t, c, r)
    ensures IsNew(version, s, t, c) ==> r.item == NewItemOf(version, t, c).id
  {
    hide Replaces, GroundsClaims, NameOf, Indexed;
    NameIsItem(version, t, c);
    hide NewItemOf;
  }

  lemma AllStored(cfg: Config, s: Store, t: Turn, candidates: seq<SemanticCandidate>, m: Mutation, n: Store)
    requires Indexed(s) && AllCite(candidates) && RecordsAll(cfg.version, s, t, candidates, m)
    requires Delivered(s, m, n) && n.items.Keys == n.heads.Keys
    requires forall x | x in m.items :: x.id in n.items && n.items[x.id] == x
    ensures CandidatesStored(cfg.version, s, t, candidates, RevisionIds(m), n)
  {
    hide Delivered, RecordsCandidate, NewItemOf, IsNew, Indexed;
    forall i | 0 <= i < |candidates|
      ensures var r := m.revisions[i];
        && r.id in n.revisions && n.revisions[r.id] == r && r.item in n.heads && n.heads[r.item] == r.id
        && RecordsCandidate(cfg.version, s, t, candidates[i], r) && r.item in n.items
        && (IsNew(cfg.version, s, t, candidates[i]) ==> n.items[r.item] == NewItemOf(cfg.version, t, candidates[i]))
    {
      NewStored(s, m, n, m.revisions[i]);
      RecordedIsNamed(cfg.version, s, t, candidates[i], m.revisions[i]);
      assert m.revisions[i].item in n.items.Keys;
    }
  }

  lemma DeliveryParts(cfg: Config, s: Store, a: Delivery)
    requires Enabled(cfg, s, a)
    ensures Indexed(s) && ValidTurn(a.t) && a.t.scope == s.scope
    ensures AllResolve(cfg.version, a.t, Observation(s), a.candidates)
    ensures DistinctItems(Reconciliations(cfg.version, a.t, Observation(s), a.candidates))
    ensures MutationOf(cfg, s, a) == Built(a.t, s.version, cfg.derivation, Observation(s),
      Reconciliations(cfg.version, a.t, Observation(s), a.candidates))
  {
    hide ValidTurn, Resolves, Resolved, Observation, Indexed, D.Distinct, Lists, ValidMutation, Built, Apply;
  }

  lemma ApplyRecords(s: Store, m: Mutation, order: seq<ItemId>)
    ensures var n := Apply(s, m, order);
      && n.scope == s.scope && n.version == s.version + 1 && n.changeSeq == s.changeSeq + 1
      && n.operations == s.operations[m.operation :=
           OperationRecord(m.fingerprint, Outcome(s.version + 1, s.changeSeq + 1, RevisionIds(m)))]
  {
    hide Put;
  }

  lemma BaseItems(s: Store, d: D.Derivation)
    requires Base(s, d)
    ensures s.items.Keys == s.heads.Keys
  {
    hide Revisions, OwnFingerprints, ItemFits, D.Distinct;
  }

  // A delivery that takes effect leaves exactly that.
  lemma DeliveryRecords(cfg: Config, s: Store, a: Delivery)
    requires Base(s, cfg.derivation) && Enabled(cfg, s, a)
    ensures Indexed(s) && AllCite(a.candidates) && TurnCommitted(cfg, s, a.t, a.candidates, Next(cfg, s, a))
  {
    DeliveryParts(cfg, s, a);
    NextIsApplied(cfg, s, a);
    MutationParts(cfg, s, a);
    var m, n := MutationOf(cfg, s, a), Next(cfg, s, a);
    FirstDelivery(cfg, s, a);
    hide *;
    BuiltRecords(cfg, s, a.t, s.version, a.candidates);
    DeliveryMeaning(cfg, s, a);
    MutationIsFresh(cfg, s, a);
    FreshApplies(cfg, s, a.t, m, a.order);
    NewItemsStored(s, m, n);
    DeliveredOthers(s, m, n);
    BaseItems(n, cfg.derivation);
    AllStored(cfg, s, a.t, a.candidates, m, n);
    ApplyRecords(s, m, a.order);
    TurnParted(cfg, s, a.t, a.candidates, m, n);
  }

  lemma FirstDelivery(cfg: Config, s: Store, a: Delivery)
    requires Enabled(cfg, s, a)
    ensures OperationOf(a.t.exportId, cfg.derivation) !in s.operations
  {
    hide ValidTurn, Buildable, Observation, Indexed, D.Distinct, Lists, Apply;
  }

  lemma TurnParted(cfg: Config, s: Store, t: Turn, candidates: seq<SemanticCandidate>, m: Mutation, n: Store)
    requires Indexed(s) && AllCite(candidates) && OperationOf(t.exportId, cfg.derivation) !in s.operations
    requires m.operation == OperationOf(t.exportId, cfg.derivation)
    requires m.fingerprint == FingerprintOf(t.exportId, cfg.derivation) && |m.revisions| == |candidates|
    requires n.scope == s.scope && n.version == s.version + 1 && n.changeSeq == s.changeSeq + 1
    requires n.operations == s.operations[m.operation :=
      OperationRecord(m.fingerprint, Outcome(s.version + 1, s.changeSeq + 1, RevisionIds(m)))]
    requires CandidatesStored(cfg.version, s, t, candidates, RevisionIds(m), n) && OthersStay(s, RevisionIds(m), n)
    ensures TurnCommitted(cfg, s, t, candidates, n)
  {
    hide CandidatesStored, OthersStay, Indexed, AllCite;
  }
}
