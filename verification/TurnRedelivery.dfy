// Delivering a turn again (canonical_processor.go, ProcessTurn): there is no look at the
// recorded operations before the work, so a redelivery is answered with its outcome exactly
// when its candidates make a valid mutation in the scope as it is now.
module TurnRedelivery {
  import opened Wrappers
  import opened Bytes
  import D = Derived
  import Text
  import Utf8
  import opened Turns
  import opened Reconciler
  import opened TurnMutations
  import opened TurnStore

  // ----- a candidate in a state of the scope -----

  // What a candidate is by itself, before any active memory is looked at.
  predicate WellFormed(version: string, t: Turn, c: SemanticCandidate) {
    && CandidateHolds(SourceOf(t.exportId), MessageMap(t), c)
    && Text.IsCanonicalId(version) && c.kind == c.memory.kind && HasParts(c)
    && ValidMemory(Canonical(MessageMap(t), c).memory)
  }

  // The item it would create.
  function OwnId(version: string, t: Turn, c: SemanticCandidate): ItemId
    requires WellFormed(version, t, c)
  {
    OwnItem(version, t.scope, Canonical(MessageMap(t), c)).id
  }

  // The stored items it is about: the state of its key, or all that rest on a message that
  // the event rests on as well.
  ghost predicate About(version: string, s: Store, t: Turn, c: SemanticCandidate, item: ItemId)
    requires WellFormed(version, t, c) && Indexed(s)
  {
    && item in Listed(s)
    && if c.kind == StateMemory then item == OwnId(version, t, c) else SharesMessage(s, item, c.memory.evidence)
  }

  ghost predicate SharesMessage(s: Store, item: ItemId, evidence: seq<EvidenceRef>) {
    item in s.heads && s.heads[item] in s.revisions && SameEvent(s.revisions[s.heads[item]].evidence, evidence)
  }

  ghost predicate AboutOneAtMost(version: string, s: Store, t: Turn, c: SemanticCandidate)
    requires WellFormed(version, t, c) && Indexed(s)
  {
    forall x, y :: About(version, s, t, c, x) && About(version, s, t, c, y) ==> x == y
  }

  ghost function Target(version: string, s: Store, t: Turn, c: SemanticCandidate): (target: Option<ItemId>)
    requires WellFormed(version, t, c) && Indexed(s)
    ensures target.Some? ==> About(version, s, t, c, target.value)
    ensures target.None? ==> forall item :: !About(version, s, t, c, item)
  {
    if item :| About(version, s, t, c, item) then Some(item) else None
  }

  // The item and the revision it comes to.
  ghost function ItemOf(version: string, s: Store, t: Turn, c: SemanticCandidate): ItemId
    requires WellFormed(version, t, c) && Indexed(s)
  {
    var target := Target(version, s, t, c);
    if c.kind == EventMemory && target.Some? then target.value else OwnId(version, t, c)
  }

  ghost function RevisionOf(version: string, s: Store, t: Turn, c: SemanticCandidate): RevisionId
    requires WellFormed(version, t, c) && Indexed(s)
  {
    var first := c.memory.evidence[0];
    RevisionId(ItemOf(version, s, t, c), first.source, first.message, c.memory.statement)
  }

  // The listed item it is about is headed by this very revision.
  ghost predicate RepeatsHead(version: string, s: Store, t: Turn, c: SemanticCandidate)
    requires WellFormed(version, t, c) && Indexed(s)
  {
    var target := Target(version, s, t, c);
    target.Some? && target.value in s.heads && s.heads[target.value] == RevisionOf(version, s, t, c)
  }

  // ----- the processor's view of it -----

  lemma SameMessages(a: seq<EvidenceRef>, b: seq<EvidenceRef>, b': seq<EvidenceRef>)
    requires |b| == |b'|
    requires forall i | 0 <= i < |b| :: b[i].source == b'[i].source && b[i].message == b'[i].message
    ensures SameEvent(a, b) <==> SameEvent(a, b')
  {
    if SameEvent(a, b) {
      var i, j :| 0 <= i < |a| && 0 <= j < |b| && a[i].source == b[j].source && a[i].message == b[j].message;
      assert a[i].source == b'[j].source;
    }
    if SameEvent(a, b') {
      var i, j :| 0 <= i < |a| && 0 <= j < |b'| && a[i].source == b'[j].source && a[i].message == b'[j].message;
      assert a[i].source == b[j].source;
    }
  }

  lemma CanonicalShape(t: Turn, c: SemanticCandidate)
    requires CandidateHolds(SourceOf(t.exportId), MessageMap(t), c)
    ensures var canonical := Canonical(MessageMap(t), c); var claims := c.memory.evidence;
      && canonical == c.(memory := c.memory.(evidence := canonical.memory.evidence))
      && |canonical.memory.evidence| == |claims| > 0
      && forall i | 0 <= i < |claims| :: canonical.memory.evidence[i].source == claims[i].source
           && canonical.memory.evidence[i].message == claims[i].message
  {
    hide Utf8.SpanFits, MessageMap, ValidEvidenceRefs, Trim;
  }

  // The reconciler matches an observed item exactly when the candidate is about it.
  lemma MatchIsAbout(cfg: Config, s: Store, t: Turn, c: SemanticCandidate, i: nat)
    requires Base(s, cfg.derivation) && Indexed(s) && t.scope == s.scope && WellFormed(cfg.version, t, c)
    requires c.kind != UnknownMemory && i < |Observation(s)|
    ensures var canonical := Canonical(MessageMap(t), c);
      Matches(canonical, OwnItem(cfg.version, t.scope, canonical), View(Observation(s))[i]) <==>
        About(cfg.version, s, t, c, Listed(s)[i])
    ensures Observation(s)[i].item.id == Listed(s)[i]
  {
    hide SemanticPart, SemanticParts, ValidEvidenceRefs, Trim, MessageMap, Canonical, Utf8.SpanFits, Base, SameEvent;
    hide Listed, D.ScopeError, Text.IsCanonicalId;
    var canonical := Canonical(MessageMap(t), c);
    CanonicalShape(t, c);
    KeyIsIdentity(s, cfg.derivation, i);
    SameMessages(Observation(s)[i].evidence, c.memory.evidence, canonical.memory.evidence);
    assert Listed(s)[i] in Listed(s);
  }

  lemma ListedIsDistinct(s: Store, d: D.Derivation)
    requires Base(s, d)
    ensures D.Distinct(Listed(s))
  {
    hide ItemFits, RevisionFits;
  }

  lemma ViewIsFit(s: Store, d: D.Derivation)
    requires Base(s, d) && Indexed(s)
    ensures ViewFits(s.scope, View(Observation(s))) && |Observation(s)| <= D.MAX_SNAPSHOT_ITEMS
  {
    hide RevisionFits, Revisions, OwnFingerprints, D.Distinct, ValidItem;
    forall i | 0 <= i < |Observation(s)| ensures ValidItem(Observation(s)[i].item) &&
      Observation(s)[i].item.scope == s.scope {
      assert ItemFits(s, d, s.items[Listed(s)[i]]);
    }
  }

  // A candidate is reconciled exactly when it is well formed and about one listed item at
  // most.
  lemma ResolvesIff(cfg: Config, s: Store, t: Turn, c: SemanticCandidate)
    requires Base(s, cfg.derivation) && Indexed(s) && ValidTurn(t) && t.scope == s.scope
    ensures Resolves(cfg.version, t, Observation(s), c) <==>
      WellFormed(cfg.version, t, c) && AboutOneAtMost(cfg.version, s, t, c)
  {
    TurnParts(t);
    ResolvesNeeds(cfg, s, t, c);
    hide ValidTurn, D.ScopeError, Resolves, Observation, Listed, Base, About;
    if WellFormed(cfg.version, t, c) {
      OneMatchIff(cfg, s, t, c);
    }
  }

  lemma ResolvesNeeds(cfg: Config, s: Store, t: Turn, c: SemanticCandidate)
    requires Base(s, cfg.derivation) && Indexed(s) && D.ScopeError(t.scope) == None && t.scope == s.scope
    ensures Resolves(cfg.version, t, Observation(s), c) <==>
      && WellFormed(cfg.version, t, c)
      && var canonical := Canonical(MessageMap(t), c);
         OneMatch(canonical, OwnItem(cfg.version, t.scope, canonical), View(Observation(s)))
  {
    hide Base, Observation, MessageMap, Utf8.SpanFits, ValidEvidenceRefs, Trim, SemanticPart, SemanticParts;
    hide D.ScopeError, ViewFits, OneMatch, OwnItem;
    ViewIsFit(s, cfg.derivation);
    if CandidateHolds(SourceOf(t.exportId), MessageMap(t), c) {
      CanonicalShape(t, c);
      hide Canonical, CandidateHolds;
    }
  }

  lemma OneMatchIff(cfg: Config, s: Store, t: Turn, c: SemanticCandidate)
    requires Base(s, cfg.derivation) && Indexed(s) && t.scope == s.scope && WellFormed(cfg.version, t, c)
    ensures var canonical := Canonical(MessageMap(t), c);
      OneMatch(canonical, OwnItem(cfg.version, t.scope, canonical), View(Observation(s))) <==>
        AboutOneAtMost(cfg.version, s, t, c)
  {
    WellFormedParts(cfg.version, t, c);
    hide Base, WellFormed, Canonical, OwnItem, Matches, Listed, MessageMap, Observation, About, Indexed, D.Distinct;
    hide OneMatch, AboutSet;
    ListedIsDistinct(s, cfg.derivation);
    MatchesAreAbout(cfg, s, t, c);
    AboutIsListed(cfg.version, s, t, c);
    var canonical, listed, view := Canonical(MessageMap(t), c), Listed(s), View(Observation(s));
    MatchesCount(canonical, OwnItem(cfg.version, t.scope, canonical), view, listed, AboutSet(cfg.version, s, t, c));
  }

  ghost function AboutSet(version: string, s: Store, t: Turn, c: SemanticCandidate): (about: set<ItemId>)
    requires WellFormed(version, t, c) && Indexed(s)
    ensures forall item :: item in about <==> About(version, s, t, c, item)
  {
    set item | item in Listed(s) && About(version, s, t, c, item)
  }

  lemma MatchesAreAbout(cfg: Config, s: Store, t: Turn, c: SemanticCandidate)
    requires Base(s, cfg.derivation) && Indexed(s) && t.scope == s.scope && WellFormed(cfg.version, t, c)
    ensures var canonical, view := Canonical(MessageMap(t), c), View(Observation(s));
      |view| == |Listed(s)| && forall i | 0 <= i < |view| ::
        Matches(canonical, OwnItem(cfg.version, t.scope, canonical), view[i]) <==>
          About(cfg.version, s, t, c, Listed(s)[i])
  {
    KindIsKnown(cfg.version, t, c);
    hide Base, WellFormed, Canonical, OwnItem, Matches, Listed, MessageMap, Observation, About;
    forall i | 0 <= i < |View(Observation(s))|
      ensures var canonical := Canonical(MessageMap(t), c);
        Matches(canonical, OwnItem(cfg.version, t.scope, canonical), View(Observation(s))[i]) <==>
          About(cfg.version, s, t, c, Listed(s)[i])
    {
      MatchIsAbout(cfg, s, t, c, i);
    }
  }

  lemma MatchesCount(c: SemanticCandidate, own: Item, view: seq<ActiveItem>, listed: seq<ItemId>, about: set<ItemId>)
    requires |view| == |listed| && D.Distinct(listed) && forall item | item in about :: item in listed
    requires forall i | 0 <= i < |view| :: Matches(c, own, view[i]) <==> listed[i] in about
    ensures OneMatch(c, own, view) <==> forall x, y | x in about && y in about :: x == y
  {
    hide Matches;
    if OneMatch(c, own, view) {
      forall x, y | x in about && y in about ensures x == y {
        var i :| 0 <= i < |listed| && listed[i] == x;
        var j :| 0 <= j < |listed| && listed[j] == y;
        assert Matches(c, own, view[i]) && Matches(c, own, view[j]);
      }
    } else {
      var i, j :| 0 <= i < j < |view| && Matches(c, own, view[i]) && Matches(c, own, view[j]);
      assert listed[i] in about && listed[j] in about && listed[i] != listed[j];
    }
  }

  lemma WellFormedParts(version: string, t: Turn, c: SemanticCandidate)
    requires WellFormed(version, t, c)
    ensures forall i | 0 <= i < |c.memory.evidence| :: c.memory.evidence[i].message in MessageMap(t)
    ensures HasParts(Canonical(MessageMap(t), c)) && Canonical(MessageMap(t), c).memory.evidence != []
  {
    hide MessageMap, Utf8.SpanFits, SemanticPart, SemanticParts;
  }

  lemma KindIsKnown(version: string, t: Turn, c: SemanticCandidate)
    requires WellFormed(version, t, c)
    ensures c.kind != UnknownMemory && |c.memory.evidence| > 0
  {
    hide MessageMap, Canonical, EvidenceHolds, HasParts;
  }

  // The match the reconciler finds is the item it is about.
  lemma MatchIsTarget(cfg: Config, s: Store, t: Turn, c: SemanticCandidate)
    requires Base(s, cfg.derivation) && Indexed(s) && t.scope == s.scope
    requires WellFormed(cfg.version, t, c) && AboutOneAtMost(cfg.version, s, t, c)
    ensures var canonical, target := Canonical(MessageMap(t), c), Target(cfg.version, s, t, c);
      var found := MatchOf(canonical, OwnItem(cfg.version, t.scope, canonical), View(Observation(s)));
      (found.Some? <==> target.Some?) && (target.Some? ==> found.value.id == target.value)
  {
    KindIsKnown(cfg.version, t, c);
    hide Base, WellFormed, Canonical, OwnItem, Matches, Listed, MessageMap, Observation, MatchOf, About;
    var canonical, view := Canonical(MessageMap(t), c), View(Observation(s));
    var own := OwnItem(cfg.version, t.scope, canonical);
    MatchMeaning(canonical, own, view);
    forall i | 0 <= i < |view|
      ensures Matches(canonical, own, view[i]) <==> About(cfg.version, s, t, c, Listed(s)[i])
      ensures view[i].item.id == Listed(s)[i]
    {
      MatchIsAbout(cfg, s, t, c, i);
    }
    AboutIsListed(cfg.version, s, t, c);
    if Target(cfg.version, s, t, c).Some? {
      var i :| 0 <= i < |Listed(s)| && Listed(s)[i] == Target(cfg.version, s, t, c).value;
      assert Matches(canonical, own, view[i]);
    }
  }

  // What it is reconciled to.
  lemma ResolvedNames(cfg: Config, s: Store, t: Turn, c: SemanticCandidate)
    requires Base(s, cfg.derivation) && Indexed(s) && t.scope == s.scope
    requires Resolves(cfg.version, t, Observation(s), c)
    requires WellFormed(cfg.version, t, c) && AboutOneAtMost(cfg.version, s, t, c)
    ensures var r, target := Resolved(cfg.version, t, Observation(s), c), Target(cfg.version, s, t, c);
      && r.item.id == ItemOf(cfg.version, s, t, c) && r.revision == RevisionOf(cfg.version, s, t, c)
      && (r.supersedes.Some? <==> target.Some?) && (target.Some? ==> r.supersedes.value.id == target.value)
  {
    KindIsKnown(cfg.version, t, c);
    WellFormedParts(cfg.version, t, c);
    CanonicalShape(t, c);
    ResolvedByMatch(cfg.version, t, Observation(s), c);
    hide Base, WellFormed, Canonical, OwnItem, Listed, MessageMap, Observation, MatchOf, About, Resolves, Indexed;
    hide AboutOneAtMost, View, Resolved, Target;
    MatchIsTarget(cfg, s, t, c);
  }

  // What the reconciler makes of the match it found.
  lemma ResolvedByMatch(version: string, t: Turn, active: seq<ActiveMemory>, c: SemanticCandidate)
    requires Resolves(version, t, active, c)
    ensures var canonical := Canonical(MessageMap(t), c);
      var own := OwnItem(version, t.scope, canonical);
      var r, found, first := Resolved(version, t, active, c), MatchOf(canonical, own, View(active)),
        canonical.memory.evidence[0];
      && r.supersedes == found
      && r.item.id == (if found.Some? && canonical.kind == EventMemory then found.value.id else own.id)
      && r.revision == RevisionId(r.item.id, first.source, first.message, canonical.memory.statement)
  {
    hide MessageMap, OwnItem, MatchOf, View, ViewFits, OneMatch;
  }

  lemma AboutIsListed(version: string, s: Store, t: Turn, c: SemanticCandidate)
    requires WellFormed(version, t, c) && Indexed(s)
    ensures forall item | About(version, s, t, c, item) :: item in Listed(s)
  {
  }

  lemma TargetIsOwn(version: string, s: Store, t: Turn, c: SemanticCandidate)
    requires WellFormed(version, t, c) && Indexed(s)
    ensures c.kind == StateMemory && Target(version, s, t, c).Some? ==>
      Target(version, s, t, c).value == OwnId(version, t, c)
  {
  }

  lemma OwnParentIff(cfg: Config, s: Store, t: Turn, c: SemanticCandidate)
    requires Base(s, cfg.derivation) && Indexed(s) && t.scope == s.scope
    requires Resolves(cfg.version, t, Observation(s), c)
    requires WellFormed(cfg.version, t, c) && AboutOneAtMost(cfg.version, s, t, c)
    ensures OwnParent(Observation(s), Resolved(cfg.version, t, Observation(s), c)) <==>
      RepeatsHead(cfg.version, s, t, c)
  {
    hide Base, WellFormed, Listed, Observation, About, Resolves, Resolved, Observed, RevisionOf, Indexed, RevisionFor;
    hide AboutOneAtMost, ItemOf;
    ResolvedNames(cfg, s, t, c);
    AboutIsListed(cfg.version, s, t, c);
    var target, r := Target(cfg.version, s, t, c), Resolved(cfg.version, t, Observation(s), c);
    ParentsOf(Observation(s), r);
    if target.Some? {
      ObservedIsHead(s, cfg.derivation, target.value);
    }
  }

  lemma ParentsOf(active: seq<ActiveMemory>, r: Reconciliation)
    ensures RevisionFor(active, r).parents ==
      if r.supersedes.None? || Observed(active, r.supersedes.value.id).None? then []
      else [Observed(active, r.supersedes.value.id).value.revision]
  {
  }

  // ----- exactly when a delivery is accepted -----

  // Each candidate is well formed and about one listed item at most, the items they come to
  // differ, and none repeats the revision that heads the item it is about.
  ghost predicate Acceptable(version: string, s: Store, t: Turn, candidates: seq<SemanticCandidate>)
    requires Indexed(s)
  {
    && (forall i | 0 <= i < |candidates| ::
      WellFormed(version, t, candidates[i]) && AboutOneAtMost(version, s, t, candidates[i]))
    && (forall i, j | 0 <= i < j < |candidates| ::
      ItemOf(version, s, t, candidates[i]) != ItemOf(version, s, t, candidates[j]))
    && (forall i | 0 <= i < |candidates| :: !RepeatsHead(version, s, t, candidates[i]))
  }

  // First delivery or not: a valid turn becomes a mutation exactly when its candidates are
  // acceptable in the scope as it is.
  lemma BuildableIff(cfg: Config, s: Store, t: Turn, expected: nat, candidates: seq<SemanticCandidate>)
    requires Base(s, cfg.derivation) && Indexed(s) && ValidTurn(t) && t.scope == s.scope
    requires |candidates| <= D.MAX_CANDIDATE_COUNT
    ensures Buildable(cfg.version, t, expected, cfg.derivation, Observation(s), candidates) <==>
      Acceptable(cfg.version, s, t, candidates)
  {
    hide Base, ValidTurn, Built, ValidMutation, Observation, OwnParent, ItemOf, RepeatsHead, AboutOneAtMost, WellFormed;
    hide Resolves, Resolved, Indexed;
    var active := Observation(s);
    forall i | 0 <= i < |candidates|
      ensures Resolves(cfg.version, t, active, candidates[i]) <==>
        WellFormed(cfg.version, t, candidates[i]) && AboutOneAtMost(cfg.version, s, t, candidates[i])
      ensures Resolves(cfg.version, t, active, candidates[i]) ==>
        Resolved(cfg.version, t, active, candidates[i]).item.id == ItemOf(cfg.version, s, t, candidates[i])
        && (OwnParent(active, Resolved(cfg.version, t, active, candidates[i])) <==>
            RepeatsHead(cfg.version, s, t, candidates[i]))
    {
      ResolvesIff(cfg, s, t, candidates[i]);
      if Resolves(cfg.version, t, active, candidates[i]) {
        ResolvedNames(cfg, s, t, candidates[i]);
        OwnParentIff(cfg, s, t, candidates[i]);
      }
    }
    if AllResolve(cfg.version, t, active, candidates) {
      SameItems(cfg, s, t, candidates);
      if DistinctItems(Reconciliations(cfg.version, t, active, candidates)) {
        BuiltIsValidUnlessRepeated(cfg.version, t, expected, cfg.derivation, active, candidates);
      }
    }
  }

  lemma SameItems(cfg: Config, s: Store, t: Turn, candidates: seq<SemanticCandidate>)
    requires Indexed(s) && AllResolve(cfg.version, t, Observation(s), candidates)
    requires forall i | 0 <= i < |candidates| :: WellFormed(cfg.version, t, candidates[i])
    requires forall i | 0 <= i < |candidates| ::
      Resolved(cfg.version, t, Observation(s), candidates[i]).item.id == ItemOf(cfg.version, s, t, candidates[i])
    ensures DistinctItems(Reconciliations(cfg.version, t, Observation(s), candidates)) <==>
      forall i, j | 0 <= i < j < |candidates| ::
        ItemOf(cfg.version, s, t, candidates[i]) != ItemOf(cfg.version, s, t, candidates[j])
  {
    hide Indexed, Observation, WellFormed, Resolves, Resolved, ItemOf;
  }

  // ----- first deliveries -----

  // No revision of a first delivery is its own parent, so every mutation it leads to
  // passes validation.
  lemma FirstDeliveryIsValid(cfg: Config, s: Store, t: Turn, candidates: seq<SemanticCandidate>)
    requires Base(s, cfg.derivation) && Indexed(s) && t.scope == s.scope &&
      OperationOf(t.exportId, cfg.derivation) !in s.operations
    requires ValidTurn(t) && |candidates| <= D.MAX_CANDIDATE_COUNT &&
      AllResolve(cfg.version, t, Observation(s), candidates)
    requires DistinctItems(Reconciliations(cfg.version, t, Observation(s), candidates))
    ensures ValidMutation(Built(t, s.version, cfg.derivation, Observation(s),
      Reconciliations(cfg.version, t, Observation(s), candidates)))
  {
    hide Base, ValidTurn, Built, ValidMutation, Resolves, Resolved, Observation, RevisionFor, Indexed;
    hide DistinctItems;
    var rs := Reconciliations(cfg.version, t, Observation(s), candidates);
    forall i | 0 <= i < |rs| ensures !OwnParent(Observation(s), rs[i]) {
      CandidateIsFresh(cfg, s, t, candidates[i]);
      ParentIsStored(cfg, s, rs[i]);
    }
    BuiltIsValidUnlessRepeated(cfg.version, t, s.version, cfg.derivation, Observation(s), candidates);
  }

  lemma ParentIsStored(cfg: Config, s: Store, r: Reconciliation)
    requires Base(s, cfg.derivation) && Indexed(s)
    ensures forall p | p in RevisionFor(Observation(s), r).parents :: p in s.revisions
  {
    hide ItemFits, RevisionFits, D.Distinct, Observation, Observed, Listed;
    if r.supersedes.Some? { ObservedIsHead(s, cfg.derivation, r.supersedes.value.id); }
  }

  // Progress: a turn with nothing to remember always commits, so runs of every length
  // exist.
  lemma QuietTurnCommits(cfg: Config, s: Store, t: Turn)
    requires Base(s, cfg.derivation) && ValidTurn(t) && t.scope == s.scope &&
      OperationOf(t.exportId, cfg.derivation) !in s.operations
    ensures Enabled(cfg, s, Delivery(t, [], s.order))
  {
    hide Base, ValidTurn, ValidMutation, Observation, Indexed, Apply, D.Distinct;
    BaseIsIndexed(s, cfg.derivation);
    FirstDeliveryIsValid(cfg, s, t, []);
    OrderIsKept(cfg, s, t);
  }

  lemma OrderIsKept(cfg: Config, s: Store, t: Turn)
    requires Base(s, cfg.derivation) && Indexed(s)
    ensures D.Distinct(s.order) && Lists(s.order,
      Apply(s, Built(t, s.version, cfg.derivation, Observation(s), []), s.order).heads)
  {
    hide ItemFits, RevisionFits, D.Distinct, Observation;
    assert Built(t, s.version, cfg.derivation, Observation(s), []).heads == [];
  }

  // ----- redeliveries -----

  // A candidate, of a state or an event, that repeats the revision heading a listed item it
  // is about is refused: as its own parent, or because it is about another item as well.
  lemma RepeatIsRefused(cfg: Config, s: Store, t: Turn, candidates: seq<SemanticCandidate>, k: nat, item: ItemId)
    requires Base(s, cfg.derivation) && Indexed(s) && ValidTurn(t) && t.scope == s.scope
    requires k < |candidates| <= D.MAX_CANDIDATE_COUNT && WellFormed(cfg.version, t, candidates[k])
    requires About(cfg.version, s, t, candidates[k], item) && item in s.heads
    requires var first := candidates[k].memory.evidence[0];
      s.heads[item] == RevisionId(item, first.source, first.message, candidates[k].memory.statement)
    ensures !Buildable(cfg.version, t, s.version, cfg.derivation, Observation(s), candidates)
  {
    BuildableIff(cfg, s, t, s.version, candidates);
    KindIsKnown(cfg.version, t, candidates[k]);
    RepeatsOrAmbiguous(cfg.version, s, t, candidates[k], item);
    hide Base, ValidTurn, Buildable, Observation, WellFormed, About, Indexed, RepeatsHead, AboutOneAtMost, ItemOf;
  }

  lemma RepeatsOrAmbiguous(version: string, s: Store, t: Turn, c: SemanticCandidate, item: ItemId)
    requires Indexed(s) && WellFormed(version, t, c) && |c.memory.evidence| > 0
    requires About(version, s, t, c, item) && item in s.heads
    requires var first := c.memory.evidence[0];
      s.heads[item] == RevisionId(item, first.source, first.message, c.memory.statement)
    ensures AboutOneAtMost(version, s, t, c) ==> RepeatsHead(version, s, t, c)
  {
    KindIsKnown(version, t, c);
    TargetIsOwn(version, s, t, c);
    hide WellFormed, About, Indexed;
    if AboutOneAtMost(version, s, t, c) {
      assert Target(version, s, t, c) == Some(item);
    }
  }

  lemma NewHead(cfg: Config, s: Store, t: Turn, m: Mutation, n: Store)
    requires Fresh(cfg, s, t, m) && Applied(s, m, n)
    ensures forall i | 0 <= i < |m.revisions| ::
      m.revisions[i].item in n.heads && n.heads[m.revisions[i].item] == m.revisions[i].id
  {
    hide AppliedRevisions, AppliedItems, AppliedOperation, NewRecords, NewItem, AllUnique;
  }

  lemma RevisionForNames(active: seq<ActiveMemory>, r: Reconciliation)
    ensures RevisionFor(active, r).id == r.revision && RevisionFor(active, r).item == r.item.id
  {
  }

  // What the commit of a delivery leaves for its k-th candidate.
  lemma DeliveredHead(cfg: Config, s: Store, a: Delivery, k: nat)
    requires Base(s, cfg.derivation) && Enabled(cfg, s, a) && k < |a.candidates|
    ensures var n, r := Next(cfg, s, a), Resolved(cfg.version, a.t, Observation(s), a.candidates[k]);
      && Base(n, cfg.derivation) && Indexed(n) && n.scope == s.scope
      && OperationOf(a.t.exportId, cfg.derivation) in n.operations
      && r.item.id in n.heads && n.heads[r.item.id] == r.revision
      && r.revision in n.revisions && n.revisions[r.revision].evidence == r.provenance
  {
    hide Base, ValidTurn, Built, ValidMutation, Resolves, Resolved, Observation, Apply, Indexed, D.Distinct;
    hide Fresh, Applied;
    var n, m := Next(cfg, s, a), MutationOf(cfg, s, a);
    var rs := Reconciliations(cfg.version, a.t, Observation(s), a.candidates);
    StepKeepsBase(cfg, s, a);
    StepExtends(cfg, s, a);
    BaseIsIndexed(n, cfg.derivation);
    MutationIsFresh(cfg, s, a);
    FreshApplies(cfg, s, a.t, m, a.order);
    BuiltShape(a.t, s.version, cfg.derivation, Observation(s), rs);
    NewHead(cfg, s, a.t, m, n);
    NewRevision(cfg, s, a.t, m, n);
    RevisionForNames(Observation(s), rs[k]);
    assert m.revisions[k] == RevisionFor(Observation(s), rs[k]);
  }

  lemma NewRevision(cfg: Config, s: Store, t: Turn, m: Mutation, n: Store)
    requires Fresh(cfg, s, t, m) && Applied(s, m, n)
    ensures forall i | 0 <= i < |m.revisions| ::
      m.revisions[i].id in n.revisions && n.revisions[m.revisions[i].id] == m.revisions[i]
  {
    hide AppliedHeads, AppliedItems, AppliedOperation, NewRecords, NewItem, AllUnique;
  }

  // On a first delivery every candidate comes to its own item, and rests on the messages
  // it cites.
  lemma DeliveredShape(cfg: Config, s: Store, t: Turn, c: SemanticCandidate)
    requires Base(s, cfg.derivation) && Indexed(s) && ValidTurn(t) && t.scope == s.scope
    requires OperationOf(t.exportId, cfg.derivation) !in s.operations && Resolves(cfg.version, t, Observation(s), c)
    ensures WellFormed(cfg.version, t, c)
    ensures var r, first := Resolved(cfg.version, t, Observation(s), c), c.memory.evidence[0];
      && r.item.id == OwnId(cfg.version, t, c)
      && r.revision == RevisionId(r.item.id, first.source, first.message, c.memory.statement)
      && |r.provenance| == |c.memory.evidence| > 0
      && forall i | 0 <= i < |r.provenance| :: r.provenance[i].source == c.memory.evidence[i].source
           && r.provenance[i].message == c.memory.evidence[i].message
  {
    ResolvesIff(cfg, s, t, c);
    KindIsKnown(cfg.version, t, c);
    CanonicalShape(t, c);
    FreshMatch(cfg, s, t, c);
    hide Base, WellFormed, Canonical, OwnItem, Observation, MatchOf, Resolves, ValidTurn, MessageMap, Indexed;
  }

  // Delivered again, a candidate is about the listed items of all candidates of its turn
  // that rest on a message it cites; the first of them is its own.
  lemma RedeliveredIsAbout(cfg: Config, s: Store, a: Delivery, j: nat, k: nat)
    requires Base(s, cfg.derivation) && Enabled(cfg, s, a) && j < |a.candidates| && k < |a.candidates|
    requires j == k || a.candidates[j].kind == EventMemory
    requires SameEvent(a.candidates[k].memory.evidence, a.candidates[j].memory.evidence)
    requires Resolved(cfg.version, a.t, Observation(s), a.candidates[k]).item.id in Listed(Next(cfg, s, a))
    ensures var n, r := Next(cfg, s, a), Resolved(cfg.version, a.t, Observation(s), a.candidates[k]);
      Indexed(n) && WellFormed(cfg.version, a.t, a.candidates[j])
      && About(cfg.version, n, a.t, a.candidates[j], r.item.id)
  {
    DeliveredHead(cfg, s, a, k);
    DeliveredParts(cfg, s, a, j);
    DeliveredParts(cfg, s, a, k);
    hide *;
    var r := Resolved(cfg.version, a.t, Observation(s), a.candidates[k]);
    SharedMessages(r.provenance, a.candidates[k].memory.evidence, a.candidates[j].memory.evidence);
    SharedIsAbout(cfg.version, Next(cfg, s, a), a.t, a.candidates[j], r.item.id);
  }

  lemma DeliveredParts(cfg: Config, s: Store, a: Delivery, k: nat)
    requires Base(s, cfg.derivation) && Enabled(cfg, s, a) && k < |a.candidates|
    ensures Resolves(cfg.version, a.t, Observation(s), a.candidates[k]) && WellFormed(cfg.version, a.t, a.candidates[k])
    ensures var c := a.candidates[k];
      var r, first := Resolved(cfg.version, a.t, Observation(s), c), c.memory.evidence[0];
      && r.item.id == OwnId(cfg.version, a.t, c)
      && r.revision == RevisionId(r.item.id, first.source, first.message, c.memory.statement)
      && |r.provenance| == |c.memory.evidence| > 0
      && forall i | 0 <= i < |r.provenance| :: r.provenance[i].source == c.memory.evidence[i].source
           && r.provenance[i].message == c.memory.evidence[i].message
  {
    hide Base, ValidTurn, Resolved, Observation, Indexed, D.Distinct, Lists, ValidMutation, Built;
    assert Resolves(cfg.version, a.t, Observation(s), a.candidates[k]);
    hide Resolves;
    DeliveredShape(cfg, s, a.t, a.candidates[k]);
  }

  lemma SharedIsAbout(version: string, n: Store, t: Turn, c: SemanticCandidate, item: ItemId)
    requires WellFormed(version, t, c) && Indexed(n) && item in Listed(n)
    requires c.kind == StateMemory ==> item == OwnId(version, t, c)
    requires item in n.heads && n.heads[item] in n.revisions
    requires SameEvent(n.revisions[n.heads[item]].evidence, c.memory.evidence)
    ensures About(version, n, t, c, item)
  {
    hide WellFormed, OwnId, Indexed, Listed, SameEvent;
  }

  lemma SharedMessages(a: seq<EvidenceRef>, a': seq<EvidenceRef>, b: seq<EvidenceRef>)
    requires |a| == |a'| && SameEvent(a', b)
    requires forall i | 0 <= i < |a| :: a[i].source == a'[i].source && a[i].message == a'[i].message
    ensures SameEvent(a, b)
  {
    var i, j :| 0 <= i < |a'| && 0 <= j < |b| && a'[i].source == b[j].source && a'[i].message == b[j].message;
    assert a[i].source == b[j].source;
  }

  lemma ListedWhole(cfg: Config, s: Store, a: Delivery)
    requires Enabled(cfg, s, a) && |a.order| <= TurnStore.MAX_READ
    ensures Listed(Next(cfg, s, a)) == a.order
  {
    hide Buildable, ValidTurn, Observation, Built, Lists, D.Distinct;
  }

  // So a redelivered turn is not always answered with its recorded outcome. Every turn that
  // leaves a memory the scan lists shows it: delivered again with the same candidates, it is
  // refused before the store can recognise the operation, although it had committed.
  lemma SameDeliveryIsRefused(cfg: Config, s: Store, a: Delivery, k: nat)
    requires Base(s, cfg.derivation) && Enabled(cfg, s, a) && k < |a.candidates|
    requires Resolved(cfg.version, a.t, Observation(s), a.candidates[k]).item.id in Listed(Next(cfg, s, a))
    ensures var n := Next(cfg, s, a);
      && Indexed(n) && OperationOf(a.t.exportId, cfg.derivation) in n.operations
      && !Buildable(cfg.version, a.t, n.version, cfg.derivation, Observation(n), a.candidates)
  {
    DeliveredHead(cfg, s, a, k);
    DeliveredParts(cfg, s, a, k);
    assert ValidTurn(a.t) && |a.candidates| <= D.MAX_CANDIDATE_COUNT && a.t.scope == s.scope;
    hide *;
    var n, r := Next(cfg, s, a), Resolved(cfg.version, a.t, Observation(s), a.candidates[k]);
    SelfShared(a.candidates[k].memory.evidence);
    RedeliveredIsAbout(cfg, s, a, k, k);
    RepeatIsRefused(cfg, n, a.t, a.candidates, k, r.item.id);
  }

  lemma SelfShared(evidence: seq<EvidenceRef>)
    requires evidence != []
    ensures SameEvent(evidence, evidence)
  {
    assert evidence[0].source == evidence[0].source;
  }

  // A second way: two events that rest on one message are each about both items once these
  // exist, and none can be reconciled any more.
  lemma TwoEventsAreAmbiguous(cfg: Config, s: Store, a: Delivery, j: nat, k: nat)
    requires Base(s, cfg.derivation) && Enabled(cfg, s, a) && j < |a.candidates| && k < |a.candidates| && j != k
    requires a.candidates[j].kind == EventMemory
    requires SameEvent(a.candidates[k].memory.evidence, a.candidates[j].memory.evidence)
    requires Resolved(cfg.version, a.t, Observation(s), a.candidates[j]).item.id in Listed(Next(cfg, s, a))
    requires Resolved(cfg.version, a.t, Observation(s), a.candidates[k]).item.id in Listed(Next(cfg, s, a))
    ensures var n := Next(cfg, s, a);
      && Indexed(n) && WellFormed(cfg.version, a.t, a.candidates[j])
      && !AboutOneAtMost(cfg.version, n, a.t, a.candidates[j])
      && !Resolves(cfg.version, a.t, Observation(n), a.candidates[j])
  {
    DeliveredHead(cfg, s, a, j);
    DeliveredParts(cfg, s, a, j);
    var rs := Reconciliations(cfg.version, a.t, Observation(s), a.candidates);
    assert rs[j].item.id != rs[k].item.id;
    assert ValidTurn(a.t) && a.t.scope == s.scope;
    hide Base, ValidTurn, Buildable, Resolves, Resolved, Observation, Indexed, D.Distinct, Next, Lists, Listed;
    hide SameEvent;
    SelfShared(a.candidates[j].memory.evidence);
    RedeliveredIsAbout(cfg, s, a, j, j);
    RedeliveredIsAbout(cfg, s, a, j, k);
    ResolvesIff(cfg, Next(cfg, s, a), a.t, a.candidates[j]);
  }

  // ----- concrete redeliveries -----

  const SCOPE := D.Scope("a:b", D.Personal)
  const EXPORT := TurnExport("a:b", "s", "t")
  const TURN := Turn(
    EXPORT, SCOPE, "s", "g", "", "", "t", None, 1, Failed, [Message(None, Utf8.User, [104, 105], "", "")])
  const CLAIM: EvidenceRef := Utf8.EvidenceRef(
    SourceOf(EXPORT), RoleMessage(EXPORT, Utf8.User), Utf8.User, 0, 2, Utf8.AssertedByUser, NoDigest)
  // A candidate about one letter, resting on the one message of the turn.
  function OneLetterCandidate(kind: MemoryKind, subject: string): SemanticCandidate {
    SemanticCandidate(
      kind, subject, "b", [], MemoryCandidate(kind, "c", Temporal(1, None, true), [CLAIM], true))
  }

  function OneLetterItem(version: string, kind: MemoryKind, subject: string): ItemId {
    if kind == StateMemory then StateItem("a:b", MemoryKey(version, "a:b", subject, "b", ""))
    else EventItem("a:b", SourceOf(EXPORT), RoleMessage(EXPORT, Utf8.User), None, subject, "b", "")
  }

  lemma OneLetter(s: string)
    requires |s| == 1 && 'a' <= s[0] <= 'z'
    ensures Trim(s) == s && SemanticPart(s) == Some(s) && Text.IsCanonicalId(s)
  {
    assert Text.WordLength(s) == 1 by { assert Text.WordLength(s[1..]) == 0; }
    assert s[..1] == s && s[1..] == "";
    assert Text.Fields(s) == [s] + Text.Fields("");
    assert Text.Normalize(s) == s;
    assert Lower(s) == s;
  }

  lemma ConcreteScope()
    ensures D.ScopeError(SCOPE) == None
  {
    var key := SCOPE.key;
    assert key[0] != ':' && key[1..][0] == ':';
    assert D.ChannelLength(key[1..]) == 0;
    assert D.ChannelLength(key) == 1;
    assert key[2..] == "b";
  }

  lemma ConcreteTurn()
    ensures ValidTurn(TURN)
  {
    hide D.ScopeError;
    ConcreteScope();
    OneLetter("s");
    OneLetter("g");
    OneLetter("t");
    assert !Blank(TURN.messages[0].text) by { assert !IsSpaceByte(TURN.messages[0].text[0]); }
  }

  lemma ConcreteCandidate(version: string, kind: MemoryKind, subject: string)
    requires Text.IsCanonicalId(version) && kind != UnknownMemory && |subject| == 1 && 'a' <= subject[0] <= 'z'
    ensures Resolves(version, TURN, [], OneLetterCandidate(kind, subject)) &&
      Resolved(version, TURN, [], OneLetterCandidate(kind, subject)).item.id == OneLetterItem(version, kind, subject)
  {
    OneLetter(subject);
    OneLetter("b");
    OneLetter("c");
    ConcreteScope();
    hide D.ScopeError, Trim, SemanticPart, Text.IsCanonicalId;
    var messages := MessageMap(TURN);
    assert MessagesUpTo(TURN, 0) == map[];
    assert messages == map[RoleMessage(EXPORT, Utf8.User) := TURN.messages[0]];
    TwoLetters();
    assert EvidenceHolds(SourceOf(EXPORT), messages, CLAIM);
    assert OneLetterCandidate(kind, subject).memory.evidence == [CLAIM];
  }

  lemma TwoLetters()
    ensures Utf8.ValidString([104, 105])
  {
    var s: seq<Byte> := [104, 105];
    assert s[1..] == [105] && [105 as Byte][1..] == [];
    assert Utf8.ValidString(s[1..]);
  }

  // From the empty scope, for a state and for an event: the turn commits its candidate, and
  // the same delivery again is refused.
  lemma ConcreteRedelivery(cfg: Config, kind: MemoryKind)
    requires Text.IsCanonicalId(cfg.version) && kind != UnknownMemory
    ensures var a := Delivery(TURN, [OneLetterCandidate(kind, "a")], [OneLetterItem(cfg.version, kind, "a")]);
      && Enabled(cfg, EmptyScope(SCOPE), a)
      && var n := Next(cfg, EmptyScope(SCOPE), a);
         Indexed(n) && !Buildable(cfg.version, TURN, n.version, cfg.derivation, Observation(n), a.candidates)
  {
    hide ValidTurn, Resolves, Resolved, ValidMutation, Fresh, Apply, OneLetterCandidate;
    var s, active := EmptyScope(SCOPE), Observation(EmptyScope(SCOPE));
    var a := Delivery(TURN, [OneLetterCandidate(kind, "a")], [OneLetterItem(cfg.version, kind, "a")]);
    EmptyIsBase(cfg, SCOPE);
    ConcreteTurn();
    ConcreteCandidate(cfg.version, kind, "a");
    assert active == [];
    FirstDeliveryIsValid(cfg, s, TURN, a.candidates);
    ConcreteOrder(cfg, Reconciliations(cfg.version, TURN, active, a.candidates), a.order);
    ListedWhole(cfg, s, a);
    assert Resolved(cfg.version, TURN, active, a.candidates[0]).item.id == a.order[0];
    SameDeliveryIsRefused(cfg, s, a, 0);
  }

  // Two events of one message: they commit, and cannot be reconciled again.
  lemma ConcreteAmbiguity(cfg: Config)
    requires Text.IsCanonicalId(cfg.version)
    ensures var a := Delivery(TURN, [OneLetterCandidate(EventMemory, "a"), OneLetterCandidate(EventMemory, "d")],
                              [OneLetterItem(cfg.version, EventMemory, "a"),
                               OneLetterItem(cfg.version, EventMemory, "d")]);
      && Enabled(cfg, EmptyScope(SCOPE), a)
      && var n := Next(cfg, EmptyScope(SCOPE), a);
         Indexed(n) && !Resolves(cfg.version, TURN, Observation(n), a.candidates[0])
  {
    hide ValidTurn, Resolves, Resolved, ValidMutation, Fresh, Apply;
    var s, active := EmptyScope(SCOPE), Observation(EmptyScope(SCOPE));
    var a := Delivery(TURN, [OneLetterCandidate(EventMemory, "a"), OneLetterCandidate(EventMemory, "d")],
                      [OneLetterItem(cfg.version, EventMemory, "a"), OneLetterItem(cfg.version, EventMemory, "d")]);
    EmptyIsBase(cfg, SCOPE);
    ConcreteTurn();
    ConcreteCandidate(cfg.version, EventMemory, "a");
    ConcreteCandidate(cfg.version, EventMemory, "d");
    assert active == [];
    var rs := Reconciliations(cfg.version, TURN, active, a.candidates);
    assert rs[0].item.id == a.order[0] && rs[1].item.id == a.order[1] && a.order[0] != a.order[1];
    FirstDeliveryIsValid(cfg, s, TURN, a.candidates);
    ConcreteOrder(cfg, rs, a.order);
    assert Enabled(cfg, s, a);
    ListedWhole(cfg, s, a);
    SelfShared([CLAIM]);
    hide OneLetterItem;
    assert a.order[0] in a.order && a.order[1] in a.order;
    TwoEventsAreAmbiguous(cfg, s, a, 0, 1);
  }

  lemma ConcreteOrder(cfg: Config, rs: seq<Reconciliation>, order: seq<ItemId>)
    requires |rs| == |order| && D.Distinct(order) && forall i | 0 <= i < |rs| :: rs[i].item.id == order[i]
    ensures Lists(order, Apply(EmptyScope(SCOPE), Built(TURN, 0, cfg.derivation, [], rs), order).heads)
  {
    hide RevisionFor, Built, Apply, Lists;
    BuiltShape(TURN, 0, cfg.derivation, [], rs);
    HeadsAreListed(SCOPE, Built(TURN, 0, cfg.derivation, [], rs), order);
  }

  lemma HeadsAreListed(scope: D.Scope, m: Mutation, order: seq<ItemId>)
    requires |m.heads| == |order| && D.Distinct(order) && forall i | 0 <= i < |order| :: m.heads[i].item == order[i]
    ensures Lists(order, Apply(EmptyScope(scope), m, order).heads)
  {
    hide D.Distinct;
    assert HeadItems(m) == order;
    PutMeaning(map[], order, HeadRevisions(m));
  }
}
