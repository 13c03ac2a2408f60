// A scope with more active items than one scan reads (canonical_processor.go,
// ActiveMemoryScanRequest with limit 256): the chain of an item beyond them starts again.
module TurnCrowd {
  import opened Wrappers
  import D = Derived
  import Text
  import Utf8
  import opened Turns
  import opened Reconciler
  import opened TurnMutations
  import opened TurnStore
  import opened TurnRedelivery
  import C = CanonicalLog
  import L = LogPrefixes
  import opened TurnLog

  // ----- 256 items and one more, all left by one earlier turn -----

  const EARLIER := TurnExport("a:b", "s", "u")

  function CrowdKey(version: string, i: nat): MemoryKey
    requires i <= 256
  {
    MemoryKey(version, "a:b", seq(257 - i, _ => 'a'), "b", "")
  }

  function CrowdItem(version: string, i: nat): ItemId
    requires i <= 256
  {
    StateItem("a:b", CrowdKey(version, i))
  }

  // The last item is the one of the one-letter candidate.
  function CrowdOrder(version: string): (order: seq<ItemId>)
    ensures |order| == 257 && forall i | 0 <= i < 257 :: order[i] == CrowdItem(version, i)
  {
    seq(257, i requires 0 <= i < 257 => CrowdItem(version, i))
  }

  function CrowdRevision(item: ItemId): Revision {
    var source, message := SourceOf(EARLIER), RoleMessage(EARLIER, Utf8.User);
    Revision(RevisionId(item, source, message, "c"), item, 1, [],
             [Utf8.EvidenceRef(source, message, Utf8.User, 0, 2, Utf8.AssertedByUser, NoDigest)])
  }

  function Crowd(version: string, d: D.Derivation): Store {
    var order := CrowdOrder(version);
    Store(SCOPE, 1, 1,
          map item | item in order && item.StateItem? :: Item(item, SCOPE, StateMemory, Some(item.key)),
          map item | item in order :: CrowdRevision(item).id := CrowdRevision(item),
          map item | item in order :: CrowdRevision(item).id,
          order,
          map[OperationOf(EARLIER, d) := OperationRecord(FingerprintOf(EARLIER, d), Outcome(1, 1, []))])
  }

  lemma CrowdIsDistinct(version: string)
    ensures D.Distinct(CrowdOrder(version))
  {
    var order := CrowdOrder(version);
    forall i, j | 0 <= i < j < 257 ensures order[i] != order[j] {
      assert |order[i].key.subject| == 257 - i && |order[j].key.subject| == 257 - j;
    }
  }

  lemma CrowdMembers(version: string, item: ItemId)
    requires item in CrowdOrder(version)
    ensures item.StateItem? && item.scopeKey == "a:b"
  {
    var i :| 0 <= i < 257 && CrowdOrder(version)[i] == item;
  }

  lemma CrowdItems(version: string, d: D.Derivation)
    ensures ItemsAndHeads(Crowd(version, d), d)
  {
    hide D.ScopeError;
    var s := Crowd(version, d);
    ConcreteScope();
    CrowdIsDistinct(version);
    hide D.Distinct, CrowdOrder;
    forall item | item in s.order ensures item.StateItem? && item.scopeKey == "a:b" {
      CrowdMembers(version, item);
    }
    forall item | item in s.items ensures s.items[item].id == item && ItemFits(s, d, s.items[item]) {
      assert SCOPE.key == "a:b";
    }
  }

  lemma CrowdRevisions(version: string, d: D.Derivation)
    ensures Revisions(Crowd(version, d), d)
  {
    hide CrowdOrder;
    var s := Crowd(version, d);
    forall id | id in s.revisions ensures s.revisions[id].id == id && RevisionFits(s, d, s.revisions[id]) {
      var item :| item in s.order && CrowdRevision(item).id == id;
      assert id.item == item;
    }
  }

  lemma CrowdIsBase(version: string, d: D.Derivation)
    ensures Base(Crowd(version, d), d)
  {
    CrowdItems(version, d);
    CrowdRevisions(version, d);
    hide ItemsAndHeads, Revisions, CrowdOrder;
  }

  // The candidate's item has a head, which the scan does not list.
  lemma LastIsUnlisted(version: string, d: D.Derivation)
    ensures var s, item := Crowd(version, d), OneLetterItem(version, StateMemory, "a");
      item in s.heads && item !in Listed(s)
  {
    var order, item := CrowdOrder(version), OneLetterItem(version, StateMemory, "a");
    assert CrowdKey(version, 256).subject == "a";
    assert order[256] == item;
    CrowdIsDistinct(version);
    assert forall i | 0 <= i < 256 :: order[i] != item;
  }

  // The one-letter state candidate is well formed and about its own item, in any scope.
  lemma StateCandidate(cfg: Config)
    requires Text.IsCanonicalId(cfg.version)
    ensures var c := OneLetterCandidate(StateMemory, "a");
      && ValidTurn(TURN) && WellFormed(cfg.version, TURN, c)
      && OwnId(cfg.version, TURN, c) == OneLetterItem(cfg.version, StateMemory, "a")
  {
    var s, c := EmptyScope(SCOPE), OneLetterCandidate(StateMemory, "a");
    EmptyIsBase(cfg, SCOPE);
    BaseIsIndexed(s, cfg.derivation);
    ConcreteTurn();
    ConcreteCandidate(cfg.version, StateMemory, "a");
    assert Observation(s) == [];
    hide Base, ValidTurn, Resolves, Resolved, Observation, Indexed, OneLetterCandidate, WellFormed, OwnId, About;
    ResolvesIff(cfg, s, TURN, c);
    ResolvedNames(cfg, s, TURN, c);
    StateKind();
    TargetIsOwn(cfg.version, s, TURN, c);
  }

  lemma StateKind()
    ensures OneLetterCandidate(StateMemory, "a").kind == StateMemory
  {
  }

  lemma StateIsAboutOne(version: string, s: Store, t: Turn, c: SemanticCandidate)
    requires WellFormed(version, t, c) && Indexed(s) && c.kind == StateMemory
    ensures AboutOneAtMost(version, s, t, c) && ItemOf(version, s, t, c) == OwnId(version, t, c)
  {
  }

  // A turn not committed before, with a well-formed candidate about that item: its revision
  // starts the item's chain again, at number one and without a parent.
  lemma ChainStartsAgain(cfg: Config)
    requires Text.IsCanonicalId(cfg.version)
    ensures var s, c := Crowd(cfg.version, cfg.derivation), OneLetterCandidate(StateMemory, "a");
      && Base(s, cfg.derivation) && Indexed(s) && ValidTurn(TURN) && TURN.scope == s.scope
      && OperationOf(TURN.exportId, cfg.derivation) !in s.operations
      && Resolves(cfg.version, TURN, Observation(s), c)
      && var r := RevisionFor(Observation(s), Resolved(cfg.version, TURN, Observation(s), c));
         r.item in s.heads && r.number == 1 && r.parents == [] && !Continues(s, r)
  {
    var s, c := Crowd(cfg.version, cfg.derivation), OneLetterCandidate(StateMemory, "a");
    CrowdIsBase(cfg.version, cfg.derivation);
    BaseIsIndexed(s, cfg.derivation);
    StateCandidate(cfg);
    LastIsUnlisted(cfg.version, cfg.derivation);
    StateKind();
    TurnIsNew(cfg);
    hide *;
    StateIsAboutOne(cfg.version, s, TURN, c);
    ResolvesIff(cfg, s, TURN, c);
    ResolvedNames(cfg, s, TURN, c);
    ChainContinuesIffListed(cfg, s, TURN, c);
    RevisionForNames(Observation(s), Resolved(cfg.version, TURN, Observation(s), c));
  }

  lemma TurnIsNew(cfg: Config)
    ensures var s := Crowd(cfg.version, cfg.derivation);
      TURN.scope == s.scope && OperationOf(TURN.exportId, cfg.derivation) !in s.operations
  {
    assert "t" != "u";
  }

  // ----- what it does to the log -----

  function CrowdDelivery(version: string): Delivery {
    Delivery(TURN, [OneLetterCandidate(StateMemory, "a")], CrowdOrder(version))
  }

  lemma KnownHeadsStay(s: Store, m: Mutation, order: seq<ItemId>)
    requires D.Distinct(HeadItems(m)) && |m.heads| == |HeadRevisions(m)|
    requires forall item :: item in order <==> item in s.heads
    requires forall item | item in HeadItems(m) :: item in s.heads
    ensures Lists(order, Apply(s, m, order).heads)
  {
    hide D.Distinct;
    PutMeaning(s.heads, HeadItems(m), HeadRevisions(m));
  }

  // A resolved candidate about an item with a head makes a delivery of its own.
  lemma OneDelivers(cfg: Config, s: Store, t: Turn, c: SemanticCandidate)
    requires Base(s, cfg.derivation) && Indexed(s) && ValidTurn(t) && t.scope == s.scope
    requires OperationOf(t.exportId, cfg.derivation) !in s.operations && Resolves(cfg.version, t, Observation(s), c)
    requires Resolved(cfg.version, t, Observation(s), c).item.id in s.heads
    ensures var a := Delivery(t, [c], s.order);
      Enabled(cfg, s, a) && MutationOf(cfg, s, a).revisions ==
        [RevisionFor(Observation(s), Resolved(cfg.version, t, Observation(s), c))]
  {
    hide Base, ValidTurn, ValidMutation, Observation, Indexed, Apply, D.Distinct, Resolves, Resolved, Built, Lists;
    hide RevisionFor;
    var rs := Reconciliations(cfg.version, t, Observation(s), [c]);
    FirstDeliveryIsValid(cfg, s, t, [c]);
    OrderOfHeads(s, cfg.derivation);
    BuiltShape(t, s.version, cfg.derivation, Observation(s), rs);
    var m := Built(t, s.version, cfg.derivation, Observation(s), rs);
    OneHead(m, rs[0].item.id);
    KnownHeadsStay(s, m, s.order);
  }

  lemma OneHead(m: Mutation, item: ItemId)
    requires |m.heads| == 1 && m.heads[0].item == item
    ensures HeadItems(m) == [item] && D.Distinct(HeadItems(m))
  {
  }

  lemma OrderOfHeads(s: Store, d: D.Derivation)
    requires Base(s, d)
    ensures D.Distinct(s.order) && forall item :: item in s.order <==> item in s.heads
  {
    hide ItemFits, RevisionFits, D.Distinct;
  }

  lemma CrowdDeliveryIs(version: string, d: D.Derivation)
    ensures CrowdDelivery(version) == Delivery(TURN, [OneLetterCandidate(StateMemory, "a")], Crowd(version, d).order)
  {
    hide CrowdOrder, OneLetterCandidate;
  }

  // The processor makes a mutation of that turn, and the store accepts it.
  lemma CrowdDelivers(cfg: Config) returns (r: Revision)
    requires Text.IsCanonicalId(cfg.version)
    ensures var s, a := Crowd(cfg.version, cfg.derivation), CrowdDelivery(cfg.version);
      && Enabled(cfg, s, a) && MutationOf(cfg, s, a).revisions == [r]
      && r.item in s.heads && r.item !in Listed(s)
  {
    var s, c := Crowd(cfg.version, cfg.derivation), OneLetterCandidate(StateMemory, "a");
    ChainStartsAgain(cfg);
    r := RevisionFor(Observation(s), Resolved(cfg.version, TURN, Observation(s), c));
    hide *;
    CrowdDeliveryIs(cfg.version, cfg.derivation);
    ChainContinuesIffListed(cfg, s, TURN, c);
    RevisionForNames(Observation(s), Resolved(cfg.version, TURN, Observation(s), c));
    OneDelivers(cfg, s, TURN, c);
  }

  // One change announced all 257.
  function CrowdLog(version: string): Log {
    var order := CrowdOrder(version);
    [seq(257, i requires 0 <= i < 257 => CrowdRevision(order[i]).id)]
  }

  lemma OneChange(version: string)
    ensures |CrowdLog(version)| == 1
  {
  }

  lemma CrowdAnnounced(version: string, d: D.Derivation)
    ensures var s, log := Crowd(version, d), CrowdLog(version);
      && (forall id | id in log[0] :: id in s.revisions) && forall id | id in s.revisions :: id in log[0]
  {
    var s, order, log := Crowd(version, d), CrowdOrder(version), CrowdLog(version);
    hide CrowdOrder;
    forall id | id in log[0] ensures id in s.revisions {
      var i :| 0 <= i < 257 && log[0][i] == id;
      assert CrowdRevision(order[i]).id == id;
    }
    forall id | id in s.revisions ensures id in log[0] {
      var item :| item in order && CrowdRevision(item).id == id;
      var i :| 0 <= i < 257 && order[i] == item;
      assert log[0][i] == id;
    }
  }

  // Each of them is the only revision of its item.
  lemma CrowdHeads(version: string, d: D.Derivation, id: RevisionId)
    requires id in Crowd(version, d).revisions
    ensures var s := Crowd(version, d);
      && s.revisions[id].item == id.item && id.item in s.heads && s.heads[id.item] == id
  {
    hide CrowdOrder;
    var item :| item in CrowdOrder(version) && CrowdRevision(item).id == id;
  }

  lemma CrowdIsInOrder(version: string, d: D.Derivation)
    ensures InOrder(Crowd(version, d), CrowdLog(version))
  {
    var s, log := Crowd(version, d), CrowdLog(version);
    assert |log| == 1;
    CrowdAnnounced(version, d);
    CrowdIsBase(version, d);
    BaseReads(s, d);
    hide Crowd, CrowdLog, CrowdOrder, CrowdRevision, Base;
    forall id | id in s.revisions
      ensures s.revisions[id].item == id.item && id.item in s.heads && s.heads[id.item] == id {
      CrowdHeads(version, d, id);
    }
  }

  // Its items have heads already, so the names to list stay the same.
  lemma KnownItems(s: Store, m: Mutation, n: Store)
    requires Delivered(s, m, n) && forall r | r in m.revisions :: r.item in s.heads
    ensures forall item :: item in n.heads <==> item in s.heads
  {
  }

  lemma SameNames(names: Names, s: Store, n: Store, order: seq<C.ItemId>)
    requires Injective(names) && ListsNames(names, s, order) && forall item :: item in n.heads <==> item in s.heads
    ensures ListsNames(names, n, order)
  {
    hide C.Sorted;
    forall name ensures name in NamedHeads(names, n) <==> name in NamedHeads(names, s) {
      if name in NamedHeads(names, n) { var item := HeadFrom(names, n, name); }
      if name in NamedHeads(names, s) { var item := HeadFrom(names, s, name); }
    }
  }

  lemma SameNamesListed(cfg: Config, s: Store, a: Delivery, names: Names, order: seq<C.ItemId>)
    requires Base(s, cfg.derivation) && Enabled(cfg, s, a) && Injective(names) && ListsNames(names, s, order)
    requires forall r | r in MutationOf(cfg, s, a).revisions :: r.item in s.heads
    ensures ListsNames(names, Next(cfg, s, a), order)
  {
    DeliveryMeaning(cfg, s, a);
    KnownItems(s, MutationOf(cfg, s, a), Next(cfg, s, a));
    hide *;
    SameNames(names, s, Next(cfg, s, a), order);
  }

  // From a scope whose log is canonical, one delivery makes it a log that is not, and the
  // index that followed it, whatever merges the change, does not show the new head.
  lemma CrowdBreaksTheLog(cfg: Config, names: Names, order: seq<C.ItemId>)
    requires Text.IsCanonicalId(cfg.version) && Injective(names)
    requires ListsNames(names, Crowd(cfg.version, cfg.derivation), order)
    ensures var s, a, log := Crowd(cfg.version, cfg.derivation), CrowdDelivery(cfg.version), CrowdLog(cfg.version);
      && Enabled(cfg, s, a) && C.ValidCanon(CanonOf(names, s, log, order))
      && var n, m := Next(cfg, s, a), MutationOf(cfg, s, a);
         && Stored(n) && ListsNames(names, n, order)
         && !C.ValidCanon(CanonOf(names, n, log + [Announces(cfg, s, a)], order))
         && C.MergeAll(L.Fold(CanonOf(names, s, log, order), 1), NamedAll(names, m.revisions)) != HeadIndex(names, n)
  {
    var s, a, log := Crowd(cfg.version, cfg.derivation), CrowdDelivery(cfg.version), CrowdLog(cfg.version);
    OneChange(cfg.version);
    hide *;
    var r := CrowdDelivers(cfg);
    CrowdIsBase(cfg.version, cfg.derivation);
    CrowdIsInOrder(cfg.version, cfg.derivation);
    SameNamesListed(cfg, s, a, names, order);
    RestartBreaksTheLog(cfg, s, a, log, r, names, order, order);
  }
}
