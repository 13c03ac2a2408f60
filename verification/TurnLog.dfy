// The change log a scope's turns leave (canonical.go, ScopeChange): when it is the log that
// projections rely on, and what an index makes of it.
module TurnLog {
  import opened Bytes
  import D = Derived
  import C = CanonicalLog
  import L = LogPrefixes
  import opened Turns
  import opened Reconciler
  import opened TurnMutations
  import opened TurnStore

  // The revisions each change announces, in the order of the changes.
  type Log = seq<seq<RevisionId>>

  function Announces(cfg: Config, s: Store, a: Delivery): seq<RevisionId>
    requires Enabled(cfg, s, a)
  {
    RevisionIds(MutationOf(cfg, s, a))
  }

  // The changes of a run.
  ghost function LogOf(cfg: Config, s: Store, actions: seq<Delivery>, t: Store): (log: Log)
    requires Run(cfg, s, actions, t)
    ensures |log| == |actions|
    decreases |actions|
  {
    if actions == [] then []
    else [Announces(cfg, s, actions[0])] + LogOf(cfg, Next(cfg, s, actions[0]), actions[1..], t)
  }

  // Every item a delivery comes to is either new or within reach of the scan.
  ghost predicate ComesToListed(cfg: Config, s: Store, a: Delivery)
    requires Enabled(cfg, s, a)
  {
    forall r | r in MutationOf(cfg, s, a).revisions :: r.item in s.heads ==> r.item in Listed(s)
  }

  ghost predicate StaysListed(cfg: Config, s: Store, actions: seq<Delivery>, t: Store)
    requires Run(cfg, s, actions, t)
    decreases |actions|
  {
    actions == [] ||
    (ComesToListed(cfg, s, actions[0]) && StaysListed(cfg, Next(cfg, s, actions[0]), actions[1..], t))
  }

  // ----- order along the log -----

  ghost predicate InLog(log: Log, id: RevisionId) {
    exists k :: 0 <= k < |log| && id in log[k]
  }

  // The log announces exactly the stored revisions.
  ghost predicate Complete(s: Store, log: Log) {
    && (forall k | 0 <= k < |log| :: forall id | id in log[k] :: id in s.revisions)
    && forall id | id in s.revisions :: InLog(log, id)
  }

  // Of two announcements of one item, the later carries the larger number.
  ghost predicate Rises(s: Store, j: nat, x: RevisionId, k: nat, y: RevisionId)
    requires x in s.revisions && y in s.revisions
  {
    s.revisions[x].item == s.revisions[y].item && (j < k || x != y) ==>
      j < k && s.revisions[x].number < s.revisions[y].number
  }

  ghost predicate Rising(s: Store, log: Log)
    requires Complete(s, log)
  {
    forall j, k | 0 <= j <= k < |log| :: forall x, y | x in log[j] && y in log[k] :: Rises(s, j, x, k, y)
  }

  ghost predicate HighestHeads(s: Store)
    requires Reads(s)
  {
    forall id | id in s.revisions :: BelowHead(s, s.revisions[id])
  }

  ghost predicate InOrder(s: Store, log: Log) {
    Complete(s, log) && Reads(s) && Rising(s, log) && HighestHeads(s)
  }

  // ----- one delivery -----

  // A new revision continues its item's chain exactly when the item is new or listed.
  lemma ContinuesIff(cfg: Config, s: Store, a: Delivery, i: nat)
    requires Base(s, cfg.derivation) && Enabled(cfg, s, a) && i < |MutationOf(cfg, s, a).revisions|
    ensures var r := MutationOf(cfg, s, a).revisions[i];
      && (Continues(s, r) <==> r.item in s.heads ==> r.item in Listed(s))
      && (r.item !in Listed(s) ==> r.number == 1)
  {
    hide Base, Resolves, Resolved, Observation, RevisionFor, ValidTurn, Built, D.Distinct, Apply, Continues;
    hide DistinctItems, Indexed, Listed;
    var rs := Reconciliations(cfg.version, a.t, Observation(s), a.candidates);
    BuiltShape(a.t, s.version, cfg.derivation, Observation(s), rs);
    CandidateIsFresh(cfg, s, a.t, a.candidates[i]);
    ChainContinuesIffListed(cfg, s, a.t, a.candidates[i]);
  }

  // What a delivery does to the revisions and the heads.
  ghost predicate Delivered(s: Store, m: Mutation, n: Store) {
    && (forall id | id in s.revisions :: id in n.revisions && n.revisions[id] == s.revisions[id])
    && (forall r | r in m.revisions :: r.id !in s.revisions && r.id in n.revisions && n.revisions[r.id] == r)
    && (forall id | id in n.revisions :: id in s.revisions || exists r :: r in m.revisions && r.id == id)
    && (forall r | r in m.revisions :: r.item in n.heads && n.heads[r.item] == r.id)
    && (forall item | item in n.heads :: (item in s.heads && n.heads[item] == s.heads[item]) ||
          exists r :: r in m.revisions && r.item == item)
    && (forall item | item in s.heads :: item in n.heads)
    && (forall q, r | q in m.revisions && r in m.revisions && q.item == r.item :: q == r)
  }

  lemma ItemsDiffer(m: Mutation)
    requires AllUnique(m) && |m.heads| == |m.revisions|
    requires forall i | 0 <= i < |m.revisions| :: m.heads[i] == Head(m.revisions[i].item, m.revisions[i].id)
    ensures forall q, r | q in m.revisions && r in m.revisions && q.item == r.item :: q == r
  {
    assert D.Distinct(HeadItems(m));
    assert forall i | 0 <= i < |m.revisions| :: HeadItems(m)[i] == m.revisions[i].item;
    hide AllUnique;
  }

  lemma NewIsApplied(cfg: Config, s: Store, t: Turn, m: Mutation, n: Store, r: Revision)
    requires Fresh(cfg, s, t, m) && Applied(s, m, n) && r in m.revisions
    ensures r.id !in s.revisions && r.id in n.revisions && n.revisions[r.id] == r
    ensures r.item in n.heads && n.heads[r.item] == r.id
  {
    hide Continues, NewItem, D.Distinct, AllUnique, AppliedItems, AppliedOperation;
    var i :| 0 <= i < |m.revisions| && m.revisions[i] == r;
    assert NewRecords(cfg, s, t, m, i);
  }

  // Nothing else is added.
  lemma OthersAreOld(s: Store, m: Mutation, n: Store)
    requires Applied(s, m, n)
    ensures forall id | id in n.revisions :: id in s.revisions || exists r :: r in m.revisions && r.id == id
    ensures forall item | item in n.heads ::
      (item in s.heads && n.heads[item] == s.heads[item]) || exists r :: r in m.revisions && r.item == item
    ensures forall item | item in s.heads :: item in n.heads
  {
    hide AppliedItems, AppliedOperation;
    forall id | id in n.revisions && id !in s.revisions ensures exists r :: r in m.revisions && r.id == id {
      var i :| 0 <= i < |m.revisions| && m.revisions[i].id == id;
      assert m.revisions[i] in m.revisions;
    }
    forall item | item in n.heads && !(item in s.heads && n.heads[item] == s.heads[item])
      ensures exists r :: r in m.revisions && r.item == item {
      var i :| 0 <= i < |m.revisions| && m.revisions[i].item == item;
      assert m.revisions[i] in m.revisions;
    }
  }

  lemma AppliedIsDelivered(cfg: Config, s: Store, t: Turn, m: Mutation, n: Store)
    requires Fresh(cfg, s, t, m) && Applied(s, m, n)
    ensures Delivered(s, m, n)
  {
    ItemsDiffer(m);
    hide *;
    OthersAreOld(s, m, n);
    forall id | id in s.revisions ensures id in n.revisions && n.revisions[id] == s.revisions[id] {
      OldRecordsStay(cfg, s, t, m, n, id);
    }
    forall r | r in m.revisions
      ensures r.id !in s.revisions && r.id in n.revisions && n.revisions[r.id] == r
      ensures r.item in n.heads && n.heads[r.item] == r.id
    {
      NewIsApplied(cfg, s, t, m, n, r);
    }
    DeliveredParts(s, m, n);
  }

  lemma DeliveredParts(s: Store, m: Mutation, n: Store)
    requires forall id | id in s.revisions :: id in n.revisions && n.revisions[id] == s.revisions[id]
    requires forall r | r in m.revisions ::
      && r.id !in s.revisions && r.id in n.revisions && n.revisions[r.id] == r
      && r.item in n.heads && n.heads[r.item] == r.id
    requires forall id | id in n.revisions :: id in s.revisions || exists r :: r in m.revisions && r.id == id
    requires forall item | item in n.heads ::
      (item in s.heads && n.heads[item] == s.heads[item]) || exists r :: r in m.revisions && r.item == item
    requires forall item | item in s.heads :: item in n.heads
    requires forall q, r | q in m.revisions && r in m.revisions && q.item == r.item :: q == r
    ensures Delivered(s, m, n)
  {
  }

  lemma DeliveryContinuesIff(cfg: Config, s: Store, a: Delivery)
    requires Base(s, cfg.derivation) && Enabled(cfg, s, a)
    ensures forall r | r in MutationOf(cfg, s, a).revisions ::
      && (Continues(s, r) <==> r.item in s.heads ==> r.item in Listed(s))
      && (r.item !in Listed(s) ==> r.number == 1)
  {
    var m := MutationOf(cfg, s, a);
    hide *;
    forall r | r in m.revisions
      ensures Continues(s, r) <==> r.item in s.heads ==> r.item in Listed(s)
      ensures r.item !in Listed(s) ==> r.number == 1
    {
      var i :| 0 <= i < |m.revisions| && m.revisions[i] == r;
      ContinuesIff(cfg, s, a, i);
    }
  }

  lemma NextIsApplied(cfg: Config, s: Store, a: Delivery)
    requires Enabled(cfg, s, a)
    ensures Next(cfg, s, a) == Apply(s, MutationOf(cfg, s, a), a.order)
    ensures Next(cfg, s, a).changeSeq == s.changeSeq + 1
  {
    hide ValidTurn, Built, ValidMutation, Resolves, Resolved, Observation, Indexed, D.Distinct, Lists, Put;
  }

  lemma DeliveryMeaning(cfg: Config, s: Store, a: Delivery)
    requires Base(s, cfg.derivation) && Enabled(cfg, s, a)
    ensures Delivered(s, MutationOf(cfg, s, a), Next(cfg, s, a)) && Base(Next(cfg, s, a), cfg.derivation)
    ensures Reads(s) && Reads(Next(cfg, s, a)) && Next(cfg, s, a).changeSeq == s.changeSeq + 1
  {
    NextIsApplied(cfg, s, a);
    MutationIsFresh(cfg, s, a);
    StepKeepsBase(cfg, s, a);
    hide *;
    BaseReads(s, cfg.derivation);
    BaseReads(Next(cfg, s, a), cfg.derivation);
    FreshApplies(cfg, s, a.t, MutationOf(cfg, s, a), a.order);
    AppliedIsDelivered(cfg, s, a.t, MutationOf(cfg, s, a), Next(cfg, s, a));
  }

  lemma BaseReads(s: Store, d: D.Derivation)
    requires Base(s, d)
    ensures Reads(s)
  {
    hide Base;
    BaseIsIndexed(s, d);
  }

  lemma AnnouncedIds(m: Mutation)
    ensures forall id :: id in RevisionIds(m) <==> exists r :: r in m.revisions && r.id == id
  {
    forall id | exists r :: r in m.revisions && r.id == id ensures id in RevisionIds(m) {
      var i :| 0 <= i < |m.revisions| && m.revisions[i].id == id;
      assert RevisionIds(m)[i] == id;
    }
  }

  lemma StaysComplete(s: Store, m: Mutation, n: Store, log: Log)
    requires Delivered(s, m, n) && Complete(s, log)
    ensures Complete(n, log + [RevisionIds(m)])
  {
    AnnouncedIds(m);
    var longer := log + [RevisionIds(m)];
    hide RevisionIds;
    forall id | id in n.revisions ensures InLog(longer, id) {
      if id in s.revisions {
        var k :| 0 <= k < |log| && id in log[k];
        assert longer[k] == log[k];
      } else {
        assert id in longer[|log|];
      }
    }
  }

  lemma OldStays(s: Store, m: Mutation, n: Store, id: RevisionId)
    requires Delivered(s, m, n) && id in s.revisions
    ensures id in n.revisions && n.revisions[id] == s.revisions[id]
  {
  }

  lemma NewStored(s: Store, m: Mutation, n: Store, r: Revision)
    requires Delivered(s, m, n) && r in m.revisions
    ensures r.id !in s.revisions && r.id in n.revisions && n.revisions[r.id] == r
    ensures r.item in n.heads && n.heads[r.item] == r.id
  {
  }

  lemma HeadStays(s: Store, m: Mutation, n: Store, item: ItemId)
    requires Delivered(s, m, n) && item in s.heads && forall r | r in m.revisions :: r.item != item
    ensures item in n.heads && n.heads[item] == s.heads[item]
  {
  }

  lemma OneEach(s: Store, m: Mutation, n: Store, q: Revision, r: Revision)
    requires Delivered(s, m, n) && q in m.revisions && r in m.revisions && q.item == r.item
    ensures q == r
  {
  }

  lemma IsOldOrNew(s: Store, m: Mutation, n: Store, id: RevisionId)
    requires Delivered(s, m, n) && id in n.revisions
    ensures id in s.revisions || exists r :: r in m.revisions && r.id == id
  {
  }

  // If all new revisions continue their chains, the numbers still rise.
  lemma NewRises(s: Store, m: Mutation, n: Store, j: nat, x: RevisionId, k: nat, r: Revision)
    requires Delivered(s, m, n) && Reads(s) && r in m.revisions && Continues(s, r) && j < k
    requires x in s.revisions && BelowHead(s, s.revisions[x])
    ensures x in n.revisions && r.id in n.revisions && Rises(n, j, x, k, r.id)
  {
    hide Delivered;
    OldStays(s, m, n, x);
    NewStored(s, m, n, r);
  }

  lemma OldRises(s: Store, m: Mutation, n: Store, log: Log, j: nat, x: RevisionId, k: nat, y: RevisionId)
    requires Delivered(s, m, n) && Complete(s, log) && Rising(s, log)
    requires j <= k < |log| && x in log[j] && y in log[k]
    ensures x in n.revisions && y in n.revisions && Rises(n, j, x, k, y)
  {
    hide Delivered;
    assert Rises(s, j, x, k, y);
    OldStays(s, m, n, x);
    OldStays(s, m, n, y);
  }

  lemma PairRises(s: Store, m: Mutation, n: Store, log: Log, j: nat, x: RevisionId, k: nat, y: RevisionId)
    requires Delivered(s, m, n) && Complete(s, log) && Reads(s) && Rising(s, log) && HighestHeads(s)
    requires forall r | r in m.revisions :: Continues(s, r)
    requires j <= k <= |log| && x in (log + [RevisionIds(m)])[j] && y in (log + [RevisionIds(m)])[k]
    ensures x in n.revisions && y in n.revisions && Rises(n, j, x, k, y)
  {
    AnnouncedIds(m);
    hide RevisionIds, Continues, BelowHead, Delivered, Rising;
    if k < |log| {
      OldRises(s, m, n, log, j, x, k, y);
    } else {
      var r :| r in m.revisions && r.id == y;
      if j < |log| {
        assert x in log[j];
        NewRises(s, m, n, j, x, k, r);
      } else {
        var q :| q in m.revisions && q.id == x;
        NewPairRises(s, m, n, k, q, r);
      }
    }
  }

  lemma NewPairRises(s: Store, m: Mutation, n: Store, k: nat, q: Revision, r: Revision)
    requires Delivered(s, m, n) && q in m.revisions && r in m.revisions
    ensures q.id in n.revisions && r.id in n.revisions && Rises(n, k, q.id, k, r.id)
  {
    hide Delivered;
    NewStored(s, m, n, q);
    NewStored(s, m, n, r);
    if q.item == r.item { OneEach(s, m, n, q, r); }
  }

  // The head's number can only grow.
  lemma HeadRises(s: Store, m: Mutation, n: Store, id: RevisionId)
    requires Delivered(s, m, n) && id in s.revisions && s.revisions[id].item in s.heads
    requires s.heads[s.revisions[id].item] in s.revisions && BelowHead(s, s.revisions[id])
    requires forall r | r in m.revisions :: Continues(s, r)
    ensures id in n.revisions && n.revisions[id].item in n.heads && n.heads[n.revisions[id].item] in n.revisions &&
      BelowHead(n, n.revisions[id])
  {
    hide *;
    OldStays(s, m, n, id);
    OldStays(s, m, n, s.heads[s.revisions[id].item]);
    if r :| r in m.revisions && r.item == s.revisions[id].item {
      NewStored(s, m, n, r);
      BelowNewHead(s, n, s.revisions[id], r);
    } else {
      HeadStays(s, m, n, s.revisions[id].item);
      BelowOldHead(s, n, s.revisions[id]);
    }
  }

  lemma BelowNewHead(s: Store, n: Store, x: Revision, r: Revision)
    requires x.item in s.heads && s.heads[x.item] in s.revisions && BelowHead(s, x)
    requires Continues(s, r) && r.item == x.item && r.item in n.heads && n.heads[r.item] == r.id
    requires r.id in n.revisions && n.revisions[r.id] == r
    ensures BelowHead(n, x)
  {
  }

  lemma BelowOldHead(s: Store, n: Store, x: Revision)
    requires x.item in s.heads && s.heads[x.item] in s.revisions && BelowHead(s, x)
    requires x.item in n.heads && n.heads[x.item] == s.heads[x.item] && s.heads[x.item] in n.revisions
    requires n.revisions[s.heads[x.item]] == s.revisions[s.heads[x.item]]
    ensures BelowHead(n, x)
  {
  }

  lemma NewIsHead(s: Store, m: Mutation, n: Store, r: Revision)
    requires Delivered(s, m, n) && Reads(n) && r in m.revisions
    ensures r.id in n.revisions && BelowHead(n, n.revisions[r.id])
  {
    hide Delivered;
    NewStored(s, m, n, r);
  }

  lemma StaysHighest(s: Store, m: Mutation, n: Store)
    requires Delivered(s, m, n) && Reads(s) && Reads(n) && HighestHeads(s)
    requires forall r | r in m.revisions :: Continues(s, r)
    ensures HighestHeads(n)
  {
    hide Continues, BelowHead, Delivered;
    forall id | id in n.revisions ensures BelowHead(n, n.revisions[id]) {
      if id in s.revisions {
        HeadRises(s, m, n, id);
      } else {
        IsOldOrNew(s, m, n, id);
        var r :| r in m.revisions && r.id == id;
        NewIsHead(s, m, n, r);
      }
    }
  }

  lemma StaysRising(s: Store, m: Mutation, n: Store, log: Log)
    requires Delivered(s, m, n) && InOrder(s, log) && Complete(n, log + [RevisionIds(m)])
    requires forall r | r in m.revisions :: Continues(s, r)
    ensures Rising(n, log + [RevisionIds(m)])
  {
    hide Delivered, RevisionIds, Continues, Rises, HighestHeads, Reads;
    var longer := log + [RevisionIds(m)];
    forall j, k, x, y | 0 <= j <= k < |longer| && x in longer[j] && y in longer[k] ensures Rises(n, j, x, k, y) {
      PairRises(s, m, n, log, j, x, k, y);
    }
  }

  // A chain that starts again is out of order.
  lemma RestartIsOutOfOrder(s: Store, m: Mutation, n: Store, log: Log, r: Revision)
    requires Delivered(s, m, n) && Complete(s, log) && Complete(n, log + [RevisionIds(m)])
    requires r in m.revisions && r.number == 1 && r.item in s.heads
    requires s.heads[r.item] in s.revisions && s.revisions[s.heads[r.item]].item == r.item
    requires s.revisions[s.heads[r.item]].number >= 1
    ensures !Rising(n, log + [RevisionIds(m)])
  {
    AnnouncedIds(m);
    hide RevisionIds;
    var longer, head := log + [RevisionIds(m)], s.heads[r.item];
    var j :| 0 <= j < |log| && head in log[j];
    assert head in longer[j] && r.id in longer[|log|];
    assert !Rises(n, j, head, |log|, r.id);
  }

  // One delivery keeps the log in order exactly when the items it comes to are new or listed.
  lemma StepKeepsOrderIff(cfg: Config, s: Store, a: Delivery, log: Log)
    requires Base(s, cfg.derivation) && Enabled(cfg, s, a) && InOrder(s, log)
    ensures var n, longer := Next(cfg, s, a), log + [Announces(cfg, s, a)];
      && Complete(n, longer) && (Rising(n, longer) <==> ComesToListed(cfg, s, a))
      && (ComesToListed(cfg, s, a) ==> InOrder(n, longer))
  {
    DeliveryMeaning(cfg, s, a);
    DeliveryContinuesIff(cfg, s, a);
    HeadIsStored(s, cfg.derivation);
    NumbersArePositive(s, cfg.derivation);
    var n, m := Next(cfg, s, a), MutationOf(cfg, s, a);
    hide Base, Enabled, Next, MutationOf, Delivered, Continues, Listed, RevisionIds, Rising, HighestHeads;
    StaysComplete(s, m, n, log);
    if ComesToListed(cfg, s, a) {
      StaysRising(s, m, n, log);
      StaysHighest(s, m, n);
    } else {
      var r :| r in m.revisions && r.item in s.heads && r.item !in Listed(s);
      RestartIsOutOfOrder(s, m, n, log, r);
    }
  }

  // ----- every run -----

  lemma StepKeepsRevisions(cfg: Config, s: Store, a: Delivery)
    requires Base(s, cfg.derivation) && Enabled(cfg, s, a)
    ensures var n := Next(cfg, s, a);
      && Base(n, cfg.derivation) && n.changeSeq == s.changeSeq + 1
      && (forall id | id in s.revisions :: id in n.revisions && n.revisions[id] == s.revisions[id])
      && forall item | item in s.heads :: item in n.heads
  {
    hide Base, Enabled, Next, MutationOf;
    DeliveryMeaning(cfg, s, a);
  }

  lemma {:induction false} RunKeepsRevisions(cfg: Config, s: Store, actions: seq<Delivery>, t: Store)
    requires Base(s, cfg.derivation) && Run(cfg, s, actions, t)
    ensures forall id | id in s.revisions :: id in t.revisions && t.revisions[id] == s.revisions[id]
    ensures forall item | item in s.heads :: item in t.heads
    ensures t.changeSeq == s.changeSeq + |actions|
    decreases |actions|
  {
    hide Base, Enabled, Next, MutationOf;
    if actions != [] {
      StepKeepsRevisions(cfg, s, actions[0]);
      RunKeepsRevisions(cfg, Next(cfg, s, actions[0]), actions[1..], t);
    }
  }

  // What is out of order stays out of order.
  lemma RisingBefore(s: Store, log: Log, t: Store, more: Log)
    requires Complete(s, log) && Complete(t, log + more) && Rising(t, log + more)
    requires forall id | id in s.revisions :: id in t.revisions && t.revisions[id] == s.revisions[id]
    ensures Rising(s, log)
  {
    forall j, k, x, y | 0 <= j <= k < |log| && x in log[j] && y in log[k] ensures Rises(s, j, x, k, y) {
      assert (log + more)[j] == log[j] && (log + more)[k] == log[k];
      assert Rises(t, j, x, k, y);
    }
  }

  lemma StepIsComplete(cfg: Config, s: Store, a: Delivery, log: Log)
    requires Base(s, cfg.derivation) && Enabled(cfg, s, a) && Complete(s, log)
    ensures Complete(Next(cfg, s, a), log + [Announces(cfg, s, a)])
  {
    DeliveryMeaning(cfg, s, a);
    hide Base, Complete, Delivered, RevisionIds, ValidTurn, Buildable, Observation, D.Distinct, Lists, Indexed, Apply;
    hide Built;
    StaysComplete(s, MutationOf(cfg, s, a), Next(cfg, s, a), log);
  }

  lemma {:induction false} RunIsComplete(cfg: Config, s: Store, actions: seq<Delivery>, t: Store, log: Log)
    requires Base(s, cfg.derivation) && Run(cfg, s, actions, t) && Complete(s, log)
    ensures Complete(t, log + LogOf(cfg, s, actions, t))
    decreases |actions|
  {
    hide Base, Enabled, Next, Announces, Complete;
    if actions == [] {
      assert log + LogOf(cfg, s, actions, t) == log;
    } else {
      StepKeepsBase(cfg, s, actions[0]);
      StepIsComplete(cfg, s, actions[0], log);
      RunIsComplete(cfg, Next(cfg, s, actions[0]), actions[1..], t, log + [Announces(cfg, s, actions[0])]);
      LogSteps(cfg, s, actions, t, log);
    }
  }

  lemma LogSteps(cfg: Config, s: Store, actions: seq<Delivery>, t: Store, log: Log)
    requires Run(cfg, s, actions, t) && actions != []
    ensures log + LogOf(cfg, s, actions, t) ==
      (log + [Announces(cfg, s, actions[0])]) + LogOf(cfg, Next(cfg, s, actions[0]), actions[1..], t)
  {
    hide Enabled, Next, Announces;
  }

  // The log of a run is in order exactly when each of its deliveries comes to new or listed
  // items.
  lemma {:induction false} RunKeepsOrderIff(cfg: Config, s: Store, actions: seq<Delivery>, t: Store, log: Log)
    requires Base(s, cfg.derivation) && Run(cfg, s, actions, t) && InOrder(s, log)
    ensures var longer := log + LogOf(cfg, s, actions, t);
      && Complete(t, longer) && (Rising(t, longer) <==> StaysListed(cfg, s, actions, t))
      && (StaysListed(cfg, s, actions, t) ==> InOrder(t, longer))
    decreases |actions|
  {
    hide Base, Enabled, Next, ComesToListed, Announces, Complete, Rising, HighestHeads, Reads;
    if actions == [] {
      assert log + LogOf(cfg, s, actions, t) == log;
    } else {
      var n, longer := Next(cfg, s, actions[0]), log + [Announces(cfg, s, actions[0])];
      StepKeepsBase(cfg, s, actions[0]);
      StepKeepsOrderIff(cfg, s, actions[0], log);
      RunIsComplete(cfg, n, actions[1..], t, longer);
      LogSteps(cfg, s, actions, t, log);
      hide Run, LogOf;
      if ComesToListed(cfg, s, actions[0]) {
        RunKeepsOrderIff(cfg, n, actions[1..], t, longer);
      } else if Rising(t, longer + LogOf(cfg, n, actions[1..], t)) {
        RunKeepsRevisions(cfg, n, actions[1..], t);
        RisingBefore(n, longer, t, LogOf(cfg, n, actions[1..], t));
      }
    }
  }

  // While the scan sees the whole active set, every delivery does.
  lemma {:induction false} SmallStaysListed(cfg: Config, s: Store, actions: seq<Delivery>, t: Store)
    requires Base(s, cfg.derivation) && Run(cfg, s, actions, t) && |t.order| <= MAX_READ
    ensures StaysListed(cfg, s, actions, t)
    decreases |actions|
  {
    hide Base, Enabled, Next, MutationOf;
    if actions != [] {
      RunKeepsBase(cfg, s, actions, t);
      StepKeepsBase(cfg, s, actions[0]);
      HeadIsStored(s, cfg.derivation);
      SmallStaysListed(cfg, Next(cfg, s, actions[0]), actions[1..], t);
    }
  }

  // ----- the log as projections read it -----

  // Identities as byte strings; identities are digests, here any injective naming.
  datatype Names = Names(item: ItemId -> ByteString, revision: RevisionId -> ByteString)

  ghost predicate Injective(names: Names) {
    && (forall a, b :: names.item(a) == names.item(b) ==> a == b)
    && (forall a, b :: names.revision(a) == names.revision(b) ==> a == b)
    && (forall a :: names.item(a) != [])
  }

  function Named(names: Names, r: Revision): C.Revision {
    C.Revision(names.revision(r.id), names.item(r.item), r.number)
  }

  function NamedIds(names: Names, ids: seq<RevisionId>): (named: seq<ByteString>)
    ensures |named| == |ids| && forall i | 0 <= i < |ids| :: named[i] == names.revision(ids[i])
  {
    seq(|ids|, i requires 0 <= i < |ids| => names.revision(ids[i]))
  }

  function NamedLog(names: Names, log: Log): (changes: seq<C.Change>)
    ensures |changes| == |log| && forall k | 0 <= k < |log| :: changes[k] == C.Change(k + 1, NamedIds(names, log[k]))
  {
    seq(|log|, k requires 0 <= k < |log| => C.Change(k + 1, NamedIds(names, log[k])))
  }

  ghost function NamedRevisions(names: Names, s: Store): (revisions: map<C.RevisionId, C.Revision>)
    requires Injective(names)
    ensures forall id | id in s.revisions ::
      names.revision(id) in revisions && revisions[names.revision(id)] == Named(names, s.revisions[id])
  {
    map id | id in s.revisions :: names.revision(id) := Named(names, s.revisions[id])
  }

  ghost function NamedHeads(names: Names, s: Store): (heads: map<C.ItemId, C.RevisionId>)
    requires Injective(names)
    ensures forall item | item in s.heads ::
      names.item(item) in heads && heads[names.item(item)] == names.revision(s.heads[item])
  {
    map item | item in s.heads :: names.item(item) := names.revision(s.heads[item])
  }

  // The scope as a projection sees it, its heads listed in the order of their names.
  ghost function CanonOf(names: Names, s: Store, log: Log, order: seq<C.ItemId>): C.CanonData
    requires Injective(names)
  {
    C.CanonData(NamedLog(names, log), NamedRevisions(names, s), NamedHeads(names, s), order)
  }

  ghost predicate ListsNames(names: Names, s: Store, order: seq<C.ItemId>)
    requires Injective(names)
  {
    C.Sorted(order) && forall name :: name in order <==> name in NamedHeads(names, s)
  }

  lemma NamedInLog(names: Names, ids: seq<RevisionId>, id: RevisionId)
    requires Injective(names)
    ensures names.revision(id) in NamedIds(names, ids) <==> id in ids
  {
    if id in ids {
      var i :| 0 <= i < |ids| && ids[i] == id;
      assert NamedIds(names, ids)[i] == names.revision(id);
    }
    if names.revision(id) in NamedIds(names, ids) {
      var i :| 0 <= i < |ids| && NamedIds(names, ids)[i] == names.revision(id);
      assert ids[i] == id;
    }
  }

  lemma NamedFrom(names: Names, ids: seq<RevisionId>, name: C.RevisionId) returns (id: RevisionId)
    requires name in NamedIds(names, ids)
    ensures id in ids && names.revision(id) == name
  {
    var i :| 0 <= i < |ids| && NamedIds(names, ids)[i] == name;
    id := ids[i];
  }

  lemma RevisionFrom(names: Names, s: Store, name: C.RevisionId) returns (id: RevisionId)
    requires Injective(names) && name in NamedRevisions(names, s)
    ensures id in s.revisions && names.revision(id) == name
  {
    id :| id in s.revisions && names.revision(id) == name;
  }

  lemma HeadFrom(names: Names, s: Store, name: C.ItemId) returns (item: ItemId)
    requires Injective(names) && name in NamedHeads(names, s)
    ensures item in s.heads && names.item(item) == name
  {
    item :| item in s.heads && names.item(item) == name;
  }

  // A stored revision stands below its head exactly when its name does.
  lemma NamedBelowIff(names: Names, s: Store, log: Log, order: seq<C.ItemId>, id: RevisionId)
    requires Injective(names) && id in s.revisions && s.revisions[id].id == id && s.revisions[id].item in s.heads
    requires s.heads[s.revisions[id].item] in s.revisions
    ensures C.BelowHead(CanonOf(names, s, log, order), names.revision(id)) <==> BelowHead(s, s.revisions[id])
  {
    var c := CanonOf(names, s, log, order);
    assert c.revisions[names.revision(id)] == Named(names, s.revisions[id]);
    hide Injective;
    var head := s.heads[s.revisions[id].item];
    assert c.heads[names.item(s.revisions[id].item)] == names.revision(head);
    assert c.revisions[names.revision(head)] == Named(names, s.revisions[head]);
    SameName(names, id, head);
  }

  lemma SameName(names: Names, x: RevisionId, y: RevisionId)
    requires Injective(names)
    ensures names.revision(x) == names.revision(y) <==> x == y
  {
  }

  ghost predicate Stored(s: Store) {
    && Reads(s) && (forall id | id in s.revisions :: s.revisions[id].id == id)
    && forall item | item in s.heads :: s.heads[item] in s.revisions && s.revisions[s.heads[item]].item == item
  }

  lemma BaseIsStored(s: Store, d: D.Derivation)
    requires Base(s, d)
    ensures Stored(s)
  {
    BaseReads(s, d);
    HeadIsStored(s, d);
    hide Reads, ItemFits, RevisionFits, D.Distinct;
  }

  lemma LoggedIsBelow(names: Names, s: Store, log: Log, order: seq<C.ItemId>, k: nat, name: C.RevisionId)
    requires Injective(names) && Stored(s) && Complete(s, log) && HighestHeads(s)
    requires k < |log| && name in NamedIds(names, log[k])
    ensures C.BelowHead(CanonOf(names, s, log, order), name)
  {
    hide Injective, BelowHead, C.BelowHead, CanonOf;
    var id := NamedFrom(names, log[k], name);
    assert BelowHead(s, s.revisions[id]);
    NamedBelowIff(names, s, log, order, id);
  }

  lemma AllBelow(names: Names, s: Store, log: Log, order: seq<C.ItemId>)
    requires Injective(names) && Stored(s) && Complete(s, log) && HighestHeads(s)
    ensures var c := CanonOf(names, s, log, order);
      forall k | 0 <= k < |c.log| :: c.log[k].sequence == k + 1 &&
        forall name | name in c.log[k].revisionIds :: C.BelowHead(c, name)
  {
    var c := CanonOf(names, s, log, order);
    hide Injective, HighestHeads, C.BelowHead, Stored, Complete, NamedRevisions, NamedHeads, NamedIds;
    forall k: nat, name | k < |log| && name in NamedIds(names, log[k]) ensures C.BelowHead(c, name) {
      LoggedIsBelow(names, s, log, order, k, name);
    }
  }

  lemma HeadIsLogged(names: Names, s: Store, log: Log, order: seq<C.ItemId>, name: C.ItemId)
    requires Injective(names) && Stored(s) && Complete(s, log)
    requires name in NamedHeads(names, s)
    ensures C.ValidHead(CanonOf(names, s, log, order), name)
  {
    hide Injective, Reads, NamedIds;
    var c := CanonOf(names, s, log, order);
    var item := HeadFrom(names, s, name);
    var head := s.heads[item];
    assert c.revisions[names.revision(head)] == Named(names, s.revisions[head]);
    assert c.heads[name] == names.revision(head);
    var k :| 0 <= k < |log| && head in log[k];
    NamedInLog(names, log[k], head);
    assert names.revision(head) in c.log[k].revisionIds;
    hide NamedRevisions, NamedHeads, NamedLog, Complete, Stored;
  }

  lemma AllLogged(names: Names, s: Store, log: Log, order: seq<C.ItemId>)
    requires Injective(names) && Stored(s) && Complete(s, log)
    ensures var c := CanonOf(names, s, log, order); forall name | name in c.heads :: C.ValidHead(c, name)
  {
    hide Injective, C.ValidHead, Stored, Complete, NamedRevisions, NamedHeads, NamedIds;
    forall name | name in NamedHeads(names, s) ensures C.ValidHead(CanonOf(names, s, log, order), name) {
      HeadIsLogged(names, s, log, order, name);
    }
  }

  lemma NamedAreKept(names: Names, s: Store)
    requires Injective(names) && Stored(s)
    ensures forall name | name in NamedRevisions(names, s) ::
      NamedRevisions(names, s)[name].id == name && NamedRevisions(names, s)[name].item != []
  {
    hide Reads;
    forall name | name in NamedRevisions(names, s)
      ensures NamedRevisions(names, s)[name].id == name && NamedRevisions(names, s)[name].item != []
    {
      var id := RevisionFrom(names, s, name);
      assert NamedRevisions(names, s)[name] == Named(names, s.revisions[id]);
    }
  }

  lemma HeadsAreValid(names: Names, s: Store, log: Log, order: seq<C.ItemId>)
    requires Injective(names) && Stored(s) && Complete(s, log) && ListsNames(names, s, order) && HighestHeads(s)
    ensures C.ValidHeads(CanonOf(names, s, log, order))
  {
    hide Injective, HighestHeads, C.BelowHead, C.ValidHead, Stored, Complete, C.Sorted, NamedHeads, NamedRevisions;
    hide NamedLog, NamedIds;
    AllBelow(names, s, log, order);
    AllLogged(names, s, log, order);
    NamedAreKept(names, s);
  }

  lemma HeadsAreHighest(names: Names, s: Store, log: Log, order: seq<C.ItemId>)
    requires Injective(names) && Stored(s) && Complete(s, log) && C.ValidHeads(CanonOf(names, s, log, order))
    ensures HighestHeads(s)
  {
    hide BelowHead, C.BelowHead, C.ValidHeads, Injective, CanonOf;
    forall id | id in s.revisions ensures BelowHead(s, s.revisions[id]) {
      var k :| 0 <= k < |log| && id in log[k];
      ValidIsBelow(names, s, log, order, k, id);
      NamedBelowIff(names, s, log, order, id);
    }
  }

  lemma ValidIsBelow(names: Names, s: Store, log: Log, order: seq<C.ItemId>, k: nat, id: RevisionId)
    requires Injective(names) && C.ValidHeads(CanonOf(names, s, log, order)) && k < |log| && id in log[k]
    ensures C.BelowHead(CanonOf(names, s, log, order), names.revision(id))
  {
    hide C.BelowHead, C.ValidHead;
    NamedInLog(names, log[k], id);
    assert names.revision(id) in CanonOf(names, s, log, order).log[k].revisionIds;
  }

  lemma NamedRise(names: Names, s: Store, log: Log, order: seq<C.ItemId>, x: RevisionId, y: RevisionId)
    requires Injective(names) && x in s.revisions && y in s.revisions
    ensures var c := CanonOf(names, s, log, order);
      && names.revision(x) in c.revisions && c.revisions[names.revision(x)] == Named(names, s.revisions[x])
      && names.revision(y) in c.revisions && c.revisions[names.revision(y)] == Named(names, s.revisions[y])
      && (names.item(s.revisions[x].item) == names.item(s.revisions[y].item) <==>
            s.revisions[x].item == s.revisions[y].item)
      && (names.revision(x) == names.revision(y) <==> x == y)
  {
  }

  lemma IncreasingRises(names: Names, s: Store, log: Log, order: seq<C.ItemId>)
    requires Injective(names) && Complete(s, log) && C.ValidHeads(CanonOf(names, s, log, order))
    requires C.Increasing(CanonOf(names, s, log, order))
    ensures Rising(s, log)
  {
    hide C.ValidHeads, C.Increasing, Rises, Injective, CanonOf;
    forall j, k, x, y | 0 <= j <= k < |log| && x in log[j] && y in log[k] ensures Rises(s, j, x, k, y) {
      PairIncreases(names, s, log, order, j, x, k, y);
    }
  }

  lemma PairIncreases(names: Names, s: Store, log: Log, order: seq<C.ItemId>,
      j: nat, x: RevisionId, k: nat, y: RevisionId)
    requires Injective(names) && Complete(s, log) && C.ValidHeads(CanonOf(names, s, log, order))
    requires C.Increasing(CanonOf(names, s, log, order))
    requires j <= k < |log| && x in log[j] && y in log[k]
    ensures Rises(s, j, x, k, y)
  {
    hide C.ValidHeads;
    var c := CanonOf(names, s, log, order);
    NamedInLog(names, log[j], x);
    NamedInLog(names, log[k], y);
    NamedRise(names, s, log, order, x, y);
    assert names.revision(x) in c.log[j].revisionIds && names.revision(y) in c.log[k].revisionIds;
    hide Injective, NamedRevisions, NamedHeads, NamedIds, NamedLog;
  }

  // Of two announced names of one item, the later carries the larger number.
  ghost predicate NamesRise(c: C.CanonData, j: nat, a: C.RevisionId, k: nat, b: C.RevisionId) {
    && a in c.revisions && b in c.revisions
    && (c.revisions[a].item == c.revisions[b].item && (j < k || a != b) ==>
          j < k && c.revisions[a].number < c.revisions[b].number)
  }

  lemma NamedPairRises(names: Names, s: Store, log: Log, order: seq<C.ItemId>,
      j: nat, a: C.RevisionId, k: nat, b: C.RevisionId)
    requires Injective(names) && Complete(s, log) && Rising(s, log) && j <= k < |log|
    requires a in NamedLog(names, log)[j].revisionIds && b in NamedLog(names, log)[k].revisionIds
    ensures NamesRise(CanonOf(names, s, log, order), j, a, k, b)
  {
    hide Injective, CanonOf;
    var x := NamedFrom(names, log[j], a);
    var y := NamedFrom(names, log[k], b);
    NamedRise(names, s, log, order, x, y);
    assert Rises(s, j, x, k, y);
  }

  lemma RisingIncreases(names: Names, s: Store, log: Log, order: seq<C.ItemId>)
    requires Injective(names) && Complete(s, log) && C.ValidHeads(CanonOf(names, s, log, order)) && Rising(s, log)
    ensures C.Increasing(CanonOf(names, s, log, order))
  {
    var c := CanonOf(names, s, log, order);
    assert c.log == NamedLog(names, log);
    hide *;
    forall j: nat, k: nat, a, b | j <= k < |c.log| && a in c.log[j].revisionIds && b in c.log[k].revisionIds
      ensures NamesRise(c, j, a, k, b)
    {
      NamedPairRises(names, s, log, order, j, a, k, b);
    }
    PairsIncrease(c);
  }

  lemma PairsIncrease(c: C.CanonData)
    requires C.ValidHeads(c)
    requires forall j: nat, k: nat, a, b |
      j <= k < |c.log| && a in c.log[j].revisionIds && b in c.log[k].revisionIds :: NamesRise(c, j, a, k, b)
    ensures C.Increasing(c)
  {
    hide C.ValidHeads;
    forall j, k, a, b | 0 <= j <= k < |c.log| && a in c.log[j].revisionIds && b in c.log[k].revisionIds
      ensures NamesRise(c, j, a, k, b)
    {
    }
  }

  lemma IsCanonicalIff(names: Names, s: Store, log: Log, order: seq<C.ItemId>)
    requires Injective(names) && Stored(s) && Complete(s, log) && ListsNames(names, s, order)
    ensures C.ValidCanon(CanonOf(names, s, log, order)) <==> HighestHeads(s) && Rising(s, log)
  {
    hide Injective, Complete, Rising, HighestHeads, Reads, CanonOf, ListsNames, C.ValidHeads, C.Increasing;
    if HighestHeads(s) && Rising(s, log) {
      HeadsAreValid(names, s, log, order);
      RisingIncreases(names, s, log, order);
    }
    if C.ValidCanon(CanonOf(names, s, log, order)) {
      HeadsAreHighest(names, s, log, order);
      IncreasingRises(names, s, log, order);
    }
  }

  lemma RunFromNothing(cfg: Config, s: Store, actions: seq<Delivery>, t: Store)
    requires Base(s, cfg.derivation) && Run(cfg, s, actions, t) && InOrder(s, [])
    ensures var log := LogOf(cfg, s, actions, t);
      && Complete(t, log) && (Rising(t, log) <==> StaysListed(cfg, s, actions, t))
      && (StaysListed(cfg, s, actions, t) ==> InOrder(t, log))
  {
    hide *;
    RunKeepsOrderIff(cfg, s, actions, t, []);
    assert [] + LogOf(cfg, s, actions, t) == LogOf(cfg, s, actions, t);
  }

  // Run after run, the scope's log is a canonical log, as projections take it to be, exactly
  // when every delivery came to items that were new or listed; so always while the active
  // set fits the scan.
  lemma EveryRunIsCanonicalIff(cfg: Config, scope: D.Scope, actions: seq<Delivery>, t: Store, names: Names,
      order: seq<C.ItemId>)
    requires Run(cfg, EmptyScope(scope), actions, t) && Injective(names) && ListsNames(names, t, order)
    ensures var c := CanonOf(names, t, LogOf(cfg, EmptyScope(scope), actions, t), order);
      && |c.log| == t.changeSeq
      && (C.ValidCanon(c) <==> StaysListed(cfg, EmptyScope(scope), actions, t))
      && (|t.order| <= MAX_READ ==> C.ValidCanon(c))
  {
    var s := EmptyScope(scope);
    hide *;
    EmptyIsBase(cfg, scope);
    EmptyIsInOrder(scope);
    RunKeepsBase(cfg, s, actions, t);
    RunKeepsRevisions(cfg, s, actions, t);
    RunFromNothing(cfg, s, actions, t);
    BaseIsStored(t, cfg.derivation);
    RunIsCanonicalIff(names, t, LogOf(cfg, s, actions, t), order, StaysListed(cfg, s, actions, t));
    if |t.order| <= MAX_READ { SmallStaysListed(cfg, s, actions, t); }
  }

  lemma EmptyIsInOrder(scope: D.Scope)
    ensures InOrder(EmptyScope(scope), []) && EmptyScope(scope).changeSeq == 0
  {
  }

  lemma RunIsCanonicalIff(names: Names, t: Store, log: Log, order: seq<C.ItemId>, listed: bool)
    requires Injective(names) && ListsNames(names, t, order) && Stored(t) && Complete(t, log)
    requires (Rising(t, log) <==> listed) && (listed ==> InOrder(t, log))
    ensures var c := CanonOf(names, t, log, order); |c.log| == |log| && (C.ValidCanon(c) <==> listed)
  {
    IsCanonicalIff(names, t, log, order);
    hide Injective, ListsNames, Stored, Complete, Rising, HighestHeads, Reads, C.ValidCanon;
  }

  // The heads of a scope, as an index holds them.
  ghost function HeadIndex(names: Names, s: Store): C.Index
    requires Injective(names) && Stored(s)
  {
    map item | item in s.heads :: names.item(item) := Named(names, s.revisions[s.heads[item]])
  }

  // An index that follows such a log shows every item's head, and nothing else.
  lemma FollowerShowsHeads(names: Names, s: Store, log: Log, order: seq<C.ItemId>)
    requires Injective(names) && Stored(s) && C.ValidCanon(CanonOf(names, s, log, order))
    ensures L.Fold(CanonOf(names, s, log, order), |log|) == HeadIndex(names, s)
  {
    var c: C.Canon := CanonOf(names, s, log, order);
    assert |c.log| == |log|;
    hide L.Fold, C.ValidCanon, Injective, Reads;
    L.FoldIsHeadView(c);
    hide C.HeadView;
    HeadViewIsHeads(names, s, log, order);
  }

  lemma HeadViewIsHeads(names: Names, s: Store, log: Log, order: seq<C.ItemId>)
    requires Injective(names) && Stored(s) && C.ValidCanon(CanonOf(names, s, log, order))
    ensures C.HeadView(CanonOf(names, s, log, order)) == HeadIndex(names, s)
  {
    var c: C.Canon := CanonOf(names, s, log, order);
    HeadViewKeys(c);
    HeadIndexKeys(names, s);
    var view, heads := C.HeadView(c), HeadIndex(names, s);
    assert view.Keys == heads.Keys;
    hide *;
    forall name | name in heads.Keys ensures name in view && view[name] == heads[name] {
      HeadViewAt(names, s, log, order, name);
    }
    SameMaps(view, heads);
  }

  lemma SameMaps(a: C.Index, b: C.Index)
    requires a.Keys == b.Keys && forall name | name in b.Keys :: name in a && a[name] == b[name]
    ensures a == b
  {
  }

  lemma HeadViewKeys(c: C.Canon)
    ensures C.HeadView(c).Keys == c.heads.Keys
  {
    hide C.ValidCanon;
  }

  lemma HeadIndexKeys(names: Names, s: Store)
    requires Injective(names) && Stored(s)
    ensures HeadIndex(names, s).Keys == NamedHeads(names, s).Keys
  {
    hide Reads;
    forall name | name in NamedHeads(names, s) ensures name in HeadIndex(names, s) {
      var item := HeadFrom(names, s, name);
    }
  }

  lemma HeadViewAt(names: Names, s: Store, log: Log, order: seq<C.ItemId>, name: C.ItemId)
    requires Injective(names) && Stored(s) && C.ValidCanon(CanonOf(names, s, log, order))
    requires name in HeadIndex(names, s).Keys
    ensures name in C.HeadView(CanonOf(names, s, log, order))
    ensures C.HeadView(CanonOf(names, s, log, order))[name] == HeadIndex(names, s)[name]
  {
    var c: C.Canon := CanonOf(names, s, log, order);
    HeadIndexKeys(names, s);
    var item := HeadFrom(names, s, name);
    hide C.ValidCanon, Reads;
    assert c.revisions[names.revision(s.heads[item])] == Named(names, s.revisions[s.heads[item]]);
    assert HeadIndex(names, s)[name] == Named(names, s.revisions[s.heads[item]]);
  }

  // ----- what commits may do to it -----

  lemma {:induction false} LogsJoin(cfg: Config, s: Store, first: seq<Delivery>, t: Store, second: seq<Delivery>,
      u: Store)
    requires Run(cfg, s, first, t) && Run(cfg, t, second, u)
    ensures Run(cfg, s, first + second, u)
    ensures LogOf(cfg, s, first + second, u) == LogOf(cfg, s, first, t) + LogOf(cfg, t, second, u)
    decreases |first|
  {
    hide Enabled, Next, Announces;
    RunsJoin(cfg, s, first, t, second, u);
    if first == [] {
      assert first + second == second;
    } else {
      LogsJoin(cfg, Next(cfg, s, first[0]), first[1..], t, second, u);
      assert (first + second)[1..] == first[1..] + second;
    }
  }

  // A set of names has one sorted listing.
  lemma {:induction false} OneListing(a: seq<C.ItemId>, b: seq<C.ItemId>)
    requires C.Sorted(a) && C.Sorted(b) && forall name :: name in a <==> name in b
    ensures a == b
  {
    if a == [] {
      FirstIsIn(b);
    } else {
      var n := |a| - 1;
      assert a[n] in b;
      var m := |b| - 1;
      SameLast(a, b);
      forall name ensures name in a[..n] <==> name in b[..m] {
        LastIsApart(a, name);
        LastIsApart(b, name);
      }
      OneListing(a[..n], b[..m]);
      assert a == a[..n] + [a[n]] && b == b[..m] + [b[m]];
    }
  }

  lemma FirstIsIn(a: seq<C.ItemId>)
    ensures a != [] ==> a[0] in a
  {
  }

  lemma SameLast(a: seq<C.ItemId>, b: seq<C.ItemId>)
    requires C.Sorted(a) && C.Sorted(b) && a != [] && b != [] && a[|a| - 1] in b && b[|b| - 1] in a
    ensures a[|a| - 1] == b[|b| - 1]
  {
    var i :| 0 <= i < |a| && a[i] == b[|b| - 1];
    var j :| 0 <= j < |b| && b[j] == a[|a| - 1];
    if i < |a| - 1 && j < |b| - 1 {
      LessTransitive(a[i], a[|a| - 1], a[i]);
      LessIrreflexive(a[i]);
    }
  }

  lemma LastIsApart(a: seq<C.ItemId>, name: C.ItemId)
    requires C.Sorted(a) && a != []
    ensures name in a[..|a| - 1] <==> name in a && name != a[|a| - 1]
  {
    var n := |a| - 1;
    if name in a[..n] {
      var i :| 0 <= i < n && a[i] == name;
      LessIrreflexive(name);
    }
    assert a == a[..n] + [a[n]];
  }

  // Further deliveries change it only as projections expect of commits: the log grows at its
  // end, revisions stay as they are and items keep a head.
  lemma RunGrows(cfg: Config, scope: D.Scope, first: seq<Delivery>, t: Store, second: seq<Delivery>, u: Store,
      names: Names, order: seq<C.ItemId>, later: seq<C.ItemId>)
    requires Run(cfg, EmptyScope(scope), first, t) && Run(cfg, t, second, u) && |u.order| <= MAX_READ
    requires Injective(names) && ListsNames(names, t, order) && ListsNames(names, u, later)
    ensures Run(cfg, EmptyScope(scope), first + second, u)
    ensures var s := EmptyScope(scope);
      var c := CanonOf(names, t, LogOf(cfg, s, first, t), order);
      var d := CanonOf(names, u, LogOf(cfg, s, first + second, u), later);
      C.ValidCanon(c) && C.ValidCanon(d) && C.Grows(c, d)
  {
    var s := EmptyScope(scope);
    EmptyIsBase(cfg, scope);
    LogsJoin(cfg, s, first, t, second, u);
    hide *;
    RunKeepsBase(cfg, s, first, t);
    RunKeepsBase(cfg, t, second, u);
    RunKeepsRevisions(cfg, t, second, u);
    ExtendsOrder(t, u);
    EveryRunIsCanonicalIff(cfg, scope, first, t, names, order);
    EveryRunIsCanonicalIff(cfg, scope, first + second, u, names, later);
    if second == [] { EmptyRun(cfg, t, u); }
    LongerGrows(names, t, LogOf(cfg, s, first, t), order, u, LogOf(cfg, t, second, u), later);
  }

  lemma EmptyRun(cfg: Config, s: Store, t: Store)
    requires Run(cfg, s, [], t)
    ensures s == t
  {
  }

  lemma ExtendsOrder(s: Store, t: Store)
    requires Extends(s, t)
    ensures |s.order| <= |t.order|
  {
  }

  lemma LongerGrows(names: Names, s: Store, log: Log, order: seq<C.ItemId>, t: Store, more: Log, later: seq<C.ItemId>)
    requires Injective(names) && ListsNames(names, s, order) && ListsNames(names, t, later)
    requires C.ValidCanon(CanonOf(names, s, log, order)) && C.ValidCanon(CanonOf(names, t, log + more, later))
    requires forall id | id in s.revisions :: id in t.revisions && t.revisions[id] == s.revisions[id]
    requires forall item | item in s.heads :: item in t.heads
    requires more == [] ==> s == t
    ensures C.Grows(CanonOf(names, s, log, order), CanonOf(names, t, log + more, later))
  {
    var c, d := CanonOf(names, s, log, order), CanonOf(names, t, log + more, later);
    assert |c.log| == |log| && |d.log| == |log| + |more|;
    LogIsPrefix(names, log, more);
    forall name | name in c.revisions ensures name in d.revisions && d.revisions[name] == c.revisions[name] {
      var id := RevisionFrom(names, s, name);
    }
    forall name | name in c.heads ensures name in d.heads {
      var item := HeadFrom(names, s, name);
    }
    if more == [] {
      OneListing(order, later);
      assert log + more == log;
    }
    hide C.ValidCanon, NamedLog, NamedRevisions, NamedHeads, ListsNames, Injective;
  }

  lemma LogIsPrefix(names: Names, log: Log, more: Log)
    ensures NamedLog(names, log) <= NamedLog(names, log + more)
  {
  }

  // ----- a chain that starts again -----

  function NamedAll(names: Names, revisions: seq<Revision>): (named: seq<C.Revision>)
    ensures |named| == |revisions| && forall i | 0 <= i < |revisions| :: named[i] == Named(names, revisions[i])
  {
    seq(|revisions|, i requires 0 <= i < |revisions| => Named(names, revisions[i]))
  }

  lemma {:induction false} HigherStays(index: C.Index, revisions: seq<C.Revision>, item: C.ItemId)
    requires item in index
    requires forall i | 0 <= i < |revisions| ::
      revisions[i].item == item ==> revisions[i].number <= index[item].number
    ensures item in C.MergeAll(index, revisions) && C.MergeAll(index, revisions)[item] == index[item]
  {
    if revisions != [] {
      HigherStays(index, revisions[..|revisions| - 1], item);
    }
  }

  // An index that keeps the highest number of an item passes over the revision that starts
  // its chain again, and goes on showing the old one, which is no longer the head.
  lemma RestartIsPassedOver(cfg: Config, s: Store, a: Delivery, r: Revision, names: Names, index: C.Index)
    requires Base(s, cfg.derivation) && Enabled(cfg, s, a) && Injective(names)
    requires r in MutationOf(cfg, s, a).revisions && r.item in s.heads && r.item !in Listed(s)
    requires s.heads[r.item] in s.revisions && names.item(r.item) in index
    requires index[names.item(r.item)] == Named(names, s.revisions[s.heads[r.item]])
    ensures var n, after := Next(cfg, s, a), C.MergeAll(index, NamedAll(names, MutationOf(cfg, s, a).revisions));
      && r.item in n.heads && n.heads[r.item] in n.revisions && n.revisions[n.heads[r.item]] == r
      && names.item(r.item) in after && after[names.item(r.item)] == index[names.item(r.item)]
      && after[names.item(r.item)] != Named(names, r)
  {
    var n, m := Next(cfg, s, a), MutationOf(cfg, s, a);
    DeliveryMeaning(cfg, s, a);
    DeliveryContinuesIff(cfg, s, a);
    HeadIsStored(s, cfg.derivation);
    NumbersArePositive(s, cfg.derivation);
    hide Base, Enabled, Next, MutationOf, Listed, Delivered, Continues, C.MergeAll;
    NewStored(s, m, n, r);
    var named := NamedAll(names, m.revisions);
    forall i | 0 <= i < |named| && named[i].item == names.item(r.item)
      ensures named[i].number <= index[names.item(r.item)].number
    {
      OneEach(s, m, n, m.revisions[i], r);
    }
    HigherStays(index, named, names.item(r.item));
  }

  lemma RestartLeavesCanon(cfg: Config, s: Store, a: Delivery, log: Log, r: Revision, names: Names,
      order: seq<C.ItemId>, later: seq<C.ItemId>)
    requires Base(s, cfg.derivation) && Enabled(cfg, s, a) && InOrder(s, log) && Injective(names)
    requires r in MutationOf(cfg, s, a).revisions && r.item in s.heads && r.item !in Listed(s)
    requires ListsNames(names, s, order) && ListsNames(names, Next(cfg, s, a), later)
    ensures C.ValidCanon(CanonOf(names, s, log, order)) && Stored(s) && Stored(Next(cfg, s, a))
    ensures !C.ValidCanon(CanonOf(names, Next(cfg, s, a), log + [Announces(cfg, s, a)], later))
  {
    var n := Next(cfg, s, a);
    assert !ComesToListed(cfg, s, a);
    hide Base, Enabled, Next, MutationOf, ComesToListed, Announces, ListsNames, Injective, C.ValidCanon, CanonOf;
    hide Listed, Complete, Rising, HighestHeads, Reads;
    StepKeepsOrderIff(cfg, s, a, log);
    StepKeepsBase(cfg, s, a);
    BaseIsStored(s, cfg.derivation);
    BaseIsStored(n, cfg.derivation);
    IsCanonicalIff(names, s, log, order);
    IsCanonicalIff(names, n, log + [Announces(cfg, s, a)], later);
  }

  lemma HeadIndexAt(names: Names, s: Store, item: ItemId)
    requires Injective(names) && Stored(s) && item in s.heads
    ensures names.item(item) in HeadIndex(names, s) && s.heads[item] in s.revisions
    ensures HeadIndex(names, s)[names.item(item)] == Named(names, s.revisions[s.heads[item]])
  {
    hide Reads;
  }

  // From a canonical log, a delivery that starts a chain again makes one that is not, and
  // the fold of the old log, whoever merges the change into it, does not become the heads.
  lemma RestartBreaksTheLog(cfg: Config, s: Store, a: Delivery, log: Log, r: Revision, names: Names,
      order: seq<C.ItemId>, later: seq<C.ItemId>)
    requires Base(s, cfg.derivation) && Enabled(cfg, s, a) && InOrder(s, log) && Injective(names)
    requires r in MutationOf(cfg, s, a).revisions && r.item in s.heads && r.item !in Listed(s)
    requires ListsNames(names, s, order) && ListsNames(names, Next(cfg, s, a), later)
    ensures var c, n := CanonOf(names, s, log, order), Next(cfg, s, a);
      && C.ValidCanon(c) && Stored(n) && !C.ValidCanon(CanonOf(names, n, log + [Announces(cfg, s, a)], later))
      && C.MergeAll(L.Fold(c, |log|), NamedAll(names, MutationOf(cfg, s, a).revisions)) != HeadIndex(names, n)
  {
    hide *;
    RestartLeavesCanon(cfg, s, a, log, r, names, order, later);
    FollowerShowsHeads(names, s, log, order);
    HeadIndexAt(names, s, r.item);
    RestartIsPassedOver(cfg, s, a, r, names, HeadIndex(names, s));
    HeadIndexAt(names, Next(cfg, s, a), r.item);
  }
}
