// The canonical side of projection replay (canonical.go): one scope's change log, its
// immutable revisions and its active heads, and an index seen as "the highest revision
// per item".
module CanonicalLog {
  import opened Bytes

  type ItemId = ByteString
  type RevisionId = ByteString

  datatype Revision = Revision(id: RevisionId, item: ItemId, number: nat)
  datatype Change = Change(sequence: nat, revisionIds: seq<RevisionId>)

  // order lists the items that have a head, in item-ID order.
  datatype CanonData = CanonData(log: seq<Change>, revisions: map<RevisionId, Revision>,
      heads: map<ItemId, RevisionId>, order: seq<ItemId>)

  type Index = map<ItemId, Revision>

  predicate Sorted(ids: seq<ItemId>) {
    forall i, j | 0 <= i < j < |ids| :: Less(ids[i], ids[j])
  }

  predicate LoggedBefore(c: CanonData, n: nat, id: RevisionId)
    requires n <= |c.log|
  {
    exists k | 0 <= k < n :: id in c.log[k].revisionIds
  }

  // A logged revision is stored and does not outrank its item's head.
  predicate BelowHead(c: CanonData, id: RevisionId) {
    && id in c.revisions && c.revisions[id].item in c.heads
    && var head := c.heads[c.revisions[id].item];
       head in c.revisions && c.revisions[id].number <= c.revisions[head].number
       && (c.revisions[id].number == c.revisions[head].number ==> id == head)
  }

  predicate ValidHead(c: CanonData, item: ItemId)
    requires item in c.heads
  {
    c.heads[item] in c.revisions && c.revisions[c.heads[item]].item == item && LoggedBefore(c, |c.log|, c.heads[item])
  }

  predicate ValidHeads(c: CanonData) {
    && (forall k | 0 <= k < |c.log| :: c.log[k].sequence == k + 1)
    && (forall id | id in c.revisions :: c.revisions[id].id == id && c.revisions[id].item != [])
    && (forall k | 0 <= k < |c.log| :: forall id | id in c.log[k].revisionIds :: BelowHead(c, id))
    && (forall item | item in c.heads :: ValidHead(c, item))
    && Sorted(c.order)
    && (forall item | item in c.order :: item in c.heads)
    && (forall item | item in c.heads :: item in c.order)
  }

  // Along the log, the revisions of one item carry strictly increasing numbers.
  predicate Increasing(c: CanonData)
    requires ValidHeads(c)
  {
    forall j, k | 0 <= j <= k < |c.log| :: forall a, b | a in c.log[j].revisionIds && b in c.log[k].revisionIds ::
      c.revisions[a].item == c.revisions[b].item && (j < k || a != b) ==>
        j < k && c.revisions[a].number < c.revisions[b].number
  }

  predicate ValidCanon(c: CanonData) {
    ValidHeads(c) && Increasing(c)
  }

  const EMPTY := CanonData([], map[], map[], [])

  // The canonical state of one scope.
  type Canon = c: CanonData | ValidCanon(c) witness EMPTY

  // What any number of commits may do: the log is append-only and revisions are immutable.
  predicate Grows(c: Canon, later: Canon) {
    && c.log <= later.log
    && (forall id | id in c.revisions :: id in later.revisions && later.revisions[id] == c.revisions[id])
    && (forall item | item in c.heads :: item in later.heads)
    && (c.log == later.log ==> c == later)
  }

  lemma GrowsTransitive(a: Canon, b: Canon, c: Canon)
    requires Grows(a, b) && Grows(b, c)
    ensures Grows(a, c)
  {
  }

  // Items keep their heads, so the active index never shrinks.
  lemma OrderGrows(c: Canon, later: Canon)
    requires Grows(c, later)
    ensures |c.order| <= |later.order|
  {
    hide ValidCanon;
    HeadsAreListed(c);
    HeadsAreListed(later);
    AllDifferent(c.order);
    AllDifferent(later.order);
    SubsetIsSmaller(set id | id in c.order, set id | id in later.order);
  }

  lemma SubsetIsSmaller<T>(a: set<T>, b: set<T>)
    requires a <= b
    ensures |a| <= |b|
  {
    assert b == a + (b - a);
  }

  // A sorted list has as many elements as positions.
  lemma {:induction false} AllDifferent(ids: seq<ItemId>)
    requires Sorted(ids)
    ensures |set id | id in ids| == |ids|
  {
    if ids != [] {
      var n := |ids| - 1;
      AllDifferent(ids[..n]);
      assert ids == ids[..n] + [ids[n]];
      assert (set id | id in ids) == (set id | id in ids[..n]) + {ids[n]};
      LessIrreflexive(ids[n]);
      assert ids[n] !in ids[..n];
    }
  }

  // ----- the index -----

  function Merge(index: Index, r: Revision): Index {
    if r.item in index && index[r.item].number >= r.number then index else index[r.item := r]
  }

  function MergeAll(index: Index, revisions: seq<Revision>): Index {
    if revisions == [] then index
    else Merge(MergeAll(index, revisions[..|revisions| - 1]), revisions[|revisions| - 1])
  }

  ghost predicate AtLeast(index: Index, r: Revision) {
    r.item in index && index[r.item].number >= r.number
  }

  // The index is not behind the first n changes, except possibly for the lagging items.
  ghost predicate Covers(c: Canon, n: nat, index: Index, lagging: set<ItemId>)
    requires n <= |c.log|
  {
    forall k | 0 <= k < n :: forall id | id in c.log[k].revisionIds ::
      c.revisions[id].item in lagging || AtLeast(index, c.revisions[id])
  }

  // A stored revision that some change announced.
  ghost predicate IsLogged(c: CanonData, r: Revision) {
    r.id in c.revisions && c.revisions[r.id] == r && LoggedBefore(c, |c.log|, r.id)
  }

  // The index holds only logged revisions, each under its own item.
  ghost predicate Genuine(c: CanonData, index: Index) {
    forall item | item in index :: index[item].item == item && IsLogged(c, index[item])
  }

  // The simple view a projection must agree with.
  function HeadView(c: Canon): Index
  {
    map item | item in c.heads :: c.revisions[c.heads[item]]
  }

  ghost predicate AgreesExcept(index: Index, view: Index, lagging: set<ItemId>) {
    forall item | item !in lagging ::
      (item in index <==> item in view) && (item in index ==> index[item] == view[item])
  }

  // The items some change in log[from..to] touches.
  function ChangedItems(c: Canon, from: nat, to: nat): set<ItemId>
    requires from <= to <= |c.log|
  {
    set k, id | from <= k < to && id in c.log[k].revisionIds :: c.revisions[id].item
  }

  // An index that holds only logged revisions and is behind none of them is exactly the
  // view of the active heads.
  lemma CaughtUp(c: Canon, index: Index, lagging: set<ItemId>)
    requires Genuine(c, index) && Covers(c, |c.log|, index, lagging)
    ensures AgreesExcept(index, HeadView(c), lagging)
  {
    forall item | item !in lagging
      ensures (item in index <==> item in HeadView(c)) && (item in index ==> index[item] == HeadView(c)[item])
    {
      if item in c.heads {
        assert ValidHead(c, item);
        LoggedIsCovered(c, index, lagging, c.heads[item]);
      }
      if item in index {
        LoggedIsBelowHead(c, index[item].id);
      }
    }
  }

  lemma LoggedIsCovered(c: Canon, index: Index, lagging: set<ItemId>, id: RevisionId)
    requires Covers(c, |c.log|, index, lagging) && LoggedBefore(c, |c.log|, id)
    ensures id in c.revisions && (c.revisions[id].item in lagging || AtLeast(index, c.revisions[id]))
  {
  }

  lemma LoggedIsBelowHead(c: Canon, id: RevisionId)
    requires LoggedBefore(c, |c.log|, id)
    ensures BelowHead(c, id)
  {
  }

  lemma HeadsAreListed(c: Canon)
    ensures Sorted(c.order) && forall item :: item in c.heads <==> item in c.order
  {
  }

  lemma CoversLess(c: Canon, n: nat, m: nat, index: Index, lagging: set<ItemId>)
    requires m <= n <= |c.log| && Covers(c, n, index, lagging)
    ensures Covers(c, m, index, lagging)
  {
  }

  lemma GrowsCovers(c: Canon, later: Canon, n: nat, index: Index, lagging: set<ItemId>)
    requires Grows(c, later) && n <= |c.log| && Covers(c, n, index, lagging)
    ensures Covers(later, n, index, lagging)
  {
  }

  lemma GrowsGenuine(c: Canon, later: Canon, index: Index)
    requires Grows(c, later) && Genuine(c, index)
    ensures Genuine(later, index)
  {
  }

  lemma GrowsLogged(c: Canon, later: Canon, r: Revision)
    requires Grows(c, later) && IsLogged(c, r)
    ensures IsLogged(later, r)
  {
    var k :| 0 <= k < |c.log| && r.id in c.log[k].revisionIds;
    assert later.log[k] == c.log[k];
  }

  lemma {:induction false} MergeAllRises(index: Index, revisions: seq<Revision>)
    ensures forall i | 0 <= i < |revisions| :: AtLeast(MergeAll(index, revisions), revisions[i])
    ensures forall item | item in index ::
      item in MergeAll(index, revisions) && MergeAll(index, revisions)[item].number >= index[item].number
  {
    if revisions != [] {
      MergeAllRises(index, revisions[..|revisions| - 1]);
    }
  }

  lemma {:induction false} MergeAllGenuine(c: CanonData, index: Index, revisions: seq<Revision>)
    requires Genuine(c, index) && forall i | 0 <= i < |revisions| :: IsLogged(c, revisions[i])
    ensures Genuine(c, MergeAll(index, revisions))
  {
    if revisions != [] {
      MergeAllGenuine(c, index, revisions[..|revisions| - 1]);
    }
  }

  // Applying some revisions never makes an index fall behind; applying all those of the
  // changes in log[n..m] moves it forward to m.
  lemma MergeAllCovers(c: Canon, n: nat, m: nat, index: Index, lagging: set<ItemId>, revisions: seq<Revision>)
    requires n <= m <= |c.log| && Covers(c, n, index, lagging)
    requires forall k | n <= k < m :: forall id | id in c.log[k].revisionIds :: c.revisions[id] in revisions
    ensures Covers(c, m, MergeAll(index, revisions), lagging)
  {
    MergeAllRises(index, revisions);
  }

  lemma CoversByLag(c: Canon, n: nat, m: nat, index: Index, lagging: set<ItemId>)
    requires n <= m <= |c.log| && Covers(c, n, index, lagging)
    ensures Covers(c, m, index, lagging + ChangedItems(c, n, m))
  {
  }
}
