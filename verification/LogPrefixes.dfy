// A projection as a fold of the change log: which indexes are exactly what the first n
// changes leave, and how replay and rebuilding move from one to the next.
module LogPrefixes {
  import opened Bytes
  import opened CanonicalLog
  import opened ProjectionRebuild

  lemma AnnouncedIsStored(c: Canon, k: nat)
    requires k < |c.log|
    ensures forall i | 0 <= i < |c.log[k].revisionIds| :: c.log[k].revisionIds[i] in c.revisions
  {
    forall i | 0 <= i < |c.log[k].revisionIds| ensures c.log[k].revisionIds[i] in c.revisions {
      assert BelowHead(c, c.log[k].revisionIds[i]);
    }
  }

  // The revisions one change announces.
  function Announced(c: Canon, k: nat): (revisions: seq<Revision>)
    requires k < |c.log|
    ensures |revisions| == |c.log[k].revisionIds|
    ensures forall i | 0 <= i < |revisions| ::
      c.log[k].revisionIds[i] in c.revisions && revisions[i] == c.revisions[c.log[k].revisionIds[i]]
  {
    var ids := c.log[k].revisionIds;
    AnnouncedIsStored(c, k);
    seq(|ids|, i requires 0 <= i < |ids| && ids[i] in c.revisions => c.revisions[ids[i]])
  }

  // The index that the first n changes leave.
  function Fold(c: Canon, n: nat): Index
    requires n <= |c.log|
  {
    if n == 0 then map[] else MergeAll(Fold(c, n - 1), Announced(c, n - 1))
  }

  // The index is the fold of some prefix of the log, at least w changes long.
  ghost predicate AtPrefix(c: Canon, w: nat, x: Index) {
    exists n | w <= n <= |c.log| :: x == Fold(c, n)
  }

  // ----- folds, item by item -----

  ghost predicate StoredBefore(c: Canon, m: nat, r: Revision)
    requires m <= |c.log|
  {
    r.id in c.revisions && c.revisions[r.id] == r && LoggedBefore(c, m, r.id)
  }

  // The index holds all that the first n changes announce, and nothing the first m do not.
  ghost predicate Between(c: Canon, n: nat, m: nat, x: Index) {
    && n <= m <= |c.log| && Covers(c, n, x, {})
    && forall item | item in x :: x[item].item == item && StoredBefore(c, m, x[item])
  }

  lemma StoredLater(c: Canon, m: nat, m': nat, r: Revision)
    requires m <= m' <= |c.log| && StoredBefore(c, m, r)
    ensures StoredBefore(c, m', r)
  {
  }

  lemma {:induction false} MergeStaysBetween(c: Canon, n: nat, m: nat, x: Index, revisions: seq<Revision>)
    requires Between(c, n, m, x) && forall i | 0 <= i < |revisions| :: StoredBefore(c, m, revisions[i])
    ensures Between(c, n, m, MergeAll(x, revisions))
  {
    hide ValidCanon, StoredBefore;
    MergeAllCovers(c, n, n, x, {}, revisions);
    if revisions != [] {
      MergeStaysBetween(c, n, m, x, revisions[..|revisions| - 1]);
    }
  }

  lemma BetweenWidens(c: Canon, n: nat, m: nat, n': nat, m': nat, x: Index)
    requires Between(c, n, m, x) && n' <= n && m <= m' <= |c.log|
    ensures Between(c, n', m', x)
  {
    CoversLess(c, n, n', x, {});
    hide ValidCanon, StoredBefore;
    forall item | item in x ensures StoredBefore(c, m', x[item]) {
      StoredLater(c, m, m', x[item]);
    }
  }

  lemma BetweenGrows(c: Canon, later: Canon, n: nat, m: nat, x: Index)
    requires Grows(c, later) && Between(c, n, m, x)
    ensures Between(later, n, m, x)
  {
    GrowsCovers(c, later, n, x, {});
    forall item | item in x ensures StoredBefore(later, m, x[item]) {
      var k :| 0 <= k < m && x[item].id in c.log[k].revisionIds;
      assert later.log[k] == c.log[k];
    }
  }

  // Merging changes up to e, all of those from n on and none beyond.
  lemma BatchMoves(c: Canon, n: nat, m: nat, e: nat, x: Index, revisions: seq<Revision>)
    requires Between(c, n, m, x) && e <= |c.log|
    requires forall i | 0 <= i < |revisions| :: StoredBefore(c, e, revisions[i])
    requires forall k | n <= k < e :: forall id | id in c.log[k].revisionIds :: c.revisions[id] in revisions
    ensures Between(c, if n < e then e else n, if m < e then e else m, MergeAll(x, revisions))
  {
    var top := if m < e then e else m;
    BetweenWidens(c, n, m, n, top, x);
    forall i | 0 <= i < |revisions| ensures StoredBefore(c, top, revisions[i]) {
      StoredLater(c, e, top, revisions[i]);
    }
    MergeStaysBetween(c, n, top, x, revisions);
    if n < e { MergeAllCovers(c, n, e, x, {}, revisions); }
  }

  lemma {:induction false} FoldIsBetween(c: Canon, n: nat)
    requires n <= |c.log|
    ensures Between(c, n, n, Fold(c, n))
  {
    hide ValidCanon, Between;
    if n == 0 {
      EmptyIsBetween(c);
    } else {
      FoldIsBetween(c, n - 1);
      ChangeMoves(c, n - 1, Fold(c, n - 1));
    }
  }

  lemma EmptyIsBetween(c: Canon)
    ensures Between(c, 0, 0, map[])
  {
  }

  lemma ChangeMoves(c: Canon, n: nat, x: Index)
    requires n < |c.log| && Between(c, n, n, x)
    ensures Between(c, n + 1, n + 1, MergeAll(x, Announced(c, n)))
  {
    AnnouncedIsAll(c, n);
    hide ValidCanon, StoredBefore, Between;
    BatchMoves(c, n, n, n + 1, x, Announced(c, n));
  }

  lemma AnnouncedIsAll(c: Canon, k: nat)
    requires k < |c.log|
    ensures forall id | id in c.log[k].revisionIds :: id in c.revisions && c.revisions[id] in Announced(c, k)
    ensures forall i | 0 <= i < |Announced(c, k)| :: StoredBefore(c, k + 1, Announced(c, k)[i])
  {
    var ids, revisions := c.log[k].revisionIds, Announced(c, k);
    forall id | id in ids ensures id in c.revisions && c.revisions[id] in revisions {
      var i :| 0 <= i < |ids| && ids[i] == id;
      assert revisions[i] == c.revisions[id];
    }
    forall i | 0 <= i < |revisions| ensures StoredBefore(c, k + 1, revisions[i]) {
      assert ids[i] in ids && c.revisions[ids[i]].id == ids[i];
    }
  }

  lemma NumbersDiffer(c: Canon, j: nat, k: nat, a: RevisionId, b: RevisionId)
    requires j < |c.log| && k < |c.log| && a in c.log[j].revisionIds && b in c.log[k].revisionIds
    requires a in c.revisions && b in c.revisions && c.revisions[a].item == c.revisions[b].item
    ensures c.revisions[a].number == c.revisions[b].number ==> a == b
  {
    assert j <= k || k <= j;
  }

  // Two logged revisions of one item with one number are the same.
  lemma NumberNames(c: Canon, a: Revision, b: Revision)
    requires StoredBefore(c, |c.log|, a) && StoredBefore(c, |c.log|, b) && a.item == b.item && a.number == b.number
    ensures a == b
  {
    var j :| 0 <= j < |c.log| && a.id in c.log[j].revisionIds;
    var k :| 0 <= k < |c.log| && b.id in c.log[k].revisionIds;
    hide ValidHeads, Increasing;
    assert a.id == b.id by {
      NumbersDiffer(c, j, k, a.id, b.id);
    }
  }

  lemma AtLeastBoth(c: Canon, n: nat, x: Index, y: Index, item: ItemId)
    requires Between(c, n, n, x) && Between(c, n, n, y) && item in x
    ensures item in y && y[item].number >= x[item].number
  {
    var k :| 0 <= k < n && x[item].id in c.log[k].revisionIds;
    assert AtLeast(y, c.revisions[x[item].id]);
  }

  lemma BetweenAgree(c: Canon, n: nat, x: Index, y: Index, item: ItemId)
    requires Between(c, n, n, x) && Between(c, n, n, y) && item in x
    ensures item in y && x[item] == y[item]
  {
    hide ValidCanon, Covers, StoredBefore;
    AtLeastBoth(c, n, x, y, item);
    AtLeastBoth(c, n, y, x, item);
    BetweenWidens(c, n, n, n, |c.log|, x);
    BetweenWidens(c, n, n, n, |c.log|, y);
    NumberNames(c, x[item], y[item]);
  }

  lemma BetweenIsOne(c: Canon, n: nat, x: Index, y: Index)
    requires Between(c, n, n, x) && Between(c, n, n, y)
    ensures x == y
  {
    hide Between;
    forall item ensures (item in x <==> item in y) && (item in x ==> x[item] == y[item]) {
      if item in x { BetweenAgree(c, n, x, y, item); }
      if item in y { BetweenAgree(c, n, y, x, item); }
    }
  }

  // Such bounds that meet leave one index: the fold.
  lemma BetweenIsFold(c: Canon, n: nat, x: Index)
    requires n <= |c.log| && Between(c, n, n, x)
    ensures x == Fold(c, n)
  {
    hide Between, Fold;
    FoldIsBetween(c, n);
    BetweenIsOne(c, n, x, Fold(c, n));
  }

  // The fold of the whole log is the simple view of the active heads.
  lemma FoldIsHeadView(c: Canon)
    ensures Fold(c, |c.log|) == HeadView(c)
  {
    hide Fold, ValidCanon, HeadView;
    FoldIsBetween(c, |c.log|);
    IsGenuine(c, Fold(c, |c.log|));
    hide Between;
    CaughtUp(c, Fold(c, |c.log|), {});
    AgreeEverywhere(Fold(c, |c.log|), HeadView(c));
  }

  lemma IsGenuine(c: Canon, x: Index)
    requires Between(c, |c.log|, |c.log|, x)
    ensures Genuine(c, x) && Covers(c, |c.log|, x, {})
  {
  }

  lemma AgreeEverywhere(index: Index, view: Index)
    requires AgreesExcept(index, view, {})
    ensures index == view
  {
  }

  // ----- replay -----

  // The index is a fold, or holds parts of one batch of at most reach changes beyond one.
  ghost predicate NearPrefix(c: Canon, w: nat, reach: nat, x: Index) {
    exists n: nat, m: nat :: w <= n && Between(c, n, m, x) && (n == m || m <= w + reach)
  }

  lemma BetweenIsPrefix(c: Canon, w: nat, n: nat, x: Index)
    requires w <= n && Between(c, n, n, x)
    ensures AtPrefix(c, w, x)
  {
    BetweenIsFold(c, n, x);
  }

  lemma PrefixIsBetween(c: Canon, w: nat, x: Index) returns (n: nat)
    requires AtPrefix(c, w, x)
    ensures w <= n && Between(c, n, n, x)
  {
    n :| w <= n <= |c.log| && x == Fold(c, n);
    FoldIsBetween(c, n);
  }

  lemma PrefixIsNear(c: Canon, w: nat, reach: nat, x: Index)
    requires AtPrefix(c, w, x)
    ensures NearPrefix(c, w, reach, x)
  {
    var n := PrefixIsBetween(c, w, x);
  }

  lemma PrefixLess(c: Canon, w: nat, w': nat, x: Index)
    requires AtPrefix(c, w, x) && w' <= w
    ensures AtPrefix(c, w', x)
  {
  }

  lemma PrefixGrows(c: Canon, later: Canon, w: nat, x: Index)
    requires Grows(c, later) && AtPrefix(c, w, x)
    ensures AtPrefix(later, w, x)
  {
    var n := PrefixIsBetween(c, w, x);
    BetweenGrows(c, later, n, n, x);
    BetweenIsPrefix(later, w, n, x);
  }

  lemma NearGrows(c: Canon, later: Canon, w: nat, reach: nat, x: Index)
    requires Grows(c, later) && NearPrefix(c, w, reach, x)
    ensures NearPrefix(later, w, reach, x)
  {
    var n: nat, m: nat :| w <= n && Between(c, n, m, x) && (n == m || m <= w + reach);
    BetweenGrows(c, later, n, m, x);
  }

  // An empty scan: nothing beyond the watermark can have been staged in part.
  lemma NearTheEnd(c: Canon, reach: nat, x: Index)
    requires NearPrefix(c, |c.log|, reach, x)
    ensures AtPrefix(c, |c.log|, x)
  {
    var n: nat, m: nat :| |c.log| <= n && Between(c, n, m, x) && (n == m || m <= |c.log| + reach);
    BetweenIsPrefix(c, |c.log|, n, x);
  }

  // A whole batch makes the index a fold again, whatever part of it was staged before.
  lemma BatchIsPrefix(scanned: Canon, c: Canon, w: nat, reach: nat, e: nat, x: Index, revisions: seq<Revision>)
    requires Grows(scanned, c) && NearPrefix(scanned, w, reach, x)
    requires e == if w + reach < |scanned.log| then w + reach else |scanned.log|
    requires forall i | 0 <= i < |revisions| :: StoredBefore(c, e, revisions[i])
    requires forall k | w <= k < e :: forall id | id in c.log[k].revisionIds :: c.revisions[id] in revisions
    ensures AtPrefix(c, e, MergeAll(x, revisions))
  {
    assert |scanned.log| <= |c.log|;
    hide ValidCanon, StoredBefore, MergeAll, Grows, AtPrefix;
    var n, m := NearBounds(scanned, w, reach, e, x);
    hide NearPrefix, Between;
    BetweenGrows(scanned, c, n, m, x);
    BatchCloses(c, w, n, m, e, x, revisions);
  }

  // Where an index near a prefix stands, seen from the end of the batch.
  lemma NearBounds(c: Canon, w: nat, reach: nat, e: nat, x: Index) returns (n: nat, m: nat)
    requires NearPrefix(c, w, reach, x) && e == if w + reach < |c.log| then w + reach else |c.log|
    ensures w <= n && Between(c, n, m, x) && (n == m || m <= e)
  {
    hide ValidCanon, StoredBefore, Covers;
    n, m :| w <= n && Between(c, n, m, x) && (n == m || m <= w + reach);
  }

  lemma BatchCloses(c: Canon, w: nat, n: nat, m: nat, e: nat, x: Index, revisions: seq<Revision>)
    requires w <= n && Between(c, n, m, x) && (n == m || m <= e) && e <= |c.log|
    requires forall i | 0 <= i < |revisions| :: StoredBefore(c, e, revisions[i])
    requires forall k | w <= k < e :: forall id | id in c.log[k].revisionIds :: c.revisions[id] in revisions
    ensures AtPrefix(c, e, MergeAll(x, revisions))
  {
    BoundsOrdered(c, n, m, x);
    hide ValidCanon, StoredBefore, MergeAll, Between, AtPrefix;
    BatchMoves(c, n, m, e, x, revisions);
    BetweenIsPrefix(c, e, if n < e then e else n, MergeAll(x, revisions));
  }

  lemma BoundsOrdered(c: Canon, n: nat, m: nat, x: Index)
    requires Between(c, n, m, x)
    ensures n <= m <= |c.log|
  {
  }

  // A part of a batch leaves it within the batch's reach.
  lemma PartIsNear(scanned: Canon, c: Canon, w: nat, reach: nat, e: nat, x: Index, revisions: seq<Revision>, done: nat)
    requires Grows(scanned, c) && NearPrefix(scanned, w, reach, x) && e <= w + reach && e <= |c.log|
    requires done <= |revisions| && forall i | 0 <= i < |revisions| :: StoredBefore(c, e, revisions[i])
    ensures NearPrefix(c, w, reach, MergeAll(x, revisions[..done]))
  {
    hide ValidCanon, StoredBefore;
    var n: nat, m: nat :| w <= n && Between(scanned, n, m, x) && (n == m || m <= w + reach);
    BetweenGrows(scanned, c, n, m, x);
    var top := if m < e then e else m;
    BetweenWidens(c, n, m, n, top, x);
    forall i | 0 <= i < done ensures StoredBefore(c, top, revisions[..done][i]) {
      StoredLater(c, e, top, revisions[i]);
    }
    MergeStaysBetween(c, n, top, x, revisions[..done]);
  }

  // ----- rebuilding -----

  // Items read together, at one moment, are the fold up to that moment.
  lemma TogetherIsFold(c: Canon, staged: Index, readAt: map<ItemId, nat>, n: nat)
    requires n <= |c.log| && ReadState(c, staged, readAt) && ReadTogether(c, readAt, n)
    ensures staged == Fold(c, n)
  {
    hide ValidCanon, Fold, Between, Covers, ReadState, ReadTogether;
    TogetherIsStored(c, staged, readAt, n);
    TogetherCovers(c, staged, readAt, n);
    BoundsMeet(c, n, staged);
    BetweenIsFold(c, n, staged);
  }

  lemma BoundsMeet(c: Canon, n: nat, x: Index)
    requires n <= |c.log| && Covers(c, n, x, {})
    requires forall item | item in x :: x[item].item == item && StoredBefore(c, n, x[item])
    ensures Between(c, n, n, x)
  {
    hide ValidCanon, Covers, StoredBefore;
  }

  lemma TogetherIsStored(c: Canon, staged: Index, readAt: map<ItemId, nat>, n: nat)
    requires n <= |c.log| && ReadState(c, staged, readAt) && ReadTogether(c, readAt, n)
    ensures forall item | item in staged :: staged[item].item == item && StoredBefore(c, n, staged[item])
  {
    hide ValidCanon;
  }

  lemma TogetherCovers(c: Canon, staged: Index, readAt: map<ItemId, nat>, n: nat)
    requires n <= |c.log| && ReadState(c, staged, readAt) && ReadTogether(c, readAt, n)
    ensures Covers(c, n, staged, {})
  {
    forall k, id | 0 <= k < n && id in c.log[k].revisionIds
      ensures id in c.revisions && AtLeast(staged, c.revisions[id])
    {
      assert BelowHead(c, id);
      assert c.revisions[id].item in readAt;
    }
  }
}
