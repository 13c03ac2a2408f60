// ProjectionCoordinator (projection.go) and ScopeViewBuilder (projection_views.go):
// replaying canonical changes into a disposable index, or rebuilding it from the active
// heads, without ever advertising an index that is behind its watermark.
module Projection {
  import opened Wrappers
  import opened Bytes
  import opened CanonicalLog
  import opened ActivePages
  import opened ProjectionPorts
  import opened ProjectionRebuild
  import opened LogPrefixes
  import opened ProjectionRuns

  const RECENT_LIMIT := 64
  const CHANGED_LIMIT := 64

  // uniqueRevisionIDs: every announced revision once, in order of first appearance.
  method UniqueRevisionIds(changes: seq<Change>) returns (ids: seq<RevisionId>)
    ensures DistinctIds(ids)
    ensures forall id :: id in ids <==> exists k :: 0 <= k < |changes| && id in changes[k].revisionIds
  {
    ids := [];
    var seen: set<RevisionId> := {};
    var k := 0;
    while k < |changes|
      invariant k <= |changes| && DistinctIds(ids)
      invariant forall id :: id in ids <==> id in seen
      invariant forall id :: id in ids <==> exists j :: 0 <= j < k && id in changes[j].revisionIds
    {
      var more := changes[k].revisionIds;
      ghost var before := ids;
      var i := 0;
      while i < |more|
        invariant i <= |more| && DistinctIds(ids)
        invariant forall id :: id in ids <==> id in seen
        invariant forall id :: id in ids <==> id in before || id in more[..i]
      {
        if more[i] !in seen {
          seen := seen + {more[i]};
          ids := ids + [more[i]];
        }
        i := i + 1;
      }
      assert more[..i] == more;
      k := k + 1;
    }
  }

  class Coordinator {
    const world: World
    const batchSize: nat

    ghost predicate Valid()
      reads this, world
    {
      0 < batchSize == world.cfg.batchSize <= MAX_READ && ProjectionPorts.Valid(world.cfg, world.s, world.lag)
    }

    constructor (world: World, batchSize: nat)
      requires 0 < batchSize == world.cfg.batchSize <= MAX_READ && ProjectionPorts.Valid(world.cfg, world.s, world.lag)
      ensures Valid() && this.world == world && this.batchSize == batchSize
    {
      this.world, this.batchSize := world, batchSize;
    }

    // loadRevisions and loadRevisionIDs: reads of at most 256 distinct revisions.
    method LoadRevisions(ids: seq<RevisionId>) returns (r: Result<seq<Revision>>)
      requires Valid() && DistinctIds(ids)
      modifies world
      ensures Valid() && world.lag == old(world.lag) && Drifted(world.cfg, old(world.s), world.s)
      ensures r.Ok? ==> |r.value| == |ids| && forall i | 0 <= i < |ids| ::
        ids[i] in world.s.canon.revisions && r.value[i] == world.s.canon.revisions[ids[i]]
      ensures r.Err? && Known(old(world.s.canon), ids) ==> Disturbed(old(world.s), world.s)
    {
      hide ValidCanon, Known;
      var revisions: seq<Revision> := [];
      var start := 0;
      while start < |ids|
        invariant Valid() && world.lag == old(world.lag) && Drifted(world.cfg, old(world.s), world.s)
        invariant |revisions| == if start < |ids| then start else |ids|
        invariant forall i | 0 <= i < |revisions| ::
          ids[i] in world.s.canon.revisions && revisions[i] == world.s.canon.revisions[ids[i]]
      {
        var end := if start + MAX_READ > |ids| then |ids| else start + MAX_READ;
        ghost var before := world.s;
        KnownPart(old(world.s.canon), before.canon, ids, start, end);
        var batch := world.LoadRevisions(ids[start..end]);
        DriftedTransitive(world.cfg, old(world.s), before, world.s);
        if batch.Err? {
          return Err(batch.code);
        }
        forall i | 0 <= i < end
          ensures ids[i] in world.s.canon.revisions && (revisions + batch.value)[i] == world.s.canon.revisions[ids[i]]
        {
          if i >= start { assert ids[start..end][i - start] == ids[i]; }
        }
        revisions := revisions + batch.value;
        start := start + MAX_READ;
      }
      r := Ok(revisions);
    }

    // One scan of loadActive: the heads of a page and their revisions.
    method ReadPage(after: ItemId, limit: nat) returns (r: Result<seq<Revision>>, ghost at: Canon)
      requires Valid() && 0 < limit <= MAX_READ
      modifies world
      ensures Valid() && world.lag == old(world.lag) && Drifted(world.cfg, old(world.s), world.s)
      ensures Grows(old(world.s.canon), at) && Grows(at, world.s.canon)
      ensures r.Ok? ==> PageOf(at, after, limit, r.value)
      ensures r.Err? ==> Disturbed(old(world.s), world.s)
    {
      var scanned := world.ScanActive(after, limit);
      at := world.s.canon;
      if scanned.Err? {
        r := Err(scanned.code);
      } else if |scanned.value| == 0 {
        r := Ok([]);
      } else {
        ghost var before := world.s;
        PageItems(at, after, limit, scanned.value);
        r := LoadHeads(scanned.value);
        DriftedTransitive(world.cfg, old(world.s), before, world.s);
        if r.Ok? { PageWasLoaded(at, world.s.canon, Page(at.order, after, limit), scanned.value, r.value); }
      }
    }

    // The revisions of a page of heads; a head whose revision is missing or belongs to
    // another item fails the read.
    method LoadHeads(items: seq<(ItemId, RevisionId)>) returns (r: Result<seq<Revision>>)
      requires Valid() && |items| > 0
      requires forall i | 0 <= i < |items| ::
        items[i].0 in world.s.canon.heads && world.s.canon.heads[items[i].0] == items[i].1
      requires forall i, j | 0 <= i < j < |items| :: items[i].0 != items[j].0
      modifies world
      ensures Valid() && world.lag == old(world.lag) && Drifted(world.cfg, old(world.s), world.s)
      ensures r.Ok? ==> |r.value| == |items| && forall i | 0 <= i < |items| ::
        items[i].1 in world.s.canon.revisions && r.value[i] == world.s.canon.revisions[items[i].1] &&
          r.value[i].item == items[i].0
      ensures r.Err? ==> Disturbed(old(world.s), world.s)
    {
      hide ValidCanon, Known;
      var ids := seq(|items|, i requires 0 <= i < |items| => items[i].1);
      HeadsAreDistinct(world.s.canon, items, ids);
      HeadsAreKnown(world.s.canon, items, ids);
      r := LoadRevisions(ids);
      if r.Ok? {
        var loaded := r.value;
        HeadsAreTheirs(old(world.s.canon), world.s.canon, items, loaded);
        if exists i | 0 <= i < |items| :: loaded[i].id != items[i].1 || loaded[i].item != items[i].0 {
          r := Err(StoreFailure);
        }
      }
    }

    // loadActive: pages of active heads up to the limit, and a probe that tells whether
    // more remain. A limit within the read bound is met by the first page.
    method LoadActive(after: ItemId, limit: nat) returns (r: Result<(seq<Revision>, bool)>, ghost at: Canon)
      requires Valid() && 0 < limit <= MAX_READ
      modifies world
      ensures Valid() && world.lag == old(world.lag) && Drifted(world.cfg, old(world.s), world.s)
      ensures Grows(old(world.s.canon), at) && Grows(at, world.s.canon)
      ensures r.Ok? ==> ViewOf(at, after, limit, View(|old(world.s.canon.log)|, r.value.0, r.value.1))
      ensures r.Ok? && r.value.1 ==> MoreAfter(world.s.canon, r.value.0)
      ensures r.Err? ==> Disturbed(old(world.s), world.s)
    {
      hide ValidCanon, Page, ViewOf, PageOf, MoreAfter;
      var pages;
      pages, at := ReadPages(after, limit);
      if pages.Err? {
        r := Err(pages.code);
      } else if |pages.value| == 0 || |pages.value| < limit {
        r := Ok((pages.value, false));
        ShortPageIsLast(at, after, limit, |old(world.s.canon.log)|, pages.value);
      } else {
        ghost var before := world.s;
        var probe := world.ScanActive(pages.value[|pages.value| - 1].item, 1);
        DriftedTransitive(world.cfg, old(world.s), before, world.s);
        GrowsTransitive(at, before.canon, world.s.canon);
        if probe.Err? {
          r := Err(probe.code);
        } else {
          if |probe.value| == 0 {
            ProbeIsEmpty(at, world.s.canon, after, limit, |old(world.s.canon.log)|, pages.value);
          } else {
            ProbeFinds(world.s.canon, pages.value);
            FullPageIsView(at, after, limit, |old(world.s.canon.log)|, pages.value);
          }
          r := Ok((pages.value, |probe.value| != 0));
        }
      }
    }

    // The scanning loop of loadActive.
    method ReadPages(after: ItemId, limit: nat) returns (r: Result<seq<Revision>>, ghost at: Canon)
      requires Valid() && 0 < limit <= MAX_READ
      modifies world
      ensures Valid() && world.lag == old(world.lag) && Drifted(world.cfg, old(world.s), world.s)
      ensures Grows(old(world.s.canon), at) && Grows(at, world.s.canon)
      ensures r.Ok? ==> PageOf(at, after, limit, r.value)
      ensures r.Err? ==> Disturbed(old(world.s), world.s)
    {
      hide ValidCanon, Page, PageRevisions;
      var active: seq<Revision> := [];
      var cursor := after;
      at := world.s.canon;
      var more := true;
      while |active| < limit && more
        invariant Valid() && world.lag == old(world.lag) && Drifted(world.cfg, old(world.s), world.s)
        invariant Grows(old(world.s.canon), at) && Grows(at, world.s.canon)
        invariant if |active| < limit && more then active == [] && cursor == after else PageOf(at, after, limit, active)
        decreases limit - |active|, more
      {
        var pageLimit := if limit - |active| > MAX_READ then MAX_READ else limit - |active|;
        ghost var before := world.s;
        var page;
        page, at := ReadPage(cursor, pageLimit);
        DriftedTransitive(world.cfg, old(world.s), before, world.s);
        GrowsTransitive(old(world.s.canon), before.canon, at);
        if page.Err? {
          r := Err(page.code);
          return;
        }
        HeadsAreListed(at);
        PageIsExact(at.order, after, limit);
        assert active + page.value == page.value;
        active := active + page.value;
        if |page.value| == 0 || |page.value| < pageLimit {
          more := false;
        } else {
          cursor := page.value[|page.value| - 1].item;
        }
      }
      r := Ok(active);
    }

    // loadChanges: reads that a view makes and an index rebuild does not use.
    method LoadChanges(after: nat, limit: nat) returns (r: Result<seq<Revision>>)
      requires Valid() && limit <= MAX_READ
      modifies world
      ensures Valid() && world.lag == old(world.lag) && Drifted(world.cfg, old(world.s), world.s)
      ensures r.Err? ==> Disturbed(old(world.s), world.s)
    {
      if limit == 0 {
        return Ok([]);
      }
      hide ValidCanon, Known;
      var changes := world.ScanChanges(after, limit);
      if changes.Err? {
        return Err(changes.code);
      }
      var ids := UniqueRevisionIds(changes.value);
      ChangesAreKnown(world.s, after, limit, ids);
      ghost var before := world.s;
      r := LoadRevisions(ids);
      DriftedTransitive(world.cfg, old(world.s), before, world.s);
    }

    // Build: the change sequence is read first, so a page is never older than it.
    method Build(after: ItemId, limit: nat, activeOnly: bool) returns (r: Result<View>, ghost at: Canon)
      requires Valid() && 0 < limit <= MAX_READ
      modifies world
      ensures Valid() && world.lag == old(world.lag) && Drifted(world.cfg, old(world.s), world.s)
      ensures Grows(old(world.s.canon), at) && Grows(at, world.s.canon)
      ensures r.Ok? ==> ViewOf(at, after, limit, r.value) && |old(world.s.canon.log)| <= r.value.changeSeq
      ensures r.Ok? && r.value.truncated ==> MoreAfter(world.s.canon, r.value.active)
      ensures r.Err? ==> Disturbed(old(world.s), world.s)
    {
      var changeSeq := world.LoadChangeSeq();
      ghost var mid := world.s;
      at := world.s.canon;
      if changeSeq.Err? {
        return Err(changeSeq.code), at;
      }
      var active;
      active, at := LoadActive(after, limit);
      DriftedTransitive(world.cfg, old(world.s), mid, world.s);
      GrowsTransitive(old(world.s.canon), mid.canon, at);
      if active.Err? {
        return Err(active.code), at;
      }
      if !activeOnly {
        var recentAfter := if changeSeq.value > RECENT_LIMIT then changeSeq.value - RECENT_LIMIT else 0;
        mid := world.s;
        var recent := LoadChanges(recentAfter, RECENT_LIMIT);
        DriftedTransitive(world.cfg, old(world.s), mid, world.s);
        GrowsTransitive(at, mid.canon, world.s.canon);
        if active.value.1 { MoreAfterGrows(mid.canon, world.s.canon, active.value.0); }
        if recent.Err? {
          return Err(recent.code), at;
        }
        mid := world.s;
        var changed := LoadChanges(0, CHANGED_LIMIT);
        DriftedTransitive(world.cfg, old(world.s), mid, world.s);
        GrowsTransitive(at, mid.canon, world.s.canon);
        if active.value.1 { MoreAfterGrows(mid.canon, world.s.canon, active.value.0); }
        if changed.Err? {
          return Err(changed.code), at;
        }
      }
      r := Ok(View(changeSeq.value, active.value.0, active.value.1));
    }

    // The paged rebuild: pages of active heads until one reports that no more remain. The
    // reported watermark is the change sequence of the last page.
    method RebuildPaged() returns (r: Result<nat>, ghost pages: nat)
      requires Valid() && world.cfg.hasRetention && world.s.floor > Watermark(world.cfg, world.s)
      modifies world
      ensures Valid() && Kept(world.cfg, old(world.Now()), world.Now())
      ensures r.Err? ==> world.lag.staged == old(world.lag.staged)
      ensures r.Err? ==>
        world.lag.rebuilding || (world.s.index == old(world.s.index) && world.lag == old(world.lag))
      ensures r.Ok? ==> Rebuilt(world.s, world.lag, old(world.s), r.value)
      ensures r.Ok? && (pages <= 1 || world.s.canon == old(world.s.canon)) ==>
        world.lag.staged == {} && AtPrefix(world.s.canon, r.value, world.s.index.staged)
      ensures r.Ok? && pages > 1 ==> |world.s.canon.order| > batchSize
      ensures r.Err? ==> Disturbed(old(world.s), world.s)
    {
      pages := 0;
      var begun := world.BeginRebuild();
      if begun.Err? {
        r := Err(begun.code);
      } else {
        ghost var mid := world.Now();
        r, pages := RebuildStaged();
        KeptTransitive(world.cfg, old(world.Now()), mid, world.Now());
        if r.Ok? { RebuiltSince(world.s, world.lag, old(world.s), mid.s, r.value); }
        if world.s.canon == old(world.s.canon) {
          GrowsBothWays(old(world.s.canon), old(world.s.canon), mid.s.canon, world.s.canon);
        }
      }
    }

    // The pages and the end of a rebuild that has begun.
    method RebuildStaged() returns (r: Result<nat>, ghost pages: nat)
      requires Valid() && world.lag.rebuilding && world.s.index.staged == map[]
      modifies world
      ensures Valid() && Kept(world.cfg, old(world.Now()), world.Now())
      ensures r.Err? ==> world.lag.staged == old(world.lag.staged) && world.lag.rebuilding
      ensures r.Ok? ==> Rebuilt(world.s, world.lag, old(world.s), r.value)
      ensures r.Ok? && (pages <= 1 || world.s.canon == old(world.s.canon)) ==>
        world.lag.staged == {} && AtPrefix(world.s.canon, r.value, world.s.index.staged)
      ensures r.Ok? && pages > 1 ==> |world.s.canon.order| > batchSize
      ensures r.Err? ==> Disturbed(old(world.s), world.s)
    {
      ghost var start := world.s.canon;
      ghost var p;
      r, p := RebuildPages(start);
      pages := |p.views|;
      if r.Ok? {
        ghost var mid := world.Now();
        var ended := EndRebuild(r.value, start, p.readAt);
        KeptTransitive(world.cfg, old(world.Now()), mid, world.Now());
        if ended.Err? {
          r := Err(ended.code);
        }
        OrderGrows(mid.s.canon, world.s.canon);
        if r.Ok? && (pages <= 1 || world.s.canon == start) {
          if world.s.canon == start { GrowsBothWays(start, start, mid.s.canon, world.s.canon); }
          FinishedIsPrefix(start, mid.s.canon, world.s.index.staged, p.readAt, r.value, pages);
          PrefixGrows(mid.s.canon, world.s.canon, r.value, world.s.index.staged);
        }
      }
    }

    // The loop over pages, whose views are what is staged in the end. In a scope that does
    // not change they list the whole active index in its order, each item once.
    method RebuildPages(ghost start: Canon) returns (r: Result<nat>, ghost p: Pages)
      requires Valid() && world.lag.rebuilding && world.s.index.staged == map[] && world.s.canon == start
      modifies world
      ensures Valid() && Kept(world.cfg, old(world.Now()), world.Now())
      ensures world.lag.staged == old(world.lag.staged) && world.lag.rebuilding
      ensures r.Ok? ==> Progress(start, world.s.canon, world.s.index.staged, p.readAt, Finished, r.value, |p.views|)
      ensures r.Ok? ==> world.s.index.staged == StagedBy(p.views)
      ensures r.Ok? && world.s.canon == start ==> ItemsListed(p.views) == start.order && Sorted(start.order)
      ensures r.Ok? && |p.views| > 1 ==> |world.s.canon.order| > batchSize
      ensures r.Err? ==> Disturbed(old(world.s), world.s)
    {
      hide ValidCanon, Progress, Paged, Distance, ItemsListed, StagedBy, Sorted;
      p := Pages(map[], At([]), 0, []);
      NothingPaged(start, batchSize);
      var cursor := At([]);
      var watermark := 0;
      while cursor.At?
        invariant Valid() && Kept(world.cfg, old(world.Now()), world.Now()) && world.lag.rebuilding
        invariant world.lag.staged == old(world.lag.staged)
        invariant p.cursor == cursor && p.watermark == watermark
        invariant Paged(start, world.s.canon, world.s.index.staged, p, batchSize)
        decreases world.cfg.horizon - |world.s.canon.log|, Distance(world.s.canon, cursor)
      {
        ghost var before := world.Now();
        var view;
        view, p := RebuildPage(cursor.after, start, p);
        KeptTransitive(world.cfg, old(world.Now()), before, world.Now());
        if view.Err? {
          r := Err(view.code);
          return;
        }
        watermark := view.value.changeSeq;
        cursor := NextCursor(view.value);
      }
      PagesEnded(start, world.s.canon, world.s.index.staged, p, batchSize);
      r := Ok(watermark);
    }

    // One step of the paged rebuild: a view, applied to the index.
    method RebuildPage(after: ItemId, ghost start: Canon, ghost p: Pages) returns (r: Result<View>, ghost p': Pages)
      requires Valid() && world.lag.rebuilding && p.cursor == At(after)
      requires Paged(start, world.s.canon, world.s.index.staged, p, batchSize)
      modifies world
      ensures Valid() && Kept(world.cfg, old(world.Now()), world.Now()) && world.lag.rebuilding
      ensures world.lag.staged == old(world.lag.staged)
      ensures r.Ok? ==> Paged(start, world.s.canon, world.s.index.staged, p', batchSize)
      ensures r.Ok? ==> p'.cursor == NextCursor(r.value) && p'.watermark == r.value.changeSeq
      ensures r.Ok? ==> p'.views == p.views + [r.value]
      ensures r.Ok? ==> (|old(world.s.canon).log| < |world.s.canon.log|
                         || Distance(world.s.canon, NextCursor(r.value)) < Distance(old(world.s.canon), At(after)))
      ensures r.Err? ==> Disturbed(old(world.s), world.s)
    {
      hide ValidCanon, Paged, MoreAfter, ViewOf, Progress, PageOf, Distance, MergeAll;
      ghost var before, at := world.Now(), world.s.canon;
      r, at := Build(after, batchSize, true);
      p' := p;
      if r.Ok? {
        ghost var mid := world.Now();
        ViewIsLogged(at, mid.s.canon, after, batchSize, r.value);
        var applied := world.Apply(r.value.active);
        KeptTransitive(world.cfg, before, mid, world.Now());
        if applied.Err? {
          r := Err(applied.code);
        } else {
          p' := PageApplied(start, before.s.canon, at, mid.s.canon, world.s.canon, before.s.index.staged, p, r.value,
            batchSize);
        }
      }
    }

    // EndProjectionRebuild: the staged index is complete again, except for the items that
    // changed after their page was read.
    method EndRebuild(watermark: nat, ghost start: Canon, ghost readAt: map<ItemId, nat>) returns (r: Result<()>)
      requires Valid() && Grows(start, world.s.canon)
      requires Watermark(world.cfg, world.s) <= |start.log| <= watermark <= |world.s.canon.log|
      requires ReadState(world.s.canon, world.s.index.staged, readAt) && ReadAll(start, readAt)
      modifies world
      ensures Valid() && Kept(world.cfg, old(world.Now()), world.Now())
      ensures r.Err? ==> world.lag == old(world.lag)
      ensures watermark <= |world.s.canon.log|
      ensures r.Ok? ==> !world.lag.rebuilding && world.s.index == old(world.s.index)
      ensures r.Ok? ==> world.lag.staged == Behind(old(world.s.canon), readAt, watermark)
      ensures r.Ok? ==> Covers(world.s.canon, watermark, world.s.index.staged, world.lag.staged)
      ensures r.Ok? ==> world.lag.staged <= ChangedItems(world.s.canon, |start.log|, watermark)
      ensures r.Err? ==> Disturbed(old(world.s), world.s)
    {
      ghost var before := world.s;
      r := world.Acknowledge();
      if r.Ok? {
        ReadStateGrows(before.canon, world.s.canon, world.s.index.staged, readAt);
        GrowsTransitive(start, before.canon, world.s.canon);
        BehindIsStable(before.canon, world.s.canon, readAt, watermark);
        BehindCovers(world.s.canon, world.s.index.staged, readAt, watermark);
        ReadAllCovers(start, world.s.canon, readAt, watermark);
        CoversLess(world.s.canon, watermark, Watermark(world.cfg, world.s), world.s.index.staged,
                   Behind(world.s.canon, readAt, watermark));
        world.FinishRebuild(Behind(world.s.canon, readAt, watermark));
      }
    }

    // The rebuild from one view, which must hold every head.
    method RebuildWhole() returns (r: Result<nat>)
      requires Valid() && world.cfg.hasRetention && world.s.floor > Watermark(world.cfg, world.s)
      modifies world
      ensures Valid() && Kept(world.cfg, old(world.Now()), world.Now())
      ensures r.Err? ==> world.lag.staged == old(world.lag.staged)
      ensures r.Err? ==>
        world.lag.rebuilding || (world.s.index == old(world.s.index) && world.lag == old(world.lag))
      ensures r.Ok? ==> Rebuilt(world.s, world.lag, old(world.s), r.value) && world.lag.staged == {}
      ensures r.Ok? ==> AtPrefix(world.s.canon, r.value, world.s.index.staged)
      ensures r.Ok? ==> |old(world.s.canon.order)| <= MAX_READ
      ensures r.Err? ==>
        Disturbed(old(world.s), world.s) || (r.code == LimitExceeded && |world.s.canon.order| > MAX_READ)
    {
      hide ValidCanon, ViewOf, MoreAfter, AtPrefix;
      ghost var at;
      var view;
      view, at := Build([], MAX_READ, false);
      if view.Err? {
        r := Err(view.code);
      } else if view.value.truncated {
        r := Err(LimitExceeded);
        MoreNeedsRoom(at, world.s.canon, [], MAX_READ, view.value);
      } else {
        ghost var mid := world.Now();
        ViewIsLogged(at, mid.s.canon, [], MAX_READ, view.value);
        var rebuilt := world.Rebuild(view.value.active);
        KeptTransitive(world.cfg, old(world.Now()), mid, world.Now());
        if rebuilt.Err? {
          r := Err(rebuilt.code);
        } else {
          r := Ok(view.value.changeSeq);
          GrowsTransitive(at, mid.s.canon, world.s.canon);
          WholeViewCovers(at, world.s.canon, view.value);
          WholeHolds(old(world.s.canon), at, view.value);
          CoversLess(world.s.canon, r.value, Watermark(world.cfg, world.s), world.s.index.staged, {});
          world.FinishRebuild({});
        }
      }
    }

    // rebuildFromCanonical: by pages when the index can, else by one view, else not at all.
    method RebuildFromCanonical() returns (r: Result<nat>, ghost pages: nat)
      requires Valid() && world.cfg.hasRetention && world.s.floor > Watermark(world.cfg, world.s)
      modifies world
      ensures Valid() && Kept(world.cfg, old(world.Now()), world.Now())
      ensures r.Err? ==> world.lag.staged == old(world.lag.staged)
      ensures r.Err? ==>
        world.lag.rebuilding || (world.s.index == old(world.s.index) && world.lag == old(world.lag))
      ensures r.Ok? ==> Rebuilt(world.s, world.lag, old(world.s), r.value)
      ensures r.Ok? && (pages <= 1 || world.s.canon == old(world.s.canon)) ==>
        world.lag.staged == {} && AtPrefix(world.s.canon, r.value, world.s.index.staged)
      ensures r.Ok? && pages > 1 ==> world.cfg.rebuildSupport.PagedRebuild? && |world.s.canon.order| > batchSize
      ensures world.cfg.rebuildSupport.NoRebuild? ==> r == Err(Conflict) && world.s == old(world.s)
      ensures r.Ok? && world.cfg.rebuildSupport.WholeRebuild? ==> |old(world.s.canon.order)| <= MAX_READ
      ensures r.Err? ==> Disturbed(old(world.s), world.s) || CannotRebuild(world.cfg, world.s, r.code)
    {
      match world.cfg.rebuildSupport
      case PagedRebuild =>
        r, pages := RebuildPaged();
      case WholeRebuild =>
        r := RebuildWhole();
        pages := 1;
      case NoRebuild =>
        r, pages := Err(Conflict), 0;
    }

    // ----- one Sync -----

    // The manifest is loaded, or made up for a generation never seen, and marked dirty.
    method Begin() returns (r: Result<Manifest>)
      requires Valid()
      modifies world
      ensures Valid() && Went(world.cfg, old(world.s), world.s) && Lags(world.lag) <= Lags(old(world.lag))
      ensures Watermark(world.cfg, world.s) == Watermark(world.cfg, old(world.s))
      ensures Prefixed(world.cfg, old(world.Now())) ==> Prefixed(world.cfg, world.Now())
      ensures r.Ok? ==>
        r.value == Manifest(world.cfg.generation, Dirty, Watermark(world.cfg, world.s)) && IsDirty(world.cfg, world.s)
      ensures r.Err? ==> Disturbed(old(world.s), world.s)
    {
      hide Prefixed, ValidCanon;
      var loaded := world.LoadManifest();
      ghost var mid := world.Now();
      if Prefixed(world.cfg, old(world.Now())) {
        if mid.s.index == old(world.s.index) {
          PrefixedGrows(world.cfg, old(world.Now()), mid);
        } else {
          PrefixedRestart(world.cfg, old(world.Now()), mid);
        }
      }
      if loaded.Err? {
        return Err(loaded.code);
      }
      var manifest := if loaded.value.Some? then loaded.value.value else Manifest(world.cfg.generation, Building, 0);
      var marked := world.MarkDirty(manifest);
      MovedTransitive(old(world.s), mid.s, world.s);
      if Prefixed(world.cfg, mid) {
        PrefixedGrows(world.cfg, mid, world.Now());
      }
      r := if marked.Err? then Err(marked.code) else Ok(manifest.(status := Dirty));
    }

    // The retention check: a generation below the floor cannot be replayed and is rebuilt.
    method CheckFloor(manifest: Manifest) returns (r: Result<Manifest>, ghost window: Option<Window>)
      requires Valid() && manifest == Manifest(world.cfg.generation, Dirty, Watermark(world.cfg, world.s))
      modifies world
      ensures Valid() && Went(world.cfg, old(world.s), world.s)
      ensures r.Ok? ==> Holds(world.cfg, world.s, world.lag, r.value)
      ensures r.Ok? ==> r.value.watermark >= manifest.watermark && r.value.watermark >= old(world.s.floor)
      ensures r.Err? && IsDirty(world.cfg, old(world.s)) ==>
        Disturbed(old(world.s), world.s) || Refuses(world.cfg, old(world.s), world.s, r.code)
      ensures r.Ok? ==> !MustRefuse(world.cfg, old(world.s), world.s)
      ensures StaysDirty(world.cfg, old(world.s), world.s)
      ensures Checked(world.cfg, old(world.Now()), world.Now(), window, r.Ok?)
    {
      hide ValidCanon, Prefixed, Missed, Rebuilt;
      r, window := Ok(manifest), None;
      if world.cfg.hasRetention {
        var floor := world.LoadFloor();
        ghost var mid := world.Now();
        if Prefixed(world.cfg, old(world.Now())) {
          PrefixedGrows(world.cfg, old(world.Now()), mid);
        }
        if floor.Err? {
          r := Err(floor.code);
        } else if floor.value > manifest.watermark {
          var rebuilt;
          rebuilt, window := RebuildToFloor(floor.value);
          MovedTransitive(old(world.s), mid.s, world.s);
          MustRefuseSince(world.cfg, old(world.s), mid.s, world.s);
          if window.Some? { WindowFitsSince(world.cfg, old(world.s), mid.s, world.s, window.value); }
          r := if rebuilt.Err? then Err(rebuilt.code) else Ok(manifest.(watermark := rebuilt.value));
        }
      }
    }

    // The rebuilt index is made durable before the watermark moves up to it.
    method RebuildToFloor(floor: nat) returns (r: Result<nat>, ghost window: Option<Window>)
      requires Valid() && world.cfg.hasRetention && world.s.floor == floor > Watermark(world.cfg, world.s)
      modifies world
      ensures Valid() && Went(world.cfg, old(world.s), world.s)
      ensures r.Ok? ==> r.value == Watermark(world.cfg, world.s) >= floor && !world.lag.rebuilding && window.Some?
      ensures r.Err? && IsDirty(world.cfg, old(world.s)) ==>
        Disturbed(old(world.s), world.s) || Refuses(world.cfg, old(world.s), world.s, r.code)
      ensures r.Ok? ==> !MustRefuse(world.cfg, old(world.s), world.s)
      ensures StaysDirty(world.cfg, old(world.s), world.s)
      ensures Checked(world.cfg, old(world.Now()), world.Now(), window, r.Ok?)
    {
      hide ValidCanon, Prefixed, Missed, Rebuilt;
      ghost var pages;
      r, pages := RebuildFromCanonical();
      window := None;
      ghost var mid := world.Now();
      if r.Err? {
        RebuildFailed(world.cfg, old(world.Now()), mid);
      } else {
        var watermark := r.value;
        window := Some(Window(old(world.s.canon), mid.s.canon, watermark, pages));
        RebuildEnded(world.cfg, old(world.Now()), mid, window.value);
        if watermark < floor {
          r := Err(StoreFailure);
        } else {
          var published := PublishStaged(watermark);
          MovedTransitive(old(world.s), mid.s, world.s);
          RebuildPublished(world.cfg, old(world.Now()), mid, world.Now(), window.value, published.Ok?);
          if published.Err? {
            r := Err(published.code);
          }
        }
      }
    }

    // Commit, then advance: a failure in between leaves the watermark behind the index,
    // never ahead of it.
    method PublishStaged(watermark: nat) returns (r: Result<()>)
      requires Valid() && !world.lag.rebuilding && watermark <= |world.s.canon.log|
      requires Covers(world.s.canon, watermark, world.s.index.staged, world.lag.staged)
      modifies world
      ensures Valid() && Went(world.cfg, old(world.s), world.s)
      ensures r.Ok? ==> Watermark(world.cfg, world.s) == watermark
      ensures Published(world.cfg, old(world.Now()), world.Now(), watermark)
      ensures r.Err? && IsDirty(world.cfg, old(world.s)) && Watermark(world.cfg, old(world.s)) <= watermark ==>
        Disturbed(old(world.s), world.s)
      ensures StaysDirty(world.cfg, old(world.s), world.s)
      ensures r.Ok? ==>
        world.s.index.committed == old(world.s.index.staged) && world.lag.committed == old(world.lag.staged)
    {
      hide ValidCanon;
      r := world.Commit();
      if r.Ok? {
        ghost var mid := world.s;
        GrowsCovers(old(world.s.canon), mid.canon, watermark, mid.index.staged, world.lag.staged);
        r := world.Advance(watermark);
        MovedTransitive(old(world.s), mid, world.s);
      }
    }

    // One turn of the replay loop; None once the scan comes back empty.
    method ReplayBatch(manifest: Manifest) returns (r: Result<Option<nat>>, ghost gaps: seq<Gap>)
      requires Valid() && Holds(world.cfg, world.s, world.lag, manifest)
      modifies world
      ensures Valid() && Went(world.cfg, old(world.s), world.s)
      ensures r.Ok? ==> Holds(world.cfg, world.s, world.lag, if r.value.Some?
        then manifest.(watermark := r.value.value) else manifest)
      ensures r.Ok? && r.value.Some? ==> r.value.value > manifest.watermark
      ensures r.Ok? && r.value.None? ==> ValidIndex(world.s.canon, |world.s.canon.log|, world.s.index, world.lag)
      ensures r.Ok? && r.value.None? && gaps == [] ==> Watermark(world.cfg, world.s) == |world.s.canon.log|
      ensures r.Err? && IsDirty(world.cfg, old(world.s)) ==> Disturbed(old(world.s), world.s)
      ensures StaysDirty(world.cfg, old(world.s), world.s)
      ensures Replayed(world.cfg, old(world.Now()), world.Now(), gaps)
      ensures r.Ok? && r.value.None? && gaps == [] && Prefixed(world.cfg, old(world.Now())) ==>
        AtPrefix(world.s.canon, Watermark(world.cfg, world.s), world.s.index.staged)
    {
      hide ValidCanon, Prefixed, Missed, AtPrefix, NearPrefix;
      var scanned;
      ghost var from;
      scanned, from, gaps := ScanBatch(manifest);
      if scanned.Err? {
        r := Err(scanned.code);
      } else if |scanned.value| == 0 {
        r := Ok(None);
        if gaps == [] && Prefixed(world.cfg, world.Now()) {
          StagedAtTheEnd(world.cfg, world.Now());
        }
      } else {
        ghost var mid := world.Now();
        r := ApplyBatch(scanned.value, from);
        MovedTransitive(old(world.s), mid.s, world.s);
        ReplayedThen(world.cfg, old(world.Now()), mid, world.Now(), gaps);
      }
    }

    // A scan after the watermark. What retention already dropped beyond it is noted.
    method ScanBatch(manifest: Manifest) returns (r: Result<seq<Change>>, ghost from: nat, ghost gaps: seq<Gap>)
      requires Valid() && Holds(world.cfg, world.s, world.lag, manifest)
      modifies world
      ensures Valid() && Moved(old(world.s), world.s) && Holds(world.cfg, world.s, world.lag, manifest)
      ensures manifest.watermark <= from && (world.s.trimmed <= manifest.watermark ==> from == manifest.watermark)
      ensures r.Ok? ==>
        ScannedFrom(world.s.canon, from, r.value) && ValidIndex(world.s.canon, from, world.s.index, world.lag)
      ensures r.Ok? ==> |r.value| <= batchSize && (|r.value| < batchSize ==> from + |r.value| == |world.s.canon.log|)
      ensures Replayed(world.cfg, old(world.Now()), world.Now(), gaps)
      ensures r.Ok? && gaps == [] ==> from == manifest.watermark
      ensures r.Err? ==> Disturbed(old(world.s), world.s)
      ensures StaysDirty(world.cfg, old(world.s), world.s)
    {
      hide ValidCanon, Prefixed, Missed;
      r := world.ScanChanges(manifest.watermark, batchSize);
      from, gaps := if world.s.trimmed > manifest.watermark then world.s.trimmed else manifest.watermark, [];
      if Prefixed(world.cfg, old(world.Now())) {
        PrefixedGrows(world.cfg, old(world.Now()), world.Now());
      }
      if r.Ok? && from > manifest.watermark {
        gaps := [Gap(manifest.watermark, from)];
        world.NoteSkipped(from);
        GapIsMissed(world.s.canon, gaps[0]);
      }
    }

    // The revisions of a scanned batch, applied and published.
    method ApplyBatch(changes: seq<Change>, ghost from: nat) returns (r: Result<Option<nat>>)
      requires Valid() && !world.lag.rebuilding && |changes| > 0 && ScannedFrom(world.s.canon, from, changes)
      requires ValidIndex(world.s.canon, from, world.s.index, world.lag)
      requires Watermark(world.cfg, world.s) <= from
      modifies world
      ensures Valid() && Went(world.cfg, old(world.s), world.s) && Lags(world.lag) <= Lags(old(world.lag))
      ensures r.Ok? ==>
        r.value == Some(from + |changes|) && Watermark(world.cfg, world.s) == from + |changes| &&
        !world.lag.rebuilding
      ensures r.Err? && IsDirty(world.cfg, old(world.s)) ==> Disturbed(old(world.s), world.s)
      ensures StaysDirty(world.cfg, old(world.s), world.s)
      ensures
        && from == Watermark(world.cfg, old(world.s)) && FullBatch(old(world.s.canon), from, batchSize, changes)
        && Prefixed(world.cfg, old(world.Now())) ==>
        Prefixed(world.cfg, world.Now())
    {
      hide ValidCanon, AtPrefix, NearPrefix, FullBatch;
      var applied := StageBatch(changes, from);
      ghost var mid := world.Now();
      if from == Watermark(world.cfg, old(world.s)) && FullBatch(old(world.s.canon), from, batchSize, changes) &&
        Prefixed(world.cfg, old(world.Now())) {
        PrefixedStaged(world.cfg, old(world.Now()), mid);
      }
      if applied.Err? {
        r := Err(applied.code);
      } else {
        var watermark := changes[|changes| - 1].sequence;
        var published := PublishStaged(watermark);
        MovedTransitive(old(world.s), mid.s, world.s);
        if Prefixed(world.cfg, mid) && AtPrefix(mid.s.canon, watermark, mid.s.index.staged) &&
          Watermark(world.cfg, mid.s) <= watermark {
          BatchPublished(world.cfg, mid, world.Now(), watermark);
        }
        r := if published.Err? then Err(published.code) else Ok(Some(watermark));
      }
    }

    method StageBatch(changes: seq<Change>, ghost from: nat) returns (r: Result<()>)
      requires Valid() && !world.lag.rebuilding && |changes| > 0 && ScannedFrom(world.s.canon, from, changes)
      requires ValidIndex(world.s.canon, from, world.s.index, world.lag)
      modifies world
      ensures Valid() && Moved(old(world.s), world.s) &&
        Watermark(world.cfg, world.s) == Watermark(world.cfg, old(world.s))
      ensures world.s.index.committed == old(world.s.index.committed)
      ensures world.lag == old(world.lag) && changes[|changes| - 1].sequence == from + |changes| <= |world.s.canon.log|
      ensures r.Ok? ==> Covers(world.s.canon, from + |changes|, world.s.index.staged, world.lag.staged)
      ensures r.Err? ==> Disturbed(old(world.s), world.s)
      ensures StaysDirty(world.cfg, old(world.s), world.s)
      ensures
        && FullBatch(old(world.s.canon), from, batchSize, changes)
        && NearPrefix(old(world.s.canon), from, batchSize, old(world.s.index.staged)) ==>
        && NearPrefix(world.s.canon, from, batchSize, world.s.index.staged)
        && (r.Ok? ==> AtPrefix(world.s.canon, from + |changes|, world.s.index.staged))
    {
      hide ValidCanon, Covers, ScannedFrom, NearPrefix, AtPrefix, StoredBefore, FullBatch, Known;
      hide DistinctIds, MergeAll, IsDirty, OneActive;
      LastSequence(world.s.canon, from, changes);
      var ids := UniqueRevisionIds(changes);
      AnnouncedAreStored(world.s.canon, from, changes, ids);
      var revisions := LoadRevisions(ids);
      ghost var read := world.s;
      r := Ok(());
      if revisions.Err? {
        r := Err(revisions.code);
        if NearPrefix(old(world.s.canon), from, batchSize, old(world.s.index.staged)) {
          NearGrows(old(world.s.canon), world.s.canon, from, batchSize, world.s.index.staged);
        }
      } else {
        LoadedIsLogged(old(world.s.canon), read.canon, changes, from, ids, revisions.value);
        r := world.Apply(revisions.value);
        MovedTransitive(old(world.s), read, world.s);
        LoadedIsAll(old(world.s.canon), read.canon, changes, from, ids, revisions.value);
        if r.Ok? {
          BatchCovers(old(world.s.canon), read.canon, world.s.canon, from, from + |changes|, read.index.staged,
                      world.lag.staged, revisions.value);
        }
        BatchStaged(old(world.s.canon), read.canon, world.s.canon, from, batchSize, changes, read.index.staged,
          world.s.index.staged, revisions.value);
      }
    }

    // Replay until the log is empty beyond the watermark. seen is the scope at that scan.
    method Replay(manifest: Manifest)
      returns (r: Result<bool>, manifest': Manifest, ghost seen: Canon, ghost gaps: seq<Gap>)
      requires Valid() && Holds(world.cfg, world.s, world.lag, manifest)
      modifies world
      ensures Valid() && Went(world.cfg, old(world.s), world.s) && seen == world.s.canon
      ensures r.Ok? ==> Holds(world.cfg, world.s, world.lag, manifest')
      ensures r.Ok? ==> ValidIndex(seen, |seen.log|, world.s.index, world.lag)
      ensures manifest'.status == manifest.status
      ensures r.Ok? && gaps == [] ==> Watermark(world.cfg, world.s) == |seen.log|
      ensures r.Err? && IsDirty(world.cfg, old(world.s)) ==> Disturbed(old(world.s), world.s)
      ensures StaysDirty(world.cfg, old(world.s), world.s)
      ensures Replayed(world.cfg, old(world.Now()), world.Now(), gaps)
      ensures r.Ok? && gaps == [] && Prefixed(world.cfg, old(world.Now())) ==>
        AtPrefix(world.s.canon, Watermark(world.cfg, world.s), world.s.index.staged)
    {
      hide ValidCanon, Prefixed, Missed, AtPrefix, GapsFit;
      manifest', seen, gaps := manifest, world.s.canon, [];
      var applied, more := false, true;
      NothingReplayed(world.cfg, world.Now());
      while more
        invariant Valid() && Went(world.cfg, old(world.s), world.s) && Holds(world.cfg, world.s, world.lag, manifest')
        invariant manifest'.status == manifest.status && manifest'.watermark >= manifest.watermark &&
          seen == world.s.canon
        invariant Replayed(world.cfg, old(world.Now()), world.Now(), gaps)
        invariant StaysDirty(world.cfg, old(world.s), world.s)
        invariant !more && gaps == [] ==> Watermark(world.cfg, world.s) == |seen.log|
        invariant !more ==> ValidIndex(seen, |seen.log|, world.s.index, world.lag)
        invariant !more && gaps == [] && Prefixed(world.cfg, old(world.Now())) ==>
          AtPrefix(world.s.canon, Watermark(world.cfg, world.s), world.s.index.staged)
        decreases world.cfg.horizon - manifest'.watermark, more
      {
        ghost var before, before' := world.Now(), gaps;
        var batch;
        ghost var skipped;
        batch, skipped := ReplayBatch(manifest');
        MovedTransitive(old(world.s), before.s, world.s);
        seen, gaps := world.s.canon, gaps + skipped;
        ReplayedTwice(world.cfg, old(world.Now()), before, world.Now(), before', skipped);
        if batch.Err? {
          return Err(batch.code), manifest', seen, gaps;
        }
        if batch.value.None? {
          more := false;
        } else {
          manifest' := manifest'.(watermark := batch.value.value);
          applied := true;
        }
      }
      r := Ok(applied);
    }

    // The checkpoint is activated, then the index, when it has something to activate. The
    // second may fail, or the answer of the first be lost, with the checkpoint active.
    method Activate() returns (r: Result<()>, ghost active: State)
      requires Valid()
      modifies world
      ensures Valid() && Moved(old(world.s), world.s) && world.lag == old(world.lag)
      ensures world.s.index == old(world.s.index)
      ensures Watermark(world.cfg, world.s) == Watermark(world.cfg, old(world.s))
      ensures r.Ok? ==> Activation(world.cfg, old(world.s), active, world.s)
      ensures r.Ok? && !world.cfg.hasActivator ==> active == world.s
      ensures r.Err? && IsDirty(world.cfg, old(world.s)) ==> Disturbed(old(world.s), world.s)
    {
      hide ValidCanon;
      r := world.Activate();
      active := world.s;
      if r.Ok? && world.cfg.hasActivator {
        r := world.Acknowledge();
        MovedTransitive(old(world.s), active, world.s);
      }
    }

    // The end of a Sync: a last commit if nothing was applied, then the activation.
    method Finish(applied: bool, ghost seen: Canon) returns (r: Result<()>, ghost active: State)
      requires Valid() && !world.lag.rebuilding && Grows(seen, world.s.canon)
      requires ValidIndex(seen, |seen.log|, world.s.index, world.lag)
      modifies world
      ensures Valid() && Went(world.cfg, old(world.s), world.s) &&
        Watermark(world.cfg, world.s) == Watermark(world.cfg, old(world.s))
      ensures Lags(world.lag) <= Lags(old(world.lag))
      ensures r.Ok? ==> Activation(world.cfg, old(world.s), active, world.s)
      ensures r.Ok? && !world.cfg.hasActivator ==> active == world.s
      ensures r.Err? && IsDirty(world.cfg, old(world.s)) ==> Disturbed(old(world.s), world.s)
      ensures r.Ok? ==> AgreesExcept(world.s.index.committed, HeadView(seen), world.lag.committed)
      ensures
        && Prefixed(world.cfg, old(world.Now()))
        && AtPrefix(old(world.s.canon), Watermark(world.cfg, old(world.s)), old(world.s.index.staged)) ==>
        Prefixed(world.cfg, world.Now())
    {
      hide ValidCanon, AgreesExcept, Prefixed, AtPrefix;
      r, active := Ok(()), world.s;
      if !applied {
        r := world.Commit();
      }
      ghost var committed := world.Now();
      if Prefixed(world.cfg, old(world.Now())) &&
        AtPrefix(old(world.s.canon), Watermark(world.cfg, old(world.s)), old(world.s.index.staged)) {
        BatchPublished(world.cfg, old(world.Now()), committed, Watermark(world.cfg, old(world.s)));
      }
      if r.Ok? {
        FinishAgrees(seen, world.s.index, world.lag);
        r, active := Activate();
        MovedTransitive(old(world.s), committed.s, world.s);
        if r.Ok? { MovedTransitive(old(world.s), committed.s, active); }
        if Prefixed(world.cfg, committed) {
          PrefixedGrows(world.cfg, committed, world.Now());
        }
      }
    }

    // Sync. run records the rebuild it made and the scans that met a gap. Whatever mix of
    // rebuild and replay it took, success leaves the durable index equal to the view of the
    // heads at the last, empty scan, except on the items run passed over; those of earlier
    // Syncs are made good by a rebuild. A quiet run passes over none, and keeps the durable
    // index a fold of the log. Unless a call failed, or another activation took the checkpoint
    // away, it succeeds, refused only below a retention floor it cannot be rebuilt from.
    method Sync() returns (r: Result<()>, manifest: Manifest, ghost seen: Canon, ghost active: State, ghost run: Run)
      requires Valid()
      modifies world
      ensures Valid() && Went(world.cfg, old(world.s), world.s)
      ensures r.Ok? <==> manifest.status == Active
      ensures r.Ok? ==> manifest == Manifest(world.cfg.generation, Active, Watermark(world.cfg, world.s))
      ensures r.Ok? ==> Activation(world.cfg, old(world.s), active, world.s)
      ensures r.Err? ==> Disturbed(old(world.s), world.s) || Refuses(world.cfg, old(world.s), world.s, r.code)
      ensures r.Ok? ==> !MustRefuse(world.cfg, old(world.s), world.s)
      ensures r.Ok? && run.gaps == [] ==> Watermark(world.cfg, world.s) == |seen.log|
      ensures r.Ok? && !world.cfg.hasActivator ==> active == world.s
      ensures r.Ok? ==> Grows(old(world.s.canon), seen) && Grows(seen, world.s.canon)
      ensures r.Ok? ==> AgreesExcept(world.s.index.committed, HeadView(seen), world.lag.committed)
      ensures r.Ok? ==>
        world.lag.committed <= (if run.rebuild.Some? then {} else Lags(old(world.lag))) + Missed(world.s.canon, run)
      ensures r.Ok? && Quiet(run) && (run.rebuild.Some? || Lags(old(world.lag)) == {}) ==>
        world.s.index.committed == HeadView(seen)
      ensures Synced(world.cfg, old(world.Now()), world.Now(), run)
    {
      hide ValidCanon, AgreesExcept, Prefixed, Missed, AtPrefix, GapsFit, ValidIndex;
      seen, manifest, active := world.s.canon, Manifest(world.cfg.generation, Building, 0), world.s;
      run := Run(None, []);
      var begun := Begin();
      ghost var s1 := world.Now();
      BeginSynced(world.cfg, old(world.Now()), s1);
      if begun.Err? {
        return Err(begun.code), manifest, seen, active, run;
      }
      var checked;
      ghost var window;
      checked, window := CheckFloor(begun.value);
      ghost var s2 := world.Now();
      run := Run(window, []);
      MovedTransitive(old(world.s), s1.s, s2.s);
      CheckSynced(world.cfg, old(world.Now()), s1, s2, window, checked.Ok?);
      MustRefuseSince(world.cfg, old(world.s), s1.s, s2.s);
      manifest := begun.value;
      if checked.Err? {
        return Err(checked.code), manifest, seen, active, run;
      }
      var replayed;
      ghost var gaps;
      replayed, manifest, seen, gaps := Replay(checked.value);
      ghost var s3 := world.Now();
      run := Run(window, gaps);
      MovedTransitive(old(world.s), s2.s, s3.s);
      ReplaySynced(world.cfg, old(world.Now()), s2, s3, window, gaps);
      if replayed.Err? {
        return Err(replayed.code), manifest, seen, active, run;
      }
      r, active := Finish(replayed.value, seen);
      MovedTransitive(old(world.s), s3.s, world.s);
      FinishSynced(world.cfg, old(world.Now()), s2, s3, world.Now(), run);
      if r.Ok? {
        manifest := manifest.(status := Active);
        MovedTransitive(old(world.s), s3.s, active);
        QuietAgrees(world.s, world.lag, old(world.lag), seen, run);
      }
    }

    // Any number of Syncs of one generation, each of which may fail anywhere. A failure
    // never harms: the stored watermark never moves back, and is never ahead of the index;
    // what the index may be behind on is what some run passed over. While every run is quiet,
    // whatever retention did between them, the durable index is a fold of the log at least as
    // long as the watermark.
    method Syncs(count: nat) returns (watermarks: seq<nat>, ghost states: seq<State>, ghost runs: seq<Run>)
      requires Valid()
      modifies world
      ensures Valid() && |watermarks| == |runs| == count && |states| == count + 1
      ensures states[0] == old(world.s) && states[count] == world.s
      ensures forall i | 0 <= i < count :: Went(world.cfg, states[i], states[i + 1])
      ensures forall i | 0 <= i < count :: Happened(world.cfg, states[i], states[i + 1], runs[i])
      ensures forall i | 0 <= i < count :: watermarks[i] == Watermark(world.cfg, states[i + 1])
      ensures forall i, j | 0 <= i <= j < count :: watermarks[i] <= watermarks[j]
      ensures Covers(world.s.canon, Watermark(world.cfg, world.s), world.s.index.committed, world.lag.committed)
      ensures Lags(world.lag) <= Lags(old(world.lag)) + MissedByAny(world.s.canon, runs)
      ensures AllQuiet(runs) ==> Lags(world.lag) <= Lags(old(world.lag))
      ensures AllQuiet(runs) && Prefixed(world.cfg, old(world.Now())) ==>
        AtPrefix(world.s.canon, Watermark(world.cfg, world.s), world.s.index.committed)
    {
      hide ValidCanon, Missed, MissedByAny, Prefixed, Happened, Lags, Quiet, ValidIndex, AgreesExcept, HeadView;
      hide AtPrefix, Activation, OneActive, AllQuiet;
      watermarks, states, runs := [], [world.s], [];
      while |watermarks| < count
        invariant Valid() && |watermarks| == |runs| <= count && |states| == |runs| + 1
        invariant states[0] == old(world.s) && states[|runs|] == world.s
        invariant forall i | 0 <= i < |runs| :: Went(world.cfg, states[i], states[i + 1])
        invariant forall i | 0 <= i < |runs| :: Happened(world.cfg, states[i], states[i + 1], runs[i])
        invariant forall i | 0 <= i < |runs| :: watermarks[i] == Watermark(world.cfg, states[i + 1])
        invariant forall i, j | 0 <= i <= j < |runs| :: watermarks[i] <= watermarks[j]
        invariant watermarks != [] ==> watermarks[|runs| - 1] == Watermark(world.cfg, world.s)
        invariant Lags(world.lag) <= Lags(old(world.lag)) + MissedByAny(world.s.canon, runs)
        invariant AllQuiet(runs) && Prefixed(world.cfg, old(world.Now())) ==>
          Prefixed(world.cfg, world.Now())
      {
        ghost var before, runs' := world.Now(), runs;
        var r, manifest;
        ghost var seen, active, run;
        r, manifest, seen, active, run := Sync();
        MissedByMore(before.s.canon, world.s.canon, runs', run);
        AllQuietMore(runs', run);
        watermarks, states, runs := watermarks + [Watermark(world.cfg, world.s)], states + [world.s], runs + [run];
      }
      CommittedIsCovered(world.cfg, world.Now());
      CommittedIsPrefix(world.cfg, world.Now());
      if AllQuiet(runs) { QuietRunsMissNothing(world.s.canon, runs); }
    }
  }

  // From the beginning: a new world, any number of Syncs. While each of them is quiet, the
  // index is behind on nothing, and the durable one is a fold of the log.
  method SyncsFromNew(cfg: Config, count: nat)
    returns (world: World, watermarks: seq<nat>, ghost states: seq<State>, ghost runs: seq<Run>)
    requires 0 < cfg.batchSize <= MAX_READ
    ensures fresh(world) && world.cfg == cfg && |watermarks| == |runs| == count
    ensures |states| == count + 1 && states[count] == world.s
    ensures forall i | 0 <= i < count :: Happened(cfg, states[i], states[i + 1], runs[i])
    ensures AllQuiet(runs) ==>
      Lags(world.lag) == {} && AtPrefix(world.s.canon, Watermark(cfg, world.s), world.s.index.committed)
  {
    hide ValidCanon, AtPrefix, NearPrefix, ProjectionPorts.Valid, Happened;
    world := new World(cfg);
    var coordinator := new Coordinator(world, cfg.batchSize);
    NewIsPrefixed(cfg, world.Now());
    watermarks, states, runs := coordinator.Syncs(count);
  }

  // An item with a head comes after the page.
  ghost predicate MoreAfter(c: Canon, active: seq<Revision>) {
    active != [] && exists item | item in c.heads :: Less(active[|active| - 1].item, item)
  }

  lemma ShortPageIsLast(at: Canon, after: ItemId, limit: nat, changeSeq: nat, active: seq<Revision>)
    requires PageOf(at, after, limit, active) && |active| < limit && changeSeq <= |at.log|
    ensures ViewOf(at, after, limit, View(changeSeq, active, false))
  {
    HeadsAreListed(at);
    PageIsExact(at.order, after, limit);
    hide ValidCanon, Page, Less, Sorted, PageRevisions;
  }

  lemma FullPageIsView(at: Canon, after: ItemId, limit: nat, changeSeq: nat, active: seq<Revision>)
    requires PageOf(at, after, limit, active) && |active| >= limit && changeSeq <= |at.log|
    ensures ViewOf(at, after, limit, View(changeSeq, active, true))
  {
    HeadsAreListed(at);
    PageIsExact(at.order, after, limit);
    hide ValidCanon, Page, Less, Sorted, PageRevisions;
  }

  lemma ProbeIsEmpty(at: Canon, later: Canon, after: ItemId, limit: nat, changeSeq: nat, active: seq<Revision>)
    requires Grows(at, later) && PageOf(at, after, limit, active) && active != [] && changeSeq <= |at.log|
    requires limit > 0 && Page(later.order, active[|active| - 1].item, 1) == []
    ensures ViewOf(at, after, limit, View(changeSeq, active, false))
  {
    hide *;
    PageIsItems(at, after, limit, active);
    LastItem(active);
    ProbeIsConclusive(at, later, after, limit);
    LastPageIsView(at, after, limit, changeSeq, active);
  }

  lemma LastPageIsView(at: Canon, after: ItemId, limit: nat, changeSeq: nat, active: seq<Revision>)
    requires PageOf(at, after, limit, active) && changeSeq <= |at.log| && limit > 0
    requires forall item | item in at.heads && Less(after, item) :: item in Page(at.order, after, limit)
    ensures ViewOf(at, after, limit, View(changeSeq, active, false))
  {
    PageFits(at, after, limit);
    hide ValidCanon, Page, PageOf, Less;
  }

  lemma LastItem(active: seq<Revision>)
    requires active != []
    ensures ItemsOf(active) != [] && ItemsOf(active)[|ItemsOf(active)| - 1] == active[|active| - 1].item
  {
  }

  lemma PageFits(at: Canon, after: ItemId, limit: nat)
    requires limit > 0
    ensures |Page(at.order, after, limit)| <= limit
  {
    HeadsAreListed(at);
    PageIsExact(at.order, after, limit);
  }

  lemma ProbeFinds(c: Canon, active: seq<Revision>)
    requires active != [] && Page(c.order, active[|active| - 1].item, 1) != []
    ensures MoreAfter(c, active)
  {
    HeadsAreListed(c);
    var found := Page(c.order, active[|active| - 1].item, 1);
    PageIsExact(c.order, active[|active| - 1].item, 1);
    assert found[0] in found;
  }

  lemma MoreAfterGrows(c: Canon, later: Canon, active: seq<Revision>)
    requires Grows(c, later) && MoreAfter(c, active)
    ensures MoreAfter(later, active)
  {
  }

  // What a step inside one Sync leaves alone: the durable index and the stored watermark.
  ghost predicate Kept(cfg: Config, a: Moment, b: Moment) {
    && Moved(a.s, b.s) && Watermark(cfg, b.s) == Watermark(cfg, a.s)
    && b.s.index.committed == a.s.index.committed && b.lag.committed == a.lag.committed
    && (IsDirty(cfg, b.s) ==> IsDirty(cfg, a.s)) && StaysDirty(cfg, a.s, b.s)
  }

  lemma KeptTransitive(cfg: Config, a: Moment, b: Moment, c: Moment)
    requires Kept(cfg, a, b) && Kept(cfg, b, c)
    ensures Kept(cfg, a, c)
  {
  }

  // An index that lost changes to retention cannot be rebuilt: there is no way to, or the one
  // view it is rebuilt from does not hold all items.
  predicate CannotRebuild(cfg: Config, s: State, code: Code) {
    || (cfg.rebuildSupport.NoRebuild? && code == Conflict)
    || (cfg.rebuildSupport.WholeRebuild? && code == LimitExceeded && |s.canon.order| > MAX_READ)
  }

  // The answers of a Sync in which nothing failed: the index is below the retention floor, and
  // cannot be rebuilt, or the floor is ahead of the log.
  predicate Refuses(cfg: Config, a: State, b: State, code: Code) {
    && cfg.hasRetention && b.floor > Watermark(cfg, a)
    && (CannotRebuild(cfg, b, code) || (code == StoreFailure && b.floor > |a.canon.log|))
  }

  // The states in which it certainly gives one of them.
  predicate MustRefuse(cfg: Config, a: State, b: State) {
    && cfg.hasRetention && a.floor > Watermark(cfg, a)
    && (cfg.rebuildSupport.NoRebuild? || (cfg.rebuildSupport.WholeRebuild? && |a.canon.order| > MAX_READ)
        || a.floor > |b.canon.log|)
  }

  lemma MustRefuseSince(cfg: Config, a: State, b: State, c: State)
    requires Moved(a, b) && Moved(b, c) && Watermark(cfg, b) == Watermark(cfg, a)
    ensures MustRefuse(cfg, a, c) ==> MustRefuse(cfg, b, c)
  {
    OrderGrows(a.canon, b.canon);
  }

  // One view that is not truncated holds every item.
  lemma WholeHolds(c: Canon, at: Canon, view: View)
    requires Grows(c, at) && ViewOf(at, [], MAX_READ, view) && !view.truncated
    ensures |c.order| <= MAX_READ
  {
    hide ValidCanon, Page, Less;
    OrderGrows(c, at);
    AllOnPage(at, view);
    HeadsAreListed(at);
    AllDifferent(at.order);
    PageIsExact(at.order, [], MAX_READ);
    AllDifferent(Page(at.order, [], MAX_READ));
    SubsetIsSmaller(set id | id in at.order, set id | id in Page(at.order, [], MAX_READ));
  }

  lemma AllOnPage(at: Canon, view: View)
    requires ViewOf(at, [], MAX_READ, view) && !view.truncated
    ensures forall item | item in at.heads :: item in Page(at.order, [], MAX_READ)
  {
    forall item | item in at.heads ensures Less([], item) {
      assert ValidHead(at, item);
    }
  }

  // The checkpoint was active at one moment with the index and watermark it has now.
  ghost predicate Activation(cfg: Config, a: State, active: State, b: State) {
    && IsActive(cfg, active) && Moved(a, active) && Moved(active, b)
    && active.index == b.index && Watermark(cfg, active) == Watermark(cfg, b)
  }

  // Over a whole Sync the stored watermark only rises.
  ghost predicate Went(cfg: Config, a: State, b: State) {
    Moved(a, b) && Watermark(cfg, a) <= Watermark(cfg, b)
  }

  // The manifest in hand is the stored one, and the staged index is complete.
  ghost predicate Holds(cfg: Config, s: State, lag: Lag, manifest: Manifest) {
    manifest == Manifest(cfg.generation, Dirty, Watermark(cfg, s)) && !lag.rebuilding
  }

  // What publishing leaves: the staged index as it was, and the durable one either as it
  // was or equal to it, the watermark raised only in the latter case.
  ghost predicate Published(cfg: Config, a: Moment, b: Moment, w: nat) {
    && b.s.index.staged == a.s.index.staged && b.lag.staged == a.lag.staged && !b.lag.rebuilding
    && (Watermark(cfg, b.s) == Watermark(cfg, a.s) || Watermark(cfg, b.s) == w)
    && ((b.s.index.committed == a.s.index.staged && b.lag.committed == a.lag.staged)
        || (b.s.index.committed == a.s.index.committed && b.lag.committed == a.lag.committed
            && Watermark(cfg, b.s) == Watermark(cfg, a.s)))
  }

  // The bookkeeping of the retention check: the index may be behind on what a rebuild of
  // several pages passed over, and after a rebuild that succeeded on nothing else.
  ghost predicate Checked(cfg: Config, a: Moment, b: Moment, window: Option<Window>, ok: bool)
  {
    && (window.Some? ==> WindowFits(cfg, a.s, b.s, window.value))
    && Lags(b.lag) <= Lags(a.lag) + Missed(b.s.canon, Run(window, []))
    && (ok && window.Some? ==> Lags(b.lag) <= Missed(b.s.canon, Run(window, [])))
    && (Quiet(Run(window, [])) && Prefixed(cfg, a) ==> Prefixed(cfg, b))
  }

  // The bookkeeping of replay.
  ghost predicate Replayed(cfg: Config, a: Moment, b: Moment, gaps: seq<Gap>) {
    && GapsFit(Watermark(cfg, a.s), b.s.trimmed, gaps)
    && Lags(b.lag) <= Lags(a.lag) + Missed(b.s.canon, Run(None, gaps))
    && (gaps == [] && Prefixed(cfg, a) ==> Prefixed(cfg, b))
  }

  // The bookkeeping of a Sync, whether it succeeds or fails.
  ghost predicate Synced(cfg: Config, a: Moment, b: Moment, run: Run) {
    && Happened(cfg, a.s, b.s, run)
    && Lags(b.lag) <= Lags(a.lag) + Missed(b.s.canon, run)
    && (Quiet(run) && Prefixed(cfg, a) ==> Prefixed(cfg, b))
  }

  lemma RebuildFailed(cfg: Config, a: Moment, b: Moment)
    requires Kept(cfg, a, b) && b.lag.staged == a.lag.staged && (b.lag.rebuilding || b.s.index == a.s.index)
    requires a.lag.rebuilding ==> b.lag.rebuilding
    ensures Checked(cfg, a, b, None, false)
  {
    hide Missed, ValidCanon;
    if Prefixed(cfg, a) {
      if b.lag.rebuilding { PrefixedRebuilding(cfg, a, b); }
      else { PrefixedGrows(cfg, a, b); }
    }
  }

  lemma WindowLags(s: State, lag: Lag, before: State, w: Window)
    requires Rebuilt(s, lag, before, w.watermark) && w.begun == before.canon && w.ended == s.canon
    requires Steady(w) ==> lag.staged == {}
    ensures lag.staged <= Missed(s.canon, Run(Some(w), []))
  {
    hide ValidCanon, Missed, Covers;
    if !Steady(w) { WindowIsMissed(s.canon, w); }
  }

  lemma RebuildEnded(cfg: Config, a: Moment, b: Moment, w: Window)
    requires Kept(cfg, a, b) && Rebuilt(b.s, b.lag, a.s, w.watermark)
    requires cfg.hasRetention && a.s.floor > Watermark(cfg, a.s) && Watermark(cfg, a.s) <= |a.s.canon.log|
    requires w.begun == a.s.canon && w.ended == b.s.canon
    requires w.pages > 1 ==> cfg.rebuildSupport.PagedRebuild? && |b.s.canon.order| > cfg.batchSize
    requires Steady(w) ==> b.lag.staged == {} && AtPrefix(b.s.canon, w.watermark, b.s.index.staged)
    ensures Checked(cfg, a, b, Some(w), false)
    ensures b.lag.staged <= Missed(b.s.canon, Run(Some(w), []))
  {
    hide ValidCanon, Missed, Covers, AtPrefix, NearPrefix;
    WindowLags(b.s, b.lag, a.s, w);
    if Steady(w) && Prefixed(cfg, a) {
      PrefixGrows(a.s.canon, b.s.canon, Watermark(cfg, a.s), a.s.index.committed);
      PrefixLess(b.s.canon, w.watermark, Watermark(cfg, a.s), b.s.index.staged);
      PrefixIsNear(b.s.canon, Watermark(cfg, a.s), cfg.batchSize, b.s.index.staged);
    }
  }

  lemma RebuildPublished(cfg: Config, a: Moment, b: Moment, c: Moment, w: Window, ok: bool)
    requires Kept(cfg, a, b) && Went(cfg, b.s, c.s) && Checked(cfg, a, b, Some(w), false)
    requires b.lag.staged <= Missed(b.s.canon, Run(Some(w), []))
    requires Steady(w) ==> AtPrefix(b.s.canon, w.watermark, b.s.index.staged)
    requires Watermark(cfg, b.s) <= w.watermark && Published(cfg, b, c, w.watermark)
    requires ok ==> c.lag.committed == b.lag.staged
    ensures Checked(cfg, a, c, Some(w), ok)
  {
    hide ValidCanon, Missed, AtPrefix, NearPrefix;
    WindowStillFits(cfg, a.s, b.s, c.s, w);
    MissedGrows(b.s.canon, c.s.canon, Run(Some(w), []));
    if Steady(w) && Prefixed(cfg, a) {
      PrefixedPublished(cfg, b, c, w.watermark);
    }
  }

  lemma BatchPublished(cfg: Config, a: Moment, b: Moment, w: nat)
    requires Prefixed(cfg, a) && AtPrefix(a.s.canon, w, a.s.index.staged) && Moved(a.s, b.s)
    requires Watermark(cfg, a.s) <= w && Published(cfg, a, b, w)
    ensures Prefixed(cfg, b)
  {
    hide AtPrefix, NearPrefix;
    PrefixedPublished(cfg, a, b, w);
  }

  lemma PrefixedStaged(cfg: Config, a: Moment, b: Moment)
    requires Prefixed(cfg, a) && Moved(a.s, b.s) && Watermark(cfg, b.s) == Watermark(cfg, a.s)
    requires b.s.index.committed == a.s.index.committed && b.lag == a.lag
    requires a.lag.rebuilding || NearPrefix(b.s.canon, Watermark(cfg, a.s), cfg.batchSize, b.s.index.staged)
    ensures Prefixed(cfg, b)
  {
    hide AtPrefix, NearPrefix;
    PrefixGrows(a.s.canon, b.s.canon, Watermark(cfg, a.s), a.s.index.committed);
  }

  lemma StagedAtTheEnd(cfg: Config, at: Moment)
    requires Prefixed(cfg, at) && !at.lag.rebuilding && Watermark(cfg, at.s) == |at.s.canon.log|
    ensures AtPrefix(at.s.canon, Watermark(cfg, at.s), at.s.index.staged)
  {
    NearTheEnd(at.s.canon, cfg.batchSize, at.s.index.staged);
  }

  lemma NothingReplayed(cfg: Config, a: Moment)
    ensures Replayed(cfg, a, a, [])
  {
    hide Prefixed, Missed;
  }

  lemma ReplayedThen(cfg: Config, a: Moment, b: Moment, c: Moment, gaps: seq<Gap>)
    requires Replayed(cfg, a, b, gaps) && Moved(b.s, c.s) && Lags(c.lag) <= Lags(b.lag)
    requires gaps == [] && Prefixed(cfg, b) ==> Prefixed(cfg, c)
    ensures Replayed(cfg, a, c, gaps)
  {
    hide Prefixed, Missed, Lags;
    MissedGrows(b.s.canon, c.s.canon, Run(None, gaps));
  }

  lemma ReplayedTwice(cfg: Config, a: Moment, b: Moment, c: Moment, gaps: seq<Gap>, more: seq<Gap>)
    requires Replayed(cfg, a, b, gaps) && Replayed(cfg, b, c, more)
    requires Went(cfg, a.s, b.s) && Went(cfg, b.s, c.s)
    ensures Replayed(cfg, a, c, gaps + more)
  {
    hide Prefixed, Missed, Lags;
    MissedGrows(b.s.canon, c.s.canon, Run(None, gaps));
    MissedParts(c.s.canon, None, gaps, more);
  }

  lemma BeginSynced(cfg: Config, a: Moment, b: Moment)
    requires Moved(a.s, b.s) && Lags(b.lag) <= Lags(a.lag) && (Prefixed(cfg, a) ==> Prefixed(cfg, b))
    ensures Synced(cfg, a, b, Run(None, []))
  {
    hide Prefixed, Missed, Lags;
  }

  lemma CheckSynced(cfg: Config, a: Moment, b: Moment, c: Moment, window: Option<Window>, ok: bool)
    requires Moved(a.s, b.s) && Moved(b.s, c.s) && Watermark(cfg, b.s) == Watermark(cfg, a.s)
    requires Synced(cfg, a, b, Run(None, [])) && Lags(b.lag) <= Lags(a.lag)
    requires Checked(cfg, b, c, window, ok)
    ensures Synced(cfg, a, c, Run(window, []))
  {
    hide Prefixed, Missed, Lags;
    if window.Some? { WindowFitsSince(cfg, a.s, b.s, c.s, window.value); }
    QuietMissesNothing(b.s.canon, Run(None, []));
  }

  lemma ReplaySynced(cfg: Config, a: Moment, b: Moment, c: Moment, window: Option<Window>, gaps: seq<Gap>)
    requires Synced(cfg, a, b, Run(window, [])) && Replayed(cfg, b, c, gaps)
    requires Went(cfg, a.s, b.s) && Went(cfg, b.s, c.s) && a.s.floor <= Watermark(cfg, b.s)
    ensures Synced(cfg, a, c, Run(window, gaps))
  {
    hide Prefixed, Missed, Lags;
    if window.Some? { WindowStillFits(cfg, a.s, b.s, c.s, window.value); }
    MissedGrows(b.s.canon, c.s.canon, Run(window, []));
    MissedParts(c.s.canon, window, gaps, []);
  }

  // A rebuild made good what earlier runs had passed over.
  lemma FinishSynced(cfg: Config, a: Moment, b: Moment, c: Moment, d: Moment, run: Run)
    requires Synced(cfg, a, c, run) && Moved(b.s, c.s) && Moved(c.s, d.s) && Lags(d.lag) <= Lags(c.lag)
    requires Replayed(cfg, b, c, run.gaps)
    requires run.rebuild.Some? ==> Lags(b.lag) <= Missed(b.s.canon, Run(run.rebuild, []))
    requires Quiet(run) && Prefixed(cfg, a) ==> Prefixed(cfg, d)
    ensures Synced(cfg, a, d, run)
    ensures d.lag.committed <= (if run.rebuild.Some? then {} else Lags(a.lag)) + Missed(d.s.canon, run)
  {
    hide Prefixed, Missed;
    if run.rebuild.Some? { WindowStillFits(cfg, a.s, c.s, d.s, run.rebuild.value); }
    MissedGrows(c.s.canon, d.s.canon, run);
    MissedGrows(b.s.canon, c.s.canon, Run(run.rebuild, []));
    MissedParts(c.s.canon, run.rebuild, run.gaps, []);
  }

  lemma QuietAgrees(s: State, lag: Lag, lag0: Lag, seen: Canon, run: Run)
    requires AgreesExcept(s.index.committed, HeadView(seen), lag.committed)
    requires lag.committed <= (if run.rebuild.Some? then {} else Lags(lag0)) + Missed(s.canon, run)
    ensures Quiet(run) && (run.rebuild.Some? || Lags(lag0) == {}) ==> s.index.committed == HeadView(seen)
  {
    hide Missed, HeadView;
    if Quiet(run) && (run.rebuild.Some? || Lags(lag0) == {}) {
      QuietMissesNothing(s.canon, run);
      AgreeEverywhere(s.index.committed, HeadView(seen));
    }
  }

  lemma FinishAgrees(seen: Canon, x: IndexState, lag: Lag)
    requires ValidIndex(seen, |seen.log|, x, lag)
    ensures AgreesExcept(x.committed, HeadView(seen), lag.committed)
  {
    CaughtUp(seen, x.committed, lag.committed);
  }

  lemma CommittedIsCovered(cfg: Config, at: Moment)
    requires ProjectionPorts.Valid(cfg, at.s, at.lag)
    ensures Covers(at.s.canon, Watermark(cfg, at.s), at.s.index.committed, at.lag.committed)
  {
  }

  lemma CommittedIsPrefix(cfg: Config, at: Moment)
    ensures Prefixed(cfg, at) ==> AtPrefix(at.s.canon, Watermark(cfg, at.s), at.s.index.committed)
  {
  }

  // The items that any of several runs passed over.
  function MissedByAny(c: Canon, runs: seq<Run>): set<ItemId> {
    if runs == [] then {} else MissedByAny(c, runs[..|runs| - 1]) + Missed(c, runs[|runs| - 1])
  }

  lemma {:induction false} MissedByAnyGrows(c: Canon, later: Canon, runs: seq<Run>)
    requires Grows(c, later)
    ensures MissedByAny(c, runs) <= MissedByAny(later, runs)
  {
    hide Missed, ValidCanon;
    if runs != [] {
      MissedByAnyGrows(c, later, runs[..|runs| - 1]);
      MissedGrows(c, later, runs[|runs| - 1]);
    }
  }

  lemma MissedByMore(c: Canon, later: Canon, runs: seq<Run>, run: Run)
    requires Grows(c, later)
    ensures MissedByAny(c, runs) + Missed(later, run) <= MissedByAny(later, runs + [run])
  {
    hide Missed, ValidCanon;
    MissedByAnyGrows(c, later, runs);
    assert (runs + [run])[..|runs|] == runs;
  }

  ghost predicate AllQuiet(runs: seq<Run>) {
    forall i | 0 <= i < |runs| :: Quiet(runs[i])
  }

  lemma AllQuietMore(runs: seq<Run>, run: Run)
    ensures AllQuiet(runs + [run]) ==> AllQuiet(runs) && Quiet(run)
  {
    hide Quiet;
    if AllQuiet(runs + [run]) {
      assert (runs + [run])[|runs|] == run;
      forall i | 0 <= i < |runs| ensures Quiet(runs[i]) {
        assert (runs + [run])[i] == runs[i];
      }
    }
  }

  lemma {:induction false} QuietRunsMissNothing(c: Canon, runs: seq<Run>)
    requires AllQuiet(runs)
    ensures MissedByAny(c, runs) == {}
  {
    if runs != [] {
      QuietRunsMissNothing(c, runs[..|runs| - 1]);
      QuietMissesNothing(c, runs[|runs| - 1]);
    }
  }

  // ----- pages of a scope that does not change -----

  function ItemsOf(revisions: seq<Revision>): (items: seq<ItemId>)
    ensures |items| == |revisions| && forall i | 0 <= i < |items| :: items[i] == revisions[i].item
  {
    seq(|revisions|, i requires 0 <= i < |revisions| => revisions[i].item)
  }

  function ItemsListed(views: seq<View>): seq<ItemId> {
    if views == [] then [] else ItemsListed(views[..|views| - 1]) + ItemsOf(views[|views| - 1].active)
  }

  function StagedBy(views: seq<View>): Index {
    if views == [] then map[] else MergeAll(StagedBy(views[..|views| - 1]), views[|views| - 1].active)
  }

  lemma ViewsExtend(views: seq<View>, view: View)
    ensures ItemsListed(views + [view]) == ItemsListed(views) + ItemsOf(view.active)
    ensures StagedBy(views + [view]) == MergeAll(StagedBy(views), view.active)
  {
    assert (views + [view])[..|views|] == views;
  }

  // The active index beyond a cursor.
  function Rest(c: Canon, cursor: Cursor): seq<ItemId> {
    match cursor
    case At(after) => After(c.order, after)
    case Finished => []
  }

  // The page is the next part of the active index, and the flag tells whether more remain.
  ghost predicate QuietPage(c: Canon, after: ItemId, limit: nat, view: View) {
    ItemsOf(view.active) == Page(c.order, after, limit) && (view.truncated <==> |After(c.order, after)| > limit)
  }

  lemma PageIsQuiet(c: Canon, after: ItemId, limit: nat, view: View)
    requires ViewOf(c, after, limit, view) && (view.truncated ==> MoreAfter(c, view.active)) && limit > 0
    ensures QuietPage(c, after, limit, view)
  {
    HeadsAreListed(c);
    hide ValidCanon, After, Less, Sorted, PageRevisions;
    var page, rest := Page(c.order, after, limit), After(c.order, after);
    PageIsItems(c, after, limit, view.active);
    if view.truncated {
      var item :| item in c.heads && Less(view.active[|view.active| - 1].item, item);
      MoreIsLonger(c.order, after, limit, item);
    } else if |rest| > limit {
      LongerIsMore(c.order, after, limit);
    }
  }

  lemma PageIsItems(c: Canon, after: ItemId, limit: nat, active: seq<Revision>)
    requires PageOf(c, after, limit, active)
    ensures ItemsOf(active) == Page(c.order, after, limit)
  {
    hide ValidCanon, Page;
  }

  // An item beyond a full page belongs to the rest.
  lemma MoreIsLonger(ids: seq<ItemId>, after: ItemId, limit: nat, item: ItemId)
    requires Sorted(ids) && limit > 0 && item in ids && |Page(ids, after, limit)| == limit
    requires Less(Page(ids, after, limit)[limit - 1], item)
    ensures |After(ids, after)| > limit
  {
    var last := Page(ids, after, limit)[limit - 1];
    PageIsExact(ids, after, limit);
    assert last in Page(ids, after, limit);
    LessTransitive(after, last, item);
    AfterContents(ids, after, item);
    AfterSorted(ids, after);
    if |After(ids, after)| <= limit { NothingAfterLast(After(ids, after), item); }
  }

  lemma LongerIsMore(ids: seq<ItemId>, after: ItemId, limit: nat)
    requires Sorted(ids) && |After(ids, after)| > limit
    ensures exists item :: item in ids && Less(after, item) && item !in Page(ids, after, limit)
  {
    var item := After(ids, after)[limit];
    AfterSorted(ids, after);
    AfterContents(ids, after, item);
    RestIsOutside(After(ids, after), limit);
  }

  // Where the loop over pages stands: what was read when, and the views applied so far.
  datatype Pages = Pages(readAt: map<ItemId, nat>, cursor: Cursor, watermark: nat, views: seq<View>)

  ghost predicate Paged(start: Canon, c: Canon, staged: Index, p: Pages, limit: nat) {
    && Progress(start, c, staged, p.readAt, p.cursor, p.watermark, |p.views|)
    && staged == StagedBy(p.views)
    && (c == start ==> ItemsListed(p.views) + Rest(start, p.cursor) == start.order)
    && (|p.views| > 1 || (|p.views| > 0 && p.cursor.At?) ==> |c.order| > limit)
  }

  lemma NothingPaged(start: Canon, limit: nat)
    ensures Paged(start, start, map[], Pages(map[], At([]), 0, []), limit)
  {
    NothingRead(start);
    NothingListed(start);
    hide ValidCanon, Progress, Rest;
  }

  lemma NothingRead(start: Canon)
    ensures Progress(start, start, map[], map[], At([]), 0, 0)
  {
    forall item | item in start.heads ensures Less([], item) {
      assert ValidHead(start, item);
    }
  }

  lemma PagesEnded(start: Canon, c: Canon, staged: Index, p: Pages, limit: nat)
    requires Paged(start, c, staged, p, limit) && p.cursor == Finished
    ensures Progress(start, c, staged, p.readAt, Finished, p.watermark, |p.views|) && staged == StagedBy(p.views)
    ensures c == start ==> ItemsListed(p.views) == start.order && Sorted(start.order)
    ensures |p.views| > 1 ==> |c.order| > limit
  {
    HeadsAreListed(start);
    hide ValidCanon, Progress, ItemsListed, StagedBy, Sorted;
    assert ItemsListed(p.views) + [] == ItemsListed(p.views);
  }

  // What a page does for the rebuild.
  lemma PageApplied(start: Canon, before: Canon, at: Canon, mid: Canon, c: Canon, staged: Index, p: Pages, view: View,
      limit: nat)
    returns (p': Pages)
    requires Grows(before, at) && Grows(at, mid) && Grows(mid, c) && limit > 0 && |before.log| <= view.changeSeq
    requires Paged(start, before, staged, p, limit) && p.cursor.At?
    requires ViewOf(at, p.cursor.after, limit, view) && (view.truncated ==> MoreAfter(mid, view.active))
    ensures Paged(start, c, MergeAll(staged, view.active), p', limit)
    ensures p'.cursor == NextCursor(view) && p'.watermark == view.changeSeq && p'.views == p.views + [view]
    ensures |before.log| < |c.log| || Distance(c, NextCursor(view)) < Distance(before, p.cursor)
  {
    var after := p.cursor.after;
    p' := Pages(MarkRead(p.readAt, Page(at.order, after, limit), |at.log|), NextCursor(view), view.changeSeq,
      p.views + [view]);
    GrowsTransitive(at, mid, c);
    PageIsProgress(start, before, at, c, staged, p, view, limit);
    PageIsListed(start, before, at, mid, c, p, view, limit);
    MoreNeedsRoom(at, mid, after, limit, view);
    GrowsTransitive(before, at, c);
    OrderGrows(before, c);
    OrderGrows(mid, c);
    ViewsExtend(p.views, view);
    hide ValidCanon, ViewOf, MoreAfter, Progress, Grows, ItemsListed, StagedBy, MergeAll, Distance, MarkRead, Page;
  }

  lemma PageIsProgress(start: Canon, before: Canon, at: Canon, c: Canon, staged: Index, p: Pages, view: View,
      limit: nat)
    requires Grows(before, at) && Grows(at, c) && limit > 0 && |before.log| <= view.changeSeq
    requires Progress(start, before, staged, p.readAt, p.cursor, p.watermark, |p.views|) && p.cursor.At?
    requires ViewOf(at, p.cursor.after, limit, view)
    ensures Progress(start, c, MergeAll(staged, view.active),
                     MarkRead(p.readAt, Page(at.order, p.cursor.after, limit), |at.log|), NextCursor(view),
                     view.changeSeq, |p.views| + 1)
    ensures |before.log| < |c.log| || Distance(c, NextCursor(view)) < Distance(before, p.cursor)
  {
    hide ValidCanon, ViewOf, ReadState, ReadUpTo;
    PageMakesProgress(start, before, at, c, staged, p.readAt, p.cursor.after, limit, view, |p.views|);
    PageShortensTheRest(before, at, c, p.cursor.after, limit, view);
  }

  // In a scope that stood still the page continues the listing.
  lemma PageIsListed(start: Canon, before: Canon, at: Canon, mid: Canon, c: Canon, p: Pages, view: View, limit: nat)
    requires Grows(start, before) && Grows(before, at) && Grows(at, mid) && Grows(mid, c) && limit > 0
    requires before == start ==> ItemsListed(p.views) + Rest(start, p.cursor) == start.order
    requires p.cursor.At? && ViewOf(at, p.cursor.after, limit, view)
    requires view.truncated ==> MoreAfter(mid, view.active)
    ensures c == start ==> ItemsListed(p.views) + ItemsOf(view.active) + Rest(start, NextCursor(view)) == start.order
  {
    hide ValidCanon, ViewOf, MoreAfter, ItemsListed, QuietPage;
    if c == start {
      GrowsTransitive(before, at, mid);
      GrowsBothWays(start, before, mid, c);
      QuietView(before, at, mid, c, p.cursor.after, limit, view);
      ListingExtends(start, ItemsListed(p.views), p.cursor.after, view, limit);
    }
  }

  // A page that is full and not the last: the scope has more active items than it holds.
  lemma MoreNeedsRoom(at: Canon, mid: Canon, after: ItemId, limit: nat, view: View)
    requires Grows(at, mid) && ViewOf(at, after, limit, view) && (view.truncated ==> MoreAfter(mid, view.active))
    ensures view.truncated ==> |mid.order| > limit
  {
    hide ValidCanon, Page, Less, Sorted, PageRevisions, ViewOf;
    if view.truncated {
      var page := FullPage(at, after, limit, view);
      HeadsAreListed(mid);
      var item :| item in mid.heads && Less(view.active[|view.active| - 1].item, item);
      RoomForMore(page, item, mid.order);
    }
  }

  lemma FullPage(at: Canon, after: ItemId, limit: nat, view: View) returns (page: seq<ItemId>)
    requires ViewOf(at, after, limit, view) && view.truncated
    ensures Sorted(page) && |page| == limit == |view.active| && forall id | id in page :: id in at.heads
    ensures page != [] ==> page[|page| - 1] == view.active[|view.active| - 1].item
  {
    hide ValidCanon, Page, Less, Sorted, PageRevisions;
    HeadsAreListed(at);
    page := Page(at.order, after, limit);
    PageIsItems(at, after, limit, view.active);
    PageIsExact(at.order, after, limit);
  }

  lemma RoomForMore(page: seq<ItemId>, item: ItemId, order: seq<ItemId>)
    requires Sorted(page) && Sorted(order) && page != [] && Less(page[|page| - 1], item)
    requires item in order && forall id | id in page :: id in order
    ensures |order| > |page|
  {
    NotInPage(page, item);
    AllDifferent(page);
    AllDifferent(order);
    hide Sorted, Less;
    SubsetIsSmaller((set id | id in page) + {item}, set id | id in order);
  }

  lemma NotInPage(page: seq<ItemId>, item: ItemId)
    requires Sorted(page) && page != [] && Less(page[|page| - 1], item)
    ensures item !in page
  {
    if item in page { NothingAfterLast(page, item); }
  }

  lemma ViewIsLogged(at: Canon, c: Canon, after: ItemId, limit: nat, view: View)
    requires Grows(at, c) && ViewOf(at, after, limit, view)
    ensures forall i | 0 <= i < |view.active| :: IsLogged(c, view.active[i])
  {
    hide ValidCanon;
    PageIsLogged(at, c, after, limit, view.active);
  }

  lemma QuietView(before: Canon, at: Canon, mid: Canon, c: Canon, after: ItemId, limit: nat, view: View)
    requires Grows(before, at) && Grows(at, mid) && Grows(mid, c) && limit > 0
    requires ViewOf(at, after, limit, view) && (view.truncated ==> MoreAfter(mid, view.active))
    ensures c == before ==> QuietPage(c, after, limit, view)
  {
    if c == before {
      hide ValidCanon, QuietPage, ViewOf, MoreAfter;
      GrowsBothWays(before, at, mid, c);
      PageIsQuiet(at, after, limit, view);
    }
  }

  lemma NothingAfterLast(ids: seq<ItemId>, item: ItemId)
    requires Sorted(ids) && item in ids
    ensures !Less(ids[|ids| - 1], item)
  {
    var i :| 0 <= i < |ids| && ids[i] == item;
    if i < |ids| - 1 { LessAsymmetric(item, ids[|ids| - 1]); } else { LessIrreflexive(item); }
  }

  lemma RestIsOutside(ids: seq<ItemId>, limit: nat)
    requires Sorted(ids) && limit < |ids|
    ensures ids[limit] !in Take(ids, limit)
  {
    LessIrreflexive(ids[limit]);
  }

  lemma NothingListed(c: Canon)
    ensures [] + Rest(c, At([])) == c.order
  {
    HeadsAreListed(c);
    forall i | 0 <= i < |c.order| ensures Less([], c.order[i]) {
      assert c.order[i] in c.heads && ValidHead(c, c.order[i]);
    }
    AfterAll(c.order, []);
  }

  // Behind the last item of a page, the rest begins where the page ended.
  lemma RestAfterPage(ids: seq<ItemId>, after: ItemId, limit: nat)
    requires Sorted(ids) && 0 < limit <= |After(ids, after)|
    ensures After(ids, after) == Page(ids, after, limit) + After(ids, Page(ids, after, limit)[limit - 1])
  {
    hide After, Less, Sorted;
    var rest := After(ids, after);
    AfterIsTail(ids, after);
    var start := |ids| - |rest|;
    AfterElement(ids, start + limit - 1);
    TailSplits(ids, start, limit);
  }

  lemma TailSplits(ids: seq<ItemId>, start: nat, limit: nat)
    requires 0 < limit && start + limit <= |ids|
    ensures ids[start..] == ids[start..][..limit] + ids[start + limit..]
    ensures ids[start..][limit - 1] == ids[start + limit - 1] && Take(ids[start..], limit) == ids[start..][..limit]
  {
  }

  lemma {:induction false} AfterIsTail(ids: seq<ItemId>, after: ItemId)
    requires Sorted(ids)
    ensures |After(ids, after)| <= |ids| && After(ids, after) == ids[|ids| - |After(ids, after)|..]
  {
    if ids != [] {
      AfterIsTail(ids[1..], after);
      if Less(after, ids[0]) {
        forall i | 0 <= i < |ids| ensures Less(after, ids[i]) {
          if i > 0 { LessTransitive(after, ids[0], ids[i]); }
        }
        AfterAll(ids, after);
      }
    }
  }

  lemma ListingExtends(c: Canon, listed: seq<ItemId>, after: ItemId, view: View, limit: nat)
    requires listed + After(c.order, after) == c.order && QuietPage(c, after, limit, view) && limit > 0
    ensures listed + ItemsOf(view.active) + Rest(c, NextCursor(view)) == c.order
  {
    hide ValidCanon;
    HeadsAreListed(c);
    if NextCursor(view).At? {
      RestAfterPage(c.order, after, limit);
    } else {
      assert Page(c.order, after, limit) == After(c.order, after);
    }
  }

  // A finished rebuild of one page, or of a scope that stood still, staged a fold.
  lemma FinishedIsPrefix(start: Canon, c: Canon, staged: Index, readAt: map<ItemId, nat>, w: nat, pages: nat)
    requires Progress(start, c, staged, readAt, Finished, w, pages) && (pages <= 1 || c == start)
    ensures AtPrefix(c, w, staged) && Behind(c, readAt, w) == {}
  {
    hide ValidCanon, Behind, ReadTogether, ReadState, Fold;
    var n: nat := |c.log|;
    if pages <= 1 {
      n :| w <= n <= |c.log| && ReadTogether(c, readAt, n);
    } else {
      StillIsTogether(c, staged, readAt);
    }
    TogetherIsFold(c, staged, readAt, n);
    TogetherIsCurrent(c, readAt, n, w);
  }

  // ----- batches -----

  ghost predicate FullBatch(c: Canon, from: nat, limit: nat, changes: seq<Change>) {
    from + |changes| == if from + limit < |c.log| then from + limit else |c.log|
  }

  // What a call of Apply leaves of a full batch: all of it, or a part.
  lemma BatchStaged(scanned: Canon, read: Canon, c: Canon, from: nat, limit: nat, changes: seq<Change>, staged: Index,
      staged': Index, revisions: seq<Revision>)
    requires Grows(scanned, read) && Grows(read, c) && from + |changes| <= |scanned.log|
    requires forall i | 0 <= i < |revisions| :: StoredBefore(read, from + |changes|, revisions[i])
    requires forall k | from <= k < from + |changes| :: forall id | id in scanned.log[k].revisionIds ::
      scanned.revisions[id] in revisions
    requires exists done: nat :: done <= |revisions| && staged' == MergeAll(staged, revisions[..done])
    ensures FullBatch(scanned, from, limit, changes) && NearPrefix(scanned, from, limit, staged) ==>
      NearPrefix(c, from, limit, staged') && AtPrefix(c, from + |changes|, MergeAll(staged, revisions))
  {
    hide ValidCanon, NearPrefix, AtPrefix, StoredBefore, MergeAll;
    var done: nat :| done <= |revisions| && staged' == MergeAll(staged, revisions[..done]);
    var e := from + |changes|;
    GrowsTransitive(scanned, read, c);
    forall i | 0 <= i < |revisions| ensures StoredBefore(c, e, revisions[i]) {
      StoredGrows(read, c, e, revisions[i]);
    }
    forall k, id | from <= k < e && id in c.log[k].revisionIds
      ensures id in c.revisions && c.revisions[id] in revisions
    {
      WasAnnounced(scanned, c, k, id);
    }
    if FullBatch(scanned, from, limit, changes) && NearPrefix(scanned, from, limit, staged) {
      PartIsNear(scanned, c, from, limit, e, staged, revisions, done);
      BatchIsPrefix(scanned, c, from, limit, e, staged, revisions);
    }
  }

  lemma StoredGrows(c: Canon, later: Canon, m: nat, r: Revision)
    requires Grows(c, later) && m <= |c.log| && StoredBefore(c, m, r)
    ensures StoredBefore(later, m, r)
  {
    var k :| 0 <= k < m && r.id in c.log[k].revisionIds;
    assert later.log[k] == c.log[k];
  }

  ghost predicate ScannedFrom(c: Canon, from: nat, changes: seq<Change>) {
    from + |changes| <= |c.log| && changes == c.log[from..from + |changes|] && (changes == [] ==> from == |c.log|)
  }

  lemma LastSequence(c: Canon, from: nat, changes: seq<Change>)
    requires ScannedFrom(c, from, changes) && changes != []
    ensures changes[|changes| - 1].sequence == from + |changes| <= |c.log|
  {
  }

  lemma ChangesAreKnown(s: State, after: nat, limit: nat, ids: seq<RevisionId>)
    requires s.trimmed <= |s.canon.log|
    requires forall id | id in ids ::
      exists k :: 0 <= k < |ChangesAfter(s, after, limit)| && id in ChangesAfter(s, after, limit)[k].revisionIds
    ensures Known(s.canon, ids)
  {
    var from := if s.trimmed > after then s.trimmed else after;
    var to := if from + limit < |s.canon.log| then from + limit else |s.canon.log|;
    assert ChangesAfter(s, after, limit) == if from <= to then s.canon.log[from..to] else [];
    hide ValidCanon, ChangesAfter, Known;
    if from <= to {
      PartIsKnown(s.canon, from, to, ChangesAfter(s, after, limit), ids);
    } else {
      NothingIsKnown(s.canon, ids);
    }
  }

  lemma NothingIsKnown(c: Canon, ids: seq<RevisionId>)
    requires forall id :: id !in ids
    ensures Known(c, ids)
  {
  }

  lemma PartIsKnown(c: Canon, from: nat, to: nat, changes: seq<Change>, ids: seq<RevisionId>)
    requires from <= to <= |c.log| && changes == c.log[from..to]
    requires forall id | id in ids :: exists k :: 0 <= k < |changes| && id in changes[k].revisionIds
    ensures Known(c, ids)
  {
    forall id | id in ids ensures id in c.revisions {
      var k :| 0 <= k < |changes| && id in changes[k].revisionIds;
      assert c.log[from + k] == changes[k];
      assert BelowHead(c, id);
    }
  }

  lemma AnnouncedAreStored(c: Canon, from: nat, changes: seq<Change>, ids: seq<RevisionId>)
    requires ScannedFrom(c, from, changes)
    requires forall id | id in ids :: exists k :: 0 <= k < |changes| && id in changes[k].revisionIds
    ensures Known(c, ids)
  {
    hide ValidCanon, Known;
    PartIsKnown(c, from, from + |changes|, changes, ids);
  }

  // What was read for a batch was announced by it, and all it announced was read.
  ghost predicate Loaded(read: Canon, changes: seq<Change>, ids: seq<RevisionId>, revisions: seq<Revision>) {
    && (forall id :: id in ids <==> exists k :: 0 <= k < |changes| && id in changes[k].revisionIds)
    && |revisions| == |ids| && forall i | 0 <= i < |ids| ::
      ids[i] in read.revisions && revisions[i] == read.revisions[ids[i]]
  }

  lemma LoadedIsLogged(scanned: Canon, read: Canon, changes: seq<Change>, from: nat, ids: seq<RevisionId>,
      revisions: seq<Revision>)
    requires Grows(scanned, read) && ScannedFrom(scanned, from, changes) && Loaded(read, changes, ids, revisions)
    ensures forall i | 0 <= i < |revisions| :: IsLogged(read, revisions[i])
    ensures forall i | 0 <= i < |revisions| :: StoredBefore(read, from + |changes|, revisions[i])
  {
    forall i | 0 <= i < |revisions|
      ensures IsLogged(read, revisions[i]) && StoredBefore(read, from + |changes|, revisions[i])
    {
      assert ids[i] in ids;
      var k :| 0 <= k < |changes| && ids[i] in changes[k].revisionIds;
      assert read.log[from + k] == scanned.log[from + k] == changes[k];
    }
  }

  lemma LoadedIsAll(scanned: Canon, read: Canon, changes: seq<Change>, from: nat, ids: seq<RevisionId>,
      revisions: seq<Revision>)
    requires Grows(scanned, read) && ScannedFrom(scanned, from, changes) && Loaded(read, changes, ids, revisions)
    ensures forall k | from <= k < from + |changes| :: forall id | id in scanned.log[k].revisionIds ::
      scanned.revisions[id] in revisions
  {
    hide ValidCanon, Loaded;
    forall k, id | from <= k < from + |changes| && id in scanned.log[k].revisionIds
      ensures id in scanned.revisions && scanned.revisions[id] in revisions
    {
      LoadedHas(scanned, read, changes, from, ids, revisions, k, id);
    }
  }

  lemma LoadedHas(
    scanned: Canon, read: Canon, changes: seq<Change>, from: nat, ids: seq<RevisionId>, revisions: seq<Revision>,
      k: nat, id: RevisionId)
    requires Grows(scanned, read) && ScannedFrom(scanned, from, changes) && Loaded(read, changes, ids, revisions)
    requires from <= k < from + |changes| && id in scanned.log[k].revisionIds
    ensures id in scanned.revisions && scanned.revisions[id] in revisions
  {
    hide ValidCanon;
    assert changes[k - from] == scanned.log[k];
    assert id in ids;
    IsStored(scanned, read, k, id);
    IsAmong(read, ids, revisions, id);
  }

  lemma IsStored(scanned: Canon, read: Canon, k: nat, id: RevisionId)
    requires Grows(scanned, read) && k < |scanned.log| && id in scanned.log[k].revisionIds
    ensures id in scanned.revisions && id in read.revisions && scanned.revisions[id] == read.revisions[id]
  {
    assert BelowHead(scanned, id);
  }

  lemma IsAmong(read: Canon, ids: seq<RevisionId>, revisions: seq<Revision>, id: RevisionId)
    requires |revisions| == |ids| && forall i | 0 <= i < |ids| ::
      ids[i] in read.revisions && revisions[i] == read.revisions[ids[i]]
    requires id in ids
    ensures id in read.revisions && read.revisions[id] in revisions
  {
  }

  lemma BatchCovers(
    scanned: Canon, read: Canon, c: Canon, from: nat, to: nat, staged: Index, lagging: set<ItemId>,
      revisions: seq<Revision>)
    requires Grows(scanned, read) && Grows(read, c) && from <= to <= |scanned.log|
    requires Covers(scanned, from, staged, lagging)
    requires forall k | from <= k < to :: forall id | id in scanned.log[k].revisionIds ::
      scanned.revisions[id] in revisions
    ensures Covers(c, to, MergeAll(staged, revisions), lagging)
  {
    MergeAllCovers(scanned, from, to, staged, lagging, revisions);
    GrowsTransitive(scanned, read, c);
    GrowsCovers(scanned, c, to, MergeAll(staged, revisions), lagging);
  }

  // A rebuild that reports watermark w has staged everything up to it, except items that
  // changed while it ran.
  ghost predicate Rebuilt(s: State, lag: Lag, before: State, w: nat) {
    && |before.canon.log| <= w <= |s.canon.log| && !lag.rebuilding
    && Covers(s.canon, w, s.index.staged, lag.staged)
    && lag.staged <= ChangedItems(s.canon, |before.canon.log|, w)
  }

  lemma RebuiltSince(s: State, lag: Lag, early: State, late: State, w: nat)
    requires Rebuilt(s, lag, late, w) && |early.canon.log| <= |late.canon.log|
    ensures Rebuilt(s, lag, early, w)
  {
  }

  // One view that holds every head is never behind the sequence it reports.
  lemma WholeViewCovers(at: Canon, c: Canon, view: View)
    requires Grows(at, c) && ViewOf(at, [], MAX_READ, view) && !view.truncated
    ensures Covers(c, view.changeSeq, MergeAll(map[], view.active), {})
    ensures AtPrefix(c, view.changeSeq, MergeAll(map[], view.active))
  {
    hide ValidCanon, Fold, MergeAll, Page;
    var readAt := MarkRead(map[], Page(at.order, [], MAX_READ), |at.log|);
    PageIsRead(c, at, c, map[], map[], [], MAX_READ, view);
    OnePageIsTogether(at, c, MAX_READ, view);
    TogetherIsFold(c, MergeAll(map[], view.active), readAt, |at.log|);
    OnePageIsCurrent(at, c, MAX_READ, view);
    BehindCovers(c, MergeAll(map[], view.active), readAt, view.changeSeq);
  }

  lemma PageIsLogged(at: Canon, c: Canon, after: ItemId, limit: nat, revisions: seq<Revision>)
    requires Grows(at, c) && PageOf(at, after, limit, revisions)
    ensures forall i | 0 <= i < |revisions| :: IsLogged(c, revisions[i])
  {
    forall i | 0 <= i < |revisions| ensures IsLogged(c, revisions[i]) {
      var item := Page(at.order, after, limit)[i];
      assert ValidHead(at, item);
      GrowsLogged(at, c, at.revisions[at.heads[item]]);
    }
  }

  // ----- pages -----

  // The items of a scanned page are distinct heads.
  lemma PageItems(at: Canon, after: ItemId, limit: nat, items: seq<(ItemId, RevisionId)>)
    requires var page := Page(at.order, after, limit);
      |items| == |page| && forall i | 0 <= i < |page| :: page[i] in at.heads && items[i] == (page[i], at.heads[page[i]])
    ensures forall i | 0 <= i < |items| :: items[i].0 in at.heads && at.heads[items[i].0] == items[i].1
    ensures forall i, j | 0 <= i < j < |items| :: items[i].0 != items[j].0
  {
    var page := Page(at.order, after, limit);
    PageIsExact(at.order, after, limit);
    forall i, j | 0 <= i < j < |items| ensures items[i].0 != items[j].0 {
      LessIrreflexive(page[i]);
      assert Less(page[i], page[j]);
    }
  }

  lemma HeadsAreDistinct(at: Canon, items: seq<(ItemId, RevisionId)>, ids: seq<RevisionId>)
    requires |ids| == |items|
    requires forall i | 0 <= i < |items| :: items[i].0 in at.heads && at.heads[items[i].0] == items[i].1 == ids[i]
    requires forall i, j | 0 <= i < j < |items| :: items[i].0 != items[j].0
    ensures DistinctIds(ids)
  {
  }

  lemma HeadsAreKnown(at: Canon, items: seq<(ItemId, RevisionId)>, ids: seq<RevisionId>)
    requires |ids| == |items|
    requires forall i | 0 <= i < |items| :: items[i].0 in at.heads && at.heads[items[i].0] == items[i].1 == ids[i]
    ensures Known(at, ids)
  {
    forall id | id in ids ensures id in at.revisions {
      var i :| 0 <= i < |ids| && ids[i] == id;
      assert ValidHead(at, items[i].0);
    }
  }

  // A head is a revision of its own item.
  lemma HeadsAreTheirs(at: Canon, later: Canon, items: seq<(ItemId, RevisionId)>, loaded: seq<Revision>)
    requires Grows(at, later) && |loaded| == |items|
    requires forall i | 0 <= i < |items| :: items[i].0 in at.heads && at.heads[items[i].0] == items[i].1
    requires forall i | 0 <= i < |items| :: items[i].1 in later.revisions && loaded[i] == later.revisions[items[i].1]
    ensures forall i | 0 <= i < |items| :: loaded[i].id == items[i].1 && loaded[i].item == items[i].0
  {
    forall i | 0 <= i < |items| ensures loaded[i].id == items[i].1 && loaded[i].item == items[i].0 {
      assert ValidHead(at, items[i].0);
      assert later.revisions[items[i].1] == at.revisions[items[i].1];
    }
  }

  lemma PageWasLoaded(at: Canon, later: Canon, page: seq<ItemId>, items: seq<(ItemId, RevisionId)>,
      active: seq<Revision>)
    requires Grows(at, later) && |items| == |page| == |active|
    requires forall i | 0 <= i < |page| :: page[i] in at.heads && items[i] == (page[i], at.heads[page[i]])
    requires forall i | 0 <= i < |items| :: items[i].1 in later.revisions && active[i] == later.revisions[items[i].1]
    ensures PageRevisions(at, page, active)
  {
  }

  // An empty probe after a full page: every head beyond the cursor was on the page.
  lemma ProbeIsConclusive(at: Canon, later: Canon, after: ItemId, limit: nat)
    requires Grows(at, later) && limit > 0
    requires var page := Page(at.order, after, limit); page != [] && Page(later.order, page[|page| - 1], 1) == []
    ensures forall item | item in at.heads && Less(after, item) :: item in Page(at.order, after, limit)
  {
    hide ValidCanon, Page;
    HeadsAreListed(at);
    HeadsAreListed(later);
    var page := Page(at.order, after, limit);
    PageIsExact(at.order, after, limit);
    PageIsExact(later.order, page[|page| - 1], 1);
    forall item | item in at.heads && Less(after, item) ensures item in page {
      assert item in at.order && item in later.order;
    }
  }
}
