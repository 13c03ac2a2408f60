// What one Sync met that can leave its index behind: a rebuild of several pages under
// commits, and scans of changes that retention had already dropped.
module ProjectionRuns {
  import opened Wrappers
  import opened Bytes
  import opened CanonicalLog
  import opened ProjectionPorts
  import opened LogPrefixes

  // A rebuild: the scope when it began and when it ended, the watermark it reported and the
  // number of pages it read.
  datatype Window = Window(begun: Canon, ended: Canon, watermark: nat, pages: nat)

  // A scan after change number from, when the log held nothing up to number to any more.
  datatype Gap = Gap(from: nat, to: nat)

  datatype Run = Run(rebuild: Option<Window>, gaps: seq<Gap>)

  // One page, or no commit between its beginning and its end.
  predicate Steady(w: Window) {
    w.pages <= 1 || w.ended == w.begun
  }

  predicate Quiet(run: Run) {
    (run.rebuild.Some? ==> Steady(run.rebuild.value)) && run.gaps == []
  }

  // A change that landed while several pages were read, or that a scan could not see.
  predicate PassedOver(run: Run, k: nat) {
    || (run.rebuild.Some? && !Steady(run.rebuild.value)
        && |run.rebuild.value.begun.log| <= k < run.rebuild.value.watermark)
    || exists i | 0 <= i < |run.gaps| :: run.gaps[i].from <= k < run.gaps[i].to
  }

  // The items of the changes a Sync passed over.
  function Missed(c: Canon, run: Run): set<ItemId> {
    set k, id | 0 <= k < |c.log| && PassedOver(run, k) && id in c.log[k].revisionIds :: c.revisions[id].item
  }

  // The items the staged or the durable index may be behind on.
  function Lags(lag: Lag): set<ItemId> {
    lag.staged + lag.committed
  }

  lemma QuietMissesNothing(c: Canon, run: Run)
    requires Quiet(run)
    ensures Missed(c, run) == {}
  {
  }

  lemma LogIsStored(c: Canon)
    ensures forall k | 0 <= k < |c.log| :: forall id | id in c.log[k].revisionIds :: id in c.revisions
  {
  }

  lemma IsMissed(c: Canon, run: Run, k: nat, id: RevisionId)
    requires k < |c.log| && PassedOver(run, k) && id in c.log[k].revisionIds
    ensures id in c.revisions && c.revisions[id].item in Missed(c, run)
  {
    assert BelowHead(c, id);
  }

  lemma MissedGrows(c: Canon, later: Canon, run: Run)
    requires Grows(c, later)
    ensures Missed(c, run) <= Missed(later, run)
  {
    LogIsStored(c);
    hide PassedOver, ValidCanon, Grows;
    forall item | item in Missed(c, run) ensures item in Missed(later, run) {
      var k, id :| 0 <= k < |c.log| && PassedOver(run, k) && id in c.log[k].revisionIds
        && c.revisions[id].item == item;
      StaysAnnounced(c, later, k, id);
      IsMissed(later, run, k, id);
    }
  }

  lemma StaysAnnounced(c: Canon, later: Canon, k: nat, id: RevisionId)
    requires Grows(c, later) && k < |c.log| && id in c.log[k].revisionIds
    ensures k < |later.log| && id in later.log[k].revisionIds
    ensures id in c.revisions && id in later.revisions && later.revisions[id] == c.revisions[id]
  {
    assert later.log[k] == c.log[k];
    assert BelowHead(c, id);
  }

  // A run that passes over more misses more.
  lemma MissedWidens(c: Canon, run: Run, wider: Run)
    requires forall k: nat | PassedOver(run, k) :: PassedOver(wider, k)
    ensures Missed(c, run) <= Missed(c, wider)
  {
    hide PassedOver, ValidCanon;
  }

  lemma MissedParts(c: Canon, rebuild: Option<Window>, gaps: seq<Gap>, more: seq<Gap>)
    ensures Missed(c, Run(rebuild, [])) <= Missed(c, Run(rebuild, gaps))
    ensures Missed(c, Run(None, gaps)) <= Missed(c, Run(rebuild, gaps))
    ensures Missed(c, Run(None, gaps)) <= Missed(c, Run(None, gaps + more))
    ensures Missed(c, Run(None, more)) <= Missed(c, Run(None, gaps + more))
  {
    MissedWidens(c, Run(rebuild, []), Run(rebuild, gaps));
    MissedWidens(c, Run(None, gaps), Run(rebuild, gaps));
    forall k: nat | PassedOver(Run(None, gaps), k) ensures PassedOver(Run(None, gaps + more), k) {
      var i :| 0 <= i < |gaps| && gaps[i].from <= k < gaps[i].to;
      assert (gaps + more)[i] == gaps[i];
    }
    MissedWidens(c, Run(None, gaps), Run(None, gaps + more));
    forall k: nat | PassedOver(Run(None, more), k) ensures PassedOver(Run(None, gaps + more), k) {
      var i :| 0 <= i < |more| && more[i].from <= k < more[i].to;
      assert (gaps + more)[|gaps| + i] == more[i];
    }
    MissedWidens(c, Run(None, more), Run(None, gaps + more));
  }

  lemma WindowIsMissed(c: Canon, w: Window)
    requires !Steady(w) && |w.begun.log| <= w.watermark <= |c.log|
    ensures ChangedItems(c, |w.begun.log|, w.watermark) <= Missed(c, Run(Some(w), []))
  {
    hide Steady;
    forall item | item in ChangedItems(c, |w.begun.log|, w.watermark) ensures item in Missed(c, Run(Some(w), [])) {
      var k, id :| |w.begun.log| <= k < w.watermark && id in c.log[k].revisionIds && c.revisions[id].item == item;
      IsMissed(c, Run(Some(w), []), k, id);
    }
  }

  lemma GapIsMissed(c: Canon, g: Gap)
    requires g.from <= g.to <= |c.log|
    ensures ChangedItems(c, g.from, g.to) <= Missed(c, Run(None, [g]))
  {
    GapIsPassedOver(g);
    LogIsStored(c);
    hide ValidCanon, PassedOver;
    forall item | item in ChangedItems(c, g.from, g.to) ensures item in Missed(c, Run(None, [g])) {
      var k, id :| g.from <= k < g.to && id in c.log[k].revisionIds && c.revisions[id].item == item;
      IsMissed(c, Run(None, [g]), k, id);
    }
  }

  lemma GapIsPassedOver(g: Gap)
    ensures forall k: nat | g.from <= k < g.to :: PassedOver(Run(None, [g]), k)
  {
    assert Run(None, [g]).gaps[0] == g;
  }

  // ----- what happened between two states -----

  // A rebuild was due, and took place between them.
  ghost predicate WindowFits(cfg: Config, a: State, b: State, w: Window) {
    && cfg.hasRetention && b.floor > Watermark(cfg, a)
    && Grows(a.canon, w.begun) && Grows(w.begun, w.ended) && Grows(w.ended, b.canon)
    && |w.begun.log| <= w.watermark <= |w.ended.log|
    && (w.pages > 1 ==> cfg.rebuildSupport.PagedRebuild? && |w.ended.order| > cfg.batchSize)
  }

  // Retention passed the cursor of a scan, which stood at least at after.
  ghost predicate GapsFit(after: nat, trimmed: nat, gaps: seq<Gap>) {
    forall i | 0 <= i < |gaps| :: after <= gaps[i].from < gaps[i].to <= trimmed
  }

  ghost predicate Happened(cfg: Config, a: State, b: State, run: Run) {
    && (run.rebuild.Some? ==> WindowFits(cfg, a, b, run.rebuild.value))
    && GapsFit(Watermark(cfg, a), b.trimmed, run.gaps) && GapsFit(a.floor, b.trimmed, run.gaps)
  }

  lemma WindowStillFits(cfg: Config, a: State, b: State, c: State, w: Window)
    requires WindowFits(cfg, a, b, w) && Moved(b, c)
    ensures WindowFits(cfg, a, c, w)
  {
    GrowsTransitive(w.ended, b.canon, c.canon);
  }

  lemma WindowFitsSince(cfg: Config, a: State, b: State, c: State, w: Window)
    requires Moved(a, b) && Watermark(cfg, b) == Watermark(cfg, a) && WindowFits(cfg, b, c, w)
    ensures WindowFits(cfg, a, c, w)
  {
    GrowsTransitive(a.canon, b.canon, w.begun);
  }

  // Whoever sees only the states: retention did not pass what the generation had at hand,
  // and no rebuild was due that needs several pages, in a scope that changed.
  lemma QuietByStates(cfg: Config, a: State, b: State, run: Run)
    requires Happened(cfg, a, b, run)
    requires b.trimmed <= Watermark(cfg, a) || b.trimmed <= a.floor
    requires b.floor <= Watermark(cfg, a) || cfg.rebuildSupport.WholeRebuild? || |b.canon.order| <= cfg.batchSize
      || b.canon == a.canon
    ensures Quiet(run)
  {
    if run.rebuild.Some? { OrderGrows(run.rebuild.value.ended, b.canon); }
    NoGaps(if a.floor < Watermark(cfg, a) then Watermark(cfg, a) else a.floor, b.trimmed, run.gaps);
    if run.rebuild.Some? && b.canon == a.canon {
      var w := run.rebuild.value;
      GrowsBothWays(a.canon, w.begun, w.ended, b.canon);
    }
  }

  lemma NoGaps(after: nat, trimmed: nat, gaps: seq<Gap>)
    requires GapsFit(after, trimmed, gaps) && trimmed <= after
    ensures gaps == []
  {
    if gaps != [] { GapIsBeyond(after, trimmed, gaps, 0); }
  }

  lemma GapIsBeyond(after: nat, trimmed: nat, gaps: seq<Gap>, i: nat)
    requires GapsFit(after, trimmed, gaps) && i < |gaps|
    ensures after < trimmed
  {
    assert gaps[i].from < gaps[i].to;
  }

  lemma GrowsBothWays(a: Canon, b: Canon, c: Canon, d: Canon)
    requires Grows(a, b) && Grows(b, c) && Grows(c, d) && a == d
    ensures a == b == c
  {
  }

  // ----- prefixes -----

  // The durable index is a fold of the log, no shorter than the stored watermark; what is
  // staged is one too, or is part of the next batch short of one, or is being rebuilt.
  ghost predicate Prefixed(cfg: Config, at: Moment) {
    && AtPrefix(at.s.canon, Watermark(cfg, at.s), at.s.index.committed)
    && (at.lag.rebuilding || NearPrefix(at.s.canon, Watermark(cfg, at.s), cfg.batchSize, at.s.index.staged))
  }

  // A generation never synced holds the fold of no changes.
  lemma NewIsPrefixed(cfg: Config, at: Moment)
    requires Watermark(cfg, at.s) == 0 && at.s.index == IndexState(map[], map[])
    ensures Prefixed(cfg, at)
  {
    assert Fold(at.s.canon, 0) == map[];
    PrefixIsNear(at.s.canon, 0, cfg.batchSize, map[]);
  }

  lemma PrefixedGrows(cfg: Config, a: Moment, b: Moment)
    requires Prefixed(cfg, a) && Moved(a.s, b.s) && Watermark(cfg, b.s) == Watermark(cfg, a.s)
    requires b.s.index == a.s.index && (a.lag.rebuilding ==> b.lag.rebuilding)
    ensures Prefixed(cfg, b)
  {
    hide AtPrefix, NearPrefix;
    PrefixGrows(a.s.canon, b.s.canon, Watermark(cfg, a.s), a.s.index.committed);
    if !a.lag.rebuilding { NearGrows(a.s.canon, b.s.canon, Watermark(cfg, a.s), cfg.batchSize, a.s.index.staged); }
  }

  // A rebuild in the making, or one that failed, leaves the durable index as it was.
  lemma PrefixedRebuilding(cfg: Config, a: Moment, b: Moment)
    requires Prefixed(cfg, a) && Moved(a.s, b.s) && Watermark(cfg, b.s) == Watermark(cfg, a.s)
    requires b.s.index.committed == a.s.index.committed && b.lag.rebuilding
    ensures Prefixed(cfg, b)
  {
    PrefixGrows(a.s.canon, b.s.canon, Watermark(cfg, a.s), a.s.index.committed);
  }

  // A restart forgets what was staged.
  lemma PrefixedRestart(cfg: Config, a: Moment, b: Moment)
    requires Prefixed(cfg, a) && Moved(a.s, b.s) && Watermark(cfg, b.s) == Watermark(cfg, a.s)
    requires b.s.index == a.s.index.(staged := a.s.index.committed)
    ensures Prefixed(cfg, b)
  {
    PrefixGrows(a.s.canon, b.s.canon, Watermark(cfg, a.s), a.s.index.committed);
    PrefixIsNear(b.s.canon, Watermark(cfg, b.s), cfg.batchSize, b.s.index.staged);
  }

  // Both indexes hold a fold, one up to watermark w at least, and the watermark moved no
  // further than the durable one.
  lemma PrefixedPublished(cfg: Config, a: Moment, b: Moment, w: nat)
    requires AtPrefix(a.s.canon, Watermark(cfg, a.s), a.s.index.committed) && AtPrefix(a.s.canon, w, a.s.index.staged)
    requires Moved(a.s, b.s) && Watermark(cfg, a.s) <= w && b.s.index.staged == a.s.index.staged
    requires Watermark(cfg, b.s) == Watermark(cfg, a.s) || Watermark(cfg, b.s) == w
    requires b.s.index.committed == a.s.index.staged
      || (b.s.index.committed == a.s.index.committed && Watermark(cfg, b.s) == Watermark(cfg, a.s))
    ensures Prefixed(cfg, b)
  {
    hide AtPrefix, NearPrefix;
    PrefixGrows(a.s.canon, b.s.canon, Watermark(cfg, a.s), a.s.index.committed);
    PrefixGrows(a.s.canon, b.s.canon, w, a.s.index.staged);
    PrefixLess(b.s.canon, w, Watermark(cfg, b.s), b.s.index.staged);
    PrefixIsNear(b.s.canon, Watermark(cfg, b.s), cfg.batchSize, b.s.index.staged);
  }
}
