// The world a projection is built in: the canonical store, the checkpoint store and one
// disposable index generation (projection.go, projection_views.go).
//
// Every port call first lets the rest of the system move: commits land, the retention
// floor rises, old changes are dropped, other generations activate. Every call may then
// fail, with or without having taken effect, so a crash at any point is a failed call
// after which nothing more is done.
module ProjectionPorts {
  import opened Wrappers
  import opened Bytes
  import opened CanonicalLog
  import opened ActivePages

  const MAX_READ := 256

  type GenerationId = string
  datatype Status = Building | Dirty | Active | Superseded
  datatype Manifest = Manifest(generation: GenerationId, status: Status, watermark: nat)

  // The optional extensions an applier may implement.
  datatype RebuildSupport = NoRebuild | WholeRebuild | PagedRebuild

  // The generation being built, and the size of the batches it is built in. The commits made
  // while a Sync runs are finite in number (horizon bounds the log) but otherwise arbitrary.
  datatype Config = Config(
    generation: GenerationId, rebuildSupport: RebuildSupport, hasRetention: bool, hasActivator: bool, batchSize: nat,
    horizon: nat)

  // The index of the generation: built so far, and durable.
  datatype IndexState = IndexState(staged: Index, committed: Index)

  // For the proof only: the items each may be behind on, and whether staged was reset and
  // is not complete again.
  datatype Lag = Lag(staged: set<ItemId>, committed: set<ItemId>, rebuilding: bool)

  // Changes up to trimmed have left the log; the floor announces it. For the proof, faults
  // counts the calls that failed or whose answer was lost, and the times that the activation
  // of another generation superseded this one while it was dirty.
  datatype State = State(
    canon: Canon, trimmed: nat, floor: nat,
    manifests: map<GenerationId, Manifest>, active: Option<GenerationId>, index: IndexState, faults: nat)

  // Both at one moment.
  datatype Moment = Moment(s: State, lag: Lag)

  // The watermark stored for the generation.
  function Watermark(cfg: Config, s: State): nat {
    if cfg.generation in s.manifests then s.manifests[cfg.generation].watermark else 0
  }

  predicate IsDirty(cfg: Config, s: State) {
    cfg.generation in s.manifests && s.manifests[cfg.generation].status == Dirty
  }

  predicate IsActive(cfg: Config, s: State) {
    cfg.generation in s.manifests && s.manifests[cfg.generation].status == Active
  }

  // Only the generation recorded as active is advertised.
  ghost predicate OneActive(manifests: map<GenerationId, Manifest>, active: Option<GenerationId>) {
    forall g | g in manifests :: manifests[g].generation == g && (manifests[g].status == Active ==> active == Some(g))
  }

  // The durable index is never behind the stored watermark.
  ghost predicate ValidIndex(c: Canon, w: nat, x: IndexState, lag: Lag) {
    && w <= |c.log|
    && Genuine(c, x.committed) && Genuine(c, x.staged)
    && Covers(c, w, x.committed, lag.committed)
    && (!lag.rebuilding ==> Covers(c, w, x.staged, lag.staged))
  }

  // What holds at every port call of every run, whatever failed before.
  ghost predicate Valid(cfg: Config, s: State, lag: Lag) {
    && |s.canon.log| <= cfg.horizon
    && s.trimmed <= |s.canon.log| && s.trimmed <= s.floor && (!cfg.hasRetention ==> s.floor == 0)
    && ValidIndex(s.canon, Watermark(cfg, s), s.index, lag)
    && (lag.rebuilding ==> cfg.hasRetention && s.floor > Watermark(cfg, s))
    && OneActive(s.manifests, s.active)
  }

  // The scope only ever moves forward.
  ghost predicate Moved(a: State, b: State) {
    Grows(a.canon, b.canon) && a.trimmed <= b.trimmed && a.floor <= b.floor && a.faults <= b.faults
  }

  // A call failed, or the checkpoint was taken away, in between.
  predicate Disturbed(a: State, b: State) {
    a.faults < b.faults
  }

  predicate StaysDirty(cfg: Config, a: State, b: State) {
    IsDirty(cfg, a) && !Disturbed(a, b) ==> IsDirty(cfg, b)
  }

  // What this generation's writer owns is as it was; the rest may have moved on.
  ghost predicate Drifted(cfg: Config, a: State, b: State) {
    && Moved(a, b) && Watermark(cfg, b) == Watermark(cfg, a) && b.index == a.index
    && (IsDirty(cfg, b) ==> IsDirty(cfg, a)) && StaysDirty(cfg, a, b)
  }

  lemma MovedTransitive(a: State, b: State, c: State)
    requires Moved(a, b) && Moved(b, c)
    ensures Moved(a, c)
  {
  }

  lemma DriftedTransitive(cfg: Config, a: State, b: State, c: State)
    requires Drifted(cfg, a, b) && Drifted(cfg, b, c)
    ensures Drifted(cfg, a, c)
  {
  }

  lemma ValidIndexGrows(c: Canon, later: Canon, w: nat, x: IndexState, lag: Lag)
    requires ValidIndex(c, w, x, lag) && Grows(c, later)
    ensures ValidIndex(later, w, x, lag)
  {
    GrowsCovers(c, later, w, x.committed, lag.committed);
    if !lag.rebuilding { GrowsCovers(c, later, w, x.staged, lag.staged); }
    GrowsGenuine(c, later, x.committed);
    GrowsGenuine(c, later, x.staged);
  }

  lemma StagingKeepsValid(c: Canon, w: nat, x: IndexState, lag: Lag, revisions: seq<Revision>)
    requires ValidIndex(c, w, x, lag) && forall i | 0 <= i < |revisions| :: IsLogged(c, revisions[i])
    ensures ValidIndex(c, w, x.(staged := MergeAll(x.staged, revisions)), lag)
  {
    MergeAllGenuine(c, x.staged, revisions);
    if !lag.rebuilding {
      MergeAllCovers(c, w, w, x.staged, lag.staged, revisions);
    }
  }

  lemma CommitKeepsValid(c: Canon, w: nat, x: IndexState, lag: Lag)
    requires ValidIndex(c, w, x, lag) && !lag.rebuilding
    ensures ValidIndex(c, w, x.(committed := x.staged), lag.(committed := lag.staged))
  {
  }

  lemma RestartKeepsValid(c: Canon, w: nat, x: IndexState, lag: Lag)
    requires ValidIndex(c, w, x, lag)
    ensures ValidIndex(c, w, x.(staged := x.committed), lag.(staged := lag.committed))
  {
  }

  lemma ResetKeepsValid(c: Canon, w: nat, x: IndexState, lag: Lag)
    requires ValidIndex(c, w, x, lag)
    ensures ValidIndex(c, w, x.(staged := map[]), lag.(rebuilding := true))
  {
  }

  // Activating a generation supersedes the one that was active.
  function Activated(s: State, g: GenerationId, watermark: nat): State {
    var superseded :=
      if s.active.Some? && s.active.value != g && s.active.value in s.manifests
      then s.manifests[s.active.value := s.manifests[s.active.value].(status := Superseded)]
      else s.manifests;
    s.(manifests := superseded[g := Manifest(g, Active, watermark)], active := Some(g))
  }

  lemma ActivatedKeepsOneActive(s: State, g: GenerationId, watermark: nat)
    requires OneActive(s.manifests, s.active)
    ensures OneActive(Activated(s, g, watermark).manifests, Some(g))
    ensures forall h | h != g :: h in Activated(s, g, watermark).manifests <==> h in s.manifests
    ensures forall h | h != g && h in s.manifests ::
      Activated(s, g, watermark).manifests[h].watermark == s.manifests[h].watermark
      && (Activated(s, g, watermark).manifests[h].status == Dirty ==> s.manifests[h].status == Dirty)
  {
  }

  lemma DirtyKeepsOneActive(manifests: map<GenerationId, Manifest>, active: Option<GenerationId>, manifest: Manifest)
    requires OneActive(manifests, active)
    ensures OneActive(manifests[manifest.generation := manifest.(status := Dirty)], active)
  {
  }

  ghost predicate DistinctIds(ids: seq<RevisionId>) {
    forall i, j | 0 <= i < j < |ids| :: ids[i] != ids[j]
  }

  ghost predicate Known(c: Canon, ids: seq<RevisionId>) {
    forall id | id in ids :: id in c.revisions
  }

  lemma KnownPart(c: Canon, later: Canon, ids: seq<RevisionId>, start: nat, end: nat)
    requires start <= end <= |ids| && Grows(c, later)
    ensures Known(c, ids) ==> Known(later, ids[start..end])
  {
  }

  // The changes after a cursor that are still in the log, oldest first.
  function ChangesAfter(s: State, after: nat, limit: nat): seq<Change> {
    var from := if s.trimmed > after then s.trimmed else after;
    if from >= |s.canon.log| then []
    else s.canon.log[from..if from + limit < |s.canon.log| then from + limit else |s.canon.log|]
  }

  function PageHeads(heads: map<ItemId, RevisionId>, page: seq<ItemId>): seq<(ItemId, RevisionId)>
    requires forall i | 0 <= i < |page| :: page[i] in heads
  {
    seq(|page|, i requires 0 <= i < |page| => (page[i], heads[page[i]]))
  }

  lemma PageHasHeads(c: Canon, after: ItemId, limit: nat)
    requires limit > 0
    ensures forall i | 0 <= i < |Page(c.order, after, limit)| :: Page(c.order, after, limit)[i] in c.heads
  {
    var page := Page(c.order, after, limit);
    PageIsExact(c.order, after, limit);
    forall i | 0 <= i < |page| ensures page[i] in c.heads {
      assert page[i] in page;
    }
  }

  lemma StillLogged(c: Canon, later: Canon, revisions: seq<Revision>)
    requires Grows(c, later) && forall i | 0 <= i < |revisions| :: IsLogged(c, revisions[i])
    ensures forall i | 0 <= i < |revisions| :: IsLogged(later, revisions[i])
  {
  }

  // A scan is free of gaps exactly when retention has not passed its cursor.
  lemma ScanIsGapless(cfg: Config, s: State, lag: Lag, after: nat, limit: nat)
    requires Valid(cfg, s, lag) && limit > 0 && after < |s.canon.log|
    ensures (ChangesAfter(s, after, limit) != [] && ChangesAfter(s, after, limit)[0].sequence == after + 1) <==>
      s.trimmed <= after
    ensures ChangesAfter(s, after, limit) == [] <==> s.trimmed == |s.canon.log|
    ensures forall i | 0 <= i < |ChangesAfter(s, after, limit)| ::
      ChangesAfter(s, after, limit)[i].sequence == (if s.trimmed > after then s.trimmed else after) + i + 1
  {
  }

  class World {
    const cfg: Config
    var s: State
    ghost var lag: Lag

    constructor (cfg: Config)
      ensures this.cfg == cfg && Valid(cfg, s, lag) && Watermark(cfg, s) == 0 && s.canon == EMPTY
      ensures s.index == IndexState(map[], map[]) && lag == Lag({}, {}, false)
    {
      this.cfg := cfg;
      s := State(EMPTY, 0, 0, map[], None, IndexState(map[], map[]), 0);
      lag := Lag({}, {}, false);
    }

    ghost function Now(): Moment
      reads this
    {
      Moment(s, lag)
    }

    // The rest of the system.
    method Interfere()
      requires Valid(cfg, s, lag)
      modifies this`s
      ensures Valid(cfg, s, lag) && Drifted(cfg, old(s), s)
    {
      OtherCommits();
      OtherRetention();
      OtherActivation();
    }

    method OtherCommits()
      requires Valid(cfg, s, lag)
      modifies this`s
      ensures Valid(cfg, s, lag) && Grows(old(s.canon), s.canon) && s == old(s).(canon := s.canon)
    {
      var later: Canon := *;
      if Grows(s.canon, later) && |later.log| <= cfg.horizon {
        ValidIndexGrows(s.canon, later, Watermark(cfg, s), s.index, lag);
        s := s.(canon := later);
      }
    }

    method OtherRetention()
      requires Valid(cfg, s, lag)
      modifies this`s
      ensures Valid(cfg, s, lag) && s == old(s).(floor := s.floor, trimmed := s.trimmed)
      ensures s.floor >= old(s.floor) && s.trimmed >= old(s.trimmed)
    {
      var floor: int, trimmed: int := *, *;
      if cfg.hasRetention && floor >= s.floor {
        s := s.(floor := floor);
      }
      if s.trimmed <= trimmed <= s.floor && trimmed <= |s.canon.log| {
        s := s.(trimmed := trimmed);
      }
    }

    method OtherActivation()
      requires Valid(cfg, s, lag)
      modifies this`s
      ensures Valid(cfg, s, lag)
      ensures s == old(s).(manifests := s.manifests, active := s.active, faults := s.faults)
      ensures Watermark(cfg, s) == Watermark(cfg, old(s)) && (IsDirty(cfg, s) ==> IsDirty(cfg, old(s)))
      ensures s.faults >= old(s.faults) && StaysDirty(cfg, old(s), s)
    {
      var other: GenerationId, watermark: int := *, *;
      if other != cfg.generation && watermark >= 0 {
        var dirty := IsDirty(cfg, s);
        ActivatedKeepsOneActive(s, other, watermark);
        s := Activated(s, other, watermark);
        if dirty && !IsDirty(cfg, s) {
          s := s.(faults := s.faults + 1);
        }
      }
    }

    // The failure of a call.
    method Fail<T>() returns (r: Result<T>)
      requires Valid(cfg, s, lag)
      modifies this`s
      ensures Valid(cfg, s, lag) && s == old(s).(faults := s.faults) && Disturbed(old(s), s)
      ensures r == Err(StoreFailure)
    {
      hide ValidIndex, OneActive, ValidCanon;
      s := s.(faults := s.faults + 1);
      r := Err(StoreFailure);
    }

    // ----- the checkpoint store -----

    // A restart before the call may have lost what was staged but not committed.
    method LoadManifest() returns (r: Result<Option<Manifest>>)
      requires Valid(cfg, s, lag)
      modifies this
      ensures Valid(cfg, s, lag) && Moved(old(s), s) && Watermark(cfg, s) == Watermark(cfg, old(s))
      ensures (s.index == old(s.index) && lag == old(lag))
        || (s.index == old(s.index).(staged := old(s.index.committed)) &&
          lag == old(lag).(staged := old(lag.committed)))
      ensures r.Ok? ==> r.value == if cfg.generation in s.manifests then Some(s.manifests[cfg.generation]) else None
      ensures r.Err? ==> Disturbed(old(s), s)
    {
      hide ValidIndex, OneActive, ValidCanon;
      Interfere();
      Restart();
      if * {
        r := Fail();
        return;
      }
      r := Ok(if cfg.generation in s.manifests then Some(s.manifests[cfg.generation]) else None);
    }

    method Restart()
      requires Valid(cfg, s, lag)
      modifies this
      ensures Valid(cfg, s, lag) && s == old(s).(index := s.index)
      ensures (s.index == old(s.index) && lag == old(lag))
        || (s.index == old(s.index).(staged := old(s.index.committed)) &&
          lag == old(lag).(staged := old(lag.committed)))
    {
      if * {
        RestartKeepsValid(s.canon, Watermark(cfg, s), s.index, lag);
        SetIndex(s.index.(staged := s.index.committed), lag.(staged := lag.committed));
      }
    }

    method MarkDirty(manifest: Manifest) returns (r: Result<()>)
      requires Valid(cfg, s, lag) && manifest.generation == cfg.generation && manifest.watermark == Watermark(cfg, s)
      modifies this
      ensures Valid(cfg, s, lag) && Moved(old(s), s) && Watermark(cfg, s) == Watermark(cfg, old(s)) &&
        s.index == old(s.index) && lag == old(lag)
      ensures r.Ok? ==> IsDirty(cfg, s)
      ensures r.Err? ==> Disturbed(old(s), s)
    {
      Interfere();
      if * {
        r := Fail();
        return;
      }
      DirtyKeepsOneActive(s.manifests, s.active, manifest);
      hide ValidIndex, OneActive, ValidCanon;
      s := s.(manifests := s.manifests[cfg.generation := manifest.(status := Dirty)]);
      if * {
        r := Fail();
        return;
      }
      r := Ok(());
    }

    // Refused when the stored generation is not dirty or would go backwards. The caller
    // must already hold a durable index for the new watermark.
    method Advance(watermark: nat) returns (r: Result<()>)
      requires Valid(cfg, s, lag) && !lag.rebuilding && ValidIndex(s.canon, watermark, s.index, lag)
      modifies this
      ensures Valid(cfg, s, lag) && Moved(old(s), s) && Watermark(cfg, s) >= Watermark(cfg, old(s)) &&
        s.index == old(s.index) && lag == old(lag)
      ensures IsDirty(cfg, s) ==> IsDirty(cfg, old(s))
      ensures Watermark(cfg, s) == Watermark(cfg, old(s)) || Watermark(cfg, s) == watermark
      ensures r.Ok? ==> Watermark(cfg, s) == watermark && Watermark(cfg, old(s)) <= watermark
      ensures r.Err? ==> Disturbed(old(s), s) || !IsDirty(cfg, old(s)) || watermark < Watermark(cfg, old(s))
      ensures StaysDirty(cfg, old(s), s)
    {
      ghost var before := s;
      Interfere();
      ValidIndexGrows(before.canon, s.canon, watermark, s.index, lag);
      if * {
        r := Fail();
        return;
      }
      if cfg.generation !in s.manifests {
        return Err(NotFound);
      }
      var stored := s.manifests[cfg.generation];
      if stored.status != Dirty || watermark < stored.watermark {
        return Err(Conflict);
      }
      s := s.(manifests := s.manifests[cfg.generation := stored.(watermark := watermark)]);
      if * {
        r := Fail();
        return;
      }
      r := Ok(());
    }

    method Activate() returns (r: Result<()>)
      requires Valid(cfg, s, lag)
      modifies this
      ensures Valid(cfg, s, lag) && Moved(old(s), s) && Watermark(cfg, s) == Watermark(cfg, old(s)) &&
        s.index == old(s.index) && lag == old(lag)
      ensures r.Ok? ==> IsActive(cfg, s)
      ensures r.Err? ==> Disturbed(old(s), s) || !IsDirty(cfg, old(s))
    {
      Interfere();
      if * {
        r := Fail();
        return;
      }
      if cfg.generation !in s.manifests {
        return Err(NotFound);
      }
      if s.manifests[cfg.generation].status != Dirty {
        return Err(Conflict);
      }
      ActivatedKeepsOneActive(s, cfg.generation, s.manifests[cfg.generation].watermark);
      s := Activated(s, cfg.generation, s.manifests[cfg.generation].watermark);
      if * {
        r := Fail();
        return;
      }
      r := Ok(());
    }

    // ----- the canonical store -----

    method LoadFloor() returns (r: Result<nat>)
      requires Valid(cfg, s, lag)
      modifies this
      ensures Valid(cfg, s, lag) && lag == old(lag) && Drifted(cfg, old(s), s)
      ensures r.Ok? ==> r.value == s.floor
      ensures r.Err? ==> Disturbed(old(s), s)
    {
      Interfere();
      if * {
        r := Fail();
        return;
      }
      r := Ok(s.floor);
    }

    method LoadChangeSeq() returns (r: Result<nat>)
      requires Valid(cfg, s, lag)
      modifies this
      ensures Valid(cfg, s, lag) && lag == old(lag) && Drifted(cfg, old(s), s)
      ensures r.Ok? ==> r.value == |s.canon.log|
      ensures r.Err? ==> Disturbed(old(s), s)
    {
      Interfere();
      if * {
        r := Fail();
        return;
      }
      r := Ok(|s.canon.log|);
    }

    method ScanChanges(after: nat, limit: nat) returns (r: Result<seq<Change>>)
      requires Valid(cfg, s, lag) && 0 < limit <= 2 * MAX_READ
      modifies this
      ensures Valid(cfg, s, lag) && lag == old(lag) && Drifted(cfg, old(s), s)
      ensures r.Ok? ==> r.value == ChangesAfter(s, after, limit)
      ensures r.Err? ==> Disturbed(old(s), s)
    {
      Interfere();
      if * {
        r := Fail();
        return;
      }
      r := Ok(ChangesAfter(s, after, limit));
    }

    // A bounded read of distinct revisions; a revision that is not stored fails it.
    method LoadRevisions(ids: seq<RevisionId>) returns (r: Result<seq<Revision>>)
      requires Valid(cfg, s, lag) && 1 <= |ids| <= MAX_READ && DistinctIds(ids)
      modifies this
      ensures Valid(cfg, s, lag) && lag == old(lag) && Drifted(cfg, old(s), s)
      ensures r.Ok? ==> |r.value| == |ids| && forall i | 0 <= i < |ids| ::
        ids[i] in s.canon.revisions && r.value[i] == s.canon.revisions[ids[i]]
      ensures r.Err? && Known(old(s.canon), ids) ==> Disturbed(old(s), s)
    {
      Interfere();
      if * {
        r := Fail();
        return;
      }
      var stored := s.canon.revisions;
      if exists i | 0 <= i < |ids| :: ids[i] !in stored {
        return Err(NotFound);
      }
      r := Ok(seq(|ids|, i requires 0 <= i < |ids| && ids[i] in stored => stored[ids[i]]));
    }

    // A page of active heads in item-ID order.
    method ScanActive(after: ItemId, limit: nat) returns (r: Result<seq<(ItemId, RevisionId)>>)
      requires Valid(cfg, s, lag) && 0 < limit <= MAX_READ
      modifies this
      ensures Valid(cfg, s, lag) && lag == old(lag) && Drifted(cfg, old(s), s)
      ensures r.Ok? ==> var page := Page(s.canon.order, after, limit);
        |r.value| == |page| && forall i | 0 <= i < |page| ::
          page[i] in s.canon.heads && r.value[i] == (page[i], s.canon.heads[page[i]])
      ensures r.Err? ==> Disturbed(old(s), s)
    {
      Interfere();
      if * {
        r := Fail();
        return;
      }
      PageHasHeads(s.canon, after, limit);
      r := Ok(PageHeads(s.canon.heads, Page(s.canon.order, after, limit)));
    }

    // ----- the index -----

    // Apply stages revisions one by one; a failed call may have staged some of them.
    method Apply(revisions: seq<Revision>) returns (r: Result<()>)
      requires Valid(cfg, s, lag) && forall i | 0 <= i < |revisions| :: IsLogged(s.canon, revisions[i])
      modifies this
      ensures Valid(cfg, s, lag) && Moved(old(s), s) && Watermark(cfg, s) == Watermark(cfg, old(s))
      ensures IsDirty(cfg, s) ==> IsDirty(cfg, old(s))
      ensures s.index == old(s.index).(staged := s.index.staged) && lag == old(lag)
      ensures r.Ok? ==> s.index.staged == MergeAll(old(s.index.staged), revisions)
      ensures r.Err? ==> Disturbed(old(s), s)
      ensures StaysDirty(cfg, old(s), s)
      ensures exists done: nat ::
        done <= |revisions| && s.index.staged == MergeAll(old(s.index.staged), revisions[..done])
    {
      hide Valid, ValidCanon, IsLogged;
      ghost var before := s;
      Interfere();
      StillLogged(before.canon, s.canon, revisions);
      var done: nat := *;
      if * {
        if 0 <= done <= |revisions| {
          Stage(revisions[..done]);
        } else {
          assert revisions[..0] == [];
        }
        r := Fail();
        return;
      }
      assert revisions[..|revisions|] == revisions;
      Stage(revisions);
      r := Ok(());
    }

    method Stage(revisions: seq<Revision>)
      requires Valid(cfg, s, lag) && forall i | 0 <= i < |revisions| :: IsLogged(s.canon, revisions[i])
      modifies this
      ensures lag == old(lag) && s == old(s).(index := old(s.index).(staged := MergeAll(old(s.index.staged),
        revisions)))
      ensures Valid(cfg, s, lag)
    {
      StagingKeepsValid(s.canon, Watermark(cfg, s), s.index, lag, revisions);
      SetIndex(s.index.(staged := MergeAll(s.index.staged, revisions)), lag);
    }

    // Replaces the index and the bookkeeping about it together.
    method SetIndex(index: IndexState, ghost lag': Lag)
      requires Valid(cfg, s, lag) && ValidIndex(s.canon, Watermark(cfg, s), index, lag')
      requires lag'.rebuilding ==> cfg.hasRetention && s.floor > Watermark(cfg, s)
      modifies this
      ensures s == old(s).(index := index) && lag == lag'
      ensures Valid(cfg, s, lag)
    {
      hide ValidIndex, OneActive, ValidCanon;
      s, lag := s.(index := index), lag';
    }

    // Commit makes what is staged durable; the answer may be lost.
    method Commit() returns (r: Result<()>)
      requires Valid(cfg, s, lag) && !lag.rebuilding
      modifies this
      ensures Valid(cfg, s, lag) && Moved(old(s), s) && Watermark(cfg, s) == Watermark(cfg, old(s))
      ensures IsDirty(cfg, s) ==> IsDirty(cfg, old(s))
      ensures (s.index == old(s.index) && lag == old(lag)) || CommittedFrom(old(s.index), old(lag), s.index, lag)
      ensures r.Ok? ==> CommittedFrom(old(s.index), old(lag), s.index, lag)
      ensures r.Err? ==> Disturbed(old(s), s)
      ensures StaysDirty(cfg, old(s), s)
    {
      Interfere();
      if * {
        r := Fail();
        return;
      }
      CommitKeepsValid(s.canon, Watermark(cfg, s), s.index, lag);
      SetIndex(s.index.(committed := s.index.staged), lag.(committed := lag.staged));
      if * {
        r := Fail();
        return;
      }
      r := Ok(());
    }

    // A rebuild replaces what is staged.
    method BeginRebuild() returns (r: Result<()>)
      requires Valid(cfg, s, lag) && cfg.hasRetention && s.floor > Watermark(cfg, s)
      modifies this
      ensures Valid(cfg, s, lag) && Moved(old(s), s) && Watermark(cfg, s) == Watermark(cfg, old(s))
      ensures IsDirty(cfg, s) ==> IsDirty(cfg, old(s))
      ensures (s.index == old(s.index) && lag == old(lag)) || Reset(old(s.index), old(lag), s.index, lag)
      ensures r.Ok? ==> Reset(old(s.index), old(lag), s.index, lag)
      ensures r.Err? ==> Disturbed(old(s), s)
      ensures StaysDirty(cfg, old(s), s)
    {
      Interfere();
      if * {
        r := Fail();
        return;
      }
      ResetKeepsValid(s.canon, Watermark(cfg, s), s.index, lag);
      SetIndex(s.index.(staged := map[]), lag.(rebuilding := true));
      if * {
        r := Fail();
        return;
      }
      r := Ok(());
    }

    // Rebuild replaces what is staged by one view; a failed call may have stopped half way.
    method Rebuild(revisions: seq<Revision>) returns (r: Result<()>)
      requires Valid(cfg, s, lag) && cfg.hasRetention && s.floor > Watermark(cfg, s)
      requires forall i | 0 <= i < |revisions| :: IsLogged(s.canon, revisions[i])
      modifies this
      ensures Valid(cfg, s, lag) && Moved(old(s), s) && Watermark(cfg, s) == Watermark(cfg, old(s))
      ensures IsDirty(cfg, s) ==> IsDirty(cfg, old(s))
      ensures s.index.committed == old(s.index.committed) && lag == old(lag).(rebuilding := lag.rebuilding)
      ensures r.Ok? ==> s.index.staged == MergeAll(map[], revisions)
      ensures r.Err? ==> Disturbed(old(s), s)
      ensures StaysDirty(cfg, old(s), s)
      ensures lag.rebuilding || (s.index == old(s.index) && lag == old(lag))
    {
      ghost var before := s;
      r := BeginRebuild();
      if r.Ok? {
        ghost var begun := s;
        StillLogged(before.canon, s.canon, revisions);
        r := Apply(revisions);
        MovedTransitive(before, begun, s);
      }
    }

    // EndProjectionRebuild and the activator change nothing the model can see.
    method Acknowledge() returns (r: Result<()>)
      requires Valid(cfg, s, lag)
      modifies this
      ensures Valid(cfg, s, lag) && lag == old(lag) && Drifted(cfg, old(s), s)
      ensures r.Err? ==> Disturbed(old(s), s)
    {
      Interfere();
      if * {
        r := Fail();
        return;
      }
      r := Ok(());
    }

    // ----- bookkeeping of the proof -----

    // The staged index is complete again, except for the given items.
    ghost method FinishRebuild(behind: set<ItemId>)
      requires Valid(cfg, s, lag) && Covers(s.canon, Watermark(cfg, s), s.index.staged, behind)
      modifies this`lag
      ensures Valid(cfg, s, lag) && lag == old(lag).(staged := behind, rebuilding := false)
    {
      lag := lag.(staged := behind, rebuilding := false);
    }

    // A scan that skipped dropped changes leaves the index behind on the items they touch.
    ghost method NoteSkipped(from: nat)
      requires Valid(cfg, s, lag) && !lag.rebuilding && Watermark(cfg, s) <= from <= |s.canon.log|
      modifies this`lag
      ensures Valid(cfg, s, lag) && !lag.rebuilding && ValidIndex(s.canon, from, s.index, lag)
      ensures lag.staged == old(lag.staged) + ChangedItems(s.canon, Watermark(cfg, s), from)
      ensures lag.committed == old(lag.committed) + ChangedItems(s.canon, Watermark(cfg, s), from)
    {
      CoversByLag(s.canon, Watermark(cfg, s), from, s.index.committed, lag.committed);
      CoversByLag(s.canon, Watermark(cfg, s), from, s.index.staged, lag.staged);
      var skipped := ChangedItems(s.canon, Watermark(cfg, s), from);
      lag := Lag(lag.staged + skipped, lag.committed + skipped, false);
    }
  }

  ghost predicate CommittedFrom(x: IndexState, l: Lag, x': IndexState, l': Lag) {
    x' == x.(committed := x.staged) && l' == l.(committed := l.staged)
  }

  ghost predicate Reset(x: IndexState, l: Lag, x': IndexState, l': Lag) {
    x' == x.(staged := map[]) && l' == l.(rebuilding := true)
  }
}
