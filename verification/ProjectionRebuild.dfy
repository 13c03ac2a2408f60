// Rebuilding an index from the active heads, page by page (projection.go,
// rebuildFromCanonical; projection_views.go, ScopeViewBuilder): what each page is worth
// when commits may land between pages.
module ProjectionRebuild {
  import opened Bytes
  import opened CanonicalLog
  import opened ActivePages

  // The index is not behind the first n changes on one item.
  ghost predicate CoversItem(c: Canon, n: nat, index: Index, item: ItemId)
    requires n <= |c.log|
  {
    forall k | 0 <= k < n :: forall id | id in c.log[k].revisionIds ::
      c.revisions[id].item == item ==> AtLeast(index, c.revisions[id])
  }

  // r was its item's head when the log held n changes.
  ghost predicate HeadAt(c: Canon, n: nat, r: Revision)
    requires n <= |c.log|
  {
    && LoggedBefore(c, n, r.id) && r.id in c.revisions && c.revisions[r.id] == r
    && forall k | 0 <= k < n :: forall id | id in c.log[k].revisionIds ::
         c.revisions[id].item == r.item ==> c.revisions[id].number <= r.number
  }

  // Each item read so far is indexed under the head it had when it was read.
  ghost predicate ReadState(c: Canon, staged: Index, readAt: map<ItemId, nat>) {
    && (forall item :: item in staged <==> item in readAt)
    && forall item | item in staged ::
      staged[item].item == item && readAt[item] <= |c.log| && HeadAt(c, readAt[item], staged[item])
  }

  // The items changed before w but after they were read, or never read at all.
  function Behind(c: Canon, readAt: map<ItemId, nat>, w: nat): set<ItemId>
    requires w <= |c.log|
  {
    set k, id | 0 <= k < w && id in c.log[k].revisionIds
      && (c.revisions[id].item in readAt ==> readAt[c.revisions[id].item] <= k) :: c.revisions[id].item
  }

  // Every item was read at one moment, and none that had changed by then was left out.
  ghost predicate ReadTogether(c: Canon, readAt: map<ItemId, nat>, n: nat)
    requires n <= |c.log|
  {
    && (forall item | item in readAt :: readAt[item] == n)
    && forall k | 0 <= k < n :: forall id | id in c.log[k].revisionIds :: c.revisions[id].item in readAt
  }

  lemma BehindWitness(c: Canon, readAt: map<ItemId, nat>, w: nat, k: nat, id: RevisionId)
    requires k < w <= |c.log| && id in c.log[k].revisionIds
    requires c.revisions[id].item in readAt ==> readAt[c.revisions[id].item] <= k
    ensures c.revisions[id].item in Behind(c, readAt, w)
  {
  }

  // A paged rebuild that reports watermark w is behind on an item exactly when a change
  // up to w touched the item after its page was read.
  lemma BehindIsExact(c: Canon, staged: Index, readAt: map<ItemId, nat>, w: nat, item: ItemId)
    requires ReadState(c, staged, readAt) && w <= |c.log|
    ensures item in Behind(c, readAt, w) <==> !CoversItem(c, w, staged, item)
  {
    if item in Behind(c, readAt, w) {
      BehindIsUncovered(c, staged, readAt, w, item);
    }
    if !CoversItem(c, w, staged, item) {
      var k, id :| 0 <= k < w && id in c.log[k].revisionIds && c.revisions[id].item == item
        && !AtLeast(staged, c.revisions[id]);
      BehindWitness(c, readAt, w, k, id);
    }
  }

  lemma BehindIsUncovered(c: Canon, staged: Index, readAt: map<ItemId, nat>, w: nat, item: ItemId)
    requires ReadState(c, staged, readAt) && w <= |c.log| && item in Behind(c, readAt, w)
    ensures !CoversItem(c, w, staged, item)
  {
    var k, id :| 0 <= k < w && id in c.log[k].revisionIds && c.revisions[id].item == item
      && (item in readAt ==> readAt[item] <= k);
    if item in staged {
      LaterChangeOutranks(c, readAt[item], staged[item], k, id);
    }
    assert !AtLeast(staged, c.revisions[id]);
  }

  lemma LaterChangeOutranks(c: Canon, n: nat, r: Revision, k: nat, id: RevisionId)
    requires n <= k < |c.log| && HeadAt(c, n, r) && id in c.log[k].revisionIds && c.revisions[id].item == r.item
    ensures c.revisions[id].number > r.number
  {
  }

  lemma BehindCovers(c: Canon, staged: Index, readAt: map<ItemId, nat>, w: nat)
    requires ReadState(c, staged, readAt) && w <= |c.log|
    ensures Covers(c, w, staged, Behind(c, readAt, w))
  {
    hide ReadState, Behind;
    forall k, id | 0 <= k < w && id in c.log[k].revisionIds
      ensures c.revisions[id].item in Behind(c, readAt, w) || AtLeast(staged, c.revisions[id])
    {
      if c.revisions[id].item !in Behind(c, readAt, w) {
        BehindIsExact(c, staged, readAt, w, c.revisions[id].item);
      }
    }
  }

  // Nothing is behind when every item was read no earlier than the reported watermark:
  // a one-page rebuild always, and any rebuild of a scope that did not change meanwhile.
  lemma NothingBehind(c: Canon, readAt: map<ItemId, nat>, w: nat)
    requires w <= |c.log|
    requires forall k | 0 <= k < w :: forall id | id in c.log[k].revisionIds ::
      c.revisions[id].item in readAt && readAt[c.revisions[id].item] >= w
    ensures Behind(c, readAt, w) == {}
  {
  }

  // What is behind was changed after the rebuild began.
  lemma BehindWasChanged(c: Canon, readAt: map<ItemId, nat>, from: nat, w: nat)
    requires from <= w <= |c.log|
    requires forall k | 0 <= k < from :: forall id | id in c.log[k].revisionIds ::
      c.revisions[id].item in readAt && readAt[c.revisions[id].item] >= from
    ensures Behind(c, readAt, w) <= ChangedItems(c, from, w)
  {
  }

  lemma BehindIsStable(c: Canon, later: Canon, readAt: map<ItemId, nat>, w: nat)
    requires Grows(c, later) && w <= |c.log|
    ensures Behind(c, readAt, w) == Behind(later, readAt, w)
  {
    forall item ensures item in Behind(c, readAt, w) <==> item in Behind(later, readAt, w) {
      if item in Behind(c, readAt, w) { StillBehind(c, later, readAt, w, item); }
      if item in Behind(later, readAt, w) { WasBehind(c, later, readAt, w, item); }
    }
  }

  lemma StillBehind(c: Canon, later: Canon, readAt: map<ItemId, nat>, w: nat, item: ItemId)
    requires Grows(c, later) && w <= |c.log| && item in Behind(c, readAt, w)
    ensures item in Behind(later, readAt, w)
  {
    var k, id :| 0 <= k < w && id in c.log[k].revisionIds && c.revisions[id].item == item
      && (item in readAt ==> readAt[item] <= k);
    assert later.log[k] == c.log[k];
    BehindWitness(later, readAt, w, k, id);
  }

  lemma WasBehind(c: Canon, later: Canon, readAt: map<ItemId, nat>, w: nat, item: ItemId)
    requires Grows(c, later) && w <= |c.log| && item in Behind(later, readAt, w)
    ensures item in Behind(c, readAt, w)
  {
    var k, id :| 0 <= k < w && id in later.log[k].revisionIds && later.revisions[id].item == item
      && (item in readAt ==> readAt[item] <= k);
    WasAnnounced(c, later, k, id);
    BehindWitness(c, readAt, w, k, id);
  }

  lemma WasAnnounced(c: Canon, later: Canon, k: nat, id: RevisionId)
    requires Grows(c, later) && k < |c.log| && id in later.log[k].revisionIds
    ensures id in c.log[k].revisionIds && id in c.revisions && c.revisions[id] == later.revisions[id]
  {
    assert later.log[k] == c.log[k];
    assert BelowHead(c, id);
  }

  // A head read from the scope is the head at that moment of every later log.
  lemma HeadIsHeadAt(at: Canon, c: Canon, item: ItemId)
    requires Grows(at, c) && item in at.heads
    ensures |at.log| <= |c.log| && HeadAt(c, |at.log|, at.revisions[at.heads[item]])
    ensures at.revisions[at.heads[item]].item == item
  {
    assert ValidHead(at, item);
    var id := at.heads[item];
    var j :| 0 <= j < |at.log| && id in at.log[j].revisionIds;
    assert c.log[j] == at.log[j];
    forall k, other | 0 <= k < |at.log| && other in c.log[k].revisionIds && c.revisions[other].item == item
      ensures c.revisions[other].number <= at.revisions[id].number
    {
      assert c.log[k] == at.log[k];
      assert BelowHead(at, other);
    }
  }

  lemma HeadAtGrows(c: Canon, later: Canon, n: nat, r: Revision)
    requires Grows(c, later) && n <= |c.log| && HeadAt(c, n, r)
    ensures HeadAt(later, n, r)
  {
    var j :| 0 <= j < n && r.id in c.log[j].revisionIds;
    assert later.log[j] == c.log[j];
    forall k, id | 0 <= k < n && id in later.log[k].revisionIds && later.revisions[id].item == r.item
      ensures later.revisions[id].number <= r.number
    {
      assert later.log[k] == c.log[k];
      assert BelowHead(c, id);
    }
  }

  lemma ReadStateGrows(c: Canon, later: Canon, staged: Index, readAt: map<ItemId, nat>)
    requires Grows(c, later) && ReadState(c, staged, readAt)
    ensures ReadState(later, staged, readAt)
  {
    forall item | item in staged ensures HeadAt(later, readAt[item], staged[item]) {
      HeadAtGrows(c, later, readAt[item], staged[item]);
    }
  }

  // ----- pages -----

  // The revisions of the heads on a page.
  ghost predicate PageRevisions(at: Canon, page: seq<ItemId>, revisions: seq<Revision>) {
    |revisions| == |page| && forall i | 0 <= i < |page| ::
      page[i] in at.heads && at.heads[page[i]] in at.revisions && revisions[i] == at.revisions[at.heads[page[i]]]
  }

  function MarkRead(readAt: map<ItemId, nat>, page: seq<ItemId>, n: nat): map<ItemId, nat> {
    map item | item in readAt.Keys + (set id | id in page) :: if item in page then n else readAt[item]
  }

  lemma {:induction false} MergeFreshPage(staged: Index, revisions: seq<Revision>)
    requires forall i, j | 0 <= i < j < |revisions| :: revisions[i].item != revisions[j].item
    requires forall i | 0 <= i < |revisions| :: revisions[i].item !in staged
    ensures forall item :: item in MergeAll(staged, revisions) <==>
      item in staged || exists i :: 0 <= i < |revisions| && revisions[i].item == item
    ensures forall item | item in staged :: MergeAll(staged, revisions)[item] == staged[item]
    ensures forall i | 0 <= i < |revisions| :: MergeAll(staged, revisions)[revisions[i].item] == revisions[i]
  {
    if revisions != [] {
      var n := |revisions| - 1;
      MergeFreshPage(staged, revisions[..n]);
      var before := MergeAll(staged, revisions[..n]);
      assert revisions[n].item !in before;
      assert MergeAll(staged, revisions) == before[revisions[n].item := revisions[n]];
    }
  }

  // Reading one more page of items not read before.
  lemma PageExtendsRead(
    at: Canon, c: Canon, staged: Index, readAt: map<ItemId, nat>, page: seq<ItemId>, revisions: seq<Revision>)
    requires Grows(at, c) && ReadState(c, staged, readAt) && PageRevisions(at, page, revisions)
    requires Sorted(page) && forall i | 0 <= i < |page| :: page[i] !in readAt
    ensures ReadState(c, MergeAll(staged, revisions), MarkRead(readAt, page, |at.log|))
  {
    forall i | 0 <= i < |page| ensures revisions[i].item == page[i] && HeadAt(c, |at.log|, revisions[i]) {
      HeadIsHeadAt(at, c, page[i]);
    }
    forall i, j | 0 <= i < j < |page| ensures page[i] != page[j] {
      LessIrreflexive(page[i]);
    }
    HeadsExtendRead(c, |at.log|, staged, readAt, page, revisions);
  }

  lemma HeadsExtendRead(
    c: Canon, n: nat, staged: Index, readAt: map<ItemId, nat>, page: seq<ItemId>, revisions: seq<Revision>)
    requires ReadState(c, staged, readAt) && n <= |c.log| && |page| == |revisions|
    requires forall i | 0 <= i < |page| ::
      revisions[i].item == page[i] && HeadAt(c, n, revisions[i]) && page[i] !in readAt
    requires forall i, j | 0 <= i < j < |page| :: page[i] != page[j]
    ensures ReadState(c, MergeAll(staged, revisions), MarkRead(readAt, page, n))
  {
    hide ValidCanon, HeadAt;
    MergeFreshPage(staged, revisions);
    var merged, marked := MergeAll(staged, revisions), MarkRead(readAt, page, n);
    MergedAreMarked(staged, merged, readAt, page, revisions, n);
    forall item | item in merged
      ensures merged[item].item == item && marked[item] <= |c.log| && HeadAt(c, marked[item], merged[item])
    {
      if item !in staged {
        var i :| 0 <= i < |revisions| && revisions[i].item == item;
        assert page[i] == item;
      }
    }
  }

  lemma MergedAreMarked(
    staged: Index, merged: Index, readAt: map<ItemId, nat>, page: seq<ItemId>, revisions: seq<Revision>, n: nat)
    requires forall item :: item in staged <==> item in readAt
    requires |page| == |revisions| && forall i | 0 <= i < |page| :: revisions[i].item == page[i]
    requires forall item :: item in merged <==> item in staged || exists i ::
      0 <= i < |revisions| && revisions[i].item == item
    ensures forall item :: item in merged <==> item in MarkRead(readAt, page, n)
  {
  }

  // The rest of a list shrinks as the cursor moves past one of its elements.
  lemma {:induction false} AfterShrinks(ids: seq<ItemId>, cursor: ItemId, next: ItemId)
    requires Less(cursor, next)
    ensures |After(ids, next)| <= |After(ids, cursor)|
    ensures next in ids ==> |After(ids, next)| < |After(ids, cursor)|
  {
    if ids != [] {
      AfterShrinks(ids[1..], cursor, next);
      if Less(next, ids[0]) { LessTransitive(cursor, next, ids[0]); }
      LessIrreflexive(next);
    }
  }

  // ----- the paged rebuild -----

  datatype View = View(changeSeq: nat, active: seq<Revision>, truncated: bool)

  // The revisions of one page of heads, each under its own item.
  ghost predicate PageOf(at: Canon, after: ItemId, limit: nat, revisions: seq<Revision>) {
    var page := Page(at.order, after, limit);
    PageRevisions(at, page, revisions) && forall i | 0 <= i < |page| :: revisions[i].item == page[i]
  }

  // What one bounded view is worth: a page of the heads the scope had at some moment
  // not before the change sequence the view reports.
  ghost predicate ViewOf(at: Canon, after: ItemId, limit: nat, view: View) {
    var page := Page(at.order, after, limit);
    && view.changeSeq <= |at.log| && |page| <= limit && PageOf(at, after, limit, view.active)
    && (view.truncated ==> |page| == limit)
    && (!view.truncated ==> forall item | item in at.heads && Less(after, item) :: item in page)
  }

  // After some pages: every item of the scope up to the cursor has been read, not before
  // the rebuild began.
  ghost predicate ReadUpTo(start: Canon, readAt: map<ItemId, nat>, after: ItemId) {
    && (forall item | item in readAt :: !Less(after, item) && readAt[item] >= |start.log|)
    && (forall item | item in start.heads && !Less(after, item) :: item in readAt)
  }

  ghost predicate ReadAll(start: Canon, readAt: map<ItemId, nat>) {
    forall item | item in start.heads :: item in readAt && readAt[item] >= |start.log|
  }

  lemma ReadOnePage(start: Canon, at: Canon, readAt: map<ItemId, nat>, after: ItemId, limit: nat, view: View)
    requires Grows(start, at) && ReadUpTo(start, readAt, after) && ViewOf(at, after, limit, view) && limit > 0
    ensures var page := Page(at.order, after, limit);
      var readAt' := MarkRead(readAt, page, |at.log|);
      && (forall i | 0 <= i < |page| :: page[i] !in readAt)
      && (!view.truncated ==> ReadAll(start, readAt'))
      && (view.truncated ==> |view.active| > 0)
      && (view.truncated ==> var last := view.active[|view.active| - 1].item;
            Less(after, last) && last in at.order && ReadUpTo(start, readAt', last))
  {
    var page := Page(at.order, after, limit);
    PageIsExact(at.order, after, limit);
    forall i | 0 <= i < |page| ensures page[i] !in readAt && page[i] in page {
      assert page[i] in page;
    }
    if view.truncated {
      var last := page[|page| - 1];
      assert last in page;
      CursorAdvances(start, at, readAt, after, page);
    }
  }

  lemma CursorAdvances(start: Canon, at: Canon, readAt: map<ItemId, nat>, after: ItemId, page: seq<ItemId>)
    requires Grows(start, at) && ReadUpTo(start, readAt, after) && page != [] && Sorted(page)
    requires forall id | id in page :: id in at.order && Less(after, id)
    requires forall id | id in at.order && Less(after, id) && !Less(page[|page| - 1], id) :: id in page
    ensures ReadUpTo(start, MarkRead(readAt, page, |at.log|), page[|page| - 1])
  {
    hide ValidCanon;
    HeadsAreListed(at);
    var last, readAt' := page[|page| - 1], MarkRead(readAt, page, |at.log|);
    assert last in page;
    forall item | item in readAt' ensures !Less(last, item) && readAt'[item] >= |start.log| {
      NotBeyondCursor(readAt, after, page, item);
    }
    forall item | item in start.heads && !Less(last, item) ensures item in readAt' {
      assert item in at.heads && item in at.order;
    }
  }

  lemma NotBeyondCursor(readAt: map<ItemId, nat>, after: ItemId, page: seq<ItemId>, item: ItemId)
    requires page != [] && Sorted(page) && Less(after, page[|page| - 1])
    requires item in page || (item in readAt && !Less(after, item))
    ensures !Less(page[|page| - 1], item)
  {
    var last := page[|page| - 1];
    if item in page {
      var i :| 0 <= i < |page| && page[i] == item;
      if i < |page| - 1 { LessAsymmetric(item, last); } else { LessIrreflexive(last); }
    } else if Less(last, item) {
      LessTransitive(after, last, item);
    }
  }

  // The items that were heads when the rebuild began cover the log up to that moment.
  lemma ReadAllCovers(start: Canon, c: Canon, readAt: map<ItemId, nat>, w: nat)
    requires Grows(start, c) && ReadAll(start, readAt) && |start.log| <= w <= |c.log|
    ensures Behind(c, readAt, w) <= ChangedItems(c, |start.log|, w)
  {
    forall k, id | 0 <= k < |start.log| && id in c.log[k].revisionIds
      ensures c.revisions[id].item in readAt && readAt[c.revisions[id].item] >= |start.log|
    {
      assert c.log[k] == start.log[k];
      assert BelowHead(start, id);
    }
    BehindWasChanged(c, readAt, |start.log|, w);
  }

  // One page that holds every head is a reading of the whole scope at one moment, no
  // earlier than the sequence it reports, whatever landed meanwhile.
  lemma OnePageIsTogether(at: Canon, c: Canon, limit: nat, view: View)
    requires Grows(at, c) && ViewOf(at, [], limit, view) && !view.truncated
    ensures ReadTogether(c, MarkRead(map[], Page(at.order, [], limit), |at.log|), |at.log|)
  {
    hide ValidCanon, Page;
    var readAt := MarkRead(map[], Page(at.order, [], limit), |at.log|);
    forall k, id | 0 <= k < |at.log| && id in c.log[k].revisionIds
      ensures id in c.revisions && c.revisions[id].item in readAt
    {
      ChangedHasHead(at, c, k, id);
    }
  }

  lemma ChangedHasHead(at: Canon, c: Canon, k: nat, id: RevisionId)
    requires Grows(at, c) && k < |at.log| && id in c.log[k].revisionIds
    ensures id in c.revisions && c.revisions[id].item in at.heads && Less([], c.revisions[id].item)
  {
    assert c.log[k] == at.log[k];
    assert BelowHead(at, id);
  }

  // Such a reading leaves nothing behind.
  lemma TogetherIsCurrent(c: Canon, readAt: map<ItemId, nat>, n: nat, w: nat)
    requires w <= n <= |c.log| && ReadTogether(c, readAt, n)
    ensures Behind(c, readAt, w) == {}
  {
    NothingBehind(c, readAt, w);
  }

  lemma OnePageIsCurrent(at: Canon, c: Canon, limit: nat, view: View)
    requires Grows(at, c) && ViewOf(at, [], limit, view) && !view.truncated
    ensures Behind(c, MarkRead(map[], Page(at.order, [], limit), |at.log|), view.changeSeq) == {}
  {
    OnePageIsTogether(at, c, limit, view);
    TogetherIsCurrent(c, MarkRead(map[], Page(at.order, [], limit), |at.log|), |at.log|, view.changeSeq);
  }

  // Any number of pages of a scope that does not change are such a reading too.
  lemma StillIsTogether(c: Canon, staged: Index, readAt: map<ItemId, nat>)
    requires ReadState(c, staged, readAt) && ReadAll(c, readAt)
    ensures ReadTogether(c, readAt, |c.log|)
  {
    forall item | item in readAt ensures readAt[item] == |c.log| {
      assert HeadAt(c, readAt[item], staged[item]);
      var k :| 0 <= k < readAt[item] && staged[item].id in c.log[k].revisionIds;
      assert BelowHead(c, staged[item].id);
    }
    forall k, id | 0 <= k < |c.log| && id in c.log[k].revisionIds ensures c.revisions[id].item in readAt {
      assert BelowHead(c, id);
    }
  }

  // Where a paged rebuild stands: the cursor, or the end of the pages.
  datatype Cursor = At(after: ItemId) | Finished

  ghost predicate Progress(
    start: Canon, c: Canon, staged: Index, readAt: map<ItemId, nat>, cursor: Cursor, watermark: nat, pages: nat)
  {
    && Grows(start, c) && watermark <= |c.log| && (cursor.Finished? ==> |start.log| <= watermark)
    && ReadState(c, staged, readAt)
    && (match cursor case At(after) => ReadUpTo(start, readAt, after) case Finished => ReadAll(start, readAt))
    && (cursor.At? && pages == 0 ==> cursor.after == [] && readAt == map[])
    && (cursor.Finished? && pages <= 1 ==> exists n | watermark <= n <= |c.log| :: ReadTogether(c, readAt, n))
  }

  function NextCursor(view: View): Cursor {
    if |view.active| == 0 || !view.truncated then Finished else At(view.active[|view.active| - 1].item)
  }

  // How far the pages can still go: the log may grow up to the horizon, and a log that
  // does not grow has only so many heads beyond the cursor.
  function Distance(c: Canon, cursor: Cursor): nat {
    match cursor
    case Finished => 0
    case At(after) => 1 + |After(c.order, after)|
  }

  lemma PageMakesProgress(
    start: Canon, before: Canon, at: Canon, c: Canon, staged: Index, readAt: map<ItemId, nat>, after: ItemId,
    limit: nat, view: View, pages: nat)
    requires Grows(start, before) && Grows(before, at) && Grows(at, c) && limit > 0 && |before.log| <= view.changeSeq
    requires ReadState(before, staged, readAt) && ReadUpTo(start, readAt, after) && ViewOf(at, after, limit, view)
    requires pages == 0 ==> after == [] && readAt == map[]
    ensures Progress(start, c, MergeAll(staged, view.active), MarkRead(readAt, Page(at.order, after, limit), |at.log|),
                     NextCursor(view), view.changeSeq, pages + 1)
  {
    var readAt' := MarkRead(readAt, Page(at.order, after, limit), |at.log|);
    GrowsTransitive(start, before, at);
    CursorMoves(start, at, readAt, after, limit, view);
    GrowsTransitive(before, at, c);
    PageIsRead(before, at, c, staged, readAt, after, limit, view);
    GrowsTransitive(start, at, c);
    if pages == 0 {
      FirstPageIsCurrent(at, c, limit, view);
    }
  }

  lemma FirstPageIsCurrent(at: Canon, c: Canon, limit: nat, view: View)
    requires Grows(at, c) && ViewOf(at, [], limit, view) && limit > 0
    ensures NextCursor(view).Finished? ==>
      ReadTogether(c, MarkRead(map[], Page(at.order, [], limit), |at.log|), |at.log|)
  {
    if NextCursor(view).Finished? { OnePageIsTogether(at, c, limit, view); }
  }

  lemma CursorMoves(start: Canon, at: Canon, readAt: map<ItemId, nat>, after: ItemId, limit: nat, view: View)
    requires Grows(start, at) && ReadUpTo(start, readAt, after) && ViewOf(at, after, limit, view) && limit > 0
    ensures var readAt' := MarkRead(readAt, Page(at.order, after, limit), |at.log|);
      match NextCursor(view) case At(next) => ReadUpTo(start, readAt', next) case Finished => ReadAll(start, readAt')
    ensures forall i | 0 <= i < |Page(at.order, after, limit)| :: Page(at.order, after, limit)[i] !in readAt
  {
    ReadOnePage(start, at, readAt, after, limit, view);
  }

  // Without new changes, every page leaves fewer heads to read.
  lemma PageShortensTheRest(before: Canon, at: Canon, c: Canon, after: ItemId, limit: nat, view: View)
    requires Grows(before, at) && Grows(at, c) && limit > 0 && ViewOf(at, after, limit, view)
    ensures |before.log| < |c.log| || Distance(c, NextCursor(view)) < Distance(before, At(after))
  {
    hide ValidCanon, Page;
    HeadsAreListed(at);
    if |before.log| == |c.log| {
      assert before == at == c;
      if NextCursor(view).At? {
        var page := Page(at.order, after, limit);
        PageIsExact(at.order, after, limit);
        var last := page[|page| - 1];
        assert last in page;
        AfterShrinks(at.order, after, last);
      }
    }
  }

  lemma PageIsRead(
    before: Canon, at: Canon, c: Canon, staged: Index, readAt: map<ItemId, nat>, after: ItemId, limit: nat, view: View)
    requires Grows(before, c) && Grows(at, c) && ReadState(before, staged, readAt) && ViewOf(at, after, limit, view)
    requires forall i | 0 <= i < |Page(at.order, after, limit)| :: Page(at.order, after, limit)[i] !in readAt
    ensures ReadState(c, MergeAll(staged, view.active), MarkRead(readAt, Page(at.order, after, limit), |at.log|))
  {
    ReadStateGrows(before, c, staged, readAt);
    PageIsExact(at.order, after, limit);
    PageExtendsRead(at, c, staged, readAt, Page(at.order, after, limit), view.active);
  }

  // A concrete loss. Items x and y are announced together and read on two pages of one
  // item; x is changed again between them. The rebuild reports the second change, but has
  // indexed x as the first change left it.
  function EarlyCommit(x: ItemId, y: ItemId, x1: RevisionId, y1: RevisionId): CanonData {
    CanonData([Change(1, [x1, y1])], map[x1 := Revision(x1, x, 1), y1 := Revision(y1, y, 1)],
              map[x := x1, y := y1], [x, y])
  }

  function LateCommit(x: ItemId, y: ItemId, x1: RevisionId, x2: RevisionId, y1: RevisionId): CanonData {
    CanonData([Change(1, [x1, y1]), Change(2, [x2])],
              map[x1 := Revision(x1, x, 1), x2 := Revision(x2, x, 2), y1 := Revision(y1, y, 1)],
              map[x := x2, y := y1], [x, y])
  }

  lemma LateCommitIsCanon(x: ItemId, y: ItemId, x1: RevisionId, x2: RevisionId, y1: RevisionId)
    requires x != [] && Less(x, y) && x1 != x2 && x1 != y1 && x2 != y1
    ensures ValidCanon(EarlyCommit(x, y, x1, y1)) && ValidCanon(LateCommit(x, y, x1, x2, y1))
  {
    LessIrreflexive(x);
    NothingBelowEmpty(x, y);
    hide ValidCanon, EarlyCommit, LateCommit;
    EarlyCommitIsCanon(x, y, x1, y1);
    LaterCommitIsCanon(x, y, x1, x2, y1);
  }

  lemma LaterCommitIsCanon(x: ItemId, y: ItemId, x1: RevisionId, x2: RevisionId, y1: RevisionId)
    requires x != [] && y != [] && x != y && Less(x, y) && x1 != x2 && x1 != y1 && x2 != y1
    ensures ValidCanon(LateCommit(x, y, x1, x2, y1))
  {
    hide BelowHead, ValidHead, Less, Increasing, Sorted, ValidHeads;
    LateCommitIsHeaded(x, y, x1, x2, y1);
    LateCommitIncreases(x, y, x1, x2, y1);
  }

  lemma LateCommitIsHeaded(x: ItemId, y: ItemId, x1: RevisionId, x2: RevisionId, y1: RevisionId)
    requires x != [] && y != [] && x != y && Less(x, y) && x1 != x2 && x1 != y1 && x2 != y1
    ensures ValidHeads(LateCommit(x, y, x1, x2, y1))
  {
    hide BelowHead, ValidHead, Less, Sorted;
    LateCommitLog(x, y, x1, x2, y1);
    LateCommitHeads(x, y, x1, x2, y1);
    PairIsSorted(x, y);
  }

  lemma PairIsSorted(x: ItemId, y: ItemId)
    requires Less(x, y)
    ensures Sorted([x, y])
  {
    hide Less;
  }

  lemma EarlyCommitIsCanon(x: ItemId, y: ItemId, x1: RevisionId, y1: RevisionId)
    requires x != [] && y != [] && x != y && Less(x, y) && x1 != y1
    ensures ValidCanon(EarlyCommit(x, y, x1, y1))
  {
    hide BelowHead, ValidHead, Less, Increasing, Sorted, ValidHeads;
    EarlyCommitIsHeaded(x, y, x1, y1);
    EarlyCommitIncreases(x, y, x1, y1);
  }

  lemma EarlyCommitIsHeaded(x: ItemId, y: ItemId, x1: RevisionId, y1: RevisionId)
    requires x != [] && y != [] && x != y && Less(x, y) && x1 != y1
    ensures ValidHeads(EarlyCommit(x, y, x1, y1))
  {
    hide BelowHead, ValidHead, Less, Sorted;
    EarlyCommitLog(x, y, x1, y1);
    EarlyCommitHeads(x, y, x1, y1);
    PairIsSorted(x, y);
  }

  lemma EarlyCommitLog(x: ItemId, y: ItemId, x1: RevisionId, y1: RevisionId)
    requires x != y && x1 != y1
    ensures var c := EarlyCommit(x, y, x1, y1);
      forall k | 0 <= k < |c.log| :: forall id | id in c.log[k].revisionIds :: BelowHead(c, id)
  {
    EarlyCommitHeads(x, y, x1, y1);
    hide BelowHead, ValidHead;
    assert EarlyCommit(x, y, x1, y1).log[0].revisionIds == [x1, y1];
  }

  lemma EarlyCommitIncreases(x: ItemId, y: ItemId, x1: RevisionId, y1: RevisionId)
    requires x != y && x1 != y1 && ValidHeads(EarlyCommit(x, y, x1, y1))
    ensures Increasing(EarlyCommit(x, y, x1, y1))
  {
    hide BelowHead, ValidHead, Sorted, ValidHeads;
    assert EarlyCommit(x, y, x1, y1).log[0].revisionIds == [x1, y1];
  }

  lemma EarlyCommitHeads(x: ItemId, y: ItemId, x1: RevisionId, y1: RevisionId)
    requires x != y && x1 != y1
    ensures var c := EarlyCommit(x, y, x1, y1);
      BelowHead(c, x1) && BelowHead(c, y1) && ValidHead(c, x) && ValidHead(c, y)
  {
    var c := EarlyCommit(x, y, x1, y1);
    assert x1 in c.log[0].revisionIds && y1 in c.log[0].revisionIds;
  }

  lemma LateCommitLog(x: ItemId, y: ItemId, x1: RevisionId, x2: RevisionId, y1: RevisionId)
    requires x != y && x1 != x2 && x1 != y1 && x2 != y1
    ensures var c := LateCommit(x, y, x1, x2, y1);
      forall k | 0 <= k < |c.log| :: forall id | id in c.log[k].revisionIds :: BelowHead(c, id)
  {
    var c := LateCommit(x, y, x1, x2, y1);
    assert BelowHead(c, x1) && BelowHead(c, x2) && BelowHead(c, y1);
  }

  lemma LateCommitHeads(x: ItemId, y: ItemId, x1: RevisionId, x2: RevisionId, y1: RevisionId)
    requires x != y && x1 != x2 && x1 != y1 && x2 != y1
    ensures var c := LateCommit(x, y, x1, x2, y1); ValidHead(c, x) && ValidHead(c, y)
  {
    var c := LateCommit(x, y, x1, x2, y1);
    assert y1 in c.log[0].revisionIds && x2 in c.log[1].revisionIds;
  }

  lemma LateCommitIncreases(x: ItemId, y: ItemId, x1: RevisionId, x2: RevisionId, y1: RevisionId)
    requires x != y && x1 != x2 && x1 != y1 && x2 != y1 && ValidHeads(LateCommit(x, y, x1, x2, y1))
    ensures Increasing(LateCommit(x, y, x1, x2, y1))
  {
    hide BelowHead, ValidHead, Sorted;
    var c := LateCommit(x, y, x1, x2, y1);
    assert c.log[0].revisionIds == [x1, y1] && c.log[1].revisionIds == [x2];
  }

  lemma NothingBelowEmpty(x: ItemId, y: ItemId)
    requires Less(x, y)
    ensures y != []
  {
  }

  // The two pages, each read one item at a time.
  lemma LateCommitPages(x: ItemId, y: ItemId)
    requires x != [] && Less(x, y)
    ensures Page([x, y], [], 1) == [x] && Page([x, y], x, 1) == [y]
    ensures x != y && After([x, y], x) == [y]
  {
    LessIrreflexive(x);
    NothingBelowEmpty(x, y);
    var ids: seq<ItemId> := [x, y];
    AfterAll(ids, []);
    AfterAll(ids[1..], x);
  }

  lemma LateCommitViews(x: ItemId, y: ItemId, x1: RevisionId, x2: RevisionId, y1: RevisionId, a: Canon, c: Canon)
    requires x != [] && Less(x, y) && x1 != x2 && x1 != y1 && x2 != y1
    requires a == EarlyCommit(x, y, x1, y1) && c == LateCommit(x, y, x1, x2, y1)
    ensures Grows(a, c)
    ensures ViewOf(a, [], 1, View(1, [Revision(x1, x, 1)], true))
    ensures ViewOf(c, x, 1, View(2, [Revision(y1, y, 1)], false))
  {
    hide ValidCanon;
    LateCommitPages(x, y);
    LessIrreflexive(x);
    assert a.order == [x, y] && c.order == [x, y];
    assert a.log == c.log[..1];
    hide Less, Page;
    assert PageOf(a, [], 1, [Revision(x1, x, 1)]);
    assert PageOf(c, x, 1, [Revision(y1, y, 1)]);
  }

  lemma LateCommitIsStaged(x: ItemId, y: ItemId, x1: RevisionId, y1: RevisionId)
    requires x != y
    ensures MergeAll(MergeAll(map[], [Revision(x1, x, 1)]), [Revision(y1, y, 1)])
      == map[x := Revision(x1, x, 1), y := Revision(y1, y, 1)]
    ensures MarkRead(MarkRead(map[], [x], 1), [y], 2) == map[x := 1, y := 2]
  {
    var first, second := [Revision(x1, x, 1)], [Revision(y1, y, 1)];
    assert first[..0] == [] && second[..0] == [];
    assert MergeAll(map[], first) == map[x := Revision(x1, x, 1)];
    assert MarkRead(map[], [x], 1) == map[x := 1];
  }

  lemma LateCommitIsRead(x: ItemId, y: ItemId, x1: RevisionId, x2: RevisionId, y1: RevisionId, c: Canon)
    requires x != y && x1 != x2 && x1 != y1 && x2 != y1 && c == LateCommit(x, y, x1, x2, y1)
    ensures ReadState(c, map[x := Revision(x1, x, 1), y := Revision(y1, y, 1)], map[x := 1, y := 2])
  {
    hide ValidCanon;
    assert x1 in c.log[0].revisionIds && y1 in c.log[0].revisionIds;
    assert HeadAt(c, 1, Revision(x1, x, 1)) && HeadAt(c, 2, Revision(y1, y, 1));
  }

  // The first page is read before the second change and the second after it; what the two
  // views leave staged is behind on x, although the rebuild reports the second change.
  lemma LateCommitIsMissed(x: ItemId, y: ItemId, x1: RevisionId, x2: RevisionId, y1: RevisionId)
    requires x != [] && Less(x, y) && x1 != x2 && x1 != y1 && x2 != y1
    ensures ValidCanon(EarlyCommit(x, y, x1, y1)) && ValidCanon(LateCommit(x, y, x1, x2, y1))
    ensures var at1: Canon, at2: Canon := EarlyCommit(x, y, x1, y1), LateCommit(x, y, x1, x2, y1);
      var v1, v2 := View(1, [Revision(x1, x, 1)], true), View(2, [Revision(y1, y, 1)], false);
      var staged := MergeAll(MergeAll(map[], v1.active), v2.active);
      var readAt := MarkRead(MarkRead(map[], Page(at1.order, [], 1), |at1.log|), Page(at2.order, x, 1), |at2.log|);
      && Grows(at1, at2)
      && ViewOf(at1, [], 1, v1) && NextCursor(v1) == At(x)
      && ViewOf(at2, x, 1, v2) && NextCursor(v2) == Finished
      && ReadState(at2, staged, readAt) && x in Behind(at2, readAt, v2.changeSeq)
      && x in staged && x in HeadView(at2) && staged[x] != HeadView(at2)[x]
  {
    LateCommitIsCanon(x, y, x1, x2, y1);
    LateCommitPages(x, y);
    LessIrreflexive(x);
    var at1: Canon, at2: Canon := EarlyCommit(x, y, x1, y1), LateCommit(x, y, x1, x2, y1);
    LateCommitViews(x, y, x1, x2, y1, at1, at2);
    LateCommitIsStaged(x, y, x1, y1);
    hide ValidCanon, ReadState, Less, ViewOf, Grows, MergeAll, MarkRead, Page;
    LateCommitIsRead(x, y, x1, x2, y1, at2);
    assert x2 in at2.log[1].revisionIds;
    BehindWitness(at2, map[x := 1, y := 2], 2, 1, x2);
  }
}
