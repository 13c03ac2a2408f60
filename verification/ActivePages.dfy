// Paging through the active heads of a scope (canonical.go, ActiveHeadScanRequest): the
// port promises item-ID order; the Badger adapter walks its own key order.
module ActivePages {
  import opened Bytes
  import Keys
  import opened CanonicalLog

  // ----- what the port promises -----

  // The items that come after a cursor. The empty cursor starts from the beginning.
  function After(ids: seq<ItemId>, cursor: ItemId): seq<ItemId> {
    if ids == [] then []
    else if Less(cursor, ids[0]) then [ids[0]] + After(ids[1..], cursor)
    else After(ids[1..], cursor)
  }

  function Take(ids: seq<ItemId>, limit: nat): seq<ItemId> {
    if |ids| <= limit then ids else ids[..limit]
  }

  // One page of a scan in item-ID order.
  function Page(ids: seq<ItemId>, cursor: ItemId, limit: nat): seq<ItemId> {
    Take(After(ids, cursor), limit)
  }

  lemma {:induction false} AfterContents(ids: seq<ItemId>, cursor: ItemId, id: ItemId)
    ensures id in After(ids, cursor) <==> id in ids && Less(cursor, id)
  {
    if ids != [] { AfterContents(ids[1..], cursor, id); }
  }

  lemma {:induction false} AfterLength(ids: seq<ItemId>, cursor: ItemId)
    ensures |After(ids, cursor)| <= |ids|
  {
    if ids != [] { AfterLength(ids[1..], cursor); }
  }

  lemma {:induction false} AfterAll(ids: seq<ItemId>, cursor: ItemId)
    requires forall i | 0 <= i < |ids| :: Less(cursor, ids[i])
    ensures After(ids, cursor) == ids
  {
    if ids != [] { AfterAll(ids[1..], cursor); }
  }

  // In a sorted list, what follows the k-th element is the rest of the list.
  lemma {:induction false} AfterElement(ids: seq<ItemId>, k: nat)
    requires Sorted(ids) && k < |ids|
    ensures After(ids, ids[k]) == ids[k + 1..]
  {
    if k == 0 {
      LessIrreflexive(ids[0]);
      AfterAll(ids[1..], ids[0]);
    } else {
      LessAsymmetric(ids[0], ids[k]);
      AfterElement(ids[1..], k - 1);
    }
  }

  lemma LessAsymmetric(a: ByteString, b: ByteString)
    requires Less(a, b)
    ensures !Less(b, a)
  {
    if Less(b, a) {
      LessTransitive(a, b, a);
      LessIrreflexive(a);
    }
  }

  lemma {:induction false} AfterSorted(ids: seq<ItemId>, cursor: ItemId)
    requires Sorted(ids)
    ensures Sorted(After(ids, cursor))
  {
    if ids != [] {
      AfterSorted(ids[1..], cursor);
      forall i | 0 <= i < |After(ids[1..], cursor)| ensures Less(ids[0], After(ids[1..], cursor)[i]) {
        AfterContents(ids[1..], cursor, After(ids[1..], cursor)[i]);
      }
    }
  }

  // A page read at one moment: sorted, after the cursor, and missing nothing up to its end.
  lemma PageIsExact(ids: seq<ItemId>, cursor: ItemId, limit: nat)
    requires Sorted(ids)
    ensures var page := Page(ids, cursor, limit);
      && Sorted(page)
      && (forall id | id in page :: id in ids && Less(cursor, id))
      && (|page| < limit ==> forall id | id in ids && Less(cursor, id) :: id in page)
      && (page != [] ==> forall id | id in ids && Less(cursor, id) && !Less(page[|page| - 1], id) :: id in page)
  {
    var after := After(ids, cursor);
    var page := Page(ids, cursor, limit);
    AfterSorted(ids, cursor);
    forall id ensures id in after <==> id in ids && Less(cursor, id) {
      AfterContents(ids, cursor, id);
    }
    if page != [] {
      assert forall i | |page| <= i < |after| :: Less(after[|page| - 1], after[i]);
      forall id | id in ids && Less(cursor, id) && !Less(page[|page| - 1], id) ensures id in page {
        var i :| 0 <= i < |after| && after[i] == id;
        assert page[i] == id;
      }
    }
  }

  // ----- the Badger adapter -----

  // The order of the adapter's head keys: a two-octet length comes before the item.
  predicate KeyLess(a: ItemId, b: ItemId) {
    |a| < |b| || (|a| == |b| && Less(a, b))
  }

  // The tuple keys of two items of one scope compare as KeyLess.
  lemma KeyOrder(namespace: Byte, version: Byte, prefix: seq<ByteString>, a: ItemId, b: ItemId)
    requires |a| <= Keys.MAX_COMPONENT && |b| <= Keys.MAX_COMPONENT
    ensures KeyLess(a, b) <==>
      Less(Keys.KeyBytes(namespace, version, prefix + [a]), Keys.KeyBytes(namespace, version, prefix + [b]))
  {
    Keys.StreamAppend(2, prefix, [a]);
    Keys.StreamAppend(2, prefix, [b]);
    var head := [namespace, version] + Keys.Stream(2, prefix);
    var x, y := Keys.Frame(2, a), Keys.Frame(2, b);
    assert Keys.Stream(2, [a]) == x && Keys.Stream(2, [b]) == y;
    assert Keys.KeyBytes(namespace, version, prefix + [a]) == head + x;
    assert Keys.KeyBytes(namespace, version, prefix + [b]) == head + y;
    LessAfterPrefix(head, x, y);
    LengthFirst(a, b);
  }

  lemma LengthFirst(a: ItemId, b: ItemId)
    requires |a| <= Keys.MAX_COMPONENT && |b| <= Keys.MAX_COMPONENT
    ensures Less(Keys.Frame(2, a), Keys.Frame(2, b)) <==> KeyLess(a, b)
  {
    TwoOctets(|a|);
    TwoOctets(|b|);
    var x: ByteString, y: ByteString := [|a| / 256, |a| % 256], [|b| / 256, |b| % 256];
    assert Keys.Frame(2, a) == x + a && Keys.Frame(2, b) == y + b;
    if |a| == |b| {
      LessAfterPrefix(x, a, b);
    } else {
      var s, t := x + a, y + b;
      assert s[0] == |a| / 256 && t[0] == |b| / 256 && s[1..][0] == |a| % 256 && t[1..][0] == |b| % 256;
      assert Less(s, t) <==> s[0] < t[0] || (s[0] == t[0] && Less(s[1..], t[1..]));
      assert Less(s[1..], t[1..]) <==>
        s[1..][0] < t[1..][0] || (s[1..][0] == t[1..][0] && Less(s[1..][1..], t[1..][1..]));
      assert |a| == 256 * (|a| / 256) + |a| % 256 && |b| == 256 * (|b| / 256) + |b| % 256;
    }
  }

  lemma TwoOctets(n: nat)
    requires n <= Keys.MAX_COMPONENT
    ensures Keys.BigEndian(n, 2) == [n / 256, n % 256]
  {
    assert Keys.BigEndian(n / 256, 1) == Keys.BigEndian(n / 256 / 256, 0) + [n / 256 % 256];
  }

  ghost predicate KeySorted(ids: seq<ItemId>) {
    forall i, j | 0 <= i < j < |ids| :: KeyLess(ids[i], ids[j])
  }

  // The heads the adapter visits after a cursor and does not skip: it seeks to the
  // cursor's key, then drops every head that is not greater as a string.
  function BadgerAfter(ids: seq<ItemId>, cursor: ItemId): seq<ItemId> {
    if ids == [] then []
    else if KeyLess(cursor, ids[0]) && Less(cursor, ids[0]) then [ids[0]] + BadgerAfter(ids[1..], cursor)
    else BadgerAfter(ids[1..], cursor)
  }

  // ScanActiveHeads over heads stored in key order.
  method ScanActiveHeads(ids: seq<ItemId>, cursor: ItemId, limit: nat) returns (page: seq<ItemId>)
    requires KeySorted(ids) && forall i | 0 <= i < |ids| :: ids[i] != []
    ensures page == Take(BadgerAfter(ids, cursor), limit)
  {
    hide Less, KeyLess;
    page := [];
    var i := 0;
    while i < |ids| && KeyLess(ids[i], cursor)
      invariant i <= |ids| && BadgerAfter(ids[i..], cursor) == BadgerAfter(ids, cursor)
    {
      KeyAsymmetric(ids[i], cursor);
      BadgerAfterStep(ids, i, cursor);
      i := i + 1;
    }
    ghost var seek := i;
    while i < |ids| && |page| < limit
      invariant seek <= i <= |ids| && |page| <= limit
      invariant page + BadgerAfter(ids[i..], cursor) == BadgerAfter(ids, cursor)
    {
      SeekSorted(ids, seek, i, cursor);
      BadgerAfterStep(ids, i, cursor);
      if cursor == [] || Less(cursor, ids[i]) {
        SeekPassed(ids[i], cursor);
        MoveOne(page, ids[i], BadgerAfter(ids[i + 1..], cursor));
        page := page + [ids[i]];
      } else {
        assert [] + BadgerAfter(ids[i + 1..], cursor) == BadgerAfter(ids[i + 1..], cursor);
      }
      i := i + 1;
    }
    assert ids[|ids|..] == [];
  }

  lemma BadgerAfterStep(ids: seq<ItemId>, i: nat, cursor: ItemId)
    requires i < |ids|
    ensures BadgerAfter(ids[i..], cursor) ==
      (if KeyLess(cursor, ids[i]) && Less(cursor, ids[i]) then [ids[i]] else []) + BadgerAfter(ids[i + 1..], cursor)
  {
    assert ids[i..][1..] == ids[i + 1..];
  }

  lemma MoveOne<T>(a: seq<T>, x: T, b: seq<T>)
    ensures a + ([x] + b) == a + [x] + b
  {
  }

  lemma SeekSorted(ids: seq<ItemId>, seek: nat, i: nat, cursor: ItemId)
    requires KeySorted(ids) && seek <= i < |ids| && !KeyLess(ids[seek], cursor)
    ensures !KeyLess(ids[i], cursor)
  {
    if seek < i && KeyLess(ids[i], cursor) { KeyTransitive(ids[seek], ids[i], cursor); }
  }

  lemma KeyAsymmetric(a: ItemId, b: ItemId)
    requires KeyLess(a, b)
    ensures !KeyLess(b, a)
  {
    if |a| == |b| { LessAsymmetric(a, b); }
  }

  lemma SeekPassed(id: ItemId, cursor: ItemId)
    requires id != [] && !KeyLess(id, cursor) && (cursor == [] || Less(cursor, id))
    ensures KeyLess(cursor, id) && Less(cursor, id)
  {
  }

  function Remaining(ids: seq<ItemId>, cursor: ItemId): nat {
    if ids == [] then 0 else (if KeyLess(cursor, ids[0]) then 1 else 0) + Remaining(ids[1..], cursor)
  }

  lemma {:induction false} RemainingDrops(ids: seq<ItemId>, cursor: ItemId, next: ItemId)
    requires KeyLess(cursor, next)
    ensures Remaining(ids, next) <= Remaining(ids, cursor)
    ensures next in ids ==> Remaining(ids, next) < Remaining(ids, cursor)
  {
    if ids != [] {
      RemainingDrops(ids[1..], cursor, next);
      if KeyLess(next, ids[0]) { KeyTransitive(cursor, next, ids[0]); }
      if next == ids[0] { LessIrreflexive(next); }
    }
  }

  lemma KeyTransitive(a: ItemId, b: ItemId, c: ItemId)
    requires KeyLess(a, b) && KeyLess(b, c)
    ensures KeyLess(a, c)
  {
    if |a| == |b| == |c| { LessTransitive(a, b, c); }
  }

  lemma {:induction false} BadgerAfterContents(ids: seq<ItemId>, cursor: ItemId, id: ItemId)
    ensures id in BadgerAfter(ids, cursor) <==> id in ids && KeyLess(cursor, id) && Less(cursor, id)
  {
    if ids != [] { BadgerAfterContents(ids[1..], cursor, id); }
  }

  // All pages, each starting where the last one ended, until one comes back empty. A
  // rebuild stops there too: its probe after a full page is that next scan.
  function AllPages(ids: seq<ItemId>, cursor: ItemId, limit: nat): seq<ItemId>
    requires limit > 0
    decreases Remaining(ids, cursor)
  {
    var page := Take(BadgerAfter(ids, cursor), limit);
    if page == [] then []
    else
      var last := page[|page| - 1];
      assert last in BadgerAfter(ids, cursor);
      BadgerAfterContents(ids, cursor, last);
      RemainingDrops(ids, cursor, last);
      page + AllPages(ids, last, limit)
  }

  lemma {:induction false} BadgerAfterAll(ids: seq<ItemId>, cursor: ItemId)
    requires forall i | 0 <= i < |ids| :: KeyLess(cursor, ids[i]) && Less(cursor, ids[i])
    ensures BadgerAfter(ids, cursor) == ids
  {
    if ids != [] { BadgerAfterAll(ids[1..], cursor); }
  }

  lemma {:induction false} BadgerAfterElement(ids: seq<ItemId>, k: nat)
    requires KeySorted(ids) && Sorted(ids) && k < |ids|
    ensures BadgerAfter(ids, ids[k]) == ids[k + 1..]
  {
    if k == 0 {
      LessIrreflexive(ids[0]);
      BadgerAfterAll(ids[1..], ids[0]);
    } else {
      KeyAsymmetric(ids[0], ids[k]);
      BadgerAfterElement(ids[1..], k - 1);
    }
  }

  // With both orders equal, the pages from any element on list exactly the rest.
  lemma TakeFrom(ids: seq<ItemId>, from: nat, limit: nat)
    requires from < |ids| && limit > 0
    ensures var page := Take(ids[from..], limit);
      page != [] && from + |page| <= |ids| && page[|page| - 1] == ids[from + |page| - 1]
      && page + ids[from + |page|..] == ids[from..]
  {
  }

  lemma {:induction false} PagesFromElement(ids: seq<ItemId>, k: nat, limit: nat)
    requires KeySorted(ids) && Sorted(ids) && k < |ids| && limit > 0
    ensures AllPages(ids, ids[k], limit) == ids[k + 1..]
    decreases |ids| - k
  {
    BadgerAfterElement(ids, k);
    hide Less, KeyLess;
    var page := Take(ids[k + 1..], limit);
    if page != [] {
      var next := k + |page|;
      TakeFrom(ids, k + 1, limit);
      PagesFromElement(ids, next, limit);
    }
  }

  ghost predicate NonEmptyIds(ids: seq<ItemId>) {
    forall i | 0 <= i < |ids| :: ids[i] != []
  }

  lemma PagesComplete(ids: seq<ItemId>, limit: nat)
    requires KeySorted(ids) && Sorted(ids) && NonEmptyIds(ids) && limit > 0
    ensures AllPages(ids, [], limit) == ids
  {
    BadgerAfterAll(ids, []);
    hide Less, KeyLess;
    var page := Take(ids, limit);
    if page != [] {
      assert ids[0..] == ids;
      TakeFrom(ids, 0, limit);
      PagesFromElement(ids, |page| - 1, limit);
    }
  }

  // One item a page: the listing is complete only if each item is also the smaller string.
  lemma {:induction false} SinglePagesRise(ids: seq<ItemId>, cursor: ItemId)
    ensures var all := AllPages(ids, cursor, 1);
      (forall i | 0 <= i < |all| - 1 :: Less(all[i], all[i + 1])) && (all != [] ==> Less(cursor, all[0]))
    decreases Remaining(ids, cursor)
  {
    var page := Take(BadgerAfter(ids, cursor), 1);
    if page != [] {
      BadgerAfterContents(ids, cursor, page[0]);
      RemainingDrops(ids, cursor, page[0]);
      SinglePagesRise(ids, page[0]);
      assert AllPages(ids, cursor, 1) == [page[0]] + AllPages(ids, page[0], 1);
    }
  }

  lemma {:induction false} RisingIsSorted(ids: seq<ItemId>, i: nat, j: nat)
    requires forall k | 0 <= k < |ids| - 1 :: Less(ids[k], ids[k + 1])
    requires i < j < |ids|
    ensures Less(ids[i], ids[j])
    decreases j
  {
    assert Less(ids[j - 1], ids[j - 1 + 1]);
    if i < j - 1 {
      RisingIsSorted(ids, i, j - 1);
      LessTransitive(ids[i], ids[j - 1], ids[j]);
    }
  }

  ghost predicate CompleteAtEverySize(ids: seq<ItemId>) {
    forall limit: nat | limit > 0 :: AllPages(ids, [], limit) == ids
  }

  // The adapter's paging keeps the port's promise for every page size exactly when the
  // heads, listed in key order, are in item-ID order as well.
  lemma BadgerPagingCorrectIff(ids: seq<ItemId>)
    requires KeySorted(ids) && NonEmptyIds(ids)
    ensures CompleteAtEverySize(ids) <==> Sorted(ids)
  {
    if Sorted(ids) {
      forall limit: nat | limit > 0 ensures AllPages(ids, [], limit) == ids {
        PagesComplete(ids, limit);
      }
    }
    if CompleteAtEverySize(ids) {
      SinglePagesRise(ids, []);
      assert AllPages(ids, [], 1) == ids;
      forall i, j | 0 <= i < j < |ids| ensures Less(ids[i], ids[j]) {
        RisingIsSorted(ids, i, j);
      }
    }
  }

  // Items of one length always page correctly.
  lemma EqualLengthsPageCorrectly(ids: seq<ItemId>, limit: nat)
    requires KeySorted(ids) && NonEmptyIds(ids) && limit > 0
    requires forall i, j | 0 <= i < j < |ids| :: |ids[i]| == |ids[j]|
    ensures AllPages(ids, [], limit) == ids
  {
    PagesComplete(ids, limit);
  }

  // "item:" and "event:", the kinds in the identifiers of state and of event memory
  const ITEM: ByteString := [105, 116, 101, 109, 58]
  const EVENT: ByteString := [101, 118, 101, 110, 116, 58]

  // A scope with one state item and one event item, read one item a page: whatever the
  // digests, the event is never listed.
  lemma MixedKindsLoseEvents(prefix: ByteString, a: ByteString, b: ByteString)
    requires |a| == |b|
    ensures var ids := [prefix + ITEM + a, prefix + EVENT + b];
      KeySorted(ids) && AllPages(ids, [], 1) == [ids[0]]
  {
    var item, event := prefix + ITEM + a, prefix + EVENT + b;
    var ids := [item, event];
    assert item == prefix + (ITEM + a) && event == prefix + (EVENT + b);
    LessAfterPrefix(prefix, EVENT + b, ITEM + a);
    assert (EVENT + b)[0] == 101 && (ITEM + a)[0] == 105;
    LessAsymmetric(event, item);
    assert ids[1..] == [event];
    LessIrreflexive(item);
    assert BadgerAfter(ids, []) == [item] + BadgerAfter([event], []);
    assert BadgerAfter([event], item) == BadgerAfter([event][1..], item) == [];
    assert BadgerAfter(ids, item) == BadgerAfter(ids[1..], item);
  }
}
