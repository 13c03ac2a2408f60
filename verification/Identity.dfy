// Identities of derived revisions (derived_id.go): the list of parts that is hashed,
// with provenance put in a canonical order first. Module Keys shows that the hashed bytes
// determine this list, so what is proved of part lists holds of preimages.
module Identity {
  import opened Wrappers
  import opened Bytes
  import Keys

  // A reference as the list of its components: five for a raw source, two for a revision.
  type Reference = seq<ByteString>

  // "raw", "parent", "supersedes"
  const RAW: ByteString := [114, 97, 119]
  const PARENT: ByteString := [112, 97, 114, 101, 110, 116]
  const SUPERSEDES: ByteString := [115, 117, 112, 101, 114, 115, 101, 100, 101, 115]

  // ----- the canonical order -----

  // The comparator of both sorts: components in turn, the first difference decides.
  predicate Before(a: Reference, b: Reference) {
    |a| > 0 && |b| > 0 && (Less(a[0], b[0]) || (a[0] == b[0] && Before(a[1..], b[1..])))
  }

  lemma {:induction false} BeforeTransitive(a: Reference, b: Reference, c: Reference)
    requires Before(a, b) && Before(b, c)
    ensures Before(a, c)
  {
    LessIrreflexive(a[0]);
    LessIrreflexive(b[0]);
    if a[0] == b[0] && b[0] == c[0] {
      BeforeTransitive(a[1..], b[1..], c[1..]);
    } else if Less(a[0], b[0]) && Less(b[0], c[0]) {
      LessTransitive(a[0], b[0], c[0]);
    }
  }

  lemma {:induction false} BeforeIrreflexive(a: Reference)
    ensures !Before(a, a)
  {
    if a != [] {
      LessIrreflexive(a[0]);
      BeforeIrreflexive(a[1..]);
    }
  }

  lemma {:induction false} BeforeTotal(a: Reference, b: Reference)
    requires |a| == |b|
    ensures Before(a, b) || Before(b, a) || a == b
  {
    if a != [] {
      LessTotal(a[0], b[0]);
      BeforeTotal(a[1..], b[1..]);
      assert a == [a[0]] + a[1..] && b == [b[0]] + b[1..];
    }
  }

  ghost predicate Uniform(width: nat, refs: seq<Reference>) {
    forall i | 0 <= i < |refs| :: |refs[i]| == width
  }

  // No element sorts strictly before an earlier one.
  ghost predicate Ordered(refs: seq<Reference>) {
    forall i, j | 0 <= i < j < |refs| :: !Before(refs[j], refs[i])
  }

  // slices.SortFunc, as insertion: the order is total, so every sort gives this result.
  function Insert(ref: Reference, sorted: seq<Reference>): seq<Reference> {
    if sorted == [] || !Before(sorted[0], ref) then [ref] + sorted
    else [sorted[0]] + Insert(ref, sorted[1..])
  }

  function Sort(refs: seq<Reference>): seq<Reference> {
    if refs == [] then [] else Insert(refs[0], Sort(refs[1..]))
  }

  lemma {:induction false} InsertContents(ref: Reference, sorted: seq<Reference>)
    ensures multiset(Insert(ref, sorted)) == multiset{ref} + multiset(sorted)
  {
    if sorted == [] || !Before(sorted[0], ref) {
    } else {
      InsertContents(ref, sorted[1..]);
      assert sorted == [sorted[0]] + sorted[1..];
    }
  }

  lemma {:induction false} InsertOrdered(ref: Reference, sorted: seq<Reference>, width: nat)
    requires Ordered(sorted) && Uniform(width, sorted) && |ref| == width
    ensures Ordered(Insert(ref, sorted)) && Uniform(width, Insert(ref, sorted))
  {
    if sorted == [] {
    } else if !Before(sorted[0], ref) {
      forall k | 0 <= k < |sorted| ensures !Before(sorted[k], ref) {
        if Before(sorted[k], ref) {
          BeforeTotal(sorted[0], sorted[k]);
          if Before(sorted[0], sorted[k]) { BeforeTransitive(sorted[0], sorted[k], ref); }
        }
      }
    } else {
      var rest := Insert(ref, sorted[1..]);
      InsertOrdered(ref, sorted[1..], width);
      InsertContents(ref, sorted[1..]);
      forall k | 0 <= k < |rest| ensures !Before(rest[k], sorted[0]) {
        assert rest[k] in multiset(rest);
        if rest[k] == ref {
          if Before(ref, sorted[0]) {
            BeforeTransitive(sorted[0], ref, sorted[0]);
            BeforeIrreflexive(sorted[0]);
          }
        } else {
          assert rest[k] in sorted[1..];
          var m :| 0 <= m < |sorted[1..]| && sorted[1..][m] == rest[k];
          assert sorted[m + 1] == rest[k];
        }
      }
    }
  }

  lemma {:induction false} SortCorrect(refs: seq<Reference>, width: nat)
    requires Uniform(width, refs)
    ensures Ordered(Sort(refs)) && Uniform(width, Sort(refs)) && multiset(Sort(refs)) == multiset(refs)
  {
    if refs != [] {
      SortCorrect(refs[1..], width);
      InsertOrdered(refs[0], Sort(refs[1..]), width);
      InsertContents(refs[0], Sort(refs[1..]));
      assert refs == [refs[0]] + refs[1..];
    }
  }

  // A multiset has one ordered listing.
  lemma DropFirst(a: seq<Reference>)
    requires a != []
    ensures multiset(a[1..]) == multiset(a) - multiset{a[0]}
  {
    assert a == [a[0]] + a[1..];
  }

  lemma {:induction false} OrderedUnique(a: seq<Reference>, b: seq<Reference>, width: nat)
    requires Ordered(a) && Ordered(b) && Uniform(width, a) && Uniform(width, b)
    requires multiset(a) == multiset(b)
    ensures a == b
    decreases |a|
  {
    assert |multiset(a)| == |a| && |multiset(b)| == |b|;
    if a != [] {
      assert a[0] in multiset(b) && b[0] in multiset(a);
      FirstsAgree(a, b, width);
      DropFirst(a);
      DropFirst(b);
      assert a == [a[0]] + a[1..] && b == [b[0]] + b[1..];
      OrderedUnique(a[1..], b[1..], width);
    }
  }

  lemma FirstsAgree(a: seq<Reference>, b: seq<Reference>, width: nat)
    requires Ordered(a) && Ordered(b) && Uniform(width, a) && Uniform(width, b) && a != [] && b != []
    requires a[0] in multiset(b) && b[0] in multiset(a)
    ensures a[0] == b[0]
  {
    var i :| 0 <= i < |b| && b[i] == a[0];
    var j :| 0 <= j < |a| && a[j] == b[0];
    assert i == 0 || !Before(b[i], b[0]);
    assert j == 0 || !Before(a[j], a[0]);
    BeforeTotal(a[0], b[0]);
  }

  // ----- the hashed parts -----

  function Tagged(tag: ByteString, refs: seq<Reference>): seq<ByteString> {
    if refs == [] then [] else [tag] + refs[0] + Tagged(tag, refs[1..])
  }

  lemma {:induction false} TaggedAppend(tag: ByteString, refs: seq<Reference>, ref: Reference)
    ensures Tagged(tag, refs + [ref]) == Tagged(tag, refs) + ([tag] + ref)
  {
    if refs == [] {
      assert refs + [ref] == [ref] && [ref][1..] == [];
      assert Tagged(tag, [ref]) == [tag] + ref + [];
    } else {
      assert (refs + [ref])[1..] == refs[1..] + [ref];
      TaggedAppend(tag, refs[1..], ref);
    }
  }

  function ProvenanceParts(raw: seq<Reference>, parents: seq<Reference>): seq<ByteString> {
    Tagged(RAW, Sort(raw)) + Tagged(PARENT, Sort(parents))
  }

  // canonicalProvenanceParts
  method CanonicalProvenanceParts(raw: seq<Reference>, parents: seq<Reference>) returns (parts: seq<ByteString>)
    ensures parts == ProvenanceParts(raw, parents)
  {
    var sortedRaw, sortedParents := Sort(raw), Sort(parents);
    parts := [];
    var i := 0;
    while i < |sortedRaw|
      invariant i <= |sortedRaw|
      invariant parts == Tagged(RAW, sortedRaw[..i])
    {
      TaggedAppend(RAW, sortedRaw[..i], sortedRaw[i]);
      assert sortedRaw[..i + 1] == sortedRaw[..i] + [sortedRaw[i]];
      parts := parts + ([RAW] + sortedRaw[i]);
      i := i + 1;
    }
    assert sortedRaw[..i] == sortedRaw;
    ghost var rawParts := parts;
    i := 0;
    while i < |sortedParents|
      invariant i <= |sortedParents|
      invariant parts == rawParts + Tagged(PARENT, sortedParents[..i])
    {
      TaggedAppend(PARENT, sortedParents[..i], sortedParents[i]);
      assert sortedParents[..i + 1] == sortedParents[..i] + [sortedParents[i]];
      parts := parts + ([PARENT] + sortedParents[i]);
      i := i + 1;
    }
    assert sortedParents[..i] == sortedParents;
  }

  // What a revision identity is made of, content already normalised.
  datatype Revision = Revision(
    scopeKey: ByteString, scopeKind: ByteString, item: ByteString, operation: ByteString, content: seq<ByteString>,
    raw: seq<Reference>, parents: seq<Reference>, supersedes: Option<Reference>)

  ghost predicate WellShaped(r: Revision) {
    Uniform(5, r.raw) && Uniform(2, r.parents) && (r.supersedes.Some? ==> |r.supersedes.value| == 2)
  }

  function SupersedesParts(supersedes: Option<Reference>): seq<ByteString> {
    if supersedes.None? then [] else [SUPERSEDES] + supersedes.value
  }

  function RevisionParts(r: Revision): seq<ByteString> {
    [r.scopeKey, r.scopeKind, r.item, r.operation] + r.content + (ProvenanceParts(r.raw,
      r.parents) + SupersedesParts(r.supersedes))
  }

  // The identity does not depend on the order of raw sources or of parents.
  lemma IdentityIgnoresProvenanceOrder(r: Revision, raw: seq<Reference>, parents: seq<Reference>)
    requires WellShaped(r) && multiset(raw) == multiset(r.raw) && multiset(parents) == multiset(r.parents)
    ensures RevisionParts(r.(raw := raw, parents := parents)) == RevisionParts(r)
  {
    SameShape(5, r.raw, raw);
    SameShape(2, r.parents, parents);
    SortIgnoresOrder(5, r.raw, raw);
    SortIgnoresOrder(2, r.parents, parents);
  }

  lemma SameShape(width: nat, a: seq<Reference>, b: seq<Reference>)
    requires Uniform(width, a) && multiset(a) == multiset(b)
    ensures Uniform(width, b)
  {
    forall i | 0 <= i < |b| ensures |b[i]| == width {
      assert b[i] in multiset(a);
    }
  }

  lemma SortIgnoresOrder(width: nat, a: seq<Reference>, b: seq<Reference>)
    requires Uniform(width, a) && Uniform(width, b) && multiset(a) == multiset(b)
    ensures Sort(a) == Sort(b)
  {
    SortCorrect(a, width);
    SortCorrect(b, width);
    OrderedUnique(Sort(a), Sort(b), width);
  }

  // Blocks of one tag can be read back when what follows starts with another tag.
  lemma TaggedHead(tag: ByteString, a: seq<Reference>, x: seq<ByteString>)
    ensures a == [] ==> Tagged(tag, a) + x == x
    ensures a != [] ==> Tagged(tag, a) + x == [tag] + a[0] + (Tagged(tag, a[1..]) + x)
  {
  }

  lemma CutHead(s: seq<ByteString>, tag: ByteString, ref: Reference, tail: seq<ByteString>)
    requires s == [tag] + ref + tail
    ensures ref == s[1..1 + |ref|] && tail == s[1 + |ref|..]
  {
  }

  lemma {:induction false} TaggedInjective(
    tag: ByteString, width: nat, a: seq<Reference>, b: seq<Reference>, x: seq<ByteString>, y: seq<ByteString>)
    requires Uniform(width, a) && Uniform(width, b)
    requires (x == [] || x[0] != tag) && (y == [] || y[0] != tag)
    requires Tagged(tag, a) + x == Tagged(tag, b) + y
    ensures a == b && x == y
    decreases |a|
  {
    var s := Tagged(tag, a) + x;
    TaggedHead(tag, a, x);
    TaggedHead(tag, b, y);
    if a != [] && b != [] {
      var ta, tb := Tagged(tag, a[1..]) + x, Tagged(tag, b[1..]) + y;
      CutHead(s, tag, a[0], ta);
      CutHead(s, tag, b[0], tb);
      TaggedInjective(tag, width, a[1..], b[1..], x, y);
      assert a == [a[0]] + a[1..] && b == [b[0]] + b[1..];
    }
  }

  // Equal but for the order of provenance.
  ghost predicate SameRevision(r: Revision, q: Revision) {
    && r.scopeKey == q.scopeKey && r.scopeKind == q.scopeKind && r.item == q.item && r.operation == q.operation
    && r.content == q.content && r.supersedes == q.supersedes
    && multiset(r.raw) == multiset(q.raw) && multiset(r.parents) == multiset(q.parents)
  }

  // For a fixed number of content parts, equal hashed parts mean the same scope, item,
  // operation, content and supersession, and the same provenance up to order.
  lemma IdentityInjective(r: Revision, q: Revision)
    requires WellShaped(r) && WellShaped(q) && |r.content| == |q.content|
    requires RevisionParts(r) == RevisionParts(q)
    ensures SameRevision(r, q)
  {
    HeadAndTail(r, q);
    SortCorrect(r.raw, 5);
    SortCorrect(q.raw, 5);
    SortCorrect(r.parents, 2);
    SortCorrect(q.parents, 2);
    TailInjective(Sort(r.raw), Sort(r.parents), r.supersedes, Sort(q.raw), Sort(q.parents), q.supersedes);
  }

  lemma TailInjective(
    raw: seq<Reference>, parents: seq<Reference>, supersedes: Option<Reference>,
    raw': seq<Reference>, parents': seq<Reference>, supersedes': Option<Reference>)
    requires Uniform(5, raw) && Uniform(5, raw') && Uniform(2, parents) && Uniform(2, parents')
    requires Tagged(RAW, raw) + Tagged(PARENT, parents) + SupersedesParts(supersedes)
          == Tagged(RAW, raw') + Tagged(PARENT, parents') + SupersedesParts(supersedes')
    ensures raw == raw' && parents == parents' && supersedes == supersedes'
  {
    var s, s' := SupersedesParts(supersedes), SupersedesParts(supersedes');
    var p, p' := Tagged(PARENT, parents) + s, Tagged(PARENT, parents') + s';
    TagsDiffer();
    Associate(Tagged(RAW, raw), Tagged(PARENT, parents), s);
    Associate(Tagged(RAW, raw'), Tagged(PARENT, parents'), s');
    assert p == [] || p[0] == PARENT || p[0] == SUPERSEDES;
    assert p' == [] || p'[0] == PARENT || p'[0] == SUPERSEDES;
    TaggedInjective(RAW, 5, raw, raw', p, p');
    TaggedInjective(PARENT, 2, parents, parents', s, s');
    assert supersedes.Some? ==> s[1..] == supersedes.value;
    assert supersedes'.Some? ==> s'[1..] == supersedes'.value;
  }

  lemma Associate<T>(a: seq<T>, b: seq<T>, c: seq<T>)
    ensures a + (b + c) == a + b + c
  {
  }

  lemma HeadAndTail(r: Revision, q: Revision)
    requires |r.content| == |q.content| && RevisionParts(r) == RevisionParts(q)
    ensures r.scopeKey == q.scopeKey && r.scopeKind == q.scopeKind && r.item == q.item && r.operation == q.operation
    ensures r.content == q.content
    ensures ProvenanceParts(r.raw, r.parents) + SupersedesParts(r.supersedes)
         == ProvenanceParts(q.raw, q.parents) + SupersedesParts(q.supersedes)
  {
    var hr, hq := [r.scopeKey, r.scopeKind, r.item, r.operation], [q.scopeKey, q.scopeKind, q.item, q.operation];
    var tr := ProvenanceParts(r.raw, r.parents) + SupersedesParts(r.supersedes);
    var tq := ProvenanceParts(q.raw, q.parents) + SupersedesParts(q.supersedes);
    SplitThree(hr, r.content, tr, hq, q.content, tq);
    assert hr[0] == hq[0] && hr[1] == hq[1] && hr[2] == hq[2] && hr[3] == hq[3];
  }

  lemma SplitThree<T>(a: seq<T>, b: seq<T>, c: seq<T>, x: seq<T>, y: seq<T>, z: seq<T>)
    requires |a| == |x| && |b| == |y| && a + b + c == x + y + z
    ensures a == x && b == y && c == z
  {
    var s, t := a + b + c, x + y + z;
    var m, n := |a|, |a| + |b|;
    assert a == s[..m] == t[..m] == x;
    assert b == s[m..n] == t[m..n] == y;
    assert c == s[n..] == t[n..] == z;
  }

  lemma TagsDiffer()
    ensures RAW != PARENT && PARENT != SUPERSEDES && RAW != SUPERSEDES
  {
  }

  // The same of the bytes that are hashed.
  lemma PreimageInjective(schema: ByteString, kind: ByteString, r: Revision, q: Revision)
    requires WellShaped(r) && WellShaped(q) && |r.content| == |q.content|
    requires Keys.Fits(8, [schema, kind] + RevisionParts(r)) && Keys.Fits(8, [schema, kind] + RevisionParts(q))
    requires Keys.Stream(8, [schema, kind] + RevisionParts(r)) == Keys.Stream(8, [schema, kind] + RevisionParts(q))
    ensures SameRevision(r, q)
  {
    var a, b := [schema, kind] + RevisionParts(r), [schema, kind] + RevisionParts(q);
    Keys.StreamInjective(8, a, b);
    assert RevisionParts(r) == a[2..] == b[2..] == RevisionParts(q);
    IdentityInjective(r, q);
  }

  // Two identities that hash the same parts are of one revision exactly when both have the
  // same number of content parts.
  lemma SamePartsSameRevisionIff(r: Revision, q: Revision)
    requires WellShaped(r) && WellShaped(q) && RevisionParts(r) == RevisionParts(q)
    ensures SameRevision(r, q) <==> |r.content| == |q.content|
  {
    if |r.content| == |q.content| { IdentityInjective(r, q); }
  }

  // What the engine hashes for an atom: category, text and relation, and the two names of
  // the related revision unless the relation is "new". The relation settles the number.
  const NEW: ByteString := [110, 101, 119]

  predicate AtomContent(content: seq<ByteString>) {
    |content| >= 3 && |content| == if content[2] == NEW then 3 else 5
  }

  lemma AtomIdentityInjective(r: Revision, q: Revision)
    requires WellShaped(r) && WellShaped(q) && AtomContent(r.content) && AtomContent(q.content)
    requires RevisionParts(r) == RevisionParts(q)
    ensures SameRevision(r, q)
  {
    RelationPart(r);
    RelationPart(q);
    IdentityInjective(r, q);
  }

  lemma RelationPart(r: Revision)
    requires |r.content| >= 3
    ensures |RevisionParts(r)| > 6 && RevisionParts(r)[6] == r.content[2]
  {
    var head := [r.scopeKey, r.scopeKind, r.item, r.operation] + r.content;
    assert head[6] == r.content[2];
  }

  // Provenance as the engine accepts it: there is some, and no reference repeats.
  ghost predicate Provenanced(r: Revision) {
    && WellShaped(r) && |r.raw| + |r.parents| > 0
    && (forall i, j | 0 <= i < j < |r.raw| :: r.raw[i] != r.raw[j])
    && (forall i, j | 0 <= i < j < |r.parents| :: r.parents[i] != r.parents[j])
  }

  // The same number matters: the first of two parents in their sorted order can be read as
  // three more parts of content. Both revisions have acceptable provenance.
  lemma ContentCanImitateProvenance(r: Revision)
    requires Provenanced(r) && r.raw == [] && |r.parents| == 2 && Before(r.parents[0], r.parents[1])
    ensures var q := r.(content := r.content + [PARENT] + r.parents[0], parents := [r.parents[1]]);
      Provenanced(q) && RevisionParts(r) == RevisionParts(q) && !SameRevision(r, q)
  {
    var first, second := r.parents[0], r.parents[1];
    var q := r.(content := r.content + [PARENT] + first, parents := [second]);
    SortedPair(r.parents);
    SortedOne([second]);
    assert r.parents[1..] == [second];
    assert Tagged(PARENT, r.parents) == [PARENT] + first + Tagged(PARENT, [second]);
    var head := [r.scopeKey, r.scopeKind, r.item, r.operation];
    var tail := Tagged(PARENT, [second]) + SupersedesParts(r.supersedes);
    assert RevisionParts(r) == head + r.content + ([PARENT] + first) + tail;
    assert RevisionParts(q) == head + (r.content + [PARENT] + first) + tail;
    assert |q.content| == |r.content| + 3;
  }

  lemma SortedOne(refs: seq<Reference>)
    requires |refs| == 1
    ensures Sort(refs) == refs
  {
    assert refs[1..] == [] && refs == [refs[0]];
  }

  lemma SortedPair(refs: seq<Reference>)
    requires |refs| == 2 && Before(refs[0], refs[1])
    ensures Sort(refs) == refs
  {
    SortedOne(refs[1..]);
    assert !Before(refs[1], refs[0]) by {
      if Before(refs[1], refs[0]) {
        BeforeTransitive(refs[0], refs[1], refs[0]);
        BeforeIrreflexive(refs[0]);
      }
    }
    assert refs == [refs[0]] + refs[1..];
  }
}
