// validateTraceGraph (retrieval_helpers.go): the depth-first check that a store handed
// back exactly the closed, acyclic provenance closure of one root revision.
module TraceGraphs {
  import opened Wrappers
  import opened Derived

  // A search hit carries one revision; a relevance score is refused in a trace.
  datatype SearchHit = SearchHit(revision: Revision, scored: bool)

  // A raw turn by the reference its fields make (sourceRefFromTurn) and by whether it passes
  // its own validation, which module Turns models.
  datatype RawTurn = RawTurn(ref: SourceRef, valid: bool)
  datatype SourceRecord = SourceRecord(ref: SourceRef, state: SourceState, turn: Option<RawTurn>, forgottenAt: int)

  datatype TraceRequest = TraceRequest(scope: Scope, root: RevisionRef, maxNodes: int)
  datatype TraceGraph = TraceGraph(scope: Scope, root: RevisionRef, revisions: seq<SearchHit>,
      sources: seq<SourceRecord>)

  // ----- what acceptance means -----

  // The graph as two partial maps, the form in which the search reads it.
  datatype Graph = Graph(revisions: map<RevisionRef, Revision>, sources: map<SourceRef, SourceState>)

  function Parents(g: Graph, r: RevisionRef): seq<RevisionRef>
    requires r in g.revisions
  {
    g.revisions[r].meta.provenance.parents
  }

  function RawSources(g: Graph, r: RevisionRef): seq<SourceRef>
    requires r in g.revisions
  {
    g.revisions[r].meta.provenance.rawSources
  }

  // A walk follows parent links; its last node need not resolve.
  ghost predicate Walk(g: Graph, p: seq<RevisionRef>) {
    |p| > 0 && forall i | 0 <= i < |p| - 1 :: p[i] in g.revisions && p[i + 1] in Parents(g, p[i])
  }

  ghost predicate WalkFromTo(g: Graph, p: seq<RevisionRef>, from: RevisionRef, to: RevisionRef) {
    Walk(g, p) && p[0] == from && p[|p| - 1] == to
  }

  ghost predicate Reachable(g: Graph, from: RevisionRef, to: RevisionRef) {
    exists p :: WalkFromTo(g, p, from, to)
  }

  ghost predicate OnCycle(g: Graph, r: RevisionRef) {
    exists p :: |p| > 1 && WalkFromTo(g, p, r, r)
  }

  ghost predicate SourcesResolve(g: Graph, r: RevisionRef)
    requires r in g.revisions
  {
    forall s | s in RawSources(g, r) :: s in g.sources && g.sources[s] != Tombstone
  }

  // The graph is exactly the provenance closure of root: everything in it is cited by
  // the root, everything cited is in it, nothing is forgotten and nothing is circular.
  ghost predicate IsClosure(g: Graph, root: RevisionRef) {
    && root in g.revisions
    && (forall r | r in g.revisions :: Reachable(g, root, r))
    && (forall r | r in g.revisions :: forall q | q in Parents(g, r) :: q in g.revisions)
    && (forall r | r in g.revisions :: SourcesResolve(g, r))
    && (forall r | r in g.revisions :: !OnCycle(g, r))
    && (forall s | s in g.sources :: exists r :: r in g.revisions && s in RawSources(g, r))
  }

  ghost predicate UniqueHits(hits: seq<SearchHit>) {
    forall i, j | 0 <= i < j < |hits| :: hits[i].revision.Ref() != hits[j].revision.Ref()
  }

  ghost predicate UniqueSources(sources: seq<SourceRecord>) {
    forall i, j | 0 <= i < j < |sources| :: sources[i].ref != sources[j].ref
  }

  // SourceRecord.Validate: a live source has its raw turn, a forgotten one its time only.
  function SourceRecordError(source: SourceRecord): Option<Code> {
    if SourceRefError(source.ref).Some? then SourceRefError(source.ref)
    else if source.state == Live && source.turn.Some? && source.forgottenAt == 0 && source.turn.value.valid
      && source.turn.value.ref == source.ref then None
    else if source.state == Tombstone && source.turn.None? && source.forgottenAt != 0 then None
    else Some(InvalidDerived)
  }

  function HitError(request: TraceRequest, hit: SearchHit): Option<Code> {
    if hit.scored then Some(InvalidDerived)
    else if RevisionError(hit.revision).Some? then RevisionError(hit.revision)
    else if hit.revision.meta.scope != request.scope then Some(ScopeViolation)
    else if hit.revision.meta.state == Invalidated then Some(Forgotten)
    else None
  }

  function SourceError(request: TraceRequest, source: SourceRecord): Option<Code> {
    if SourceRecordError(source).Some? then SourceRecordError(source)
    else if source.ref.scope != request.scope then Some(ScopeViolation)
    else None
  }

  ghost function HitMap(hits: seq<SearchHit>): map<RevisionRef, Revision>
  {
    if hits == [] then map[]
    else HitMap(hits[..|hits| - 1])[hits[|hits| - 1].revision.Ref() := hits[|hits| - 1].revision]
  }

  ghost function SourceMap(sources: seq<SourceRecord>): map<SourceRef, SourceState>
  {
    if sources == [] then map[]
    else SourceMap(sources[..|sources| - 1])[sources[|sources| - 1].ref := sources[|sources| - 1].state]
  }

  // A record a trace may hold: unscored, valid, of the scope asked about and not forgotten.
  predicate Traceable(scope: Scope, hit: SearchHit) {
    && !hit.scored && RevisionError(hit.revision) == None
    && hit.revision.meta.scope == scope && hit.revision.meta.state in {Active, Superseded}
  }

  predicate TraceableSource(scope: Scope, source: SourceRecord) {
    SourceRecordError(source) == None && source.ref.scope == scope
  }

  // What the record-by-record checks establish before the search.
  ghost predicate WellFormed(request: TraceRequest, graph: TraceGraph) {
    && graph.scope == request.scope && graph.root == request.root
    && |graph.revisions| + |graph.sources| <= request.maxNodes
    && (forall hit | hit in graph.revisions :: Traceable(request.scope, hit))
    && (forall source | source in graph.sources :: TraceableSource(request.scope, source))
    && UniqueHits(graph.revisions) && UniqueSources(graph.sources)
  }

  ghost function ToGraph(graph: TraceGraph): Graph {
    Graph(HitMap(graph.revisions), SourceMap(graph.sources))
  }

  ghost predicate Accepts(request: TraceRequest, graph: TraceGraph) {
    WellFormed(request, graph) && IsClosure(ToGraph(graph), request.root)
  }

  // What a refusal by the search itself proves about the graph.
  ghost predicate Refutes(g: Graph, root: RevisionRef, code: Code) {
    match code
    case InvalidDerived => exists r :: Reachable(g, root, r) && OnCycle(g, r)
    case NotFound =>
      || (exists r :: Reachable(g, root, r) && r !in g.revisions)
      || (exists r, s :: Reachable(g, root, r) && r in g.revisions && s in RawSources(g, r) && s !in g.sources)
    case Forgotten =>
      exists r, s :: Reachable(g, root, r) && r in g.revisions && s in RawSources(g, r)
                     && s in g.sources && g.sources[s] == Tombstone
    case _ => false
  }

  // ----- walks -----

  lemma WalkExtends(g: Graph, p: seq<RevisionRef>, from: RevisionRef, to: RevisionRef, next: RevisionRef)
    requires WalkFromTo(g, p, from, to) && to in g.revisions && next in Parents(g, to)
    ensures WalkFromTo(g, p + [next], from, next)
  {
  }

  lemma ReachableStep(g: Graph, from: RevisionRef, to: RevisionRef, next: RevisionRef)
    requires Reachable(g, from, to) && to in g.revisions && next in Parents(g, to)
    ensures Reachable(g, from, next)
  {
    var p :| WalkFromTo(g, p, from, to);
    WalkExtends(g, p, from, to, next);
  }

  lemma ReachableSelf(g: Graph, r: RevisionRef)
    ensures Reachable(g, r, r)
  {
    assert WalkFromTo(g, [r], r, r);
  }

  // A set closed under parents that holds the start of a walk holds all of it.
  lemma {:induction false} WalkStaysInside(g: Graph, inside: set<RevisionRef>, p: seq<RevisionRef>, i: nat)
    requires Walk(g, p) && p[0] in inside && i < |p|
    requires forall r | r in inside :: r in g.revisions && forall q | q in Parents(g, r) :: q in inside
    ensures p[i] in inside
  {
    if i > 0 {
      WalkStaysInside(g, inside, p, i - 1);
      assert p[i - 1] in inside && p[i - 1 + 1] in Parents(g, p[i - 1]);
    }
  }

  lemma ClosureIsClosed(g: Graph, root: RevisionRef, r: RevisionRef)
    requires IsClosure(g, root) && Reachable(g, root, r)
    ensures r in g.revisions
  {
    var p :| WalkFromTo(g, p, root, r);
    WalkStaysInside(g, g.revisions.Keys, p, |p| - 1);
  }

  // A refusal by the search is justified: no closure is ever refused.
  lemma RefutedIsNotClosure(g: Graph, root: RevisionRef, code: Code)
    requires Refutes(g, root, code)
    ensures !IsClosure(g, root)
  {
    match code
    case InvalidDerived =>
      var r :| Reachable(g, root, r) && OnCycle(g, r);
      if IsClosure(g, root) { ClosureIsClosed(g, root, r); }
    case NotFound =>
      if r :| Reachable(g, root, r) && r !in g.revisions {
        if IsClosure(g, root) { ClosureIsClosed(g, root, r); }
      }
    case Forgotten =>
  }

  // ----- the finishing order as a certificate -----

  // Nodes in the order the search blackens them: every parent comes earlier.
  ghost predicate Finished(g: Graph, order: seq<RevisionRef>) {
    && Distinct(order)
    && forall i | 0 <= i < |order| ::
         && order[i] in g.revisions
         && SourcesResolve(g, order[i])
         && forall q | q in Parents(g, order[i]) :: q in order[..i]
  }

  lemma {:induction false} WalkDescends(g: Graph, order: seq<RevisionRef>, p: seq<RevisionRef>, k: nat, i: nat)
    requires Finished(g, order) && Walk(g, p)
    requires k < |p| && i < |order| && p[0] == order[i]
    ensures p[k] in order[..i + 1]
    ensures k > 0 ==> p[k] in order[..i]
  {
    if k == 0 {
      assert order[..i + 1][i] == p[0];
    } else {
      WalkDescends(g, order, p, k - 1, i);
      var j :| 0 <= j < i + 1 && order[j] == p[k - 1];
      assert p[k - 1 + 1] in Parents(g, order[j]);
      var m :| 0 <= m < j && order[m] == p[k];
      assert order[..i][m] == p[k];
      assert order[..i + 1][m] == p[k];
    }
  }

  lemma FinishedIsAcyclic(g: Graph, order: seq<RevisionRef>, r: RevisionRef)
    requires Finished(g, order) && r in order
    ensures !OnCycle(g, r)
  {
    if OnCycle(g, r) {
      var p :| |p| > 1 && WalkFromTo(g, p, r, r);
      var i :| 0 <= i < |order| && order[i] == r;
      WalkDescends(g, order, p, |p| - 1, i);
    }
  }

  ghost function Elements<T>(s: seq<T>): set<T> {
    set x | x in s
  }

  lemma ElementsUpTo<T>(s: seq<T>, i: nat)
    requires i < |s|
    ensures Elements(s[..i + 1]) == Elements(s[..i]) + {s[i]}
  {
  }

  // The raw sources cited by a set of revisions.
  ghost function CitedBy(g: Graph, nodes: set<RevisionRef>): set<SourceRef> {
    set r, s | r in nodes && r in g.revisions && s in RawSources(g, r) :: s
  }

  lemma {:induction false} DistinctCount<T>(s: seq<T>)
    requires Distinct(s)
    ensures |Elements(s)| == |s|
  {
    if s == [] {
    } else {
      var n := |s| - 1;
      DistinctCount(s[..n]);
      assert Elements(s) == Elements(s[..n]) + {s[n]};
      assert s[n] !in s[..n];
    }
  }

  lemma EqualBySize<T>(a: set<T>, b: set<T>)
    requires a <= b
    ensures |a| == |b| <==> a == b
  {
    assert b == a + (b - a);
    if a != b {
      var x :| x in b - a;
      assert |b - a| > 0;
    }
  }

  lemma FinishedSetIsClosed(g: Graph, order: seq<RevisionRef>, r: RevisionRef, q: RevisionRef)
    requires Finished(g, order) && r in order && q in Parents(g, r)
    ensures q in order
  {
  }

  // The search finished without a refusal; the two final counts then decide acceptance.
  lemma CountsDecideClosure(g: Graph, root: RevisionRef, order: seq<RevisionRef>, cited: set<SourceRef>)
    requires Finished(g, order) && root in order
    requires forall r | r in order :: Reachable(g, root, r)
    requires cited == CitedBy(g, Elements(order))
    ensures IsClosure(g, root) <==> |order| == |g.revisions| && |cited| == |g.sources|
  {
    DistinctCount(order);
    var black := Elements(order);
    assert black <= g.revisions.Keys;
    EqualBySize(black, g.revisions.Keys);
    assert cited <= g.sources.Keys by {
      forall s | s in cited ensures s in g.sources {
        var r :| r in order && s in RawSources(g, r);
        assert SourcesResolve(g, r);
      }
    }
    EqualBySize(cited, g.sources.Keys);
    forall r, q | r in black && q in Parents(g, r) ensures q in black {
      FinishedSetIsClosed(g, order, r, q);
    }
    if IsClosure(g, root) { ClosureIsCounted(g, root, order); }
    if black == g.revisions.Keys && cited == g.sources.Keys { CountedIsClosure(g, root, order); }
  }

  lemma ClosureIsCounted(g: Graph, root: RevisionRef, order: seq<RevisionRef>)
    requires Finished(g, order) && root in order && IsClosure(g, root)
    requires forall r, q | r in Elements(order) && q in Parents(g, r) :: q in Elements(order)
    ensures Elements(order) == g.revisions.Keys && CitedBy(g, Elements(order)) == g.sources.Keys
  {
    var black := Elements(order);
    forall r | r in g.revisions ensures r in black {
      var p :| WalkFromTo(g, p, root, r);
      WalkStaysInside(g, black, p, |p| - 1);
    }
    forall s | s in g.sources ensures s in CitedBy(g, black) {
      var r :| r in g.revisions && s in RawSources(g, r);
      assert r in black;
    }
  }

  lemma CountedIsClosure(g: Graph, root: RevisionRef, order: seq<RevisionRef>)
    requires Finished(g, order) && root in order && forall r | r in order :: Reachable(g, root, r)
    requires Elements(order) == g.revisions.Keys && CitedBy(g, Elements(order)) == g.sources.Keys
    requires forall r, q | r in Elements(order) && q in Parents(g, r) :: q in Elements(order)
    ensures IsClosure(g, root)
  {
    forall r | r in g.revisions ensures !OnCycle(g, r) && r in order && SourcesResolve(g, r) {
      assert r in Elements(order);
      FinishedIsAcyclic(g, order, r);
    }
    forall s | s in g.sources ensures exists r :: r in g.revisions && s in RawSources(g, r) {
      assert s in CitedBy(g, Elements(order));
      var r :| r in order && s in RawSources(g, r);
    }
  }

  // ----- the search -----

  // The search's variables are consistent with the nodes finished so far (order) and
  // the nodes on the path from the root down to the one being visited.
  ghost predicate Consistent(
    g: Graph, root: RevisionRef, colors: map<RevisionRef, nat>, visitedSources: set<SourceRef>,
    order: seq<RevisionRef>, path: seq<RevisionRef>)
  {
    && Finished(g, order)
    && (forall r | r in order :: Reachable(g, root, r))
    && PathOpen(g, order, path)
    && (forall r :: r in colors <==> r in order || r in path)
    && (forall r | r in order :: r in colors && colors[r] == 2)
    && (forall r | r in path :: r in colors && colors[r] == 1)
    && visitedSources == CitedBy(g, Elements(order) + Elements(path))
  }

  ghost predicate PathOpen(g: Graph, order: seq<RevisionRef>, path: seq<RevisionRef>) {
    Distinct(path) && forall r | r in path :: r in g.revisions && r !in order
  }

  lemma CycleFound(g: Graph, root: RevisionRef, path: seq<RevisionRef>, ref: RevisionRef)
    requires WalkFromTo(g, path + [ref], root, ref) && ref in path
    ensures Refutes(g, root, InvalidDerived)
  {
    var i :| 0 <= i < |path| && path[i] == ref;
    var loop := (path + [ref])[i..];
    assert |loop| > 1 && WalkFromTo(g, loop, ref, ref);
    assert OnCycle(g, ref) && Reachable(g, root, ref);
  }

  lemma EnterNode(
    g: Graph, root: RevisionRef, colors: map<RevisionRef, nat>, visitedSources: set<SourceRef>,
    order: seq<RevisionRef>, path: seq<RevisionRef>, ref: RevisionRef)
    requires Consistent(g, root, colors, visitedSources, order, path)
    requires ref !in colors && ref in g.revisions
    ensures Consistent(g, root, colors[ref := 1], visitedSources + Elements(RawSources(g, ref)), order, path + [ref])
  {
  }

  lemma LeaveNode(
    g: Graph, root: RevisionRef, colors: map<RevisionRef, nat>, visitedSources: set<SourceRef>,
    order: seq<RevisionRef>, path: seq<RevisionRef>, ref: RevisionRef)
    requires Consistent(g, root, colors, visitedSources, order, path + [ref])
    requires ref in g.revisions && Reachable(g, root, ref) && SourcesResolve(g, ref)
    requires Elements(Parents(g, ref)) <= Elements(order)
    ensures Consistent(g, root, colors[ref := 2], visitedSources, order + [ref], path)
    ensures Elements(order + [ref]) == Elements(order) + {ref}
    ensures colors.Keys <= (colors[ref := 2]).Keys
  {
    var down := path + [ref];
    assert down[|path|] == ref;
    forall r | r in path ensures r in down && r != ref {
      var i :| 0 <= i < |path| && path[i] == r;
      assert down[i] == r;
    }
    forall q | q in Parents(g, ref) ensures q in order {
      assert q in Elements(Parents(g, ref));
    }
    FinishNode(g, order, ref);
    assert Elements(order + [ref]) + Elements(path) == Elements(order) + Elements(down);
    assert forall i, j | 0 <= i < j < |path| :: path[i] == down[i] && path[j] == down[j];
  }

  lemma FinishNode(g: Graph, order: seq<RevisionRef>, ref: RevisionRef)
    requires Finished(g, order) && ref !in order && ref in g.revisions && SourcesResolve(g, ref)
    requires forall q | q in Parents(g, ref) :: q in order
    ensures Finished(g, order + [ref])
  {
    var longer := order + [ref];
    forall i | 0 <= i < |longer|
      ensures longer[i] in g.revisions && SourcesResolve(g, longer[i])
      ensures forall q | q in Parents(g, longer[i]) :: q in longer[..i]
    {
      assert longer[..i] == order[..i];
      assert order[..|order|] == order;
    }
  }

  lemma SmallerRemainder<T>(all: set<T>, small: set<T>, large: set<T>)
    requires small <= large
    ensures |all - large| <= |all - small|
    ensures forall x | x in all && x in large && x !in small :: |all - large| < |all - small|
  {
    assert all - small == (all - large) + (all * (large - small));
    forall x | x in all && x in large && x !in small ensures |all - large| < |all - small| {
      assert x in all * (large - small);
    }
  }

  // validateTraceGraph's recursive closure and the variables it captures.
  class TraceWalk {
    const graph: Graph
    // 1 while a revision is on the search path, 2 once its closure is done
    var colors: map<RevisionRef, nat>
    var visitedSources: set<SourceRef>
    ghost var order: seq<RevisionRef>

    constructor (graph: Graph)
      ensures this.graph == graph && colors == map[] && visitedSources == {} && order == []
    {
      this.graph := graph;
      colors := map[];
      visitedSources := {};
      order := [];
    }

    ghost predicate Valid(root: RevisionRef, path: seq<RevisionRef>)
      reads this
    {
      Consistent(graph, root, colors, visitedSources, order, path)
    }

    // Visits one revision reached from the root along path. On success its whole
    // provenance is finished; a refusal names a defect the root can reach.
    method Visit(ref: RevisionRef, ghost root: RevisionRef, ghost path: seq<RevisionRef>) returns (err: Option<Code>)
      requires Valid(root, path) && WalkFromTo(graph, path + [ref], root, ref)
      modifies this
      ensures err.None? ==>
        Valid(root, path) && Elements(old(order)) + {ref} <= Elements(order) && old(colors.Keys) <= colors.Keys
      ensures err.Some? ==> Refutes(graph, root, err.value)
      decreases |graph.revisions.Keys - colors.Keys|, 1
    {
      assert Reachable(graph, root, ref);
      if ref in colors && colors[ref] == 1 {
        CycleFound(graph, root, path, ref);
        return Some(InvalidDerived);
      }
      if ref in colors && colors[ref] == 2 {
        return None;
      }
      if ref !in graph.revisions {
        return Some(NotFound);
      }
      err := Explore(ref, root, path);
    }

    // The part of a visit that colours: grey on the way down, black on the way up.
    method Explore(ref: RevisionRef, ghost root: RevisionRef, ghost path: seq<RevisionRef>) returns (err: Option<Code>)
      requires Valid(root, path) && WalkFromTo(graph, path + [ref], root, ref)
      requires ref !in colors && ref in graph.revisions
      modifies this
      ensures err.None? ==>
        Valid(root, path) && Elements(old(order)) + {ref} <= Elements(order) && old(colors.Keys) <= colors.Keys
      ensures err.Some? ==> Refutes(graph, root, err.value)
      decreases |graph.revisions.Keys - colors.Keys|, 0
    {
      assert Reachable(graph, root, ref);
      hide Consistent, Refutes, Reachable;
      err := Enter(ref, root, path);
      if err.Some? {
        return;
      }
      assert colors.Keys == old(colors.Keys) + {ref};
      SmallerRemainder(graph.revisions.Keys, old(colors.Keys), colors.Keys);
      err := VisitParents(ref, root, path);
      if err.Some? {
        return;
      }
      Leave(ref, root, path);
    }

    // Colours a node black once all its provenance is finished.
    method Leave(ref: RevisionRef, ghost root: RevisionRef, ghost path: seq<RevisionRef>)
      requires Valid(root, path + [ref])
      requires ref in graph.revisions && Reachable(graph, root, ref) && SourcesResolve(graph, ref)
      requires Elements(Parents(graph, ref)) <= Elements(order)
      modifies this
      ensures Valid(root, path) && order == old(order) + [ref] && colors == old(colors)[ref := 2]
      ensures Elements(order) == Elements(old(order)) + {ref}
    {
      LeaveNode(graph, root, colors, visitedSources, order, path, ref);
      colors, order := colors[ref := 2], order + [ref];
    }

    // Colours a new node grey and records the raw sources it cites.
    method Enter(ref: RevisionRef, ghost root: RevisionRef, ghost path: seq<RevisionRef>) returns (err: Option<Code>)
      requires Valid(root, path) && WalkFromTo(graph, path + [ref], root, ref)
      requires ref !in colors && ref in graph.revisions
      modifies this
      ensures err.None? ==> Valid(root, path + [ref]) && order == old(order) && SourcesResolve(graph, ref)
      ensures err.None? ==> colors == old(colors)[ref := 1]
      ensures err.Some? ==> Refutes(graph, root, err.value)
    {
      assert Reachable(graph, root, ref);
      EnterNode(graph, root, colors, visitedSources, order, path, ref);
      colors := colors[ref := 1];
      hide Consistent, Refutes, Elements;
      err := VisitSources(ref, root);
    }

    // The first loop of a visit: every raw source resolves and is not forgotten.
    method VisitSources(ref: RevisionRef, ghost root: RevisionRef) returns (err: Option<Code>)
      requires ref in graph.revisions && Reachable(graph, root, ref)
      modifies this`visitedSources
      ensures err.None? ==> SourcesResolve(graph, ref)
      ensures err.None? ==> visitedSources == old(visitedSources) + Elements(RawSources(graph, ref))
      ensures err.Some? ==> Refutes(graph, root, err.value)
    {
      var sources := RawSources(graph, ref);
      var i := 0;
      while i < |sources|
        invariant i <= |sources|
        invariant forall k | 0 <= k < i :: sources[k] in graph.sources && graph.sources[sources[k]] != Tombstone
        invariant visitedSources == old(visitedSources) + Elements(sources[..i])
      {
        if sources[i] !in graph.sources {
          return Some(NotFound);
        }
        if graph.sources[sources[i]] == Tombstone {
          return Some(Forgotten);
        }
        visitedSources := visitedSources + {sources[i]};
        assert sources[..i + 1] == sources[..i] + [sources[i]];
        i := i + 1;
      }
      assert sources[..i] == sources;
      err := None;
    }

    // The second loop of a visit: every parent, recursively.
    method VisitParents(ref: RevisionRef, ghost root: RevisionRef, ghost path: seq<RevisionRef>)
        returns (err: Option<Code>)
      requires ref in graph.revisions && Valid(root, path + [ref]) && WalkFromTo(graph, path + [ref], root, ref)
      modifies this
      ensures err.None? ==>
        Valid(root, path + [ref]) && Elements(old(order)) <= Elements(order) && old(colors.Keys) <= colors.Keys
      ensures err.None? ==> Elements(Parents(graph, ref)) <= Elements(order)
      ensures err.Some? ==> Refutes(graph, root, err.value)
      decreases |graph.revisions.Keys - colors.Keys|, 2
    {
      var parents := Parents(graph, ref);
      var i := 0;
      assert Elements(parents[..0]) == {};
      hide Consistent, Refutes, WalkFromTo, Elements;
      while i < |parents|
        invariant i <= |parents|
        invariant Valid(root, path + [ref])
        invariant Elements(old(order)) <= Elements(order) && old(colors.Keys) <= colors.Keys
        invariant Elements(parents[..i]) <= Elements(order)
      {
        WalkExtends(graph, path + [ref], root, ref, parents[i]);
        SmallerRemainder(graph.revisions.Keys, old(colors.Keys), colors.Keys);
        err := Visit(parents[i], root, path + [ref]);
        if err.Some? {
          return;
        }
        ElementsUpTo(parents, i);
        i := i + 1;
      }
      assert parents[..i] == parents;
      err := None;
    }

    // The final count over the colour map.
    method CountFinished(ghost root: RevisionRef) returns (n: nat)
      requires Valid(root, [])
      ensures n == |order|
    {
      n := 0;
      var rest := colors.Keys;
      while rest != {}
        invariant rest <= colors.Keys
        invariant n + |rest| == |colors.Keys|
        decreases |rest|
      {
        var r :| r in rest;
        assert r in order;
        if colors[r] == 2 {
          n := n + 1;
        }
        rest := rest - {r};
      }
      DistinctCount(order);
      assert colors.Keys == Elements(order);
    }
  }

  // ----- the whole check -----

  // The node tables are built one record at a time; a record whose key is already
  // present is a duplicate.
  method IndexHits(request: TraceRequest, hits: seq<SearchHit>) returns (r: Result<map<RevisionRef, Revision>>)
    ensures r.Ok? <==> (forall hit | hit in hits :: Traceable(request.scope, hit)) && UniqueHits(hits)
    ensures r.Ok? ==> r.value == HitMap(hits)
  {
    hide RevisionError;
    var revisions: map<RevisionRef, Revision> := map[];
    var i := 0;
    while i < |hits|
      invariant i <= |hits|
      invariant forall k | 0 <= k < i :: Traceable(request.scope, hits[k])
      invariant UniqueHits(hits[..i])
      invariant revisions == HitMap(hits[..i])
      invariant forall ref :: ref in revisions <==> exists k :: 0 <= k < i && hits[k].revision.Ref() == ref
    {
      var err := HitError(request, hits[i]);
      assert err == None <==> Traceable(request.scope, hits[i]);
      if err.Some? {
        assert hits[i] in hits;
        return Err(err.value);
      }
      if hits[i].revision.Ref() in revisions {
        return Err(InvalidDerived);
      }
      assert hits[..i + 1][..i] == hits[..i];
      revisions := revisions[hits[i].revision.Ref() := hits[i].revision];
      i := i + 1;
    }
    assert hits[..i] == hits;
    r := Ok(revisions);
  }

  method IndexSources(request: TraceRequest, sources: seq<SourceRecord>)
      returns (r: Result<map<SourceRef, SourceState>>)
    ensures r.Ok? <==>
      (forall source | source in sources :: TraceableSource(request.scope, source)) && UniqueSources(sources)
    ensures r.Ok? ==> r.value == SourceMap(sources)
  {
    hide SourceRecordError;
    var table: map<SourceRef, SourceState> := map[];
    var i := 0;
    while i < |sources|
      invariant i <= |sources|
      invariant forall k | 0 <= k < i :: TraceableSource(request.scope, sources[k])
      invariant UniqueSources(sources[..i])
      invariant table == SourceMap(sources[..i])
      invariant forall ref :: ref in table <==> exists k :: 0 <= k < i && sources[k].ref == ref
    {
      var err := SourceError(request, sources[i]);
      assert err == None <==> TraceableSource(request.scope, sources[i]);
      if err.Some? {
        assert sources[i] in sources;
        return Err(err.value);
      }
      if sources[i].ref in table {
        return Err(InvalidDerived);
      }
      assert sources[..i + 1][..i] == sources[..i];
      table := table[sources[i].ref := sources[i].state];
      i := i + 1;
    }
    assert sources[..i] == sources;
    r := Ok(table);
  }

  // A trace graph is accepted exactly when it answers the request within its bound, holds
  // valid, unscored and unrepeated records of the scope, none of them forgotten, and is the
  // root's closed acyclic provenance.
  method ValidateTraceGraph(request: TraceRequest, graph: TraceGraph) returns (err: Option<Code>)
    ensures err.None? <==>
      && graph.scope == request.scope && graph.root == request.root
      && |graph.revisions| + |graph.sources| <= request.maxNodes
      && (forall hit | hit in graph.revisions ::
        && !hit.scored && RevisionError(hit.revision) == None
        && hit.revision.meta.scope == request.scope && hit.revision.meta.state in {Active, Superseded})
      && (forall source | source in graph.sources ::
        SourceRecordError(source) == None && source.ref.scope == request.scope)
      && UniqueHits(graph.revisions) && UniqueSources(graph.sources)
      && IsClosure(ToGraph(graph), request.root)
    ensures err.None? <==> Accepts(request, graph)
    ensures graph.scope != request.scope || graph.root != request.root ==> err == Some(ScopeViolation)
    ensures
      && graph.scope == request.scope && graph.root == request.root
      && |graph.revisions| + |graph.sources| > request.maxNodes ==>
      err == Some(LimitExceeded)
    ensures WellFormed(request, graph) && err in {Some(NotFound), Some(Forgotten)} ==>
      Refutes(ToGraph(graph), request.root, err.value)
  {
    if graph.scope != request.scope || graph.root != request.root {
      return Some(ScopeViolation);
    }
    if |graph.revisions| + |graph.sources| > request.maxNodes {
      return Some(LimitExceeded);
    }
    var hits := IndexHits(request, graph.revisions);
    if hits.Err? {
      return Some(hits.code);
    }
    var sources := IndexSources(request, graph.sources);
    if sources.Err? {
      return Some(sources.code);
    }
    err := SearchClosure(Graph(hits.value, sources.value), request.root);
  }

  // The search from the root and the two counts that follow it.
  method SearchClosure(g: Graph, root: RevisionRef) returns (err: Option<Code>)
    ensures err.None? <==> IsClosure(g, root)
    ensures err in {Some(NotFound), Some(Forgotten)} ==> Refutes(g, root, err.value)
  {
    var walk := new TraceWalk(g);
    assert WalkFromTo(g, [] + [root], root, root);
    err := walk.Visit(root, root, []);
    if err.Some? {
      RefutedIsNotClosure(g, root, err.value);
      return;
    }
    assert Elements(walk.order) + Elements([]) == Elements(walk.order);
    CountsDecideClosure(g, root, walk.order, walk.visitedSources);
    var visitedRevisions := walk.CountFinished(root);
    if visitedRevisions != |g.revisions| || |walk.visitedSources| != |g.sources| {
      return Some(InvalidDerived);
    }
  }

  // ----- consequences -----

  lemma {:induction false} HitMapContents(hits: seq<SearchHit>, ref: RevisionRef)
    requires UniqueHits(hits)
    ensures ref in HitMap(hits) <==> exists hit :: hit in hits && hit.revision.Ref() == ref
    ensures forall hit | hit in hits && hit.revision.Ref() == ref :: HitMap(hits)[ref] == hit.revision
  {
    if hits != [] {
      var n := |hits| - 1;
      HitMapContents(hits[..n], ref);
      assert hits == hits[..n] + [hits[n]];
    }
  }

  lemma {:induction false} SourceMapContents(sources: seq<SourceRecord>, ref: SourceRef)
    requires UniqueSources(sources)
    ensures ref in SourceMap(sources) <==> exists source :: source in sources && source.ref == ref
    ensures forall source | source in sources && source.ref == ref :: SourceMap(sources)[ref] == source.state
  {
    if sources != [] {
      var n := |sources| - 1;
      SourceMapContents(sources[..n], ref);
      assert sources == sources[..n] + [sources[n]];
    }
  }

  lemma UniqueByMultiset(hits: seq<SearchHit>, other: seq<SearchHit>)
    requires multiset(hits) == multiset(other) && UniqueHits(hits)
    ensures UniqueHits(other)
  {
    forall i, j | 0 <= i < j < |other| ensures other[i].revision.Ref() != other[j].revision.Ref() {
      assert other[i] in multiset(other) && other[j] in multiset(other);
      assert other[i] in hits && other[j] in hits;
      if other[i] == other[j] {
        TwiceInMultiset(other, i, j);
        OnceInMultiset(hits, other[i]);
      }
    }
  }

  lemma TwiceInMultiset<T>(s: seq<T>, i: nat, j: nat)
    requires i < j < |s| && s[i] == s[j]
    ensures multiset(s)[s[i]] >= 2
  {
    assert s == s[..i + 1] + s[i + 1..];
    assert s[..i + 1][i] == s[i] && s[i + 1..][j - i - 1] == s[i];
    assert s[i] in s[..i + 1] && s[i] in s[i + 1..];
  }

  lemma OnceInMultiset(hits: seq<SearchHit>, hit: SearchHit)
    requires UniqueHits(hits) && hit in hits
    ensures multiset(hits)[hit] == 1
  {
    var i :| 0 <= i < |hits| && hits[i] == hit;
    assert hits == hits[..i] + [hit] + hits[i + 1..];
    assert hit !in hits[..i] && hit !in hits[i + 1..];
  }

  // Two unique lists of the same records build the same table.
  lemma HitMapIgnoresOrder(hits: seq<SearchHit>, other: seq<SearchHit>)
    requires UniqueHits(hits) && multiset(hits) == multiset(other)
    ensures UniqueHits(other) && HitMap(hits) == HitMap(other)
  {
    UniqueByMultiset(hits, other);
    forall ref
      ensures ref in HitMap(hits) <==> ref in HitMap(other)
      ensures ref in HitMap(hits) ==> HitMap(hits)[ref] == HitMap(other)[ref]
    {
      HitMapContents(hits, ref);
      HitMapContents(other, ref);
      if ref in HitMap(hits) {
        var hit :| hit in hits && hit.revision.Ref() == ref;
        assert hit in multiset(other);
      }
      if ref in HitMap(other) {
        var hit :| hit in other && hit.revision.Ref() == ref;
        assert hit in multiset(hits);
      }
    }
  }

  lemma SourceMapIgnoresOrder(sources: seq<SourceRecord>, other: seq<SourceRecord>)
    requires UniqueSources(sources) && UniqueSources(other) && multiset(sources) == multiset(other)
    ensures SourceMap(sources) == SourceMap(other)
  {
    forall ref
      ensures ref in SourceMap(sources) <==> ref in SourceMap(other)
      ensures ref in SourceMap(sources) ==> SourceMap(sources)[ref] == SourceMap(other)[ref]
    {
      SourceMapContents(sources, ref);
      SourceMapContents(other, ref);
      if ref in SourceMap(sources) {
        var source :| source in sources && source.ref == ref;
        assert source in multiset(other);
      }
      if ref in SourceMap(other) {
        var source :| source in other && source.ref == ref;
        assert source in multiset(sources);
      }
    }
  }

  // Acceptance does not depend on the order in which the store lists the nodes.
  lemma AcceptanceIgnoresOrder(request: TraceRequest, graph: TraceGraph, other: TraceGraph)
    requires Accepts(request, graph)
    requires other.scope == graph.scope && other.root == graph.root
    requires multiset(other.revisions) == multiset(graph.revisions)
    requires multiset(other.sources) == multiset(graph.sources)
    ensures Accepts(request, other)
  {
    HitMapIgnoresOrder(graph.revisions, other.revisions);
    UniqueSourcesByMultiset(graph.sources, other.sources);
    SourceMapIgnoresOrder(graph.sources, other.sources);
    assert ToGraph(graph) == ToGraph(other);
    assert |multiset(other.revisions)| == |multiset(graph.revisions)|;
    assert |multiset(other.sources)| == |multiset(graph.sources)|;
    forall hit | hit in other.revisions ensures Traceable(request.scope, hit) {
      assert hit in multiset(graph.revisions);
    }
    forall source | source in other.sources ensures TraceableSource(request.scope, source) {
      assert source in multiset(graph.sources);
    }
    assert WellFormed(request, other);
  }

  lemma UniqueSourcesByMultiset(sources: seq<SourceRecord>, other: seq<SourceRecord>)
    requires multiset(sources) == multiset(other) && UniqueSources(sources)
    ensures UniqueSources(other)
  {
    forall i, j | 0 <= i < j < |other| ensures other[i].ref != other[j].ref {
      assert other[i] in multiset(sources) && other[j] in multiset(sources);
      if other[i] == other[j] {
        TwiceInMultiset(other, i, j);
        SourceOnce(sources, other[i]);
      }
    }
  }

  lemma SourceOnce(sources: seq<SourceRecord>, source: SourceRecord)
    requires UniqueSources(sources) && source in sources
    ensures multiset(sources)[source] == 1
  {
    var i :| 0 <= i < |sources| && sources[i] == source;
    assert sources == sources[..i] + [source] + sources[i + 1..];
    assert source !in sources[..i] && source !in sources[i + 1..];
  }
}
