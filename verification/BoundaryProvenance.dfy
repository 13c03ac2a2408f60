// The provenance of what boundary processing commits (engine_boundary.go) meets the check
// made when it is traced (retrieval_helpers.go): no run of commits can build a cycle or a
// dangling parent.
module BoundaryProvenance {
  import opened Wrappers
  import opened Derived
  import opened TraceGraphs
  import opened PortsValidation
  import opened BoundaryGrounding
  import opened BoundaryStore

  function AllRecords(s: Store): seq<Revision> {
    s.atoms + s.scenarios + s.profiles
  }

  ghost function RecordWith(list: seq<Revision>, ref: RevisionRef): (r: Revision)
    requires ref in RefSet(list)
    ensures r in list && r.Ref() == ref
  {
    var r :| r in list && r.Ref() == ref; r
  }

  // The whole scope as a graph.
  ghost function ScopeGraph(s: Store): Graph {
    var list := AllRecords(s);
    Graph(map ref | ref in RefSet(list) :: RecordWith(list, ref), SourceMap(s.sources))
  }

  // What a store hands back for a trace: the part of the scope the root cites, directly
  // or not, and nothing else.
  ghost predicate IsCut(whole: Graph, root: RevisionRef, g: Graph) {
    && root in whole.revisions
    && (forall r :: r in g.revisions <==> r in whole.revisions && Reachable(whole, root, r))
    && (forall r | r in g.revisions :: g.revisions[r] == whole.revisions[r])
    && (forall x :: x in g.sources <==> x in whole.sources && exists r :: r in g.revisions && x in RawSources(g, r))
    && (forall x | x in g.sources :: g.sources[x] == whole.sources[x])
  }

  // ----- every record comes after what it cites -----

  ghost predicate Ranked(list: seq<Revision>) {
    forall i | 0 <= i < |list| :: forall q | q in list[i].meta.provenance.parents :: RefIn(list[..i], q)
  }

  lemma RankedJoin(base: seq<Revision>, list: seq<Revision>)
    requires Ranked(base) && CitesEarlier(base, list)
    ensures Ranked(base + list)
  {
    hide RefIn;
    var all := base + list;
    forall i, q | 0 <= i < |all| && q in all[i].meta.provenance.parents ensures RefIn(all[..i], q) {
      if i < |base| {
        assert all[..i] == base[..i];
      } else {
        assert all[..i] == base + list[..i - |base|];
        RefInSum(base, list[..i - |base|], q);
      }
    }
  }

  lemma AtomsRanked(s: Store)
    requires Grounded(s)
    ensures Ranked(s.atoms)
  {
  }

  lemma ScopeRanked(s: Store)
    requires Grounded(s)
    ensures Ranked(AllRecords(s))
  {
    hide CitesEarlierAtoms, CitesKnownSources, CitesEarlier, Ranked;
    AtomsRanked(s);
    RankedJoin(s.atoms, s.scenarios);
    RankedJoin(s.atoms + s.scenarios, s.profiles);
  }

  // Records of different kinds have different identities.
  lemma ScopeIdsUnique(s: Store)
    requires RecordsFit(s)
    ensures UniqueIds(AllRecords(s))
  {
    hide RevisionError, ScopeError, UniqueIds, SourcesFit, AllFit;
    KindsDiffer(s.scope, s.atoms, s.scenarios, s.profiles);
    UniqueIdsJoin(s.atoms, s.scenarios);
    UniqueIdsJoin(s.atoms + s.scenarios, s.profiles);
  }

  lemma KindsDiffer(scope: Scope, atoms: seq<AtomRevision>, scenarios: seq<ScenarioRevision>,
      profiles: seq<ProfileRevision>)
    requires AllFit(scope, atoms) && AllFit(scope, scenarios) && AllFit(scope, profiles)
    ensures forall r, q | r in atoms && q in scenarios :: r.meta.revision != q.meta.revision
    ensures forall r, q | r in atoms + scenarios && q in profiles :: r.meta.revision != q.meta.revision
  {
    hide RevisionError;
    forall r | r in atoms ensures r.meta.revision.RevisionId? && r.meta.revision.item.ItemId? &&
      r.meta.revision.item.kind == AtomKind {
      assert RecordFits(scope, r);
      IdOfKind(r);
    }
    forall r | r in scenarios ensures r.meta.revision.RevisionId? && r.meta.revision.item.ItemId? &&
      r.meta.revision.item.kind == ScenarioKind {
      assert RecordFits(scope, r);
      IdOfKind(r);
    }
    forall r | r in profiles ensures r.meta.revision.RevisionId? && r.meta.revision.item.ItemId? &&
      r.meta.revision.item.kind == ProfileKind {
      assert RecordFits(scope, r);
      IdOfKind(r);
    }
  }

  lemma IdOfKind(r: Revision)
    requires RevisionError(r) == None
    ensures r.meta.revision.RevisionId? && r.meta.revision.item == r.meta.item && r.meta.item.ItemId?
    ensures r.body.Atom? ==> r.meta.item.kind == AtomKind
    ensures r.body.Scenario? ==> r.meta.item.kind == ScenarioKind
    ensures r.body.Profile? ==> r.meta.item.kind == ProfileKind
  {
    hide RevisionError;
    ValidRevisionIsGenuine(r);
    KindOfRecord(r);
  }

  // ----- no cycles -----

  // The scope's graph with every cited source in place: cycles do not depend on sources.
  ghost function Unforgotten(s: Store): Graph {
    var list := AllRecords(s);
    Graph(ScopeGraph(s).revisions, map r, x | r in list && x in r.meta.provenance.rawSources :: x := Live)
  }

  lemma ScopeIsFinished(s: Store)
    requires Ranked(AllRecords(s)) && UniqueIds(AllRecords(s))
    ensures Finished(Unforgotten(s), Refs(AllRecords(s)))
  {
  }

  lemma ScopeIsAcyclic(s: Store, r: RevisionRef)
    requires Inv(s) && r in ScopeGraph(s).revisions
    ensures !OnCycle(Unforgotten(s), r)
  {
    hide RecordsFit, Chained, Effects, Grounded, UniqueIds, Ranked;
    ScopeRanked(s);
    ScopeIdsUnique(s);
    ScopeIsFinished(s);
    var list := AllRecords(s);
    var record := RecordWith(list, r);
    var i :| 0 <= i < |list| && list[i] == record;
    assert Refs(list)[i] == r;
    FinishedIsAcyclic(Unforgotten(s), Refs(list), r);
  }

  // ----- cuts -----

  lemma CutWalks(whole: Graph, root: RevisionRef, g: Graph, other: Graph, p: seq<RevisionRef>)
    requires IsCut(whole, root, g) && other.revisions == whole.revisions && Walk(g, p)
    ensures Walk(other, p)
  {
  }

  // A walk from the root stays in the cut.
  lemma {:induction false} WalkIsInCut(whole: Graph, root: RevisionRef, g: Graph, p: seq<RevisionRef>)
    requires IsCut(whole, root, g) && Walk(whole, p) && p[0] == root && p[|p| - 1] in whole.revisions
    ensures Walk(g, p)
  {
    forall i | 0 <= i < |p| - 1 ensures p[i] in g.revisions && p[i + 1] in Parents(g, p[i]) {
      assert WalkFromTo(whole, p[..i + 1], root, p[i]);
    }
  }

  lemma ParentsResolve(s: Store, r: RevisionRef, q: RevisionRef)
    requires Inv(s) && r in ScopeGraph(s).revisions && q in Parents(ScopeGraph(s), r)
    ensures q in ScopeGraph(s).revisions
  {
    hide RecordsFit, Chained, Effects, Grounded;
    ScopeRanked(s);
    var list := AllRecords(s);
    var record := RecordWith(list, r);
    var i :| 0 <= i < |list| && list[i] == record;
    assert RefIn(list[..i], q);
    var parent :| parent in list[..i] && parent.Ref() == q;
    assert parent in list;
  }

  lemma SourcesUnique(s: Store)
    requires RecordsFit(s)
    ensures UniqueSources(s.sources)
  {
  }

  lemma SourcesAreKnown(s: Store, r: RevisionRef, x: SourceRef)
    requires Inv(s) && r in ScopeGraph(s).revisions && x in RawSources(ScopeGraph(s), r)
    ensures x in ScopeGraph(s).sources
  {
    hide RecordsFit, Chained, Effects, CitesEarlier;
    var list := AllRecords(s);
    var record := RecordWith(list, r);
    var i :| 0 <= i < |list| && list[i] == record;
    OnlyAtomsCiteSources(s, i);
    assert CitesKnownSources(s.sources, s.atoms[i]);
    var k :| 0 <= k < |s.sources| && s.sources[k].ref == x;
    SourcesUnique(s);
    SourceMapContents(s.sources, x);
  }

  lemma OnlyAtomsCiteSources(s: Store, i: nat)
    requires Grounded(s) && i < |AllRecords(s)|
    ensures AllRecords(s)[i].meta.provenance.rawSources != [] ==> i < |s.atoms|
  {
  }

  // The cut of any committed revision is a closed acyclic closure, if nothing in it has
  // been forgotten.
  lemma CutIsClosure(s: Store, root: RevisionRef, g: Graph)
    requires Inv(s) && IsCut(ScopeGraph(s), root, g)
    requires forall x | x in g.sources :: g.sources[x] != Tombstone
    ensures IsClosure(g, root)
  {
    hide Inv, ScopeGraph, Unforgotten, SourceMap;
    var whole := ScopeGraph(s);
    ReachableSelf(whole, root);
    forall r | r in g.revisions
      ensures Reachable(g, root, r) && !OnCycle(g, r) && SourcesResolve(g, r) && forall q | q in Parents(g, r) ::
        q in g.revisions
    {
      NodeOfCut(s, root, g, r);
    }
  }

  lemma NodeOfCut(s: Store, root: RevisionRef, g: Graph, r: RevisionRef)
    requires Inv(s) && IsCut(ScopeGraph(s), root, g) && r in g.revisions
    requires forall x | x in g.sources :: g.sources[x] != Tombstone
    ensures Reachable(g, root, r) && !OnCycle(g, r) && SourcesResolve(g, r) && forall q | q in Parents(g, r) ::
      q in g.revisions
  {
    hide Inv, SourceMap;
    var whole := ScopeGraph(s);
    var p :| WalkFromTo(whole, p, root, r);
    WalkIsInCut(whole, root, g, p);
    assert WalkFromTo(g, p, root, r);
    if OnCycle(g, r) {
      var c :| |c| > 1 && WalkFromTo(g, c, r, r);
      CutWalks(whole, root, g, Unforgotten(s), c);
      assert WalkFromTo(Unforgotten(s), c, r, r);
      ScopeIsAcyclic(s, r);
    }
    forall q | q in Parents(g, r) ensures q in g.revisions {
      ParentsResolve(s, r, q);
      ReachableStep(whole, root, r, q);
    }
    forall x | x in RawSources(g, r) ensures x in g.sources && g.sources[x] != Tombstone {
      SourcesAreKnown(s, r, x);
    }
  }

  // A trace of one revision: the store's own records, each once and unscored, that make up
  // the part of the scope the root cites.
  ghost predicate IsTrace(s: Store, request: TraceRequest, graph: TraceGraph) {
    && request.scope == s.scope == graph.scope && graph.root == request.root
    && UniqueHits(graph.revisions) && UniqueSources(graph.sources)
    && (forall hit | hit in graph.revisions :: !hit.scored)
    && (forall source | source in graph.sources :: source in s.sources)
    && IsCut(ScopeGraph(s), request.root, ToGraph(graph))
  }

  lemma CutHitIsRecord(s: Store, root: RevisionRef, graph: TraceGraph, hit: SearchHit)
    requires IsCut(ScopeGraph(s), root, ToGraph(graph)) && UniqueHits(graph.revisions) && hit in graph.revisions
    ensures hit.revision in AllRecords(s)
  {
    hide Reachable, SourceMap;
    HitMapContents(graph.revisions, hit.revision.Ref());
    var record := RecordWith(AllRecords(s), hit.revision.Ref());
  }

  lemma RecordPasses(s: Store, r: Revision)
    requires RecordsFit(s) && r in AllRecords(s)
    ensures RevisionError(r) == None && r.meta.scope == s.scope
  {
    hide RevisionError, ScopeError, UniqueIds, SourcesFit;
    assert RecordFits(s.scope, r);
  }

  // Every record of such a trace passes its own check.
  lemma TraceIsWellFormed(s: Store, request: TraceRequest, graph: TraceGraph)
    requires Inv(s) && IsTrace(s, request, graph) && |graph.revisions| + |graph.sources| <= request.maxNodes
    requires forall hit | hit in graph.revisions :: hit.revision.meta.state != Invalidated
    ensures WellFormed(request, graph)
  {
    hide ScopeGraph, IsCut, RevisionError, Chained, Effects, Grounded, AllFit, UniqueIds;
    forall hit | hit in graph.revisions ensures Traceable(request.scope, hit) {
      CutHitIsRecord(s, request.root, graph, hit);
      RecordPasses(s, hit.revision);
    }
  }

  // For any revision in the scope, after any run: the trace that returns its closure is
  // accepted, if it is within the node bound and nothing in it was forgotten or invalidated.
  lemma CommittedClosureIsAccepted(s: Store, request: TraceRequest, graph: TraceGraph)
    requires Inv(s) && IsTrace(s, request, graph) && |graph.revisions| + |graph.sources| <= request.maxNodes
    requires forall hit | hit in graph.revisions :: hit.revision.meta.state != Invalidated
    requires forall source | source in graph.sources :: source.state != Tombstone
    ensures Accepts(request, graph)
  {
    hide Inv, ScopeGraph, IsCut, IsClosure;
    TraceIsWellFormed(s, request, graph);
    forall x | x in ToGraph(graph).sources ensures ToGraph(graph).sources[x] != Tombstone {
      SourceMapContents(graph.sources, x);
    }
    CutIsClosure(s, request.root, ToGraph(graph));
  }
}
