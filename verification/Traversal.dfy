/** Bounded traversal of the stored graph (internal/knowledge/graph.go): `walk` as the
    source loops it, `Related` on top of it, and what ingest can and cannot change. */
module Traversal {
  import opened Pipeline
  import opened Order
  import opened Knowledge
  import opened Text
  import opened Graph
  import opened BoundedWalk
  import GraphSafety

  const DEFAULT_MAX_DEPTH := 4
  const DEFAULT_MAX_NODES := 500
  const MAX_TRAVERSAL_EDGES := 100_000

  datatype Filter = Filter(allow: set<string>, filtered: bool, curatedOnly: bool)

  predicate Passes(f: Filter, e: Edge) {
    && (!f.filtered || e.rel in f.allow)
    && (!f.curatedOnly || e.trust.Curated?)
  }

  /** Every stored edge carries its own ID. */
  ghost predicate Labelled(s: Store) {
    forall id :: id in s.edges ==> s.edges[id].id == id
  }

  // ---- The adjacency a filtered walk reads ----

  ghost function AllowedIds(s: Store, f: Filter, from: string): set<string> {
    set id | id in StoredOut(s, from) && Passes(f, s.edges[id])
  }

  ghost function Ascend(ids: set<string>): (r: seq<string>)
    ensures AscendingBy(Before, r) && forall id :: id in r <==> id in ids
  {
    BeforeIsStrictOrder();
    ListingAscends(Before, ids);
    assert forall id :: id in Listing(Before, ids) <==> id in ids by {
      forall id { ListingElements(Before, ids, id); }
    }
    Listing(Before, ids)
  }

  ghost function TargetsOf(s: Store, ids: seq<string>): seq<string>
    requires forall id :: id in ids ==> id in s.edges
  {
    seq(|ids|, i requires 0 <= i < |ids| => s.edges[ids[i]].to)
  }

  /** The targets of the allowed edges leaving each node, in edge-ID order. */
  ghost function Out(s: Store, f: Filter): Adjacency {
    from => TargetsOf(s, Ascend(AllowedIds(s, f, from)))
  }

  lemma OutElements(s: Store, f: Filter, from: string, to: string)
    ensures to in Out(s, f)(from) <==>
            exists id :: id in StoredOut(s, from) && Passes(f, s.edges[id]) && s.edges[id].to == to
  {
    var ids := Ascend(AllowedIds(s, f, from));
    var ts := TargetsOf(s, ids);
    if to in ts {
      var i :| 0 <= i < |ts| && ts[i] == to;
      assert ids[i] in AllowedIds(s, f, from);
    }
    if id :| id in StoredOut(s, from) && Passes(f, s.edges[id]) && s.edges[id].to == to {
      assert id in ids;
      var i :| 0 <= i < |ids| && ids[i] == id;
      assert ts[i] == to;
    }
  }

  // ---- The source's inner loop, over a sorted edge slice ----

  function FilterTargets(f: Filter, es: seq<Edge>): seq<string> {
    if es == [] then []
    else if Passes(f, es[0]) then [es[0].to] + FilterTargets(f, es[1..])
    else FilterTargets(f, es[1..])
  }

  ghost function FilterIds(f: Filter, es: seq<Edge>): seq<string> {
    if es == [] then []
    else if Passes(f, es[0]) then [es[0].id] + FilterIds(f, es[1..])
    else FilterIds(f, es[1..])
  }

  predicate ById(a: Edge, b: Edge) {
    Before(a.id, b.id)
  }

  lemma {:induction false} FilterIdsAscend(f: Filter, es: seq<Edge>)
    requires AscendingBy(ById, es)
    ensures AscendingBy(Before, FilterIds(f, es))
    ensures forall id :: id in FilterIds(f, es) <==> exists i :: 0 <= i < |es| && es[i].id == id && Passes(f, es[i])
  {
    if es != [] {
      FilterIdsAscend(f, es[1..]);
      assert forall i :: 0 <= i < |es[1..]| ==> es[1..][i] == es[i + 1];
      assert forall i :: 0 < i < |es| ==> es[i] == es[1..][i - 1];
      var rest := FilterIds(f, es[1..]);
      forall k | 0 <= k < |rest|
        ensures Before(es[0].id, rest[k])
      {
        assert rest[k] in rest;
        var i :| 0 <= i < |es[1..]| && es[1..][i].id == rest[k];
        assert ById(es[0], es[i + 1]);
      }
    }
  }

  lemma {:induction false} TargetsFollowIds(s: Store, f: Filter, es: seq<Edge>)
    requires forall i :: 0 <= i < |es| ==> es[i].id in s.edges && s.edges[es[i].id] == es[i]
    ensures forall id :: id in FilterIds(f, es) ==> id in s.edges
    ensures FilterTargets(f, es) == TargetsOf(s, FilterIds(f, es))
  {
    if es != [] {
      TargetsFollowIds(s, f, es[1..]);
    }
  }

  lemma SortedElements(es: seq<Edge>)
    requires Comparable(ById, es)
    ensures AscendingBy(ById, SortBy(ById, es))
    ensures forall e :: e in SortBy(ById, es) <==> e in es
  {
    BeforeIsStrictOrder();
    SortByAscends(ById, es);
    forall e { SortByElements(ById, es, e); }
  }

  lemma OutListIsComparable(s: Store, from: string, out: seq<Edge>, ids: seq<string>)
    requires Labelled(s) && Distinct(ids)
    requires |out| == |ids| && forall i :: 0 <= i < |ids| ==> ids[i] in s.edges && out[i] == s.edges[ids[i]]
    ensures Comparable(ById, out)
  {
    forall i, j | 0 <= i < j < |out|
      ensures ById(out[i], out[j]) || ById(out[j], out[i])
    {
      BeforeIsTotal(ids[i], ids[j]);
    }
  }

  /** The sorted, filtered edge slice is the adjacency, whatever order the store used. */
  lemma SortedSliceIsOut(s: Store, f: Filter, from: string, out: seq<Edge>, ids: seq<string>)
    requires Labelled(s) && Distinct(ids) && forall id :: id in ids <==> id in StoredOut(s, from)
    requires |out| == |ids| && forall i :: 0 <= i < |ids| ==> ids[i] in s.edges && out[i] == s.edges[ids[i]]
    ensures FilterTargets(f, SortBy(ById, out)) == Out(s, f)(from)
  {
    OutListIsComparable(s, from, out, ids);
    SortedElements(out);
    var es := SortBy(ById, out);
    forall i | 0 <= i < |es|
      ensures es[i].id in StoredOut(s, from) && s.edges[es[i].id] == es[i]
    {
      assert es[i] in out;
      var k :| 0 <= k < |out| && out[k] == es[i];
      assert ids[k] in ids;
    }
    TargetsFollowIds(s, f, es);
    FilterIdsAscend(f, es);
    var want := Ascend(AllowedIds(s, f, from));
    forall id
      ensures id in FilterIds(f, es) <==> id in want
    {
      if id in want {
        assert id in ids;
        var k :| 0 <= k < |ids| && ids[k] == id;
        assert out[k] in es;
      }
    }
    BeforeIsStrictOrder();
    AscendingIsUnique(Before, FilterIds(f, es), want);
  }

  // ---- The walk as the source loops it ----

  lemma ScanOneEdge(start: string, f: Filter, lim: Limits, depth: nat, es: seq<Edge>, st: State, i: nat)
    requires i < |es| && !st.stopped
    ensures Scan(start, lim, st, depth, FilterTargets(f, es[i..])) ==
            Scan(start, lim, if Passes(f, es[i]) then Visit(start, lim, st, depth, es[i].to) else st, depth,
                 FilterTargets(f, es[i + 1..]))
  {
    assert es[i..][1..] == es[i + 1..];
    if Passes(f, es[i]) {
      assert FilterTargets(f, es[i..])[1..] == FilterTargets(f, es[i + 1..]);
    }
  }

  /** An allowed edge: what it costs and what it records. */
  method VisitEdge(start: string, lim: Limits, st: State, depth: nat, to: string) returns (r: State)
    ensures r == Visit(start, lim, st, depth, to)
  {
    r := st;
    if to == start || to in r.depthOf {
      return;
    }
    r := r.(edges := r.edges + 1);
    if r.edges > lim.edges {
      r := r.(truncated := true, stopped := true);
      return;
    }
    if depth + 1 > lim.depth {
      r := r.(truncated := true);
      return;
    }
    if |r.depthOf| >= lim.nodes {
      r := r.(truncated := true, stopped := true);
      return;
    }
    r := r.(depthOf := r.depthOf[to := depth + 1], queue := r.queue + [Item(to, depth + 1)]);
  }

  /** The edges of one dequeued item. */
  method ScanEdges(start: string, f: Filter, lim: Limits, cur: Item, es: seq<Edge>, st: State) returns (r: State)
    requires !st.stopped
    ensures r == Scan(start, lim, st, cur.depth, FilterTargets(f, es))
  {
    r := st;
    for i := 0 to |es|
      invariant !r.stopped
      invariant Scan(start, lim, r, cur.depth, FilterTargets(f, es[i..])) ==
                Scan(start, lim, st, cur.depth, FilterTargets(f, es))
    {
      ScanOneEdge(start, f, lim, cur.depth, es, r, i);
      if !Passes(f, es[i]) {
        continue;
      }
      r := VisitEdge(start, lim, r, cur.depth, es[i].to);
      if r.stopped {
        return;
      }
    }
  }

  /** One item: its edges in ID order. */
  method ScanItem(g: MemGraph, start: string, f: Filter, lim: Limits, cur: Item, st: State) returns (r: State)
    requires Labelled(g.State()) && !st.stopped
    ensures r == Scan(start, lim, st, cur.depth, Out(g.State(), f)(cur.id))
  {
    var out := g.OutEdges(cur.id);
    ghost var ids :| ListsOut(g.State(), cur.id, ids, out);
    SortedSliceIsOut(g.State(), f, cur.id, out, ids);
    r := ScanEdges(start, f, lim, cur, SortBy(ById, out), st);
  }

  method WalkFrom(g: MemGraph, start: string, f: Filter, maxDepth: nat, maxNodes: nat)
    returns (depthOf: map<string, nat>, truncated: bool)
    requires Labelled(g.State())
    ensures var r := Walk(Out(g.State(), f), start, Limits(maxDepth, maxNodes, MAX_TRAVERSAL_EDGES));
            depthOf == r.depthOf && truncated == r.truncated
  {
    var lim := Limits(maxDepth, maxNodes, MAX_TRAVERSAL_EDGES);
    ghost var adj := Out(g.State(), f);
    var st := Initial(start);
    while st.queue != []
      invariant !st.stopped && |st.depthOf| <= maxNodes
      invariant Run(adj, start, lim, st) == Walk(adj, start, lim)
      decreases |st.queue| + maxNodes - |st.depthOf|
    {
      st := ScanItem(g, start, f, lim, st.queue[0], st.(queue := st.queue[1..]));
      if st.stopped {
        return st.depthOf, st.truncated;
      }
    }
    return st.depthOf, st.truncated;
  }

  // ---- Related ----

  datatype Reached = Reached(node: Node, depth: nat, pathCurated: bool)

  datatype TraversalResult = TraversalResult(reached: seq<Reached>, truncated: bool)

  function DepthAt(depthOf: map<string, nat>, id: string): nat {
    if id in depthOf then depthOf[id] else 0
  }

  /** By depth, then by ID. */
  predicate Earlier(depthOf: map<string, nat>, a: string, b: string) {
    || DepthAt(depthOf, a) < DepthAt(depthOf, b)
    || (DepthAt(depthOf, a) == DepthAt(depthOf, b) && Before(a, b))
  }

  lemma EarlierIsStrictOrder(depthOf: map<string, nat>)
    ensures StrictOrder((a, b) => Earlier(depthOf, a, b))
    ensures StrictPartialOrder((a, b) => Earlier(depthOf, a, b))
  {
    BeforeIsStrictOrder();
  }

  /** The reached IDs that are stored nodes, in the order given. */
  function Report(nodes: map<string, Node>, all: map<string, nat>, curated: map<string, nat>,
                  ids: seq<string>): seq<Reached>
  {
    if ids == [] then []
    else
      var rest := Report(nodes, all, curated, ids[..|ids| - 1]);
      var id := ids[|ids| - 1];
      if id in nodes then rest + [Reached(nodes[id], DepthAt(all, id), id in curated)] else rest
  }

  function AllowedRels(rels: seq<string>): set<string> {
    set r | r in rels && KnownRel(r)
  }

  function LimitsFor(maxDepth: int, maxNodes: int): Limits {
    Limits(if maxDepth <= 0 then DEFAULT_MAX_DEPTH else maxDepth,
           if maxNodes <= 0 then DEFAULT_MAX_NODES else maxNodes,
           MAX_TRAVERSAL_EDGES)
  }

  ghost function AllEdges(s: Store, rels: seq<string>): Adjacency {
    Out(s, Filter(AllowedRels(rels), |rels| > 0, false))
  }

  ghost function CuratedEdges(s: Store, rels: seq<string>): Adjacency {
    Out(s, Filter(AllowedRels(rels), |rels| > 0, true))
  }

  ghost predicate InReportOrder(all: map<string, nat>, ids: seq<string>) {
    && AscendingBy((a, b) => Earlier(all, a, b), ids)
    && forall id :: id in ids <==> id in all
  }

  method CollectKeys(m: map<string, nat>) returns (ids: seq<string>)
    ensures Distinct(ids) && forall id :: id in ids <==> id in m
  {
    var left := m.Keys;
    ids := [];
    while left != {}
      invariant left <= m.Keys && Distinct(ids)
      invariant forall id :: id in m <==> id in ids || id in left
      invariant forall id :: id in ids ==> id !in left
      decreases left
    {
      var id :| id in left;
      left := left - {id};
      ids := ids + [id];
    }
  }

  method SortReached(all: map<string, nat>) returns (ids: seq<string>)
    ensures InReportOrder(all, ids)
  {
    var keys := CollectKeys(all);
    var less := (a, b) => Earlier(all, a, b);
    EarlierIsStrictOrder(all);
    ids := SortBy(less, keys);
    SortByAscends(less, keys);
    forall id { SortByElements(less, keys, id); }
  }

  method CollectReached(g: MemGraph, all: map<string, nat>, curated: map<string, nat>, ids: seq<string>)
    returns (reached: seq<Reached>)
    requires forall id :: id in ids ==> id in all
    ensures reached == Report(g.nodes, all, curated, ids)
  {
    reached := [];
    for i := 0 to |ids|
      invariant reached == Report(g.nodes, all, curated, ids[..i])
    {
      assert ids[..i + 1][..i] == ids[..i];
      var n := g.GetNode(ids[i]);
      if n.Some? {
        reached := reached + [Reached(n.value, all[ids[i]], ids[i] in curated)];
      }
    }
    assert ids[..|ids|] == ids;
  }

  /** Two walks from the start node, over all allowed edges and over the curated ones; the
      first decides what is reported, the second only the `pathCurated` bit. */
  method RelatedTo(g: MemGraph, hash: Hash, kind: string, key: string, rels: seq<string>, maxDepth: int, maxNodes: int)
    returns (res: TraversalResult)
    requires Labelled(g.State())
    ensures RelatedIs(hash, g.State(), kind, key, rels, LimitsFor(maxDepth, maxNodes), res)
  {
    var start := None;
    if KnownKind(kind) && ValidNodeKey(NormalizeNodeKey(kind, key)) {
      start := g.GetNode(NodeId(hash, kind, NormalizeNodeKey(kind, key)));
    }
    if start.None? {
      return TraversalResult([], false);
    }
    var depth := if maxDepth <= 0 then DEFAULT_MAX_DEPTH else maxDepth;
    var nodes := if maxNodes <= 0 then DEFAULT_MAX_NODES else maxNodes;
    var allow := AllowedRels(rels);
    var all, truncated := WalkFrom(g, start.value.id, Filter(allow, |rels| > 0, false), depth, nodes);
    var curated, _ := WalkFrom(g, start.value.id, Filter(allow, |rels| > 0, true), depth, nodes);
    var ids := SortReached(all);
    var reached := CollectReached(g, all, curated, ids);
    return TraversalResult(reached, truncated);
  }

  ghost predicate ReportedAs(nodes: map<string, Node>, all: State, curated: State, res: TraversalResult) {
    && res.truncated == all.truncated
    && exists ids :: InReportOrder(all.depthOf, ids) && res.reached == Report(nodes, all.depthOf, curated.depthOf, ids)
  }

  ghost predicate RelatedFrom(nodes: map<string, Node>, start: Option<Node>, all: Adjacency, curated: Adjacency,
                              lim: Limits, res: TraversalResult)
  {
    match start
    case None => res == TraversalResult([], false)
    case Some(n) => ReportedAs(nodes, Walk(all, n.id, lim), Walk(curated, n.id, lim), res)
  }

  /** What a traversal returns. */
  ghost predicate RelatedIs(hash: Hash, s: Store, kind: string, key: string, rels: seq<string>, lim: Limits,
                            res: TraversalResult)
  {
    RelatedFrom(s.nodes, LookupNode(hash, s, kind, key), AllEdges(s, rels), CuratedEdges(s, rels), lim, res)
  }

  /** The result depends on the edges only as far as they can be followed from stored nodes. */
  lemma RelatedReadsAdjacency(nodes: map<string, Node>, start: Option<Node>, all: Adjacency, all': Adjacency,
                              curated: Adjacency, curated': Adjacency, lim: Limits, res: TraversalResult)
    requires start.Some? ==> start.value.id in nodes.Keys
    requires forall u :: u in nodes.Keys ==> SameFrom(nodes.Keys, all, all', u)
    requires forall u :: u in nodes.Keys ==> SameFrom(nodes.Keys, curated, curated', u)
    ensures RelatedFrom(nodes, start, all, curated, lim, res) <==> RelatedFrom(nodes, start, all', curated', lim, res)
  {
    if start.Some? {
      WalkReadsAdjacency(nodes.Keys, all, all', start.value.id, lim);
      WalkReadsAdjacency(nodes.Keys, curated, curated', start.value.id, lim);
    }
  }

  // ---- What a reader of the result may conclude ----

  lemma {:induction false} ReportEntries(nodes: map<string, Node>, all: map<string, nat>, curated: map<string, nat>,
                                         ids: seq<string>)
    ensures forall e :: e in Report(nodes, all, curated, ids) <==>
                        exists i :: 0 <= i < |ids| && ids[i] in nodes
                                    && e == Reached(nodes[ids[i]], DepthAt(all, ids[i]), ids[i] in curated)
  {
    if ids != [] {
      var init := ids[..|ids| - 1];
      ReportEntries(nodes, all, curated, init);
      assert forall i :: 0 <= i < |init| ==> init[i] == ids[i];
    }
  }

  /** One line of the report: a stored node the walk recorded, at its depth. */
  ghost predicate IsReported(nodes: map<string, Node>, all: map<string, nat>, curated: map<string, nat>, e: Reached) {
    exists id :: id in all && id in nodes && e == Reached(nodes[id], all[id], id in curated)
  }

  lemma ReportListsRecorded(nodes: map<string, Node>, all: map<string, nat>, curated: map<string, nat>,
                            ids: seq<string>, e: Reached)
    requires InReportOrder(all, ids)
    ensures e in Report(nodes, all, curated, ids) <==> IsReported(nodes, all, curated, e)
  {
    ReportEntries(nodes, all, curated, ids);
    if e in Report(nodes, all, curated, ids) {
      var i :| 0 <= i < |ids| && ids[i] in nodes
        && e == Reached(nodes[ids[i]], DepthAt(all, ids[i]), ids[i] in curated);
      assert ids[i] in all;
    }
    if IsReported(nodes, all, curated, e) {
      var id :| id in all && id in nodes && e == Reached(nodes[id], all[id], id in curated);
      assert id in ids;
      var i :| 0 <= i < |ids| && ids[i] == id;
    }
  }

  /** The report lists exactly the stored nodes that the walk over all edges recorded, at
      their depth, with the bit of the curated walk. */
  lemma ReportIsExact(s: Store, hash: Hash, kind: string, key: string, rels: seq<string>, lim: Limits,
                      res: TraversalResult, start: Node, e: Reached)
    requires RelatedIs(hash, s, kind, key, rels, lim, res) && LookupNode(hash, s, kind, key) == Some(start)
    ensures var all, curated := Walk(AllEdges(s, rels), start.id, lim), Walk(CuratedEdges(s, rels), start.id, lim);
            e in res.reached <==> IsReported(s.nodes, all.depthOf, curated.depthOf, e)
  {
    var all, curated := Walk(AllEdges(s, rels), start.id, lim), Walk(CuratedEdges(s, rels), start.id, lim);
    var ids :| InReportOrder(all.depthOf, ids) && res.reached == Report(s.nodes, all.depthOf, curated.depthOf, ids);
    ReportListsRecorded(s.nodes, all.depthOf, curated.depthOf, ids, e);
  }

  /** A path whose every hop is a stored, allowed and curated edge. */
  ghost predicate CuratedPath(s: Store, rels: seq<string>, p: seq<string>) {
    && p != []
    && forall i :: 0 <= i < |p| - 1 ==> CuratedHop(s, rels, p[i], p[i + 1])
  }

  ghost predicate CuratedHop(s: Store, rels: seq<string>, u: string, w: string) {
    exists id :: id in StoredOut(s, u) && s.edges[id].to == w && s.edges[id].trust.Curated?
                 && (rels == [] || s.edges[id].rel in AllowedRels(rels))
  }

  ghost predicate CuratedPathExists(s: Store, rels: seq<string>, start: string, id: string, maxDepth: nat) {
    exists p :: CuratedPath(s, rels, p) && p[0] == start && p[|p| - 1] == id && |p| <= maxDepth + 1
  }

  lemma CuratedPathIsPath(s: Store, rels: seq<string>, p: seq<string>)
    ensures CuratedPath(s, rels, p) <==> IsPath(CuratedEdges(s, rels), p)
  {
    forall i | 0 <= i < |p| - 1
      ensures CuratedHop(s, rels, p[i], p[i + 1]) <==> p[i + 1] in CuratedEdges(s, rels)(p[i])
    {
      OutElements(s, Filter(AllowedRels(rels), |rels| > 0, true), p[i], p[i + 1]);
    }
  }

  lemma CuratedPathIsWithin(s: Store, rels: seq<string>, start: string, id: string, maxDepth: nat)
    ensures CuratedPathExists(s, rels, start, id, maxDepth) <==> id in Within(CuratedEdges(s, rels), start, maxDepth)
  {
    var out := CuratedEdges(s, rels);
    WithinMeansPath(out, start, maxDepth, id);
    forall p
      ensures CuratedPath(s, rels, p) <==> IsPath(out, p)
    {
      CuratedPathIsPath(s, rels, p);
    }
  }

  /** `pathCurated` is never wrong: a fully curated path within the depth limit exists. */
  lemma PathCuratedIsReal(s: Store, rels: seq<string>, start: string, lim: Limits, id: string)
    requires id in Walk(CuratedEdges(s, rels), start, lim).depthOf
    ensures CuratedPathExists(s, rels, start, id, lim.depth)
  {
    WalkCoversHorizon(CuratedEdges(s, rels), start, lim);
    CuratedPathIsWithin(s, rels, start, id, lim.depth);
  }

  lemma CuratedIsSubset(s: Store, rels: seq<string>, u: string, w: string)
    requires w in CuratedEdges(s, rels)(u)
    ensures w in AllEdges(s, rels)(u)
  {
    OutElements(s, Filter(AllowedRels(rels), |rels| > 0, true), u, w);
    OutElements(s, Filter(AllowedRels(rels), |rels| > 0, false), u, w);
  }

  /** When the unrestricted walk did not return early, the bit is exact for every node it
      reports, although the curated walk spends budgets of its own. */
  lemma PathCuratedIsExact(s: Store, rels: seq<string>, start: string, lim: Limits, id: string)
    requires !Walk(AllEdges(s, rels), start, lim).stopped
    requires id in Walk(AllEdges(s, rels), start, lim).depthOf
    ensures id in Walk(CuratedEdges(s, rels), start, lim).depthOf <==> CuratedPathExists(s, rels, start, id, lim.depth)
  {
    var some, all := CuratedEdges(s, rels), AllEdges(s, rels);
    forall u, w | w in some(u)
      ensures w in all(u)
    {
      CuratedIsSubset(s, rels, u, w);
    }
    WalkCoversHorizon(all, start, lim);
    SmallerWalkCoversHorizon(some, all, start, lim);
    CuratedPathIsWithin(s, rels, start, id, lim.depth);
  }

  /** The curated walk finds exactly what has a curated path within the depth limit, if and only
      if there is no more of that than the node cap and the edge budget admit. */
  lemma CuratedWalkIsExact(s: Store, rels: seq<string>, start: string, lim: Limits)
    ensures var near := Horizon(CuratedEdges(s, rels), start, lim);
            (forall id :: id in Walk(CuratedEdges(s, rels), start, lim).depthOf <==>
                          id != start && CuratedPathExists(s, rels, start, id, lim.depth)) <==>
            |near| <= lim.nodes && |near| <= lim.edges
  {
    var curated := CuratedEdges(s, rels);
    var near, found := Horizon(curated, start, lim), Walk(curated, start, lim).depthOf;
    WalkCoversHorizon(curated, start, lim);
    forall id
      ensures id in near <==> id != start && CuratedPathExists(s, rels, start, id, lim.depth)
    {
      CuratedPathIsWithin(s, rels, start, id, lim.depth);
    }
    assert (forall id :: id in found <==> id in near) <==> found.Keys == near;
  }

  /** So the bit of every reported node is exact whenever the curated paths fit the caps, or the
      unrestricted walk did not return early. A set bit is right in any case. */
  lemma ReportedBitIsExact(hash: Hash, s: Store, kind: string, key: string, rels: seq<string>, lim: Limits,
                           res: TraversalResult, start: Node, e: Reached)
    requires GraphSafety.NodesSound(hash, s) && LookupNode(hash, s, kind, key) == Some(start)
    requires RelatedIs(hash, s, kind, key, rels, lim, res) && e in res.reached
    ensures var near := Horizon(CuratedEdges(s, rels), start.id, lim);
            var exact := CuratedPathExists(s, rels, start.id, e.node.id, lim.depth);
            && (e.pathCurated ==> exact)
            && ((|near| <= lim.nodes && |near| <= lim.edges) || !Walk(AllEdges(s, rels), start.id, lim).stopped ==>
                  (e.pathCurated <==> exact))
  {
    var all, curated := Walk(AllEdges(s, rels), start.id, lim), Walk(CuratedEdges(s, rels), start.id, lim);
    ReportIsExact(s, hash, kind, key, rels, lim, res, start, e);
    var id :| id in all.depthOf && id in s.nodes && e == Reached(s.nodes[id], all.depthOf[id], id in curated.depthOf);
    assert GraphSafety.NodeSound(hash, id, s.nodes[id]);
    CuratedWalkIsExact(s, rels, start.id, lim);
    WalkDistancesAreExact(AllEdges(s, rels), start.id, lim, id);
    if id in curated.depthOf {
      PathCuratedIsReal(s, rels, start.id, lim, id);
    }
    if !all.stopped {
      PathCuratedIsExact(s, rels, start.id, lim, id);
    }
  }

  // ---- Ingest cannot influence the curated walk ----

  /** From `s` to `t` the curated tier of the index is untouched too. */
  ghost predicate CuratedIndexSame(s: Store, t: Store) {
    && GraphSafety.CuratedSame(s, t)
    && forall from, id :: id in t.edges && t.edges[id].trust.Curated? ==>
                            (id in Adjacent(s, from) <==> id in Adjacent(t, from))
  }

  lemma IndexComposes(s: Store, t: Store, u: Store)
    requires CuratedIndexSame(s, t) && CuratedIndexSame(t, u)
    ensures CuratedIndexSame(s, u)
  {
    forall from, id | id in u.edges && u.edges[id].trust.Curated?
      ensures id in Adjacent(s, from) <==> id in Adjacent(u, from)
    {
      assert id in t.edges && t.edges[id].trust.Curated?;
    }
  }

  lemma PutEndLeavesIndex(hash: Hash, s: Store, end: Endpoint, source: string)
    ensures CuratedIndexSame(s, PutEnd(hash, s, end, source, Ingest).0)
  {
    GraphSafety.PutNodeTrust(hash, s, end.kind, end.key, "", map[], source, Ingest, true);
    assert PutEnd(hash, s, end, source, Ingest).0.outAdj == s.outAdj;
  }

  lemma MergeEdgeLeavesIndex(s: Store, id: string, e: Edge)
    requires e.trust.Ingest?
    ensures CuratedIndexSame(s, MergeEdgeIn(s, id, EdgeDecision(e)).0)
  {
    GraphSafety.MergeEdgeTrust(s, id, e);
    GraphSafety.MergeEdgeCases(s, id, e);
  }

  lemma PutEdgeToLeavesIndex(hash: Hash, s: Store, from: string, rel: string, b: Endpoint, source: string)
    ensures CuratedIndexSame(s, PutEdgeTo(hash, s, from, rel, b, source, Ingest).0)
  {
    var (s', to) := PutEnd(hash, s, b, source, Ingest);
    PutEndLeavesIndex(hash, s, b, source);
    if to.Ok? {
      var id := EdgeId(hash, from, rel, to.value.id);
      MergeEdgeLeavesIndex(s', id, Edge(id, from, to.value.id, rel, Ingest, source));
      IndexComposes(s, s', PutEdgeBetween(hash, s', from, rel, to.value.id, source, Ingest).0);
    }
  }

  lemma IngestStepLeavesIndex(hash: Hash, s: Store, op: Op)
    requires IsIngest(op)
    ensures CuratedIndexSame(s, Step(hash, s, op))
  {
    match op
    case ObserveNode(kind, key, title, source) =>
      GraphSafety.PutNodeTrust(hash, s, kind, key, title, map[], source, Ingest, false);
      assert Step(hash, s, op).outAdj == s.outAdj;
    case Observe(a, rel, b, source) => PutEdgeLeavesIndex(hash, s, a, rel, b, source);
  }

  lemma PutEdgeLeavesIndex(hash: Hash, s: Store, a: Endpoint, rel: string, b: Endpoint, source: string)
    ensures CuratedIndexSame(s, PutEdge(hash, s, a, rel, b, source, Ingest).0)
  {
    if ValidEdgeText(rel, source) {
      var (s', from) := PutEnd(hash, s, a, source, Ingest);
      PutEndLeavesIndex(hash, s, a, source);
      if from.Ok? {
        PutEdgeToLeavesIndex(hash, s', from.value.id, rel, b, source);
        IndexComposes(s, s', PutEdgeTo(hash, s', from.value.id, rel, b, source, Ingest).0);
      }
    }
  }

  lemma {:induction false} IngestRunLeavesIndex(hash: Hash, s: Store, ops: seq<Op>)
    requires forall i :: 0 <= i < |ops| ==> IsIngest(ops[i])
    ensures CuratedIndexSame(s, Steps(hash, s, ops))
    decreases |ops|
  {
    if ops != [] {
      var t := Step(hash, s, ops[0]);
      IngestStepLeavesIndex(hash, s, ops[0]);
      IngestRunLeavesIndex(hash, t, ops[1..]);
      IndexComposes(s, t, Steps(hash, t, ops[1..]));
    }
  }

  lemma SameIndexSameIds(s: Store, t: Store, f: Filter, u: string, id: string)
    requires CuratedIndexSame(s, t) && f.curatedOnly
    ensures id in AllowedIds(s, f, u) <==> id in AllowedIds(t, f, u)
    ensures id in AllowedIds(s, f, u) ==> s.edges[id] == t.edges[id]
  {
    assert id in s.edges && s.edges[id].trust.Curated? ==> id in t.edges && t.edges[id] == s.edges[id];
    assert id in t.edges && t.edges[id].trust.Curated? ==> id in s.edges && t.edges[id] == s.edges[id];
  }

  lemma SameTargets(s: Store, t: Store, ids: seq<string>)
    requires forall id :: id in ids ==> id in s.edges && id in t.edges && s.edges[id] == t.edges[id]
    ensures TargetsOf(s, ids) == TargetsOf(t, ids)
  {
  }

  lemma SameIndexSameOut(s: Store, t: Store, f: Filter, u: string)
    requires CuratedIndexSame(s, t) && f.curatedOnly
    ensures Out(s, f)(u) == Out(t, f)(u)
  {
    forall id
      ensures id in AllowedIds(s, f, u) <==> id in AllowedIds(t, f, u)
      ensures id in AllowedIds(s, f, u) ==> s.edges[id] == t.edges[id]
    {
      SameIndexSameIds(s, t, f, u, id);
    }
    assert AllowedIds(s, f, u) == AllowedIds(t, f, u);
    SameTargets(s, t, Ascend(AllowedIds(s, f, u)));
  }

  /** For every finite run of ingest writes, successful or refused, and for any hash, the
      curated-only walk from any start returns the same depths and the same flag. */
  lemma IngestCannotMoveCuratedWalk(hash: Hash, s: Store, ops: seq<Op>, rels: seq<string>, start: string, lim: Limits)
    requires forall i :: 0 <= i < |ops| ==> IsIngest(ops[i])
    ensures Walk(CuratedEdges(Steps(hash, s, ops), rels), start, lim) == Walk(CuratedEdges(s, rels), start, lim)
  {
    var t := Steps(hash, s, ops);
    IngestRunLeavesIndex(hash, s, ops);
    forall u
      ensures CuratedEdges(s, rels)(u) == CuratedEdges(t, rels)(u)
    {
      SameIndexSameOut(s, t, Filter(AllowedRels(rels), |rels| > 0, true), u);
    }
    RunReadsAdjacency(_ => true, CuratedEdges(s, rels), CuratedEdges(t, rels), start, lim, Initial(start));
  }

  /** Every reachable store is labelled, so the walk's requirement is always met. */
  lemma RunsAreLabelled(hash: Hash, max: int, ops: seq<Op>)
    requires GraphSafety.GoodHash(hash)
    ensures Labelled(Steps(hash, Empty(max), ops))
  {
    GraphSafety.RunsAreSound(hash, max, ops);
    var s := Steps(hash, Empty(max), ops);
    forall id | id in s.edges
      ensures s.edges[id].id == id
    {
      assert GraphSafety.EdgeSound(hash, s, id, s.edges[id]);
    }
  }

  // ---- A curated result that the node cap leaves out ----

  /** A sample with two neighbours, the first observed, the second curated. */
  ghost predicate TwoNeighbours(hash: Hash, s: Store, from: string, x: string, y: string) {
    var e, f := EdgeId(hash, from, "related-to", x), EdgeId(hash, from, "related-to", y);
    && s.edges == map[e := Edge(e, from, x, "related-to", Ingest, "t"),
                      f := Edge(f, from, y, "related-to", Curated, "t")]
    && Adjacent(s, from) == {e, f} && Before(e, f)
  }

  lemma TwoAscend(e: string, f: string)
    requires Before(e, f) && e != f
    ensures Ascend({e, f}) == [e, f]
  {
    BeforeIsStrictOrder();
    AscendingIsUnique(Before, Ascend({e, f}), [e, f]);
  }

  lemma AllAllowed(s: Store, all: Filter, from: string)
    requires !all.filtered && !all.curatedOnly && Adjacent(s, from) == s.edges.Keys
    ensures AllowedIds(s, all, from) == s.edges.Keys
  {
  }

  lemma OutFollows(s: Store, all: Filter, from: string, ids: seq<string>)
    requires Ascend(AllowedIds(s, all, from)) == ids
    ensures (forall id :: id in ids ==> id in s.edges) && Out(s, all)(from) == TargetsOf(s, ids)
  {
  }

  lemma TwoTargets(s: Store, e: string, f: string)
    requires e in s.edges && f in s.edges
    ensures TargetsOf(s, [e, f]) == [s.edges[e].to, s.edges[f].to]
  {
  }

  lemma TwoEdgesInOrder(s: Store, all: Filter, from: string, e: string, f: string)
    requires !all.filtered && !all.curatedOnly && Adjacent(s, from) == s.edges.Keys
    requires s.edges.Keys == {e, f} && Before(e, f) && e != f
    ensures Out(s, all)(from) == [s.edges[e].to, s.edges[f].to]
  {
    AllAllowed(s, all, from);
    TwoAscend(e, f);
    OutFollows(s, all, from, [e, f]);
    TwoTargets(s, e, f);
  }

  lemma TwoKeys(m: map<string, Edge>, e: string, f: string, first: Edge, second: Edge)
    requires m == map[e := first, f := second] && Before(e, f)
    ensures e != f && m.Keys == {e, f} && m[e] == first && m[f] == second
  {
    BeforeIsTotal(e, f);
  }

  lemma NeighboursInOrder(hash: Hash, s: Store, from: string, x: string, y: string, all: Filter)
    requires TwoNeighbours(hash, s, from, x, y) && !all.filtered && !all.curatedOnly
    ensures Out(s, all)(from) == [x, y]
  {
    var e, f := EdgeId(hash, from, "related-to", x), EdgeId(hash, from, "related-to", y);
    TwoKeys(s.edges, e, f, Edge(e, from, x, "related-to", Ingest, "t"), Edge(f, from, y, "related-to", Curated, "t"));
    TwoEdgesInOrder(s, all, from, e, f);
  }

  lemma SecondIsCurated(hash: Hash, s: Store, from: string, x: string, y: string)
    requires TwoNeighbours(hash, s, from, x, y)
    ensures CuratedPathExists(s, [], from, y, 1)
  {
    var f := EdgeId(hash, from, "related-to", y);
    assert f in StoredOut(s, from);
    assert CuratedHop(s, [], from, y);
    assert CuratedPath(s, [], [from, y]);
  }

  lemma OnlyFirstIsReported(hash: Hash, s: Store, start: Node, x: string, y: string, res: TraversalResult, e: Reached)
    requires GraphSafety.NodesSound(hash, s) && TwoNeighbours(hash, s, start.id, x, y)
    requires x != y && x != start.id && y != start.id
    requires LookupNode(hash, s, "sample", "s") == Some(start)
    requires RelatedIs(hash, s, "sample", "s", [], LimitsFor(1, 1), res) && e in res.reached
    ensures e.node.id == x
  {
    var lim := LimitsFor(1, 1);
    NeighboursInOrder(hash, s, start.id, x, y, Filter(AllowedRels([]), false, false));
    CapOfOneKeepsFirst(AllEdges(s, []), start.id, lim, x, y);
    ReportIsExact(s, hash, "sample", "s", [], lim, res, start, e);
    assert GraphSafety.NodeSound(hash, x, s.nodes[x]);
  }

  /** A key that a sample may have, in canonical form. */
  ghost predicate SampleKey(key: string) {
    NodeProblem("sample", key, "", map[], "t").None? && NormalizeNodeKey("sample", key) == key
  }

  lemma SampleS()
    ensures SampleKey("s")
  {
    assert Trim("s") == "s";
  }

  lemma SampleX()
    ensures SampleKey("x")
  {
    assert Trim("x") == "x";
  }

  lemma SampleY()
    ensures SampleKey("y")
  {
    assert Trim("y") == "y";
  }

  lemma TwoWrites(s0: Store, s: Store, t: Store, from: string, e: string, f: string, first: Edge, second: Edge)
    requires s0.edges == map[] && s0.outAdj == map[]
    requires s.edges == s0.edges[e := first] && s.outAdj == s0.outAdj[from := Adjacent(s0, from) + {e}]
    requires t.edges == s.edges[f := second] && t.outAdj == s.outAdj[from := Adjacent(s, from) + {f}]
    ensures t.edges == map[e := first, f := second] && Adjacent(t, from) == {e, f}
  {
  }

  lemma TwoEdgesAreStored(hash: Hash, s0: Store, s: Store, t: Store, from: string, x: string, y: string)
    requires s0.edges == map[] && s0.outAdj == map[]
    requires GraphSafety.EdgeStored(hash, s0, s, from, "related-to", x, "t", Ingest)
    requires GraphSafety.EdgeStored(hash, s, t, from, "related-to", y, "t", Curated)
    requires Before(EdgeId(hash, from, "related-to", x), EdgeId(hash, from, "related-to", y))
    ensures TwoNeighbours(hash, t, from, x, y)
  {
    var e, f := EdgeId(hash, from, "related-to", x), EdgeId(hash, from, "related-to", y);
    TwoWrites(s0, s, t, from, e, f, Edge(e, from, x, "related-to", Ingest, "t"),
              Edge(f, from, y, "related-to", Curated, "t"));
  }

  lemma ThreeNodesAreStored(hash: Hash, s0: Store, s: Store, t: Store, from: string, x: string, y: string)
    requires GraphSafety.EdgeStored(hash, s0, s, from, "related-to", x, "t", Ingest)
    requires GraphSafety.EdgeStored(hash, s, t, from, "related-to", y, "t", Curated)
    ensures GraphSafety.NodesSound(hash, t) && t.nodes.Keys == s0.nodes.Keys + {from, x, y}
  {
  }

  ghost function TwoLinks(x: string, y: string): seq<Op> {
    [Observe(Endpoint("sample", "s"), "related-to", Endpoint("sample", x), "t"),
     Link(Endpoint("sample", "s"), "related-to", Endpoint("sample", y), "t")]
  }

  lemma TwoSteps(hash: Hash, s: Store, x: string, y: string)
    ensures Steps(hash, s, TwoLinks(x, y)) == Step(hash, Step(hash, s, TwoLinks(x, y)[0]), TwoLinks(x, y)[1])
  {
    var ops := TwoLinks(x, y);
    var t := Step(hash, s, ops[0]);
    assert ops[1..] == [ops[1]] && [ops[1]][1..] == [];
    assert Steps(hash, t, [ops[1]]) == Steps(hash, Step(hash, t, ops[1]), []);
  }

  lemma LinkStores(hash: Hash, s: Store, op: Op, a: Endpoint, rel: string, b: Endpoint, source: string, trust: Trust)
    requires op == if trust.Ingest? then Observe(a, rel, b, source) else Link(a, rel, b, source)
    requires GraphSafety.NodesSound(hash, s) && GraphSafety.WellFormedEdge(a, rel, b, source)
    requires GraphSafety.HasRoom(s, GraphSafety.EndId(hash, a))
    requires EdgeId(hash, GraphSafety.EndId(hash, a), rel, GraphSafety.EndId(hash, b)) !in s.edges
    ensures GraphSafety.EdgeStored(hash, s, Step(hash, s, op), GraphSafety.EndId(hash, a), rel,
                                   GraphSafety.EndId(hash, b),
                                   source, trust)
  {
    GraphSafety.NewEdgeIsStored(hash, s, a, rel, b, source, trust);
  }

  lemma SampleLinkStores(hash: Hash, s: Store, op: Op, key: string, trust: Trust)
    requires SampleKey(key)
    requires var a, b := Endpoint("sample", "s"), Endpoint("sample", key);
             op == if trust.Ingest? then Observe(a, "related-to", b, "t") else Link(a, "related-to", b, "t")
    requires GraphSafety.NodesSound(hash, s) && GraphSafety.HasRoom(s, NodeId(hash, "sample", "s"))
    requires EdgeId(hash, NodeId(hash, "sample", "s"), "related-to", NodeId(hash, "sample", key)) !in s.edges
    ensures GraphSafety.EdgeStored(hash, s, Step(hash, s, op), NodeId(hash, "sample", "s"),
                                   "related-to", NodeId(hash, "sample", key), "t", trust)
  {
    SampleS();
    LinkStores(hash, s, op, Endpoint("sample", "s"), "related-to", Endpoint("sample", key), "t", trust);
  }

  /** After the first of two edges there is room for the second. */
  lemma RoomForSecond(hash: Hash, s: Store, from: string, x: string, f: string)
    requires GraphSafety.EdgeStored(hash, Empty(0), s, from, "related-to", x, "t", Ingest)
    requires Before(EdgeId(hash, from, "related-to", x), f)
    ensures GraphSafety.NodesSound(hash, s) && GraphSafety.HasRoom(s, from) && f !in s.edges
  {
    var e := EdgeId(hash, from, "related-to", x);
    BeforeIsTotal(e, f);
    assert s.edges.Keys == {e} && Adjacent(s, from) == {e};
    assert |s.edges| == |s.edges.Keys|;
  }

  /** Two writes that store such a sample. */
  lemma TwoLinksStore(hash: Hash, x: string, y: string)
    requires SampleKey(x) && SampleKey(y)
    requires var from := NodeId(hash, "sample", "s");
             Before(EdgeId(hash, from, "related-to", NodeId(hash, "sample", x)),
                    EdgeId(hash, from, "related-to", NodeId(hash, "sample", y)))
    ensures var s, from := Steps(hash, Empty(0), TwoLinks(x, y)), NodeId(hash, "sample", "s");
            && GraphSafety.NodesSound(hash, s)
            && s.nodes.Keys == {from, NodeId(hash, "sample", x), NodeId(hash, "sample", y)}
            && TwoNeighbours(hash, s, from, NodeId(hash, "sample", x), NodeId(hash, "sample", y))
  {
    var from, to, to' := NodeId(hash, "sample", "s"), NodeId(hash, "sample", x), NodeId(hash, "sample", y);
    var s, t := Step(hash, Empty(0), TwoLinks(x, y)[0]), Steps(hash, Empty(0), TwoLinks(x, y));
    FirstLinkStores(hash, x, y);
    SecondLinkStores(hash, x, y, s);
    BothAreStored(hash, Empty(0), s, t, from, to, to');
  }

  lemma BothAreStored(hash: Hash, s0: Store, s: Store, t: Store, from: string, x: string, y: string)
    requires s0.edges == map[] && s0.outAdj == map[] && s0.nodes == map[]
    requires GraphSafety.EdgeStored(hash, s0, s, from, "related-to", x, "t", Ingest)
    requires GraphSafety.EdgeStored(hash, s, t, from, "related-to", y, "t", Curated)
    requires Before(EdgeId(hash, from, "related-to", x), EdgeId(hash, from, "related-to", y))
    ensures GraphSafety.NodesSound(hash, t) && t.nodes.Keys == {from, x, y} && TwoNeighbours(hash, t, from, x, y)
  {
    TwoEdgesAreStored(hash, s0, s, t, from, x, y);
    ThreeNodesAreStored(hash, s0, s, t, from, x, y);
  }

  lemma SecondLinkStores(hash: Hash, x: string, y: string, s: Store)
    requires SampleKey(y) && s == Step(hash, Empty(0), TwoLinks(x, y)[0])
    requires var from := NodeId(hash, "sample", "s");
             && GraphSafety.EdgeStored(hash, Empty(0), s, from, "related-to", NodeId(hash, "sample", x), "t", Ingest)
             && Before(EdgeId(hash, from, "related-to", NodeId(hash, "sample", x)),
                       EdgeId(hash, from, "related-to", NodeId(hash, "sample", y)))
    ensures GraphSafety.EdgeStored(hash, s, Steps(hash, Empty(0), TwoLinks(x, y)), NodeId(hash, "sample", "s"),
                                   "related-to", NodeId(hash, "sample", y), "t", Curated)
  {
    var from := NodeId(hash, "sample", "s");
    var to := NodeId(hash, "sample", y);
    RoomForSecond(hash, s, from, NodeId(hash, "sample", x), EdgeId(hash, from, "related-to", to));
    SampleLinkStores(hash, s, TwoLinks(x, y)[1], y, Curated);
    TwoSteps(hash, Empty(0), x, y);
  }

  lemma FirstLinkStores(hash: Hash, x: string, y: string)
    requires SampleKey(x)
    ensures GraphSafety.EdgeStored(hash, Empty(0), Step(hash, Empty(0), TwoLinks(x, y)[0]), NodeId(hash, "sample", "s"),
                                   "related-to", NodeId(hash, "sample", x), "t", Ingest)
  {
    SampleLinkStores(hash, Empty(0), TwoLinks(x, y)[0], x, Ingest);
  }

  lemma SamplesAreDistinct(hash: Hash, key: string, key': string)
    requires GraphSafety.GoodHash(hash) && key != key'
    ensures NodeId(hash, "sample", key) != NodeId(hash, "sample", key')
  {
    if NodeId(hash, "sample", key) == NodeId(hash, "sample", key') {
      GraphSafety.NodeIdIsInjective(hash, "sample", key, "sample", key');
    }
  }

  /** The edges of two distinct targets compare, one way or the other. */
  lemma EdgesCompare(hash: Hash, from: string, to: string, to': string)
    requires GraphSafety.GoodHash(hash) && GraphSafety.NulFree(from) && to != to'
    ensures var e, f := EdgeId(hash, from, "related-to", to), EdgeId(hash, from, "related-to", to');
            Before(e, f) || Before(f, e)
  {
    BeforeIsTotal(EdgeId(hash, from, "related-to", to), EdgeId(hash, from, "related-to", to'));
    if EdgeId(hash, from, "related-to", to) == EdgeId(hash, from, "related-to", to') {
      GraphSafety.EdgeIdIsInjective(hash, from, "related-to", to, from, "related-to", to');
    }
  }

  /** No query of depth and node cap one for the sample `s` reports `id`. */
  ghost predicate NeverReported(hash: Hash, s: Store, id: string) {
    forall res: TraversalResult, e: Reached ::
      RelatedIs(hash, s, "sample", "s", [], LimitsFor(1, 1), res) && e in res.reached ==> e.node.id != id
  }

  lemma SecondIsCrowdedOut(hash: Hash, s: Store, x: string, y: string)
    requires var from := NodeId(hash, "sample", "s");
             && GraphSafety.NodesSound(hash, s) && from in s.nodes && TwoNeighbours(hash, s, from, x, y)
             && x != y && x != from && y != from
    ensures NeverReported(hash, s, y)
  {
    var from := NodeId(hash, "sample", "s");
    SampleS();
    assert GraphSafety.NodeSound(hash, from, s.nodes[from]);
    forall res, e | RelatedIs(hash, s, "sample", "s", [], LimitsFor(1, 1), res) && e in res.reached
      ensures e.node.id != y
    {
      OnlyFirstIsReported(hash, s, s.nodes[from], x, y, res, e);
    }
  }

  /** An ingest edge can push a curated result out of the report: for every collision-free hash
      two writes store a graph in which the node `id` has a curated path of one hop, and no
      query for that sample with a depth and node cap of one reports it. */
  lemma NodeCapCrowdsOut(hash: Hash) returns (ops: seq<Op>, id: string)
    requires GraphSafety.GoodHash(hash)
    ensures var s := Steps(hash, Empty(0), ops);
            && id in s.nodes && CuratedPathExists(s, [], NodeId(hash, "sample", "s"), id, 1)
            && NeverReported(hash, s, id)
  {
    var from := NodeId(hash, "sample", "s");
    var x, y := "x", "y";
    assert "s" != "x" && "s" != "y" && "x" != "y";
    SamplesAreDistinct(hash, "s", "x");
    SamplesAreDistinct(hash, "s", "y");
    SamplesAreDistinct(hash, "x", "y");
    GraphSafety.HexIsNulFree(hash("n" + NUL + Joined("sample", "s")));
    EdgesCompare(hash, from, NodeId(hash, "sample", x), NodeId(hash, "sample", y));
    if !Before(EdgeId(hash, from, "related-to", NodeId(hash, "sample", x)),
               EdgeId(hash, from, "related-to", NodeId(hash, "sample", y))) {
      x, y := y, x;
    }
    ops := TwoLinks(x, y);
    id := NodeId(hash, "sample", y);
    SampleX();
    SampleY();
    TwoLinksStore(hash, x, y);
    SecondIsCurated(hash, Steps(hash, Empty(0), ops), from, NodeId(hash, "sample", x), id);
    SecondIsCrowdedOut(hash, Steps(hash, Empty(0), ops), NodeId(hash, "sample", x), id);
  }
}
