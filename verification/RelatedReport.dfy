/** What a reader of a query result may conclude, in terms of the stored edges: which nodes are
    listed, at which depth, in which order, and along which relations. */
module RelatedReport {
  import opened Pipeline
  import opened Order
  import opened Knowledge
  import opened Graph
  import opened GraphSafety
  import opened BoundedWalk
  import opened Traversal

  /** A stored edge leads from `u` to `w`, and its relation is one that was asked for. */
  ghost predicate Hop(s: Store, rels: seq<string>, u: string, w: string) {
    exists id :: id in s.edges && s.edges[id].from == u && s.edges[id].to == w
                 && (rels == [] || (s.edges[id].rel in rels && KnownRel(s.edges[id].rel)))
  }

  ghost predicate Route(s: Store, rels: seq<string>, p: seq<string>) {
    p != [] && forall i :: 0 <= i < |p| - 1 ==> Hop(s, rels, p[i], p[i + 1])
  }

  /** Some route of exactly `n` hops. */
  ghost predicate Leads(s: Store, rels: seq<string>, from: string, to: string, n: nat) {
    exists p :: Route(s, rels, p) && p[0] == from && p[|p| - 1] == to && |p| == n + 1
  }

  lemma StoredOutIsFrom(s: Store, u: string, id: string)
    requires IndexExact(s)
    ensures id in StoredOut(s, u) <==> id in s.edges && s.edges[id].from == u
  {
    assert id in Adjacent(s, u) <==> id in s.edges && s.edges[id].from == u;
  }

  lemma AskedFor(s: Store, rels: seq<string>, id: string)
    requires id in s.edges
    ensures Passes(Filter(AllowedRels(rels), |rels| > 0, false), s.edges[id]) <==>
            rels == [] || (s.edges[id].rel in rels && KnownRel(s.edges[id].rel))
  {
  }

  lemma HopIsAllowed(s: Store, rels: seq<string>, u: string, w: string)
    requires IndexExact(s)
    ensures Hop(s, rels, u, w) <==> w in AllEdges(s, rels)(u)
  {
    var f := Filter(AllowedRels(rels), |rels| > 0, false);
    OutElements(s, f, u, w);
    if Hop(s, rels, u, w) {
      var id :| id in s.edges && s.edges[id].from == u && s.edges[id].to == w
        && (rels == [] || (s.edges[id].rel in rels && KnownRel(s.edges[id].rel)));
      StoredOutIsFrom(s, u, id);
      AskedFor(s, rels, id);
    }
    if w in AllEdges(s, rels)(u) {
      var id :| id in StoredOut(s, u) && Passes(f, s.edges[id]) && s.edges[id].to == w;
      StoredOutIsFrom(s, u, id);
      AskedFor(s, rels, id);
    }
  }

  lemma RouteIsPath(s: Store, rels: seq<string>, p: seq<string>)
    requires IndexExact(s)
    ensures Route(s, rels, p) <==> IsPath(AllEdges(s, rels), p)
  {
    forall i | 0 <= i < |p| - 1
      ensures Hop(s, rels, p[i], p[i + 1]) <==> p[i + 1] in AllEdges(s, rels)(p[i])
    {
      HopIsAllowed(s, rels, p[i], p[i + 1]);
    }
  }

  lemma LeadsIsJoined(s: Store, rels: seq<string>, from: string, to: string, n: nat)
    requires IndexExact(s)
    ensures Leads(s, rels, from, to, n) <==> Joins(AllEdges(s, rels), from, to, n)
  {
    forall p: seq<string>
      ensures Route(s, rels, p) <==> IsPath(AllEdges(s, rels), p)
    {
      RouteIsPath(s, rels, p);
    }
  }

  lemma ShortestLeads(s: Store, rels: seq<string>, out: Adjacency, from: string, to: string, d: nat)
    requires IndexExact(s) && out == AllEdges(s, rels) && IsDistance(out, from, to, d)
    ensures Leads(s, rels, from, to, d) && forall n: nat :: n < d ==> !Leads(s, rels, from, to, n)
  {
    DistanceIsJoined(out, from, to, d);
    LeadsIsJoined(s, rels, from, to, d);
    forall n: nat | n < d
      ensures !Leads(s, rels, from, to, n)
    {
      NotJoinedBelow(out, from, to, d, n);
      LeadsIsJoined(s, rels, from, to, n);
    }
  }

  /** Every node listed is stored, within the depth limit, and its depth is the length of a
      shortest route to it along stored edges of the relations that were asked for. */
  lemma ListedAtShortestRoute(hash: Hash, s: Store, kind: string, key: string, rels: seq<string>, lim: Limits,
                              res: TraversalResult, start: Node, e: Reached)
    requires Sound(hash, s) && LookupNode(hash, s, kind, key) == Some(start)
    requires RelatedIs(hash, s, kind, key, rels, lim, res) && e in res.reached
    ensures e.node.id in s.nodes && s.nodes[e.node.id] == e.node && e.node.id != start.id
    ensures 0 < e.depth <= lim.depth && Leads(s, rels, start.id, e.node.id, e.depth)
    ensures forall n: nat :: n < e.depth ==> !Leads(s, rels, start.id, e.node.id, n)
  {
    var all, curated := Walk(AllEdges(s, rels), start.id, lim), Walk(CuratedEdges(s, rels), start.id, lim);
    ReportIsExact(s, hash, kind, key, rels, lim, res, start, e);
    var id :| id in all.depthOf && id in s.nodes && e == Reached(s.nodes[id], all.depthOf[id], id in curated.depthOf);
    assert NodeSound(hash, id, s.nodes[id]);
    WalkDistancesAreExact(AllEdges(s, rels), start.id, lim, id);
    ShortestLeads(s, rels, AllEdges(s, rels), start.id, id, e.depth);
  }

  /** When nothing was cut off, every stored node with a route of any length is listed. */
  lemma UncutListsEveryRoute(hash: Hash, s: Store, kind: string, key: string, rels: seq<string>, lim: Limits,
                             res: TraversalResult, start: Node, id: string, n: nat)
    requires Sound(hash, s) && LookupNode(hash, s, kind, key) == Some(start)
    requires RelatedIs(hash, s, kind, key, rels, lim, res) && !res.truncated
    requires id in s.nodes && id != start.id && Leads(s, rels, start.id, id, n)
    ensures exists e :: e in res.reached && e.node == s.nodes[id]
  {
    var all, curated := Walk(AllEdges(s, rels), start.id, lim), Walk(CuratedEdges(s, rels), start.id, lim);
    LeadsIsJoined(s, rels, start.id, id, n);
    JoinedIsWithin(AllEdges(s, rels), start.id, id, n);
    WalkFlagIsExact(AllEdges(s, rels), start.id, lim);
    assert Reachable(AllEdges(s, rels), start.id, id);
    var e := Reached(s.nodes[id], all.depthOf[id], id in curated.depthOf);
    ReportIsExact(s, hash, kind, key, rels, lim, res, start, e);
  }

  /** Asking only for relations that do not exist reaches nothing. */
  lemma UnknownRelationsReachNothing(hash: Hash, s: Store, kind: string, key: string, rels: seq<string>, lim: Limits,
                                     res: TraversalResult)
    requires Sound(hash, s) && RelatedIs(hash, s, kind, key, rels, lim, res)
    requires rels != [] && forall r :: r in rels ==> !KnownRel(r)
    ensures res.reached == []
  {
    var found := LookupNode(hash, s, kind, key);
    if found.Some? && res.reached != [] {
      var e := res.reached[0];
      ListedAtShortestRoute(hash, s, kind, key, rels, lim, res, found.value, e);
      NoRoute(s, rels, found.value.id, e.node.id, e.depth);
      assert false;
    }
  }

  lemma NoRoute(s: Store, rels: seq<string>, from: string, to: string, n: nat)
    requires rels != [] && (forall r :: r in rels ==> !KnownRel(r)) && n > 0
    ensures !Leads(s, rels, from, to, n)
  {
    forall p: seq<string> | |p| == n + 1
      ensures !Route(s, rels, p)
    {
      assert !Hop(s, rels, p[0], p[0 + 1]);
    }
  }

  // ---- The order of the report ----

  ghost predicate ListedInOrder(es: seq<Reached>) {
    forall i, j :: 0 <= i < j < |es| ==>
      es[i].depth < es[j].depth || (es[i].depth == es[j].depth && Before(es[i].node.id, es[j].node.id))
  }

  lemma {:induction false} ReportAscends(hash: Hash, s: Store, all: map<string, nat>, curated: map<string, nat>,
                                         ids: seq<string>)
    requires NodesSound(hash, s) && AscendingBy((a, b) => Earlier(all, a, b), ids)
    requires forall id :: id in ids ==> id in all
    ensures ListedInOrder(Report(s.nodes, all, curated, ids))
  {
    if ids != [] {
      var n := |ids| - 1;
      ReportAscends(hash, s, all, curated, ids[..n]);
      ReportEntries(s.nodes, all, curated, ids[..n]);
      if ids[n] in s.nodes {
        assert NodeSound(hash, ids[n], s.nodes[ids[n]]);
        var init := Report(s.nodes, all, curated, ids[..n]);
        forall k | 0 <= k < |init|
          ensures init[k].depth < all[ids[n]]
                  || (init[k].depth == all[ids[n]] && Before(init[k].node.id, ids[n]))
        {
          assert init[k] in init;
          var i :| 0 <= i < n && ids[..n][i] in s.nodes
            && init[k] == Reached(s.nodes[ids[..n][i]], DepthAt(all, ids[..n][i]), ids[..n][i] in curated);
          assert NodeSound(hash, ids[i], s.nodes[ids[i]]) && ids[i] in ids;
          assert Earlier(all, ids[i], ids[n]);
        }
      }
    }
  }

  /** The nearest come first, and at one depth the IDs ascend; so no node is listed twice. */
  lemma ListedNearestFirst(hash: Hash, s: Store, kind: string, key: string, rels: seq<string>, lim: Limits,
                           res: TraversalResult)
    requires Sound(hash, s) && RelatedIs(hash, s, kind, key, rels, lim, res)
    ensures ListedInOrder(res.reached)
  {
    var found := LookupNode(hash, s, kind, key);
    if found.Some? {
      var all := Walk(AllEdges(s, rels), found.value.id, lim).depthOf;
      var curated := Walk(CuratedEdges(s, rels), found.value.id, lim).depthOf;
      var ids :| InReportOrder(all, ids) && res.reached == Report(s.nodes, all, curated, ids);
      ReportAscends(hash, s, all, curated, ids);
    }
  }

  // ---- The defaults ----

  /** A query reports nothing beyond its depth and no more nodes than asked for, where nothing
      or less asks for four hops and five hundred nodes. */
  lemma QueryStaysWithin(hash: Hash, s: Store, kind: string, key: string, rels: seq<string>, maxDepth: int,
                         maxNodes: int, res: TraversalResult)
    requires Sound(hash, s) && RelatedIs(hash, s, kind, key, rels, LimitsFor(maxDepth, maxNodes), res)
    ensures forall e :: e in res.reached ==> e.depth <= if maxDepth > 0 then maxDepth else 4
    ensures |res.reached| <= if maxNodes > 0 then maxNodes else 500
  {
    var found, lim := LookupNode(hash, s, kind, key), LimitsFor(maxDepth, maxNodes);
    if found.Some? {
      forall e | e in res.reached
        ensures e.depth <= lim.depth
      {
        ListedAtShortestRoute(hash, s, kind, key, rels, lim, res, found.value, e);
      }
      var all := Walk(AllEdges(s, rels), found.value.id, lim).depthOf;
      var curated := Walk(CuratedEdges(s, rels), found.value.id, lim).depthOf;
      var ids :| InReportOrder(all, ids) && res.reached == Report(s.nodes, all, curated, ids);
      WalkDistancesAreExact(AllEdges(s, rels), found.value.id, lim, found.value.id);
      ReportIsShort(s.nodes, all, curated, ids);
      EarlierIsStrictOrder(all);
      AscendingIsNoLonger((a, b) => Earlier(all, a, b), ids, all.Keys);
    }
  }

  lemma {:induction false} ReportIsShort(nodes: map<string, Node>, all: map<string, nat>, curated: map<string, nat>,
                                         ids: seq<string>)
    ensures |Report(nodes, all, curated, ids)| <= |ids|
  {
    if ids != [] {
      ReportIsShort(nodes, all, curated, ids[..|ids| - 1]);
    }
  }

  lemma {:induction false} AscendingIsNoLonger(less: (string, string) -> bool, ids: seq<string>, keys: set<string>)
    requires StrictOrder(less) && AscendingBy(less, ids) && forall id :: id in ids ==> id in keys
    ensures |ids| <= |keys|
    decreases |ids|
  {
    if ids != [] {
      var n := |ids| - 1;
      forall id | id in ids[..n]
        ensures id in keys - {ids[n]}
      {
        var i :| 0 <= i < n && ids[i] == id;
        assert less(ids[i], ids[n]);
      }
      AscendingIsNoLonger(less, ids[..n], keys - {ids[n]});
    }
  }

  /** Limits left open stand for four hops and five hundred nodes, limits that are set for
      themselves, and the edge budget is always the same. */
  lemma DefaultsAre()
    ensures LimitsFor(0, 0) == Limits(4, 500, 100_000)
    ensures forall d: int, n: int :: d > 0 && n > 0 ==> LimitsFor(d, n) == Limits(d, n, 100_000)
    ensures forall d: int, n: int :: d <= 0 && n <= 0 ==> LimitsFor(d, n) == LimitsFor(0, 0)
  {
  }
}
