/** What every run of graph writes keeps, whether the writes succeed or are refused. */
module GraphSafety {
  import opened Pipeline
  import opened Order
  import opened Text
  import opened Knowledge
  import opened Graph

  // ---- The identifiers separate what they should ----

  /** The idealised digest: hexadecimal and free of collisions. */
  ghost predicate GoodHash(hash: Hash) {
    && (forall a :: IsHex(hash(a)))
    && (forall a, b :: hash(a) == hash(b) ==> a == b)
  }

  predicate NulFree(s: string) {
    forall i :: 0 <= i < |s| ==> s[i] != '\0'
  }

  /** The separator makes the hashed encodings injective. */
  lemma SeparatorSplits(a: string, b: string, c: string, d: string)
    requires NulFree(a) && NulFree(c) && Joined(a, b) == Joined(c, d)
    ensures a == c && b == d
  {
    var x, y := Joined(a, b), Joined(c, d);
    assert x[|a|] == '\0' && y[|c|] == '\0';
    assert forall i :: 0 <= i < |a| ==> x[i] == a[i] != '\0';
    assert forall i :: 0 <= i < |c| ==> y[i] == c[i] != '\0';
    assert |a| == |c|;
    assert x[..|a|] == a && y[..|c|] == c && x[|a| + 1..] == b && y[|c| + 1..] == d;
  }

  lemma TagSplits(tag: string, x: string, y: string)
    requires tag + x == tag + y
    ensures x == y
  {
    assert (tag + x)[|tag|..] == x && (tag + y)[|tag|..] == y;
  }

  lemma HexIsNulFree(s: string)
    requires IsHex(s)
    ensures NulFree("kn_" + s)
  {
  }

  lemma KnownNamesAreNulFree(name: string)
    requires KnownKind(name) || KnownRel(name)
    ensures NulFree(name)
  {
  }

  lemma NodeIdIsInjective(hash: Hash, kind: string, key: string, kind': string, key': string)
    requires GoodHash(hash) && KnownKind(kind) && KnownKind(kind')
    requires NodeId(hash, kind, key) == NodeId(hash, kind', key')
    ensures kind == kind' && key == key'
  {
    var x, y := Joined(kind, key), Joined(kind', key');
    TagSplits("kn_", hash("n" + NUL + x), hash("n" + NUL + y));
    TagSplits("n" + NUL, x, y);
    KnownNamesAreNulFree(kind);
    KnownNamesAreNulFree(kind');
    SeparatorSplits(kind, key, kind', key');
  }

  lemma EdgeIdIsInjective(hash: Hash, from: string, rel: string, to: string, from': string, rel': string, to': string)
    requires GoodHash(hash) && NulFree(from) && NulFree(from') && KnownRel(rel) && KnownRel(rel')
    requires EdgeId(hash, from, rel, to) == EdgeId(hash, from', rel', to')
    ensures from == from' && rel == rel' && to == to'
  {
    var x, y := Joined(from, Joined(rel, to)), Joined(from', Joined(rel', to'));
    TagSplits("ke_", hash("e" + NUL + x), hash("e" + NUL + y));
    TagSplits("e" + NUL, x, y);
    SeparatorSplits(from, Joined(rel, to), from', Joined(rel', to'));
    KnownNamesAreNulFree(rel);
    KnownNamesAreNulFree(rel');
    SeparatorSplits(rel, to, rel', to');
  }

  // ---- The invariant ----

  ghost predicate NodeSound(hash: Hash, id: string, n: Node) {
    && n.id == id == NodeId(hash, n.kind, n.key)
    && KnownKind(n.kind) && ValidNodeKey(n.key)
  }

  ghost predicate NodesSound(hash: Hash, s: Store) {
    forall id :: id in s.nodes ==> NodeSound(hash, id, s.nodes[id])
  }

  ghost predicate EdgeSound(hash: Hash, s: Store, id: string, e: Edge) {
    && e.id == id == EdgeId(hash, e.from, e.rel, e.to)
    && KnownRel(e.rel) && e.from in s.nodes && e.to in s.nodes
  }

  /** No edge ever dangles. */
  ghost predicate EdgesSound(hash: Hash, s: Store) {
    forall id :: id in s.edges ==> EdgeSound(hash, s, id, s.edges[id])
  }

  /** The index lists an edge under `from` exactly when it is stored and leaves `from`. */
  ghost predicate IndexExact(s: Store) {
    forall from, id :: id in Adjacent(s, from) <==> id in s.edges && s.edges[id].from == from
  }

  ghost function IngestNodes(s: Store): set<string> {
    set id | id in s.nodes && s.nodes[id].trust.Ingest?
  }

  ghost function IngestEdges(s: Store): set<string> {
    set id | id in s.edges && s.edges[id].trust.Ingest?
  }

  ghost function IngestOut(s: Store, from: string): set<string> {
    set id | id in s.edges && s.edges[id].trust.Ingest? && s.edges[id].from == from
  }

  ghost predicate CapsHold(s: Store) {
    && |IngestNodes(s)| <= s.max && |IngestEdges(s)| <= s.max
    && forall from :: |IngestOut(s, from)| <= MAX_INGEST_OUT_DEGREE
  }

  ghost predicate Sound(hash: Hash, s: Store) {
    NodesSound(hash, s) && EdgesSound(hash, s) && IndexExact(s) && CapsHold(s)
  }

  // ---- Node writes ----

  /** A node merge under the tier rule leaves the store alone or writes `incoming` at `id`. */
  lemma MergeNodeCases(s: Store, id: string, incoming: Node, onlyIfAbsent: bool)
    ensures var (s', r) := MergeNodeIn(s, id, NodeDecision(incoming, onlyIfAbsent));
            if s' == s then
              r.Ok? ==> id in s.nodes && r.value == s.nodes[id]
            else
              && r == Ok(incoming) && s' == s.(nodes := s.nodes[id := incoming])
              && (incoming.trust.Ingest? ==> if id in s.nodes then s.nodes[id].trust.Ingest? else |s.nodes| < s.max)
  {
  }

  lemma NodeWriteKeepsCap(s: Store, id: string, n: Node)
    requires |IngestNodes(s)| <= s.max
    requires n.trust.Ingest? ==> if id in s.nodes then s.nodes[id].trust.Ingest? else |s.nodes| < s.max
    ensures |IngestNodes(s.(nodes := s.nodes[id := n]))| <= s.max
  {
    var s' := s.(nodes := s.nodes[id := n]);
    if n.trust.Ingest? && id !in s.nodes {
      assert |s.nodes.Keys| == |s.nodes|;
      SubsetIsNoLarger(IngestNodes(s'), s.nodes.Keys + {id});
    } else {
      SubsetIsNoLarger(IngestNodes(s'), IngestNodes(s));
    }
  }

  lemma NodeWriteKeepsRest(hash: Hash, s: Store, id: string, n: Node)
    requires Sound(hash, s) && NodeSound(hash, id, n)
    ensures var s' := s.(nodes := s.nodes[id := n]);
            NodesSound(hash, s') && EdgesSound(hash, s') && IndexExact(s')
  {
    NodeWriteIsSound(hash, s, id, n);
    NodeWriteKeepsEdges(hash, s, id, n);
    NodeWriteKeepsIndex(s, id, n);
  }

  lemma NodeWriteKeepsEdges(hash: Hash, s: Store, id: string, n: Node)
    requires EdgesSound(hash, s)
    ensures EdgesSound(hash, s.(nodes := s.nodes[id := n]))
  {
    var s' := s.(nodes := s.nodes[id := n]);
    forall e | e in s'.edges
      ensures EdgeSound(hash, s', e, s'.edges[e])
    {
      assert EdgeSound(hash, s, e, s.edges[e]);
    }
  }

  lemma NodeWriteKeepsIndex(s: Store, id: string, n: Node)
    requires IndexExact(s)
    ensures IndexExact(s.(nodes := s.nodes[id := n]))
  {
    var s' := s.(nodes := s.nodes[id := n]);
    forall from, e
      ensures e in Adjacent(s', from) <==> e in s'.edges && s'.edges[e].from == from
    {
      assert Adjacent(s', from) == Adjacent(s, from);
    }
  }

  lemma NodeWriteKeepsEdgeCaps(s: Store, id: string, n: Node)
    requires CapsHold(s)
    ensures var s' := s.(nodes := s.nodes[id := n]);
            |IngestEdges(s')| <= s'.max && forall from :: |IngestOut(s', from)| <= MAX_INGEST_OUT_DEGREE
  {
    var s' := s.(nodes := s.nodes[id := n]);
    assert IngestEdges(s') == IngestEdges(s);
    assert forall from :: IngestOut(s', from) == IngestOut(s, from);
  }

  lemma PutNodeKeepsSound(hash: Hash, s: Store, kind: string, key: string, title: string, attrs: map<string, string>,
                          source: string, trust: Trust, onlyIfAbsent: bool)
    requires Sound(hash, s)
    ensures Sound(hash, PutNode(hash, s, kind, key, title, attrs, source, trust, onlyIfAbsent).0)
  {
    if NodeProblem(kind, key, title, attrs, source).None? {
      var n := IncomingNode(hash, kind, key, title, attrs, source, trust);
      MergeNodeCases(s, n.id, n, onlyIfAbsent);
      if MergeNodeIn(s, n.id, NodeDecision(n, onlyIfAbsent)).0 != s {
        NodeWriteKeepsCap(s, n.id, n);
        NodeWriteKeepsRest(hash, s, n.id, n);
        NodeWriteKeepsEdgeCaps(s, n.id, n);
      }
    }
  }

  /** An endpoint that was ensured is stored, under the ID of its kind and canonical key,
      and only nodes were touched. */
  lemma PutNodeReturnsStored(hash: Hash, s: Store, kind: string, key: string, title: string, attrs: map<string, string>,
                             source: string, trust: Trust, onlyIfAbsent: bool)
    requires NodesSound(hash, s)
    ensures var (s', r) := PutNode(hash, s, kind, key, title, attrs, source, trust, onlyIfAbsent);
            && s' == s.(nodes := s'.nodes) && s.nodes.Keys <= s'.nodes.Keys
            && (r.Ok? ==> r.value.id in s'.nodes && s'.nodes[r.value.id] == r.value
                          && r.value.id == NodeId(hash, kind, NormalizeNodeKey(kind, key)))
  {
    if NodeProblem(kind, key, title, attrs, source).None? {
      var n := IncomingNode(hash, kind, key, title, attrs, source, trust);
      MergeNodeCases(s, n.id, n, onlyIfAbsent);
    }
  }

  // ---- Edge writes ----

  lemma MergeEdgeCases(s: Store, id: string, incoming: Edge)
    ensures var (s', r) := MergeEdgeIn(s, id, EdgeDecision(incoming));
            s' == s || (r == Ok(incoming) && s' == EdgeWritten(s, id, incoming) && EdgeAdmitted(s, id, incoming))
  {
  }

  ghost function EdgeWritten(s: Store, id: string, e: Edge): Store {
    s.(edges := s.edges[id := e], outAdj := s.outAdj[e.from := Adjacent(s, e.from) + {id}])
  }

  lemma StoredIdsAreNulFree(hash: Hash, s: Store, id: string)
    requires GoodHash(hash) && NodesSound(hash, s) && id in s.nodes
    ensures NulFree(id)
  {
    var n := s.nodes[id];
    assert NodeSound(hash, id, n);
    HexIsNulFree(hash("n" + NUL + Joined(n.kind, n.key)));
  }

  /** The index stays exact because an edge ID determines the node it leaves. */
  lemma EdgeWriteKeepsIndex(hash: Hash, s: Store, id: string, e: Edge)
    requires GoodHash(hash) && NodesSound(hash, s) && EdgesSound(hash, s) && IndexExact(s)
    requires EdgeSound(hash, s, id, e)
    ensures IndexExact(EdgeWritten(s, id, e))
  {
    SameIdSameSource(hash, s, id, e);
    var s' := EdgeWritten(s, id, e);
    forall from, x
      ensures x in Adjacent(s', from) <==> x in s'.edges && s'.edges[x].from == from
    {
      assert x in Adjacent(s, from) <==> x in s.edges && s.edges[x].from == from;
    }
  }

  lemma EdgeWriteKeepsEdges(hash: Hash, s: Store, id: string, e: Edge)
    requires NodesSound(hash, s) && EdgesSound(hash, s) && EdgeSound(hash, s, id, e)
    ensures NodesSound(hash, EdgeWritten(s, id, e)) && EdgesSound(hash, EdgeWritten(s, id, e))
  {
    var s' := EdgeWritten(s, id, e);
    forall x | x in s'.edges
      ensures EdgeSound(hash, s', x, s'.edges[x])
    {
      if x != id {
        assert EdgeSound(hash, s, x, s.edges[x]);
      }
    }
  }

  ghost predicate EdgeAdmitted(s: Store, id: string, e: Edge) {
    e.trust.Ingest? ==>
      if id in s.edges then s.edges[id].trust.Ingest?
      else |s.edges| < s.max && |Adjacent(s, e.from)| < MAX_INGEST_OUT_DEGREE
  }

  lemma EdgeWriteKeepsEdgeCap(s: Store, id: string, e: Edge)
    requires |IngestEdges(s)| <= s.max && EdgeAdmitted(s, id, e)
    ensures |IngestEdges(EdgeWritten(s, id, e))| <= s.max
  {
    var s' := EdgeWritten(s, id, e);
    if e.trust.Ingest? && id !in s.edges {
      assert |s.edges.Keys| == |s.edges|;
      SubsetIsNoLarger(IngestEdges(s'), s.edges.Keys + {id});
    } else {
      SubsetIsNoLarger(IngestEdges(s'), IngestEdges(s));
    }
  }

  lemma EdgeWriteKeepsDegree(s: Store, id: string, e: Edge, from: string)
    requires IndexExact(s) && EdgeAdmitted(s, id, e)
    requires |IngestOut(s, from)| <= MAX_INGEST_OUT_DEGREE
    requires id in s.edges ==> s.edges[id].from == e.from
    ensures |IngestOut(EdgeWritten(s, id, e), from)| <= MAX_INGEST_OUT_DEGREE
  {
    var s' := EdgeWritten(s, id, e);
    if e.trust.Ingest? && id !in s.edges && from == e.from {
      forall x | x in IngestOut(s', from)
        ensures x in Adjacent(s, from) + {id}
      {
        assert x != id ==> x in s.edges && s.edges[x].from == from;
      }
      SubsetIsNoLarger(IngestOut(s', from), Adjacent(s, from) + {id});
    } else {
      SubsetIsNoLarger(IngestOut(s', from), IngestOut(s, from));
    }
  }

  lemma EdgeWriteKeepsSound(hash: Hash, s: Store, id: string, e: Edge)
    requires GoodHash(hash) && Sound(hash, s) && EdgeSound(hash, s, id, e) && EdgeAdmitted(s, id, e)
    ensures Sound(hash, EdgeWritten(s, id, e))
  {
    EdgeWriteKeepsIndex(hash, s, id, e);
    EdgeWriteKeepsEdges(hash, s, id, e);
    EdgeWriteKeepsEdgeCap(s, id, e);
    var s' := EdgeWritten(s, id, e);
    assert IngestNodes(s') == IngestNodes(s);
    SameIdSameSource(hash, s, id, e);
    forall from
      ensures |IngestOut(s', from)| <= MAX_INGEST_OUT_DEGREE
    {
      EdgeWriteKeepsDegree(s, id, e, from);
    }
  }

  lemma SameIdSameSource(hash: Hash, s: Store, id: string, e: Edge)
    requires GoodHash(hash) && NodesSound(hash, s) && EdgesSound(hash, s) && EdgeSound(hash, s, id, e)
    ensures id in s.edges ==> s.edges[id].from == e.from
  {
    if id in s.edges {
      var was := s.edges[id];
      assert EdgeSound(hash, s, id, was);
      StoredIdsAreNulFree(hash, s, e.from);
      StoredIdsAreNulFree(hash, s, was.from);
      EdgeIdIsInjective(hash, e.from, e.rel, e.to, was.from, was.rel, was.to);
    }
  }

  lemma PutEdgeBetweenKeepsSound(hash: Hash, s: Store, from: string, rel: string, to: string, source: string,
                                 trust: Trust)
    requires GoodHash(hash) && Sound(hash, s) && KnownRel(rel) && from in s.nodes && to in s.nodes
    ensures Sound(hash, PutEdgeBetween(hash, s, from, rel, to, source, trust).0)
  {
    var id := EdgeId(hash, from, rel, to);
    var e := Edge(id, from, to, rel, trust, source);
    MergeEdgeCases(s, id, e);
    if MergeEdgeIn(s, id, EdgeDecision(e)).0 != s {
      EdgeWriteKeepsSound(hash, s, id, e);
    }
  }

  lemma PutEndKeepsSound(hash: Hash, s: Store, end: Endpoint, source: string, trust: Trust)
    requires Sound(hash, s)
    ensures var (s', r) := PutEnd(hash, s, end, source, trust);
            && Sound(hash, s') && s.nodes.Keys <= s'.nodes.Keys
            && (r.Ok? ==> r.value.id in s'.nodes)
  {
    PutNodeKeepsSound(hash, s, end.kind, end.key, "", map[], source, trust, true);
    PutNodeReturnsStored(hash, s, end.kind, end.key, "", map[], source, trust, true);
  }

  lemma PutEdgeToKeepsSound(hash: Hash, s: Store, from: string, rel: string, b: Endpoint, source: string, trust: Trust)
    requires GoodHash(hash) && Sound(hash, s) && KnownRel(rel) && from in s.nodes
    ensures Sound(hash, PutEdgeTo(hash, s, from, rel, b, source, trust).0)
  {
    PutEndKeepsSound(hash, s, b, source, trust);
    var (s', to) := PutEnd(hash, s, b, source, trust);
    if to.Ok? {
      PutEdgeBetweenKeepsSound(hash, s', from, rel, to.value.id, source, trust);
      assert PutEdgeTo(hash, s, from, rel, b, source, trust) ==
             PutEdgeBetween(hash, s', from, rel, to.value.id, source, trust);
    } else {
      assert PutEdgeTo(hash, s, from, rel, b, source, trust).0 == s';
    }
  }

  lemma PutEdgeKeepsSound(hash: Hash, s: Store, a: Endpoint, rel: string, b: Endpoint, source: string, trust: Trust)
    requires GoodHash(hash) && Sound(hash, s)
    ensures Sound(hash, PutEdge(hash, s, a, rel, b, source, trust).0)
  {
    PutEndKeepsSound(hash, s, a, source, trust);
    var (s', from) := PutEnd(hash, s, a, source, trust);
    if ValidEdgeText(rel, source) && from.Ok? {
      PutEdgeToKeepsSound(hash, s', from.value.id, rel, b, source, trust);
    }
  }

  lemma StepKeepsSound(hash: Hash, s: Store, op: Op)
    requires GoodHash(hash) && Sound(hash, s)
    ensures Sound(hash, Step(hash, s, op))
  {
    match op
    case AddNode(kind, key, title, attrs, source) =>
      PutNodeKeepsSound(hash, s, kind, key, title, attrs, source, Curated, false);
    case ObserveNode(kind, key, title, source) =>
      PutNodeKeepsSound(hash, s, kind, key, title, map[], source, Ingest, false);
    case Link(a, rel, b, source) => PutEdgeKeepsSound(hash, s, a, rel, b, source, Curated);
    case Observe(a, rel, b, source) => PutEdgeKeepsSound(hash, s, a, rel, b, source, Ingest);
  }

  lemma {:induction false} StepsKeepSound(hash: Hash, s: Store, ops: seq<Op>)
    requires GoodHash(hash) && Sound(hash, s)
    ensures Sound(hash, Steps(hash, s, ops))
    decreases |ops|
  {
    if ops != [] {
      StepKeepsSound(hash, s, ops[0]);
      StepsKeepSound(hash, Step(hash, s, ops[0]), ops[1..]);
    }
  }

  /** Every run from an empty store keeps the caps, the exact index and dangling-free edges. */
  lemma RunsAreSound(hash: Hash, max: int, ops: seq<Op>)
    requires GoodHash(hash)
    ensures Sound(hash, Steps(hash, Empty(max), ops))
  {
    var s := Empty(max);
    assert IngestNodes(s) == {} && IngestEdges(s) == {};
    assert forall from :: IngestOut(s, from) == {};
    StepsKeepSound(hash, s, ops);
  }

  // ---- Trust never drops, and only ingest is ever refused ----

  /** From `s` to `t` nothing stored is lost, and nothing curated turns ingest. */
  ghost predicate TrustKept(s: Store, t: Store) {
    && (forall id :: id in s.nodes ==> id in t.nodes && (s.nodes[id].trust.Curated? ==> t.nodes[id].trust.Curated?))
    && (forall id :: id in s.edges ==> id in t.edges && (s.edges[id].trust.Curated? ==> t.edges[id].trust.Curated?))
  }

  /** From `s` to `t` the curated tier is untouched, entry for entry. */
  ghost predicate CuratedSame(s: Store, t: Store) {
    && (forall id :: id in s.nodes && s.nodes[id].trust.Curated? ==> id in t.nodes && t.nodes[id] == s.nodes[id])
    && (forall id :: id in t.nodes && t.nodes[id].trust.Curated? ==> id in s.nodes && t.nodes[id] == s.nodes[id])
    && (forall id :: id in s.edges && s.edges[id].trust.Curated? ==> id in t.edges && t.edges[id] == s.edges[id])
    && (forall id :: id in t.edges && t.edges[id].trust.Curated? ==> id in s.edges && t.edges[id] == s.edges[id])
  }

  lemma PutNodeTrust(hash: Hash, s: Store, kind: string, key: string, title: string, attrs: map<string, string>,
                     source: string, trust: Trust, onlyIfAbsent: bool)
    ensures var t := PutNode(hash, s, kind, key, title, attrs, source, trust, onlyIfAbsent).0;
            TrustKept(s, t) && (trust.Ingest? ==> CuratedSame(s, t))
  {
    if NodeProblem(kind, key, title, attrs, source).None? {
      var n := IncomingNode(hash, kind, key, title, attrs, source, trust);
      MergeNodeTrust(s, n.id, n, onlyIfAbsent);
    }
  }

  lemma MergeNodeTrust(s: Store, id: string, n: Node, onlyIfAbsent: bool)
    ensures var t := MergeNodeIn(s, id, NodeDecision(n, onlyIfAbsent)).0;
            TrustKept(s, t) && (n.trust.Ingest? ==> CuratedSame(s, t))
  {
    MergeNodeCases(s, id, n, onlyIfAbsent);
  }

  lemma MergeEdgeTrust(s: Store, id: string, e: Edge)
    ensures var t := MergeEdgeIn(s, id, EdgeDecision(e)).0;
            TrustKept(s, t) && (e.trust.Ingest? ==> CuratedSame(s, t))
  {
    MergeEdgeCases(s, id, e);
  }

  lemma TrustComposes(s: Store, t: Store, u: Store)
    ensures TrustKept(s, t) && TrustKept(t, u) ==> TrustKept(s, u)
    ensures CuratedSame(s, t) && CuratedSame(t, u) ==> CuratedSame(s, u)
  {
  }

  lemma PutEdgeToTrust(hash: Hash, s: Store, from: string, rel: string, b: Endpoint, source: string, trust: Trust)
    ensures var t := PutEdgeTo(hash, s, from, rel, b, source, trust).0;
            TrustKept(s, t) && (trust.Ingest? ==> CuratedSame(s, t))
  {
    var (s', to) := PutEnd(hash, s, b, source, trust);
    PutNodeTrust(hash, s, b.kind, b.key, "", map[], source, trust, true);
    if to.Ok? {
      var id := EdgeId(hash, from, rel, to.value.id);
      MergeEdgeTrust(s', id, Edge(id, from, to.value.id, rel, trust, source));
      TrustComposes(s, s', PutEdgeBetween(hash, s', from, rel, to.value.id, source, trust).0);
    }
  }

  lemma PutEdgeTrust(hash: Hash, s: Store, a: Endpoint, rel: string, b: Endpoint, source: string, trust: Trust)
    ensures var t := PutEdge(hash, s, a, rel, b, source, trust).0;
            TrustKept(s, t) && (trust.Ingest? ==> CuratedSame(s, t))
  {
    if ValidEdgeText(rel, source) {
      var (s', from) := PutEnd(hash, s, a, source, trust);
      PutNodeTrust(hash, s, a.kind, a.key, "", map[], source, trust, true);
      if from.Ok? {
        PutEdgeToTrust(hash, s', from.value.id, rel, b, source, trust);
        TrustComposes(s, s', PutEdge(hash, s, a, rel, b, source, trust).0);
      }
    }
  }

  lemma StepTrust(hash: Hash, s: Store, op: Op)
    ensures TrustKept(s, Step(hash, s, op))
    ensures IsIngest(op) ==> CuratedSame(s, Step(hash, s, op))
  {
    match op
    case AddNode(kind, key, title, attrs, source) =>
      PutNodeTrust(hash, s, kind, key, title, attrs, source, Curated, false);
    case ObserveNode(kind, key, title, source) =>
      PutNodeTrust(hash, s, kind, key, title, map[], source, Ingest, false);
    case Link(a, rel, b, source) => PutEdgeTrust(hash, s, a, rel, b, source, Curated);
    case Observe(a, rel, b, source) => PutEdgeTrust(hash, s, a, rel, b, source, Ingest);
  }

  /** Over every run, with any hash at all: nothing is lost and no trust drops; and if the
      run only ingests, the curated tier comes out exactly as it went in. */
  lemma {:induction false} RunsKeepTrust(hash: Hash, s: Store, ops: seq<Op>)
    ensures TrustKept(s, Steps(hash, s, ops))
    ensures (forall i :: 0 <= i < |ops| ==> IsIngest(ops[i])) ==> CuratedSame(s, Steps(hash, s, ops))
    decreases |ops|
  {
    if ops != [] {
      var t := Step(hash, s, ops[0]);
      StepTrust(hash, s, ops[0]);
      RunsKeepTrust(hash, t, ops[1..]);
      TrustComposes(s, t, Steps(hash, t, ops[1..]));
    }
  }

  /** Exactly when a node write is refused: a malformed input, or a new ingest node at
      capacity. A curated write is never refused by a cap. */
  lemma NodeRefusals(hash: Hash, s: Store, kind: string, key: string, title: string, attrs: map<string, string>,
                     source: string, trust: Trust, onlyIfAbsent: bool)
    ensures var id := NodeId(hash, kind, NormalizeNodeKey(kind, key));
            PutNode(hash, s, kind, key, title, attrs, source, trust, onlyIfAbsent).1.Ok? <==>
            && NodeProblem(kind, key, title, attrs, source).None?
            && (trust.Curated? || id in s.nodes || |s.nodes| < s.max)
  {
  }

  ghost predicate WellFormedEdge(a: Endpoint, rel: string, b: Endpoint, source: string) {
    && ValidEdgeText(rel, source)
    && NodeProblem(a.kind, a.key, "", map[], source).None?
    && NodeProblem(b.kind, b.key, "", map[], source).None?
  }

  ghost function EndId(hash: Hash, end: Endpoint): string {
    NodeId(hash, end.kind, NormalizeNodeKey(end.kind, end.key))
  }

  /** A curated relation is stored exactly when it is well formed, whatever the store holds. */
  lemma CuratedEdgeRefusals(hash: Hash, s: Store, a: Endpoint, rel: string, b: Endpoint, source: string)
    requires NodesSound(hash, s)
    ensures var (t, r) := PutEdge(hash, s, a, rel, b, source, Curated);
            && (r.Ok? <==> WellFormedEdge(a, rel, b, source))
            && (r.Ok? ==> var id := EdgeId(hash, EndId(hash, a), rel, EndId(hash, b));
                          && id in t.edges
                          && t.edges[id] == Edge(id, EndId(hash, a), EndId(hash, b), rel, Curated, source))
  {
    if ValidEdgeText(rel, source) {
      NodeRefusals(hash, s, a.kind, a.key, "", map[], source, Curated, true);
      PutNodeReturnsStored(hash, s, a.kind, a.key, "", map[], source, Curated, true);
      var (s1, from) := PutEnd(hash, s, a, source, Curated);
      if from.Ok? {
        NodeRefusals(hash, s1, b.kind, b.key, "", map[], source, Curated, true);
        PutNodeKeepsNodes(hash, s, a, source);
        PutNodeReturnsStored(hash, s1, b.kind, b.key, "", map[], source, Curated, true);
      }
    }
  }

  lemma PutNodeKeepsNodes(hash: Hash, s: Store, end: Endpoint, source: string)
    requires NodesSound(hash, s)
    ensures NodesSound(hash, PutEnd(hash, s, end, source, Curated).0)
  {
    if NodeProblem(end.kind, end.key, "", map[], source).None? {
      var n := IncomingNode(hash, end.kind, end.key, "", map[], source, Curated);
      MergeNodeCases(s, n.id, n, true);
    }
  }

  /** A node added is found again by any key of the same canonical form, and no other entity
      is affected. */
  lemma AddedIsFound(hash: Hash, s: Store, kind: string, key: string, title: string, attrs: map<string, string>,
                     source: string, kind': string, key': string)
    requires GoodHash(hash)
    requires NodeProblem(kind, key, title, attrs, source).None?
    ensures var t := Step(hash, s, AddNode(kind, key, title, attrs, source));
            LookupNode(hash, t, kind', key') ==
            if kind' == kind && NormalizeNodeKey(kind, key') == NormalizeNodeKey(kind, key)
            then Some(IncomingNode(hash, kind, key, title, attrs, source, Curated))
            else LookupNode(hash, s, kind', key')
  {
    var n := IncomingNode(hash, kind, key, title, attrs, source, Curated);
    MergeNodeCases(s, n.id, n, false);
    assert Step(hash, s, AddNode(kind, key, title, attrs, source)).nodes == s.nodes[n.id := n];
    if KnownKind(kind') && NodeId(hash, kind', NormalizeNodeKey(kind', key')) == n.id {
      NodeIdIsInjective(hash, kind', NormalizeNodeKey(kind', key'), kind, NormalizeNodeKey(kind, key));
    }
  }

  // ---- A refused relation is not always a no-op ----

  /** The endpoint is well formed and admitted, and not stored yet: ensuring it writes it. */
  ghost predicate EndIsWritten(hash: Hash, s: Store, end: Endpoint, source: string, trust: Trust) {
    && NodeProblem(end.kind, end.key, "", map[], source).None?
    && EndId(hash, end) !in s.nodes
    && (trust.Curated? || |s.nodes| < s.max)
  }

  ghost predicate EndIsRefused(hash: Hash, s: Store, end: Endpoint, source: string, trust: Trust) {
    || NodeProblem(end.kind, end.key, "", map[], source).Some?
    || (EndId(hash, end) !in s.nodes && trust.Ingest? && |s.nodes| >= s.max)
  }

  lemma PutEndCases(hash: Hash, s: Store, end: Endpoint, source: string, trust: Trust)
    ensures var (t, r) := PutEnd(hash, s, end, source, trust);
            && (r.Err? <==> EndIsRefused(hash, s, end, source, trust))
            && (t != s <==> EndIsWritten(hash, s, end, source, trust))
            && (EndIsWritten(hash, s, end, source, trust) ==> EndId(hash, end) in t.nodes)
  {
    NodeRefusals(hash, s, end.kind, end.key, "", map[], source, trust, true);
    if NodeProblem(end.kind, end.key, "", map[], source).None? {
      var n := IncomingNode(hash, end.kind, end.key, "", map[], source, trust);
      assert n.id == EndId(hash, end);
      assert n.id in s.nodes[n.id := n];
    }
  }

  lemma PutEdgeToRefused(hash: Hash, s: Store, from: string, rel: string, b: Endpoint, source: string, trust: Trust)
    requires PutEdgeTo(hash, s, from, rel, b, source, trust).1.Err?
    ensures PutEdgeTo(hash, s, from, rel, b, source, trust).0 == PutEnd(hash, s, b, source, trust).0
  {
  }

  /** When a relation is refused, the store is as it was if and only if its text was bad, or
      ensuring the first endpoint wrote nothing and, unless that endpoint was itself refused,
      ensuring the second one would write nothing either. In all other cases an endpoint of
      the refused relation stays behind. */
  lemma RefusedLinkIsNoOpExactly(hash: Hash, s: Store, a: Endpoint, rel: string, b: Endpoint, source: string,
                                 trust: Trust)
    ensures var (t, r) := PutEdge(hash, s, a, rel, b, source, trust);
            r.Err? ==>
              (t == s <==>
               || !ValidEdgeText(rel, source)
               || EndIsRefused(hash, s, a, source, trust)
               || !(EndIsWritten(hash, s, a, source, trust) || EndIsWritten(hash, s, b, source, trust)))
  {
    if ValidEdgeText(rel, source) && PutEdge(hash, s, a, rel, b, source, trust).1.Err? {
      var (s', from) := PutEnd(hash, s, a, source, trust);
      PutEndCases(hash, s, a, source, trust);
      if from.Ok? {
        PutEdgeToRefused(hash, s', from.value.id, rel, b, source, trust);
        PutEdgeToTrust(hash, s', from.value.id, rel, b, source, trust);
        PutEndCases(hash, s', b, source, trust);
      }
    }
  }

  lemma FullStoreRefuses(hash: Hash, s: Store, end: Endpoint, source: string)
    requires NodeProblem(end.kind, end.key, "", map[], source).None?
    requires EndId(hash, end) !in s.nodes && |s.nodes| >= s.max
    ensures PutEnd(hash, s, end, source, Ingest) == (s, Err(NodeCapacity))
  {
  }

  lemma NewEndIsStored(hash: Hash, s: Store, end: Endpoint, source: string)
    requires NodeProblem(end.kind, end.key, "", map[], source).None?
    requires EndId(hash, end) !in s.nodes && |s.nodes| < s.max
    ensures var n := IncomingNode(hash, end.kind, end.key, "", map[], source, Ingest);
            PutEnd(hash, s, end, source, Ingest) == (s.(nodes := s.nodes[EndId(hash, end) := n]), Ok(n))
  {
  }

  /** Such a case: the first endpoint takes the last free place. */
  lemma RefusedLinkLeavesEndpoint(hash: Hash)
    requires GoodHash(hash)
    ensures var a, b := Endpoint("sample", "x"), Endpoint("sample", "y");
            var (t, r) := PutEdge(hash, Empty(1), a, "related-to", b, "s", Ingest);
            r == Err(ToNode(NodeCapacity)) && t.nodes.Keys == {EndId(hash, a)} && t.edges == map[]
  {
    var a, b, s := Endpoint("sample", "x"), Endpoint("sample", "y"), Empty(1);
    TwoSamples(hash);
    NewEndIsStored(hash, s, a, "s");
    var (t, first) := PutEnd(hash, s, a, "s", Ingest);
    FullStoreRefuses(hash, t, b, "s");
    AfterFirstEnd(hash, s, t, first.value, a, "related-to", b, "s", Ingest);
    SecondEndRefused(hash, t, first.value.id, "related-to", b, "s", Ingest, NodeCapacity);
  }

  lemma TwoSamples(hash: Hash)
    requires GoodHash(hash)
    ensures var a, b := Endpoint("sample", "x"), Endpoint("sample", "y");
            && NodeProblem(a.kind, a.key, "", map[], "s").None? && NodeProblem(b.kind, b.key, "", map[], "s").None?
            && EndId(hash, a) != EndId(hash, b)
  {
    SampleX(hash);
    SampleY(hash);
    assert "x" != "y";
    if NodeId(hash, "sample", "y") == NodeId(hash, "sample", "x") {
      NodeIdIsInjective(hash, "sample", "y", "sample", "x");
    }
  }

  lemma SampleX(hash: Hash)
    ensures NodeProblem("sample", "x", "", map[], "s").None?
    ensures EndId(hash, Endpoint("sample", "x")) == NodeId(hash, "sample", "x")
  {
    assert Trim("x") == "x";
  }

  lemma SampleY(hash: Hash)
    ensures NodeProblem("sample", "y", "", map[], "s").None?
    ensures EndId(hash, Endpoint("sample", "y")) == NodeId(hash, "sample", "y")
  {
    assert Trim("y") == "y";
  }

  lemma SecondEndRefused(hash: Hash, s: Store, from: string, rel: string, b: Endpoint, source: string, trust: Trust,
                         e: GraphError)
    requires PutEnd(hash, s, b, source, trust) == (s, Err(e))
    ensures PutEdgeTo(hash, s, from, rel, b, source, trust) == (s, Err(ToNode(e)))
  {
  }

  // ---- An accepted relation ----

  ghost function WithEnd(hash: Hash, s: Store, end: Endpoint, source: string, trust: Trust): map<string, Node> {
    if EndId(hash, end) in s.nodes then s.nodes
    else s.nodes[EndId(hash, end) := IncomingNode(hash, end.kind, end.key, "", map[], source, trust)]
  }

  lemma RoomForEnd(hash: Hash, s: Store, end: Endpoint, source: string, trust: Trust)
    requires NodeProblem(end.kind, end.key, "", map[], source).None? && |s.nodes| < s.max
    ensures var nodes := WithEnd(hash, s, end, source, trust);
            EndId(hash, end) in nodes
            && PutEnd(hash, s, end, source, trust) == (s.(nodes := nodes), Ok(nodes[EndId(hash, end)]))
  {
  }

  lemma WithEndIsSound(hash: Hash, s: Store, end: Endpoint, source: string, trust: Trust)
    requires NodesSound(hash, s) && NodeProblem(end.kind, end.key, "", map[], source).None?
    ensures var nodes := WithEnd(hash, s, end, source, trust);
            && NodesSound(hash, s.(nodes := nodes)) && nodes.Keys == s.nodes.Keys + {EndId(hash, end)}
            && nodes[EndId(hash, end)].id == EndId(hash, end)
  {
    var n := IncomingNode(hash, end.kind, end.key, "", map[], source, trust);
    assert NodeSound(hash, n.id, n);
    NodeWriteIsSound(hash, s, n.id, n);
  }

  lemma NodeWriteIsSound(hash: Hash, s: Store, id: string, n: Node)
    requires NodesSound(hash, s) && NodeSound(hash, id, n)
    ensures NodesSound(hash, s.(nodes := s.nodes[id := n]))
  {
  }

  lemma OneMoreKey(a: map<string, Node>, b: map<string, Node>, id: string)
    requires b.Keys == a.Keys + {id}
    ensures |b| <= |a| + 1
  {
    assert |a| == |a.Keys| && |b| == |b.Keys|;
    SubsetIsNoLarger(b.Keys, a.Keys + {id});
  }

  ghost predicate HasRoom(s: Store, from: string) {
    |s.nodes| + 2 <= s.max && |s.edges| < s.max && |Adjacent(s, from)| < MAX_INGEST_OUT_DEGREE
  }

  lemma RoomForEdge(hash: Hash, s: Store, from: string, rel: string, to: string, source: string, trust: Trust)
    requires |s.edges| < s.max && |Adjacent(s, from)| < MAX_INGEST_OUT_DEGREE
    requires EdgeId(hash, from, rel, to) !in s.edges
    ensures var id := EdgeId(hash, from, rel, to);
            PutEdgeBetween(hash, s, from, rel, to, source, trust).0 ==
            s.(edges := s.edges[id := Edge(id, from, to, rel, trust, source)],
               outAdj := s.outAdj[from := Adjacent(s, from) + {id}])
  {
  }

  /** The store with a relation written under two stored endpoints. */
  ghost function WithEdge(hash: Hash, s: Store, nodes: map<string, Node>, from: string, rel: string, to: string,
                          source: string, trust: Trust): Store
  {
    var id := EdgeId(hash, from, rel, to);
    Store(nodes, s.edges[id := Edge(id, from, to, rel, trust, source)],
          s.outAdj[from := Adjacent(s, from) + {id}], s.max)
  }

  /** From `s` to `t` one relation and the endpoints it lacked were written, nothing else. */
  ghost predicate EdgeStored(hash: Hash, s: Store, t: Store, from: string, rel: string, to: string, source: string,
                             trust: Trust)
  {
    && t == WithEdge(hash, s, t.nodes, from, rel, to, source, trust) && NodesSound(hash, t)
    && t.nodes.Keys == s.nodes.Keys + {from, to} && |t.nodes| <= |s.nodes| + 2
  }

  lemma SecondEndAndEdge(hash: Hash, s: Store, from: string, rel: string, b: Endpoint, source: string, trust: Trust)
    requires NodesSound(hash, s) && NodeProblem(b.kind, b.key, "", map[], source).None?
    requires |s.nodes| < s.max && |s.edges| < s.max && |Adjacent(s, from)| < MAX_INGEST_OUT_DEGREE
    requires EdgeId(hash, from, rel, EndId(hash, b)) !in s.edges
    ensures var t, to := PutEdgeTo(hash, s, from, rel, b, source, trust).0, EndId(hash, b);
            && t == WithEdge(hash, s, t.nodes, from, rel, to, source, trust) && NodesSound(hash, t)
            && t.nodes.Keys == s.nodes.Keys + {to} && |t.nodes| <= |s.nodes| + 1
  {
    var to := EndId(hash, b);
    RoomForEnd(hash, s, b, source, trust);
    WithEndIsSound(hash, s, b, source, trust);
    var s1 := s.(nodes := WithEnd(hash, s, b, source, trust));
    OneMoreKey(s.nodes, s1.nodes, to);
    assert Adjacent(s1, from) == Adjacent(s, from);
    RoomForEdge(hash, s1, from, rel, to, source, trust);
    assert PutEdgeTo(hash, s, from, rel, b, source, trust) == PutEdgeBetween(hash, s1, from, rel, to, source, trust);
  }

  lemma AfterFirstEnd(hash: Hash, s: Store, s': Store, n: Node, a: Endpoint, rel: string, b: Endpoint, source: string,
                      trust: Trust)
    requires ValidEdgeText(rel, source) && PutEnd(hash, s, a, source, trust) == (s', Ok(n))
    ensures PutEdge(hash, s, a, rel, b, source, trust) == PutEdgeTo(hash, s', n.id, rel, b, source, trust)
  {
  }

  lemma EdgeOverFirstEnd(hash: Hash, s: Store, nodes: map<string, Node>, t: Store, from: string, rel: string,
                         to: string, source: string, trust: Trust)
    requires t == WithEdge(hash, s.(nodes := nodes), t.nodes, from, rel, to, source, trust) && NodesSound(hash, t)
    requires nodes.Keys == s.nodes.Keys + {from} && t.nodes.Keys == nodes.Keys + {to} && |t.nodes| <= |nodes| + 1
    ensures EdgeStored(hash, s, t, from, rel, to, source, trust)
  {
    OneMoreKey(s.nodes, nodes, from);
    assert Adjacent(s.(nodes := nodes), from) == Adjacent(s, from);
    assert t.nodes.Keys == s.nodes.Keys + {from, to};
  }

  lemma EdgeFromFirstEnd(hash: Hash, s: Store, nodes: map<string, Node>, from: string, rel: string, b: Endpoint,
                         source: string, trust: Trust)
    requires NodesSound(hash, s.(nodes := nodes)) && NodeProblem(b.kind, b.key, "", map[], source).None?
    requires nodes.Keys == s.nodes.Keys + {from} && HasRoom(s, from)
    requires EdgeId(hash, from, rel, EndId(hash, b)) !in s.edges
    ensures EdgeStored(hash, s, PutEdgeTo(hash, s.(nodes := nodes), from, rel, b, source, trust).0,
                       from, rel, EndId(hash, b), source, trust)
  {
    OneMoreKey(s.nodes, nodes, from);
    var s1 := s.(nodes := nodes);
    assert Adjacent(s1, from) == Adjacent(s, from);
    SecondEndAndEdge(hash, s1, from, rel, b, source, trust);
    EdgeOverFirstEnd(hash, s, nodes, PutEdgeTo(hash, s1, from, rel, b, source, trust).0, from, rel, EndId(hash, b),
                     source, trust);
  }

  /** With room for it, a new well-formed relation is stored with both its endpoints. */
  lemma NewEdgeIsStored(hash: Hash, s: Store, a: Endpoint, rel: string, b: Endpoint, source: string, trust: Trust)
    requires NodesSound(hash, s) && WellFormedEdge(a, rel, b, source) && HasRoom(s, EndId(hash, a))
    requires EdgeId(hash, EndId(hash, a), rel, EndId(hash, b)) !in s.edges
    ensures EdgeStored(hash, s, PutEdge(hash, s, a, rel, b, source, trust).0,
                       EndId(hash, a), rel, EndId(hash, b), source, trust)
  {
    var nodes := WithEnd(hash, s, a, source, trust);
    WithEndIsSound(hash, s, a, source, trust);
    RoomForEnd(hash, s, a, source, trust);
    AfterFirstEnd(hash, s, s.(nodes := nodes), nodes[EndId(hash, a)], a, rel, b, source, trust);
    EdgeFromFirstEnd(hash, s, nodes, EndId(hash, a), rel, b, source, trust);
  }
}
