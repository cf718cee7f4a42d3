/** The tiered attribution graph (internal/knowledge/graph.go): the store with its atomic
    merge, the poisoning guard, the ingest caps and the out-adjacency index. */
module Graph {
  import opened Pipeline
  import opened Order
  import opened Text
  import opened Knowledge

  datatype Node = Node(
    id: string, kind: string, key: string, title: string,
    attrs: map<string, string>, trust: Trust, source: string)

  datatype Edge = Edge(
    id: string, from: string, to: string, rel: string, trust: Trust, source: string)

  datatype GraphError =
    | UnknownKind | MalformedKey | InvalidText | TooManyAttrs | InvalidAttr
    | UnknownRelation | InvalidSource
    | NodeCapacity | EdgeCapacity | OutDegreeCap
    | FromNode(cause: GraphError) | ToNode(cause: GraphError)

  datatype Result<+T> = Ok(value: T) | Err(error: GraphError)

  const MAX_INGEST_OUT_DEGREE := 4096

  predicate KnownKind(kind: string) {
    kind in {"sample", "ioc", "family", "technique", "campaign", "actor", "rule"}
  }

  predicate KnownRel(rel: string) {
    rel in {"has-ioc", "exhibits", "member-of", "matched",
            "seen-in", "uses", "attributed-to", "related-to"}
  }

  // ---- Identifiers ----

  function NodeId(hash: Hash, kind: string, key: string): string {
    "kn_" + hash("n" + NUL + Joined(kind, key))
  }

  function EdgeId(hash: Hash, from: string, rel: string, to: string): string {
    "ke_" + hash("e" + NUL + Joined(from, Joined(rel, to)))
  }

  function NormalizeNodeKey(kind: string, key: string): string {
    if kind == "family" || kind == "actor" || kind == "campaign" then Lower(Trim(key))
    else if kind == "technique" then Upper(Trim(key))
    else Trim(key)
  }

  predicate ValidNodeKey(key: string) {
    key != "" && |key| <= MAX_KEY_LEN && !HasControl(key)
  }

  // ---- The store ----

  datatype Store = Store(
    nodes: map<string, Node>,
    edges: map<string, Edge>,
    outAdj: map<string, set<string>>,
    max: nat)

  datatype Decision<+T> = Decision(write: bool, result: T)

  function Adjacent(s: Store, from: string): set<string> {
    if from in s.outAdj then s.outAdj[from] else {}
  }

  /** Read, decide and write as one step. */
  function MergeNodeIn(s: Store, id: string, decide: Option<Node> -> Decision<Node>): (Store, Result<Node>) {
    var existing := if id in s.nodes then Some(s.nodes[id]) else None;
    var d := decide(existing);
    if !d.write then
      (s, Ok(if existing.Some? then existing.value else d.result))
    else if existing.None? && d.result.trust.Ingest? && |s.nodes| >= s.max then
      (s, Err(NodeCapacity))
    else
      (s.(nodes := s.nodes[id := d.result]), Ok(d.result))
  }

  function MergeEdgeIn(s: Store, id: string, decide: Option<Edge> -> Decision<Edge>): (Store, Result<Edge>) {
    var existing := if id in s.edges then Some(s.edges[id]) else None;
    var d := decide(existing);
    if !d.write then
      (s, Ok(if existing.Some? then existing.value else d.result))
    else if existing.None? && d.result.trust.Ingest? && |s.edges| >= s.max then
      (s, Err(EdgeCapacity))
    else if existing.None? && d.result.trust.Ingest? && |Adjacent(s, d.result.from)| >= MAX_INGEST_OUT_DEGREE then
      (s, Err(OutDegreeCap))
    else
      (s.(edges := s.edges[id := d.result],
          outAdj := s.outAdj[d.result.from := Adjacent(s, d.result.from) + {id}]),
       Ok(d.result))
  }

  /** `out` holds the stored edges indexed under `from`, once each, in the order of `ids`. */
  ghost predicate ListsOut(s: Store, from: string, ids: seq<string>, out: seq<Edge>) {
    && Distinct(ids) && (forall id :: id in ids <==> id in StoredOut(s, from))
    && |out| == |ids| && forall i :: 0 <= i < |ids| ==> ids[i] in s.edges && out[i] == s.edges[ids[i]]
  }

  /** The in-memory store, updated in place under its lock. */
  class MemGraph {
    var nodes: map<string, Node>
    var edges: map<string, Edge>
    var outAdj: map<string, set<string>>
    const max: nat

    constructor (max: int)
      ensures State() == Empty(max)
      ensures fresh(this)
    {
      nodes, edges, outAdj := map[], map[], map[];
      this.max := if max <= 0 then DEFAULT_MAX_FACTS else max;
    }

    ghost function State(): Store
      reads this
    {
      Store(nodes, edges, outAdj, max)
    }

    method GetNode(id: string) returns (n: Option<Node>)
      ensures n == if id in nodes then Some(nodes[id]) else None
    {
      n := if id in nodes then Some(nodes[id]) else None;
    }

    method MergeNode(id: string, decide: Option<Node> -> Decision<Node>) returns (r: Result<Node>)
      modifies this
      ensures (State(), r) == MergeNodeIn(old(State()), id, decide)
    {
      var existing := if id in nodes then Some(nodes[id]) else None;
      var d := decide(existing);
      if !d.write {
        return Ok(if existing.Some? then existing.value else d.result);
      }
      if existing.None? && d.result.trust.Ingest? && |nodes| >= max {
        return Err(NodeCapacity);
      }
      nodes := nodes[id := d.result];
      return Ok(d.result);
    }

    method MergeEdge(id: string, decide: Option<Edge> -> Decision<Edge>) returns (r: Result<Edge>)
      modifies this
      ensures (State(), r) == MergeEdgeIn(old(State()), id, decide)
    {
      var existing := if id in edges then Some(edges[id]) else None;
      var d := decide(existing);
      if !d.write {
        return Ok(if existing.Some? then existing.value else d.result);
      }
      var from := d.result.from;
      var adjacent := if from in outAdj then outAdj[from] else {};
      if existing.None? && d.result.trust.Ingest? {
        if |edges| >= max {
          return Err(EdgeCapacity);
        }
        if |adjacent| >= MAX_INGEST_OUT_DEGREE {
          return Err(OutDegreeCap);
        }
      }
      edges := edges[id := d.result];
      outAdj := outAdj[from := adjacent + {id}];
      return Ok(d.result);
    }

    /** The edges leaving `from`, in no particular order. */
    method OutEdges(from: string) returns (out: seq<Edge>)
      ensures exists ids :: ListsOut(State(), from, ids, out)
    {
      var left := if from in outAdj then outAdj[from] else {};
      out := [];
      ghost var ids: seq<string> := [];
      while left != {}
        invariant left <= Adjacent(State(), from)
        invariant Distinct(ids) && forall id :: id in ids ==> id !in left
        invariant forall id :: id in ids ==> id in StoredOut(State(), from)
        invariant forall id :: id in StoredOut(State(), from) ==> id in ids || id in left
        invariant |out| == |ids| && forall i :: 0 <= i < |ids| ==> ids[i] in edges && out[i] == edges[ids[i]]
        decreases left
      {
        var id :| id in left;
        left := left - {id};
        if id in edges {
          out, ids := out + [edges[id]], ids + [id];
        }
      }
      assert ListsOut(State(), from, ids, out);
    }
  }

  function Empty(max: int): Store {
    Store(map[], map[], map[], if max <= 0 then DEFAULT_MAX_FACTS else max)
  }

  /** The IDs of the stored edges that the index lists under `from`. */
  ghost function StoredOut(s: Store, from: string): set<string> {
    set id | id in Adjacent(s, from) && id in s.edges
  }

  // ---- The relational layer over the store ----

  /** Ingest never overwrites curated; `onlyIfAbsent` never touches an existing node. */
  function NodeDecision(incoming: Node, onlyIfAbsent: bool): Option<Node> -> Decision<Node> {
    (existing: Option<Node>) =>
      if existing.Some? && (onlyIfAbsent || (existing.value.trust.Curated? && incoming.trust.Ingest?))
      then Decision(false, existing.value)
      else Decision(true, incoming)
  }

  function EdgeDecision(incoming: Edge): Option<Edge> -> Decision<Edge> {
    (existing: Option<Edge>) =>
      if existing.Some? && existing.value.trust.Curated? && incoming.trust.Ingest?
      then Decision(false, existing.value)
      else Decision(true, incoming)
  }

  /** The checks on a node write, in the source's order. */
  function NodeProblem(kind: string, key: string, title: string, attrs: map<string, string>,
                       source: string): Option<GraphError>
  {
    if !KnownKind(kind) then Some(UnknownKind)
    else if !ValidNodeKey(NormalizeNodeKey(kind, key)) then Some(MalformedKey)
    else if |title| > MAX_LABEL_LEN || |source| > MAX_SOURCE_LEN || HasControl(title) || HasControl(source) then
      Some(InvalidText)
    else if |attrs| > MAX_ATTRS then Some(TooManyAttrs)
    else if exists k :: k in attrs && (|k| > MAX_ATTR_LEN || |attrs[k]| > MAX_ATTR_LEN
                                       || HasControl(k) || HasControl(attrs[k])) then
      Some(InvalidAttr)
    else None
  }

  function IncomingNode(hash: Hash, kind: string, key: string, title: string, attrs: map<string, string>,
                        source: string, trust: Trust): Node
  {
    var norm := NormalizeNodeKey(kind, key);
    Node(NodeId(hash, kind, norm), kind, norm, Trim(title), attrs, trust, source)
  }

  function PutNode(hash: Hash, s: Store, kind: string, key: string, title: string, attrs: map<string, string>,
                   source: string, trust: Trust, onlyIfAbsent: bool): (Store, Result<Node>)
  {
    var problem := NodeProblem(kind, key, title, attrs, source);
    if problem.Some? then (s, Err(problem.value))
    else
      var incoming := IncomingNode(hash, kind, key, title, attrs, source, trust);
      MergeNodeIn(s, incoming.id, NodeDecision(incoming, onlyIfAbsent))
  }

  datatype Endpoint = Endpoint(kind: string, key: string)

  function PutEnd(hash: Hash, s: Store, end: Endpoint, source: string, trust: Trust): (Store, Result<Node>) {
    PutNode(hash, s, end.kind, end.key, "", map[], source, trust, true)
  }

  function PutEdgeBetween(hash: Hash, s: Store, from: string, rel: string, to: string, source: string,
                          trust: Trust): (Store, Result<Edge>)
  {
    var id := EdgeId(hash, from, rel, to);
    MergeEdgeIn(s, id, EdgeDecision(Edge(id, from, to, rel, trust, source)))
  }

  function PutEdgeTo(hash: Hash, s: Store, from: string, rel: string, b: Endpoint, source: string,
                     trust: Trust): (Store, Result<Edge>)
  {
    var (s', to) := PutEnd(hash, s, b, source, trust);
    if to.Err? then (s', Err(ToNode(to.error)))
    else PutEdgeBetween(hash, s', from, rel, to.value.id, source, trust)
  }

  predicate ValidEdgeText(rel: string, source: string) {
    KnownRel(rel) && |source| <= MAX_SOURCE_LEN && !HasControl(source)
  }

  /** A relation, after both endpoints have been ensured; the endpoints stay even when the
      edge itself is refused. */
  function PutEdge(hash: Hash, s: Store, a: Endpoint, rel: string, b: Endpoint, source: string,
                   trust: Trust): (Store, Result<Edge>)
  {
    if !ValidEdgeText(rel, source) then (s, Err(if KnownRel(rel) then InvalidSource else UnknownRelation))
    else
      var (s', from) := PutEnd(hash, s, a, source, trust);
      if from.Err? then (s', Err(FromNode(from.error)))
      else PutEdgeTo(hash, s', from.value.id, rel, b, source, trust)
  }

  function LookupNode(hash: Hash, s: Store, kind: string, key: string): Option<Node> {
    if !KnownKind(kind) || !ValidNodeKey(NormalizeNodeKey(kind, key)) then None
    else
      var id := NodeId(hash, kind, NormalizeNodeKey(kind, key));
      if id in s.nodes then Some(s.nodes[id]) else None
  }

  /** The four public writes. */
  datatype Op =
    | AddNode(kind: string, key: string, title: string, attrs: map<string, string>, source: string)
    | ObserveNode(kind: string, key: string, title: string, source: string)
    | Link(a: Endpoint, rel: string, b: Endpoint, source: string)
    | Observe(a: Endpoint, rel: string, b: Endpoint, source: string)

  predicate IsIngest(op: Op) {
    op.ObserveNode? || op.Observe?
  }

  function Step(hash: Hash, s: Store, op: Op): Store {
    match op
    case AddNode(kind, key, title, attrs, source) => PutNode(hash, s, kind, key, title, attrs, source, Curated, false).0
    case ObserveNode(kind, key, title, source) => PutNode(hash, s, kind, key, title, map[], source, Ingest, false).0
    case Link(a, rel, b, source) => PutEdge(hash, s, a, rel, b, source, Curated).0
    case Observe(a, rel, b, source) => PutEdge(hash, s, a, rel, b, source, Ingest).0
  }

  function Steps(hash: Hash, s: Store, ops: seq<Op>): Store
    decreases |ops|
  {
    if ops == [] then s else Steps(hash, Step(hash, s, ops[0]), ops[1..])
  }

  /** The layer's methods, over one shared store. */
  class KnowledgeGraph {
    const store: MemGraph
    const hash: Hash

    constructor (store: MemGraph, hash: Hash)
      ensures this.store == store && this.hash == hash
    {
      this.store, this.hash := store, hash;
    }

    method PutNodeInto(kind: string, key: string, title: string, attrs: map<string, string>, source: string,
                       trust: Trust, onlyIfAbsent: bool)
      returns (r: Result<Node>)
      modifies store
      ensures (store.State(), r) == PutNode(hash, old(store.State()), kind, key, title, attrs, source, trust,
                                            onlyIfAbsent)
    {
      var problem := NodeProblem(kind, key, title, attrs, source);
      if problem.Some? {
        return Err(problem.value);
      }
      var incoming := IncomingNode(hash, kind, key, title, attrs, source, trust);
      r := store.MergeNode(incoming.id, NodeDecision(incoming, onlyIfAbsent));
    }

    method PutEdgeInto(a: Endpoint, rel: string, b: Endpoint, source: string, trust: Trust) returns (r: Result<Edge>)
      modifies store
      ensures (store.State(), r) == PutEdge(hash, old(store.State()), a, rel, b, source, trust)
    {
      if !KnownRel(rel) {
        return Err(UnknownRelation);
      }
      if |source| > MAX_SOURCE_LEN || HasControl(source) {
        return Err(InvalidSource);
      }
      var from := PutNodeInto(a.kind, a.key, "", map[], source, trust, true);
      if from.Err? {
        return Err(FromNode(from.error));
      }
      var to := PutNodeInto(b.kind, b.key, "", map[], source, trust, true);
      if to.Err? {
        return Err(ToNode(to.error));
      }
      var id := EdgeId(hash, from.value.id, rel, to.value.id);
      r := store.MergeEdge(id, EdgeDecision(Edge(id, from.value.id, to.value.id, rel, trust, source)));
    }

    /** Any public write, whether it succeeds or is refused. */
    method Apply(op: Op)
      modifies store
      ensures store.State() == Step(hash, old(store.State()), op)
    {
      match op
      case AddNode(kind, key, title, attrs, source) =>
        var _ := PutNodeInto(kind, key, title, attrs, source, Curated, false);
      case ObserveNode(kind, key, title, source) =>
        var _ := PutNodeInto(kind, key, title, map[], source, Ingest, false);
      case Link(a, rel, b, source) =>
        var _ := PutEdgeInto(a, rel, b, source, Curated);
      case Observe(a, rel, b, source) =>
        var _ := PutEdgeInto(a, rel, b, source, Ingest);
    }
  }
}
