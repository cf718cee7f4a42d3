/** The durable twin of the in-memory store (internal/knowledge/persist_graph.go): three
    buckets in one file, an adjacency index scanned by key prefix, and transactions that
    either commit as a whole or leave the file alone. */
module DurableGraph {
  import opened Pipeline
  import opened Order
  import opened Text
  import opened Knowledge
  import opened Graph
  import opened GraphSafety
  import opened BoundedWalk
  import opened Traversal

  /** A stored row decodes to what was put, or has been corrupted on disk. */
  datatype Row<T> = Stored(value: T) | Corrupt

  datatype Outcome<+T> = Done(value: T) | Refused(error: GraphError) | CorruptRow | CommitFailed

  datatype Disk = Disk(
    nodes: map<string, Row<Node>>,
    edges: map<string, Row<Edge>>,
    adj: set<string>,
    nodeCount: nat,
    edgeCount: nat,
    max: nat)

  function AdjPrefix(from: string): string {
    "out:" + from + ":"
  }

  function AdjKey(from: string, edge: string): string {
    AdjPrefix(from) + edge
  }

  ghost function Block(keys: set<string>, prefix: string): set<string> {
    set k | k in keys && prefix <= k
  }

  /** One write transaction on the node bucket. The live count moves only after the commit
      of a new key. */
  function MergeNodeOn(d: Disk, id: string, decide: Option<Node> -> Decision<Node>, commit: bool): (Disk, Outcome<Node>)
  {
    if id in d.nodes && d.nodes[id].Corrupt? then (d, CorruptRow)
    else
      var existing := if id in d.nodes then Some(d.nodes[id].value) else None;
      var c := decide(existing);
      if !c.write then
        (d, if commit then Done(if existing.Some? then existing.value else c.result) else CommitFailed)
      else if existing.None? && !c.result.trust.Curated? && d.nodeCount >= d.max then (d, Refused(NodeCapacity))
      else if !commit then (d, CommitFailed)
      else
        (d.(nodes := d.nodes[id := Stored(c.result)],
            nodeCount := if existing.None? then d.nodeCount + 1 else d.nodeCount),
         Done(c.result))
  }

  ghost function MergeEdgeOn(d: Disk, id: string, decide: Option<Edge> -> Decision<Edge>,
                             commit: bool): (Disk, Outcome<Edge>)
  {
    if id in d.edges && d.edges[id].Corrupt? then (d, CorruptRow)
    else
      var existing := if id in d.edges then Some(d.edges[id].value) else None;
      var c := decide(existing);
      if !c.write then
        (d, if commit then Done(if existing.Some? then existing.value else c.result) else CommitFailed)
      else if existing.None? && !c.result.trust.Curated? && d.edgeCount >= d.max then (d, Refused(EdgeCapacity))
      else if existing.None? && !c.result.trust.Curated?
              && |Block(d.adj, AdjPrefix(c.result.from))| >= MAX_INGEST_OUT_DEGREE then
        (d, Refused(OutDegreeCap))
      else if !commit then (d, CommitFailed)
      else
        (d.(edges := d.edges[id := Stored(c.result)],
            adj := d.adj + {AdjKey(c.result.from, id)},
            edgeCount := if existing.None? then d.edgeCount + 1 else d.edgeCount),
         Done(c.result))
  }

  // ---- The key cursor ----

  ghost predicate IsFirstFrom(keys: set<string>, bound: string, k: Option<string>) {
    match k
    case None => forall x :: x in keys ==> Before(x, bound)
    case Some(k) => && k in keys && !Before(k, bound)
                    && forall x :: x in keys && x != k && !Before(x, bound) ==> Before(k, x)
  }

  ghost predicate IsFirstAfter(keys: set<string>, at: string, k: Option<string>) {
    match k
    case None => forall x :: x in keys ==> x == at || Before(x, at)
    case Some(k) => && k in keys && Before(at, k)
                    && forall x :: x in keys && x != k && Before(at, x) ==> Before(k, x)
  }

  method Seek(keys: set<string>, bound: string) returns (k: Option<string>)
    ensures IsFirstFrom(keys, bound, k)
  {
    var later := set x | x in keys && !Before(x, bound);
    if later == {} {
      assert forall x :: x in keys ==> x !in later;
      return None;
    }
    BeforeIsStrictOrder();
    ghost var least := LeastExists(Before, later);
    var k' :| k' in later && forall x :: x in later && x != k' ==> Before(k', x);
    return Some(k');
  }

  method Next(keys: set<string>, at: string) returns (k: Option<string>)
    ensures IsFirstAfter(keys, at, k)
  {
    var later := set x | x in keys && Before(at, x);
    BeforeIsStrictOrder();
    if later == {} {
      assert forall x :: x in keys ==> x !in later;
      return None;
    }
    ghost var least := LeastExists(Before, later);
    var k' :| k' in later && forall x :: x in later && x != k' ==> Before(k', x);
    return Some(k');
  }

  /** Where a prefix scan stands: `seen` lists, in order, the block's keys before `k`. */
  ghost predicate ScanAt(keys: set<string>, prefix: string, seen: seq<string>, k: Option<string>) {
    && AscendingBy(Before, seen)
    && (forall x :: x in seen ==> x in Block(keys, prefix))
    && match k
       case None => forall x :: x in Block(keys, prefix) ==> x in seen
       case Some(k) =>
         && k in keys && !Before(k, prefix)
         && (forall x :: x in seen ==> Before(x, k))
         && forall x :: x in Block(keys, prefix) ==> x in seen || x == k || Before(k, x)
  }

  lemma SeekStartsScan(keys: set<string>, prefix: string, k: Option<string>)
    requires IsFirstFrom(keys, prefix, k)
    ensures ScanAt(keys, prefix, [], k)
  {
    forall x | x in Block(keys, prefix)
      ensures !Before(x, prefix)
    {
      PrefixIsFirst(prefix, x);
      BeforeIsTotal(prefix, x);
    }
  }

  lemma NextAdvancesScan(keys: set<string>, prefix: string, seen: seq<string>, k: string, k': Option<string>)
    requires ScanAt(keys, prefix, seen, Some(k)) && prefix <= k && IsFirstAfter(keys, k, k')
    ensures ScanAt(keys, prefix, seen + [k], k')
  {
    forall x | x in keys
      ensures !(Before(x, k) && Before(k, x))
    {
      BeforeIsTotal(x, k);
    }
    if k'.Some? {
      var n := k'.value;
      PrefixIsFirst(prefix, k);
      if Before(n, prefix) {
        LaterStaysLater(prefix, k, n);
      }
      forall x | x in seen + [k]
        ensures Before(x, n)
      {
        if x != k {
          BeforeIsTransitive(x, k, n);
        }
      }
    }
  }

  lemma LaterStaysLater(prefix: string, k: string, n: string)
    requires (prefix == k || Before(prefix, k)) && Before(k, n)
    ensures !Before(n, prefix)
  {
    if prefix != k {
      BeforeIsTransitive(prefix, k, n);
    }
    BeforeIsTotal(prefix, n);
  }

  /** Where the scan stops, nothing of the block is left. */
  lemma ScanStopsAtBlockEnd(keys: set<string>, prefix: string, seen: seq<string>, k: Option<string>)
    requires ScanAt(keys, prefix, seen, k) && (k.Some? ==> !(prefix <= k.value))
    ensures forall x :: x in seen <==> x in Block(keys, prefix)
    ensures seen == Ascend(Block(keys, prefix))
  {
    if k.Some? {
      forall x | x in Block(keys, prefix)
        ensures x in seen
      {
        BeforeIsTotal(k.value, prefix);
        PrefixBlockEnds(prefix, k.value, x);
        BeforeIsTotal(x, k.value);
      }
    }
    BeforeIsStrictOrder();
    AscendingIsUnique(Before, seen, Ascend(Block(keys, prefix)));
  }

  // ---- Keys are unambiguous ----

  predicate ColonFree(s: string) {
    forall i :: 0 <= i < |s| ==> s[i] != ':'
  }

  /** A key under the prefix of `from` belongs to `from` and to no other node. */
  lemma PrefixIsUnambiguous(from: string, owner: string, edge: string)
    requires ColonFree(from) && ColonFree(owner)
    ensures AdjPrefix(from) <= AdjKey(owner, edge) <==> from == owner
  {
    var p, k := AdjPrefix(from), AdjKey(owner, edge);
    assert p[4 + |from|] == ':' && k[4 + |owner|] == ':';
    assert forall i :: 0 <= i < |from| ==> p[4 + i] == from[i] != ':';
    assert forall i :: 0 <= i < |owner| ==> k[4 + i] == owner[i] != ':';
    if p <= k {
      assert |from| == |owner|;
      assert forall i :: 0 <= i < |from| ==> from[i] == p[4 + i] == k[4 + i] == owner[i];
    }
  }

  lemma {:induction false} PrefixKeepsOrder(p: string, a: string, b: string, x: string, y: string)
    requires x == p + a && y == p + b
    ensures Before(x, y) <==> Before(a, b)
  {
    if p == [] {
      assert x == a && y == b;
    } else {
      assert x[1..] == p[1..] + a && y[1..] == p[1..] + b;
      PrefixKeepsOrder(p[1..], a, b, x[1..], y[1..]);
      SameHeadKeepsOrder(x, y);
    }
  }

  lemma SameHeadKeepsOrder(x: string, y: string)
    requires x != [] && y != [] && x[0] == y[0]
    ensures Before(x, y) <==> Before(x[1..], y[1..])
  {
  }

  lemma KeyIsInjective(from: string, a: string, b: string)
    requires AdjKey(from, a) == AdjKey(from, b)
    ensures a == b
  {
    TagSplits(AdjPrefix(from), a, b);
  }

  ghost function KeysOf(from: string, edges: set<string>): set<string> {
    set e | e in edges :: AdjKey(from, e)
  }

  lemma {:induction false} KeysOfSize(from: string, edges: set<string>)
    ensures |KeysOf(from, edges)| == |edges|
    decreases |edges|
  {
    if edges != {} {
      var e :| e in edges;
      var rest := edges - {e};
      KeysOfSize(from, rest);
      forall x | x in rest
        ensures AdjKey(from, x) != AdjKey(from, e)
      {
        if AdjKey(from, x) == AdjKey(from, e) {
          KeyIsInjective(from, x, e);
        }
      }
      assert KeysOf(from, edges) == KeysOf(from, rest) + {AdjKey(from, e)};
    }
  }

  // ---- The refinement ----

  ghost predicate IdsColonFree(s: Store) {
    && (forall id :: id in s.edges ==> ColonFree(id))
    && (forall from :: from in s.outAdj ==> ColonFree(from))
    && (forall from, id :: from in s.outAdj && id in s.outAdj[from] ==> ColonFree(id))
  }

  ghost predicate RowsMatch(d: Disk, s: Store) {
    && d.nodes.Keys == s.nodes.Keys && (forall id :: id in s.nodes ==> d.nodes[id] == Stored(s.nodes[id]))
    && d.edges.Keys == s.edges.Keys && (forall id :: id in s.edges ==> d.edges[id] == Stored(s.edges[id]))
  }

  ghost predicate IndexMatches(d: Disk, s: Store) {
    && (forall from, id :: id in Adjacent(s, from) ==> AdjKey(from, id) in d.adj)
    && (forall k :: k in d.adj ==> exists from, id :: id in Adjacent(s, from) && k == AdjKey(from, id))
  }

  ghost predicate CountsLive(d: Disk) {
    d.nodeCount == |d.nodes| && d.edgeCount == |d.edges|
  }

  /** The file `d` holds the in-memory store `s`. */
  ghost predicate Refines(d: Disk, s: Store) {
    RowsMatch(d, s) && IndexMatches(d, s) && IdsColonFree(s) && CountsLive(d) && d.max == s.max
  }

  lemma OwnersAreColonFree(s: Store, from: string, id: string)
    requires IdsColonFree(s) && id in Adjacent(s, from)
    ensures ColonFree(from) && ColonFree(id)
  {
  }

  /** The prefix block of a node holds exactly the keys of its edges. */
  lemma BlockIsAdjacency(d: Disk, s: Store, from: string)
    requires Refines(d, s) && ColonFree(from)
    ensures Block(d.adj, AdjPrefix(from)) == KeysOf(from, Adjacent(s, from))
    ensures |Block(d.adj, AdjPrefix(from))| == |Adjacent(s, from)|
  {
    forall k
      ensures k in Block(d.adj, AdjPrefix(from)) <==> k in KeysOf(from, Adjacent(s, from))
    {
      if k in Block(d.adj, AdjPrefix(from)) {
        var owner, id :| id in Adjacent(s, owner) && k == AdjKey(owner, id);
        OwnersAreColonFree(s, owner, id);
        PrefixIsUnambiguous(from, owner, id);
      }
      if id :| id in Adjacent(s, from) && k == AdjKey(from, id) {
        PrefixIsUnambiguous(from, from, id);
      }
    }
    KeysOfSize(from, Adjacent(s, from));
  }

  ghost predicate SameOutcome<T>(o: Outcome<T>, r: Result<T>) {
    match r
    case Ok(v) => o == Done(v)
    case Err(e) => o == Refused(e)
  }

  lemma SizesAgree(d: Disk, s: Store)
    requires Refines(d, s)
    ensures d.nodeCount == |s.nodes| && d.edgeCount == |s.edges|
  {
    assert |d.nodes| == |d.nodes.Keys| == |s.nodes.Keys| == |s.nodes|;
    assert |d.edges| == |d.edges.Keys| == |s.edges.Keys| == |s.edges|;
  }

  ghost function NodePut(d: Disk, id: string, n: Node): Disk {
    d.(nodes := d.nodes[id := Stored(n)], nodeCount := if id in d.nodes then d.nodeCount else d.nodeCount + 1)
  }

  lemma NodePutRefines(d: Disk, s: Store, id: string, n: Node)
    requires Refines(d, s)
    ensures Refines(NodePut(d, id, n), s.(nodes := s.nodes[id := n]))
  {
    var d', s' := NodePut(d, id, n), s.(nodes := s.nodes[id := n]);
    assert s'.outAdj == s.outAdj;
    assert RowsMatch(d', s');
    assert IndexMatches(d', s') by { SameIndexMatches(d, s, d', s'); }
    assert IdsColonFree(s') by { SameIndexMatches(d, s, d', s'); }
  }

  lemma SameIndexMatches(d: Disk, s: Store, d': Disk, s': Store)
    requires IndexMatches(d, s) && IdsColonFree(s)
    requires d'.adj == d.adj && s'.outAdj == s.outAdj && s'.edges == s.edges
    ensures IndexMatches(d', s') && IdsColonFree(s')
  {
    assert forall from :: Adjacent(s', from) == Adjacent(s, from);
  }

  /** A committed node transaction does what the in-memory merge does; one that does not
      commit changes nothing, the live counts included. */
  lemma MergeNodeRefines(d: Disk, s: Store, id: string, decide: Option<Node> -> Decision<Node>, commit: bool)
    requires Refines(d, s)
    ensures var (d', o) := MergeNodeOn(d, id, decide, commit);
            var (s', r) := MergeNodeIn(s, id, decide);
            && (commit ==> Refines(d', s') && SameOutcome(o, r))
            && (!commit ==> d' == d && !o.Done? && (r.Err? ==> SameOutcome(o, r)))
  {
    SizesAgree(d, s);
    var existing := if id in s.nodes then Some(s.nodes[id]) else None;
    NodePutRefines(d, s, id, decide(existing).result);
  }

  ghost function EdgePut(d: Disk, id: string, e: Edge): Disk {
    d.(edges := d.edges[id := Stored(e)], adj := d.adj + {AdjKey(e.from, id)},
       edgeCount := if id in d.edges then d.edgeCount else d.edgeCount + 1)
  }

  lemma EdgePutMatchesIndex(d: Disk, s: Store, id: string, e: Edge)
    requires IndexMatches(d, s)
    ensures IndexMatches(EdgePut(d, id, e), EdgeWritten(s, id, e))
  {
    var d', s' := EdgePut(d, id, e), EdgeWritten(s, id, e);
    forall k | k in d'.adj
      ensures exists from, x :: x in Adjacent(s', from) && k == AdjKey(from, x)
    {
      if k == AdjKey(e.from, id) {
        assert id in Adjacent(s', e.from);
      } else {
        var from, x :| x in Adjacent(s, from) && k == AdjKey(from, x);
        assert x in Adjacent(s', from);
      }
    }
  }

  lemma EdgePutKeepsColonFree(s: Store, id: string, e: Edge)
    requires IdsColonFree(s) && ColonFree(id) && ColonFree(e.from)
    ensures IdsColonFree(EdgeWritten(s, id, e))
  {
  }

  lemma EdgePutMatchesRows(d: Disk, s: Store, id: string, e: Edge)
    requires RowsMatch(d, s)
    ensures RowsMatch(EdgePut(d, id, e), EdgeWritten(s, id, e))
  {
    var d', s' := EdgePut(d, id, e), EdgeWritten(s, id, e);
    assert d'.nodes == d.nodes && s'.nodes == s.nodes;
    assert d'.edges == d.edges[id := Stored(e)] && s'.edges == s.edges[id := e];
  }

  lemma EdgePutCounts(d: Disk, id: string, e: Edge)
    requires CountsLive(d)
    ensures CountsLive(EdgePut(d, id, e))
  {
  }

  lemma EdgePutRefines(d: Disk, s: Store, id: string, e: Edge)
    requires Refines(d, s) && ColonFree(id) && ColonFree(e.from)
    ensures Refines(EdgePut(d, id, e), EdgeWritten(s, id, e))
  {
    EdgePutMatchesRows(d, s, id, e);
    EdgePutCounts(d, id, e);
    EdgePutMatchesIndex(d, s, id, e);
    EdgePutKeepsColonFree(s, id, e);
  }

  ghost function DecidedFor(s: Store, id: string, decide: Option<Edge> -> Decision<Edge>): Decision<Edge> {
    decide(if id in s.edges then Some(s.edges[id]) else None)
  }

  lemma MergeEdgeCommitted(d: Disk, s: Store, id: string, decide: Option<Edge> -> Decision<Edge>)
    requires Refines(d, s) && DecidedFor(s, id, decide).write
    requires ColonFree(DecidedFor(s, id, decide).result.from)
    ensures var (d', o) := MergeEdgeOn(d, id, decide, true);
            var (s', r) := MergeEdgeIn(s, id, decide);
            var e := DecidedFor(s, id, decide).result;
            && SameOutcome(o, r)
            && (if r.Ok? then d' == EdgePut(d, id, e) && s' == EdgeWritten(s, id, e) else d' == d && s' == s)
  {
    SizesAgree(d, s);
    assert id in s.edges ==> d.edges[id] == Stored(s.edges[id]);
    BlockIsAdjacency(d, s, DecidedFor(s, id, decide).result.from);
  }

  lemma MergeEdgeUncommitted(d: Disk, s: Store, id: string, decide: Option<Edge> -> Decision<Edge>)
    requires Refines(d, s) && ColonFree(id)
    requires forall existing :: decide(existing).write ==> ColonFree(decide(existing).result.from)
    ensures var (d', o) := MergeEdgeOn(d, id, decide, false);
            d' == d && !o.Done? && (MergeEdgeIn(s, id, decide).1.Err? ==> SameOutcome(o, MergeEdgeIn(s, id, decide).1))
  {
    SizesAgree(d, s);
    var existing := if id in s.edges then Some(s.edges[id]) else None;
    assert id in s.edges ==> d.edges[id] == Stored(s.edges[id]);
    if decide(existing).write {
      BlockIsAdjacency(d, s, decide(existing).result.from);
    }
  }

  /** The same for an edge: the early-stopped prefix count decides the degree cap exactly as
      the size of the adjacency set does. */
  lemma MergeEdgeRefines(d: Disk, s: Store, id: string, decide: Option<Edge> -> Decision<Edge>, commit: bool)
    requires Refines(d, s) && ColonFree(id)
    requires forall existing :: decide(existing).write ==> ColonFree(decide(existing).result.from)
    ensures var (d', o) := MergeEdgeOn(d, id, decide, commit);
            var (s', r) := MergeEdgeIn(s, id, decide);
            && (commit ==> Refines(d', s') && SameOutcome(o, r))
            && (!commit ==> d' == d && !o.Done? && (r.Err? ==> SameOutcome(o, r)))
  {
    if commit {
      if DecidedFor(s, id, decide).write {
        MergeEdgeCommitted(d, s, id, decide);
        EdgePutRefines(d, s, id, DecidedFor(s, id, decide).result);
      }
    } else {
      MergeEdgeUncommitted(d, s, id, decide);
    }
  }

  // ---- Whole runs, with commits that may fail ----

  datatype Call =
    | NodeCall(id: string, node: Option<Node> -> Decision<Node>, commit: bool)
    | EdgeCall(id: string, edge: Option<Edge> -> Decision<Edge>, commit: bool)

  ghost predicate ColonFreeCall(c: Call) {
    c.EdgeCall? ==>
      && ColonFree(c.id)
      && forall existing :: c.edge(existing).write ==> ColonFree(c.edge(existing).result.from)
  }

  ghost function OnDisk(d: Disk, c: Call): Disk {
    match c
    case NodeCall(id, decide, commit) => MergeNodeOn(d, id, decide, commit).0
    case EdgeCall(id, decide, commit) => MergeEdgeOn(d, id, decide, commit).0
  }

  /** The in-memory store sees the committed calls only. */
  ghost function InMemory(s: Store, c: Call): Store {
    if !c.commit then s
    else match c
      case NodeCall(id, decide, _) => MergeNodeIn(s, id, decide).0
      case EdgeCall(id, decide, _) => MergeEdgeIn(s, id, decide).0
  }

  ghost function RunOnDisk(d: Disk, calls: seq<Call>): Disk
    decreases |calls|
  {
    if calls == [] then d else RunOnDisk(OnDisk(d, calls[0]), calls[1..])
  }

  ghost function RunInMemory(s: Store, calls: seq<Call>): Store
    decreases |calls|
  {
    if calls == [] then s else RunInMemory(InMemory(s, calls[0]), calls[1..])
  }

  /** On every sequence of merges, some of whose commits may fail, the file stays an exact
      image of the in-memory store that performed the committed ones. */
  lemma {:induction false} RunsRefine(d: Disk, s: Store, calls: seq<Call>)
    requires Refines(d, s)
    requires forall i :: 0 <= i < |calls| ==> ColonFreeCall(calls[i])
    ensures Refines(RunOnDisk(d, calls), RunInMemory(s, calls))
    decreases |calls|
  {
    if calls != [] {
      assert ColonFreeCall(calls[0]);
      match calls[0]
      case NodeCall(id, decide, commit) =>
        MergeNodeRefines(d, s, id, decide, commit);
        RunsRefine(OnDisk(d, calls[0]), InMemory(s, calls[0]), calls[1..]);
      case EdgeCall(id, decide, commit) =>
        MergeEdgeRefines(d, s, id, decide, commit);
        RunsRefine(OnDisk(d, calls[0]), InMemory(s, calls[0]), calls[1..]);
    }
  }

  function EmptyDisk(max: int): Disk {
    Disk(map[], map[], {}, 0, 0, if max <= 0 then DEFAULT_MAX_FACTS else max)
  }

  lemma EmptyRefines(max: int)
    ensures Refines(EmptyDisk(max), Empty(max))
  {
  }

  /** Opening a file derives the counts from the buckets. */
  function Reopen(d: Disk): Disk {
    d.(nodeCount := |d.nodes|, edgeCount := |d.edges|)
  }

  lemma CallKeepsCounts(d: Disk, c: Call)
    requires CountsLive(d)
    ensures CountsLive(OnDisk(d, c))
  {
  }

  /** The live counts equal the bucket sizes after every run, whatever was refused, failed to
      commit or was found corrupt; so closing and reopening the file changes nothing. */
  lemma {:induction false} ReopenChangesNothing(d: Disk, calls: seq<Call>)
    requires CountsLive(d)
    ensures CountsLive(RunOnDisk(d, calls)) && Reopen(RunOnDisk(d, calls)) == RunOnDisk(d, calls)
    decreases |calls|
  {
    if calls != [] {
      CallKeepsCounts(d, calls[0]);
      ReopenChangesNothing(OnDisk(d, calls[0]), calls[1..]);
    }
  }

  /** Under an idealised digest every ID the graph layer derives is free of colons, so its
      calls meet what the refinement asks. */
  lemma DerivedIdsAreColonFree(hash: Hash, kind: string, key: string, from: string, rel: string, to: string)
    requires GoodHash(hash)
    ensures ColonFree(NodeId(hash, kind, key)) && ColonFree(EdgeId(hash, from, rel, to))
  {
    var a, b := hash("n" + NUL + Joined(kind, key)), hash("e" + NUL + Joined(from, Joined(rel, to)));
    assert IsHex(a) && IsHex(b);
  }

  // ---- The graph layer over the file ----

  ghost function PutNodeOn(hash: Hash, d: Disk, kind: string, key: string, title: string, attrs: map<string, string>,
                           source: string, trust: Trust, onlyIfAbsent: bool, commit: bool): (Disk, Outcome<Node>)
  {
    var problem := NodeProblem(kind, key, title, attrs, source);
    if problem.Some? then (d, Refused(problem.value))
    else
      var incoming := IncomingNode(hash, kind, key, title, attrs, source, trust);
      MergeNodeOn(d, incoming.id, NodeDecision(incoming, onlyIfAbsent), commit)
  }

  ghost function PutEndOn(hash: Hash, d: Disk, end: Endpoint, source: string, trust: Trust,
                          commit: bool): (Disk, Outcome<Node>)
  {
    PutNodeOn(hash, d, end.kind, end.key, "", map[], source, trust, true, commit)
  }

  /** Whether the transactions of a write commit, in the order in which they are run: the two
      endpoints and the edge of a relation, or the one node. */
  datatype Commits = Commits(first: bool, second: bool, third: bool)

  const ALL_COMMIT := Commits(true, true, true)

  ghost function PutEdgeBetweenOn(hash: Hash, d: Disk, from: string, rel: string, to: string, source: string,
                                  trust: Trust, commit: bool): (Disk, Outcome<Edge>)
  {
    var id := EdgeId(hash, from, rel, to);
    MergeEdgeOn(d, id, EdgeDecision(Edge(id, from, to, rel, trust, source)), commit)
  }

  ghost function PutEdgeToOn(hash: Hash, d: Disk, from: string, rel: string, b: Endpoint, source: string, trust: Trust,
                             c: Commits): (Disk, Outcome<Edge>)
  {
    var (d', to) := PutEndOn(hash, d, b, source, trust, c.second);
    match to
    case Done(n) => PutEdgeBetweenOn(hash, d', from, rel, n.id, source, trust, c.third)
    case Refused(e) => (d', Refused(ToNode(e)))
    case CorruptRow => (d', CorruptRow)
    case CommitFailed => (d', CommitFailed)
  }

  /** A relation is three transactions, one after the other; each stays when a later one
      fails. */
  ghost function PutEdgeOn(hash: Hash, d: Disk, a: Endpoint, rel: string, b: Endpoint, source: string, trust: Trust,
                           c: Commits): (Disk, Outcome<Edge>)
  {
    if !ValidEdgeText(rel, source) then (d, Refused(if KnownRel(rel) then InvalidSource else UnknownRelation))
    else
      var (d', from) := PutEndOn(hash, d, a, source, trust, c.first);
      match from
      case Done(n) => PutEdgeToOn(hash, d', n.id, rel, b, source, trust, c)
      case Refused(e) => (d', Refused(FromNode(e)))
      case CorruptRow => (d', CorruptRow)
      case CommitFailed => (d', CommitFailed)
  }

  datatype Write = Write(op: Op, commits: Commits)

  ghost function StepOn(hash: Hash, d: Disk, w: Write): Disk {
    match w.op
    case AddNode(kind, key, title, attrs, source) =>
      PutNodeOn(hash, d, kind, key, title, attrs, source, Curated, false, w.commits.first).0
    case ObserveNode(kind, key, title, source) =>
      PutNodeOn(hash, d, kind, key, title, map[], source, Ingest, false, w.commits.first).0
    case Link(a, rel, b, source) => PutEdgeOn(hash, d, a, rel, b, source, Curated, w.commits).0
    case Observe(a, rel, b, source) => PutEdgeOn(hash, d, a, rel, b, source, Ingest, w.commits).0
  }

  ghost function StepsOn(hash: Hash, d: Disk, ws: seq<Write>): Disk
    decreases |ws|
  {
    if ws == [] then d else StepsOn(hash, StepOn(hash, d, ws[0]), ws[1..])
  }

  // ---- What the in-memory graph would hold after the committed transactions ----

  ghost function EdgeToLeft(hash: Hash, s: Store, from: string, rel: string, b: Endpoint, source: string, trust: Trust,
                            c: Commits): Store
  {
    var (s', to) := PutEnd(hash, s, b, source, trust);
    if !c.second then s else if to.Err? || !c.third then s' else PutEdgeTo(hash, s, from, rel, b, source, trust).0
  }

  /** A relation leaves both its endpoints, the first alone, or nothing, depending on the
      transaction that fails. */
  ghost function EdgeLeft(hash: Hash, s: Store, a: Endpoint, rel: string, b: Endpoint, source: string, trust: Trust,
                          c: Commits): Store
  {
    var (s', from) := PutEnd(hash, s, a, source, trust);
    if !ValidEdgeText(rel, source) || !c.first then s
    else if from.Err? then s'
    else EdgeToLeft(hash, s', from.value.id, rel, b, source, trust, c)
  }

  ghost function StepLeft(hash: Hash, s: Store, w: Write): Store {
    match w.op
    case AddNode(_, _, _, _, _) => if w.commits.first then Step(hash, s, w.op) else s
    case ObserveNode(_, _, _, _) => if w.commits.first then Step(hash, s, w.op) else s
    case Link(a, rel, b, source) => EdgeLeft(hash, s, a, rel, b, source, Curated, w.commits)
    case Observe(a, rel, b, source) => EdgeLeft(hash, s, a, rel, b, source, Ingest, w.commits)
  }

  ghost function StepsLeft(hash: Hash, s: Store, ws: seq<Write>): Store
    decreases |ws|
  {
    if ws == [] then s else StepsLeft(hash, StepLeft(hash, s, ws[0]), ws[1..])
  }

  ghost function OpsOf(ws: seq<Write>): seq<Op> {
    seq(|ws|, i requires 0 <= i < |ws| => ws[i].op)
  }

  lemma PutNodeRefines(hash: Hash, d: Disk, s: Store, kind: string, key: string, title: string,
                       attrs: map<string, string>, source: string, trust: Trust, onlyIfAbsent: bool, commit: bool)
    requires Refines(d, s)
    ensures var (d', o) := PutNodeOn(hash, d, kind, key, title, attrs, source, trust, onlyIfAbsent, commit);
            var (s', r) := PutNode(hash, s, kind, key, title, attrs, source, trust, onlyIfAbsent);
            && (commit ==> Refines(d', s') && SameOutcome(o, r))
            && (!commit ==> d' == d && !o.Done?)
  {
    if NodeProblem(kind, key, title, attrs, source).None? {
      var n := IncomingNode(hash, kind, key, title, attrs, source, trust);
      MergeNodeRefines(d, s, n.id, NodeDecision(n, onlyIfAbsent), commit);
    }
  }

  lemma PutEdgeBetweenRefines(hash: Hash, d: Disk, s: Store, from: string, rel: string, to: string, source: string,
                              trust: Trust, commit: bool)
    requires GoodHash(hash) && ColonFree(from) && Refines(d, s)
    ensures var (d', o) := PutEdgeBetweenOn(hash, d, from, rel, to, source, trust, commit);
            var (s', r) := PutEdgeBetween(hash, s, from, rel, to, source, trust);
            && (commit ==> Refines(d', s') && SameOutcome(o, r))
            && (!commit ==> d' == d && !o.Done?)
  {
    var id := EdgeId(hash, from, rel, to);
    DerivedIdsAreColonFree(hash, "", "", from, rel, to);
    MergeEdgeRefines(d, s, id, EdgeDecision(Edge(id, from, to, rel, trust, source)), commit);
  }

  lemma PutEdgeToRefines(hash: Hash, d: Disk, s: Store, from: string, rel: string, b: Endpoint, source: string,
                         trust: Trust, c: Commits)
    requires GoodHash(hash) && ColonFree(from) && Refines(d, s)
    ensures var (d', o) := PutEdgeToOn(hash, d, from, rel, b, source, trust, c);
            && Refines(d', EdgeToLeft(hash, s, from, rel, b, source, trust, c))
            && (c.second && c.third ==> SameOutcome(o, PutEdgeTo(hash, s, from, rel, b, source, trust).1))
            && (o.Done? ==> c.second && c.third)
  {
    PutNodeRefines(hash, d, s, b.kind, b.key, "", map[], source, trust, true, c.second);
    var (s', to) := PutEnd(hash, s, b, source, trust);
    if c.second && to.Ok? {
      var d' := PutEndOn(hash, d, b, source, trust, c.second).0;
      PutEdgeBetweenRefines(hash, d', s', from, rel, to.value.id, source, trust, c.third);
    }
  }

  lemma FirstEndIsColonFree(hash: Hash, s: Store, a: Endpoint, source: string, trust: Trust)
    requires GoodHash(hash) && NodesSound(hash, s)
    ensures var r := PutEnd(hash, s, a, source, trust).1; r.Ok? ==> ColonFree(r.value.id)
  {
    PutNodeReturnsStored(hash, s, a.kind, a.key, "", map[], source, trust, true);
    DerivedIdsAreColonFree(hash, a.kind, NormalizeNodeKey(a.kind, a.key), "", "", "");
  }

  lemma AfterFirstEndOn(hash: Hash, d: Disk, d': Disk, s: Store, s': Store, n: Node, a: Endpoint, rel: string,
                        b: Endpoint, source: string, trust: Trust, c: Commits)
    requires ValidEdgeText(rel, source) && c.first
    requires PutEndOn(hash, d, a, source, trust, true) == (d', Done(n))
             && PutEnd(hash, s, a, source, trust) == (s', Ok(n))
    ensures PutEdgeOn(hash, d, a, rel, b, source, trust, c) == PutEdgeToOn(hash, d', n.id, rel, b, source, trust, c)
    ensures EdgeLeft(hash, s, a, rel, b, source, trust, c) == EdgeToLeft(hash, s', n.id, rel, b, source, trust, c)
  {
  }

  /** A relation on the file, whichever of its transactions commit: the file holds what the
      committed ones leave in memory; the outcome is the in-memory one when all commit, and
      never a success when one does not. */
  lemma PutEdgeRefines(hash: Hash, d: Disk, s: Store, a: Endpoint, rel: string, b: Endpoint, source: string,
                       trust: Trust, c: Commits)
    requires GoodHash(hash) && NodesSound(hash, s) && Refines(d, s)
    ensures var (d', o) := PutEdgeOn(hash, d, a, rel, b, source, trust, c);
            && Refines(d', EdgeLeft(hash, s, a, rel, b, source, trust, c))
            && (c == ALL_COMMIT ==> SameOutcome(o, PutEdge(hash, s, a, rel, b, source, trust).1))
            && (o.Done? ==> c == ALL_COMMIT)
  {
    var (s', from) := PutEnd(hash, s, a, source, trust);
    if ValidEdgeText(rel, source) && c.first && from.Ok? {
      var d' := PutEndOn(hash, d, a, source, trust, true).0;
      PutNodeRefines(hash, d, s, a.kind, a.key, "", map[], source, trust, true, true);
      FirstEndIsColonFree(hash, s, a, source, trust);
      PutEdgeToRefines(hash, d', s', from.value.id, rel, b, source, trust, c);
      AfterFirstEnd(hash, s, s', from.value, a, rel, b, source, trust);
      AfterFirstEndOn(hash, d, d', s, s', from.value, a, rel, b, source, trust, c);
    } else {
      FirstEndStops(hash, d, s, a, rel, b, source, trust, c);
    }
  }

  lemma FirstEndStops(hash: Hash, d: Disk, s: Store, a: Endpoint, rel: string, b: Endpoint, source: string,
                      trust: Trust, c: Commits)
    requires Refines(d, s)
    requires !ValidEdgeText(rel, source) || !c.first || PutEnd(hash, s, a, source, trust).1.Err?
    ensures var (d', o) := PutEdgeOn(hash, d, a, rel, b, source, trust, c);
            && Refines(d', EdgeLeft(hash, s, a, rel, b, source, trust, c)) && !o.Done?
            && (c == ALL_COMMIT ==> SameOutcome(o, PutEdge(hash, s, a, rel, b, source, trust).1))
  {
    PutNodeRefines(hash, d, s, a.kind, a.key, "", map[], source, trust, true, c.first);
  }

  /** What a well-formed relation leaves on the file when one of its transactions does not
      commit: nothing, the first endpoint, or both endpoints, and no edge. */
  lemma FailedLinkLeaves(hash: Hash, d: Disk, s: Store, a: Endpoint, rel: string, b: Endpoint, source: string,
                         trust: Trust, c: Commits)
    requires GoodHash(hash) && NodesSound(hash, s) && Refines(d, s) && ValidEdgeText(rel, source)
    requires PutEnd(hash, s, a, source, trust).1.Ok?
    ensures var d' := PutEdgeOn(hash, d, a, rel, b, source, trust, c).0;
            var s' := PutEnd(hash, s, a, source, trust).0;
            && (!c.first ==> Refines(d', s))
            && (c.first && !c.second ==> Refines(d', s'))
            && (c.first && c.second && !c.third ==> Refines(d', PutEnd(hash, s', b, source, trust).0))
  {
    PutEdgeRefines(hash, d, s, a, rel, b, source, trust, c);
  }

  lemma NodeStepRefines(hash: Hash, d: Disk, s: Store, w: Write)
    requires Refines(d, s) && (w.op.AddNode? || w.op.ObserveNode?)
    ensures Refines(StepOn(hash, d, w), StepLeft(hash, s, w))
  {
    match w.op
    case AddNode(kind, key, title, attrs, source) =>
      PutNodeRefines(hash, d, s, kind, key, title, attrs, source, Curated, false, w.commits.first);
    case ObserveNode(kind, key, title, source) =>
      PutNodeRefines(hash, d, s, kind, key, title, map[], source, Ingest, false, w.commits.first);
  }

  lemma StepRefines(hash: Hash, d: Disk, s: Store, w: Write)
    requires GoodHash(hash) && NodesSound(hash, s) && Refines(d, s)
    ensures Refines(StepOn(hash, d, w), StepLeft(hash, s, w))
  {
    match w.op
    case AddNode(_, _, _, _, _) => NodeStepRefines(hash, d, s, w);
    case ObserveNode(_, _, _, _) => NodeStepRefines(hash, d, s, w);
    case Link(a, rel, b, source) =>
      PutEdgeRefines(hash, d, s, a, rel, b, source, Curated, w.commits);
      assert StepLeft(hash, s, w) == EdgeLeft(hash, s, a, rel, b, source, Curated, w.commits);
    case Observe(a, rel, b, source) =>
      PutEdgeRefines(hash, d, s, a, rel, b, source, Ingest, w.commits);
      assert StepLeft(hash, s, w) == EdgeLeft(hash, s, a, rel, b, source, Ingest, w.commits);
  }

  lemma EdgeToLeftIsSound(hash: Hash, s: Store, from: string, rel: string, b: Endpoint, source: string, trust: Trust,
                          c: Commits)
    requires GoodHash(hash) && Sound(hash, s) && from in s.nodes && KnownRel(rel)
    ensures Sound(hash, EdgeToLeft(hash, s, from, rel, b, source, trust, c))
  {
    PutEndKeepsSound(hash, s, b, source, trust);
    PutEdgeToKeepsSound(hash, s, from, rel, b, source, trust);
  }

  lemma EdgeLeftIsSound(hash: Hash, s: Store, a: Endpoint, rel: string, b: Endpoint, source: string, trust: Trust,
                        c: Commits)
    requires GoodHash(hash) && Sound(hash, s)
    ensures Sound(hash, EdgeLeft(hash, s, a, rel, b, source, trust, c))
  {
    PutEndKeepsSound(hash, s, a, source, trust);
    var (s', from) := PutEnd(hash, s, a, source, trust);
    if !ValidEdgeText(rel, source) || !c.first {
      assert EdgeLeft(hash, s, a, rel, b, source, trust, c) == s;
    } else if from.Err? {
      assert EdgeLeft(hash, s, a, rel, b, source, trust, c) == s';
    } else {
      EdgeToLeftIsSound(hash, s', from.value.id, rel, b, source, trust, c);
      assert EdgeLeft(hash, s, a, rel, b, source, trust, c) ==
             EdgeToLeft(hash, s', from.value.id, rel, b, source, trust, c);
    }
  }

  lemma NodeStepLeftIsSound(hash: Hash, s: Store, w: Write)
    requires GoodHash(hash) && Sound(hash, s) && (w.op.AddNode? || w.op.ObserveNode?)
    ensures Sound(hash, StepLeft(hash, s, w))
  {
    StepKeepsSound(hash, s, w.op);
    assert StepLeft(hash, s, w) == if w.commits.first then Step(hash, s, w.op) else s;
  }

  lemma StepLeftIsSound(hash: Hash, s: Store, w: Write)
    requires GoodHash(hash) && Sound(hash, s)
    ensures Sound(hash, StepLeft(hash, s, w))
  {
    match w.op
    case AddNode(_, _, _, _, _) => NodeStepLeftIsSound(hash, s, w);
    case ObserveNode(_, _, _, _) => NodeStepLeftIsSound(hash, s, w);
    case Link(a, rel, b, source) =>
      EdgeLeftIsSound(hash, s, a, rel, b, source, Curated, w.commits);
      assert StepLeft(hash, s, w) == EdgeLeft(hash, s, a, rel, b, source, Curated, w.commits);
    case Observe(a, rel, b, source) =>
      EdgeLeftIsSound(hash, s, a, rel, b, source, Ingest, w.commits);
      assert StepLeft(hash, s, w) == EdgeLeft(hash, s, a, rel, b, source, Ingest, w.commits);
  }

  lemma CommittedStepIsStep(hash: Hash, s: Store, w: Write)
    requires w.commits == ALL_COMMIT
    ensures StepLeft(hash, s, w) == Step(hash, s, w.op)
  {
  }

  /** On every sequence of graph writes, with any pattern of failed commits, the file stays an
      exact image of what the committed transactions leave in memory, which is sound. */
  lemma {:induction false} GraphRunsRefine(hash: Hash, d: Disk, s: Store, ws: seq<Write>)
    requires GoodHash(hash) && Sound(hash, s) && Refines(d, s)
    ensures Refines(StepsOn(hash, d, ws), StepsLeft(hash, s, ws)) && Sound(hash, StepsLeft(hash, s, ws))
    decreases |ws|
  {
    if ws != [] {
      StepRefines(hash, d, s, ws[0]);
      StepLeftIsSound(hash, s, ws[0]);
      GraphRunsRefine(hash, StepOn(hash, d, ws[0]), StepLeft(hash, s, ws[0]), ws[1..]);
    }
  }

  /** When every transaction commits, that is the in-memory graph itself. */
  lemma {:induction false} CommittedRunsAreSteps(hash: Hash, s: Store, ws: seq<Write>)
    requires forall i :: 0 <= i < |ws| ==> ws[i].commits == ALL_COMMIT
    ensures StepsLeft(hash, s, ws) == Steps(hash, s, OpsOf(ws))
    decreases |ws|
  {
    if ws != [] {
      CommittedStepIsStep(hash, s, ws[0]);
      CommittedRunsAreSteps(hash, StepLeft(hash, s, ws[0]), ws[1..]);
      assert OpsOf(ws)[1..] == OpsOf(ws[1..]) && OpsOf(ws)[0] == ws[0].op;
    }
  }

  // ---- The store itself ----

  class BoltGraph {
    var nodes: map<string, Row<Node>>
    var edges: map<string, Row<Edge>>
    var adj: set<string>
    var nodeCount: nat
    var edgeCount: nat
    const max: nat

    constructor (max: int)
      ensures State() == EmptyDisk(max)
    {
      nodes, edges, adj, nodeCount, edgeCount := map[], map[], {}, 0, 0;
      this.max := if max <= 0 then DEFAULT_MAX_FACTS else max;
    }

    ghost function State(): Disk
      reads this
    {
      Disk(nodes, edges, adj, nodeCount, edgeCount, max)
    }

    method MergeNode(id: string, decide: Option<Node> -> Decision<Node>, commit: bool) returns (o: Outcome<Node>)
      modifies this
      ensures (State(), o) == MergeNodeOn(old(State()), id, decide, commit)
    {
      if id in nodes && nodes[id].Corrupt? {
        return CorruptRow;
      }
      var existing := if id in nodes then Some(nodes[id].value) else None;
      var c := decide(existing);
      if !c.write {
        return if commit then Done(if existing.Some? then existing.value else c.result) else CommitFailed;
      }
      if existing.None? && !c.result.trust.Curated? && nodeCount >= max {
        return Refused(NodeCapacity);
      }
      if !commit {
        return CommitFailed;
      }
      nodes := nodes[id := Stored(c.result)];
      if existing.None? {
        nodeCount := nodeCount + 1;
      }
      return Done(c.result);
    }

    method MergeEdge(id: string, decide: Option<Edge> -> Decision<Edge>, commit: bool) returns (o: Outcome<Edge>)
      modifies this
      ensures (State(), o) == MergeEdgeOn(old(State()), id, decide, commit)
    {
      if id in edges && edges[id].Corrupt? {
        return CorruptRow;
      }
      var existing := if id in edges then Some(edges[id].value) else None;
      var c := decide(existing);
      if !c.write {
        return if commit then Done(if existing.Some? then existing.value else c.result) else CommitFailed;
      }
      if existing.None? && !c.result.trust.Curated? {
        if edgeCount >= max {
          return Refused(EdgeCapacity);
        }
        var degree := OutDegree(c.result.from, MAX_INGEST_OUT_DEGREE);
        if degree >= MAX_INGEST_OUT_DEGREE {
          return Refused(OutDegreeCap);
        }
      }
      if !commit {
        return CommitFailed;
      }
      edges := edges[id := Stored(c.result)];
      adj := adj + {AdjKey(c.result.from, id)};
      if existing.None? {
        edgeCount := edgeCount + 1;
      }
      return Done(c.result);
    }

    /** Counts the prefix block, stopping at the cap. */
    method OutDegree(from: string, cap: nat) returns (n: nat)
      requires cap > 0
      ensures n == var size := |Block(adj, AdjPrefix(from))|; if size < cap then size else cap
    {
      var prefix := AdjPrefix(from);
      ghost var seen: seq<string> := [];
      var k := Seek(adj, prefix);
      SeekStartsScan(adj, prefix, k);
      n := 0;
      while k.Some? && prefix <= k.value
        invariant ScanAt(adj, prefix, seen, k) && n == |seen| < cap
        decreases |Block(adj, prefix)| - n
      {
        ghost var next := seen + [k.value];
        SeenFits(adj, prefix, seen, k.value);
        n := n + 1;
        if n >= cap {
          return;
        }
        var k' := Next(adj, k.value);
        NextAdvancesScan(adj, prefix, seen, k.value, k');
        seen, k := next, k';
      }
      ScanStopsAtBlockEnd(adj, prefix, seen, k);
      AscendingSize(seen, Block(adj, prefix));
    }

    /** The edges leaving `from`: one prefix scan, skipping missing and corrupt rows. */
    method OutEdges(from: string) returns (out: seq<Edge>)
      ensures out == Decoded(State(), from, Ascend(Block(adj, AdjPrefix(from))))
    {
      var prefix := AdjPrefix(from);
      ghost var seen: seq<string> := [];
      var k := Seek(adj, prefix);
      SeekStartsScan(adj, prefix, k);
      out := [];
      while k.Some? && prefix <= k.value
        invariant ScanAt(adj, prefix, seen, k) && out == Decoded(State(), from, seen)
        decreases |Block(adj, prefix)| - |seen|
      {
        var id := k.value[|prefix|..];
        SeenFits(adj, prefix, seen, k.value);
        assert (seen + [k.value])[..|seen|] == seen;
        if id in edges && edges[id].Stored? {
          out := out + [edges[id].value];
        }
        var k' := Next(adj, k.value);
        NextAdvancesScan(adj, prefix, seen, k.value, k');
        seen, k := seen + [k.value], k';
      }
      ScanStopsAtBlockEnd(adj, prefix, seen, k);
    }
  }

  ghost function DecodeKey(d: Disk, from: string, k: string): seq<Edge> {
    var id := if |k| >= |AdjPrefix(from)| then k[|AdjPrefix(from)|..] else "";
    if id in d.edges && d.edges[id].Stored? then [d.edges[id].value] else []
  }

  /** The decoded rows behind a list of index keys of `from`. */
  ghost function Decoded(d: Disk, from: string, keys: seq<string>): seq<Edge> {
    if keys == [] then []
    else Decoded(d, from, keys[..|keys| - 1]) + DecodeKey(d, from, keys[|keys| - 1])
  }

  lemma {:induction false} AscendingSize(ss: seq<string>, s: set<string>)
    requires AscendingBy(Before, ss) && forall x :: x in ss <==> x in s
    ensures |ss| == |s|
    decreases |ss|
  {
    if ss == [] {
      assert s == {} by {
        assert forall x :: x in s ==> x in ss;
      }
    } else {
      BeforeIsStrictOrder();
      forall x
        ensures x in ss[1..] <==> x in s - {ss[0]}
      {
        TailOmitsHead(Before, ss, x);
      }
      AscendingSize(ss[1..], s - {ss[0]});
    }
  }

  /** The keys seen so far and the next one all fit in the block. */
  lemma SeenFits(keys: set<string>, prefix: string, seen: seq<string>, k: string)
    requires ScanAt(keys, prefix, seen, Some(k)) && prefix <= k
    ensures |seen| + 1 <= |Block(keys, prefix)|
  {
    var next := seen + [k];
    var s := set x | x in next;
    assert AscendingBy(Before, next);
    AscendingSize(next, s);
    SubsetIsNoLarger(s, Block(keys, prefix));
  }

  // ---- Both stores feed the walk the same adjacency ----

  lemma KeyDecodes(d: Disk, s: Store, from: string, id: string)
    requires Refines(d, s) && id in s.edges
    ensures DecodeKey(d, from, AdjKey(from, id)) == [s.edges[id]]
  {
    assert AdjKey(from, id)[|AdjPrefix(from)|..] == id;
  }

  lemma {:induction false} DecodedKeyByKey(d: Disk, from: string, keys: seq<string>, es: seq<Edge>)
    requires |keys| == |es| && forall i :: 0 <= i < |es| ==> DecodeKey(d, from, keys[i]) == [es[i]]
    ensures Decoded(d, from, keys) == es
  {
    if keys != [] {
      var n := |keys| - 1;
      DecodedKeyByKey(d, from, keys[..n], es[..n]);
      assert es == es[..n] + [es[n]];
    }
  }

  lemma DecodedIsStored(d: Disk, s: Store, from: string, keys: seq<string>, ids: seq<string>)
    requires Refines(d, s) && |keys| == |ids|
    requires forall i :: 0 <= i < |ids| ==> keys[i] == AdjKey(from, ids[i]) && ids[i] in s.edges
    ensures |Decoded(d, from, keys)| == |ids|
    ensures forall i :: 0 <= i < |ids| ==> Decoded(d, from, keys)[i] == s.edges[ids[i]]
  {
    var es := seq(|ids|, i requires 0 <= i < |ids| => s.edges[ids[i]]);
    forall i | 0 <= i < |es|
      ensures DecodeKey(d, from, keys[i]) == [es[i]]
    {
      KeyDecodes(d, s, from, ids[i]);
    }
    DecodedKeyByKey(d, from, keys, es);
  }

  lemma StripPrefix(from: string, keys: seq<string>) returns (ids: seq<string>)
    requires AscendingBy(Before, keys) && forall k :: k in keys ==> AdjPrefix(from) <= k
    ensures |ids| == |keys| && forall i :: 0 <= i < |ids| ==> keys[i] == AdjKey(from, ids[i])
    ensures AscendingBy(Before, ids)
  {
    var n := |AdjPrefix(from)|;
    assert forall i :: 0 <= i < |keys| ==> keys[i] in keys;
    ids := seq(|keys|, i requires 0 <= i < |keys| => keys[i][n..]);
    forall i, j | 0 <= i < j < |ids|
      ensures Before(ids[i], ids[j])
    {
      assert keys[i] == AdjKey(from, ids[i]) && keys[j] == AdjKey(from, ids[j]);
      assert Before(keys[i], keys[j]);
      PrefixKeepsOrder(AdjPrefix(from), ids[i], ids[j], keys[i], keys[j]);
    }
  }

  lemma StrippedAreStored(d: Disk, s: Store, from: string, ids: seq<string>, keys: seq<string>, id: string)
    requires Refines(d, s) && IndexExact(s) && ColonFree(from)
    requires forall k :: k in keys <==> k in KeysOf(from, Adjacent(s, from))
    requires |ids| == |keys| && forall i :: 0 <= i < |ids| ==> keys[i] == AdjKey(from, ids[i])
    ensures id in ids <==> id in StoredOut(s, from)
  {
    if id in ids {
      var i :| 0 <= i < |ids| && ids[i] == id;
      assert keys[i] in keys;
      var x :| x in Adjacent(s, from) && keys[i] == AdjKey(from, x);
      KeyIsInjective(from, x, id);
    }
    if id in StoredOut(s, from) {
      assert AdjKey(from, id) in keys;
      var i :| 0 <= i < |keys| && keys[i] == AdjKey(from, id);
      KeyIsInjective(from, ids[i], id);
    }
  }

  lemma AscendingIsDistinct(ids: seq<string>)
    requires AscendingBy(Before, ids)
    ensures Distinct(ids)
  {
    forall i, j | 0 <= i < j < |ids|
      ensures ids[i] != ids[j]
    {
      BeforeIsTotal(ids[i], ids[j]);
    }
  }

  /** The durable store's prefix scan and the in-memory index give a node the same adjacency,
      for every filter. */
  lemma BothStoresFeedTheWalk(d: Disk, s: Store, f: Filter, from: string)
    requires Refines(d, s) && IndexExact(s) && Labelled(s) && ColonFree(from)
    ensures DiskOut(d, f)(from) == Out(s, f)(from)
  {
    var keys := Ascend(Block(d.adj, AdjPrefix(from)));
    BlockIsAdjacency(d, s, from);
    var ids := StripPrefix(from, keys);
    forall id
      ensures id in ids <==> id in StoredOut(s, from)
    {
      StrippedAreStored(d, s, from, ids, keys, id);
    }
    assert forall i :: 0 <= i < |ids| ==> ids[i] in ids;
    DecodedIsStored(d, s, from, keys, ids);
    AscendingIsDistinct(ids);
    SortedSliceIsOut(s, f, from, Decoded(d, from, keys), ids);
  }

  // ---- Every traversal over the two stores is the same one ----

  /** What the walk reads of the file: the decoded slice of a node, sorted and filtered. */
  ghost function DiskOut(d: Disk, f: Filter): Adjacency {
    from => FilterTargets(f, SortBy(ById, Decoded(d, from, Ascend(Block(d.adj, AdjPrefix(from))))))
  }

  lemma SoundStoreIsLabelled(hash: Hash, s: Store)
    requires EdgesSound(hash, s)
    ensures Labelled(s)
  {
    forall id | id in s.edges
      ensures s.edges[id].id == id
    {
      assert EdgeSound(hash, s, id, s.edges[id]);
    }
  }

  lemma StoredIdsAreColonFree(hash: Hash, s: Store, id: string)
    requires GoodHash(hash) && NodesSound(hash, s) && id in s.nodes
    ensures ColonFree(id)
  {
    assert NodeSound(hash, id, s.nodes[id]);
    DerivedIdsAreColonFree(hash, s.nodes[id].kind, s.nodes[id].key, "", "", "");
  }

  lemma TargetsAreStored(hash: Hash, s: Store, f: Filter, u: string)
    requires EdgesSound(hash, s)
    ensures forall w :: w in Out(s, f)(u) ==> w in s.nodes.Keys
  {
    forall w | w in Out(s, f)(u)
      ensures w in s.nodes.Keys
    {
      OutElements(s, f, u, w);
      var id :| id in StoredOut(s, u) && Passes(f, s.edges[id]) && s.edges[id].to == w;
      assert EdgeSound(hash, s, id, s.edges[id]);
    }
  }

  lemma SameFromHolds(keys: set<string>, a: Adjacency, b: Adjacency, u: string)
    requires a(u) == b(u) && forall w :: w in a(u) ==> w in keys
    ensures SameFrom(keys, a, b, u)
  {
  }

  lemma SameAdjacency(hash: Hash, d: Disk, s: Store, f: Filter, u: string)
    requires Refines(d, s) && EdgesSound(hash, s) && IndexExact(s) && ColonFree(u)
    ensures SameFrom(s.nodes.Keys, Out(s, f), DiskOut(d, f), u)
  {
    SoundStoreIsLabelled(hash, s);
    BothStoresFeedTheWalk(d, s, f, u);
    TargetsAreStored(hash, s, f, u);
    SameFromHolds(s.nodes.Keys, Out(s, f), DiskOut(d, f), u);
  }

  /** The rows that decode; a corrupt one reads as absent. */
  ghost function DecodedNodes(d: Disk): map<string, Node> {
    map id | id in d.nodes && d.nodes[id].Stored? :: d.nodes[id].value
  }

  ghost function LookupNodeOn(hash: Hash, d: Disk, kind: string, key: string): Option<Node> {
    var id := NodeId(hash, kind, NormalizeNodeKey(kind, key));
    if KnownKind(kind) && ValidNodeKey(NormalizeNodeKey(kind, key)) && id in DecodedNodes(d)
    then Some(DecodedNodes(d)[id]) else None
  }

  /** What a traversal of the file returns. */
  ghost predicate RelatedIsOn(hash: Hash, d: Disk, kind: string, key: string, rels: seq<string>, lim: Limits,
                              res: TraversalResult)
  {
    RelatedFrom(DecodedNodes(d), LookupNodeOn(hash, d, kind, key),
                DiskOut(d, Filter(AllowedRels(rels), |rels| > 0, false)),
                DiskOut(d, Filter(AllowedRels(rels), |rels| > 0, true)), lim, res)
  }

  ghost predicate AlikeUnder(d: Disk, s: Store, f: Filter) {
    forall u :: u in s.nodes.Keys ==> SameFrom(s.nodes.Keys, Out(s, f), DiskOut(d, f), u)
  }

  ghost predicate Labels(nodes: map<string, Node>) {
    forall id :: id in nodes ==> nodes[id].id == id
  }

  /** To a reader the file `d` is the graph `s`: the same nodes, under their own IDs, and from
      each of them the same edges, for every filter. */
  ghost predicate Alike(d: Disk, s: Store) {
    DecodedNodes(d) == s.nodes && Labels(s.nodes) && forall f: Filter :: AlikeUnder(d, s, f)
  }

  lemma RefiningIsAlike(hash: Hash, d: Disk, s: Store)
    requires GoodHash(hash) && Sound(hash, s) && Refines(d, s)
    ensures Alike(d, s)
  {
    forall id | id in s.nodes
      ensures s.nodes[id].id == id
    {
      assert NodeSound(hash, id, s.nodes[id]);
    }
    forall f: Filter
      ensures AlikeUnder(d, s, f)
    {
      SameAdjacencies(hash, d, s, f);
    }
  }

  lemma SameAdjacencies(hash: Hash, d: Disk, s: Store, f: Filter)
    requires GoodHash(hash) && Sound(hash, s) && Refines(d, s)
    ensures forall u :: u in s.nodes.Keys ==> SameFrom(s.nodes.Keys, Out(s, f), DiskOut(d, f), u)
  {
    forall u | u in s.nodes.Keys
      ensures SameFrom(s.nodes.Keys, Out(s, f), DiskOut(d, f), u)
    {
      StoredAdjacency(hash, d, s, f, u);
    }
  }

  lemma StoredAdjacency(hash: Hash, d: Disk, s: Store, f: Filter, u: string)
    requires GoodHash(hash) && Sound(hash, s) && Refines(d, s) && u in s.nodes
    ensures SameFrom(s.nodes.Keys, Out(s, f), DiskOut(d, f), u)
  {
    StoredIdsAreColonFree(hash, s, u);
    SameAdjacency(hash, d, s, f, u);
  }

  /** From every stored node and under all limits, the walk over the file is the walk over the
      in-memory graph. */
  lemma WalksAreTheSame(d: Disk, s: Store, f: Filter, start: string, lim: Limits)
    requires AlikeUnder(d, s, f) && start in s.nodes
    ensures Walk(DiskOut(d, f), start, lim) == Walk(Out(s, f), start, lim)
  {
    WalkReadsAdjacency(s.nodes.Keys, Out(s, f), DiskOut(d, f), start, lim);
  }

  lemma LookupsAgree(hash: Hash, d: Disk, s: Store, kind: string, key: string)
    requires DecodedNodes(d) == s.nodes && Labels(s.nodes)
    ensures LookupNodeOn(hash, d, kind, key) == LookupNode(hash, s, kind, key)
    ensures var start := LookupNode(hash, s, kind, key); start.Some? ==> start.value.id in s.nodes
  {
  }

  lemma RelatedOverBoth(d: Disk, s: Store, start: Option<Node>, f: Filter, g: Filter, lim: Limits, res: TraversalResult)
    requires (start.Some? ==> start.value.id in s.nodes) && AlikeUnder(d, s, f) && AlikeUnder(d, s, g)
    ensures RelatedFrom(s.nodes, start, Out(s, f), Out(s, g), lim, res) <==>
            RelatedFrom(s.nodes, start, DiskOut(d, f), DiskOut(d, g), lim, res)
  {
    RelatedReadsAdjacency(s.nodes, start, Out(s, f), DiskOut(d, f), Out(s, g), DiskOut(d, g), lim, res);
  }

  lemma RelatedOnFile(hash: Hash, d: Disk, s: Store, kind: string, key: string, rels: seq<string>, lim: Limits,
                      res: TraversalResult, f: Filter, g: Filter)
    requires DecodedNodes(d) == s.nodes && LookupNodeOn(hash, d, kind, key) == LookupNode(hash, s, kind, key)
    requires f == Filter(AllowedRels(rels), |rels| > 0, false) && g == f.(curatedOnly := true)
    ensures RelatedIsOn(hash, d, kind, key, rels, lim, res) <==>
            RelatedFrom(s.nodes, LookupNode(hash, s, kind, key), DiskOut(d, f), DiskOut(d, g), lim, res)
  {
  }

  lemma RelatedUnderFilters(hash: Hash, d: Disk, s: Store, kind: string, key: string, rels: seq<string>, lim: Limits,
                            res: TraversalResult, f: Filter, g: Filter)
    requires f == Filter(AllowedRels(rels), |rels| > 0, false) && g == f.(curatedOnly := true)
    requires DecodedNodes(d) == s.nodes && Labels(s.nodes) && AlikeUnder(d, s, f) && AlikeUnder(d, s, g)
    ensures RelatedIsOn(hash, d, kind, key, rels, lim, res) <==> RelatedIs(hash, s, kind, key, rels, lim, res)
  {
    LookupsAgree(hash, d, s, kind, key);
    RelatedOnFile(hash, d, s, kind, key, rels, lim, res, f, g);
    RelatedOverBoth(d, s, LookupNode(hash, s, kind, key), f, g, lim, res);
  }

  lemma RunsAreAlike(hash: Hash, max: int, ws: seq<Write>)
    requires GoodHash(hash)
    ensures Alike(StepsOn(hash, EmptyDisk(max), ws), StepsLeft(hash, Empty(max), ws))
  {
    RunsAreSound(hash, max, []);
    EmptyRefines(max);
    GraphRunsRefine(hash, EmptyDisk(max), Empty(max), ws);
    RefiningIsAlike(hash, StepsOn(hash, EmptyDisk(max), ws), StepsLeft(hash, Empty(max), ws));
  }

  /** So after any writes, whatever failed to commit, a query has the same answers on the file
      as on the in-memory graph. */
  lemma QueriesAgree(hash: Hash, max: int, ws: seq<Write>, kind: string, key: string, rels: seq<string>, lim: Limits,
                     res: TraversalResult)
    requires GoodHash(hash)
    ensures RelatedIsOn(hash, StepsOn(hash, EmptyDisk(max), ws), kind, key, rels, lim, res) <==>
            RelatedIs(hash, StepsLeft(hash, Empty(max), ws), kind, key, rels, lim, res)
  {
    RunsAreAlike(hash, max, ws);
    AlikeRelate(hash, StepsOn(hash, EmptyDisk(max), ws), StepsLeft(hash, Empty(max), ws), kind, key, rels, lim, res);
  }

  lemma AlikeFollows(d: Disk, s: Store, f: Filter)
    requires forall g: Filter :: AlikeUnder(d, s, g)
    ensures AlikeUnder(d, s, f)
  {
  }

  lemma AlikeRelate(hash: Hash, d: Disk, s: Store, kind: string, key: string, rels: seq<string>, lim: Limits,
                    res: TraversalResult)
    requires Alike(d, s)
    ensures RelatedIsOn(hash, d, kind, key, rels, lim, res) <==> RelatedIs(hash, s, kind, key, rels, lim, res)
  {
    var f := Filter(AllowedRels(rels), |rels| > 0, false);
    AlikeFollows(d, s, f);
    AlikeFollows(d, s, f.(curatedOnly := true));
    RelatedUnderFilters(hash, d, s, kind, key, rels, lim, res, f, f.(curatedOnly := true));
  }

  // ---- Files with corrupt rows ----

  /** On any file, corrupt rows or not: a corrupt row is left alone and reported, an uncommitted
      transaction changes nothing, and no merge touches a row other than its own. */
  lemma MergeTouchesOneRow(d: Disk, id: string, node: Option<Node> -> Decision<Node>,
                           edge: Option<Edge> -> Decision<Edge>, commit: bool)
    ensures var (e, o) := MergeNodeOn(d, id, node, commit);
            && (id in d.nodes && d.nodes[id].Corrupt? ==> e == d && o == CorruptRow)
            && (!commit ==> e == d) && e.edges == d.edges && e.adj == d.adj
            && forall k :: k != id ==> (k in e.nodes <==> k in d.nodes) && (k in d.nodes ==> e.nodes[k] == d.nodes[k])
    ensures var (e, o) := MergeEdgeOn(d, id, edge, commit);
            && (id in d.edges && d.edges[id].Corrupt? ==> e == d && o == CorruptRow)
            && (!commit ==> e == d) && e.nodes == d.nodes && d.adj <= e.adj
            && forall k :: k != id ==> (k in e.edges <==> k in d.edges) && (k in d.edges ==> e.edges[k] == d.edges[k])
  {
  }

  lemma {:induction false} DecodedElements(d: Disk, from: string, keys: seq<string>, e: Edge)
    ensures e in Decoded(d, from, keys) <==> exists k :: k in keys && e in DecodeKey(d, from, k)
  {
    if keys != [] {
      var n := |keys| - 1;
      DecodedElements(d, from, keys[..n], e);
      assert keys == keys[..n] + [keys[n]];
    }
  }

  lemma KeyHasId(d: Disk, from: string, k: string, e: Edge) returns (id: string)
    requires AdjPrefix(from) <= k && e in DecodeKey(d, from, k)
    ensures k == AdjKey(from, id) && id in d.edges && d.edges[id] == Stored(e)
  {
    id := k[|AdjPrefix(from)|..];
  }

  lemma IdHasKey(d: Disk, from: string, id: string, e: Edge)
    requires id in d.edges && d.edges[id] == Stored(e)
    ensures AdjPrefix(from) <= AdjKey(from, id) && e in DecodeKey(d, from, AdjKey(from, id))
  {
    assert AdjKey(from, id)[|AdjPrefix(from)|..] == id;
  }

  /** A scan yields exactly the edges that are indexed under the node and whose rows decode. */
  lemma ScanYieldsDecodable(d: Disk, from: string, e: Edge)
    ensures e in Decoded(d, from, Ascend(Block(d.adj, AdjPrefix(from)))) <==>
            exists id :: AdjKey(from, id) in d.adj && id in d.edges && d.edges[id] == Stored(e)
  {
    var keys := Ascend(Block(d.adj, AdjPrefix(from)));
    DecodedElements(d, from, keys, e);
    if k :| k in keys && e in DecodeKey(d, from, k) {
      var id := KeyHasId(d, from, k, e);
    }
    if id :| AdjKey(from, id) in d.adj && id in d.edges && d.edges[id] == Stored(e) {
      IdHasKey(d, from, id, e);
    }
  }
}
