/** The bounded breadth-first walk of the attribution graph (internal/knowledge/graph.go),
    as a function of the adjacency it reads: `out(id)` lists the targets of the allowed
    edges leaving `id`, in edge-ID order. */
module BoundedWalk {
  import opened Order

  type Adjacency = string -> seq<string>

  datatype Limits = Limits(depth: nat, nodes: nat, edges: nat)

  datatype Item = Item(id: string, depth: nat)

  /** `stopped` marks the early returns on the node cap and on the edge budget. */
  datatype State = State(
    queue: seq<Item>,
    depthOf: map<string, nat>,
    edges: nat,
    truncated: bool,
    stopped: bool)

  predicate Visited(start: string, st: State, v: string) {
    v == start || v in st.depthOf
  }

  /** One edge of the item at `depth`, leading to `to`. */
  function Visit(start: string, lim: Limits, st: State, depth: nat, to: string): State {
    if Visited(start, st, to) then st
    else
      var st := st.(edges := st.edges + 1);
      if st.edges > lim.edges then st.(truncated := true, stopped := true)
      else if depth + 1 > lim.depth then st.(truncated := true)
      else if |st.depthOf| >= lim.nodes then st.(truncated := true, stopped := true)
      else st.(depthOf := st.depthOf[to := depth + 1], queue := st.queue + [Item(to, depth + 1)])
  }

  /** The edges of one item, up to an early return. */
  function Scan(start: string, lim: Limits, st: State, depth: nat, targets: seq<string>): (r: State)
    ensures |r.queue| + |st.depthOf| == |st.queue| + |r.depthOf|
    ensures |st.depthOf| <= lim.nodes ==> |r.depthOf| <= lim.nodes
    decreases |targets|
  {
    if targets == [] || st.stopped then st
    else Scan(start, lim, Visit(start, lim, st, depth, targets[0]), depth, targets[1..])
  }

  function Run(out: Adjacency, start: string, lim: Limits, st: State): State
    requires |st.depthOf| <= lim.nodes
    decreases |st.queue| + lim.nodes - |st.depthOf|
  {
    if st.queue == [] || st.stopped then st
    else
      var cur := st.queue[0];
      Run(out, start, lim, Scan(start, lim, st.(queue := st.queue[1..]), cur.depth, out(cur.id)))
  }

  function Initial(start: string): State {
    State([Item(start, 0)], map[], 0, false, false)
  }

  function Walk(out: Adjacency, start: string, lim: Limits): State {
    Run(out, start, lim, Initial(start))
  }

  // ---- What the walk is measured against: true shortest distances ----

  /** The IDs reachable from `start` in at most `n` allowed hops. */
  ghost function Within(out: Adjacency, start: string, n: nat): set<string> {
    if n == 0 then {start}
    else
      var near := Within(out, start, n - 1);
      near + set u, w | u in near && w in out(u) :: w
  }

  ghost predicate IsDistance(out: Adjacency, start: string, v: string, d: nat) {
    v in Within(out, start, d) && (d > 0 ==> v !in Within(out, start, d - 1))
  }

  ghost predicate Reachable(out: Adjacency, start: string, v: string) {
    exists n: nat :: v in Within(out, start, n)
  }

  ghost predicate IsPath(out: Adjacency, p: seq<string>) {
    p != [] && forall i :: 0 <= i < |p| - 1 ==> p[i + 1] in out(p[i])
  }

  lemma {:induction false} WithinGrows(out: Adjacency, start: string, m: nat, n: nat)
    requires m <= n
    ensures Within(out, start, m) <= Within(out, start, n)
    decreases n
  {
    if m < n {
      WithinGrows(out, start, m, n - 1);
    }
  }

  lemma WithinStep(out: Adjacency, start: string, n: nat, u: string, w: string)
    requires u in Within(out, start, n) && w in out(u)
    ensures w in Within(out, start, n + 1)
  {
  }

  /** `Within` is what a reader expects: a path of at most `n` edges exists. */
  lemma {:induction false} WithinMeansPath(out: Adjacency, start: string, n: nat, v: string)
    ensures v in Within(out, start, n) <==>
            exists p :: IsPath(out, p) && p[0] == start && p[|p| - 1] == v && |p| <= n + 1
  {
    if v in Within(out, start, n) {
      var p := PathTo(out, start, n, v);
    }
    forall p | IsPath(out, p) && p[0] == start && p[|p| - 1] == v && |p| <= n + 1
      ensures v in Within(out, start, n)
    {
      PathStaysWithin(out, start, p);
      WithinGrows(out, start, |p| - 1, n);
    }
  }

  lemma {:induction false} PathTo(out: Adjacency, start: string, n: nat, v: string) returns (p: seq<string>)
    requires v in Within(out, start, n)
    ensures IsPath(out, p) && p[0] == start && p[|p| - 1] == v && |p| <= n + 1
  {
    if n == 0 {
      p := [start];
    } else if v in Within(out, start, n - 1) {
      p := PathTo(out, start, n - 1, v);
    } else {
      var u :| u in Within(out, start, n - 1) && v in out(u);
      p := PathTo(out, start, n - 1, u);
      p := p + [v];
    }
  }

  lemma {:induction false} PathStaysWithin(out: Adjacency, start: string, p: seq<string>)
    requires IsPath(out, p) && p[0] == start
    ensures p[|p| - 1] in Within(out, start, |p| - 1)
    decreases |p|
  {
    if |p| > 1 {
      var q := p[..|p| - 1];
      PathStaysWithin(out, start, q);
      assert p[|p| - 2 + 1] in out(p[|p| - 2]);
    }
  }

  // ---- The invariant of the walk ----

  ghost function Depth(start: string, st: State, v: string): nat
    requires Visited(start, st, v)
  {
    if v == start then 0 else st.depthOf[v]
  }

  ghost predicate Exact(out: Adjacency, start: string, lim: Limits, st: State) {
    && start !in st.depthOf
    && forall v :: v in st.depthOf ==>
                     && 0 < st.depthOf[v] <= lim.depth
                     && IsDistance(out, start, v, st.depthOf[v])
  }

  /** Nothing is recorded before everything strictly nearer than it. */
  ghost predicate ClosestFirst(out: Adjacency, start: string, depthOf: map<string, nat>) {
    forall v, w :: v in depthOf && Nearer(out, start, w, depthOf[v]) ==> w == start || w in depthOf
  }

  ghost predicate Nearer(out: Adjacency, start: string, w: string, d: nat) {
    d > 0 && w in Within(out, start, d - 1)
  }

  /** Every queued item is a visited ID at its depth, between `k` and `k + 1`, in order. */
  ghost predicate QueueInOrder(start: string, st: State, k: nat) {
    && (forall i :: 0 <= i < |st.queue| ==>
                      && Visited(start, st, st.queue[i].id)
                      && st.queue[i].depth == Depth(start, st, st.queue[i].id)
                      && k <= st.queue[i].depth <= k + 1)
    && (forall i, j :: 0 <= i < j < |st.queue| ==> st.queue[i].depth <= st.queue[j].depth)
  }

  ghost predicate Queued(st: State, v: string) {
    exists i :: 0 <= i < |st.queue| && st.queue[i].id == v
  }

  /** The edges of `u` have been looked at. */
  ghost predicate Expanded(out: Adjacency, start: string, lim: Limits, st: State, u: string)
    requires Visited(start, st, u)
  {
    forall w :: w in out(u) ==>
                  Visited(start, st, w) || (st.truncated && Depth(start, st, u) == lim.depth)
  }

  /** A set flag has a witness that the walk will never record. */
  ghost predicate FlagJustified(out: Adjacency, start: string, st: State) {
    st.truncated ==> exists w :: Reachable(out, start, w) && !Visited(start, st, w)
  }

  ghost predicate Counted(lim: Limits, st: State) {
    && |st.depthOf| <= lim.nodes && |st.depthOf| <= lim.edges
    && |st.depthOf| <= st.edges
    && (!st.truncated ==> st.edges == |st.depthOf|)
  }

  ghost predicate OthersExpanded(out: Adjacency, start: string, lim: Limits, st: State, cur: string) {
    forall u :: Visited(start, st, u) && u != cur && !Queued(st, u) ==> Expanded(out, start, lim, st, u)
  }

  ghost predicate RestCovered(out: Adjacency, start: string, lim: Limits, st: State, cur: Item, rest: seq<string>) {
    forall w :: w in out(cur.id) ==>
                  w in rest || Visited(start, st, w) || (st.truncated && cur.depth == lim.depth)
  }

  /** While the edges `rest` of `cur` are still to be looked at. */
  ghost predicate Scanning(out: Adjacency, start: string, lim: Limits, st: State, cur: Item, rest: seq<string>) {
    && !st.stopped
    && Exact(out, start, lim, st) && ClosestFirst(out, start, st.depthOf)
    && Visited(start, st, cur.id) && cur.depth == Depth(start, st, cur.id)
    && QueueInOrder(start, st, cur.depth)
    && OthersExpanded(out, start, lim, st, cur.id)
    && RestCovered(out, start, lim, st, cur, rest)
    && FlagJustified(out, start, st)
    && Counted(lim, st)
    && (st.truncated ==> cur.depth == lim.depth)
  }

  ghost predicate AllExpanded(out: Adjacency, start: string, lim: Limits, st: State) {
    forall u :: Visited(start, st, u) && !Queued(st, u) ==> Expanded(out, start, lim, st, u)
  }

  ghost predicate QueueAtHorizon(lim: Limits, st: State) {
    forall i :: 0 <= i < |st.queue| ==> st.queue[i].depth == lim.depth
  }

  ghost predicate ClosedUnder(out: Adjacency, start: string, st: State) {
    forall u, w :: Visited(start, st, u) && w in out(u) ==> Visited(start, st, w)
  }

  /** The walk has recorded every ID within the depth limit, or it has filled the node cap or
      the edge budget and more exist. */
  ghost predicate HorizonSettled(out: Adjacency, start: string, lim: Limits, st: State) {
    || Horizon(out, start, lim) <= st.depthOf.Keys
    || (|Horizon(out, start, lim)| > |st.depthOf| && (|st.depthOf| == lim.nodes || |st.depthOf| == lim.edges))
  }

  /** Between two items. */
  ghost predicate Walking(out: Adjacency, start: string, lim: Limits, st: State) {
    && !st.stopped
    && Exact(out, start, lim, st) && ClosestFirst(out, start, st.depthOf)
    && (exists k :: QueueInOrder(start, st, k))
    && AllExpanded(out, start, lim, st)
    && FlagJustified(out, start, st)
    && Counted(lim, st)
    && (st.truncated ==> QueueAtHorizon(lim, st))
  }

  /** What holds at the end, early return or not. */
  ghost predicate Finished(out: Adjacency, start: string, lim: Limits, st: State) {
    && Exact(out, start, lim, st) && ClosestFirst(out, start, st.depthOf)
    && FlagJustified(out, start, st)
    && (!st.truncated ==> ClosedUnder(out, start, st))
    && |st.depthOf| <= lim.nodes && |st.depthOf| <= lim.edges
    && HorizonSettled(out, start, lim, st)
    && (!st.stopped ==> Horizon(out, start, lim) <= st.depthOf.Keys)
  }

  ghost function Horizon(out: Adjacency, start: string, lim: Limits): set<string> {
    Within(out, start, lim.depth) - {start}
  }

  lemma DepthIsLeast(out: Adjacency, start: string, lim: Limits, st: State, u: string, n: nat)
    requires Exact(out, start, lim, st) && Visited(start, st, u)
    requires u in Within(out, start, n)
    ensures Depth(start, st, u) <= n
  {
    if Depth(start, st, u) > n {
      assert u != start && IsDistance(out, start, u, st.depthOf[u]);
      WithinGrows(out, start, n, st.depthOf[u] - 1);
    }
  }

  lemma Predecessor(out: Adjacency, start: string, n: nat, v: string) returns (u: string)
    requires n > 0 && v in Within(out, start, n) && v !in Within(out, start, n - 1)
    ensures u in Within(out, start, n - 1) && v in out(u)
  {
    u :| u in Within(out, start, n - 1) && v in out(u);
  }

  ghost predicate ClosedBelow(out: Adjacency, start: string, lim: Limits, st: State, k: nat) {
    forall u :: Visited(start, st, u) && Depth(start, st, u) < k ==> Expanded(out, start, lim, st, u)
  }

  ghost predicate AllVisited(start: string, st: State, ids: set<string>) {
    forall v :: v in ids ==> Visited(start, st, v)
  }

  lemma ClosedMeansVisited(out: Adjacency, start: string, lim: Limits, st: State, k: nat, u: string, w: string)
    requires ClosedBelow(out, start, lim, st, k) && k <= lim.depth
    requires Visited(start, st, u) && Depth(start, st, u) < k && w in out(u)
    ensures Visited(start, st, w)
  {
    assert Expanded(out, start, lim, st, u);
  }

  /** Everything nearer than the item being expanded has been visited. */
  lemma {:induction false} NearerIsVisited(out: Adjacency, start: string, lim: Limits, st: State, k: nat, n: nat,
                                           v: string)
    requires Exact(out, start, lim, st) && n <= k <= lim.depth
    requires ClosedBelow(out, start, lim, st, k)
    requires v in Within(out, start, n)
    ensures Visited(start, st, v)
    decreases n
  {
    if n > 0 {
      if v in Within(out, start, n - 1) {
        NearerIsVisited(out, start, lim, st, k, n - 1, v);
      } else {
        var u := Predecessor(out, start, n, v);
        NearerIsVisited(out, start, lim, st, k, n - 1, u);
        DepthIsLeast(out, start, lim, st, u, n - 1);
        ClosedMeansVisited(out, start, lim, st, k, u, v);
      }
    }
  }

  // ---- The invariant is kept ----

  lemma LevelIsClosed(out: Adjacency, start: string, lim: Limits, st: State, cur: Item, rest: seq<string>)
    requires Scanning(out, start, lim, st, cur, rest) && cur.depth <= lim.depth
    ensures AllVisited(start, st, Within(out, start, cur.depth))
  {
    forall u | Visited(start, st, u) && Depth(start, st, u) < cur.depth
      ensures Expanded(out, start, lim, st, u)
    {
      assert !Queued(st, u);
    }
    forall v | v in Within(out, start, cur.depth)
      ensures Visited(start, st, v)
    {
      NearerIsVisited(out, start, lim, st, cur.depth, cur.depth, v);
    }
  }

  lemma CurIsWithin(out: Adjacency, start: string, lim: Limits, st: State, cur: Item, rest: seq<string>)
    requires Scanning(out, start, lim, st, cur, rest)
    ensures cur.depth <= lim.depth && cur.id in Within(out, start, cur.depth)
  {
  }

  /** A new ID is recorded at its true distance, because the whole level below it has been
      visited. */
  lemma RecordIsExact(out: Adjacency, start: string, lim: Limits, st: State, cur: Item, rest: seq<string>, to: string)
    requires Scanning(out, start, lim, st, cur, rest) && to in out(cur.id)
    requires !Visited(start, st, to) && cur.depth < lim.depth
    ensures IsDistance(out, start, to, cur.depth + 1)
    ensures AllVisited(start, st, Within(out, start, cur.depth))
  {
    CurIsWithin(out, start, lim, st, cur, rest);
    LevelIsClosed(out, start, lim, st, cur, rest);
    WithinStep(out, start, cur.depth, cur.id, to);
  }

  ghost function Recorded(st: State, to: string, d: nat): State {
    State(st.queue + [Item(to, d)], st.depthOf[to := d], st.edges + 1, st.truncated, st.stopped)
  }

  lemma RecordKeepsExpanded(out: Adjacency, start: string, lim: Limits, st: State, cur: string, to: string, d: nat)
    requires !Visited(start, st, to) && OthersExpanded(out, start, lim, st, cur)
    ensures OthersExpanded(out, start, lim, Recorded(st, to, d), cur)
  {
    var st' := Recorded(st, to, d);
    forall u | Visited(start, st', u) && u != cur && !Queued(st', u)
      ensures Expanded(out, start, lim, st', u)
    {
      assert st'.queue[|st.queue|].id == to;
      assert forall i :: 0 <= i < |st.queue| ==> st'.queue[i] == st.queue[i];
      assert Expanded(out, start, lim, st, u);
    }
  }

  lemma RecordKeepsQueue(start: string, st: State, k: nat, to: string)
    requires QueueInOrder(start, st, k) && !Visited(start, st, to)
    ensures QueueInOrder(start, Recorded(st, to, k + 1), k)
  {
    var st' := Recorded(st, to, k + 1);
    forall i | 0 <= i < |st'.queue|
      ensures Visited(start, st', st'.queue[i].id)
      ensures st'.queue[i].depth == Depth(start, st', st'.queue[i].id)
      ensures k <= st'.queue[i].depth <= k + 1
    {
      assert i < |st.queue| ==> st'.queue[i] == st.queue[i];
    }
  }

  lemma RecordKeepsExact(out: Adjacency, start: string, lim: Limits, st: State, to: string, d: nat)
    requires Exact(out, start, lim, st) && !Visited(start, st, to)
    requires 0 < d <= lim.depth && IsDistance(out, start, to, d)
    ensures Exact(out, start, lim, Recorded(st, to, d))
  {
  }

  lemma RecordKeepsClosest(out: Adjacency, start: string, st: State, to: string, d: nat)
    requires ClosestFirst(out, start, st.depthOf) && !Visited(start, st, to)
    requires AllVisited(start, st, Within(out, start, d))
    ensures ClosestFirst(out, start, Recorded(st, to, d + 1).depthOf)
  {
  }

  lemma RecordKeepsRest(out: Adjacency, start: string, lim: Limits, st: State, cur: Item, rest: seq<string>, to: string,
                        d: nat)
    requires !Visited(start, st, to) && RestCovered(out, start, lim, st, cur, [to] + rest)
    ensures RestCovered(out, start, lim, Recorded(st, to, d), cur, rest)
  {
  }

  ghost predicate MayRecord(out: Adjacency, start: string, lim: Limits, st: State, cur: Item, rest: seq<string>,
                            to: string)
  {
    && Scanning(out, start, lim, st, cur, [to] + rest) && to in out(cur.id)
    && !Visited(start, st, to) && cur.depth + 1 <= lim.depth
    && |st.depthOf| < lim.nodes && st.edges < lim.edges
  }

  lemma RecordKeepsExactAndQueue(out: Adjacency, start: string, lim: Limits, st: State, cur: Item, rest: seq<string>,
                                 to: string)
    requires MayRecord(out, start, lim, st, cur, rest, to)
    ensures Exact(out, start, lim, Recorded(st, to, cur.depth + 1))
    ensures ClosestFirst(out, start, Recorded(st, to, cur.depth + 1).depthOf)
    ensures QueueInOrder(start, Recorded(st, to, cur.depth + 1), cur.depth)
  {
    RecordIsExact(out, start, lim, st, cur, [to] + rest, to);
    RecordKeepsExact(out, start, lim, st, to, cur.depth + 1);
    RecordKeepsClosest(out, start, st, to, cur.depth);
    RecordKeepsQueue(start, st, cur.depth, to);
  }

  lemma RecordKeepsCoverage(out: Adjacency, start: string, lim: Limits, st: State, cur: Item, rest: seq<string>,
                            to: string)
    requires MayRecord(out, start, lim, st, cur, rest, to)
    ensures OthersExpanded(out, start, lim, Recorded(st, to, cur.depth + 1), cur.id)
    ensures RestCovered(out, start, lim, Recorded(st, to, cur.depth + 1), cur, rest)
    ensures Counted(lim, Recorded(st, to, cur.depth + 1)) && !st.truncated
    ensures cur.id != to && Visited(start, st, cur.id) && cur.depth == Depth(start, st, cur.id)
  {
    RecordKeepsExpanded(out, start, lim, st, cur.id, to, cur.depth + 1);
    RecordKeepsRest(out, start, lim, st, cur, rest, to, cur.depth + 1);
  }

  lemma RecordKeeps(out: Adjacency, start: string, lim: Limits, st: State, cur: Item, rest: seq<string>, to: string)
    requires MayRecord(out, start, lim, st, cur, rest, to)
    ensures Scanning(out, start, lim, Recorded(st, to, cur.depth + 1), cur, rest)
  {
    RecordKeepsExactAndQueue(out, start, lim, st, cur, rest, to);
    RecordKeepsCoverage(out, start, lim, st, cur, rest, to);
  }

  /** An ID already visited is skipped. */
  lemma SkipKeeps(out: Adjacency, start: string, lim: Limits, st: State, cur: Item, rest: seq<string>, to: string)
    requires Scanning(out, start, lim, st, cur, [to] + rest) && Visited(start, st, to)
    ensures Scanning(out, start, lim, st, cur, rest)
  {
    assert RestCovered(out, start, lim, st, cur, rest);
  }

  lemma FlagHasWitness(out: Adjacency, start: string, lim: Limits, st: State, cur: Item, rest: seq<string>, to: string)
    requires Scanning(out, start, lim, st, cur, rest) && to in out(cur.id)
    ensures to in Within(out, start, cur.depth + 1)
    ensures Reachable(out, start, to)
  {
    CurIsWithin(out, start, lim, st, cur, rest);
    WithinStep(out, start, cur.depth, cur.id, to);
  }

  /** An unvisited ID beyond the depth horizon sets the flag and is never recorded. */
  lemma HorizonKeeps(out: Adjacency, start: string, lim: Limits, st: State, cur: Item, rest: seq<string>, to: string)
    requires Scanning(out, start, lim, st, cur, [to] + rest) && to in out(cur.id)
    requires !Visited(start, st, to) && cur.depth + 1 > lim.depth
    ensures Scanning(out, start, lim, st.(edges := st.edges + 1, truncated := true), cur, rest)
  {
    var st' := st.(edges := st.edges + 1, truncated := true);
    CurIsWithin(out, start, lim, st, cur, [to] + rest);
    HorizonKeepsCoverage(out, start, lim, st, cur, rest, to);
    HorizonKeepsFlag(out, start, lim, st, cur, rest, to);
    assert QueueInOrder(start, st', cur.depth);
  }

  lemma HorizonKeepsFlag(out: Adjacency, start: string, lim: Limits, st: State, cur: Item, rest: seq<string>,
                         to: string)
    requires Scanning(out, start, lim, st, cur, [to] + rest) && to in out(cur.id) && !Visited(start, st, to)
    ensures var st' := st.(edges := st.edges + 1, truncated := true);
            FlagJustified(out, start, st') && Counted(lim, st')
  {
    FlagHasWitness(out, start, lim, st, cur, [to] + rest, to);
    assert !Visited(start, st.(edges := st.edges + 1, truncated := true), to);
  }

  lemma FlagKeepsExpanded(out: Adjacency, start: string, lim: Limits, st: State, cur: string)
    requires OthersExpanded(out, start, lim, st, cur)
    ensures OthersExpanded(out, start, lim, st.(edges := st.edges + 1, truncated := true), cur)
  {
    var st' := st.(edges := st.edges + 1, truncated := true);
    forall u | Visited(start, st', u) && u != cur && !Queued(st', u)
      ensures Expanded(out, start, lim, st', u)
    {
      assert Visited(start, st, u) && !Queued(st, u);
      assert Expanded(out, start, lim, st, u);
    }
  }

  /** The recorded depths alone decide these. */
  lemma SameRecord(out: Adjacency, start: string, lim: Limits, st: State, st': State)
    requires st'.depthOf == st.depthOf
    ensures Exact(out, start, lim, st) ==> Exact(out, start, lim, st')
    ensures ClosestFirst(out, start, st.depthOf) ==> ClosestFirst(out, start, st'.depthOf)
    ensures HorizonSettled(out, start, lim, st) ==> HorizonSettled(out, start, lim, st')
  {
  }

  lemma HorizonKeepsCoverage(out: Adjacency, start: string, lim: Limits, st: State, cur: Item, rest: seq<string>,
                             to: string)
    requires Scanning(out, start, lim, st, cur, [to] + rest) && cur.depth == lim.depth
    ensures var st' := st.(edges := st.edges + 1, truncated := true);
            && OthersExpanded(out, start, lim, st', cur.id) && RestCovered(out, start, lim, st', cur, rest)
            && Exact(out, start, lim, st') && ClosestFirst(out, start, st'.depthOf)
  {
    FlagKeepsExpanded(out, start, lim, st, cur.id);
    SameRecord(out, start, lim, st, st.(edges := st.edges + 1, truncated := true));
  }

  lemma RecordedIsInHorizon(out: Adjacency, start: string, lim: Limits, st: State)
    requires Exact(out, start, lim, st)
    ensures st.depthOf.Keys <= Horizon(out, start, lim)
  {
    forall v | v in st.depthOf
      ensures v in Within(out, start, lim.depth)
    {
      assert IsDistance(out, start, v, st.depthOf[v]);
      WithinGrows(out, start, st.depthOf[v], lim.depth);
    }
  }

  lemma HorizonHasMore(out: Adjacency, start: string, lim: Limits, st: State, to: string)
    requires Exact(out, start, lim, st) && !Visited(start, st, to)
    requires to in Within(out, start, lim.depth)
    ensures |Horizon(out, start, lim)| > |st.depthOf|
  {
    RecordedIsInHorizon(out, start, lim, st);
    SubsetIsNoLarger(st.depthOf.Keys + {to}, Horizon(out, start, lim));
    assert |st.depthOf.Keys + {to}| == |st.depthOf.Keys| + 1;
  }

  /** An early return is taken only with something left to record. */
  lemma StopSettlesHorizon(out: Adjacency, start: string, lim: Limits, st: State, cur: Item, rest: seq<string>,
                           to: string)
    requires Scanning(out, start, lim, st, cur, [to] + rest) && to in out(cur.id) && !Visited(start, st, to)
    requires st.edges + 1 > lim.edges || (cur.depth + 1 <= lim.depth && |st.depthOf| >= lim.nodes)
    ensures HorizonSettled(out, start, lim, st)
  {
    CurIsWithin(out, start, lim, st, cur, [to] + rest);
    if cur.depth == lim.depth {
      LevelIsClosed(out, start, lim, st, cur, [to] + rest);
    } else {
      FlagHasWitness(out, start, lim, st, cur, [to] + rest, to);
      WithinGrows(out, start, cur.depth + 1, lim.depth);
      HorizonHasMore(out, start, lim, st, to);
    }
  }

  lemma StopFinishes(out: Adjacency, start: string, lim: Limits, st: State, cur: Item, rest: seq<string>, to: string,
                     st': State)
    requires Scanning(out, start, lim, st, cur, [to] + rest) && to in out(cur.id) && !Visited(start, st, to)
    requires st.edges + 1 > lim.edges || (cur.depth + 1 <= lim.depth && |st.depthOf| >= lim.nodes)
    requires st'.depthOf == st.depthOf && st'.truncated && st'.stopped
    ensures Finished(out, start, lim, st')
  {
    StopSettlesHorizon(out, start, lim, st, cur, rest, to);
    SameRecord(out, start, lim, st, st');
    FlagHasWitness(out, start, lim, st, cur, [to] + rest, to);
    assert !Visited(start, st', to);
    assert FlagJustified(out, start, st');
  }

  /** The inner loop, over the edges of one item. */
  lemma {:induction false} ScanKeeps(out: Adjacency, start: string, lim: Limits, st: State, cur: Item,
                                     targets: seq<string>)
    requires Scanning(out, start, lim, st, cur, targets)
    requires forall w :: w in targets ==> w in out(cur.id)
    ensures var r := Scan(start, lim, st, cur.depth, targets);
            if r.stopped then Finished(out, start, lim, r) else Scanning(out, start, lim, r, cur, [])
    decreases |targets|
  {
    if targets != [] {
      var to, rest := targets[0], targets[1..];
      assert targets == [to] + rest;
      var next := Visit(start, lim, st, cur.depth, to);
      VisitKeeps(out, start, lim, st, cur, rest, to);
      if next.stopped {
        assert Scan(start, lim, next, cur.depth, rest) == next;
      } else {
        ScanKeeps(out, start, lim, next, cur, rest);
      }
    }
  }

  lemma VisitKeeps(out: Adjacency, start: string, lim: Limits, st: State, cur: Item, rest: seq<string>, to: string)
    requires Scanning(out, start, lim, st, cur, [to] + rest) && to in out(cur.id)
    ensures var r := Visit(start, lim, st, cur.depth, to);
            if r.stopped then Finished(out, start, lim, r) else Scanning(out, start, lim, r, cur, rest)
  {
    var r := Visit(start, lim, st, cur.depth, to);
    if Visited(start, st, to) {
      SkipKeeps(out, start, lim, st, cur, rest, to);
    } else if r.stopped {
      StopFinishes(out, start, lim, st, cur, rest, to, r);
    } else if cur.depth + 1 > lim.depth {
      assert r == st.(edges := st.edges + 1, truncated := true);
      HorizonKeeps(out, start, lim, st, cur, rest, to);
    } else {
      assert r == Recorded(st, to, cur.depth + 1);
      RecordKeeps(out, start, lim, st, cur, rest, to);
    }
  }

  // ---- From one item to the next ----

  lemma DequeueKeepsOrder(start: string, st: State, k: nat)
    requires QueueInOrder(start, st, k) && st.queue != []
    ensures QueueInOrder(start, st.(queue := st.queue[1..]), st.queue[0].depth)
  {
    var st' := st.(queue := st.queue[1..]);
    assert forall i :: 0 <= i < |st'.queue| ==> st'.queue[i] == st.queue[i + 1];
  }

  lemma DequeueKeepsExpanded(out: Adjacency, start: string, lim: Limits, st: State)
    requires AllExpanded(out, start, lim, st) && st.queue != []
    ensures OthersExpanded(out, start, lim, st.(queue := st.queue[1..]), st.queue[0].id)
  {
    var st' := st.(queue := st.queue[1..]);
    forall u | Visited(start, st', u) && u != st.queue[0].id && !Queued(st', u)
      ensures Expanded(out, start, lim, st', u)
    {
      assert forall i :: 0 < i < |st.queue| ==> st'.queue[i - 1] == st.queue[i];
      assert Expanded(out, start, lim, st, u);
    }
  }

  lemma DequeueInOrder(out: Adjacency, start: string, lim: Limits, st: State)
    requires Walking(out, start, lim, st) && st.queue != []
    ensures QueueInOrder(start, st.(queue := st.queue[1..]), st.queue[0].depth)
    ensures Visited(start, st, st.queue[0].id) && st.queue[0].depth == Depth(start, st, st.queue[0].id)
  {
    var k :| QueueInOrder(start, st, k);
    DequeueKeepsOrder(start, st, k);
  }

  lemma DequeueStartsScan(out: Adjacency, start: string, lim: Limits, st: State)
    requires Walking(out, start, lim, st) && st.queue != []
    ensures Scanning(out, start, lim, st.(queue := st.queue[1..]), st.queue[0], out(st.queue[0].id))
  {
    var st', cur := st.(queue := st.queue[1..]), st.queue[0];
    DequeueInOrder(out, start, lim, st);
    DequeueKeepsExpanded(out, start, lim, st);
    SameRecord(out, start, lim, st, st');
    FlagCarries(out, start, st, st');
    assert RestCovered(out, start, lim, st', cur, out(cur.id));
  }

  lemma FlagCarries(out: Adjacency, start: string, st: State, st': State)
    requires FlagJustified(out, start, st)
    requires st'.depthOf == st.depthOf && st'.truncated == st.truncated
    ensures FlagJustified(out, start, st')
  {
    if st.truncated {
      var w :| Reachable(out, start, w) && !Visited(start, st, w);
      assert !Visited(start, st', w);
    }
  }

  lemma ScannedIsExpanded(out: Adjacency, start: string, lim: Limits, st: State, cur: Item)
    requires Scanning(out, start, lim, st, cur, [])
    ensures AllExpanded(out, start, lim, st)
  {
  }

  lemma QueueReachesHorizon(out: Adjacency, start: string, lim: Limits, st: State, cur: Item)
    requires Scanning(out, start, lim, st, cur, [])
    ensures st.truncated ==> QueueAtHorizon(lim, st)
  {
  }

  lemma ScanEndsBetweenItems(out: Adjacency, start: string, lim: Limits, st: State, cur: Item)
    requires Scanning(out, start, lim, st, cur, [])
    ensures Walking(out, start, lim, st)
  {
    ScannedIsExpanded(out, start, lim, st, cur);
    QueueReachesHorizon(out, start, lim, st, cur);
    assert QueueInOrder(start, st, cur.depth);
  }

  lemma DrainedIsExpanded(out: Adjacency, start: string, lim: Limits, st: State)
    requires Walking(out, start, lim, st) && st.queue == []
    ensures ClosedBelow(out, start, lim, st, lim.depth)
    ensures !st.truncated ==> ClosedUnder(out, start, st)
  {
    forall u | Visited(start, st, u)
      ensures Expanded(out, start, lim, st, u)
    {
      assert !Queued(st, u);
    }
    if !st.truncated {
      forall u, w | Visited(start, st, u) && w in out(u)
        ensures Visited(start, st, w)
      {
        assert Expanded(out, start, lim, st, u);
      }
    }
  }

  lemma DrainedIsFinished(out: Adjacency, start: string, lim: Limits, st: State)
    requires Walking(out, start, lim, st) && st.queue == []
    ensures Finished(out, start, lim, st)
  {
    DrainedIsExpanded(out, start, lim, st);
    forall v | v in Horizon(out, start, lim)
      ensures v in st.depthOf
    {
      NearerIsVisited(out, start, lim, st, lim.depth, lim.depth, v);
    }
  }

  lemma {:induction false} RunFinishes(out: Adjacency, start: string, lim: Limits, st: State)
    requires Walking(out, start, lim, st)
    ensures Finished(out, start, lim, Run(out, start, lim, st))
    decreases |st.queue| + lim.nodes - |st.depthOf|
  {
    if st.queue == [] {
      DrainedIsFinished(out, start, lim, st);
    } else {
      var cur, st' := st.queue[0], st.(queue := st.queue[1..]);
      DequeueStartsScan(out, start, lim, st);
      ScanKeeps(out, start, lim, st', cur, out(cur.id));
      var next := Scan(start, lim, st', cur.depth, out(cur.id));
      if next.stopped {
        assert Run(out, start, lim, next) == next;
      } else {
        ScanEndsBetweenItems(out, start, lim, next, cur);
        RunFinishes(out, start, lim, next);
      }
    }
  }

  lemma WalkFinishes(out: Adjacency, start: string, lim: Limits)
    ensures Finished(out, start, lim, Walk(out, start, lim))
  {
    var st := Initial(start);
    assert QueueInOrder(start, st, 0);
    assert st.queue[0].id == start;
    RunFinishes(out, start, lim, st);
  }

  // ---- What a caller may rely on ----

  /** Every depth returned is the true shortest distance, and everything strictly nearer
      than a returned ID is returned too, whichever bound ended the walk. */
  lemma WalkDistancesAreExact(out: Adjacency, start: string, lim: Limits, v: string)
    ensures var found := Walk(out, start, lim).depthOf;
            && start !in found && |found| <= lim.nodes
            && (v in found ==> 0 < found[v] <= lim.depth && IsDistance(out, start, v, found[v]))
            && (forall w :: v in found && Nearer(out, start, w, found[v]) ==> w == start || w in found)
  {
    WalkFinishes(out, start, lim);
  }

  lemma {:induction false} ClosedHoldsReachable(out: Adjacency, start: string, st: State, n: nat, v: string)
    requires ClosedUnder(out, start, st) && v in Within(out, start, n)
    ensures Visited(start, st, v)
    decreases n
  {
    if n > 0 && v !in Within(out, start, n - 1) {
      var u := Predecessor(out, start, n, v);
      ClosedHoldsReachable(out, start, st, n - 1, u);
    } else if n > 0 {
      ClosedHoldsReachable(out, start, st, n - 1, v);
    }
  }

  /** The flag is exact across the depth, node and edge bounds together: it is clear if and
      only if every ID reachable from the start has been returned. */
  lemma WalkFlagIsExact(out: Adjacency, start: string, lim: Limits)
    ensures var r := Walk(out, start, lim);
            !r.truncated <==> forall v :: Reachable(out, start, v) ==> v == start || v in r.depthOf
  {
    WalkFinishes(out, start, lim);
    var r := Walk(out, start, lim);
    if !r.truncated {
      forall v | Reachable(out, start, v)
        ensures v == start || v in r.depthOf
      {
        var n: nat :| v in Within(out, start, n);
        ClosedHoldsReachable(out, start, r, n, v);
      }
    } else {
      var w :| Reachable(out, start, w) && !Visited(start, r, w);
    }
  }

  /** The walk returns everything within the depth limit exactly when there is no more of it
      than the node cap and the edge budget admit: a bound never costs a result that the
      bound has room for. */
  lemma WalkCoversHorizon(out: Adjacency, start: string, lim: Limits)
    ensures var near := Horizon(out, start, lim);
            && Walk(out, start, lim).depthOf.Keys <= near
            && (Walk(out, start, lim).depthOf.Keys == near <==> |near| <= lim.nodes && |near| <= lim.edges)
            && (!Walk(out, start, lim).stopped ==> Walk(out, start, lim).depthOf.Keys == near)
  {
    WalkFinishes(out, start, lim);
    RecordedIsInHorizon(out, start, lim, Walk(out, start, lim));
  }

  lemma SettledCounts(out: Adjacency, start: string, lim: Limits, st: State)
    requires HorizonSettled(out, start, lim, st) && st.depthOf.Keys <= Horizon(out, start, lim)
    ensures |st.depthOf| <= |Horizon(out, start, lim)|
    ensures |st.depthOf| in {|Horizon(out, start, lim)|, lim.nodes, lim.edges}
  {
    assert |st.depthOf| == |st.depthOf.Keys|;
    SubsetIsNoLarger(st.depthOf.Keys, Horizon(out, start, lim));
    if Horizon(out, start, lim) <= st.depthOf.Keys {
      assert st.depthOf.Keys == Horizon(out, start, lim);
    }
  }

  /** So the number of IDs returned is known in advance: the least of what there is, the node
      cap and the edge budget. */
  lemma WalkFillsItsBounds(out: Adjacency, start: string, lim: Limits)
    ensures var n := |Walk(out, start, lim).depthOf|;
            && n <= |Horizon(out, start, lim)| && n <= lim.nodes && n <= lim.edges
            && n in {|Horizon(out, start, lim)|, lim.nodes, lim.edges}
  {
    WalkFinishes(out, start, lim);
    RecordedIsInHorizon(out, start, lim, Walk(out, start, lim));
    SettledCounts(out, start, lim, Walk(out, start, lim));
  }

  // ---- Comparing two walks ----

  lemma {:induction false} FewerEdgesReachLess(a: Adjacency, b: Adjacency, start: string, n: nat, v: string)
    requires forall u, w :: w in a(u) ==> w in b(u)
    requires v in Within(a, start, n)
    ensures v in Within(b, start, n)
    decreases n
  {
    if n > 0 && v in Within(a, start, n - 1) {
      FewerEdgesReachLess(a, b, start, n - 1, v);
    } else if n > 0 {
      var u := Predecessor(a, start, n, v);
      FewerEdgesReachLess(a, b, start, n - 1, u);
      WithinStep(b, start, n - 1, u, v);
    }
  }

  /** When the walk over all edges covers its horizon, so does the walk over a subset of the
      edges, although it spends its own budgets in its own order. */
  lemma SmallerWalkCoversHorizon(some: Adjacency, all: Adjacency, start: string, lim: Limits)
    requires forall u, w :: w in some(u) ==> w in all(u)
    requires Walk(all, start, lim).depthOf.Keys == Horizon(all, start, lim)
    ensures Walk(some, start, lim).depthOf.Keys == Horizon(some, start, lim)
  {
    WalkCoversHorizon(all, start, lim);
    WalkCoversHorizon(some, start, lim);
    forall v | v in Horizon(some, start, lim)
      ensures v in Horizon(all, start, lim)
    {
      FewerEdgesReachLess(some, all, start, lim.depth, v);
    }
    SubsetIsNoLarger(Horizon(some, start, lim), Horizon(all, start, lim));
  }

  ghost predicate QueueIn(region: string -> bool, st: State) {
    forall i :: 0 <= i < |st.queue| ==> region(st.queue[i].id)
  }

  lemma {:induction false} ScanStaysIn(region: string -> bool, start: string, lim: Limits, st: State, depth: nat,
                                       targets: seq<string>)
    requires QueueIn(region, st) && forall w :: w in targets ==> region(w)
    ensures QueueIn(region, Scan(start, lim, st, depth, targets))
    decreases |targets|
  {
    if targets != [] && !st.stopped {
      assert targets[0] in targets;
      ScanStaysIn(region, start, lim, Visit(start, lim, st, depth, targets[0]), depth, targets[1..]);
    }
  }

  ghost predicate SameIn(region: string -> bool, a: Adjacency, b: Adjacency) {
    && (forall u :: region(u) ==> a(u) == b(u))
    && (forall u, w :: region(u) && w in a(u) ==> region(w))
  }

  /** The walk reads the graph only through the adjacency of what it can reach: two
      adjacencies that agree on a closed region give the same walk from inside it. */
  lemma {:induction false} RunReadsAdjacency(region: string -> bool, a: Adjacency, b: Adjacency, start: string,
                                             lim: Limits, st: State)
    requires SameIn(region, a, b) && QueueIn(region, st)
    requires |st.depthOf| <= lim.nodes
    ensures Run(a, start, lim, st) == Run(b, start, lim, st)
    decreases |st.queue| + lim.nodes - |st.depthOf|
  {
    if st.queue != [] && !st.stopped {
      var cur, popped := st.queue[0], st.(queue := st.queue[1..]);
      assert region(cur.id) && QueueIn(region, popped);
      ScanStaysIn(region, start, lim, popped, cur.depth, a(cur.id));
      RunReadsAdjacency(region, a, b, start, lim, Scan(start, lim, popped, cur.depth, a(cur.id)));
    }
  }

  /** From `u`, both adjacencies lead to the same IDs, all of them among `keys`. */
  ghost predicate SameFrom(keys: set<string>, a: Adjacency, b: Adjacency, u: string) {
    a(u) == b(u) && forall w :: w in a(u) ==> w in keys
  }

  lemma WalkReadsAdjacency(keys: set<string>, a: Adjacency, b: Adjacency, start: string, lim: Limits)
    requires start in keys && forall u :: u in keys ==> SameFrom(keys, a, b, u)
    ensures Walk(a, start, lim) == Walk(b, start, lim)
  {
    var region := (u: string) => u in keys;
    forall u | region(u)
      ensures a(u) == b(u) && forall w :: w in a(u) ==> region(w)
    {
      assert SameFrom(keys, a, b, u);
    }
    RunReadsAdjacency(region, a, b, start, lim, Initial(start));
  }

  // ---- When a walk over fewer edges finds nothing new ----

  ghost predicate IsSubset(some: Adjacency, all: Adjacency) {
    forall u, w :: w in some(u) ==> w in all(u)
  }

  lemma OneLarger(a: set<string>, x: string, b: set<string>)
    requires a <= b && x in b && x !in a
    ensures |a| + 1 <= |b|
  {
    SubsetIsNoLarger(a + {x}, b);
  }

  /** A walk that records an ID at depth `d` has recorded at least `d` IDs. */
  lemma {:induction false} LevelsAreInhabited(out: Adjacency, start: string, v: string, d: nat)
    requires IsDistance(out, start, v, d)
    ensures |Within(out, start, d) - {start}| >= d
    decreases d
  {
    if d > 0 {
      var u := Predecessor(out, start, d, v);
      PredecessorIsOneNearer(out, start, v, d, u);
      LevelsAreInhabited(out, start, u, d - 1);
      WithinGrows(out, start, 0, d - 1);
      WithinGrows(out, start, d - 1, d);
      var below := Within(out, start, d - 1) - {start};
      OneLarger(below, v, Within(out, start, d) - {start});
    }
  }

  lemma DepthIsPaidFor(out: Adjacency, start: string, lim: Limits, v: string)
    requires v in Walk(out, start, lim).depthOf
    ensures Walk(out, start, lim).depthOf[v] <= |Walk(out, start, lim).depthOf|
  {
    var found := Walk(out, start, lim).depthOf;
    var d := found[v];
    WalkFinishes(out, start, lim);
    var u := Predecessor(out, start, d, v);
    var below := Within(out, start, d - 1) - {start};
    PredecessorIsOneNearer(out, start, v, d, u);
    LevelsAreInhabited(out, start, u, d - 1);
    assert forall w :: w in below ==> Nearer(out, start, w, d);
    OneLarger(below, v, found.Keys);
  }

  lemma PredecessorIsOneNearer(out: Adjacency, start: string, v: string, d: nat, u: string)
    requires d > 0 && IsDistance(out, start, v, d) && u in Within(out, start, d - 1) && v in out(u)
    ensures IsDistance(out, start, u, d - 1)
  {
    if d > 1 {
      var before, near := Within(out, start, d - 2), Within(out, start, d - 1);
      assert u in before ==> v in near;
    }
  }

  /** How far any walk under these limits can look: each level costs at least one ID. */
  function Reach(lim: Limits): nat {
    var n := if lim.nodes < lim.edges then lim.nodes else lim.edges;
    if lim.depth < n then lim.depth else n
  }

  ghost function Near(out: Adjacency, start: string, n: nat): set<string> {
    Within(out, start, n) - {start}
  }

  /** A walk records everything within `n` hops whenever it has room for it. */
  lemma NearIsRecorded(out: Adjacency, start: string, lim: Limits, n: nat)
    requires n <= lim.depth && |Near(out, start, n)| <= lim.nodes && |Near(out, start, n)| <= lim.edges
    ensures Near(out, start, n) <= Walk(out, start, lim).depthOf.Keys
  {
    var st := Walk(out, start, lim);
    WalkFinishes(out, start, lim);
    WithinGrows(out, start, n, lim.depth);
    forall w | w in Near(out, start, n)
      ensures w in st.depthOf
    {
      if v :| v in st.depthOf && v !in Near(out, start, n) {
        RecordedIsFarther(out, start, lim, st, v, w, n);
      } else if w !in st.depthOf {
        OneLarger(st.depthOf.Keys, w, Near(out, start, n));
      }
    }
  }

  /** What is recorded at distance `d` has everything nearer recorded next to it. */
  lemma NearerFillRoom(out: Adjacency, start: string, lim: Limits, v: string, d: nat)
    requires IsDistance(out, start, v, d) && d > 0 && v in Walk(out, start, lim).depthOf
    ensures |Near(out, start, d - 1)| < lim.nodes && |Near(out, start, d - 1)| < lim.edges
  {
    var found := Walk(out, start, lim).depthOf;
    WalkFillsItsBounds(out, start, lim);
    WalkDistancesAreExact(out, start, lim, v);
    DistanceIsUnique(out, start, v, d, found[v]);
    assert v !in Near(out, start, d - 1);
    forall w | w in Near(out, start, d - 1)
      ensures w in found
    {
      assert Nearer(out, start, w, d);
    }
    assert |found| == |found.Keys|;
    OneLarger(Near(out, start, d - 1), v, found.Keys);
  }

  lemma DistanceIsUnique(out: Adjacency, start: string, v: string, d: nat, e: nat)
    requires IsDistance(out, start, v, d) && IsDistance(out, start, v, e)
    ensures d == e
  {
    if d < e {
      WithinGrows(out, start, d, e - 1);
    } else if e < d {
      WithinGrows(out, start, e, d - 1);
    }
  }

  lemma DistantIsNear(out: Adjacency, start: string, v: string, d: nat)
    requires IsDistance(out, start, v, d) && d > 0
    ensures v in Near(out, start, d)
  {
    WithinGrows(out, start, 0, d - 1);
  }

  /** For one ID within the depth limit: it is recorded when everything up to its distance fits
      the node cap and the edge budget, and it is not when everything nearer already fills one
      of them. */
  lemma RoomDecides(out: Adjacency, start: string, lim: Limits, v: string, d: nat)
    requires IsDistance(out, start, v, d) && 0 < d <= lim.depth
    ensures |Near(out, start, d)| <= lim.nodes && |Near(out, start, d)| <= lim.edges ==>
              v in Walk(out, start, lim).depthOf
    ensures |Near(out, start, d - 1)| >= lim.nodes || |Near(out, start, d - 1)| >= lim.edges ==>
              v !in Walk(out, start, lim).depthOf
  {
    if |Near(out, start, d)| <= lim.nodes && |Near(out, start, d)| <= lim.edges {
      NearIsRecorded(out, start, lim, d);
      DistantIsNear(out, start, v, d);
    }
    if v in Walk(out, start, lim).depthOf {
      NearerFillRoom(out, start, lim, v, d);
    }
  }

  lemma RecordedIsFarther(out: Adjacency, start: string, lim: Limits, st: State, v: string, w: string, n: nat)
    requires Exact(out, start, lim, st) && v in st.depthOf && v !in Near(out, start, n) && w in Near(out, start, n)
    ensures Nearer(out, start, w, st.depthOf[v])
  {
    var d := st.depthOf[v];
    assert IsDistance(out, start, v, d) && v != start;
    if d <= n {
      WithinGrows(out, start, d, n);
    } else {
      NearIsNearer(out, start, w, n, d);
    }
  }

  lemma NearIsNearer(out: Adjacency, start: string, w: string, n: nat, d: nat)
    requires n < d && w in Near(out, start, n)
    ensures Nearer(out, start, w, d)
  {
    WithinGrows(out, start, n, d - 1);
  }

  /** The edges of one path. */
  function Along(p: seq<string>): Adjacency {
    (u: string) => Hops(p, u)
  }

  function Hops(p: seq<string>, u: string): seq<string> {
    if |p| < 2 then [] else (if p[0] == u then [p[1]] else []) + Hops(p[1..], u)
  }

  lemma {:induction false} HopsAreSteps(p: seq<string>, u: string, w: string)
    ensures w in Hops(p, u) <==> exists i :: 0 <= i < |p| - 1 && p[i] == u && p[i + 1] == w
  {
    if |p| >= 2 {
      HopsAreSteps(p[1..], u, w);
      if i :| 0 <= i < |p| - 1 && p[i] == u && p[i + 1] == w {
        assert i > 0 ==> p[1..][i - 1] == u && p[1..][i] == w;
      }
      if i :| 0 <= i < |p[1..]| - 1 && p[1..][i] == u && p[1..][i + 1] == w {
        assert p[i + 1] == u && p[i + 2] == w;
      }
    }
  }

  lemma AlongIsPath(all: Adjacency, p: seq<string>)
    requires IsPath(all, p)
    ensures IsSubset(Along(p), all) && IsPath(Along(p), p)
  {
    forall u, w
      ensures w in Along(p)(u) <==> exists i :: 0 <= i < |p| - 1 && p[i] == u && p[i + 1] == w
    {
      HopsAreSteps(p, u, w);
    }
  }

  lemma {:induction false} AlongStaysOnPath(p: seq<string>, n: nat, v: string)
    requires p != [] && v in Within(Along(p), p[0], n)
    ensures v in p
  {
    if n > 0 && v !in Within(Along(p), p[0], n - 1) {
      var u := Predecessor(Along(p), p[0], n, v);
      HopsAreSteps(p, u, v);
    } else if n > 0 {
      AlongStaysOnPath(p, n - 1, v);
    }
  }

  lemma {:induction false} FewElements(p: seq<string>, s: set<string>)
    requires forall v :: v in s ==> v in p
    ensures |s| <= |p|
    decreases |p|
  {
    if p == [] {
      assert s == {};
    } else {
      FewElements(p[1..], s - {p[0]});
      assert forall v :: v in p ==> v == p[0] || v in p[1..];
      assert s <= (s - {p[0]}) + {p[0]};
      SubsetIsNoLarger(s, (s - {p[0]}) + {p[0]});
    }
  }

  /** The walk over a single short path finds its end. */
  lemma PathIsWalked(p: seq<string>, lim: Limits)
    requires p != [] && IsPath(Along(p), p) && |p| <= Reach(lim) + 1 && p[|p| - 1] != p[0]
    ensures p[|p| - 1] in Walk(Along(p), p[0], lim).depthOf
  {
    var out, start := Along(p), p[0];
    PathStaysWithin(out, start, p);
    WithinGrows(out, start, |p| - 1, lim.depth);
    forall v | v in Horizon(out, start, lim)
      ensures v in p[1..]
    {
      AlongStaysOnPath(p, lim.depth, v);
    }
    FewElements(p[1..], Horizon(out, start, lim));
    WalkCoversHorizon(out, start, lim);
  }

  ghost predicate FindsNothingNew(all: Adjacency, start: string, lim: Limits) {
    forall some: Adjacency :: IsSubset(some, all) ==>
      Walk(some, start, lim).depthOf.Keys <= Walk(all, start, lim).depthOf.Keys
  }

  lemma SmallerWalkIsContained(some: Adjacency, all: Adjacency, start: string, lim: Limits, v: string)
    requires IsSubset(some, all) && v in Walk(some, start, lim).depthOf
    requires |Near(all, start, Reach(lim))| <= lim.nodes && |Near(all, start, Reach(lim))| <= lim.edges
    ensures v in Walk(all, start, lim).depthOf
  {
    var d := Walk(some, start, lim).depthOf[v];
    WalkFinishes(some, start, lim);
    DepthIsPaidFor(some, start, lim, v);
    WithinGrows(some, start, d, Reach(lim));
    FewerEdgesReachLess(some, all, start, Reach(lim), v);
    NearIsRecorded(all, start, lim, Reach(lim));
  }

  lemma OmittedIsFoundAlongPath(all: Adjacency, start: string, lim: Limits, v: string)
    requires v in Near(all, start, Reach(lim)) && FindsNothingNew(all, start, lim)
    ensures v in Walk(all, start, lim).depthOf
  {
    var p := PathTo(all, start, Reach(lim), v);
    AlongIsPath(all, p);
    PathIsWalked(p, lim);
    assert Walk(Along(p), start, lim).depthOf.Keys <= Walk(all, start, lim).depthOf.Keys;
  }

  /** Exactly when no walk over a part of the edges, under the same limits, finds anything that
      the walk over all of them leaves out: the IDs that any such walk could look at are no more
      than the node cap and the edge budget admit. */
  lemma NothingIsCrowdedOutExactly(all: Adjacency, start: string, lim: Limits)
    ensures FindsNothingNew(all, start, lim) <==>
            |Near(all, start, Reach(lim))| <= lim.nodes && |Near(all, start, Reach(lim))| <= lim.edges
  {
    var near := Near(all, start, Reach(lim));
    if |near| <= lim.nodes && |near| <= lim.edges {
      forall some: Adjacency, v | IsSubset(some, all) && v in Walk(some, start, lim).depthOf
        ensures v in Walk(all, start, lim).depthOf
      {
        SmallerWalkIsContained(some, all, start, lim, v);
      }
    }
    if FindsNothingNew(all, start, lim) {
      forall v | v in near
        ensures v in Walk(all, start, lim).depthOf
      {
        OmittedIsFoundAlongPath(all, start, lim, v);
      }
      WalkFinishes(all, start, lim);
      SubsetIsNoLarger(near, Walk(all, start, lim).depthOf.Keys);
    }
  }

  /** Under a node cap of one, a start with two neighbours yields the first of them only. */
  lemma CapOfOneKeepsFirst(out: Adjacency, start: string, lim: Limits, a: string, b: string)
    requires out(start) == [a, b] && a != b && a != start && b != start
    requires lim.nodes == 1 && lim.depth >= 1 && lim.edges >= 2
    ensures Walk(out, start, lim).depthOf == map[a := 1]
  {
    var begun := Initial(start).(queue := []);
    var first := Visit(start, lim, begun, 0, a);
    var second := Visit(start, lim, first, 0, b);
    assert first.depthOf == map[a := 1] && second == first.(edges := 2, truncated := true, stopped := true);
    assert [a, b][1..] == [b] && [b][1..] == [];
    assert Scan(start, lim, second, 0, []) == second;
    assert Scan(start, lim, first, 0, [b]) == second;
    assert Scan(start, lim, begun, 0, out(start)) == second;
    assert Run(out, start, lim, second) == second;
  }

  // ---- Distances as paths ----

  /** A path of exactly `n` edges. */
  ghost predicate Joins(out: Adjacency, start: string, v: string, n: nat) {
    exists p :: IsPath(out, p) && p[0] == start && p[|p| - 1] == v && |p| == n + 1
  }

  lemma JoinedIsWithin(out: Adjacency, start: string, v: string, n: nat)
    requires Joins(out, start, v, n)
    ensures v in Within(out, start, n)
  {
    WithinMeansPath(out, start, n, v);
  }

  lemma WithinIsJoined(out: Adjacency, start: string, v: string, d: nat) returns (n: nat)
    requires v in Within(out, start, d)
    ensures n <= d && Joins(out, start, v, n)
  {
    WithinMeansPath(out, start, d, v);
    var p :| IsPath(out, p) && p[0] == start && p[|p| - 1] == v && |p| <= d + 1;
    n := |p| - 1;
  }

  lemma NotJoinedBelow(out: Adjacency, start: string, v: string, d: nat, n: nat)
    requires IsDistance(out, start, v, d) && n < d
    ensures !Joins(out, start, v, n)
  {
    WithinGrows(out, start, n, d - 1);
    if Joins(out, start, v, n) {
      JoinedIsWithin(out, start, v, n);
      assert false;
    }
  }

  lemma DistanceIsJoined(out: Adjacency, start: string, v: string, d: nat)
    requires IsDistance(out, start, v, d)
    ensures Joins(out, start, v, d)
  {
    var n := WithinIsJoined(out, start, v, d);
    if n < d {
      NotJoinedBelow(out, start, v, d, n);
    }
  }
}
