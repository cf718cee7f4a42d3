/** The nearest-neighbour index over sketches (internal/knowledge/similarity.go): the tiered
    insertion and the ranked query. */
module SimilarityIndex {
  import opened Pipeline
  import opened Order
  import opened Text
  import opened Knowledge
  import opened Sketch

  /** The content handle of a sketch: a hash of its lanes, not of its cardinality. */
  type Ident = seq<Word> -> string

  datatype Entry = Entry(id: string, sig: Signature, trust: Trust, title: string, source: string)

  datatype Neighbor = Neighbor(id: string, trust: Trust, sim: real, title: string, source: string)

  datatype Index = Index(entries: map<string, Entry>, max: nat)

  predicate Acceptable(sig: Signature, title: string, source: string) {
    && sig.card > 0 && |title| <= MAX_LABEL_LEN && |source| <= MAX_SOURCE_LEN
    && !HasControl(title) && !HasControl(source)
  }

  /** Curated wins, ingest never overwrites it, and the cap stops new ingest entries only. */
  function Added(ident: Ident, x: Index, sig: Signature, trust: Trust, title: string,
                 source: string): (Index, Option<Entry>)
  {
    var id := ident(sig.min);
    var e := Entry(id, sig, trust, title, source);
    if !Acceptable(sig, title, source) then (x, None)
    else if id in x.entries && x.entries[id].trust.Curated? && trust.Ingest? then (x, Some(x.entries[id]))
    else if id !in x.entries && trust.Ingest? && |x.entries| >= x.max then (x, None)
    else (x.(entries := x.entries[id := e]), Some(e))
  }

  /** Every entry stands under the handle of its own non-empty sketch. */
  ghost predicate Keyed(ident: Ident, x: Index) {
    forall id :: id in x.entries ==>
      && x.entries[id].id == id == ident(x.entries[id].sig.min)
      && |x.entries[id].sig.min| == LANES && x.entries[id].sig.card > 0
  }

  ghost predicate Sized(entries: map<string, Entry>) {
    forall id :: id in entries ==> entries[id].id == id && |entries[id].sig.min| == LANES
  }

  // ---- The ranked query ----

  function NeighborOf(q: Signature, e: Entry): Neighbor
    requires |q.min| == LANES && |e.sig.min| == LANES
  {
    Neighbor(e.id, e.trust, Score(q, e.sig), e.title, e.source)
  }

  /** More similar first, then curated, then by handle. */
  predicate Closer(a: Neighbor, b: Neighbor) {
    || a.sim > b.sim
    || (a.sim == b.sim && ((a.trust.Curated? && b.trust.Ingest?) || (a.trust == b.trust && Before(a.id, b.id))))
  }

  lemma CloserIsOrder()
    ensures StrictPartialOrder(Closer)
    ensures forall a: Neighbor, b: Neighbor :: a.id != b.id ==> Closer(a, b) || Closer(b, a)
  {
    BeforeIsStrictOrder();
  }

  ghost function Hits(entries: map<string, Entry>, q: Signature, minSim: real): set<Neighbor>
    requires Sized(entries) && |q.min| == LANES
  {
    set id | id in entries && Score(q, entries[id].sig) >= minSim :: NeighborOf(q, entries[id])
  }

  function Clamp(minSim: real): real {
    if minSim < 0.0 then 0.0 else if minSim > 1.0 then 1.0 else minSim
  }

  /** `None` stands for a threshold that is not a number. */
  ghost predicate IsNearest(entries: map<string, Entry>, q: Signature, minSim: Option<real>, limit: int,
                            r: seq<Neighbor>)
    requires Sized(entries) && |q.min| == LANES
  {
    if q.card == 0 || minSim.None? then r == []
    else exists ranked :: IsRanking(ranked, Hits(entries, q, Clamp(minSim.value))) && r == FirstOf(ranked, limit)
  }

  ghost predicate IsRanking(ranked: seq<Neighbor>, hits: set<Neighbor>) {
    AscendingBy(Closer, ranked) && forall n :: n in ranked <==> n in hits
  }

  function FirstOf(ranked: seq<Neighbor>, limit: int): seq<Neighbor> {
    if 0 < limit < |ranked| then ranked[..limit] else ranked
  }

  class SimIndex {
    var entries: map<string, Entry>
    const max: nat
    const ident: Ident

    constructor (max: int, ident: Ident)
      ensures State() == Index(map[], if max <= 0 then DEFAULT_MAX_FACTS else max) && this.ident == ident
    {
      entries := map[];
      this.max := if max <= 0 then DEFAULT_MAX_FACTS else max;
      this.ident := ident;
    }

    ghost function State(): Index
      reads this
    {
      Index(entries, max)
    }

    method Add(sig: Signature, trust: Trust, title: string, source: string) returns (r: Option<Entry>)
      modifies this
      ensures (State(), r) == Added(ident, old(State()), sig, trust, title, source)
    {
      if sig.card == 0 || |title| > MAX_LABEL_LEN || |source| > MAX_SOURCE_LEN
         || HasControl(title) || HasControl(source)
      {
        return None;
      }
      var id := ident(sig.min);
      if id in entries {
        if entries[id].trust.Curated? && trust.Ingest? {
          return Some(entries[id]);
        }
      } else if trust.Ingest? && |entries| >= max {
        return None;
      }
      var e := Entry(id, sig, trust, title, source);
      entries := entries[id := e];
      return Some(e);
    }

    /** The scan over a map, in whatever order it comes. */
    method Collect(q: Signature, minSim: real) returns (found: seq<Neighbor>)
      requires Sized(entries) && |q.min| == LANES
      ensures DistinctIds(found) && forall n :: n in found <==> n in Hits(entries, q, minSim)
    {
      found := [];
      var left := entries.Keys;
      while left != {}
        invariant left <= entries.Keys
        invariant DistinctIds(found)
        invariant forall n :: n in found ==> n.id !in left
        invariant forall n :: n in found <==> n in Hits(map id | id in entries && id !in left :: entries[id], q, minSim)
        decreases left
      {
        var id :| id in left;
        var seen := map k | k in entries && k !in left :: entries[k];
        HitsGrow(seen, id, entries[id], q, minSim);
        left := left - {id};
        assert (map k | k in entries && k !in left :: entries[k]) == seen[id := entries[id]];
        var s := Similarity(q, entries[id].sig);
        if s >= minSim {
          found := found + [NeighborOf(q, entries[id])];
        }
      }
      assert (map id | id in entries && id !in left :: entries[id]) == entries;
    }

    method Nearest(q: Signature, minSim: Option<real>, limit: int) returns (r: seq<Neighbor>)
      requires Sized(entries) && |q.min| == LANES
      ensures IsNearest(entries, q, minSim, limit, r)
    {
      if q.card == 0 || minSim.None? {
        return [];
      }
      var min := minSim.value;
      if min < 0.0 {
        min := 0.0;
      }
      if min > 1.0 {
        min := 1.0;
      }
      var found := Collect(q, min);
      r := SortBy(Closer, found);
      RankedBySort(found, Hits(entries, q, min));
      ghost var ranked := r;
      if limit > 0 && |r| > limit {
        r := r[..limit];
      }
      assert IsRanking(ranked, Hits(entries, q, min)) && r == FirstOf(ranked, limit);
    }
  }

  ghost predicate DistinctIds(s: seq<Neighbor>) {
    forall i, j :: 0 <= i < j < |s| ==> s[i].id != s[j].id
  }

  lemma HitsGrow(seen: map<string, Entry>, id: string, e: Entry, q: Signature, minSim: real)
    requires Sized(seen) && id !in seen && e.id == id && |e.sig.min| == LANES && |q.min| == LANES
    ensures Hits(seen[id := e], q, minSim) ==
            Hits(seen, q, minSim) + if Score(q, e.sig) >= minSim then {NeighborOf(q, e)} else {}
  {
    var more := seen[id := e];
    assert more[id] == e && forall k :: k in seen ==> k in more && more[k] == seen[k];
  }

  lemma RankedBySort(found: seq<Neighbor>, hits: set<Neighbor>)
    requires DistinctIds(found) && forall n :: n in found <==> n in hits
    ensures IsRanking(SortBy(Closer, found), hits)
  {
    CloserIsOrder();
    SortByAscends(Closer, found);
    forall n { SortByElements(Closer, found, n); }
  }

  // ---- What the query guarantees ----

  /** The answer does not depend on the order in which the index is scanned. */
  lemma NearestIsDetermined(entries: map<string, Entry>, q: Signature, minSim: Option<real>, limit: int,
                            r: seq<Neighbor>, s: seq<Neighbor>)
    requires Sized(entries) && |q.min| == LANES
    requires IsNearest(entries, q, minSim, limit, r) && IsNearest(entries, q, minSim, limit, s)
    ensures r == s
  {
    if q.card > 0 && minSim.Some? {
      var hits := Hits(entries, q, Clamp(minSim.value));
      var a :| IsRanking(a, hits) && r == FirstOf(a, limit);
      var b :| IsRanking(b, hits) && s == FirstOf(b, limit);
      CloserIsOrder();
      AscendingIsUnique(Closer, a, b);
    }
  }

  /** Nothing closer is left out for something that is listed, and a hit is left out only
      when the limit is used up. */
  lemma NearestKeepsClosest(entries: map<string, Entry>, q: Signature, minSim: real, limit: int, r: seq<Neighbor>,
                            n: Neighbor, m: Neighbor)
    requires Sized(entries) && |q.min| == LANES && q.card > 0
    requires IsNearest(entries, q, Some(minSim), limit, r) && m in Hits(entries, q, Clamp(minSim))
    ensures n in r ==> n in Hits(entries, q, Clamp(minSim))
    ensures n in r && Closer(m, n) ==> m in r
    ensures m !in r ==> limit > 0 && |r| == limit
  {
    var hits := Hits(entries, q, Clamp(minSim));
    var ranked :| IsRanking(ranked, hits) && r == FirstOf(ranked, limit);
    var j :| 0 <= j < |ranked| && ranked[j] == m;
    CloserIsOrder();
    assert j < |r| ==> r[j] == m;
    if n in r {
      var i :| 0 <= i < |r| && r[i] == n;
      assert ranked[i] == n && n in ranked;
      if Closer(m, n) {
        assert j < i;
      }
    }
  }

  lemma HitScores(entries: map<string, Entry>, q: Signature, minSim: real, id: string)
    requires Sized(entries) && |q.min| == LANES && id in entries
    requires NeighborOf(q, entries[id]) in Hits(entries, q, minSim)
    ensures Score(q, entries[id].sig) >= minSim
  {
    var n := NeighborOf(q, entries[id]);
    var k :| k in entries && Score(q, entries[k].sig) >= minSim && NeighborOf(q, entries[k]) == n;
  }

  /** A neighbour above a positive threshold shares a feature with the query. */
  lemma NeighborsShareFeatures(entries: map<string, Entry>, q: Signature, fs: set<Word>, minSim: real, id: string,
                               gs: set<Word>)
    requires Sized(entries) && IsSketchOf(q, fs) && minSim > 0.0
    requires id in entries && IsSketchOf(entries[id].sig, gs)
    requires NeighborOf(q, entries[id]) in Hits(entries, q, minSim)
    ensures !(fs !! gs)
  {
    HitScores(entries, q, minSim, id);
    SimilarityExtremes(q, entries[id].sig, fs, gs);
  }

  // ---- What insertion keeps ----

  lemma AddKeepsKeyed(ident: Ident, x: Index, sig: Signature, trust: Trust, title: string, source: string)
    requires Keyed(ident, x) && |sig.min| == LANES
    ensures Keyed(ident, Added(ident, x, sig, trust, title, source).0)
  {
  }

  datatype Observation = Observation(sig: Signature, title: string, source: string)

  function ObserveAll(ident: Ident, x: Index, os: seq<Observation>): Index
    decreases |os|
  {
    if os == [] then x
    else ObserveAll(ident, Added(ident, x, os[0].sig, Ingest, os[0].title, os[0].source).0, os[1..])
  }

  ghost predicate SameCurated(a: map<string, Entry>, b: map<string, Entry>) {
    && (forall id :: id in a && a[id].trust.Curated? ==> id in b && b[id] == a[id])
    && (forall id :: id in b && b[id].trust.Curated? ==> id in a && a[id] == b[id])
  }

  /** No run of observations changes a curated reference, and the index never grows past its
      cap by observations. */
  lemma {:induction false} ObservationsKeepCurated(ident: Ident, x: Index, os: seq<Observation>)
    ensures var y := ObserveAll(ident, x, os);
            && SameCurated(x.entries, y.entries) && y.max == x.max
            && |y.entries| <= if |x.entries| > x.max then |x.entries| else x.max
    decreases |os|
  {
    if os != [] {
      var y := Added(ident, x, os[0].sig, Ingest, os[0].title, os[0].source).0;
      assert SameCurated(x.entries, y.entries);
      ObservationsKeepCurated(ident, y, os[1..]);
    }
  }

  /** So a curated reference answers a query in the same words after any of them. */
  lemma ObservationsKeepCuratedHits(ident: Ident, x: Index, os: seq<Observation>, q: Signature, minSim: real,
                                    n: Neighbor)
    requires Sized(x.entries) && Sized(ObserveAll(ident, x, os).entries) && |q.min| == LANES && n.trust.Curated?
    ensures n in Hits(x.entries, q, minSim) <==> n in Hits(ObserveAll(ident, x, os).entries, q, minSim)
  {
    var y := ObserveAll(ident, x, os);
    ObservationsKeepCurated(ident, x, os);
    if n in Hits(x.entries, q, minSim) {
      var id :| id in x.entries && Score(q, x.entries[id].sig) >= minSim && NeighborOf(q, x.entries[id]) == n;
      assert y.entries[id] == x.entries[id];
    }
    if n in Hits(y.entries, q, minSim) {
      var id :| id in y.entries && Score(q, y.entries[id].sig) >= minSim && NeighborOf(q, y.entries[id]) == n;
      assert x.entries[id] == y.entries[id];
    }
  }

  /** A stored sketch finds itself with score 1, for every threshold, when handles do not
      collide. */
  lemma StoredFindsItself(ident: Ident, x: Index, sig: Signature, trust: Trust, title: string, source: string,
                          minSim: real)
    requires Keyed(ident, x) && |sig.min| == LANES && (forall a, b :: ident(a) == ident(b) ==> a == b)
    requires Added(ident, x, sig, trust, title, source).1.Some?
    ensures var (y, e) := Added(ident, x, sig, trust, title, source);
            && Sized(y.entries)
            && NeighborOf(sig, e.value) in Hits(y.entries, sig, Clamp(minSim)) && NeighborOf(sig, e.value).sim == 1.0
  {
    var (y, e) := Added(ident, x, sig, trust, title, source);
    AddKeepsKeyed(ident, x, sig, trust, title, source);
    AgreementsExtremes(sig, e.value.sig, LANES);
    assert y.entries[e.value.id] == e.value;
  }

  // ---- Answers in the caller's terms ----

  /** An insertion is refused exactly when the sketch is empty, a text is too long or holds a
      control character, or a new observation finds the index full. */
  lemma AddRefusals(ident: Ident, x: Index, sig: Signature, trust: Trust, title: string, source: string)
    ensures Added(ident, x, sig, trust, title, source).1.Some? <==>
            && sig.card > 0 && |title| <= 1024 && |source| <= 512
            && (forall i :: 0 <= i < |title| ==> !IsControl(title[i]))
            && (forall i :: 0 <= i < |source| ==> !IsControl(source[i]))
            && (trust.Curated? || ident(sig.min) in x.entries || |x.entries| < x.max)
  {
  }

  /** Every neighbour listed is an entry under its own name, at least as similar as asked; they
      come by similarity, curated before observed at the same one, then by handle. */
  lemma NearestReads(entries: map<string, Entry>, q: Signature, minSim: real, limit: int, r: seq<Neighbor>)
    requires Sized(entries) && |q.min| == LANES && IsNearest(entries, q, Some(minSim), limit, r)
    ensures forall n :: n in r ==>
              && n.id in entries && n.trust == entries[n.id].trust && n.title == entries[n.id].title
              && n.source == entries[n.id].source && n.sim == Score(q, entries[n.id].sig)
              && (minSim <= n.sim || 1.0 <= n.sim)
    ensures forall i, j :: 0 <= i < j < |r| ==>
              || r[i].sim > r[j].sim
              || (r[i].sim == r[j].sim && r[i].trust.Curated? && r[j].trust.Ingest?)
              || (r[i].sim == r[j].sim && r[i].trust == r[j].trust && Before(r[i].id, r[j].id))
    ensures limit > 0 ==> |r| <= limit
  {
    if q.card > 0 {
      var hits := Hits(entries, q, Clamp(minSim));
      var ranked :| IsRanking(ranked, hits) && r == FirstOf(ranked, limit);
      forall n | n in r
        ensures n in hits
      {
        assert n in ranked;
      }
      forall i, j | 0 <= i < j < |r|
        ensures Closer(r[i], r[j])
      {
        assert r[i] == ranked[i] && r[j] == ranked[j];
      }
    }
  }

  /** An accepted sketch is listed as it was handed in, unless an observation met a curated
      reference, which stays; everything else in the index stays too. */
  lemma AddedReadsBack(ident: Ident, x: Index, sig: Signature, trust: Trust, title: string, source: string)
    requires Added(ident, x, sig, trust, title, source).1.Some?
    ensures var (y, e) := Added(ident, x, sig, trust, title, source);
            var id := ident(sig.min);
            && id in y.entries && y.entries[id] == e.value && y.max == x.max
            && (if id in x.entries && x.entries[id].trust.Curated? && trust.Ingest? then e.value == x.entries[id]
                else e.value.id == id && e.value.sig == sig && e.value.trust == trust
                     && e.value.title == title && e.value.source == source)
            && forall k :: k != id ==>
                 (k in y.entries <==> k in x.entries) && (k in x.entries ==> y.entries[k] == x.entries[k])
  {
  }
}
