/** The triage score (internal/pipeline/types.go): contributions sorted in descending
    order and summed with halving weights, in integer arithmetic. */
module Scoring {
  import opened Pipeline

  function Base(v: Verdict): nat {
    if v == MALICIOUS then 95 else if v == SUSPICIOUS then 55 else 0
  }

  function Contribution(v: Verdict, c: Confidence): nat {
    if c == CONF_HIGH then Base(v)
    else if c == CONF_MEDIUM then Base(v) * 6 / 10
    else Base(v) * 3 / 10
  }

  function Weight(f: Finding): nat {
    Contribution(f.verdict, f.confidence)
  }

  function Contribs(fs: seq<Finding>): seq<nat> {
    if fs == [] then []
    else
      var rest, c := Contribs(fs[..|fs| - 1]), Weight(fs[|fs| - 1]);
      if c > 0 then rest + [c] else rest
  }

  function InsertDesc(s: seq<nat>, x: nat): seq<nat> {
    if s == [] then [x]
    else if x > s[0] then [x] + s
    else [s[0]] + InsertDesc(s[1..], x)
  }

  function SortDesc(s: seq<nat>): seq<nat> {
    if s == [] then [] else InsertDesc(SortDesc(s[..|s| - 1]), s[|s| - 1])
  }

  /** The divisors of the source's loop: it doubles until it reaches 8. */
  predicate IsDivisor(div: nat) {
    div == 1 || div == 2 || div == 4 || div == 8
  }

  function NextDivisor(div: nat): (d: nat)
    ensures IsDivisor(div) ==> IsDivisor(d)
  {
    if div < 8 then div * 2 else div
  }

  function Weigh(s: seq<nat>, div: nat): nat
    requires IsDivisor(div)
  {
    if s == [] then 0 else s[0] / div + Weigh(s[1..], NextDivisor(div))
  }

  function Ranked(fs: seq<Finding>): seq<nat> {
    SortDesc(Contribs(fs))
  }

  function Score(fs: seq<Finding>): nat {
    var w := Weigh(Ranked(fs), 1);
    if w > 100 then 100 else w
  }

  /** The strongest confidence among the findings at or above SUSPICIOUS. */
  function Aggregate(fs: seq<Finding>): Confidence {
    if fs == [] then CONF_LOW else Stronger(Aggregate(fs[..|fs| - 1]), fs[|fs| - 1])
  }

  function Stronger(c: Confidence, f: Finding): Confidence {
    if f.verdict >= SUSPICIOUS && f.confidence > c then f.confidence else c
  }

  // ---- The source's loops, proved against the functions above ----

  /** On its way into the descending run `t`, `x` stands before place `j` and after nothing
      smaller. */
  ghost predicate Sinking(t: seq<nat>, x: nat, j: nat, r: seq<nat>) {
    j <= |t| && r == t[..j] + [x] + t[j..] && forall k :: j <= k < |t| ==> t[k] < x
  }

  lemma SinksOne(t: seq<nat>, x: nat, j: nat, r: seq<nat>, r': seq<nat>)
    requires 0 < j && Sinking(t, x, j, r) && r[j - 1] < x
    requires r' == r[j := r[j - 1]][j - 1 := r[j]]
    ensures Sinking(t, x, j - 1, r')
  {
    assert r[j] == x && r[j - 1] == t[j - 1];
    assert r' == t[..j - 1] + [x] + t[j - 1..];
  }

  /** The inner loop of the insertion sort: `a[i]` sinks, by adjacent swaps, into the
      descending run before it. */
  method SinkInPlace(a: array<nat>, i: nat)
    requires 0 < i < a.Length
    requires Descending(a[..i])
    modifies a
    ensures a[..i + 1] == InsertDesc(old(a[..i]), old(a[i]))
    ensures a[i + 1..] == old(a[i + 1..])
  {
    ghost var t, x := a[..i], a[i];
    var j := i;
    while j > 0 && a[j] > a[j - 1]
      invariant 0 <= j <= i && Sinking(t, x, j, a[..i + 1])
      invariant a[i + 1..] == old(a[i + 1..])
    {
      ghost var r := a[..i + 1];
      a[j], a[j - 1] := a[j - 1], a[j];
      assert a[..i + 1] == r[j := r[j - 1]][j - 1 := r[j]];
      SinksOne(t, x, j, r, a[..i + 1]);
      j := j - 1;
    }
    InsertDescSplits(t, x, j);
  }

  /** The insertion sort, in place. */
  method SortDescInPlace(a: array<nat>)
    modifies a
    ensures a[..] == SortDesc(old(a[..]))
  {
    ghost var orig := a[..];
    if a.Length > 0 {
      assert orig[..1][..0] == [] && SortDesc(orig[..1]) == orig[..1];
    }
    var i := 1;
    while i < a.Length
      invariant 1 <= i
      invariant i <= a.Length ==> a[..i] == SortDesc(orig[..i]) && a[i..] == orig[i..]
      invariant i > a.Length ==> a[..] == orig == []
    {
      assert a[i] == a[i..][0] == orig[i] && a[i + 1..] == a[i..][1..];
      assert orig[..i + 1][..i] == orig[..i];
      SortDescIsDescending(orig[..i]);
      SinkInPlace(a, i);
      i := i + 1;
    }
    assert a.Length > 0 ==> a[..i] == a[..] && orig[..i] == orig;
  }

  method ScoreFindings(findings: seq<Finding>) returns (score: nat, agg: Confidence)
    ensures score == Score(findings)
    ensures agg == Aggregate(findings)
  {
    var contribs: seq<nat> := [];
    agg := CONF_LOW;
    var hasReal := false;
    for i := 0 to |findings|
      invariant contribs == Contribs(findings[..i])
      invariant agg == Aggregate(findings[..i])
      invariant !hasReal ==> agg == CONF_LOW
    {
      var f := findings[i];
      assert findings[..i + 1][..i] == findings[..i];
      var c := Contribution(f.verdict, f.confidence);
      if c > 0 {
        contribs := contribs + [c];
      }
      if f.verdict >= SUSPICIOUS {
        hasReal := true;
        if f.confidence > agg {
          agg := f.confidence;
        }
      }
    }
    assert findings[..|findings|] == findings;
    if !hasReal {
      agg := CONF_LOW;
    }
    score := SumHalving(contribs);
    if score > 100 {
      score := 100;
    }
  }

  /** The second half of the scoring loop: sort, then add with doubling divisors. */
  method SumHalving(contribs: seq<nat>) returns (score: nat)
    ensures score == Weigh(SortDesc(contribs), 1)
  {
    var a := new nat[|contribs|](i requires 0 <= i < |contribs| => contribs[i]);
    assert a[..] == contribs;
    SortDescInPlace(a);
    score := SumSorted(a[..]);
  }

  method SumSorted(sorted: seq<nat>) returns (score: nat)
    ensures score == Weigh(sorted, 1)
  {
    var div := 1;
    score := 0;
    for i := 0 to |sorted|
      invariant IsDivisor(div)
      invariant score + Weigh(sorted[i..], div) == Weigh(sorted, 1)
    {
      assert sorted[i..][1..] == sorted[i + 1..];
      score := score + sorted[i] / div;
      if div < 8 {
        div := div * 2;
      }
    }
  }

  // ---- Sorting ----

  ghost predicate Descending(s: seq<nat>) {
    forall i, j :: 0 <= i < j < |s| ==> s[i] >= s[j]
  }

  lemma {:induction false} InsertDescKeepsOrder(s: seq<nat>, x: nat)
    requires Descending(s)
    ensures Descending(InsertDesc(s, x))
    ensures InsertDesc(s, x)[0] == if s == [] || x > s[0] then x else s[0]
  {
    if s != [] && x <= s[0] {
      InsertDescKeepsOrder(s[1..], x);
    }
  }

  lemma {:induction false} InsertDescElements(s: seq<nat>, x: nat)
    ensures multiset(InsertDesc(s, x)) == multiset(s) + multiset{x}
  {
    if s != [] && x <= s[0] {
      InsertDescElements(s[1..], x);
      assert s == [s[0]] + s[1..];
    }
  }

  lemma {:induction false} InsertDescSplits(s: seq<nat>, x: nat, k: nat)
    requires k <= |s| && Descending(s)
    requires forall i :: k <= i < |s| ==> s[i] < x
    requires k > 0 ==> s[k - 1] >= x
    ensures InsertDesc(s, x) == s[..k] + [x] + s[k..]
  {
    if k > 0 {
      InsertDescSplits(s[1..], x, k - 1);
      assert s[..k] == [s[0]] + s[1..][..k - 1];
    }
  }

  /** The sort sorts: the result is descending and a permutation of the input. */
  lemma {:induction false} SortDescIsDescending(s: seq<nat>)
    ensures Descending(SortDesc(s))
    ensures multiset(SortDesc(s)) == multiset(s)
  {
    if s != [] {
      var init := s[..|s| - 1];
      SortDescIsDescending(init);
      InsertDescKeepsOrder(SortDesc(init), s[|s| - 1]);
      InsertDescElements(SortDesc(init), s[|s| - 1]);
      assert s == init + [s[|s| - 1]];
    }
  }

  lemma {:induction false} InsertDescCommutes(s: seq<nat>, x: nat, y: nat)
    ensures InsertDesc(InsertDesc(s, x), y) == InsertDesc(InsertDesc(s, y), x)
  {
    if s != [] && x <= s[0] && y <= s[0] {
      InsertDescCommutes(s[1..], x, y);
    }
  }

  // ---- Order independence ----

  function AddWeight(s: seq<nat>, f: Finding): seq<nat> {
    if Weight(f) > 0 then InsertDesc(s, Weight(f)) else s
  }

  lemma RankedOfAppended(fs: seq<Finding>, f: Finding)
    ensures Ranked(fs + [f]) == AddWeight(Ranked(fs), f)
    ensures Aggregate(fs + [f]) == Stronger(Aggregate(fs), f)
  {
    assert (fs + [f])[..|fs|] == fs;
    var c := Contribs(fs);
    assert (c + [Weight(f)])[..|c|] == c;
  }

  /** Moving one finding to the end of the list changes nothing. */
  lemma {:induction false} MoveToEnd(a: seq<Finding>, x: Finding, b: seq<Finding>)
    ensures Ranked(a + [x] + b) == Ranked(a + b + [x])
    ensures Aggregate(a + [x] + b) == Aggregate(a + b + [x])
    decreases |b|
  {
    if b == [] {
      assert a + [x] + b == a + b + [x];
    } else {
      var init, y := b[..|b| - 1], b[|b| - 1];
      MoveToEnd(a, x, init);
      var shorter := a + init;
      assert a + [x] + b == (a + [x] + init) + [y];
      assert a + b == shorter + [y];
      RankedOfAppended(a + [x] + init, y);
      RankedOfAppended(shorter, x);
      RankedOfAppended(shorter, y);
      RankedOfAppended(shorter + [y], x);
      InsertDescCommutes(Ranked(shorter), Weight(x), Weight(y));
    }
  }

  lemma LastMovesTo(fs: seq<Finding>, gs: seq<Finding>) returns (a: seq<Finding>, b: seq<Finding>)
    requires multiset(fs) == multiset(gs) && fs != []
    ensures gs == a + [fs[|fs| - 1]] + b
    ensures multiset(fs[..|fs| - 1]) == multiset(a + b)
  {
    var f, init := fs[|fs| - 1], fs[..|fs| - 1];
    assert fs == init + [f];
    assert f in multiset(gs);
    var i :| 0 <= i < |gs| && gs[i] == f;
    a, b := gs[..i], gs[i + 1..];
    assert gs == a + [f] + b;
    assert multiset(a + b) == multiset(gs) - multiset{f};
    assert multiset(init) == multiset(fs) - multiset{f};
  }

  lemma {:induction false} PermutationKeepsRanking(fs: seq<Finding>, gs: seq<Finding>)
    requires multiset(fs) == multiset(gs)
    ensures Ranked(fs) == Ranked(gs) && Aggregate(fs) == Aggregate(gs)
    decreases |fs|
  {
    if fs == [] {
      assert |gs| == |multiset(gs)| == |multiset(fs)|;
    } else {
      var f, init := fs[|fs| - 1], fs[..|fs| - 1];
      assert fs == init + [f];
      var a, b := LastMovesTo(fs, gs);
      PermutationKeepsRanking(init, a + b);
      MoveToEnd(a, f, b);
      RankedOfAppended(init, f);
      RankedOfAppended(a + b, f);
    }
  }

  /** The score and the confidence do not depend on the order of the findings. */
  lemma ScoreIsOrderIndependent(fs: seq<Finding>, gs: seq<Finding>)
    requires multiset(fs) == multiset(gs)
    ensures Score(fs) == Score(gs) && Aggregate(fs) == Aggregate(gs)
  {
    PermutationKeepsRanking(fs, gs);
  }

  // ---- Monotonicity ----

  ghost predicate Dominates(a: seq<nat>, b: seq<nat>) {
    |a| >= |b| && forall i :: 0 <= i < |b| ==> a[i] >= b[i]
  }

  lemma {:induction false} WeighMonotone(a: seq<nat>, b: seq<nat>, div: nat)
    requires Dominates(a, b) && IsDivisor(div)
    ensures Weigh(a, div) >= Weigh(b, div)
    decreases |b|
  {
    if b != [] {
      assert a[0] >= b[0];
      if div == 1 {
      } else if div == 2 {
      } else if div == 4 {
      }
      assert a[0] / div >= b[0] / div;
      WeighMonotone(a[1..], b[1..], NextDivisor(div));
    }
  }

  lemma {:induction false} InsertDominates(s: seq<nat>, x: nat)
    requires Descending(s)
    ensures Dominates(InsertDesc(s, x), s)
  {
    if s != [] && x <= s[0] {
      InsertDominates(s[1..], x);
    }
  }

  lemma {:induction false} InsertMonotone(s: seq<nat>, x: nat, y: nat)
    requires Descending(s) && x <= y
    ensures Dominates(InsertDesc(s, y), InsertDesc(s, x))
  {
    if s != [] && x <= s[0] {
      if y <= s[0] {
        InsertMonotone(s[1..], x, y);
      } else {
        InsertStaysBelow(s, x, y);
      }
    }
  }

  lemma {:induction false} InsertStaysBelow(s: seq<nat>, x: nat, y: nat)
    requires Descending(s) && s != [] && x <= s[0] <= y
    ensures Dominates([y] + s, InsertDesc(s, x))
  {
    if |s| > 1 && x <= s[1] {
      InsertStaysBelow(s[1..], x, s[0]);
      assert [s[0]] + s[1..] == s;
    }
  }

  /** A further finding never lowers the score or the confidence. */
  lemma AddingNeverLowers(fs: seq<Finding>, f: Finding)
    ensures Score(fs + [f]) >= Score(fs)
    ensures Aggregate(fs + [f]) >= Aggregate(fs)
  {
    SortDescIsDescending(Contribs(fs));
    RankedOfAppended(fs, f);
    InsertDominates(Ranked(fs), Weight(f));
    WeighMonotone(Ranked(fs + [f]), Ranked(fs), 1);
  }

  lemma ContributionMonotone(f: Finding, g: Finding)
    requires f.verdict <= g.verdict && f.confidence <= g.confidence
    ensures Weight(f) <= Weight(g)
  {
  }

  /** Raising the verdict or the confidence of any one finding, wherever it stands in the
      list, never lowers the score or the confidence. */
  lemma RaisingNeverLowers(a: seq<Finding>, f: Finding, g: Finding, b: seq<Finding>)
    requires f.verdict <= g.verdict && f.confidence <= g.confidence
    ensures Score(a + [g] + b) >= Score(a + [f] + b)
    ensures Aggregate(a + [g] + b) >= Aggregate(a + [f] + b)
  {
    var rest := a + b;
    MoveToEnd(a, f, b);
    MoveToEnd(a, g, b);
    RankedOfAppended(rest, f);
    RankedOfAppended(rest, g);
    ContributionMonotone(f, g);
    SortDescIsDescending(Contribs(rest));
    InsertDominates(Ranked(rest), Weight(g));
    InsertMonotone(Ranked(rest), Weight(f), Weight(g));
    WeighMonotone(Ranked(rest + [g]), Ranked(rest + [f]), 1);
  }

  lemma StrongestIsFirst(fs: seq<Finding>, i: nat)
    requires i < |fs| && Weight(fs[i]) > 0
    ensures Ranked(fs) != [] && Ranked(fs)[0] >= Weight(fs[i])
  {
    var a, f, b := fs[..i], fs[i], fs[i + 1..];
    assert fs == a + [f] + b;
    MoveToEnd(a, f, b);
    RankedOfAppended(a + b, f);
    SortDescIsDescending(Contribs(a + b));
    InsertDescKeepsOrder(Ranked(a + b), Weight(f));
  }

  lemma FirstCountsInFull(s: seq<nat>)
    requires s != []
    ensures Weigh(s, 1) >= s[0]
  {
  }

  lemma WeightBound(f: Finding)
    ensures Weight(f) <= 95
  {
  }

  /** The score lies between the largest single contribution and 100. */
  lemma ScoreBounds(fs: seq<Finding>, i: nat)
    requires i < |fs|
    ensures Weight(fs[i]) <= Score(fs) <= 100
  {
    WeightBound(fs[i]);
    var w := Weight(fs[i]);
    if w > 0 {
      StrongestIsFirst(fs, i);
      FirstCountsInFull(Ranked(fs));
    }
  }

  // ---- Where "a wall of floors never buries a real detection" stops being true ----

  ghost predicate AllFloors(fs: seq<Finding>) {
    forall i :: 0 <= i < |fs| ==> fs[i].verdict == SUSPICIOUS && fs[i].confidence == CONF_LOW
  }

  ghost predicate AllSixteen(s: seq<nat>) {
    forall i :: 0 <= i < |s| ==> s[i] == 16
  }

  lemma {:induction false} InsertSixteen(s: seq<nat>)
    requires AllSixteen(s)
    ensures AllSixteen(InsertDesc(s, 16)) && |InsertDesc(s, 16)| == |s| + 1
  {
    if s != [] {
      InsertSixteen(s[1..]);
    }
  }

  lemma {:induction false} FloorsRank(fs: seq<Finding>)
    requires AllFloors(fs)
    ensures AllSixteen(Ranked(fs)) && |Ranked(fs)| == |fs|
  {
    if fs != [] {
      var init := fs[..|fs| - 1];
      FloorsRank(init);
      assert fs == init + [fs[|fs| - 1]];
      RankedOfAppended(init, fs[|fs| - 1]);
      InsertSixteen(Ranked(init));
    }
  }

  lemma {:induction false} WeighSixteens(s: seq<nat>, div: nat)
    requires AllSixteen(s) && IsDivisor(div)
    ensures div == 8 ==> Weigh(s, div) == 2 * |s|
    ensures div == 4 ==> Weigh(s, div) == if |s| == 0 then 0 else 2 * |s| + 2
    ensures div == 2 ==> Weigh(s, div) == if |s| == 0 then 0 else if |s| == 1 then 8 else 2 * |s| + 8
    ensures div == 1 ==> |s| >= 3 ==> Weigh(s, div) == 2 * |s| + 22
    ensures div == 1 ==> |s| < 3 ==> Weigh(s, div) == if |s| == 0 then 0 else if |s| == 1 then 16 else 24
  {
    if s != [] {
      WeighSixteens(s[1..], NextDivisor(div));
    }
  }

  /** The number of floors from which on they outscore a hit of this weight. */
  function WallSize(weight: nat): nat {
    if weight < 16 then 1 else if weight < 24 then 2 else if weight < 28 then 3 else (weight - 28) / 2 + 4
  }

  /** Low-confidence floors alone outscore one hit, whatever it is, exactly from `WallSize` of
      them on: the divisor stops at 8, so the halving weights have no finite sum. */
  lemma FloorWall(fs: seq<Finding>, hit: Finding)
    requires AllFloors(fs)
    ensures Score(fs) > Score([hit]) <==> |fs| >= WallSize(Weight(hit))
  {
    FloorsRank(fs);
    WeighSixteens(Ranked(fs), 1);
    WeightBound(hit);
    ScoreOfOne(hit);
  }

  lemma ScoreOfOne(hit: Finding)
    ensures Score([hit]) == Weight(hit)
  {
    var w := Weight(hit);
    WeightBound(hit);
    RankedOfAppended([], hit);
    assert [] + [hit] == [hit];
    assert Ranked([hit]) == if w > 0 then [w] else [];
    assert [w][1..] == [] && Weigh([w], 1) == w;
  }

  /** The order of the queue: severity first, then the score. */
  predicate Outranks(fs: seq<Finding>, gs: seq<Finding>) {
    var v, w := JoinAll(Verdicts(fs)), JoinAll(Verdicts(gs));
    v > w || (v == w && Score(fs) > Score(gs))
  }

  /** In that order a wall of floors buries a detection exactly when the detection is no more
      severe than the floors and they are enough of them: one is enough below SUSPICIOUS, 6
      bury a SUSPICIOUS hit of medium confidence, 17 one of high confidence, and none a
      MALICIOUS one. */
  lemma FloorsBuryDetections(fs: seq<Finding>, hit: Finding)
    requires AllFloors(fs) && fs != []
    ensures Outranks(fs, [hit]) <==>
            hit.verdict < SUSPICIOUS || (hit.verdict == SUSPICIOUS && |fs| >= WallSize(Weight(hit)))
    ensures hit.verdict == SUSPICIOUS && hit.confidence == CONF_MEDIUM ==> WallSize(Weight(hit)) == 6
    ensures hit.verdict == SUSPICIOUS && hit.confidence == CONF_HIGH ==> WallSize(Weight(hit)) == 17
    ensures hit.verdict == MALICIOUS && hit.confidence == CONF_HIGH ==> WallSize(Weight(hit)) == 37
  {
    FloorWall(fs, hit);
    JoinAllIsLeastUpperBound(Verdicts(fs));
    assert Verdicts(fs)[0] in Verdicts(fs);
    JoinAllIsLeastUpperBound(Verdicts([hit]));
    assert Verdicts([hit]) == [hit.verdict] && Verdicts([hit])[0] in Verdicts([hit]);
  }

  // ---- What single findings are worth ----

  /** The aggregate confidence is the strongest among the findings that are at least SUSPICIOUS,
      and LOW when there is none. */
  lemma {:induction false} AggregateIsStrongest(fs: seq<Finding>)
    ensures forall f :: f in fs && f.verdict >= SUSPICIOUS ==> f.confidence <= Aggregate(fs)
    ensures Aggregate(fs) == CONF_LOW
            || exists f :: f in fs && f.verdict >= SUSPICIOUS && f.confidence == Aggregate(fs)
  {
    if fs != [] {
      var init, last := fs[..|fs| - 1], fs[|fs| - 1];
      AggregateIsStrongest(init);
      assert fs == init + [last] && last in fs;
    }
  }

  /** A finding alone: a detection counts nearly in full, a medium one six tenths of its base, a
      floor three tenths, and nothing below SUSPICIOUS counts. */
  lemma AloneItScores(f: Finding)
    ensures Score([f]) == if f.verdict == MALICIOUS then [28, 57, 95][f.confidence]
                          else if f.verdict == SUSPICIOUS then [16, 33, 55][f.confidence] else 0
  {
    ScoreOfOne(f);
  }
}
