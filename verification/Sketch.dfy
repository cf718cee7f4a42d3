/** MinHash sketches (internal/knowledge/similarity.go). A 64-bit word is a natural number
    below 2^64; exclusive-or, shift and wrapping multiplication are written out on it. */
module Sketch {

  const WORD_SIZE: nat := 0x1_0000_0000_0000_0000

  type Word = n: nat | n < 0x1_0000_0000_0000_0000

  const MAX_WORD: Word := 0xFFFF_FFFF_FFFF_FFFF

  const LANES := 64

  // ---- Word arithmetic ----

  function Xor(a: nat, b: nat): nat {
    if a == 0 && b == 0 then 0 else (a + b) % 2 + 2 * Xor(a / 2, b / 2)
  }

  function Shr(a: nat, k: nat): nat {
    if k == 0 then a else Shr(a / 2, k - 1)
  }

  function Pow2(n: nat): nat {
    if n == 0 then 1 else 2 * Pow2(n - 1)
  }

  lemma {:induction false} XorFits(a: nat, b: nat, n: nat)
    requires a < Pow2(n) && b < Pow2(n)
    ensures Xor(a, b) < Pow2(n)
  {
    if n > 0 && (a > 0 || b > 0) {
      XorFits(a / 2, b / 2, n - 1);
    }
  }

  lemma Pow2Steps(n: nat)
    ensures Pow2(n + 4) == 16 * Pow2(n)
  {
    assert Pow2(n + 4) == 2 * Pow2(n + 3) && Pow2(n + 3) == 2 * Pow2(n + 2) && Pow2(n + 2) == 2 * Pow2(n + 1);
  }

  lemma WordIsPow2()
    ensures Pow2(64) == WORD_SIZE
  {
    var i, p := 0, 1;
    while i < 16
      invariant i <= 16 && Pow2(4 * i) == p
      invariant p == [0x1, 0x10, 0x100, 0x1000, 0x1_0000, 0x10_0000, 0x100_0000, 0x1000_0000,
                      0x1_0000_0000, 0x10_0000_0000, 0x100_0000_0000, 0x1000_0000_0000,
                      0x1_0000_0000_0000, 0x10_0000_0000_0000, 0x100_0000_0000_0000,
                      0x1000_0000_0000_0000, 0x1_0000_0000_0000_0000][i]
    {
      Pow2Steps(4 * i);
      i, p := i + 1, 16 * p;
    }
  }

  function XorShift(x: Word, k: nat): Word {
    WordIsPow2();
    ShrShrinks(x, k);
    XorFits(x, Shr(x, k), 64);
    Xor(x, Shr(x, k))
  }

  function Times(x: Word, c: nat): Word {
    x * c % WORD_SIZE
  }

  const C1: Word := 0xbf58476d1ce4e5b9
  const C2: Word := 0x94d049bb133111eb

  /** The splitmix64 finaliser. */
  function Mix64(x: Word): Word {
    XorShift(Times(XorShift(Times(XorShift(x, 30), C1), 27), C2), 31)
  }

  lemma {:induction false} ShrShrinks(a: nat, k: nat)
    ensures Shr(a, k) <= a
    ensures k > 0 && a > 0 ==> Shr(a, k) < a
  {
    if k > 0 {
      ShrShrinks(a / 2, k - 1);
    }
  }

  // ---- Every step of the mixer can be undone ----

  lemma DigitSplits(bit: nat, rest: nat)
    requires bit < 2
    ensures (bit + 2 * rest) % 2 == bit && (bit + 2 * rest) / 2 == rest
  {
  }

  lemma XorBits(a: nat, b: nat)
    ensures Xor(a, b) % 2 == (a + b) % 2
    ensures Xor(a, b) / 2 == Xor(a / 2, b / 2)
  {
    if a > 0 || b > 0 {
      DigitSplits((a + b) % 2, Xor(a / 2, b / 2));
    }
  }

  lemma SameBits(a: nat, b: nat)
    requires a % 2 == b % 2 && a / 2 == b / 2
    ensures a == b
  {
  }

  lemma {:induction false} XorIsZeroOnEqual(a: nat, b: nat)
    ensures Xor(a, b) == 0 <==> a == b
  {
    if a > 0 || b > 0 {
      XorIsZeroOnEqual(a / 2, b / 2);
    }
  }

  lemma ParityMoves(x: nat, a: nat, y: nat, b: nat)
    requires (x + a) % 2 == (y + b) % 2
    ensures (x + y) % 2 == (a + b) % 2
  {
  }

  /** Terms can be moved across an equation between exclusive-ors. */
  lemma {:induction false} XorMoves(x: nat, a: nat, y: nat, b: nat)
    requires Xor(x, a) == Xor(y, b)
    ensures Xor(x, y) == Xor(a, b)
    decreases x + a + y + b
  {
    if x + a + y + b > 0 {
      XorBits(x, a);
      XorBits(y, b);
      XorMoves(x / 2, a / 2, y / 2, b / 2);
      ParityMoves(x, a, y, b);
      XorBits(x, y);
      XorBits(a, b);
      SameBits(Xor(x, y), Xor(a, b));
    }
  }

  lemma {:induction false} ShrDistributes(a: nat, b: nat, k: nat)
    ensures Shr(Xor(a, b), k) == Xor(Shr(a, k), Shr(b, k))
  {
    if k > 0 {
      XorBits(a, b);
      ShrDistributes(a / 2, b / 2, k - 1);
    }
  }

  /** The difference of two arguments with equal results equals its own shift, so it is 0. */
  lemma XorShiftIsInjective(x: Word, y: Word, k: nat)
    requires k > 0 && XorShift(x, k) == XorShift(y, k)
    ensures x == y
  {
    XorMoves(x, Shr(x, k), y, Shr(y, k));
    ShrDistributes(x, y, k);
    ShrShrinks(Xor(x, y), k);
    XorIsZeroOnEqual(x, y);
  }

  lemma ParityCancels(a: nat, b: nat, c: nat)
    requires c % 2 == (a + b) % 2
    ensures (c + b) % 2 == a % 2
  {
  }

  lemma {:induction false} XorCancels(a: nat, b: nat)
    ensures Xor(Xor(a, b), b) == a
    decreases a + b
  {
    if a + b > 0 {
      var c := Xor(a, b);
      XorBits(a, b);
      XorBits(c, b);
      ParityCancels(a, b, c);
      XorCancels(a / 2, b / 2);
      SameBits(Xor(c, b), a);
    }
  }

  function UndoXorShift(u: nat, k: nat): nat
    requires k > 0
    decreases u
  {
    ShrShrinks(u, k);
    if u == 0 then 0 else Xor(u, UndoXorShift(Shr(u, k), k))
  }

  lemma {:induction false} UndoXorShiftUndoes(u: nat, k: nat)
    requires k > 0
    ensures var x := UndoXorShift(u, k); Xor(x, Shr(x, k)) == u
    decreases u
  {
    ShrShrinks(u, k);
    if u > 0 {
      var z := UndoXorShift(Shr(u, k), k);
      UndoXorShiftUndoes(Shr(u, k), k);
      ShrDistributes(u, z, k);
      XorCancels(z, Shr(z, k));
      XorCancels(u, z);
    }
  }

  lemma {:induction false} UndoFits(u: nat, k: nat)
    requires k > 0 && u < Pow2(64)
    ensures UndoXorShift(u, k) < Pow2(64)
    decreases u
  {
    ShrShrinks(u, k);
    if u > 0 {
      UndoFits(Shr(u, k), k);
      XorFits(u, UndoXorShift(Shr(u, k), k), 64);
    }
  }

  /** The multipliers are odd: each has an inverse modulo 2^64. */
  const C1_INVERSE: Word := 0x96de1b173f119089
  const C2_INVERSE: Word := 0x319642b2d24d8ec3

  lemma ModOfShifted(x: Word, t: int)
    ensures (x + t * WORD_SIZE) % WORD_SIZE == x
  {
  }

  lemma Times1Undone(x: Word)
    ensures Times(Times(x, C1), C1_INVERSE) == x
    ensures Times(Times(x, C1_INVERSE), C1) == x
  {
    UndoTimes(x, C1, C1_INVERSE);
    UndoTimes(x, C1_INVERSE, C1);
  }

  lemma Times2Undone(x: Word)
    ensures Times(Times(x, C2), C2_INVERSE) == x
    ensures Times(Times(x, C2_INVERSE), C2) == x
  {
    UndoTimes(x, C2, C2_INVERSE);
    UndoTimes(x, C2_INVERSE, C2);
  }

  lemma UndoTimes(x: Word, c: Word, inverse: Word)
    requires c * inverse % WORD_SIZE == 1
    ensures Times(Times(x, c), inverse) == x
  {
    var q, r := x * c / WORD_SIZE, x * c % WORD_SIZE;
    var k := c * inverse / WORD_SIZE;
    ProductRegroups(x, c, inverse, q, r, k, WORD_SIZE);
    ModOfShifted(x, x * k - q * inverse);
  }

  /** Both sides are x * c * inverse less the multiples of m in x * c. */
  lemma ProductRegroups(x: int, c: int, inverse: int, q: int, r: int, k: int, m: int)
    requires x * c == q * m + r
    requires c * inverse == k * m + 1
    ensures r * inverse == x + (x * k - q * inverse) * m
  {
    calc {
      q * inverse * m + r * inverse;
      { Distributes(inverse, q * m, r); Associates(q, inverse, m); Associates(q, m, inverse); }
      (x * c) * inverse;
      { Associates(x, c, inverse); }
      x * (k * m + 1);
      { Distributes(x, k * m, 1); Associates(x, k, m); }
      x * k * m + x;
    }
    Distributes(m, x * k, -(q * inverse));
  }

  lemma Associates(a: int, b: int, c: int)
    ensures a * b * c == a * (b * c)
  {
  }

  lemma Distributes(a: int, b: int, c: int)
    ensures a * (b + c) == a * b + a * c
  {
  }

  /** The mixer is a bijection on 64-bit words. */
  lemma Mix64IsInjective(x: Word, y: Word)
    requires Mix64(x) == Mix64(y)
    ensures x == y
  {
    var a, b := XorShift(x, 30), XorShift(y, 30);
    var c, d := XorShift(Times(a, C1), 27), XorShift(Times(b, C1), 27);
    XorShiftIsInjective(Times(c, C2), Times(d, C2), 31);
    Times2Undone(c);
    Times2Undone(d);
    XorShiftIsInjective(Times(a, C1), Times(b, C1), 27);
    Times1Undone(a);
    Times1Undone(b);
    XorShiftIsInjective(x, y, 30);
  }

  function UndoWord(u: Word, k: nat): (x: Word)
    requires k > 0
    ensures XorShift(x, k) == u
  {
    WordIsPow2();
    UndoFits(u, k);
    UndoXorShiftUndoes(u, k);
    UndoXorShift(u, k)
  }

  function Unmix64(y: Word): Word {
    UndoWord(Times(UndoWord(Times(UndoWord(y, 31), C2_INVERSE), 27), C1_INVERSE), 30)
  }

  lemma Mix64IsSurjective(y: Word)
    ensures Mix64(Unmix64(y)) == y && Unmix64(Mix64(y)) == y
  {
    Times2Undone(UndoWord(y, 31));
    Times1Undone(UndoWord(Times(UndoWord(y, 31), C2_INVERSE), 27));
    assert Mix64(Unmix64(y)) == y;
    var z := Mix64(y);
    Times2Undone(UndoWord(z, 31));
    Times1Undone(UndoWord(Times(UndoWord(z, 31), C2_INVERSE), 27));
    Mix64IsInjective(Unmix64(z), y);
  }

  // ---- Sketches ----

  /** One minimum per lane, and the number of distinct feature hashes. */
  datatype Signature = Signature(min: seq<Word>, card: nat)

  const SEED_STEP: Word := 0x9e3779b97f4a7c15
  const SEED_BASE: Word := 0x123456789abcdef0

  function LaneSeed(lane: nat): Word {
    Mix64((lane * SEED_STEP + SEED_BASE) % WORD_SIZE)
  }

  function LaneHash(feature: Word, lane: nat): Word {
    WordIsPow2();
    XorFits(feature, LaneSeed(lane), 64);
    Mix64(Xor(feature, LaneSeed(lane)))
  }

  /** Two feature hashes that meet in any one lane are the same feature hash. */
  lemma LaneHashIsInjective(a: Word, b: Word, lane: nat)
    requires LaneHash(a, lane) == LaneHash(b, lane)
    ensures a == b
  {
    WordIsPow2();
    var s := LaneSeed(lane);
    XorFits(a, s, 64);
    XorFits(b, s, 64);
    Mix64IsInjective(Xor(a, s), Xor(b, s));
    XorCancels(a, s);
    XorCancels(b, s);
  }

  /** `sig` is the sketch of the set of feature hashes `fs`. */
  ghost predicate IsSketchOf(sig: Signature, fs: set<Word>) {
    && |sig.min| == LANES && sig.card == |fs|
    && forall i :: 0 <= i < LANES ==> IsLaneMin(sig.min[i], fs, i)
  }

  ghost predicate IsLaneMin(m: Word, fs: set<Word>, lane: nat) {
    && (forall f :: f in fs ==> m <= LaneHash(f, lane))
    && (m == MAX_WORD || exists f :: f in fs && m == LaneHash(f, lane))
  }

  /** The hashes of the non-empty features. */
  ghost function FeatureHashes(base: string -> Word, features: seq<string>): set<Word> {
    set i | 0 <= i < |features| && features[i] != "" :: base(features[i])
  }

  lemma FeatureHashesGrow(base: string -> Word, features: seq<string>, k: nat)
    requires k < |features|
    ensures FeatureHashes(base, features[..k + 1]) ==
            FeatureHashes(base, features[..k]) + if features[k] == "" then {} else {base(features[k])}
  {
    assert features[..k + 1] == features[..k] + [features[k]];
  }

  method SignatureOf(base: string -> Word, features: seq<string>) returns (sig: Signature)
    ensures IsSketchOf(sig, FeatureHashes(base, features))
  {
    var min: seq<Word> := seq(LANES, _ => MAX_WORD);
    var seen: set<Word> := {};
    for k := 0 to |features|
      invariant IsSketchOf(Signature(min, |seen|), seen)
      invariant seen == FeatureHashes(base, features[..k])
    {
      var f := features[k];
      FeatureHashesGrow(base, features, k);
      if f == "" {
        continue;
      }
      var bh := base(f);
      if bh in seen {
        continue;
      }
      min := LowerLanes(min, seen, bh);
      seen := seen + {bh};
    }
    assert features[..|features|] == features;
    sig := Signature(min, |seen|);
  }

  /** The inner loop: every lane takes the smaller of its minimum and the new hash. */
  method LowerLanes(min: seq<Word>, ghost seen: set<Word>, bh: Word) returns (lowered: seq<Word>)
    requires |min| == LANES && forall i :: 0 <= i < LANES ==> IsLaneMin(min[i], seen, i)
    ensures |lowered| == LANES && forall i :: 0 <= i < LANES ==> IsLaneMin(lowered[i], seen + {bh}, i)
  {
    lowered := min;
    for i := 0 to LANES
      invariant |lowered| == LANES
      invariant forall j :: 0 <= j < i ==> IsLaneMin(lowered[j], seen + {bh}, j)
      invariant forall j :: i <= j < LANES ==> lowered[j] == min[j]
    {
      var h := LaneHash(bh, i);
      assert IsLaneMin(min[i], seen, i);
      if h < lowered[i] {
        lowered := lowered[i := h];
      }
      LaneLowered(min[i], seen, bh, i, lowered[i]);
    }
  }

  lemma LaneLowered(m: Word, seen: set<Word>, bh: Word, lane: nat, m': Word)
    requires IsLaneMin(m, seen, lane)
    requires m' == if LaneHash(bh, lane) < m then LaneHash(bh, lane) else m
    ensures IsLaneMin(m', seen + {bh}, lane)
  {
    assert bh in seen + {bh};
    if m != MAX_WORD && m' == m {
      var f :| f in seen && m == LaneHash(f, lane);
      assert f in seen + {bh};
    }
  }

  lemma LaneMinIsUnique(m: Word, n: Word, fs: set<Word>, lane: nat)
    requires IsLaneMin(m, fs, lane) && IsLaneMin(n, fs, lane)
    ensures m == n
  {
  }

  /** A sketch depends only on the set of feature hashes: not on order, not on repetition. */
  lemma SketchDependsOnSet(a: Signature, b: Signature, fs: set<Word>)
    requires IsSketchOf(a, fs) && IsSketchOf(b, fs)
    ensures a == b
  {
    forall i | 0 <= i < LANES
      ensures a.min[i] == b.min[i]
    {
      LaneMinIsUnique(a.min[i], b.min[i], fs, i);
    }
    assert a.min == b.min;
  }

  /** The sketch of a union is the lane-wise minimum of the sketches. */
  lemma SketchOfUnion(a: Signature, b: Signature, u: Signature, fs: set<Word>, gs: set<Word>)
    requires IsSketchOf(a, fs) && IsSketchOf(b, gs) && IsSketchOf(u, fs + gs)
    ensures forall i :: 0 <= i < LANES ==> u.min[i] == if a.min[i] < b.min[i] then a.min[i] else b.min[i]
  {
    forall i | 0 <= i < LANES
      ensures u.min[i] == if a.min[i] < b.min[i] then a.min[i] else b.min[i]
    {
      var m := if a.min[i] < b.min[i] then a.min[i] else b.min[i];
      UnionLane(a.min[i], b.min[i], fs, gs, i);
      LaneMinIsUnique(u.min[i], m, fs + gs, i);
    }
  }

  lemma UnionLane(m: Word, n: Word, fs: set<Word>, gs: set<Word>, lane: nat)
    requires IsLaneMin(m, fs, lane) && IsLaneMin(n, gs, lane)
    ensures IsLaneMin(if m < n then m else n, fs + gs, lane)
  {
    var least := if m < n then m else n;
    if least != MAX_WORD {
      if m < n {
        var f :| f in fs && m == LaneHash(f, lane);
        assert f in fs + gs;
      } else {
        var g :| g in gs && n == LaneHash(g, lane);
        assert g in fs + gs;
      }
    }
  }

  // ---- Similarity ----

  /** Lanes below `n` on which two sketches agree. */
  function Agreements(a: Signature, b: Signature, n: nat): nat
    requires n <= |a.min| && n <= |b.min|
  {
    if n == 0 then 0
    else Agreements(a, b, n - 1) + if a.min[n - 1] == b.min[n - 1] then 1 else 0
  }

  function Score(a: Signature, b: Signature): real
    requires |a.min| == LANES && |b.min| == LANES
  {
    if a.card == 0 || b.card == 0 then 0.0 else Agreements(a, b, LANES) as real / 64.0
  }

  method Similarity(a: Signature, b: Signature) returns (score: real)
    requires |a.min| == LANES && |b.min| == LANES
    ensures score == Score(a, b)
  {
    if a.card == 0 || b.card == 0 {
      return 0.0;
    }
    var match_ := 0;
    for i := 0 to LANES
      invariant match_ == Agreements(a, b, i)
    {
      if a.min[i] == b.min[i] {
        match_ := match_ + 1;
      }
    }
    return match_ as real / 64.0;
  }

  lemma {:induction false} AgreementsExtremes(a: Signature, b: Signature, n: nat)
    requires n <= |a.min| && n <= |b.min|
    ensures Agreements(a, b, n) <= n
    ensures Agreements(a, b, n) == n <==> forall i :: 0 <= i < n ==> a.min[i] == b.min[i]
    ensures Agreements(a, b, n) == 0 <==> forall i :: 0 <= i < n ==> a.min[i] != b.min[i]
  {
    if n > 0 {
      AgreementsExtremes(a, b, n - 1);
    }
  }

  /** The minimum of a non-empty set is attained, even when it is the largest word. */
  lemma LaneMinIsAttained(m: Word, fs: set<Word>, lane: nat) returns (f: Word)
    requires IsLaneMin(m, fs, lane) && fs != {}
    ensures f in fs && m == LaneHash(f, lane)
  {
    if m == MAX_WORD {
      f :| f in fs;
    } else {
      f :| f in fs && m == LaneHash(f, lane);
    }
  }

  /** Two non-empty sketches that agree in a single lane share a feature hash. */
  lemma AgreementMeansSharedFeature(a: Signature, b: Signature, fs: set<Word>, gs: set<Word>, lane: nat)
    returns (f: Word)
    requires IsSketchOf(a, fs) && IsSketchOf(b, gs) && fs != {} && gs != {}
    requires lane < LANES && a.min[lane] == b.min[lane]
    ensures f in fs && f in gs
  {
    f := LaneMinIsAttained(a.min[lane], fs, lane);
    var g := LaneMinIsAttained(b.min[lane], gs, lane);
    LaneHashIsInjective(f, g, lane);
  }

  /** The score is exact at its extremes: disjoint sets score 0, and a set scores 1 against
      itself exactly when it is not empty. */
  lemma SimilarityExtremes(a: Signature, b: Signature, fs: set<Word>, gs: set<Word>)
    requires IsSketchOf(a, fs) && IsSketchOf(b, gs)
    ensures fs !! gs ==> Score(a, b) == 0.0
    ensures fs == gs ==> Score(a, b) == if fs == {} then 0.0 else 1.0
    ensures 0.0 <= Score(a, b) <= 1.0
  {
    AgreementsExtremes(a, b, LANES);
    if fs !! gs && fs != {} && gs != {} {
      forall i | 0 <= i < LANES
        ensures a.min[i] != b.min[i]
      {
        if a.min[i] == b.min[i] {
          var f := AgreementMeansSharedFeature(a, b, fs, gs, i);
          assert false;
        }
      }
    }
    if fs == gs {
      SketchDependsOnSet(a, b, fs);
    }
  }
}
