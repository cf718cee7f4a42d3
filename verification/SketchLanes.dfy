/** That the 64 lanes of a sketch are different lanes, and what the mixer behind them makes of
    one word. */
module SketchLanes {
  import opened Sketch

  // ---- No two lanes are alike ----

  /** The step between seeds is odd: it has an inverse modulo 2^64. */
  const STEP_INVERSE: Word := 0xf1de83e19937733d

  lemma StepUndone(n: Word)
    ensures Times(Times(n, SEED_STEP), STEP_INVERSE) == n
  {
    UndoTimes(n, SEED_STEP, STEP_INVERSE);
  }

  lemma SameSumSameTerm(a: nat, b: nat, c: nat)
    requires (a + c) % WORD_SIZE == (b + c) % WORD_SIZE
    ensures a % WORD_SIZE == b % WORD_SIZE
  {
  }

  lemma SeedsDiffer(i: nat, j: nat)
    requires i < j < LANES
    ensures LaneSeed(i) != LaneSeed(j)
  {
    if LaneSeed(i) == LaneSeed(j) {
      Mix64IsInjective((i * SEED_STEP + SEED_BASE) % WORD_SIZE, (j * SEED_STEP + SEED_BASE) % WORD_SIZE);
      SameSumSameTerm(i * SEED_STEP, j * SEED_STEP, SEED_BASE);
      StepUndone(i);
      StepUndone(j);
      assert false;
    }
  }

  /** One feature hash never looks the same in two lanes. */
  lemma LanesDiffer(f: Word, i: nat, j: nat)
    requires i < j < LANES
    ensures LaneHash(f, i) != LaneHash(f, j)
  {
    var s, t := LaneSeed(i), LaneSeed(j);
    SeedsDiffer(i, j);
    WordIsPow2();
    XorFits(f, s, 64);
    XorFits(f, t, 64);
    if LaneHash(f, i) == LaneHash(f, j) {
      Mix64IsInjective(Xor(f, s), Xor(f, t));
      XorCancels(s, f);
      XorCancels(t, f);
      XorCommutes(f, s);
      XorCommutes(f, t);
      assert false;
    }
  }

  lemma {:induction false} XorCommutes(a: nat, b: nat)
    ensures Xor(a, b) == Xor(b, a)
  {
    if a > 0 || b > 0 {
      XorCommutes(a / 2, b / 2);
    }
  }

  /** So the sketch of a single feature has 64 different minima. */
  lemma OneFeatureSpreads(sig: Signature, f: Word, i: nat, j: nat)
    requires IsSketchOf(sig, {f}) && i < j < LANES
    ensures sig.min[i] != sig.min[j]
  {
    var g := LaneMinIsAttained(sig.min[i], {f}, i);
    var h := LaneMinIsAttained(sig.min[j], {f}, j);
    LanesDiffer(f, i, j);
  }

  /** A sketch is over the hashes of the features that are not empty, and no others. */
  lemma FeaturesRead(base: string -> Word, features: seq<string>, h: Word)
    ensures h in FeatureHashes(base, features) <==> exists f :: f in features && |f| > 0 && base(f) == h
  {
    if f :| f in features && |f| > 0 && base(f) == h {
      var i :| 0 <= i < |features| && features[i] == f;
    }
  }

  // ---- The mixer at one word ----

  /** Bit by bit, `z` is the exclusive-or of the hexadecimal digits `x` and `y`. */
  predicate Nibbles(x: nat, y: nat, z: nat) {
    && x < 16 && y < 16
    && z == 8 * ((x / 8 + y / 8) % 2) + 4 * ((x / 4 % 2 + y / 4 % 2) % 2)
            + 2 * ((x / 2 % 2 + y / 2 % 2) % 2) + (x % 2 + y % 2) % 2
  }

  lemma Halves(a: nat, c: nat, x: nat)
    requires a == 2 * c + x && x < 2
    ensures a / 2 == c && a % 2 == x
  {
  }

  lemma XorUnfolds(a: nat, b: nat, c: nat, d: nat, x: nat, y: nat)
    requires a == 2 * c + x && b == 2 * d + y && x < 2 && y < 2
    ensures Xor(a, b) == 2 * Xor(c, d) + (x + y) % 2
  {
    Halves(a, c, x);
    Halves(b, d, y);
    Parity(a + b, c + d, x + y);
  }

  lemma Parity(a: nat, c: nat, x: nat)
    requires a == 2 * c + x
    ensures a % 2 == x % 2
  {
  }

  lemma TwoBitsXor(a: nat, b: nat, x: nat, y: nat, u: nat, v: nat)
    requires x < 2 && y < 2 && u < 2 && v < 2
    ensures Xor(4 * a + 2 * x + u, 4 * b + 2 * y + v) == 4 * Xor(a, b) + 2 * ((x + y) % 2) + (u + v) % 2
  {
    XorUnfolds(4 * a + 2 * x + u, 4 * b + 2 * y + v, 2 * a + x, 2 * b + y, u, v);
    XorUnfolds(2 * a + x, 2 * b + y, a, b, x, y);
  }

  lemma FourBitsXor(a: nat, b: nat, p: nat, q: nat, s: nat, t: nat, p': nat, q': nat, s': nat, t': nat)
    requires p < 2 && q < 2 && s < 2 && t < 2 && p' < 2 && q' < 2 && s' < 2 && t' < 2
    ensures Xor(16 * a + (8 * p + 4 * q + 2 * s + t), 16 * b + (8 * p' + 4 * q' + 2 * s' + t')) ==
            16 * Xor(a, b) + 8 * ((p + p') % 2) + 4 * ((q + q') % 2) + 2 * ((s + s') % 2) + (t + t') % 2
  {
    TwoBitsXor(a, b, p, p', q, q');
    TwoBitsXor(4 * a + 2 * p + q, 4 * b + 2 * p' + q', s, s', t, t');
  }

  lemma BitsOf(x: nat)
    requires x < 16
    ensures x == 8 * (x / 8) + 4 * (x / 4 % 2) + 2 * (x / 2 % 2) + x % 2 && x / 8 < 2
  {
  }

  lemma DigitsXor(a: nat, b: nat, x: nat, y: nat, z: nat, p: nat, q: nat, s: nat, t: nat, p': nat, q': nat, s': nat,
                  t': nat)
    requires p < 2 && q < 2 && s < 2 && t < 2 && p' < 2 && q' < 2 && s' < 2 && t' < 2
    requires x == 8 * p + 4 * q + 2 * s + t && y == 8 * p' + 4 * q' + 2 * s' + t'
    requires z == 8 * ((p + p') % 2) + 4 * ((q + q') % 2) + 2 * ((s + s') % 2) + (t + t') % 2
    ensures Xor(16 * a + x, 16 * b + y) == 16 * Xor(a, b) + z
  {
    FourBitsXor(a, b, p, q, s, t, p', q', s', t');
  }

  lemma NibblesXor(a: nat, b: nat, x: nat, y: nat, z: nat)
    requires Nibbles(x, y, z)
    ensures Xor(16 * a + x, 16 * b + y) == 16 * Xor(a, b) + z
  {
    BitsOf(x);
    BitsOf(y);
    DigitsXor(a, b, x, y, z, x / 8, x / 4 % 2, x / 2 % 2, x % 2, y / 8, y / 4 % 2, y / 2 % 2, y % 2);
  }

  ghost predicate Appended(a: nat, b: nat, c: nat, x: nat, y: nat, z: nat, a': nat, b': nat, c': nat) {
    Nibbles(x, y, z) && a' == 16 * a + x && b' == 16 * b + y && c' == 16 * c + z
  }

  /** A relation that grows by a hexadecimal digit at a time, as exclusive-or does. */
  ghost predicate Appends(r: (nat, nat, nat) -> bool) {
    forall a: nat, b: nat, c: nat, x: nat, y: nat, z: nat, a': nat, b': nat, c': nat ::
      Appended(a, b, c, x, y, z, a', b', c') && r(a, b, c) ==> r(a', b', c')
  }

  lemma Append(r: (nat, nat, nat) -> bool, a: nat, b: nat, c: nat, x: nat, y: nat, z: nat)
    requires Appends(r) && r(a, b, c) && Nibbles(x, y, z)
    ensures r(16 * a + x, 16 * b + y, 16 * c + z)
  {
    assert Appended(a, b, c, x, y, z, 16 * a + x, 16 * b + y, 16 * c + z);
  }

  lemma FirstXorStart(r: (nat, nat, nat) -> bool)
    requires Appends(r) && r(0xbf5847, 0, 0xbf5847)
    ensures r(0xbf58476d1, 0x17e, 0xbf58477af)
  {
    Append(r, 0xbf5847, 0x0, 0xbf5847, 0x6, 0x1, 0x7);
    Append(r, 0xbf58476, 0x1, 0xbf58477, 0xd, 0x7, 0xa);
    Append(r, 0xbf58476d, 0x17, 0xbf58477a, 0x1, 0xe, 0xf);
  }

  lemma FirstXorMiddle(r: (nat, nat, nat) -> bool)
    requires Appends(r) && r(0xbf5847, 0, 0xbf5847)
    ensures r(0xbf58476d1ce4, 0x17eb08, 0xbf58477af7ec)
  {
    FirstXorStart(r);
    Append(r, 0xbf58476d1, 0x17e, 0xbf58477af, 0xc, 0xb, 0x7);
    Append(r, 0xbf58476d1c, 0x17eb, 0xbf58477af7, 0xe, 0x0, 0xe);
    Append(r, 0xbf58476d1ce, 0x17eb0, 0xbf58477af7e, 0x4, 0x8, 0xc);
  }

  lemma FirstXorNearly(r: (nat, nat, nat) -> bool)
    requires Appends(r) && r(0xbf5847, 0, 0xbf5847)
    ensures r(0xbf58476d1ce4e5, 0x17eb08ed, 0xbf58477af7ec08)
  {
    FirstXorMiddle(r);
    Append(r, 0xbf58476d1ce4, 0x17eb08, 0xbf58477af7ec, 0xe, 0xe, 0x0);
    Append(r, 0xbf58476d1ce4e, 0x17eb08e, 0xbf58477af7ec0, 0x5, 0xd, 0x8);
  }

  lemma FirstXor(r: (nat, nat, nat) -> bool)
    requires Appends(r) && r(0xbf5847, 0, 0xbf5847)
    ensures r(0xbf58476d1ce4e5b9, 0x17eb08eda3, 0xbf58477af7ec081a)
  {
    FirstXorNearly(r);
    Append(r, 0xbf58476d1ce4e5, 0x17eb08ed, 0xbf58477af7ec08, 0xb, 0xa, 0x1);
    Append(r, 0xbf58476d1ce4e5b, 0x17eb08eda, 0xbf58477af7ec081, 0x9, 0x3, 0xa);
  }

  lemma SecondXorStart(r: (nat, nat, nat) -> bool)
    requires Appends(r) && r(0x5692161d, 0, 0x5692161d)
    ensures r(0x5692161dbd2, 0xad2, 0x5692161d100)
  {
    Append(r, 0x5692161d, 0x0, 0x5692161d, 0xb, 0xa, 0x1);
    Append(r, 0x5692161db, 0xa, 0x5692161d1, 0xd, 0xd, 0x0);
    Append(r, 0x5692161dbd, 0xad, 0x5692161d10, 0x2, 0x2, 0x0);
  }

  lemma SecondXorMiddle(r: (nat, nat, nat) -> bool)
    requires Appends(r) && r(0x5692161d, 0, 0x5692161d)
    ensures r(0x5692161dbd2f29, 0xad242c, 0x5692161d100b05)
  {
    SecondXorStart(r);
    Append(r, 0x5692161dbd2, 0xad2, 0x5692161d100, 0xf, 0x4, 0xb);
    Append(r, 0x5692161dbd2f, 0xad24, 0x5692161d100b, 0x2, 0x2, 0x0);
    Append(r, 0x5692161dbd2f2, 0xad242, 0x5692161d100b0, 0x9, 0xc, 0x5);
  }

  lemma SecondXor(r: (nat, nat, nat) -> bool)
    requires Appends(r) && r(0x5692161d, 0, 0x5692161d)
    ensures r(0x5692161dbd2f29de, 0xad242c3b, 0x5692161d100b05e5)
  {
    SecondXorMiddle(r);
    Append(r, 0x5692161dbd2f29, 0xad242c, 0x5692161d100b05, 0xd, 0x3, 0xe);
    Append(r, 0x5692161dbd2f29d, 0xad242c3, 0x5692161d100b05e, 0xe, 0xb, 0x5);
  }

  ghost function IsXor(): (nat, nat, nat) -> bool {
    (a: nat, b: nat, c: nat) => Xor(a, b) == c
  }

  lemma XorAppends()
    ensures Appends(IsXor())
  {
    forall a: nat, b: nat, c: nat, x: nat, y: nat, z: nat, a': nat, b': nat, c': nat
      | Appended(a, b, c, x, y, z, a', b', c') && IsXor()(a, b, c)
      ensures IsXor()(a', b', c')
    {
      NibblesXor(a, b, x, y, z);
    }
  }

  lemma {:induction false} XorWithZero(a: nat)
    ensures Xor(a, 0) == a
  {
    if a > 0 {
      XorWithZero(a / 2);
    }
  }

  lemma TwiceFits(a: nat, s: nat, p: nat)
    requires s * p <= a / 2 < s * p + p
    ensures s * (2 * p) <= a < s * (2 * p) + 2 * p
  {
    assert s * (2 * p) == 2 * (s * p);
  }

  lemma {:induction false} ShrIsQuotient(a: nat, k: nat)
    ensures Shr(a, k) * Pow2(k) <= a < Shr(a, k) * Pow2(k) + Pow2(k)
  {
    if k > 0 {
      ShrIsQuotient(a / 2, k - 1);
      TwiceFits(a, Shr(a, k), Pow2(k - 1));
    }
  }

  lemma MultiplesGrow(x: nat, y: nat, p: nat)
    requires x <= y
    ensures x * p <= y * p
  {
  }

  lemma QuotientFits(q: nat, s: nat, p: nat, a: nat)
    requires q * p <= a < s * p + p
    ensures q <= s
  {
    if s < q {
      MultiplesGrow(s + 1, q, p);
      assert false;
    }
  }

  lemma ShrIs(a: nat, k: nat, p: nat, q: nat)
    requires p == Pow2(k) && q * p <= a < q * p + p
    ensures Shr(a, k) == q
  {
    ShrIsQuotient(a, k);
    QuotientFits(q, Shr(a, k), p, a);
    QuotientFits(Shr(a, k), q, p, a);
  }

  lemma Powers()
    ensures Pow2(27) == 0x800_0000 && Pow2(30) == 0x4000_0000 && Pow2(31) == 0x8000_0000
  {
    assert Pow2(3) == 2 * Pow2(2) && Pow2(2) == 2 * Pow2(1) && Pow2(1) == 2;
    Pow2Steps(3);
    Pow2Steps(7);
    Pow2Steps(11);
    Pow2Steps(15);
    Pow2Steps(19);
    Pow2Steps(23);
    assert Pow2(30) == 2 * Pow2(29) && Pow2(29) == 2 * Pow2(28) && Pow2(28) == 2 * Pow2(27);
    assert Pow2(31) == 2 * Pow2(30);
  }

  lemma XorShiftIs(x: Word, k: nat, p: nat, q: nat, y: Word)
    requires p == Pow2(k) && q * p <= x < q * p + p && IsXor()(x, q, y)
    ensures XorShift(x, k) == y
  {
    ShrIs(x, k, p, q);
  }

  // The words are passed by name: as literals they would be unrolled bit by bit.

  lemma FirstShift(x: Word)
    requires x == 1
    ensures XorShift(x, 30) == 1
  {
    Powers();
    XorWithZero(1);
    XorShiftIs(x, 30, 0x4000_0000, 0, 1);
  }

  lemma SecondShift(x: Word)
    requires x == 0xbf58476d1ce4e5b9
    ensures XorShift(x, 27) == 0xbf58477af7ec081a
  {
    Powers();
    XorAppends();
    XorWithZero(0xbf5847);
    FirstXor(IsXor());
    XorShiftIs(x, 27, 0x800_0000, 0x17eb08eda3, 0xbf58477af7ec081a);
  }

  lemma ThirdShift(x: Word)
    requires x == 0x5692161dbd2f29de
    ensures XorShift(x, 31) == 0x5692161d100b05e5
  {
    Powers();
    XorAppends();
    XorWithZero(0x5692161d);
    SecondXor(IsXor());
    XorShiftIs(x, 31, 0x8000_0000, 0xad242c3b, 0x5692161d100b05e5);
  }

  lemma MixIs(x: Word)
    requires x == 1
    ensures Mix64(x) == 0x5692161d100b05e5
  {
    FirstShift(x);
    var b := Times(XorShift(x, 30), C1);
    SecondShift(b);
    ThirdShift(Times(XorShift(b, 27), C2));
  }

  /** What the finaliser makes of 1: each multiplier, the order of the steps and the shifts by 27
      and 31 show in it. */
  lemma MixOfOne()
    ensures Mix64(1) == 0x5692161d100b05e5
  {
    MixIs(1);
  }
}
