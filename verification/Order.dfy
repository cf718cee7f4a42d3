/** The byte-wise order of Go strings and of BoltDB keys, and what an ordered key space
    says about keys that share a prefix. */
module Order {

  /** Strict lexicographic order. */
  predicate Before(a: string, b: string) {
    if b == [] then false
    else if a == [] then true
    else a[0] < b[0] || (a[0] == b[0] && Before(a[1..], b[1..]))
  }

  lemma {:induction false} BeforeIsTotal(a: string, b: string)
    ensures a == b || Before(a, b) || Before(b, a)
    ensures Before(a, b) ==> a != b && !Before(b, a)
  {
    if a != [] && b != [] {
      BeforeIsTotal(a[1..], b[1..]);
      assert a == [a[0]] + a[1..] && b == [b[0]] + b[1..];
    }
  }

  /** The order reads from the left: the first difference decides, and a proper prefix comes
      before what it is a prefix of. */
  lemma {:induction false} BeforeMeans(a: string, b: string)
    ensures Before(a, b) <==> exists k :: 0 <= k <= |a| && k < |b| && a[..k] == b[..k] && (k == |a| || a[k] < b[k])
  {
    if a == [] {
      if b != [] {
        assert a[..0] == b[..0];
      }
    } else if b != [] && a[0] == b[0] {
      BeforeMeans(a[1..], b[1..]);
      FirstDifferenceShifts(a, b);
    } else if b != [] && a[0] < b[0] {
      assert a[..0] == b[..0];
    }
  }

  lemma FirstDifferenceShifts(a: string, b: string)
    requires a != [] && b != [] && a[0] == b[0]
    ensures (exists k :: 0 <= k <= |a| && k < |b| && a[..k] == b[..k] && (k == |a| || a[k] < b[k])) <==>
            exists k :: 0 <= k <= |a[1..]| && k < |b[1..]| && a[1..][..k] == b[1..][..k]
                        && (k == |a[1..]| || a[1..][k] < b[1..][k])
  {
    if k :| 0 <= k <= |a| && k < |b| && a[..k] == b[..k] && (k == |a| || a[k] < b[k]) {
      assert a[1..][..k - 1] == a[..k][1..] && b[1..][..k - 1] == b[..k][1..];
    }
    if k :| 0 <= k <= |a[1..]| && k < |b[1..]| && a[1..][..k] == b[1..][..k]
            && (k == |a[1..]| || a[1..][k] < b[1..][k]) {
      assert a[..k + 1] == [a[0]] + a[1..][..k] && b[..k + 1] == [b[0]] + b[1..][..k];
    }
  }

  lemma {:induction false} BeforeIsTransitive(a: string, b: string, c: string)
    requires Before(a, b) && Before(b, c)
    ensures Before(a, c)
  {
    if a != [] && a[0] == b[0] == c[0] {
      BeforeIsTransitive(a[1..], b[1..], c[1..]);
    }
  }

  /** A prefix comes first among its own extensions. */
  lemma {:induction false} PrefixIsFirst(p: string, k: string)
    requires p <= k
    ensures p == k || Before(p, k)
  {
    if p != [] {
      PrefixIsFirst(p[1..], k[1..]);
      assert p == [p[0]] + p[1..] && k == [k[0]] + k[1..];
    }
  }

  /** Keys that share a prefix are contiguous: a later key without the prefix comes after
      every key that has it. */
  lemma {:induction false} PrefixBlockEnds(p: string, k: string, within: string)
    requires Before(p, k) && !(p <= k) && p <= within
    ensures Before(within, k)
  {
    if p != [] && p[0] == k[0] {
      PrefixBlockEnds(p[1..], k[1..], within[1..]);
    }
  }

  lemma BeforeIsStrictOrder()
    ensures StrictOrder(Before)
  {
    forall a, b
      ensures a == b || Before(a, b) || Before(b, a)
      ensures !Before(a, a)
    {
      BeforeIsTotal(a, b);
      BeforeIsTotal(a, a);
    }
    forall a, b, c | Before(a, b) && Before(b, c)
      ensures Before(a, c)
    {
      BeforeIsTransitive(a, b, c);
    }
  }

  // ---- Any strict total order ----

  ghost predicate StrictOrder<T(!new)>(less: (T, T) -> bool) {
    && (forall x :: !less(x, x))
    && (forall x, y :: x == y || less(x, y) || less(y, x))
    && (forall x, y, z :: less(x, y) && less(y, z) ==> less(x, z))
  }

  ghost predicate StrictPartialOrder<T(!new)>(less: (T, T) -> bool) {
    && (forall x :: !less(x, x))
    && (forall x, y, z :: less(x, y) && less(y, z) ==> less(x, z))
  }

  ghost predicate AscendingBy<T(!new)>(less: (T, T) -> bool, s: seq<T>) {
    forall i, j :: 0 <= i < j < |s| ==> less(s[i], s[j])
  }

  ghost predicate Distinct<T>(s: seq<T>) {
    forall i, j :: 0 <= i < j < |s| ==> s[i] != s[j]
  }

  /** Every two entries of the list can be told apart by the order. */
  ghost predicate Comparable<T(!new)>(less: (T, T) -> bool, s: seq<T>) {
    forall i, j :: 0 <= i < j < |s| ==> less(s[i], s[j]) || less(s[j], s[i])
  }

  lemma TailOmitsHead<T(!new)>(less: (T, T) -> bool, a: seq<T>, z: T)
    requires StrictPartialOrder(less) && AscendingBy(less, a) && a != []
    ensures z in a[1..] <==> z in a && z != a[0]
  {
    assert a == [a[0]] + a[1..];
    if z in a[1..] {
      var i :| 0 <= i < |a[1..]| && a[1..][i] == z;
      assert less(a[0], a[i + 1]);
    }
  }

  lemma HeadIsLeast<T(!new)>(less: (T, T) -> bool, a: seq<T>, z: T)
    requires AscendingBy(less, a) && z in a
    ensures z == a[0] || less(a[0], z)
  {
    var i :| 0 <= i < |a| && a[i] == z;
  }

  /** A strictly ascending list is determined by its elements. */
  lemma {:induction false} AscendingIsUnique<T(!new)>(less: (T, T) -> bool, a: seq<T>, b: seq<T>)
    requires StrictPartialOrder(less) && AscendingBy(less, a) && AscendingBy(less, b)
    requires forall x :: x in a <==> x in b
    ensures a == b
    decreases |a|
  {
    if a == [] {
      assert forall i :: 0 <= i < |b| ==> b[i] in a;
    } else {
      assert a[0] in b && b[0] in a;
      HeadIsLeast(less, a, b[0]);
      HeadIsLeast(less, b, a[0]);
      assert a[0] == b[0];
      forall z
        ensures z in a[1..] <==> z in b[1..]
      {
        TailOmitsHead(less, a, z);
        TailOmitsHead(less, b, z);
      }
      AscendingIsUnique(less, a[1..], b[1..]);
      assert a == [a[0]] + a[1..] && b == [b[0]] + b[1..];
    }
  }

  /** Insertion sort, standing for the library sorts the source calls. */
  function InsertBy<T>(less: (T, T) -> bool, s: seq<T>, x: T): seq<T> {
    if s == [] then [x]
    else if less(x, s[0]) then [x] + s
    else [s[0]] + InsertBy(less, s[1..], x)
  }

  function SortBy<T>(less: (T, T) -> bool, s: seq<T>): seq<T> {
    if s == [] then [] else InsertBy(less, SortBy(less, s[1..]), s[0])
  }

  lemma {:induction false} InsertByElements<T>(less: (T, T) -> bool, s: seq<T>, x: T, y: T)
    ensures y in InsertBy(less, s, x) <==> y == x || y in s
  {
    if s != [] && !less(x, s[0]) {
      InsertByElements(less, s[1..], x, y);
      assert s == [s[0]] + s[1..];
    }
  }

  lemma {:induction false} InsertByAscends<T(!new)>(less: (T, T) -> bool, s: seq<T>, x: T)
    requires StrictPartialOrder(less) && AscendingBy(less, s)
    requires forall y :: y in s ==> less(x, y) || less(y, x)
    ensures AscendingBy(less, InsertBy(less, s, x))
  {
    if s != [] && !less(x, s[0]) {
      InsertByAscends(less, s[1..], x);
      var r := InsertBy(less, s[1..], x);
      forall i | 0 <= i < |r|
        ensures less(s[0], r[i])
      {
        InsertByElements(less, s[1..], x, r[i]);
        assert forall k :: 0 <= k < |s[1..]| ==> s[1..][k] == s[k + 1];
      }
    }
  }

  lemma {:induction false} SortByElements<T>(less: (T, T) -> bool, s: seq<T>, y: T)
    ensures y in SortBy(less, s) <==> y in s
  {
    if s != [] {
      SortByElements(less, s[1..], y);
      InsertByElements(less, SortBy(less, s[1..]), s[0], y);
      assert s == [s[0]] + s[1..];
    }
  }

  lemma {:induction false} SortByAscends<T(!new)>(less: (T, T) -> bool, s: seq<T>)
    requires StrictPartialOrder(less) && Comparable(less, s)
    ensures AscendingBy(less, SortBy(less, s))
    ensures |SortBy(less, s)| == |s|
  {
    if s != [] {
      SortByAscends(less, s[1..]);
      var rest := SortBy(less, s[1..]);
      forall y | y in rest
        ensures less(s[0], y) || less(y, s[0])
      {
        SortByElements(less, s[1..], y);
        var i :| 0 <= i < |s[1..]| && s[1..][i] == y;
        assert y == s[i + 1];
      }
      InsertByAscends(less, rest, s[0]);
      InsertByLength(less, rest, s[0]);
    }
  }

  lemma {:induction false} InsertByLength<T>(less: (T, T) -> bool, s: seq<T>, x: T)
    ensures |InsertBy(less, s, x)| == |s| + 1
  {
    if s != [] && !less(x, s[0]) {
      InsertByLength(less, s[1..], x);
    }
  }

  // ---- The ascending listing of a finite set ----

  lemma SubsetIsNoLarger<T>(a: set<T>, b: set<T>)
    requires a <= b
    ensures |a| <= |b|
    decreases |a|
  {
    if a != {} {
      var x :| x in a;
      SubsetIsNoLarger(a - {x}, b - {x});
    }
  }

  ghost predicate IsLeast<T(!new)>(less: (T, T) -> bool, s: set<T>, least: T) {
    least in s && forall x :: x in s && x != least ==> less(least, x)
  }

  lemma {:induction false} LeastExists<T(!new)>(less: (T, T) -> bool, s: set<T>) returns (least: T)
    requires s != {} && StrictOrder(less)
    ensures IsLeast(less, s, least)
    decreases |s|
  {
    var x :| x in s;
    var rest := s - {x};
    assert s == rest + {x};
    if rest == {} {
      least := x;
    } else {
      var m := LeastExists(less, rest);
      least := if less(x, m) then x else m;
    }
  }

  ghost function Listing<T(!new)>(less: (T, T) -> bool, s: set<T>): seq<T>
    requires StrictOrder(less)
    decreases |s|
  {
    if s == {} then []
    else
      var x := LeastOf(less, s);
      [x] + Listing(less, s - {x})
  }

  ghost function LeastOf<T(!new)>(less: (T, T) -> bool, s: set<T>): (x: T)
    requires s != {} && StrictOrder(less)
    ensures IsLeast(less, s, x)
  {
    assert exists x :: IsLeast(less, s, x) by {
      var x := LeastExists(less, s);
    }
    var x :| IsLeast(less, s, x);
    x
  }

  lemma {:induction false} ListingElements<T(!new)>(less: (T, T) -> bool, s: set<T>, y: T)
    requires StrictOrder(less)
    ensures y in Listing(less, s) <==> y in s
    decreases |s|
  {
    if s != {} {
      var x := LeastOf(less, s);
      ListingElements(less, s - {x}, y);
    }
  }

  lemma {:induction false} ListingAscends<T(!new)>(less: (T, T) -> bool, s: set<T>)
    requires StrictOrder(less)
    ensures AscendingBy(less, Listing(less, s))
    decreases |s|
  {
    if s != {} {
      var x := LeastOf(less, s);
      var rest := Listing(less, s - {x});
      ListingAscends(less, s - {x});
      forall i | 0 <= i < |rest|
        ensures less(x, rest[i])
      {
        ListingElements(less, s - {x}, rest[i]);
      }
      assert Listing(less, s) == [x] + rest;
    }
  }
}
