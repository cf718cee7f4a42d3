/** Finite trees given by their child function, in breadth-first order, and joins over them. */
module TreeOrder {
  import opened Pipeline

  /** The next level: the children of all items, in order. */
  function Flat<T>(kids: T -> seq<T>, items: seq<T>): seq<T> {
    if items == [] then [] else Flat(kids, items[..|items| - 1]) + kids(items[|items| - 1])
  }

  /** The tree below `items`, level by level, down to `n` levels. */
  function Levels<T>(kids: T -> seq<T>, items: seq<T>, n: nat): seq<T>
    decreases n
  {
    if n == 0 then items else items + Levels(kids, Flat(kids, items), n - 1)
  }

  lemma ConcatAssociates<T>(a: seq<T>, b: seq<T>, c: seq<T>)
    ensures (a + b) + c == a + (b + c)
  {
  }

  lemma ConcatKeepsPrefix<T>(a: seq<T>, b: seq<T>, c: seq<T>)
    requires b <= c
    ensures a + b <= a + c
  {
  }

  lemma FlatOneMore<T>(kids: T -> seq<T>, items: seq<T>, item: T)
    ensures Flat(kids, items + [item]) == Flat(kids, items) + kids(item)
  {
    assert (items + [item])[..|items|] == items;
  }

  lemma {:induction false} FlatConcat<T>(kids: T -> seq<T>, a: seq<T>, b: seq<T>)
    ensures Flat(kids, a + b) == Flat(kids, a) + Flat(kids, b)
    decreases |b|
  {
    if b == [] {
      assert a + b == a && Flat(kids, a) + [] == Flat(kids, a);
    } else {
      var c, x := b[..|b| - 1], b[|b| - 1];
      FlatConcat(kids, a, c);
      assert b == c + [x];
      ConcatAssociates(a, c, [x]);
      FlatOneMore(kids, a + c, x);
      ConcatAssociates(Flat(kids, a), Flat(kids, c), kids(x));
    }
  }

  /** The breadth-first order is its own recipe: the items, then the children of everything
      above the last level. */
  lemma {:induction false} LevelsUnfold<T>(kids: T -> seq<T>, items: seq<T>, n: nat)
    ensures Levels(kids, items, n + 1) == items + Flat(kids, Levels(kids, items, n))
    decreases n
  {
    var below := Flat(kids, items);
    assert Levels(kids, items, n + 1) == items + Levels(kids, below, n);
    if n == 0 {
      assert Levels(kids, below, 0) == below && Levels(kids, items, 0) == items;
    } else {
      var rest := Levels(kids, below, n - 1);
      LevelsUnfold(kids, below, n - 1);
      assert Levels(kids, below, n) == below + Flat(kids, rest);
      FlatConcat(kids, items, rest);
      assert Levels(kids, items, n) == items + rest;
    }
  }

  /** A list that lists the root and then the children of what it lists. */
  ghost predicate Closed<T>(kids: T -> seq<T>, root: T, d: seq<T>) {
    d == [root] + Flat(kids, d)
  }

  lemma FlatPrefix<T>(kids: T -> seq<T>, a: seq<T>, d: seq<T>)
    requires a <= d
    ensures Flat(kids, a) <= Flat(kids, d)
  {
    assert d == a + d[|a|..];
    FlatConcat(kids, a, d[|a|..]);
  }

  lemma {:induction false} LevelsArePrefix<T>(kids: T -> seq<T>, root: T, d: seq<T>, n: nat)
    requires Closed(kids, root, d)
    ensures Levels(kids, [root], n) <= d
  {
    if n > 0 {
      var u := Levels(kids, [root], n - 1);
      LevelsArePrefix(kids, root, d, n - 1);
      LevelsUnfold(kids, [root], n - 1);
      FlatPrefix(kids, u, d);
      ConcatKeepsPrefix([root], Flat(kids, u), Flat(kids, d));
    }
  }

  /** Children lie exactly one level below their parent. */
  ghost predicate Deepens<T(!new)>(kids: T -> seq<T>, depth: T -> nat) {
    forall x, i :: 0 <= i < |kids(x)| ==> depth(kids(x)[i]) == depth(x) + 1
  }

  /** The parent of a place in the next level. */
  lemma {:induction false} ParentOf<T(!new)>(kids: T -> seq<T>, depth: T -> nat, d: seq<T>, k: nat) returns (j: nat)
    requires Deepens(kids, depth) && k < |Flat(kids, d)|
    ensures j < |d| && k < |Flat(kids, d[..j + 1])| && depth(Flat(kids, d)[k]) == depth(d[j]) + 1
    decreases |d|
  {
    var n := |d| - 1;
    if k < |Flat(kids, d[..n])| {
      j := ParentOf(kids, depth, d[..n], k);
      assert d[..n][..j + 1] == d[..j + 1];
    } else {
      j := n;
      assert d[..n + 1] == d;
    }
  }

  lemma ChildIsCovered<T>(kids: T -> seq<T>, d: seq<T>, u: seq<T>, j: nat, k: nat)
    requires u <= d && j < |u| && k < |Flat(kids, d[..j + 1])|
    ensures k < |Flat(kids, u)|
  {
    assert d[..j + 1] <= u;
    FlatPrefix(kids, d[..j + 1], u);
  }

  lemma ListedParent<T(!new)>(kids: T -> seq<T>, depth: T -> nat, root: T, d: seq<T>, k: nat) returns (j: nat)
    requires Deepens(kids, depth) && Closed(kids, root, d) && 0 < k < |d|
    ensures j < |d| && k - 1 < |Flat(kids, d[..j + 1])| && depth(d[k]) == depth(d[j]) + 1
  {
    j := ParentOf(kids, depth, d, k - 1);
    assert d[k] == Flat(kids, d)[k - 1];
  }

  lemma NextLevelCovers<T>(kids: T -> seq<T>, root: T, d: seq<T>, n: nat, j: nat, k: nat)
    requires Closed(kids, root, d) && n > 0 && k > 0
    requires j < |d| && j < |Levels(kids, [root], n - 1)| && k - 1 < |Flat(kids, d[..j + 1])|
    ensures k < |Levels(kids, [root], n)|
  {
    LevelsLength(kids, root, n);
    LevelsArePrefix(kids, root, d, n - 1);
    ChildIsCovered(kids, d, Levels(kids, [root], n - 1), j, k - 1);
  }

  lemma LevelsLength<T>(kids: T -> seq<T>, root: T, n: nat)
    ensures |Levels(kids, [root], n)| > 0
    ensures n > 0 ==> |Levels(kids, [root], n)| == 1 + |Flat(kids, Levels(kids, [root], n - 1))|
  {
    if n > 0 {
      LevelsUnfold(kids, [root], n - 1);
    }
  }

  lemma {:induction false} ShallowIsCovered<T(!new)>(kids: T -> seq<T>, depth: T -> nat, root: T, d: seq<T>,
                                                      n: nat, k: nat)
    requires Deepens(kids, depth) && Closed(kids, root, d) && k < |d| && depth(d[k]) <= n
    ensures k < |Levels(kids, [root], n)|
    decreases n
  {
    LevelsLength(kids, root, n);
    if k > 0 {
      var j := ListedParent(kids, depth, root, d, k);
      ShallowIsCovered(kids, depth, root, d, n - 1, j);
      NextLevelCovers(kids, root, d, n, j, k);
    }
  }

  ghost predicate NoDeeper<T(!new)>(depth: T -> nat, items: seq<T>, n: nat) {
    forall i :: 0 <= i < |items| ==> depth(items[i]) <= n
  }

  /** A closed list without items deeper than `n` is the whole tree. */
  lemma ClosedIsWholeTree<T(!new)>(kids: T -> seq<T>, depth: T -> nat, root: T, d: seq<T>, n: nat)
    requires Deepens(kids, depth) && Closed(kids, root, d) && NoDeeper(depth, d, n)
    ensures d == Levels(kids, [root], n)
  {
    LevelsArePrefix(kids, root, d, n);
    ShallowIsCovered(kids, depth, root, d, n, |d| - 1);
  }

  lemma {:induction false} FlatDepths<T(!new)>(kids: T -> seq<T>, depth: T -> nat, items: seq<T>, m: nat)
    requires Deepens(kids, depth) && NoDeeper(depth, items, m)
    ensures NoDeeper(depth, Flat(kids, items), m + 1)
  {
    if items != [] {
      FlatDepths(kids, depth, items[..|items| - 1], m);
    }
  }

  lemma {:induction false} LevelsDepths<T(!new)>(kids: T -> seq<T>, depth: T -> nat, items: seq<T>, m: nat, n: nat)
    requires Deepens(kids, depth) && NoDeeper(depth, items, m)
    ensures NoDeeper(depth, Levels(kids, items, n), m + n)
    decreases n
  {
    if n > 0 {
      FlatDepths(kids, depth, items, m);
      LevelsDepths(kids, depth, Flat(kids, items), m + 1, n - 1);
    }
  }

  lemma FirstChildIsListed<T>(kids: T -> seq<T>, d: seq<T>, k: nat) returns (place: nat)
    requires k < |d| && kids(d[k]) != []
    ensures place < |Flat(kids, d)| && Flat(kids, d)[place] == kids(d[k])[0]
  {
    FlatOneMore(kids, d[..k], d[k]);
    assert d[..k] + [d[k]] == d[..k + 1];
    FlatPrefix(kids, d[..k + 1], d);
    place := |Flat(kids, d[..k])|;
    assert Flat(kids, d[..k + 1])[place] == kids(d[k])[0];
  }

  /** An item of a closed list that has children is not at the deepest level. */
  lemma ChildrenAreInside<T(!new)>(kids: T -> seq<T>, depth: T -> nat, root: T, d: seq<T>, k: nat, n: nat)
    requires Deepens(kids, depth) && Closed(kids, root, d) && NoDeeper(depth, d, n)
    requires k < |d| && kids(d[k]) != []
    ensures depth(d[k]) + 1 <= n
  {
    var place := FirstChildIsListed(kids, d, k);
    assert d[place + 1] == Flat(kids, d)[place];
  }

  // ---- Joins ----

  function JoinOver<T>(own: T -> Verdict, items: seq<T>): Verdict {
    if items == [] then BENIGN else Max(JoinOver(own, items[..|items| - 1]), own(items[|items| - 1]))
  }

  /** The join by plain recursion over the tree, `n` levels down. */
  function Deep<T>(own: T -> Verdict, kids: T -> seq<T>, item: T, n: nat): Verdict
    decreases n, 0
  {
    if n == 0 then own(item) else Max(own(item), DeepAll(own, kids, kids(item), n - 1))
  }

  function DeepAll<T>(own: T -> Verdict, kids: T -> seq<T>, items: seq<T>, n: nat): Verdict
    decreases n, 1, |items|
  {
    if items == [] then BENIGN
    else Max(DeepAll(own, kids, items[..|items| - 1], n), Deep(own, kids, items[|items| - 1], n))
  }

  lemma {:induction false} JoinOverConcat<T>(own: T -> Verdict, a: seq<T>, b: seq<T>)
    ensures JoinOver(own, a + b) == Max(JoinOver(own, a), JoinOver(own, b))
    decreases |b|
  {
    if b == [] {
      assert a + b == a;
    } else {
      JoinOverConcat(own, a, b[..|b| - 1]);
      assert (a + b)[..|a + b| - 1] == a + b[..|b| - 1];
    }
  }

  lemma {:induction false} DeepAllConcat<T>(own: T -> Verdict, kids: T -> seq<T>, a: seq<T>, b: seq<T>, n: nat)
    ensures DeepAll(own, kids, a + b, n) == Max(DeepAll(own, kids, a, n), DeepAll(own, kids, b, n))
    decreases |b|
  {
    if b == [] {
      assert a + b == a;
    } else {
      DeepAllConcat(own, kids, a, b[..|b| - 1], n);
      assert (a + b)[..|a + b| - 1] == a + b[..|b| - 1];
    }
  }

  lemma {:induction false} DeepAllAtTheBottom<T>(own: T -> Verdict, kids: T -> seq<T>, items: seq<T>)
    ensures DeepAll(own, kids, items, 0) == JoinOver(own, items)
  {
    if items != [] {
      DeepAllAtTheBottom(own, kids, items[..|items| - 1]);
    }
  }

  lemma {:induction false} DeepAllOneDown<T>(own: T -> Verdict, kids: T -> seq<T>, items: seq<T>, n: nat)
    requires n > 0
    ensures DeepAll(own, kids, items, n) ==
            Max(JoinOver(own, items), DeepAll(own, kids, Flat(kids, items), n - 1))
  {
    if items != [] {
      var init, item := items[..|items| - 1], items[|items| - 1];
      DeepAllOneDown(own, kids, init, n);
      DeepAllConcat(own, kids, Flat(kids, init), kids(item), n - 1);
    }
  }

  /** The join level by level is the join by recursion. */
  lemma {:induction false} LevelsJoinIsDeep<T>(own: T -> Verdict, kids: T -> seq<T>, items: seq<T>, n: nat)
    ensures JoinOver(own, Levels(kids, items, n)) == DeepAll(own, kids, items, n)
    decreases n
  {
    if n == 0 {
      DeepAllAtTheBottom(own, kids, items);
    } else {
      DeepAllOneDown(own, kids, items, n);
      JoinOverConcat(own, items, Levels(kids, Flat(kids, items), n - 1));
      LevelsJoinIsDeep(own, kids, Flat(kids, items), n - 1);
    }
  }
}
