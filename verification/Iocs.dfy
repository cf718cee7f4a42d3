/** Export of observables (internal/export/iocs.go): collect, deduplicate, sort and cap.
    What a text contains is decided by parsers that stay parameters here. */
module Iocs {
  import opened Pipeline
  import opened Order
  import opened Text
  import Registry

  /** Kinds by export rank: hash, domain, IPv4, IPv6, URL. */
  datatype Ioc = Ioc(kind: nat, value: string)

  const SHA256_KIND: nat := 0
  const MAX_PER_KIND: nat := 128
  const MAX_PARSED_DETAIL: nat := 16384

  /** A parser yields the observables it adds, in order, and whether it marked a drop. */
  datatype Mined = Mined(iocs: seq<Ioc>, marked: bool)

  datatype Parsers = Parsers(
    hashTokens: string -> seq<string>,
    stripMeta: string -> string,
    detail: string -> Mined)

  datatype Extraction = Extraction(iocs: seq<Ioc>, techniques: seq<string>, truncated: bool)

  predicate Contains(s: string, part: string) {
    part <= s || (s != [] && Contains(s[1..], part))
  }

  predicate Networkish(kind: string) {
    var t := Lower(kind);
    exists m :: m in ["net", "dns", "url", "domain", "http", "c2", "beacon", "ioc", "yara", "deton"] && Contains(t, m)
  }

  function TechniqueOf(f: Finding): Option<string> {
    var t := Upper(Trim(f.attck));
    if t != "" && t[0] == 'T' && Registry.IsTechniqueNumber(t[1..]) then Some(t) else None
  }

  function HashIocs(tokens: seq<string>): seq<Ioc> {
    seq(|tokens|, i requires 0 <= i < |tokens| => Ioc(SHA256_KIND, Lower(tokens[i])))
  }

  /** What one finding contributes. */
  function Mine(ps: Parsers, f: Finding): Mined {
    if f.kind == "artifact-sha256" then Mined(HashIocs(ps.hashTokens(f.detail)), false)
    else if !Networkish(f.kind) then Mined([], false)
    else
      var detail := if f.kind == "yara" then ps.stripMeta(f.detail) else f.detail;
      if |detail| > MAX_PARSED_DETAIL then ps.detail(detail[..MAX_PARSED_DETAIL]).(marked := true)
      else ps.detail(detail)
  }

  predicate IocBefore(a: Ioc, b: Ioc) {
    a.kind < b.kind || (a.kind == b.kind && Before(a.value, b.value))
  }

  lemma IocOrder()
    ensures StrictOrder(IocBefore) && StrictPartialOrder(IocBefore)
  {
    BeforeIsStrictOrder();
  }

  // ---- The cap ----

  function OfKind(s: seq<Ioc>, kind: nat): nat {
    if s == [] then 0 else OfKind(s[..|s| - 1], kind) + if s[|s| - 1].kind == kind then 1 else 0
  }

  /** The entries that survive the per-kind cap, in order. */
  function Capped(s: seq<Ioc>): seq<Ioc> {
    if s == [] then []
    else
      var rest, c := Capped(s[..|s| - 1]), s[|s| - 1];
      if OfKind(rest, c.kind) >= MAX_PER_KIND then rest else rest + [c]
  }

  ghost predicate CountsMatch(counts: map<nat, nat>, kept: seq<Ioc>) {
    forall k: nat :: OfKind(kept, k) == if k in counts then counts[k] else 0
  }

  lemma CountOneMore(counts: map<nat, nat>, kept: seq<Ioc>, c: Ioc, count: nat)
    requires CountsMatch(counts, kept) && count == OfKind(kept, c.kind)
    ensures CountsMatch(counts[c.kind := count + 1], kept + [c])
  {
    assert (kept + [c])[..|kept|] == kept;
  }

  lemma CappedOneMore(s: seq<Ioc>, i: nat, kept: seq<Ioc>)
    requires i < |s| && kept == Capped(s[..i])
    ensures Capped(s[..i + 1]) == if OfKind(kept, s[i].kind) >= MAX_PER_KIND then kept else kept + [s[i]]
  {
    assert s[..i + 1][..i] == s[..i];
  }

  /** The counter of one kind, and whether one more of it is admitted. */
  method Admit(counts: map<nat, nat>, c: Ioc, ghost kept: seq<Ioc>) returns (counts': map<nat, nat>, ok: bool)
    requires CountsMatch(counts, kept)
    ensures ok <==> OfKind(kept, c.kind) < MAX_PER_KIND
    ensures CountsMatch(counts', if ok then kept + [c] else kept)
  {
    var count := if c.kind in counts then counts[c.kind] else 0;
    ok := count < MAX_PER_KIND;
    counts' := if ok then counts[c.kind := count + 1] else counts;
    if ok {
      CountOneMore(counts, kept, c, count);
    }
  }

  /** One more kept entry moves to the end of the kept part. */
  method Place(a: array<Ioc>, n: nat, i: nat, ghost kept: seq<Ioc>, ghost orig: seq<Ioc>)
    requires n == |kept| <= i < a.Length == |orig|
    requires forall k :: 0 <= k < n ==> a[k] == kept[k]
    requires forall k :: i <= k < a.Length ==> a[k] == orig[k]
    modifies a
    ensures forall k :: 0 <= k < n + 1 ==> a[k] == (kept + [orig[i]])[k]
    ensures forall k :: i + 1 <= k < a.Length ==> a[k] == orig[k]
  {
    a[n] := a[i];
  }

  /** The in-place filter: the kept entries are compacted to the front of the slice. */
  method CapPerKind(a: array<Ioc>, truncatedBefore: bool) returns (n: nat, truncated: bool)
    modifies a
    ensures n <= a.Length && a[..n] == Capped(old(a[..]))
    ensures truncated <==> truncatedBefore || n < a.Length
  {
    ghost var orig := a[..];
    ghost var kept: seq<Ioc> := [];
    var counts: map<nat, nat> := map[];
    n, truncated := 0, truncatedBefore;
    for i := 0 to a.Length
      invariant n == |kept| <= i && kept == Capped(orig[..i])
      invariant forall k :: 0 <= k < n ==> a[k] == kept[k]
      invariant forall k :: i <= k < a.Length ==> a[k] == orig[k]
      invariant truncated <==> truncatedBefore || n < i
      invariant CountsMatch(counts, kept)
    {
      CappedOneMore(orig, i, kept);
      var c, ok := a[i], false;
      counts, ok := Admit(counts, c, kept);
      if ok {
        Place(a, n, i, kept, orig);
        n := n + 1;
        kept := kept + [c];
      } else {
        truncated := true;
      }
    }
    assert orig[..a.Length] == orig;
  }

  // ---- The collection loops ----

  function Values(s: seq<Ioc>): set<Ioc> {
    set i | i in s && i.value != ""
  }

  ghost function Found(ps: Parsers, sample: string, fs: seq<Finding>): set<Ioc> {
    Values([Ioc(SHA256_KIND, sample)]) + set f, i | f in fs && i in Values(Mine(ps, f).iocs) :: i
  }

  ghost function Techniques(fs: seq<Finding>): set<string> {
    set f | f in fs && TechniqueOf(f).Some? :: TechniqueOf(f).value
  }

  ghost predicate AnyMarked(ps: Parsers, fs: seq<Finding>) {
    exists f :: f in fs && Mine(ps, f).marked
  }

  /** `iocs` lists the set, each element once. */
  ghost predicate Lists(iocs: seq<Ioc>, all: set<Ioc>) {
    Distinct(iocs) && forall i :: i in iocs <==> i in all
  }

  /** `add` for a whole list: non-empty, first time only. */
  method AddAll(seen: set<Ioc>, iocs: seq<Ioc>, more: seq<Ioc>) returns (seen': set<Ioc>, iocs': seq<Ioc>)
    requires Lists(iocs, seen)
    ensures Lists(iocs', seen')
    ensures seen' == seen + Values(more)
  {
    seen', iocs' := seen, iocs;
    for k := 0 to |more|
      invariant Distinct(iocs') && forall i :: i in iocs' <==> i in seen'
      invariant seen' == seen + Values(more[..k])
    {
      var c := more[k];
      assert Values(more[..k + 1]) == Values(more[..k]) + if c.value == "" then {} else {c};
      if c.value != "" && c !in seen' {
        seen', iocs' := seen' + {c}, iocs' + [c];
      }
    }
    assert more[..|more|] == more;
  }

  lemma FoundGrows(ps: Parsers, sample: string, fs: seq<Finding>, f: Finding)
    ensures Found(ps, sample, fs + [f]) == Found(ps, sample, fs) + Values(Mine(ps, f).iocs)
    ensures Techniques(fs + [f]) == Techniques(fs) + (if TechniqueOf(f).Some? then {TechniqueOf(f).value} else {})
    ensures AnyMarked(ps, fs + [f]) <==> AnyMarked(ps, fs) || Mine(ps, f).marked
  {
    var gs := fs + [f];
    assert forall g :: g in gs <==> g in fs || g == f;
    forall i
      ensures i in Found(ps, sample, gs) <==> i in Found(ps, sample, fs) + Values(Mine(ps, f).iocs)
    {
    }
  }

  method MineOne(ps: Parsers, f: Finding) returns (m: Mined)
    ensures m == Mine(ps, f)
  {
    if f.kind == "artifact-sha256" {
      return Mined(HashIocs(ps.hashTokens(f.detail)), false);
    }
    if !Networkish(f.kind) {
      return Mined([], false);
    }
    var detail := f.detail;
    if f.kind == "yara" {
      detail := ps.stripMeta(detail);
    }
    var cut := false;
    if |detail| > MAX_PARSED_DETAIL {
      detail := detail[..MAX_PARSED_DETAIL];
      cut := true;
    }
    m := ps.detail(detail);
    m := m.(marked := m.marked || cut);
  }

  /** What the collection holds after these findings. */
  ghost predicate Holds(ps: Parsers, sample: string, fs: seq<Finding>, seen: set<Ioc>, techniques: set<string>,
                        marked: bool)
  {
    seen == Found(ps, sample, fs) && techniques == Techniques(fs) && (marked <==> AnyMarked(ps, fs))
  }

  /** One more finding. */
  method CollectOne(ps: Parsers, f: Finding, seen: set<Ioc>, iocs: seq<Ioc>, techniques: set<string>, marked: bool,
                    ghost sample: string, ghost before: seq<Finding>)
    returns (seen': set<Ioc>, iocs': seq<Ioc>, techniques': set<string>, marked': bool)
    requires Lists(iocs, seen) && Holds(ps, sample, before, seen, techniques, marked)
    ensures Lists(iocs', seen') && Holds(ps, sample, before + [f], seen', techniques', marked')
  {
    FoundGrows(ps, sample, before, f);
    techniques' := techniques;
    var t := TechniqueOf(f);
    if t.Some? {
      techniques' := techniques + {t.value};
    }
    var m := MineOne(ps, f);
    seen', iocs' := AddAll(seen, iocs, m.iocs);
    marked' := marked || m.marked;
  }

  method Collect(ps: Parsers, sample: string, fs: seq<Finding>)
    returns (iocs: seq<Ioc>, techniques: set<string>, marked: bool)
    ensures Lists(iocs, Found(ps, sample, fs))
    ensures techniques == Techniques(fs) && (marked <==> AnyMarked(ps, fs))
  {
    var seen: set<Ioc>;
    seen, iocs := AddAll({}, [], [Ioc(SHA256_KIND, sample)]);
    techniques, marked := {}, false;
    NothingFound(ps, sample);
    for k := 0 to |fs|
      invariant Lists(iocs, seen) && Holds(ps, sample, fs[..k], seen, techniques, marked)
    {
      assert fs[..k + 1] == fs[..k] + [fs[k]];
      seen, iocs, techniques, marked := CollectOne(ps, fs[k], seen, iocs, techniques, marked, sample, fs[..k]);
    }
    assert fs[..|fs|] == fs;
  }

  lemma NothingFound(ps: Parsers, sample: string)
    ensures Holds(ps, sample, [], Values([Ioc(SHA256_KIND, sample)]), {}, false)
  {
  }

  method SortedTechniques(ts: set<string>) returns (r: seq<string>)
    ensures AscendingBy(Before, r) && forall t :: t in r <==> t in ts
  {
    var left, list := ts, [];
    while left != {}
      invariant left <= ts && Distinct(list)
      invariant forall t :: t in ts <==> t in list || t in left
      invariant forall t :: t in list ==> t !in left
      decreases left
    {
      var t :| t in left;
      left, list := left - {t}, list + [t];
    }
    BeforeIsStrictOrder();
    r := SortBy(Before, list);
    SortByAscends(Before, list);
    forall t { SortByElements(Before, list, t); }
  }

  method SortIocs(iocs: seq<Ioc>) returns (sorted: seq<Ioc>)
    requires Distinct(iocs)
    ensures AscendingBy(IocBefore, sorted) && forall i :: i in sorted <==> i in iocs
  {
    IocOrder();
    sorted := SortBy(IocBefore, iocs);
    SortByAscends(IocBefore, iocs);
    forall i { SortByElements(IocBefore, iocs, i); }
  }

  method Extract(ps: Parsers, sample: string, fs: seq<Finding>) returns (ex: Extraction)
    ensures IsExtraction(ps, sample, fs, ex)
  {
    var iocs, techniques, marked := Collect(ps, sample, fs);
    var sorted := SortIocs(iocs);
    var a := new Ioc[|sorted|](i requires 0 <= i < |sorted| => sorted[i]);
    assert a[..] == sorted;
    var n, truncated := CapPerKind(a, marked);
    CappedLength(sorted);
    var ts := SortedTechniques(techniques);
    ex := Extraction(a[..n], ts, truncated);
    SortedListsFound(ps, sample, fs, iocs, sorted);
    CutIsExtraction(ps, sample, fs, ex, sorted);
  }

  lemma SortedListsFound(ps: Parsers, sample: string, fs: seq<Finding>, iocs: seq<Ioc>, sorted: seq<Ioc>)
    requires Lists(iocs, Found(ps, sample, fs)) && forall i :: i in sorted <==> i in iocs
    ensures forall i :: i in sorted <==> i in Found(ps, sample, fs)
  {
  }

  lemma CutIsExtraction(ps: Parsers, sample: string, fs: seq<Finding>, ex: Extraction, sorted: seq<Ioc>)
    requires AscendingBy(Before, ex.techniques) && forall t :: t in ex.techniques <==> t in Techniques(fs)
    requires AscendingBy(IocBefore, sorted) && forall i :: i in sorted <==> i in Found(ps, sample, fs)
    requires ex.iocs == Capped(sorted) && (ex.truncated <==> AnyMarked(ps, fs) || |ex.iocs| < |sorted|)
    ensures IsExtraction(ps, sample, fs, ex)
  {
  }

  /** The extraction as the source promises it, stated on sets alone. */
  ghost predicate IsExtraction(ps: Parsers, sample: string, fs: seq<Finding>, ex: Extraction) {
    && AscendingBy(Before, ex.techniques) && (forall t :: t in ex.techniques <==> t in Techniques(fs))
    && exists sorted :: AscendingBy(IocBefore, sorted) && (forall i :: i in sorted <==> i in Found(ps, sample, fs))
         && ex.iocs == Capped(sorted)
         && (ex.truncated <==> AnyMarked(ps, fs) || |ex.iocs| < |sorted|)
  }

  // ---- What the cap keeps ----

  lemma {:induction false} CappedLength(s: seq<Ioc>)
    ensures |Capped(s)| <= |s|
    ensures forall c :: c in Capped(s) ==> c in s
  {
    if s != [] {
      CappedLength(s[..|s| - 1]);
      assert s == s[..|s| - 1] + [s[|s| - 1]];
    }
  }

  /** Of each kind the cap keeps exactly min(128, n). */
  lemma {:induction false} CappedCounts(s: seq<Ioc>, kind: nat)
    ensures OfKind(Capped(s), kind) == if OfKind(s, kind) < MAX_PER_KIND then OfKind(s, kind) else MAX_PER_KIND
  {
    if s != [] {
      var init, c := s[..|s| - 1], s[|s| - 1];
      CappedCounts(init, kind);
      CappedCounts(init, c.kind);
      var rest := Capped(init);
      assert (rest + [c])[..|rest|] == rest;
    }
  }

  lemma LastIsNew(s: seq<Ioc>)
    requires AscendingBy(IocBefore, s) && s != []
    ensures s[|s| - 1] !in s[..|s| - 1]
  {
    IocOrder();
    assert forall k :: 0 <= k < |s| - 1 ==> IocBefore(s[k], s[|s| - 1]);
  }

  lemma LastSurvives(s: seq<Ioc>)
    requires AscendingBy(IocBefore, s) && s != []
    ensures var n := |s| - 1; s[n] in Capped(s) <==> OfKind(s[..n], s[n].kind) < MAX_PER_KIND
  {
    var n := |s| - 1;
    LastIsNew(s);
    CappedCounts(s[..n], s[n].kind);
    CappedLength(s[..n]);
  }

  lemma EarlierSurvives(s: seq<Ioc>, i: nat)
    requires AscendingBy(IocBefore, s) && i < |s| - 1
    ensures s[i] in Capped(s) <==> s[i] in Capped(s[..|s| - 1])
  {
    LastIsNew(s);
    assert s[i] in s[..|s| - 1];
  }

  lemma InitStartsAlike(s: seq<Ioc>, init: seq<Ioc>, i: nat)
    requires AscendingBy(IocBefore, s) && i < |s| - 1 && init == s[..|s| - 1]
    ensures AscendingBy(IocBefore, init) && i < |init| && init[i] == s[i] && init[..i] == s[..i]
  {
  }

  /** An entry survives exactly when fewer than 128 of its kind come before it. */
  lemma {:induction false} CappedKeepsSmallest(s: seq<Ioc>, i: nat)
    requires AscendingBy(IocBefore, s) && i < |s|
    ensures s[i] in Capped(s) <==> OfKind(s[..i], s[i].kind) < MAX_PER_KIND
    decreases |s|
  {
    if i == |s| - 1 {
      LastSurvives(s);
    } else {
      EarlierSurvives(s, i);
      InitStartsAlike(s, s[..|s| - 1], i);
      CappedKeepsSmallest(s[..|s| - 1], i);
    }
  }

  lemma InitComesFirst(s: seq<Ioc>, n: nat, c: Ioc)
    requires AscendingBy(IocBefore, s) && n < |s| && c in s[..n]
    ensures IocBefore(c, s[n])
  {
    var j :| 0 <= j < n && s[..n][j] == c;
    assert IocBefore(s[j], s[n]);
  }

  lemma OneMoreAscends(rest: seq<Ioc>, c: Ioc)
    requires AscendingBy(IocBefore, rest) && forall d :: d in rest ==> IocBefore(d, c)
    ensures AscendingBy(IocBefore, rest + [c])
  {
    forall k | 0 <= k < |rest|
      ensures IocBefore(rest[k], c)
    {
      assert rest[k] in rest;
    }
  }

  lemma InitAscends(s: seq<Ioc>, n: nat)
    requires AscendingBy(IocBefore, s) && n <= |s|
    ensures AscendingBy(IocBefore, s[..n])
  {
  }

  lemma {:induction false} CappedAscends(s: seq<Ioc>)
    requires AscendingBy(IocBefore, s)
    ensures AscendingBy(IocBefore, Capped(s))
  {
    if s != [] {
      var n := |s| - 1;
      InitAscends(s, n);
      CappedAscends(s[..n]);
      CappedLength(s[..n]);
      forall d | d in Capped(s[..n])
        ensures IocBefore(d, s[n])
      {
        InitComesFirst(s, n, d);
      }
      OneMoreAscends(Capped(s[..n]), s[n]);
    }
  }

  lemma EarlierPosition(s: seq<Ioc>, i: nat, j: nat)
    requires AscendingBy(IocBefore, s) && i < |s| && j < |s| && IocBefore(s[j], s[i])
    ensures j < i
  {
    IocOrder();
  }

  /** What is kept of a kind is an initial part of what was found of it. */
  lemma CappedIsInitial(s: seq<Ioc>, c: Ioc, d: Ioc)
    requires AscendingBy(IocBefore, s) && c in s && d in s
    requires d.kind == c.kind && IocBefore(d, c) && c in Capped(s)
    ensures d in Capped(s)
  {
    var i :| 0 <= i < |s| && s[i] == c;
    var j :| 0 <= j < |s| && s[j] == d;
    EarlierPosition(s, i, j);
    CappedKeepsSmallest(s, i);
    CappedKeepsSmallest(s, j);
    assert s[..i][..j] == s[..j];
    PrefixHasFewer(s[..i], j, c.kind);
  }

  /** Something is dropped only of a kind that fills its cap. */
  lemma DroppedKindIsFull(s: seq<Ioc>, c: Ioc)
    requires AscendingBy(IocBefore, s) && c in s && c !in Capped(s)
    ensures OfKind(Capped(s), c.kind) == MAX_PER_KIND && |Capped(s)| < |s|
  {
    var i :| 0 <= i < |s| && s[i] == c;
    CappedKeepsSmallest(s, i);
    PrefixHasFewer(s, i, c.kind);
    CappedCounts(s, c.kind);
    DroppedShortens(s, c);
  }

  /** The output: strictly sorted, hence duplicate free; of each kind the smallest
      min(128, n) values found; and flagged whenever the cap dropped one. */
  lemma ExtractionIsSmallestPerKind(ps: Parsers, sample: string, fs: seq<Finding>, ex: Extraction, c: Ioc, d: Ioc)
    requires IsExtraction(ps, sample, fs, ex)
    ensures AscendingBy(IocBefore, ex.iocs)
    ensures c in ex.iocs ==> c in Found(ps, sample, fs)
    ensures c in ex.iocs && d in Found(ps, sample, fs) && d.kind == c.kind && IocBefore(d, c) ==> d in ex.iocs
    ensures c in Found(ps, sample, fs) && c !in ex.iocs ==> ex.truncated && OfKind(ex.iocs, c.kind) == MAX_PER_KIND
    ensures OfKind(ex.iocs, c.kind) <= MAX_PER_KIND
  {
    var sorted :| AscendingBy(IocBefore, sorted) && (forall i :: i in sorted <==> i in Found(ps, sample, fs))
                  && ex.iocs == Capped(sorted) && (ex.truncated <==> AnyMarked(ps, fs) || |ex.iocs| < |sorted|);
    CappedAscends(sorted);
    CappedLength(sorted);
    CappedCounts(sorted, c.kind);
    if c in sorted && c !in ex.iocs {
      DroppedKindIsFull(sorted, c);
    }
    if c in ex.iocs && d in sorted && d.kind == c.kind && IocBefore(d, c) {
      CappedIsInitial(sorted, c, d);
    }
  }

  lemma {:induction false} PrefixHasFewer(s: seq<Ioc>, i: nat, kind: nat)
    requires i <= |s|
    ensures OfKind(s[..i], kind) <= OfKind(s, kind)
    decreases |s|
  {
    if i < |s| {
      PrefixHasFewer(s[..|s| - 1], i, kind);
      assert s[..|s| - 1][..i] == s[..i];
    } else {
      assert s[..i] == s;
    }
  }

  lemma DroppedShortens(s: seq<Ioc>, c: Ioc)
    requires c in s && c !in Capped(s)
    ensures |Capped(s)| < |s|
  {
    if |Capped(s)| >= |s| {
      CappedLength(s);
      NothingDropped(s);
    }
  }

  lemma {:induction false} NothingDropped(s: seq<Ioc>)
    requires |Capped(s)| == |s|
    ensures Capped(s) == s
  {
    if s != [] {
      CappedLength(s[..|s| - 1]);
      NothingDropped(s[..|s| - 1]);
    }
  }

  /** The whole export is the same for every order of the findings. */
  lemma ExtractionIgnoresOrder(ps: Parsers, sample: string, fs: seq<Finding>, gs: seq<Finding>, a: Extraction,
                               b: Extraction)
    requires multiset(fs) == multiset(gs)
    requires IsExtraction(ps, sample, fs, a) && IsExtraction(ps, sample, gs, b)
    ensures a == b
  {
    forall f
      ensures f in fs <==> f in gs
    {
      assert f in fs <==> f in multiset(fs);
      assert f in gs <==> f in multiset(gs);
    }
    SameFindingsSameFinds(ps, sample, fs, gs);
    var s :| AscendingBy(IocBefore, s) && (forall i :: i in s <==> i in Found(ps, sample, fs))
             && a.iocs == Capped(s) && (a.truncated <==> AnyMarked(ps, fs) || |a.iocs| < |s|);
    var t :| AscendingBy(IocBefore, t) && (forall i :: i in t <==> i in Found(ps, sample, gs))
             && b.iocs == Capped(t) && (b.truncated <==> AnyMarked(ps, gs) || |b.iocs| < |t|);
    IocOrder();
    AscendingIsUnique(IocBefore, s, t);
    BeforeIsStrictOrder();
    AscendingIsUnique(Before, a.techniques, b.techniques);
  }

  lemma SameFindingsSameFinds(ps: Parsers, sample: string, fs: seq<Finding>, gs: seq<Finding>)
    requires forall f :: f in fs <==> f in gs
    ensures Found(ps, sample, fs) == Found(ps, sample, gs)
    ensures Techniques(fs) == Techniques(gs)
    ensures AnyMarked(ps, fs) <==> AnyMarked(ps, gs)
  {
  }

  // ---- What a finding contributes ----

  /** The kinds whose text may hold observables, by the words their names contain. */
  ghost predicate SaysNetwork(kind: string) {
    exists m :: m in {"net", "dns", "url", "domain", "http", "c2", "beacon", "ioc", "yara", "deton"}
                && Within(Lower(kind), m)
  }

  /** `part` stands somewhere in `s`. */
  ghost predicate Within(s: string, part: string) {
    exists a, b :: s == a + part + b
  }

  lemma {:induction false} ContainsMeans(s: string, part: string)
    ensures Contains(s, part) <==> Within(s, part)
  {
    if part <= s {
      assert s == "" + part + s[|part|..];
    } else if s != [] {
      ContainsMeans(s[1..], part);
      if Within(s[1..], part) {
        var a, b :| s[1..] == a + part + b;
        assert s == ([s[0]] + a) + part + b;
      }
      if Within(s, part) {
        var a, b :| s == a + part + b;
        FirstOrLater(s, part, a, b);
      }
    } else {
      EmptyHasNoPart(part);
    }
  }

  lemma FirstOrLater(s: string, part: string, a: string, b: string)
    requires s == a + part + b
    ensures a == [] ==> part <= s
    ensures a != [] ==> s[1..] == a[1..] + part + b
  {
    if a == [] {
      assert s == part + b;
    }
  }

  lemma EmptyHasNoPart(part: string)
    requires part != ""
    ensures !Within("", part)
  {
    forall a: string, b: string
      ensures "" != a + part + b
    {
      assert |a + part + b| == |a| + |part| + |b|;
    }
  }

  lemma NetworkishMeans(kind: string)
    ensures Networkish(kind) <==> SaysNetwork(kind)
  {
    var t := Lower(kind);
    ContainsMeans(t, "net");
    ContainsMeans(t, "dns");
    ContainsMeans(t, "url");
    ContainsMeans(t, "domain");
    ContainsMeans(t, "http");
    ContainsMeans(t, "c2");
    ContainsMeans(t, "beacon");
    ContainsMeans(t, "ioc");
    ContainsMeans(t, "yara");
    ContainsMeans(t, "deton");
    if SaysNetwork(kind) {
      var m :| m in {"net", "dns", "url", "domain", "http", "c2", "beacon", "ioc", "yara", "deton"} && Within(t, m);
      assert m in ["net", "dns", "url", "domain", "http", "c2", "beacon", "ioc", "yara", "deton"];
    }
  }

  /** A hash line yields its hashes in lower case. Of everything else only the kinds that speak
      of the network are read; of a long text only the first 16384 characters are, and then the
      export says so. */
  lemma MiningReads(ps: Parsers, f: Finding)
    ensures var m, text := Mine(ps, f), if f.kind == "yara" then ps.stripMeta(f.detail) else f.detail;
            && (f.kind == "artifact-sha256" ==>
                  !m.marked && forall i :: i in m.iocs <==>
                                 exists t :: t in ps.hashTokens(f.detail) && i == Ioc(SHA256_KIND, Lower(t)))
            && (f.kind != "artifact-sha256" && !SaysNetwork(f.kind) ==> m == Mined([], false))
            && (f.kind != "artifact-sha256" && SaysNetwork(f.kind) ==>
                  m.iocs == ps.detail(if |text| <= 16384 then text else text[..16384]).iocs
                  && (m.marked <==> |text| > 16384 || ps.detail(text).marked))
  {
    NetworkishMeans(f.kind);
    if f.kind == "artifact-sha256" {
      var tokens := ps.hashTokens(f.detail);
      forall i
        ensures i in HashIocs(tokens) <==> exists t :: t in tokens && i == Ioc(SHA256_KIND, Lower(t))
      {
        if t :| t in tokens && i == Ioc(SHA256_KIND, Lower(t)) {
          var k :| 0 <= k < |tokens| && tokens[k] == t;
          assert HashIocs(tokens)[k] == i;
        }
      }
    }
  }

  /** A technique is exported exactly when the trimmed tag of some finding, in capitals, is a T
      and a number. */
  lemma TechniquesRead(fs: seq<Finding>, t: string)
    ensures t in Techniques(fs) <==>
            exists f, n :: f in fs && Registry.Numbered(n) && t == "T" + n && Upper(Trim(f.attck)) == t
  {
    if f :| f in fs && TechniqueOf(f).Some? && TechniqueOf(f).value == t {
      Registry.NumberedIs(t[1..]);
      assert t == "T" + t[1..];
    }
    if f, n :| f in fs && Registry.Numbered(n) && t == "T" + n && Upper(Trim(f.attck)) == t {
      Registry.NumberedIs(n);
      assert t[1..] == n && TechniqueOf(f) == Some(t);
    }
  }

  /** How an export reads: kinds in the order hash, domain, IPv4, IPv6, URL, values ascending in
      each, none empty, at most 128 of a kind; the techniques ascend; and the sample's own hash
      is among what was found. */
  lemma ExportReads(ps: Parsers, sample: string, fs: seq<Finding>, ex: Extraction, kind: nat)
    requires IsExtraction(ps, sample, fs, ex)
    ensures forall i, j :: 0 <= i < j < |ex.iocs| ==>
              || ex.iocs[i].kind < ex.iocs[j].kind
              || (ex.iocs[i].kind == ex.iocs[j].kind && Before(ex.iocs[i].value, ex.iocs[j].value))
    ensures forall i :: 0 <= i < |ex.iocs| ==> ex.iocs[i].value != ""
    ensures OfKind(ex.iocs, kind) <= 128
    ensures forall i, j :: 0 <= i < j < |ex.techniques| ==> Before(ex.techniques[i], ex.techniques[j])
    ensures sample != "" ==> Ioc(0, sample) in Found(ps, sample, fs)
  {
    var any := Ioc(kind, "");
    ExtractionIsSmallestPerKind(ps, sample, fs, ex, any, any);
    forall i | 0 <= i < |ex.iocs|
      ensures ex.iocs[i].value != ""
    {
      ExtractionIsSmallestPerKind(ps, sample, fs, ex, ex.iocs[i], any);
    }
    if sample != "" {
      assert Ioc(0, sample) in [Ioc(SHA256_KIND, sample)];
    }
  }
}
