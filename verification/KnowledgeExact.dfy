/** What the two stores of knowledge hold after a write, in terms of what the caller wrote: which
    inputs are well formed, which spellings meet in one entry, and what the entry says. */
module KnowledgeExact {
  import opened Pipeline
  import opened Knowledge
  import opened Text
  import opened GraphSafety
  import G = Graph
  import R = Registry

  /** Short enough, and without C0 controls, DEL and C1 controls. */
  ghost predicate Printable(s: string, limit: nat) {
    |s| <= limit && forall i :: 0 <= i < |s| ==> 0x20 <= s[i] as int && !(0x7f <= s[i] as int <= 0x9f)
  }

  ghost predicate PrintableAttrs(attrs: map<string, string>) {
    |attrs| <= 32 && forall k :: k in attrs ==> Printable(k, 1024) && Printable(attrs[k], 1024)
  }

  lemma PrintableMeans(s: string, limit: nat)
    ensures Printable(s, limit) <==> |s| <= limit && !HasControl(s)
  {
  }

  lemma AttrsMean(attrs: map<string, string>)
    ensures PrintableAttrs(attrs) <==>
            && |attrs| <= 32
            && !exists k :: k in attrs && (|k| > 1024 || |attrs[k]| > 1024 || HasControl(k) || HasControl(attrs[k]))
  {
    forall k | k in attrs
      ensures Printable(k, 1024) && Printable(attrs[k], 1024) <==>
              !(|k| > 1024 || |attrs[k]| > 1024 || HasControl(k) || HasControl(attrs[k]))
    {
      PrintableMeans(k, 1024);
      PrintableMeans(attrs[k], 1024);
    }
  }

  /** The same but for the case of ASCII letters, towards one case or the other. */
  ghost predicate SameFolded(a: string, b: string, fold: char -> char) {
    |a| == |b| && forall i :: 0 <= i < |a| ==> fold(a[i]) == fold(b[i])
  }

  ghost predicate SameLower(a: string, b: string) {
    SameFolded(a, b, c => LowerChar(c))
  }

  ghost predicate SameUpper(a: string, b: string) {
    SameFolded(a, b, c => UpperChar(c))
  }

  lemma FoldsAgree(a: string, b: string)
    ensures Lower(a) == Lower(b) <==> SameLower(a, b)
    ensures Upper(a) == Upper(b) <==> SameUpper(a, b)
  {
    if Lower(a) == Lower(b) {
      forall i | 0 <= i < |a|
        ensures LowerChar(a[i]) == LowerChar(b[i])
      {
        assert Lower(a)[i] == Lower(b)[i];
      }
    }
    if Upper(a) == Upper(b) {
      forall i | 0 <= i < |a|
        ensures UpperChar(a[i]) == UpperChar(b[i])
      {
        assert Upper(a)[i] == Upper(b)[i];
      }
    }
  }

  lemma FoldsKeepControls(s: string)
    ensures HasControl(Lower(s)) <==> HasControl(s)
    ensures HasControl(Upper(s)) <==> HasControl(s)
  {
    forall c: char
      ensures IsControl(LowerChar(c)) <==> IsControl(c)
      ensures IsControl(UpperChar(c)) <==> IsControl(c)
    {
    }
    if i :| 0 <= i < |s| && IsControl(s[i]) {
      assert IsControl(Lower(s)[i]) && IsControl(Upper(s)[i]);
    }
  }

  // ---- The graph ----

  /** Two keys that name one entity: names of families, actors and campaigns and technique
      numbers in any case, everything else as it is written. */
  ghost predicate SpellsAlike(kind: string, a: string, b: string) {
    if kind in {"family", "actor", "campaign"} then SameLower(Trim(a), Trim(b))
    else if kind == "technique" then SameUpper(Trim(a), Trim(b))
    else Trim(a) == Trim(b)
  }

  lemma AlikeIsOneKey(kind: string, a: string, b: string)
    ensures G.NormalizeNodeKey(kind, a) == G.NormalizeNodeKey(kind, b) <==> SpellsAlike(kind, a, b)
  {
    FoldsAgree(Trim(a), Trim(b));
  }

  ghost predicate WellFormedNode(kind: string, key: string, title: string, attrs: map<string, string>, source: string) {
    && kind in {"sample", "ioc", "family", "technique", "campaign", "actor", "rule"}
    && Trim(key) != "" && Printable(Trim(key), 512)
    && Printable(title, 1024) && Printable(source, 512) && PrintableAttrs(attrs)
  }

  lemma NodeIsWellFormed(kind: string, key: string, title: string, attrs: map<string, string>, source: string)
    ensures G.NodeProblem(kind, key, title, attrs, source).None? <==> WellFormedNode(kind, key, title, attrs, source)
  {
    NodeKeyIsValid(kind, key);
    PrintableMeans(title, 1024);
    PrintableMeans(source, 512);
    AttrsMean(attrs);
  }

  lemma NodeKeyIsValid(kind: string, key: string)
    ensures G.ValidNodeKey(G.NormalizeNodeKey(kind, key)) <==> Trim(key) != "" && Printable(Trim(key), 512)
  {
    FoldsKeepControls(Trim(key));
    PrintableMeans(Trim(key), 512);
  }

  lemma RelationIsWellFormed(a: G.Endpoint, rel: string, b: G.Endpoint, source: string)
    ensures WellFormedEdge(a, rel, b, source) <==>
            && rel in {"has-ioc", "exhibits", "member-of", "matched", "seen-in", "uses", "attributed-to", "related-to"}
            && WellFormedNode(a.kind, a.key, "", map[], source)
            && WellFormedNode(b.kind, b.key, "", map[], source)
  {
    NodeIsWellFormed(a.kind, a.key, "", map[], source);
    NodeIsWellFormed(b.kind, b.key, "", map[], source);
  }

  /** A node that was added is found under every spelling of its key, with what was written: the
      trimmed title, the attributes, the source and the curated tier. Other lookups see no
      difference. */
  lemma AddedReadsBack(hash: Hash, s: G.Store, kind: string, key: string, title: string, attrs: map<string, string>,
                       source: string, kind': string, key': string)
    requires GoodHash(hash) && WellFormedNode(kind, key, title, attrs, source)
    ensures var found := G.LookupNode(hash, G.Step(hash, s, G.AddNode(kind, key, title, attrs, source)), kind', key');
            if kind' == kind && SpellsAlike(kind, key', key)
            then found.Some? && found.value.kind == kind && SpellsAlike(kind, found.value.key, key)
                 && found.value.title == Trim(title) && found.value.attrs == attrs && found.value.source == source
                 && found.value.trust.Curated?
            else found == G.LookupNode(hash, s, kind', key')
  {
    NodeIsWellFormed(kind, key, title, attrs, source);
    AddedIsFound(hash, s, kind, key, title, attrs, source, kind', key');
    AlikeIsOneKey(kind, key', key);
    TrimAndFoldAreStable(key);
    AlikeIsOneKey(kind, G.NormalizeNodeKey(kind, key), key);
  }

  // ---- The registry ----

  /** Hashes may be written with colons and in any case, names in any case, the numbers of
      techniques and behaviours in any case; everything else as it is written. */
  ghost predicate ClaimsAlike(kind: string, a: string, b: string) {
    if kind in {"imphash", "authentihash", "sha256", "cert-thumbprint"} then
      SameLower(R.WithoutColons(Trim(a)), R.WithoutColons(Trim(b)))
    else if kind in {"family", "packer"} then SameLower(Trim(a), Trim(b))
    else if kind in {"attck", "mbc"} then SameUpper(Trim(a), Trim(b))
    else Trim(a) == Trim(b)
  }

  lemma AlikeIsOneClaim(kind: string, a: string, b: string)
    ensures R.NormalizeKey(kind, a) == R.NormalizeKey(kind, b) <==> ClaimsAlike(kind, a, b)
  {
    FoldsAgree(Trim(a), Trim(b));
    FoldsAgree(R.WithoutColons(Trim(a)), R.WithoutColons(Trim(b)));
  }

  /** What is left after the colons: nothing but them is gone, and the order stays. */
  lemma {:induction false} ColonsAreDropped(s: string)
    ensures forall c :: c in R.WithoutColons(s) <==> c in s && c != ':'
    ensures (forall c :: c in s ==> c != ':') ==> R.WithoutColons(s) == s
  {
    if s != [] {
      ColonsAreDropped(s[1..]);
      assert s == [s[0]] + s[1..] && s[0] in s;
      assert forall c :: c in s[1..] ==> c in s;
    }
  }

  ghost predicate HashOf(kind: string, key: string) {
    && (kind == "imphash" ==> AllHex(key, 32))
    && (kind in {"authentihash", "sha256"} ==> AllHex(key, 64))
    && (kind == "cert-thumbprint" ==> AllHex(key, 40))
  }

  ghost predicate WellFormedFact(kind: string, key: string, title: string, attrs: map<string, string>, source: string) {
    var norm := R.NormalizeKey(kind, key);
    && kind in {"family", "yara-rule", "attck", "mbc", "c2", "packer", "mutex", "imphash", "authentihash", "sha256",
                "cert-thumbprint"}
    && norm != "" && Printable(norm, 512) && HashOf(kind, norm)
    && (kind == "attck" ==> R.IsAttck(norm)) && (kind == "mbc" ==> R.IsMbc(norm))
    && |title| <= 1024 && |source| <= 512 && PrintableAttrs(attrs)
  }

  /** A fact is stored exactly when it is well formed and is curated, known, or new below the
      cap. */
  lemma FactRefusals(hash: Hash, s: R.Store, kind: string, key: string, title: string, attrs: map<string, string>,
                     source: string, trust: Trust)
    ensures R.Put(hash, s, kind, key, title, attrs, source, trust).1.Ok? <==>
            && WellFormedFact(kind, key, title, attrs, source)
            && (trust.Curated? || R.FactId(hash, kind, R.NormalizeKey(kind, key)) in s.facts || |s.facts| < s.max)
  {
    FactIsWellFormed(kind, key, title, attrs, source);
  }

  lemma FactIsWellFormed(kind: string, key: string, title: string, attrs: map<string, string>, source: string)
    ensures R.FactProblem(kind, key, title, attrs, source).None? <==> WellFormedFact(kind, key, title, attrs, source)
  {
    KeyIsValid(kind, R.NormalizeKey(kind, key));
    AttrsMean(attrs);
  }

  lemma KeyIsValid(kind: string, norm: string)
    ensures R.ValidKey(kind, norm) <==>
            && norm != "" && Printable(norm, 512) && HashOf(kind, norm)
            && (kind == "attck" ==> R.IsAttck(norm)) && (kind == "mbc" ==> R.IsMbc(norm))
  {
    PrintableMeans(norm, 512);
  }

  lemma {:induction false} IngestStaysWithinCap(hash: Hash, s: R.Store, ws: seq<R.Write>)
    requires forall i :: 0 <= i < |ws| ==> ws[i].trust.Ingest?
    ensures |R.PutAll(hash, s, ws).facts| <= if |s.facts| > s.max then |s.facts| else s.max
    decreases |ws|
  {
    if ws != [] {
      var t := R.Put(hash, s, ws[0].kind, ws[0].key, ws[0].title, ws[0].attrs, ws[0].source, ws[0].trust).0;
      assert t.max == s.max && |t.facts| <= if |s.facts| >= s.max then |s.facts| else |s.facts| + 1;
      IngestStaysWithinCap(hash, t, ws[1..]);
    }
  }

  /** Every fact stands under the ID of its own claim. */
  ghost predicate FactsSound(hash: Hash, s: R.Store) {
    forall id :: id in s.facts ==> R.KnownKind(s.facts[id].kind)
                                   && id == R.FactId(hash, s.facts[id].kind, s.facts[id].key)
  }

  lemma PutKeepsFactsSound(hash: Hash, s: R.Store, w: R.Write)
    requires FactsSound(hash, s)
    ensures FactsSound(hash, R.Put(hash, s, w.kind, w.key, w.title, w.attrs, w.source, w.trust).0)
  {
  }

  lemma {:induction false} RunsKeepFactsSound(hash: Hash, s: R.Store, ws: seq<R.Write>)
    requires FactsSound(hash, s)
    ensures FactsSound(hash, R.PutAll(hash, s, ws))
    decreases |ws|
  {
    if ws != [] {
      PutKeepsFactsSound(hash, s, ws[0]);
      RunsKeepFactsSound(hash, R.Put(hash, s, ws[0].kind, ws[0].key, ws[0].title, ws[0].attrs, ws[0].source,
                                     ws[0].trust).0, ws[1..]);
    }
  }

  lemma KindsAreNulFree(kind: string)
    requires R.KnownKind(kind)
    ensures NulFree(kind)
  {
  }

  lemma FactIdIsInjective(hash: Hash, kind: string, key: string, kind': string, key': string)
    requires (forall a, b :: hash(a) == hash(b) ==> a == b) && R.KnownKind(kind) && R.KnownKind(kind')
    requires R.FactId(hash, kind, key) == R.FactId(hash, kind', key')
    ensures kind == kind' && key == key'
  {
    TagSplits("kf_", hash(Joined(kind, key)), hash(Joined(kind', key')));
    KindsAreNulFree(kind);
    KindsAreNulFree(kind');
    SeparatorSplits(kind, key, kind', key');
  }

  lemma StoredIsOfTheClaim(hash: Hash, s: R.Store, id: string, kind: string, norm: string)
    requires FactsSound(hash, s) && forall a, b :: hash(a) == hash(b) ==> a == b
    requires id in s.facts && R.KnownKind(kind) && id == R.FactId(hash, kind, norm)
    ensures s.facts[id].kind == kind && s.facts[id].key == norm
  {
    FactIdIsInjective(hash, kind, norm, s.facts[id].kind, s.facts[id].key);
  }

  /** The write proper, after the checks. */
  lemma PutCases(hash: Hash, s: R.Store, w: R.Write, f: R.Fact)
    requires R.Put(hash, s, w.kind, w.key, w.title, w.attrs, w.source, w.trust).1 == R.Ok(f)
    ensures var t := R.Put(hash, s, w.kind, w.key, w.title, w.attrs, w.source, w.trust).0;
            var id := R.FactId(hash, w.kind, R.NormalizeKey(w.kind, w.key));
            && R.KnownKind(w.kind) && R.ValidKey(w.kind, R.NormalizeKey(w.kind, w.key))
            && if id in s.facts && s.facts[id].trust.Curated? && w.trust.Ingest? then t == s && f == s.facts[id]
               else t.facts == s.facts[id := f]
                    && f == R.Incoming(hash, w.kind, w.key, w.title, w.attrs, w.source, w.trust)
  {
  }

  /** What the entry of a stored fact says: what was written, unless an ingest write met a
      curated fact, which then stays. */
  lemma PutWrites(hash: Hash, s: R.Store, w: R.Write, f: R.Fact)
    requires FactsSound(hash, s) && forall a, b :: hash(a) == hash(b) ==> a == b
    requires R.Put(hash, s, w.kind, w.key, w.title, w.attrs, w.source, w.trust).1 == R.Ok(f)
    ensures var t, norm := R.Put(hash, s, w.kind, w.key, w.title, w.attrs, w.source, w.trust).0,
                           R.NormalizeKey(w.kind, w.key);
            var id := R.FactId(hash, w.kind, norm);
            && id in t.facts && t.facts[id] == f && f.kind == w.kind && f.key == norm
            && if id in s.facts && s.facts[id].trust.Curated? && w.trust.Ingest? then f == s.facts[id]
               else f.title == Trim(w.title) && f.attrs == w.attrs && f.source == w.source && f.trust == w.trust
  {
    var id := R.FactId(hash, w.kind, R.NormalizeKey(w.kind, w.key));
    PutCases(hash, s, w, f);
    if id in s.facts {
      StoredIsOfTheClaim(hash, s, id, w.kind, R.NormalizeKey(w.kind, w.key));
    }
  }

  /** A stored fact is cited under every spelling of its key and under no other claim. */
  lemma PutReadsBack(hash: Hash, s: R.Store, w: R.Write, f: R.Fact, kind: string, key: string)
    requires FactsSound(hash, s) && forall a, b :: hash(a) == hash(b) ==> a == b
    requires R.Put(hash, s, w.kind, w.key, w.title, w.attrs, w.source, w.trust).1 == R.Ok(f)
    ensures var t := R.Put(hash, s, w.kind, w.key, w.title, w.attrs, w.source, w.trust).0;
            R.VerifyCitation(hash, t, R.FactId(hash, w.kind, R.NormalizeKey(w.kind, w.key)), kind, key) ==
            if kind == w.kind && ClaimsAlike(kind, key, w.key) then Some(f) else None
  {
    var norm := R.NormalizeKey(w.kind, w.key);
    PutCases(hash, s, w, f);
    PutWrites(hash, s, w, f);
    AlikeIsOneClaim(kind, key, w.key);
    CitationIs(hash, R.Put(hash, s, w.kind, w.key, w.title, w.attrs, w.source, w.trust).0, w.kind, norm, f, kind,
               R.NormalizeKey(kind, key), key);
  }

  lemma CitationIs(hash: Hash, t: R.Store, kind: string, norm: string, f: R.Fact, kind': string, norm': string,
                   key': string)
    requires R.KnownKind(kind) && R.ValidKey(kind, norm) && R.FactId(hash, kind, norm) in t.facts
    requires t.facts[R.FactId(hash, kind, norm)] == f && f.kind == kind && f.key == norm
    requires norm' == R.NormalizeKey(kind', key')
    ensures R.VerifyCitation(hash, t, R.FactId(hash, kind, norm), kind', key') ==
            if kind' == kind && norm' == norm then Some(f) else None
  {
    assert |R.FactId(hash, kind, norm)| >= 3;
  }
}
