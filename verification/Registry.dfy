/** The exact-key fact registry (internal/knowledge/registry.go): the tiered merge and the
    citation check the gate relies on. */
module Registry {
  import opened Pipeline
  import opened Knowledge
  import opened Text

  datatype Fact = Fact(
    id: string, kind: string, key: string, title: string,
    attrs: map<string, string>, trust: Trust, source: string)

  datatype FactError =
    | UnknownKind | MalformedKey | LongLabel | LongSource | TooManyAttrs | InvalidAttr | AtCapacity

  datatype Result<+T> = Ok(value: T) | Err(error: FactError)

  predicate KnownKind(kind: string) {
    kind in {"family", "yara-rule", "attck", "mbc", "c2", "packer", "mutex",
             "imphash", "authentihash", "sha256", "cert-thumbprint"}
  }

  predicate IsHashKind(kind: string) {
    kind in {"imphash", "authentihash", "sha256", "cert-thumbprint"}
  }

  function WithoutColons(s: string): string {
    if s == [] then [] else (if s[0] == ':' then [] else [s[0]]) + WithoutColons(s[1..])
  }

  function NormalizeKey(kind: string, key: string): string {
    if IsHashKind(kind) then Lower(WithoutColons(Trim(key)))
    else if kind == "attck" || kind == "mbc" then Upper(Trim(key))
    else if kind == "family" || kind == "packer" then Lower(Trim(key))
    else Trim(key)
  }

  predicate AllDigits(s: string) {
    forall i :: 0 <= i < |s| ==> '0' <= s[i] && s[i] <= '9'
  }

  /** Four digits, then optionally a dot and three digits. */
  predicate IsTechniqueNumber(s: string) {
    || (|s| == 4 && AllDigits(s))
    || (|s| == 8 && AllDigits(s[..4]) && s[4] == '.' && AllDigits(s[5..]))
  }

  predicate IsUpperChar(c: char) {
    'A' <= c && c <= 'Z'
  }

  predicate IsAttck(s: string) {
    |s| > 0 && s[0] == 'T' && (IsTechniqueNumber(s[1..]) || (|s| > 1 && s[1] == 'A' && IsTechniqueNumber(s[2..])))
  }

  predicate IsMbc(s: string) {
    |s| > 0 && IsUpperChar(s[0])
    && (IsTechniqueNumber(s[1..]) || (|s| > 1 && IsUpperChar(s[1]) && IsTechniqueNumber(s[2..])))
  }

  predicate ValidKey(kind: string, key: string) {
    && key != "" && |key| <= MAX_KEY_LEN && !HasControl(key)
    && (kind == "imphash" ==> AllHex(key, 32))
    && (kind == "authentihash" || kind == "sha256" ==> AllHex(key, 64))
    && (kind == "cert-thumbprint" ==> AllHex(key, 40))
    && (kind == "attck" ==> IsAttck(key))
    && (kind == "mbc" ==> IsMbc(key))
  }

  function FactId(hash: Hash, kind: string, key: string): string {
    "kf_" + hash(Joined(kind, key))
  }

  datatype Store = Store(facts: map<string, Fact>, max: nat)

  function FactProblem(kind: string, key: string, title: string, attrs: map<string, string>,
                       source: string): Option<FactError>
  {
    if !KnownKind(kind) then Some(UnknownKind)
    else if !ValidKey(kind, NormalizeKey(kind, key)) then Some(MalformedKey)
    else if |title| > MAX_LABEL_LEN then Some(LongLabel)
    else if |source| > MAX_SOURCE_LEN then Some(LongSource)
    else if |attrs| > MAX_ATTRS then Some(TooManyAttrs)
    else if exists k :: k in attrs && (|k| > MAX_ATTR_LEN || |attrs[k]| > MAX_ATTR_LEN
                                       || HasControl(k) || HasControl(attrs[k])) then
      Some(InvalidAttr)
    else None
  }

  function Incoming(hash: Hash, kind: string, key: string, title: string, attrs: map<string, string>, source: string,
                    trust: Trust): Fact
  {
    var norm := NormalizeKey(kind, key);
    Fact(FactId(hash, kind, norm), kind, norm, Trim(title), attrs, trust, source)
  }

  /** The tiered write: ingest never wins over an existing curated fact, and only a new
      ingest fact can be refused for capacity. */
  function Put(hash: Hash, s: Store, kind: string, key: string, title: string, attrs: map<string, string>,
               source: string, trust: Trust): (Store, Result<Fact>)
  {
    var problem := FactProblem(kind, key, title, attrs, source);
    if problem.Some? then (s, Err(problem.value))
    else
      var f := Incoming(hash, kind, key, title, attrs, source, trust);
      if f.id in s.facts && s.facts[f.id].trust.Curated? && trust.Ingest? then (s, Ok(s.facts[f.id]))
      else if f.id !in s.facts && !trust.Curated? && |s.facts| >= s.max then (s, Err(AtCapacity))
      else (s.(facts := s.facts[f.id := f]), Ok(f))
  }

  /** The fact behind a citation, when it is stored and bound to the claimed kind and key. */
  function VerifyCitation(hash: Hash, s: Store, citedId: string, kind: string, key: string): Option<Fact> {
    var norm := NormalizeKey(kind, key);
    if citedId == "" || !KnownKind(kind) || !ValidKey(kind, norm) || FactId(hash, kind, norm) != citedId then None
    else if citedId !in s.facts then None
    else
      var f := s.facts[citedId];
      if f.kind != kind || f.key != norm then None else Some(f)
  }

  predicate OkForVerdict(citation: Option<Fact>) {
    citation.Some? && citation.value.trust.Curated?
  }

  datatype Write = Write(kind: string, key: string, title: string, attrs: map<string, string>, source: string,
                         trust: Trust)

  function PutAll(hash: Hash, s: Store, ws: seq<Write>): Store
    decreases |ws|
  {
    if ws == [] then s
    else PutAll(hash, Put(hash, s, ws[0].kind, ws[0].key, ws[0].title, ws[0].attrs, ws[0].source, ws[0].trust).0,
                ws[1..])
  }

  class FactRegistry {
    var facts: map<string, Fact>
    const max: nat
    const hash: Hash

    constructor (max: int, hash: Hash)
      ensures State() == Store(map[], if max <= 0 then DEFAULT_MAX_FACTS else max) && this.hash == hash
    {
      facts := map[];
      this.max := if max <= 0 then DEFAULT_MAX_FACTS else max;
      this.hash := hash;
    }

    ghost function State(): Store
      reads this
    {
      Store(facts, max)
    }

    method PutFact(kind: string, key: string, title: string, attrs: map<string, string>, source: string, trust: Trust)
      returns (r: Result<Fact>)
      modifies this
      ensures (State(), r) == Put(hash, old(State()), kind, key, title, attrs, source, trust)
    {
      var problem := FactProblem(kind, key, title, attrs, source);
      if problem.Some? {
        return Err(problem.value);
      }
      var f := Incoming(hash, kind, key, title, attrs, source, trust);
      if f.id in facts {
        if facts[f.id].trust.Curated? && trust.Ingest? {
          return Ok(facts[f.id]);
        }
      } else if !trust.Curated? && |facts| >= max {
        return Err(AtCapacity);
      }
      facts := facts[f.id := f];
      return Ok(f);
    }

    method Verify(citedId: string, kind: string, key: string) returns (c: Option<Fact>)
      ensures c == VerifyCitation(hash, State(), citedId, kind, key)
    {
      var norm := NormalizeKey(kind, key);
      if citedId == "" || !KnownKind(kind) || !ValidKey(kind, norm) || FactId(hash, kind, norm) != citedId {
        return None;
      }
      if citedId !in facts {
        return None;
      }
      var f := facts[citedId];
      if f.kind != kind || f.key != norm {
        return None;
      }
      return Some(f);
    }
  }

  // ---- What the registry guarantees ----

  /** A cited fact can support only what it is about: one ID never verifies for two
      different claims. */
  lemma CitationBindsClaim(hash: Hash, s: Store, id: string, kind: string, key: string, kind': string, key': string)
    requires VerifyCitation(hash, s, id, kind, key).Some? && VerifyCitation(hash, s, id, kind', key').Some?
    ensures kind == kind' && NormalizeKey(kind, key) == NormalizeKey(kind', key')
  {
  }

  ghost predicate CuratedFactsSame(s: Store, t: Store) {
    forall id :: (id in s.facts && s.facts[id].trust.Curated?) || (id in t.facts && t.facts[id].trust.Curated?) ==>
                   id in s.facts && id in t.facts && s.facts[id] == t.facts[id]
  }

  lemma {:induction false} IngestKeepsCurated(hash: Hash, s: Store, ws: seq<Write>)
    requires forall i :: 0 <= i < |ws| ==> ws[i].trust.Ingest?
    ensures CuratedFactsSame(s, PutAll(hash, s, ws))
    decreases |ws|
  {
    if ws != [] {
      var t := Put(hash, s, ws[0].kind, ws[0].key, ws[0].title, ws[0].attrs, ws[0].source, ws[0].trust).0;
      assert CuratedFactsSame(s, t);
      IngestKeepsCurated(hash, t, ws[1..]);
    }
  }

  /** No finite run of ingest writes, accepted or refused, changes which citations may back
      a verdict. */
  lemma IngestCannotGround(hash: Hash, s: Store, ws: seq<Write>, id: string, kind: string, key: string)
    requires forall i :: 0 <= i < |ws| ==> ws[i].trust.Ingest?
    ensures OkForVerdict(VerifyCitation(hash, PutAll(hash, s, ws), id, kind, key)) ==
            OkForVerdict(VerifyCitation(hash, s, id, kind, key))
  {
    IngestKeepsCurated(hash, s, ws);
  }

  /** A curated write is refused only for its own form, and can then be cited; an ingest
      write can fail on capacity as well, and alone never grounds anything. */
  lemma CuratedWriteGrounds(hash: Hash, s: Store, kind: string, key: string, title: string, attrs: map<string, string>,
                            source: string)
    ensures var (t, r) := Put(hash, s, kind, key, title, attrs, source, Curated);
            && (r.Ok? <==> FactProblem(kind, key, title, attrs, source).None?)
            && (r.Ok? ==> OkForVerdict(VerifyCitation(hash, t, r.value.id, kind, key)))
  {
    if FactProblem(kind, key, title, attrs, source).None? {
      assert |FactId(hash, kind, NormalizeKey(kind, key))| >= 3;
    }
  }

  // ---- The form of technique and behaviour numbers ----

  ghost predicate Digits(s: string, n: nat) {
    |s| == n && forall i :: 0 <= i < |s| ==> '0' <= s[i] <= '9'
  }

  /** Four digits, and three more after a dot for the details. */
  ghost predicate Numbered(s: string) {
    Digits(s, 4) || exists a, b :: Digits(a, 4) && Digits(b, 3) && s == a + "." + b
  }

  lemma DottedIs(s: string, a: string, b: string)
    requires |a| == 4 && |b| == 3 && s == a + "." + b
    ensures |s| == 8 && s[..4] == a && s[4] == '.' && s[5..] == b
  {
  }

  lemma NumberedIs(s: string)
    ensures IsTechniqueNumber(s) <==> Numbered(s)
  {
    if IsTechniqueNumber(s) && |s| == 8 {
      assert Digits(s[..4], 4) && Digits(s[5..], 3) && s == s[..4] + "." + s[5..];
    }
    if a, b :| Digits(a, 4) && Digits(b, 3) && s == a + "." + b {
      DottedIs(s, a, b);
      assert AllDigits(a) && AllDigits(b);
    }
  }

  /** The written forms of the numbers: T or TA, and one or two capitals. */
  lemma NumbersHaveForm(s: string)
    ensures IsAttck(s) <==> exists n :: Numbered(n) && (s == "T" + n || s == "TA" + n)
    ensures IsMbc(s) <==> exists p, n :: Numbered(n) && 1 <= |p| <= 2 && s == p + n
                                           && forall i :: 0 <= i < |p| ==> 'A' <= p[i] <= 'Z'
  {
    if |s| > 0 {
      NumberedIs(s[1..]);
      assert s == [s[0]] + s[1..];
    }
    if |s| > 1 {
      NumberedIs(s[2..]);
      assert s == [s[0], s[1]] + s[2..];
    }
    if n :| Numbered(n) && (s == "T" + n || s == "TA" + n) {
      assert s == "T" + n ==> s[1..] == n;
      assert s == "TA" + n ==> s[2..] == n;
      DigitFirst(n);
    }
    if p, n :| Numbered(n) && 1 <= |p| <= 2 && s == p + n && forall i :: 0 <= i < |p| ==> 'A' <= p[i] <= 'Z' {
      assert s[|p|..] == n;
    }
  }

  lemma DigitFirst(n: string)
    requires Numbered(n)
    ensures n != "" && '0' <= n[0] <= '9'
  {
  }
}
