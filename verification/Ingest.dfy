/** Taking extracted children into the vault (services/mal-orchestrator/activity.go): the
    worker's report is mapped onto the lattice, and every staged child is re-hashed. */
module Ingest {
  import opened Pipeline
  import opened Text
  import opened ArchiveExtractor

  const MAX_INGEST: nat := 0x800_0000
  const MAX_INGEST_TOTAL: nat := 0x2000_0000

  // ---- The report on the lattice ----

  function Mapped(f: RawFinding): Finding {
    var v := ParseVerdict(f.verdict).0;
    Finding(f.engine, f.kind, f.detail, f.attck, v, ConfidenceFor(f.engine, f.kind, v), "")
  }

  function MappedAll(fs: seq<RawFinding>): (r: seq<Finding>)
    ensures |r| == |fs| && forall i :: 0 <= i < |fs| ==> r[i] == Mapped(fs[i])
  {
    seq(|fs|, i requires 0 <= i < |fs| => Mapped(fs[i]))
  }

  predicate Understood(r: RawReport) {
    ParseVerdict(r.verdict).1 && forall i :: 0 <= i < |r.findings| ==> ParseVerdict(r.findings[i].verdict).1
  }

  /** Anything that does not parse leaves the report incomplete, never milder. */
  function MappedReport(r: RawReport): EngineReport {
    EngineReport(MappedAll(r.findings), [], ParseVerdict(r.verdict).0, r.incomplete || !Understood(r), 0)
  }

  method MapReport(r: RawReport) returns (rep: EngineReport)
    ensures rep == MappedReport(r)
  {
    var incomplete := r.incomplete;
    if !ParseVerdict(r.verdict).1 {
      incomplete := true;
    }
    var fs: seq<Finding> := [];
    for i := 0 to |r.findings|
      invariant |fs| == i && forall k :: 0 <= k < i ==> fs[k] == Mapped(r.findings[k])
      invariant incomplete <==> || r.incomplete || !ParseVerdict(r.verdict).1
                                || exists k :: 0 <= k < i && !ParseVerdict(r.findings[k].verdict).1
    {
      var f := r.findings[i];
      if !ParseVerdict(f.verdict).1 {
        incomplete := true;
      }
      fs := fs + [Mapped(f)];
    }
    rep := EngineReport(fs, [], ParseVerdict(r.verdict).0, incomplete, 0);
  }

  // ---- One child ----

  /** What stands under a staged name when it is looked at, and what the system calls yield. */
  datatype StagedFile =
    | Missing
    | Irregular
    | File(listed: nat, readable: bool, writable: bool, content: Bytes, renamed: bool)

  type Vault = map<string, Bytes>

  datatype Ingested = Ingested(size: Option<nat>, vault: Vault)

  /** `None` is a refusal. Reading stops one byte past the limit. */
  function IngestOne(digest: Digest, v: Vault, claimed: string, f: StagedFile): Ingested {
    if !AllHex(claimed, 64) || !f.File? || f.listed > MAX_INGEST || !f.readable || !f.writable then Ingested(None, v)
    else if |f.content| > MAX_INGEST || digest(f.content) != claimed then Ingested(None, v)
    else if claimed in v then Ingested(Some(|f.content|), v)
    else if !f.renamed then Ingested(None, v)
    else Ingested(Some(|f.content|), v[claimed := f.content])
  }

  // ---- The loop over the claimed children ----

  datatype Tally = Tally(vault: Vault, total: nat, verified: seq<Child>, incomplete: bool, findings: seq<Finding>,
                         verdict: Verdict, full: bool)

  const INGEST_CAP :=
    Finding("mal-extract", "ingest-cap",
            "aggregate extracted-child size cap reached; remaining children not ingested", "", SUSPICIOUS, CONF_LOW, "")
  const INGEST_REJECTED :=
    Finding("mal-extract", "ingest-rejected",
            "an extracted child failed re-hash and was dropped", "", SUSPICIOUS, CONF_LOW, "")

  function Refuse(t: Tally, f: Finding): Tally {
    t.(incomplete := true, findings := t.findings + [f], verdict := Max(t.verdict, SUSPICIOUS))
  }

  function Offer(digest: Digest, t: Tally, c: Child, f: StagedFile): Tally {
    if t.full then t
    else if t.total >= MAX_INGEST_TOTAL then Refuse(t, INGEST_CAP).(full := true)
    else
      var one := IngestOne(digest, t.vault, c.sha, f);
      if one.size.None? then Refuse(t.(vault := one.vault), INGEST_REJECTED)
      else t.(vault := one.vault, total := t.total + one.size.value,
              verified := t.verified + [Child(c.sha, one.size.value, c.name)])
  }

  /** `disk` answers the i-th attempt. */
  function OfferAll(digest: Digest, t: Tally, cs: seq<Child>, disk: nat -> StagedFile): Tally {
    if cs == [] then t
    else
      var n := |cs| - 1;
      Offer(digest, OfferAll(digest, t, cs[..n], disk), cs[n], disk(n))
  }

  function Start(v: Vault, rep: EngineReport): Tally {
    Tally(v, 0, [], rep.incomplete, rep.findings, rep.verdict, false)
  }

  function Outcome(t: Tally): EngineReport {
    EngineReport(t.findings, t.verified, t.verdict, t.incomplete, t.total)
  }

  class Analyzer {
    const digest: Digest
    var vault: Vault

    constructor (digest: Digest, vault: Vault)
      ensures this.digest == digest && this.vault == vault
    {
      this.digest, this.vault := digest, vault;
    }

    method IngestChild(claimed: string, f: StagedFile) returns (size: Option<nat>)
      modifies this
      ensures Ingested(size, vault) == IngestOne(digest, old(vault), claimed, f)
    {
      if !AllHex(claimed, 64) || !f.File? {
        return None;
      }
      if f.listed > MAX_INGEST || !f.readable || !f.writable {
        return None;
      }
      var copied := if |f.content| > MAX_INGEST + 1 then f.content[..MAX_INGEST + 1] else f.content;
      if |copied| > MAX_INGEST {
        return None;
      }
      var sum := digest(copied);
      if sum != claimed {
        return None;
      }
      if sum in vault {
        return Some(|copied|);
      }
      if !f.renamed {
        return None;
      }
      vault := vault[sum := copied];
      return Some(|copied|);
    }

    method IngestAll(mapped: EngineReport, cs: seq<Child>, disk: nat -> StagedFile) returns (rep: EngineReport)
      modifies this
      ensures var t := OfferAll(digest, Start(old(vault), mapped), cs, disk);
              rep == Outcome(t) && vault == t.vault
    {
      rep := mapped;
      ghost var start := Start(vault, mapped);
      var verified: seq<Child> := [];
      var total: nat := 0;
      for i := 0 to |cs|
        invariant OfferAll(digest, start, cs[..i], disk) ==
                  Tally(vault, total, verified, rep.incomplete, rep.findings, rep.verdict, false)
      {
        var c := cs[i];
        assert cs[..i + 1][..i] == cs[..i];
        if total >= MAX_INGEST_TOTAL {
          rep := rep.(incomplete := true, findings := rep.findings + [INGEST_CAP],
                      verdict := Max(rep.verdict, SUSPICIOUS));
          FullStays(digest, start, cs, disk, i + 1);
          break;
        }
        var size := IngestChild(c.sha, disk(i));
        if size.None? {
          rep := rep.(incomplete := true, findings := rep.findings + [INGEST_REJECTED],
                      verdict := Max(rep.verdict, SUSPICIOUS));
          continue;
        }
        total := total + size.value;
        verified := verified + [Child(c.sha, size.value, c.name)];
      }
      assert cs[..|cs|] == cs;
      rep := rep.(children := verified, ingestedBytes := total);
    }

    method ExtractActivity(r: RawReport, disk: nat -> StagedFile) returns (rep: EngineReport)
      modifies this
      ensures var t := OfferAll(digest, Start(old(vault), MappedReport(r)), r.children, disk);
              rep == Outcome(t) && vault == t.vault
    {
      rep := MapReport(r);
      rep := IngestAll(rep, r.children, disk);
    }
  }

  lemma {:induction false} FullStays(digest: Digest, t: Tally, cs: seq<Child>, disk: nat -> StagedFile, i: nat)
    requires i <= |cs| && OfferAll(digest, t, cs[..i], disk).full
    ensures OfferAll(digest, t, cs, disk) == OfferAll(digest, t, cs[..i], disk)
    decreases |cs|
  {
    if i == |cs| {
      assert cs[..i] == cs;
    } else {
      assert cs[..|cs| - 1][..i] == cs[..i];
      FullStays(digest, t, cs[..|cs| - 1], disk, i);
    }
  }

  // ---- What the vault and the report keep ----

  /** The vault is only ever keyed by a hash that was computed from the bytes under it. */
  ghost predicate KeyedByContent(digest: Digest, v: Vault) {
    forall k :: k in v ==> digest(v[k]) == k
  }

  ghost predicate Extends(v: Vault, w: Vault) {
    forall k :: k in v ==> k in w && w[k] == v[k]
  }

  lemma OfferKeepsVault(digest: Digest, t: Tally, c: Child, f: StagedFile)
    requires KeyedByContent(digest, t.vault)
    ensures KeyedByContent(digest, Offer(digest, t, c, f).vault) && Extends(t.vault, Offer(digest, t, c, f).vault)
  {
  }

  /** No run rewrites or mis-keys the vault, whatever the worker claims and stages. */
  lemma {:induction false} VaultIsKeyedByContent(digest: Digest, t: Tally, cs: seq<Child>, disk: nat -> StagedFile)
    requires KeyedByContent(digest, t.vault)
    ensures KeyedByContent(digest, OfferAll(digest, t, cs, disk).vault)
    ensures Extends(t.vault, OfferAll(digest, t, cs, disk).vault)
  {
    if cs != [] {
      var n := |cs| - 1;
      VaultIsKeyedByContent(digest, t, cs[..n], disk);
      OfferKeepsVault(digest, OfferAll(digest, t, cs[..n], disk), cs[n], disk(n));
    }
  }

  /** A reported child is in the vault under bytes of its hash. */
  lemma {:induction false} VerifiedAreInVault(digest: Digest, t: Tally, cs: seq<Child>, disk: nat -> StagedFile,
                                              c: Child)
    requires KeyedByContent(digest, t.vault) && t.verified == []
    requires c in OfferAll(digest, t, cs, disk).verified
    ensures c.sha in OfferAll(digest, t, cs, disk).vault && c.size <= MAX_INGEST
    ensures digest(OfferAll(digest, t, cs, disk).vault[c.sha]) == c.sha
  {
    VaultIsKeyedByContent(digest, t, cs, disk);
    var n := |cs| - 1;
    var before := OfferAll(digest, t, cs[..n], disk);
    VaultIsKeyedByContent(digest, t, cs[..n], disk);
    OfferKeepsVault(digest, before, cs[n], disk(n));
    if c in before.verified {
      VerifiedAreInVault(digest, t, cs[..n], disk, c);
    }
  }

  ghost predicate Accounted(t: Tally) {
    t.total == SumSizes(t.verified) && t.total < MAX_INGEST_TOTAL + MAX_INGEST
  }

  lemma OfferKeepsAccounts(digest: Digest, t: Tally, c: Child, f: StagedFile)
    requires Accounted(t)
    ensures Accounted(Offer(digest, t, c, f))
  {
    var one := IngestOne(digest, t.vault, c.sha, f);
    if one.size.Some? {
      SumOneMore(t.verified, Child(c.sha, one.size.value, c.name));
    }
  }

  /** One extraction brings in less than the cap plus one child, and the report says how much. */
  lemma {:induction false} IngestIsBounded(digest: Digest, t: Tally, cs: seq<Child>, disk: nat -> StagedFile)
    requires t.total == 0 && t.verified == []
    ensures Accounted(OfferAll(digest, t, cs, disk))
  {
    if cs != [] {
      var n := |cs| - 1;
      IngestIsBounded(digest, t, cs[..n], disk);
      OfferKeepsAccounts(digest, OfferAll(digest, t, cs[..n], disk), cs[n], disk(n));
    }
  }

  /** The same children in the same order, whatever sizes were claimed for them. */
  ghost predicate SameEntries(got: seq<Child>, claimed: seq<Child>) {
    |got| == |claimed| && forall i :: 0 <= i < |got| ==> got[i].sha == claimed[i].sha && got[i].name == claimed[i].name
  }

  /** How a tally stands against the claims it has been through. */
  ghost predicate Reported(start: Tally, t: Tally, cs: seq<Child>) {
    && |t.verified| <= |cs|
    && (t.incomplete <==> start.incomplete || |t.verified| < |cs|)
    && (|t.verified| < |cs| ==> t.verdict >= SUSPICIOUS)
    && (|t.verified| == |cs| ==> SameEntries(t.verified, cs) && !t.full)
    && t.verdict >= start.verdict
  }

  lemma OfferIsReported(digest: Digest, start: Tally, t: Tally, cs: seq<Child>, c: Child, f: StagedFile)
    requires Reported(start, t, cs)
    ensures Reported(start, Offer(digest, t, c, f), cs + [c])
  {
  }

  /** A child that is claimed and not ingested always shows: the report is incomplete exactly
      when it was already so or something was dropped, and a drop floors the verdict. When
      nothing was dropped the children are the claimed ones. */
  lemma {:induction false} DropsAreReported(digest: Digest, t: Tally, cs: seq<Child>, disk: nat -> StagedFile)
    requires t.verified == [] && !t.full
    ensures Reported(t, OfferAll(digest, t, cs, disk), cs)
  {
    if cs != [] {
      var n := |cs| - 1;
      DropsAreReported(digest, t, cs[..n], disk);
      OfferIsReported(digest, t, OfferAll(digest, t, cs[..n], disk), cs[..n], cs[n], disk(n));
      assert cs == cs[..n] + [cs[n]];
    }
  }

  // ---- What a report and a child come to ----

  /** A finding as a worker would report it. */
  function Sent(f: Finding): RawFinding {
    RawFinding(f.engine, f.kind, f.detail, f.attck, Wire(f.verdict))
  }

  /** Mapping gives back what was sent, but for the path, which the workflow adds, and the
      confidence, which no worker has a say in. */
  lemma SentIsMapped(f: Finding)
    ensures Mapped(Sent(f)) == f.(confidence := ConfidenceFor(f.engine, f.kind, f.verdict), path := "")
  {
    VerdictSurvivesWire(f.verdict, Wire(f.verdict));
  }

  /** A child is taken exactly when its name is a SHA-256, a regular readable file of at most
      128 MiB stands under it, the bytes hash to it, and the vault has it or gets it; then the
      vault gains nothing but it. */
  lemma TakenExactly(digest: Digest, v: Vault, claimed: string, f: StagedFile)
    ensures var one := IngestOne(digest, v, claimed, f);
            && (one.size.Some? <==>
                  && AllHex(claimed, 64) && f.File? && f.readable && f.writable
                  && f.listed <= 0x800_0000 && |f.content| <= 0x800_0000 && digest(f.content) == claimed
                  && (claimed in v || f.renamed))
            && (one.size.Some? ==> one.size.value == |f.content| && one.vault.Keys == v.Keys + {claimed})
            && (one.size.None? ==> one.vault == v)
            && forall k :: k in v ==> k in one.vault && one.vault[k] == v[k]
  {
  }

  /** The lines a run of the ingest loop has added. */
  ghost predicate Explained(start: Tally, t: Tally, attempts: nat) {
    && start.findings <= t.findings
    && (forall i :: |start.findings| <= i < |t.findings| ==>
          t.findings[i] == INGEST_REJECTED || t.findings[i] == INGEST_CAP)
    && (t.full <==> t.findings != start.findings && t.findings[|t.findings| - 1] == INGEST_CAP)
    && (!t.full ==> |t.verified| + |t.findings| == attempts + |start.findings|)
  }

  lemma OfferIsExplained(digest: Digest, start: Tally, t: Tally, c: Child, f: StagedFile, attempts: nat)
    requires Explained(start, t, attempts)
    ensures Explained(start, Offer(digest, t, c, f), attempts + 1)
  {
    assert INGEST_CAP.kind != INGEST_REJECTED.kind;
  }

  /** Every child that is turned away has a finding of its own, and so has the cap that ends the
      loop; nothing the worker reported is lost, and the bytes reported are those of the children
      that were taken. */
  lemma {:induction false} DropsAreExplained(digest: Digest, t: Tally, cs: seq<Child>, disk: nat -> StagedFile)
    requires t.verified == [] && !t.full && t.total == 0
    ensures var end := OfferAll(digest, t, cs, disk);
            && Explained(t, end, |cs|)
            && t.findings <= Outcome(end).findings && Outcome(end).verdict == end.verdict
            && Outcome(end).ingestedBytes == SumSizes(Outcome(end).children)
  {
    IngestIsBounded(digest, t, cs, disk);
    if cs != [] {
      var n := |cs| - 1;
      DropsAreExplained(digest, t, cs[..n], disk);
      OfferIsExplained(digest, t, OfferAll(digest, t, cs[..n], disk), cs[n], disk(n), n);
    }
  }

  /** What a mapped finding is worth: the kinds that mark a gap of some engine stay LOW whatever
      their verdict and whoever reports them, a rule match is HIGH, and everything else counts
      exactly when it is at least SUSPICIOUS. */
  lemma ConfidenceIsStamped(f: RawFinding)
    ensures var gap := f.kind in {"error", "recursion-cap", "ingest-rejected", "extraction-cap-hit",
                                  "decompression-bomb", "high-compression-ratio", "entry-too-large",
                                  "entry-count-cap", "skipped-symlink", "skipped-link", "skipped-special",
                                  "path-traversal-name", "entry-truncated", "entry-unreadable", "extraction-error",
                                  "findings-cap-hit", "detonation-timeout"};
            var hit := f.engine == "mal-static-yara" && f.kind == "yara";
            Mapped(f).confidence == if gap then CONF_LOW else if hit then CONF_HIGH
                                    else if Mapped(f).verdict >= SUSPICIOUS then CONF_MEDIUM else CONF_LOW
  {
  }
}
