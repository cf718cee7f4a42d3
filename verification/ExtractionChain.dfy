/** The extractor and the ingest loop together: what an honest extraction looks like once
    the orchestrator has re-hashed it. */
module ExtractionChain {
  import opened Pipeline
  import opened Text
  import opened ArchiveExtractor
  import opened ExtractorSafety
  import opened Ingest
  import SubmissionFlow
  import SubmissionSafety

  /** What SHA-256 is trusted with, for the contents at hand: 64 hexadecimal digits, and no two
      of them alike. */
  ghost predicate GoodDigest(digest: Digest, contents: set<Bytes>) {
    && (forall b :: b in contents ==> AllHex(digest(b), 64))
    && (forall a, b :: a in contents && b in contents && digest(a) == digest(b) ==> a == b)
  }

  /** The staging area shows what the extractor put there, and the system calls succeed. */
  ghost predicate Faithful(staged: map<string, Bytes>, cs: seq<Child>, disk: nat -> StagedFile) {
    forall i: nat :: i < |cs| && cs[i].sha in staged ==>
      disk(i) == File(|staged[cs[i].sha]|, true, true, staged[cs[i].sha], true)
  }

  /** An extractor state in order, over entries on which the digest does its work. */
  ghost predicate Honest(digest: Digest, known: set<Bytes>, s: State) {
    && GoodDigest(digest, known) && Good(Setup(DEFAULT_CAPS, digest), s) && Sourced(digest, known, s)
  }

  lemma StagedSizeIsReported(digest: Digest, known: set<Bytes>, s: State, c: Child)
    requires Honest(digest, known, s) && c in s.children
    ensures c.sha in s.staged && s.staged[c.sha] in known && digest(s.staged[c.sha]) == c.sha
    ensures |s.staged[c.sha]| == c.size && AllHex(c.sha, 64)
  {
    assert NamedBy(digest, known, c);
    var b :| b in known && digest(b) == c.sha && |b| == c.size;
    assert c.sha in s.seen;
    assert digest(s.staged[c.sha]) == c.sha;
  }

  lemma {:induction false} SumOfPrefix(cs: seq<Child>, n: nat)
    requires n <= |cs|
    ensures SumSizes(cs[..n]) <= SumSizes(cs)
    decreases |cs|
  {
    if n < |cs| {
      assert cs[..|cs| - 1][..n] == cs[..n];
      SumOfPrefix(cs[..|cs| - 1], n);
    } else {
      assert cs[..n] == cs;
    }
  }

  lemma HonestChildIsTaken(digest: Digest, t: Tally, c: Child, content: Bytes)
    requires AllHex(c.sha, 64) && digest(content) == c.sha && |content| == c.size <= MAX_INGEST
    requires !t.full && t.total < MAX_INGEST_TOTAL
    ensures var u := Offer(digest, t, c, File(|content|, true, true, content, true));
            && u.verified == t.verified + [c] && u.total == t.total + c.size && !u.full
            && u.incomplete == t.incomplete && u.verdict == t.verdict && u.findings == t.findings
  {
    assert IngestOne(digest, t.vault, c.sha, File(|content|, true, true, content, true)).size == Some(c.size);
  }

  ghost predicate Untouched(t: Tally, rep: EngineReport) {
    !t.full && t.incomplete == rep.incomplete && t.verdict == rep.verdict && t.findings == rep.findings
  }

  ghost predicate Fits(digest: Digest, s: State, n: nat)
    requires 0 < n <= |s.children|
  {
    var c := s.children[n - 1];
    && c.sha in s.staged && |s.staged[c.sha]| == c.size <= MAX_INGEST
    && digest(s.staged[c.sha]) == c.sha && AllHex(c.sha, 64)
    && SumSizes(s.children[..n - 1]) < MAX_INGEST_TOTAL
  }

  lemma HonestChildFits(digest: Digest, known: set<Bytes>, s: State, n: nat)
    requires Honest(digest, known, s) && 0 < n <= |s.children|
    ensures Fits(digest, s, n)
  {
    var c := s.children[n - 1];
    StagedSizeIsReported(digest, known, s, c);
    SumOfPrefix(s.children, n - 1);
    assert c in s.children;
  }

  ghost predicate IngestedSoFar(t: Tally, rep: EngineReport, cs: seq<Child>) {
    Untouched(t, rep) && t.verified == cs && t.total == SumSizes(cs)
  }

  lemma HonestStep(digest: Digest, t: Tally, rep: EngineReport, s: State, f: StagedFile, n: nat)
    requires 0 < n <= |s.children| && Fits(digest, s, n)
    requires f == File(|s.staged[s.children[n - 1].sha]|, true, true, s.staged[s.children[n - 1].sha], true)
    requires IngestedSoFar(t, rep, s.children[..n - 1])
    ensures IngestedSoFar(Offer(digest, t, s.children[n - 1], f), rep, s.children[..n])
  {
    var c := s.children[n - 1];
    HonestChildIsTaken(digest, t, c, s.staged[c.sha]);
    SumOneMore(s.children[..n - 1], c);
    assert s.children[..n] == s.children[..n - 1] + [c];
  }

  /** The ingest limits, per child and in total, never reject what the extractor's default caps
      let through. */
  lemma {:induction false} HonestPrefixIsIngested(digest: Digest, known: set<Bytes>, v: Vault, rep: EngineReport,
                                                  s: State, disk: nat -> StagedFile, n: nat)
    requires Honest(digest, known, s) && Faithful(s.staged, s.children, disk)
    requires n <= |s.children|
    ensures IngestedSoFar(OfferAll(digest, Start(v, rep), s.children[..n], disk), rep, s.children[..n])
    decreases n
  {
    if n > 0 {
      HonestPrefixIsIngested(digest, known, v, rep, s, disk, n - 1);
      HonestChildFits(digest, known, s, n);
      OfferOneMore(digest, Start(v, rep), s.children, disk, n);
      HonestStep(digest, OfferAll(digest, Start(v, rep), s.children[..n - 1], disk), rep, s, disk(n - 1), n);
    }
  }

  lemma OfferOneMore(digest: Digest, t: Tally, cs: seq<Child>, disk: nat -> StagedFile, n: nat)
    requires 0 < n <= |cs|
    ensures OfferAll(digest, t, cs[..n], disk) ==
            Offer(digest, OfferAll(digest, t, cs[..n - 1], disk), cs[n - 1], disk(n - 1))
  {
    assert cs[..n][..n - 1] == cs[..n - 1];
  }

  /** What a vault holds after the loop: what it held, and what the disk showed. */
  ghost predicate FromDisk(v: Vault, n: nat, disk: nat -> StagedFile, w: Vault) {
    forall k :: k in w ==>
      (k in v && w[k] == v[k]) || exists i: nat :: i < n && disk(i).File? && w[k] == disk(i).content
  }

  lemma OfferIsFromDisk(digest: Digest, v: Vault, t: Tally, c: Child, disk: nat -> StagedFile, n: nat)
    requires FromDisk(v, n, disk, t.vault)
    ensures FromDisk(v, n + 1, disk, Offer(digest, t, c, disk(n)).vault)
  {
  }

  lemma {:induction false} VaultIsFromDisk(digest: Digest, t: Tally, cs: seq<Child>, disk: nat -> StagedFile)
    ensures FromDisk(t.vault, |cs|, disk, OfferAll(digest, t, cs, disk).vault)
  {
    if cs != [] {
      var n := |cs| - 1;
      VaultIsFromDisk(digest, t, cs[..n], disk);
      OfferIsFromDisk(digest, t.vault, OfferAll(digest, t, cs[..n], disk), cs[n], disk, n);
    }
  }

  /** The entries' contents and what the vault holds already: where a collision would matter. */
  ghost function AtHand(sample: Sample, v: Vault): set<Bytes> {
    Contents(ActsOf(sample, TakenFor(sample))) + v.Values
  }

  lemma VaultHoldsStaged(digest: Digest, known: set<Bytes>, v: Vault, w: Vault, s: State, disk: nat -> StagedFile,
                         c: Child)
    requires Honest(digest, known, s) && c in s.children && Faithful(s.staged, s.children, disk)
    requires GoodDigest(digest, known + v.Values)
    requires FromDisk(v, |s.children|, disk, w) && c.sha in w && digest(w[c.sha]) == c.sha
    ensures c.sha in s.staged && w[c.sha] == s.staged[c.sha]
  {
    StagedSizeIsReported(digest, known, s, c);
    if c.sha in v && w[c.sha] == v[c.sha] {
      assert w[c.sha] in v.Values;
    } else {
      var i: nat :| i < |s.children| && disk(i).File? && w[c.sha] == disk(i).content;
      StagedSizeIsReported(digest, known, s, s.children[i]);
    }
  }

  lemma FewerContentsAreGood(digest: Digest, a: set<Bytes>, b: set<Bytes>)
    requires GoodDigest(digest, a + b)
    ensures GoodDigest(digest, a)
  {
    assert forall c :: c in a ==> c in a + b;
  }

  lemma ExtractionIsHonest(digest: Digest, sample: Sample, v: Vault)
    requires GoodDigest(digest, AtHand(sample, v))
    ensures Honest(digest, Contents(ActsOf(sample, TakenFor(sample))), Extracted(Setup(DEFAULT_CAPS, digest), sample))
  {
    var x := Setup(DEFAULT_CAPS, digest);
    EveryExtractionIsGood(x, sample);
    ExtractionIsSourced(x, sample);
    FewerContentsAreGood(digest, Contents(ActsOf(sample, TakenFor(sample))), v.Values);
  }

  /** From the archive to the workflow: with a faithful staging area the engine report keeps
      the extractor's verdict, its flag and all its children, each of them in the vault with
      the content that was staged for it. */
  lemma HonestExtractionSurvives(digest: Digest, v: Vault, sample: Sample, disk: nat -> StagedFile)
    requires GoodDigest(digest, AtHand(sample, v)) && KeyedByContent(digest, v)
    requires var s := Extracted(Setup(DEFAULT_CAPS, digest), sample); Faithful(s.staged, s.children, disk)
    ensures var s := Extracted(Setup(DEFAULT_CAPS, digest), sample);
            var t := OfferAll(digest, Start(v, MappedReport(ReportOf(s))), s.children, disk);
            && Outcome(t).children == s.children
            && Outcome(t).verdict == s.worst && Outcome(t).incomplete == s.incomplete
            && forall c :: c in Outcome(t).children ==>
                 c.sha in t.vault && c.sha in s.staged && t.vault[c.sha] == s.staged[c.sha]
  {
    var known, s := Contents(ActsOf(sample, TakenFor(sample))), Extracted(Setup(DEFAULT_CAPS, digest), sample);
    ExtractionIsHonest(digest, sample, v);
    var rep := MappedReport(ReportOf(s));
    ReportIsUnderstood(s);
    HonestPrefixIsIngested(digest, known, v, rep, s, disk, |s.children|);
    assert s.children[..|s.children|] == s.children;
    var t := OfferAll(digest, Start(v, rep), s.children, disk);
    VaultIsFromDisk(digest, Start(v, rep), s.children, disk);
    forall c | c in s.children
      ensures c.sha in t.vault && c.sha in s.staged && t.vault[c.sha] == s.staged[c.sha]
    {
      VerifiedAreInVault(digest, Start(v, rep), s.children, disk, c);
      VaultHoldsStaged(digest, known, v, t.vault, s, disk, c);
    }
  }

  /** So a report that reaches the workflow complete names exactly the regular entries of the
      archive, if and only if the archive was not misread. */
  lemma CompleteReportIsTheArchive(digest: Digest, v: Vault, sample: Sample, disk: nat -> StagedFile)
    requires GoodDigest(digest, AtHand(sample, v)) && KeyedByContent(digest, v)
    requires var s := Extracted(Setup(DEFAULT_CAPS, digest), sample); Faithful(s.staged, s.children, disk)
    ensures var s := Extracted(Setup(DEFAULT_CAPS, digest), sample);
            var rep := Outcome(OfferAll(digest, Start(v, MappedReport(ReportOf(s))), s.children, disk));
            !rep.incomplete ==> (rep.children == PromisedBy(digest, sample) <==> !Misread(digest, sample))
  {
    HonestExtractionSurvives(digest, v, sample, disk);
    if !Extracted(Setup(DEFAULT_CAPS, digest), sample).incomplete {
      CompleteMeansExact(Setup(DEFAULT_CAPS, digest), sample);
    }
  }

  const ONE_BYTE := Stream(true, [Got([1], true)], true)

  function TwoFiles(): Sample {
    Sample(200, [0x50, 0x4b, 3, 4], 4, None,
           Zip([ZipEntry("a", false, None, NOTHING), ZipEntry("b", false, None, ONE_BYTE)]),
           BadTar(""), [], 0, BadTar(""), NOTHING)
  }

  const TWO_ENTRIES := [Entry("a", NOTHING, None), Entry("b", ONE_BYTE, None)]

  lemma TwoFilesAreEntries()
    ensures TakenFor(TwoFiles()) == ZipBox && ActsOf(TwoFiles(), ZipBox) == TWO_ENTRIES
    ensures Content(NOTHING.chunks) == [] && Content(ONE_BYTE.chunks) == [1]
  {
    assert TwoFiles().head[2..4] == [3, 4];
    assert ONE_BYTE.chunks[1..] == [];
    assert [1] + [] == [1];
  }

  lemma TwoFilesAreQuiet(x: Setup)
    requires x.caps == DEFAULT_CAPS
    ensures AllQuiet(x, TWO_ENTRIES)
    ensures Promised(x.digest, TWO_ENTRIES) == [ChildOf(x.digest, "a", []), ChildOf(x.digest, "b", [1])]
  {
    TwoFilesAreEntries();
    assert ONE_BYTE.chunks[1..] == [];
    assert TWO_ENTRIES[..0] == [] && TWO_ENTRIES[..1] == [TWO_ENTRIES[0]];
    OneEntryPromises(x.digest, TWO_ENTRIES[0]);
    var c := ChildOf(x.digest, "a", []);
    SumOneMore([], c);
    assert [] + [c] == [c];
  }

  lemma TwoFilesAreExtracted(x: Setup)
    requires x.caps == DEFAULT_CAPS
    ensures var s := Extracted(x, TwoFiles());
            !s.incomplete && s.children == [ChildOf(x.digest, "a", []), ChildOf(x.digest, "b", [1])]
  {
    TwoFilesAreEntries();
    TwoFilesAreQuiet(x);
    UnpackRuns(x, TwoFiles());
    WholeIsSilentExactly(x, ZipBox, TWO_ENTRIES);
    TwoFilesAreSmall(ChildOf(x.digest, "a", []), ChildOf(x.digest, "b", [1]));
  }

  lemma TwoFilesAreSmall(a: Child, b: Child)
    requires a.size == 0 && b.size == 1
    ensures SumSizes([a, b]) == 1
  {
    SumOneMore([], a);
    SumOneMore([a], b);
    assert [] + [a] == [a] && [a] + [b] == [a, b];
  }

  lemma TwoFilesHoldTwoContents()
    ensures AtHand(TwoFiles(), map[]) == {[], [1]}
  {
    TwoFilesAreEntries();
    var contents := Contents(TWO_ENTRIES);
    assert TWO_ENTRIES[0] in TWO_ENTRIES && TWO_ENTRIES[1] in TWO_ENTRIES;
    assert [] in contents && [1] in contents;
  }

  function Toy(b: Bytes): string {
    if b == [] then seq(64, _ => '0') else seq(64, _ => '1')
  }

  lemma ToyIsGood()
    ensures GoodDigest(Toy, {[], [1]})
  {
    assert Toy([])[0] != Toy([1])[0];
  }

  /** A disk that shows what was staged. */
  function Showing(staged: map<string, Bytes>, cs: seq<Child>): nat -> StagedFile {
    (i: nat) => if i < |cs| && cs[i].sha in staged
                then File(|staged[cs[i].sha]|, true, true, staged[cs[i].sha], true) else Missing
  }

  lemma ShowingIsFaithful(staged: map<string, Bytes>, cs: seq<Child>)
    ensures Faithful(staged, cs, Showing(staged, cs))
  {
  }

  /** The hypotheses can be met, here by an archive of two files, over an empty vault and with
      a digest that tells their contents apart. */
  lemma HonestExtractionExists() returns (digest: Digest, sample: Sample, disk: nat -> StagedFile)
    ensures GoodDigest(digest, AtHand(sample, map[])) && KeyedByContent(digest, map[])
    ensures var s := Extracted(Setup(DEFAULT_CAPS, digest), sample);
            && Faithful(s.staged, s.children, disk) && !s.incomplete && |s.children| == 2
            && s.children[0].sha != s.children[1].sha
  {
    digest, sample := Toy, TwoFiles();
    var s := Extracted(Setup(DEFAULT_CAPS, Toy), sample);
    TwoFilesAreExtracted(Setup(DEFAULT_CAPS, Toy));
    TwoFilesHoldTwoContents();
    ToyIsGood();
    assert Toy([])[0] != Toy([1])[0];
    disk := Showing(s.staged, s.children);
    ShowingIsFaithful(s.staged, s.children);
  }

  lemma ReportIsUnderstood(s: State)
    requires FindingsBounded(s)
    ensures Understood(ReportOf(s)) && ParseVerdict(ReportOf(s).verdict) == (s.worst, true)
  {
    VerdictSurvivesWire(s.worst, Wire(s.worst));
    forall i | 0 <= i < |s.findings|
      ensures ParseVerdict(ReportOf(s).findings[i].verdict).1
    {
      VerdictSurvivesWire(s.findings[i].verdict, Wire(s.findings[i].verdict));
    }
  }

  // ---- The whole submission ----

  /** The report of some run of the ingest loop. */
  ghost predicate FromIngest(rep: EngineReport) {
    exists digest, v, base, cs, disk :: rep == Outcome(OfferAll(digest, Start(v, base), cs, disk))
  }

  /** Whatever the extractor stages and claims, one submission counts less than
      2 GiB + 512 MiB + 128 MiB of children taken into the vault. Only extractions that come
      back are counted. */
  lemma SubmissionIngestIsBounded(world: SubmissionFlow.World, input: SubmissionFlow.Input)
    requires forall at :: world(at, SubmissionFlow.Extract).Completed? ==>
                            FromIngest(world(at, SubmissionFlow.Extract).report)
    ensures SubmissionFlow.Final(world, input).ingested <
            SubmissionFlow.MAX_SUBMISSION_INGEST + MAX_INGEST_TOTAL + MAX_INGEST
  {
    forall at | world(at, SubmissionFlow.Extract).Completed?
      ensures world(at, SubmissionFlow.Extract).report.ingestedBytes < MAX_INGEST_TOTAL + MAX_INGEST
    {
      var rep := world(at, SubmissionFlow.Extract).report;
      var digest, v, base, cs, disk :| rep == Outcome(OfferAll(digest, Start(v, base), cs, disk));
      IngestIsBounded(digest, Start(v, base), cs, disk);
    }
    SubmissionSafety.BudgetsHold(world, input, MAX_INGEST_TOTAL + MAX_INGEST);
  }
}
