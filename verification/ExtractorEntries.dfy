/** What becomes of each kind of archive entry, in terms of the fields of the entry: which are
    kept, which are skipped and noted, and what a name or a size gives away. */
module ExtractorEntries {
  import opened Pipeline
  import opened Text
  import opened ArchiveExtractor
  import opened ExtractorSafety

  // ---- What is reported ----

  lemma CopiedIsContent(caps: Caps, total: nat, r: Stream)
    requires Copy(caps, total, r).Copied?
    ensures Copy(caps, total, r).content == Content(r.chunks)
  {
    CopyHoldsContent(caps, total, [], r.chunks);
    assert [] + Content(r.chunks) == Content(r.chunks);
  }

  lemma KeepAddsOne(digest: Digest, s: State, raw: string, content: Bytes, r: Stream, declared: Option<nat>)
    ensures var t := Keep(digest, s, raw, content, r, declared);
            t.children == s.children || t.children == s.children + [ChildOf(digest, raw, content)]
  {
    var t := CheckSize(Spend(s, |content|), raw, |content|, declared);
    assert t.children == s.children;
  }

  lemma TakeAddsOne(x: Setup, s: State, raw: string, r: Stream, declared: Option<nat>)
    ensures var t := Take(x, s, raw, r, declared).0;
            t.children == s.children || t.children == s.children + [ChildOf(x.digest, raw, Content(r.chunks))]
  {
    var t := Traversal(s, raw);
    var copied := Copy(x.caps, t.total, r);
    assert t.children == s.children;
    if copied.Copied? {
      CopiedIsContent(x.caps, t.total, r);
      KeepAddsOne(x.digest, t, raw, copied.content, r, declared);
    }
  }

  lemma {:induction false} RunAddsPromised(x: Setup, s: State, acts: seq<Act>, c: Child)
    requires c in Run(x, s, acts).0.children
    ensures c in s.children || c in Promised(x.digest, acts)
  {
    if acts != [] {
      var n := |acts| - 1;
      var r, a := Run(x, s, acts[..n]), acts[n];
      if r.1 && a.Entry? {
        TakeAddsOne(x, r.0, a.name, a.stream, a.declared);
      }
      if c in r.0.children {
        RunAddsPromised(x, s, acts[..n], c);
      }
    }
  }

  lemma {:induction false} PromisedGrows(digest: Digest, acts: seq<Act>, n: nat, c: Child)
    requires n <= |acts| && c in Promised(digest, acts[..n])
    ensures c in Promised(digest, acts)
    decreases |acts|
  {
    if n < |acts| {
      assert acts[..|acts| - 1][..n] == acts[..n];
      PromisedGrows(digest, acts[..|acts| - 1], n, c);
    } else {
      assert acts[..n] == acts;
    }
  }

  /** Whatever goes wrong and whatever is cut off, every child reported is a regular file of the
      container the sample was taken for, under its own name and with its whole content: no
      directory, link, device, pipe or socket is ever extracted. */
  lemma OnlyRegularFilesAreReported(x: Setup, sample: Sample, c: Child)
    requires c in Extracted(x, sample).children
    ensures c in ChildrenOf(x.digest, sample, TakenFor(sample))
  {
    var box := TakenFor(sample);
    var acts := ActsOf(sample, box);
    if Ready(sample, box) {
      UnpackRuns(x, sample);
      var some := Considered(x, box, acts);
      assert Begin(x, box, acts).children == [] && some == acts[..|some|];
      RunAddsPromised(x, Begin(x, box, acts), some, c);
      PromisedGrows(x.digest, acts, |some|, c);
      RegularIsPromised(x.digest, sample, box);
    } else {
      UnpackFails(x, sample);
    }
  }

  /** And nothing else is staged. */
  lemma OnlyRegularFilesAreStaged(x: Setup, sample: Sample, sha: string)
    requires sha in Extracted(x, sample).staged
    ensures exists c :: c in ChildrenOf(x.digest, sample, TakenFor(sample)) && c.sha == sha
  {
    EveryExtractionIsGood(x, sample);
    var c :| c in Extracted(x, sample).children && c.sha == sha;
    OnlyRegularFilesAreReported(x, sample, c);
  }

  // ---- What is skipped or suspicious is noted ----

  /** A link, a pipe, a device or a socket, by the type bits alone. */
  predicate SpecialInZip(e: ZipEntry) {
    e.ZipEntry? && !e.isDir && e.mode.Some? && e.mode.value / 0x1000 % 0x10 in {1, 2, 6, 0xA, 0xC}
  }

  predicate SpecialInTar(e: TarEntry) {
    e.TarEntry? && (e.kind == TarSymlink || e.kind == TarHardLink || e.kind == TarOther)
  }

  /** A name that climbs, starts at a root, or names a drive. */
  ghost predicate Climbs(name: string) {
    || (exists a, b :: name == a + ".." + b)
    || "/" <= name || "\\" <= name
    || (|name| > 1 && name[1] == ':')
  }

  lemma ClimbingLooksBad(name: string)
    ensures LooksLikeTraversal(name) <==> Climbs(name)
  {
    if ContainsDots(name) {
      var i :| 0 <= i < |name| - 1 && name[i] == '.' && name[i + 1] == '.';
      assert name == name[..i] + ".." + name[i + 2..];
    }
    if a, b :| name == a + ".." + b {
      assert name[|a|] == '.' && name[|a| + 1] == '.';
    }
  }

  /** Skipping and climbing leave a mark: an act of this kind is never quiet. */
  predicate Marked(a: Act) {
    a.Flag? || (a.Entry? && LooksLikeTraversal(a.name))
  }

  lemma MarkedIsNoted(x: Setup, sample: Sample, i: nat)
    requires var acts := ActsOf(sample, TakenFor(sample)); i < |acts| && Marked(acts[i])
    requires Ready(sample, TakenFor(sample))
    ensures Extracted(x, sample).worst >= SUSPICIOUS
  {
    var box := TakenFor(sample);
    var acts := ActsOf(sample, box);
    assert !Quiet(x, acts[..i], acts[i]);
    UnpackRuns(x, sample);
    WholeIsSilentExactly(x, box, acts);
  }

  /** The entry of a zip file that leaves a mark. */
  ghost predicate StandsOutInZip(e: ZipEntry) {
    SpecialInZip(e) || (RegularInZip(e) && Climbs(e.name))
  }

  ghost predicate StandsOutInTar(e: TarEntry) {
    SpecialInTar(e) || (RegularInTar(e) && Climbs(e.name))
  }

  lemma ZipActIs(e: ZipEntry)
    ensures ZipAct(e).Lost? <==> e.ZipUnreadable?
    ensures ZipAct(e).Skip? <==> e.ZipEntry? && e.isDir
    ensures Marked(ZipAct(e)) <==> StandsOutInZip(e)
  {
    if e.ZipEntry? {
      ClimbingLooksBad(e.name);
    }
  }

  lemma TarActIs(e: TarEntry)
    ensures TarAct(e).Lost? <==> e.TarUnreadable?
    ensures TarAct(e).Skip? <==> e.TarEntry? && e.kind == TarDir
    ensures Marked(TarAct(e)) <==> StandsOutInTar(e)
  {
    if e.TarEntry? {
      ClimbingLooksBad(e.name);
    }
  }

  /** A link, a pipe, a device, a socket or a climbing name anywhere in a zip file that was read
      leaves the verdict at least SUSPICIOUS, past the caps as well. */
  lemma ZipOddityIsNoted(x: Setup, sample: Sample, i: nat)
    requires TakenFor(sample) == ZipBox && Ready(sample, ZipBox)
    requires i < |sample.zip.entries| && StandsOutInZip(sample.zip.entries[i])
    ensures Extracted(x, sample).worst >= SUSPICIOUS
  {
    ZipActIs(sample.zip.entries[i]);
    MarkedIsNoted(x, sample, i);
  }

  /** The same of a tar file, plain or gzipped. */
  lemma TarOddityIsNoted(x: Setup, sample: Sample, t: TarFile, i: nat)
    requires || (TakenFor(sample) == TarBox && t == sample.tar)
             || (TakenFor(sample) == TarGzBox && t == sample.inflatedTar)
    requires Ready(sample, TakenFor(sample)) && i < |t.entries| && StandsOutInTar(t.entries[i])
    ensures Extracted(x, sample).worst >= SUSPICIOUS
  {
    TarActIs(t.entries[i]);
    assert ActsOf(sample, TakenFor(sample))[i] == TarAct(t.entries[i]);
    MarkedIsNoted(x, sample, i);
  }

  /** A run is marked as a bomb exactly when what came out is more than a MiB and at least
      `ratioFlag` times the size of what went in. */
  lemma RatioIsFlaggedExactly(x: Setup, sample: Sample)
    ensures var s, inflated := Unpack(x, sample), Unpack(x, sample).total;
            if 0 < sample.size && x.caps.ratioFlag * sample.size <= inflated && 0x10_0000 < inflated
            then Extracted(x, sample).incomplete && Extracted(x, sample).worst >= SUSPICIOUS
                 && Extracted(x, sample) == Gap(s, HighRatio)
            else Extracted(x, sample) == s
  {
    if sample.size > 0 {
      QuotientReaches(Unpack(x, sample).total, sample.size, x.caps.ratioFlag);
    }
    GapIsNoted(Unpack(x, sample), HighRatio);
  }

  lemma QuotientReaches(n: nat, d: nat, k: nat)
    requires d > 0
    ensures n / d >= k <==> k * d <= n
  {
    var q := n / d;
    assert q * d <= n < q * d + d;
    if q >= k {
      assert k * d <= q * d;
    } else {
      assert (q + 1) * d <= k * d;
    }
  }

  // ---- What a container looks like ----

  /** The magic numbers, each with what may follow it. */
  lemma MagicIsExact(head: Bytes)
    ensures HasGzipMagic(head) <==> [0x1f, 0x8b] <= head
    ensures HasZipMagic(head) <==>
            [0x50, 0x4b, 3, 4] <= head || [0x50, 0x4b, 5, 6] <= head || [0x50, 0x4b, 7, 8] <= head
    ensures HasTarMagic(head) <==> exists before: Bytes, after: Bytes ::
              |before| == 257 && head == before + [0x75, 0x73, 0x74, 0x61, 0x72] + after
  {
    if HasTarMagic(head) {
      assert head == head[..257] + [0x75, 0x73, 0x74, 0x61, 0x72] + head[262..];
    }
    if |head| >= 4 {
      assert head[2..4] == [head[2], head[3]];
    }
  }

  // ---- What names and words become ----

  /** C0 and C1 controls, DEL, and the marks that turn the direction of text. */
  predicate Unfit(c: char) {
    var n := c as int;
    n < 0x20 || 0x7f <= n <= 0x9f || n in {0x61c, 0x200e, 0x200f} || 0x202a <= n <= 0x202e || 0x2066 <= n <= 0x2069
  }

  /** A name is shown character by character, with a dot for each control, up to the first
      character that no longer fits. */
  lemma {:induction false} ShownIsPrefix(done: string, s: string)
    ensures var r := SanitizeFrom(done, s);
            && done <= r && |r| <= |done| + |s|
            && (forall i :: 0 <= i < |r| - |done| ==>
                  r[|done| + i] == if Unfit(s[i]) then '.' else s[i])
            && (|r| < |done| + |s| ==> ByteLength(r) + Utf8Length(Neutral(s[|r| - |done|])) > MAX_TEXT_BYTES)
    decreases |s|
  {
    if s != [] && ByteLength(done) + Utf8Length(Neutral(s[0])) <= MAX_TEXT_BYTES {
      var more := done + [Neutral(s[0])];
      ShownIsPrefix(more, s[1..]);
      var r := SanitizeFrom(more, s[1..]);
      assert SanitizeFrom(done, s) == r;
      forall i | 0 <= i < |r| - |done|
        ensures r[|done| + i] == Neutral(s[i])
      {
        if i == 0 {
          assert r[..|more|] == more;
        } else {
          assert r[|more| + (i - 1)] == Neutral(s[1..][i - 1]);
        }
      }
    }
  }

  lemma SanitizedIsPrefix(s: string)
    ensures var r := Sanitize(s);
            && |r| <= |s|
            && (forall i :: 0 <= i < |r| ==> r[i] == if Unfit(s[i]) then '.' else s[i])
            && (|r| < |s| ==> ByteLength(r) + Utf8Length(Neutral(s[|r|])) > MAX_TEXT_BYTES)
  {
    ShownIsPrefix("", s);
  }

  /** Everything the extractor has to say about what it left out reads as a gap to the pipeline,
      so it never scores more than a floor; what it says about the container does not. */
  lemma RemarksAreGaps(r: Remark)
    ensures IsGapKind(KindOf(r)) <==> !r.Archive? && !r.NotAnArchive?
  {
  }

  /** Every note is in the report while there is room for it, in order, with the verdict it was
      given; the report is the state, and nothing is left out of it. */
  lemma ReportReads(x: Setup, sample: Sample)
    ensures var s, r := Extracted(x, sample), ReportOf(Extracted(x, sample));
            && r.children == s.children && (r.incomplete <==> s.incomplete)
            && |r.findings| == (if |s.noted| > 999 then 1000 else |s.noted|)
            && (forall i :: 0 <= i < |r.findings| && i < 999 ==> r.findings[i].verdict == Wire(s.noted[i]))
            && (forall f :: f in r.findings ==> f.engine == "mal-extract" && Displayable(f.detail))
            && forall c :: c in r.children ==> Displayable(c.name)
  {
    var s := Extracted(x, sample);
    EveryExtractionIsGood(x, sample);
    forall f | f in ReportOf(s).findings
      ensures f.engine == "mal-extract" && Displayable(f.detail)
    {
      var i :| 0 <= i < |s.findings| && f == Printed(s.findings[i]);
      SanitizedIsDisplayable(TextOf(s.findings[i].remark));
    }
    forall c | c in s.children
      ensures Displayable(c.name)
    {
      OnlyRegularFilesAreReported(x, sample, c);
      NamesAreShown(x.digest, sample, TakenFor(sample), c);
    }
  }

  lemma {:induction false} ZipNamesAreShown(digest: Digest, es: seq<ZipEntry>, c: Child)
    requires c in ZipChildren(digest, es)
    ensures Displayable(c.name)
  {
    var n := |es| - 1;
    if c in ZipChildren(digest, es[..n]) {
      ZipNamesAreShown(digest, es[..n], c);
    } else {
      SanitizedIsDisplayable(es[n].name);
    }
  }

  lemma TarNamesAreShown(digest: Digest, es: seq<TarEntry>, c: Child)
    requires c in TarChildren(digest, es)
    ensures Displayable(c.name)
  {
    TarChildrenAreFiles(digest, es, c);
    var e :| e in es && RegularInTar(e) && c == ChildOf(digest, e.name, Content(e.stream.chunks));
    SanitizedIsDisplayable(e.name);
  }

  lemma NamesAreShown(digest: Digest, sample: Sample, box: Container, c: Child)
    requires c in ChildrenOf(digest, sample, box)
    ensures Displayable(c.name)
  {
    match box
    case ZipBox => ZipNamesAreShown(digest, sample.zip.entries, c);
    case TarGzBox => TarNamesAreShown(digest, sample.inflatedTar.entries, c);
    case TarBox => TarNamesAreShown(digest, sample.tar.entries, c);
    case GzipBox => SanitizedIsDisplayable("gunzipped");
    case NoBox =>
  }

  /** Each remark goes by a word of its own, but for the three errors, which share one. */
  lemma RemarksHaveWords(r: Remark)
    ensures KindOf(r) == "archive" <==> r.Archive?
    ensures KindOf(r) == "not-an-archive" <==> r.NotAnArchive?
    ensures KindOf(r) == "extraction-error" <==> r.OpenFailed? || r.BadArchive? || r.StageFailed?
    ensures KindOf(r) == "entry-count-cap" <==> r.EntryCountCap?
    ensures KindOf(r) == "extraction-cap-hit" <==> r.ChildCountCap?
    ensures KindOf(r) == "path-traversal-name" <==> r.TraversalName?
    ensures KindOf(r) == "entry-truncated" <==> r.Truncated?
    ensures KindOf(r) == "entry-too-large" <==> r.TooLarge?
    ensures KindOf(r) == "entry-unreadable" <==> r.Unreadable?
    ensures KindOf(r) == "decompression-bomb" <==> r.Bomb?
    ensures KindOf(r) == "skipped-symlink" <==> r.SkippedSymlink?
    ensures KindOf(r) == "skipped-link" <==> r.SkippedLink?
    ensures KindOf(r) == "skipped-special" <==> r.SkippedSpecial?
    ensures KindOf(r) == "high-compression-ratio" <==> r.HighRatio?
    ensures KindOf(r) == "findings-cap-hit" <==> r.FindingsCap?
  {
  }
}
