/** What every run of the archive extractor keeps, and what a complete report means. */
module ExtractorSafety {
  import opened Pipeline
  import opened Text
  import opened ArchiveExtractor

  // ---- The caps ----

  ghost predicate Budgets(caps: Caps, s: State) {
    && s.total <= caps.maxTotal
    && |s.children| <= caps.maxChildren
    && SumSizes(s.children) <= s.total
    && forall c :: c in s.children ==> c.size <= caps.maxEntry
  }

  /** One finding per note up to 999, then a single marker that leaves the run incomplete. */
  ghost predicate FindingsBounded(s: State) {
    && (s.capped <==> |s.noted| > MAX_DETAIL_FINDINGS)
    && |s.findings| == (if s.capped then MAX_DETAIL_FINDINGS + 1 else |s.noted|)
    && (s.capped ==> s.incomplete && s.findings[MAX_DETAIL_FINDINGS] == CAP_MARKER)
    && forall i :: 0 <= i < |s.findings| && i < MAX_DETAIL_FINDINGS ==> s.findings[i].verdict == s.noted[i]
  }

  /** The verdict is the join of every verdict ever noted, printed or suppressed. */
  ghost predicate WorstIsJoin(s: State) {
    s.worst == Max(Max(UNKNOWN, JoinAll(s.noted)), if s.capped then SUSPICIOUS else BENIGN)
  }

  ghost predicate Names(digest: Digest, c: Child) {
    exists b: Bytes :: digest(b) == c.sha && |b| == c.size
  }

  /** The dedup set, the staged files and the hashes of the children coincide, and what is
      staged under a name hashes to it. */
  ghost predicate StagedMatches(digest: Digest, s: State) {
    && s.seen == s.staged.Keys
    && (forall sha :: sha in s.staged ==> digest(s.staged[sha]) == sha)
    && (forall sha :: sha in s.seen ==> HasChild(s.children, sha))
    && (forall c :: c in s.children ==> c.sha in s.seen && Names(digest, c))
  }

  ghost predicate Good(x: Setup, s: State) {
    Budgets(x.caps, s) && FindingsBounded(s) && WorstIsJoin(s) && StagedMatches(x.digest, s)
  }

  lemma NoteKeepsReport(s: State, r: Remark, v: Verdict)
    requires FindingsBounded(s) && WorstIsJoin(s)
    ensures FindingsBounded(Note(s, r, v)) && WorstIsJoin(Note(s, r, v))
  {
    assert (s.noted + [v])[..|s.noted|] == s.noted;
  }

  lemma NoteKeepsGood(x: Setup, s: State, r: Remark, v: Verdict)
    requires Good(x, s)
    ensures Good(x, Note(s, r, v))
  {
    NoteKeepsReport(s, r, v);
  }

  lemma GapKeepsGood(x: Setup, s: State, r: Remark)
    requires Good(x, s)
    ensures Good(x, Gap(s, r))
  {
    NoteKeepsGood(x, s.(incomplete := true), r, SUSPICIOUS);
  }

  lemma {:induction false} CopyStaysWithinCaps(caps: Caps, total: nat, content: Bytes, chunks: seq<Chunk>)
    requires |content| <= caps.maxEntry && total + |content| <= caps.maxTotal
    ensures var r := CopyFrom(caps, total, content, chunks);
            r.Copied? ==> |r.content| <= caps.maxEntry && total + |r.content| <= caps.maxTotal
    decreases |chunks|
  {
    if !AtEnd(chunks) && chunks[0].Got? {
      var more := content + chunks[0].bytes;
      if |more| <= caps.maxEntry && total + |more| <= caps.maxTotal {
        CopyStaysWithinCaps(caps, total, more, chunks[1..]);
      }
    }
  }

  ghost predicate HasChild(children: seq<Child>, sha: string) {
    exists i :: 0 <= i < |children| && children[i].sha == sha
  }

  lemma HasChildGrows(children: seq<Child>, c: Child, sha: string)
    requires HasChild(children, sha) || c.sha == sha
    ensures HasChild(children + [c], sha)
  {
    if HasChild(children, sha) {
      var i :| 0 <= i < |children| && children[i].sha == sha;
      assert (children + [c])[i].sha == sha;
    } else {
      assert (children + [c])[|children|].sha == sha;
    }
  }

  lemma StageKeepsNames(digest: Digest, s: State, raw: string, content: Bytes)
    requires StagedMatches(digest, s)
    ensures StagedMatches(digest, Stage(digest, s, raw, content, true))
  {
    var t := Stage(digest, s, raw, content, true);
    var c := Child(digest(content), |content|, Sanitize(raw));
    assert t.children == s.children + [c] && Names(digest, c);
    forall sha | sha in t.seen
      ensures HasChild(t.children, sha)
    {
      HasChildGrows(s.children, c, sha);
    }
  }

  lemma StageKeepsGood(x: Setup, s: State, raw: string, content: Bytes, renamed: bool)
    requires Good(x, s) && |content| <= x.caps.maxEntry
    requires SumSizes(s.children) + |content| <= s.total && |s.children| < x.caps.maxChildren
    ensures Good(x, Stage(x.digest, s, raw, content, renamed))
  {
    if x.digest(content) !in s.seen && !renamed {
      GapKeepsGood(x, s, StageFailed);
    } else {
      var t := Stage(x.digest, s, raw, content, renamed);
      assert t == Stage(x.digest, s, raw, content, true);
      StageKeepsNames(x.digest, s, raw, content);
      SumOneMore(s.children, Child(x.digest(content), |content|, Sanitize(raw)));
    }
  }

  lemma SpendKeepsGood(x: Setup, s: State, n: nat)
    requires Good(x, s) && s.total + n <= x.caps.maxTotal
    ensures Good(x, Spend(s, n)) && SumSizes(s.children) + n <= s.total + n
  {
  }

  lemma CheckSizeKeepsGood(x: Setup, s: State, raw: string, got: nat, declared: Option<nat>)
    requires Good(x, s)
    ensures Good(x, CheckSize(s, raw, got, declared))
    ensures CheckSize(s, raw, got, declared).children == s.children
    ensures CheckSize(s, raw, got, declared).total == s.total
  {
    if declared.Some? {
      GapKeepsGood(x, s, Truncated(raw, declared.value, got));
    }
  }

  lemma KeepKeepsGood(x: Setup, s: State, raw: string, content: Bytes, r: Stream, declared: Option<nat>)
    requires Good(x, s) && |content| <= x.caps.maxEntry && s.total + |content| <= x.caps.maxTotal
    requires |s.children| < x.caps.maxChildren
    ensures Good(x, Keep(x.digest, s, raw, content, r, declared))
  {
    var t := Spend(s, |content|);
    SpendKeepsGood(x, s, |content|);
    CheckSizeKeepsGood(x, t, raw, |content|, declared);
    var u := CheckSize(t, raw, |content|, declared);
    assert u.children == s.children && u.total == s.total + |content|;
    StageKeepsGood(x, u, raw, content, r.renamed);
  }

  lemma SettleKeepsGood(x: Setup, s: State, raw: string, r: Stream, declared: Option<nat>)
    requires Good(x, s) && |s.children| < x.caps.maxChildren
    ensures Good(x, Settle(x.digest, s, raw, Copy(x.caps, s.total, r), r, declared))
  {
    match Copy(x.caps, s.total, r)
    case Copied(content) =>
      CopyStaysWithinCaps(x.caps, s.total, [], r.chunks);
      KeepKeepsGood(x, s, raw, content, r, declared);
    case EntryHit => GapKeepsGood(x, s, TooLarge(raw));
    case IoHit => GapKeepsGood(x, s, Unreadable(raw));
    case TotalHit =>
      GapKeepsGood(x, s, Bomb);
  }

  lemma TakeKeepsGood(x: Setup, s: State, raw: string, r: Stream, declared: Option<nat>)
    requires Good(x, s)
    ensures Good(x, Take(x, s, raw, r, declared).0)
  {
    if |s.children| >= x.caps.maxChildren {
      GapKeepsGood(x, s, ChildCountCap);
    } else {
      NoteKeepsGood(x, s, TraversalName(raw), SUSPICIOUS);
      SettleKeepsGood(x, Traversal(s, raw), raw, r, declared);
    }
  }

  lemma {:induction false} RunKeepsGood(x: Setup, s: State, acts: seq<Act>)
    requires Good(x, s)
    ensures Good(x, Run(x, s, acts).0)
  {
    if acts != [] {
      var n := |acts| - 1;
      RunKeepsGood(x, s, acts[..n]);
      var r := Run(x, s, acts[..n]);
      if r.1 {
        match acts[n]
        case Skip =>
        case Lost =>
        case Flag(remark) => NoteKeepsGood(x, r.0, remark, SUSPICIOUS);
        case Entry(name, stream, declared) => TakeKeepsGood(x, r.0, name, stream, declared);
      }
    }
  }

  // ---- A whole run in one shape ----

  datatype Container = ZipBox | TarGzBox | GzipBox | TarBox | NoBox

  function Detect(head: Bytes, inflatedHead: Bytes): Container {
    if HasZipMagic(head) then ZipBox
    else if HasGzipMagic(head) then if HasTarMagic(inflatedHead) then TarGzBox else GzipBox
    else if HasTarMagic(head) then TarBox
    else NoBox
  }

  /** What the bytes of the sample make it. */
  function Actual(sample: Sample): Container {
    Detect(sample.head, sample.inflatedHead)
  }

  /** What the extractor takes it for, after its two peeks. */
  function TakenFor(sample: Sample): Container {
    Detect(Peeked(sample.head, sample.peek), Peeked(sample.inflatedHead, sample.inflatedPeek))
  }

  predicate Parses(sample: Sample, box: Container) {
    match box
    case ZipBox => sample.zip.Zip?
    case TarGzBox => sample.inflatedTar.Tar?
    case TarBox => sample.tar.Tar?
    case GzipBox => true
    case NoBox => true
  }

  function ActsOfTar(t: TarFile): seq<Act> {
    if t.Tar? then TarActs(t.entries) else []
  }

  /** The entries of the sample, read as the given container. */
  function ActsOf(sample: Sample, box: Container): seq<Act> {
    match box
    case ZipBox => if sample.zip.Zip? then ZipActs(sample.zip.entries) else []
    case TarGzBox => ActsOfTar(sample.inflatedTar)
    case TarBox => ActsOfTar(sample.tar)
    case GzipBox => [Entry("gunzipped", sample.inflated, None)]
    case NoBox => []
  }

  /** The container could be opened and its directory read. */
  predicate Ready(sample: Sample, box: Container) {
    box.NoBox? || (sample.openError.None? && Parses(sample, box))
  }

  predicate OverCap(caps: Caps, box: Container, acts: seq<Act>) {
    (box.ZipBox? || box.TarBox? || box.TarGzBox?) && |acts| > caps.maxEntries
  }

  function Begin(x: Setup, box: Container, acts: seq<Act>): State {
    match box
    case ZipBox =>
      var s := Note(FRESH, Archive("zip"), UNKNOWN);
      if OverCap(x.caps, box, acts) then Gap(s, EntryCountCap("zip")) else s
    case TarGzBox => Note(Note(FRESH, Archive("tar.gz"), UNKNOWN), Archive("tar"), UNKNOWN)
    case TarBox => Note(FRESH, Archive("tar"), UNKNOWN)
    case GzipBox => Note(FRESH, Archive("gzip"), UNKNOWN)
    case NoBox => Note(FRESH, NotAnArchive, UNKNOWN)
  }

  function Considered(x: Setup, box: Container, acts: seq<Act>): seq<Act> {
    if OverCap(x.caps, box, acts) then acts[..x.caps.maxEntries] else acts
  }

  function Finish(x: Setup, box: Container, acts: seq<Act>, r: (State, bool)): State {
    if !box.ZipBox? && r.1 && OverCap(x.caps, box, acts) then Gap(r.0, EntryCountCap("tar")) else r.0
  }

  function Whole(x: Setup, box: Container, acts: seq<Act>): State {
    Finish(x, box, acts, Run(x, Begin(x, box, acts), Considered(x, box, acts)))
  }

  lemma CappedTarActs(x: Setup, box: Container, es: seq<TarEntry>)
    requires box.TarBox? || box.TarGzBox?
    ensures TarActs(Capped(x.caps.maxEntries, es)) == Considered(x, box, TarActs(es))
  {
  }

  lemma CappedZipActs(x: Setup, es: seq<ZipEntry>)
    ensures ZipActs(Capped(x.caps.maxEntries, es)) == Considered(x, ZipBox, ZipActs(es))
  {
  }

  lemma OneActRuns(x: Setup, s: State, a: Act)
    ensures Run(x, s, [a]) == Perform(x, s, a)
  {
    assert [a][..0] == [];
    assert Run(x, s, [a][..0]) == (s, true);
  }

  /** Whatever the container, an extraction is a preamble, a run over its entries, and the tar
      reader's late count cap. */
  lemma UnpackRuns(x: Setup, sample: Sample)
    requires Ready(sample, TakenFor(sample))
    ensures Unpack(x, sample) == Whole(x, TakenFor(sample), ActsOf(sample, TakenFor(sample)))
  {
    match TakenFor(sample)
    case ZipBox => CappedZipActs(x, sample.zip.entries);
    case TarGzBox => CappedTarActs(x, TarGzBox, sample.inflatedTar.entries);
    case TarBox => CappedTarActs(x, TarBox, sample.tar.entries);
    case GzipBox => OneActRuns(x, Begin(x, GzipBox, ActsOf(sample, GzipBox)),
                               Entry("gunzipped", sample.inflated, None));
    case NoBox =>
  }

  /** The one failure that the code notes without marking the run incomplete. */
  predicate UnopenedTar(sample: Sample) {
    TakenFor(sample).TarBox? && sample.openError.Some?
  }

  lemma UnpackFails(x: Setup, sample: Sample)
    requires !Ready(sample, TakenFor(sample))
    ensures var s := Unpack(x, sample);
            && s.children == [] && s.staged == map[] && s.seen == {} && s.total == 0
            && s.worst == SUSPICIOUS && (s.incomplete <==> !UnopenedTar(sample))
  {
  }

  lemma UnopenedIsGood(x: Setup, sample: Sample)
    requires sample.openError.Some? && !TakenFor(sample).NoBox?
    ensures Good(x, Unpack(x, sample))
  {
    assert Good(x, FRESH);
    GapKeepsGood(x, FRESH, OpenFailed(sample.openError.value));
    NoteKeepsGood(x, FRESH, OpenFailed(sample.openError.value), SUSPICIOUS);
  }

  lemma UnpackFailsGood(x: Setup, sample: Sample)
    requires !Ready(sample, TakenFor(sample))
    ensures Good(x, Unpack(x, sample))
  {
    assert Good(x, FRESH);
    if sample.openError.Some? {
      UnopenedIsGood(x, sample);
    } else {
      match TakenFor(sample)
      case ZipBox => GapKeepsGood(x, FRESH, BadArchive("zip", sample.zip.error));
      case TarGzBox =>
        var noted := Note(FRESH, Archive("tar.gz"), UNKNOWN);
        NoteKeepsGood(x, FRESH, Archive("tar.gz"), UNKNOWN);
        GapKeepsGood(x, noted, BadArchive("tar", sample.inflatedTar.error));
      case TarBox => GapKeepsGood(x, FRESH, BadArchive("tar", sample.tar.error));
    }
  }

  lemma BeginIsGood(x: Setup, box: Container, acts: seq<Act>)
    ensures Good(x, Begin(x, box, acts))
  {
    assert Good(x, FRESH);
    match box
    case ZipBox =>
      NoteKeepsGood(x, FRESH, Archive("zip"), UNKNOWN);
      GapKeepsGood(x, Note(FRESH, Archive("zip"), UNKNOWN), EntryCountCap("zip"));
    case TarGzBox =>
      NoteKeepsGood(x, FRESH, Archive("tar.gz"), UNKNOWN);
      NoteKeepsGood(x, Note(FRESH, Archive("tar.gz"), UNKNOWN), Archive("tar"), UNKNOWN);
    case TarBox => NoteKeepsGood(x, FRESH, Archive("tar"), UNKNOWN);
    case GzipBox => NoteKeepsGood(x, FRESH, Archive("gzip"), UNKNOWN);
    case NoBox => NoteKeepsGood(x, FRESH, NotAnArchive, UNKNOWN);
  }

  lemma WholeIsGood(x: Setup, box: Container, acts: seq<Act>)
    ensures Good(x, Whole(x, box, acts))
  {
    BeginIsGood(x, box, acts);
    RunKeepsGood(x, Begin(x, box, acts), Considered(x, box, acts));
    GapKeepsGood(x, Run(x, Begin(x, box, acts), Considered(x, box, acts)).0, EntryCountCap("tar"));
  }

  lemma UnpackIsGood(x: Setup, sample: Sample)
    ensures Good(x, Unpack(x, sample))
  {
    if Ready(sample, TakenFor(sample)) {
      UnpackRuns(x, sample);
      WholeIsGood(x, TakenFor(sample), ActsOf(sample, TakenFor(sample)));
    } else {
      UnpackFailsGood(x, sample);
    }
  }

  /** Whatever the input and the disk do, the caps hold at the end of a run, the verdict is
      the join of everything noted, and the staged files are exactly the reported children. */
  lemma EveryExtractionIsGood(x: Setup, sample: Sample)
    ensures var s := Extracted(x, sample);
            && Good(x, s)
            && |ReportOf(s).findings| <= MAX_DETAIL_FINDINGS + 1
            && ParseVerdict(ReportOf(s).verdict) == (s.worst, true)
  {
    UnpackIsGood(x, sample);
    var s := Unpack(x, sample);
    GapKeepsGood(x, s, HighRatio);
    VerdictSurvivesWire(Extracted(x, sample).worst, Wire(Extracted(x, sample).worst));
  }

  // ---- What a complete report means ----

  /** The content a stream holds up to its end. */
  function Content(chunks: seq<Chunk>): Bytes {
    if AtEnd(chunks) || chunks[0].Broken? then [] else chunks[0].bytes + Content(chunks[1..])
  }

  predicate Readable(chunks: seq<Chunk>) {
    AtEnd(chunks) || (chunks[0].Got? && chunks[0].written && Readable(chunks[1..]))
  }

  /** A copy succeeds exactly on a readable stream that fits both caps, and then it holds
      the whole content. */
  lemma {:induction false} CopyIsExact(caps: Caps, total: nat, content: Bytes, chunks: seq<Chunk>)
    requires |content| <= caps.maxEntry && total + |content| <= caps.maxTotal
    ensures var whole := content + Content(chunks);
            && (CopyFrom(caps, total, content, chunks).Copied? <==>
                  Readable(chunks) && |whole| <= caps.maxEntry && total + |whole| <= caps.maxTotal)
            && (CopyFrom(caps, total, content, chunks).Copied? ==>
                  CopyFrom(caps, total, content, chunks).content == whole)
    decreases |chunks|
  {
    if AtEnd(chunks) {
      assert content + Content(chunks) == content;
    } else if chunks[0].Got? {
      var more := content + chunks[0].bytes;
      assert content + Content(chunks) == more + Content(chunks[1..]);
      if |more| <= caps.maxEntry && total + |more| <= caps.maxTotal {
        CopyIsExact(caps, total, more, chunks[1..]);
      }
    }
  }

  function ChildOf(digest: Digest, name: string, content: Bytes): Child {
    Child(digest(content), |content|, Sanitize(name))
  }

  /** The children an archive promises: its regular entries, in archive order. */
  function Promised(digest: Digest, acts: seq<Act>): seq<Child> {
    if acts == [] then []
    else
      var rest, a := Promised(digest, acts[..|acts| - 1]), acts[|acts| - 1];
      if a.Entry? then rest + [ChildOf(digest, a.name, Content(a.stream.chunks))] else rest
  }

  predicate Intact(a: Act) {
    match a
    case Skip => true
    case Lost => false
    case Flag(_) => true
    case Entry(_, r, declared) =>
      r.created && Readable(r.chunks) && (declared.Some? ==> declared.value == |Content(r.chunks)|)
  }

  lemma KeepIsExact(digest: Digest, s: State, raw: string, content: Bytes, r: Stream, declared: Option<nat>)
    requires !Keep(digest, s, raw, content, r, declared).incomplete
    ensures !s.incomplete && (declared.Some? ==> declared.value == |content|)
    ensures Keep(digest, s, raw, content, r, declared).children == s.children + [ChildOf(digest, raw, content)]
  {
    var t := CheckSize(Spend(s, |content|), raw, |content|, declared);
    assert t.children == s.children;
  }

  lemma TakeIsExact(x: Setup, s: State, raw: string, r: Stream, declared: Option<nat>)
    requires s.total <= x.caps.maxTotal
    requires !Take(x, s, raw, r, declared).0.incomplete
    ensures var t := Take(x, s, raw, r, declared);
            && t.1 && !s.incomplete && Intact(Entry(raw, r, declared))
            && t.0.children == s.children + [ChildOf(x.digest, raw, Content(r.chunks))]
  {
    var t := Traversal(s, raw);
    assert t.total == s.total && t.children == s.children;
    var copied := Copy(x.caps, t.total, r);
    CopyIsExact(x.caps, t.total, [], r.chunks);
    assert [] + Content(r.chunks) == Content(r.chunks);
    assert copied.Copied?;
    KeepIsExact(x.digest, t, raw, copied.content, r, declared);
  }

  lemma PerformIsExact(x: Setup, s: State, a: Act)
    requires s.total <= x.caps.maxTotal && !Perform(x, s, a).0.incomplete
    ensures Perform(x, s, a).1 && !s.incomplete && Intact(a)
    ensures Perform(x, s, a).0.children ==
            if a.Entry? then s.children + [ChildOf(x.digest, a.name, Content(a.stream.chunks))] else s.children
  {
    if a.Entry? {
      TakeIsExact(x, s, a.name, a.stream, a.declared);
    }
  }

  lemma {:induction false} RunIsExact(x: Setup, s: State, acts: seq<Act>)
    requires Good(x, s) && !Run(x, s, acts).0.incomplete
    ensures Run(x, s, acts).1 && !s.incomplete
    ensures Run(x, s, acts).0.children == s.children + Promised(x.digest, acts)
  {
    if acts != [] {
      var n := |acts| - 1;
      var r := Run(x, s, acts[..n]);
      RunKeepsGood(x, s, acts[..n]);
      if r.1 {
        PerformIsExact(x, r.0, acts[n]);
      }
      RunIsExact(x, s, acts[..n]);
    }
  }

  /** Nothing was lost on the way: every entry was produced, readable to its end, and of the
      size its header gave. */
  lemma {:induction false} RunIsIntact(x: Setup, s: State, acts: seq<Act>, i: nat)
    requires Good(x, s) && !Run(x, s, acts).0.incomplete && i < |acts|
    ensures Intact(acts[i])
    decreases |acts|
  {
    var n := |acts| - 1;
    LastIsIntact(x, s, acts);
    if i < n {
      RunIsIntact(x, s, acts[..n], i);
    }
  }

  lemma LastIsIntact(x: Setup, s: State, acts: seq<Act>)
    requires Good(x, s) && !Run(x, s, acts).0.incomplete && acts != []
    ensures Intact(acts[|acts| - 1]) && !Run(x, s, acts[..|acts| - 1]).0.incomplete
  {
    var n := |acts| - 1;
    var r := Run(x, s, acts[..n]);
    RunKeepsGood(x, s, acts[..n]);
    if !r.1 {
      RunIsExact(x, s, acts[..n]);
    }
    PerformIsExact(x, r.0, acts[n]);
  }

  // ---- Complete reports ----

  /** Everything that is not a directory, a symbolic link, a pipe, a device or a socket; missing
      and unknown type bits read as a file. */
  predicate RegularInZip(e: ZipEntry) {
    e.ZipEntry? && !e.isDir && (e.mode.None? || e.mode.value / 0x1000 % 0x10 !in {1, 2, 6, 0xA, 0xC})
  }

  predicate RegularInTar(e: TarEntry) {
    e.TarEntry? && e.kind == TarRegular
  }

  function ZipChildren(digest: Digest, es: seq<ZipEntry>): seq<Child> {
    if es == [] then []
    else
      var rest, e := ZipChildren(digest, es[..|es| - 1]), es[|es| - 1];
      if RegularInZip(e) then rest + [ChildOf(digest, e.name, Content(e.stream.chunks))] else rest
  }

  function TarChildren(digest: Digest, es: seq<TarEntry>): seq<Child> {
    if es == [] then []
    else
      var rest, e := TarChildren(digest, es[..|es| - 1]), es[|es| - 1];
      if RegularInTar(e) then rest + [ChildOf(digest, e.name, Content(e.stream.chunks))] else rest
  }

  function ChildrenOfTar(digest: Digest, t: TarFile): seq<Child> {
    if t.Tar? then TarChildren(digest, t.entries) else []
  }

  function Gunzipped(digest: Digest, sample: Sample): Child {
    ChildOf(digest, "gunzipped", Content(sample.inflated.chunks))
  }

  /** The regular files of the sample, read as the given container. */
  function ChildrenOf(digest: Digest, sample: Sample, box: Container): seq<Child> {
    match box
    case ZipBox => if sample.zip.Zip? then ZipChildren(digest, sample.zip.entries) else []
    case TarGzBox => ChildrenOfTar(digest, sample.inflatedTar)
    case TarBox => ChildrenOfTar(digest, sample.tar)
    case GzipBox => [Gunzipped(digest, sample)]
    case NoBox => []
  }

  /** The children the sample's container promises, caps and failures aside. */
  function PromisedBy(digest: Digest, sample: Sample): seq<Child> {
    ChildrenOf(digest, sample, Actual(sample))
  }

  lemma OneEntryPromises(digest: Digest, a: Act)
    ensures Promised(digest, [a]) == if a.Entry? then [ChildOf(digest, a.name, Content(a.stream.chunks))] else []
  {
    assert [a][..0] == [];
    assert Promised(digest, [a][..0]) == [];
  }

  lemma {:induction false} ZipPromises(digest: Digest, es: seq<ZipEntry>)
    ensures Promised(digest, ZipActs(es)) == ZipChildren(digest, es)
  {
    if es != [] {
      ZipPromises(digest, es[..|es| - 1]);
      assert ZipActs(es)[..|es| - 1] == ZipActs(es[..|es| - 1]);
    }
  }

  lemma {:induction false} TarPromises(digest: Digest, es: seq<TarEntry>)
    ensures Promised(digest, TarActs(es)) == TarChildren(digest, es)
  {
    if es != [] {
      TarPromises(digest, es[..|es| - 1]);
      assert TarActs(es)[..|es| - 1] == TarActs(es[..|es| - 1]);
    }
  }

  /** What the extractor acts on as files are the regular ones. */
  lemma RegularIsPromised(digest: Digest, sample: Sample, box: Container)
    ensures Promised(digest, ActsOf(sample, box)) == ChildrenOf(digest, sample, box)
  {
    match box
    case ZipBox => if sample.zip.Zip? { ZipPromises(digest, sample.zip.entries); }
    case TarGzBox => if sample.inflatedTar.Tar? { TarPromises(digest, sample.inflatedTar.entries); }
    case TarBox => if sample.tar.Tar? { TarPromises(digest, sample.tar.entries); }
    case GzipBox => OneEntryPromises(digest, Entry("gunzipped", sample.inflated, None));
    case NoBox =>
  }

  /** The first peek missed the magic of a container. */
  predicate HeadMissed(sample: Sample) {
    TakenFor(sample).NoBox? && !Actual(sample).NoBox?
  }

  /** The second peek missed the tar inside a gzip file. */
  predicate InnerMissed(sample: Sample) {
    TakenFor(sample).GzipBox? && Actual(sample).TarGzBox?
  }

  lemma PrefixShowsMagic(head: Bytes, n: nat)
    ensures var p := Peeked(head, n);
            && (|p| >= 2 ==> (HasGzipMagic(p) <==> HasGzipMagic(head)))
            && (|p| >= 4 ==> (HasZipMagic(p) <==> HasZipMagic(head)))
            && (|p| >= 262 ==> (HasTarMagic(p) <==> HasTarMagic(head)))
  {
    var p := Peeked(head, n);
    assert |p| >= 4 ==> p[2..4] == head[2..4];
    assert |p| >= 262 ==> p[257..262] == head[257..262];
  }

  /** A short peek hides a container or shows it; it never turns it into another, except that a
      tar.gz may look like a single member. */
  lemma PeekOnlyHides(sample: Sample)
    ensures TakenFor(sample) == Actual(sample) || HeadMissed(sample) || InnerMissed(sample)
  {
    PrefixShowsMagic(sample.head, sample.peek);
    PrefixShowsMagic(sample.inflatedHead, sample.inflatedPeek);
  }

  lemma WholeIsExact(x: Setup, box: Container, acts: seq<Act>)
    requires !Whole(x, box, acts).incomplete
    ensures Whole(x, box, acts).children == Promised(x.digest, acts)
  {
    BeginIsGood(x, box, acts);
    var s, some := Begin(x, box, acts), Considered(x, box, acts);
    assert s.children == [];
    assert !Run(x, s, some).0.incomplete;
    RunIsExact(x, s, some);
    assert !OverCap(x.caps, box, acts);
  }

  lemma MissedHeadIsComplete(x: Setup, sample: Sample)
    requires TakenFor(sample).NoBox?
    ensures Extracted(x, sample).children == [] && !Extracted(x, sample).incomplete
    ensures Extracted(x, sample).worst == UNKNOWN
  {
  }

  /** What a report that is not incomplete lists: the regular entries, in archive order, of what
      the extractor took the sample for, or nothing when that was a tar it could not open. */
  lemma CompleteListsTaken(x: Setup, sample: Sample)
    requires !Extracted(x, sample).incomplete
    ensures Extracted(x, sample).children ==
            if UnopenedTar(sample) then [] else ChildrenOf(x.digest, sample, TakenFor(sample))
  {
    RegularIsPromised(x.digest, sample, TakenFor(sample));
    if Ready(sample, TakenFor(sample)) {
      UnpackRuns(x, sample);
      WholeIsExact(x, TakenFor(sample), ActsOf(sample, TakenFor(sample)));
    } else {
      UnpackFails(x, sample);
    }
  }

  /** The three ways to be wrong in silence about what the archive readers yield: the first peek
      missed a container, or a plain tar could not be opened, and it holds a regular entry; or
      the second peek missed the tar in a gzip file, which then passes for the one file in it. */
  ghost predicate Misread(digest: Digest, sample: Sample) {
    || ((HeadMissed(sample) || UnopenedTar(sample)) && PromisedBy(digest, sample) != [])
    || (InnerMissed(sample) && PromisedBy(digest, sample) != [Gunzipped(digest, sample)])
  }

  lemma TakenIsPromisedExactly(digest: Digest, sample: Sample)
    requires !UnopenedTar(sample)
    ensures ChildrenOf(digest, sample, TakenFor(sample)) == PromisedBy(digest, sample) <==> !Misread(digest, sample)
  {
    PeekOnlyHides(sample);
  }

  /** A report that is not incomplete lists exactly the regular entries of the archive, in
      archive order, if and only if the archive was not misread. */
  lemma CompleteMeansExact(x: Setup, sample: Sample)
    requires !Extracted(x, sample).incomplete
    ensures Extracted(x, sample).children == PromisedBy(x.digest, sample) <==> !Misread(x.digest, sample)
  {
    CompleteListsTaken(x, sample);
    if !UnopenedTar(sample) {
      TakenIsPromisedExactly(x.digest, sample);
    }
  }

  lemma {:induction false} TarChildrenAreFiles(digest: Digest, es: seq<TarEntry>, c: Child)
    requires c in TarChildren(digest, es)
    ensures exists e :: e in es && RegularInTar(e) && c == ChildOf(digest, e.name, Content(e.stream.chunks))
  {
    var n := |es| - 1;
    if c in TarChildren(digest, es[..n]) {
      TarChildrenAreFiles(digest, es[..n], c);
    }
  }

  /** The entries of a tar are smaller than the tar, so a missed one is never listed. */
  lemma MissedInnerIsWrong(x: Setup, sample: Sample)
    requires !Extracted(x, sample).incomplete && InnerMissed(sample)
    requires sample.inflatedTar.Tar? ==>
               forall e :: e in sample.inflatedTar.entries && RegularInTar(e) ==>
                             |Content(e.stream.chunks)| < |Content(sample.inflated.chunks)|
    ensures Extracted(x, sample).children != PromisedBy(x.digest, sample)
  {
    CompleteMeansExact(x, sample);
    var c := Gunzipped(x.digest, sample);
    if PromisedBy(x.digest, sample) == [c] {
      TarChildrenAreFiles(x.digest, sample.inflatedTar.entries, c);
    }
  }

  // ---- The exceptions are real ----

  const NOTHING := Stream(true, [], true)

  function ZipOf(e: ZipEntry, size: nat, head: Bytes, peek: nat, openError: Option<string>): Sample {
    Sample(size, head, peek, openError, Zip([e]), BadTar(""), [], 0, BadTar(""), NOTHING)
  }

  /** A zip with one file whose first peek failed: the report is complete, empty and UNKNOWN. */
  lemma UnpeekedZipLooksComplete(digest: Digest)
    ensures var sample := ZipOf(ZipEntry("a", false, None, NOTHING), 200, [0x50, 0x4b, 3, 4], 0, None);
            var s := Extracted(Setup(DEFAULT_CAPS, digest), sample);
            && HeadMissed(sample) && !s.incomplete && s.children == [] && s.worst == UNKNOWN
            && PromisedBy(digest, sample) == [ChildOf(digest, "a", [])]
  {
    var sample := ZipOf(ZipEntry("a", false, None, NOTHING), 200, [0x50, 0x4b, 3, 4], 0, None);
    assert sample.head[2..4] == [3, 4];
    MissedHeadIsComplete(Setup(DEFAULT_CAPS, digest), sample);
    assert ZipChildren(digest, sample.zip.entries[..0]) == [];
  }

  const ONE_FILE_TAR := Tar([TarEntry("a", TarRegular, 0, NOTHING)])

  lemma OneFileTarPromises(digest: Digest)
    ensures ChildrenOfTar(digest, ONE_FILE_TAR) == [ChildOf(digest, "a", [])]
  {
    assert TarChildren(digest, ONE_FILE_TAR.entries[..0]) == [];
  }

  /** A tar with one file that cannot be opened: the report is complete and empty. */
  lemma UnopenedTarLooksComplete(digest: Digest, head: Bytes)
    requires |head| == 264 && HasTarMagic(head) && head[0] == 0x61
    ensures var sample := Sample(264, head, 264, Some("denied"), BadZip(""), ONE_FILE_TAR, [], 0, BadTar(""), NOTHING);
            var s := Extracted(Setup(DEFAULT_CAPS, digest), sample);
            && UnopenedTar(sample) && !s.incomplete && s.children == []
            && PromisedBy(digest, sample) == [ChildOf(digest, "a", [])]
  {
    OneFileTarPromises(digest);
  }

  lemma OneChunkIsKept(x: Setup, s: State, name: string, bytes: Bytes)
    requires s.seen == {} && 0 < |bytes| <= x.caps.maxEntry && s.total + |bytes| <= x.caps.maxTotal
    requires |s.children| < x.caps.maxChildren && !LooksLikeTraversal(name)
    ensures var t := Take(x, s, name, Stream(true, [Got(bytes, true)], true), None).0;
            && t.children == s.children + [ChildOf(x.digest, name, bytes)] && t.incomplete == s.incomplete
            && t.total == s.total + |bytes|
  {
    var r := Stream(true, [Got(bytes, true)], true);
    CopyIsExact(x.caps, s.total, [], r.chunks);
    assert r.chunks[1..] == [] && Content(r.chunks) == bytes;
    assert [] + bytes == bytes;
    assert Copy(x.caps, s.total, r) == Copied(bytes);
  }

  function UnpeekedTarGz(inner: Bytes): Sample {
    Sample(100, [0x1f, 0x8b], 2, None, BadZip(""), BadTar(""), inner, 0, ONE_FILE_TAR,
           Stream(true, [Got(inner, true)], true))
  }

  lemma UnpeekedTarIsMember(x: Setup, inner: Bytes)
    requires x.caps == DEFAULT_CAPS && |inner| == 512
    ensures var s := Extracted(x, UnpeekedTarGz(inner));
            !s.incomplete && s.children == [ChildOf(x.digest, "gunzipped", inner)]
  {
    var sample, begun := UnpeekedTarGz(inner), Note(FRESH, Archive("gzip"), UNKNOWN);
    OneChunkIsKept(x, begun, "gunzipped", inner);
    assert Unpack(x, sample) == Take(x, begun, "gunzipped", Stream(true, [Got(inner, true)], true), None).0;
  }

  /** A gzipped tar with one file whose second peek failed: the report is complete and lists
      the tar itself. */
  lemma UnpeekedTarLooksLikeMember(digest: Digest, inner: Bytes)
    requires HasTarMagic(inner) && |inner| == 512
    ensures var sample, s := UnpeekedTarGz(inner), Extracted(Setup(DEFAULT_CAPS, digest), UnpeekedTarGz(inner));
            && InnerMissed(sample) && !s.incomplete && s.children == [ChildOf(digest, "gunzipped", inner)]
            && PromisedBy(digest, sample) == [ChildOf(digest, "a", [])]
  {
    UnpeekedTarIsMember(Setup(DEFAULT_CAPS, digest), inner);
    OneFileTarPromises(digest);
  }

  // ---- Where the children come from ----

  /** The contents of the entries, as the archive holds them. */
  ghost function Contents(acts: seq<Act>): set<Bytes> {
    set a | a in acts && a.Entry? :: Content(a.stream.chunks)
  }

  ghost predicate NamedBy(digest: Digest, known: set<Bytes>, c: Child) {
    exists b :: b in known && digest(b) == c.sha && |b| == c.size
  }

  /** Everything staged, and everything a child stands for, is one of the known contents. */
  ghost predicate Sourced(digest: Digest, known: set<Bytes>, s: State) {
    && (forall sha :: sha in s.staged ==> s.staged[sha] in known)
    && (forall c :: c in s.children ==> NamedBy(digest, known, c))
  }

  lemma {:induction false} CopyHoldsContent(caps: Caps, total: nat, content: Bytes, chunks: seq<Chunk>)
    requires CopyFrom(caps, total, content, chunks).Copied?
    ensures CopyFrom(caps, total, content, chunks).content == content + Content(chunks)
    decreases |chunks|
  {
    if AtEnd(chunks) {
      assert content + Content(chunks) == content;
    } else {
      var more := content + chunks[0].bytes;
      assert content + Content(chunks) == more + Content(chunks[1..]);
      CopyHoldsContent(caps, total, more, chunks[1..]);
    }
  }

  lemma ChildIsSourced(digest: Digest, known: set<Bytes>, cs: seq<Child>, raw: string, content: Bytes)
    requires content in known && forall c :: c in cs ==> NamedBy(digest, known, c)
    ensures forall c :: c in cs + [ChildOf(digest, raw, content)] ==> NamedBy(digest, known, c)
  {
    assert NamedBy(digest, known, ChildOf(digest, raw, content));
  }

  lemma StageIsSourced(digest: Digest, known: set<Bytes>, s: State, raw: string, content: Bytes, renamed: bool)
    requires Sourced(digest, known, s) && content in known
    ensures Sourced(digest, known, Stage(digest, s, raw, content, renamed))
  {
    if digest(content) in s.seen || renamed {
      ChildIsSourced(digest, known, s.children, raw, content);
      assert Stage(digest, s, raw, content, renamed).children == s.children + [ChildOf(digest, raw, content)];
    }
  }

  lemma KeepIsSourced(digest: Digest, known: set<Bytes>, s: State, raw: string, content: Bytes, r: Stream,
                      declared: Option<nat>)
    requires Sourced(digest, known, s) && content in known
    ensures Sourced(digest, known, Keep(digest, s, raw, content, r, declared))
  {
    var t := CheckSize(Spend(s, |content|), raw, |content|, declared);
    assert t.children == s.children && t.staged == s.staged;
    StageIsSourced(digest, known, t, raw, content, r.renamed);
  }

  lemma SettleIsSourced(digest: Digest, known: set<Bytes>, s: State, raw: string, copied: CopyResult, r: Stream,
                        declared: Option<nat>)
    requires Sourced(digest, known, s) && (copied.Copied? ==> copied.content in known)
    ensures Sourced(digest, known, Settle(digest, s, raw, copied, r, declared))
  {
    if copied.Copied? {
      KeepIsSourced(digest, known, s, raw, copied.content, r, declared);
    }
  }

  lemma TakeIsSourced(x: Setup, known: set<Bytes>, s: State, raw: string, r: Stream, declared: Option<nat>)
    requires Sourced(x.digest, known, s) && Content(r.chunks) in known
    ensures Sourced(x.digest, known, Take(x, s, raw, r, declared).0)
  {
    var t := Traversal(s, raw);
    var copied := Copy(x.caps, t.total, r);
    assert t.children == s.children && t.staged == s.staged;
    if copied.Copied? {
      CopyHoldsContent(x.caps, t.total, [], r.chunks);
      assert [] + Content(r.chunks) == Content(r.chunks);
    }
    SettleIsSourced(x.digest, known, t, raw, copied, r, declared);
  }

  lemma {:induction false} RunIsSourced(x: Setup, known: set<Bytes>, s: State, acts: seq<Act>)
    requires Sourced(x.digest, known, s) && forall a :: a in acts && a.Entry? ==> Content(a.stream.chunks) in known
    ensures Sourced(x.digest, known, Run(x, s, acts).0)
  {
    if acts != [] {
      var n := |acts| - 1;
      RunIsSourced(x, known, s, acts[..n]);
      var r, a := Run(x, s, acts[..n]), acts[n];
      assert a in acts;
      if r.1 && a.Entry? {
        TakeIsSourced(x, known, r.0, a.name, a.stream, a.declared);
      }
    }
  }

  /** Whatever goes wrong, the extractor invents nothing: what it stages and reports are
      contents of entries of the container it took the sample for. */
  lemma ExtractionIsSourced(x: Setup, sample: Sample)
    ensures Sourced(x.digest, Contents(ActsOf(sample, TakenFor(sample))), Extracted(x, sample))
  {
    var box := TakenFor(sample);
    var acts := ActsOf(sample, box);
    if Ready(sample, box) {
      UnpackRuns(x, sample);
      assert Begin(x, box, acts).children == [] && Begin(x, box, acts).staged == map[];
      RunIsSourced(x, Contents(acts), Begin(x, box, acts), Considered(x, box, acts));
    } else {
      UnpackFails(x, sample);
    }
  }

  // ---- The floor ----

  /** What the pipeline wants of an incomplete report. */
  predicate Floored(s: State) {
    s.incomplete ==> s.worst >= SUSPICIOUS
  }

  /** An entry that adds no remark, after the ones in `done`: it is no link, its name is plain,
      it is whole, and no cap stops it. */
  ghost predicate Quiet(x: Setup, done: seq<Act>, a: Act) {
    match a
    case Skip => true
    case Lost => true
    case Flag(_) => false
    case Entry(name, r, declared) =>
      var before, content := Promised(x.digest, done), Content(r.chunks);
      && !LooksLikeTraversal(name) && Intact(a)
      && |before| < x.caps.maxChildren
      && |content| <= x.caps.maxEntry && SumSizes(before) + |content| <= x.caps.maxTotal
      && (r.renamed || HasChild(before, x.digest(content)))
  }

  ghost predicate AllQuiet(x: Setup, acts: seq<Act>) {
    forall i :: 0 <= i < |acts| ==> Quiet(x, acts[..i], acts[i])
  }

  /** The state after a run in which nothing was remarked. */
  ghost predicate Silent(x: Setup, s: State, done: seq<Act>) {
    && Good(x, s) && s.worst == UNKNOWN
    && s.children == Promised(x.digest, done) && s.total == SumSizes(s.children)
    && (s.incomplete <==> Lost in done)
  }

  lemma QuietEntryIsKept(x: Setup, s: State, done: seq<Act>, a: Act)
    requires Silent(x, s, done) && a.Entry? && Quiet(x, done, a)
    ensures var c := ChildOf(x.digest, a.name, Content(a.stream.chunks));
            var (t, more) := Take(x, s, a.name, a.stream, a.declared);
            && more && t.worst == s.worst && t.incomplete == s.incomplete
            && t.children == s.children + [c] && t.total == s.total + c.size
  {
    CopyIsExact(x.caps, s.total, [], a.stream.chunks);
    assert [] + Content(a.stream.chunks) == Content(a.stream.chunks);
    assert Copy(x.caps, s.total, a.stream) == Copied(Content(a.stream.chunks));
    assert HasChild(s.children, x.digest(Content(a.stream.chunks))) ==> x.digest(Content(a.stream.chunks)) in s.seen;
  }

  lemma SettleKeepsWorst(digest: Digest, s: State, raw: string, copied: CopyResult, r: Stream, declared: Option<nat>)
    ensures Settle(digest, s, raw, copied, r, declared).worst >= s.worst
  {
    if copied.Copied? {
      var t := CheckSize(Spend(s, |copied.content|), raw, |copied.content|, declared);
      assert t.worst >= s.worst;
    }
  }

  lemma TakeKeepsWorst(x: Setup, s: State, raw: string, r: Stream, declared: Option<nat>)
    ensures Take(x, s, raw, r, declared).0.worst >= s.worst
  {
    var t := Traversal(s, raw);
    assert t.worst >= s.worst;
    SettleKeepsWorst(x.digest, t, raw, Copy(x.caps, t.total, r), r, declared);
  }

  lemma LoudSettleIsNoted(digest: Digest, s: State, raw: string, copied: CopyResult, r: Stream, declared: Option<nat>)
    requires || !copied.Copied? || (declared.Some? && declared.value != |copied.content|)
             || (!r.renamed && digest(copied.content) !in s.seen)
    ensures Settle(digest, s, raw, copied, r, declared).worst >= SUSPICIOUS
  {
    if copied.Copied? {
      var t := CheckSize(Spend(s, |copied.content|), raw, |copied.content|, declared);
      assert t.seen == s.seen;
    }
  }

  lemma SeenIsReported(x: Setup, s: State, sha: string)
    requires Good(x, s)
    ensures sha in s.seen <==> HasChild(s.children, sha)
  {
  }

  lemma LoudEntryIsNoted(x: Setup, s: State, done: seq<Act>, a: Act)
    requires Silent(x, s, done) && a.Entry? && !Quiet(x, done, a)
    ensures Take(x, s, a.name, a.stream, a.declared).0.worst >= SUSPICIOUS
  {
    var t := Traversal(s, a.name);
    var copied := Copy(x.caps, s.total, a.stream);
    assert t.total == s.total && t.seen == s.seen;
    if |s.children| < x.caps.maxChildren {
      if LooksLikeTraversal(a.name) {
        SettleKeepsWorst(x.digest, t, a.name, copied, a.stream, a.declared);
      } else {
        CopyIsExact(x.caps, s.total, [], a.stream.chunks);
        assert [] + Content(a.stream.chunks) == Content(a.stream.chunks);
        SeenIsReported(x, s, x.digest(Content(a.stream.chunks)));
        LoudSettleIsNoted(x.digest, t, a.name, copied, a.stream, a.declared);
      }
    }
  }

  lemma LostInMore(done: seq<Act>, a: Act)
    ensures Lost in done + [a] <==> Lost in done || a == Lost
  {
  }

  lemma QuietStepStaysSilent(x: Setup, s: State, done: seq<Act>, a: Act)
    requires Silent(x, s, done) && Quiet(x, done, a)
    ensures Perform(x, s, a).1 && Silent(x, Perform(x, s, a).0, done + [a])
  {
    assert (done + [a])[..|done|] == done;
    LostInMore(done, a);
    if a.Entry? {
      QuietEntryIsKept(x, s, done, a);
      TakeKeepsGood(x, s, a.name, a.stream, a.declared);
      SumOneMore(s.children, ChildOf(x.digest, a.name, Content(a.stream.chunks)));
    }
  }

  lemma LoudStepIsNoted(x: Setup, s: State, done: seq<Act>, a: Act)
    requires Silent(x, s, done) && !Quiet(x, done, a)
    ensures Perform(x, s, a).0.worst >= SUSPICIOUS
  {
    if a.Entry? {
      LoudEntryIsNoted(x, s, done, a);
    }
  }

  lemma {:induction false} RunKeepsWorst(x: Setup, s: State, acts: seq<Act>)
    ensures Run(x, s, acts).0.worst >= s.worst
  {
    if acts != [] {
      var n := |acts| - 1;
      RunKeepsWorst(x, s, acts[..n]);
      var r, a := Run(x, s, acts[..n]), acts[n];
      if r.1 && a.Entry? {
        TakeKeepsWorst(x, r.0, a.name, a.stream, a.declared);
      }
    }
  }

  lemma QuietPrefix(x: Setup, acts: seq<Act>)
    requires acts != []
    ensures var n := |acts| - 1;
            AllQuiet(x, acts) <==> AllQuiet(x, acts[..n]) && Quiet(x, acts[..n], acts[n])
  {
    var n := |acts| - 1;
    forall i | 0 <= i < n
      ensures acts[..n][..i] == acts[..i]
    {
    }
  }

  /** A run is silent exactly when every entry is quiet; otherwise something was noted. */
  lemma {:induction false} RunIsSilentExactly(x: Setup, s: State, acts: seq<Act>)
    requires Silent(x, s, [])
    ensures AllQuiet(x, acts) ==> Run(x, s, acts).1 && Silent(x, Run(x, s, acts).0, acts)
    ensures !AllQuiet(x, acts) ==> Run(x, s, acts).0.worst >= SUSPICIOUS
  {
    if acts != [] {
      var n := |acts| - 1;
      var r := Run(x, s, acts[..n]);
      assert acts == acts[..n] + [acts[n]];
      QuietPrefix(x, acts);
      RunIsSilentExactly(x, s, acts[..n]);
      if !AllQuiet(x, acts[..n]) {
        if r.1 {
          RunKeepsWorst(x, r.0, [acts[n]]);
          OneActRuns(x, r.0, acts[n]);
        }
      } else if Quiet(x, acts[..n], acts[n]) {
        QuietStepStaysSilent(x, r.0, acts[..n], acts[n]);
      } else {
        LoudStepIsNoted(x, r.0, acts[..n], acts[n]);
      }
    }
  }

  lemma BeginIsSilent(x: Setup, box: Container, acts: seq<Act>)
    requires !(box.ZipBox? && OverCap(x.caps, box, acts))
    ensures Silent(x, Begin(x, box, acts), [])
  {
    BeginIsGood(x, box, acts);
  }

  lemma GapIsNoted(s: State, r: Remark)
    ensures Gap(s, r).worst >= SUSPICIOUS
  {
  }

  lemma FinishKeepsWorst(x: Setup, box: Container, acts: seq<Act>, r: (State, bool))
    ensures Finish(x, box, acts, r).worst >= r.0.worst
    ensures OverCap(x.caps, box, acts) && !box.ZipBox? && r.1 ==> Finish(x, box, acts, r).worst >= SUSPICIOUS
  {
    GapIsNoted(r.0, EntryCountCap("tar"));
  }

  /** A container with more entries than the cap is always noted. */
  lemma OverCapIsNoted(x: Setup, box: Container, acts: seq<Act>)
    requires OverCap(x.caps, box, acts)
    ensures Whole(x, box, acts).worst >= SUSPICIOUS
  {
    var s, some := Begin(x, box, acts), Considered(x, box, acts);
    FinishKeepsWorst(x, box, acts, Run(x, s, some));
    if box.ZipBox? {
      GapIsNoted(Note(FRESH, Archive("zip"), UNKNOWN), EntryCountCap("zip"));
      RunKeepsWorst(x, s, some);
    } else {
      BeginIsSilent(x, box, acts);
      RunIsSilentExactly(x, s, some);
    }
  }

  lemma WholeIsSilentExactly(x: Setup, box: Container, acts: seq<Act>)
    ensures !OverCap(x.caps, box, acts) && AllQuiet(x, acts) ==> Silent(x, Whole(x, box, acts), acts)
    ensures !(!OverCap(x.caps, box, acts) && AllQuiet(x, acts)) ==> Whole(x, box, acts).worst >= SUSPICIOUS
  {
    if OverCap(x.caps, box, acts) {
      OverCapIsNoted(x, box, acts);
    } else {
      BeginIsSilent(x, box, acts);
      RunIsSilentExactly(x, Begin(x, box, acts), acts);
    }
  }

  /** An entry's header was unreadable, and nothing else about the archive is remarkable. */
  ghost predicate SilentGap(x: Setup, sample: Sample) {
    var box := TakenFor(sample);
    var acts := ActsOf(sample, box);
    && Ready(sample, box) && !OverCap(x.caps, box, acts)
    && Lost in acts && AllQuiet(x, acts)
    && !IsBombRatio(x.caps, sample, SumSizes(Promised(x.digest, acts)))
  }

  /** An incomplete report says at least SUSPICIOUS, with exactly one exception: a gap left by an
      unreadable header is marked without being noted, and the orchestrator adds the floor. */
  lemma IncompleteIsFlooredExactly(x: Setup, sample: Sample)
    ensures Floored(Extracted(x, sample)) <==> !SilentGap(x, sample)
  {
    var box := TakenFor(sample);
    var acts := ActsOf(sample, box);
    if Ready(sample, box) {
      UnpackRuns(x, sample);
      WholeIsSilentExactly(x, box, acts);
    } else {
      UnpackFails(x, sample);
    }
  }

  /** Such a sample: a zip whose only entry cannot be read is incomplete and still UNKNOWN. */
  lemma UnreadableEntryIsNotFloored(digest: Digest)
    ensures var x, sample := Setup(DEFAULT_CAPS, digest), ZipOf(ZipUnreadable, 22, [0x50, 0x4b, 3, 4], 4, None);
            SilentGap(x, sample) && Extracted(x, sample).incomplete && Extracted(x, sample).worst == UNKNOWN
  {
    var x, sample := Setup(DEFAULT_CAPS, digest), ZipOf(ZipUnreadable, 22, [0x50, 0x4b, 3, 4], 4, None);
    assert sample.head[2..4] == [3, 4];
    assert ActsOf(sample, ZipBox) == [Lost];
    OneEntryPromises(digest, Lost);
    UnpackRuns(x, sample);
    WholeIsSilentExactly(x, ZipBox, [Lost]);
  }
}
