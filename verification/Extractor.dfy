/** The archive extractor (services/mal-extract/src/main.rs): one level of one container,
    streamed under caps. Archive parsers, the input file and the output disk are data: what
    opening, reading, writing and renaming yields. */
module ArchiveExtractor {
  import opened Pipeline
  import opened Text

  type Byte = b: int | 0 <= b < 256 witness 0
  type Bytes = seq<Byte>
  type Digest = Bytes -> string

  datatype Caps = Caps(maxTotal: nat, maxEntry: nat, maxEntries: nat, maxChildren: nat, ratioFlag: nat)

  const DEFAULT_CAPS := Caps(0x1000_0000, 0x400_0000, 10_000, 1_000, 100)
  const MAX_DETAIL_FINDINGS: nat := 999
  const ENGINE := "mal-extract"

  datatype Setup = Setup(caps: Caps, digest: Digest)

  // ---- What the archive and the disk do ----

  /** One read: bytes, with the outcome of writing them to the partial file, or an error. */
  datatype Chunk = Got(bytes: Bytes, written: bool) | Broken

  /** The content of one entry, and the outcome of creating and of renaming its file. */
  datatype Stream = Stream(created: bool, chunks: seq<Chunk>, renamed: bool)

  datatype ZipEntry = ZipUnreadable | ZipEntry(name: string, isDir: bool, mode: Option<nat>, stream: Stream)
  datatype ZipFile = BadZip(error: string) | Zip(entries: seq<ZipEntry>)

  datatype TarType = TarDir | TarSymlink | TarHardLink | TarRegular | TarOther
  datatype TarEntry = TarUnreadable | TarEntry(name: string, kind: TarType, size: nat, stream: Stream)
  datatype TarFile = BadTar(error: string) | Tar(entries: seq<TarEntry>)

  /** `head` are the file's first bytes, of which the first look at it gets `peek`: opening or
      reading may fail. `inflatedHead` and `inflatedPeek` say the same of the bytes a gzip
      file inflates to. `openError` is the error of opening the file for extraction, if any. */
  datatype Sample = Sample(
    size: nat,
    head: Bytes,
    peek: nat,
    openError: Option<string>,
    zip: ZipFile,
    tar: TarFile,
    inflatedHead: Bytes,
    inflatedPeek: nat,
    inflatedTar: TarFile,
    inflated: Stream)

  function Peeked(head: Bytes, n: nat): Bytes {
    if n < |head| then head[..n] else head
  }

  // ---- Text ----

  predicate IsBidiControl(c: char) {
    var n := c as int;
    n == 0x61c || n == 0x200e || n == 0x200f || 0x202a <= n <= 0x202e || 0x2066 <= n <= 0x2069
  }

  function Utf8Length(c: char): nat {
    var n := c as int;
    if n < 0x80 then 1 else if n < 0x800 then 2 else if n < 0x1_0000 then 3 else 4
  }

  function ByteLength(s: string): nat {
    if s == [] then 0 else ByteLength(s[..|s| - 1]) + Utf8Length(s[|s| - 1])
  }

  const MAX_TEXT_BYTES: nat := 256

  function Neutral(c: char): char {
    if IsControl(c) || IsBidiControl(c) then '.' else c
  }

  function SanitizeFrom(done: string, s: string): string
    decreases |s|
  {
    if s == [] || ByteLength(done) + Utf8Length(Neutral(s[0])) > MAX_TEXT_BYTES then done
    else SanitizeFrom(done + [Neutral(s[0])], s[1..])
  }

  function Sanitize(s: string): string {
    SanitizeFrom("", s)
  }

  predicate Displayable(s: string) {
    ByteLength(s) <= MAX_TEXT_BYTES && forall c :: c in s ==> !IsControl(c) && !IsBidiControl(c)
  }

  lemma {:induction false} SanitizeFromIsDisplayable(done: string, s: string)
    requires Displayable(done)
    ensures Displayable(SanitizeFrom(done, s)) && done <= SanitizeFrom(done, s)
    decreases |s|
  {
    if s != [] && ByteLength(done) + Utf8Length(Neutral(s[0])) <= MAX_TEXT_BYTES {
      var more := done + [Neutral(s[0])];
      assert more[..|more| - 1] == done;
      SanitizeFromIsDisplayable(more, s[1..]);
    }
  }

  lemma {:induction false} CleanTextIsKept(done: string, s: string)
    requires Displayable(done + s)
    ensures SanitizeFrom(done, s) == done + s
    decreases |s|
  {
    if s == [] {
      assert done + s == done;
    } else {
      var more := done + [s[0]];
      assert done + s == more + s[1..];
      assert s[0] in done + s;
      ByteLengthConcat(more, s[1..]);
      assert more[..|more| - 1] == done;
      CleanTextIsKept(more, s[1..]);
    }
  }

  lemma {:induction false} ByteLengthConcat(a: string, b: string)
    ensures ByteLength(a + b) == ByteLength(a) + ByteLength(b)
    decreases |b|
  {
    if b == [] {
      assert a + b == a;
    } else {
      assert (a + b)[..|a + b| - 1] == a + b[..|b| - 1];
      ByteLengthConcat(a, b[..|b| - 1]);
    }
  }

  /** Whatever an archive calls its entries, the manifest shows at most 256 bytes of text
      without control or bidi characters; text that is already like that is unchanged, so
      sanitising twice changes nothing more. */
  lemma SanitizedIsDisplayable(s: string)
    ensures Displayable(Sanitize(s))
    ensures Displayable(s) <==> Sanitize(s) == s
    ensures Sanitize(Sanitize(s)) == Sanitize(s)
  {
    SanitizeFromIsDisplayable("", s);
    var t := Sanitize(s);
    assert "" + t == t;
    CleanTextIsKept("", t);
    if Displayable(s) {
      assert "" + s == s;
      CleanTextIsKept("", s);
    }
  }

  function Decimal(n: nat): string {
    if n < 10 then ["0123456789"[n]] else Decimal(n / 10) + ["0123456789"[n % 10]]
  }

  predicate ContainsDots(s: string) {
    exists i :: 0 <= i < |s| - 1 && s[i] == '.' && s[i + 1] == '.'
  }

  predicate LooksLikeTraversal(raw: string) {
    ContainsDots(raw) || (raw != "" && (raw[0] == '/' || raw[0] == '\\')) || (|raw| > 1 && raw[1] == ':')
  }

  // ---- The extractor as a function of its state ----

  /** What the extractor has to say; the words are put in when the report is written. */
  datatype Remark =
    | Archive(format: string)
    | NotAnArchive
    | OpenFailed(error: string)
    | BadArchive(format: string, error: string)
    | EntryCountCap(format: string)
    | ChildCountCap
    | TraversalName(name: string)
    | Truncated(name: string, declared: nat, got: nat)
    | StageFailed
    | TooLarge(name: string)
    | Unreadable(name: string)
    | Bomb
    | SkippedSymlink(name: string)
    | SkippedLink(name: string)
    | SkippedSpecial(name: string)
    | HighRatio
    | FindingsCap

  function KindOf(r: Remark): string {
    match r
    case Archive(_) => "archive"
    case NotAnArchive => "not-an-archive"
    case OpenFailed(_) => "extraction-error"
    case BadArchive(_, _) => "extraction-error"
    case EntryCountCap(_) => "entry-count-cap"
    case ChildCountCap => "extraction-cap-hit"
    case TraversalName(_) => "path-traversal-name"
    case Truncated(_, _, _) => "entry-truncated"
    case StageFailed => "extraction-error"
    case TooLarge(_) => "entry-too-large"
    case Unreadable(_) => "entry-unreadable"
    case Bomb => "decompression-bomb"
    case SkippedSymlink(_) => "skipped-symlink"
    case SkippedLink(_) => "skipped-link"
    case SkippedSpecial(_) => "skipped-special"
    case HighRatio => "high-compression-ratio"
    case FindingsCap => "findings-cap-hit"
  }

  function TextOf(r: Remark): string {
    match r
    case Archive(format) => format
    case NotAnArchive => "no supported container format detected"
    case OpenFailed(error) => "open: " + error
    case BadArchive(format, error) => "bad " + format + ": " + error
    case EntryCountCap(format) => format + " has more entries than the cap"
    case ChildCountCap => "child count cap reached; remaining entries not extracted"
    case TraversalName(name) => "entry name '" + name + "' attempts path traversal (neutralized)"
    case Truncated(name, declared, got) =>
      "entry '" + name + "' declared " + Decimal(declared) + " bytes but yielded " + Decimal(got)
    case StageFailed => "could not stage a child"
    case TooLarge(name) => "entry '" + name + "' exceeds the per-entry cap; skipped"
    case Unreadable(name) =>
      "entry '" + name + "' could not be read or staged (corrupt, truncated, or a failed write); skipped"
    case Bomb => "total extraction size cap reached; likely a decompression bomb"
    case SkippedSymlink(name) => "symlink entry '" + name + "' skipped"
    case SkippedLink(name) => "link entry '" + name + "' skipped"
    case SkippedSpecial(name) => "non-regular entry '" + name + "' skipped"
    case HighRatio => "decompressed size dwarfs the input; likely a decompression bomb"
    case FindingsCap => "finding count cap reached; further indicators suppressed"
  }

  datatype Noted = Noted(remark: Remark, verdict: Verdict)

  function Printed(n: Noted): RawFinding {
    RawFinding(ENGINE, KindOf(n.remark), Sanitize(TextOf(n.remark)), "", Wire(n.verdict))
  }

  /** `noted` remembers every verdict ever passed to `Note`; the code keeps no such list. */
  datatype State = State(
    total: nat,
    seen: set<string>,
    staged: map<string, Bytes>,
    children: seq<Child>,
    findings: seq<Noted>,
    capped: bool,
    incomplete: bool,
    worst: Verdict,
    noted: seq<Verdict>)

  const FRESH := State(0, {}, map[], [], [], false, false, UNKNOWN, [])

  const CAP_MARKER := Noted(FindingsCap, SUSPICIOUS)

  function PrintedAll(ns: seq<Noted>): (fs: seq<RawFinding>)
    ensures |fs| == |ns| && forall i :: 0 <= i < |ns| ==> fs[i] == Printed(ns[i])
  {
    seq(|ns|, i requires 0 <= i < |ns| => Printed(ns[i]))
  }

  function Note(s: State, r: Remark, v: Verdict): State {
    var s := s.(noted := s.noted + [v], worst := if v > s.worst then v else s.worst);
    if |s.findings| < MAX_DETAIL_FINDINGS then s.(findings := s.findings + [Noted(r, v)])
    else if !s.capped then
      s.(capped := true, incomplete := true,
         worst := if SUSPICIOUS > s.worst then SUSPICIOUS else s.worst,
         findings := s.findings + [CAP_MARKER])
    else s
  }

  function Gap(s: State, r: Remark): State {
    Note(s.(incomplete := true), r, SUSPICIOUS)
  }

  datatype CopyResult = Copied(content: Bytes) | EntryHit | TotalHit | IoHit

  predicate AtEnd(chunks: seq<Chunk>) {
    chunks == [] || (chunks[0].Got? && chunks[0].bytes == [])
  }

  function CopyFrom(caps: Caps, total: nat, content: Bytes, chunks: seq<Chunk>): CopyResult
    decreases |chunks|
  {
    if AtEnd(chunks) then Copied(content)
    else if chunks[0].Broken? then IoHit
    else
      var more := content + chunks[0].bytes;
      if |more| > caps.maxEntry then EntryHit
      else if total + |more| > caps.maxTotal then TotalHit
      else if !chunks[0].written then IoHit
      else CopyFrom(caps, total, more, chunks[1..])
  }

  function Copy(caps: Caps, total: nat, r: Stream): CopyResult {
    if !r.created then IoHit else CopyFrom(caps, total, [], r.chunks)
  }

  function Traversal(s: State, raw: string): State {
    if LooksLikeTraversal(raw)
    then Note(s, TraversalName(raw), SUSPICIOUS)
    else s
  }

  function Stage(digest: Digest, s: State, raw: string, content: Bytes, renamed: bool): State {
    var sha := digest(content);
    if sha !in s.seen && !renamed then Gap(s, StageFailed)
    else
      s.(seen := s.seen + {sha},
         staged := if sha in s.seen then s.staged else s.staged[sha := content],
         children := s.children + [Child(sha, |content|, Sanitize(raw))])
  }

  /** A size the header promised and the content did not have. */
  function CheckSize(s: State, raw: string, got: nat, declared: Option<nat>): State {
    if declared.Some? && declared.value != got
    then Gap(s, Truncated(raw, declared.value, got))
    else s
  }

  function Spend(s: State, n: nat): State {
    s.(total := s.total + n)
  }

  function Keep(digest: Digest, s: State, raw: string, content: Bytes, r: Stream, declared: Option<nat>): State {
    Stage(digest, CheckSize(Spend(s, |content|), raw, |content|, declared), raw, content, r.renamed)
  }

  function Settle(digest: Digest, s: State, raw: string, copied: CopyResult, r: Stream, declared: Option<nat>): State {
    match copied
    case Copied(content) => Keep(digest, s, raw, content, r, declared)
    case EntryHit => Gap(s, TooLarge(raw))
    case IoHit => Gap(s, Unreadable(raw))
    case TotalHit => Gap(s, Bomb)
  }

  /** One regular-file entry; the second component says whether extraction goes on. */
  function Take(x: Setup, s: State, raw: string, r: Stream, declared: Option<nat>): (State, bool) {
    if |s.children| >= x.caps.maxChildren then
      (Gap(s, ChildCountCap), false)
    else
      var s := Traversal(s, raw);
      var copied := Copy(x.caps, s.total, r);
      (Settle(x.digest, s, raw, copied, r, declared), !copied.TotalHit?)
  }

  /** How an entry is treated, once its type is known. */
  datatype Act = Skip | Lost | Flag(remark: Remark) | Entry(name: string, stream: Stream, declared: Option<nat>)

  datatype ZipKind = ZipRegular | ZipSymlink | ZipSpecial

  /** The file-type bits of the unix mode; missing or unknown bits read as a regular file. */
  function KindOfZip(mode: Option<nat>): ZipKind {
    if mode.None? then ZipRegular
    else
      var bits := (mode.value / 0x1000) % 0x10;
      if bits == 0xA then ZipSymlink
      else if bits in {1, 2, 6, 0xC} then ZipSpecial
      else ZipRegular
  }

  function ZipAct(e: ZipEntry): Act {
    if e.ZipUnreadable? then Lost
    else if e.isDir then Skip
    else match KindOfZip(e.mode)
      case ZipSymlink => Flag(SkippedSymlink(e.name))
      case ZipSpecial => Flag(SkippedSpecial(e.name))
      case ZipRegular => Entry(e.name, e.stream, None)
  }

  function TarAct(e: TarEntry): Act {
    if e.TarUnreadable? then Lost
    else match e.kind
      case TarDir => Skip
      case TarSymlink => Flag(SkippedLink(e.name))
      case TarHardLink => Flag(SkippedLink(e.name))
      case TarOther => Flag(SkippedSpecial(e.name))
      case TarRegular => Entry(e.name, e.stream, Some(e.size))
  }

  function ZipActs(es: seq<ZipEntry>): seq<Act> {
    seq(|es|, i requires 0 <= i < |es| => ZipAct(es[i]))
  }

  function TarActs(es: seq<TarEntry>): seq<Act> {
    seq(|es|, i requires 0 <= i < |es| => TarAct(es[i]))
  }

  function Perform(x: Setup, s: State, a: Act): (State, bool) {
    match a
    case Skip => (s, true)
    case Lost => (s.(incomplete := true), true)
    case Flag(remark) => (Note(s, remark, SUSPICIOUS), true)
    case Entry(name, stream, declared) => Take(x, s, name, stream, declared)
  }

  function Run(x: Setup, s: State, acts: seq<Act>): (State, bool) {
    if acts == [] then (s, true)
    else
      var n := |acts| - 1;
      var r := Run(x, s, acts[..n]);
      if r.1 then Perform(x, r.0, acts[n]) else r
  }

  function Capped<T>(cap: nat, es: seq<T>): seq<T> {
    if |es| > cap then es[..cap] else es
  }

  function Unzip(x: Setup, s: State, openError: Option<string>, z: ZipFile): State {
    if openError.Some? then Gap(s, OpenFailed(openError.value))
    else match z
      case BadZip(error) => Gap(s, BadArchive("zip", error))
      case Zip(entries) =>
        var s := Note(s, Archive("zip"), UNKNOWN);
        var s := if |entries| > x.caps.maxEntries
                 then Gap(s, EntryCountCap("zip")) else s;
        Run(x, s, ZipActs(Capped(x.caps.maxEntries, entries))).0
  }

  function Untar(x: Setup, s: State, t: TarFile): State {
    match t
    case BadTar(error) => Gap(s, BadArchive("tar", error))
    case Tar(entries) =>
      var s := Note(s, Archive("tar"), UNKNOWN);
      var r := Run(x, s, TarActs(Capped(x.caps.maxEntries, entries)));
      if r.1 && |entries| > x.caps.maxEntries
      then Gap(r.0, EntryCountCap("tar")) else r.0
  }

  predicate HasTarMagic(head: Bytes) {
    |head| >= 262 && head[257..262] == [0x75, 0x73, 0x74, 0x61, 0x72]
  }

  predicate HasZipMagic(head: Bytes) {
    |head| >= 4 && head[0] == 0x50 && head[1] == 0x4b && head[2..4] in {[3, 4], [5, 6], [7, 8]}
  }

  predicate HasGzipMagic(head: Bytes) {
    |head| >= 2 && head[0] == 0x1f && head[1] == 0x8b
  }

  function Gunzip(x: Setup, s: State, sample: Sample): State {
    if sample.openError.Some? then Gap(s, OpenFailed(sample.openError.value))
    else if HasTarMagic(Peeked(sample.inflatedHead, sample.inflatedPeek)) then
      Untar(x, Note(s, Archive("tar.gz"), UNKNOWN), sample.inflatedTar)
    else Take(x, Note(s, Archive("gzip"), UNKNOWN), "gunzipped", sample.inflated, None).0
  }

  function Unpack(x: Setup, sample: Sample): State {
    var head := Peeked(sample.head, sample.peek);
    if HasZipMagic(head) then Unzip(x, FRESH, sample.openError, sample.zip)
    else if HasGzipMagic(head) then Gunzip(x, FRESH, sample)
    else if HasTarMagic(head) then
      if sample.openError.Some? then Note(FRESH, OpenFailed(sample.openError.value), SUSPICIOUS)
      else Untar(x, FRESH, sample.tar)
    else Note(FRESH, NotAnArchive, UNKNOWN)
  }

  predicate IsBombRatio(caps: Caps, sample: Sample, total: nat) {
    sample.size > 0 && total / sample.size >= caps.ratioFlag && total > 0x10_0000
  }

  /** The final state of a whole run. */
  function Extracted(x: Setup, sample: Sample): State {
    var s := Unpack(x, sample);
    if IsBombRatio(x.caps, sample, s.total)
    then Gap(s, HighRatio)
    else s
  }

  function ReportOf(s: State): RawReport {
    RawReport(ENGINE, PrintedAll(s.findings), s.children, Wire(s.worst), s.incomplete)
  }

  // ---- The extractor itself ----

  class Extractor {
    const setup: Setup
    var totalOut: nat
    var seen: set<string>
    var staged: map<string, Bytes>
    var children: seq<Child>
    var findings: seq<Noted>
    var findingsCapped: bool
    var incomplete: bool
    var worst: Verdict
    ghost var noted: seq<Verdict>

    constructor (setup: Setup)
      ensures this.setup == setup && Now() == FRESH
    {
      this.setup := setup;
      totalOut, seen, staged, children, findings := 0, {}, map[], [], [];
      findingsCapped, incomplete, worst, noted := false, false, UNKNOWN, [];
    }

    ghost function Now(): State
      reads this
    {
      State(totalOut, seen, staged, children, findings, findingsCapped, incomplete, worst, noted)
    }

    method AddNote(r: Remark, v: Verdict)
      modifies this
      ensures Now() == Note(old(Now()), r, v)
    {
      noted := noted + [v];
      if v > worst {
        worst := v;
      }
      if |findings| < MAX_DETAIL_FINDINGS {
        findings := findings + [Noted(r, v)];
      } else if !findingsCapped {
        findingsCapped := true;
        incomplete := true;
        if SUSPICIOUS > worst {
          worst := SUSPICIOUS;
        }
        findings := findings + [CAP_MARKER];
      }
    }

    method AddGap(r: Remark)
      modifies this
      ensures Now() == Gap(old(Now()), r)
    {
      incomplete := true;
      AddNote(r, SUSPICIOUS);
    }

    method CopyCapped(r: Stream) returns (result: CopyResult)
      ensures result == Copy(setup.caps, totalOut, r)
    {
      if !r.created {
        return IoHit;
      }
      var content: Bytes := [];
      var i := 0;
      while i < |r.chunks| && !(r.chunks[i].Got? && r.chunks[i].bytes == [])
        invariant 0 <= i <= |r.chunks|
        invariant CopyFrom(setup.caps, totalOut, [], r.chunks) == CopyFrom(setup.caps, totalOut, content, r.chunks[i..])
      {
        var chunk := r.chunks[i];
        assert r.chunks[i..][0] == chunk && r.chunks[i..][1..] == r.chunks[i + 1..];
        if chunk.Broken? {
          return IoHit;
        }
        if |content| + |chunk.bytes| > setup.caps.maxEntry {
          return EntryHit;
        }
        if totalOut + |content| + |chunk.bytes| > setup.caps.maxTotal {
          return TotalHit;
        }
        if !chunk.written {
          return IoHit;
        }
        content := content + chunk.bytes;
        i := i + 1;
      }
      return Copied(content);
    }

    method FlagTraversal(raw: string)
      modifies this
      ensures Now() == Traversal(old(Now()), raw)
    {
      if LooksLikeTraversal(raw) {
        AddNote(TraversalName(raw), SUSPICIOUS);
      }
    }

    method StageChild(raw: string, content: Bytes, renamed: bool)
      modifies this
      ensures Now() == Stage(setup.digest, old(Now()), raw, content, renamed)
    {
      var sha := setup.digest(content);
      if sha !in seen {
        seen := seen + {sha};
        if !renamed {
          seen := seen - {sha};
          AddGap(StageFailed);
          assert seen == old(seen);
          return;
        }
        staged := staged[sha := content];
      }
      children := children + [Child(sha, |content|, Sanitize(raw))];
      assert sha in old(seen) ==> seen == old(seen) + {sha};
    }

    method KeepEntry(raw: string, content: Bytes, r: Stream, declared: Option<nat>)
      modifies this
      ensures Now() == Keep(setup.digest, old(Now()), raw, content, r, declared)
    {
      totalOut := totalOut + |content|;
      if declared.Some? && declared.value != |content| {
        AddGap(Truncated(raw, declared.value, |content|));
      }
      StageChild(raw, content, r.renamed);
    }

    method SettleEntry(raw: string, copied: CopyResult, r: Stream, declared: Option<nat>)
      modifies this
      ensures Now() == Settle(setup.digest, old(Now()), raw, copied, r, declared)
    {
      match copied
      case Copied(content) => KeepEntry(raw, content, r, declared);
      case EntryHit => AddGap(TooLarge(raw));
      case IoHit => AddGap(Unreadable(raw));
      case TotalHit =>
        AddGap(Bomb);
    }

    method TakeEntry(raw: string, r: Stream, declared: Option<nat>) returns (goOn: bool)
      modifies this
      ensures (Now(), goOn) == Take(setup, old(Now()), raw, r, declared)
    {
      if |children| >= setup.caps.maxChildren {
        AddGap(ChildCountCap);
        return false;
      }
      FlagTraversal(raw);
      var copied := CopyCapped(r);
      SettleEntry(raw, copied, r, declared);
      return !copied.TotalHit?;
    }

    method ExtractZip(openError: Option<string>, z: ZipFile)
      modifies this
      ensures Now() == Unzip(setup, old(Now()), openError, z)
    {
      if openError.Some? {
        AddGap(OpenFailed(openError.value));
        return;
      }
      if z.BadZip? {
        AddGap(BadArchive("zip", z.error));
        return;
      }
      AddNote(Archive("zip"), UNKNOWN);
      var count := |z.entries|;
      if |z.entries| > setup.caps.maxEntries {
        count := setup.caps.maxEntries;
        AddGap(EntryCountCap("zip"));
      }
      ZipLoop(z.entries[..count]);
      assert z.entries[..|z.entries|] == z.entries;
    }

    method ZipLoop(entries: seq<ZipEntry>)
      modifies this
      ensures Now() == Run(setup, old(Now()), ZipActs(entries)).0
    {
      ghost var start, acts := Now(), ZipActs(entries);
      for i := 0 to |entries|
        invariant Run(setup, start, acts[..i]) == (Now(), true)
      {
        RunOneMore(setup, start, acts, i);
        var e := entries[i];
        var goOn := true;
        if e.ZipUnreadable? {
          incomplete := true;
        } else if !e.isDir {
          match KindOfZip(e.mode)
          case ZipSymlink => AddNote(SkippedSymlink(e.name), SUSPICIOUS);
          case ZipSpecial => AddNote(SkippedSpecial(e.name), SUSPICIOUS);
          case ZipRegular => goOn := TakeEntry(e.name, e.stream, None);
        }
        if !goOn {
          StoppedStays(setup, start, acts, i + 1);
          return;
        }
      }
      assert acts[..|entries|] == acts;
    }

    method ExtractTar(t: TarFile)
      modifies this
      ensures Now() == Untar(setup, old(Now()), t)
    {
      if t.BadTar? {
        AddGap(BadArchive("tar", t.error));
        return;
      }
      AddNote(Archive("tar"), UNKNOWN);
      ghost var start, acts := Now(), TarActs(Capped(setup.caps.maxEntries, t.entries));
      for i := 0 to |t.entries|
        invariant i <= |acts| && Run(setup, start, acts[..i]) == (Now(), true)
      {
        if i + 1 > setup.caps.maxEntries {
          assert acts[..i] == acts;
          AddGap(EntryCountCap("tar"));
          return;
        }
        RunOneMore(setup, start, acts, i);
        var goOn := TarOne(t.entries[i]);
        if !goOn {
          StoppedStays(setup, start, acts, i + 1);
          return;
        }
      }
      assert acts[..|t.entries|] == acts;
    }

    method TarOne(e: TarEntry) returns (goOn: bool)
      modifies this
      ensures (Now(), goOn) == Perform(setup, old(Now()), TarAct(e))
    {
      goOn := true;
      if e.TarUnreadable? {
        incomplete := true;
        return;
      }
      match e.kind
      case TarDir =>
      case TarSymlink => AddNote(SkippedLink(e.name), SUSPICIOUS);
      case TarHardLink => AddNote(SkippedLink(e.name), SUSPICIOUS);
      case TarOther => AddNote(SkippedSpecial(e.name), SUSPICIOUS);
      case TarRegular => goOn := TakeEntry(e.name, e.stream, Some(e.size));
    }

    method ExtractGzip(sample: Sample)
      modifies this
      ensures Now() == Gunzip(setup, old(Now()), sample)
    {
      if sample.openError.Some? {
        AddGap(OpenFailed(sample.openError.value));
        return;
      }
      if HasTarMagic(Peeked(sample.inflatedHead, sample.inflatedPeek)) {
        AddNote(Archive("tar.gz"), UNKNOWN);
        ExtractTar(sample.inflatedTar);
      } else {
        AddNote(Archive("gzip"), UNKNOWN);
        var _ := TakeEntry("gunzipped", sample.inflated, None);
      }
    }
  }

  method DetectAndExtract(setup: Setup, sample: Sample) returns (r: RawReport, staged: map<string, Bytes>)
    ensures r == ReportOf(Extracted(setup, sample)) && staged == Extracted(setup, sample).staged
  {
    var x := new Extractor(setup);
    var head := Peeked(sample.head, sample.peek);
    if HasZipMagic(head) {
      x.ExtractZip(sample.openError, sample.zip);
    } else if HasGzipMagic(head) {
      x.ExtractGzip(sample);
    } else if HasTarMagic(head) {
      if sample.openError.Some? {
        x.AddNote(OpenFailed(sample.openError.value), SUSPICIOUS);
      } else {
        x.ExtractTar(sample.tar);
      }
    } else {
      x.AddNote(NotAnArchive, UNKNOWN);
    }
    if IsBombRatio(setup.caps, sample, x.totalOut) {
      x.AddGap(HighRatio);
    }
    r := RawReport(ENGINE, PrintedAll(x.findings), x.children, Wire(x.worst), x.incomplete);
    staged := x.staged;
  }

  lemma RunOneMore(x: Setup, s: State, acts: seq<Act>, i: nat)
    requires i < |acts|
    ensures var r := Run(x, s, acts[..i]);
            Run(x, s, acts[..i + 1]) == if r.1 then Perform(x, r.0, acts[i]) else r
  {
    assert acts[..i + 1][..i] == acts[..i];
  }

  lemma {:induction false} StoppedStays(x: Setup, s: State, acts: seq<Act>, i: nat)
    requires i <= |acts| && !Run(x, s, acts[..i]).1
    ensures Run(x, s, acts) == Run(x, s, acts[..i])
    decreases |acts|
  {
    if i == |acts| {
      assert acts[..i] == acts;
    } else {
      assert acts[..|acts| - 1][..i] == acts[..i];
      StoppedStays(x, s, acts[..|acts| - 1], i);
    }
  }
}
