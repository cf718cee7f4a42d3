/** The submission workflow (services/mal-orchestrator/workflow.go): a capped breadth-first
    traversal of the artifact tree, every engine outcome folded into one verdict. Engines are
    an arbitrary oracle; strings are read as the bytes the source counts. */
module SubmissionFlow {
  import opened Pipeline
  import Scoring

  const MAX_DEPTH: nat := 8
  const MAX_ARTIFACTS: nat := 200
  const MAX_FINDINGS_BYTES: nat := 0x10_0000
  const MAX_SUBMISSION_INGEST: nat := 0x8000_0000
  const FINDING_OVERHEAD: nat := 128
  const MAX_CRUMB_SEGMENT: nat := 256
  const MAX_CRUMB_PATH: nat := 1024

  datatype Engine = Ident | Yara | Capa | Die | Floss | Detonate | Extract

  function EngineName(e: Engine): string {
    match e
    case Ident => "mal-ident"
    case Yara => "mal-static-yara"
    case Capa => "mal-capa"
    case Die => "mal-static-die"
    case Floss => "mal-floss"
    case Detonate => "mal-detonate"
    case Extract => "mal-extract"
  }

  datatype Outcome = Failed | Completed(report: EngineReport)

  /** A position in the tree: the child index taken at each level. */
  type Position = seq<nat>

  /** Whatever the engines answer, per artifact and engine. */
  type World = (Position, Engine) -> Outcome

  datatype Input = Input(sha: string, detonate: bool)

  datatype Item = Item(sha: string, path: string, depth: nat, at: Position)

  // ---- Breadcrumbs ----

  predicate IsControlByte(c: char) {
    c as int < 0x20 || c as int == 0x7f
  }

  predicate StartsRune(c: char) {
    !(0x80 <= c as int < 0xc0)
  }

  function DotControls(s: string): (r: string)
    ensures |r| == |s|
  {
    seq(|s|, i requires 0 <= i < |s| => if IsControlByte(s[i]) then '.' else s[i])
  }

  function DropTail(s: string): string {
    if s != [] && !StartsRune(s[|s| - 1]) then DropTail(s[..|s| - 1]) else s
  }

  function ClampBytes(s: string, n: nat): string {
    if |s| <= n then s else DropTail(s[..n]) + "~"
  }

  function Crumb(parent: string, name: string): string {
    var segment := ClampBytes(DotControls(name), MAX_CRUMB_SEGMENT);
    if parent == "" then segment else ClampBytes(parent + "!" + segment, MAX_CRUMB_PATH)
  }

  method Clamp(s: string, n: nat) returns (r: string)
    ensures r == ClampBytes(s, n)
  {
    if |s| <= n {
      return s;
    }
    var b := s[..n];
    while |b| > 0 && !StartsRune(b[|b| - 1])
      invariant DropTail(b) == DropTail(s[..n])
    {
      b := b[..|b| - 1];
    }
    return b + "~";
  }

  // ---- What the identification decides ----

  predicate IsExecutableFinding(f: Finding) {
    || (f.kind == "file-type" && f.detail in {"pebin", "elf", "macho", "coff"})
    || (f.kind == "file-type-group" && f.detail == "executable")
  }

  predicate IsExecutable(ident: EngineReport) {
    exists i :: 0 <= i < |ident.findings| && IsExecutableFinding(ident.findings[i])
  }

  predicate HasFileType(ident: EngineReport, kind: string) {
    exists i :: 0 <= i < |ident.findings| && ident.findings[i].kind == "file-type" && ident.findings[i].detail == kind
  }

  function FileTypeOf(fs: seq<Finding>): string {
    if fs == [] then "" else if fs[0].kind == "file-type" then fs[0].detail else FileTypeOf(fs[1..])
  }

  method ScanExecutable(ident: EngineReport) returns (r: bool)
    ensures r <==> IsExecutable(ident)
  {
    for i := 0 to |ident.findings|
      invariant forall k :: 0 <= k < i ==> !IsExecutableFinding(ident.findings[k])
    {
      var f := ident.findings[i];
      if f.kind == "file-type" && f.detail in {"pebin", "elf", "macho", "coff"} {
        return true;
      }
      if f.kind == "file-type-group" && f.detail == "executable" {
        return true;
      }
    }
    return false;
  }

  method ScanFileType(ident: EngineReport, kind: string) returns (r: bool)
    ensures r <==> HasFileType(ident, kind)
  {
    for i := 0 to |ident.findings|
      invariant forall k :: 0 <= k < i ==> !(ident.findings[k].kind == "file-type" && ident.findings[k].detail == kind)
    {
      if ident.findings[i].kind == "file-type" && ident.findings[i].detail == kind {
        return true;
      }
    }
    return false;
  }

  method FindFileType(ident: EngineReport) returns (r: string)
    ensures r == FileTypeOf(ident.findings)
  {
    for i := 0 to |ident.findings|
      invariant FileTypeOf(ident.findings) == FileTypeOf(ident.findings[i..])
    {
      if ident.findings[i].kind == "file-type" {
        return ident.findings[i].detail;
      }
    }
    return "";
  }

  const NO_REPORT := EngineReport([], [], BENIGN, false, 0)

  function ReportOf(o: Outcome): EngineReport {
    if o.Completed? then o.report else NO_REPORT
  }

  /** The engines one artifact is given to, in the order in which their outcomes are folded. */
  function Calls(input: Input, item: Item, ident: EngineReport, extracting: bool): seq<Engine> {
    [Ident, Yara] + Chosen(input, item, ident) + (if extracting then [Extract] else [])
  }

  /** The engines that depend on what the artifact was identified as. */
  function Chosen(input: Input, item: Item, ident: EngineReport): seq<Engine> {
    (if IsExecutable(ident) then [Capa, Die] else [])
    + (if HasFileType(ident, "pebin") then [Floss] else [])
    + (if input.detonate && item.depth == 0 && HasFileType(ident, "elf") then [Detonate] else [])
  }

  // ---- The account: verdict, flag and findings ----

  /** A line of the result; the words are put in when the result is written. */
  datatype Entry =
    | Evidence(finding: Finding, path: string)
    | ArtifactHash(sha: string, path: string)
    | EngineError(engine: Engine, path: string)
    | FindingsCap
    | CountCap
    | DepthCap(path: string)
    | IngestCap(path: string)

  function Render(e: Entry): Finding {
    match e
    case Evidence(f, path) => f.(path := path)
    case ArtifactHash(sha, path) =>
      Finding("mal-orchestrator", "artifact-sha256", "sha256=" + sha, "", UNKNOWN, CONF_LOW, path)
    case EngineError(engine, path) =>
      Finding(EngineName(engine), "error", "engine did not complete; verdict floored", "", SUSPICIOUS, CONF_LOW, path)
    case FindingsCap =>
      Finding("mal-orchestrator", "findings-cap",
              "per-submission finding-size cap reached; further findings omitted (the verdict still reflects them)",
              "", SUSPICIOUS, CONF_LOW, "")
    case CountCap =>
      Finding("mal-orchestrator", "recursion-cap", "artifact-count cap reached; deeper children not analyzed",
              "", SUSPICIOUS, CONF_LOW, "")
    case DepthCap(path) =>
      Finding("mal-orchestrator", "recursion-cap",
              "archive nesting exceeded the depth cap; deeper children were not analyzed",
              "", SUSPICIOUS, CONF_LOW, path)
    case IngestCap(path) =>
      Finding("mal-orchestrator", "ingest-cap",
              "per-submission extracted-bytes budget reached; further extraction was halted",
              "", SUSPICIOUS, CONF_LOW, path)
  }

  function RenderAll(es: seq<Entry>): (fs: seq<Finding>)
    ensures |fs| == |es| && forall i :: 0 <= i < |es| ==> fs[i] == Render(es[i])
  {
    seq(|es|, i requires 0 <= i < |es| => Render(es[i]))
  }

  /** `heard` remembers every verdict an engine has given, per finding and per report; the
      code keeps no such list. */
  datatype Account = Account(
    verdict: Verdict, incomplete: bool, entries: seq<Entry>, bytes: nat, capped: bool, heard: seq<Verdict>)

  const OPENED := Account(UNKNOWN, false, [], 0, false, [])

  function Floor(a: Account, e: Entry): Account {
    a.(incomplete := true, verdict := Max(a.verdict, SUSPICIOUS), entries := a.entries + [e])
  }

  function Hear(a: Account, v: Verdict): Account {
    a.(verdict := Max(a.verdict, v), heard := a.heard + [v])
  }

  function Size(path: string, f: Finding): nat {
    |f.detail| + |path| + |f.kind| + |f.attck| + |f.engine| + FINDING_OVERHEAD
  }

  function FoldFinding(path: string, a: Account, f: Finding): Account {
    var a := Hear(a, f.verdict);
    if a.bytes + Size(path, f) > MAX_FINDINGS_BYTES then
      if a.capped then a else Floor(a.(capped := true), FindingsCap)
    else a.(entries := a.entries + [Evidence(f, path)], bytes := a.bytes + Size(path, f))
  }

  function FoldFindings(path: string, a: Account, fs: seq<Finding>): Account {
    if fs == [] then a else FoldFinding(path, FoldFindings(path, a, fs[..|fs| - 1]), fs[|fs| - 1])
  }

  function Close(a: Account, rep: EngineReport): Account {
    var a := Hear(a, rep.verdict);
    if rep.incomplete then a.(incomplete := true, verdict := Max(a.verdict, SUSPICIOUS)) else a
  }

  function FoldOutcome(item: Item, a: Account, e: Engine, o: Outcome): Account {
    match o
    case Failed => Floor(a, EngineError(e, item.path))
    case Completed(rep) => Close(FoldFindings(item.path, a, rep.findings), rep)
  }

  function FoldCalls(world: World, item: Item, a: Account, calls: seq<Engine>): Account {
    if calls == [] then a
    else
      var n := |calls| - 1;
      FoldOutcome(item, FoldCalls(world, item, a, calls[..n]), calls[n], world(item.at, calls[n]))
  }

  function Greet(a: Account, item: Item): Account {
    if item.depth > 0 then a.(entries := a.entries + [ArtifactHash(item.sha, item.path)]) else a
  }

  // ---- One artifact ----

  datatype Progress = Progress(
    account: Account, fileType: string, queue: seq<Item>, done: seq<Item>,
    depthCapped: bool, ingested: nat, ingestCapped: bool)

  function ChildItems(item: Item, cs: seq<Child>): (items: seq<Item>)
    ensures |items| == |cs|
    ensures forall i :: 0 <= i < |cs| ==>
              items[i] == Item(cs[i].sha, Crumb(item.path, cs[i].name), item.depth + 1, item.at + [i])
  {
    seq(|cs|, i requires 0 <= i < |cs| => Item(cs[i].sha, Crumb(item.path, cs[i].name), item.depth + 1, item.at + [i]))
  }

  /** The children of one finished extraction. */
  function Enqueue(p: Progress, item: Item, cs: seq<Child>): Progress {
    if item.depth + 1 <= MAX_DEPTH then p.(queue := p.queue + ChildItems(item, cs))
    else if cs == [] || p.depthCapped then p
    else p.(depthCapped := true, account := Floor(p.account, DepthCap(item.path)))
  }

  function Absorb(p: Progress, item: Item, o: Outcome): Progress {
    if o.Failed? then p
    else
      var p := p.(ingested := p.ingested + o.report.ingestedBytes);
      if p.ingested > MAX_SUBMISSION_INGEST
      then p.(ingestCapped := true, account := Floor(p.account, IngestCap(item.path)))
      else Enqueue(p, item, o.report.children)
  }

  /** Everything the engines say about one artifact. */
  function Analyzed(world: World, input: Input, p: Progress, item: Item): Progress {
    var ident := ReportOf(world(item.at, Ident));
    p.(account := FoldCalls(world, item, Greet(p.account, item), Calls(input, item, ident, !p.ingestCapped)),
       fileType := if item.depth == 0 then FileTypeOf(ident.findings) else p.fileType)
  }

  function Process(world: World, input: Input, p: Progress, item: Item): Progress {
    var q := Analyzed(world, input, p, item);
    if p.ingestCapped then q else Absorb(q, item, world(item.at, Extract))
  }

  function Pop(p: Progress): Progress
    requires p.queue != []
  {
    p.(queue := p.queue[1..], done := p.done + [p.queue[0]])
  }

  function Step(world: World, input: Input, p: Progress): Progress
    requires p.queue != []
  {
    Process(world, input, Pop(p), p.queue[0])
  }

  function Loop(world: World, input: Input, p: Progress): Progress
    decreases if |p.done| <= MAX_ARTIFACTS then MAX_ARTIFACTS - |p.done| else 0
  {
    if p.queue == [] then p
    else if |p.done| >= MAX_ARTIFACTS then p.(account := Floor(p.account, CountCap))
    else Loop(world, input, Step(world, input, p))
  }

  function Root(input: Input): Item {
    Item(input.sha, "", 0, [])
  }

  function Initial(input: Input): Progress {
    Progress(OPENED, "", [Root(input)], [], false, 0, false)
  }

  /** The end of a whole run. */
  function Final(world: World, input: Input): Progress {
    Loop(world, input, Initial(input))
  }

  function ResultOf(p: Progress): SubmissionResult {
    var fs := RenderAll(p.account.entries);
    SubmissionResult(p.fileType, p.account.verdict, Scoring.Score(fs), Scoring.Aggregate(fs), fs,
                     p.account.incomplete, false)
  }

  // ---- The workflow itself ----

  class Submission {
    const input: Input
    var verdict: Verdict
    var incomplete: bool
    var entries: seq<Entry>
    var findingsBytes: nat
    var findingsCapped: bool
    var fileType: string
    var queue: seq<Item>
    var processed: nat
    var depthCapped: bool
    var ingested: nat
    var ingestCapped: bool
    ghost var heard: seq<Verdict>
    ghost var done: seq<Item>

    constructor (input: Input)
      ensures this.input == input && Now() == Initial(input) && processed == 0
    {
      this.input := input;
      verdict, incomplete, entries, findingsBytes, findingsCapped := UNKNOWN, false, [], 0, false;
      fileType, queue, processed := "", [Root(input)], 0;
      depthCapped, ingested, ingestCapped := false, 0, false;
      heard, done := [], [];
    }

    ghost function Books(): Account
      reads this
    {
      Account(verdict, incomplete, entries, findingsBytes, findingsCapped, heard)
    }

    ghost function Now(): Progress
      reads this
    {
      Progress(Books(), fileType, queue, done, depthCapped, ingested, ingestCapped)
    }

    method Mark(e: Entry)
      modifies `verdict, `incomplete, `entries
      ensures Books() == Floor(old(Books()), e)
    {
      incomplete := true;
      verdict := Max(verdict, SUSPICIOUS);
      entries := entries + [e];
    }

    method AddFinding(path: string, f: Finding)
      modifies `verdict, `incomplete, `entries, `findingsBytes, `findingsCapped, `heard
      ensures Books() == FoldFinding(path, old(Books()), f)
    {
      verdict := Max(verdict, f.verdict);
      heard := heard + [f.verdict];
      var size := |f.detail| + |path| + |f.kind| + |f.attck| + |f.engine| + FINDING_OVERHEAD;
      if findingsBytes + size > MAX_FINDINGS_BYTES {
        if !findingsCapped {
          findingsCapped := true;
          Mark(FindingsCap);
        }
        return;
      }
      entries := entries + [Evidence(f, path)];
      findingsBytes := findingsBytes + size;
    }

    method AddFindings(path: string, fs: seq<Finding>)
      modifies `verdict, `incomplete, `entries, `findingsBytes, `findingsCapped, `heard
      ensures Books() == FoldFindings(path, old(Books()), fs)
    {
      for i := 0 to |fs|
        invariant Books() == FoldFindings(path, old(Books()), fs[..i])
      {
        assert fs[..i + 1][..i] == fs[..i];
        AddFinding(path, fs[i]);
      }
      assert fs[..|fs|] == fs;
    }

    /** One engine outcome; a failure or a gap floors the verdict, nothing lowers it. */
    method Fold(item: Item, e: Engine, o: Outcome)
      modifies `verdict, `incomplete, `entries, `findingsBytes, `findingsCapped, `heard
      ensures Books() == FoldOutcome(item, old(Books()), e, o)
    {
      if o.Failed? {
        Mark(EngineError(e, item.path));
        return;
      }
      AddFindings(item.path, o.report.findings);
      verdict := Max(verdict, o.report.verdict);
      heard := heard + [o.report.verdict];
      if o.report.incomplete {
        incomplete := true;
        verdict := Max(verdict, SUSPICIOUS);
      }
    }

    method RunChosen(world: World, item: Item, ident: EngineReport)
      modifies `verdict, `incomplete, `entries, `findingsBytes, `findingsCapped, `heard
      ensures Books() == FoldCalls(world, item, old(Books()), Chosen(input, item, ident))
    {
      ghost var start, calls := Books(), [];
      var executable := ScanExecutable(ident);
      if executable {
        Fold(item, Capa, world(item.at, Capa));
        Fold(item, Die, world(item.at, Die));
        TwoCalls(world, item, start, Capa, Die);
        calls := [Capa, Die];
      }
      var pe := ScanFileType(ident, "pebin");
      if pe {
        Fold(item, Floss, world(item.at, Floss));
        OneMoreCall(world, item, start, calls, Floss);
        calls := calls + [Floss];
      }
      var elf := ScanFileType(ident, "elf");
      if input.detonate && item.depth == 0 && elf {
        Fold(item, Detonate, world(item.at, Detonate));
        OneMoreCall(world, item, start, calls, Detonate);
        calls := calls + [Detonate];
      }
      assert calls == Chosen(input, item, ident);
    }

    /** The read-only engines of one artifact. */
    method Scan(world: World, item: Item)
      modifies `verdict, `incomplete, `entries, `findingsBytes, `findingsCapped, `heard, `fileType
      ensures var ident := ReportOf(world(item.at, Ident));
              && Books() == FoldCalls(world, item, Greet(old(Books()), item), Calls(input, item, ident, false))
              && fileType == if item.depth == 0 then FileTypeOf(ident.findings) else old(fileType)
    {
      if item.depth > 0 {
        entries := entries + [ArtifactHash(item.sha, item.path)];
      }
      ghost var start := Books();
      Fold(item, Ident, world(item.at, Ident));
      Fold(item, Yara, world(item.at, Yara));
      TwoCalls(world, item, start, Ident, Yara);
      var ident := ReportOf(world(item.at, Ident));
      if item.depth == 0 {
        fileType := FindFileType(ident);
      }
      RunChosen(world, item, ident);
      CallsInTurn(world, item, start, [Ident, Yara], Chosen(input, item, ident));
      assert [Ident, Yara] + Chosen(input, item, ident) + [] == [Ident, Yara] + Chosen(input, item, ident);
    }

    /** The children of an extraction, one at a time. */
    method EnqueueChildren(item: Item, cs: seq<Child>)
      modifies `verdict, `incomplete, `entries, `queue, `depthCapped
      ensures Now() == Enqueue(old(Now()), item, cs)
    {
      ghost var before := queue;
      for i := 0 to |cs|
        invariant item.depth + 1 > MAX_DEPTH ==> queue == before
        invariant item.depth + 1 <= MAX_DEPTH ==> queue == before + ChildItems(item, cs)[..i]
        invariant item.depth + 1 <= MAX_DEPTH || i == 0 || old(depthCapped) ==>
                    Books() == old(Books()) && depthCapped == old(depthCapped)
        invariant item.depth + 1 > MAX_DEPTH && i > 0 && !old(depthCapped) ==>
                    Books() == Floor(old(Books()), DepthCap(item.path)) && depthCapped
      {
        if item.depth + 1 <= MAX_DEPTH {
          queue := queue + [Item(cs[i].sha, Crumb(item.path, cs[i].name), item.depth + 1, item.at + [i])];
        } else if !depthCapped {
          depthCapped := true;
          Mark(DepthCap(item.path));
        }
      }
      assert ChildItems(item, cs)[..|cs|] == ChildItems(item, cs);
    }

    method Unpack(item: Item, o: Outcome)
      requires !ingestCapped
      modifies `verdict, `incomplete, `entries, `queue, `depthCapped, `ingested, `ingestCapped
      ensures Now() == Absorb(old(Now()), item, o)
    {
      if o.Failed? {
        return;
      }
      ingested := ingested + o.report.ingestedBytes;
      if ingested > MAX_SUBMISSION_INGEST {
        if !ingestCapped {
          ingestCapped := true;
          Mark(IngestCap(item.path));
        }
      } else {
        EnqueueChildren(item, o.report.children);
      }
    }

    /** All engines of one artifact; extraction is left out once the ingest budget is spent. */
    method RunEngines(world: World, item: Item)
      modifies `verdict, `incomplete, `entries, `findingsBytes, `findingsCapped, `heard, `fileType
      ensures Now() == Analyzed(world, input, old(Now()), item)
    {
      ghost var start := Greet(Books(), item);
      ghost var calls := Calls(input, item, ReportOf(world(item.at, Ident)), !ingestCapped);
      Scan(world, item);
      if !ingestCapped {
        ExtractIsLast(world, input, item, start);
        Fold(item, Extract, world(item.at, Extract));
      }
      assert Books() == FoldCalls(world, item, start, calls);
    }

    method ProcessItem(world: World, item: Item)
      modifies `verdict, `incomplete, `entries, `findingsBytes, `findingsCapped, `heard, `fileType,
               `queue, `depthCapped, `ingested, `ingestCapped
      ensures Now() == Process(world, input, old(Now()), item)
    {
      RunEngines(world, item);
      if ingestCapped {
        return;
      }
      Unpack(item, world(item.at, Extract));
    }

    method Advance(world: World)
      requires queue != [] && processed == |done|
      modifies this
      ensures Now() == Step(world, input, old(Now())) && processed == |done| == |old(done)| + 1
    {
      var item := queue[0];
      queue := queue[1..];
      processed := processed + 1;
      done := done + [item];
      ProcessItem(world, item);
    }
  }

  method SubmissionWorkflow(world: World, input: Input) returns (res: SubmissionResult)
    ensures res == ResultOf(Final(world, input))
  {
    var s := new Submission(input);
    var cut := false;
    while s.queue != [] && !cut
      invariant fresh(s) && s.input == input && s.processed == |s.done| <= MAX_ARTIFACTS
      invariant !cut ==> Loop(world, input, s.Now()) == Final(world, input)
      invariant cut ==> s.Now() == Final(world, input)
      decreases MAX_ARTIFACTS - |s.done|, if cut then 0 else 1
    {
      if s.processed >= MAX_ARTIFACTS {
        s.Mark(CountCap);
        cut := true;
      } else {
        s.Advance(world);
      }
    }
    var fs := RenderAll(s.entries);
    var score, confidence := Scoring.ScoreFindings(fs);
    res := SubmissionResult(s.fileType, s.verdict, score, confidence, fs, s.incomplete, false);
  }

  lemma OneMoreCall(world: World, item: Item, a: Account, calls: seq<Engine>, e: Engine)
    ensures FoldCalls(world, item, a, calls + [e]) ==
            FoldOutcome(item, FoldCalls(world, item, a, calls), e, world(item.at, e))
  {
    assert (calls + [e])[..|calls|] == calls;
  }

  lemma {:induction false} CallsInTurn(world: World, item: Item, a: Account, first: seq<Engine>, second: seq<Engine>)
    ensures FoldCalls(world, item, a, first + second) ==
            FoldCalls(world, item, FoldCalls(world, item, a, first), second)
    decreases |second|
  {
    if second == [] {
      assert first + second == first;
    } else {
      var n := |second| - 1;
      CallsInTurn(world, item, a, first, second[..n]);
      assert (first + second)[..|first + second| - 1] == first + second[..n];
    }
  }

  lemma ExtractIsLast(world: World, input: Input, item: Item, a: Account)
    ensures var ident := ReportOf(world(item.at, Ident));
            FoldCalls(world, item, a, Calls(input, item, ident, true)) ==
            FoldOutcome(item, FoldCalls(world, item, a, Calls(input, item, ident, false)), Extract,
                        world(item.at, Extract))
  {
    var ident := ReportOf(world(item.at, Ident));
    OneMoreCall(world, item, a, Calls(input, item, ident, false), Extract);
    assert Calls(input, item, ident, false) == [Ident, Yara] + Chosen(input, item, ident);
    assert Calls(input, item, ident, false) + [Extract] == Calls(input, item, ident, true);
  }

  lemma TwoCalls(world: World, item: Item, a: Account, e: Engine, f: Engine)
    ensures FoldCalls(world, item, a, [e, f]) ==
            FoldOutcome(item, FoldOutcome(item, a, e, world(item.at, e)), f, world(item.at, f))
  {
    OneMoreCall(world, item, a, [], e);
    OneMoreCall(world, item, a, [e], f);
    assert [] + [e] == [e] && [e] + [f] == [e, f];
  }
}
