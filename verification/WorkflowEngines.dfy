/** Which engines a submission consults: exactly those that an artifact calls for, whatever the
    others would have said. Stated on whole runs and on what the identification found. */
module SubmissionEngines {
  import opened Pipeline
  import opened SubmissionFlow
  import opened SubmissionSafety
  import opened SubmissionLines
  import Scoring

  // ---- What an artifact calls for ----

  /** The identification of the artifact at `at` completed with such a finding. */
  ghost predicate Identified(world: World, at: Position, kind: string, details: set<string>) {
    var o := world(at, Ident);
    o.Completed? && exists f :: f in o.report.findings && f.kind == kind && f.detail in details
  }

  ghost predicate IdentifiedExecutable(world: World, at: Position) {
    || Identified(world, at, "file-type", {"pebin", "elf", "macho", "coff"})
    || Identified(world, at, "file-type-group", {"executable"})
  }

  /** Everything is identified, matched against signatures and extracted; the tools for
      executables, for PE files and for consented detonation are asked only about these. */
  ghost predicate Due(world: World, input: Input, at: Position, e: Engine) {
    match e
    case Ident => true
    case Yara => true
    case Capa => IdentifiedExecutable(world, at)
    case Die => IdentifiedExecutable(world, at)
    case Floss => Identified(world, at, "file-type", {"pebin"})
    case Detonate => input.detonate && at == [] && Identified(world, at, "file-type", {"elf"})
    case Extract => true
  }

  function Turn(e: Engine): nat {
    match e
    case Ident => 0
    case Yara => 1
    case Capa => 2
    case Die => 3
    case Floss => 4
    case Detonate => 5
    case Extract => 6
  }

  lemma TypeIsIdentified(world: World, at: Position, kind: string)
    ensures HasFileType(ReportOf(world(at, Ident)), kind) <==> Identified(world, at, "file-type", {kind})
  {
    var fs := ReportOf(world(at, Ident)).findings;
    if f :| f in fs && f.kind == "file-type" && f.detail == kind {
      var i :| 0 <= i < |fs| && fs[i] == f;
    }
  }

  lemma ExecutableIsIdentified(world: World, at: Position)
    ensures IsExecutable(ReportOf(world(at, Ident))) <==> IdentifiedExecutable(world, at)
  {
    var fs := ReportOf(world(at, Ident)).findings;
    if f :| f in fs && IsExecutableFinding(f) {
      var i :| 0 <= i < |fs| && fs[i] == f;
    }
  }

  /** Each engine in `calls` comes once, in the order in which outcomes are folded. */
  ghost predicate InTurn(calls: seq<Engine>) {
    forall i, j :: 0 <= i < j < |calls| ==> Turn(calls[i]) < Turn(calls[j])
  }

  lemma PartsInTurn(tools: seq<Engine>, pe: seq<Engine>, elf: seq<Engine>, last: seq<Engine>)
    requires (tools == [] || tools == [Capa, Die]) && (pe == [] || pe == [Floss])
    requires (elf == [] || elf == [Detonate]) && (last == [] || last == [Extract])
    ensures InTurn([Ident, Yara] + (tools + pe + elf) + last)
  {
  }

  lemma InSomePart(first: seq<Engine>, tools: seq<Engine>, pe: seq<Engine>, elf: seq<Engine>, last: seq<Engine>,
                   e: Engine)
    ensures e in first + (tools + pe + elf) + last <==> e in first || e in tools || e in pe || e in elf || e in last
  {
  }

  lemma DueMeans(world: World, input: Input, item: Item, e: Engine)
    requires |item.at| == item.depth
    ensures var ident := ReportOf(world(item.at, Ident));
            Due(world, input, item.at, e) <==>
            || e in [Ident, Yara] || e == Extract || (e in [Capa, Die] && IsExecutable(ident))
            || (e == Floss && HasFileType(ident, "pebin"))
            || (e == Detonate && input.detonate && item.depth == 0 && HasFileType(ident, "elf"))
  {
    TypeIsIdentified(world, item.at, "pebin");
    TypeIsIdentified(world, item.at, "elf");
    ExecutableIsIdentified(world, item.at);
  }

  /** The engines of one artifact are those that are due, each once and in turn; extraction is
      left out when the ingest budget is spent. */
  lemma CallsAreDue(world: World, input: Input, item: Item, extracting: bool)
    requires |item.at| == item.depth
    ensures var calls := Calls(input, item, ReportOf(world(item.at, Ident)), extracting);
            && InTurn(calls)
            && forall e :: e in calls <==> Due(world, input, item.at, e) && (e.Extract? ==> extracting)
  {
    var ident := ReportOf(world(item.at, Ident));
    var tools: seq<Engine> := if IsExecutable(ident) then [Capa, Die] else [];
    var pe: seq<Engine> := if HasFileType(ident, "pebin") then [Floss] else [];
    var elf: seq<Engine> := if input.detonate && item.depth == 0 && HasFileType(ident, "elf") then [Detonate] else [];
    var last: seq<Engine> := if extracting then [Extract] else [];
    PartsInTurn(tools, pe, elf, last);
    forall e
      ensures e in Calls(input, item, ident, extracting) <==>
              Due(world, input, item.at, e) && (e.Extract? ==> extracting)
    {
      InSomePart([Ident, Yara], tools, pe, elf, last, e);
      DueMeans(world, input, item, e);
    }
  }

  // ---- No other engine has a say ----

  /** The two worlds give the same answers wherever an engine is due. */
  ghost predicate SameWhereDue(v: World, w: World, input: Input) {
    forall at, e :: Due(v, input, at, e) ==> v(at, e) == w(at, e)
  }

  lemma {:induction false} SameCallsFoldAlike(v: World, w: World, item: Item, a: Account, calls: seq<Engine>)
    requires forall e :: e in calls ==> v(item.at, e) == w(item.at, e)
    ensures FoldCalls(v, item, a, calls) == FoldCalls(w, item, a, calls)
  {
    if calls != [] {
      assert calls[|calls| - 1] in calls;
      SameCallsFoldAlike(v, w, item, a, calls[..|calls| - 1]);
    }
  }

  /** Every artifact stands as deep as its position says. */
  ghost predicate Placed(items: seq<Item>) {
    forall i :: 0 <= i < |items| ==> |items[i].at| == items[i].depth
  }

  lemma SameStep(v: World, w: World, input: Input, p: Progress)
    requires p.queue != [] && |p.queue[0].at| == p.queue[0].depth && SameWhereDue(v, w, input)
    ensures Step(v, input, p) == Step(w, input, p)
  {
    var item := p.queue[0];
    assert Due(v, input, item.at, Ident) && Due(v, input, item.at, Extract);
    var calls := Calls(input, item, ReportOf(v(item.at, Ident)), !p.ingestCapped);
    CallsAreDue(v, input, item, !p.ingestCapped);
    SameCallsFoldAlike(v, w, item, Greet(p.account, item), calls);
  }

  lemma NextIsPlaced(world: World, input: Input, p: Progress)
    requires Placed(All(p))
    ensures Placed(All(Next(world, input, p)))
  {
    if p.queue != [] && |p.done| < MAX_ARTIFACTS {
      assert All(p)[|p.done|] == p.queue[0];
      StepAppends(world, input, p);
    }
  }

  lemma ReachedIsPlaced(world: World, input: Input, n: nat)
    ensures Placed(All(Reached(world, input, n)))
  {
    assert All(Initial(input)) == [Root(input)];
    forall p | Placed(All(p))
      ensures Placed(All(Next(world, input, p)))
    {
      NextIsPlaced(world, input, p);
    }
    HoldsAtEveryStep(world, input, p => Placed(All(p)), n);
  }

  lemma SameNext(v: World, w: World, input: Input, n: nat)
    requires SameWhereDue(v, w, input)
    ensures Next(v, input, Reached(v, input, n)) == Next(w, input, Reached(v, input, n))
  {
    var p := Reached(v, input, n);
    if p.queue != [] {
      ReachedIsPlaced(v, input, n);
      assert All(p)[|p.done|] == p.queue[0];
      SameStep(v, w, input, p);
    }
  }

  lemma {:induction false} SameReached(v: World, w: World, input: Input, n: nat)
    requires forall m: nat :: Next(v, input, Reached(v, input, m)) == Next(w, input, Reached(v, input, m))
    ensures Reached(v, input, n) == Reached(w, input, n)
  {
    if n > 0 {
      SameReached(v, w, input, n - 1);
    }
  }

  /** What an engine would say about an artifact that does not call for it changes nothing: the
      whole run is the same, down to its last line. */
  lemma OnlyDueEnginesMatter(v: World, w: World, input: Input)
    requires SameWhereDue(v, w, input)
    ensures Final(v, input) == Final(w, input)
  {
    forall n: nat
      ensures Next(v, input, Reached(v, input, n)) == Next(w, input, Reached(v, input, n))
    {
      SameNext(v, w, input, n);
    }
    SameReached(v, w, input, MAX_ARTIFACTS);
    FinalIsReached(v, input);
    FinalIsReached(w, input);
  }

  /** Nothing is detonated without consent, nothing but an ELF file, and nothing that came out of
      an archive. */
  lemma DetonationNeedsConsent(v: World, w: World, input: Input)
    requires forall at, e :: e != Detonate ==> v(at, e) == w(at, e)
    requires input.detonate && Identified(v, [], "file-type", {"elf"}) ==> v([], Detonate) == w([], Detonate)
    ensures Final(v, input) == Final(w, input)
  {
    OnlyDueEnginesMatter(v, w, input);
  }

  // ---- Every engine that is due is heard ----

  /** What an account shows of one outcome: a failure by name, everything else in its verdict. */
  ghost predicate Heard(a: Account, item: Item, e: Engine, o: Outcome) {
    match o
    case Failed => a.incomplete && EngineError(e, item.path) in a.entries
    case Completed(rep) =>
      && a.verdict >= rep.verdict && (rep.incomplete ==> a.incomplete)
      && forall f :: f in rep.findings ==> a.verdict >= f.verdict
  }

  lemma HeardStays(a: Account, b: Account, item: Item, e: Engine, o: Outcome)
    requires Heard(a, item, e, o) && Grows(a, b)
    ensures Heard(b, item, e, o)
  {
  }

  lemma {:induction false} FindingsAreHeard(path: string, a: Account, fs: seq<Finding>)
    ensures forall f :: f in fs ==> FoldFindings(path, a, fs).verdict >= f.verdict
  {
    if fs != [] {
      var n := |fs| - 1;
      FindingsAreHeard(path, a, fs[..n]);
      FoldFindingIsSound(path, FoldFindings(path, a, fs[..n]), fs[n]);
      assert fs == fs[..n] + [fs[n]];
    }
  }

  lemma OutcomeIsHeard(item: Item, a: Account, e: Engine, o: Outcome)
    ensures Heard(FoldOutcome(item, a, e, o), item, e, o)
  {
    match o
    case Failed => assert (a.entries + [EngineError(e, item.path)])[|a.entries|] == EngineError(e, item.path);
    case Completed(rep) =>
      FindingsAreHeard(item.path, a, rep.findings);
      CloseIsSound(FoldFindings(item.path, a, rep.findings), rep);
  }

  lemma {:induction false} CallsAreHeard(world: World, item: Item, a: Account, calls: seq<Engine>, e: Engine)
    requires e in calls
    ensures Heard(FoldCalls(world, item, a, calls), item, e, world(item.at, e))
  {
    var n := |calls| - 1;
    var b := FoldCalls(world, item, a, calls[..n]);
    OutcomeIsHeard(item, b, calls[n], world(item.at, calls[n]));
    if e != calls[n] {
      assert e in calls[..n];
      CallsAreHeard(world, item, a, calls[..n], e);
      FoldOutcomeIsSound(item, b, calls[n], world(item.at, calls[n]));
      HeardStays(b, FoldOutcome(item, b, calls[n], world(item.at, calls[n])), item, e, world(item.at, e));
    }
  }

  /** What the account says of one artifact, reached after those in `before`: its hash, and every
      engine that is due. */
  ghost predicate Told(world: World, input: Input, a: Account, before: seq<Item>, item: Item) {
    && (item.depth > 0 ==> ArtifactHash(item.sha, item.path) in a.entries)
    && forall e :: Due(world, input, item.at, e) && (e.Extract? ==> !Spent(world, before)) ==>
                     Heard(a, item, e, world(item.at, e))
  }

  lemma ToldStays(world: World, input: Input, a: Account, b: Account, before: seq<Item>, item: Item)
    requires Told(world, input, a, before, item) && Grows(a, b)
    ensures Told(world, input, b, before, item)
  {
    forall e | Due(world, input, item.at, e) && (e.Extract? ==> !Spent(world, before))
      ensures Heard(b, item, e, world(item.at, e))
    {
      HeardStays(a, b, item, e, world(item.at, e));
    }
  }

  lemma AnalyzedIsTold(world: World, input: Input, p: Progress, before: seq<Item>, item: Item)
    requires |item.at| == item.depth && (p.ingestCapped <==> Spent(world, before))
    ensures Told(world, input, Analyzed(world, input, p, item).account, before, item)
  {
    var a := Greet(p.account, item);
    var calls := Calls(input, item, ReportOf(world(item.at, Ident)), !p.ingestCapped);
    CallsAreDue(world, input, item, !p.ingestCapped);
    FoldCallsIsSound(world, item, a, calls);
    assert item.depth > 0 ==> a.entries[|p.account.entries|] == ArtifactHash(item.sha, item.path);
    forall e | Due(world, input, item.at, e) && (e.Extract? ==> !Spent(world, before))
      ensures Heard(FoldCalls(world, item, a, calls), item, e, world(item.at, e))
    {
      CallsAreHeard(world, item, a, calls, e);
    }
  }

  ghost predicate AllTold(world: World, input: Input, p: Progress) {
    forall i :: 0 <= i < |p.done| ==> Told(world, input, p.account, p.done[..i], p.done[i])
  }

  lemma ProcessIsTold(world: World, input: Input, p: Progress, before: seq<Item>, item: Item)
    requires |item.at| == item.depth && (p.ingestCapped <==> Spent(world, before))
    ensures Told(world, input, Process(world, input, p, item).account, before, item)
  {
    var q := Analyzed(world, input, p, item);
    AnalyzedIsTold(world, input, p, before, item);
    if !p.ingestCapped {
      AbsorbIsSound(q, item, world(item.at, Extract));
      ToldStays(world, input, q.account, Absorb(q, item, world(item.at, Extract)).account, before, item);
    }
  }

  lemma StepTells(world: World, input: Input, p: Progress)
    requires p.queue != [] && AllTold(world, input, p)
    requires |p.queue[0].at| == p.queue[0].depth && (p.ingestCapped <==> Spent(world, p.done))
    ensures AllTold(world, input, Step(world, input, p))
  {
    var q := Step(world, input, p);
    StepAdvances(world, input, p);
    StepIsSound(world, input, p);
    ProcessIsTold(world, input, Pop(p), p.done, p.queue[0]);
    forall i | 0 <= i < |q.done|
      ensures Told(world, input, q.account, q.done[..i], q.done[i])
    {
      assert q.done[..i] == p.done[..i];
      if i < |p.done| {
        ToldStays(world, input, p.account, q.account, p.done[..i], p.done[i]);
      }
    }
  }

  lemma NextTells(world: World, input: Input, p: Progress)
    requires AllTold(world, input, p) && Placed(All(p)) && (p.ingestCapped <==> Spent(world, p.done))
    ensures AllTold(world, input, Next(world, input, p))
  {
    if p.queue != [] && |p.done| < MAX_ARTIFACTS {
      assert All(p)[|p.done|] == p.queue[0];
      StepTells(world, input, p);
    }
  }

  /** As `HoldsAtEveryStep`, with what is known of every step already. */
  lemma {:induction false} HoldsGiven(world: World, input: Input, known: Progress -> bool, inv: Progress -> bool,
                                      n: nat)
    requires forall m: nat :: known(Reached(world, input, m))
    requires inv(Initial(input)) && forall p :: known(p) && inv(p) ==> inv(Next(world, input, p))
    ensures inv(Reached(world, input, n))
  {
    if n > 0 {
      HoldsGiven(world, input, known, inv, n - 1);
    }
  }

  ghost predicate Known(world: World, p: Progress) {
    Placed(All(p)) && InOrder(p) && (p.ingestCapped <==> Spent(world, p.done))
  }

  lemma ReachedIsKnown(world: World, input: Input, n: nat)
    ensures Known(world, Reached(world, input, n))
  {
    ReachedIsPlaced(world, input, n);
    OrderAtEveryStep(world, input, n);
    ReachedIsDescribed(world, input, n);
  }

  lemma ReachedTells(world: World, input: Input, n: nat)
    ensures AllTold(world, input, Reached(world, input, n))
  {
    forall m: nat
      ensures Known(world, Reached(world, input, m))
    {
      ReachedIsKnown(world, input, m);
    }
    forall p | Known(world, p) && AllTold(world, input, p)
      ensures AllTold(world, input, Next(world, input, p))
    {
      NextTells(world, input, p);
    }
    HoldsGiven(world, input, p => Known(world, p), p => AllTold(world, input, p), n);
  }

  /** Nothing that is due is skipped: of every artifact the result names the hash, and every
      engine that is due, extraction only while the ingest budget lasts, is heard: its failure
      is listed and leaves the run incomplete, its verdicts are never undercut. */
  lemma DueEnginesAreHeard(world: World, input: Input, i: nat)
    requires i < |Final(world, input).done|
    ensures var p := Final(world, input); Told(world, input, p.account, p.done[..i], p.done[i])
  {
    var last := Reached(world, input, MAX_ARTIFACTS);
    FinalIsReached(world, input);
    ReachedTells(world, input, MAX_ARTIFACTS);
    FloorIsSound(last.account, CountCap);
    ToldStays(world, input, last.account, Final(world, input).account, last.done[..i], last.done[i]);
  }

  // ---- The file type of the result ----

  /** `t` is what the first finding on the type says, or empty where there is none. */
  ghost predicate FirstType(fs: seq<Finding>, t: string) {
    || (t == "" && forall j :: 0 <= j < |fs| ==> fs[j].kind != "file-type")
    || exists i :: 0 <= i < |fs| && fs[i].kind == "file-type" && fs[i].detail == t
                   && forall j :: 0 <= j < i ==> fs[j].kind != "file-type"
  }

  lemma {:induction false} FileTypeIsFirst(fs: seq<Finding>)
    ensures FirstType(fs, FileTypeOf(fs))
  {
    if fs != [] && fs[0].kind != "file-type" {
      var rest := fs[1..];
      FileTypeIsFirst(rest);
      assert forall j :: 0 < j < |fs| ==> fs[j] == rest[j - 1];
      if i :| 0 <= i < |rest| && rest[i].kind == "file-type" && rest[i].detail == FileTypeOf(rest)
              && forall j :: 0 <= j < i ==> rest[j].kind != "file-type" {
        assert fs[i + 1].kind == "file-type";
      }
    }
  }

  ghost predicate Typed(world: World, p: Progress) {
    p.fileType == if p.done == [] then "" else FileTypeOf(ReportOf(world([], Ident)).findings)
  }

  lemma NextIsTyped(world: World, input: Input, p: Progress)
    requires Typed(world, p) && InOrder(p) && Placed(All(p))
    ensures Typed(world, Next(world, input, p))
  {
    if p.queue != [] && |p.done| < MAX_ARTIFACTS {
      assert All(p)[|p.done|] == p.queue[0];
      OnlyTheRootComesFirst(p);
      StepAdvances(world, input, p);
    }
  }

  lemma ReachedIsTyped(world: World, input: Input, n: nat)
    ensures Typed(world, Reached(world, input, n))
  {
    forall m: nat
      ensures Known(world, Reached(world, input, m))
    {
      ReachedIsKnown(world, input, m);
    }
    forall p | Known(world, p) && Typed(world, p)
      ensures Typed(world, Next(world, input, p))
    {
      NextIsTyped(world, input, p);
    }
    HoldsGiven(world, input, p => Known(world, p), p => Typed(world, p), n);
  }

  /** The file type of a result is the first one the identification gives the root, whatever is
      found in the archives below it. */
  lemma FileTypeIsTheRoots(world: World, input: Input)
    ensures FirstType(ReportOf(world([], Ident)).findings, ResultOf(Final(world, input)).fileType)
  {
    FinalIsReached(world, input);
    ReachedIsTyped(world, input, MAX_ARTIFACTS);
    SomethingIsDone(world, input, MAX_ARTIFACTS);
    FileTypeIsFirst(ReportOf(world([], Ident)).findings);
  }

  lemma SomethingIsDone(world: World, input: Input, n: nat)
    requires 0 < n <= MAX_ARTIFACTS
    ensures Reached(world, input, n).done != []
  {
    ReachedCounts(world, input, n);
    OrderAtEveryStep(world, input, n);
  }

  // ---- What the result says ----

  /** A line of the result. */
  ghost predicate Says(fs: seq<Finding>, engine: string, kind: string, detail: string, v: Verdict, path: string) {
    Finding(engine, kind, detail, "", v, CONF_LOW, path) in fs
  }

  /** The name an engine goes by. */
  ghost predicate Named(e: Engine, name: string) {
    || (e == Ident && name == "mal-ident") || (e == Yara && name == "mal-static-yara")
    || (e == Capa && name == "mal-capa") || (e == Die && name == "mal-static-die")
    || (e == Floss && name == "mal-floss") || (e == Detonate && name == "mal-detonate")
    || (e == Extract && name == "mal-extract")
  }

  lemma LineIsRendered(es: seq<Entry>, e: Entry)
    requires e in es
    ensures Render(e) in RenderAll(es)
  {
    var i :| 0 <= i < |es| && es[i] == e;
    assert RenderAll(es)[i] == Render(e);
  }

  lemma HashIsSaid(es: seq<Entry>, sha: string, path: string)
    requires ArtifactHash(sha, path) in es
    ensures Says(RenderAll(es), "mal-orchestrator", "artifact-sha256", "sha256=" + sha, UNKNOWN, path)
  {
    LineIsRendered(es, ArtifactHash(sha, path));
  }

  lemma FailureIsSaid(es: seq<Entry>, e: Engine, name: string, path: string)
    requires EngineError(e, path) in es && Named(e, name)
    ensures Says(RenderAll(es), name, "error", "engine did not complete; verdict floored", SUSPICIOUS, path)
  {
    LineIsRendered(es, EngineError(e, path));
  }

  /** The result itself tells: each artifact below the root by its hash, each failure of an engine
      that was due by its name, at the place in the archive; and neither the verdict nor the flag
      falls short of what any of them said. It asks nobody for a review. */
  lemma ResultTells(world: World, input: Input, i: nat, e: Engine, name: string)
    requires i < |Final(world, input).done| && Named(e, name)
    requires var done := Final(world, input).done;
             Due(world, input, done[i].at, e) && (e.Extract? ==> !Spent(world, done[..i]))
    ensures var p, res := Final(world, input), ResultOf(Final(world, input));
            var item, o := p.done[i], world(p.done[i].at, e);
            && !res.needsReview && (res.incomplete ==> res.verdict >= SUSPICIOUS)
            && (item.depth > 0 ==>
                  Says(res.findings, "mal-orchestrator", "artifact-sha256", "sha256=" + item.sha, UNKNOWN, item.path))
            && (o.Failed? ==>
                  res.incomplete
                  && Says(res.findings, name, "error", "engine did not complete; verdict floored", SUSPICIOUS,
                          item.path))
            && (o.Completed? ==>
                  res.verdict >= o.report.verdict && (o.report.incomplete ==> res.incomplete)
                  && forall f :: f in o.report.findings ==> res.verdict >= f.verdict)
  {
    var p := Final(world, input);
    DueEnginesAreHeard(world, input, i);
    FinalVerdict(world, input);
    var item := p.done[i];
    if item.depth > 0 {
      HashIsSaid(p.account.entries, item.sha, item.path);
    }
    if world(item.at, e).Failed? {
      FailureIsSaid(p.account.entries, e, name, item.path);
    }
  }

  /** The score and the confidence of a result are those of the findings it lists, so a reader can
      recompute them; and its verdict is the join of everything heard. */
  lemma ResultIsScored(world: World, input: Input)
    ensures var res, heard := ResultOf(Final(world, input)), Final(world, input).account.heard;
            && res.score == Scoring.Score(res.findings) <= 100 && res.confidence == Scoring.Aggregate(res.findings)
            && res.verdict == Max(Max(UNKNOWN, JoinAll(heard)), if res.incomplete then SUSPICIOUS else BENIGN)
            && (forall f :: f in res.findings && f.verdict >= SUSPICIOUS ==> f.confidence <= res.confidence)
  {
    FinalVerdict(world, input);
    Scoring.AggregateIsStrongest(ResultOf(Final(world, input)).findings);
  }

  // ---- Where the artifacts come from ----

  /** `item` is a child that the extraction of `parent` reported, under its hash and its name. */
  ghost predicate IsChildOf(world: World, parent: Item, item: Item) {
    exists k :: 0 <= k < |ReportOf(world(parent.at, Extract)).children|
                && var c := ReportOf(world(parent.at, Extract)).children[k];
                   item == Item(c.sha, Crumb(parent.path, c.name), parent.depth + 1, parent.at + [k])
  }

  ghost predicate Descends(world: World, input: Input, items: seq<Item>) {
    && items != [] && items[0] == Root(input)
    && forall i :: 0 < i < |items| ==> exists j :: 0 <= j < i && IsChildOf(world, items[j], items[i])
  }

  lemma AddedAreChildren(world: World, p: Progress, item: Item, k: nat)
    requires k < |Added(p, item, world(item.at, Extract))|
    ensures IsChildOf(world, item, Added(p, item, world(item.at, Extract))[k])
  {
    var c := ReportOf(world(item.at, Extract)).children[k];
    assert Added(p, item, world(item.at, Extract))[k] ==
           Item(c.sha, Crumb(item.path, c.name), item.depth + 1, item.at + [k]);
  }

  lemma NextDescends(world: World, input: Input, p: Progress)
    requires Descends(world, input, All(p))
    ensures Descends(world, input, All(Next(world, input, p)))
  {
    if p.queue != [] && |p.done| < MAX_ARTIFACTS {
      var item, n := p.queue[0], |All(p)|;
      var more := Added(p, item, world(item.at, Extract));
      StepAppends(world, input, p);
      assert All(p)[|p.done|] == item;
      forall i | 0 < i < n + |more|
        ensures exists j :: 0 <= j < i && IsChildOf(world, (All(p) + more)[j], (All(p) + more)[i])
      {
        if i >= n {
          AddedAreChildren(world, p, item, i - n);
          assert (All(p) + more)[|p.done|] == item;
        } else {
          var j :| 0 <= j < i && IsChildOf(world, All(p)[j], All(p)[i]);
          assert (All(p) + more)[j] == All(p)[j] && (All(p) + more)[i] == All(p)[i];
        }
      }
    }
  }

  /** Every artifact is the root or was reported by the extraction of an earlier one, and carries
      its hash, its name on the way, and its place. */
  lemma ArtifactsDescend(world: World, input: Input)
    ensures Descends(world, input, Final(world, input).done)
  {
    forall p | Descends(world, input, All(p))
      ensures Descends(world, input, All(Next(world, input, p)))
    {
      NextDescends(world, input, p);
    }
    assert All(Initial(input)) == [Root(input)];
    HoldsAtEveryStep(world, input, p => Descends(world, input, All(p)), MAX_ARTIFACTS);
    FinalIsReached(world, input);
    SomethingIsDone(world, input, MAX_ARTIFACTS);
    PrefixDescends(world, input, All(Reached(world, input, MAX_ARTIFACTS)), Final(world, input).done);
  }

  lemma PrefixDescends(world: World, input: Input, all: seq<Item>, some: seq<Item>)
    requires Descends(world, input, all) && some != [] && some <= all
    ensures Descends(world, input, some)
  {
    forall i | 0 < i < |some|
      ensures exists j :: 0 <= j < i && IsChildOf(world, some[j], some[i])
    {
      var j :| 0 <= j < i && IsChildOf(world, all[j], all[i]);
      assert some[j] == all[j] && some[i] == all[i];
    }
  }
}
