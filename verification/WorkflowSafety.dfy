/** What holds at every step of every submission, whatever the engines answer. */
module SubmissionSafety {
  import opened Pipeline
  import opened SubmissionFlow

  // ---- The states of a run ----

  function Next(world: World, input: Input, p: Progress): Progress {
    if p.queue == [] || |p.done| >= MAX_ARTIFACTS then p else Step(world, input, p)
  }

  /** The state after at most `n` artifacts. */
  function Reached(world: World, input: Input, n: nat): Progress {
    if n == 0 then Initial(input) else Next(world, input, Reached(world, input, n - 1))
  }

  /** What holds at the start and is kept by each artifact holds at every step. */
  lemma {:induction false} HoldsAtEveryStep(world: World, input: Input, inv: Progress -> bool, n: nat)
    requires inv(Initial(input))
    requires forall p :: inv(p) ==> inv(Next(world, input, p))
    ensures inv(Reached(world, input, n))
  {
    if n > 0 {
      HoldsAtEveryStep(world, input, inv, n - 1);
    }
  }

  /** Leaving the loop: with an empty queue, or on the artifact cap. */
  function Finish(p: Progress): Progress {
    if p.queue == [] then p else p.(account := Floor(p.account, CountCap))
  }

  lemma StepAdvances(world: World, input: Input, p: Progress)
    requires p.queue != []
    ensures Step(world, input, p).done == p.done + [p.queue[0]]
  {
  }

  lemma {:induction false} ReachedCounts(world: World, input: Input, n: nat)
    requires n <= MAX_ARTIFACTS
    ensures var p := Reached(world, input, n); |p.done| <= n && (p.queue == [] || |p.done| == n)
  {
    if n > 0 {
      ReachedCounts(world, input, n - 1);
      var p := Reached(world, input, n - 1);
      if p.queue != [] {
        StepAdvances(world, input, p);
      }
    }
  }

  lemma LoopOneMore(world: World, input: Input, p: Progress)
    ensures Loop(world, input, Next(world, input, p)) == Loop(world, input, p)
  {
  }

  lemma LoopFromReached(world: World, input: Input, n: nat)
    ensures Loop(world, input, Reached(world, input, n)) == Final(world, input)
  {
    var end := Final(world, input);
    forall p | Loop(world, input, p) == end
      ensures Loop(world, input, Next(world, input, p)) == end
    {
      LoopOneMore(world, input, p);
    }
    HoldsAtEveryStep(world, input, p => Loop(world, input, p) == end, n);
  }

  /** A run is at most 200 steps and then the end of the loop. */
  lemma FinalIsReached(world: World, input: Input)
    ensures Final(world, input) == Finish(Reached(world, input, MAX_ARTIFACTS))
  {
    LoopFromReached(world, input, MAX_ARTIFACTS);
    ReachedCounts(world, input, MAX_ARTIFACTS);
  }

  // ---- The verdict is the join of everything heard ----

  ghost predicate VerdictIsJoin(a: Account) {
    a.verdict == Max(Max(UNKNOWN, JoinAll(a.heard)), if a.incomplete then SUSPICIOUS else BENIGN)
  }

  /** From `a` to `b` nothing was taken back. */
  ghost predicate Grows(a: Account, b: Account) {
    && a.verdict <= b.verdict && (a.incomplete ==> b.incomplete)
    && a.heard <= b.heard && a.entries <= b.entries && a.bytes <= b.bytes
  }

  lemma GrowsOn(a: Account, b: Account, c: Account)
    requires Grows(a, b) && Grows(b, c)
    ensures Grows(a, c)
  {
  }

  ghost predicate Sound(a: Account, b: Account) {
    Grows(a, b) && (VerdictIsJoin(a) ==> VerdictIsJoin(b))
  }

  lemma SoundOn(a: Account, b: Account, c: Account)
    requires Sound(a, b) && Sound(b, c)
    ensures Sound(a, c)
  {
    GrowsOn(a, b, c);
  }

  lemma FloorIsSound(a: Account, e: Entry)
    ensures Sound(a, Floor(a, e))
  {
  }

  lemma HearIsSound(a: Account, v: Verdict)
    ensures Sound(a, Hear(a, v))
  {
    assert (a.heard + [v])[..|a.heard|] == a.heard;
  }

  lemma FoldFindingIsSound(path: string, a: Account, f: Finding)
    ensures Sound(a, FoldFinding(path, a, f))
  {
    var b := Hear(a, f.verdict);
    HearIsSound(a, f.verdict);
    FloorIsSound(b.(capped := true), FindingsCap);
    assert Sound(b, FoldFinding(path, a, f));
    SoundOn(a, b, FoldFinding(path, a, f));
  }

  lemma {:induction false} FoldFindingsIsSound(path: string, a: Account, fs: seq<Finding>)
    ensures Sound(a, FoldFindings(path, a, fs))
  {
    if fs != [] {
      var n := |fs| - 1;
      FoldFindingsIsSound(path, a, fs[..n]);
      var b := FoldFindings(path, a, fs[..n]);
      FoldFindingIsSound(path, b, fs[n]);
      SoundOn(a, b, FoldFinding(path, b, fs[n]));
    }
  }

  lemma CloseIsSound(a: Account, rep: EngineReport)
    ensures Sound(a, Close(a, rep))
  {
    HearIsSound(a, rep.verdict);
  }

  lemma FoldOutcomeIsSound(item: Item, a: Account, e: Engine, o: Outcome)
    ensures Sound(a, FoldOutcome(item, a, e, o))
  {
    match o
    case Failed => FloorIsSound(a, EngineError(e, item.path));
    case Completed(rep) =>
      var b := FoldFindings(item.path, a, rep.findings);
      FoldFindingsIsSound(item.path, a, rep.findings);
      CloseIsSound(b, rep);
      SoundOn(a, b, Close(b, rep));
  }

  lemma {:induction false} FoldCallsIsSound(world: World, item: Item, a: Account, calls: seq<Engine>)
    ensures Sound(a, FoldCalls(world, item, a, calls))
  {
    if calls != [] {
      var n := |calls| - 1;
      FoldCallsIsSound(world, item, a, calls[..n]);
      var b := FoldCalls(world, item, a, calls[..n]);
      var o := world(item.at, calls[n]);
      FoldOutcomeIsSound(item, b, calls[n], o);
      SoundOn(a, b, FoldOutcome(item, b, calls[n], o));
    }
  }

  lemma AnalyzedIsSound(world: World, input: Input, p: Progress, item: Item)
    ensures Sound(p.account, Analyzed(world, input, p, item).account)
  {
    var a := Greet(p.account, item);
    assert Sound(p.account, a);
    var calls := Calls(input, item, ReportOf(world(item.at, Ident)), !p.ingestCapped);
    FoldCallsIsSound(world, item, a, calls);
    SoundOn(p.account, a, FoldCalls(world, item, a, calls));
  }

  lemma AbsorbIsSound(p: Progress, item: Item, o: Outcome)
    ensures Sound(p.account, Absorb(p, item, o).account)
  {
    FloorIsSound(p.account, IngestCap(item.path));
    FloorIsSound(p.account, DepthCap(item.path));
  }

  lemma StepIsSound(world: World, input: Input, p: Progress)
    requires p.queue != []
    ensures Sound(p.account, Step(world, input, p).account)
  {
    var item, popped := p.queue[0], Pop(p);
    AnalyzedIsSound(world, input, popped, item);
    var q := Analyzed(world, input, popped, item);
    if !p.ingestCapped {
      AbsorbIsSound(q, item, world(item.at, Extract));
      SoundOn(p.account, q.account, Absorb(q, item, world(item.at, Extract)).account);
    }
  }

  lemma NextIsSound(world: World, input: Input, p: Progress)
    ensures Sound(p.account, Next(world, input, p).account)
  {
    if p.queue != [] && |p.done| < MAX_ARTIFACTS {
      StepIsSound(world, input, p);
    }
  }

  /** At every step the verdict is the join of UNKNOWN, of everything any engine has said so
      far, listed or omitted, and of the floor that an incomplete run carries. */
  lemma VerdictAtEveryStep(world: World, input: Input, n: nat)
    ensures VerdictIsJoin(Reached(world, input, n).account)
  {
    forall p: Progress | VerdictIsJoin(p.account)
      ensures VerdictIsJoin(Next(world, input, p).account)
    {
      NextIsSound(world, input, p);
    }
    HoldsAtEveryStep(world, input, (p: Progress) => VerdictIsJoin(p.account), n);
  }

  /** From any step to any later one nothing is taken back: the verdict never falls, the flag
      stays, findings are only added. */
  lemma {:induction false} NothingIsTakenBack(world: World, input: Input, m: nat, n: nat)
    requires m <= n
    ensures Grows(Reached(world, input, m).account, Reached(world, input, n).account)
    decreases n
  {
    if m < n {
      NothingIsTakenBack(world, input, m, n - 1);
      NextIsSound(world, input, Reached(world, input, n - 1));
      GrowsOn(Reached(world, input, m).account, Reached(world, input, n - 1).account, Reached(world, input, n).account);
    }
  }

  lemma FinalVerdict(world: World, input: Input)
    ensures var a := Final(world, input).account;
            VerdictIsJoin(a) && a.verdict >= UNKNOWN && (a.incomplete ==> a.verdict >= SUSPICIOUS)
  {
    FinalIsReached(world, input);
    VerdictAtEveryStep(world, input, MAX_ARTIFACTS);
    FloorIsSound(Reached(world, input, MAX_ARTIFACTS).account, CountCap);
  }

  // ---- How much a run can say ----

  /** The lines of a result, counted by what they are. */
  datatype Counts = Counts(
    evidence: nat, hashes: nat, errors: nat, findingsCaps: nat, countCaps: nat, depthCaps: nat, ingestCaps: nat)

  function Bump(c: Counts, e: Entry): Counts {
    match e
    case Evidence(_, _) => c.(evidence := c.evidence + 1)
    case ArtifactHash(_, _) => c.(hashes := c.hashes + 1)
    case EngineError(_, _) => c.(errors := c.errors + 1)
    case FindingsCap => c.(findingsCaps := c.findingsCaps + 1)
    case CountCap => c.(countCaps := c.countCaps + 1)
    case DepthCap(_) => c.(depthCaps := c.depthCaps + 1)
    case IngestCap(_) => c.(ingestCaps := c.ingestCaps + 1)
  }

  function Tally(es: seq<Entry>): Counts {
    if es == [] then Counts(0, 0, 0, 0, 0, 0, 0) else Bump(Tally(es[..|es| - 1]), es[|es| - 1])
  }

  function Lines(c: Counts): nat {
    c.evidence + c.hashes + c.errors + c.findingsCaps + c.countCaps + c.depthCaps + c.ingestCaps
  }

  lemma TallyOneMore(es: seq<Entry>, e: Entry)
    ensures Tally(es + [e]) == Bump(Tally(es), e)
  {
    assert (es + [e])[..|es|] == es;
  }

  lemma {:induction false} EveryLineIsCounted(es: seq<Entry>)
    ensures |es| == Lines(Tally(es))
  {
    if es != [] {
      EveryLineIsCounted(es[..|es| - 1]);
    }
  }

  /** Each listed finding has paid for at least its overhead, and the cap is marked once. */
  ghost predicate Paid(c: Counts, bytes: nat, capped: bool) {
    && FINDING_OVERHEAD * c.evidence <= bytes <= MAX_FINDINGS_BYTES
    && c.findingsCaps == if capped then 1 else 0
  }

  ghost predicate Budgeted(a: Account) {
    Paid(Tally(a.entries), a.bytes, a.capped)
  }

  /** Folding outcomes adds evidence, its cap and `errors` error lines, and nothing else. */
  ghost predicate AddsErrors(a: Account, b: Account, errors: nat) {
    var c, d := Tally(a.entries), Tally(b.entries);
    && d.errors == c.errors + errors && d.hashes == c.hashes
    && d.countCaps == c.countCaps && d.depthCaps == c.depthCaps && d.ingestCaps == c.ingestCaps
  }

  lemma FoldFindingCounts(path: string, a: Account, f: Finding)
    requires Budgeted(a)
    ensures Budgeted(FoldFinding(path, a, f)) && AddsErrors(a, FoldFinding(path, a, f), 0)
  {
    TallyOneMore(a.entries, Evidence(f, path));
    TallyOneMore(a.entries, FindingsCap);
  }

  lemma {:induction false} FoldFindingsCounts(path: string, a: Account, fs: seq<Finding>)
    requires Budgeted(a)
    ensures Budgeted(FoldFindings(path, a, fs)) && AddsErrors(a, FoldFindings(path, a, fs), 0)
  {
    if fs != [] {
      var n := |fs| - 1;
      FoldFindingsCounts(path, a, fs[..n]);
      FoldFindingCounts(path, FoldFindings(path, a, fs[..n]), fs[n]);
    }
  }

  lemma FoldOutcomeCounts(item: Item, a: Account, e: Engine, o: Outcome)
    requires Budgeted(a)
    ensures Budgeted(FoldOutcome(item, a, e, o))
    ensures AddsErrors(a, FoldOutcome(item, a, e, o), if o.Failed? then 1 else 0)
  {
    match o
    case Failed => TallyOneMore(a.entries, EngineError(e, item.path));
    case Completed(rep) => FoldFindingsCounts(item.path, a, rep.findings);
  }

  function Failures(world: World, at: Position, calls: seq<Engine>): nat {
    if calls == [] then 0
    else Failures(world, at, calls[..|calls| - 1]) + if world(at, calls[|calls| - 1]).Failed? then 1 else 0
  }

  lemma {:induction false} FoldCallsCounts(world: World, item: Item, a: Account, calls: seq<Engine>)
    requires Budgeted(a)
    ensures Budgeted(FoldCalls(world, item, a, calls))
    ensures AddsErrors(a, FoldCalls(world, item, a, calls), Failures(world, item.at, calls))
  {
    if calls != [] {
      var n := |calls| - 1;
      FoldCallsCounts(world, item, a, calls[..n]);
      FoldOutcomeCounts(item, FoldCalls(world, item, a, calls[..n]), calls[n], world(item.at, calls[n]));
    }
  }

  lemma {:induction false} FailuresAreCalls(world: World, at: Position, calls: seq<Engine>)
    ensures Failures(world, at, calls) <= |calls|
    ensures |calls| > 0 && world(at, calls[0]).Completed? ==> Failures(world, at, calls) < |calls|
  {
    if calls != [] {
      FailuresAreCalls(world, at, calls[..|calls| - 1]);
    }
  }

  /** When identification fails nothing else but the signature scan and the extraction runs. */
  lemma FewFailures(world: World, input: Input, item: Item, extracting: bool)
    ensures var calls := Calls(input, item, ReportOf(world(item.at, Ident)), extracting);
            Failures(world, item.at, calls) <= if item.depth == 0 then 6 else 5
  {
    var calls := Calls(input, item, ReportOf(world(item.at, Ident)), extracting);
    FailuresAreCalls(world, item.at, calls);
    assert calls[0] == Ident;
  }

  /** One hash line per artifact below the root. */
  function HashLimit(artifacts: nat): nat {
    if artifacts > 0 then artifacts - 1 else 0
  }

  /** Five engine errors per artifact, and one more for the root. */
  function ErrorLimit(artifacts: nat): nat {
    if artifacts > 0 then 5 * artifacts + 1 else 0
  }

  ghost predicate WithinLimits(c: Counts, artifacts: nat, depthCapped: bool, ingestCapped: bool) {
    && c.hashes <= HashLimit(artifacts) && c.errors <= ErrorLimit(artifacts) && c.countCaps == 0
    && c.depthCaps == (if depthCapped then 1 else 0) && c.ingestCaps == (if ingestCapped then 1 else 0)
  }

  ghost predicate Bounded(p: Progress) {
    Budgeted(p.account) && WithinLimits(Tally(p.account.entries), |p.done|, p.depthCapped, p.ingestCapped)
  }

  lemma AnalyzedCounts(world: World, input: Input, p: Progress, item: Item)
    requires Budgeted(p.account)
    ensures var b, c := Analyzed(world, input, p, item).account, Tally(p.account.entries);
            var d := Tally(b.entries);
            && Budgeted(b)
            && d.hashes == c.hashes + (if item.depth > 0 then 1 else 0)
            && d.errors <= c.errors + (if item.depth == 0 then 6 else 5)
            && d.countCaps == c.countCaps && d.depthCaps == c.depthCaps && d.ingestCaps == c.ingestCaps
  {
    TallyOneMore(p.account.entries, ArtifactHash(item.sha, item.path));
    FoldCallsCounts(world, item, Greet(p.account, item),
                    Calls(input, item, ReportOf(world(item.at, Ident)), !p.ingestCapped));
    FewFailures(world, input, item, !p.ingestCapped);
  }

  lemma AbsorbCounts(p: Progress, item: Item, o: Outcome)
    requires Bounded(p) && !p.ingestCapped
    ensures Bounded(Absorb(p, item, o))
  {
    TallyOneMore(p.account.entries, IngestCap(item.path));
    TallyOneMore(p.account.entries, DepthCap(item.path));
  }

  lemma StepIsBounded(world: World, input: Input, p: Progress)
    requires p.queue != [] && Bounded(p) && (p.queue[0].depth == 0 <==> p.done == [])
    ensures Bounded(Step(world, input, p))
  {
    var item := p.queue[0];
    AnalyzedCounts(world, input, Pop(p), item);
    var q := Analyzed(world, input, Pop(p), item);
    assert Bounded(q);
    if !p.ingestCapped {
      AbsorbCounts(q, item, world(item.at, Extract));
    }
  }

  // ---- The order of the traversal ----

  function All(p: Progress): seq<Item> {
    p.done + p.queue
  }

  /** What processing `item` appends to the queue. */
  function Added(p: Progress, item: Item, o: Outcome): seq<Item> {
    if p.ingestCapped || o.Failed? || p.ingested + o.report.ingestedBytes > MAX_SUBMISSION_INGEST
       || item.depth + 1 > MAX_DEPTH
    then []
    else ChildItems(item, o.report.children)
  }

  lemma ProcessAppends(world: World, input: Input, p: Progress, item: Item)
    ensures var q := Process(world, input, p, item);
            q.done == p.done && q.queue == p.queue + Added(p, item, world(item.at, Extract))
  {
    assert p.queue + [] == p.queue;
  }

  lemma PopAndAppend(done: seq<Item>, queue: seq<Item>, more: seq<Item>)
    requires queue != []
    ensures (done + [queue[0]]) + (queue[1..] + more) == (done + queue) + more
  {
    assert queue == [queue[0]] + queue[1..];
  }

  lemma StepAppends(world: World, input: Input, p: Progress)
    requires p.queue != []
    ensures All(Step(world, input, p)) == All(p) + Added(p, p.queue[0], world(p.queue[0].at, Extract))
  {
    var item := p.queue[0];
    ProcessAppends(world, input, Pop(p), item);
    PopAndAppend(p.done, p.queue, Added(p, item, world(item.at, Extract)));
  }

  const MAX_CRUMB := MAX_CRUMB_PATH + 1

  predicate ShortAndClean(path: string) {
    |path| <= MAX_CRUMB && forall i :: 0 <= i < |path| ==> !IsControlByte(path[i])
  }

  lemma ShortAndCleanMeans(path: string)
    ensures ShortAndClean(path) <==> |path| <= 1025 && forall i :: 0 <= i < |path| ==> 0x20 <= path[i] as int != 0x7f
  {
  }

  lemma {:induction false} DropTailIsPrefix(s: string)
    ensures DropTail(s) <= s
  {
    if s != [] && !StartsRune(s[|s| - 1]) {
      DropTailIsPrefix(s[..|s| - 1]);
    }
  }

  /** However long and dirty the names inside an archive are, a breadcrumb stays within 1025
      bytes and free of control bytes. */
  lemma CrumbIsShortAndClean(parent: string, name: string)
    requires ShortAndClean(parent)
    ensures ShortAndClean(Crumb(parent, name))
  {
    var dotted := DotControls(name);
    var segment := ClampBytes(dotted, MAX_CRUMB_SEGMENT);
    if |dotted| > MAX_CRUMB_SEGMENT {
      DropTailIsPrefix(dotted[..MAX_CRUMB_SEGMENT]);
    }
    assert ShortAndClean(segment);
    var whole := parent + "!" + segment;
    if |whole| > MAX_CRUMB_PATH {
      DropTailIsPrefix(whole[..MAX_CRUMB_PATH]);
    }
  }

  /** Text that is too long loses its end at a place where a character starts, and shows it. */
  lemma {:induction false} CutAtStart(s: string, n: nat)
    requires n < |s|
    ensures var r := ClampBytes(s, n); var k := |r| - 1;
            && 0 <= k <= n && r == s[..k] + "~" && (k > 0 ==> StartsRune(s[k - 1]))
            && forall i :: k <= i < n ==> !StartsRune(s[i])
    decreases n
  {
    if n > 0 && !StartsRune(s[n - 1]) {
      assert s[..n][..n - 1] == s[..n - 1];
      CutAtStart(s, n - 1);
    }
  }

  /** A breadcrumb spells the way: the names from the root on, while they are clean and fit. */
  lemma CrumbSpellsTheWay(parent: string, name: string)
    requires |name| <= 256 && |parent| + 1 + |name| <= 1024
    requires forall i :: 0 <= i < |name| ==> 0x20 <= name[i] as int != 0x7f
    ensures Crumb(parent, name) == if parent == "" then name else parent + "!" + name
  {
    assert DotControls(name) == name;
  }

  ghost predicate DepthsAscend(all: seq<Item>) {
    forall i, j :: 0 <= i <= j < |all| ==> all[i].depth <= all[j].depth
  }

  ghost predicate WellFormed(all: seq<Item>) {
    && |all| > 0 && all[0].depth == 0 && (forall i :: 0 < i < |all| ==> all[i].depth > 0)
    && forall i :: 0 <= i < |all| ==> all[i].depth <= MAX_DEPTH && ShortAndClean(all[i].path)
  }

  /** Nothing known lies more than one level below the next artifact. */
  ghost predicate Frontier(all: seq<Item>, next: nat) {
    next < |all| ==> forall i :: 0 <= i < |all| ==> all[i].depth <= all[next].depth + 1
  }

  ghost predicate InOrder(p: Progress) {
    DepthsAscend(All(p)) && WellFormed(All(p)) && Frontier(All(p), |p.done|)
  }

  lemma AppendChildren(all: seq<Item>, next: nat, item: Item, cs: seq<Child>)
    requires DepthsAscend(all) && WellFormed(all) && Frontier(all, next)
    requires next < |all| && all[next] == item && item.depth + 1 <= MAX_DEPTH
    ensures DepthsAscend(all + ChildItems(item, cs)) && WellFormed(all + ChildItems(item, cs))
    ensures Frontier(all + ChildItems(item, cs), next + 1)
  {
    var more := ChildItems(item, cs);
    forall i | 0 <= i < |more|
      ensures ShortAndClean(more[i].path)
    {
      CrumbIsShortAndClean(item.path, cs[i].name);
    }
  }

  lemma StepKeepsOrder(world: World, input: Input, p: Progress)
    requires p.queue != [] && InOrder(p)
    ensures InOrder(Step(world, input, p))
  {
    StepAppends(world, input, p);
    StepAdvances(world, input, p);
    var item := p.queue[0];
    assert All(p)[|p.done|] == item;
    if Added(p, item, world(item.at, Extract)) != [] {
      AppendChildren(All(p), |p.done|, item, world(item.at, Extract).report.children);
    } else {
      assert All(p) + [] == All(p);
    }
  }

  lemma InitialIsInOrder(input: Input)
    ensures InOrder(Initial(input))
  {
    assert All(Initial(input)) == [Root(input)];
  }

  lemma NextKeepsOrder(world: World, input: Input, p: Progress)
    requires InOrder(p)
    ensures InOrder(Next(world, input, p))
  {
    if p.queue != [] && |p.done| < MAX_ARTIFACTS {
      StepKeepsOrder(world, input, p);
    }
  }

  lemma OrderAtEveryStep(world: World, input: Input, n: nat)
    ensures InOrder(Reached(world, input, n))
  {
    InitialIsInOrder(input);
    forall p | InOrder(p)
      ensures InOrder(Next(world, input, p))
    {
      NextKeepsOrder(world, input, p);
    }
    HoldsAtEveryStep(world, input, p => InOrder(p), n);
  }

  // ---- Ingested bytes ----

  /** What one extraction may bring in; the ingest loop keeps below it. */
  ghost predicate ExtractionsBounded(world: World, limit: nat) {
    forall at :: world(at, Extract).Completed? ==> world(at, Extract).report.ingestedBytes < limit
  }

  ghost predicate IngestBounded(p: Progress, limit: nat) {
    p.ingested < MAX_SUBMISSION_INGEST + limit && (!p.ingestCapped ==> p.ingested <= MAX_SUBMISSION_INGEST)
  }

  lemma StepKeepsIngest(world: World, input: Input, p: Progress, limit: nat)
    requires p.queue != [] && ExtractionsBounded(world, limit) && IngestBounded(p, limit)
    ensures IngestBounded(Step(world, input, p), limit)
  {
  }

  // ---- The bounds of a whole run ----

  ghost predicate Contained(p: Progress, limit: nat) {
    Bounded(p) && InOrder(p) && IngestBounded(p, limit)
  }

  lemma InitialIsContained(input: Input, limit: nat)
    requires limit > 0
    ensures Contained(Initial(input), limit)
  {
    InitialIsInOrder(input);
  }

  lemma OnlyTheRootComesFirst(p: Progress)
    requires InOrder(p) && p.queue != []
    ensures p.queue[0].depth == 0 <==> p.done == []
  {
    assert All(p)[|p.done|] == p.queue[0];
  }

  lemma NextIsContained(world: World, input: Input, p: Progress, limit: nat)
    requires ExtractionsBounded(world, limit) && Contained(p, limit)
    ensures Contained(Next(world, input, p), limit)
  {
    NextKeepsOrder(world, input, p);
    if p.queue != [] && |p.done| < MAX_ARTIFACTS {
      OnlyTheRootComesFirst(p);
      StepIsBounded(world, input, p);
      StepKeepsIngest(world, input, p, limit);
    }
  }

  lemma ContainedAtEveryStep(world: World, input: Input, limit: nat, n: nat)
    requires limit > 0 && ExtractionsBounded(world, limit)
    ensures Contained(Reached(world, input, n), limit)
  {
    InitialIsContained(input, limit);
    forall p | Contained(p, limit)
      ensures Contained(Next(world, input, p), limit)
    {
      NextIsContained(world, input, p, limit);
    }
    HoldsAtEveryStep(world, input, p => Contained(p, limit), n);
  }

  /** Budgets, for every oracle: at most 200 artifacts, in non-decreasing depth, none deeper
      than 8, every breadcrumb short and clean; the ingested bytes below 2 GiB plus what one
      extraction may bring; and at most 8192 listed findings plus 1204 other lines. */
  lemma BudgetsHold(world: World, input: Input, limit: nat)
    requires limit > 0 && ExtractionsBounded(world, limit)
    ensures var p := Final(world, input);
            && |p.done| <= MAX_ARTIFACTS && DepthsAscend(p.done)
            && (forall i :: 0 <= i < |p.done| ==> p.done[i].depth <= MAX_DEPTH && ShortAndClean(p.done[i].path))
            && p.ingested < MAX_SUBMISSION_INGEST + limit
            && Tally(p.account.entries).evidence <= 8192
            && |ResultOf(p).findings| <= 8192 + 1204
  {
    FinalIsReached(world, input);
    ReachedCounts(world, input, MAX_ARTIFACTS);
    ContainedAtEveryStep(world, input, limit, MAX_ARTIFACTS);
    var p, last := Final(world, input), Reached(world, input, MAX_ARTIFACTS);
    assert forall i :: 0 <= i < |last.done| ==> All(last)[i] == last.done[i];
    FinishCounts(last);
  }

  lemma FinishCounts(p: Progress)
    requires Bounded(p) && |p.done| <= MAX_ARTIFACTS
    ensures Tally(Finish(p).account.entries).evidence <= 8192
    ensures |Finish(p).account.entries| <= 8192 + 1204
  {
    EveryLineIsCounted(p.account.entries);
    TallyOneMore(p.account.entries, CountCap);
  }
}
