/** Two results whose findings are larger than two MiB once serialized: one in which hundreds of
    engine calls fail, and one in which nothing fails at all. */
module SubmissionOversize {
  import opened Pipeline
  import opened SubmissionFlow
  import opened SubmissionSafety
  import opened SubmissionRefinement
  import opened SubmissionLines
  import opened SubmissionSize

  lemma {:induction false} WeighGrows(weight: Entry -> nat, a: seq<Entry>, b: seq<Entry>)
    requires a <= b
    ensures Weigh(weight, a) <= Weigh(weight, b)
  {
    assert b == a + b[|a|..];
    WeighConcat(weight, a, b[|a|..]);
  }

  function Repeat(c: char, n: nat): (s: string)
    ensures |s| == n && forall i :: 0 <= i < n ==> s[i] == c
  {
    seq(n, _ => c)
  }

  // ---- Every finding that fits is listed ----

  lemma OneMoreOf(size: nat, k: nat)
    ensures size * (k + 1) == size * k + size
  {
  }

  lemma {:induction false} CopiesAdd(weight: Entry -> nat, path: string, a: Account, f: Finding, k: nat)
    requires a.bytes + Size(path, f) * k <= MAX_FINDINGS_BYTES
    ensures var b := FoldFindings(path, a, seq(k, _ => f));
            && b.bytes == a.bytes + Size(path, f) * k && b.incomplete == a.incomplete
            && Weigh(weight, b.entries) == Weigh(weight, a.entries) + weight(Evidence(f, path)) * k
  {
    if k > 0 {
      var fs := seq(k, _ => f);
      assert fs[..k - 1] == seq(k - 1, _ => f);
      OneMoreOf(Size(path, f), k - 1);
      OneMoreOf(weight(Evidence(f, path)), k - 1);
      CopiesAdd(weight, path, a, f, k - 1);
      WeighOneMore(weight, FoldFindings(path, a, fs[..k - 1]).entries, Evidence(f, path));
    }
  }

  /** A whole report of such copies. */
  lemma CopiesReported(weight: Entry -> nat, item: Item, a: Account, e: Engine, o: Outcome, f: Finding, k: nat)
    requires o.Completed? && o.report.findings == seq(k, _ => f) && !o.report.incomplete
    requires a.bytes + Size(item.path, f) * k <= MAX_FINDINGS_BYTES
    ensures var b := FoldOutcome(item, a, e, o);
            && b.bytes == a.bytes + Size(item.path, f) * k && b.incomplete == a.incomplete
            && Weigh(weight, b.entries) == Weigh(weight, a.entries) + weight(Evidence(f, item.path)) * k
  {
    CopiesAdd(weight, item.path, a, f, k);
  }

  lemma ManyWeigh(unit: nat, least: nat, k: nat)
    requires unit >= least
    ensures unit * k >= least * k
  {
  }

  // ---- Failed calls ----

  /** An error weighs at least its path and a hundred bytes. */
  ghost predicate HeavyErrors(weight: Entry -> nat) {
    forall e, path :: weight(EngineError(e, path)) >= |path| + 100
  }

  lemma ErrorIsLong(e: Engine, path: string)
    ensures LineJson(EngineError(e, path)) >= |path| + 100
  {
    var f := Render(EngineError(e, path));
    assert |f.detail| >= 20;
  }

  lemma JsonErrorsAreHeavy()
    ensures HeavyErrors(LineJson)
  {
    forall e, path
      ensures LineJson(EngineError(e, path)) >= |path| + 100
    {
      ErrorIsLong(e, path);
    }
  }

  lemma {:induction false} FindingsNeverShrink(path: string, a: Account, fs: seq<Finding>)
    ensures a.entries <= FoldFindings(path, a, fs).entries
  {
    if fs != [] {
      FindingsNeverShrink(path, a, fs[..|fs| - 1]);
    }
  }

  lemma OutcomeAdds(weight: Entry -> nat, item: Item, a: Account, e: Engine, o: Outcome)
    requires HeavyErrors(weight)
    ensures Weigh(weight, FoldOutcome(item, a, e, o).entries) >=
            Weigh(weight, a.entries) + if o.Failed? then |item.path| + 100 else 0
  {
    match o
    case Failed => WeighOneMore(weight, a.entries, EngineError(e, item.path));
    case Completed(rep) =>
      FindingsNeverShrink(item.path, a, rep.findings);
      WeighGrows(weight, a.entries, FoldOutcome(item, a, e, o).entries);
  }

  lemma {:induction false} FailuresAdd(weight: Entry -> nat, world: World, item: Item, a: Account, calls: seq<Engine>,
                                       line: nat)
    requires HeavyErrors(weight) && line == |item.path| + 100
    ensures Weigh(weight, FoldCalls(world, item, a, calls).entries) >=
            Weigh(weight, a.entries) + line * Failures(world, item.at, calls)
  {
    if calls != [] {
      var n := |calls| - 1;
      FailuresAdd(weight, world, item, a, calls[..n], line);
      OutcomeAdds(weight, item, FoldCalls(world, item, a, calls[..n]), calls[n], world(item.at, calls[n]));
      OneMoreOf(line, Failures(world, item.at, calls[..n]));
    }
  }

  lemma AnalyzedAdds(weight: Entry -> nat, world: World, input: Input, p: Progress, item: Item, line: nat)
    requires HeavyErrors(weight) && line == |item.path| + 100
    ensures var calls := Calls(input, item, ReportOf(world(item.at, Ident)), !p.ingestCapped);
            Weigh(weight, Analyzed(world, input, p, item).account.entries) >=
            Weigh(weight, p.account.entries) + line * Failures(world, item.at, calls)
  {
    WeighGrows(weight, p.account.entries, Greet(p.account, item).entries);
    FailuresAdd(weight, world, item, Greet(p.account, item),
                Calls(input, item, ReportOf(world(item.at, Ident)), !p.ingestCapped), line);
  }

  lemma ThreeCalls(world: World, item: Item, a: Account)
    ensures var b := FoldOutcome(item, FoldOutcome(item, a, Ident, world(item.at, Ident)), Yara, world(item.at, Yara));
            FoldCalls(world, item, a, [Ident, Yara, Extract]) == FoldOutcome(item, b, Extract, world(item.at, Extract))
  {
    TwoCalls(world, item, a, Ident, Yara);
    OneMoreCall(world, item, a, [Ident, Yara], Extract);
    assert [Ident, Yara] + [Extract] == [Ident, Yara, Extract];
  }

  // Four archives inside one another, the innermost with 196 executables on which every
  // engine but the identification fails; the root alone has spent the findings budget.

  const NAME := Repeat('n', 256)
  const SHA := Repeat('0', 64)
  const LONG := Finding("mal-static-yara", "yara", Repeat('x', 8192), "", SUSPICIOUS, CONF_HIGH, "")
  const PROGRAM := Finding("mal-ident", "file-type", "pebin", "", UNKNOWN, CONF_LOW, "")

  function Packed(at: Position): seq<Child> {
    seq(if |at| == 3 then 196 else 1, _ => Child(SHA, 1, NAME))
  }

  function Nest(at: Position, e: Engine): Outcome {
    if |at| < 4 then
      Completed(EngineReport(if at == [] && e.Yara? then seq(125, _ => LONG) else [],
                             if e.Extract? then Packed(at) else [], UNKNOWN, false, 1))
    else if e.Ident? then Completed(EngineReport([PROGRAM], [], UNKNOWN, false, 0))
    else Failed
  }

  const ROOT_ONLY := Input(SHA, false)

  /** A state on the way to the end of the run, after `n` artifacts, with `queue` left to do. */
  ghost predicate OnTheWay(p: Progress, n: nat, queue: seq<Item>) {
    && Loop(Nest, ROOT_ONLY, p) == Final(Nest, ROOT_ONLY)
    && p.queue == queue && |p.done| == n && !p.ingestCapped && p.ingested <= n
  }

  lemma StepIsOnTheWay(p: Progress, n: nat, queue: seq<Item>)
    requires OnTheWay(p, n, queue) && queue != [] && n < MAX_ARTIFACTS
    ensures Loop(Nest, ROOT_ONLY, Step(Nest, ROOT_ONLY, p)) == Final(Nest, ROOT_ONLY)
  {
  }

  lemma CallsOf(item: Item)
    requires |item.at| < 4
    ensures var ident := ReportOf(Nest(item.at, Ident)); Calls(ROOT_ONLY, item, ident, true) == [Ident, Yara, Extract]
  {
  }

  lemma LeafCalls(item: Item)
    requires |item.at| >= 4 && item.depth > 0
    ensures var ident := ReportOf(Nest(item.at, Ident));
            Calls(ROOT_ONLY, item, ident, true) == [Ident, Yara, Capa, Die, Floss, Extract]
  {
    var ident := ReportOf(Nest(item.at, Ident));
    assert ident.findings == [PROGRAM] && PROGRAM.kind == "file-type" && PROGRAM.detail == "pebin";
    assert IsExecutableFinding(ident.findings[0]);
    assert "pebin" != "elf" by { assert "pebin"[0] != "elf"[0]; }
  }

  lemma LeafFails(item: Item)
    requires |item.at| >= 4 && item.depth > 0
    ensures var ident := ReportOf(Nest(item.at, Ident));
            Failures(Nest, item.at, Calls(ROOT_ONLY, item, ident, true)) == 5
  {
    LeafCalls(item);
    var calls := [Ident, Yara, Capa, Die, Floss, Extract];
    assert calls[..5] == [Ident, Yara, Capa, Die, Floss] && calls[..5][..4] == [Ident, Yara, Capa, Die];
    assert calls[..4] == [Ident, Yara, Capa, Die] && calls[..4][..3] == [Ident, Yara, Capa];
    assert [Ident, Yara, Capa][..2] == [Ident, Yara] && [Ident, Yara][..1] == [Ident] && [Ident][..0] == [];
    assert Failures(Nest, item.at, [Ident]) == 0;
    assert Failures(Nest, item.at, [Ident, Yara]) == 1;
    assert Failures(Nest, item.at, [Ident, Yara, Capa]) == 2;
    assert Failures(Nest, item.at, [Ident, Yara, Capa, Die]) == 3;
    assert Failures(Nest, item.at, [Ident, Yara, Capa, Die, Floss]) == 4;
  }

  lemma ArchiveMoves(p: Progress, item: Item)
    requires p.queue == [item] && !p.ingestCapped && p.ingested < 4 && |item.at| == item.depth < 4
    ensures var q := Step(Nest, ROOT_ONLY, p);
            && q.queue == ChildItems(item, Packed(item.at)) && !q.ingestCapped && q.ingested == p.ingested + 1
            && |q.done| == |p.done| + 1
  {
    var q := Analyzed(Nest, ROOT_ONLY, Pop(p), item);
    assert q.queue == [] && q.ingested == p.ingested && !q.ingestCapped;
    var o := Nest(item.at, Extract);
    assert o.Completed? && o.report.ingestedBytes == 1 && o.report.children == Packed(item.at);
    assert Absorb(q, item, o).queue == [] + ChildItems(item, Packed(item.at));
    StepAdvances(Nest, ROOT_ONLY, p);
  }

  /** An archive of the chain hands on what is packed in it. */
  lemma ArchiveStep(weight: Entry -> nat, p: Progress, n: nat, item: Item) returns (q: Progress)
    requires n < 4 && OnTheWay(p, n, [item]) && |item.at| == item.depth == n
    ensures OnTheWay(q, n + 1, ChildItems(item, Packed(item.at)))
    ensures Weigh(weight, q.account.entries) >= Weigh(weight, p.account.entries) && q == Step(Nest, ROOT_ONLY, p)
  {
    q := Step(Nest, ROOT_ONLY, p);
    StepIsOnTheWay(p, n, [item]);
    ArchiveMoves(p, item);
    StepIsSound(Nest, ROOT_ONLY, p);
    WeighGrows(weight, p.account.entries, q.account.entries);
  }

  lemma LeafAdds(weight: Entry -> nat, p: Progress, item: Item)
    requires HeavyErrors(weight)
    requires |item.at| >= 4 && item.depth > 0 && |item.path| >= 1024 && !p.ingestCapped
    ensures Weigh(weight, Analyzed(Nest, ROOT_ONLY, p, item).account.entries) >= Weigh(weight, p.account.entries) + 5620
  {
    var line := |item.path| + 100;
    LeafFails(item);
    AnalyzedAdds(weight, Nest, ROOT_ONLY, p, item, line);
    assert line * 5 >= 5620;
  }

  lemma LeafMoves(p: Progress)
    requires p.queue != [] && !p.ingestCapped && |p.queue[0].at| >= 4
    ensures var q := Step(Nest, ROOT_ONLY, p);
            && q == Analyzed(Nest, ROOT_ONLY, Pop(p), p.queue[0]) && q.queue == p.queue[1..]
            && !q.ingestCapped && q.ingested == p.ingested && |q.done| == |p.done| + 1
  {
  }

  predicate IsLeaf(item: Item) {
    |item.at| == item.depth == 4 && |item.path| == 1025
  }

  /** An executable leaves five errors and nothing to do. */
  lemma LeafStep(weight: Entry -> nat, p: Progress, n: nat, queue: seq<Item>) returns (q: Progress)
    requires HeavyErrors(weight) && n < MAX_ARTIFACTS && OnTheWay(p, n, queue) && queue != [] && IsLeaf(queue[0])
    ensures OnTheWay(q, n + 1, queue[1..])
    ensures Weigh(weight, q.account.entries) >= Weigh(weight, p.account.entries) + 5620
  {
    q := Step(Nest, ROOT_ONLY, p);
    StepIsOnTheWay(p, n, queue);
    LeafMoves(p);
    LeafAdds(weight, Pop(p), queue[0]);
  }

  ghost predicate Leaves(queue: seq<Item>) {
    forall i :: 0 <= i < |queue| ==> IsLeaf(queue[i])
  }

  lemma RestAreLeaves(queue: seq<Item>)
    requires Leaves(queue) && queue != []
    ensures IsLeaf(queue[0]) && Leaves(queue[1..]) && |queue[1..]| == |queue| - 1
  {
  }

  lemma {:induction false} LeavesAreWalked(weight: Entry -> nat, p: Progress, n: nat, leaves: seq<Item>, k: nat)
    returns (q: Progress)
    requires HeavyErrors(weight) && OnTheWay(p, n, leaves) && Leaves(leaves)
    requires k == |leaves| && n + k <= MAX_ARTIFACTS
    ensures OnTheWay(q, n + k, [])
    ensures Weigh(weight, q.account.entries) >= Weigh(weight, p.account.entries) + 5620 * k
    decreases k
  {
    if k == 0 {
      q := p;
    } else {
      RestAreLeaves(leaves);
      var next := LeafStep(weight, p, n, leaves);
      q := LeavesAreWalked(weight, next, n + 1, leaves[1..], k - 1);
    }
  }

  lemma NameIsKept()
    ensures ClampBytes(DotControls(NAME), MAX_CRUMB_SEGMENT) == NAME
  {
    assert DotControls(NAME) == NAME;
  }

  /** Three segments fit in a breadcrumb, the fourth does not. */
  lemma CrumbLength(parent: string)
    requires |parent| <= 770
    ensures var n := |Crumb(parent, NAME)|;
            if parent == "" then n == 256 else if |parent| <= 767 then n == |parent| + 257 else n == 1025
  {
    NameIsKept();
    var whole := parent + "!" + NAME;
    if |parent| > 767 {
      assert whole[..MAX_CRUMB_PATH][MAX_CRUMB_PATH - 1] == 'n';
    }
  }

  /** The only artifact in the queue after `n` archives of the chain. */
  predicate IsArchive(item: Item, n: nat) {
    |item.at| == item.depth == n && |item.path| == (if n == 0 then 0 else 257 * n - 1)
  }

  lemma NextArchive(item: Item, n: nat) returns (next: Item)
    requires n < 3 && IsArchive(item, n)
    ensures ChildItems(item, Packed(item.at)) == [next] && IsArchive(next, n + 1)
  {
    CrumbLength(item.path);
    next := Item(SHA, Crumb(item.path, NAME), item.depth + 1, item.at + [0]);
    assert ChildItems(item, Packed(item.at)) == [next];
  }

  lemma LeavesOf(item: Item)
    requires IsArchive(item, 3)
    ensures var leaves := ChildItems(item, Packed(item.at));
            |leaves| == 196 && Leaves(leaves)
  {
    CrumbLength(item.path);
  }

  /** From the first archive to the executables. */
  lemma {:induction false} ChainIsWalked(weight: Entry -> nat, p: Progress, n: nat, item: Item)
    returns (q: Progress, leaves: seq<Item>)
    requires n < 4 && OnTheWay(p, n, [item]) && IsArchive(item, n)
    ensures OnTheWay(q, 4, leaves) && |leaves| == 196 && Leaves(leaves)
    ensures Weigh(weight, q.account.entries) >= Weigh(weight, p.account.entries)
    decreases 4 - n
  {
    var r := ArchiveStep(weight, p, n, item);
    if n == 3 {
      LeavesOf(item);
      q, leaves := r, ChildItems(item, Packed(item.at));
    } else {
      var next := NextArchive(item, n);
      q, leaves := ChainIsWalked(weight, r, n + 1, next);
    }
  }

  lemma LongIsLong()
    ensures Size("", LONG) == 8339 && LineJson(Evidence(LONG, "")) >= 8192
  {
  }

  lemma RootAccount(weight: Entry -> nat, a: Account, o: Outcome, f: Finding)
    requires o.Completed? && o.report.findings == seq(125, _ => f) && !o.report.incomplete
    requires Size("", f) == 8339 && weight(Evidence(f, "")) >= 8192 && a.bytes == 0
    ensures Weigh(weight, FoldOutcome(Root(ROOT_ONLY), a, Yara, o).entries) >= 1_024_000
  {
    CopiesReported(weight, Root(ROOT_ONLY), a, Yara, o, f, 125);
    ManyWeigh(weight(Evidence(f, "")), 8192, 125);
  }

  /** The root alone spends the budget but for some 6000 bytes. */
  lemma RootSpends(weight: Entry -> nat)
    requires HeavyErrors(weight) && weight(Evidence(LONG, "")) >= 8192
    ensures Weigh(weight, Step(Nest, ROOT_ONLY, Initial(ROOT_ONLY)).account.entries) >= 1_024_000
  {
    var item := Root(ROOT_ONLY);
    CallsOf(item);
    ThreeCalls(Nest, item, OPENED);
    var a := FoldOutcome(item, OPENED, Ident, Nest([], Ident));
    LongIsLong();
    RootAccount(weight, a, Nest([], Yara), LONG);
    OutcomeAdds(weight, item, FoldOutcome(item, a, Yara, Nest([], Yara)), Extract, Nest([], Extract));
    var q := Analyzed(Nest, ROOT_ONLY, Pop(Initial(ROOT_ONLY)), item);
    WeighGrows(weight, q.account.entries, Absorb(q, item, Nest([], Extract)).account.entries);
  }

  lemma NestIsWalked(weight: Entry -> nat)
    requires HeavyErrors(weight) && weight(Evidence(LONG, "")) >= 8192
    ensures Weigh(weight, Final(Nest, ROOT_ONLY).account.entries) > TRANSPORT
  {
    var root := Root(ROOT_ONLY);
    var first := ArchiveStep(weight, Initial(ROOT_ONLY), 0, root);
    RootSpends(weight);
    var next := NextArchive(root, 0);
    var last, leaves := ChainIsWalked(weight, first, 1, next);
    var end := LeavesAreWalked(weight, last, 4, leaves, 196);
    assert Loop(Nest, ROOT_ONLY, end) == end;
  }

  lemma NestIsNamedByHash()
    ensures NamedByHash(Nest)
  {
  }

  /** The findings are meant to stay well under two MiB; here 980 engine calls fail on paths of
      1025 bytes, and they do not. */
  lemma FailuresCanExceed()
    ensures NamedByHash(Nest) && JsonOf(ResultOf(Final(Nest, ROOT_ONLY)).findings) > TRANSPORT
  {
    NestIsNamedByHash();
    JsonErrorsAreHeavy();
    LongIsLong();
    NestIsWalked(LineJson);
    RenderedJson(Final(Nest, ROOT_ONLY).account.entries);
  }

  // One artifact, two reports of forty findings, each of them eight thousand times the same
  // character, which takes six bytes when it is serialized.

  const ANGLES := Finding("mal-static-yara", "yara", Repeat('<', 8000), "", SUSPICIOUS, CONF_HIGH, "")

  function Angled(at: Position, e: Engine): Outcome {
    Completed(EngineReport(if e.Ident? || e.Yara? then seq(40, _ => ANGLES) else [], [], UNKNOWN, false, 0))
  }

  lemma {:induction false} AnglesAreEscaped(n: nat)
    ensures TextBytes(Repeat('<', n)) == ESCAPED * n
  {
    if n > 0 {
      assert Repeat('<', n)[1..] == Repeat('<', n - 1);
      AnglesAreEscaped(n - 1);
    }
  }

  lemma AnglesAreLong()
    ensures Size("", ANGLES) == 8147 && LineJson(Evidence(ANGLES, "")) >= 48_000
  {
    AnglesAreEscaped(8000);
    JsonIsTexts(ANGLES);
    assert Render(Evidence(ANGLES, "")) == ANGLES;
  }

  predicate Answers(o: Outcome, fs: seq<Finding>) {
    o.Completed? && o.report.findings == fs && !o.report.incomplete
  }

  lemma AngledCalls()
    ensures Calls(ROOT_ONLY, Root(ROOT_ONLY), ReportOf(Angled([], Ident)), true) == [Ident, Yara, Extract]
  {
  }

  /** A report of forty such findings is listed whole. */
  lemma AngledReport(weight: Entry -> nat, a: Account, e: Engine, o: Outcome, f: Finding)
    requires Answers(o, seq(40, _ => f))
    requires Size("", f) == 8147 && weight(Evidence(f, "")) >= 48_000 && a.bytes <= 325_880
    ensures var b := FoldOutcome(Root(ROOT_ONLY), a, e, o);
            && b.bytes == a.bytes + 325_880 && b.incomplete == a.incomplete
            && Weigh(weight, b.entries) >= Weigh(weight, a.entries) + 1_920_000
  {
    CopiesReported(weight, Root(ROOT_ONLY), a, e, o, f, 40);
    ManyWeigh(weight(Evidence(f, "")), 48_000, 40);
  }

  /** The three outcomes, one after the other. */
  lemma AngledAccount(weight: Entry -> nat, o: Outcome, last: Outcome, f: Finding)
    requires Answers(o, seq(40, _ => f)) && Answers(last, [])
    requires Size("", f) == 8147 && weight(Evidence(f, "")) >= 48_000
    ensures var root := Root(ROOT_ONLY);
            var a := FoldOutcome(root, FoldOutcome(root, FoldOutcome(root, OPENED, Ident, o), Yara, o), Extract, last);
            !a.incomplete && a.bytes == 651_760 && Weigh(weight, a.entries) >= 3_840_000
  {
    AngledReport(weight, OPENED, Ident, o, f);
    AngledReport(weight, FoldOutcome(Root(ROOT_ONLY), OPENED, Ident, o), Yara, o, f);
  }

  lemma AngledStep()
    ensures var p := Step(Angled, ROOT_ONLY, Initial(ROOT_ONLY));
            p.queue == [] && p.account == FoldCalls(Angled, Root(ROOT_ONLY), OPENED, [Ident, Yara, Extract])
  {
    AngledCalls();
  }

  lemma AnglesAreFolded(weight: Entry -> nat, world: World, o: Outcome, last: Outcome, f: Finding)
    requires world([], Ident) == o && world([], Yara) == o && world([], Extract) == last
    requires Answers(o, seq(40, _ => f)) && Answers(last, [])
    requires Size("", f) == 8147 && weight(Evidence(f, "")) >= 48_000
    ensures var a := FoldCalls(world, Root(ROOT_ONLY), OPENED, [Ident, Yara, Extract]);
            !a.incomplete && a.bytes == 651_760 && Weigh(weight, a.entries) >= 3_840_000
  {
    ThreeCalls(world, Root(ROOT_ONLY), OPENED);
    AngledAccount(weight, o, last, f);
  }

  lemma AngledAnswers()
    ensures Answers(Angled([], Ident), seq(40, _ => ANGLES)) && Answers(Angled([], Extract), [])
    ensures Angled([], Yara) == Angled([], Ident)
  {
  }

  lemma AngledRoot(weight: Entry -> nat)
    requires weight(Evidence(ANGLES, "")) >= 48_000
    ensures var p := Step(Angled, ROOT_ONLY, Initial(ROOT_ONLY));
            && p.queue == [] && !p.account.incomplete && p.account.bytes == 651_760
            && Weigh(weight, p.account.entries) >= 3_840_000
  {
    AngledStep();
    AngledAnswers();
    AnglesAreLong();
    AngledFold(weight, ANGLES);
  }

  lemma AngledFold(weight: Entry -> nat, f: Finding)
    requires Answers(Angled([], Ident), seq(40, _ => f)) && Answers(Angled([], Extract), [])
    requires Angled([], Yara) == Angled([], Ident)
    requires Size("", f) == 8147 && weight(Evidence(f, "")) >= 48_000
    ensures var a := FoldCalls(Angled, Root(ROOT_ONLY), OPENED, [Ident, Yara, Extract]);
            !a.incomplete && a.bytes == 651_760 && Weigh(weight, a.entries) >= 3_840_000
  {
    AnglesAreFolded(weight, Angled, Angled([], Ident), Angled([], Extract), f);
  }

  lemma RunOfOne(world: World, input: Input)
    requires Step(world, input, Initial(input)).queue == []
    ensures Final(world, input) == Step(world, input, Initial(input))
  {
    var p := Step(world, input, Initial(input));
    assert Loop(world, input, p) == p;
    assert Loop(world, input, Initial(input)) == Loop(world, input, p);
  }

  lemma {:induction false} NothingFailsOn(item: Item, calls: seq<Engine>)
    ensures Failures(Angled, item.at, calls) == 0
  {
    if calls != [] {
      NothingFailsOn(item, calls[..|calls| - 1]);
    }
  }

  lemma {:induction false} NothingFails(items: seq<Item>)
    ensures FailedCalls(Angled, ROOT_ONLY, items) == 0
  {
    if items != [] {
      var done, item := items[..|items| - 1], items[|items| - 1];
      NothingFails(done);
      NothingFailsOn(item, CallsAfter(Angled, ROOT_ONLY, done, item));
    }
  }

  lemma AngledEnd(p: Progress)
    requires p == Final(Angled, ROOT_ONLY)
    ensures !p.account.incomplete && p.account.bytes == 651_760
    ensures JsonOf(ResultOf(p).findings) >= 3_840_000
  {
    AnglesAreLong();
    AngledRoot(LineJson);
    RunOfOne(Angled, ROOT_ONLY);
    RenderedJson(p.account.entries);
  }

  lemma AngledIsNamedByHash()
    ensures NamedByHash(Angled)
  {
  }

  /** And here no call fails and the run is complete, charged with two thirds of a MiB. */
  lemma EscapesCanExceed()
    ensures var p := Final(Angled, ROOT_ONLY);
            && NamedByHash(Angled) && !p.account.incomplete && p.account.bytes == 651_760
            && FailedCalls(Angled, ROOT_ONLY, p.done) == 0
            && JsonOf(ResultOf(p).findings) > TRANSPORT
  {
    AngledIsNamedByHash();
    AngledEnd(Final(Angled, ROOT_ONLY));
    NothingFails(Final(Angled, ROOT_ONLY).done);
  }
}
