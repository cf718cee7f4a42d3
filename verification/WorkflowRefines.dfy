/** The capped workflow against the naive analysis: all engines on every artifact of the
    extraction tree, no caps, no queue. */
module SubmissionRefinement {
  import opened Pipeline
  import opened SubmissionFlow
  import opened SubmissionSafety
  import opened TreeOrder

  // ---- The naive analysis ----

  function AllCalls(world: World, input: Input, item: Item): seq<Engine> {
    Calls(input, item, ReportOf(world(item.at, Ident)), true)
  }

  function Children(world: World, item: Item): seq<Item> {
    ChildItems(item, ReportOf(world(item.at, Extract)).children)
  }

  function Kids(world: World): Item -> seq<Item> {
    (item: Item) => Children(world, item)
  }

  /** The extraction tree, level by level, down to `n` levels below the root. */
  function Tree(world: World, input: Input, n: nat): seq<Item> {
    Levels(Kids(world), [Root(input)], n)
  }

  function Told(path: string, fs: seq<Finding>): seq<Entry> {
    if fs == [] then [] else Told(path, fs[..|fs| - 1]) + [Evidence(fs[|fs| - 1], path)]
  }

  function BytesOf(path: string, fs: seq<Finding>): nat {
    if fs == [] then 0 else BytesOf(path, fs[..|fs| - 1]) + Size(path, fs[|fs| - 1])
  }

  /** What a list of calls on one artifact yields: lines, verdicts and bytes. */
  datatype Yield = Yield(entries: seq<Entry>, heard: seq<Verdict>, bytes: nat)

  const NOTHING := Yield([], [], 0)

  function Plus(a: Yield, b: Yield): Yield {
    Yield(a.entries + b.entries, a.heard + b.heard, a.bytes + b.bytes)
  }

  lemma PlusAssociates(a: Yield, b: Yield, c: Yield)
    ensures Plus(Plus(a, b), c) == Plus(a, Plus(b, c))
  {
    assert (a.entries + b.entries) + c.entries == a.entries + (b.entries + c.entries);
    assert (a.heard + b.heard) + c.heard == a.heard + (b.heard + c.heard);
  }

  function FromReport(path: string, rep: EngineReport): Yield {
    Yield(Told(path, rep.findings), Verdicts(rep.findings) + [rep.verdict], BytesOf(path, rep.findings))
  }

  function FromCalls(world: World, item: Item, calls: seq<Engine>): Yield {
    if calls == [] then NOTHING
    else
      var n := |calls| - 1;
      Plus(FromCalls(world, item, calls[..n]), FromReport(item.path, ReportOf(world(item.at, calls[n]))))
  }

  function Greeting(item: Item): Yield {
    Yield(if item.depth > 0 then [ArtifactHash(item.sha, item.path)] else [], [], 0)
  }

  function FromItem(world: World, input: Input, item: Item): Yield {
    Plus(Greeting(item), FromCalls(world, item, AllCalls(world, input, item)))
  }

  function SumOf(gives: Item -> Yield, items: seq<Item>): Yield {
    if items == [] then NOTHING else Plus(SumOf(gives, items[..|items| - 1]), gives(items[|items| - 1]))
  }

  function Total(sizes: Item -> nat, items: seq<Item>): nat {
    if items == [] then 0 else Total(sizes, items[..|items| - 1]) + sizes(items[|items| - 1])
  }

  function YieldOf(world: World, input: Input): Item -> Yield {
    (item: Item) => FromItem(world, input, item)
  }

  function IngestOf(world: World): Item -> nat {
    (item: Item) => ReportOf(world(item.at, Extract)).ingestedBytes
  }

  function VerdictOf(gives: Item -> Yield): Item -> Verdict {
    (item: Item) => JoinAll(gives(item).heard)
  }

  predicate Answered(o: Outcome) {
    o.Completed? && !o.report.incomplete
  }

  /** Every engine that applies to the artifact completed without a gap. */
  predicate Healthy(world: World, item: Item, calls: seq<Engine>) {
    forall i :: 0 <= i < |calls| ==> Answered(world(item.at, calls[i]))
  }

  lemma SumOneMore(gives: Item -> Yield, sizes: Item -> nat, items: seq<Item>, item: Item)
    ensures SumOf(gives, items + [item]) == Plus(SumOf(gives, items), gives(item))
    ensures Total(sizes, items + [item]) == Total(sizes, items) + sizes(item)
  {
    assert (items + [item])[..|items|] == items;
  }

  lemma {:induction false} PartSumsToLess(gives: Item -> Yield, sizes: Item -> nat, d: seq<Item>, k: nat)
    requires k < |d|
    ensures SumOf(gives, d[..k]).bytes + gives(d[k]).bytes <= SumOf(gives, d).bytes
    ensures Total(sizes, d[..k]) + sizes(d[k]) <= Total(sizes, d)
    decreases |d|
  {
    if k < |d| - 1 {
      assert d[..|d| - 1][..k] == d[..k];
      PartSumsToLess(gives, sizes, d[..|d| - 1], k);
    }
  }

  lemma {:induction false} SumHeardIsJoin(gives: Item -> Yield, items: seq<Item>)
    ensures JoinAll(SumOf(gives, items).heard) == JoinOver(VerdictOf(gives), items)
  {
    if items != [] {
      var n := |items| - 1;
      SumHeardIsJoin(gives, items[..n]);
      JoinAllConcat(SumOf(gives, items[..n]).heard, gives(items[n]).heard);
    }
  }

  // ---- One account ----

  ghost predicate Tidy(a: Account) {
    a.bytes <= MAX_FINDINGS_BYTES && (a.capped ==> a.incomplete)
  }

  function AsYield(a: Account): Yield {
    Yield(a.entries, a.heard, a.bytes)
  }

  /** `b` is `a` with `y` added, with no gap exactly when `ok`. */
  ghost predicate Adds(a: Account, b: Account, y: Yield, ok: bool) {
    && Tidy(b)
    && (!b.incomplete <==> !a.incomplete && ok && a.bytes + y.bytes <= MAX_FINDINGS_BYTES)
    && (!b.incomplete ==> AsYield(b) == Plus(AsYield(a), y))
  }

  lemma AddsOn(a: Account, b: Account, c: Account, y: Yield, z: Yield, ok: bool, fine: bool)
    requires Adds(a, b, y, ok) && Adds(b, c, z, fine)
    ensures Adds(a, c, Plus(y, z), ok && fine)
  {
    PlusAssociates(AsYield(a), y, z);
  }

  /** The findings of one report, before its own verdict is heard. */
  function FromFindings(path: string, fs: seq<Finding>): Yield {
    Yield(Told(path, fs), Verdicts(fs), BytesOf(path, fs))
  }

  lemma FoldFindingAdds(path: string, a: Account, f: Finding)
    requires Tidy(a)
    ensures Adds(a, FoldFinding(path, a, f), Yield([Evidence(f, path)], [f.verdict], Size(path, f)), true)
  {
  }

  lemma {:induction false} FoldFindingsAdds(path: string, a: Account, fs: seq<Finding>)
    requires Tidy(a)
    ensures Adds(a, FoldFindings(path, a, fs), FromFindings(path, fs), true)
  {
    if fs == [] {
      assert Plus(AsYield(a), FromFindings(path, fs)) == AsYield(a) by {
        assert a.entries + [] == a.entries && a.heard + [] == a.heard;
      }
    } else {
      var n := |fs| - 1;
      FoldFindingsAdds(path, a, fs[..n]);
      var b, one := FoldFindings(path, a, fs[..n]), Yield([Evidence(fs[n], path)], [fs[n].verdict], Size(path, fs[n]));
      FoldFindingAdds(path, b, fs[n]);
      AddsOn(a, b, FoldFinding(path, b, fs[n]), FromFindings(path, fs[..n]), one, true, true);
      assert Verdicts(fs) == Verdicts(fs[..n]) + [fs[n].verdict];
      assert Plus(FromFindings(path, fs[..n]), one) == FromFindings(path, fs);
    }
  }

  lemma CloseAdds(a: Account, rep: EngineReport)
    requires Tidy(a)
    ensures Adds(a, Close(a, rep), Yield([], [rep.verdict], 0), !rep.incomplete)
  {
    assert a.entries + [] == a.entries;
  }

  lemma FoldOutcomeAdds(item: Item, a: Account, e: Engine, o: Outcome)
    requires Tidy(a)
    ensures Adds(a, FoldOutcome(item, a, e, o), FromReport(item.path, ReportOf(o)), Answered(o))
  {
    if o.Completed? {
      var rep := o.report;
      var b := FoldFindings(item.path, a, rep.findings);
      FoldFindingsAdds(item.path, a, rep.findings);
      CloseAdds(b, rep);
      AddsOn(a, b, Close(b, rep), FromFindings(item.path, rep.findings), Yield([], [rep.verdict], 0), true,
             !rep.incomplete);
      assert Told(item.path, rep.findings) + [] == Told(item.path, rep.findings);
      assert Plus(FromFindings(item.path, rep.findings), Yield([], [rep.verdict], 0)) == FromReport(item.path, rep);
    }
  }

  lemma {:induction false} FoldCallsAdds(world: World, item: Item, a: Account, calls: seq<Engine>)
    requires Tidy(a)
    ensures Adds(a, FoldCalls(world, item, a, calls), FromCalls(world, item, calls), Healthy(world, item, calls))
  {
    if calls == [] {
      assert a.entries + [] == a.entries && a.heard + [] == a.heard;
    } else {
      var n := |calls| - 1;
      FoldCallsAdds(world, item, a, calls[..n]);
      var b, o := FoldCalls(world, item, a, calls[..n]), world(item.at, calls[n]);
      FoldOutcomeAdds(item, b, calls[n], o);
      AddsOn(a, b, FoldOutcome(item, b, calls[n], o), FromCalls(world, item, calls[..n]),
             FromReport(item.path, ReportOf(o)), Healthy(world, item, calls[..n]), Answered(o));
      HealthyOneMore(world, item, calls);
    }
  }

  lemma HealthyOneMore(world: World, item: Item, calls: seq<Engine>)
    requires calls != []
    ensures var n := |calls| - 1;
            Healthy(world, item, calls) <==> Healthy(world, item, calls[..n]) && Answered(world(item.at, calls[n]))
  {
  }

  lemma GreetAdds(a: Account, item: Item)
    requires Tidy(a)
    ensures Adds(a, Greet(a, item), Greeting(item), true)
  {
    assert a.entries + [] == a.entries && a.heard + [] == a.heard;
  }

  lemma EnginesAdd(world: World, input: Input, a: Account, item: Item)
    requires Tidy(a)
    ensures Adds(a, FoldCalls(world, item, Greet(a, item), AllCalls(world, input, item)), FromItem(world, input, item),
                 Healthy(world, item, AllCalls(world, input, item)))
  {
    var b, calls := Greet(a, item), AllCalls(world, input, item);
    GreetAdds(a, item);
    FoldCallsAdds(world, item, b, calls);
    AddsOn(a, b, FoldCalls(world, item, b, calls), Greeting(item), FromCalls(world, item, calls), true,
           Healthy(world, item, calls));
  }

  // ---- One step ----

  /** Everything one artifact needs to pass through the caps whole. */
  ghost predicate ItemFits(world: World, input: Input, p: Progress, item: Item) {
    && Healthy(world, item, AllCalls(world, input, item))
    && p.account.bytes + FromItem(world, input, item).bytes <= MAX_FINDINGS_BYTES
    && p.ingested + ReportOf(world(item.at, Extract)).ingestedBytes <= MAX_SUBMISSION_INGEST
    && (Children(world, item) != [] ==> item.depth + 1 <= MAX_DEPTH)
  }

  ghost predicate Consistent(p: Progress) {
    && Tidy(p.account)
    && (p.ingestCapped ==> p.account.incomplete) && (p.depthCapped ==> p.account.incomplete)
  }

  /** A whole step: everything of the artifact is in the account, all its children are queued. */
  ghost predicate Whole(world: World, input: Input, p: Progress, q: Progress, item: Item) {
    && AsYield(q.account) == Plus(AsYield(p.account), FromItem(world, input, item))
    && q.ingested == p.ingested + ReportOf(world(item.at, Extract)).ingestedBytes
    && q.queue == p.queue + Children(world, item) && q.done == p.done
  }

  lemma ExtractIsCalled(world: World, input: Input, item: Item)
    requires Healthy(world, item, AllCalls(world, input, item))
    ensures world(item.at, Extract).Completed?
  {
    var calls := AllCalls(world, input, item);
    assert calls[|calls| - 1] == Extract;
  }

  lemma IncompleteStays(world: World, input: Input, p: Progress, item: Item)
    requires Consistent(p) && p.account.incomplete
    ensures Consistent(Process(world, input, p, item)) && Process(world, input, p, item).account.incomplete
  {
    var q := Analyzed(world, input, p, item);
    GreetAdds(p.account, item);
    FoldCallsAdds(world, item, Greet(p.account, item),
                  Calls(input, item, ReportOf(world(item.at, Ident)), !p.ingestCapped));
  }

  lemma AbsorbExactly(q: Progress, item: Item, o: Outcome)
    requires Consistent(q) && !q.account.incomplete && o.Completed?
    ensures Consistent(Absorb(q, item, o))
    ensures !Absorb(q, item, o).account.incomplete <==>
            && q.ingested + o.report.ingestedBytes <= MAX_SUBMISSION_INGEST
            && (ChildItems(item, o.report.children) != [] ==> item.depth + 1 <= MAX_DEPTH)
    ensures !Absorb(q, item, o).account.incomplete ==>
              && Absorb(q, item, o).account == q.account && Absorb(q, item, o).done == q.done
              && Absorb(q, item, o).ingested == q.ingested + o.report.ingestedBytes
              && Absorb(q, item, o).queue == q.queue + ChildItems(item, o.report.children)
  {
    assert |ChildItems(item, o.report.children)| == |o.report.children|;
    assert q.queue + [] == q.queue;
  }

  /** One artifact leaves the run complete exactly when it fits, and then it is all there. */
  lemma ProcessExactly(world: World, input: Input, p: Progress, item: Item)
    requires Consistent(p) && !p.account.incomplete
    ensures var q := Process(world, input, p, item);
            && Consistent(q)
            && (!q.account.incomplete <==> ItemFits(world, input, p, item))
            && (!q.account.incomplete ==> Whole(world, input, p, q, item))
  {
    var a := Analyzed(world, input, p, item);
    EnginesAdd(world, input, p.account, item);
    assert Consistent(a);
    if world(item.at, Extract).Failed? {
      assert !Healthy(world, item, AllCalls(world, input, item)) by {
        if Healthy(world, item, AllCalls(world, input, item)) {
          ExtractIsCalled(world, input, item);
        }
      }
    } else if a.account.incomplete {
      AbsorbIsSound(a, item, world(item.at, Extract));
    } else {
      AbsorbExactly(a, item, world(item.at, Extract));
    }
  }

  // ---- The run against the naive analysis ----

  /** The books of a run that is complete so far. */
  ghost predicate Faithful(world: World, input: Input, p: Progress) {
    && AsYield(p.account) == SumOf(YieldOf(world, input), p.done)
    && p.ingested == Total(IngestOf(world), p.done)
    && All(p) == [Root(input)] + Flat(Kids(world), p.done)
    && AllHealthy(world, input, p.done)
  }

  ghost predicate AllHealthy(world: World, input: Input, items: seq<Item>) {
    forall i :: 0 <= i < |items| ==> Healthy(world, items[i], AllCalls(world, input, items[i]))
  }

  ghost predicate Tracked(world: World, input: Input, p: Progress) {
    Consistent(p) && (!p.account.incomplete ==> Faithful(world, input, p))
  }

  lemma WholeStepQueues(kids: Item -> seq<Item>, root: Item, p: Progress, q: Progress)
    requires p.queue != [] && All(p) == [root] + Flat(kids, p.done)
    requires q.done == p.done + [p.queue[0]] && q.queue == p.queue[1..] + kids(p.queue[0])
    ensures All(q) == [root] + Flat(kids, q.done)
  {
    FlatOneMore(kids, p.done, p.queue[0]);
    PopAndAppend(p.done, p.queue, kids(p.queue[0]));
    ConcatAssociates([root], Flat(kids, p.done), kids(p.queue[0]));
  }

  lemma HealthyGrows(world: World, input: Input, items: seq<Item>, item: Item)
    requires AllHealthy(world, input, items) && Healthy(world, item, AllCalls(world, input, item))
    ensures AllHealthy(world, input, items + [item])
  {
  }

  lemma WholeStepIsFaithful(world: World, input: Input, p: Progress, q: Progress)
    requires p.queue != [] && Faithful(world, input, p)
    requires Whole(world, input, Pop(p), q, p.queue[0])
    requires Healthy(world, p.queue[0], AllCalls(world, input, p.queue[0]))
    ensures Faithful(world, input, q)
  {
    var item := p.queue[0];
    SumOneMore(YieldOf(world, input), IngestOf(world), p.done, item);
    WholeStepQueues(Kids(world), Root(input), p, q);
    HealthyGrows(world, input, p.done, item);
  }

  lemma StepIsTracked(world: World, input: Input, p: Progress)
    requires p.queue != [] && Tracked(world, input, p)
    ensures Tracked(world, input, Step(world, input, p))
    ensures !Step(world, input, p).account.incomplete <==>
            !p.account.incomplete && ItemFits(world, input, Pop(p), p.queue[0])
  {
    if p.account.incomplete {
      IncompleteStays(world, input, Pop(p), p.queue[0]);
    } else {
      ProcessExactly(world, input, Pop(p), p.queue[0]);
      if ItemFits(world, input, Pop(p), p.queue[0]) {
        WholeStepIsFaithful(world, input, p, Step(world, input, p));
      }
    }
  }

  lemma InitialIsTracked(world: World, input: Input)
    ensures Tracked(world, input, Initial(input))
  {
    assert [Root(input)] + [] == [Root(input)] && [] + [Root(input)] == [Root(input)];
  }

  lemma NextIsTracked(world: World, input: Input, p: Progress)
    requires Tracked(world, input, p)
    ensures Tracked(world, input, Next(world, input, p))
  {
    if p.queue != [] && |p.done| < MAX_ARTIFACTS {
      StepIsTracked(world, input, p);
    }
  }

  lemma ReachedIsTracked(world: World, input: Input, n: nat)
    ensures Tracked(world, input, Reached(world, input, n))
  {
    InitialIsTracked(world, input);
    forall p | Tracked(world, input, p)
      ensures Tracked(world, input, Next(world, input, p))
    {
      NextIsTracked(world, input, p);
    }
    HoldsAtEveryStep(world, input, p => Tracked(world, input, p), n);
  }

  lemma CompleteRunEnds(world: World, input: Input)
    requires !Final(world, input).account.incomplete
    ensures Faithful(world, input, Final(world, input)) && Final(world, input).queue == []
    ensures Closed(Kids(world), Root(input), Final(world, input).done)
  {
    FinalIsReached(world, input);
    ReachedIsTracked(world, input, MAX_ARTIFACTS);
    var p := Final(world, input);
    assert All(p) == p.done + [] == p.done;
  }

  // ---- Main results ----

  function DepthOf(): Item -> nat {
    (item: Item) => item.depth
  }

  lemma KidsDeepen(world: World)
    ensures Deepens(Kids(world), DepthOf())
  {
  }

  lemma CompleteRunIsShallow(world: World, input: Input)
    requires !Final(world, input).account.incomplete
    ensures NoDeeper(DepthOf(), Final(world, input).done, MAX_DEPTH)
  {
    FinalIsReached(world, input);
    OrderAtEveryStep(world, input, MAX_ARTIFACTS);
    var p := Reached(world, input, MAX_ARTIFACTS);
    assert forall i :: 0 <= i < |p.done| ==> All(p)[i] == p.done[i];
  }

  lemma NoDeeperGrows(items: seq<Item>, m: nat, n: nat)
    requires NoDeeper(DepthOf(), items, m) && m <= n
    ensures NoDeeper(DepthOf(), items, n)
  {
  }

  lemma DoneIsTree(world: World, input: Input, n: nat)
    requires !Final(world, input).account.incomplete && n >= MAX_DEPTH
    ensures Final(world, input).done == Tree(world, input, n)
  {
    CompleteRunEnds(world, input);
    CompleteRunIsShallow(world, input);
    NoDeeperGrows(Final(world, input).done, MAX_DEPTH, n);
    KidsDeepen(world);
    ClosedIsWholeTree(Kids(world), DepthOf(), Root(input), Final(world, input).done, n);
  }

  /** The naive verdict: plain recursion over the extraction tree. */
  function DeepVerdict(world: World, input: Input, n: nat): Verdict {
    Deep(VerdictOf(YieldOf(world, input)), Kids(world), Root(input), n)
  }

  lemma TreeJoinIsDeep(own: Item -> Verdict, kids: Item -> seq<Item>, root: Item, n: nat)
    ensures JoinOver(own, Levels(kids, [root], n)) == Deep(own, kids, root, n)
  {
    LevelsJoinIsDeep(own, kids, [root], n);
    assert DeepAll(own, kids, [], n) == BENIGN;
    assert [root][..0] == [];
    assert DeepAll(own, kids, [root], n) == Max(DeepAll(own, kids, [root][..0], n), Deep(own, kids, root, n));
  }

  lemma CompleteVerdictIsDeep(world: World, input: Input, n: nat)
    requires !Final(world, input).account.incomplete && n >= MAX_DEPTH
    ensures Final(world, input).account.verdict == Max(UNKNOWN, DeepVerdict(world, input, n))
  {
    CompleteRunEnds(world, input);
    DoneIsTree(world, input, n);
    FinalVerdict(world, input);
    SumHeardIsJoin(YieldOf(world, input), Tree(world, input, n));
    TreeJoinIsDeep(VerdictOf(YieldOf(world, input)), Kids(world), Root(input), n);
  }

  /** A run that ends without the incomplete flag is the naive analysis. The artifacts are
      the whole extraction tree in breadth-first order; on each of them every applicable
      engine completed without a gap; the lines of the result are exactly the hash lines and
      the path-tagged findings of all engines; and the verdict is what plain recursion over
      the tree gives. Any depth from 8 on describes the same tree. */
  lemma CompleteRunIsNaiveAnalysis(world: World, input: Input, n: nat)
    requires !Final(world, input).account.incomplete && n >= MAX_DEPTH
    ensures var p, tree := Final(world, input), Tree(world, input, n);
            && p.done == tree && AllHealthy(world, input, tree)
            && p.account.entries == SumOf(YieldOf(world, input), tree).entries
            && p.account.verdict == Max(UNKNOWN, DeepVerdict(world, input, n))
  {
    CompleteRunEnds(world, input);
    DoneIsTree(world, input, n);
    CompleteVerdictIsDeep(world, input, n);
  }

  /** The naive analysis stays within all four caps. */
  ghost predicate Fits(world: World, input: Input) {
    var tree := Tree(world, input, MAX_DEPTH);
    && Tree(world, input, MAX_DEPTH + 1) == tree
    && |tree| <= MAX_ARTIFACTS
    && AllHealthy(world, input, tree)
    && SumOf(YieldOf(world, input), tree).bytes <= MAX_FINDINGS_BYTES
    && Total(IngestOf(world), tree) <= MAX_SUBMISSION_INGEST
  }

  // ---- A run that fits stays complete ----

  /** The same as `Fits`, of a list that is the whole tree. */
  ghost predicate FittingTree(world: World, input: Input, d: seq<Item>) {
    && Closed(Kids(world), Root(input), d) && NoDeeper(DepthOf(), d, MAX_DEPTH)
    && |d| <= MAX_ARTIFACTS
    && AllHealthy(world, input, d)
    && SumOf(YieldOf(world, input), d).bytes <= MAX_FINDINGS_BYTES
    && Total(IngestOf(world), d) <= MAX_SUBMISSION_INGEST
  }

  lemma FitsIsFittingTree(world: World, input: Input)
    requires Fits(world, input)
    ensures FittingTree(world, input, Tree(world, input, MAX_DEPTH))
  {
    TreeIsClosed(world, input, MAX_DEPTH);
  }

  lemma TreeIsClosed(world: World, input: Input, n: nat)
    requires Tree(world, input, n + 1) == Tree(world, input, n)
    ensures Closed(Kids(world), Root(input), Tree(world, input, n)) && NoDeeper(DepthOf(), Tree(world, input, n), n)
  {
    LevelsUnfold(Kids(world), [Root(input)], n);
    KidsDeepen(world);
    LevelsDepths(Kids(world), DepthOf(), [Root(input)], 0, n);
  }

  /** A complete run that is still inside the tree `d`. */
  ghost predicate Inside(world: World, input: Input, p: Progress, d: seq<Item>) {
    Tracked(world, input, p) && !p.account.incomplete && p.done <= d
  }

  lemma InsideLooksAhead(kids: Item -> seq<Item>, root: Item, p: Progress, d: seq<Item>)
    requires All(p) == [root] + Flat(kids, p.done) && p.done <= d && Closed(kids, root, d)
    ensures All(p) <= d
    ensures p.queue != [] ==> |p.done| < |d| && p.queue[0] == d[|p.done|] && Pop(p).done <= d
  {
    FlatPrefix(kids, p.done, d);
    ConcatKeepsPrefix([root], Flat(kids, p.done), Flat(kids, d));
    if p.queue != [] {
      assert All(p)[|p.done|] == p.queue[0];
    }
  }

  lemma TreeItemFits(world: World, input: Input, p: Progress, d: seq<Item>, k: nat)
    requires FittingTree(world, input, d) && k < |d|
    requires p.account.bytes == SumOf(YieldOf(world, input), d[..k]).bytes
    requires p.ingested == Total(IngestOf(world), d[..k])
    ensures ItemFits(world, input, p, d[k])
  {
    PartSumsToLess(YieldOf(world, input), IngestOf(world), d, k);
    KidsDeepen(world);
    if Kids(world)(d[k]) != [] {
      ChildrenAreInside(Kids(world), DepthOf(), Root(input), d, k, MAX_DEPTH);
    }
  }

  lemma NextItemFits(world: World, input: Input, p: Progress, d: seq<Item>)
    requires FittingTree(world, input, d) && Inside(world, input, p, d) && p.queue != []
    ensures |p.done| < MAX_ARTIFACTS && ItemFits(world, input, Pop(p), p.queue[0])
    ensures Pop(p).done <= d
  {
    InsideLooksAhead(Kids(world), Root(input), p, d);
    InsideIsCounted(world, input, p, d);
    TreeItemFits(world, input, Pop(p), d, |p.done|);
  }

  lemma InsideIsCounted(world: World, input: Input, p: Progress, d: seq<Item>)
    requires Inside(world, input, p, d)
    ensures p.account.bytes == SumOf(YieldOf(world, input), d[..|p.done|]).bytes
    ensures p.ingested == Total(IngestOf(world), d[..|p.done|])
  {
    assert d[..|p.done|] == p.done;
  }

  lemma NextStaysInside(world: World, input: Input, p: Progress, d: seq<Item>)
    requires FittingTree(world, input, d) && Inside(world, input, p, d)
    ensures Inside(world, input, Next(world, input, p), d)
  {
    if p.queue != [] {
      NextItemFits(world, input, p, d);
      StepIsTracked(world, input, p);
      StepAdvances(world, input, p);
    }
  }

  lemma ReachedStaysInside(world: World, input: Input, d: seq<Item>, n: nat)
    requires FittingTree(world, input, d)
    ensures Inside(world, input, Reached(world, input, n), d)
  {
    InitialIsTracked(world, input);
    forall p | Inside(world, input, p, d)
      ensures Inside(world, input, Next(world, input, p), d)
    {
      NextStaysInside(world, input, p, d);
    }
    HoldsAtEveryStep(world, input, p => Inside(world, input, p, d), n);
  }

  lemma FittingRunIsComplete(world: World, input: Input, d: seq<Item>)
    requires FittingTree(world, input, d)
    ensures !Final(world, input).account.incomplete
  {
    var last := Reached(world, input, MAX_ARTIFACTS);
    FinalIsReached(world, input);
    ReachedStaysInside(world, input, d, MAX_ARTIFACTS);
    ReachedCounts(world, input, MAX_ARTIFACTS);
    if last.queue != [] {
      NextItemFits(world, input, last, d);
    }
  }

  predicate IngestWithinBudget(p: Progress) {
    !p.ingestCapped ==> p.ingested <= MAX_SUBMISSION_INGEST
  }

  lemma NextKeepsBudget(world: World, input: Input, p: Progress)
    requires IngestWithinBudget(p)
    ensures IngestWithinBudget(Next(world, input, p))
  {
  }

  lemma ReachedKeepsIngest(world: World, input: Input, n: nat)
    ensures IngestWithinBudget(Reached(world, input, n))
  {
    forall p | IngestWithinBudget(p)
      ensures IngestWithinBudget(Next(world, input, p))
    {
      NextKeepsBudget(world, input, p);
    }
    HoldsAtEveryStep(world, input, p => IngestWithinBudget(p), n);
  }

  lemma CompleteRunIsWithinCaps(world: World, input: Input)
    requires !Final(world, input).account.incomplete
    ensures var p := Final(world, input);
            |p.done| <= MAX_ARTIFACTS && p.ingested <= MAX_SUBMISSION_INGEST && p.account.bytes <= MAX_FINDINGS_BYTES
  {
    FinalIsReached(world, input);
    ReachedCounts(world, input, MAX_ARTIFACTS);
    ReachedKeepsIngest(world, input, MAX_ARTIFACTS);
    ReachedIsTracked(world, input, MAX_ARTIFACTS);
  }

  lemma CompleteRunFits(world: World, input: Input)
    requires !Final(world, input).account.incomplete
    ensures Fits(world, input)
  {
    CompleteRunEnds(world, input);
    CompleteRunIsWithinCaps(world, input);
    DoneIsTree(world, input, MAX_DEPTH);
    DoneIsTree(world, input, MAX_DEPTH + 1);
  }

  /** The incomplete flag is exact: a run ends without it if and only if the naive analysis
      of the same tree stays within the depth, count, finding-size and ingest caps and no
      engine failed or reported a gap on any of its artifacts. */
  lemma CompleteExactlyWhenItFits(world: World, input: Input)
    ensures !Final(world, input).account.incomplete <==> Fits(world, input)
  {
    if Fits(world, input) {
      FitsIsFittingTree(world, input);
      FittingRunIsComplete(world, input, Tree(world, input, MAX_DEPTH));
    }
    if !Final(world, input).account.incomplete {
      CompleteRunFits(world, input);
    }
  }
}
