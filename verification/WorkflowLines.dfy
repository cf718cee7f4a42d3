/** What every run lists, complete or not, as a function of what the engines answer on the
    artifacts it processed: which findings the byte budget admits, which lines the
    orchestrator adds of its own, and which artifacts come next. */
module SubmissionLines {
  import opened Pipeline
  import opened SubmissionFlow
  import opened SubmissionSafety
  import opened SubmissionRefinement

  // ---- Three kinds of lines ----

  datatype Kind = Found | Own | Cut

  function KindOf(e: Entry): Kind {
    if e.Evidence? then Found else if e.FindingsCap? then Cut else Own
  }

  /** The lines of one kind, in order. */
  function Pick(k: Kind, es: seq<Entry>): seq<Entry> {
    if es == [] then []
    else
      var rest, e := Pick(k, es[..|es| - 1]), es[|es| - 1];
      if KindOf(e) == k then rest + [e] else rest
  }

  lemma PickOneMore(k: Kind, es: seq<Entry>, e: Entry)
    ensures Pick(k, es + [e]) == if KindOf(e) == k then Pick(k, es) + [e] else Pick(k, es)
  {
    assert (es + [e])[..|es|] == es;
  }

  // ---- What the engines offer and what the budget admits ----

  /** The ingest budget is used up by these artifacts. */
  predicate Spent(world: World, done: seq<Item>) {
    Total(IngestOf(world), done) > MAX_SUBMISSION_INGEST
  }

  /** The engines that an artifact is given to, after those in `done`. */
  function CallsAfter(world: World, input: Input, done: seq<Item>, item: Item): seq<Engine> {
    Calls(input, item, ReportOf(world(item.at, Ident)), !Spent(world, done))
  }

  function OfferedBy(world: World, item: Item, calls: seq<Engine>): seq<Entry> {
    FromCalls(world, item, calls).entries
  }

  /** Every finding that some engine reports, in order. */
  function Offered(world: World, input: Input, items: seq<Item>): seq<Entry> {
    if items == [] then []
    else
      var done, item := items[..|items| - 1], items[|items| - 1];
      Offered(world, input, done) + OfferedBy(world, item, CallsAfter(world, input, done, item))
  }

  function Charge(e: Entry): nat {
    if e.Evidence? then Size(e.path, e.finding) else 0
  }

  function ChargeAll(es: seq<Entry>): nat {
    if es == [] then 0 else ChargeAll(es[..|es| - 1]) + Charge(es[|es| - 1])
  }

  /** A finding is listed if and only if what was listed before leaves room for it. */
  function Admit(es: seq<Entry>): (kept: seq<Entry>)
    ensures |kept| <= |es|
  {
    if es == [] then []
    else
      var kept, e := Admit(es[..|es| - 1]), es[|es| - 1];
      if ChargeAll(kept) + Charge(e) <= MAX_FINDINGS_BYTES then kept + [e] else kept
  }

  lemma AdmitOneMore(es: seq<Entry>, e: Entry)
    ensures Admit(es + [e]) ==
            if ChargeAll(Admit(es)) + Charge(e) <= MAX_FINDINGS_BYTES then Admit(es) + [e] else Admit(es)
    ensures ChargeAll(es + [e]) == ChargeAll(es) + Charge(e)
  {
    assert (es + [e])[..|es|] == es;
  }

  /** What is listed never costs more than the budget, and it is everything exactly when
      everything together costs no more. */
  ghost predicate Fitting(es: seq<Entry>) {
    && ChargeAll(Admit(es)) <= MAX_FINDINGS_BYTES
    && (|Admit(es)| == |es| <==> Admit(es) == es)
    && (Admit(es) == es <==> ChargeAll(es) <= MAX_FINDINGS_BYTES)
  }

  lemma OneMoreFits(es: seq<Entry>, e: Entry)
    requires Fitting(es)
    ensures Fitting(es + [e])
  {
    AdmitOneMore(es, e);
    AdmitOneMore(Admit(es), e);
  }

  lemma {:induction false} AdmittedFits(es: seq<Entry>)
    ensures Fitting(es)
  {
    if es != [] {
      AdmittedFits(es[..|es| - 1]);
      OneMoreFits(es[..|es| - 1], es[|es| - 1]);
      assert es == es[..|es| - 1] + [es[|es| - 1]];
    }
  }

  // ---- The orchestrator's own lines ----

  function ErrorOf(item: Item, e: Engine, o: Outcome): seq<Entry> {
    if o.Failed? then [EngineError(e, item.path)] else []
  }

  function ErrorsOf(world: World, item: Item, calls: seq<Engine>): seq<Entry> {
    if calls == [] then []
    else
      var e := calls[|calls| - 1];
      ErrorsOf(world, item, calls[..|calls| - 1]) + ErrorOf(item, e, world(item.at, e))
  }

  /** An extraction that came through within the ingest budget. */
  predicate Unpacked(world: World, done: seq<Item>, item: Item) {
    !Spent(world, done) && world(item.at, Extract).Completed? && !Spent(world, done + [item])
  }

  predicate TooDeep(world: World, done: seq<Item>, item: Item) {
    Unpacked(world, done, item) && ReportOf(world(item.at, Extract)).children != [] && item.depth + 1 > MAX_DEPTH
  }

  predicate DepthHit(world: World, items: seq<Item>) {
    items != []
    && (DepthHit(world, items[..|items| - 1]) || TooDeep(world, items[..|items| - 1], items[|items| - 1]))
  }

  /** The marker of a cap that this artifact is the first to hit. */
  function CapLine(world: World, done: seq<Item>, item: Item): seq<Entry> {
    if !Spent(world, done) && Spent(world, done + [item]) then [IngestCap(item.path)]
    else if TooDeep(world, done, item) && !DepthHit(world, done) then [DepthCap(item.path)]
    else []
  }

  function OwnAfter(world: World, input: Input, done: seq<Item>, item: Item): seq<Entry> {
    Greeting(item).entries + ErrorsOf(world, item, CallsAfter(world, input, done, item)) + CapLine(world, done, item)
  }

  /** A hash line per artifact below the root, an error per failed call, and the caps. */
  function OwnLines(world: World, input: Input, items: seq<Item>): seq<Entry> {
    if items == [] then []
    else
      var done, item := items[..|items| - 1], items[|items| - 1];
      OwnLines(world, input, done) + OwnAfter(world, input, done, item)
  }

  // ---- The artifacts ----

  function NewAfter(world: World, done: seq<Item>, item: Item): seq<Item> {
    if Unpacked(world, done, item) && item.depth + 1 <= MAX_DEPTH then Children(world, item) else []
  }

  /** Everything that these artifacts put into the queue. */
  function Grown(world: World, items: seq<Item>): seq<Item> {
    if items == [] then []
    else
      var done, item := items[..|items| - 1], items[|items| - 1];
      Grown(world, done) + NewAfter(world, done, item)
  }

  // ---- The findings of an account ----

  /** What an account shows of the offers made so far. */
  datatype Shelf = Shelf(found: seq<Entry>, cut: seq<Entry>, bytes: nat, capped: bool)

  const EMPTY_SHELF := Shelf([], [], 0, false)

  function ShelfOf(a: Account): Shelf {
    Shelf(Pick(Found, a.entries), Pick(Cut, a.entries), a.bytes, a.capped)
  }

  function Put(s: Shelf, e: Entry): Shelf {
    if s.bytes + Charge(e) <= MAX_FINDINGS_BYTES then s.(found := s.found + [e], bytes := s.bytes + Charge(e))
    else if s.capped then s
    else s.(cut := s.cut + [FindingsCap], capped := true)
  }

  function PutAll(s: Shelf, es: seq<Entry>): Shelf {
    if es == [] then s else Put(PutAll(s, es[..|es| - 1]), es[|es| - 1])
  }

  lemma {:induction false} PutAllConcat(s: Shelf, a: seq<Entry>, b: seq<Entry>)
    ensures PutAll(s, a + b) == PutAll(PutAll(s, a), b)
  {
    if b == [] {
      assert a + b == a;
    } else {
      var n := |b| - 1;
      PutAllConcat(s, a, b[..n]);
      assert (a + b)[..|a + b| - 1] == a + b[..n];
    }
  }

  /** The shelf shows what the budget admits. */
  lemma {:induction false} ShelfIsAdmitted(es: seq<Entry>)
    ensures var kept := Admit(es);
            PutAll(EMPTY_SHELF, es) ==
            Shelf(kept, if |kept| < |es| then [FindingsCap] else [], ChargeAll(kept), |kept| < |es|)
  {
    if es != [] {
      ShelfIsAdmitted(es[..|es| - 1]);
      AdmitOneMore(Admit(es[..|es| - 1]), es[|es| - 1]);
    }
  }

  lemma ShelfOneMore(a: Account, e: Entry)
    ensures Pick(Found, a.entries + [e]) == if e.Evidence? then Pick(Found, a.entries) + [e] else Pick(Found, a.entries)
    ensures Pick(Cut, a.entries + [e]) == if e.FindingsCap? then Pick(Cut, a.entries) + [e] else Pick(Cut, a.entries)
  {
    PickOneMore(Found, a.entries, e);
    PickOneMore(Cut, a.entries, e);
  }

  lemma OwnLineKeepsShelf(a: Account, e: Entry)
    requires KindOf(e) == Own
    ensures ShelfOf(Floor(a, e)) == ShelfOf(a) && ShelfOf(a.(entries := a.entries + [e])) == ShelfOf(a)
  {
    ShelfOneMore(a, e);
  }

  lemma FoldFindingShelf(path: string, a: Account, f: Finding)
    ensures ShelfOf(FoldFinding(path, a, f)) == Put(ShelfOf(a), Evidence(f, path))
  {
    ShelfOneMore(a, Evidence(f, path));
    ShelfOneMore(a, FindingsCap);
  }

  lemma {:induction false} FoldFindingsShelf(path: string, a: Account, fs: seq<Finding>)
    ensures ShelfOf(FoldFindings(path, a, fs)) == PutAll(ShelfOf(a), Told(path, fs))
  {
    if fs != [] {
      var n := |fs| - 1;
      FoldFindingsShelf(path, a, fs[..n]);
      FoldFindingShelf(path, FoldFindings(path, a, fs[..n]), fs[n]);
      PutAllConcat(ShelfOf(a), Told(path, fs[..n]), [Evidence(fs[n], path)]);
      OnePut(PutAll(ShelfOf(a), Told(path, fs[..n])), Evidence(fs[n], path));
    }
  }

  lemma OnePut(s: Shelf, e: Entry)
    ensures PutAll(s, [e]) == Put(s, e)
  {
    assert [e][..0] == [];
    assert PutAll(s, [e][..0]) == s;
  }

  lemma FoldOutcomeShelf(item: Item, a: Account, e: Engine, o: Outcome)
    ensures ShelfOf(FoldOutcome(item, a, e, o)) == PutAll(ShelfOf(a), Told(item.path, ReportOf(o).findings))
  {
    match o
    case Failed => OwnLineKeepsShelf(a, EngineError(e, item.path));
    case Completed(rep) => FoldFindingsShelf(item.path, a, rep.findings);
  }

  lemma {:induction false} FoldCallsShelf(world: World, item: Item, a: Account, calls: seq<Engine>)
    ensures ShelfOf(FoldCalls(world, item, a, calls)) == PutAll(ShelfOf(a), OfferedBy(world, item, calls))
  {
    if calls != [] {
      var n := |calls| - 1;
      var e, o := calls[n], world(item.at, calls[n]);
      FoldCallsShelf(world, item, a, calls[..n]);
      FoldOutcomeShelf(item, FoldCalls(world, item, a, calls[..n]), e, o);
      PutAllConcat(ShelfOf(a), OfferedBy(world, item, calls[..n]), Told(item.path, ReportOf(o).findings));
    }
  }

  // ---- The orchestrator's lines of an account ----

  function OwnOf(a: Account): seq<Entry> {
    Pick(Own, a.entries)
  }

  lemma OwnOneMore(a: Account, e: Entry)
    ensures OwnOf(a.(entries := a.entries + [e])) == OwnOf(a) + if KindOf(e) == Own then [e] else []
    ensures OwnOf(Floor(a, e)) == OwnOf(a) + if KindOf(e) == Own then [e] else []
  {
    PickOneMore(Own, a.entries, e);
  }

  lemma FoldFindingOwn(path: string, a: Account, f: Finding)
    ensures OwnOf(FoldFinding(path, a, f)) == OwnOf(a)
  {
    PickOneMore(Own, a.entries, Evidence(f, path));
    PickOneMore(Own, a.entries, FindingsCap);
  }

  lemma {:induction false} FoldFindingsOwn(path: string, a: Account, fs: seq<Finding>)
    ensures OwnOf(FoldFindings(path, a, fs)) == OwnOf(a)
  {
    if fs != [] {
      FoldFindingsOwn(path, a, fs[..|fs| - 1]);
      FoldFindingOwn(path, FoldFindings(path, a, fs[..|fs| - 1]), fs[|fs| - 1]);
    }
  }

  lemma FoldOutcomeOwn(item: Item, a: Account, e: Engine, o: Outcome)
    ensures OwnOf(FoldOutcome(item, a, e, o)) == OwnOf(a) + ErrorOf(item, e, o)
  {
    match o
    case Failed => OwnOneMore(a, EngineError(e, item.path));
    case Completed(rep) => FoldFindingsOwn(item.path, a, rep.findings);
  }

  lemma {:induction false} FoldCallsOwn(world: World, item: Item, a: Account, calls: seq<Engine>)
    ensures OwnOf(FoldCalls(world, item, a, calls)) == OwnOf(a) + ErrorsOf(world, item, calls)
  {
    if calls == [] {
      assert OwnOf(a) + [] == OwnOf(a);
    } else {
      var n := |calls| - 1;
      var b, e, o := FoldCalls(world, item, a, calls[..n]), calls[n], world(item.at, calls[n]);
      FoldCallsOwn(world, item, a, calls[..n]);
      FoldOutcomeOwn(item, b, e, o);
      ThreeLists(OwnOf(a), ErrorsOf(world, item, calls[..n]), ErrorOf(item, e, o));
    }
  }

  lemma ThreeLists<T>(a: seq<T>, b: seq<T>, c: seq<T>)
    ensures (a + b) + c == a + (b + c)
  {
  }

  // ---- One artifact ----

  ghost predicate Metered(world: World, p: Progress, done: seq<Item>) {
    && (p.ingestCapped <==> Spent(world, done)) && (p.depthCapped <==> DepthHit(world, done))
    && (!p.ingestCapped ==> p.ingested == Total(IngestOf(world), done))
  }

  lemma TotalOneMore(world: World, done: seq<Item>, item: Item)
    ensures Total(IngestOf(world), done + [item]) ==
            Total(IngestOf(world), done) + ReportOf(world(item.at, Extract)).ingestedBytes
    ensures Spent(world, done) ==> Spent(world, done + [item])
    ensures DepthHit(world, done + [item]) <==> DepthHit(world, done) || TooDeep(world, done, item)
  {
    assert (done + [item])[..|done|] == done;
  }

  lemma AnalyzedShelf(world: World, input: Input, p: Progress, done: seq<Item>, item: Item)
    requires p.ingestCapped <==> Spent(world, done)
    ensures var calls := CallsAfter(world, input, done, item);
            ShelfOf(Analyzed(world, input, p, item).account) ==
            PutAll(ShelfOf(p.account), OfferedBy(world, item, calls))
  {
    if item.depth > 0 {
      OwnLineKeepsShelf(p.account, ArtifactHash(item.sha, item.path));
    }
    FoldCallsShelf(world, item, Greet(p.account, item), CallsAfter(world, input, done, item));
  }

  lemma AnalyzedOwn(world: World, input: Input, p: Progress, done: seq<Item>, item: Item)
    requires p.ingestCapped <==> Spent(world, done)
    ensures var calls := CallsAfter(world, input, done, item);
            OwnOf(Analyzed(world, input, p, item).account) ==
            OwnOf(p.account) + (Greeting(item).entries + ErrorsOf(world, item, calls))
  {
    var calls := CallsAfter(world, input, done, item);
    OwnOneMore(p.account, ArtifactHash(item.sha, item.path));
    assert OwnOf(Greet(p.account, item)) == OwnOf(p.account) + Greeting(item).entries;
    FoldCallsOwn(world, item, Greet(p.account, item), calls);
    ThreeLists(OwnOf(p.account), Greeting(item).entries, ErrorsOf(world, item, calls));
  }

  lemma ProcessIsAbsorb(world: World, input: Input, p: Progress, item: Item)
    ensures var q := Analyzed(world, input, p, item);
            && q.queue == p.queue && q.done == p.done && q.ingested == p.ingested
            && q.ingestCapped == p.ingestCapped && q.depthCapped == p.depthCapped
            && Process(world, input, p, item) == if p.ingestCapped then q else Absorb(q, item, world(item.at, Extract))
  {
  }

  /** The end of an artifact adds at most the marker of a cap. */
  lemma AbsorbAdds(world: World, q: Progress, done: seq<Item>, item: Item)
    requires Metered(world, q, done) && !q.ingestCapped
    ensures var r, cap := Absorb(q, item, world(item.at, Extract)), CapLine(world, done, item);
            && Metered(world, r, done + [item])
            && r.account == if cap == [] then q.account else Floor(q.account, cap[0])
  {
    TotalOneMore(world, done, item);
  }

  lemma CapLineIsOwn(world: World, done: seq<Item>, item: Item)
    ensures var cap := CapLine(world, done, item); cap == [] || (|cap| == 1 && KindOf(cap[0]) == Own)
    ensures Spent(world, done) ==> CapLine(world, done, item) == []
  {
  }

  lemma CapKeepsShelf(a: Account, cap: seq<Entry>)
    requires cap == [] || (|cap| == 1 && KindOf(cap[0]) == Own)
    ensures var b := if cap == [] then a else Floor(a, cap[0]);
            ShelfOf(b) == ShelfOf(a) && OwnOf(b) == OwnOf(a) + cap
  {
    if cap == [] {
      assert OwnOf(a) + [] == OwnOf(a);
    } else {
      OwnLineKeepsShelf(a, cap[0]);
      OwnOneMore(a, cap[0]);
      assert cap == [cap[0]];
    }
  }

  lemma ProcessAdds(world: World, input: Input, p: Progress, done: seq<Item>, item: Item)
    requires Metered(world, p, done)
    ensures var r, a := Process(world, input, p, item), Analyzed(world, input, p, item).account;
            var cap := CapLine(world, done, item);
            Metered(world, r, done + [item]) && r.account == if cap == [] then a else Floor(a, cap[0])
  {
    ProcessIsAbsorb(world, input, p, item);
    TotalOneMore(world, done, item);
    CapLineIsOwn(world, done, item);
    if !p.ingestCapped {
      AbsorbAdds(world, Analyzed(world, input, p, item), done, item);
    }
  }

  lemma ProcessBooks(world: World, input: Input, p: Progress, done: seq<Item>, item: Item)
    requires Metered(world, p, done)
    ensures var r, calls := Process(world, input, p, item), CallsAfter(world, input, done, item);
            && ShelfOf(r.account) == PutAll(ShelfOf(p.account), OfferedBy(world, item, calls))
            && OwnOf(r.account) == OwnOf(p.account) + OwnAfter(world, input, done, item)
  {
    var a, calls, cap := Analyzed(world, input, p, item).account, CallsAfter(world, input, done, item),
                         CapLine(world, done, item);
    ProcessAdds(world, input, p, done, item);
    AnalyzedShelf(world, input, p, done, item);
    AnalyzedOwn(world, input, p, done, item);
    CapLineIsOwn(world, done, item);
    CapKeepsShelf(a, cap);
    ThreeLists(OwnOf(p.account), Greeting(item).entries + ErrorsOf(world, item, calls), cap);
  }

  lemma AddedIsNew(world: World, p: Progress, done: seq<Item>, item: Item)
    requires Metered(world, p, done)
    ensures Added(p, item, world(item.at, Extract)) == NewAfter(world, done, item)
  {
    TotalOneMore(world, done, item);
  }

  lemma OneMoreItem(world: World, input: Input, done: seq<Item>, item: Item)
    ensures var items := done + [item];
            && Offered(world, input, items) ==
               Offered(world, input, done) + OfferedBy(world, item, CallsAfter(world, input, done, item))
            && OwnLines(world, input, items) == OwnLines(world, input, done) + OwnAfter(world, input, done, item)
            && Grown(world, items) == Grown(world, done) + NewAfter(world, done, item)
  {
    assert (done + [item])[..|done|] == done;
  }

  // ---- A whole run ----

  ghost predicate Booked(world: World, input: Input, a: Account, done: seq<Item>) {
    && ShelfOf(a) == PutAll(EMPTY_SHELF, Offered(world, input, done))
    && OwnOf(a) == OwnLines(world, input, done)
  }

  /** Where a run stands after the artifacts in `p.done`. */
  ghost predicate Described(world: World, input: Input, p: Progress) {
    && Booked(world, input, p.account, p.done) && Metered(world, p, p.done)
    && All(p) == [Root(input)] + Grown(world, p.done)
  }

  lemma StepBooks(world: World, input: Input, p: Progress, done: seq<Item>, item: Item)
    requires Booked(world, input, p.account, done) && Metered(world, p, done)
    ensures Booked(world, input, Process(world, input, p, item).account, done + [item])
  {
    var offers, more := Offered(world, input, done), OfferedBy(world, item, CallsAfter(world, input, done, item));
    ProcessBooks(world, input, p, done, item);
    OneMoreItem(world, input, done, item);
    PutAllConcat(EMPTY_SHELF, offers, more);
  }

  lemma StepIsDescribed(world: World, input: Input, p: Progress)
    requires p.queue != [] && Described(world, input, p)
    ensures Described(world, input, Step(world, input, p))
  {
    var item, q := p.queue[0], Step(world, input, p);
    StepAdvances(world, input, p);
    StepBooks(world, input, Pop(p), p.done, item);
    ProcessAdds(world, input, Pop(p), p.done, item);
    StepGrows(world, input, p);
  }

  lemma StepGrows(world: World, input: Input, p: Progress)
    requires p.queue != [] && Metered(world, p, p.done) && All(p) == [Root(input)] + Grown(world, p.done)
    ensures All(Step(world, input, p)) == [Root(input)] + Grown(world, p.done + [p.queue[0]])
  {
    StepAppends(world, input, p);
    AddedIsNew(world, p, p.done, p.queue[0]);
    OneMoreItem(world, input, p.done, p.queue[0]);
    ThreeLists([Root(input)], Grown(world, p.done), NewAfter(world, p.done, p.queue[0]));
  }

  lemma InitialIsDescribed(world: World, input: Input)
    ensures Described(world, input, Initial(input))
  {
    assert All(Initial(input)) == [Root(input)] + [];
  }

  lemma ReachedIsDescribed(world: World, input: Input, n: nat)
    ensures Described(world, input, Reached(world, input, n))
  {
    InitialIsDescribed(world, input);
    forall p | Described(world, input, p)
      ensures Described(world, input, Next(world, input, p))
    {
      if p.queue != [] && |p.done| < MAX_ARTIFACTS {
        StepIsDescribed(world, input, p);
      }
    }
    HoldsAtEveryStep(world, input, p => Described(world, input, p), n);
  }

  lemma CountCapIsLast(a: Account, last: Progress)
    requires last.account == a
    ensures var b := Finish(last).account;
            ShelfOf(b) == ShelfOf(a) && OwnOf(b) == OwnOf(a) + if last.queue == [] then [] else [CountCap]
  {
    OwnLineKeepsShelf(a, CountCap);
    OwnOneMore(a, CountCap);
    assert OwnOf(a) + [] == OwnOf(a);
  }

  /** The lines of every run. The findings listed are those the budget admits out of all that
      were offered, with one marker if and only if that is not all; the rest are the hash
      lines, the failed calls and the caps, and at the end the count cap if artifacts are left
      over. The artifacts are the root and what those before them unpacked, in order, to the
      end or up to the count cap. */
  lemma EveryRunLists(world: World, input: Input)
    ensures var p := Final(world, input);
            var offers := Offered(world, input, p.done);
            && Pick(Found, p.account.entries) == Admit(offers)
            && Pick(Cut, p.account.entries) == (if Admit(offers) == offers then [] else [FindingsCap])
            && Pick(Own, p.account.entries) ==
               OwnLines(world, input, p.done) + (if p.queue == [] then [] else [CountCap])
            && p.done + p.queue == [Root(input)] + Grown(world, p.done)
            && |p.done| <= MAX_ARTIFACTS && (p.queue == [] || |p.done| == MAX_ARTIFACTS)
  {
    var last := Reached(world, input, MAX_ARTIFACTS);
    FinalIsReached(world, input);
    ReachedCounts(world, input, MAX_ARTIFACTS);
    ReachedIsDescribed(world, input, MAX_ARTIFACTS);
    AdmittedFits(Offered(world, input, last.done));
    ShelfIsAdmitted(Offered(world, input, last.done));
    CountCapIsLast(last.account, last);
  }
}
