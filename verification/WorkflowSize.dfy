/** How large the findings of a result are once they are serialized: exactly, in terms of what
    the engines answer, and at most. The orchestrator's own budget only estimates this size. */
module SubmissionSize {
  import opened Pipeline
  import opened SubmissionFlow
  import opened SubmissionSafety
  import opened SubmissionRefinement
  import opened SubmissionLines
  import Text

  // ---- The serialized form (encoding/json with its defaults) ----

  predicate ByteWithin(s: string, i: nat, lo: nat, hi: nat) {
    i < |s| && lo <= s[i] as int <= hi
  }

  predicate Continues(s: string, i: nat) {
    ByteWithin(s, i, 0x80, 0xbf)
  }

  /** The bytes of the rune that `s` begins with, or 0 where it is not valid UTF-8. */
  function RuneLength(s: string): (n: nat)
    requires s != []
    ensures n <= |s|
  {
    var b := s[0] as int;
    if b < 0x80 then 1
    else if 0xc2 <= b <= 0xdf then if Continues(s, 1) then 2 else 0
    else if 0xe0 <= b <= 0xef then
      var lo, hi := if b == 0xe0 then 0xa0 else 0x80, if b == 0xed then 0x9f else 0xbf;
      if ByteWithin(s, 1, lo, hi) && Continues(s, 2) then 3 else 0
    else if 0xf0 <= b <= 0xf4 then
      var lo, hi := if b == 0xf0 then 0x90 else 0x80, if b == 0xf4 then 0x8f else 0xbf;
      if ByteWithin(s, 1, lo, hi) && Continues(s, 2) && Continues(s, 3) then 4 else 0
    else 0
  }

  /** U+2028 and U+2029. */
  predicate StartsLineBreak(s: string) {
    ByteWithin(s, 0, 0xe2, 0xe2) && ByteWithin(s, 1, 0x80, 0x80) && ByteWithin(s, 2, 0xa8, 0xa9)
  }

  const ESCAPED: nat := 6

  /** One ASCII byte inside a string: quotes, backslashes and the named controls take two bytes,
      other controls and the three characters that are special to HTML six. */
  function AsciiBytes(c: char): nat {
    if c == '"' || c == '\\' || c == '\n' || c == '\r' || c == '\t' || c as int == 0x08 || c as int == 0x0c then 2
    else if c < ' ' || c == '<' || c == '>' || c == '&' then ESCAPED
    else 1
  }

  /** The bytes between the quotes. */
  function TextBytes(s: string): (n: nat)
    ensures |s| <= n <= ESCAPED * |s|
  {
    if s == [] then 0
    else
      var n := RuneLength(s);
      if n == 0 then ESCAPED + TextBytes(s[1..])
      else (if n == 1 then AsciiBytes(s[0]) else if StartsLineBreak(s) then ESCAPED else n) + TextBytes(s[n..])
  }

  /** A member with a name of `name` bytes: two pairs of quotes, a colon, and what follows. */
  function Member(name: nat, text: nat): nat {
    name + text + 6
  }

  function ConfidenceWord(c: Confidence): string {
    if c == CONF_HIGH then "HIGH" else if c == CONF_MEDIUM then "MEDIUM" else "LOW"
  }

  /** One finding in the list, with its opening brace and the comma or bracket after it; empty
      techniques and paths are omitted. */
  function JsonBytes(f: Finding): nat {
    2 + Member(|"engine"|, TextBytes(f.engine)) + Member(|"type"|, TextBytes(f.kind))
    + Member(|"detail"|, TextBytes(f.detail)) + (if f.attck == "" then 0 else Member(|"attck"|, TextBytes(f.attck)))
    + Member(|"verdict"|, |Wire(f.verdict)|) + Member(|"confidence"|, |ConfidenceWord(f.confidence)|)
    + (if f.path == "" then 0 else Member(|"path"|, TextBytes(f.path)))
  }

  /** The summed serialized size of a list of findings. */
  function JsonOf(fs: seq<Finding>): nat {
    if fs == [] then 0 else JsonOf(fs[..|fs| - 1]) + JsonBytes(fs[|fs| - 1])
  }

  // ---- Weighing lines ----

  function LineJson(e: Entry): nat {
    JsonBytes(Render(e))
  }

  /** What the orchestrator takes a line to cost. */
  function LineEstimate(e: Entry): nat {
    Size(Render(e).path, Render(e))
  }

  function Weigh(weight: Entry -> nat, es: seq<Entry>): nat {
    if es == [] then 0 else Weigh(weight, es[..|es| - 1]) + weight(es[|es| - 1])
  }

  lemma WeighOneMore(weight: Entry -> nat, es: seq<Entry>, e: Entry)
    ensures Weigh(weight, es + [e]) == Weigh(weight, es) + weight(e)
  {
    assert (es + [e])[..|es|] == es;
  }

  lemma {:induction false} WeighConcat(weight: Entry -> nat, a: seq<Entry>, b: seq<Entry>)
    ensures Weigh(weight, a + b) == Weigh(weight, a) + Weigh(weight, b)
  {
    if b == [] {
      assert a + b == a;
    } else {
      var n := |b| - 1;
      WeighConcat(weight, a, b[..n]);
      assert (a + b)[..|a + b| - 1] == a + b[..n];
    }
  }

  lemma {:induction false} WeighByKind(weight: Entry -> nat, es: seq<Entry>)
    ensures Weigh(weight, es) ==
            Weigh(weight, Pick(Found, es)) + Weigh(weight, Pick(Own, es)) + Weigh(weight, Pick(Cut, es))
  {
    if es != [] {
      var init, e := es[..|es| - 1], es[|es| - 1];
      WeighByKind(weight, init);
      WeighOneMore(weight, Pick(KindOf(e), init), e);
    }
  }

  lemma {:induction false} WeighAtMost(light: Entry -> nat, heavy: Entry -> nat, k: nat, es: seq<Entry>)
    requires forall i :: 0 <= i < |es| ==> light(es[i]) <= k * heavy(es[i])
    ensures Weigh(light, es) <= k * Weigh(heavy, es)
  {
    if es != [] {
      var n := |es| - 1;
      WeighAtMost(light, heavy, k, es[..n]);
      assert k * (Weigh(heavy, es[..n]) + heavy(es[n])) == k * Weigh(heavy, es[..n]) + k * heavy(es[n]);
    }
  }

  lemma {:induction false} RenderedJson(es: seq<Entry>)
    ensures JsonOf(RenderAll(es)) == Weigh(LineJson, es)
  {
    if es != [] {
      var n, fs := |es| - 1, RenderAll(es);
      RenderedJson(es[..n]);
      assert fs[..n] == RenderAll(es[..n]) && fs[n] == Render(es[n]);
    }
  }

  // ---- The exact size ----

  /** What a run writes, as a function of what the engines answer on its artifacts: the
      admitted findings, the orchestrator's own lines, and the two last markers. */
  function AnswersWeigh(weight: Entry -> nat, world: World, input: Input, done: seq<Item>, leftOver: bool): nat {
    var offers := Offered(world, input, done);
    Weigh(weight, Admit(offers)) + (if Admit(offers) == offers then 0 else weight(FindingsCap))
    + Weigh(weight, OwnLines(world, input, done)) + (if leftOver then weight(CountCap) else 0)
  }

  lemma OneWeighs(weight: Entry -> nat, e: Entry)
    ensures Weigh(weight, [e]) == weight(e)
  {
    assert [] + [e] == [e];
    WeighOneMore(weight, [], e);
  }

  lemma RunWeighs(weight: Entry -> nat, world: World, input: Input)
    ensures var p := Final(world, input);
            Weigh(weight, p.account.entries) == AnswersWeigh(weight, world, input, p.done, p.queue != [])
  {
    var p := Final(world, input);
    EveryRunLists(world, input);
    WeighByKind(weight, p.account.entries);
    OneWeighs(weight, FindingsCap);
    OneWeighs(weight, CountCap);
    WeighConcat(weight, OwnLines(world, input, p.done), if p.queue == [] then [] else [CountCap]);
  }

  const TRANSPORT: nat := 0x20_0000

  /** Exactly when the findings of a result fit in two MiB, for every run: when those that the
      byte budget admits do, together with the hash lines, the errors and the markers. */
  lemma ResultFitsExactly(world: World, input: Input)
    ensures var p := Final(world, input);
            JsonOf(ResultOf(p).findings) <= TRANSPORT <==>
            AnswersWeigh(LineJson, world, input, p.done, p.queue != []) <= TRANSPORT
  {
    RunWeighs(LineJson, world, input);
    RenderedJson(Final(world, input).account.entries);
  }

  function ItemJson(world: World, input: Input): Item -> nat {
    (item: Item) => Weigh(LineJson, FromItem(world, input, item).entries)
  }

  lemma {:induction false} TreeWeighs(world: World, input: Input, items: seq<Item>)
    ensures Weigh(LineJson, SumOf(YieldOf(world, input), items).entries) == Total(ItemJson(world, input), items)
  {
    if items != [] {
      var n := |items| - 1;
      TreeWeighs(world, input, items[..n]);
      WeighConcat(LineJson, SumOf(YieldOf(world, input), items[..n]).entries, FromItem(world, input, items[n]).entries);
    }
  }

  /** For an input whose naive analysis stays within the caps, so that the run is complete: when
      the findings of all engines and the hash lines, summed over the extraction tree, do. */
  lemma CompleteResultFitsExactly(world: World, input: Input)
    requires Fits(world, input)
    ensures JsonOf(ResultOf(Final(world, input)).findings) <= TRANSPORT <==>
            Total(ItemJson(world, input), Tree(world, input, MAX_DEPTH)) <= TRANSPORT
  {
    CompleteExactlyWhenItFits(world, input);
    CompleteRunIsNaiveAnalysis(world, input, MAX_DEPTH);
    TreeWeighs(world, input, Tree(world, input, MAX_DEPTH));
    RenderedJson(Final(world, input).account.entries);
  }

  // ---- The estimate against the serialized size ----

  /** Text that is written as it is. */
  predicate Plain(s: string) {
    forall i :: 0 <= i < |s| ==> s[i] as int < 0x80 && AsciiBytes(s[i]) == 1
  }

  lemma {:induction false} PlainText(s: string)
    requires Plain(s)
    ensures TextBytes(s) == |s|
  {
    if s != [] {
      PlainText(s[1..]);
    }
  }

  lemma WordsAreShort(f: Finding)
    ensures |Wire(f.verdict)| <= 10 && |ConfidenceWord(f.confidence)| <= 6
  {
  }

  predicate PlainFinding(f: Finding) {
    Plain(f.engine) && Plain(f.kind) && Plain(f.detail) && Plain(f.attck) && Plain(f.path)
  }

  function Texts(f: Finding): nat {
    TextBytes(f.engine) + TextBytes(f.kind) + TextBytes(f.detail) + TextBytes(f.attck) + TextBytes(f.path)
  }

  lemma JsonIsTexts(f: Finding)
    ensures Texts(f) <= JsonBytes(f) <= Texts(f) + 102
  {
    WordsAreShort(f);
  }

  /** The overhead constant covers the structure of a finding, and the lengths cover its text if
      nothing in it is escaped. At worst every byte is. */
  lemma EstimateCovers(f: Finding)
    ensures JsonBytes(f) <= ESCAPED * Size(f.path, f)
    ensures PlainFinding(f) ==> JsonBytes(f) <= Size(f.path, f)
  {
    JsonIsTexts(f);
    if PlainFinding(f) {
      PlainText(f.engine);
      PlainText(f.kind);
      PlainText(f.detail);
      PlainText(f.attck);
      PlainText(f.path);
    }
  }

  // ---- What holds of every artifact ----

  ghost predicate AllAre(good: Item -> bool, items: seq<Item>) {
    forall i :: 0 <= i < |items| ==> good(items[i])
  }

  ghost predicate HandsDown(world: World, good: Item -> bool) {
    forall item: Item :: good(item) ==> AllAre(good, Children(world, item))
  }

  lemma NextItemsAre(world: World, input: Input, good: Item -> bool, p: Progress)
    requires HandsDown(world, good) && AllAre(good, All(p))
    ensures AllAre(good, All(Next(world, input, p)))
  {
    if p.queue != [] && |p.done| < MAX_ARTIFACTS {
      var item := p.queue[0];
      StepAppends(world, input, p);
      assert All(p)[|p.done|] == item;
      assert AllAre(good, Children(world, item));
    }
  }

  lemma ItemsAre(world: World, input: Input, good: Item -> bool, n: nat)
    requires HandsDown(world, good) && good(Root(input))
    ensures AllAre(good, Reached(world, input, n).done)
  {
    assert All(Initial(input)) == [Root(input)];
    forall p | AllAre(good, All(p))
      ensures AllAre(good, All(Next(world, input, p)))
    {
      NextItemsAre(world, input, good, p);
    }
    HoldsAtEveryStep(world, input, p => AllAre(good, All(p)), n);
    var p := Reached(world, input, n);
    assert forall i :: 0 <= i < |p.done| ==> All(p)[i] == p.done[i];
  }

  const SHA_LENGTH: nat := 64

  /** A hash for a name, and a breadcrumb in bounds. */
  predicate ShortItem(item: Item) {
    Text.AllHex(item.sha, SHA_LENGTH) && ShortAndClean(item.path)
  }

  /** What the ingest loop guarantees: a child is named by a hash. */
  ghost predicate NamedByHash(world: World) {
    forall at, c :: world(at, Extract).Completed? && c in world(at, Extract).report.children ==>
                      Text.AllHex(c.sha, SHA_LENGTH)
  }

  lemma ShortnessIsHandedDown(world: World)
    requires NamedByHash(world)
    ensures HandsDown(world, ShortItem)
  {
    forall item: Item | ShortItem(item)
      ensures AllAre(ShortItem, Children(world, item))
    {
      var cs := ReportOf(world(item.at, Extract)).children;
      forall i | 0 <= i < |cs|
        ensures ShortItem(Children(world, item)[i])
      {
        assert cs[i] in cs;
        CrumbIsShortAndClean(item.path, cs[i].name);
      }
    }
  }

  predicate PlainReport(rep: EngineReport) {
    && (forall i :: 0 <= i < |rep.findings| ==> PlainFinding(rep.findings[i].(path := "")))
    && forall i :: 0 <= i < |rep.children| ==> Plain(rep.children[i].name)
  }

  /** No engine says anything that has to be escaped. */
  ghost predicate PlainAnswers(world: World) {
    forall at, e :: PlainReport(ReportOf(world(at, e)))
  }

  predicate PlainItem(item: Item) {
    Plain(item.path)
  }

  lemma PlainPrefix(s: string, t: string)
    requires Plain(s) && t <= s
    ensures Plain(t + "~")
  {
  }

  lemma PlainClamp(s: string, n: nat)
    requires Plain(s)
    ensures Plain(ClampBytes(s, n))
  {
    if |s| > n {
      DropTailIsPrefix(s[..n]);
      PlainPrefix(s, DropTail(s[..n]));
    }
  }

  lemma PlainCrumb(parent: string, name: string)
    requires Plain(parent) && Plain(name)
    ensures Plain(Crumb(parent, name))
  {
    PlainClamp(DotControls(name), MAX_CRUMB_SEGMENT);
    var segment := ClampBytes(DotControls(name), MAX_CRUMB_SEGMENT);
    assert Plain(parent + "!" + segment);
    PlainClamp(parent + "!" + segment, MAX_CRUMB_PATH);
  }

  lemma PlainnessIsHandedDown(world: World)
    requires PlainAnswers(world)
    ensures HandsDown(world, PlainItem)
  {
    forall item: Item | PlainItem(item)
      ensures AllAre(PlainItem, Children(world, item))
    {
      var cs := ReportOf(world(item.at, Extract)).children;
      assert PlainReport(ReportOf(world(item.at, Extract)));
      forall i | 0 <= i < |cs|
        ensures PlainItem(Children(world, item)[i])
      {
        PlainCrumb(item.path, cs[i].name);
      }
    }
  }

  // ---- How much the orchestrator adds ----

  /** The calls that fail. */
  function FailedCalls(world: World, input: Input, items: seq<Item>): nat {
    if items == [] then 0
    else
      var done, item := items[..|items| - 1], items[|items| - 1];
      FailedCalls(world, input, done) + Failures(world, item.at, CallsAfter(world, input, done, item))
  }

  lemma {:induction false} ErrorsAreFailures(world: World, item: Item, calls: seq<Engine>)
    ensures |ErrorsOf(world, item, calls)| == Failures(world, item.at, calls)
  {
    if calls != [] {
      ErrorsAreFailures(world, item, calls[..|calls| - 1]);
    }
  }

  /** Which of the two caps have been hit. */
  function CapsHit(world: World, items: seq<Item>): nat {
    (if Spent(world, items) then 1 else 0) + (if DepthHit(world, items) then 1 else 0)
  }

  lemma CapLineIsCounted(world: World, done: seq<Item>, item: Item)
    ensures CapsHit(world, done) + |CapLine(world, done, item)| <= CapsHit(world, done + [item])
  {
    TotalOneMore(world, done, item);
  }

  lemma OwnAfterIsFew(world: World, input: Input, done: seq<Item>, item: Item)
    ensures |OwnAfter(world, input, done, item)| + CapsHit(world, done) <=
            1 + Failures(world, item.at, CallsAfter(world, input, done, item)) + CapsHit(world, done + [item])
  {
    ErrorsAreFailures(world, item, CallsAfter(world, input, done, item));
    CapLineIsCounted(world, done, item);
  }

  /** The lengths and numbers that one more artifact adds up to. */
  lemma OneMoreCounts(world: World, input: Input, done: seq<Item>, item: Item)
    ensures |OwnLines(world, input, done + [item])| ==
            |OwnLines(world, input, done)| + |OwnAfter(world, input, done, item)|
    ensures FailedCalls(world, input, done + [item]) ==
            FailedCalls(world, input, done)
            + Failures(world, item.at, CallsAfter(world, input, done, item))
  {
    assert (done + [item])[..|done|] == done;
  }

  /** The lines still to spare: one per artifact, one per failed call and one per cap. */
  function Spare(world: World, input: Input, items: seq<Item>): int {
    |items| + FailedCalls(world, input, items) + CapsHit(world, items) - |OwnLines(world, input, items)|
  }

  lemma SpareNeverFalls(world: World, input: Input, done: seq<Item>, item: Item)
    ensures Spare(world, input, done) <= Spare(world, input, done + [item])
  {
    OneMoreCounts(world, input, done, item);
    OwnAfterIsFew(world, input, done, item);
  }

  lemma {:induction false} NeverBelowZero(spare: seq<Item> -> int, items: seq<Item>)
    requires spare([]) >= 0 && forall done, item :: spare(done) <= spare(done + [item])
    ensures spare(items) >= 0
  {
    if items != [] {
      var done, item := items[..|items| - 1], items[|items| - 1];
      NeverBelowZero(spare, done);
      assert items == done + [item];
    }
  }

  lemma OwnLinesAreFew(world: World, input: Input, items: seq<Item>)
    ensures |OwnLines(world, input, items)| <= |items| + FailedCalls(world, input, items) + CapsHit(world, items)
  {
    forall done, item
      ensures Spare(world, input, done) <= Spare(world, input, done + [item])
    {
      SpareNeverFalls(world, input, done, item);
    }
    NeverBelowZero(done => Spare(world, input, done), items);
  }

  ghost predicate RootFirst(items: seq<Item>) {
    forall i :: 0 < i < |items| ==> items[i].depth > 0
  }

  lemma {:induction false} FailedCallsAreFew(world: World, input: Input, items: seq<Item>)
    requires RootFirst(items)
    ensures FailedCalls(world, input, items) <= 5 * |items| + 1
  {
    if items != [] {
      var done, item := items[..|items| - 1], items[|items| - 1];
      FewFailures(world, input, item, !Spent(world, done));
      if |items| > 1 {
        FailedCallsAreFew(world, input, done);
      }
    }
  }

  const MAX_LINE: nat := 1280

  predicate ShortLine(e: Entry) {
    match e
    case Evidence(_, _) => false
    case ArtifactHash(sha, path) => |sha| <= SHA_LENGTH && |path| <= MAX_CRUMB
    case EngineError(_, path) => |path| <= MAX_CRUMB
    case FindingsCap => true
    case CountCap => true
    case DepthCap(path) => |path| <= MAX_CRUMB
    case IngestCap(path) => |path| <= MAX_CRUMB
  }

  lemma MarkerIsShort(e: Entry)
    requires e.FindingsCap? || e.CountCap?
    ensures LineEstimate(e) <= MAX_LINE
  {
  }

  lemma PlacedMarkerIsShort(e: Entry)
    requires ShortLine(e) && (e.DepthCap? || e.IngestCap?)
    ensures LineEstimate(e) <= MAX_LINE
  {
  }

  lemma OwnLineIsShort(e: Entry)
    requires ShortLine(e)
    ensures LineEstimate(e) <= MAX_LINE
  {
    match e
    case ArtifactHash(_, _) =>
    case EngineError(_, _) =>
    case FindingsCap => MarkerIsShort(e);
    case CountCap => MarkerIsShort(e);
    case DepthCap(_) => PlacedMarkerIsShort(e);
    case IngestCap(_) => PlacedMarkerIsShort(e);
  }

  ghost predicate Lines(good: Entry -> bool, es: seq<Entry>) {
    forall i :: 0 <= i < |es| ==> good(es[i])
  }

  /** The lines with a path carry the path of their artifact. */
  predicate PlacedAt(item: Item, e: Entry) {
    match e
    case Evidence(_, _) => false
    case ArtifactHash(sha, path) => sha == item.sha && path == item.path
    case EngineError(_, path) => path == item.path
    case FindingsCap => false
    case CountCap => false
    case DepthCap(path) => path == item.path
    case IngestCap(path) => path == item.path
  }

  function At(item: Item): Entry -> bool {
    (e: Entry) => PlacedAt(item, e)
  }

  lemma LinesConcat(good: Entry -> bool, a: seq<Entry>, b: seq<Entry>)
    requires Lines(good, a) && Lines(good, b)
    ensures Lines(good, a + b)
  {
  }

  lemma {:induction false} ErrorsArePlaced(world: World, item: Item, calls: seq<Engine>)
    ensures Lines(At(item), ErrorsOf(world, item, calls))
  {
    if calls != [] {
      ErrorsArePlaced(world, item, calls[..|calls| - 1]);
    }
  }

  lemma OwnAfterIsPlaced(world: World, input: Input, done: seq<Item>, item: Item)
    ensures Lines(At(item), OwnAfter(world, input, done, item))
  {
    var calls := CallsAfter(world, input, done, item);
    ErrorsArePlaced(world, item, calls);
    LinesConcat(At(item), Greeting(item).entries, ErrorsOf(world, item, calls));
    LinesConcat(At(item), Greeting(item).entries + ErrorsOf(world, item, calls), CapLine(world, done, item));
  }

  ghost predicate Carries(fine: Item -> bool, good: Entry -> bool) {
    forall item: Item, e :: fine(item) && PlacedAt(item, e) ==> good(e)
  }

  lemma LinesCarry(item: Item, fine: Item -> bool, good: Entry -> bool, es: seq<Entry>)
    requires fine(item) && Carries(fine, good) && Lines(At(item), es)
    ensures Lines(good, es)
  {
    forall i | 0 <= i < |es|
      ensures good(es[i])
    {
      assert At(item)(es[i]);
    }
  }

  lemma {:induction false} OwnLinesAre(world: World, input: Input, items: seq<Item>, fine: Item -> bool,
                                       good: Entry -> bool)
    requires AllAre(fine, items) && Carries(fine, good)
    ensures Lines(good, OwnLines(world, input, items))
  {
    if items != [] {
      var done, item := items[..|items| - 1], items[|items| - 1];
      OwnLinesAre(world, input, done, fine, good);
      OwnAfterIsPlaced(world, input, done, item);
      LinesCarry(item, fine, good, OwnAfter(world, input, done, item));
      LinesConcat(good, OwnLines(world, input, done), OwnAfter(world, input, done, item));
    }
  }

  lemma {:induction false} WeighShort(es: seq<Entry>)
    requires Lines(ShortLine, es)
    ensures Weigh(LineEstimate, es) <= MAX_LINE * |es|
  {
    if es != [] {
      WeighShort(es[..|es| - 1]);
      OwnLineIsShort(es[|es| - 1]);
    }
  }

  // ---- What is listed of the engines ----

  lemma {:induction false} AdmittedAreOffered(es: seq<Entry>, good: Entry -> bool)
    requires Lines(good, es)
    ensures Lines(good, Admit(es))
  {
    if es != [] {
      AdmittedAreOffered(es[..|es| - 1], good);
    }
  }

  predicate IsEvidence(e: Entry) {
    e.Evidence?
  }

  lemma {:induction false} ToldIs(path: string, fs: seq<Finding>, good: Entry -> bool)
    requires forall i :: 0 <= i < |fs| ==> good(Evidence(fs[i], path))
    ensures Lines(good, Told(path, fs))
  {
    if fs != [] {
      ToldIs(path, fs[..|fs| - 1], good);
    }
  }

  ghost predicate TellsOnly(world: World, item: Item, good: Entry -> bool) {
    forall e, i :: 0 <= i < |ReportOf(world(item.at, e)).findings| ==>
                     good(Evidence(ReportOf(world(item.at, e)).findings[i], item.path))
  }

  lemma {:induction false} OfferedByIs(world: World, item: Item, calls: seq<Engine>, good: Entry -> bool)
    requires TellsOnly(world, item, good)
    ensures Lines(good, OfferedBy(world, item, calls))
  {
    if calls != [] {
      var n := |calls| - 1;
      var fs := ReportOf(world(item.at, calls[n])).findings;
      OfferedByIs(world, item, calls[..n], good);
      ToldIs(item.path, fs, good);
      LinesConcat(good, OfferedBy(world, item, calls[..n]), Told(item.path, fs));
    }
  }

  lemma {:induction false} OfferedIs(world: World, input: Input, items: seq<Item>, good: Entry -> bool)
    requires forall i :: 0 <= i < |items| ==> TellsOnly(world, items[i], good)
    ensures Lines(good, Offered(world, input, items))
  {
    if items != [] {
      var done, item := items[..|items| - 1], items[|items| - 1];
      var calls := CallsAfter(world, input, done, item);
      OfferedIs(world, input, done, good);
      OfferedByIs(world, item, calls, good);
      LinesConcat(good, Offered(world, input, done), OfferedBy(world, item, calls));
    }
  }

  lemma {:induction false} ChargeIsEstimate(es: seq<Entry>)
    requires Lines(IsEvidence, es)
    ensures Weigh(LineEstimate, es) == ChargeAll(es)
  {
    if es != [] {
      ChargeIsEstimate(es[..|es| - 1]);
    }
  }

  /** The estimate of the admitted findings is what the budget was charged. */
  lemma AdmittedEstimate(world: World, input: Input, items: seq<Item>)
    ensures Weigh(LineEstimate, Admit(Offered(world, input, items))) <= MAX_FINDINGS_BYTES
  {
    var offers := Offered(world, input, items);
    OfferedIs(world, input, items, IsEvidence);
    AdmittedAreOffered(offers, IsEvidence);
    ChargeIsEstimate(Admit(offers));
    AdmittedFits(offers);
  }

  // ---- The bounds ----

  lemma FinalItemsAre(world: World, input: Input, good: Item -> bool)
    requires HandsDown(world, good) && good(Root(input))
    ensures AllAre(good, Final(world, input).done) && RootFirst(Final(world, input).done)
  {
    FinalIsReached(world, input);
    ItemsAre(world, input, good, MAX_ARTIFACTS);
    OrderAtEveryStep(world, input, MAX_ARTIFACTS);
    var p := Reached(world, input, MAX_ARTIFACTS);
    assert forall i :: 0 <= i < |p.done| ==> All(p)[i] == p.done[i];
  }

  lemma OwnEstimate(world: World, input: Input, items: seq<Item>)
    requires AllAre(ShortItem, items)
    ensures Weigh(LineEstimate, OwnLines(world, input, items)) <=
            MAX_LINE * (|items| + FailedCalls(world, input, items) + 2)
  {
    OwnLinesAre(world, input, items, ShortItem, ShortLine);
    OwnLinesAreFew(world, input, items);
    WeighShort(OwnLines(world, input, items));
  }

  /** By the orchestrator's own estimate: two and a half MiB for every run, and two for every run
      in which no more than 600 engine calls fail. */
  lemma EstimateIsBounded(world: World, input: Input)
    requires NamedByHash(world) && Text.AllHex(input.sha, SHA_LENGTH)
    ensures var p := Final(world, input);
            var size, failed := Weigh(LineEstimate, p.account.entries), FailedCalls(world, input, p.done);
            size < 0x28_0000 && (failed <= 600 ==> size < TRANSPORT)
  {
    var p := Final(world, input);
    ShortnessIsHandedDown(world);
    FinalItemsAre(world, input, ShortItem);
    EveryRunLists(world, input);
    RunWeighs(LineEstimate, world, input);
    AdmittedEstimate(world, input, p.done);
    OwnEstimate(world, input, p.done);
    FailedCallsAreFew(world, input, p.done);
    MarkerIsShort(FindingsCap);
    MarkerIsShort(CountCap);
  }

  lemma {:induction false} JsonAtMost(es: seq<Entry>)
    ensures Weigh(LineJson, es) <= ESCAPED * Weigh(LineEstimate, es)
  {
    if es != [] {
      JsonAtMost(es[..|es| - 1]);
      EstimateCovers(Render(es[|es| - 1]));
    }
  }

  predicate PlainLine(e: Entry) {
    PlainFinding(Render(e))
  }

  lemma {:induction false} PlainJson(es: seq<Entry>)
    requires Lines(PlainLine, es)
    ensures Weigh(LineJson, es) <= Weigh(LineEstimate, es)
  {
    if es != [] {
      PlainJson(es[..|es| - 1]);
      EstimateCovers(Render(es[|es| - 1]));
    }
  }

  const MAX_JSON_LINE: nat := 1760

  /** The words of a finding, as opposed to its path. */
  function Words(f: Finding): nat {
    |f.engine| + |f.kind| + |f.detail| + |f.attck|
  }

  lemma PlacedJson(f: Finding)
    requires Words(f) <= 104 && Plain(f.path) && |f.path| <= MAX_CRUMB
    ensures JsonBytes(f) <= MAX_JSON_LINE
  {
    PlainText(f.path);
    JsonIsTexts(f);
  }

  lemma ErrorJson(e: Engine, path: string)
    requires Plain(path) && |path| <= MAX_CRUMB
    ensures LineJson(EngineError(e, path)) <= MAX_JSON_LINE
  {
    var f := Render(EngineError(e, path));
    assert Words(f) <= 104;
    PlacedJson(f);
  }

  lemma DepthCapJson(path: string)
    requires Plain(path) && |path| <= MAX_CRUMB
    ensures LineJson(DepthCap(path)) <= MAX_JSON_LINE
  {
    var f := Render(DepthCap(path));
    assert Words(f) <= 104;
    PlacedJson(f);
  }

  lemma IngestCapJson(path: string)
    requires Plain(path) && |path| <= MAX_CRUMB
    ensures LineJson(IngestCap(path)) <= MAX_JSON_LINE
  {
    var f := Render(IngestCap(path));
    assert Words(f) <= 104;
    PlacedJson(f);
  }

  lemma HashWords(sha: string, path: string)
    requires |sha| <= SHA_LENGTH
    ensures Words(Render(ArtifactHash(sha, path))) <= 104
  {
    assert |"sha256=" + sha| <= 71;
  }

  lemma HashJson(sha: string, path: string)
    requires ShortLine(ArtifactHash(sha, path)) && Plain(path)
    ensures LineJson(ArtifactHash(sha, path)) <= MAX_JSON_LINE
  {
    HashWords(sha, path);
    PlacedJson(Render(ArtifactHash(sha, path)));
  }

  lemma FindingsCapJson()
    ensures LineJson(FindingsCap) <= MAX_JSON_LINE
  {
    var f := Render(FindingsCap);
    assert Words(f) <= 150;
    JsonIsTexts(f);
  }

  lemma CountCapJson()
    ensures LineJson(CountCap) <= MAX_JSON_LINE
  {
    var f := Render(CountCap);
    assert Words(f) <= 104;
    JsonIsTexts(f);
  }

  /** A line of the orchestrator's own on an artifact whose path needs no escaping. */
  predicate CleanLine(e: Entry) {
    && ShortLine(e) && !e.FindingsCap? && !e.CountCap?
    && Plain(e.path)
  }

  lemma CleanLineJson(e: Entry)
    requires CleanLine(e)
    ensures LineJson(e) <= MAX_JSON_LINE
  {
    match e
    case ArtifactHash(sha, path) => HashJson(sha, path);
    case EngineError(engine, path) => ErrorJson(engine, path);
    case DepthCap(path) => DepthCapJson(path);
    case IngestCap(path) => IngestCapJson(path);
  }

  lemma {:induction false} CleanJson(es: seq<Entry>)
    requires Lines(CleanLine, es)
    ensures Weigh(LineJson, es) <= MAX_JSON_LINE * |es|
  {
    if es != [] {
      CleanJson(es[..|es| - 1]);
      CleanLineJson(es[|es| - 1]);
    }
  }

  predicate CleanItem(item: Item) {
    ShortItem(item) && PlainItem(item)
  }

  lemma CleannessIsHandedDown(world: World)
    requires NamedByHash(world) && PlainAnswers(world)
    ensures HandsDown(world, CleanItem)
  {
    ShortnessIsHandedDown(world);
    PlainnessIsHandedDown(world);
    forall item: Item | CleanItem(item)
      ensures AllAre(CleanItem, Children(world, item))
    {
      assert AllAre(ShortItem, Children(world, item)) && AllAre(PlainItem, Children(world, item));
    }
  }

  lemma PlainOffers(world: World, input: Input, items: seq<Item>)
    requires PlainAnswers(world) && AllAre(CleanItem, items)
    ensures Lines(PlainLine, Admit(Offered(world, input, items)))
  {
    forall i | 0 <= i < |items|
      ensures TellsOnly(world, items[i], PlainLine)
    {
      PlainTelling(world, items[i]);
    }
    OfferedIs(world, input, items, PlainLine);
    AdmittedAreOffered(Offered(world, input, items), PlainLine);
  }

  lemma PlainTelling(world: World, item: Item)
    requires PlainAnswers(world) && Plain(item.path)
    ensures TellsOnly(world, item, PlainLine)
  {
    forall e, i | 0 <= i < |ReportOf(world(item.at, e)).findings|
      ensures PlainLine(Evidence(ReportOf(world(item.at, e)).findings[i], item.path))
    {
      assert PlainReport(ReportOf(world(item.at, e)));
      var f := ReportOf(world(item.at, e)).findings[i];
      assert PlainFinding(f.(path := ""));
    }
  }

  lemma PlainEvidence(world: World, input: Input, items: seq<Item>)
    requires PlainAnswers(world) && AllAre(CleanItem, items)
    ensures Weigh(LineJson, Admit(Offered(world, input, items))) <= MAX_FINDINGS_BYTES
  {
    PlainOffers(world, input, items);
    PlainJson(Admit(Offered(world, input, items)));
    AdmittedEstimate(world, input, items);
  }

  lemma CleanOwnLines(world: World, input: Input, items: seq<Item>)
    requires AllAre(CleanItem, items)
    ensures Weigh(LineJson, OwnLines(world, input, items)) <=
            MAX_JSON_LINE * (|items| + FailedCalls(world, input, items) + 2)
  {
    forall item: Item, e | CleanItem(item) && PlacedAt(item, e)
      ensures CleanLine(e)
    {
    }
    OwnLinesAre(world, input, items, CleanItem, CleanLine);
    OwnLinesAreFew(world, input, items);
    CleanJson(OwnLines(world, input, items));
  }

  /** In bytes that are really written: fifteen MiB for every run. */
  lemma ResultIsBounded(world: World, input: Input)
    requires NamedByHash(world) && Text.AllHex(input.sha, SHA_LENGTH)
    ensures JsonOf(ResultOf(Final(world, input)).findings) < 0xf0_0000
  {
    EstimateIsBounded(world, input);
    JsonAtMost(Final(world, input).account.entries);
    RenderedJson(Final(world, input).account.entries);
  }

  /** And when no engine says anything that has to be escaped, three and a quarter MiB for
      every run, and two for every run in which no more than 380 engine calls fail. */
  lemma PlainResultIsBounded(world: World, input: Input)
    requires NamedByHash(world) && Text.AllHex(input.sha, SHA_LENGTH) && PlainAnswers(world)
    ensures var p := Final(world, input);
            var size, failed := JsonOf(ResultOf(p).findings), FailedCalls(world, input, p.done);
            size < 0x34_0000 && (failed <= 380 ==> size < TRANSPORT)
  {
    var p := Final(world, input);
    CleannessIsHandedDown(world);
    FinalItemsAre(world, input, CleanItem);
    EveryRunLists(world, input);
    RunWeighs(LineJson, world, input);
    RenderedJson(p.account.entries);
    PlainEvidence(world, input, p.done);
    CleanOwnLines(world, input, p.done);
    FailedCallsAreFew(world, input, p.done);
    FindingsCapJson();
    CountCapJson();
  }
}
