/** The contract shared by every stage: the verdict lattice, findings and engine
    reports (internal/pipeline/types.go). Verdicts and confidences are the source's
    own integers, so that the join is an integer maximum. */
module Pipeline {

  type Verdict = v: int | 0 <= v <= 3 witness 1

  const BENIGN: Verdict := 0
  const UNKNOWN: Verdict := 1
  const SUSPICIOUS: Verdict := 2
  const MALICIOUS: Verdict := 3

  type Confidence = c: int | 0 <= c <= 2 witness 0

  const CONF_LOW: Confidence := 0
  const CONF_MEDIUM: Confidence := 1
  const CONF_HIGH: Confidence := 2

  datatype Option<+T> = None | Some(value: T)

  datatype Finding = Finding(
    engine: string,
    kind: string,
    detail: string,
    attck: string,
    verdict: Verdict,
    confidence: Confidence,
    path: string)

  datatype Child = Child(sha: string, size: nat, name: string)

  datatype EngineReport = EngineReport(
    findings: seq<Finding>,
    children: seq<Child>,
    verdict: Verdict,
    incomplete: bool,
    ingestedBytes: nat)

  datatype SubmissionResult = SubmissionResult(
    fileType: string,
    verdict: Verdict,
    score: nat,
    confidence: Confidence,
    findings: seq<Finding>,
    incomplete: bool,
    needsReview: bool)

  function Max(a: Verdict, b: Verdict): Verdict {
    if a > b then a else b
  }

  /** The join of a whole list; BENIGN is the bottom of the lattice. */
  function JoinAll(vs: seq<Verdict>): Verdict {
    if vs == [] then BENIGN else Max(JoinAll(vs[..|vs| - 1]), vs[|vs| - 1])
  }

  /** `JoinAll` is the least upper bound: it is above every element, and when it is not
      the bottom some element attains it. */
  lemma {:induction false} JoinAllIsLeastUpperBound(vs: seq<Verdict>)
    ensures forall v :: v in vs ==> v <= JoinAll(vs)
    ensures JoinAll(vs) == BENIGN || JoinAll(vs) in vs
  {
    if vs != [] {
      var init := vs[..|vs| - 1];
      JoinAllIsLeastUpperBound(init);
      assert vs == init + [vs[|vs| - 1]];
    }
  }

  lemma {:induction false} JoinAllConcat(a: seq<Verdict>, b: seq<Verdict>)
    ensures JoinAll(a + b) == Max(JoinAll(a), JoinAll(b))
  {
    if b == [] {
      assert a + b == a;
    } else {
      var init := b[..|b| - 1];
      JoinAllConcat(a, init);
      assert (a + b)[..|a + b| - 1] == a + init;
    }
  }

  function Verdicts(fs: seq<Finding>): (vs: seq<Verdict>)
    ensures |vs| == |fs| && forall i :: 0 <= i < |fs| ==> vs[i] == fs[i].verdict
  {
    seq(|fs|, i requires 0 <= i < |fs| => fs[i].verdict)
  }

  function Wire(v: Verdict): string {
    if v == BENIGN then "BENIGN"
    else if v == SUSPICIOUS then "SUSPICIOUS"
    else if v == MALICIOUS then "MALICIOUS"
    else "UNKNOWN"
  }

  /** The verdict a word stands for. Anything unrecognised reads as SUSPICIOUS with
      `ok == false`. */
  function ParseVerdict(s: string): (r: (Verdict, bool))
    ensures !r.1 ==> r.0 == SUSPICIOUS
  {
    if s == "BENIGN" then (BENIGN, true)
    else if s == "UNKNOWN" then (UNKNOWN, true)
    else if s == "SUSPICIOUS" then (SUSPICIOUS, true)
    else if s == "MALICIOUS" then (MALICIOUS, true)
    else (SUSPICIOUS, false)
  }

  /** A verdict survives the wire, and only its own word reads back as it. */
  lemma VerdictSurvivesWire(v: Verdict, s: string)
    ensures ParseVerdict(s) == (v, true) <==> s == Wire(v)
  {
    assert "BENIGN"[0] != "UNKNOWN"[0] && "SUSPICIOUS"[0] != "MALICIOUS"[0];
  }

  /** Reading is exact: a word is recognised if and only if it is some verdict's own, and then
      it reads as that verdict; everything else reads as SUSPICIOUS. */
  lemma ParseVerdictIsExact(s: string)
    ensures ParseVerdict(s).1 <==> exists v: Verdict :: Wire(v) == s
    ensures if ParseVerdict(s).1 then Wire(ParseVerdict(s).0) == s else ParseVerdict(s).0 == SUSPICIOUS
  {
    if ParseVerdict(s).1 {
      VerdictSurvivesWire(ParseVerdict(s).0, s);
    }
    forall v: Verdict | Wire(v) == s
      ensures ParseVerdict(s).1
    {
      VerdictSurvivesWire(v, s);
    }
  }

  /** What a jailed worker reports: verdicts are still words that nobody has checked. */
  datatype RawFinding = RawFinding(engine: string, kind: string, detail: string, attck: string, verdict: string)

  datatype RawReport = RawReport(
    engine: string,
    findings: seq<RawFinding>,
    children: seq<Child>,
    verdict: string,
    incomplete: bool)

  /** The summed size of a list of children. */
  function SumSizes(cs: seq<Child>): nat {
    if cs == [] then 0 else SumSizes(cs[..|cs| - 1]) + cs[|cs| - 1].size
  }

  lemma SumOneMore(cs: seq<Child>, c: Child)
    ensures SumSizes(cs + [c]) == SumSizes(cs) + c.size
  {
    assert (cs + [c])[..|cs|] == cs;
  }

  /** Fail-closed gap indicators: they raise severity but never the score. */
  predicate IsGapKind(kind: string) {
    kind in {
      "error", "recursion-cap", "ingest-rejected", "extraction-cap-hit",
      "decompression-bomb", "high-compression-ratio", "entry-too-large",
      "entry-count-cap", "skipped-symlink", "skipped-link", "skipped-special",
      "path-traversal-name", "entry-truncated", "entry-unreadable",
      "extraction-error", "findings-cap-hit", "detonation-timeout"
    }
  }

  predicate IsSignatureHit(engine: string, kind: string) {
    engine == "mal-static-yara" && kind == "yara"
  }

  /** The trusted policy that weighs a finding: a gap never counts, a signature hit counts in
      full, and of everything else exactly what is at least SUSPICIOUS counts in part. */
  function ConfidenceFor(engine: string, kind: string, v: Verdict): (c: Confidence)
    ensures c == CONF_HIGH <==> !IsGapKind(kind) && IsSignatureHit(engine, kind)
    ensures c == CONF_MEDIUM <==> !IsGapKind(kind) && !IsSignatureHit(engine, kind) && v >= SUSPICIOUS
  {
    if IsGapKind(kind) then CONF_LOW
    else if IsSignatureHit(engine, kind) then CONF_HIGH
    else if engine == "mal-capa" && kind == "capability" && v >= SUSPICIOUS then CONF_MEDIUM
    else if engine == "mal-detonate" && v >= SUSPICIOUS then CONF_MEDIUM
    else if v <= UNKNOWN then CONF_LOW
    else CONF_MEDIUM
  }
}
