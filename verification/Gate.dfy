/** The confidence gate (internal/aiplane/gate.go): inverted and downgrade-only. */
module Gate {
  import opened Pipeline
  import opened Graduation
  import Knowledge
  import Registry

  datatype Citation = Citation(factId: string, kind: string, key: string)

  datatype Hypothesis = Hypothesis(kind: string, claim: string, confidence: string, citations: seq<Citation>)

  datatype Lead = Lead(kind: string, value: string)

  datatype Proposal = Proposal(
    summary: string, hypotheses: seq<Hypothesis>, leads: seq<Lead>, needsReview: bool, reviewReason: string)

  /** The non-grounding axes; `NoSignals` is the unmeasured zero value. */
  datatype Signals = Signals(refuted: bool, selfConsistency: real, novelty: real, calibrated: string)

  const NoSignals := Signals(false, 0.0, 0.0, "")

  datatype Disposition = Drop | Escalate | Accept

  datatype Stop = VerifierRefuted | NoveltyHigh(value: real) | ConsistencyLow(value: real) | CalibratedLow

  datatype Reason =
    | InShadow(kind: string)
    | Grounded(citations: nat, kind: string)
    | RefutedUngrounded
    | NotAutonomous(citations: nat, highStakes: bool, stops: seq<Stop>)
    | PossiblyNovel
    | Unsupported

  datatype Gated = Gated(hypothesis: Hypothesis, disposition: Disposition, verified: seq<string>, reason: Reason)

  datatype ReviewReason = ModelRequested(why: string) | SomethingEscalated

  datatype GateResult = GateResult(
    submissionId: string, hypotheses: seq<Gated>, leads: seq<Lead>, summary: string,
    needsHuman: bool, reasons: seq<ReviewReason>)

  function DefaultAutonomousKinds(): set<string> {
    {"capability", "behavior", "technique", "ioc-context"}
  }

  /** Everything the policy consults: what the registry vouches for, the allow-list and the
      earned modes, if the gate is backed by them. */
  datatype Policy = Policy(vouches: Citation -> bool, allowList: set<string>, track: Option<Track>)

  function Vouching(hash: Knowledge.Hash, s: Registry.Store): Citation -> bool {
    (c: Citation) => Registry.OkForVerdict(Registry.VerifyCitation(hash, s, c.factId, c.kind, c.key))
  }

  function Vouched(p: Policy, cs: seq<Citation>): seq<string> {
    if cs == [] then []
    else
      var rest, c := Vouched(p, cs[..|cs| - 1]), cs[|cs| - 1];
      if p.vouches(c) then rest + [c.factId] else rest
  }

  function StopsFor(sig: Signals): seq<Stop> {
    (if sig.refuted then [VerifierRefuted] else [])
    + (if sig.novelty >= 0.85 then [NoveltyHigh(sig.novelty)] else [])
    + (if 0.0 < sig.selfConsistency < 0.5 then [ConsistencyLow(sig.selfConsistency)] else [])
    + (if sig.calibrated == "LOW" then [CalibratedLow] else [])
  }

  function ModeIn(p: Policy, kind: string): Mode {
    match p.track
    case None => Autonomous
    case Some(t) => ModeOf(t, kind)
  }

  predicate Confident(h: Hypothesis, sig: Signals) {
    var conf := if sig.calibrated != "" then sig.calibrated else h.confidence;
    conf == "HIGH" || conf == "MEDIUM"
  }

  function Dispose(p: Policy, h: Hypothesis, sig: Signals): Gated {
    var verified := Vouched(p, h.citations);
    var grounded := |verified| > 0;
    if ModeIn(p, h.kind).Shadow? then Gated(h, Drop, verified, InShadow(h.kind))
    else
      var allowed := h.kind in p.allowList && !ModeIn(p, h.kind).Supervised?;
      var stops := StopsFor(sig);
      if grounded && allowed && stops == [] then Gated(h, Accept, verified, Grounded(|verified|, h.kind))
      else if sig.refuted && !grounded then Gated(h, Drop, verified, RefutedUngrounded)
      else if grounded then Gated(h, Escalate, verified, NotAutonomous(|verified|, !allowed, stops))
      else if Confident(h, sig) || sig.novelty >= 0.85 then Gated(h, Escalate, verified, PossiblyNovel)
      else Gated(h, Drop, verified, Unsupported)
  }

  function SignalAt(signals: seq<Signals>, i: nat): Signals {
    if i < |signals| then signals[i] else NoSignals
  }

  function DisposeAll(p: Policy, hs: seq<Hypothesis>, signals: seq<Signals>): seq<Gated> {
    seq(|hs|, i requires 0 <= i < |hs| => Dispose(p, hs[i], SignalAt(signals, i)))
  }

  predicate AnyEscalated(gs: seq<Gated>) {
    exists i :: 0 <= i < |gs| && gs[i].disposition.Escalate?
  }

  function Evaluate(p: Policy, submissionId: string, prop: Proposal, signals: seq<Signals>): GateResult {
    var gs := DisposeAll(p, prop.hypotheses, signals);
    GateResult(submissionId, gs, prop.leads, prop.summary,
               AnyEscalated(gs) || prop.needsReview,
               if prop.needsReview then [ModelRequested(prop.reviewReason)]
               else if AnyEscalated(gs) then [SomethingEscalated] else [])
  }

  /** The most a disposition may contribute to the lattice. */
  function EnrichmentVerdict(d: Disposition): Verdict {
    if d.Accept? then SUSPICIOUS else UNKNOWN
  }

  function EnrichmentFindings(gs: seq<Gated>): seq<Finding> {
    if gs == [] then []
    else
      var rest, g := EnrichmentFindings(gs[..|gs| - 1]), gs[|gs| - 1];
      if !g.disposition.Accept? then rest
      else rest + [Finding("mal-ai", "ai-" + g.hypothesis.kind, g.hypothesis.claim, "",
                           EnrichmentVerdict(g.disposition), CONF_LOW, "")]
  }

  // ---- The source's loops ----

  class ConfidenceGate {
    const registry: Registry.FactRegistry
    const allowList: set<string>
    const grad: Tracker?

    constructor (registry: Registry.FactRegistry, grad: Tracker?)
      ensures this.registry == registry && this.grad == grad && allowList == DefaultAutonomousKinds()
    {
      this.registry, this.grad, this.allowList := registry, grad, DefaultAutonomousKinds();
    }

    ghost function CurrentPolicy(): Policy
      reads this, registry, grad
    {
      Policy(Vouching(registry.hash, registry.State()), allowList,
                         if grad == null then None else Some(grad.State()))
    }

    method VerifiedCurated(h: Hypothesis) returns (ids: seq<string>)
      ensures ids == Vouched(CurrentPolicy(), h.citations)
    {
      ids := [];
      for i := 0 to |h.citations|
        invariant ids == Vouched(CurrentPolicy(), h.citations[..i])
      {
        assert h.citations[..i + 1][..i] == h.citations[..i];
        var c := registry.Verify(h.citations[i].factId, h.citations[i].kind, h.citations[i].key);
        if Registry.OkForVerdict(c) {
          ids := ids + [h.citations[i].factId];
        }
      }
      assert h.citations[..|h.citations|] == h.citations;
    }

    /** The reasons to stop autonomy; any one blocks acceptance. */
    static method CollectStops(sig: Signals) returns (stops: seq<Stop>)
      ensures stops == StopsFor(sig)
    {
      stops := [];
      if sig.refuted {
        stops := stops + [VerifierRefuted];
      }
      if sig.novelty >= 0.85 {
        stops := stops + [NoveltyHigh(sig.novelty)];
      }
      if sig.selfConsistency > 0.0 && sig.selfConsistency < 0.5 {
        stops := stops + [ConsistencyLow(sig.selfConsistency)];
      }
      if sig.calibrated == "LOW" {
        stops := stops + [CalibratedLow];
      }
    }

    method DisposeOne(h: Hypothesis, sig: Signals) returns (g: Gated)
      ensures g == Dispose(CurrentPolicy(), h, sig)
    {
      var verified := VerifiedCurated(h);
      var grounded := |verified| > 0;
      var allowed := h.kind in allowList;
      if grad != null {
        var mode := grad.ModeFor(h.kind);
        match mode
        case Shadow => return Gated(h, Drop, verified, InShadow(h.kind));
        case Supervised => allowed := false;
        case Autonomous =>
      }
      var conf := h.confidence;
      if sig.calibrated != "" {
        conf := sig.calibrated;
      }
      var stops := CollectStops(sig);
      if grounded && allowed && |stops| == 0 {
        return Gated(h, Accept, verified, Grounded(|verified|, h.kind));
      } else if sig.refuted && !grounded {
        return Gated(h, Drop, verified, RefutedUngrounded);
      } else if grounded {
        return Gated(h, Escalate, verified, NotAutonomous(|verified|, !allowed, stops));
      } else if conf == "HIGH" || conf == "MEDIUM" || sig.novelty >= 0.85 {
        return Gated(h, Escalate, verified, PossiblyNovel);
      }
      return Gated(h, Drop, verified, Unsupported);
    }

    method DisposeEach(hs: seq<Hypothesis>, signals: seq<Signals>) returns (gs: seq<Gated>)
      ensures gs == DisposeAll(CurrentPolicy(), hs, signals)
    {
      gs := [];
      for i := 0 to |hs|
        invariant gs == DisposeAll(CurrentPolicy(), hs, signals)[..i]
      {
        var sig := NoSignals;
        if i < |signals| {
          sig := signals[i];
        }
        var g := DisposeOne(hs[i], sig);
        gs := gs + [g];
      }
    }

    method EvaluateWithSignals(submissionId: string, prop: Proposal, signals: seq<Signals>) returns (r: GateResult)
      ensures r == Evaluate(CurrentPolicy(), submissionId, prop, signals)
    {
      var gs := DisposeEach(prop.hypotheses, signals);
      var needsHuman := false;
      for i := 0 to |gs|
        invariant needsHuman <==> exists j :: 0 <= j < i && gs[j].disposition.Escalate?
      {
        if gs[i].disposition.Escalate? {
          needsHuman := true;
        }
      }
      var reasons: seq<ReviewReason> := [];
      if prop.needsReview {
        needsHuman := true;
        reasons := [ModelRequested(prop.reviewReason)];
      }
      if needsHuman && |reasons| == 0 {
        reasons := [SomethingEscalated];
      }
      return GateResult(submissionId, gs, prop.leads, prop.summary, needsHuman, reasons);
    }
  }

  // ---- What acceptance takes ----

  lemma {:induction false} VouchedMeans(p: Policy, cs: seq<Citation>)
    ensures Vouched(p, cs) != [] <==> exists i :: 0 <= i < |cs| && p.vouches(cs[i])
  {
    if cs != [] {
      var init := cs[..|cs| - 1];
      VouchedMeans(p, init);
      assert forall i :: 0 <= i < |init| ==> init[i] == cs[i];
    }
  }

  /** Accepted if and only if: a citation verifies as curated, the kind is on the allow-list,
      autonomy is earned where it must be, and nothing stops it. The model's own confidence
      has no part in it. */
  lemma AcceptanceIsEarned(p: Policy, h: Hypothesis, sig: Signals)
    ensures Dispose(p, h, sig).disposition.Accept? <==>
            && (exists i :: 0 <= i < |h.citations| && p.vouches(h.citations[i]))
            && h.kind in p.allowList && ModeIn(p, h.kind).Autonomous?
            && !sig.refuted && sig.novelty < 0.85 && sig.calibrated != "LOW"
            && !(0.0 < sig.selfConsistency < 0.5)
  {
    VouchedMeans(p, h.citations);
    assert StopsFor(sig) == [] <==>
           !sig.refuted && sig.novelty < 0.85 && sig.calibrated != "LOW" && !(0.0 < sig.selfConsistency < 0.5);
  }

  /** Signals only block: whatever they are, they accept nothing that goes unaccepted
      without them; and raising the claimed confidence accepts nothing either. */
  lemma SignalsOnlyBlock(p: Policy, h: Hypothesis, sig: Signals, confidence: string)
    ensures Dispose(p, h, sig).disposition.Accept? ==> Dispose(p, h, NoSignals).disposition.Accept?
    ensures Dispose(p, h.(confidence := confidence), sig).disposition.Accept? <==>
            Dispose(p, h, sig).disposition.Accept?
  {
    AcceptanceIsEarned(p, h, sig);
    AcceptanceIsEarned(p, h, NoSignals);
  }

  lemma {:induction false} SameVouchesSameIds(p: Policy, q: Policy, cs: seq<Citation>)
    requires forall c :: p.vouches(c) == q.vouches(c)
    ensures Vouched(p, cs) == Vouched(q, cs)
  {
    if cs != [] {
      SameVouchesSameIds(p, q, cs[..|cs| - 1]);
    }
  }

  lemma SameVouchesSameResult(p: Policy, q: Policy, submissionId: string, prop: Proposal, signals: seq<Signals>)
    requires forall c :: p.vouches(c) == q.vouches(c)
    requires p.allowList == q.allowList && p.track == q.track
    ensures Evaluate(p, submissionId, prop, signals) == Evaluate(q, submissionId, prop, signals)
  {
    forall i | 0 <= i < |prop.hypotheses|
      ensures Dispose(p, prop.hypotheses[i], SignalAt(signals, i)) ==
              Dispose(q, prop.hypotheses[i], SignalAt(signals, i))
    {
      SameVouchesSameIds(p, q, prop.hypotheses[i].citations);
    }
    assert DisposeAll(p, prop.hypotheses, signals) == DisposeAll(q, prop.hypotheses, signals);
  }

  /** Ingest cannot influence the gate: after any finite run of ingest writes on the
      registry, the same proposal with the same signals gets an identical result. */
  lemma IngestCannotInfluenceGate(hash: Knowledge.Hash, s: Registry.Store, ws: seq<Registry.Write>,
                                  allowList: set<string>, track: Option<Track>, submissionId: string, prop: Proposal,
                                  signals: seq<Signals>)
    requires forall i :: 0 <= i < |ws| ==> ws[i].trust.Ingest?
    ensures var before := Policy(Vouching(hash, s), allowList, track);
            var after := Policy(Vouching(hash, Registry.PutAll(hash, s, ws)), allowList, track);
            Evaluate(after, submissionId, prop, signals) == Evaluate(before, submissionId, prop, signals)
  {
    var before := Policy(Vouching(hash, s), allowList, track);
    var after := Policy(Vouching(hash, Registry.PutAll(hash, s, ws)), allowList, track);
    forall c: Citation
      ensures before.vouches(c) == after.vouches(c)
    {
      Registry.IngestCannotGround(hash, s, ws, c.factId, c.kind, c.key);
    }
    SameVouchesSameResult(before, after, submissionId, prop, signals);
  }

  lemma {:induction false} EnrichmentIsCapped(gs: seq<Gated>)
    ensures forall i :: 0 <= i < |EnrichmentFindings(gs)| ==>
                          EnrichmentFindings(gs)[i].verdict == SUSPICIOUS
                            && EnrichmentFindings(gs)[i].confidence == CONF_LOW
    ensures EnrichmentFindings(gs) != [] <==> exists i :: 0 <= i < |gs| && gs[i].disposition.Accept?
  {
    if gs != [] {
      var init := gs[..|gs| - 1];
      EnrichmentIsCapped(init);
      assert forall i :: 0 <= i < |init| ==> init[i] == gs[i];
    }
  }
}
