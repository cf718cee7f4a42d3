/** What the gate does with each hypothesis, exactly: stated on citations, kinds, signals and
    words, for one hypothesis and for a whole proposal. */
module GateExact {
  import opened Pipeline
  import opened Graduation
  import opened Gate
  import opened AgentLoop

  // ---- One hypothesis ----

  ghost predicate CitesVouched(p: Policy, h: Hypothesis) {
    exists i :: 0 <= i < |h.citations| && p.vouches(h.citations[i])
  }

  ghost predicate InShadowMode(p: Policy, kind: string) {
    p.track.Some? && ModeOf(p.track.value, kind).Shadow?
  }

  /** Grounded, of an eligible kind with earned autonomy, and with no signal against it. */
  ghost predicate MayStandAlone(p: Policy, h: Hypothesis, sig: Signals) {
    && CitesVouched(p, h) && h.kind in p.allowList
    && (p.track.Some? ==> ModeOf(p.track.value, h.kind).Autonomous?)
    && !sig.refuted && sig.novelty < 0.85 && sig.calibrated != "LOW"
    && (sig.selfConsistency <= 0.0 || sig.selfConsistency >= 0.5)
  }

  /** The calibrated confidence where there is one, otherwise the model's own. */
  function Effective(h: Hypothesis, sig: Signals): string {
    if sig.calibrated == "" then h.confidence else sig.calibrated
  }

  /** Something an analyst should look at: grounded without standing alone, or ungrounded and
      not refuted, but confident or new. */
  ghost predicate NeedsTriage(p: Policy, h: Hypothesis, sig: Signals) {
    && !InShadowMode(p, h.kind) && !MayStandAlone(p, h, sig)
    && (CitesVouched(p, h) || (!sig.refuted && (Effective(h, sig) in {"HIGH", "MEDIUM"} || sig.novelty >= 0.85)))
  }

  /** Accepted exactly when it may stand alone, escalated exactly when it needs triage, and
      dropped otherwise. */
  lemma DispositionIsExact(p: Policy, h: Hypothesis, sig: Signals)
    ensures Dispose(p, h, sig).disposition ==
            if MayStandAlone(p, h, sig) then Accept else if NeedsTriage(p, h, sig) then Escalate else Drop
  {
    AcceptanceIsEarned(p, h, sig);
    VouchedMeans(p, h.citations);
  }

  /** The citations on record are those the registry vouches for, once for each, in order. */
  lemma {:induction false} VouchedAreCited(p: Policy, cs: seq<Citation>)
    ensures forall id :: id in Vouched(p, cs) <==> exists c :: c in cs && p.vouches(c) && c.factId == id
    ensures (forall c :: c in cs ==> p.vouches(c)) ==>
              |Vouched(p, cs)| == |cs| && forall i :: 0 <= i < |cs| ==> Vouched(p, cs)[i] == cs[i].factId
  {
    if cs != [] {
      var init, c := cs[..|cs| - 1], cs[|cs| - 1];
      VouchedAreCited(p, init);
      assert cs == init + [c];
    }
  }

  /** The reason on record is true of the hypothesis. */
  ghost predicate ReasonHolds(p: Policy, h: Hypothesis, sig: Signals, g: Gated) {
    match g.reason
    case InShadow(kind) => kind == h.kind && InShadowMode(p, kind)
    case Grounded(n, kind) => kind == h.kind && n == |g.verified| > 0
    case RefutedUngrounded => sig.refuted && !CitesVouched(p, h)
    case NotAutonomous(n, highStakes, stops) =>
      && n == |g.verified| > 0 && (highStakes || stops != [])
      && (highStakes <==> h.kind !in p.allowList || (p.track.Some? && ModeOf(p.track.value, h.kind).Supervised?))
      && (VerifierRefuted in stops <==> sig.refuted)
      && (NoveltyHigh(sig.novelty) in stops <==> sig.novelty >= 0.85)
      && (ConsistencyLow(sig.selfConsistency) in stops <==> 0.0 < sig.selfConsistency < 0.5)
      && (CalibratedLow in stops <==> sig.calibrated == "LOW")
    case PossiblyNovel => !CitesVouched(p, h) && !sig.refuted
    case Unsupported => !CitesVouched(p, h) && !sig.refuted && Effective(h, sig) !in {"HIGH", "MEDIUM"}
  }

  lemma StopsAreExact(sig: Signals)
    ensures var stops := StopsFor(sig);
            && (VerifierRefuted in stops <==> sig.refuted)
            && (NoveltyHigh(sig.novelty) in stops <==> sig.novelty >= 0.85)
            && (ConsistencyLow(sig.selfConsistency) in stops <==> 0.0 < sig.selfConsistency < 0.5)
            && (CalibratedLow in stops <==> sig.calibrated == "LOW")
  {
  }

  lemma ReasonIsTrue(p: Policy, h: Hypothesis, sig: Signals)
    ensures var g := Dispose(p, h, sig); g.hypothesis == h && ReasonHolds(p, h, sig, g)
  {
    VouchedMeans(p, h.citations);
    StopsAreExact(sig);
  }

  // ---- A whole proposal ----

  /** The signals of a hypothesis; where none were supplied, nothing was measured. */
  function Measured(signals: seq<Signals>, i: nat): Signals {
    if i >= |signals| then Signals(false, 0.0, 0.0, "") else signals[i]
  }

  /** One entry per hypothesis, in order, under its own reading; the leads and the submission
      are carried over; and a human is asked if and only if something needs triage or the
      proposal asks for it. */
  lemma HumanIsAskedExactly(p: Policy, id: string, prop: Proposal, signals: seq<Signals>)
    ensures var r, hs := Evaluate(p, id, prop, signals), prop.hypotheses;
            && r.submissionId == id && r.leads == prop.leads && r.summary == prop.summary
            && |r.hypotheses| == |hs|
            && (forall i :: 0 <= i < |hs| ==>
                  r.hypotheses[i].hypothesis == hs[i]
                  && (r.hypotheses[i].disposition.Accept? <==> MayStandAlone(p, hs[i], Measured(signals, i)))
                  && (r.hypotheses[i].disposition.Escalate? <==> NeedsTriage(p, hs[i], Measured(signals, i))))
            && (r.needsHuman <==>
                  prop.needsReview || exists i :: 0 <= i < |hs| && NeedsTriage(p, hs[i], Measured(signals, i)))
            && (r.reasons != [] <==> r.needsHuman)
            && (ModelRequested(prop.reviewReason) in r.reasons <==> prop.needsReview)
  {
    var gs, hs := DisposeAll(p, prop.hypotheses, signals), prop.hypotheses;
    forall i | 0 <= i < |hs|
      ensures gs[i].hypothesis == hs[i]
      ensures gs[i].disposition.Accept? <==> MayStandAlone(p, hs[i], Measured(signals, i))
      ensures gs[i].disposition.Escalate? <==> NeedsTriage(p, hs[i], Measured(signals, i))
    {
      DispositionIsExact(p, hs[i], Measured(signals, i));
      ReasonIsTrue(p, hs[i], Measured(signals, i));
    }
    assert AnyEscalated(gs) <==> exists i :: 0 <= i < |hs| && NeedsTriage(p, hs[i], Measured(signals, i));
  }

  // ---- What the gate adds to a result ----

  /** The hypotheses that were accepted, in order. */
  function AcceptedOnes(gs: seq<Gated>): seq<Hypothesis> {
    if gs == [] then []
    else AcceptedOnes(gs[..|gs| - 1])
         + if gs[|gs| - 1].disposition == Accept then [gs[|gs| - 1].hypothesis] else []
  }

  /** One finding per accepted hypothesis, with its claim and under its kind. */
  lemma {:induction false} EnrichmentListsAccepted(gs: seq<Gated>)
    ensures var fs, hs := EnrichmentFindings(gs), AcceptedOnes(gs);
            |fs| == |hs| && forall i :: 0 <= i < |fs| ==>
                                  && fs[i].engine == "mal-ai" && fs[i].kind == "ai-" + hs[i].kind
                                  && fs[i].detail == hs[i].claim
  {
    if gs != [] {
      EnrichmentListsAccepted(gs[..|gs| - 1]);
    }
  }

  /** Enrichment flags a result for review exactly when the gate asks for a human or the result
      was flagged already; it adds findings after the ones there are, and changes neither the
      score nor the flag of an incomplete analysis. */
  lemma EnrichmentKeepsTheRest(res: SubmissionResult, gr: GateResult)
    ensures var out := Enriched(res, gr);
            && (out.needsReview <==> res.needsReview || gr.needsHuman)
            && res.findings <= out.findings
            && |out.findings| == |res.findings| + |AcceptedOnes(gr.hypotheses)|
            && out.(verdict := res.verdict, findings := res.findings, needsReview := res.needsReview) == res
  {
    EnrichmentListsAccepted(gr.hypotheses);
  }

  // ---- The modes ----

  /** Autonomy takes at least twenty outcomes of which nine tenths were approved; with fewer than
      three tenths a kind falls into shadow. */
  lemma ModesAreExact(t: Track, kind: string)
    ensures var n, c := Count(t.total, kind), Count(t.correct, kind);
            var accuracy := if n == 0 then 0.0 else c as real / n as real;
            && (ModeOf(t, kind).Autonomous? <==> n >= 20 && accuracy >= 0.9)
            && (ModeOf(t, kind).Shadow? <==> n >= 20 && accuracy < 0.3)
  {
    var n, c := Count(t.total, kind), Count(t.correct, kind);
    if n > 0 {
      RatioReaches(c, n, 9);
      RatioReaches(c, n, 3);
    }
  }

  lemma RatioReaches(c: nat, n: nat, tenths: nat)
    requires n > 0
    ensures c as real / n as real >= tenths as real / 10.0 <==> 10 * c >= tenths * n
  {
    var ratio := c as real / n as real;
    assert ratio * n as real == c as real;
    assert tenths as real * n as real == (tenths * n) as real;
    if ratio >= tenths as real / 10.0 {
      assert ratio * n as real >= tenths as real / 10.0 * n as real;
    } else {
      assert ratio * n as real < tenths as real / 10.0 * n as real;
    }
  }

  /** Under the default policy only four kinds may ever stand alone; what speaks of families,
      actors, campaigns or verdicts always goes to a human or nowhere, whatever it cites. */
  lemma OnlyLowStakesStandAlone(p: Policy, h: Hypothesis, sig: Signals)
    requires p.allowList == DefaultAutonomousKinds()
    requires h.kind !in {"capability", "behavior", "technique", "ioc-context"}
    ensures !Dispose(p, h, sig).disposition.Accept?
    ensures CitesVouched(p, h) && !InShadowMode(p, h.kind) ==> Dispose(p, h, sig).disposition.Escalate?
  {
    DispositionIsExact(p, h, sig);
  }
}
