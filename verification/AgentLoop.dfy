/** The closed loop of gate and human review (services/mal-orchestrator/agentgraph.go): the
    enrichment workflow, and the history of a whole deployment as a state machine. */
module AgentLoop {
  import opened Pipeline
  import opened Graduation
  import opened Gate
  import Knowledge
  import Registry

  // ---- One enrichment run ----

  /** The roster's answer after the strict validation: nothing, or a proposal with signals. */
  datatype Roster = Unavailable | Rejected | Proposed(proposal: Proposal, signals: seq<Signals>)

  function KindsWith(gs: seq<Gated>, d: Disposition): seq<string> {
    if gs == [] then []
    else
      var rest, g := KindsWith(gs[..|gs| - 1], d), gs[|gs| - 1];
      if g.disposition == d then rest + [g.hypothesis.kind] else rest
  }

  function Folded(res: SubmissionResult, fs: seq<Finding>): SubmissionResult {
    res.(verdict := Max(res.verdict, JoinAll(Verdicts(fs))), findings := res.findings + fs)
  }

  function Enriched(res: SubmissionResult, gr: GateResult): SubmissionResult {
    var folded := Folded(res, EnrichmentFindings(gr.hypotheses));
    if gr.needsHuman then folded.(needsReview := true) else folded
  }

  /** The analyst's answer counts once per escalated hypothesis. */
  function TrackAfter(t: Track, gr: GateResult, decision: Option<bool>): Track {
    if gr.needsHuman && decision.Some?
    then RecordedAll(t, KindsWith(gr.hypotheses, Escalate), decision.value) else t
  }

  /** `decision` is the analyst's answer, if one arrives before the timeout. */
  method AgentGraphWorkflow(gate: ConfidenceGate, tracker: Tracker, submissionId: string, res: SubmissionResult,
                            roster: Roster, decision: Option<bool>)
    returns (out: SubmissionResult)
    requires gate.grad == tracker
    modifies tracker
    ensures !roster.Proposed? ==> out == res && tracker.State() == old(tracker.State())
    ensures roster.Proposed? ==>
              var gr := Evaluate(old(gate.CurrentPolicy()), submissionId, roster.proposal, roster.signals);
              && out == Enriched(res, gr)
              && tracker.State() == TrackAfter(old(tracker.State()), gr, decision)
  {
    out := res;
    if !roster.Proposed? {
      return;
    }
    var gr := gate.EvaluateWithSignals(submissionId, roster.proposal, roster.signals);
    out := FoldFindings(res, EnrichmentFindings(gr.hypotheses));
    if gr.needsHuman {
      out := out.(needsReview := true);
      if decision.Some? {
        RecordOutcomes(tracker, KindsWith(gr.hypotheses, Escalate), decision.value);
      }
    }
  }

  lemma FoldOneMore(res: SubmissionResult, fs: seq<Finding>, f: Finding)
    ensures var out := Folded(res, fs);
            Folded(res, fs + [f]) == out.(verdict := Max(out.verdict, f.verdict), findings := out.findings + [f])
  {
    assert Verdicts(fs + [f]) == Verdicts(fs) + [f.verdict];
    assert (Verdicts(fs) + [f.verdict])[..|fs|] == Verdicts(fs);
  }

  method FoldFindings(res: SubmissionResult, fs: seq<Finding>) returns (out: SubmissionResult)
    ensures out == Folded(res, fs)
  {
    out := res;
    for i := 0 to |fs|
      invariant out == Folded(res, fs[..i])
    {
      assert fs[..i + 1] == fs[..i] + [fs[i]];
      FoldOneMore(res, fs[..i], fs[i]);
      out := out.(verdict := Max(out.verdict, fs[i].verdict), findings := out.findings + [fs[i]]);
    }
    assert fs[..|fs|] == fs;
  }

  method RecordOutcomes(tracker: Tracker, kinds: seq<string>, approved: bool)
    modifies tracker
    ensures tracker.State() == RecordedAll(old(tracker.State()), kinds, approved)
  {
    for i := 0 to |kinds|
      invariant tracker.State() == RecordedAll(old(tracker.State()), kinds[..i], approved)
    {
      assert kinds[..i + 1][..i] == kinds[..i];
      tracker.Record(kinds[i], approved);
    }
    assert kinds[..|kinds|] == kinds;
  }

  /** Enrichment never lowers a verdict; when it changes one, it moves it from below
      SUSPICIOUS to exactly SUSPICIOUS, and some accepted hypothesis cites a fact that the
      registry holds as curated under the claimed kind and key. */
  lemma EnrichmentRaisesOneStep(hash: Knowledge.Hash, s: Registry.Store, allowList: set<string>, track: Option<Track>,
                                res: SubmissionResult, submissionId: string, prop: Proposal, signals: seq<Signals>)
    ensures var p := Policy(Vouching(hash, s), allowList, track);
            var out := Enriched(res, Evaluate(p, submissionId, prop, signals));
            && out.verdict >= res.verdict
            && (out.verdict != res.verdict ==>
                  && res.verdict < SUSPICIOUS && out.verdict == SUSPICIOUS
                  && exists i, j :: 0 <= i < |prop.hypotheses| && 0 <= j < |prop.hypotheses[i].citations|
                       && Dispose(p, prop.hypotheses[i], SignalAt(signals, i)).disposition.Accept?
                       && CitesCurated(s, prop.hypotheses[i].citations[j]))
  {
    var p := Policy(Vouching(hash, s), allowList, track);
    var gs := DisposeAll(p, prop.hypotheses, signals);
    var fs := EnrichmentFindings(gs);
    EnrichmentIsCapped(gs);
    JoinAllIsLeastUpperBound(Verdicts(fs));
    if fs == [] {
      assert Verdicts(fs) == [];
    } else {
      assert Verdicts(fs)[0] in Verdicts(fs);
      var i :| 0 <= i < |gs| && gs[i].disposition.Accept?;
      var j := AcceptedCitesCurated(hash, s, p, prop.hypotheses[i], SignalAt(signals, i));
    }
  }

  lemma AcceptedCitesCurated(hash: Knowledge.Hash, s: Registry.Store, p: Policy, h: Hypothesis, sig: Signals)
    returns (j: nat)
    requires p.vouches == Vouching(hash, s) && Dispose(p, h, sig).disposition.Accept?
    ensures j < |h.citations| && CitesCurated(s, h.citations[j])
  {
    AcceptanceIsEarned(p, h, sig);
    j :| j < |h.citations| && p.vouches(h.citations[j]);
  }

  predicate CitesCurated(s: Registry.Store, c: Citation) {
    c.factId in s.facts && s.facts[c.factId].trust.Curated?
    && s.facts[c.factId].kind == c.kind && s.facts[c.factId].key == Registry.NormalizeKey(c.kind, c.key)
  }

  // ---- A whole history ----

  datatype Outcome = Outcome(kind: string, approved: bool)

  /** An acceptance of `kind`, made when `after` outcomes had been recorded. */
  datatype Acceptance = Acceptance(kind: string, after: nat)

  /** The learned state, the open reviews, and the history that led there. */
  datatype System = System(
    facts: Registry.Store,
    track: Track,
    pending: seq<seq<string>>,
    outcomes: seq<Outcome>,
    accepted: seq<Acceptance>,
    escalated: seq<string>)

  datatype Event =
    | Analyse(submissionId: string, proposal: Proposal, signals: seq<Signals>)
    | Decide(review: nat, approved: bool)
    | Expire(review: nat)
    | WriteFact(write: Registry.Write)

  function OutcomesOf(kinds: seq<string>, approved: bool): seq<Outcome> {
    seq(|kinds|, i requires 0 <= i < |kinds| => Outcome(kinds[i], approved))
  }

  function AcceptancesOf(kinds: seq<string>, after: nat): seq<Acceptance> {
    seq(|kinds|, i requires 0 <= i < |kinds| => Acceptance(kinds[i], after))
  }

  function Closed(pending: seq<seq<string>>, review: nat): seq<seq<string>>
    requires review < |pending|
  {
    pending[..review] + pending[review + 1..]
  }

  function PolicyOf(hash: Knowledge.Hash, sys: System): Policy {
    Policy(Vouching(hash, sys.facts), DefaultAutonomousKinds(), Some(sys.track))
  }

  function Next(hash: Knowledge.Hash, sys: System, ev: Event): System {
    match ev
    case Analyse(id, prop, signals) =>
      var gr := Evaluate(PolicyOf(hash, sys), id, prop, signals);
      var escalated := KindsWith(gr.hypotheses, Escalate);
      sys.(pending := if gr.needsHuman then sys.pending + [escalated] else sys.pending,
           accepted := sys.accepted + AcceptancesOf(KindsWith(gr.hypotheses, Accept), |sys.outcomes|),
           escalated := sys.escalated + escalated)
    case Decide(review, approved) =>
      if review >= |sys.pending| then sys
      else
        var kinds := sys.pending[review];
        sys.(track := RecordedAll(sys.track, kinds, approved),
             pending := Closed(sys.pending, review),
             outcomes := sys.outcomes + OutcomesOf(kinds, approved))
    case Expire(review) =>
      if review >= |sys.pending| then sys else sys.(pending := Closed(sys.pending, review))
    case WriteFact(w) =>
      sys.(facts := Registry.PutAll(hash, sys.facts, [w]))
  }

  function After(hash: Knowledge.Hash, sys: System, evs: seq<Event>): System
    decreases |evs|
  {
    if evs == [] then sys else After(hash, Next(hash, sys, evs[0]), evs[1..])
  }

  function Fresh(facts: Registry.Store): System {
    System(facts, Track(map[], map[]), [], [], [], [])
  }

  // ---- One run is part of the history ----

  /** What an enrichment run contributes: the analysis, and the end of the review it opened. */
  function EventsOf(hash: Knowledge.Hash, sys: System, id: string, prop: Proposal, signals: seq<Signals>,
                    decision: Option<bool>): seq<Event>
  {
    var n := |sys.pending|;
    [Analyse(id, prop, signals)]
    + if !Evaluate(PolicyOf(hash, sys), id, prop, signals).needsHuman then []
      else [if decision.Some? then Decide(n, decision.value) else Expire(n)]
  }

  lemma TwoEvents(hash: Knowledge.Hash, sys: System, a: Event, b: Event)
    ensures After(hash, sys, [a]) == Next(hash, sys, a)
    ensures After(hash, sys, [a] + [b]) == Next(hash, Next(hash, sys, a), b)
  {
    assert [a][1..] == [] && ([a] + [b])[1..] == [b] && [b][1..] == [];
    assert After(hash, Next(hash, sys, a), [b]) == After(hash, Next(hash, Next(hash, sys, a), b), []);
  }

  /** The history takes the steps that the workflow takes: after an enrichment run the counters
      are those the workflow leaves behind, its own review is closed, no other is touched, and
      an outcome is on record for every escalated hypothesis if the analyst answered. */
  lemma RunIsHistory(hash: Knowledge.Hash, sys: System, id: string, prop: Proposal, signals: seq<Signals>,
                     decision: Option<bool>)
    ensures var gr := Evaluate(PolicyOf(hash, sys), id, prop, signals);
            var t := After(hash, sys, EventsOf(hash, sys, id, prop, signals, decision));
            && t.track == TrackAfter(sys.track, gr, decision)
            && t.pending == sys.pending && t.facts == sys.facts
            && t.outcomes == sys.outcomes + if gr.needsHuman && decision.Some?
                                            then OutcomesOf(KindsWith(gr.hypotheses, Escalate), decision.value) else []
  {
    var gr := Evaluate(PolicyOf(hash, sys), id, prop, signals);
    var n, kinds := |sys.pending|, KindsWith(gr.hypotheses, Escalate);
    var end := if decision.Some? then Decide(n, decision.value) else Expire(n);
    TwoEvents(hash, sys, Analyse(id, prop, signals), end);
    var s := Next(hash, sys, Analyse(id, prop, signals));
    if gr.needsHuman {
      assert s.pending == sys.pending + [kinds];
      assert Closed(s.pending, n) == sys.pending;
    }
  }

  // ---- Counting a history ----

  function Recordings(os: seq<Outcome>, kind: string): nat {
    if os == [] then 0
    else Recordings(os[..|os| - 1], kind) + if os[|os| - 1].kind == kind then 1 else 0
  }

  function Approvals(os: seq<Outcome>, kind: string): nat {
    if os == [] then 0
    else Approvals(os[..|os| - 1], kind) + if os[|os| - 1].kind == kind && os[|os| - 1].approved then 1 else 0
  }

  function Times(kinds: seq<string>, kind: string): nat {
    if kinds == [] then 0
    else Times(kinds[..|kinds| - 1], kind) + if kinds[|kinds| - 1] == kind then 1 else 0
  }

  function Awaiting(pending: seq<seq<string>>, kind: string): nat {
    if pending == [] then 0
    else Awaiting(pending[..|pending| - 1], kind) + Times(pending[|pending| - 1], kind)
  }

  lemma {:induction false} TimesConcat(a: seq<string>, b: seq<string>, kind: string)
    ensures Times(a + b, kind) == Times(a, kind) + Times(b, kind)
  {
    if b == [] {
      assert a + b == a;
    } else {
      TimesConcat(a, b[..|b| - 1], kind);
      assert (a + b)[..|a + b| - 1] == a + b[..|b| - 1];
    }
  }

  lemma {:induction false} OutcomesCount(os: seq<Outcome>, kinds: seq<string>, approved: bool, kind: string)
    ensures Recordings(os + OutcomesOf(kinds, approved), kind) == Recordings(os, kind) + Times(kinds, kind)
    ensures Approvals(os + OutcomesOf(kinds, approved), kind) ==
            Approvals(os, kind) + if approved then Times(kinds, kind) else 0
  {
    if kinds == [] {
      assert os + OutcomesOf(kinds, approved) == os;
    } else {
      var n := |kinds| - 1;
      OutcomesCount(os, kinds[..n], approved, kind);
      var all := os + OutcomesOf(kinds, approved);
      assert all[..|all| - 1] == os + OutcomesOf(kinds[..n], approved);
    }
  }

  lemma {:induction false} RecordedAllCounts(t: Track, kinds: seq<string>, approved: bool, kind: string)
    requires kind != ""
    ensures Count(RecordedAll(t, kinds, approved).total, kind) == Count(t.total, kind) + Times(kinds, kind)
    ensures Count(RecordedAll(t, kinds, approved).correct, kind) ==
            Count(t.correct, kind) + if approved then Times(kinds, kind) else 0
  {
    if kinds != [] {
      RecordedAllCounts(t, kinds[..|kinds| - 1], approved, kind);
    }
  }

  lemma {:induction false} UnnamedIsNeverRecorded(t: Track, kinds: seq<string>, approved: bool)
    ensures Count(RecordedAll(t, kinds, approved).total, "") == Count(t.total, "")
  {
    if kinds != [] {
      UnnamedIsNeverRecorded(t, kinds[..|kinds| - 1], approved);
    }
  }

  lemma {:induction false} AwaitingSplits(a: seq<seq<string>>, b: seq<seq<string>>, kind: string)
    ensures Awaiting(a + b, kind) == Awaiting(a, kind) + Awaiting(b, kind)
  {
    if b == [] {
      assert a + b == a;
    } else {
      AwaitingSplits(a, b[..|b| - 1], kind);
      assert (a + b)[..|a + b| - 1] == a + b[..|b| - 1];
    }
  }

  lemma ClosingReview(pending: seq<seq<string>>, review: nat, kind: string)
    requires review < |pending|
    ensures Awaiting(pending, kind) == Awaiting(Closed(pending, review), kind) + Times(pending[review], kind)
  {
    var a, x, b := pending[..review], [pending[review]], pending[review + 1..];
    assert pending == (a + x) + b && x[..0] == [];
    AwaitingSplits(a + x, b, kind);
    AwaitingSplits(a, x, kind);
    AwaitingSplits(a, b, kind);
    assert Awaiting(x, kind) == Awaiting(x[..0], kind) + Times(x[0], kind);
  }

  // ---- Autonomy is earned ----

  /** The counters agree with the history of outcomes. */
  ghost predicate CountersAgree(sys: System) {
    && Count(sys.track.total, "") == 0
    && forall kind :: kind != "" ==>
         && Count(sys.track.total, kind) == Recordings(sys.outcomes, kind)
         && Count(sys.track.correct, kind) == Approvals(sys.outcomes, kind)
  }

  ghost predicate Earned(os: seq<Outcome>, kind: string) {
    && Recordings(os, kind) >= 20 && Approvals(os, kind) >= 18
    && 10 * Approvals(os, kind) >= 9 * Recordings(os, kind)
  }

  ghost predicate AllEarned(sys: System) {
    forall i :: 0 <= i < |sys.accepted| ==>
      && sys.accepted[i].after <= |sys.outcomes|
      && Earned(sys.outcomes[..sys.accepted[i].after], sys.accepted[i].kind)
  }

  /** Every outcome answers an escalation of its own: none is counted twice. */
  ghost predicate OutcomesAnswerEscalations(sys: System) {
    forall kind :: Recordings(sys.outcomes, kind) + Awaiting(sys.pending, kind) <= Times(sys.escalated, kind)
  }

  lemma {:induction false} KindsWithMeans(gs: seq<Gated>, d: Disposition)
    ensures forall kind :: kind in KindsWith(gs, d) <==>
                             exists i :: 0 <= i < |gs| && gs[i].disposition == d && gs[i].hypothesis.kind == kind
  {
    if gs != [] {
      var init := gs[..|gs| - 1];
      KindsWithMeans(init, d);
      assert forall i :: 0 <= i < |init| ==> init[i] == gs[i];
    }
  }

  lemma AcceptedKindsAreAutonomous(p: Policy, prop: Proposal, signals: seq<Signals>, kind: string)
    requires kind in KindsWith(DisposeAll(p, prop.hypotheses, signals), Accept)
    ensures ModeIn(p, kind).Autonomous?
  {
    var gs := DisposeAll(p, prop.hypotheses, signals);
    KindsWithMeans(gs, Accept);
    var i :| 0 <= i < |gs| && gs[i].disposition.Accept? && gs[i].hypothesis.kind == kind;
    AcceptanceIsEarned(p, prop.hypotheses[i], SignalAt(signals, i));
  }

  lemma AcceptedKindsHaveEarned(hash: Knowledge.Hash, sys: System, id: string, prop: Proposal, signals: seq<Signals>,
                                kind: string)
    requires CountersAgree(sys)
    requires kind in KindsWith(Evaluate(PolicyOf(hash, sys), id, prop, signals).hypotheses, Accept)
    ensures Earned(sys.outcomes, kind)
  {
    AcceptedKindsAreAutonomous(PolicyOf(hash, sys), prop, signals, kind);
    assert ModeOf(sys.track, kind).Autonomous?;
  }

  lemma AnalyseKeepsEarned(hash: Knowledge.Hash, sys: System, id: string, prop: Proposal, signals: seq<Signals>)
    requires CountersAgree(sys) && AllEarned(sys)
    ensures AllEarned(Next(hash, sys, Analyse(id, prop, signals)))
  {
    var next := Next(hash, sys, Analyse(id, prop, signals));
    var kinds := KindsWith(Evaluate(PolicyOf(hash, sys), id, prop, signals).hypotheses, Accept);
    assert sys.outcomes[..|sys.outcomes|] == sys.outcomes;
    forall i | 0 <= i < |next.accepted|
      ensures next.accepted[i].after <= |next.outcomes|
      ensures Earned(next.outcomes[..next.accepted[i].after], next.accepted[i].kind)
    {
      if i >= |sys.accepted| {
        assert next.accepted[i].kind in kinds;
        AcceptedKindsHaveEarned(hash, sys, id, prop, signals, next.accepted[i].kind);
      }
    }
  }

  lemma AnalyseKeepsConservation(hash: Knowledge.Hash, sys: System, id: string, prop: Proposal, signals: seq<Signals>)
    requires OutcomesAnswerEscalations(sys)
    ensures OutcomesAnswerEscalations(Next(hash, sys, Analyse(id, prop, signals)))
  {
    var next := Next(hash, sys, Analyse(id, prop, signals));
    var gr := Evaluate(PolicyOf(hash, sys), id, prop, signals);
    var escalated := KindsWith(gr.hypotheses, Escalate);
    forall kind
      ensures Recordings(next.outcomes, kind) + Awaiting(next.pending, kind) <= Times(next.escalated, kind)
    {
      TimesConcat(sys.escalated, escalated, kind);
      assert (sys.pending + [escalated])[..|sys.pending|] == sys.pending;
    }
  }

  lemma DecideKeepsInvariant(hash: Knowledge.Hash, sys: System, review: nat, approved: bool)
    requires CountersAgree(sys) && AllEarned(sys) && OutcomesAnswerEscalations(sys)
    ensures var next := Next(hash, sys, Decide(review, approved));
            CountersAgree(next) && AllEarned(next) && OutcomesAnswerEscalations(next)
  {
    if review < |sys.pending| {
      var next := Next(hash, sys, Decide(review, approved));
      var kinds := sys.pending[review];
      UnnamedIsNeverRecorded(sys.track, kinds, approved);
      forall kind
        ensures kind != "" ==> Count(next.track.total, kind) == Recordings(next.outcomes, kind)
        ensures kind != "" ==> Count(next.track.correct, kind) == Approvals(next.outcomes, kind)
        ensures Recordings(next.outcomes, kind) + Awaiting(next.pending, kind) <= Times(next.escalated, kind)
      {
        OutcomesCount(sys.outcomes, kinds, approved, kind);
        if kind != "" {
          RecordedAllCounts(sys.track, kinds, approved, kind);
        }
        ClosingReview(sys.pending, review, kind);
      }
      forall i | 0 <= i < |next.accepted|
        ensures next.accepted[i].after <= |next.outcomes|
        ensures Earned(next.outcomes[..next.accepted[i].after], next.accepted[i].kind)
      {
        var n := sys.accepted[i].after;
        assert next.outcomes[..n] == sys.outcomes[..n];
      }
    }
  }

  lemma ExpireKeepsConservation(hash: Knowledge.Hash, sys: System, review: nat)
    requires OutcomesAnswerEscalations(sys)
    ensures OutcomesAnswerEscalations(Next(hash, sys, Expire(review)))
  {
    if review < |sys.pending| {
      forall kind
        ensures Recordings(sys.outcomes, kind)
                + Awaiting(Closed(sys.pending, review), kind) <= Times(sys.escalated, kind)
      {
        ClosingReview(sys.pending, review, kind);
      }
    }
  }

  lemma {:induction false} HistoryKeepsInvariant(hash: Knowledge.Hash, sys: System, evs: seq<Event>)
    requires CountersAgree(sys) && AllEarned(sys) && OutcomesAnswerEscalations(sys)
    ensures var end := After(hash, sys, evs);
            CountersAgree(end) && AllEarned(end) && OutcomesAnswerEscalations(end)
    decreases |evs|
  {
    if evs != [] {
      match evs[0] {
        case Analyse(id, prop, signals) =>
          AnalyseKeepsEarned(hash, sys, id, prop, signals);
          AnalyseKeepsConservation(hash, sys, id, prop, signals);
        case Decide(review, approved) => DecideKeepsInvariant(hash, sys, review, approved);
        case Expire(review) => ExpireKeepsConservation(hash, sys, review);
        case WriteFact(w) =>
      }
      HistoryKeepsInvariant(hash, Next(hash, sys, evs[0]), evs[1..]);
    }
  }

  /** Autonomy is earned over whole histories: whatever is proposed, decided, expired or
      written in between, each acceptance of a kind happened when at least 20 outcomes and 18
      approvals of that kind, at 90% or better, were on record; and each such outcome answers
      an escalation of that kind of its own. */
  lemma AutonomyIsEarned(hash: Knowledge.Hash, facts: Registry.Store, evs: seq<Event>)
    ensures var end := After(hash, Fresh(facts), evs);
            && (forall i :: 0 <= i < |end.accepted| ==>
                              && end.accepted[i].after <= |end.outcomes|
                              && Earned(end.outcomes[..end.accepted[i].after], end.accepted[i].kind))
            && (forall kind :: Recordings(end.outcomes, kind) <= Times(end.escalated, kind))
  {
    HistoryKeepsInvariant(hash, Fresh(facts), evs);
  }

  // ---- Shadow is absorbing ----

  /** `kind` has been demoted and no open review names it. */
  ghost predicate Silenced(sys: System, kind: string) {
    kind != "" && ModeOf(sys.track, kind).Shadow? && Awaiting(sys.pending, kind) == 0
  }

  lemma {:induction false} NotAwaited(pending: seq<seq<string>>, review: nat, kind: string)
    requires review < |pending| && Awaiting(pending, kind) == 0
    ensures Times(pending[review], kind) == 0
  {
    ClosingReview(pending, review, kind);
  }

  lemma {:induction false} TimesOfAbsent(kinds: seq<string>, kind: string)
    ensures Times(kinds, kind) == 0 <==> kind !in kinds
  {
    if kinds != [] {
      TimesOfAbsent(kinds[..|kinds| - 1], kind);
      assert kinds == kinds[..|kinds| - 1] + [kinds[|kinds| - 1]];
    }
  }

  lemma ShadowIsDropped(hash: Knowledge.Hash, sys: System, id: string, prop: Proposal, signals: seq<Signals>,
                        kind: string)
    requires ModeOf(sys.track, kind).Shadow?
    ensures var gr := Evaluate(PolicyOf(hash, sys), id, prop, signals);
            kind !in KindsWith(gr.hypotheses, Accept) && kind !in KindsWith(gr.hypotheses, Escalate)
  {
    var gs := DisposeAll(PolicyOf(hash, sys), prop.hypotheses, signals);
    KindsWithMeans(gs, Accept);
    KindsWithMeans(gs, Escalate);
  }

  ghost predicate NeverAccepted(accepted: seq<Acceptance>, kind: string) {
    forall i :: 0 <= i < |accepted| ==> accepted[i].kind != kind
  }

  lemma SilencedStep(hash: Knowledge.Hash, sys: System, ev: Event, kind: string)
    requires Silenced(sys, kind)
    ensures var next := Next(hash, sys, ev);
            && Silenced(next, kind)
            && Count(next.track.total, kind) == Count(sys.track.total, kind)
            && Times(next.escalated, kind) == Times(sys.escalated, kind)
            && sys.accepted <= next.accepted && NeverAccepted(next.accepted[|sys.accepted|..], kind)
  {
    match ev
    case Analyse(id, prop, signals) => SilencedAnalyse(hash, sys, id, prop, signals, kind);
    case Decide(review, approved) =>
      if review < |sys.pending| {
        NotAwaited(sys.pending, review, kind);
        ClosingReview(sys.pending, review, kind);
        RecordedAllCounts(sys.track, sys.pending[review], approved, kind);
      }
    case Expire(review) =>
      if review < |sys.pending| {
        ClosingReview(sys.pending, review, kind);
      }
    case WriteFact(w) =>
  }

  lemma SilencedAnalyse(hash: Knowledge.Hash, sys: System, id: string, prop: Proposal, signals: seq<Signals>,
                        kind: string)
    requires Silenced(sys, kind)
    ensures var next := Next(hash, sys, Analyse(id, prop, signals));
            && Silenced(next, kind)
            && Times(next.escalated, kind) == Times(sys.escalated, kind)
            && sys.accepted <= next.accepted && NeverAccepted(next.accepted[|sys.accepted|..], kind)
  {
    var gr := Evaluate(PolicyOf(hash, sys), id, prop, signals);
    var escalated := KindsWith(gr.hypotheses, Escalate);
    ShadowIsDropped(hash, sys, id, prop, signals, kind);
    TimesOfAbsent(escalated, kind);
    TimesConcat(sys.escalated, escalated, kind);
    assert (sys.pending + [escalated])[..|sys.pending|] == sys.pending;
  }

  lemma NewAcceptances(a: seq<Acceptance>, b: seq<Acceptance>, c: seq<Acceptance>, kind: string)
    requires a <= b <= c && NeverAccepted(b[|a|..], kind) && NeverAccepted(c[|b|..], kind)
    ensures a <= c && NeverAccepted(c[|a|..], kind)
  {
    assert c[|a|..] == b[|a|..] + c[|b|..];
  }

  /** Once a kind is in shadow and no open review names it, no continuation of analyses,
      decisions, expiries and registry writes ever accepts it, escalates it or changes its
      mode. */
  lemma {:induction false} ShadowIsAbsorbing(hash: Knowledge.Hash, sys: System, evs: seq<Event>, kind: string)
    requires Silenced(sys, kind)
    ensures var end := After(hash, sys, evs);
            && ModeOf(end.track, kind).Shadow?
            && Times(end.escalated, kind) == Times(sys.escalated, kind)
            && sys.accepted <= end.accepted && NeverAccepted(end.accepted[|sys.accepted|..], kind)
    decreases |evs|
  {
    if evs != [] {
      var next := Next(hash, sys, evs[0]);
      SilencedStep(hash, sys, evs[0], kind);
      ShadowIsAbsorbing(hash, next, evs[1..], kind);
      NewAcceptances(sys.accepted, next.accepted, After(hash, next, evs[1..]).accepted, kind);
    }
  }
}
