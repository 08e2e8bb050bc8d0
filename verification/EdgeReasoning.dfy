/** The edge pipeline from raw telemetry to a gated decision (edge_device/reasoning.py). */
module EdgeReasoning {
  import opened Ordering
  import EdgeSignals
  import EdgeScenarios
  import EdgePolicy

  type Signal = EdgeSignals.Signal
  type Scenario = EdgeScenarios.Scenario
  type Hypothesis = EdgeScenarios.Hypothesis

  /** The proof outcome handed to the pipeline; a missing one counts as not run. */
  datatype ProofResult = ProofResult(hypothesis: Hypothesis, status: EdgePolicy.ProofStatus)

  datatype Request = Request(raw: EdgeSignals.Observations, proof: ProofResult, action: string, confirmed: bool)

  datatype EdgeRun = EdgeRun(
    accepted: Hypothesis, confidence: nat, rejected: seq<Scenario>, impact: EdgePolicy.Impact,
    decision: EdgePolicy.Decision)

  function ProofOf(p: ProofResult): (r: EdgeScenarios.Proof)
  {
    if p.status == EdgePolicy.Confirmed then EdgeScenarios.ConfirmedFor(p.hypothesis) else EdgeScenarios.Unproven
  }

  /** Only a confirmed proof counts, and only for the hypothesis it was run for. */
  lemma ProofMeaning(p: ProofResult, s: Scenario)
    ensures EdgeScenarios.Confirms(ProofOf(p), s)
            <==> p.status == EdgePolicy.Confirmed && p.hypothesis == EdgeScenarios.Cataloged(s)
  {
  }

  const SEVERE: set<Signal> :=
    {EdgeSignals.ThermalHot, EdgeSignals.DriverMismatch, EdgeSignals.InferenceErrorHigh, EdgeSignals.SensorLost}

  const MODERATE: set<Signal> :=
    {EdgeSignals.ThermalWarn, EdgeSignals.LatencyRegression, EdgeSignals.NpuUnavailable, EdgeSignals.SensorDegraded}

  /** `_impact_for`. */
  function ImpactFor(accepted: Hypothesis, on: set<Signal>): (i: EdgePolicy.Impact)
  {
    match accepted
    case Cataloged(UplinkDegradedLocalOk) => EdgePolicy.LowImpact
    case Nominal => EdgePolicy.LowImpact
    case Indeterminate => EdgePolicy.LowImpact
    case _ =>
      if on * SEVERE != {} then EdgePolicy.HighImpact
      else if on * MODERATE != {} then EdgePolicy.MediumImpact
      else EdgePolicy.LowImpact
  }

  function ScenarioOf(r: EdgeScenarios.Row): (s: Scenario)
  {
    r.scenario
  }

  /** `run_edge_reasoning`, from telemetry to the policy decision. */
  method RunEdgeReasoning(lib: EdgeSignals.Library, q: Request) returns (run: EdgeRun)
    ensures (run.accepted, run.confidence)
            == EdgeScenarios.Accepted(EdgeSignals.Normalize(lib, q.raw).on, ProofOf(q.proof))
    ensures forall s :: s in run.rejected
                        <==> EdgeScenarios.Qualifies(s, EdgeSignals.Normalize(lib, q.raw).on)
                             && run.accepted != EdgeScenarios.Cataloged(s)
    ensures run.impact == ImpactFor(run.accepted, EdgeSignals.Normalize(lib, q.raw).on)
    ensures run.decision.outcome == EdgePolicy.Allow
            <==> lib.norm(q.action) in EdgePolicy.SAFE_ACTIONS && q.proof.status == EdgePolicy.Confirmed && q.confirmed
    ensures run.decision.outcome == EdgePolicy.Block
            <==> lib.norm(q.action) != "" && lib.norm(q.action) !in EdgePolicy.SAFE_ACTIONS
    ensures run.decision.trust != EdgePolicy.LowTrust
    ensures EdgePolicy.ConflictingSignals !in run.decision.reasons
    ensures EdgePolicy.CriticalImpactLowTrust !in run.decision.reasons
  {
    var signals := EdgeSignals.Normalize(lib, q.raw);
    EdgeSignals.NormalizedNeverConflicts(lib, q.raw);
    run := Reason(signals, q.proof, lib.norm(q.action), q.confirmed);
    NoAlarm(lib.norm(q.action), q.proof.status, run.accepted, signals.on, q.confirmed);
  }

  /**
   The impact of what is accepted: low exactly for the fallbacks and the uplink hypothesis, else high exactly
   when a severe signal is raised.  A local failure is never of low impact.
   */
  lemma ImpactMeaning(on: set<Signal>, p: EdgeScenarios.Proof)
    ensures ImpactFits(EdgeScenarios.Accepted(on, p).0, on)
  {
    var a := EdgeScenarios.Accepted(on, p).0;
    EdgeScenarios.NominalIff(on, p);
    if a.Cataloged? { EdgeScenarios.AcceptedQualifies(on, p, a.scenario); }
    ImpactOfQualifying(a, on);
  }

  ghost predicate LowByNature(a: Hypothesis)
  {
    !a.Cataloged? || a.scenario == EdgeScenarios.UplinkDegradedLocalOk
  }

  ghost predicate ImpactFits(a: Hypothesis, on: set<Signal>)
  {
    var i := ImpactFor(a, on);
    && (i == EdgePolicy.LowImpact <==> LowByNature(a))
    && (i == EdgePolicy.HighImpact
        <==> && !LowByNature(a)
             && (|| EdgeSignals.ThermalHot in on || EdgeSignals.DriverMismatch in on
                 || EdgeSignals.InferenceErrorHigh in on || EdgeSignals.SensorLost in on))
    && i != EdgePolicy.CriticalImpact
  }

  lemma ImpactOfQualifying(a: Hypothesis, on: set<Signal>)
    requires !a.Unlisted? && (a.Cataloged? ==> EdgeScenarios.Qualifies(a.scenario, on))
    ensures ImpactFits(a, on)
  {
    if !LowByNature(a) { LocalFailureShows(a.scenario, on); }
    SevereShows(on);
  }

  lemma SevereShows(on: set<Signal>)
    ensures on * SEVERE != {}
            <==> || EdgeSignals.ThermalHot in on || EdgeSignals.DriverMismatch in on
                 || EdgeSignals.InferenceErrorHigh in on || EdgeSignals.SensorLost in on
  {
    if EdgeSignals.ThermalHot in on { assert EdgeSignals.ThermalHot in on * SEVERE; }
    if EdgeSignals.DriverMismatch in on { assert EdgeSignals.DriverMismatch in on * SEVERE; }
    if EdgeSignals.InferenceErrorHigh in on { assert EdgeSignals.InferenceErrorHigh in on * SEVERE; }
    if EdgeSignals.SensorLost in on { assert EdgeSignals.SensorLost in on * SEVERE; }
  }

  lemma LocalFailureShows(s: Scenario, on: set<Signal>)
    requires EdgeScenarios.Qualifies(s, on) && s != EdgeScenarios.UplinkDegradedLocalOk
    ensures on * SEVERE != {} || on * MODERATE != {}
  {
    var x := EdgeScenarios.Required(s)[0];
    assert x in EdgeScenarios.Required(s);
    assert x in on * SEVERE || x in on * MODERATE;
  }

  /** The impact is never critical, so without a conflict two of the reason codes never apply. */
  lemma NoAlarm(
      action: string, proof: EdgePolicy.ProofStatus, accepted: Hypothesis, on: set<Signal>, confirmed: bool)
    ensures var i := ImpactFor(accepted, on);
            && !EdgePolicy.Applies(EdgePolicy.ConflictingSignals, action, proof, i, confirmed, false)
            && !EdgePolicy.Applies(EdgePolicy.CriticalImpactLowTrust, action, proof, i, confirmed, false)
  {
  }

  /** The pipeline on canonical signals: rank, weigh the impact, gate. */
  method Reason(signals: EdgeSignals.Signals, proof: ProofResult, action: string, confirmed: bool)
    returns (run: EdgeRun)
    ensures (run.accepted, run.confidence) == EdgeScenarios.Accepted(signals.on, ProofOf(proof))
    ensures forall s :: s in run.rejected
                        <==> EdgeScenarios.Qualifies(s, signals.on) && run.accepted != EdgeScenarios.Cataloged(s)
    ensures run.impact == ImpactFor(run.accepted, signals.on)
    ensures run.decision.outcome == EdgePolicy.Allow
            <==> action in EdgePolicy.SAFE_ACTIONS && proof.status == EdgePolicy.Confirmed && confirmed
                 && !EdgeSignals.Conflicting(signals)
    ensures run.decision.outcome == EdgePolicy.Block <==> action != "" && action !in EdgePolicy.SAFE_ACTIONS
    ensures run.decision.trust == EdgePolicy.LowTrust <==> EdgeSignals.Conflicting(signals)
    ensures forall r :: r in run.decision.reasons
                        <==> EdgePolicy.Applies(r, action, proof.status, run.impact, confirmed,
                                                EdgeSignals.Conflicting(signals))
  {
    var rows, accepted, confidence := EdgeScenarios.RankHypotheses(signals.on, ProofOf(proof));
    var rejected := Rejected(rows);
    forall s
      ensures s in rejected <==> EdgeScenarios.Qualifies(s, signals.on) && accepted != EdgeScenarios.Cataloged(s)
    {
      RejectedExact(signals.on, ProofOf(proof), s);
    }
    var impact := ImpactFor(accepted, signals.on);
    var conflicts := EdgeSignals.Conflicting(signals);
    var decision := EdgePolicy.EvaluateEdgePolicy(action, proof.status, impact, confirmed, conflicts);
    GateIff(action, proof.status, confirmed, conflicts);
    run := EdgeRun(accepted, confidence, rejected, impact, decision);
  }

  lemma GateIff(action: string, proof: EdgePolicy.ProofStatus, confirmed: bool, conflicts: bool)
    ensures EdgePolicy.Decide(action, proof, confirmed, conflicts) == EdgePolicy.Allow
            <==> action in EdgePolicy.SAFE_ACTIONS && proof == EdgePolicy.Confirmed && confirmed && !conflicts
    ensures EdgePolicy.Decide(action, proof, confirmed, conflicts) == EdgePolicy.Block
            <==> action != "" && action !in EdgePolicy.SAFE_ACTIONS
  {
    EdgePolicy.AllowIff(action, proof, confirmed, conflicts);
    if action in EdgePolicy.SAFE_ACTIONS { EdgePolicy.SafeActionsHarmless(action); }
  }

  /** The scenarios below the top row. */
  function Rejected(rows: seq<EdgeScenarios.Row>): (r: seq<Scenario>)
  {
    if rows == [] then [] else Map(rows[1..], ScenarioOf)
  }

  lemma RejectedScenarios(rows: seq<EdgeScenarios.Row>, s: Scenario)
    requires rows != [] && EdgeScenarios.DistinctScenarios(rows)
    ensures s in Rejected(rows) <==> s != rows[0].scenario && exists k :: 0 <= k < |rows| && rows[k].scenario == s
  {
    var m := Rejected(rows);
    forall k | 1 <= k < |rows| ensures m[k - 1] == rows[k].scenario { }
    if s in m {
      var i :| 0 <= i < |m| && m[i] == s;
      assert rows[i + 1].scenario == s;
    }
  }

  /** Exactly the qualifying scenarios have a row. */
  lemma HasRow(on: set<Signal>, p: EdgeScenarios.Proof, s: Scenario)
    ensures EdgeScenarios.Qualifies(s, on)
            <==> exists k :: 0 <= k < |EdgeScenarios.Ranking(on, p)| && EdgeScenarios.Ranking(on, p)[k].scenario == s
  {
    var rows := EdgeScenarios.Ranking(on, p);
    EdgeScenarios.RankingExact(on, p);
    if EdgeScenarios.Qualifies(s, on) { assert EdgeScenarios.RowFor(s, on, p) in rows; }
    forall k | 0 <= k < |rows| ensures EdgeScenarios.Qualifies(rows[k].scenario, on) { assert rows[k] in rows; }
  }

  /** The accepted hypothesis and the rejected alternatives are together the qualifying scenarios. */
  lemma RejectedExact(on: set<Signal>, p: EdgeScenarios.Proof, s: Scenario)
    ensures s in Rejected(EdgeScenarios.Ranking(on, p))
            <==> EdgeScenarios.Qualifies(s, on) && EdgeScenarios.Accepted(on, p).0 != EdgeScenarios.Cataloged(s)
  {
    EdgeScenarios.RankingExact(on, p);
    HasRow(on, p, s);
    var rows := EdgeScenarios.Ranking(on, p);
    if rows != [] { RejectedScenarios(rows, s); }
  }
}
