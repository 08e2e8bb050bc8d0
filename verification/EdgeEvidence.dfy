/**
 What the edge ranking weighs, said without its tables: which signals speak for and against which
 hypothesis, what one more signal is worth, and so what is accepted.
 */
module EdgeEvidence {
  import opened Ordering
  import opened EdgeSignals
  import opened EdgeScenarios

  // ----- the tables, by signal instead of by scenario -----

  /** The hypotheses that cannot hold without the signal. */
  function NeededBy(x: Signal): (r: set<Scenario>)
  {
    match x
    case ThermalWarn => {ThermalThrottlingRisk}
    case DriverMismatch => {DriverRuntimeMismatch}
    case NpuUnavailable => {NpuFallbackToCpu}
    case LatencyRegression => {InferenceLatencyRegression}
    case SensorDegraded => {SensorInputDegraded}
    case UplinkDegraded => {UplinkDegradedLocalOk}
    case LocalInferenceOk => {UplinkDegradedLocalOk}
    case _ => {}
  }

  /** The hypotheses the signal speaks for. */
  function SpeaksFor(x: Signal): (r: set<Scenario>)
  {
    match x
    case ThermalHot => {ThermalThrottlingRisk}
    case CpuHigh => {ThermalThrottlingRisk, NpuFallbackToCpu, InferenceLatencyRegression}
    case LatencyRegression => {ThermalThrottlingRisk, NpuFallbackToCpu}
    case NpuUnavailable => {DriverRuntimeMismatch, InferenceLatencyRegression}
    case InferenceErrorHigh => {DriverRuntimeMismatch, InferenceLatencyRegression, SensorInputDegraded}
    case MemoryPressureHigh => {InferenceLatencyRegression}
    case SensorLost => {SensorInputDegraded}
    case UplinkDown => {UplinkDegradedLocalOk}
    case _ => {}
  }

  /** The hypotheses the signal speaks against. */
  function SpeaksAgainst(x: Signal): (r: set<Scenario>)
  {
    match x
    case DriverMismatch => {NpuFallbackToCpu}
    case InferenceErrorHigh => {UplinkDegradedLocalOk}
    case LatencyRegression => {UplinkDegradedLocalOk}
    case NpuUnavailable => {UplinkDegradedLocalOk}
    case _ => {}
  }

  /** The order in which ties are broken. */
  lemma CatalogueOrder()
    ensures Place(ThermalThrottlingRisk) < Place(DriverRuntimeMismatch) < Place(NpuFallbackToCpu)
            < Place(InferenceLatencyRegression) < Place(SensorInputDegraded) < Place(UplinkDegradedLocalOk)
  {
  }

  lemma TablesAgree(s: Scenario, x: Signal)
    ensures x in Required(s) <==> s in NeededBy(x)
    ensures x in Supporting(s) <==> s in SpeaksFor(x)
    ensures x in Contradicting(s) <==> s in SpeaksAgainst(x)
  {
  }

  ghost predicate NoRepeats(names: seq<Signal>)
  {
    forall i, j :: 0 <= i < j < |names| ==> names[i] != names[j]
  }

  lemma TablesRepeatNothing(s: Scenario)
    ensures NoRepeats(Required(s)) && NoRepeats(Supporting(s)) && NoRepeats(Contradicting(s))
  {
  }

  // ----- how many signals speak for and against a hypothesis -----

  /** The raised signals that satisfy `p`. */
  function Raised(on: set<Signal>, p: Signal -> bool): (r: set<Signal>)
    ensures forall x :: x in r <==> x in on && p(x)
  {
    set x | x in on && p(x)
  }

  function For(s: Scenario, on: set<Signal>): (r: set<Signal>)
  {
    Raised(on, (x: Signal) => s in SpeaksFor(x))
  }

  function Against(s: Scenario, on: set<Signal>): (r: set<Signal>)
  {
    Raised(on, (x: Signal) => s in SpeaksAgainst(x))
  }

  lemma RaisedMore(on: set<Signal>, x: Signal, p: Signal -> bool)
    requires x !in on
    ensures |Raised(on + {x}, p)| == |Raised(on, p)| + (if p(x) then 1 else 0)
  {
    if p(x) {
      assert Raised(on + {x}, p) == Raised(on, p) + {x};
    } else {
      assert Raised(on + {x}, p) == Raised(on, p);
    }
  }

  lemma {:induction false} AmongCounts(names: seq<Signal>, on: set<Signal>)
    requires NoRepeats(names)
    ensures |Among(names, on)| == |Listed(names, on)|
  {
    if names != [] {
      AmongCounts(names[1..], on);
      ListedCons(names, on);
    }
  }

  function Listed(names: seq<Signal>, on: set<Signal>): (r: set<Signal>)
    ensures forall x :: x in r <==> x in names && x in on
  {
    set x | x in names && x in on
  }

  lemma ListedCons(names: seq<Signal>, on: set<Signal>)
    requires names != [] && NoRepeats(names)
    ensures |Listed(names, on)| == |Listed(names[1..], on)| + (if names[0] in on then 1 else 0)
  {
    assert names == [names[0]] + names[1..] && names[0] !in names[1..];
    if names[0] in on {
      assert Listed(names, on) == Listed(names[1..], on) + {names[0]};
    } else {
      assert Listed(names, on) == Listed(names[1..], on);
    }
  }

  lemma CountsFor(s: Scenario, on: set<Signal>)
    ensures |Among(Supporting(s), on)| == |For(s, on)|
    ensures |Among(Contradicting(s), on)| == |Against(s, on)|
  {
    TablesRepeatNothing(s);
    AmongCounts(Supporting(s), on);
    AmongCounts(Contradicting(s), on);
    forall x: Signal
      ensures x in Supporting(s) <==> s in SpeaksFor(x)
      ensures x in Contradicting(s) <==> s in SpeaksAgainst(x)
    {
      TablesAgree(s, x);
    }
    assert Listed(Supporting(s), on) == For(s, on);
    assert Listed(Contradicting(s), on) == Against(s, on);
  }

  /** What the signals are worth before the result is kept within its bounds, in hundredths. */
  function Worth(s: Scenario, on: set<Signal>): (n: int)
  {
    50 + 12 * |For(s, on)| - 20 * |Against(s, on)|
  }

  /** Within 0 and 0.90. */
  function Bounded(n: int): (r: nat)
  {
    if n < 0 then 0 else if n <= 90 then n else 90
  }

  lemma ConfidenceIsWorth(s: Scenario, on: set<Signal>)
    ensures RowConfidence(s, on, false) == Bounded(Worth(s, on))
    ensures RowConfidence(s, on, true)
            == if Worth(s, on) < 0 then 5 else if Worth(s, on) <= 90 then Worth(s, on) + 5 else 95
  {
    CountsFor(s, on);
  }

  // ----- one more signal -----

  lemma ForMore(s: Scenario, on: set<Signal>, x: Signal)
    requires x !in on
    ensures |For(s, on + {x})| == |For(s, on)| + (if s in SpeaksFor(x) then 1 else 0)
    ensures |Against(s, on + {x})| == |Against(s, on)| + (if s in SpeaksAgainst(x) then 1 else 0)
  {
    RaisedMore(on, x, (y: Signal) => s in SpeaksFor(y));
    RaisedMore(on, x, (y: Signal) => s in SpeaksAgainst(y));
  }

  /**
   One more signal: what speaks for a hypothesis never lowers its confidence and adds 0.12 as long as the
   bounds allow, what speaks against it never raises it and takes 0.20, and anything else changes nothing.
   */
  lemma OneMoreSignal(s: Scenario, on: set<Signal>, x: Signal, confirmed: bool)
    requires x !in on
    ensures var before, after := RowConfidence(s, on, confirmed), RowConfidence(s, on + {x}, confirmed);
            && (s in SpeaksFor(x) ==> before <= after)
            && (s in SpeaksFor(x) && Worth(s, on) >= 0 && after < 90 ==> after == before + 12)
            && (s in SpeaksAgainst(x) ==> after <= before)
            && (s in SpeaksAgainst(x) && Worth(s, on) <= 90 && after > 5 ==> after == before - 20)
            && (s !in SpeaksFor(x) && s !in SpeaksAgainst(x) ==> after == before)
  {
    ForMore(s, on, x);
    ConfidenceIsWorth(s, on);
    ConfidenceIsWorth(s, on + {x});
  }

  /** With nothing but its required signals a hypothesis has confidence 0.50. */
  lemma BareHypothesis(s: Scenario, on: set<Signal>)
    requires For(s, on) == {} && Against(s, on) == {}
    ensures RowConfidence(s, on, false) == 50
  {
    ConfidenceIsWorth(s, on);
  }

  // ----- what is accepted -----

  lemma AtMostFourSpeak(s: Scenario, on: set<Signal>)
    ensures |For(s, on)| <= 4
  {
    CountsFor(s, on);
    AmongFits(Supporting(s), on);
  }

  lemma {:induction false} AmongFits(names: seq<Signal>, on: set<Signal>)
    ensures |Among(names, on)| <= |names|
  {
    if names != [] { AmongFits(names[1..], on); }
  }

  /**
   Without a proof, of two qualifying hypotheses that nothing speaks against the accepted one has at least
   as many signals for it, and comes first in the catalogue when they have equally many.
   */
  lemma AcceptedHasMostSupport(on: set<Signal>, s: Scenario)
    requires Qualifies(s, on) && Against(s, on) == {}
    ensures var best := Accepted(on, Unproven).0;
            && best.Cataloged?
            && (Against(best.scenario, on) == {} ==>
                  || |For(best.scenario, on)| > |For(s, on)|
                  || (|For(best.scenario, on)| == |For(s, on)| && Place(best.scenario) <= Place(s)))
  {
    var t := BestOf(on, Unproven, s);
    AtMostFourSpeak(s, on);
    AtMostFourSpeak(t, on);
    ConfidenceIsWorth(s, on);
    ConfidenceIsWorth(t, on);
  }

  /** In general the accepted hypothesis is worth most within the bounds, and first among equals. */
  lemma AcceptedIsWorthMost(on: set<Signal>, s: Scenario)
    requires Qualifies(s, on)
    ensures var best := Accepted(on, Unproven).0;
            && best.Cataloged?
            && var b, w := Bounded(Worth(best.scenario, on)), Bounded(Worth(s, on));
            b > w || (b == w && Place(best.scenario) <= Place(s))
  {
    var t := BestOf(on, Unproven, s);
    ConfidenceIsWorth(s, on);
    ConfidenceIsWorth(t, on);
  }

  /** What qualifies, by signal. */
  lemma QualifiesIff(s: Scenario, on: set<Signal>)
    ensures Qualifies(s, on) <==> forall x: Signal :: s in NeededBy(x) ==> x in on
  {
    forall x: Signal ensures x in Required(s) <==> s in NeededBy(x) { TablesAgree(s, x); }
  }

  /** The lists of a row: what is raised of the needed and supporting signals, what speaks against, what is missing. */
  lemma RowLists(s: Scenario, on: set<Signal>, p: Proof, x: Signal)
    ensures var r := RowFor(s, on, p);
            && (x in r.supporting <==> x in on && (s in NeededBy(x) || s in SpeaksFor(x)))
            && (x in r.contradicting <==> x in on && s in SpeaksAgainst(x))
            && (x in r.missing <==> x !in on && s in SpeaksFor(x))
  {
    TablesAgree(s, x);
  }

  /** A device looks nominal when it raises nothing but availability, a down uplink text or healthy inference. */
  lemma NominalMeans(on: set<Signal>)
    ensures LooksNominal(on) <==> on <= {NpuAvailable, UplinkDown, LocalInferenceOk}
  {
    if LooksNominal(on) {
      forall x | x in on ensures x in {NpuAvailable, UplinkDown, LocalInferenceOk} { NotAFailure(x, on); }
    }
  }

  /** The two fallbacks and their confidence. */
  lemma FallbackConfidence(on: set<Signal>, p: Proof)
    ensures Accepted(on, p).0 == Nominal ==> Accepted(on, p).1 == 20
    ensures Accepted(on, p).0 == Indeterminate ==> Accepted(on, p).1 == 10
  {
  }

  lemma NotAFailure(x: Signal, on: set<Signal>)
    requires x in on && LooksNominal(on)
    ensures x in {NpuAvailable, UplinkDown, LocalInferenceOk}
  {
    var failures := {CpuHigh, MemoryPressureHigh, ThermalWarn, ThermalHot, NpuUnavailable, LatencyRegression,
                     InferenceErrorHigh, DriverMismatch, SensorDegraded, SensorLost, UplinkDegraded};
    assert x !in on * failures;
  }
}
