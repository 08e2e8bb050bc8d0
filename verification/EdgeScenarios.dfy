/** The closed catalogue of edge failure hypotheses and their ranking (edge_device/scenarios.py). */
module EdgeScenarios {
  import opened Ordering
  import opened EdgeSignals

  datatype Scenario =
    | ThermalThrottlingRisk | DriverRuntimeMismatch | NpuFallbackToCpu
    | InferenceLatencyRegression | SensorInputDegraded | UplinkDegradedLocalOk

  datatype Hypothesis = Cataloged(scenario: Scenario) | Nominal | Indeterminate | Unlisted(name: string)

  const CATALOG: seq<Scenario> :=
    [ThermalThrottlingRisk, DriverRuntimeMismatch, NpuFallbackToCpu,
     InferenceLatencyRegression, SensorInputDegraded, UplinkDegradedLocalOk]

  /** The place of a scenario in the catalogue. */
  function Place(s: Scenario): (i: nat)
    ensures i < |CATALOG| && CATALOG[i] == s
  {
    match s
    case ThermalThrottlingRisk => 0
    case DriverRuntimeMismatch => 1
    case NpuFallbackToCpu => 2
    case InferenceLatencyRegression => 3
    case SensorInputDegraded => 4
    case UplinkDegradedLocalOk => 5
  }

  function Required(s: Scenario): (r: seq<Signal>)
  {
    match s
    case ThermalThrottlingRisk => [ThermalWarn]
    case DriverRuntimeMismatch => [DriverMismatch]
    case NpuFallbackToCpu => [NpuUnavailable]
    case InferenceLatencyRegression => [LatencyRegression]
    case SensorInputDegraded => [SensorDegraded]
    case UplinkDegradedLocalOk => [UplinkDegraded, LocalInferenceOk]
  }

  function Supporting(s: Scenario): (r: seq<Signal>)
  {
    match s
    case ThermalThrottlingRisk => [ThermalHot, CpuHigh, LatencyRegression]
    case DriverRuntimeMismatch => [NpuUnavailable, InferenceErrorHigh]
    case NpuFallbackToCpu => [LatencyRegression, CpuHigh]
    case InferenceLatencyRegression => [CpuHigh, MemoryPressureHigh, NpuUnavailable, InferenceErrorHigh]
    case SensorInputDegraded => [SensorLost, InferenceErrorHigh]
    case UplinkDegradedLocalOk => [UplinkDown]
  }

  function Contradicting(s: Scenario): (r: seq<Signal>)
  {
    match s
    case NpuFallbackToCpu => [DriverMismatch]
    case UplinkDegradedLocalOk => [InferenceErrorHigh, LatencyRegression, NpuUnavailable]
    case _ => []
  }

  function Among(names: seq<Signal>, on: set<Signal>): (r: seq<Signal>)
  {
    Filter(names, (x: Signal) => x in on)
  }

  predicate Qualifies(s: Scenario, on: set<Signal>)
  {
    forall x :: x in Required(s) ==> x in on
  }

  const CAP_UNPROVEN := 90
  const CAP_CONFIRMED := 95

  function Clip(x: int, cap: nat): (r: nat)
    ensures r <= cap
  {
    if x < 0 then 0 else if x > cap then cap else x
  }

  /** `_score`, in hundredths. */
  function Score(s: Scenario, on: set<Signal>, confirmed: bool): (n: nat)
  {
    Clip(50 + 12 * |Among(Supporting(s), on)| - 20 * |Among(Contradicting(s), on)|,
         if confirmed then CAP_CONFIRMED else CAP_UNPROVEN)
  }

  /** The confidence of a row: a confirmed proof of this hypothesis lifts the cap and adds a bonus. */
  function RowConfidence(s: Scenario, on: set<Signal>, confirmed: bool): (n: nat)
  {
    if confirmed then Clip(Score(s, on, true) + 5, CAP_CONFIRMED) else Score(s, on, false)
  }

  /** Unproven confidence stays within 0 and 0.90, and confirming never lowers it. */
  lemma ConfirmingRaises(s: Scenario, on: set<Signal>)
    ensures 0 <= RowConfidence(s, on, false) <= CAP_UNPROVEN
    ensures RowConfidence(s, on, false) <= RowConfidence(s, on, true) <= CAP_CONFIRMED
  {
  }

  datatype Row = Row(
    scenario: Scenario, confidence: nat, supporting: seq<Signal>, contradicting: seq<Signal>, missing: seq<Signal>)

  /** The hypothesis a confirmed proof targeted, if any. */
  datatype Proof = Unproven | ConfirmedFor(h: Hypothesis)

  predicate Confirms(p: Proof, s: Scenario)
  {
    p == ConfirmedFor(Cataloged(s))
  }

  function RowFor(s: Scenario, on: set<Signal>, p: Proof): (r: Row)
  {
    Row(s, RowConfidence(s, on, Confirms(p, s)),
        Among(Required(s) + Supporting(s), on),
        Among(Contradicting(s), on),
        Filter(Supporting(s), (x: Signal) => x !in on))
  }

  function Qualifier(on: set<Signal>): (ok: Scenario -> bool)
  {
    (s: Scenario) => Qualifies(s, on)
  }

  function Builder(on: set<Signal>, p: Proof): (f: Scenario -> Row)
  {
    (s: Scenario) => RowFor(s, on, p)
  }

  function One(x: Scenario, ok: Scenario -> bool, f: Scenario -> Row): (r: seq<Row>)
  {
    if ok(x) then [f(x)] else []
  }

  /** The rows of the scenarios that pass `ok`, in order. */
  function Collected(catalog: seq<Scenario>, ok: Scenario -> bool, f: Scenario -> Row): (rows: seq<Row>)
  {
    if catalog == [] then [] else One(catalog[0], ok, f) + Collected(catalog[1..], ok, f)
  }

  /** The rows of the qualifying scenarios, in catalogue order. */
  function Candidates(on: set<Signal>, p: Proof): (rows: seq<Row>)
  {
    Collected(CATALOG, Qualifier(on), Builder(on, p))
  }

  /** Python's reverse sort by confidence keeps equal rows in order. */
  predicate Above(a: Row, b: Row)
  {
    a.confidence >= b.confidence
  }

  function Ranking(on: set<Signal>, p: Proof): (rows: seq<Row>)
  {
    Sort(Candidates(on, p), Above)
  }

  predicate LooksNominal(on: set<Signal>)
  {
    on * {CpuHigh, MemoryPressureHigh, ThermalWarn, ThermalHot, NpuUnavailable, LatencyRegression,
          InferenceErrorHigh, DriverMismatch, SensorDegraded, SensorLost, UplinkDegraded} == {}
  }

  /** What the pipeline accepts: the top row, or the nominal or indeterminate fallback. */
  function Accepted(on: set<Signal>, p: Proof): (r: (Hypothesis, nat))
  {
    var rows := Ranking(on, p);
    if rows != [] then (Cataloged(rows[0].scenario), rows[0].confidence)
    else if LooksNominal(on) then (Nominal, 20) else (Indeterminate, 10)
  }

  lemma CollectedStep(catalog: seq<Scenario>, i: nat, ok: Scenario -> bool, f: Scenario -> Row)
    requires i < |catalog|
    ensures Collected(catalog[i..], ok, f) == One(catalog[i], ok, f) + Collected(catalog[i + 1..], ok, f)
  {
    assert catalog[i..][1..] == catalog[i + 1..];
  }

  /** The loop over the catalogue. */
  method CollectRows(catalog: seq<Scenario>, ok: Scenario -> bool, f: Scenario -> Row) returns (rows: seq<Row>)
    ensures rows == Collected(catalog, ok, f)
  {
    rows := [];
    assert catalog[0..] == catalog;
    for i := 0 to |catalog|
      invariant rows + Collected(catalog[i..], ok, f) == Collected(catalog, ok, f)
    {
      CollectedStep(catalog, i, ok, f);
      AppendAssociative(rows, One(catalog[i], ok, f), Collected(catalog[i + 1..], ok, f));
      if ok(catalog[i]) {
        rows := rows + [f(catalog[i])];
      }
    }
  }

  /** `rank_edge_hypotheses`: collect, sort, and fall back when nothing qualifies. */
  method RankHypotheses(on: set<Signal>, p: Proof) returns (rows: seq<Row>, accepted: Hypothesis, confidence: nat)
    ensures rows == Ranking(on, p)
    ensures (accepted, confidence) == Accepted(on, p)
  {
    rows := CollectRows(CATALOG, Qualifier(on), Builder(on, p));
    rows := Sort(rows, Above);
    if rows != [] {
      accepted, confidence := Cataloged(rows[0].scenario), rows[0].confidence;
    } else if LooksNominal(on) {
      accepted, confidence := Nominal, 20;
    } else {
      accepted, confidence := Indeterminate, 10;
    }
  }

  // ----- the order of the ranking -----

  /** Higher confidence first, and the catalogue decides ties. */
  predicate Before(a: Row, b: Row)
  {
    a.confidence > b.confidence || (a.confidence == b.confidence && Place(a.scenario) <= Place(b.scenario))
  }

  lemma BeforePreorder()
    ensures TotalPreorder(Before)
  {
  }

  ghost predicate InCatalogOrder(rows: seq<Row>)
  {
    forall i, j :: 0 <= i < j < |rows| ==> Place(rows[i].scenario) < Place(rows[j].scenario)
  }

  ghost predicate NamesItself(f: Scenario -> Row)
  {
    forall x :: f(x).scenario == x
  }

  lemma {:induction false} CollectedRows(catalog: seq<Scenario>, ok: Scenario -> bool, f: Scenario -> Row)
    requires NamesItself(f)
    ensures forall r :: r in Collected(catalog, ok, f)
                   <==> r.scenario in catalog && ok(r.scenario) && r == f(r.scenario)
  {
    if catalog != [] {
      CollectedRows(catalog[1..], ok, f);
      assert catalog == [catalog[0]] + catalog[1..];
    }
  }

  ghost predicate Ordered(catalog: seq<Scenario>)
  {
    forall i, j :: 0 <= i < j < |catalog| ==> Place(catalog[i]) < Place(catalog[j])
  }

  lemma {:induction false} CollectedInOrder(catalog: seq<Scenario>, ok: Scenario -> bool, f: Scenario -> Row)
    requires NamesItself(f) && Ordered(catalog)
    ensures InCatalogOrder(Collected(catalog, ok, f))
  {
    if catalog != [] {
      CollectedInOrder(catalog[1..], ok, f);
      CollectedRows(catalog[1..], ok, f);
      var rest := Collected(catalog[1..], ok, f);
      forall r | r in rest ensures Place(catalog[0]) < Place(r.scenario) {
        var i :| 0 <= i < |catalog[1..]| && catalog[1..][i] == r.scenario;
        assert catalog[i + 1] == r.scenario;
      }
    }
  }

  lemma CandidatesInOrder(on: set<Signal>, p: Proof)
    ensures InCatalogOrder(Candidates(on, p))
  {
    assert NamesItself(Builder(on, p));
    CatalogOrdered();
    CollectedInOrder(CATALOG, Qualifier(on), Builder(on, p));
  }

  lemma CatalogOrdered()
    ensures Ordered(CATALOG)
  {
    assert forall i :: 0 <= i < |CATALOG| ==> Place(CATALOG[i]) == i;
  }

  lemma CandidatesExact(on: set<Signal>, p: Proof, r: Row)
    ensures r in Candidates(on, p) <==> Qualifies(r.scenario, on) && r == RowFor(r.scenario, on, p)
  {
    assert NamesItself(Builder(on, p));
    CollectedRows(CATALOG, Qualifier(on), Builder(on, p));
    assert CATALOG[Place(r.scenario)] == r.scenario;
  }

  lemma {:induction false} InsertRefines(x: Row, s: seq<Row>)
    requires forall r :: r in s ==> Place(x.scenario) <= Place(r.scenario)
    ensures Insert(x, s, Above) == Insert(x, s, Before)
  {
    if s != [] && !Above(x, s[0]) { InsertRefines(x, s[1..]); }
  }

  lemma {:induction false} SortRefines(s: seq<Row>)
    requires InCatalogOrder(s)
    ensures Sort(s, Above) == Sort(s, Before)
  {
    if s != [] {
      SortRefines(s[1..]);
      MultisetMembers(Sort(s[1..], Above), s[1..]);
      InsertRefines(s[0], Sort(s[1..], Above));
    }
  }

  ghost predicate DistinctScenarios(rows: seq<Row>)
  {
    forall i, j :: 0 <= i < j < |rows| ==> rows[i].scenario != rows[j].scenario
  }

  /**
   The ranking holds exactly the qualifying catalogue scenarios, once each, by descending
   confidence with ties in catalogue order.
   */
  lemma RankingExact(on: set<Signal>, p: Proof)
    ensures Sorted(Ranking(on, p), Before)
    ensures forall r :: r in Ranking(on, p) <==> Qualifies(r.scenario, on) && r == RowFor(r.scenario, on, p)
    ensures DistinctScenarios(Ranking(on, p))
  {
    var c := Candidates(on, p);
    CandidatesInOrder(on, p);
    forall r: Row ensures r in Ranking(on, p) <==> Qualifies(r.scenario, on) && r == RowFor(r.scenario, on, p) {
      MultisetMembers(Ranking(on, p), c);
      CandidatesExact(on, p, r);
    }
    SortRefines(c);
    BeforePreorder();
    SortSorted(c, Before);
    PermutedDistinct(c, Ranking(on, p));
  }

  lemma PermutedDistinct(c: seq<Row>, rows: seq<Row>)
    requires InCatalogOrder(c) && multiset(c) == multiset(rows)
    ensures DistinctScenarios(rows)
  {
    MultisetMembers(rows, c);
    forall i, j | 0 <= i < j < |rows| ensures rows[i].scenario != rows[j].scenario {
      OccursOnce(c, rows, i, j);
      assert rows[i] in c && rows[j] in c;
      var x :| 0 <= x < |c| && c[x] == rows[i];
      var y :| 0 <= y < |c| && c[y] == rows[j];
    }
  }

  /** A permutation of distinct rows has distinct rows. */
  lemma OccursOnce(c: seq<Row>, rows: seq<Row>, i: nat, j: nat)
    requires InCatalogOrder(c) && multiset(c) == multiset(rows) && i < j < |rows|
    ensures rows[i] != rows[j]
  {
    var x := rows[j];
    AtMostOnce(c, x);
    assert rows == rows[..j] + [x] + rows[j + 1..];
    assert multiset(rows)[x] == multiset(rows[..j])[x] + 1 + multiset(rows[j + 1..])[x];
    assert x !in rows[..j];
    assert rows[..j][i] == rows[i];
  }

  lemma {:induction false} AtMostOnce(c: seq<Row>, x: Row)
    requires InCatalogOrder(c)
    ensures multiset(c)[x] <= 1
  {
    if c != [] {
      AtMostOnce(c[1..], x);
      assert c == [c[0]] + c[1..];
      if c[0] == x { assert x !in c[1..]; }
    }
  }

  // ----- confirming a proof -----

  function Others(rows: seq<Row>, s: Scenario): (r: seq<Row>)
  {
    Filter(rows, (r: Row) => r.scenario != s)
  }

  lemma OneOthers(x: Scenario, ok: Scenario -> bool, f: Scenario -> Row, g: Scenario -> Row, s: Scenario)
    requires NamesItself(f) && NamesItself(g) && forall y :: y != s ==> f(y) == g(y)
    ensures Others(One(x, ok, f), s) == Others(One(x, ok, g), s)
  {
    if x == s {
      FilterNone(One(x, ok, f), (r: Row) => r.scenario != s);
      FilterNone(One(x, ok, g), (r: Row) => r.scenario != s);
    }
  }

  lemma {:induction false} CollectedOthers(
      catalog: seq<Scenario>, ok: Scenario -> bool, f: Scenario -> Row, g: Scenario -> Row, s: Scenario)
    requires NamesItself(f) && NamesItself(g) && forall y :: y != s ==> f(y) == g(y)
    ensures Others(Collected(catalog, ok, f), s) == Others(Collected(catalog, ok, g), s)
  {
    if catalog != [] {
      CollectedOthers(catalog[1..], ok, f, g, s);
      OneOthers(catalog[0], ok, f, g, s);
      var notS := (r: Row) => r.scenario != s;
      FilterAppend(One(catalog[0], ok, f), Collected(catalog[1..], ok, f), notS);
      FilterAppend(One(catalog[0], ok, g), Collected(catalog[1..], ok, g), notS);
    }
  }

  lemma AbovePreorder()
    ensures TotalPreorder(Above)
  {
  }

  /** Confirming the proof of one scenario leaves the other rows and their order as they were. */
  lemma ConfirmingKeepsOthers(on: set<Signal>, s: Scenario)
    ensures Others(Ranking(on, ConfirmedFor(Cataloged(s))), s) == Others(Ranking(on, Unproven), s)
  {
    var p := ConfirmedFor(Cataloged(s));
    BuildersAgree(on, s);
    CollectedOthers(CATALOG, Qualifier(on), Builder(on, p), Builder(on, Unproven), s);
    SortedOthers(Candidates(on, p), Candidates(on, Unproven), s);
  }

  lemma SortedOthers(a: seq<Row>, b: seq<Row>, s: Scenario)
    requires Others(a, s) == Others(b, s)
    ensures Others(Sort(a, Above), s) == Others(Sort(b, Above), s)
  {
    AbovePreorder();
    SortFilter(a, Above, (r: Row) => r.scenario != s);
    SortFilter(b, Above, (r: Row) => r.scenario != s);
  }

  lemma BuildersAgree(on: set<Signal>, s: Scenario)
    ensures var f, g := Builder(on, ConfirmedFor(Cataloged(s))), Builder(on, Unproven);
            NamesItself(f) && NamesItself(g) && forall y :: y != s ==> f(y) == g(y)
  {
    forall y | y != s ensures Confirms(ConfirmedFor(Cataloged(s)), y) == Confirms(Unproven, y) { }
  }

  lemma {:induction false} DropOne(rows: seq<Row>, i: nat, s: Scenario)
    requires i < |rows| && rows[i].scenario == s && DistinctScenarios(rows)
    ensures Others(rows, s) == rows[..i] + rows[i + 1..]
  {
    if i == 0 {
      FilterAll(rows[1..], (r: Row) => r.scenario != s);
      assert rows[..0] + rows[1..] == rows[1..];
    } else {
      DropOne(rows[1..], i - 1, s);
      assert rows[..i] == [rows[0]] + rows[1..][..i - 1] && rows[1..][i..] == rows[i + 1..];
      assert rows[0].scenario != s;
    }
  }

  /** Confirming the proof of a scenario never moves it down. */
  lemma ConfirmingNeverDemotes(on: set<Signal>, s: Scenario, i: nat, j: nat)
    requires i < |Ranking(on, ConfirmedFor(Cataloged(s)))| && j < |Ranking(on, Unproven)|
    requires Ranking(on, ConfirmedFor(Cataloged(s)))[i].scenario == s == Ranking(on, Unproven)[j].scenario
    ensures i <= j
  {
    var a, b := Ranking(on, ConfirmedFor(Cataloged(s))), Ranking(on, Unproven);
    RankingExact(on, ConfirmedFor(Cataloged(s)));
    RankingExact(on, Unproven);
    ConfirmingKeepsOthers(on, s);
    DropOne(a, i, s);
    DropOne(b, j, s);
    assert a[i] in a && b[j] in b;
    ConfirmingRaises(s, on);
    if j < i {
      assert (a[..i] + a[i + 1..])[j] == a[j] && (b[..j] + b[j + 1..])[j] == b[j + 1];
      NotOvertaken(a, b, i, j);
    }
  }

  /** A row between the old and the new place of a scenario would have to be that scenario itself. */
  lemma NotOvertaken(a: seq<Row>, b: seq<Row>, i: nat, j: nat)
    requires j < i < |a| && j + 1 < |b| && a[j] == b[j + 1]
    requires Sorted(a, Before) && Sorted(b, Before)
    requires a[i].scenario == b[j].scenario && a[i].confidence >= b[j].confidence
    ensures a[j].scenario == a[i].scenario
  {
    assert Before(a[j], a[i]) && Before(b[j], b[j + 1]);
    assert Place(a[j].scenario) == Place(a[i].scenario);
    assert CATALOG[Place(a[j].scenario)] == a[j].scenario && CATALOG[Place(a[i].scenario)] == a[i].scenario;
  }

  // ----- what is accepted -----

  /** The accepted scenario qualifies and no qualifying scenario stands before it. */
  lemma AcceptedIsBest(on: set<Signal>, p: Proof, s: Scenario)
    requires Qualifies(s, on)
    ensures var best := Accepted(on, p);
            && best.0.Cataloged? && Qualifies(best.0.scenario, on)
            && best.1 == RowConfidence(best.0.scenario, on, Confirms(p, best.0.scenario))
            && Before(RowFor(best.0.scenario, on, p), RowFor(s, on, p))
  {
    var rows := Ranking(on, p);
    RankingExact(on, p);
    assert RowFor(s, on, p) in rows;
    assert rows[0] in rows;
    var k :| 0 <= k < |rows| && rows[k] == RowFor(s, on, p);
  }

  /** Every scenario requires some failure signal. */
  lemma QualifyingShows(s: Scenario, on: set<Signal>)
    requires Qualifies(s, on)
    ensures !LooksNominal(on)
  {
    var x := Required(s)[0];
    assert x in Required(s);
    assert x in on * {CpuHigh, MemoryPressureHigh, ThermalWarn, ThermalHot, NpuUnavailable, LatencyRegression,
                      InferenceErrorHigh, DriverMismatch, SensorDegraded, SensorLost, UplinkDegraded};
  }

  /** The nominal answer is given exactly to a device that shows no failure signal. */
  lemma NominalIff(on: set<Signal>, p: Proof)
    ensures Accepted(on, p).0 == Nominal <==> LooksNominal(on)
    ensures Accepted(on, p).0.Cataloged? <==> exists s :: Qualifies(s, on)
    ensures !Accepted(on, p).0.Unlisted?
  {
    var rows := Ranking(on, p);
    RankingExact(on, p);
    if rows != [] {
      var s := rows[0].scenario;
      assert rows[0] in rows;
      QualifyingShows(s, on);
    }
    if s :| Qualifies(s, on) { AcceptedIsBest(on, p, s); }
  }

  /** A scenario that stood first cannot be overtaken by its own confirmation. */
  lemma BestStays(on: set<Signal>, s: Scenario, t: Scenario, p: Proof)
    requires p == ConfirmedFor(Cataloged(s))
    requires Before(RowFor(s, on, Unproven), RowFor(t, on, Unproven)) && Before(RowFor(t, on, p), RowFor(s, on, p))
    ensures s == t
  {
    ConfirmingRaises(s, on);
    assert Confirms(p, t) <==> s == t;
  }

  lemma AcceptedQualifies(on: set<Signal>, p: Proof, s: Scenario)
    ensures Accepted(on, p).0 == Cataloged(s) ==> Qualifies(s, on)
  {
    RankingExact(on, p);
    var rows := Ranking(on, p);
    if rows != [] { assert rows[0] in rows; }
  }

  /** The accepted scenario of a device for which something qualifies. */
  lemma BestOf(on: set<Signal>, p: Proof, s: Scenario) returns (t: Scenario)
    requires Qualifies(s, on)
    ensures Accepted(on, p).0 == Cataloged(t) && Qualifies(t, on) && Before(RowFor(t, on, p), RowFor(s, on, p))
  {
    AcceptedIsBest(on, p, s);
    t := Accepted(on, p).0.scenario;
  }

  /** Confirming the proof of the accepted scenario keeps it accepted. */
  lemma ConfirmingKeepsAccepted(on: set<Signal>, s: Scenario)
    ensures Accepted(on, Unproven).0 == Cataloged(s) ==> Accepted(on, ConfirmedFor(Cataloged(s))).0 == Cataloged(s)
  {
    AcceptedQualifies(on, Unproven, s);
    if Accepted(on, Unproven).0 == Cataloged(s) {
      var t := BestOf(on, ConfirmedFor(Cataloged(s)), s);
      var u := BestOf(on, Unproven, t);
      BestStays(on, s, t, ConfirmedFor(Cataloged(s)));
    }
  }
}
