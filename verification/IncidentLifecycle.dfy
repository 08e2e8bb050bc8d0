/**
 The event-sourced incident store (platform_core/incident_engine.py and incident_store.py):
 incidents are rows of an append-only log, the last row of an id is its current state, and a
 transition appends a new row after checking the table.
 */
module IncidentLifecycle {
  import opened Logs
  import opened Ordering
  import opened Text

  datatype IncidentState = Open | Acknowledged | Mitigated | Resolved | FalsePositive

  datatype Severity = Low | Medium | High | Critical

  /** The evidence levels the engine tells apart: "observation", "inference", and any other name. */
  datatype Level = Observed | Inferred | OtherLevel(name: string)

  datatype IncidentRow = IncidentRow(
    id: string,
    endpointId: string,
    title: Rule,
    state: IncidentState,
    severity: Severity,
    evidenceLevel: Level,
    createdAt: string,
    updatedAt: string,
    signals: seq<string>,
    limitations: seq<Limitation>,
    actor: string)

  function ValidTransitions(s: IncidentState): (r: set<IncidentState>)
  {
    match s
    case Open => {Acknowledged, Mitigated, Resolved, FalsePositive}
    case Acknowledged => {Mitigated, Resolved, FalsePositive}
    case Mitigated => {Resolved, FalsePositive}
    case Resolved => {}
    case FalsePositive => {}
  }

  predicate CanTransition(from: IncidentState, to: IncidentState)
  {
    to in ValidTransitions(from)
  }

  // ----- creation -----

  datatype Observation = Observation(name: string, signal: string)

  function SignalNames(obs: seq<Observation>): (names: set<string>)
  {
    (set o | o in obs && o.name != "" :: o.name) + (set o | o in obs && o.name == "" && o.signal != "" :: o.signal)
  }

  predicate AnyContains(names: set<string>, part: string)
  {
    exists n :: n in names && Contains(n, part)
  }

  datatype Evidence = Evidence(
    endpointId: string,
    observations: seq<Observation>,
    suspiciousPersistence: bool,
    proxyReenabledAfterSoak: bool,
    evidenceLevel: Level)

  /** The rules, each with its own fixed title. */
  datatype Rule = BypassSucceeded | ReenabledAfterSoak | SuspiciousProxy

  predicate BrowserFailed(names: set<string>)
  {
    "browser_https_failed" in names || AnyContains(names, "browser")
  }

  predicate ProxyEnabled(names: set<string>)
  {
    "wininet_proxy_enabled" in names || AnyContains(names, "proxy_enabled")
  }

  /** The first rule that matches, if any. */
  function MatchRule(ev: Evidence): (r: Option<Rule>)
  {
    var names := SignalNames(ev.observations);
    if BrowserFailed(names) && ProxyEnabled(names) && "proxy_bypass_succeeded" in names then Some(BypassSucceeded)
    else if ev.proxyReenabledAfterSoak then Some(ReenabledAfterSoak)
    else if ProxyEnabled(names) && ev.suspiciousPersistence then Some(SuspiciousProxy)
    else None
  }

  function RuleSeverity(rule: Rule): (s: Severity)
  {
    if rule == BypassSucceeded then Medium else High
  }

  datatype Limitation = WeakEvidenceCap | ObservationsOnly

  function Limitations(weak: bool, level: Level): (notes: seq<Limitation>)
  {
    (if weak then [WeakEvidenceCap] else []) + (if level == Observed then [ObservationsOnly] else [])
  }

  function Candidate(ev: Evidence, freshId: string, now: string): (r: Option<IncidentRow>)
    ensures r.Some? ==> r.value.id == freshId && r.value.state == Open && r.value.severity != Critical
  {
    var m := MatchRule(ev);
    if m.None? then None
    else
      var severity := RuleSeverity(m.value);
      var weak := ev.evidenceLevel in {Observed, Inferred} && severity == Critical;
      Some(IncidentRow(
        freshId, ev.endpointId, m.value, Open, if weak then High else severity, ev.evidenceLevel, now, now,
        SortedSet(SignalNames(ev.observations)), Limitations(weak, ev.evidenceLevel), ""))
  }

  /**
   An incident is opened exactly when a soak failure is reported or the proxy is on together with a
   persistence hint or a browser failure that a bypass cured.
   */
  lemma CandidateOpens(ev: Evidence, freshId: string, now: string)
    ensures var names := SignalNames(ev.observations);
            Candidate(ev, freshId, now).Some?
            <==> || ev.proxyReenabledAfterSoak
                 || (AnyContains(names, "proxy_enabled")
                     && (ev.suspiciousPersistence || Bypassed(names)))
  {
    SubstringsSuffice(SignalNames(ev.observations));
  }

  /** A browser failure that a bypass of the proxy cured. */
  ghost predicate Bypassed(names: set<string>)
  {
    AnyContains(names, "browser") && "proxy_bypass_succeeded" in names
  }

  /** The exact names the rules look for already contain the parts they look for. */
  lemma SubstringsSuffice(names: set<string>)
    ensures BrowserFailed(names) <==> AnyContains(names, "browser")
    ensures ProxyEnabled(names) <==> AnyContains(names, "proxy_enabled")
  {
    forall n | n in names && n == "browser_https_failed" ensures Contains(n, "browser") { BrowserName(n); }
    forall n | n in names && n == "wininet_proxy_enabled" ensures Contains(n, "proxy_enabled") { ProxyName(n); }
  }

  lemma BrowserName(n: string)
    requires n == "browser_https_failed"
    ensures Contains(n, "browser")
  {
    assert n == "" + "browser" + "_https_failed";
    ContainsMiddle(n, "", "browser", "_https_failed");
  }

  lemma ProxyName(n: string)
    requires n == "wininet_proxy_enabled"
    ensures Contains(n, "proxy_enabled")
  {
    assert n == "wininet_" + "proxy_enabled" + "";
    ContainsMiddle(n, "wininet_", "proxy_enabled", "");
  }

  /** Medium exactly for a bypassed proxy, high otherwise. */
  lemma CandidateSeverity(ev: Evidence, freshId: string, now: string)
    ensures var names := SignalNames(ev.observations);
            var r := Candidate(ev, freshId, now);
            r.Some? ==>
            (if AnyContains(names, "proxy_enabled") && Bypassed(names) then r.value.severity == Medium
             else r.value.severity == High)
  {
    SubstringsSuffice(SignalNames(ev.observations));
  }

  /** The row is about the reported endpoint and was made now. */
  lemma CandidateStamp(ev: Evidence, freshId: string, now: string)
    ensures var r := Candidate(ev, freshId, now);
            r.Some? ==>
            && r.value.endpointId == ev.endpointId && r.value.evidenceLevel == ev.evidenceLevel
            && r.value.createdAt == r.value.updatedAt == now
            && (r.value.title == BypassSucceeded <==> r.value.severity == Medium)
            && (r.value.title == ReenabledAfterSoak ==> ev.proxyReenabledAfterSoak)
            && (ev.proxyReenabledAfterSoak ==> r.value.title != SuspiciousProxy)
  {
  }

  /** An opened incident is medium or high, and the cap on weak evidence never applies. */
  lemma CandidateMeaning(ev: Evidence, freshId: string, now: string)
    ensures var r := Candidate(ev, freshId, now);
            r.Some? ==>
            && r.value.severity in {Medium, High}
            && WeakEvidenceCap !in r.value.limitations
            && (ObservationsOnly in r.value.limitations <==> ev.evidenceLevel == Observed)
  {
    LimitationsNoted(ev.evidenceLevel);
    var r := Candidate(ev, freshId, now);
    assert r.Some? ==> r.value.limitations == Limitations(false, ev.evidenceLevel);
  }

  /** The row lists exactly the named signals. */
  lemma CandidateSignals(ev: Evidence, freshId: string, now: string)
    ensures var r := Candidate(ev, freshId, now);
            r.Some? ==> forall s :: s in r.value.signals <==> s != "" && Named(ev.observations, s)
  {
  }

  /** Some observation goes by this name; its signal names it only when it has no name. */
  ghost predicate Named(obs: seq<Observation>, s: string)
  {
    exists o :: o in obs && s == (if o.name != "" then o.name else o.signal)
  }

  lemma LimitationsNoted(level: Level)
    ensures WeakEvidenceCap !in Limitations(false, level)
    ensures ObservationsOnly in Limitations(false, level) <==> level == Observed
  {
  }

  // ----- the log as a state machine -----

  function RowId(r: IncidentRow): (id: string) { r.id }

  datatype Error = NotFound | InvalidTransition(from: IncidentState, to: IncidentState)

  datatype Outcome = Done(row: IncidentRow) | Failed(error: Error)

  /** What `apply_transition` answers; the log grows by the answered row. */
  function Transition(log: seq<IncidentRow>, id: string, to: IncidentState, actor: string, now: string): (o: Outcome)
  {
    var current := Latest(log, RowId, id);
    if current.None? then Failed(NotFound)
    else if !CanTransition(current.value.state, to) then Failed(InvalidTransition(current.value.state, to))
    else Done(current.value.(state := to, updatedAt := now, actor := actor))
  }

  datatype Call =
    | Create(evidence: Evidence, freshId: string, now: string)
    | Move(id: string, to: IncidentState, actor: string, now: string)

  function Step(log: seq<IncidentRow>, call: Call): (next: seq<IncidentRow>)
  {
    match call
    case Create(ev, id, now) =>
      var r := Candidate(ev, id, now);
      if r.Some? then log + [r.value] else log
    case Move(id, to, actor, now) =>
      var o := Transition(log, id, to, actor, now);
      if o.Done? then log + [o.row] else log
  }

  function Run(calls: seq<Call>): (log: seq<IncidentRow>)
  {
    if calls == [] then [] else Step(Run(calls[..|calls| - 1]), calls[|calls| - 1])
  }

  /** Every creation uses an id that is not in the log yet, as `uuid4` provides. */
  ghost predicate FreshIds(calls: seq<Call>)
  {
    forall i :: 0 <= i < |calls| && calls[i].Create? ==> Latest(Run(calls[..i]), RowId, calls[i].freshId).None?
  }

  function RowsFor(log: seq<IncidentRow>, id: string): (rows: seq<IncidentRow>)
  {
    Filter(log, HasId(RowId, id))
  }

  /** The life of one incident: opened once, then allowed moves that change only state, time and actor. */
  ghost predicate Lifecycle(rows: seq<IncidentRow>)
  {
    && (rows != [] ==> rows[0].state == Open && rows[0].severity != Critical)
    && forall i :: 0 < i < |rows| ==>
         && CanTransition(rows[i - 1].state, rows[i].state)
         && rows[i] == rows[i - 1].(state := rows[i].state, updatedAt := rows[i].updatedAt, actor := rows[i].actor)
  }

  lemma RowsForSnoc(log: seq<IncidentRow>, r: IncidentRow, id: string)
    ensures RowsFor(log + [r], id) == RowsFor(log, id) + (if r.id == id then [r] else [])
  {
    FilterIdSnoc(log, r, RowId, id);
  }

  lemma LifecycleSnoc(rows: seq<IncidentRow>, r: IncidentRow)
    requires Lifecycle(rows)
    requires if rows == [] then r.state == Open && r.severity != Critical
             else var last := rows[|rows| - 1];
               && CanTransition(last.state, r.state)
               && r == last.(state := r.state, updatedAt := r.updatedAt, actor := r.actor)
    ensures Lifecycle(rows + [r])
  {
    var all := rows + [r];
    forall i | 0 < i < |all|
      ensures CanTransition(all[i - 1].state, all[i].state)
           && all[i] == all[i - 1].(state := all[i].state, updatedAt := all[i].updatedAt, actor := all[i].actor)
    {
      assert all[i - 1] == rows[i - 1];
    }
  }

  /** The current row is the last of the incident's rows. */
  lemma CurrentIsLast(log: seq<IncidentRow>, id: string)
    ensures Latest(log, RowId, id) == var rows := RowsFor(log, id); if rows == [] then None else Some(rows[|rows| - 1])
  {
    LastOfFilter(log, HasId(RowId, id));
  }

  lemma OpeningKeepsLifecycle(log: seq<IncidentRow>, r: IncidentRow, id: string)
    requires Lifecycle(RowsFor(log, id)) && Latest(log, RowId, r.id).None?
    requires r.state == Open && r.severity != Critical
    ensures Lifecycle(RowsFor(log + [r], id))
  {
    RowsForSnoc(log, r, id);
    if r.id == id {
      CurrentIsLast(log, id);
      LifecycleSnoc(RowsFor(log, id), r);
    }
  }

  lemma CreateKeepsLifecycle(log: seq<IncidentRow>, ev: Evidence, newId: string, now: string, id: string)
    requires Lifecycle(RowsFor(log, id)) && Latest(log, RowId, newId).None?
    ensures Lifecycle(RowsFor(Step(log, Create(ev, newId, now)), id))
  {
    var r := Candidate(ev, newId, now);
    if r.Some? { OpeningKeepsLifecycle(log, r.value, id); }
  }

  lemma MoveKeepsLifecycle(
      log: seq<IncidentRow>, target: string, to: IncidentState, actor: string, now: string, id: string)
    requires Lifecycle(RowsFor(log, id))
    ensures Lifecycle(RowsFor(Step(log, Move(target, to, actor, now)), id))
  {
    var o := Transition(log, target, to, actor, now);
    if o.Done? {
      RowsForSnoc(log, o.row, id);
      if target == id {
        CurrentIsLast(log, id);
        LifecycleSnoc(RowsFor(log, id), o.row);
      }
    }
  }

  /** Over every run with fresh ids, each incident's rows are a lifecycle. */
  lemma {:induction false} RunsAreLifecycles(calls: seq<Call>, id: string)
    requires FreshIds(calls)
    ensures Lifecycle(RowsFor(Run(calls), id))
  {
    if calls != [] {
      var rest, last := calls[..|calls| - 1], calls[|calls| - 1];
      assert forall i :: 0 <= i < |rest| ==> rest[..i] == calls[..i];
      RunsAreLifecycles(rest, id);
      match last {
        case Create(ev, newId, now) => CreateKeepsLifecycle(Run(rest), ev, newId, now, id);
        case Move(target, to, actor, now) => MoveKeepsLifecycle(Run(rest), target, to, actor, now, id);
      }
    }
  }

  function Rank(s: IncidentState): (n: nat)
    ensures n <= 3
  {
    match s
    case Open => 0
    case Acknowledged => 1
    case Mitigated => 2
    case _ => 3
  }

  /** A move is allowed exactly when it raises the rank. */
  lemma MovesRaiseRank(from: IncidentState, to: IncidentState)
    ensures CanTransition(from, to) <==> Rank(from) < Rank(to)
  {
  }

  predicate Terminal(s: IncidentState) { s == Resolved || s == FalsePositive }

  lemma {:induction false} RankGrows(rows: seq<IncidentRow>, i: nat)
    requires Lifecycle(rows) && i < |rows|
    ensures i <= Rank(rows[i].state)
  {
    if i > 0 { RankGrows(rows, i - 1); }
  }

  lemma {:induction false} NeverCritical(rows: seq<IncidentRow>, i: nat)
    requires Lifecycle(rows) && i < |rows|
    ensures rows[i].severity == rows[0].severity != Critical && rows[i].createdAt == rows[0].createdAt
    ensures rows[i].endpointId == rows[0].endpointId && rows[i].signals == rows[0].signals
  {
    if i > 0 { NeverCritical(rows, i - 1); }
  }

  /** An incident has at most four rows, a terminal row is its last, and no row is ever critical. */
  lemma IncidentBounds(calls: seq<Call>, id: string)
    requires FreshIds(calls)
    ensures var rows := RowsFor(Run(calls), id);
            && |rows| <= 4
            && (forall i :: 0 <= i < |rows| && Terminal(rows[i].state) ==> i == |rows| - 1)
            && (forall i :: 0 <= i < |rows| ==> rows[i].severity != Critical)
  {
    var rows := RowsFor(Run(calls), id);
    RunsAreLifecycles(calls, id);
    if rows != [] { RankGrows(rows, |rows| - 1); }
    forall i | 0 <= i < |rows| ensures rows[i].severity != Critical { NeverCritical(rows, i); }
    forall i | 0 <= i < |rows| - 1 ensures !Terminal(rows[i].state) {
      assert CanTransition(rows[i + 1 - 1].state, rows[i + 1].state);
    }
  }

  /** A move succeeds exactly when the incident exists and its current state allows it, and then it is current. */
  lemma MoveExactly(log: seq<IncidentRow>, id: string, to: IncidentState, actor: string, now: string)
    ensures var next := Step(log, Move(id, to, actor, now));
            var current := Latest(log, RowId, id);
            if current.Some? && Rank(current.value.state) < Rank(to)
            then |next| == |log| + 1 && log <= next && Latest(next, RowId, id).Some?
                 && Latest(next, RowId, id).value.state == to
                 && Latest(next, RowId, id).value.updatedAt == now && Latest(next, RowId, id).value.actor == actor
                 && Latest(next, RowId, id).value.title == current.value.title
                 && Latest(next, RowId, id).value.severity == current.value.severity
                 && (forall other :: other != id ==> Latest(next, RowId, other) == Latest(log, RowId, other))
            else next == log
  {
    var o := Transition(log, id, to, actor, now);
    if Latest(log, RowId, id).Some? { MovesRaiseRank(Latest(log, RowId, id).value.state, to); }
    if o.Done? {
      forall k ensures Latest(log + [o.row], RowId, k) == if o.row.id == k then Some(o.row) else Latest(log, RowId, k) {
        LatestSnoc(log, o.row, RowId, k);
      }
    }
  }

  // ----- the store -----

  predicate UpdatedLe(a: IncidentRow, b: IncidentRow) { StrLe(a.updatedAt, b.updatedAt) }

  /** A log in which every incident's rows are a lifecycle. */
  ghost predicate Sound(log: seq<IncidentRow>)
  {
    forall id :: Lifecycle(RowsFor(log, id))
  }

  lemma CreateKeepsSound(log: seq<IncidentRow>, ev: Evidence, newId: string, now: string)
    requires Sound(log) && Latest(log, RowId, newId).None?
    ensures Sound(Step(log, Create(ev, newId, now)))
  {
    forall id ensures Lifecycle(RowsFor(Step(log, Create(ev, newId, now)), id)) {
      CreateKeepsLifecycle(log, ev, newId, now, id);
    }
  }

  lemma MoveKeepsSound(log: seq<IncidentRow>, target: string, to: IncidentState, actor: string, now: string)
    requires Sound(log)
    ensures Sound(Step(log, Move(target, to, actor, now)))
  {
    forall id ensures Lifecycle(RowsFor(Step(log, Move(target, to, actor, now)), id)) {
      MoveKeepsLifecycle(log, target, to, actor, now, id);
    }
  }

  /** The rows stand by ascending time of their last update. */
  ghost predicate ByUpdate(rows: seq<IncidentRow>)
  {
    forall i, j :: 0 <= i < j < |rows| ==> StrLe(rows[i].updatedAt, rows[j].updatedAt)
  }

  lemma SortedByUpdate(rows: seq<IncidentRow>)
    ensures ByUpdate(Sort(rows, UpdatedLe))
  {
    StrLePreorder();
    SortSorted(rows, UpdatedLe);
    var out := Sort(rows, UpdatedLe);
    assert forall i, j :: 0 <= i < j < |out| ==> UpdatedLe(out[i], out[j]);
  }

  /** Sorting the listing keeps what it holds. */
  lemma ListedRows(log: seq<IncidentRow>, order: seq<string>, rows: seq<IncidentRow>, out: seq<IncidentRow>)
    requires order == Ids(log, RowId) && |rows| == |order| && multiset(out) == multiset(rows)
    requires forall i :: 0 <= i < |rows| ==> Latest(log, RowId, order[i]) == Some(rows[i])
    ensures forall r :: r in out ==> r.id != "" && Latest(log, RowId, r.id) == Some(r)
    ensures forall k :: k in order ==> exists r :: r in out && r.id == k
  {
    MultisetMembers(out, rows);
    forall r | r in out ensures r.id != "" && Latest(log, RowId, r.id) == Some(r) {
      var i :| 0 <= i < |rows| && rows[i] == r;
      assert order[i] in order;
    }
    forall k | k in order ensures exists r :: r in out && r.id == k {
      var i :| 0 <= i < |order| && order[i] == k;
      assert rows[i] in rows;
    }
  }

  class IncidentStore {
    var log: seq<IncidentRow>

    ghost predicate Valid()
      reads this
    {
      Sound(log)
    }

    constructor ()
      ensures Valid() && log == []
    {
      log := [];
    }

    /** `evaluate_incident_candidate`. */
    method EvaluateCandidate(ev: Evidence, freshId: string, now: string) returns (created: Option<IncidentRow>)
      modifies this
      ensures log == Step(old(log), Create(ev, freshId, now))
      ensures created.Some? <==> MatchRule(ev).Some?
      ensures created.Some? ==> created.value.state == Open && Latest(log, RowId, freshId) == created
      ensures created.None? ==> log == old(log)
      ensures forall other :: other != freshId ==> Latest(log, RowId, other) == Latest(old(log), RowId, other)
      ensures old(Valid()) && Latest(old(log), RowId, freshId).None? ==> Valid()
    {
      if Sound(log) && Latest(log, RowId, freshId).None? { CreateKeepsSound(log, ev, freshId, now); }
      created := Candidate(ev, freshId, now);
      if created.Some? {
        forall k
          ensures Latest(log + [created.value], RowId, k) == if freshId == k then created else Latest(log, RowId, k)
        {
          LatestSnoc(log, created.value, RowId, k);
        }
        log := log + [created.value];
      }
    }

    /** `get_incident`. */
    method GetIncident(id: string) returns (row: Option<IncidentRow>)
      ensures row == Latest(log, RowId, id)
    {
      row := FindLast(log, HasId(RowId, id));
    }

    /** `transition_incident`, which reads the current row again before appending. */
    method TransitionIncident(id: string, to: IncidentState, actor: string, now: string) returns (o: Outcome)
      modifies this
      ensures Latest(old(log), RowId, id).None? ==> o == Failed(NotFound) && log == old(log)
      ensures var current := Latest(old(log), RowId, id);
              current.Some? ==>
              o == Done(current.value.(state := to, updatedAt := now, actor := actor)) && log == old(log) + [o.row]
    {
      var current := GetIncident(id);
      if current.None? {
        return Failed(NotFound);
      }
      o := Done(current.value.(state := to, updatedAt := now, actor := actor));
      log := log + [o.row];
    }

    /** `apply_transition`. */
    method ApplyTransition(id: string, to: IncidentState, actor: string, now: string) returns (o: Outcome)
      modifies this
      ensures log == Step(old(log), Move(id, to, actor, now))
      ensures o == Transition(old(log), id, to, actor, now)
      ensures o.Failed? ==> log == old(log)
      ensures old(Valid()) ==> Valid()
    {
      if Sound(log) { MoveKeepsSound(log, id, to, actor, now); }
      var current := GetIncident(id);
      if current.None? {
        return Failed(NotFound);
      }
      if !CanTransition(current.value.state, to) {
        return Failed(InvalidTransition(current.value.state, to));
      }
      o := TransitionIncident(id, to, actor, now);
    }

    /** `list_incident_rows`: the current row of every incident, oldest update first. */
    method ListIncidentRows() returns (out: seq<IncidentRow>)
      ensures |out| == |Ids(log, RowId)|
      ensures forall r :: r in out ==> r.id != "" && Latest(log, RowId, r.id) == Some(r)
      ensures forall k :: k in Ids(log, RowId) ==> exists r :: r in out && r.id == k
      ensures ByUpdate(out)
    {
      var order, rows := ListLatest(log, RowId);
      out := Sort(rows, UpdatedLe);
      SortedByUpdate(rows);
      ListedRows(log, order, rows, out);
    }
  }
}
