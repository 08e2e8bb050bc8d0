/**
 The fleet store (platform_core/fleet_store.py): every heartbeat is merged with the endpoint's
 latest record and appended to a log; the latest row of an endpoint is its record.
 */
module FleetStore {
  import opened Logs
  import opened Ordering
  import opened Text

  /** The keys a heartbeat may carry: canonical fields, their legacy aliases, and anything else. */
  datatype Key =
    | EndpointIdKey
    | Hostname | HostnameHash
    | OsName | OsFamily
    | AgentVersion
    | FirstSeen | FirstSeenAt
    | LastSeen | LastSeenAt | Timestamp
    | LatestSnapshotId | SnapshotId
    | LatestDiagnosisId | DiagnosisId
    | RiskState | Status
    | OtherKey(name: string)

  type Row = map<Key, string>

  datatype EndpointRecord = EndpointRecord(
    endpointId: string,
    hostname: string,
    osName: string,
    agentVersion: string,
    firstSeen: string,
    lastSeen: string,
    snapshotId: string,
    diagnosisId: string,
    riskState: string)

  /** `row.get(key)`, with the empty string for a missing or empty value. */
  function Get(row: Row, key: Key): (v: string)
  {
    if key in row then row[key] else ""
  }

  /** Python's `a or b` on text. */
  function Or(a: string, b: string): (r: string)
  {
    if a != "" then a else b
  }

  predicate KnownRisk(r: string)
  {
    r in {"healthy", "degraded", "incident_open", "unknown"}
  }

  function CoerceRisk(value: string): (r: string)
    ensures KnownRisk(r)
  {
    var raw := Lower(Or(value, "unknown"));
    if KnownRisk(raw) then raw else "unknown"
  }

  /** The four risk states in any case stand for themselves, and everything else for "unknown". */
  lemma RiskMeaning(value: string)
    ensures var w := Lower(value);
            CoerceRisk(value)
            == if w == "healthy" || w == "degraded" || w == "incident_open" then w else "unknown"
  {
    if value == "" { assert Lower(value) == ""; }
    LowerFixed("unknown");
  }

  function RecordFromRow(row: Row): (r: EndpointRecord)
  {
    EndpointRecord(
      Get(row, EndpointIdKey),
      Or(Get(row, Hostname), Get(row, HostnameHash)),
      Or(Get(row, OsName), Get(row, OsFamily)),
      Get(row, AgentVersion),
      Or(Get(row, FirstSeen), Or(Get(row, FirstSeenAt), Get(row, LastSeenAt))),
      Or(Get(row, LastSeen), Get(row, LastSeenAt)),
      Or(Get(row, LatestSnapshotId), Get(row, SnapshotId)),
      Or(Get(row, LatestDiagnosisId), Get(row, DiagnosisId)),
      CoerceRisk(Or(Get(row, RiskState), Get(row, Status))))
  }

  function SummaryRow(r: EndpointRecord): (row: Row)
  {
    map[
      EndpointIdKey := r.endpointId, Hostname := r.hostname, OsName := r.osName, AgentVersion := r.agentVersion,
      FirstSeen := r.firstSeen, LastSeen := r.lastSeen, LatestSnapshotId := r.snapshotId,
      LatestDiagnosisId := r.diagnosisId, RiskState := r.riskState]
  }

  function EndpointIdOf(row: Row): (id: string)
  {
    Get(row, EndpointIdKey)
  }

  /** The row `append_heartbeat` writes; `now` is the clock reading it falls back to. */
  function Merge(existing: Option<EndpointRecord>, row: Row, now: string): (m: Row)
  {
    var base: Row := if existing.Some? then SummaryRow(existing.value) else map[];
    var first := if existing.Some? then existing.value.firstSeen else Or(Get(row, FirstSeen), Get(row, LastSeenAt));
    var last := Or(Get(row, LastSeen), Or(Get(row, LastSeenAt), Get(row, Timestamp)));
    Stamped(base + row, EndpointIdOf(row), if first != "" then first else Or(last, now), last)
  }

  /** A row with the three fields that every merge overwrites. */
  function Stamped(row: Row, id: string, first: string, last: string): (r: Row)
  {
    row + map[EndpointIdKey := id, FirstSeen := first, LastSeen := last]
  }

  lemma Restamped(row: Row, id: string, first: string, last: string, other: string)
    ensures Get(Stamped(row, id, first, last), FirstSeen) == first
    ensures Get(Stamped(row, id, first, last), LastSeen) == last
    ensures Stamped(row, id, first, last)[FirstSeen := other] == Stamped(row, id, other, last)
  {
  }

  datatype Heartbeat = Heartbeat(row: Row, now: string)

  // ----- the reference: one endpoint on its own -----

  /** A canonical field after a heartbeat: an explicit value replaces it, and an alias fills it while it is empty. */
  function FieldAfter(previous: string, row: Row, key: Key, aliasKey: Key): (v: string)
  {
    Or(if key in row then row[key] else previous, Get(row, aliasKey))
  }

  function RecordAfter(prev: Option<EndpointRecord>, hb: Heartbeat): (r: EndpointRecord)
  {
    var row := hb.row;
    var was := if prev.Some? then prev.value else EndpointRecord("", "", "", "", "", "", "", "", "");
    var last := Or(Get(row, LastSeen), Or(Get(row, LastSeenAt), Get(row, Timestamp)));
    var start := if prev.Some? then was.firstSeen else Or(Get(row, FirstSeen), Get(row, LastSeenAt));
    EndpointRecord(
      EndpointIdOf(row),
      FieldAfter(was.hostname, row, Hostname, HostnameHash),
      FieldAfter(was.osName, row, OsName, OsFamily),
      if AgentVersion in row then row[AgentVersion] else was.agentVersion,
      Or(start, Or(last, Or(hb.now, Or(Get(row, FirstSeenAt), Get(row, LastSeenAt))))),
      last,
      FieldAfter(was.snapshotId, row, LatestSnapshotId, SnapshotId),
      FieldAfter(was.diagnosisId, row, LatestDiagnosisId, DiagnosisId),
      CoerceRisk(FieldAfter(was.riskState, row, RiskState, Status)))
  }

  /** The fleet log as a merging store. */
  const FLEET: MergeStore<Heartbeat, Row, EndpointRecord> := MergeStore(
    (hb: Heartbeat) => EndpointIdOf(hb.row),
    EndpointIdOf,
    RecordFromRow,
    (prev: Option<EndpointRecord>, hb: Heartbeat) => Merge(prev, hb.row, hb.now),
    RecordAfter)

  function GetEndpoint(log: seq<Row>, id: string): (r: Option<EndpointRecord>)
  {
    Current(FLEET, log, id)
  }

  function Run(hbs: seq<Heartbeat>): (log: seq<Row>)
  {
    StoreRun(FLEET, hbs)
  }

  function RecordOver(hbs: seq<Heartbeat>): (r: Option<EndpointRecord>)
    ensures r.Some? <==> hbs != []
  {
    Fold(FLEET, hbs)
  }

  function HeartbeatsOf(hbs: seq<Heartbeat>, id: string): (r: seq<Heartbeat>)
  {
    Filter(hbs, HasId(FLEET.inputId, id))
  }

  lemma MergeGet(prev: Option<EndpointRecord>, row: Row, now: string, key: Key)
    requires key !in {EndpointIdKey, FirstSeen, LastSeen}
    ensures Get(Merge(prev, row, now), key)
            == if key in row then row[key] else if prev.Some? then Get(SummaryRow(prev.value), key) else ""
  {
  }

  /** An aliased field read back from the merged row. */
  lemma MergeField(prev: Option<EndpointRecord>, row: Row, now: string, key: Key, aliasKey: Key, previous: string)
    requires key !in {EndpointIdKey, FirstSeen, LastSeen} && aliasKey !in {EndpointIdKey, FirstSeen, LastSeen}
    requires previous == if prev.Some? then Get(SummaryRow(prev.value), key) else ""
    requires prev.Some? ==> aliasKey !in SummaryRow(prev.value)
    ensures Or(Get(Merge(prev, row, now), key), Get(Merge(prev, row, now), aliasKey))
            == FieldAfter(previous, row, key, aliasKey)
  {
    MergeGet(prev, row, now, key);
    MergeGet(prev, row, now, aliasKey);
  }

  lemma MergeSpecial(prev: Option<EndpointRecord>, row: Row, now: string)
    ensures Get(Merge(prev, row, now), EndpointIdKey) == EndpointIdOf(row)
    ensures Get(Merge(prev, row, now), LastSeen)
            == Or(Get(row, LastSeen), Or(Get(row, LastSeenAt), Get(row, Timestamp)))
    ensures Get(Merge(prev, row, now), FirstSeen)
            == Or(if prev.Some? then prev.value.firstSeen else Or(Get(row, FirstSeen), Get(row, LastSeenAt)),
                  Or(Or(Get(row, LastSeen), Or(Get(row, LastSeenAt), Get(row, Timestamp))), now))
  {
  }

  lemma MergeTimes(prev: Option<EndpointRecord>, hb: Heartbeat)
    ensures var m, r := Merge(prev, hb.row, hb.now), RecordAfter(prev, hb);
            && Or(Get(m, FirstSeen), Or(Get(m, FirstSeenAt), Get(m, LastSeenAt))) == r.firstSeen
            && Or(Get(m, LastSeen), Get(m, LastSeenAt)) == r.lastSeen
  {
    MergeSpecial(prev, hb.row, hb.now);
    MergeGet(prev, hb.row, hb.now, FirstSeenAt);
    MergeGet(prev, hb.row, hb.now, LastSeenAt);
  }

  lemma MergeAgent(prev: Option<EndpointRecord>, hb: Heartbeat)
    ensures var m, r := Merge(prev, hb.row, hb.now), RecordAfter(prev, hb);
            && Get(m, AgentVersion) == r.agentVersion && Get(m, EndpointIdKey) == r.endpointId
  {
    MergeSpecial(prev, hb.row, hb.now);
    MergeGet(prev, hb.row, hb.now, AgentVersion);
  }

  lemma MergeNames(prev: Option<EndpointRecord>, hb: Heartbeat)
    ensures var m, r := Merge(prev, hb.row, hb.now), RecordAfter(prev, hb);
            && Or(Get(m, Hostname), Get(m, HostnameHash)) == r.hostname
            && Or(Get(m, OsName), Get(m, OsFamily)) == r.osName
  {
    MergeField(prev, hb.row, hb.now, Hostname, HostnameHash, if prev.Some? then prev.value.hostname else "");
    MergeField(prev, hb.row, hb.now, OsName, OsFamily, if prev.Some? then prev.value.osName else "");
  }

  lemma MergeIds(prev: Option<EndpointRecord>, hb: Heartbeat)
    ensures var m, r := Merge(prev, hb.row, hb.now), RecordAfter(prev, hb);
            && Or(Get(m, LatestSnapshotId), Get(m, SnapshotId)) == r.snapshotId
            && Or(Get(m, LatestDiagnosisId), Get(m, DiagnosisId)) == r.diagnosisId
  {
    MergeField(prev, hb.row, hb.now, LatestSnapshotId, SnapshotId, if prev.Some? then prev.value.snapshotId else "");
    MergeField(prev, hb.row, hb.now, LatestDiagnosisId, DiagnosisId, if prev.Some? then prev.value.diagnosisId else "");
  }

  lemma MergeRisk(prev: Option<EndpointRecord>, hb: Heartbeat)
    ensures var m, r := Merge(prev, hb.row, hb.now), RecordAfter(prev, hb);
            CoerceRisk(Or(Get(m, RiskState), Get(m, Status))) == r.riskState
  {
    MergeField(prev, hb.row, hb.now, RiskState, Status, if prev.Some? then prev.value.riskState else "");
  }

  /** Merging into the summary row and reading the record back is the field-by-field update. */
  lemma MergeIsUpdate(prev: Option<EndpointRecord>, hb: Heartbeat)
    ensures RecordFromRow(Merge(prev, hb.row, hb.now)) == RecordAfter(prev, hb)
  {
    MergeTimes(prev, hb);
    MergeAgent(prev, hb);
    MergeNames(prev, hb);
    MergeIds(prev, hb);
    MergeRisk(prev, hb);
  }

  lemma FleetWellBehaved()
    ensures WellBehaved(FLEET)
  {
    forall prev: Option<EndpointRecord>, hb: Heartbeat
      ensures FLEET.rowId(FLEET.merge(prev, hb)) == FLEET.inputId(hb)
           && FLEET.record(FLEET.merge(prev, hb)) == FLEET.update(prev, hb)
    {
      MergeIsUpdate(prev, hb);
    }
  }

  /** Whatever the interleaving, an endpoint's record is the fold of its own heartbeats. */
  lemma EndpointsAreIndependent(hbs: seq<Heartbeat>, id: string)
    requires id != ""
    ensures GetEndpoint(Run(hbs), id) == RecordOver(HeartbeatsOf(hbs, id))
  {
    FleetWellBehaved();
    RecordsAreIndependent(FLEET, hbs, id);
  }

  // ----- consequences -----

  ghost predicate ClockWorks(hbs: seq<Heartbeat>)
  {
    forall i :: 0 <= i < |hbs| ==> hbs[i].now != ""
  }

  /** `first_seen` is set by the first heartbeat, is not empty, and never changes afterwards. */
  lemma {:induction false} FirstSeenIsFixed(hbs: seq<Heartbeat>)
    requires hbs != [] && ClockWorks(hbs)
    ensures RecordOver(hbs).value.firstSeen != ""
    ensures RecordOver(hbs).value.firstSeen == RecordAfter(None, hbs[0]).firstSeen
  {
    var rest := hbs[..|hbs| - 1];
    if rest != [] {
      FirstSeenIsFixed(rest);
      assert rest[0] == hbs[0];
    } else {
      assert hbs[|hbs| - 1] == hbs[0] && RecordOver(rest) == None;
    }
  }

  /** For every run: once an endpoint has reported, its `first_seen` is that of its first heartbeat. */
  lemma FirstSeenOverRuns(hbs: seq<Heartbeat>, id: string)
    requires id != "" && ClockWorks(hbs) && HeartbeatsOf(hbs, id) != []
    ensures var r := GetEndpoint(Run(hbs), id);
            && r.Some? && r.value.firstSeen != ""
            && r.value.firstSeen == RecordAfter(None, HeartbeatsOf(hbs, id)[0]).firstSeen
  {
    EndpointsAreIndependent(hbs, id);
    var mine := HeartbeatsOf(hbs, id);
    forall i | 0 <= i < |mine| ensures mine[i].now != "" {
      assert mine[i] in mine;
    }
    FirstSeenIsFixed(mine);
  }

  /** The canonical fields other than the two times. */
  datatype Field = HostnameField | OsField | AgentField | SnapshotField | DiagnosisField | RiskField

  function KeyOf(f: Field): (k: Key)
  {
    match f
    case HostnameField => Hostname
    case OsField => OsName
    case AgentField => AgentVersion
    case SnapshotField => LatestSnapshotId
    case DiagnosisField => LatestDiagnosisId
    case RiskField => RiskState
  }

  function ValueOf(r: EndpointRecord, f: Field): (v: string)
  {
    match f
    case HostnameField => r.hostname
    case OsField => r.osName
    case AgentField => r.agentVersion
    case SnapshotField => r.snapshotId
    case DiagnosisField => r.diagnosisId
    case RiskField => r.riskState
  }

  lemma OmittedStep(prev: Option<EndpointRecord>, mid: Heartbeat, hb: Heartbeat, f: Field)
    requires var r := RecordAfter(prev, mid); ValueOf(r, f) != "" && KeyOf(f) !in hb.row
    ensures var r := RecordAfter(prev, mid); ValueOf(RecordAfter(Some(r), hb), f) == ValueOf(r, f)
  {
    if f.RiskField? { CoerceIdempotent(RecordAfter(prev, mid).riskState); }
  }

  lemma OmittedOnce(hbs: seq<Heartbeat>, hb: Heartbeat, f: Field)
    requires hbs != [] && ValueOf(RecordOver(hbs).value, f) != "" && KeyOf(f) !in hb.row
    ensures RecordOver(hbs + [hb]).Some?
            && ValueOf(RecordOver(hbs + [hb]).value, f) == ValueOf(RecordOver(hbs).value, f)
  {
    FoldSnoc(FLEET, hbs, hb);
    OmittedStep(RecordOver(hbs[..|hbs| - 1]), hbs[|hbs| - 1], hb, f);
  }

  /** A canonical field keeps its last value while heartbeats omit its key, even if they carry its alias. */
  lemma {:induction false} OmittedFieldKept(hbs: seq<Heartbeat>, later: seq<Heartbeat>, f: Field)
    requires hbs != [] && ValueOf(RecordOver(hbs).value, f) != ""
    requires forall i :: 0 <= i < |later| ==> KeyOf(f) !in later[i].row
    ensures RecordOver(hbs + later).Some?
            && ValueOf(RecordOver(hbs + later).value, f) == ValueOf(RecordOver(hbs).value, f)
  {
    if later == [] {
      assert hbs + later == hbs;
    } else {
      var init, hb := later[..|later| - 1], later[|later| - 1];
      OmittedFieldKept(hbs, init, f);
      assert hbs + later == (hbs + init) + [hb];
      OmittedOnce(hbs + init, hb, f);
    }
  }

  lemma HeartbeatsAppend(hbs: seq<Heartbeat>, later: seq<Heartbeat>, id: string)
    ensures HeartbeatsOf(hbs + later, id) == HeartbeatsOf(hbs, id) + HeartbeatsOf(later, id)
  {
    FilterAppend(hbs, later, HasId(FLEET.inputId, id));
  }

  /** Over every run: while an endpoint's later heartbeats omit a field that is set, its record keeps it. */
  lemma OmittedFieldOverRuns(hbs: seq<Heartbeat>, later: seq<Heartbeat>, id: string, f: Field)
    requires id != "" && GetEndpoint(Run(hbs), id).Some? && ValueOf(GetEndpoint(Run(hbs), id).value, f) != ""
    requires forall i :: 0 <= i < |later| && EndpointIdOf(later[i].row) == id ==> KeyOf(f) !in later[i].row
    ensures var r := GetEndpoint(Run(hbs + later), id);
            r.Some? && ValueOf(r.value, f) == ValueOf(GetEndpoint(Run(hbs), id).value, f)
  {
    EndpointsAreIndependent(hbs, id);
    EndpointsAreIndependent(hbs + later, id);
    HeartbeatsAppend(hbs, later, id);
    var mine := HeartbeatsOf(later, id);
    forall i | 0 <= i < |mine| ensures KeyOf(f) !in mine[i].row {
      assert mine[i] in mine;
    }
    OmittedFieldKept(HeartbeatsOf(hbs, id), mine, f);
  }

  /** The legacy key that can fill a field, for the fields that have one and are stored as sent. */
  function AliasOf(f: Field): (k: Option<Key>)
  {
    match f
    case HostnameField => Some(HostnameHash)
    case OsField => Some(OsFamily)
    case SnapshotField => Some(SnapshotId)
    case DiagnosisField => Some(DiagnosisId)
    case AgentField => None
    case RiskField => None
  }

  /** The value an endpoint's record has for a field; empty before its first heartbeat. */
  function StoredValue(log: seq<Row>, id: string, f: Field): (v: string)
  {
    var r := GetEndpoint(log, id);
    if r.Some? then ValueOf(r.value, f) else ""
  }

  lemma FieldStep(prev: Option<EndpointRecord>, hb: Heartbeat, f: Field)
    requires AliasOf(f).Some?
    ensures ValueOf(RecordAfter(prev, hb), f)
            == FieldAfter(if prev.Some? then ValueOf(prev.value, f) else "", hb.row, KeyOf(f), AliasOf(f).value)
  {
  }

  lemma NextRecord(hbs: seq<Heartbeat>, hb: Heartbeat)
    requires EndpointIdOf(hb.row) != ""
    ensures var id := EndpointIdOf(hb.row);
            GetEndpoint(Run(hbs + [hb]), id) == Some(RecordAfter(GetEndpoint(Run(hbs), id), hb))
  {
    var id := EndpointIdOf(hb.row);
    EndpointsAreIndependent(hbs, id);
    EndpointsAreIndependent(hbs + [hb], id);
    FilterIdSnoc(hbs, hb, FLEET.inputId, id);
    FoldSnoc(FLEET, HeartbeatsOf(hbs, id), hb);
  }

  /**
   Over every run: an alias that brings a new value reaches the stored record exactly when the heartbeat
   blanks the canonical field, or omits it while none is stored.
   */
  lemma AliasEffective(hbs: seq<Heartbeat>, hb: Heartbeat, f: Field)
    requires EndpointIdOf(hb.row) != "" && AliasOf(f).Some?
    ensures var id, sent := EndpointIdOf(hb.row), Get(hb.row, AliasOf(f).value);
            var before := StoredValue(Run(hbs), id, f);
            sent != "" && sent != before && sent != Get(hb.row, KeyOf(f)) ==>
            (StoredValue(Run(hbs + [hb]), id, f) == sent
             <==> if KeyOf(f) in hb.row then hb.row[KeyOf(f)] == "" else before == "")
  {
    NextRecord(hbs, hb);
    FieldStep(GetEndpoint(Run(hbs), EndpointIdOf(hb.row)), hb, f);
  }

  /** The first of these values that is not empty. */
  function FirstSet(values: seq<string>): (v: string)
  {
    if values == [] then "" else if values[0] != "" then values[0] else FirstSet(values[1..])
  }

  lemma FirstSetOf(a: string, b: string, c: string, d: string, e: string)
    ensures FirstSet([a, b, c]) == Or(a, Or(b, c))
    ensures FirstSet([a, b, c, d, e]) == Or(a, Or(b, Or(c, Or(d, e))))
  {
    FirstSetCons(e, []);
    FirstSetCons(d, [e]);
    FirstSetCons(c, [d, e]);
    FirstSetCons(b, [c, d, e]);
    FirstSetCons(a, [b, c, d, e]);
    FirstSetCons(c, []);
    FirstSetCons(b, [c]);
    FirstSetCons(a, [b, c]);
    assert [e] + [] == [e] && [c] + [] == [c];
  }

  lemma FirstSetCons(x: string, rest: seq<string>)
    ensures FirstSet([x] + rest) == Or(x, FirstSet(rest))
  {
    assert ([x] + rest)[1..] == rest;
  }

  /** Over every run: a heartbeat sets `last_seen` from its own times, and the first one also `first_seen`. */
  lemma TimesOverRuns(hbs: seq<Heartbeat>, hb: Heartbeat)
    requires EndpointIdOf(hb.row) != "" && hb.now != ""
    ensures var id := EndpointIdOf(hb.row);
            var next := GetEndpoint(Run(hbs + [hb]), id);
            && next.Some? && next.value.endpointId == id
            && next.value.lastSeen == FirstSet([Get(hb.row, LastSeen), Get(hb.row, LastSeenAt), Get(hb.row, Timestamp)])
            && (GetEndpoint(Run(hbs), id).None? ==>
                  next.value.firstSeen
                  == FirstSet([Get(hb.row, FirstSeen), Get(hb.row, LastSeenAt), Get(hb.row, LastSeen),
                               Get(hb.row, Timestamp), hb.now]))
  {
    NextRecord(hbs, hb);
    FirstSetOf(Get(hb.row, LastSeen), Get(hb.row, LastSeenAt), Get(hb.row, Timestamp), "", "");
    FirstSetOf(Get(hb.row, FirstSeen), Get(hb.row, LastSeenAt), Get(hb.row, LastSeen), Get(hb.row, Timestamp), hb.now);
  }

  /** Over every run: a field that a heartbeat sets is what the record then shows; a risk state is normalised. */
  lemma ExplicitFieldStored(hbs: seq<Heartbeat>, hb: Heartbeat, f: Field)
    requires EndpointIdOf(hb.row) != "" && KeyOf(f) in hb.row && hb.row[KeyOf(f)] != ""
    ensures var next := GetEndpoint(Run(hbs + [hb]), EndpointIdOf(hb.row));
            && next.Some?
            && ValueOf(next.value, f) == if f.RiskField? then CoerceRisk(hb.row[RiskState]) else hb.row[KeyOf(f)]
  {
    NextRecord(hbs, hb);
    SetField(GetEndpoint(Run(hbs), EndpointIdOf(hb.row)), hb, f);
  }

  lemma SetField(prev: Option<EndpointRecord>, hb: Heartbeat, f: Field)
    requires KeyOf(f) in hb.row && hb.row[KeyOf(f)] != ""
    ensures ValueOf(RecordAfter(prev, hb), f)
            == if f.RiskField? then CoerceRisk(hb.row[RiskState]) else hb.row[KeyOf(f)]
  {
  }

  /** A stored risk state is never empty, so once an endpoint has reported a bare `status` is ignored. */
  lemma StatusIgnoredLater(hbs: seq<Heartbeat>, hb: Heartbeat)
    requires EndpointIdOf(hb.row) != "" && RiskState !in hb.row
    ensures var id := EndpointIdOf(hb.row);
            var prev, next := GetEndpoint(Run(hbs), id), GetEndpoint(Run(hbs + [hb]), id);
            prev.Some? ==> next.Some? && next.value.riskState == prev.value.riskState
  {
    var id := EndpointIdOf(hb.row);
    NextRecord(hbs, hb);
    StoredRiskKnown(hbs, id);
    RiskCarries(GetEndpoint(Run(hbs), id), GetEndpoint(Run(hbs + [hb]), id), hb);
  }

  lemma RiskCarries(prev: Option<EndpointRecord>, next: Option<EndpointRecord>, hb: Heartbeat)
    requires next == Some(RecordAfter(prev, hb)) && RiskState !in hb.row
    requires prev.Some? ==> KnownRisk(prev.value.riskState)
    ensures prev.Some? ==> next.value.riskState == prev.value.riskState
  {
    if prev.Some? { RiskStep(prev.value, hb); }
  }

  lemma StoredRiskKnown(hbs: seq<Heartbeat>, id: string)
    requires id != ""
    ensures GetEndpoint(Run(hbs), id).Some? ==> KnownRisk(GetEndpoint(Run(hbs), id).value.riskState)
  {
    EndpointsAreIndependent(hbs, id);
    if HeartbeatsOf(hbs, id) != [] { StoredRisk(HeartbeatsOf(hbs, id)); }
  }

  lemma RiskStep(r: EndpointRecord, hb: Heartbeat)
    requires KnownRisk(r.riskState) && RiskState !in hb.row
    ensures RecordAfter(Some(r), hb).riskState == r.riskState
  {
    CoerceIdempotent(r.riskState);
  }

  lemma StoredRisk(hbs: seq<Heartbeat>)
    requires hbs != []
    ensures KnownRisk(RecordOver(hbs).value.riskState)
  {
    assert RecordOver(hbs) == Some(RecordAfter(RecordOver(hbs[..|hbs| - 1]), hbs[|hbs| - 1]));
  }

  lemma CoerceIdempotent(r: string)
    requires KnownRisk(r)
    ensures CoerceRisk(r) == r
  {
    LowerFixed(r);
  }

  lemma LowerFixed(s: string)
    requires forall i :: 0 <= i < |s| ==> !('A' <= s[i] <= 'Z')
    ensures Lower(s) == s
  {
  }

  // ----- the store -----

  class Fleet {
    var log: seq<Row>

    constructor ()
      ensures log == []
    {
      log := [];
    }

    /** `get_endpoint`. */
    method GetRecord(id: string) returns (r: Option<EndpointRecord>)
      ensures r == GetEndpoint(log, id)
    {
      var latest := FindLast(log, HasId(EndpointIdOf, id));
      if latest.Some? {
        return Some(RecordFromRow(latest.value));
      }
      return None;
    }

    /** `append_heartbeat`; a heartbeat without an endpoint id is refused and changes nothing. */
    method AppendHeartbeat(row: Row, now: string) returns (r: Option<EndpointRecord>)
      modifies this
      ensures log == StoreStep(FLEET, old(log), Heartbeat(row, now))
      ensures r == if EndpointIdOf(row) == "" then None
                   else Some(RecordAfter(GetEndpoint(old(log), EndpointIdOf(row)), Heartbeat(row, now)))
    {
      var id := EndpointIdOf(row);
      if id == "" {
        return None;
      }
      var existing := GetRecord(id);
      var merged := MergeRow(existing, row, now);
      MergeIsUpdate(existing, Heartbeat(row, now));
      log := log + [merged];
      return Some(RecordFromRow(merged));
    }

    static method MergeRow(existing: Option<EndpointRecord>, row: Row, now: string) returns (merged: Row)
      ensures merged == Merge(existing, row, now)
    {
      var base := (if existing.Some? then SummaryRow(existing.value) else map[]) + row;
      var first := if existing.Some? then existing.value.firstSeen else Or(Get(row, FirstSeen), Get(row, LastSeenAt));
      var last := Or(Get(row, LastSeen), Or(Get(row, LastSeenAt), Get(row, Timestamp)));
      merged := Stamped(base, EndpointIdOf(row), first, last);
      Restamped(base, EndpointIdOf(row), first, last, Or(last, now));
      if Get(merged, FirstSeen) == "" {
        merged := merged[FirstSeen := Or(Get(merged, LastSeen), now)];
      }
    }

    /** `list_endpoints`: one record per endpoint, each what `get_endpoint` returns, in order of first report. */
    method ListEndpoints() returns (out: seq<EndpointRecord>)
      ensures |out| == |Ids(log, EndpointIdOf)|
      ensures forall i :: 0 <= i < |out| ==> GetEndpoint(log, Ids(log, EndpointIdOf)[i]) == Some(out[i])
    {
      var order, rows := ListLatest(log, EndpointIdOf);
      out := Map(rows, RecordFromRow);
    }
  }
}
