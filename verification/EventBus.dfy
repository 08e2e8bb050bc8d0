/**
 The normalized event bus (platform_core/event_bus.py): schema-checked appends and a tolerant reader
 that stops as soon as it has `limit` matching rows.
 */
module EventBus {
  import opened Logs
  import opened Ordering

  /** The fields the reader looks at; the empty string stands for a missing text field. */
  datatype EventRow = EventRow(
    schemaVersion: Option<string>, eventType: string, severity: string, endpointIdHash: string, body: string)

  /** One line of the file, as the JSON parser sees it. */
  datatype Line = Blank | Malformed(detail: string) | NotAnObject | Object(row: EventRow)

  datatype ReadError = ReadError(lineNo: nat, detail: string)

  /** The optional filters; the empty string means no filter. */
  datatype Query = Query(eventType: string, minSeverity: string, endpointIdHash: string, schemaVersion: string)

  const SUPPORTED_SCHEMA_VERSIONS: set<string> := {"1", "2026.01"}

  /** `validate_schema_version`: the complaint, if any. */
  function SchemaError(row: EventRow): (e: Option<string>)
  {
    if row.schemaVersion.None? then Some("missing_schema_version")
    else if row.schemaVersion.value !in SUPPORTED_SCHEMA_VERSIONS then
      Some("unsupported_schema_version:" + row.schemaVersion.value)
    else None
  }

  function SeverityRank(s: string): (n: nat)
  {
    match s
    case "low" => 1
    case "medium" => 2
    case "high" => 3
    case "critical" => 4
    case _ => 0
  }

  predicate SevereEnough(minSeverity: string, row: EventRow)
  {
    minSeverity == "" || SeverityRank(row.severity) >= SeverityRank(minSeverity)
  }

  predicate Passes(q: Query, row: EventRow)
  {
    && (q.eventType == "" || row.eventType == q.eventType)
    && (q.schemaVersion == "" || row.schemaVersion == Some(q.schemaVersion))
    && (q.endpointIdHash == "" || row.endpointIdHash == q.endpointIdHash)
    && SevereEnough(q.minSeverity, row)
  }

  /** The row a line contributes, if any. */
  function MatchOf(q: Query, line: Line): (r: seq<EventRow>)
  {
    if line.Object? && SchemaError(line.row).None? && Passes(q, line.row) then [line.row] else []
  }

  /** The error a line contributes, if any. */
  function ErrorOf(lineNo: nat, line: Line): (r: seq<ReadError>)
  {
    match line
    case Blank => []
    case Malformed(detail) => [ReadError(lineNo, detail)]
    case NotAnObject => [ReadError(lineNo, "not_a_json_object")]
    case Object(row) => if SchemaError(row).Some? then [ReadError(lineNo, SchemaError(row).value)] else []
  }

  /** All matching rows of a file, in file order. */
  function Matching(q: Query, lines: seq<Line>): (r: seq<EventRow>)
  {
    if lines == [] then [] else Matching(q, lines[..|lines| - 1]) + MatchOf(q, lines[|lines| - 1])
  }

  function Errors(lines: seq<Line>): (r: seq<ReadError>)
  {
    if lines == [] then [] else Errors(lines[..|lines| - 1]) + ErrorOf(|lines|, lines[|lines| - 1])
  }

  lemma Snoc(q: Query, lines: seq<Line>, line: Line)
    ensures Matching(q, lines + [line]) == Matching(q, lines) + MatchOf(q, line)
    ensures Errors(lines + [line]) == Errors(lines) + ErrorOf(|lines| + 1, line)
  {
    assert (lines + [line])[..|lines|] == lines;
  }

  lemma NextLine(q: Query, lines: seq<Line>, k: nat)
    requires k < |lines|
    ensures Matching(q, lines[..k + 1]) == Matching(q, lines[..k]) + MatchOf(q, lines[k])
    ensures Errors(lines[..k + 1]) == Errors(lines[..k]) + ErrorOf(k + 1, lines[k])
  {
    PrefixSnoc(lines, k);
    Snoc(q, lines[..k], lines[k]);
  }

  lemma {:induction false} MatchingPrefix(q: Query, lines: seq<Line>, k: nat)
    requires k <= |lines|
    ensures Matching(q, lines[..k]) <= Matching(q, lines)
  {
    if k < |lines| {
      var init := lines[..|lines| - 1];
      MatchingPrefix(q, init, k);
      assert init[..k] == lines[..k];
    } else {
      assert lines[..k] == lines;
    }
  }

  /** The reader tests the limit after appending, so a limit below one still returns one row. */
  function Cap(limit: int): (n: nat)
    ensures n >= 1
  {
    if limit < 1 then 1 else limit
  }

  function FirstRows(rows: seq<EventRow>, n: nat): (r: seq<EventRow>)
  {
    if |rows| <= n then rows else rows[..n]
  }

  /** What the reader returns. */
  function Read(q: Query, lines: seq<Line>, limit: int): (r: seq<EventRow>)
  {
    FirstRows(Matching(q, lines), Cap(limit))
  }

  /** The body of the read loop: a line yields a row, an error, or nothing. */
  method ScanLine(line: Line, lineNo: nat, q: Query) returns (good: seq<EventRow>, errors: seq<ReadError>)
    ensures good == MatchOf(q, line) && errors == ErrorOf(lineNo, line)
  {
    good, errors := [], [];
    match line
    case Blank =>
    case Malformed(detail) => errors := [ReadError(lineNo, detail)];
    case NotAnObject => errors := [ReadError(lineNo, "not_a_json_object")];
    case Object(row) =>
      var e := SchemaError(row);
      if e.Some? {
        errors := [ReadError(lineNo, e.value)];
        return;
      }
      if q.eventType != "" && row.eventType != q.eventType { return; }
      if q.schemaVersion != "" && row.schemaVersion != Some(q.schemaVersion) { return; }
      if q.endpointIdHash != "" && row.endpointIdHash != q.endpointIdHash { return; }
      if q.minSeverity != "" {
        if SeverityRank(row.severity) < SeverityRank(q.minSeverity) { return; }
      }
      good := [row];
  }

  /**
   `read_events`.  The rows are the oldest matches, and the errors are those of the lines scanned
   before the early exit.
   */
  method ReadEvents(lines: seq<Line>, limit: int, q: Query)
    returns (good: seq<EventRow>, errors: seq<ReadError>, scanned: nat)
    ensures good == Read(q, lines, limit)
    ensures scanned <= |lines| && errors == Errors(lines[..scanned]) && good == Matching(q, lines[..scanned])
    ensures |good| < Cap(limit) ==> scanned == |lines|
  {
    good, errors, scanned := [], [], 0;
    assert lines[..0] == [];
    while scanned < |lines|
      invariant scanned <= |lines|
      invariant good == Matching(q, lines[..scanned]) && |good| < Cap(limit)
      invariant errors == Errors(lines[..scanned])
    {
      NextLine(q, lines, scanned);
      var row, error := ScanLine(lines[scanned], scanned + 1, q);
      scanned := scanned + 1;
      errors := errors + error;
      good := good + row;
      if row != [] && |good| >= limit {
        break;
      }
    }
    FirstMatches(q, lines, scanned, limit);
  }

  /** Matches of a prefix that fills the limit, or of the whole file within it, are what a read returns. */
  lemma FirstMatches(q: Query, lines: seq<Line>, k: nat, limit: int)
    requires k <= |lines| && |Matching(q, lines[..k])| <= Cap(limit)
    requires |Matching(q, lines[..k])| < Cap(limit) ==> k == |lines|
    ensures Matching(q, lines[..k]) == Read(q, lines, limit)
  {
    MatchingPrefix(q, lines, k);
    if k == |lines| { assert lines[..k] == lines; }
  }

  /** `append_event`: a row with a bad schema version is refused. */
  method AppendEvent(lines: seq<Line>, row: EventRow) returns (after: seq<Line>, error: Option<string>)
    ensures error == SchemaError(row)
    ensures after == if error.Some? then lines else lines + [Object(row)]
    ensures Errors(after) == Errors(lines)
    ensures forall q, limit :: Read(q, after, limit) == ReadAfter(q, lines, row, limit)
  {
    error := SchemaError(row);
    if error.Some? {
      after := lines;
    } else {
      after := lines + [Object(row)];
      Snoc(Query("", "", "", ""), lines, Object(row));
    }
    forall q, limit ensures Read(q, after, limit) == ReadAfter(q, lines, row, limit) {
      if error.None? { AppendThenRead(q, lines, row, limit); }
    }
  }

  /** What a reader sees after `row` was offered: the row at the end, if it was accepted, passes and there is room. */
  function ReadAfter(q: Query, lines: seq<Line>, row: EventRow, limit: int): (r: seq<EventRow>)
  {
    var before := Read(q, lines, limit);
    if SchemaError(row).None? && Passes(q, row) && |before| < Cap(limit) then before + [row] else before
  }

  /** A validated append extends an unsaturated result by the row if it passes, and never changes a saturated one. */
  lemma AppendThenRead(q: Query, lines: seq<Line>, row: EventRow, limit: int)
    requires SchemaError(row).None?
    ensures var before := Read(q, lines, limit);
            Read(q, lines + [Object(row)], limit)
            == if |before| < Cap(limit) && Passes(q, row) then before + [row] else before
  {
    Snoc(q, lines, Object(row));
  }

  /** Appends only ever extend the result: rows once returned stay where they are. */
  lemma {:induction false} ReadsArePrefixes(q: Query, lines: seq<Line>, more: seq<Line>, limit: int)
    ensures Read(q, lines, limit) <= Read(q, lines + more, limit)
  {
    MatchingPrefix(q, lines + more, |lines|);
    assert (lines + more)[..|lines|] == lines;
  }

  /** Raising the minimum severity filters the unlimited result and reorders nothing. */
  lemma {:induction false} SeverityFilters(q: Query, lines: seq<Line>, low: string, high: string)
    requires low == "" || (high != "" && SeverityRank(low) <= SeverityRank(high))
    ensures Matching(q.(minSeverity := high), lines)
            == Filter(Matching(q.(minSeverity := low), lines), (r: EventRow) => SevereEnough(high, r))
  {
    if lines != [] {
      var init, line := lines[..|lines| - 1], lines[|lines| - 1];
      SeverityFilters(q, init, low, high);
      var m := MatchOf(q.(minSeverity := low), line);
      FilterAppend(Matching(q.(minSeverity := low), init), m, (r: EventRow) => SevereEnough(high, r));
      if m != [] { assert m[1..] == []; }
      assert MatchOf(q.(minSeverity := high), line) == Filter(m, (r: EventRow) => SevereEnough(high, r));
    }
  }

  // ----- what a returned row has, and what a missing one lacks -----

  /** The severities from mild to grave; a missing or unknown one counts as the mildest. */
  const GRADES: seq<string> := ["info", "low", "medium", "high", "critical"]

  /** One severity is at least as grave as another. */
  ghost predicate AtLeastAsGrave(s: string, least: string)
  {
    forall k :: 0 < k < |GRADES| && GRADES[k] == least ==> exists j :: k <= j < |GRADES| && GRADES[j] == s
  }

  lemma RankIsGrade(s: string, k: nat)
    requires k < |GRADES|
    ensures GRADES[k] == s ==> SeverityRank(s) == k
    ensures SeverityRank(s) > 0 ==> SeverityRank(s) < |GRADES| && GRADES[SeverityRank(s)] == s
  {
  }

  lemma GraveIff(s: string, least: string)
    ensures SeverityRank(s) >= SeverityRank(least) <==> AtLeastAsGrave(s, least)
  {
    var n, m := SeverityRank(s), SeverityRank(least);
    RankIsGrade(s, 0);
    RankIsGrade(least, 0);
    forall k | 0 < k < |GRADES| && GRADES[k] == least ensures k == m { RankIsGrade(least, k); }
    forall j | 0 <= j < |GRADES| && GRADES[j] == s ensures j == n { RankIsGrade(s, j); }
    if n >= m && m > 0 { assert GRADES[n] == s; }
    if AtLeastAsGrave(s, least) && m > 0 { assert GRADES[m] == least; }
  }

  /** A row that fits the query: each filter that is set, compared with the row's own field. */
  ghost predicate Fits(q: Query, row: EventRow)
  {
    && (q.eventType != "" ==> row.eventType == q.eventType)
    && (q.endpointIdHash != "" ==> row.endpointIdHash == q.endpointIdHash)
    && (q.schemaVersion != "" ==> row.schemaVersion == Some(q.schemaVersion))
    && (q.minSeverity != "" ==> AtLeastAsGrave(row.severity, q.minSeverity))
  }

  ghost predicate Supported(row: EventRow)
  {
    row.schemaVersion == Some("1") || row.schemaVersion == Some("2026.01")
  }

  lemma AcceptedIff(q: Query, row: EventRow)
    ensures SchemaError(row).None? <==> Supported(row)
    ensures Passes(q, row) <==> Fits(q, row)
  {
    GraveIff(row.severity, q.minSeverity);
  }

  /** The unlimited result holds exactly the supported rows of the file that fit the query. */
  lemma {:induction false} MatchingIff(q: Query, lines: seq<Line>, row: EventRow)
    ensures row in Matching(q, lines) <==> Object(row) in lines && Supported(row) && Fits(q, row)
  {
    if lines != [] {
      var init, line := lines[..|lines| - 1], lines[|lines| - 1];
      MatchingIff(q, init, row);
      assert lines == init + [line];
      AcceptedIff(q, row);
    }
  }

  /** Every returned row is a supported row of the file that fits, and a short result lacks none of them. */
  lemma ReadMeaning(q: Query, lines: seq<Line>, limit: int, row: EventRow)
    ensures row in Read(q, lines, limit) ==> Object(row) in lines && Supported(row) && Fits(q, row)
    ensures |Read(q, lines, limit)| < limit ==>
              (Object(row) in lines && Supported(row) && Fits(q, row) ==> row in Read(q, lines, limit))
  {
    MatchingIff(q, lines, row);
    var m := Matching(q, lines);
    assert forall r :: r in FirstRows(m, Cap(limit)) ==> r in m;
  }

  /** What goes wrong with a line, by its number and kind. */
  lemma ErrorMeaning(lineNo: nat, line: Line)
    ensures ErrorOf(lineNo, line) == []
            <==> line == Blank || (line.Object? && Supported(line.row))
    ensures ErrorOf(lineNo, line) != [] ==> |ErrorOf(lineNo, line)| == 1 && ErrorOf(lineNo, line)[0].lineNo == lineNo
    ensures line.Malformed? ==> ErrorOf(lineNo, line)[0].detail == line.detail
    ensures line.Object? && !Supported(line.row) ==>
              ErrorOf(lineNo, line)[0].detail
              == if line.row.schemaVersion.None? then "missing_schema_version"
                 else "unsupported_schema_version:" + line.row.schemaVersion.value
  {
  }
}
