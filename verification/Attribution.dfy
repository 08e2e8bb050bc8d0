/**
 The attribution scorer (evidence/attribution_engine.py).  Weights are in hundredths.  Whether a
 Sysmon, Procmon or ETW row concerns the proxy settings is a predicate of the readers, taken as given.
 */
module Attribution {
  import opened Text

  datatype SysmonEvent = SysmonEvent(image: string, target: string)
  datatype ProcmonRow = ProcmonRow(processName: string, path: string)
  datatype EtwRow = EtwRow(text: string)
  datatype Listener = Listener(port: string, address: string)

  /** The row predicates of the readers, and `str.strip`. */
  datatype Rules = Rules(
    sysmonConcerns: SysmonEvent -> bool,
    procmonConcerns: ProcmonRow -> bool,
    etwConcerns: EtwRow -> bool,
    strip: string -> string)

  datatype Telemetry = Telemetry(sysmon: seq<SysmonEvent>, procmon: seq<ProcmonRow>, etw: seq<EtwRow>)

  /** What polling alone provides; an empty actor or parent means unknown. */
  datatype Context = Context(
    registryDelta: bool, actor: string, parent: string, listeners: seq<Listener>, proxyServer: string)

  datatype Level = Heuristic | ListenerMatch | SysmonConfirmed | ProcmonConfirmed | EtwConfirmed

  datatype Source = RegistryPoll | ProcInventory | ParentProcess | ListenerSource | Sysmon | Procmon | Etw

  datatype Result = Result(candidate: string, confidence: nat, level: Level, evidence: seq<Source>)

  // ----- listeners -----

  /** A listener on a local address whose port is a token of the proxy setting. */
  predicate Aligns(l: Listener, proxyServer: string)
  {
    && l.port != "" && Contains(proxyServer, ":" + l.port)
    && l.address in {"", "127.0.0.1", "0.0.0.0", "::"}
  }

  ghost predicate Listening(c: Context)
  {
    c.proxyServer != "" && exists l :: l in c.listeners && Aligns(l, Lower(c.proxyServer))
  }

  predicate EndsWith(s: string, t: string)
  {
    |t| <= |s| && s[|s| - |t|..] == t
  }

  lemma {:induction false} ContainsSuffix(s: string, t: string)
    requires EndsWith(s, t)
    ensures Contains(s, t)
  {
    if |s| > |t| { ContainsSuffix(s[1..], t); }
  }

  /** `_listener_match`: the three tests of the source amount to the first. */
  method MatchListener(c: Context) returns (found: bool)
    ensures found <==> Listening(c)
  {
    if c.listeners == [] || c.proxyServer == "" {
      return false;
    }
    var ps := Lower(c.proxyServer);
    for i := 0 to |c.listeners|
      invariant forall j :: 0 <= j < i ==> !Aligns(c.listeners[j], ps)
    {
      var ln := c.listeners[i];
      if ln.port == "" { continue; }
      var token := ":" + ln.port;
      if EndsWith(ps, token) { ContainsSuffix(ps, token); }
      if Contains(ps, "127.0.0.1" + token) { ContainsPart(ps, "127.0.0.1", token); }
      if Contains(ps, token) || EndsWith(ps, token) || Contains(ps, "127.0.0.1" + token) {
        if ln.address in {"", "127.0.0.1", "0.0.0.0", "::"} {
          assert ln in c.listeners && Aligns(ln, ps);
          return true;
        }
      }
    }
    return false;
  }

  // ----- what the telemetry says -----

  ghost predicate SysmonTouches(r: Rules, t: Telemetry)
  {
    exists e :: e in t.sysmon && r.sysmonConcerns(e)
  }

  /** Some row names a writer: a proxy Sysmon row with an image, a proxy Procmon row, or a proxy ETW row. */
  ghost predicate Qualifies(r: Rules, t: Telemetry)
  {
    || (exists e :: e in t.sysmon && r.sysmonConcerns(e) && r.strip(e.image) != "")
    || (exists p :: p in t.procmon && r.procmonConcerns(p))
    || (exists e :: e in t.etw && r.etwConcerns(e))
  }

  predicate Present(t: Telemetry)
  {
    t.sysmon != [] || t.procmon != [] || t.etw != []
  }

  function Base(delta: bool, actor: string, parent: string, listening: bool): (n: nat)
    ensures 18 <= n <= 76
  {
    18 + (if delta then 12 else 0) + (if actor != "" then 18 else 0) + (if parent != "" then 6 else 0)
    + (if listening then 22 else 0)
  }

  ghost function Bonus(r: Rules, t: Telemetry): (n: nat)
  {
    if Qualifies(r, t) then 28 + (if SysmonTouches(r, t) then 12 else if t.procmon != [] then 5 else 0)
    else if Present(t) then 5 else 0
  }

  function Clamp(n: int): (r: nat)
    ensures r <= 100
  {
    if n < 0 then 0 else if n > 100 then 100 else n
  }

  ghost function Confidence(r: Rules, c: Context, t: Telemetry): (n: nat)
  {
    Clamp(Base(c.registryDelta, c.actor, c.parent, Listening(c)) + Bonus(r, t))
  }

  ghost function Tier(r: Rules, c: Context, t: Telemetry): (l: Level)
  {
    if Qualifies(r, t) then
      if SysmonTouches(r, t) then SysmonConfirmed else if t.procmon != [] then ProcmonConfirmed else EtwConfirmed
    else if !Present(t) && Listening(c) then ListenerMatch
    else Heuristic
  }

  predicate Confirmed(l: Level)
  {
    l == SysmonConfirmed || l == ProcmonConfirmed || l == EtwConfirmed
  }

  // ----- the writer named by the telemetry -----

  /** The image of the first proxy Sysmon row that has one. */
  function FirstImage(r: Rules, rows: seq<SysmonEvent>): (s: string)
    ensures s != "" <==> exists e :: e in rows && r.sysmonConcerns(e) && r.strip(e.image) != ""
  {
    if rows == [] then ""
    else if r.sysmonConcerns(rows[0]) && r.strip(rows[0].image) != "" then r.strip(rows[0].image)
    else
      assert rows == [rows[0]] + rows[1..];
      FirstImage(r, rows[1..])
  }

  /** The process of the first proxy Procmon row. */
  function FirstProcess(r: Rules, rows: seq<ProcmonRow>): (s: string)
    ensures s != "" <==> exists p :: p in rows && r.procmonConcerns(p)
  {
    if rows == [] then ""
    else if r.procmonConcerns(rows[0]) then
      if r.strip(rows[0].processName) == "" then "(unnamed)" else r.strip(rows[0].processName)
    else
      assert rows == [rows[0]] + rows[1..];
      FirstProcess(r, rows[1..])
  }

  /** Sysmon is believed before Procmon, and Procmon before ETW. */
  ghost function Writer(r: Rules, t: Telemetry): (s: string)
    ensures s != "" <==> Qualifies(r, t)
  {
    if FirstImage(r, t.sysmon) != "" then FirstImage(r, t.sysmon)
    else if FirstProcess(r, t.procmon) != "" then FirstProcess(r, t.procmon)
    else if exists e :: e in t.etw && r.etwConcerns(e) then "etw_process_hint"
    else ""
  }

  ghost function WriterSources(r: Rules, t: Telemetry): (s: seq<Source>)
  {
    (if FirstImage(r, t.sysmon) != "" then [Sysmon] else [])
    + (if FirstProcess(r, t.procmon) != "" then [Procmon] else [])
    + (if exists e :: e in t.etw && r.etwConcerns(e) then [Etw] else [])
  }

  ghost function PollingSources(c: Context): (s: seq<Source>)
  {
    [RegistryPoll] + (if c.actor != "" then [ProcInventory] else []) + (if c.parent != "" then [ParentProcess] else [])
    + (if Listening(c) then [ListenerSource] else [])
  }

  /** The part of a Windows path after its last backslash. */
  function LastSegment(s: string): (t: string)
    ensures '\\' !in t
  {
    if '\\' !in s then s else LastSegment(s[1..])
  }

  // ----- the scans with their early exits -----

  method ScanSysmon(r: Rules, rows: seq<SysmonEvent>) returns (image: string)
    ensures image == FirstImage(r, rows)
  {
    image := "";
    for i := 0 to |rows|
      invariant FirstImage(r, rows) == FirstImage(r, rows[i..])
    {
      assert rows[i..][0] == rows[i] && rows[i..][1..] == rows[i + 1..];
      if !r.sysmonConcerns(rows[i]) { continue; }
      var img := r.strip(rows[i].image);
      if img != "" {
        return img;
      }
    }
  }

  method AnySysmonTouches(r: Rules, rows: seq<SysmonEvent>) returns (found: bool)
    ensures found <==> exists e :: e in rows && r.sysmonConcerns(e)
  {
    for i := 0 to |rows|
      invariant forall j :: 0 <= j < i ==> !r.sysmonConcerns(rows[j])
    {
      if r.sysmonConcerns(rows[i]) { return true; }
    }
    return false;
  }

  method ScanProcmon(r: Rules, rows: seq<ProcmonRow>) returns (name: string)
    ensures name == FirstProcess(r, rows)
  {
    name := "";
    for i := 0 to |rows|
      invariant FirstProcess(r, rows) == FirstProcess(r, rows[i..])
    {
      assert rows[i..][0] == rows[i] && rows[i..][1..] == rows[i + 1..];
      if !r.procmonConcerns(rows[i]) { continue; }
      var pn := r.strip(rows[i].processName);
      return if pn == "" then "(unnamed)" else pn;
    }
  }

  method ScanEtw(r: Rules, rows: seq<EtwRow>) returns (found: bool)
    ensures found <==> exists e :: e in rows && r.etwConcerns(e)
  {
    for i := 0 to |rows|
      invariant forall j :: 0 <= j < i ==> !r.etwConcerns(rows[j])
    {
      if r.etwConcerns(rows[i]) { return true; }
    }
    return false;
  }

  /** The three telemetry blocks of the source. */
  method ScanTelemetry(r: Rules, t: Telemetry) returns (image: string, sources: seq<Source>)
    ensures image == Writer(r, t) && sources == WriterSources(r, t)
  {
    sources := [];
    image := ScanSysmon(r, t.sysmon);
    if image != "" { sources := sources + [Sysmon]; }
    var name := ScanProcmon(r, t.procmon);
    if name != "" {
      if image == "" { image := name; }
      sources := sources + [Procmon];
    }
    var etw := ScanEtw(r, t.etw);
    if etw {
      sources := sources + [Etw];
      if image == "" { image := "etw_process_hint"; }
    }
  }

  /** What the polling context alone contributes. */
  method PollContext(c: Context) returns (score: nat, evidence: seq<Source>, listening: bool)
    ensures listening <==> Listening(c)
    ensures score == Base(c.registryDelta, c.actor, c.parent, Listening(c))
    ensures evidence == PollingSources(c)
  {
    evidence := [RegistryPoll];
    if c.actor != "" { evidence := evidence + [ProcInventory]; }
    if c.parent != "" { evidence := evidence + [ParentProcess]; }
    listening := MatchListener(c);
    if listening { evidence := evidence + [ListenerSource]; }
    score := Base(c.registryDelta, c.actor, c.parent, listening);
  }

  /** `build_attribution`. */
  method BuildAttribution(r: Rules, c: Context, t: Telemetry) returns (res: Result)
    ensures res.confidence == Confidence(r, c, t)
    ensures res.level == Tier(r, c, t)
    ensures res.candidate
            == if Qualifies(r, t) then LastSegment(Writer(r, t)) else if c.actor == "" then "unknown" else c.actor
    ensures res.evidence == PollingSources(c) + WriterSources(r, t)
  {
    var score, evidence, listening := PollContext(c);
    var candidate := if c.actor == "" then "unknown" else c.actor;
    var level := Heuristic;
    var image, sources := ScanTelemetry(r, t);
    evidence := evidence + sources;
    if image != "" {
      candidate := LastSegment(image);
      score := score + 28;
      var touches := AnySysmonTouches(r, t.sysmon);
      if touches {
        level := SysmonConfirmed;
        score := score + 12;
      } else if t.procmon != [] {
        level := ProcmonConfirmed;
        score := score + 5;
      } else {
        level := EtwConfirmed;
      }
    } else if Present(t) {
      score := score + 5;
    } else if listening {
      level := ListenerMatch;
    }
    return Result(candidate, Clamp(score), level, evidence);
  }

  // ----- laws -----

  /** More rows of any kind, in any place. */
  ghost predicate Extends(t: Telemetry, u: Telemetry)
  {
    && (forall e :: e in t.sysmon ==> e in u.sysmon)
    && (forall e :: e in t.procmon ==> e in u.procmon)
    && (forall e :: e in t.etw ==> e in u.etw)
  }

  lemma StillPresent(t: Telemetry, u: Telemetry)
    requires Extends(t, u)
    ensures (t.procmon != [] ==> u.procmon != []) && (Present(t) ==> Present(u))
  {
    if t.sysmon != [] { assert t.sysmon[0] in u.sysmon; }
    if t.procmon != [] { assert t.procmon[0] in u.procmon; }
    if t.etw != [] { assert t.etw[0] in u.etw; }
  }

  /** Adding telemetry never lowers the confidence. */
  lemma MoreTelemetryNeverHurts(r: Rules, c: Context, t: Telemetry, u: Telemetry)
    requires Extends(t, u)
    ensures Confidence(r, c, t) <= Confidence(r, c, u)
  {
    StillPresent(t, u);
  }

  /** A confirmed tier means that some row qualifies; without telemetry the score stays at or below 0.76. */
  lemma TierMeaning(r: Rules, c: Context, t: Telemetry)
    ensures Confirmed(Tier(r, c, t)) <==> Qualifies(r, t)
    ensures !Present(t) ==> Confidence(r, c, t) <= 76
    ensures Confidence(r, c, t) > 81 ==> Confirmed(Tier(r, c, t))
  {
  }

  /**
   The label follows the presence of rows, not the row that qualified: `ProcmonConfirmed` is reported
   with no qualifying Procmon row exactly when ETW alone qualifies and some unrelated Procmon row is there.
   */
  lemma ProcmonLabelWithoutProcmonProof(r: Rules, c: Context, t: Telemetry)
    ensures Tier(r, c, t) == ProcmonConfirmed && !(exists p :: p in t.procmon && r.procmonConcerns(p))
            <==> && !SysmonTouches(r, t) && t.procmon != []
                 && !(exists p :: p in t.procmon && r.procmonConcerns(p))
                 && (exists e :: e in t.etw && r.etwConcerns(e))
  {
  }

  // ----- weights -----

  /** Nothing but the poll is worth 0.18; a key delta, an actor, a parent and a listener add their own weight. */
  lemma PollingWeights(delta: bool, actor: string, parent: string, listening: bool)
    ensures Base(false, "", "", false) == 18
    ensures Base(true, actor, parent, listening) == Base(false, actor, parent, listening) + 12
    ensures actor != "" ==> Base(delta, actor, parent, listening) == Base(delta, "", parent, listening) + 18
    ensures parent != "" ==> Base(delta, actor, parent, listening) == Base(delta, actor, "", listening) + 6
    ensures Base(delta, actor, parent, true) == Base(delta, actor, parent, false) + 22
  {
  }

  /** What telemetry adds, by the tier it reaches; rows that correlate with nothing still add 0.05. */
  lemma TelemetryWeights(r: Rules, c: Context, t: Telemetry)
    ensures var base := Base(c.registryDelta, c.actor, c.parent, Listening(c));
            var extra := match Tier(r, c, t)
                         case SysmonConfirmed => 40
                         case ProcmonConfirmed => 33
                         case EtwConfirmed => 28
                         case ListenerMatch => 0
                         case Heuristic => if Present(t) then 5 else 0;
            Confidence(r, c, t) == if base + extra > 100 then 100 else base + extra
  {
  }

  /** The tiers, each by its own condition. */
  lemma TierIff(r: Rules, c: Context, t: Telemetry)
    ensures Tier(r, c, t) == SysmonConfirmed
            <==> Qualifies(r, t) && exists e :: e in t.sysmon && r.sysmonConcerns(e)
    ensures Tier(r, c, t) == ProcmonConfirmed
            <==> Qualifies(r, t) && (forall e :: e in t.sysmon ==> !r.sysmonConcerns(e)) && t.procmon != []
    ensures Tier(r, c, t) == ListenerMatch
            <==> t.sysmon == [] && t.procmon == [] && t.etw == [] && Listening(c)
  {
  }

  /** A listener counts when its port is in the proxy setting and it listens on all or on local addresses. */
  lemma ListenerMeaning(l: Listener, proxyServer: string)
    ensures Aligns(l, proxyServer)
            <==> && l.port != "" && (exists i :: OccursAt(proxyServer, ":" + l.port, i))
                 && (l.address == "" || l.address == "127.0.0.1" || l.address == "0.0.0.0" || l.address == "::")
  {
    ContainsIff(proxyServer, ":" + l.port);
  }

  // ----- who is named -----

  /** The part after the last backslash: a suffix without one, and a backslash before it if there is more. */
  lemma {:induction false} LastSegmentMeaning(s: string)
    ensures var t := LastSegment(s);
            && |t| <= |s| && s[|s| - |t|..] == t && '\\' !in t
            && (|t| < |s| ==> s[|s| - |t| - 1] == '\\')
  {
    if '\\' in s {
      LastSegmentMeaning(s[1..]);
      var t := LastSegment(s[1..]);
      assert s == [s[0]] + s[1..];
      assert s[1..][|s| - 1 - |t|..] == s[|s| - |t|..];
      if |t| == |s| - 1 { assert s[1..] == t; }
    }
  }

  /** The named image is that of the first proxy row with one. */
  lemma {:induction false} FirstImageIsFirst(r: Rules, rows: seq<SysmonEvent>)
    ensures FirstImage(r, rows) != "" ==>
              exists k :: 0 <= k < |rows| && r.sysmonConcerns(rows[k]) && FirstImage(r, rows) == r.strip(rows[k].image)
                     && forall j :: 0 <= j < k ==> !r.sysmonConcerns(rows[j]) || r.strip(rows[j].image) == ""
  {
    if rows != [] && !(r.sysmonConcerns(rows[0]) && r.strip(rows[0].image) != "") {
      FirstImageIsFirst(r, rows[1..]);
      if FirstImage(r, rows) != "" {
        var k :| 0 <= k < |rows[1..]| && r.sysmonConcerns(rows[1..][k])
                 && FirstImage(r, rows[1..]) == r.strip(rows[1..][k].image)
                 && forall j :: 0 <= j < k ==> !r.sysmonConcerns(rows[1..][j]) || r.strip(rows[1..][j].image) == "";
        assert rows[k + 1] == rows[1..][k];
        forall j | 0 <= j < k + 1 ensures !r.sysmonConcerns(rows[j]) || r.strip(rows[j].image) == "" {
          if j > 0 { assert rows[j] == rows[1..][j - 1]; }
        }
      }
    }
  }

  /** The named process is that of the first proxy row. */
  lemma {:induction false} FirstProcessIsFirst(r: Rules, rows: seq<ProcmonRow>)
    ensures FirstProcess(r, rows) != "" ==>
              exists k :: 0 <= k < |rows| && r.procmonConcerns(rows[k])
                     && (forall j :: 0 <= j < k ==> !r.procmonConcerns(rows[j]))
                     && FirstProcess(r, rows)
                        == (if r.strip(rows[k].processName) == "" then "(unnamed)" else r.strip(rows[k].processName))
  {
    if rows != [] && !r.procmonConcerns(rows[0]) {
      FirstProcessIsFirst(r, rows[1..]);
      if FirstProcess(r, rows) != "" {
        var k :| 0 <= k < |rows[1..]| && r.procmonConcerns(rows[1..][k])
                 && (forall j :: 0 <= j < k ==> !r.procmonConcerns(rows[1..][j]))
                 && FirstProcess(r, rows[1..])
                    == (if r.strip(rows[1..][k].processName) == "" then "(unnamed)"
                        else r.strip(rows[1..][k].processName));
        assert rows[k + 1] == rows[1..][k];
        forall j | 0 <= j < k + 1 ensures !r.procmonConcerns(rows[j]) {
          if j > 0 { assert rows[j] == rows[1..][j - 1]; }
        }
      }
    }
  }

  /** Sysmon names the writer if it can, else Procmon, else ETW, and every source that names one is listed. */
  lemma WriterMeaning(r: Rules, t: Telemetry)
    ensures FirstImage(r, t.sysmon) != "" ==> Writer(r, t) == FirstImage(r, t.sysmon)
    ensures FirstImage(r, t.sysmon) == "" && FirstProcess(r, t.procmon) != "" ==>
              Writer(r, t) == FirstProcess(r, t.procmon)
    ensures FirstImage(r, t.sysmon) == "" && FirstProcess(r, t.procmon) == "" && Qualifies(r, t) ==>
              Writer(r, t) == "etw_process_hint"
    ensures Sysmon in WriterSources(r, t) <==> FirstImage(r, t.sysmon) != ""
    ensures Procmon in WriterSources(r, t) <==> exists p :: p in t.procmon && r.procmonConcerns(p)
    ensures Etw in WriterSources(r, t) <==> exists e :: e in t.etw && r.etwConcerns(e)
  {
  }

  /** The evidence that polling lists. */
  lemma PollingMeaning(c: Context)
    ensures PollingSources(c)[0] == RegistryPoll
    ensures ProcInventory in PollingSources(c) <==> c.actor != ""
    ensures ParentProcess in PollingSources(c) <==> c.parent != ""
    ensures ListenerSource in PollingSources(c) <==> Listening(c)
    ensures Sysmon !in PollingSources(c) && Procmon !in PollingSources(c) && Etw !in PollingSources(c)
  {
  }
}
