/** What holds after every run of ingest, preview and execute calls. */
module RemediationLaws {
  import opened Logs
  import opened Ordering
  import opened RemediationPolicy
  import opened Remediation

  // ----- the audit log: hash links and counts -----

  /** Row `i` carries the hash of the row before it, or nothing if there is none, and digests both. */
  ghost predicate LinkedAt(lib: Library, audit: seq<AuditRow>, i: nat)
    requires i < |audit| && audit[i].Contract?
  {
    && audit[i].previousHash == (if i > 0 && audit[i - 1].Contract? then audit[i - 1].hash else "")
    && audit[i].hash == lib.digest(audit[i].payload, audit[i].previousHash)
  }

  /** Every contract row is linked to the hash of the row right before it, if that row has one. */
  ghost predicate Linked(lib: Library, audit: seq<AuditRow>)
  {
    forall i :: 0 <= i < |audit| && audit[i].Contract? ==> LinkedAt(lib, audit, i)
  }

  predicate IsContract(r: AuditRow) { r.Contract? }

  function ContractRows(audit: seq<AuditRow>): (n: nat)
  {
    |Filter(audit, IsContract)|
  }

  lemma CountSnoc(audit: seq<AuditRow>, r: AuditRow)
    ensures ContractRows(audit + [r]) == ContractRows(audit) + if r.Contract? then 1 else 0
  {
    FilterAppend(audit, [r], IsContract);
    assert [r][1..] == [];
  }

  lemma LinkedSnoc(lib: Library, audit: seq<AuditRow>, r: AuditRow)
    requires Linked(lib, audit) && (r.Contract? ==> LinkedAt(lib, audit + [r], |audit|))
    ensures Linked(lib, audit + [r])
  {
    var all := audit + [r];
    forall i | 0 <= i < |all| && all[i].Contract? ensures LinkedAt(lib, all, i) {
      if i < |audit| { assert LinkedAt(lib, audit, i); }
    }
  }

  /** `after` is `before` with rows appended, links kept and `contracts` contract rows among them. */
  ghost predicate AuditGrows(lib: Library, before: seq<AuditRow>, after: seq<AuditRow>, contracts: nat)
  {
    && before <= after
    && (Linked(lib, before) ==> Linked(lib, after))
    && ContractRows(after) == ContractRows(before) + contracts
  }

  lemma GrowsByLegacy(lib: Library, audit: seq<AuditRow>, r: AuditRow)
    requires r.Legacy?
    ensures AuditGrows(lib, audit, audit + [r], 0)
  {
    CountSnoc(audit, r);
    if Linked(lib, audit) { LinkedSnoc(lib, audit, r); }
  }

  lemma GrowsByContract(lib: Library, audit: seq<AuditRow>, payload: Payload)
    ensures AuditGrows(lib, audit, WithContract(lib, audit, payload), 1)
  {
    CountSnoc(audit, ContractRow(lib, audit, payload));
    if Linked(lib, audit) { LinkedSnoc(lib, audit, ContractRow(lib, audit, payload)); }
  }

  lemma GrowsByBoth(lib: Library, audit: seq<AuditRow>, r: AuditRow, payload: Payload)
    requires r.Legacy?
    ensures AuditGrows(lib, audit, WithContract(lib, audit + [r], payload), 1)
  {
    GrowsByLegacy(lib, audit, r);
    GrowsByContract(lib, audit + [r], payload);
  }

  // ----- the shape of one execute call -----

  predicate FoundPreview(x: Exit)
  {
    !x.RbacDenied? && !x.DemoMode? && !x.PreviewMissing?
  }

  /** A script was to run, and `subprocess.run` raised something other than its timeout. */
  predicate Crashes(x: Exit, outcome: ProcessOutcome)
  {
    x.Live? && outcome.Crashed?
  }

  /** The exits that leave the handler by an exception. */
  predicate Raises(x: Exit, outcome: ProcessOutcome)
  {
    x.UnknownAction? || x.PhraseMismatch? || x.NotAllowlisted? || !FoundPreview(x) || Crashes(x, outcome)
  }

  /** How many contract rows an exit writes. */
  function ContractsOf(x: Exit, outcome: ProcessOutcome): (n: nat)
  {
    if FoundPreview(x) && !Crashes(x, outcome) then 1 else 0
  }

  ghost predicate NamesPreview(x: Execution, p: Preview, req: ExecuteIn)
  {
    x.previewId == req.previewId && x.action == p.action && x.endpointId == p.endpointId
  }

  ghost predicate ExecuteShape(
      lib: Library, s: State, t: State, x: Exit, req: ExecuteIn, who: Principal, env: Env, outcome: ProcessOutcome)
  {
    && t.failureEvents == s.failureEvents && t.previews == s.previews
    && (if Raises(x, outcome) then t.executions == s.executions
        else exists e :: t.executions == s.executions + [e] && NamesPreview(e, x.p, req))
    && AuditGrows(lib, s.audit, t.audit, ContractsOf(x, outcome))
    && (if x.Live? then
          && t.spawns == s.spawns + [Spawn(req, who, env, x.p, x.script, |s.audit| + 1)]
          && s.audit + [PendingRow(who, req, x.script)] <= t.audit
        else t.spawns == s.spawns)
  }

  lemma PendingThen(lib: Library, audit: seq<AuditRow>, pending: AuditRow, after: seq<AuditRow>, n: nat)
    requires pending.Legacy? && AuditGrows(lib, audit + [pending], after, n)
    ensures AuditGrows(lib, audit, after, n) && audit + [pending] <= after
  {
    GrowsByLegacy(lib, audit, pending);
  }

  lemma AttemptShape(
      lib: Library, s: State, p: Preview, req: ExecuteIn, who: Principal,
      result: ExecutionResult, summary: Wording, decision: Wording, allowed: bool)
    ensures var t := Attempt(lib, s, p, req, who, result, summary, decision, allowed).0;
            && t.failureEvents == s.failureEvents && t.previews == s.previews && t.spawns == s.spawns
            && t.executions == s.executions + [MakeExecution(p, req, who, result, summary)]
            && AuditGrows(lib, s.audit, t.audit, 1)
  {
    GrowsByContract(lib, s.audit, MakePayload(p, req, who, RemediationExecuteAttempt, summary, decision));
  }

  lemma TimeoutShape(lib: Library, s: State, p: Preview, script: string, req: ExecuteIn, who: Principal, env: Env)
    ensures var t := RunScript(lib, s, p, script, req, who, env, Timeout).0;
            ScriptEnds(lib, s, t, p, script, req, who, env, MakeExecution(p, req, who, Failure, TimeoutWord))
  {
    AttemptShape(lib, Started(s, p, script, req, who, env), p, req, who, Failure, TimeoutWord, PreviewOnly, false);
  }

  lemma CompletedShape(
      lib: Library, s: State, p: Preview, script: string, req: ExecuteIn, who: Principal, env: Env, ok: bool)
    ensures var t := RunScript(lib, s, p, script, req, who, env, Completed(ok)).0;
            ScriptEnds(lib, s, t, p, script, req, who, env,
                       MakeExecution(p, req, who, if ok then Success else Failure, NoWord))
  {
    GrowsByBoth(lib, Started(s, p, script, req, who, env).audit,
                Legacy(who.operatorId, ExecuteWord, PreviewTarget, req.previewId,
                       if ok then SuccessWord else FailureWord, NoWord),
                MakePayload(p, req, who, RemediationExecuteAttempt,
                            if ok then SubprocessCompleted else SubprocessFailed,
                            if ok then AllowWord else PreviewOnly));
  }

  /** From the started state one execution row and one contract row follow. */
  ghost predicate ScriptEnds(
      lib: Library, s: State, t: State, p: Preview, script: string, req: ExecuteIn, who: Principal, env: Env,
      x: Execution)
  {
    var u := Started(s, p, script, req, who, env);
    && t.failureEvents == s.failureEvents && t.previews == s.previews && t.spawns == u.spawns
    && t.executions == s.executions + [x] && AuditGrows(lib, u.audit, t.audit, 1)
  }

  lemma RunScriptShape(
      lib: Library, s: State, p: Preview, script: string, req: ExecuteIn, who: Principal, env: Env,
      outcome: ProcessOutcome)
    ensures var t := RunScript(lib, s, p, script, req, who, env, outcome).0;
            ExecuteShape(lib, s, t, Live(p, script), req, who, env, outcome)
  {
    var t := RunScript(lib, s, p, script, req, who, env, outcome).0;
    match outcome {
      case Timeout => TimeoutShape(lib, s, p, script, req, who, env);
      case Completed(ok) => CompletedShape(lib, s, p, script, req, who, env, ok);
      case Crashed =>
    }
    PendingThen(lib, s.audit, PendingRow(who, req, script), t.audit, ContractsOf(Live(p, script), outcome));
  }

  lemma BlockShape(lib: Library, s: State, p: Preview, req: ExecuteIn, who: Principal, why: Wording)
    ensures var t := Block(lib, s, p, req, who, why).0;
            && t.failureEvents == s.failureEvents && t.previews == s.previews && t.spawns == s.spawns
            && t.executions == s.executions + [MakeExecution(p, req, who, Blocked, why)]
            && AuditGrows(lib, s.audit, t.audit, 1)
  {
    GrowsByBoth(lib, s.audit, Legacy(who.operatorId, ExecuteWord, NoWord, "", BlockedWord, why),
                MakePayload(p, req, who, RemediationBlocked, why, BlockedWord));
  }

  /** The exits that raise after finding the preview. */
  lemma RaisedShape(
      lib: Library, s: State, x: Exit, req: ExecuteIn, who: Principal, env: Env, outcome: ProcessOutcome)
    requires x.UnknownAction? || x.PhraseMismatch? || x.NotAllowlisted?
    ensures ExecuteShape(lib, s, Perform(lib, s, x, req, who, env, outcome).0, x, req, who, env, outcome)
  {
    var why := if x.UnknownAction? then UnknownActionWord
               else if x.PhraseMismatch? then ConfirmationPhraseMismatch else ScriptNotAllowlisted;
    GrowsByContract(lib, s.audit, MakePayload(x.p, req, who, RemediationBlocked, why, BlockedWord));
  }

  /** The exits that answer without starting a script. */
  lemma AnsweredShape(
      lib: Library, s: State, x: Exit, req: ExecuteIn, who: Principal, env: Env, outcome: ProcessOutcome)
    requires x.PolicyBlocked? || x.ManualOnly? || x.DryRunOnly? || x.NotWindows?
    ensures ExecuteShape(lib, s, Perform(lib, s, x, req, who, env, outcome).0, x, req, who, env, outcome)
  {
    match x {
      case PolicyBlocked(p, why) => BlockShape(lib, s, p, req, who, why);
      case ManualOnly(p) => BlockShape(lib, s, p, req, who, ManualOnlyOrApiExecuteDisabled);
      case DryRunOnly(p) =>
        AttemptShape(lib, s, p, req, who, ExecutionResult.DryRun, DryRunNoSubprocess, PreviewOnly, true);
      case NotWindows(p) =>
        AttemptShape(lib, s, p, req, who, Failure, ExecutionOnlyOnWindows, BlockedWord, false);
    }
  }

  /** Every execute call, by the exit it takes. */
  lemma PerformShape(
      lib: Library, s: State, x: Exit, req: ExecuteIn, who: Principal, env: Env, outcome: ProcessOutcome)
    ensures ExecuteShape(lib, s, Perform(lib, s, x, req, who, env, outcome).0, x, req, who, env, outcome)
  {
    match x {
      case RbacDenied =>
      case DemoMode =>
      case PreviewMissing =>
      case Live(p, script) => RunScriptShape(lib, s, p, script, req, who, env, outcome);
      case UnknownAction(_) => RaisedShape(lib, s, x, req, who, env, outcome);
      case PhraseMismatch(_) => RaisedShape(lib, s, x, req, who, env, outcome);
      case NotAllowlisted(_) => RaisedShape(lib, s, x, req, who, env, outcome);
      case _ => AnsweredShape(lib, s, x, req, who, env, outcome);
    }
  }

  /** No call changes or removes a row of any log. */
  lemma LogsOnlyGrow(lib: Library, s: State, call: Call)
    ensures var t := Step(lib, s, call);
            && s.failureEvents <= t.failureEvents && s.previews <= t.previews && s.executions <= t.executions
            && s.audit <= t.audit && s.spawns <= t.spawns
  {
    match call {
      case IngestCall(_, _) =>
      case PreviewCall(_, _, _, _, _) =>
      case ExecuteCall(req, who, env, outcome) =>
        PerformShape(lib, s, Gate(lib, s, req, who, env), req, who, env, outcome);
    }
  }

  /** A contract row written right after a legacy row starts a new hash chain; every preview does this. */
  lemma PreviewsRestartTheChain(
      lib: Library, s: State, id: string, ev: string, action: string, surface: Surface, who: Principal)
    requires MakePreview(lib, s, id, ev, action, surface, who).1.Previewed?
    ensures var audit := MakePreview(lib, s, id, ev, action, surface, who).0.audit;
            audit != [] && audit[|audit| - 1].Contract? && audit[|audit| - 1].previousHash == ""
  {
  }

  // ----- the invariant -----

  /** A preview row was built from a stored failure event under the registry. */
  ghost predicate BuiltFromEvent(lib: Library, events: seq<FailureEvent>, p: Preview)
  {
    exists e, surface :: e in events && p == BuildPreview(p.previewId, e, p.action, lib.lookup(p.action), surface)
  }

  /** An execution row names a stored preview and repeats its action and endpoint. */
  ghost predicate NamesStoredPreview(previews: seq<Preview>, x: Execution)
  {
    exists p :: p in previews && p.previewId == x.previewId && p.action == x.action && p.endpointId == x.endpointId
  }

  /** Everything that must have held for a script to start, and the pending row right before it. */
  ghost predicate Justified(lib: Library, previews: seq<Preview>, audit: seq<AuditRow>, sp: Spawn)
  {
    && sp.preview in previews && sp.preview.previewId == sp.request.previewId
    && sp.principal.role == Admin && !sp.request.dryRun
    && !sp.env.demo && sp.env.windows && sp.env.scriptExists(sp.script)
    && LiveScript(lib.lookup(sp.preview.action), sp.script)
    && (sp.preview.requiresConfirmation ==>
          PhraseAccepted(lib.lookup(sp.preview.action), lib.strip(sp.request.confirmationPhrase)))
    && 0 < sp.auditLength <= |audit|
    && audit[sp.auditLength - 1] == PendingRow(sp.principal, sp.request, sp.script)
  }

  ghost predicate Invariant(lib: Library, s: State)
  {
    && (forall p :: p in s.previews ==> BuiltFromEvent(lib, s.failureEvents, p))
    && (forall x :: x in s.executions ==> NamesStoredPreview(s.previews, x))
    && (forall sp :: sp in s.spawns ==> Justified(lib, s.previews, s.audit, sp))
    && Linked(lib, s.audit)
  }

  lemma JustifiedGrows(lib: Library, previews: seq<Preview>, audit: seq<AuditRow>, audit': seq<AuditRow>, sp: Spawn)
    requires Justified(lib, previews, audit, sp) && audit <= audit'
    ensures Justified(lib, previews, audit', sp)
  {
  }

  lemma LiveJustified(lib: Library, s: State, t: State, req: ExecuteIn, who: Principal, env: Env)
    requires Gate(lib, s, req, who, env).Live?
    requires var x := Gate(lib, s, req, who, env);
             s.audit + [PendingRow(who, req, x.script)] <= t.audit && t.previews == s.previews
    ensures var x := Gate(lib, s, req, who, env);
            Justified(lib, t.previews, t.audit, Spawn(req, who, env, x.p, x.script, |s.audit| + 1))
  {
    var x := Gate(lib, s, req, who, env);
    assert (s.audit + [PendingRow(who, req, x.script)])[|s.audit|] == t.audit[|s.audit|];
  }

  lemma GateFindsPreview(lib: Library, s: State, req: ExecuteIn, who: Principal, env: Env)
    ensures var x := Gate(lib, s, req, who, env);
            FoundPreview(x) ==> x.p in s.previews && x.p.previewId == req.previewId
  {
  }

  lemma ExecuteKeepsInvariant(lib: Library, s: State, req: ExecuteIn, who: Principal, env: Env, outcome: ProcessOutcome)
    requires Invariant(lib, s)
    ensures Invariant(lib, Execute(lib, s, req, who, env, outcome).0)
  {
    var x := Gate(lib, s, req, who, env);
    var t := Execute(lib, s, req, who, env, outcome).0;
    PerformShape(lib, s, x, req, who, env, outcome);
    GateFindsPreview(lib, s, req, who, env);
    forall e | e in t.executions ensures NamesStoredPreview(t.previews, e) {
      if e !in s.executions {
        assert x.p in t.previews;
      }
    }
    forall sp | sp in t.spawns ensures Justified(lib, t.previews, t.audit, sp) {
      if sp in s.spawns {
        JustifiedGrows(lib, s.previews, s.audit, t.audit, sp);
      } else {
        LiveJustified(lib, s, t, req, who, env);
      }
    }
  }

  lemma BuiltGrows(lib: Library, events: seq<FailureEvent>, e: FailureEvent, p: Preview)
    requires BuiltFromEvent(lib, events, p)
    ensures BuiltFromEvent(lib, events + [e], p)
  {
    var d, surface :| d in events && p == BuildPreview(p.previewId, d, p.action, lib.lookup(p.action), surface);
    assert d in events + [e];
  }

  lemma IngestKeepsInvariant(lib: Library, s: State, e: FailureEvent, who: Principal)
    requires Invariant(lib, s)
    ensures Invariant(lib, Ingest(s, e, who).0)
  {
    var t := Ingest(s, e, who).0;
    if CanWrite(who) {
      var r := Legacy("agent", FailureEventIngest, EventTarget, e.eventId, NoWord, NoWord);
      GrowsByLegacy(lib, s.audit, r);
      forall p | p in t.previews ensures BuiltFromEvent(lib, t.failureEvents, p) {
        BuiltGrows(lib, s.failureEvents, e, p);
      }
      forall sp | sp in t.spawns ensures Justified(lib, t.previews, t.audit, sp) {
        JustifiedGrows(lib, s.previews, s.audit, t.audit, sp);
      }
    }
  }

  /** What a preview call appends when it succeeds. */
  lemma PreviewShape(
      lib: Library, s: State, id: string, ev: string, action: string, surface: Surface, who: Principal, p: Preview)
    requires MakePreview(lib, s, id, ev, action, surface, who).1 == Previewed(p)
    ensures var t := MakePreview(lib, s, id, ev, action, surface, who).0;
            && t == s.(previews := s.previews + [p], audit := t.audit)
            && AuditGrows(lib, s.audit, t.audit, 1)
            && BuiltFromEvent(lib, s.failureEvents, p)
  {
    var e := FindEvent(s, ev).value;
    GrowsByBoth(
      lib, s.audit,
      Legacy(who.operatorId, RemediationPreviewWord, FailureEventTarget, ev,
             if p.allowed then AllowedWord else BlockedWord, PolicyReason(p.reason)),
      Payload(p.endpointId, RemediationPreviewWord, PreviewRequestedFor(action),
              if p.allowed then PreviewOnly else BlockedWord, who.operatorId, p.previewId));
    assert e in s.failureEvents;
  }

  lemma PreviewKeepsInvariant(
      lib: Library, s: State, id: string, ev: string, action: string, surface: Surface, who: Principal)
    requires Invariant(lib, s)
    ensures Invariant(lib, MakePreview(lib, s, id, ev, action, surface, who).0)
  {
    var (t, r) := MakePreview(lib, s, id, ev, action, surface, who);
    if r.Previewed? {
      var p := r.preview;
      PreviewShape(lib, s, id, ev, action, surface, who, p);
      forall x | x in t.executions ensures NamesStoredPreview(t.previews, x) {
        var q :| q in s.previews && q.previewId == x.previewId && q.action == x.action && q.endpointId == x.endpointId;
        assert q in t.previews;
      }
      forall sp | sp in t.spawns ensures Justified(lib, t.previews, t.audit, sp) {
        JustifiedGrows(lib, s.previews, s.audit, t.audit, sp);
      }
    }
  }

  /** Every reachable state satisfies the invariant. */
  lemma {:induction false} RunsKeepInvariant(lib: Library, calls: seq<Call>)
    ensures Invariant(lib, Run(lib, calls))
  {
    if calls != [] {
      var s := Run(lib, calls[..|calls| - 1]);
      RunsKeepInvariant(lib, calls[..|calls| - 1]);
      match calls[|calls| - 1] {
        case IngestCall(e, who) => IngestKeepsInvariant(lib, s, e, who);
        case PreviewCall(id, ev, a, surface, who) => PreviewKeepsInvariant(lib, s, id, ev, a, surface, who);
        case ExecuteCall(req, who, env, outcome) => ExecuteKeepsInvariant(lib, s, req, who, env, outcome);
      }
    }
  }

  /**
   End to end, for the platform's own registry: whatever calls were made, a started script is the DNS
   or the proxy reset, an admin asked for it outside demo mode on Windows, its confirmation phrase was
   typed, it stems from a stored failure event, and the pending audit row precedes the start.
   */
  lemma SpawnSafety(lib: Library, calls: seq<Call>, sp: Spawn)
    requires forall a :: lib.lookup(a) == PlatformRegistry(a)
    requires sp in Run(lib, calls).spawns
    ensures sp.principal.role == Admin && !sp.request.dryRun && !sp.env.demo && sp.env.windows
    ensures sp.preview.action == "reset_dns" ==>
              sp.script == "reset_dns.bat" && lib.strip(sp.request.confirmationPhrase) == "RUN_DNS_RESET"
    ensures sp.preview.action == "reset_proxy" ==>
              sp.script == "reset_proxy.bat" && lib.strip(sp.request.confirmationPhrase) == "RUN_PROXY_RESET"
    ensures sp.preview.action == "reset_dns" || sp.preview.action == "reset_proxy"
    ensures exists e :: e in Run(lib, calls).failureEvents
                   && e.eventId == sp.preview.failureEventId && e.endpointId == sp.preview.endpointId
    ensures 0 < sp.auditLength <= |Run(lib, calls).audit|
    ensures var row := Run(lib, calls).audit[sp.auditLength - 1];
            && row.Legacy? && row.action == ExecuteLivePending && row.decision == PendingWord
            && row.actor == sp.principal.operatorId && row.targetId == sp.request.previewId
            && row.rationale == SpawnAllowlisted(sp.script)
  {
    var s := Run(lib, calls);
    RunsKeepInvariant(lib, calls);
    assert Justified(lib, s.previews, s.audit, sp);
    OnlyResetsRunLive(sp.preview.action, sp.script);
    assert BuiltFromEvent(lib, s.failureEvents, sp.preview);
  }

  // ----- where every execution row comes from -----

  /** Call `j` stored preview `p`, built from a failure event that was there before the call. */
  ghost predicate PreviewedAt(lib: Library, calls: seq<Call>, j: int, p: Preview)
  {
    && 0 <= j < |calls|
    && Run(lib, calls[..j + 1]).previews == Run(lib, calls[..j]).previews + [p]
    && BuiltFromEvent(lib, Run(lib, calls[..j]).failureEvents, p)
  }

  /** Call `k` stored execution `x`, naming a preview that was there before the call. */
  ghost predicate ExecutedAt(lib: Library, calls: seq<Call>, k: int, x: Execution, p: Preview)
  {
    && 0 <= k < |calls|
    && Run(lib, calls[..k + 1]).executions == Run(lib, calls[..k]).executions + [x]
    && p in Run(lib, calls[..k]).previews
    && p.previewId == x.previewId && p.action == x.action && p.endpointId == x.endpointId
  }

  /** What a prefix of a run did, the run did. */
  lemma PrefixTraces(lib: Library, calls: seq<Call>, n: nat, j: int, x: Execution, p: Preview)
    requires n <= |calls|
    ensures PreviewedAt(lib, calls[..n], j, p) ==> PreviewedAt(lib, calls, j, p)
    ensures ExecutedAt(lib, calls[..n], j, x, p) ==> ExecutedAt(lib, calls, j, x, p)
  {
    if 0 <= j < n { assert calls[..n][..j] == calls[..j] && calls[..n][..j + 1] == calls[..j + 1]; }
  }

  /** A call stores at most one preview, and builds it from an event that is already stored. */
  lemma StepPreviews(lib: Library, s: State, call: Call)
    ensures var t := Step(lib, s, call);
            t.previews == s.previews
            || exists p :: t.previews == s.previews + [p] && BuiltFromEvent(lib, s.failureEvents, p)
  {
    match call {
      case IngestCall(_, _) =>
      case PreviewCall(id, ev, a, surface, who) =>
        var r := MakePreview(lib, s, id, ev, a, surface, who).1;
        if r.Previewed? { PreviewShape(lib, s, id, ev, a, surface, who, r.preview); }
      case ExecuteCall(req, who, env, outcome) =>
        PerformShape(lib, s, Gate(lib, s, req, who, env), req, who, env, outcome);
    }
  }

  /** A call stores at most one execution, which names a preview that is already stored. */
  lemma StepExecutions(lib: Library, s: State, call: Call)
    ensures var t := Step(lib, s, call);
            t.executions == s.executions
            || exists x :: t.executions == s.executions + [x] && NamesStoredPreview(s.previews, x)
  {
    if call.ExecuteCall? {
      var x := Gate(lib, s, call.req, call.who, call.env);
      PerformShape(lib, s, x, call.req, call.who, call.env, call.outcome);
      GateFindsPreview(lib, s, call.req, call.who, call.env);
    }
  }

  /** Every preview was stored by some call, from an event stored earlier. */
  lemma {:induction false} PreviewsAreTraced(lib: Library, calls: seq<Call>, p: Preview)
    requires p in Run(lib, calls).previews
    ensures exists j :: PreviewedAt(lib, calls, j, p)
  {
    var n := |calls| - 1;
    var s := Run(lib, calls[..n]);
    StepPreviews(lib, s, calls[n]);
    if p in s.previews {
      PreviewsAreTraced(lib, calls[..n], p);
      var j :| PreviewedAt(lib, calls[..n], j, p);
      PrefixTraces(lib, calls, n, j, Execution("", "", "", "", Blocked, NoWord), p);
    } else {
      assert calls[..n + 1] == calls;
      assert PreviewedAt(lib, calls, n, p);
    }
  }

  lemma {:induction false} ExecutionsNamePreviews(lib: Library, calls: seq<Call>, x: Execution)
    requires x in Run(lib, calls).executions
    ensures exists k, p :: ExecutedAt(lib, calls, k, x, p)
  {
    var n := |calls| - 1;
    var s := Run(lib, calls[..n]);
    StepExecutions(lib, s, calls[n]);
    if x in s.executions {
      ExecutionsNamePreviews(lib, calls[..n], x);
      var k, p :| ExecutedAt(lib, calls[..n], k, x, p);
      PrefixTraces(lib, calls, n, k, x, p);
    } else {
      assert calls[..n + 1] == calls;
      var p :| p in s.previews && p.previewId == x.previewId && p.action == x.action && p.endpointId == x.endpointId;
      assert ExecutedAt(lib, calls, n, x, p);
    }
  }

  /**
   Every execution row was written by some call `k`; the preview it names was stored by an earlier call
   `j`, from a failure event stored before that.
   */
  lemma ExecutionsAreTraced(lib: Library, calls: seq<Call>, x: Execution)
    requires x in Run(lib, calls).executions
    ensures exists j, k, p :: j < k && PreviewedAt(lib, calls, j, p) && ExecutedAt(lib, calls, k, x, p)
  {
    ExecutionsNamePreviews(lib, calls, x);
    var k, p :| ExecutedAt(lib, calls, k, x, p);
    PreviewsAreTraced(lib, calls[..k], p);
    var j :| PreviewedAt(lib, calls[..k], j, p);
    PrefixTraces(lib, calls, k, j, x, p);
    assert j < k && PreviewedAt(lib, calls, j, p);
  }

  // ----- exactly when a script starts -----

  /** The conjunction the handler's checks amount to. */
  ghost predicate MayRun(lib: Library, s: State, req: ExecuteIn, who: Principal, env: Env)
  {
    && who.role == Admin && !req.dryRun && !env.demo && env.windows
    && var found := FindPreview(s, req.previewId);
    && found.Some?
    && var def := lib.lookup(found.value.action);
    && (found.value.requiresConfirmation ==> PhraseAccepted(def, lib.strip(req.confirmationPhrase)))
    && exists script :: LiveScript(def, script) && env.scriptExists(script)
  }

  /** A call starts a script exactly when every one of those conditions holds. */
  lemma SpawnsIff(lib: Library, s: State, req: ExecuteIn, who: Principal, env: Env, outcome: ProcessOutcome)
    ensures |Execute(lib, s, req, who, env, outcome).0.spawns|
            == |s.spawns| + (if MayRun(lib, s, req, who, env) then 1 else 0)
  {
    PerformShape(lib, s, Gate(lib, s, req, who, env), req, who, env, outcome);
    LiveIff(lib, s, req, who, env);
  }

  /** The gate lets a call through exactly under that conjunction. */
  lemma LiveIff(lib: Library, s: State, req: ExecuteIn, who: Principal, env: Env)
    ensures Gate(lib, s, req, who, env).Live? <==> MayRun(lib, s, req, who, env)
  {
    var found := FindPreview(s, req.previewId);
    if found.Some? && lib.lookup(found.value.action).Some? {
      var p, def := found.value, lib.lookup(found.value.action).value;
      if Evaluate(Some(def), Api).allowed { ConfirmedLiveIff(p, def, req, env); }
      assert GateKnown(lib, p, def, req, env).Live?
          <==> Evaluate(Some(def), Api).allowed
               && (p.requiresConfirmation ==> PhraseAccepted(Some(def), lib.strip(req.confirmationPhrase)))
               && GateConfirmed(p, def, req, env).Live?;
    }
  }

  lemma ConfirmedLiveIff(p: Preview, def: ActionDef, req: ExecuteIn, env: Env)
    requires Evaluate(Some(def), Api).allowed
    ensures GateConfirmed(p, def, req, env).Live?
            <==> && !req.dryRun && env.windows
                 && exists script :: LiveScript(Some(def), script) && env.scriptExists(script)
  {
    if GateConfirmed(p, def, req, env).Live? { assert LiveScript(Some(def), def.script.value); }
  }

  // ----- exactly when a row is written -----

  /** The checks before the preview is looked up. */
  predicate Permitted(req: ExecuteIn, who: Principal, env: Env)
  {
    if req.dryRun then who.role == Operator || who.role == Admin else who.role == Admin && !env.demo
  }

  /** The call may read previews and its preview is stored. */
  predicate Reaches(s: State, req: ExecuteIn, who: Principal, env: Env)
  {
    Permitted(req, who, env) && FindPreview(s, req.previewId).Some?
  }

  /** A live call that `subprocess.run` ends with an exception of its own. */
  ghost predicate DiesRunning(
      lib: Library, s: State, req: ExecuteIn, who: Principal, env: Env, outcome: ProcessOutcome)
  {
    outcome.Crashed? && MayRun(lib, s, req, who, env)
  }

  /** An execute call writes one contract row exactly when it reaches a preview and the script does not crash. */
  lemma ContractRowIff(lib: Library, s: State, req: ExecuteIn, who: Principal, env: Env, outcome: ProcessOutcome)
    ensures ContractRows(Execute(lib, s, req, who, env, outcome).0.audit)
            == ContractRows(s.audit)
               + (if Reaches(s, req, who, env) && !DiesRunning(lib, s, req, who, env, outcome) then 1 else 0)
  {
    PerformShape(lib, s, Gate(lib, s, req, who, env), req, who, env, outcome);
    LiveIff(lib, s, req, who, env);
    FoundIff(lib, s, req, who, env);
  }

  lemma FoundIff(lib: Library, s: State, req: ExecuteIn, who: Principal, env: Env)
    ensures FoundPreview(Gate(lib, s, req, who, env)) <==> Reaches(s, req, who, env)
  {
  }

  /** Past the policy the typed phrase counts, and a live script must be one that can be started. */
  predicate Answerable(lib: Library, p: Preview, def: ActionDef, req: ExecuteIn, env: Env)
  {
    && (p.requiresConfirmation ==> PhraseAccepted(Some(def), lib.strip(req.confirmationPhrase)))
    && (|| req.dryRun || def.manualOnly || !def.apiExecuteAllowed || def.script.None? || !env.windows
        || (def.script.value in ALLOWLIST && env.scriptExists(def.script.value)))
  }

  /** Every condition for an execution row but the script's own ending. */
  predicate MayRecord(lib: Library, s: State, req: ExecuteIn, who: Principal, env: Env)
  {
    && Reaches(s, req, who, env)
    && var p := FindPreview(s, req.previewId).value;
    && lib.lookup(p.action).Some?
    && var def := lib.lookup(p.action).value;
    && (Evaluate(Some(def), Api).allowed ==> Answerable(lib, p, def, req, env))
  }

  /**
   An execute call writes one execution row exactly when role and mode permit it, its preview is stored,
   its action is registered, and either the policy blocks it or the phrase is right and the script, if one
   is to run, is allowlisted, present and does not crash.
   */
  lemma ExecutionRowIff(lib: Library, s: State, req: ExecuteIn, who: Principal, env: Env, outcome: ProcessOutcome)
    ensures |Execute(lib, s, req, who, env, outcome).0.executions|
            == |s.executions|
               + (if MayRecord(lib, s, req, who, env) && !DiesRunning(lib, s, req, who, env, outcome) then 1 else 0)
  {
    PerformShape(lib, s, Gate(lib, s, req, who, env), req, who, env, outcome);
    LiveIff(lib, s, req, who, env);
    RefusedIff(lib, s, req, who, env);
  }

  /** The exits that raise before a script could start. */
  predicate RefusedExit(x: Exit)
  {
    x.UnknownAction? || x.PhraseMismatch? || x.NotAllowlisted? || !FoundPreview(x)
  }

  lemma RefusedIff(lib: Library, s: State, req: ExecuteIn, who: Principal, env: Env)
    ensures RefusedExit(Gate(lib, s, req, who, env)) <==> !MayRecord(lib, s, req, who, env)
  {
    FoundIff(lib, s, req, who, env);
    if Reaches(s, req, who, env) && lib.lookup(FindPreview(s, req.previewId).value.action).Some? {
      var p := FindPreview(s, req.previewId).value;
      KnownRefusedIff(lib, p, lib.lookup(p.action).value, req, env);
    }
  }

  lemma KnownRefusedIff(lib: Library, p: Preview, def: ActionDef, req: ExecuteIn, env: Env)
    ensures RefusedExit(GateKnown(lib, p, def, req, env))
            <==> Evaluate(Some(def), Api).allowed && !Answerable(lib, p, def, req, env)
  {
  }

  // ----- what an execute call reports -----

  /** The call gets past the policy and, where one is asked for, the typed phrase. */
  predicate PastPhrase(lib: Library, s: State, req: ExecuteIn, who: Principal, env: Env)
  {
    && Reaches(s, req, who, env)
    && var p := FindPreview(s, req.previewId).value;
    && lib.lookup(p.action).Some? && Evaluate(lib.lookup(p.action), Api).allowed
    && (p.requiresConfirmation ==> PhraseAccepted(lib.lookup(p.action), lib.strip(req.confirmationPhrase)))
  }

  /** The registered action may not run through the API. */
  predicate HandsOff(lib: Library, s: State, req: ExecuteIn)
    requires FindPreview(s, req.previewId).Some? && lib.lookup(FindPreview(s, req.previewId).value.action).Some?
  {
    var def := lib.lookup(FindPreview(s, req.previewId).value.action).value;
    def.manualOnly || !def.apiExecuteAllowed
  }

  predicate HasScript(lib: Library, s: State, req: ExecuteIn)
    requires FindPreview(s, req.previewId).Some? && lib.lookup(FindPreview(s, req.previewId).value.action).Some?
  {
    lib.lookup(FindPreview(s, req.previewId).value.action).value.script.Some?
  }

  /** When a call is answered as blocked: by the policy, or live although the action is hands-off. */
  predicate BlockedCall(lib: Library, s: State, req: ExecuteIn, who: Principal, env: Env)
  {
    && Reaches(s, req, who, env)
    && lib.lookup(FindPreview(s, req.previewId).value.action).Some?
    && if Evaluate(lib.lookup(FindPreview(s, req.previewId).value.action), Api).allowed
       then PastPhrase(lib, s, req, who, env) && !req.dryRun && HandsOff(lib, s, req) else true
  }

  /** When a call is answered as a dry run: asked for as one, or live with nothing to run. */
  predicate DryCall(lib: Library, s: State, req: ExecuteIn, who: Principal, env: Env)
  {
    PastPhrase(lib, s, req, who, env) && (req.dryRun || (!HandsOff(lib, s, req) && !HasScript(lib, s, req)))
  }

  /** The exit a call takes, by these conditions. */
  lemma ExitIff(lib: Library, s: State, req: ExecuteIn, who: Principal, env: Env)
    ensures var x := Gate(lib, s, req, who, env);
            && (x.PolicyBlocked? || x.ManualOnly? <==> BlockedCall(lib, s, req, who, env))
            && (x.DryRunOnly? <==> DryCall(lib, s, req, who, env))
  {
    if Reaches(s, req, who, env) && lib.lookup(FindPreview(s, req.previewId).value.action).Some? {
      var p := FindPreview(s, req.previewId).value;
      var def := lib.lookup(p.action).value;
      assert Gate(lib, s, req, who, env) == GateKnown(lib, p, def, req, env);
    }
  }

  /** Which answer a call gets: every status code by its own condition. */
  lemma ResponseIff(lib: Library, s: State, req: ExecuteIn, who: Principal, env: Env, outcome: ProcessOutcome)
    ensures var r := Execute(lib, s, req, who, env, outcome).1;
            && (r.Refused? && r.code == 403 <==> !Permitted(req, who, env))
            && (r == Refused(403, DemoModeBlocks) <==> who.role == Admin && !req.dryRun && env.demo)
            && (r.Refused? && r.code == 404 <==> Permitted(req, who, env) && FindPreview(s, req.previewId).None?)
            && (r.Refused? && r.code == 400 <==> Reaches(s, req, who, env) && !MayRecord(lib, s, req, who, env))
            && (r.Refused? && r.code == 500 <==> DiesRunning(lib, s, req, who, env, outcome))
            && (r.Executed? <==> MayRecord(lib, s, req, who, env) && !DiesRunning(lib, s, req, who, env, outcome))
  {
    LiveIff(lib, s, req, who, env);
    RefusedIff(lib, s, req, who, env);
    FoundIff(lib, s, req, who, env);
  }

  /** An answered call reports the row it stored, under the caller's name, with a result by these conditions. */
  lemma ResultIff(lib: Library, s: State, req: ExecuteIn, who: Principal, env: Env, outcome: ProcessOutcome)
    ensures var (t, r) := Execute(lib, s, req, who, env, outcome);
            r.Executed? ==>
            var x := r.execution;
            && t.executions == s.executions + [x] && x.confirmedBy == who.operatorId
            && (x.result == Success <==> MayRun(lib, s, req, who, env) && outcome == Completed(true))
            && (x.result == ExecutionResult.DryRun <==> DryCall(lib, s, req, who, env))
            && (x.result == Blocked <==> BlockedCall(lib, s, req, who, env))
            && (r.allowed <==> x.result == Success || x.result == ExecutionResult.DryRun)
  {
    LiveIff(lib, s, req, who, env);
    ExitIff(lib, s, req, who, env);
  }

  /** What the contract row of an execute call says. */
  ghost predicate ContractFits(row: AuditRow, p: Preview, req: ExecuteIn, who: Principal, r: Response, started: bool)
  {
    && row.Contract?
    && row.payload.endpointId == p.endpointId && row.payload.actor == who.operatorId
    && row.payload.replayRef == req.previewId
    && (row.payload.kind == RemediationBlocked <==> !(r.Executed? && r.execution.result != Blocked))
    && (row.payload.kind == RemediationExecuteAttempt <==> r.Executed? && r.execution.result != Blocked)
    && (row.payload.policyDecision == AllowWord <==> r.Executed? && r.execution.result == Success)
    && (row.payload.policyDecision == PreviewOnly
        <==> && r.Executed?
             && (r.execution.result == ExecutionResult.DryRun || (started && r.execution.result == Failure)))
    && (r.Executed? ==> r.decision == row.payload.policyDecision)
  }

  /** A call that reaches its preview ends the audit log with a contract row that fits its answer, unless it crashes. */
  lemma ContractSays(lib: Library, s: State, req: ExecuteIn, who: Principal, env: Env, outcome: ProcessOutcome)
    requires Reaches(s, req, who, env) && !DiesRunning(lib, s, req, who, env, outcome)
    ensures var (t, r) := Execute(lib, s, req, who, env, outcome);
            && t.audit != []
            && ContractFits(t.audit[|t.audit| - 1], FindPreview(s, req.previewId).value, req, who, r,
                            MayRun(lib, s, req, who, env))
  {
    LiveIff(lib, s, req, who, env);
    GateNamesFound(lib, s, req, who, env);
    PerformSays(lib, s, Gate(lib, s, req, who, env), req, who, env, outcome);
  }

  lemma PerformSays(
      lib: Library, s: State, x: Exit, req: ExecuteIn, who: Principal, env: Env, outcome: ProcessOutcome)
    requires FoundPreview(x) && !Crashes(x, outcome)
    ensures var (t, r) := Perform(lib, s, x, req, who, env, outcome);
            t.audit != [] && ContractFits(t.audit[|t.audit| - 1], x.p, req, who, r, x.Live?)
  {
    if x.Live? { ScriptSays(lib, s, x.p, x.script, req, who, env, outcome); }
  }

  lemma ScriptSays(
      lib: Library, s: State, p: Preview, script: string, req: ExecuteIn, who: Principal, env: Env,
      outcome: ProcessOutcome)
    requires !outcome.Crashed?
    ensures var (t, r) := RunScript(lib, s, p, script, req, who, env, outcome);
            t.audit != [] && ContractFits(t.audit[|t.audit| - 1], p, req, who, r, true)
  {
  }

  lemma GateNamesFound(lib: Library, s: State, req: ExecuteIn, who: Principal, env: Env)
    requires Reaches(s, req, who, env)
    ensures FoundPreview(Gate(lib, s, req, who, env))
    ensures Gate(lib, s, req, who, env).p == FindPreview(s, req.previewId).value
  {
  }

  /** A blocked call and a completed script leave a plain row with the verdict before the contract row. */
  lemma LegacySays(lib: Library, s: State, req: ExecuteIn, who: Principal, env: Env, outcome: ProcessOutcome)
    ensures var (t, r) := Execute(lib, s, req, who, env, outcome);
            && (BlockedCall(lib, s, req, who, env) ==>
                  && r.Executed? && r.decision == BlockedWord && r.execution.note == r.reason
                  && |t.audit| == |s.audit| + 2
                  && t.audit[|s.audit|] == Legacy(who.operatorId, ExecuteWord, NoWord, "", BlockedWord, r.reason))
            && (MayRun(lib, s, req, who, env) && outcome.Completed? ==>
                  && r.Executed? && r.reason == (if outcome.ok then SuccessWord else FailureWord)
                  && |t.audit| == |s.audit| + 3
                  && t.audit[|s.audit| + 1]
                     == Legacy(who.operatorId, ExecuteWord, PreviewTarget, req.previewId, r.reason, NoWord))
            && (MayRun(lib, s, req, who, env) && outcome.Timeout? ==>
                  r.Executed? && r.reason == r.execution.note == TimeoutWord)
            && (DryCall(lib, s, req, who, env) ==> r.Executed? && r.reason == r.execution.note == DryRunNoSubprocess)
  {
    LiveIff(lib, s, req, who, env);
    ExitIff(lib, s, req, who, env);
  }

  /** How many audit rows an execute call writes in all. */
  lemma AuditRowsExact(lib: Library, s: State, req: ExecuteIn, who: Principal, env: Env, outcome: ProcessOutcome)
    ensures |Execute(lib, s, req, who, env, outcome).0.audit| - |s.audit|
            == if !Reaches(s, req, who, env) then 0
               else if MayRun(lib, s, req, who, env) then
                 (if outcome.Completed? then 3 else if outcome.Timeout? then 2 else 1)
               else if BlockedCall(lib, s, req, who, env) then 2 else 1
  {
    LiveIff(lib, s, req, who, env);
    FoundIff(lib, s, req, who, env);
    ExitIff(lib, s, req, who, env);
  }

  // ----- what the other two calls report -----

  /** An operator or admin stores exactly the event sent, with one audit row; nobody else stores anything. */
  lemma IngestIff(s: State, e: FailureEvent, who: Principal)
    ensures var (t, r) := Ingest(s, e, who);
            if who.role == Operator || who.role == Admin
            then && r == Stored && t.failureEvents == s.failureEvents + [e] && |t.audit| == |s.audit| + 1
                 && t.audit[|s.audit|].Legacy? && t.audit[|s.audit|].targetId == e.eventId
                 && t.audit[|s.audit|].action == FailureEventIngest && t.audit[|s.audit|].actor == "agent"
                 && t == s.(failureEvents := t.failureEvents, audit := t.audit)
            else r.Refused? && r.code == 403 && t == s
  {
  }

  /** When a preview is stored, and what it says: ids from the newest event, verdict and phrase from the registry. */
  lemma PreviewIff(
      lib: Library, s: State, id: string, ev: string, action: string, surface: Surface, who: Principal)
    ensures var (t, r) := MakePreview(lib, s, id, ev, action, surface, who);
            var def := lib.lookup(action);
            && (r.Previewed? <==> who.role in {Operator, Admin} && !ShellInjection(action) && FindEvent(s, ev).Some?)
            && (r.Refused? && r.code == 403 <==> who.role !in {Operator, Admin})
            && (r.Refused? && r.code == 400 <==> who.role in {Operator, Admin} && ShellInjection(action))
            && (!r.Previewed? ==> t == s)
            && (r.Previewed? ==>
                  var p := r.preview;
                  && t.previews == s.previews + [p] && |t.audit| == |s.audit| + 2
                  && p.previewId == id && p.action == action
                  && p.failureEventId == FindEvent(s, ev).value.eventId == ev
                  && p.endpointId == FindEvent(s, ev).value.endpointId
                  && p.allowed == Evaluate(def, surface).allowed && p.reason == Evaluate(def, surface).reason
                  && (def.Some? ==> p.phrase == def.value.phrase)
                  && (p.requiresConfirmation
                      <==> def.None? || (def.value.risk in {LowRisk, MediumRisk} && def.value.phrase != ""))
                  && PreviewFits(t.audit[|s.audit| + 1], p, who))
  {
  }

  ghost predicate PreviewFits(row: AuditRow, p: Preview, who: Principal)
  {
    && row.Contract? && row.payload.kind == RemediationPreviewWord
    && row.payload.endpointId == p.endpointId && row.payload.actor == who.operatorId
    && row.payload.replayRef == p.previewId
    && (row.payload.policyDecision == PreviewOnly <==> p.allowed)
    && (row.payload.policyDecision == BlockedWord <==> !p.allowed)
  }

  /** Lookups return the newest row with the id. */
  lemma FindsNewest(s: State, id: string)
    ensures var found := FindPreview(s, id);
            if found.Some? then
              exists k :: 0 <= k < |s.previews| && s.previews[k] == found.value && s.previews[k].previewId == id
                     && forall j :: k < j < |s.previews| ==> s.previews[j].previewId != id
            else forall j :: 0 <= j < |s.previews| ==> s.previews[j].previewId != id
    ensures var found := FindEvent(s, id);
            if found.Some? then
              exists k :: 0 <= k < |s.failureEvents| && s.failureEvents[k] == found.value
                     && s.failureEvents[k].eventId == id
                     && forall j :: k < j < |s.failureEvents| ==> s.failureEvents[j].eventId != id
            else forall j :: 0 <= j < |s.failureEvents| ==> s.failureEvents[j].eventId != id
  {
    LastIsNewest(s.previews, (p: Preview) => p.previewId == id);
    LastIsNewest(s.failureEvents, (e: FailureEvent) => e.eventId == id);
  }

  // ----- counting -----

  /**
   The contract rows a call owes: one per stored preview, and one per execute call that reaches its
   preview unless the started script crashes.
   */
  ghost function Owed(lib: Library, s: State, call: Call): (n: nat)
  {
    match call
    case IngestCall(_, _) => 0
    case PreviewCall(id, ev, a, surface, who) =>
      if who.role in {Operator, Admin} && !ShellInjection(a) && FindEvent(s, ev).Some? then 1 else 0
    case ExecuteCall(req, who, env, outcome) =>
      if Reaches(s, req, who, env) && !DiesRunning(lib, s, req, who, env, outcome) then 1 else 0
  }

  ghost function TotalOwed(lib: Library, calls: seq<Call>): (n: nat)
  {
    if calls == [] then 0
    else TotalOwed(lib, calls[..|calls| - 1]) + Owed(lib, Run(lib, calls[..|calls| - 1]), calls[|calls| - 1])
  }

  lemma StepAudit(lib: Library, s: State, call: Call)
    ensures AuditGrows(lib, s.audit, Step(lib, s, call).audit, Owed(lib, s, call))
  {
    match call {
      case IngestCall(e, who) =>
        var row := Legacy("agent", FailureEventIngest, EventTarget, e.eventId, NoWord, NoWord);
        if CanWrite(who) { GrowsByLegacy(lib, s.audit, row); }
      case PreviewCall(id, ev, a, surface, who) =>
        var r := MakePreview(lib, s, id, ev, a, surface, who).1;
        if r.Previewed? { PreviewShape(lib, s, id, ev, a, surface, who, r.preview); }
      case ExecuteCall(req, who, env, outcome) =>
        PerformShape(lib, s, Gate(lib, s, req, who, env), req, who, env, outcome);
        LiveIff(lib, s, req, who, env);
        FoundIff(lib, s, req, who, env);
    }
  }

  /** Over every run the audit log holds exactly the contract rows owed, and they are all linked. */
  lemma {:induction false} ContractRowsExact(lib: Library, calls: seq<Call>)
    ensures ContractRows(Run(lib, calls).audit) == TotalOwed(lib, calls)
    ensures Linked(lib, Run(lib, calls).audit)
  {
    if calls != [] {
      ContractRowsExact(lib, calls[..|calls| - 1]);
      StepAudit(lib, Run(lib, calls[..|calls| - 1]), calls[|calls| - 1]);
    }
  }

  // ----- two runs that fall short of "always recorded" -----

  const LIBRARY := Library(PlatformRegistry, (s: string) => s, (d: Payload, h: string) => "")

  const ADMIN := Principal("a", Admin)

  const DESKTOP := Env(true, false, (script: string) => true)

  /** A failure event, a preview of the DNS reset, and an attempt to run it. */
  function Attempted(phrase: string, outcome: ProcessOutcome): (calls: seq<Call>)
  {
    [IngestCall(FailureEvent("e", "h", ""), ADMIN),
     PreviewCall("p", "e", "reset_dns", Api, ADMIN),
     ExecuteCall(ExecuteIn("p", phrase, false), ADMIN, DESKTOP, outcome)]
  }

  lemma RunThree(lib: Library, a: Call, b: Call, c: Call)
    ensures Run(lib, [a, b]) == Step(lib, Step(lib, EMPTY, a), b)
    ensures Run(lib, [a, b, c]) == Step(lib, Run(lib, [a, b]), c)
  {
    assert [a][..0] == [] && [a, b][..1] == [a] && [a, b, c][..2] == [a, b];
    assert Run(lib, [a]) == Step(lib, EMPTY, a);
  }

  lemma HarmlessName(action: string)
    requires action == "reset_dns"
    ensures !ShellInjection(action)
  {
  }

  lemma LastOfOne<R>(x: R, p: R -> bool)
    requires p(x)
    ensures Last([x], p) == Some(x)
  {
  }

  /** After the first two calls the preview of the DNS reset is stored. */
  lemma PreviewIsStored(phrase: string, outcome: ProcessOutcome)
    ensures var calls := Attempted(phrase, outcome);
            var s := Run(LIBRARY, calls[..2]);
            var p := BuildPreview("p", FailureEvent("e", "h", ""), "reset_dns", PlatformRegistry("reset_dns"), Api);
            && Run(LIBRARY, calls) == Step(LIBRARY, s, calls[2])
            && s.executions == [] && s.spawns == [] && FindPreview(s, "p") == Some(p)
  {
    var calls := Attempted(phrase, outcome);
    RunThree(LIBRARY, calls[0], calls[1], calls[2]);
    assert calls[..2] == [calls[0], calls[1]] && calls == [calls[0], calls[1], calls[2]];
    HarmlessName("reset_dns");
    var e := FailureEvent("e", "h", "");
    LastOfOne(e, (x: FailureEvent) => x.eventId == "e");
    var one := Step(LIBRARY, EMPTY, calls[0]);
    assert one.failureEvents == [e];
    var p := BuildPreview("p", e, "reset_dns", PlatformRegistry("reset_dns"), Api);
    LastOfOne(p, (x: Preview) => x.previewId == "p");
    assert Step(LIBRARY, one, calls[1]).previews == [p];
  }

  /** A wrong phrase: the preview is found and the attempt audited, but no execution row is written. */
  lemma WrongPhraseLeavesNoExecution(outcome: ProcessOutcome)
    ensures var calls := Attempted("", outcome);
            var s, t := Run(LIBRARY, calls[..2]), Run(LIBRARY, calls);
            && FindPreview(s, "p").Some? && t.executions == []
            && ContractRows(t.audit) == ContractRows(s.audit) + 1
  {
    var calls := Attempted("", outcome);
    var s := Run(LIBRARY, calls[..2]);
    var req := calls[2].req;
    PreviewIsStored("", outcome);
    OnlyResetsRunLive("reset_dns", "reset_dns.bat");
    ExecutionRowIff(LIBRARY, s, req, ADMIN, DESKTOP, outcome);
    ContractRowIff(LIBRARY, s, req, ADMIN, DESKTOP, outcome);
  }

  /** A crash: the preview is found and the script was started, but neither row is written. */
  lemma CrashLeavesNoRows()
    ensures var calls := Attempted("RUN_DNS_RESET", Crashed);
            var s, t := Run(LIBRARY, calls[..2]), Run(LIBRARY, calls);
            && FindPreview(s, "p").Some? && |t.spawns| == 1 && t.executions == []
            && ContractRows(t.audit) == ContractRows(s.audit)
  {
    var calls := Attempted("RUN_DNS_RESET", Crashed);
    var s := Run(LIBRARY, calls[..2]);
    var req := calls[2].req;
    PreviewIsStored("RUN_DNS_RESET", Crashed);
    OnlyResetsRunLive("reset_dns", "reset_dns.bat");
    assert MayRun(LIBRARY, s, req, ADMIN, DESKTOP);
    ExecutionRowIff(LIBRARY, s, req, ADMIN, DESKTOP, Crashed);
    ContractRowIff(LIBRARY, s, req, ADMIN, DESKTOP, Crashed);
    SpawnsIff(LIBRARY, s, req, ADMIN, DESKTOP, Crashed);
  }
}
