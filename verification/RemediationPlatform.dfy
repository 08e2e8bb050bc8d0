/**
 The remediation handlers as backend/platform_routes.py writes them: logs that are appended to, with
 early returns.  The object keeps the invariant of the state machine, so its laws hold of the object.
 */
module RemediationPlatform {
  import opened Logs
  import opened RemediationPolicy
  import opened Remediation
  import opened RemediationLaws

  class Platform {
    const lib: Library
    var failureEvents: seq<FailureEvent>
    var previews: seq<Preview>
    var executions: seq<Execution>
    var audit: seq<AuditRow>
    var spawns: seq<Spawn>

    ghost function Snapshot(): (s: State)
      reads this
    {
      State(failureEvents, previews, executions, audit, spawns)
    }

    /** What every reachable state satisfies. */
    ghost predicate Valid()
      reads this
    {
      Invariant(lib, Snapshot())
    }

    constructor (lib: Library)
      ensures Valid() && Snapshot() == EMPTY && this.lib == lib
    {
      this.lib := lib;
      failureEvents, previews, executions, audit, spawns := [], [], [], [], [];
    }

    method AppendContract(payload: Payload)
      modifies this`audit
      ensures audit == WithContract(lib, old(audit), payload)
      ensures |audit| == |old(audit)| + 1 && audit[|old(audit)|].Contract? && audit[|old(audit)|].payload == payload
      ensures LinkedAt(lib, audit, |old(audit)|)
    {
      var previous := "";
      if |audit| > 0 {
        match audit[|audit| - 1]
        case Contract(_, _, hash) => previous := hash;
        case Legacy(_, _, _, _, _, _) =>
      }
      audit := audit + [Contract(payload, previous, lib.digest(payload, previous))];
    }

    method IngestFailureEvent(e: FailureEvent, who: Principal) returns (r: Response)
      requires Valid()
      modifies this
      ensures Valid()
      ensures (Snapshot(), r) == Ingest(old(Snapshot()), e, who)
      ensures AuditGrows(lib, old(audit), audit, 0)
    {
      IngestKeepsInvariant(lib, Snapshot(), e, who);
      StepAudit(lib, Snapshot(), IngestCall(e, who));
      if !CanWrite(who) { return Refused(403, RbacWord); }
      failureEvents := failureEvents + [e];
      audit := audit + [Legacy("agent", FailureEventIngest, EventTarget, e.eventId, NoWord, NoWord)];
      return Stored;
    }

    method RemediationPreview(freshId: string, eventId: string, action: string, surface: Surface, who: Principal)
      returns (r: Response)
      requires Valid()
      modifies this
      ensures Valid()
      ensures (Snapshot(), r) == MakePreview(lib, old(Snapshot()), freshId, eventId, action, surface, who)
      ensures AuditGrows(lib, old(audit), audit, if r.Previewed? then 1 else 0)
    {
      PreviewKeepsInvariant(lib, Snapshot(), freshId, eventId, action, surface, who);
      StepAudit(lib, Snapshot(), PreviewCall(freshId, eventId, action, surface, who));
      if !CanPreview(who) { return Refused(403, RbacWord); }
      if ShellInjection(action) { return Refused(400, InvalidAction); }
      var found := FindLast(failureEvents, (e: FailureEvent) => e.eventId == eventId);
      if found.None? { return Refused(404, FailureEventNotFound); }
      var p := BuildPreview(freshId, found.value, action, lib.lookup(action), surface);
      StorePreview(p, eventId, action, who);
      return Previewed(p);
    }

    /** The preview row and its two audit rows. */
    method StorePreview(p: Preview, eventId: string, action: string, who: Principal)
      modifies this`previews, this`audit
      ensures previews == old(previews) + [p]
      ensures audit == WithContract(
                         lib,
                         old(audit) + [Legacy(who.operatorId, RemediationPreviewWord, FailureEventTarget, eventId,
                                              if p.allowed then AllowedWord else BlockedWord, PolicyReason(p.reason))],
                         Payload(p.endpointId, RemediationPreviewWord, PreviewRequestedFor(action),
                                 if p.allowed then PreviewOnly else BlockedWord, who.operatorId, p.previewId))
    {
      previews := previews + [p];
      audit := audit + [Legacy(who.operatorId, RemediationPreviewWord, FailureEventTarget, eventId,
                               if p.allowed then AllowedWord else BlockedWord, PolicyReason(p.reason))];
      AppendContract(Payload(p.endpointId, RemediationPreviewWord, PreviewRequestedFor(action),
                             if p.allowed then PreviewOnly else BlockedWord, who.operatorId, p.previewId));
    }

    method RemediationExecute(req: ExecuteIn, who: Principal, env: Env, outcome: ProcessOutcome) returns (r: Response)
      requires Valid()
      modifies this
      ensures Valid()
      ensures (Snapshot(), r) == Execute(lib, old(Snapshot()), req, who, env, outcome)
      ensures |spawns| == |old(spawns)| + (if MayRun(lib, old(Snapshot()), req, who, env) then 1 else 0)
      ensures AuditGrows(lib, old(audit), audit, Owed(lib, old(Snapshot()), ExecuteCall(req, who, env, outcome)))
      ensures |executions|
              == |old(executions)|
                 + (if MayRecord(lib, old(Snapshot()), req, who, env)
                       && !DiesRunning(lib, old(Snapshot()), req, who, env, outcome) then 1 else 0)
    {
      ExecutionRowIff(lib, Snapshot(), req, who, env, outcome);
      ExecuteKeepsInvariant(lib, Snapshot(), req, who, env, outcome);
      SpawnsIff(lib, Snapshot(), req, who, env, outcome);
      StepAudit(lib, Snapshot(), ExecuteCall(req, who, env, outcome));
      if !CanExecute(who, req.dryRun) { return Refused(403, RbacWord); }
      if env.demo && !req.dryRun { return Refused(403, DemoModeBlocks); }
      var found := FindLast(previews, (p: Preview) => p.previewId == req.previewId);
      if found.None? { return Refused(404, PreviewNotFound); }
      var p := found.value;
      var def := lib.lookup(p.action);
      if def.None? {
        AppendContract(MakePayload(p, req, who, RemediationBlocked, UnknownActionWord, BlockedWord));
        return Refused(400, UnknownActionDetail);
      }
      r := ExecuteKnown(p, def.value, req, who, env, outcome);
    }

    /** The checks that follow the registry lookup, in the order of the source. */
    method ExecuteKnown(
        p: Preview, def: ActionDef, req: ExecuteIn, who: Principal, env: Env, outcome: ProcessOutcome)
      returns (r: Response)
      modifies this
      ensures (Snapshot(), r)
              == Perform(lib, old(Snapshot()), GateKnown(lib, p, def, req, env), req, who, env, outcome)
    {
      var pd := Evaluate(Some(def), Api);
      if !pd.allowed {
        r := RecordBlocked(p, req, who, PolicyReason(pd.reason));
        return;
      }
      if p.requiresConfirmation {
        if !PhraseAccepted(Some(def), lib.strip(req.confirmationPhrase)) {
          r := RecordDenied(p, req, who, ConfirmationPhraseMismatch);
          return;
        }
      }
      r := ExecuteConfirmed(p, def, req, who, env, outcome);
    }

    method ExecuteConfirmed(
        p: Preview, def: ActionDef, req: ExecuteIn, who: Principal, env: Env, outcome: ProcessOutcome)
      returns (r: Response)
      modifies this
      ensures (Snapshot(), r)
              == Perform(lib, old(Snapshot()), GateConfirmed(p, def, req, env), req, who, env, outcome)
    {
      if !req.dryRun && (def.manualOnly || !def.apiExecuteAllowed) {
        r := RecordBlocked(p, req, who, ManualOnlyOrApiExecuteDisabled);
        return;
      }
      var script := def.script;
      if req.dryRun || script.None? {
        r := RecordAttempt(p, req, who, ExecutionResult.DryRun, DryRunNoSubprocess, PreviewOnly, true);
        return;
      }
      r := ExecuteScript(p, script.value, req, who, env, outcome);
    }

    /** The checks before a script starts. */
    method ExecuteScript(
        p: Preview, script: string, req: ExecuteIn, who: Principal, env: Env, outcome: ProcessOutcome)
      returns (r: Response)
      modifies this
      ensures (Snapshot(), r) == Perform(lib, old(Snapshot()), GateScript(p, script, env), req, who, env, outcome)
    {
      if !env.windows {
        r := RecordAttempt(p, req, who, Failure, ExecutionOnlyOnWindows, BlockedWord, false);
        return;
      }
      if script !in ALLOWLIST || !env.scriptExists(script) {
        r := RecordDenied(p, req, who, ScriptNotAllowlisted);
        return;
      }
      r := RunLive(p, script, req, who, env, outcome);
    }

    method RecordDenied(p: Preview, req: ExecuteIn, who: Principal, why: Wording) returns (r: Response)
      modifies this
      ensures (Snapshot(), r) == Deny(lib, old(Snapshot()), p, req, who, why)
      ensures executions == old(executions)
      ensures |audit| == |old(audit)| + 1 && audit[|old(audit)|].Contract?
    {
      AppendContract(MakePayload(p, req, who, RemediationBlocked, why, BlockedWord));
      return Refused(400, why);
    }

    method RecordBlocked(p: Preview, req: ExecuteIn, who: Principal, why: Wording) returns (r: Response)
      modifies this
      ensures (Snapshot(), r) == Block(lib, old(Snapshot()), p, req, who, why)
      ensures |executions| == |old(executions)| + 1 && NamesPreview(executions[|old(executions)|], p, req)
      ensures |audit| == |old(audit)| + 2 && audit[|old(audit)|].Legacy? && audit[|old(audit)| + 1].Contract?
    {
      var x := MakeExecution(p, req, who, Blocked, why);
      executions := executions + [x];
      audit := audit + [Legacy(who.operatorId, ExecuteWord, NoWord, "", BlockedWord, why)];
      AppendContract(MakePayload(p, req, who, RemediationBlocked, why, BlockedWord));
      return Executed(x, BlockedWord, why, false);
    }

    method RecordAttempt(
        p: Preview, req: ExecuteIn, who: Principal, result: ExecutionResult, summary: Wording, decision: Wording,
        allowed: bool)
      returns (r: Response)
      modifies this
      ensures (Snapshot(), r) == Attempt(lib, old(Snapshot()), p, req, who, result, summary, decision, allowed)
      ensures |executions| == |old(executions)| + 1 && NamesPreview(executions[|old(executions)|], p, req)
      ensures |audit| == |old(audit)| + 1 && audit[|old(audit)|].Contract?
    {
      var x := MakeExecution(p, req, who, result, summary);
      executions := executions + [x];
      AppendContract(MakePayload(p, req, who, RemediationExecuteAttempt, summary, decision));
      return Executed(x, decision, summary, allowed);
    }

    /** Writes the pending row, starts the script, then records how it ended. */
    method RunLive(p: Preview, script: string, req: ExecuteIn, who: Principal, env: Env, outcome: ProcessOutcome)
      returns (r: Response)
      modifies this
      ensures (Snapshot(), r) == RunScript(lib, old(Snapshot()), p, script, req, who, env, outcome)
      ensures |audit| > |old(audit)| && audit[|old(audit)|] == PendingRow(who, req, script)
      ensures spawns == old(spawns) + [Spawn(req, who, env, p, script, |old(audit)| + 1)]
      ensures outcome.Crashed? ==> executions == old(executions) && |audit| == |old(audit)| + 1
      ensures !outcome.Crashed? ==>
                && |executions| == |old(executions)| + 1 && NamesPreview(executions[|old(executions)|], p, req)
                && audit[|audit| - 1].Contract?
    {
      audit := audit + [PendingRow(who, req, script)];
      spawns := spawns + [Spawn(req, who, env, p, script, |audit|)];
      match outcome
      case Completed(ok) =>
        var x := MakeExecution(p, req, who, if ok then Success else Failure, NoWord);
        executions := executions + [x];
        var word := if ok then SuccessWord else FailureWord;
        audit := audit + [Legacy(who.operatorId, ExecuteWord, PreviewTarget, req.previewId, word, NoWord)];
        var summary := if ok then SubprocessCompleted else SubprocessFailed;
        var decision := if ok then AllowWord else PreviewOnly;
        AppendContract(MakePayload(p, req, who, RemediationExecuteAttempt, summary, decision));
        return Executed(x, decision, word, ok);
      case Crashed =>
        return Refused(500, InternalServerError);
      case Timeout =>
        r := RecordAttempt(p, req, who, Failure, TimeoutWord, PreviewOnly, false);
    }
  }
}
