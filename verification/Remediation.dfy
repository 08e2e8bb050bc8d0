/**
 The remediation gate of backend/platform_routes.py: failure events are ingested, previews are
 built from them, and previews are executed.  Every handler appends to JSONL logs; a live
 execution starts a subprocess.  Each handler call is one atomic step.
 */
module Remediation {
  import opened Logs
  import opened RemediationPolicy

  /** The fixed texts of responses and rows, and the three that carry a name. */
  datatype Wording =
    | NoWord
    | RbacWord | DemoModeBlocks | InternalServerError | InvalidAction | FailureEventNotFound | PreviewNotFound
    | UnknownActionDetail
    | UnknownActionWord | ConfirmationPhraseMismatch | ManualOnlyOrApiExecuteDisabled | DryRunNoSubprocess
    | ExecutionOnlyOnWindows | ScriptNotAllowlisted | TimeoutWord | SubprocessCompleted | SubprocessFailed
    | RemediationPreviewWord | RemediationBlocked | RemediationExecuteAttempt
    | FailureEventIngest | ExecuteWord | ExecuteLivePending
    | EventTarget | FailureEventTarget | PreviewTarget
    | AllowWord | PreviewOnly | BlockedWord | AllowedWord | PendingWord | SuccessWord | FailureWord
    | PolicyReason(text: string) | PreviewRequestedFor(action: string) | SpawnAllowlisted(script: string)

  // ----- rows -----

  datatype ExecutionResult = Blocked | DryRun | Success | Failure

  datatype Execution = Execution(
    previewId: string, endpointId: string, action: string, confirmedBy: string, result: ExecutionResult, note: Wording)

  /** The part of a contract audit event that the handlers choose. */
  datatype Payload = Payload(
    endpointId: string, kind: Wording, summary: Wording, policyDecision: Wording, actor: string, replayRef: string)

  /** audit.jsonl holds two kinds of rows; only contract rows carry hashes. */
  datatype AuditRow =
    | Legacy(
        actor: string, action: Wording, targetType: Wording, targetId: string, decision: Wording, rationale: Wording)
    | Contract(payload: Payload, previousHash: string, hash: string)

  datatype Env = Env(windows: bool, demo: bool, scriptExists: string -> bool)

  /** How `subprocess.run` ends: with an exit code, with the time limit, or with any other exception. */
  datatype ProcessOutcome = Completed(ok: bool) | Timeout | Crashed

  datatype ExecuteIn = ExecuteIn(previewId: string, confirmationPhrase: string, dryRun: bool)

  /** A call of `subprocess.run`, with what the handler knew and how long the audit log was at that moment. */
  datatype Spawn = Spawn(
    request: ExecuteIn, principal: Principal, env: Env, preview: Preview, script: string, auditLength: nat)

  datatype State = State(
    failureEvents: seq<FailureEvent>,
    previews: seq<Preview>,
    executions: seq<Execution>,
    audit: seq<AuditRow>,
    spawns: seq<Spawn>)

  const EMPTY := State([], [], [], [], [])

  /** The registry, `str.strip` and the audit digest. */
  datatype Library = Library(
    lookup: string -> Option<ActionDef>,
    strip: string -> string,
    digest: (Payload, string) -> string)

  datatype Response =
    | Refused(code: nat, detail: Wording)
    | Stored
    | Previewed(preview: Preview)
    | Executed(execution: Execution, decision: Wording, reason: Wording, allowed: bool)

  // ----- the hash link of contract rows -----

  /** What `append_contract_audit` takes over from the last row of the log. */
  function TailHash(audit: seq<AuditRow>): (h: string)
  {
    if audit != [] && audit[|audit| - 1].Contract? then audit[|audit| - 1].hash else ""
  }

  function ContractRow(lib: Library, audit: seq<AuditRow>, payload: Payload): (r: AuditRow)
  {
    var previous := TailHash(audit);
    Contract(payload, previous, lib.digest(payload, previous))
  }

  function WithContract(lib: Library, audit: seq<AuditRow>, payload: Payload): (r: seq<AuditRow>)
  {
    audit + [ContractRow(lib, audit, payload)]
  }

  // ----- what each handler does -----

  function FindPreview(s: State, id: string): (p: Option<Preview>)
  {
    Last(s.previews, (p: Preview) => p.previewId == id)
  }

  function FindEvent(s: State, id: string): (e: Option<FailureEvent>)
  {
    Last(s.failureEvents, (e: FailureEvent) => e.eventId == id)
  }

  function Ingest(s: State, e: FailureEvent, who: Principal): (r: (State, Response))
  {
    if !CanWrite(who) then (s, Refused(403, RbacWord))
    else
      (s.(failureEvents := s.failureEvents + [e],
          audit := s.audit + [Legacy("agent", FailureEventIngest, EventTarget, e.eventId, NoWord, NoWord)]),
       Stored)
  }

  function MakePreview(
      lib: Library, s: State, freshId: string, eventId: string, action: string, surface: Surface, who: Principal)
    : (r: (State, Response))
  {
    if !CanPreview(who) then (s, Refused(403, RbacWord))
    else if ShellInjection(action) then (s, Refused(400, InvalidAction))
    else
      var found := FindEvent(s, eventId);
      if found.None? then (s, Refused(404, FailureEventNotFound))
      else
        var p := BuildPreview(freshId, found.value, action, lib.lookup(action), surface);
        var legacy := Legacy(who.operatorId, RemediationPreviewWord, FailureEventTarget, eventId,
                             if p.allowed then AllowedWord else BlockedWord, PolicyReason(p.reason));
        var payload := Payload(p.endpointId, RemediationPreviewWord, PreviewRequestedFor(action),
                               if p.allowed then PreviewOnly else BlockedWord, who.operatorId, p.previewId);
        (s.(previews := s.previews + [p], audit := WithContract(lib, s.audit + [legacy], payload)), Previewed(p))
  }

  /** The nine ways out of `remediation_execute` once the preview is found, and the three before. */
  datatype Exit =
    | RbacDenied | DemoMode | PreviewMissing
    | UnknownAction(p: Preview)
    | PolicyBlocked(p: Preview, reason: Wording)
    | PhraseMismatch(p: Preview)
    | ManualOnly(p: Preview)
    | DryRunOnly(p: Preview)
    | NotWindows(p: Preview)
    | NotAllowlisted(p: Preview)
    | Live(p: Preview, script: string)

  /** The gates for a script that is to run live. */
  function GateScript(p: Preview, script: string, env: Env): (x: Exit)
  {
    if !env.windows then NotWindows(p)
    else if script !in ALLOWLIST || !env.scriptExists(script) then NotAllowlisted(p)
    else Live(p, script)
  }

  /** The gates after the typed confirmation. */
  function GateConfirmed(p: Preview, def: ActionDef, req: ExecuteIn, env: Env): (x: Exit)
  {
    if !req.dryRun && (def.manualOnly || !def.apiExecuteAllowed) then ManualOnly(p)
    else if req.dryRun || def.script.None? then DryRunOnly(p)
    else GateScript(p, def.script.value, env)
  }

  /** The gates after the action is known to the registry. */
  function GateKnown(lib: Library, p: Preview, def: ActionDef, req: ExecuteIn, env: Env): (x: Exit)
  {
    var d := Evaluate(Some(def), Api);
    if !d.allowed then PolicyBlocked(p, PolicyReason(d.reason))
    else if p.requiresConfirmation && !PhraseAccepted(Some(def), lib.strip(req.confirmationPhrase)) then
      PhraseMismatch(p)
    else GateConfirmed(p, def, req, env)
  }

  function Gate(lib: Library, s: State, req: ExecuteIn, who: Principal, env: Env): (x: Exit)
  {
    if !CanExecute(who, req.dryRun) then RbacDenied
    else if env.demo && !req.dryRun then DemoMode
    else
      var found := FindPreview(s, req.previewId);
      if found.None? then PreviewMissing
      else
        var p, def := found.value, lib.lookup(found.value.action);
        if def.None? then UnknownAction(p) else GateKnown(lib, p, def.value, req, env)
  }

  /** The pending row written right before a script starts. */
  function PendingRow(who: Principal, req: ExecuteIn, script: string): (r: AuditRow)
  {
    Legacy(who.operatorId, ExecuteLivePending, PreviewTarget, req.previewId, PendingWord, SpawnAllowlisted(script))
  }

  function MakeExecution(p: Preview, req: ExecuteIn, who: Principal, result: ExecutionResult, note: Wording)
    : (e: Execution)
  {
    Execution(req.previewId, p.endpointId, p.action, who.operatorId, result, note)
  }

  function MakePayload(
      p: Preview, req: ExecuteIn, who: Principal, kind: Wording, summary: Wording, decision: Wording)
    : (d: Payload)
  {
    Payload(p.endpointId, kind, summary, decision, who.operatorId, req.previewId)
  }

  /** A refusal after the preview was found: one contract row and no execution row. */
  function Deny(lib: Library, s: State, p: Preview, req: ExecuteIn, who: Principal, why: Wording)
    : (r: (State, Response))
  {
    (s.(audit := WithContract(lib, s.audit, MakePayload(p, req, who, RemediationBlocked, why, BlockedWord))),
     Refused(400, why))
  }

  /** An execution row, a legacy row and a contract row, all saying that it was blocked. */
  function Block(lib: Library, s: State, p: Preview, req: ExecuteIn, who: Principal, why: Wording)
    : (r: (State, Response))
  {
    var x := MakeExecution(p, req, who, Blocked, why);
    var legacy := Legacy(who.operatorId, ExecuteWord, NoWord, "", BlockedWord, why);
    (s.(executions := s.executions + [x],
        audit := WithContract(lib, s.audit + [legacy], MakePayload(p, req, who, RemediationBlocked, why, BlockedWord))),
     Executed(x, BlockedWord, why, false))
  }

  /** An execution row and a contract row. */
  function Attempt(
      lib: Library, s: State, p: Preview, req: ExecuteIn, who: Principal,
      result: ExecutionResult, summary: Wording, decision: Wording, allowed: bool)
    : (r: (State, Response))
  {
    var x := MakeExecution(p, req, who, result, summary);
    (s.(executions := s.executions + [x],
        audit := WithContract(lib, s.audit, MakePayload(p, req, who, RemediationExecuteAttempt, summary, decision))),
     Executed(x, decision, summary, allowed))
  }

  /** The state in which the script starts. */
  function Started(s: State, p: Preview, script: string, req: ExecuteIn, who: Principal, env: Env): (t: State)
  {
    s.(audit := s.audit + [PendingRow(who, req, script)],
       spawns := s.spawns + [Spawn(req, who, env, p, script, |s.audit| + 1)])
  }

  /** Only the timeout is caught: any other exception leaves the handler right after the start. */
  function RunScript(
      lib: Library, s: State, p: Preview, script: string, req: ExecuteIn, who: Principal, env: Env,
      outcome: ProcessOutcome)
    : (r: (State, Response))
  {
    var started := Started(s, p, script, req, who, env);
    match outcome
    case Crashed => (started, Refused(500, InternalServerError))
    case Timeout => Attempt(lib, started, p, req, who, Failure, TimeoutWord, PreviewOnly, false)
    case Completed(ok) =>
      var x := MakeExecution(p, req, who, if ok then Success else Failure, NoWord);
      var word := if ok then SuccessWord else FailureWord;
      var legacy := Legacy(who.operatorId, ExecuteWord, PreviewTarget, req.previewId, word, NoWord);
      var summary := if ok then SubprocessCompleted else SubprocessFailed;
      var decision := if ok then AllowWord else PreviewOnly;
      (started.(executions := s.executions + [x],
                audit := WithContract(lib, started.audit + [legacy],
                                      MakePayload(p, req, who, RemediationExecuteAttempt, summary, decision))),
       Executed(x, decision, word, ok))
  }

  function Perform(
      lib: Library, s: State, x: Exit, req: ExecuteIn, who: Principal, env: Env, outcome: ProcessOutcome)
    : (r: (State, Response))
  {
    match x
    case RbacDenied => (s, Refused(403, RbacWord))
    case DemoMode => (s, Refused(403, DemoModeBlocks))
    case PreviewMissing => (s, Refused(404, PreviewNotFound))
    case UnknownAction(p) =>
      var payload := MakePayload(p, req, who, RemediationBlocked, UnknownActionWord, BlockedWord);
      (s.(audit := WithContract(lib, s.audit, payload)), Refused(400, UnknownActionDetail))
    case PolicyBlocked(p, why) => Block(lib, s, p, req, who, why)
    case PhraseMismatch(p) => Deny(lib, s, p, req, who, ConfirmationPhraseMismatch)
    case ManualOnly(p) => Block(lib, s, p, req, who, ManualOnlyOrApiExecuteDisabled)
    case DryRunOnly(p) =>
      Attempt(lib, s, p, req, who, ExecutionResult.DryRun, DryRunNoSubprocess, PreviewOnly, true)
    case NotWindows(p) =>
      Attempt(lib, s, p, req, who, Failure, ExecutionOnlyOnWindows, BlockedWord, false)
    case NotAllowlisted(p) => Deny(lib, s, p, req, who, ScriptNotAllowlisted)
    case Live(p, script) => RunScript(lib, s, p, script, req, who, env, outcome)
  }

  /** `remediation_execute`; `outcome` is what the subprocess would do if started. */
  function Execute(lib: Library, s: State, req: ExecuteIn, who: Principal, env: Env, outcome: ProcessOutcome)
    : (r: (State, Response))
  {
    Perform(lib, s, Gate(lib, s, req, who, env), req, who, env, outcome)
  }

  // ----- runs -----

  datatype Call =
    | IngestCall(event: FailureEvent, who: Principal)
    | PreviewCall(freshId: string, eventId: string, action: string, surface: Surface, who: Principal)
    | ExecuteCall(req: ExecuteIn, who: Principal, env: Env, outcome: ProcessOutcome)

  function Step(lib: Library, s: State, call: Call): (next: State)
  {
    match call
    case IngestCall(e, who) => Ingest(s, e, who).0
    case PreviewCall(id, ev, a, surface, who) => MakePreview(lib, s, id, ev, a, surface, who).0
    case ExecuteCall(req, who, env, outcome) => Execute(lib, s, req, who, env, outcome).0
  }

  function Run(lib: Library, calls: seq<Call>): (s: State)
  {
    if calls == [] then EMPTY else Step(lib, Run(lib, calls[..|calls| - 1]), calls[|calls| - 1])
  }
}
