/**
 The pure rules behind the remediation handlers: roles (platform_core/rbac.py), the action
 registry (platform_core/remediation_registry.py), the registry-first policy and preview
 builder (platform_core/policy/classic.py) and the script allowlist (platform_core/remediation.py).
 */
module RemediationPolicy {
  import opened Logs

  datatype Role = Viewer | Operator | Admin | SecurityAuditor

  datatype Principal = Principal(operatorId: string, role: Role)

  predicate CanWrite(p: Principal) { p.role == Operator || p.role == Admin }

  predicate CanPreview(p: Principal) { p.role == Operator || p.role == Admin }

  /** Operators only run dry; live execution is for admins. */
  predicate CanExecute(p: Principal, dryRun: bool)
  {
    p.role == Admin || (p.role == Operator && dryRun)
  }

  datatype Surface = Api | Cli | Dashboard

  datatype Risk = ReadOnly | LowRisk | MediumRisk | HighRisk | ForbiddenRisk

  datatype ActionDef = ActionDef(
    script: Option<string>,
    risk: Risk,
    surfaces: set<Surface>,
    apiExecuteAllowed: bool,
    phrase: string,
    manualOnly: bool)

  const ALL_SURFACES: set<Surface> := {Api, Cli, Dashboard}

  const FORBIDDEN_ACTION := ActionDef(None, ForbiddenRisk, {}, false, "", false)

  function CanonicalName(action: string): (name: string)
  {
    match action
    case "reset_winsock" => "winsock_reset"
    case "reset_tcpip" => "tcpip_reset"
    case "reset_firewall" => "firewall_reset_manual_only"
    case "arbitrary_command" => "arbitrary_command_forbidden"
    case "process_kill" => "process_kill_forbidden"
    case "kill_process" => "process_kill_forbidden"
    case "certificate_delete" => "certificate_delete_forbidden"
    case "delete_certificate" => "certificate_delete_forbidden"
    case _ => action
  }

  function Registered(name: string): (d: Option<ActionDef>)
  {
    match name
    case "inspect_proxy" => Some(ActionDef(None, ReadOnly, ALL_SURFACES, false, "", false))
    case "preview_dns_flush" => Some(ActionDef(None, ReadOnly, ALL_SURFACES, false, "", false))
    case "export_report" => Some(ActionDef(None, ReadOnly, ALL_SURFACES, false, "", false))
    case "reset_dns" => Some(ActionDef(Some("reset_dns.bat"), MediumRisk, ALL_SURFACES, true, "RUN_DNS_RESET", false))
    case "reset_proxy" =>
      Some(ActionDef(Some("reset_proxy.bat"), MediumRisk, ALL_SURFACES, true, "RUN_PROXY_RESET", false))
    case "stop_proxy_listener" => Some(ActionDef(None, HighRisk, {Cli}, false, "STOP_PROXY_LISTENER", true))
    case "stop_proxy_reverter" => Some(ActionDef(None, HighRisk, {Cli}, false, "STOP_PROXY_REVERTER", true))
    case "winsock_reset" => Some(ActionDef(None, MediumRisk, ALL_SURFACES, false, "RUN_WINSOCK_RESET", true))
    case "tcpip_reset" => Some(ActionDef(None, MediumRisk, ALL_SURFACES, false, "RUN_TCPIP_RESET", true))
    case "firewall_reset_manual_only" =>
      Some(ActionDef(Some("reset_firewall.bat"), HighRisk, ALL_SURFACES, false, "RUN_FIREWALL_RESET", true))
    case "arbitrary_command_forbidden" => Some(FORBIDDEN_ACTION)
    case "adapter_disable_forbidden" => Some(FORBIDDEN_ACTION)
    case "process_kill_forbidden" => Some(FORBIDDEN_ACTION)
    case "certificate_delete_forbidden" => Some(FORBIDDEN_ACTION)
    case _ => None
  }

  /** `get_remediation_action`. */
  function PlatformRegistry(action: string): (d: Option<ActionDef>)
  {
    Registered(CanonicalName(action))
  }

  const ALLOWLIST: set<string> :=
    {"reset_dns.bat", "reset_proxy.bat", "reset_firewall.bat", "auto_diagnose.bat", "proxy_status.bat"}

  datatype Decision = Decision(allowed: bool, reason: string)

  /** `evaluate_action` under the default policy, which permits both surfaces and every risk up to medium. */
  function Evaluate(def: Option<ActionDef>, surface: Surface): (d: Decision)
  {
    if def.None? then Decision(false, "unknown_action")
    else if def.value.risk == ForbiddenRisk then Decision(false, "forbidden_action")
    else if def.value.risk == HighRisk then Decision(false, "high_risk_blocked_from_platform")
    else if def.value.surfaces != {} && surface !in def.value.surfaces then Decision(false, "surface_not_allowed")
    else Decision(true, "ok")
  }

  datatype FailureEvent = FailureEvent(eventId: string, endpointId: string, summary: string)

  datatype Preview = Preview(
    previewId: string,
    endpointId: string,
    failureEventId: string,
    action: string,
    requiresConfirmation: bool,
    phrase: string,
    allowed: bool,
    reason: string)

  /** Whether the preview of an action asks for its typed phrase. */
  function NeedsPhrase(def: Option<ActionDef>): (b: bool)
  {
    def.None? || ((def.value.risk == LowRisk || def.value.risk == MediumRisk) && def.value.phrase != "")
  }

  /** `build_preview`: endpoint and event come from the stored failure event, not from the request. */
  function BuildPreview(id: string, fe: FailureEvent, action: string, def: Option<ActionDef>, surface: Surface)
    : (p: Preview)
  {
    var d := Evaluate(def, surface);
    Preview(id, fe.endpointId, fe.eventId, action, NeedsPhrase(def),
            if def.Some? then def.value.phrase else "", d.allowed, d.reason)
  }

  /** `validate_confirmation_phrase`. */
  predicate PhraseAccepted(def: Option<ActionDef>, typed: string)
  {
    def.None? || def.value.phrase == "" || typed == def.value.phrase
  }

  /** `is_shell_injection`. */
  predicate ShellInjection(text: string)
  {
    exists c :: c in text && c in ";&|`$\n\r"
  }

  /** What the registry allows a live API execution to run. */
  predicate LiveScript(def: Option<ActionDef>, script: string)
  {
    && def.Some? && Evaluate(def, Api).allowed
    && !def.value.manualOnly && def.value.apiExecuteAllowed
    && def.value.script == Some(script) && script in ALLOWLIST
  }

  /** The characters that end or chain a shell command. */
  lemma InjectionMeaning(text: string)
    ensures ShellInjection(text)
            <==> || ';' in text || '&' in text || '|' in text || '`' in text || '$' in text
                 || '\n' in text || '\r' in text
  {
    assert ";&|`$\n\r"[0] == ';' && ";&|`$\n\r"[1] == '&' && ";&|`$\n\r"[2] == '|' && ";&|`$\n\r"[3] == '`';
    assert ";&|`$\n\r"[4] == '$' && ";&|`$\n\r"[5] == '\n' && ";&|`$\n\r"[6] == '\r';
  }

  /** The policy lets an action through up to medium risk and on its own surfaces, all if it names none. */
  lemma PolicyMeaning(def: Option<ActionDef>, surface: Surface)
    ensures Evaluate(def, surface).allowed
            <==> && def.Some? && def.value.risk in {ReadOnly, LowRisk, MediumRisk}
                 && (def.value.surfaces == {} || surface in def.value.surfaces)
    ensures var reason := Evaluate(def, surface).reason;
            if def.None? then reason == "unknown_action"
            else match def.value.risk
              case ForbiddenRisk => reason == "forbidden_action"
              case HighRisk => reason == "high_risk_blocked_from_platform"
              case _ => reason == if Evaluate(def, surface).allowed then "ok" else "surface_not_allowed"
  {
  }

  /** A known action with a phrase wants exactly that phrase; without one anything will do. */
  lemma PhraseMeaning(def: ActionDef, typed: string)
    ensures def.phrase == "" ==> PhraseAccepted(Some(def), typed)
    ensures def.phrase != "" ==> (PhraseAccepted(Some(def), typed) <==> typed == def.phrase)
  {
  }

  lemma AllowlistNames(script: string)
    ensures script in ALLOWLIST
            <==> || script == "reset_dns.bat" || script == "reset_proxy.bat" || script == "reset_firewall.bat"
                 || script == "auto_diagnose.bat" || script == "proxy_status.bat"
  {
  }

  predicate Harmless(action: string)
  {
    action in {"inspect_proxy", "preview_dns_flush", "export_report"}
  }

  predicate Resets(action: string)
  {
    action in {"reset_dns", "reset_proxy", "winsock_reset", "tcpip_reset", "reset_winsock", "reset_tcpip"}
  }

  predicate Risky(action: string)
  {
    action in {"stop_proxy_listener", "stop_proxy_reverter", "firewall_reset_manual_only", "reset_firewall"}
  }

  predicate Forbidden(action: string)
  {
    action in {"arbitrary_command_forbidden", "arbitrary_command", "adapter_disable_forbidden",
               "process_kill_forbidden", "process_kill", "kill_process",
               "certificate_delete_forbidden", "certificate_delete", "delete_certificate"}
  }

  /** The platform's registry by name: what passes the policy, and why the rest does not, on every surface. */
  lemma RegistryVerdict(action: string, surface: Surface)
    ensures var d := Evaluate(PlatformRegistry(action), surface);
            d.allowed <==> Harmless(action) || Resets(action)
  {
    RegistryReadOnly(action);
    RegistryMedium(action);
    RegistryUsual(action);
    VerdictByRisk(PlatformRegistry(action), surface);
  }

  lemma VerdictByRisk(def: Option<ActionDef>, surface: Surface)
    requires def.Some? ==> def.value.risk != LowRisk
    requires def.Some? && def.value.risk in {ReadOnly, MediumRisk} ==> surface in def.value.surfaces
    ensures Evaluate(def, surface).allowed <==> def.Some? && def.value.risk in {ReadOnly, MediumRisk}
  {
  }

  lemma RegistryMedium(action: string)
    ensures PlatformRegistry(action).Some? && PlatformRegistry(action).value.risk == MediumRisk <==> Resets(action)
  {
  }

  lemma RegistryUsual(action: string)
    ensures PlatformRegistry(action).Some? ==> PlatformRegistry(action).value.risk != LowRisk
    ensures PlatformRegistry(action).Some? && PlatformRegistry(action).value.risk in {ReadOnly, MediumRisk} ==>
              PlatformRegistry(action).value.surfaces == ALL_SURFACES
  {
  }

  lemma RegisteredNames(action: string)
    ensures PlatformRegistry(action).Some? <==> Harmless(action) || Resets(action) || Risky(action) || Forbidden(action)
  {
  }

  lemma RegistryRisks(action: string)
    ensures PlatformRegistry(action).Some? && PlatformRegistry(action).value.risk == HighRisk <==> Risky(action)
    ensures PlatformRegistry(action).Some? && PlatformRegistry(action).value.risk == ForbiddenRisk
            <==> Forbidden(action)
  {
  }

  /** What only reads. */
  lemma RegistryReadOnly(action: string)
    ensures PlatformRegistry(action).Some? && PlatformRegistry(action).value.risk == ReadOnly <==> Harmless(action)
  {
  }

  /** What may run through the API, and what only a person may run. */
  lemma RegistryApi(action: string)
    ensures PlatformRegistry(action).Some? && PlatformRegistry(action).value.apiExecuteAllowed
            <==> action == "reset_dns" || action == "reset_proxy"
  {
  }

  lemma RegistryManual(action: string)
    ensures PlatformRegistry(action).Some? && PlatformRegistry(action).value.manualOnly
            <==> Risky(action) || (Resets(action) && action != "reset_dns" && action != "reset_proxy")
  {
  }

  /** The phrases of the resets. */
  lemma RegistryPhrases(action: string)
    ensures action == "reset_dns" ==> PlatformRegistry(action).value.phrase == "RUN_DNS_RESET"
    ensures action == "reset_proxy" ==> PlatformRegistry(action).value.phrase == "RUN_PROXY_RESET"
  {
  }

  lemma ManualPhrases(action: string)
    ensures action == "winsock_reset" || action == "reset_winsock" ==>
              PlatformRegistry(action).value.phrase == "RUN_WINSOCK_RESET"
    ensures action == "tcpip_reset" || action == "reset_tcpip" ==>
              PlatformRegistry(action).value.phrase == "RUN_TCPIP_RESET"
  {
  }

  /** Only the resets, and names the registry does not know, ask for a typed phrase. */
  lemma PhraseAsked(action: string)
    ensures NeedsPhrase(PlatformRegistry(action)) <==> Resets(action) || PlatformRegistry(action).None?
  {
  }

  /** Of all action names, only the DNS and the proxy reset pass every registry gate, each under its phrase. */
  lemma OnlyResetsRunLive(action: string, script: string)
    ensures LiveScript(PlatformRegistry(action), script)
            <==> (action == "reset_dns" && script == "reset_dns.bat")
                 || (action == "reset_proxy" && script == "reset_proxy.bat")
    ensures LiveScript(PlatformRegistry(action), script) ==>
              && NeedsPhrase(PlatformRegistry(action))
              && PlatformRegistry(action).value.phrase
                 == if action == "reset_dns" then "RUN_DNS_RESET" else "RUN_PROXY_RESET"
  {
  }
}
