/** The ALLOW / PREVIEW / BLOCK gate for edge actions (edge_device/policy.py). */
module EdgePolicy {
  import opened Text

  datatype ProofStatus = NotRun | Confirmed | Rejected | Inconclusive

  datatype Impact = LowImpact | MediumImpact | HighImpact | CriticalImpact

  datatype Outcome = Allow | Preview | Block

  datatype Trust = LowTrust | MediumTrust | HighTrust

  datatype Reason =
    | DestructiveActionBlocked | DiagnosticOnly | UnknownAction | ConflictingSignals
    | ConfirmedSafeTierWithConfirmation | SafeTierAction
    | RequiresOperatorConfirmation | PreviewUntilProof
    | HighImpactUnproven | CriticalImpactLowTrust | HighConfidenceUnproven | RequiresTypedConfirmation

  datatype Decision = Decision(outcome: Outcome, reasons: seq<Reason>, trust: Trust)

  const SAFE_ACTIONS: set<string> :=
    {"switch_to_cpu_fallback", "reduce_inference_load", "restart_inference_runtime", "clear_inference_cache"}

  const DESTRUCTIVE_TOKENS: seq<string> :=
    ["flash_firmware", "overwrite_firmware", "factory_reset", "reset_device", "disable_thermal",
     "disable_thermal_protection", "force_overclock", "overclock", "disable_sensor", "wipe", "format", "delete",
     "kill", "arbitrary_shell"]

  predicate Destructive(action: string)
  {
    exists i :: 0 <= i < |DESTRUCTIVE_TOKENS| && Contains(action, DESTRUCTIVE_TOKENS[i])
  }

  /** What the gate decides; `action` is the normalised request, empty for none. */
  function Decide(action: string, proof: ProofStatus, confirmed: bool, conflicts: bool): (o: Outcome)
  {
    if action == "" then Preview
    else if Destructive(action) || action !in SAFE_ACTIONS then Block
    else if !conflicts && proof == Confirmed && confirmed then Allow
    else Preview
  }

  /** When each reason code belongs in the decision about an allowlisted action. */
  predicate Concerns(r: Reason, proven: bool, impact: Impact, confirmed: bool, conflicts: bool)
  {
    match r
    case ConflictingSignals => conflicts
    case ConfirmedSafeTierWithConfirmation => !conflicts && proven && confirmed
    case SafeTierAction => !conflicts && proven && confirmed
    case RequiresOperatorConfirmation => !conflicts && !(proven && confirmed)
    case PreviewUntilProof => !conflicts && !(proven && confirmed)
    case HighImpactUnproven => (impact == HighImpact || impact == CriticalImpact) && !proven
    case CriticalImpactLowTrust => impact == CriticalImpact && (conflicts || !proven)
    case HighConfidenceUnproven => !proven
    case RequiresTypedConfirmation => true
    case _ => false
  }

  /** When each reason code belongs in the decision. */
  predicate Applies(r: Reason, action: string, proof: ProofStatus, impact: Impact, confirmed: bool, conflicts: bool)
  {
    if action == "" then r == DiagnosticOnly
    else if Destructive(action) then r == DestructiveActionBlocked
    else if action !in SAFE_ACTIONS then r == UnknownAction
    else Concerns(r, proof == Confirmed, impact, confirmed, conflicts)
  }

  /** `evaluate_edge_policy`: refusals that return at once, then the checks for an allowlisted action. */
  method EvaluateEdgePolicy(action: string, proof: ProofStatus, impact: Impact, confirmed: bool, conflicts: bool)
    returns (d: Decision)
    ensures d.outcome == Decide(action, proof, confirmed, conflicts)
    ensures d.trust == LowTrust <==> conflicts
    ensures d.trust == HighTrust <==> !conflicts && proof == Confirmed && action in SAFE_ACTIONS
    ensures forall r :: r in d.reasons <==> Applies(r, action, proof, impact, confirmed, conflicts)
  {
    if action in SAFE_ACTIONS { SafeActionsHarmless(action); }
    var calm := if conflicts then LowTrust else MediumTrust;
    if action != "" && Destructive(action) {
      return Decision(Block, [DestructiveActionBlocked], calm);
    }
    if action == "" {
      return Decision(Preview, [DiagnosticOnly], calm);
    }
    if action !in SAFE_ACTIONS {
      return Decision(Block, [UnknownAction], calm);
    }
    d := EvaluateListed(proof, impact, confirmed, conflicts);
  }

  /** The codes collected so far are those of a set. */
  ghost predicate Lists(reasons: seq<Reason>, noted: set<Reason>)
  {
    forall r :: r in reasons <==> r in noted
  }

  lemma Noted(reasons: seq<Reason>, noted: set<Reason>, r: Reason)
    requires Lists(reasons, noted)
    ensures Lists(reasons + [r], noted + {r})
  {
  }

  /** The check that sets the outcome, with its one or two codes. */
  ghost function FirstNoted(proven: bool, confirmed: bool, conflicts: bool): (noted: set<Reason>)
  {
    if conflicts then {ConflictingSignals}
    else if proven && confirmed then {ConfirmedSafeTierWithConfirmation, SafeTierAction}
    else {RequiresOperatorConfirmation, PreviewUntilProof}
  }

  /** The downgrades that follow. */
  ghost function LaterNoted(proven: bool, impact: Impact, conflicts: bool): (noted: set<Reason>)
  {
    (if (impact == HighImpact || impact == CriticalImpact) && !proven then {HighImpactUnproven} else {})
    + (if impact == CriticalImpact && (conflicts || !proven) then {CriticalImpactLowTrust} else {})
    + (if !proven then {HighConfidenceUnproven} else {})
    + {RequiresTypedConfirmation}
  }

  lemma NotedAreConcerns(r: Reason, proven: bool, impact: Impact, confirmed: bool, conflicts: bool)
    ensures r in FirstNoted(proven, confirmed, conflicts) + LaterNoted(proven, impact, conflicts)
            <==> Concerns(r, proven, impact, confirmed, conflicts)
  {
  }

  method FirstCheck(proven: bool, confirmed: bool, conflicts: bool) returns (outcome: Outcome, reasons: seq<Reason>)
    ensures outcome == if !conflicts && proven && confirmed then Allow else Preview
    ensures Lists(reasons, FirstNoted(proven, confirmed, conflicts))
  {
    reasons := [];
    if conflicts {
      reasons := reasons + [ConflictingSignals];
      outcome := Preview;
    } else if proven && confirmed {
      reasons := reasons + [ConfirmedSafeTierWithConfirmation];
      reasons := reasons + [SafeTierAction];
      outcome := Allow;
    } else {
      reasons := reasons + [RequiresOperatorConfirmation];
      reasons := reasons + [PreviewUntilProof];
      outcome := Preview;
    }
  }

  /** The successive checks for an allowlisted action, which reassign the outcome and collect reason codes. */
  method EvaluateListed(proof: ProofStatus, impact: Impact, confirmed: bool, conflicts: bool) returns (d: Decision)
    ensures d.outcome == if !conflicts && proof == Confirmed && confirmed then Allow else Preview
    ensures d.trust == if conflicts then LowTrust else if proof == Confirmed then HighTrust else MediumTrust
    ensures forall r :: r in d.reasons <==> Concerns(r, proof == Confirmed, impact, confirmed, conflicts)
  {
    var trust := if conflicts then LowTrust else if proof == Confirmed then HighTrust else MediumTrust;
    var outcome, reasons := FirstCheck(proof == Confirmed, confirmed, conflicts);
    ghost var noted := FirstNoted(proof == Confirmed, confirmed, conflicts);
    if (impact == HighImpact || impact == CriticalImpact) && proof != Confirmed {
      Noted(reasons, noted, HighImpactUnproven);
      reasons, noted := reasons + [HighImpactUnproven], noted + {HighImpactUnproven};
      outcome := Preview;
    }
    if impact == CriticalImpact && trust != HighTrust {
      Noted(reasons, noted, CriticalImpactLowTrust);
      reasons, noted := reasons + [CriticalImpactLowTrust], noted + {CriticalImpactLowTrust};
      outcome := Preview;
    }
    if proof != Confirmed {
      Noted(reasons, noted, HighConfidenceUnproven);
      reasons, noted := reasons + [HighConfidenceUnproven], noted + {HighConfidenceUnproven};
      outcome := Preview;
    }
    Noted(reasons, noted, RequiresTypedConfirmation);
    reasons, noted := reasons + [RequiresTypedConfirmation], noted + {RequiresTypedConfirmation};
    assert noted
        == FirstNoted(proof == Confirmed, confirmed, conflicts) + LaterNoted(proof == Confirmed, impact, conflicts);
    ListsConcerns(reasons, proof == Confirmed, impact, confirmed, conflicts);
    return Decision(outcome, reasons, trust);
  }

  lemma ListsConcerns(reasons: seq<Reason>, proven: bool, impact: Impact, confirmed: bool, conflicts: bool)
    requires Lists(reasons, FirstNoted(proven, confirmed, conflicts) + LaterNoted(proven, impact, conflicts))
    ensures forall r :: r in reasons <==> Concerns(r, proven, impact, confirmed, conflicts)
  {
    forall r ensures r in reasons <==> Concerns(r, proven, impact, confirmed, conflicts) {
      NotedAreConcerns(r, proven, impact, confirmed, conflicts);
    }
  }

  // ----- the allowlist contains nothing destructive -----

  lemma {:induction false} ContainsLetters(text: string, part: string, c: char)
    requires Contains(text, part) && c in part
    ensures c in text
  {
    if part <= text {
      var i :| 0 <= i < |part| && part[i] == c;
      assert text[i] == c;
    } else {
      ContainsLetters(text[1..], part, c);
    }
  }

  lemma {:induction false} ContainsStart(text: string, part: string)
    requires Contains(text, part) && part != ""
    ensures |part| <= |text| && part[0] in text[..|text| - |part| + 1]
  {
    if part <= text {
      assert text[0] == part[0];
    } else {
      ContainsStart(text[1..], part);
      var n := |text| - |part| + 1;
      var k :| 0 <= k < |text[1..][..n - 1]| && text[1..][..n - 1][k] == part[0];
      assert text[..n][k + 1] == part[0];
    }
  }

  /** Every token has a letter that the action lacks. */
  ghost predicate Lacks(action: string, token: string)
  {
    exists i :: 0 <= i < |token| && token[i] !in action
  }

  lemma LackingToken(action: string, token: string)
    requires Lacks(action, token)
    ensures !Contains(action, token)
  {
    var k :| 0 <= k < |token| && token[k] !in action;
    if Contains(action, token) { ContainsLetters(action, token, token[k]); }
  }

  lemma NothingContained(action: string, tokens: seq<string>)
    requires forall i :: 0 <= i < |tokens| ==> Lacks(action, tokens[i]) || !Contains(action, tokens[i])
    ensures !exists i :: 0 <= i < |tokens| && Contains(action, tokens[i])
  {
    forall i | 0 <= i < |tokens| && Lacks(action, tokens[i]) ensures !Contains(action, tokens[i]) {
      LackingToken(action, tokens[i]);
    }
  }

  /** Every token has a 'b', 'k', 't' or 'w'. */
  lemma WithoutBKTW(a: string)
    requires 'b' !in a && 'k' !in a && 't' !in a && 'w' !in a
    ensures forall i :: 0 <= i < |DESTRUCTIVE_TOKENS| ==> Lacks(a, DESTRUCTIVE_TOKENS[i])
  {
    assert DESTRUCTIVE_TOKENS[0][10] == 'w';
    assert DESTRUCTIVE_TOKENS[1][4] == 'w';
    assert DESTRUCTIVE_TOKENS[2][3] == 't';
    assert DESTRUCTIVE_TOKENS[3][4] == 't';
    assert DESTRUCTIVE_TOKENS[4][4] == 'b';
    assert DESTRUCTIVE_TOKENS[5][4] == 'b';
    assert DESTRUCTIVE_TOKENS[6][14] == 'k';
    assert DESTRUCTIVE_TOKENS[7][8] == 'k';
    assert DESTRUCTIVE_TOKENS[8][4] == 'b';
    assert DESTRUCTIVE_TOKENS[9][0] == 'w';
    assert DESTRUCTIVE_TOKENS[10][5] == 't';
    assert DESTRUCTIVE_TOKENS[11][4] == 't';
    assert DESTRUCTIVE_TOKENS[12][0] == 'k';
    assert DESTRUCTIVE_TOKENS[13][2] == 'b';
  }

  /** Every token has a 'd', 'l', 'o' or 'w'. */
  lemma WithoutDLOW(a: string)
    requires 'd' !in a && 'l' !in a && 'o' !in a && 'w' !in a
    ensures forall i :: 0 <= i < |DESTRUCTIVE_TOKENS| ==> Lacks(a, DESTRUCTIVE_TOKENS[i])
  {
    assert DESTRUCTIVE_TOKENS[0][1] == 'l';
    assert DESTRUCTIVE_TOKENS[1][0] == 'o';
    assert DESTRUCTIVE_TOKENS[2][4] == 'o';
    assert DESTRUCTIVE_TOKENS[3][6] == 'd';
    assert DESTRUCTIVE_TOKENS[4][0] == 'd';
    assert DESTRUCTIVE_TOKENS[5][0] == 'd';
    assert DESTRUCTIVE_TOKENS[6][1] == 'o';
    assert DESTRUCTIVE_TOKENS[7][0] == 'o';
    assert DESTRUCTIVE_TOKENS[8][0] == 'd';
    assert DESTRUCTIVE_TOKENS[9][0] == 'w';
    assert DESTRUCTIVE_TOKENS[10][1] == 'o';
    assert DESTRUCTIVE_TOKENS[11][0] == 'd';
    assert DESTRUCTIVE_TOKENS[12][2] == 'l';
    assert DESTRUCTIVE_TOKENS[13][13] == 'l';
  }

  /** Every token but "kill" has an 'e' or an 'r'. */
  lemma WithoutER(a: string)
    requires 'e' !in a && 'r' !in a
    ensures forall i :: 0 <= i < |DESTRUCTIVE_TOKENS| && i != 12 ==> Lacks(a, DESTRUCTIVE_TOKENS[i])
  {
    assert DESTRUCTIVE_TOKENS[0][8] == 'r';
    assert DESTRUCTIVE_TOKENS[1][2] == 'e';
    assert DESTRUCTIVE_TOKENS[2][5] == 'r';
    assert DESTRUCTIVE_TOKENS[3][0] == 'r';
    assert DESTRUCTIVE_TOKENS[4][6] == 'e';
    assert DESTRUCTIVE_TOKENS[5][6] == 'e';
    assert DESTRUCTIVE_TOKENS[6][2] == 'r';
    assert DESTRUCTIVE_TOKENS[7][2] == 'e';
    assert DESTRUCTIVE_TOKENS[8][6] == 'e';
    assert DESTRUCTIVE_TOKENS[9][3] == 'e';
    assert DESTRUCTIVE_TOKENS[10][2] == 'r';
    assert DESTRUCTIVE_TOKENS[11][1] == 'e';
    assert DESTRUCTIVE_TOKENS[13][1] == 'r';
  }

  lemma StartsTooLate(text: string, part: string)
    requires 0 < |part| <= |text| && part[0] !in text[..|text| - |part| + 1]
    ensures !Contains(text, part)
  {
    if Contains(text, part) { ContainsStart(text, part); }
  }

  lemma SwitchIsHarmless(a: string)
    requires a == "switch_to_cpu_fallback"
    ensures !Destructive(a)
  {
    WithoutER(a);
    // Its only 'k' is the last letter, too late for "kill" to start there.
    assert !Contains(a, DESTRUCTIVE_TOKENS[12]) by {
      assert 'k' !in a[..19];
      assert DESTRUCTIVE_TOKENS[12][0] == 'k' && |DESTRUCTIVE_TOKENS[12]| == 4;
      StartsTooLate(a, DESTRUCTIVE_TOKENS[12]);
    }
    NothingContained(a, DESTRUCTIVE_TOKENS);
  }

  lemma ReduceIsHarmless(a: string)
    requires a == "reduce_inference_load"
    ensures !Destructive(a)
  {
    WithoutBKTW(a);
    NothingContained(a, DESTRUCTIVE_TOKENS);
  }

  lemma ClearIsHarmless(a: string)
    requires a == "clear_inference_cache"
    ensures !Destructive(a)
  {
    WithoutBKTW(a);
    NothingContained(a, DESTRUCTIVE_TOKENS);
  }

  lemma RestartIsHarmless(a: string)
    requires a == "restart_inference_runtime"
    ensures !Destructive(a)
  {
    WithoutDLOW(a);
    NothingContained(a, DESTRUCTIVE_TOKENS);
  }

  /** No allowlisted action contains a destructive token, so the destructive check never shadows the allowlist. */
  lemma SafeActionsHarmless(action: string)
    requires action in SAFE_ACTIONS
    ensures !Destructive(action) && action != ""
  {
    if action == "switch_to_cpu_fallback" {
      SwitchIsHarmless(action);
    } else if action == "reduce_inference_load" {
      ReduceIsHarmless(action);
    } else if action == "clear_inference_cache" {
      ClearIsHarmless(action);
    } else {
      RestartIsHarmless(action);
    }
  }

  /** The allowlist, name by name. */
  lemma SafeNames(action: string)
    ensures action in SAFE_ACTIONS
            <==> || action == "switch_to_cpu_fallback" || action == "reduce_inference_load"
                 || action == "restart_inference_runtime" || action == "clear_inference_cache"
  {
  }

  /** The parts that make an action destructive; two of the listed tokens add nothing to the others. */
  predicate NamesHarm(a: string)
  {
    || Contains(a, "flash_firmware") || Contains(a, "overwrite_firmware") || Contains(a, "factory_reset")
    || Contains(a, "reset_device") || Contains(a, "disable_thermal") || Contains(a, "overclock")
    || Contains(a, "disable_sensor") || Contains(a, "wipe") || Contains(a, "format") || Contains(a, "delete")
    || Contains(a, "kill") || Contains(a, "arbitrary_shell")
  }

  lemma TokenNames(i: nat)
    requires i < |DESTRUCTIVE_TOKENS|
    ensures DESTRUCTIVE_TOKENS[5] == "disable_thermal" + "_protection"
    ensures DESTRUCTIVE_TOKENS[6] == "force_" + "overclock"
  {
  }

  lemma DestructiveIff(a: string)
    ensures Destructive(a) <==> NamesHarm(a)
  {
    TokenNames(5);
    if Contains(a, "disable_thermal" + "_protection") { ContainsFront(a, "disable_thermal", "_protection"); }
    if Contains(a, "force_" + "overclock") { ContainsPart(a, "force_", "overclock"); }
    if NamesHarm(a) { HarmIsListed(a); }
  }

  lemma HarmIsListed(a: string)
    requires NamesHarm(a)
    ensures Destructive(a)
  {
    var t := DESTRUCTIVE_TOKENS;
    assert t[0] == "flash_firmware" && t[1] == "overwrite_firmware" && t[2] == "factory_reset";
    assert t[3] == "reset_device" && t[4] == "disable_thermal" && t[7] == "overclock" && t[8] == "disable_sensor";
    assert t[9] == "wipe" && t[10] == "format" && t[11] == "delete" && t[12] == "kill" && t[13] == "arbitrary_shell";
  }

  /** The gate in one line: ALLOW needs an allowlisted action, a confirmed proof, typed confirmation and no conflict. */
  lemma AllowIff(action: string, proof: ProofStatus, confirmed: bool, conflicts: bool)
    ensures Decide(action, proof, confirmed, conflicts) == Allow
            <==> action in SAFE_ACTIONS && proof == Confirmed && confirmed && !conflicts
  {
    if action in SAFE_ACTIONS { SafeActionsHarmless(action); }
  }
}
