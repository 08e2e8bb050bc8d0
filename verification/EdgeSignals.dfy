/** Telemetry of a simulated edge device normalised into canonical signals (edge_device/signals.py). */
module EdgeSignals {
  import opened Logs

  /** A raw telemetry value. */
  datatype Raw = Absent | Flag(b: bool) | Number(r: real) | Words(s: string)

  datatype Observations = Observations(
    cpuLoad: Raw, memoryPressure: Raw, temperature: Raw, npuAvailable: Raw, latency: Raw, errorRate: Raw,
    driverStatus: Raw, sensorStatus: Raw, uplinkStatus: Raw, baselineLatency: Raw)

  /** `float(text)`, `str(number)`, and `.strip().lower()`. */
  datatype Library = Library(parse: string -> Option<real>, show: real -> string, norm: string -> string)

  datatype Signal =
    | CpuHigh | MemoryPressureHigh | ThermalWarn | ThermalHot | NpuAvailable | NpuUnavailable
    | LatencyRegression | InferenceErrorHigh | DriverMismatch | SensorDegraded | SensorLost
    | UplinkDegraded | UplinkDown | LocalInferenceOk

  /** The true signals, and the uplink text that is passed through. */
  datatype Signals = Signals(on: set<Signal>, uplink: string)

  const CPU_HIGH := 0.85
  const MEMORY_PRESSURE_HIGH := 0.85
  const THERMAL_WARN_C := 75.0
  const THERMAL_HOT_C := 85.0
  const LATENCY_REGRESSION_MS := 120.0
  const LATENCY_BASELINE_MULTIPLIER := 2.5
  const INFERENCE_ERROR_HIGH := 0.05

  function AsFloat(lib: Library, v: Raw): (r: Option<real>)
  {
    match v
    case Absent => None
    case Flag(_) => None
    case Number(x) => Some(x)
    case Words(s) => lib.parse(s)
  }

  function AsBool(lib: Library, v: Raw): (r: Option<bool>)
  {
    match v
    case Absent => None
    case Flag(b) => Some(b)
    case Number(x) => WordAsBool(lib.norm(lib.show(x)))
    case Words(s) => WordAsBool(lib.norm(s))
  }

  function WordAsBool(text: string): (r: Option<bool>)
  {
    if text in {"true", "yes", "ok", "up", "available", "1", "online", "healthy"} then Some(true)
    else if text in {"false", "no", "down", "unavailable", "0", "offline"} then Some(false)
    else None
  }

  /** `str(v or "").strip().lower()`, empty when the value is missing or falsy. */
  function AsStatus(lib: Library, v: Raw): (s: string)
  {
    match v
    case Absent => lib.norm("")
    case Flag(b) => lib.norm(if b then "True" else "")
    case Number(x) => lib.norm(if x == 0.0 then "" else lib.show(x))
    case Words(s) => lib.norm(s)
  }

  predicate AtLeast(x: Option<real>, bound: real)
  {
    x.Some? && x.value >= bound
  }

  function LatencyThreshold(baseline: Option<real>): (t: real)
  {
    if baseline.Some? && baseline.value > 0.0 && baseline.value * LATENCY_BASELINE_MULTIPLIER < LATENCY_REGRESSION_MS
    then baseline.value * LATENCY_BASELINE_MULTIPLIER
    else LATENCY_REGRESSION_MS
  }

  predicate Regressed(lib: Library, raw: Observations)
  {
    AtLeast(AsFloat(lib, raw.latency), LatencyThreshold(AsFloat(lib, raw.baselineLatency)))
  }

  predicate Erroring(lib: Library, raw: Observations)
  {
    AtLeast(AsFloat(lib, raw.errorRate), INFERENCE_ERROR_HIGH)
  }

  predicate Lost(lib: Library, raw: Observations)
  {
    AsStatus(lib, raw.sensorStatus) in {"lost", "disconnected", "down"}
  }

  /** Inference runs well locally: on the NPU, or on a CPU known to have room. */
  predicate LocalOk(lib: Library, raw: Observations)
  {
    var cpu := AsFloat(lib, raw.cpuLoad);
    && !Erroring(lib, raw) && !Regressed(lib, raw) && !Lost(lib, raw)
    && (AsBool(lib, raw.npuAvailable) != Some(false) || (cpu.Some? && !AtLeast(cpu, CPU_HIGH)))
  }

  /** Whether the telemetry raises a signal. */
  predicate Raises(lib: Library, raw: Observations, x: Signal)
  {
    match x
    case CpuHigh => AtLeast(AsFloat(lib, raw.cpuLoad), CPU_HIGH)
    case MemoryPressureHigh => AtLeast(AsFloat(lib, raw.memoryPressure), MEMORY_PRESSURE_HIGH)
    case ThermalWarn => AtLeast(AsFloat(lib, raw.temperature), THERMAL_WARN_C)
    case ThermalHot => AtLeast(AsFloat(lib, raw.temperature), THERMAL_HOT_C)
    case NpuAvailable => AsBool(lib, raw.npuAvailable) == Some(true)
    case NpuUnavailable => AsBool(lib, raw.npuAvailable) == Some(false)
    case LatencyRegression => Regressed(lib, raw)
    case InferenceErrorHigh => Erroring(lib, raw)
    case DriverMismatch =>
      AsStatus(lib, raw.driverStatus) != "" && AsStatus(lib, raw.driverStatus) !in {"ok", "match", "current"}
    case SensorDegraded => Lost(lib, raw) || AsStatus(lib, raw.sensorStatus) in {"degraded", "intermittent", "noisy"}
    case SensorLost => Lost(lib, raw)
    case UplinkDegraded => AsStatus(lib, raw.uplinkStatus) in {"degraded", "down", "offline", "lossy"}
    case UplinkDown => AsStatus(lib, raw.uplinkStatus) in {"down", "offline"}
    case LocalInferenceOk => LocalOk(lib, raw)
  }

  /** `normalize_edge_signals`. */
  function Normalize(lib: Library, raw: Observations): (r: Signals)
  {
    Signals((set x: Signal | Raises(lib, raw, x)), AsStatus(lib, raw.uplinkStatus))
  }

  /** `conflicting_edge_signals` (edge_device/scenarios.py). */
  predicate Conflicting(s: Signals)
  {
    || (NpuAvailable in s.on && NpuUnavailable in s.on)
    || (LocalInferenceOk in s.on && InferenceErrorHigh in s.on)
    || (UplinkDown in s.on && s.uplink == "up")
  }

  /** The contradictions the test looks for. */
  lemma ConflictMeaning(s: Signals)
    ensures Conflicting(s)
            <==> || {NpuAvailable, NpuUnavailable} <= s.on
                 || {LocalInferenceOk, InferenceErrorHigh} <= s.on
                 || (UplinkDown in s.on && s.uplink == "up")
  {
  }

  /** Normalised telemetry never satisfies the conflict test, whatever was observed. */
  lemma NormalizedNeverConflicts(lib: Library, raw: Observations)
    ensures !Conflicting(Normalize(lib, raw))
  {
    assert |"up"| == 2 && |"down"| == 4 && |"offline"| == 7;
  }

  /** A hot, lost or down reading implies the milder signal, and healthy inference excludes its three negations. */
  lemma SignalsNest(lib: Library, raw: Observations)
    ensures var s := Normalize(lib, raw).on;
            && (ThermalHot in s ==> ThermalWarn in s)
            && (SensorLost in s ==> SensorDegraded in s)
            && (UplinkDown in s ==> UplinkDegraded in s)
            && (LocalInferenceOk in s ==> LatencyRegression !in s && InferenceErrorHigh !in s && SensorLost !in s)
  {
  }

  // ----- what each signal means for the readings -----

  /** How readings are taken: numbers as they are, texts parsed, truth values as no number. */
  lemma ReadingMeaning(lib: Library, x: real, s: string, b: bool)
    ensures AsFloat(lib, Number(x)) == Some(x) && AsFloat(lib, Words(s)) == lib.parse(s)
    ensures AsFloat(lib, Flag(b)) == None && AsFloat(lib, Absent) == None
    ensures AsStatus(lib, Words(s)) == lib.norm(s) && AsStatus(lib, Absent) == lib.norm("")
    ensures AsStatus(lib, Flag(b)) == lib.norm(if b then "True" else "")
    ensures AsStatus(lib, Number(x)) == if x == 0.0 then lib.norm("") else lib.norm(lib.show(x))
  {
  }

  ghost predicate Reads(v: Option<real>, bound: real)
  {
    v.Some? && v.value >= bound
  }

  /** The thresholds of the plain numeric signals. */
  lemma ThresholdSignals(lib: Library, raw: Observations)
    ensures var on := Normalize(lib, raw).on;
            && (CpuHigh in on <==> Reads(AsFloat(lib, raw.cpuLoad), 0.85))
            && (MemoryPressureHigh in on <==> Reads(AsFloat(lib, raw.memoryPressure), 0.85))
            && (ThermalWarn in on <==> Reads(AsFloat(lib, raw.temperature), 75.0))
            && (ThermalHot in on <==> Reads(AsFloat(lib, raw.temperature), 85.0))
            && (InferenceErrorHigh in on <==> Reads(AsFloat(lib, raw.errorRate), 0.05))
  {
  }

  /** Latency regresses at 120 ms, or earlier at two and a half times a positive baseline. */
  lemma LatencySignal(lib: Library, raw: Observations)
    ensures LatencyRegression in Normalize(lib, raw).on
            <==> var base := AsFloat(lib, raw.baselineLatency);
                 || Reads(AsFloat(lib, raw.latency), 120.0)
                 || (base.Some? && base.value > 0.0 && Reads(AsFloat(lib, raw.latency), base.value * 2.5))
  {
  }

  /** The word a text or number stands for when a truth value is expected. */
  function WordOf(lib: Library, v: Raw): (w: string)
  {
    if v.Words? then lib.norm(v.s) else if v.Number? then lib.norm(lib.show(v.r)) else ""
  }

  lemma NpuSignals(lib: Library, raw: Observations)
    ensures var on := Normalize(lib, raw).on;
            var w := WordOf(lib, raw.npuAvailable);
            && (NpuAvailable in on
                <==> raw.npuAvailable == Flag(true)
                     || w in {"1", "true", "yes", "ok", "up", "online", "available", "healthy"})
            && (NpuUnavailable in on
                <==> raw.npuAvailable == Flag(false)
                     || w in {"0", "false", "no", "down", "offline", "unavailable"})
  {
    WordsDiffer(WordOf(lib, raw.npuAvailable));
  }

  lemma WordsDiffer(w: string)
    ensures w in {"1", "true", "yes", "ok", "up", "online", "available", "healthy"} ==> WordAsBool(w) == Some(true)
    ensures w in {"0", "false", "no", "down", "offline", "unavailable"} ==> WordAsBool(w) == Some(false)
    ensures WordAsBool("") == None
  {
  }

  /** The words of the three status fields. */
  lemma StatusSignals(lib: Library, raw: Observations)
    ensures var on := Normalize(lib, raw).on;
            var driver, sensor, uplink :=
              AsStatus(lib, raw.driverStatus), AsStatus(lib, raw.sensorStatus), AsStatus(lib, raw.uplinkStatus);
            && (DriverMismatch !in on <==> driver in {"", "ok", "match", "current"})
            && (SensorLost in on <==> sensor in {"lost", "disconnected", "down"})
            && (SensorDegraded in on
                <==> sensor in {"degraded", "intermittent", "noisy", "lost", "disconnected", "down"})
            && (UplinkDegraded in on <==> uplink in {"degraded", "lossy", "down", "offline"})
            && (UplinkDown in on <==> uplink in {"down", "offline"})
            && Normalize(lib, raw).uplink == uplink
  {
  }

  /** Healthy inference, by the other signals. */
  lemma HealthySignal(lib: Library, raw: Observations)
    ensures var on := Normalize(lib, raw).on;
            LocalInferenceOk in on
            <==> && InferenceErrorHigh !in on && LatencyRegression !in on && SensorLost !in on
                 && (NpuUnavailable !in on || (AsFloat(lib, raw.cpuLoad).Some? && CpuHigh !in on))
  {
  }

  /** `partial` is `raw` with some readings missing. */
  ghost predicate Blanked(partial: Observations, raw: Observations)
  {
    && partial.cpuLoad in {raw.cpuLoad, Absent}
    && partial.memoryPressure in {raw.memoryPressure, Absent}
    && partial.temperature in {raw.temperature, Absent}
    && partial.npuAvailable in {raw.npuAvailable, Absent}
    && partial.latency in {raw.latency, Absent}
    && partial.errorRate in {raw.errorRate, Absent}
    && partial.driverStatus in {raw.driverStatus, Absent}
    && partial.sensorStatus in {raw.sensorStatus, Absent}
    && partial.uplinkStatus in {raw.uplinkStatus, Absent}
    && partial.baselineLatency in {raw.baselineLatency, Absent}
  }

  lemma AbsentStatus(lib: Library, v: Raw, raw: Raw, words: set<string>)
    requires lib.norm("") == "" && v in {raw, Absent} && "" !in words && AsStatus(lib, v) in words
    ensures AsStatus(lib, raw) in words
  {
  }

  /** Missing readings never raise a failure signal; only "local inference ok" can appear without evidence. */
  lemma MissingRaisesNoFailure(lib: Library, partial: Observations, raw: Observations, x: Signal)
    requires lib.norm("") == "" && Blanked(partial, raw)
    requires x in Normalize(lib, partial).on && x != LocalInferenceOk
    ensures x in Normalize(lib, raw).on
  {
    match x {
      case UplinkDegraded =>
        AbsentStatus(lib, partial.uplinkStatus, raw.uplinkStatus, {"degraded", "down", "offline", "lossy"});
      case UplinkDown => AbsentStatus(lib, partial.uplinkStatus, raw.uplinkStatus, {"down", "offline"});
      case SensorLost => AbsentStatus(lib, partial.sensorStatus, raw.sensorStatus, {"lost", "disconnected", "down"});
      case _ =>
    }
    assert Raises(lib, raw, x);
  }

  /** The NPU is off and the CPU is not known to have room. */
  predicate NoRoom(lib: Library, raw: Observations)
  {
    AsBool(lib, raw.npuAvailable) == Some(false)
    && (AsFloat(lib, raw.cpuLoad).None? || AtLeast(AsFloat(lib, raw.cpuLoad), CPU_HIGH))
  }

  /** One of the readings that speak against healthy inference is among the missing ones. */
  predicate HidesTrouble(lib: Library, partial: Observations, raw: Observations)
  {
    || (Erroring(lib, raw) && partial.errorRate == Absent)
    || (Regressed(lib, raw) && (partial.latency == Absent || partial.baselineLatency == Absent))
    || (Lost(lib, raw) && partial.sensorStatus == Absent)
    || (NoRoom(lib, raw) && partial.npuAvailable == Absent)
  }

  /**
   Missing readings newly raise "local inference ok" exactly when what is left looks healthy and the error,
   latency, baseline, sensor or NPU reading that spoke against it is gone.
   */
  lemma MissingRaisesHealthyIff(lib: Library, partial: Observations, raw: Observations)
    requires Blanked(partial, raw)
    ensures LocalInferenceOk in Normalize(lib, partial).on && LocalInferenceOk !in Normalize(lib, raw).on
            <==> LocalOk(lib, partial) && HidesTrouble(lib, partial, raw)
  {
    BlockedBy(lib, raw);
    StillBlocked(lib, partial, raw);
  }

  lemma BlockedBy(lib: Library, raw: Observations)
    ensures LocalOk(lib, raw)
            <==> !Erroring(lib, raw) && !Regressed(lib, raw) && !Lost(lib, raw) && !NoRoom(lib, raw)
  {
  }

  /** Trouble that no missing reading hides is still there. */
  lemma StillBlocked(lib: Library, partial: Observations, raw: Observations)
    requires Blanked(partial, raw)
    ensures !LocalOk(lib, raw) && !HidesTrouble(lib, partial, raw) ==> !LocalOk(lib, partial)
  {
  }

  /** A silent device still claims healthy local inference, and nothing else. */
  lemma SilentDevice(lib: Library, raw: Observations)
    requires lib.norm("") == ""
    requires raw == Observations(Absent, Absent, Absent, Absent, Absent, Absent, Absent, Absent, Absent, Absent)
    ensures Normalize(lib, raw).on == {LocalInferenceOk}
  {
    forall x: Signal ensures x in Normalize(lib, raw).on <==> x == LocalInferenceOk { }
  }
}
