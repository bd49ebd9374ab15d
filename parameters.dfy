/** The parameter state machine of a Memory: guarded assignments, the derived
    temperature, `reset`'s guard and the sequence of assignments `__init__` makes. */
module Parameters {
  import opened Values
  import opened Numerics

  /** Every field of a Memory except its time and its chunks. */
  datatype Params = Params(
    noise: real,
    decay: real,
    lnOneMinusDecay: Option<real>,  // `_ln_1_mius_d`; None stands for the "illegal value" marker
    temperatureParam: Option<real>, // the `temperature` property; None: derived from the noise
    temperature: real,              // `_temperature`, what blending divides activations by
    threshold: real,                // `_threshold`; minus FloatMax when there is no threshold
    mismatch: Option<real>,
    optimizedLearning: bool,
    w: Option<real>,
    mas: Option<real>)

  /** The parameters after an assignment, and whether it raised. */
  datatype Assigned = Assigned(params: Params, status: Outcome)

  predicate NonNegative(v: Option<real>)
  {
    v.Some? ==> v.value >= 0.0
  }

  /** `_validate_temperature`: the explicit temperature, or the square root of two
      times the noise when none is set; None when that is below the floor. */
  function ValidateTemperature(temperature: Option<real>, noise: real): (r: Option<real>)
  {
    var t := if temperature.Some? then temperature.value else Sqrt2 * noise;
    if t < MinimumTemperature then None else Some(t)
  }

  /** What every assignment keeps true of the parameters. */
  predicate Consistent(p: Params, ln: real -> real)
  {
    Sane(p) && (p.decay < 1.0 && p.lnOneMinusDecay.Some? ==> p.lnOneMinusDecay.value == ln(1.0 - p.decay))
  }

  /** The part of Consistent that does not mention `_ln_1_mius_d`. */
  predicate Sane(p: Params)
  {
    && p.noise >= 0.0
    && p.decay >= 0.0
    && (p.optimizedLearning ==> p.decay < 1.0)
    && ValidateTemperature(p.temperatureParam, p.noise) == Some(p.temperature)
    && NonNegative(p.mismatch)
    && NonNegative(p.w)
    && NonNegative(p.mas)
  }

  /** The `temperature` setter (None also stands for False). */
  function AssignTemperature(p: Params, v: Option<real>): (a: Assigned)
    ensures a.status.Failure? <==> (if v.Some? then v.value else Sqrt2 * p.noise) < MinimumTemperature
    ensures a.status.Failure? ==> a == Assigned(p, Failure(ValueError))
    ensures a.status.Success? ==> a.params.temperatureParam == v && a.params.temperature >= MinimumTemperature
    ensures a.status.Success? && v.Some? ==> a.params.temperature == v.value
    ensures a.status.Success? && v.None? ==> a.params.temperature == Sqrt2 * p.noise
    ensures a.params == p.(temperatureParam := a.params.temperatureParam, temperature := a.params.temperature)
    ensures Sane(p) ==> Sane(a.params)
  {
    match ValidateTemperature(v, p.noise)
    case None => Assigned(p, Failure(ValueError))
    case Some(t) => Assigned(p.(temperatureParam := v, temperature := t), Success)
  }

  /** The `noise` setter. With no explicit temperature the temperature is derived
      again from the new noise; if that is too low the setter warns and assigns an
      explicit temperature of 1 instead. */
  function AssignNoise(p: Params, v: real): (a: Assigned)
    ensures v < 0.0 ==> a == Assigned(p, Failure(ValueError))
    ensures v >= 0.0 ==> a.status == Success && a.params.noise == v
    ensures a.params == p.(noise := a.params.noise, temperatureParam := a.params.temperatureParam,
                           temperature := a.params.temperature)
    ensures p.temperatureParam.Some? ==> a.params.temperatureParam == p.temperatureParam && a.params.temperature == p.temperature
    ensures p.temperatureParam.None? && v >= 0.0 && Sqrt2 * v >= MinimumTemperature ==>
              a.params.temperatureParam.None? && a.params.temperature == Sqrt2 * v
    ensures p.temperatureParam.None? && v >= 0.0 && Sqrt2 * v < MinimumTemperature ==>
              a.params.temperatureParam == Some(1.0) && a.params.temperature == 1.0
    ensures Sane(p) ==> Sane(a.params)
  {
    if v < 0.0 then
      Assigned(p, Failure(ValueError))
    else if p.temperatureParam.None? then
      match ValidateTemperature(None, v)
      case None =>
        var fallback := AssignTemperature(p, Some(1.0));
        Assigned(fallback.params.(noise := v), Success)
      case Some(t) => Assigned(p.(temperature := t, noise := v), Success)
    else
      Assigned(p.(noise := v), Success)
  }

  /** The `decay` setter. Rejecting a decay of one or more under optimized learning
      still overwrites `_ln_1_mius_d` with the "illegal value" marker. The
      transcendental caches it resets are not modelled. */
  function AssignDecay(p: Params, v: real, ln: real -> real): (a: Assigned)
    ensures a.status.Failure? <==> v < 0.0 || (v >= 1.0 && p.optimizedLearning)
    ensures a.status.Failure? ==> a.status.error == ValueError && a.params.decay == p.decay
    ensures a.status.Success? ==> a.params.decay == v
    ensures v < 0.0 ==> a.params == p
    ensures v >= 1.0 && p.optimizedLearning ==> a.params == p.(lnOneMinusDecay := None)
    ensures 0.0 <= v < 1.0 ==> a.params.lnOneMinusDecay == Some(ln(1.0 - v))
    ensures a.params == p.(decay := a.params.decay, lnOneMinusDecay := a.params.lnOneMinusDecay)
    ensures Consistent(p, ln) ==> Consistent(a.params, ln)
  {
    if v < 0.0 then
      Assigned(p, Failure(ValueError))
    else if v < 1.0 then
      Assigned(p.(lnOneMinusDecay := Some(ln(1.0 - v)), decay := v), Success)
    else if p.optimizedLearning then
      Assigned(p.(lnOneMinusDecay := None), Failure(ValueError))
    else
      Assigned(p.(decay := v), Success)
  }

  /** The `threshold` property: None when the stored threshold is minus FloatMax. */
  function ThresholdOf(p: Params): (r: Option<real>)
  {
    if p.threshold == -FloatMax then None else Some(p.threshold)
  }

  /** The `threshold` setter (None also stands for False): it never raises. */
  function AssignThreshold(p: Params, v: Option<real>): (a: Assigned)
    ensures a.status == Success
    ensures ThresholdOf(a.params) == (if v == Some(-FloatMax) then None else v)
    ensures v.None? ==> a.params.threshold == -FloatMax
    ensures a.params == p.(threshold := a.params.threshold)
    ensures Sane(p) ==> Sane(a.params)
  {
    Assigned(p.(threshold := if v.Some? then v.value else -FloatMax), Success)
  }

  /** The shared guard of the `mismatch`, `W` and `mas` setters: None (or False)
      is kept, a negative number raises ValueError, anything else is kept. */
  function CheckNonNegative(v: Option<real>): (r: Result<Option<real>>)
    ensures r.Err? <==> v.Some? && v.value < 0.0
    ensures r.Err? ==> r.error == ValueError
    ensures r.Ok? ==> r.value == v && NonNegative(r.value)
  {
    if v.Some? && v.value < 0.0 then Err(ValueError) else Ok(v)
  }

  function AssignMismatch(p: Params, v: Option<real>): (a: Assigned)
    ensures a.status.Failure? <==> v.Some? && v.value < 0.0
    ensures a.status.Failure? ==> a == Assigned(p, Failure(ValueError))
    ensures a.status.Success? ==> a.params == p.(mismatch := v)
    ensures Sane(p) ==> Sane(a.params)
  {
    match CheckNonNegative(v)
    case Err(e) => Assigned(p, Failure(e))
    case Ok(m) => Assigned(p.(mismatch := m), Success)
  }

  function AssignW(p: Params, v: Option<real>): (a: Assigned)
    ensures a.status.Failure? <==> v.Some? && v.value < 0.0
    ensures a.status.Failure? ==> a == Assigned(p, Failure(ValueError))
    ensures a.status.Success? ==> a.params == p.(w := v)
    ensures Sane(p) ==> Sane(a.params)
  {
    match CheckNonNegative(v)
    case Err(e) => Assigned(p, Failure(e))
    case Ok(w) => Assigned(p.(w := w), Success)
  }

  function AssignMas(p: Params, v: Option<real>): (a: Assigned)
    ensures a.status.Failure? <==> v.Some? && v.value < 0.0
    ensures a.status.Failure? ==> a == Assigned(p, Failure(ValueError))
    ensures a.status.Success? ==> a.params == p.(mas := v)
    ensures Sane(p) ==> Sane(a.params)
  {
    match CheckNonNegative(v)
    case Err(e) => Assigned(p, Failure(e))
    case Ok(m) => Assigned(p.(mas := m), Success)
  }

  /** The parameter part of `reset`: enabling optimized learning while the decay
      is one or more raises RuntimeError and changes nothing; otherwise the flag
      is set when given and every other parameter is kept. */
  function ResetParams(p: Params, optimized: Option<bool>): (a: Assigned)
    ensures a.status.Failure? <==> optimized == Some(true) && p.decay >= 1.0
    ensures a.status.Failure? ==> a == Assigned(p, Failure(RuntimeError))
    ensures a.status.Success? ==> a.params == p.(optimizedLearning := optimized.GetOr(p.optimizedLearning))
    ensures Sane(p) ==> Sane(a.params)
  {
    if optimized == Some(true) && p.decay >= 1.0 then
      Assigned(p, Failure(RuntimeError))
    else
      Assigned(p.(optimizedLearning := optimized.GetOr(p.optimizedLearning)), Success)
  }

  /** The arguments of `Memory(...)`. */
  datatype Settings = Settings(
    noise: real,
    decay: real,
    temperature: Option<real>,
    threshold: Option<real>,
    mismatch: Option<real>,
    optimizedLearning: bool,
    w: Option<real>,
    mas: Option<real>)

  const DefaultSettings: Settings :=
    Settings(DefaultNoise, DefaultDecay, None, Some(DefaultThreshold), None, false, Some(DefaultW), Some(DefaultMas))

  /** The state `__init__` starts from: `_temperature_param` is 1 and optimized
      learning is off; the remaining fields are placeholders every step overwrites. */
  const Blank: Params := Params(0.0, 0.0, None, Some(1.0), 1.0, -FloatMax, None, false, None, None)

  function AsResult(a: Assigned): (r: Result<Params>)
  {
    if a.status.Success? then Ok(a.params) else Err(a.status.error)
  }

  /** The guard `__init__` needs for a successful construction. */
  predicate Admissible(s: Settings)
  {
    && s.noise >= 0.0
    && s.decay >= 0.0
    && ValidateTemperature(s.temperature, s.noise).Some?
    && NonNegative(s.mismatch)
    && NonNegative(s.w)
    && NonNegative(s.mas)
    && !(s.optimizedLearning && s.decay >= 1.0)
  }

  /** `__init__` with the decay assignment guarded as the setter intends: a decay
      of one or more is refused only under optimized learning, which `reset`
      checks at the end. */
  function Configure(s: Settings, ln: real -> real): (r: Result<Params>)
    ensures r.Ok? <==> Admissible(s)
    ensures r.Ok? ==> Consistent(r.value, ln)
    ensures r.Ok? ==> && r.value.noise == s.noise && r.value.decay == s.decay
                      && r.value.temperatureParam == s.temperature
                      && ThresholdOf(r.value) == (if s.threshold == Some(-FloatMax) then None else s.threshold)
                      && r.value.mismatch == s.mismatch && r.value.optimizedLearning == s.optimizedLearning
                      && r.value.w == s.w && r.value.mas == s.mas
    ensures s.noise < 0.0 || s.decay < 0.0 ==> r == Err(ValueError)
    ensures r.Err? ==> r.error == (if Admissible(s.(optimizedLearning := false)) then RuntimeError else ValueError)
    ensures Admissible(s.(optimizedLearning := false)) && s.optimizedLearning && s.decay >= 1.0 ==>
              r == Err(RuntimeError)
  {
    var p1 :- AsResult(AssignNoise(Blank, s.noise));
    var p2 :- AsResult(AssignDecay(p1, s.decay, ln));
    var p3 :- AsResult(AssignTemperature(p2, s.temperature));
    var p4 := AssignThreshold(p3, s.threshold).params;
    var p5 :- AsResult(AssignMismatch(p4, s.mismatch));
    var p6 :- AsResult(AssignW(p5, s.w));
    var p7 :- AsResult(AssignMas(p6, s.mas));
    AsResult(ResetParams(p7, Some(s.optimizedLearning)))
  }

  /** The decay setter as `__init__` runs it: `_optimized_learning` does not exist
      yet, so reading it for a decay of one or more raises AttributeError. */
  function AssignDecayBeforeReset(p: Params, v: real, ln: real -> real): (a: Assigned)
    ensures v < 1.0 ==> a == AssignDecay(p, v, ln)
    ensures v >= 1.0 ==> a == Assigned(p, Failure(AttributeError))
  {
    if v < 0.0 then
      Assigned(p, Failure(ValueError))
    else if v < 1.0 then
      Assigned(p.(lnOneMinusDecay := Some(ln(1.0 - v)), decay := v), Success)
    else
      Assigned(p, Failure(AttributeError))
  }

  /** `__init__` as written. */
  function ConfigureAsWritten(s: Settings, ln: real -> real): (r: Result<Params>)
    ensures s.noise >= 0.0 && s.decay >= 1.0 ==> r == Err(AttributeError)
    ensures !(s.noise >= 0.0 && s.decay >= 1.0) ==> r == Configure(s, ln)
  {
    var p1 :- AsResult(AssignNoise(Blank, s.noise));
    var p2 :- AsResult(AssignDecayBeforeReset(p1, s.decay, ln));
    var p3 :- AsResult(AssignTemperature(p2, s.temperature));
    var p4 := AssignThreshold(p3, s.threshold).params;
    var p5 :- AsResult(AssignMismatch(p4, s.mismatch));
    var p6 :- AsResult(AssignW(p5, s.w));
    var p7 :- AsResult(AssignMas(p6, s.mas));
    AsResult(ResetParams(p7, Some(s.optimizedLearning)))
  }

  /** `Memory(decay=1)` with every other argument at its default raises
      AttributeError as written, although optimized learning is off and the
      corrected construction accepts it. */
  lemma {:induction false} DecayOneRejectedAtConstruction(ln: real -> real)
    ensures ConfigureAsWritten(DefaultSettings.(decay := 1.0), ln) == Err(AttributeError)
    ensures Configure(DefaultSettings.(decay := 1.0), ln).Ok?
    ensures Configure(DefaultSettings.(decay := 1.0), ln).value.decay == 1.0
  {
    var s := DefaultSettings.(decay := 1.0);
    assert ValidateTemperature(None, DefaultNoise) == Some(Sqrt2 * DefaultNoise);
    assert Admissible(s);
  }
}
