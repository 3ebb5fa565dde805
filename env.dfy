/**
 * Start-up configuration (src/env.ts): each numeric setting is read from the
 * process environment, falling back to a default when it is unset or empty,
 * and the values are checked once; any failed check stops the service.
 * `Number(...)` is an oracle `toNumber` that yields NaN or a finite value.
 */
module Env {
  import opened Wrappers
  import opened JsValues

  /** The environment's text for each setting read here; `None` when unset. */
  datatype RawEnv = RawEnv(
    enableCaptcha: Option<string>,
    disableChallenges: Option<string>,
    maxBalance: Option<string>,
    minTez: Option<string>,
    maxTez: Option<string>,
    minChallenges: Option<string>,
    maxChallenges: Option<string>,
    challengeSize: Option<string>,
    difficulty: Option<string>,
    reductionRatio: Option<string>)

  /** The `env` object as built, before its checks: numbers may be NaN. */
  datatype EnvValues = EnvValues(
    disableChallenges: bool,
    enableCaptcha: bool,
    maxBalance: Num,
    minTez: Num,
    maxTez: Num,
    minChallenges: Num,
    maxChallenges: Num,
    challengeSize: Num,
    difficulty: Num,
    reductionRatio: Num)

  /** The settings once every check has passed. */
  datatype Config = Config(
    disableChallenges: bool,
    enableCaptcha: bool,
    maxBalance: real,
    minTez: real,
    maxTez: real,
    minChallenges: real,
    maxChallenges: real,
    challengeSize: real,
    difficulty: real,
    reductionRatio: real)

  datatype EnvError =
    | NotANumber(name: string)
    | NotPositive(name: string)
    | BadReductionRatio
    | BadChallengeBounds
    | BadTezBounds

  /** The text of the error each failed check throws. */
  function Message(e: EnvError): string {
    match e
    case NotANumber(name) => "Env var " + name + " must be a number."
    case NotPositive(name) => "Env var " + name + " must be greater than 0."
    case BadReductionRatio => "Env var CAPTCHA_CHALLENGES_REDUCTION_RATIO must be >= 0 and < 1."
    case BadChallengeBounds =>
      "Env vars MAX_CHALLENGES and MIN_CHALLENGES must be greater than 0 and MAX_CHALLENGES must be greater than or equal to MIN_CHALLENGES."
    case BadTezBounds =>
      "Env vars MAX_TEZ and MIN_TEZ must be greater than 0 and MAX_TEZ must be greater than or equal to MIN_TEZ."
  }

  /** `X ? Number(X) : default`. */
  function Setting(raw: Option<string>, default: real, toNumber: string -> Num): Num {
    if Truthy(raw) then toNumber(raw.value) else Finite(default)
  }

  /** The `env` object: the two flags and the eight numeric settings with their defaults. */
  function Build(raw: RawEnv, toNumber: string -> Num): EnvValues {
    EnvValues(
      disableChallenges := raw.disableChallenges == Some("true"),
      enableCaptcha := raw.enableCaptcha != Some("false"),
      maxBalance := Setting(raw.maxBalance, 6000.0, toNumber),
      minTez := Setting(raw.minTez, 1.0, toNumber),
      maxTez := Setting(raw.maxTez, 6000.0, toNumber),
      minChallenges := Setting(raw.minChallenges, 1.0, toNumber),
      maxChallenges := Setting(raw.maxChallenges, 120.0, toNumber),
      challengeSize := Setting(raw.challengeSize, 32.0, toNumber),
      difficulty := Setting(raw.difficulty, 5.0, toNumber),
      reductionRatio := Setting(raw.reductionRatio, 0.5, toNumber))
  }

  /** The eight numeric settings in the order the start-up loop checks them. */
  function CheckedVars(v: EnvValues): seq<(string, Num)> {
    [ ("CAPTCHA_CHALLENGES_REDUCTION_RATIO", v.reductionRatio),
      ("CHALLENGE_SIZE", v.challengeSize),
      ("DIFFICULTY", v.difficulty),
      ("MAX_BALANCE", v.maxBalance),
      ("MAX_TEZ", v.maxTez),
      ("MIN_TEZ", v.minTez),
      ("MAX_CHALLENGES", v.maxChallenges),
      ("MIN_CHALLENGES", v.minChallenges) ]
  }

  predicate MustBePositive(name: string) {
    name == "CHALLENGE_SIZE" || name == "DIFFICULTY"
  }

  /** A setting passes the loop: it is a number, and positive if it must be. */
  predicate VarOk(entry: (string, Num)) {
    entry.1.Finite? && (MustBePositive(entry.0) ==> entry.1.value > 0.0)
  }

  /** The start-up loop: the first setting that fails decides the error. */
  function CheckVars(vars: seq<(string, Num)>): (r: Result<(), EnvError>)
    ensures r.Success? <==> forall i :: 0 <= i < |vars| ==> VarOk(vars[i])
    ensures r.Failure? ==> r.error.NotANumber? || r.error.NotPositive?
  {
    if vars == [] then Success(())
    else if vars[0].1.NaN? then Failure(NotANumber(vars[0].0))
    else if MustBePositive(vars[0].0) && vars[0].1.value <= 0.0 then Failure(NotPositive(vars[0].0))
    else
      var rest := CheckVars(vars[1..]);
      assert forall i :: 1 <= i < |vars| ==> vars[i] == vars[1..][i - 1];
      rest
  }

  /** Every check of src/env.ts, in order. */
  function Validate(v: EnvValues): Result<Config, EnvError> {
    var vars := CheckVars(CheckedVars(v));
    if vars.Failure? then Failure(vars.error)
    else
      assert VarOk(CheckedVars(v)[0]) && VarOk(CheckedVars(v)[1]) && VarOk(CheckedVars(v)[2]);
      assert VarOk(CheckedVars(v)[3]) && VarOk(CheckedVars(v)[4]) && VarOk(CheckedVars(v)[5]);
      assert VarOk(CheckedVars(v)[6]) && VarOk(CheckedVars(v)[7]);
      var ratio := v.reductionRatio.value;
      var minC, maxC := v.minChallenges.value, v.maxChallenges.value;
      var minT, maxT := v.minTez.value, v.maxTez.value;
      if ratio < 0.0 || ratio >= 1.0 then Failure(BadReductionRatio)
      else if maxC < minC || minC <= 0.0 || maxC <= 0.0 then Failure(BadChallengeBounds)
      else if maxT < minT || minT <= 0.0 || maxT <= 0.0 then Failure(BadTezBounds)
      else
        Success(Config(v.disableChallenges, v.enableCaptcha, v.maxBalance.value, minT, maxT,
                       minC, maxC, v.challengeSize.value, v.difficulty.value, ratio))
  }

  /** Loading the configuration: build the `env` object, then check it. */
  function Load(raw: RawEnv, toNumber: string -> Num): Result<Config, EnvError> {
    Validate(Build(raw, toNumber))
  }

  /** What the checks together demand, stated setting by setting. */
  predicate Acceptable(v: EnvValues) {
    && v.reductionRatio.Finite? && v.challengeSize.Finite? && v.difficulty.Finite?
    && v.maxBalance.Finite? && v.maxTez.Finite? && v.minTez.Finite?
    && v.maxChallenges.Finite? && v.minChallenges.Finite?
    && v.challengeSize.value > 0.0 && v.difficulty.value > 0.0
    && 0.0 <= v.reductionRatio.value < 1.0
    && 0.0 < v.minChallenges.value <= v.maxChallenges.value
    && 0.0 < v.minTez.value <= v.maxTez.value
  }

  /** The `env` object that an environment without any of the settings produces. */
  const DefaultValues := EnvValues(false, true, Finite(6000.0), Finite(1.0), Finite(6000.0),
                                   Finite(1.0), Finite(120.0), Finite(32.0), Finite(5.0), Finite(0.5))

  const DefaultConfig := Config(false, true, 6000.0, 1.0, 6000.0, 1.0, 120.0, 32.0, 5.0, 0.5)

  // ---------------------------------------------------------------------------
  // Properties

  /** The configuration is accepted exactly when every setting meets its rule. */
  lemma ValidateAcceptsExactly(v: EnvValues)
    ensures Validate(v).Success? <==> Acceptable(v)
    ensures Validate(v).Success? ==>
      var c := Validate(v).value;
      && c.disableChallenges == v.disableChallenges && c.enableCaptcha == v.enableCaptcha
      && Finite(c.maxBalance) == v.maxBalance && Finite(c.minTez) == v.minTez
      && Finite(c.maxTez) == v.maxTez && Finite(c.minChallenges) == v.minChallenges
      && Finite(c.maxChallenges) == v.maxChallenges && Finite(c.challengeSize) == v.challengeSize
      && Finite(c.difficulty) == v.difficulty && Finite(c.reductionRatio) == v.reductionRatio
  {
    var vars := CheckedVars(v);
    if Acceptable(v) {
      assert forall i :: 0 <= i < |vars| ==> VarOk(vars[i]);
    } else if CheckVars(vars).Success? {
      assert VarOk(vars[0]) && VarOk(vars[1]) && VarOk(vars[2]) && VarOk(vars[3]);
      assert VarOk(vars[4]) && VarOk(vars[5]) && VarOk(vars[6]) && VarOk(vars[7]);
    }
  }

  /** Unset (or empty) settings take the documented defaults, and the flags take theirs. */
  lemma DefaultsWhenUnset(raw: RawEnv, toNumber: string -> Num)
    requires !Truthy(raw.maxBalance) && !Truthy(raw.minTez) && !Truthy(raw.maxTez)
    requires !Truthy(raw.minChallenges) && !Truthy(raw.maxChallenges)
    requires !Truthy(raw.challengeSize) && !Truthy(raw.difficulty) && !Truthy(raw.reductionRatio)
    requires raw.disableChallenges.None? && raw.enableCaptcha.None?
    ensures Build(raw, toNumber) == DefaultValues
  {
  }

  /** The all-defaults configuration passes every check. */
  lemma DefaultsAccepted()
    ensures Validate(DefaultValues) == Success(DefaultConfig)
  {
    ValidateAcceptsExactly(DefaultValues);
  }

  /** DISABLE_CHALLENGES holds only for the text "true"; ENABLE_CAPTCHA fails only for "false". */
  lemma FlagsDecoding(raw: RawEnv, toNumber: string -> Num)
    ensures Build(raw, toNumber).disableChallenges <==> raw.disableChallenges == Some("true")
    ensures Build(raw, toNumber).enableCaptcha <==> raw.enableCaptcha != Some("false")
    ensures raw.enableCaptcha.None? ==> Build(raw, toNumber).enableCaptcha
  {
  }

  /** Any numeric setting that is not a number stops start-up. */
  lemma NotANumberRejected(v: EnvValues, i: nat)
    requires i < |CheckedVars(v)| && CheckedVars(v)[i].1.NaN?
    ensures Validate(v).Failure?
    ensures Validate(v).error.NotANumber? || Validate(v).error.NotPositive?
  {
    assert !VarOk(CheckedVars(v)[i]);
  }

  /** CHALLENGE_SIZE and DIFFICULTY must be greater than 0. */
  lemma NonPositiveSizeOrDifficultyRejected(v: EnvValues)
    requires (v.challengeSize.Finite? && v.challengeSize.value <= 0.0)
          || (v.difficulty.Finite? && v.difficulty.value <= 0.0)
    ensures Validate(v).Failure?
  {
    ValidateAcceptsExactly(v);
  }

  /** The reduction ratio is accepted only in [0, 1). */
  lemma ReductionRatioOutOfRangeRejected(v: EnvValues)
    requires v.reductionRatio.Finite?
    requires v.reductionRatio.value < 0.0 || v.reductionRatio.value >= 1.0
    ensures Validate(v).Failure?
  {
    ValidateAcceptsExactly(v);
  }

  /** Whatever is accepted has its bounds in order and positive. */
  lemma AcceptedBounds(v: EnvValues)
    requires Validate(v).Success?
    ensures var c := Validate(v).value;
      && 0.0 <= c.reductionRatio < 1.0
      && 0.0 < c.minChallenges <= c.maxChallenges
      && 0.0 < c.minTez <= c.maxTez
      && c.challengeSize > 0.0 && c.difficulty > 0.0
  {
    ValidateAcceptsExactly(v);
  }

  // ---------------------------------------------------------------------------
  // MAX_TEZ == MIN_TEZ

  /**
   * As written, the checks accept MAX_TEZ equal to MIN_TEZ, the divisor of
   * the challenge calculator's proportion.
   */
  lemma EqualTezBoundsAccepted()
    ensures Validate(DefaultValues.(maxTez := Finite(1.0))).Success?
    ensures var c := Validate(DefaultValues.(maxTez := Finite(1.0))).value;
      c.maxTez - c.minTez == 0.0
  {
    ValidateAcceptsExactly(DefaultValues.(maxTez := Finite(1.0)));
  }

  /** The checks with MAX_TEZ required to exceed MIN_TEZ, as the calculator needs. */
  function ValidateStrict(v: EnvValues): (r: Result<Config, EnvError>)
    ensures r.Success? ==> Validate(v) == r && r.value.maxTez > r.value.minTez
    ensures r.Success? <==> Acceptable(v) && v.maxTez.value > v.minTez.value
  {
    ValidateAcceptsExactly(v);
    var c :- Validate(v);
    if c.maxTez <= c.minTez then Failure(BadTezBounds) else Success(c)
  }

  lemma DefaultsAcceptedStrict()
    ensures ValidateStrict(DefaultValues) == Success(DefaultConfig)
  {
    DefaultsAccepted();
  }
}
