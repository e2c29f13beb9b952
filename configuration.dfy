/** `Config::configure`: the five settings resolved from the environment. The
    environment is a map from variable name to value; a panic of the source is
    an `Abort` naming the setting that caused it. */
module Configuration {
  import opened Decimal

  const DSN_ENV := "SL_DSN"
  const RUNNERS_ENV := "SL_RUNNERS"
  const ERRORS_ENV := "SL_ERRORS"
  const TXN_ENV := "SL_TRANSACTIONS"
  const DELAY_ENV := "SL_DELAY"

  const DEFAULT_RUNNERS: u32 := 2
  const DEFAULT_ERRORS: u32 := 2
  const DEFAULT_TRANSACTIONS: u32 := 5
  const DEFAULT_DELAY: u32 := 2

  /** The numeric settings, in the order the struct expression evaluates them. */
  const NUMERIC_SETTINGS := [RUNNERS_ENV, ERRORS_ENV, TXN_ENV, DELAY_ENV]

  type Env = map<string, string>

  datatype Config = Config(dsn: string, runners: u32, errors: u32, transactions: u32, delay: u32)

  datatype ConfigError =
    | MissingSetting(name: string)                 // `panic!("${} is not set")`
    | MalformedSetting(name: string, text: string) // `parse::<u32>().unwrap()` on an `Err`

  datatype Outcome<T> = Ok(value: T) | Abort(error: ConfigError)

  /** A setting that is either absent or parses as a `u32`. */
  predicate Acceptable(env: Env, name: string) {
    name in env ==> ParseU32(env[name]).Some?
  }

  /** `v` is what the setting should resolve to: the parsed value when the
      variable is set, the default otherwise. */
  predicate Resolves(env: Env, name: string, default: u32, v: u32) {
    if name in env then ParseU32(env[name]) == Some(v) else v == default
  }

  /** The inner `load_u32_env`, with both of its arms. */
  function LoadU32Env(env: Env, name: string, default: u32): (r: Outcome<u32>)
    ensures r.Ok? <==> Acceptable(env, name)
    ensures r.Ok? ==> Resolves(env, name, default, r.value)
    ensures r.Abort? ==> r.error == MalformedSetting(name, env[name])
  {
    if name in env then
      match ParseU32(env[name])
      case Some(n) => Ok(n)
      case None => Abort(MalformedSetting(name, env[name]))
    else
      Ok(default)
  }

  /** One numeric field of the struct expression: its own `Some` arm parses,
      its `None` arm calls `load_u32_env`. */
  function NumericSetting(env: Env, name: string, default: u32): (r: Outcome<u32>)
    ensures r.Ok? <==> Acceptable(env, name)
    ensures r.Ok? ==> Resolves(env, name, default, r.value)
    ensures r.Abort? ==> r.error == MalformedSetting(name, env[name])
  {
    if name in env then
      match ParseU32(env[name])
      case Some(n) => Ok(n)
      case None => Abort(MalformedSetting(name, env[name]))
    else
      LoadU32Env(env, name, default)
  }

  /** The `Some` arm of `load_u32_env` is dead: each field calls the helper
      only when its variable is absent, where the helper returns the default,
      so the field behaves as if the helper had its `None` arm alone. */
  lemma LoadU32EnvSomeArmDead(env: Env, name: string, default: u32)
    ensures name !in env ==> LoadU32Env(env, name, default) == Ok(default)
    ensures NumericSetting(env, name, default) ==
      if name in env then
        match ParseU32(env[name])
        case Some(n) => Ok(n)
        case None => Abort(MalformedSetting(name, env[name]))
      else
        Ok(default)
  {
  }

  /** `Config::configure`, fields evaluated in declaration order so that the
      first failing one decides the panic. */
  function Configure(env: Env): (r: Outcome<Config>)
    ensures r.Ok? <==> DSN_ENV in env && forall i :: 0 <= i < |NUMERIC_SETTINGS| ==> Acceptable(env, NUMERIC_SETTINGS[i])
    ensures r.Ok? ==> r.value.dsn == env[DSN_ENV]
    ensures r.Ok? ==> Resolves(env, RUNNERS_ENV, DEFAULT_RUNNERS, r.value.runners)
    ensures r.Ok? ==> Resolves(env, ERRORS_ENV, DEFAULT_ERRORS, r.value.errors)
    ensures r.Ok? ==> Resolves(env, TXN_ENV, DEFAULT_TRANSACTIONS, r.value.transactions)
    ensures r.Ok? ==> Resolves(env, DELAY_ENV, DEFAULT_DELAY, r.value.delay)
    ensures DSN_ENV !in env ==> r == Abort(MissingSetting(DSN_ENV))
  {
    if DSN_ENV !in env then
      Abort(MissingSetting(DSN_ENV))
    else
      var dsn := env[DSN_ENV];
      match NumericSetting(env, RUNNERS_ENV, DEFAULT_RUNNERS)
      case Abort(e) => assert !Acceptable(env, NUMERIC_SETTINGS[0]); Abort(e)
      case Ok(runners) =>
        match NumericSetting(env, ERRORS_ENV, DEFAULT_ERRORS)
        case Abort(e) => assert !Acceptable(env, NUMERIC_SETTINGS[1]); Abort(e)
        case Ok(errors) =>
          match NumericSetting(env, TXN_ENV, DEFAULT_TRANSACTIONS)
          case Abort(e) => assert !Acceptable(env, NUMERIC_SETTINGS[2]); Abort(e)
          case Ok(transactions) =>
            match NumericSetting(env, DELAY_ENV, DEFAULT_DELAY)
            case Abort(e) => assert !Acceptable(env, NUMERIC_SETTINGS[3]); Abort(e)
            case Ok(delay) => Ok(Config(dsn, runners, errors, transactions, delay))
  }

  /** A malformed numeric setting aborts rather than falling back to its
      default, and the panic names the first malformed one in field order. */
  lemma {:induction false} FirstMalformedSettingAborts(env: Env, k: nat)
    requires DSN_ENV in env && k < |NUMERIC_SETTINGS|
    requires forall i :: 0 <= i < k ==> Acceptable(env, NUMERIC_SETTINGS[i])
    requires !Acceptable(env, NUMERIC_SETTINGS[k])
    ensures Configure(env) == Abort(MalformedSetting(NUMERIC_SETTINGS[k], env[NUMERIC_SETTINGS[k]]))
  {
    if k == 0 {
    } else if k == 1 {
      assert Acceptable(env, NUMERIC_SETTINGS[0]);
    } else if k == 2 {
      assert Acceptable(env, NUMERIC_SETTINGS[0]);
      assert Acceptable(env, NUMERIC_SETTINGS[1]);
    } else {
      assert Acceptable(env, NUMERIC_SETTINGS[0]);
      assert Acceptable(env, NUMERIC_SETTINGS[1]);
      assert Acceptable(env, NUMERIC_SETTINGS[2]);
    }
  }

  /** With only the endpoint set, every numeric field takes its default. */
  lemma OnlyDsnGivesDefaults(dsn: string)
    ensures Configure(map[DSN_ENV := dsn]) == Ok(Config(dsn, 2, 2, 5, 2))
  {
  }
}
