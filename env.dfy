/** The environment resolver: reads named variables from the process
    environment, falls back to defaults, applies optional validators and
    builds the application's configuration record. The process environment
    is an explicit map, already merged with the local override file. */
module Env {
  import opened Wrappers
  import opened AsciiCase

  type Environment = map<string, string>

  /** A predicate over a variable's value; absent means "accept everything". */
  type Validator = string -> bool

  /** The two failures of the required lookup, each carrying its message. */
  datatype EnvError = NotSet(message: string) | NotValid(message: string)

  /** The configuration record exposed to the rest of the application. */
  datatype AppEnv = AppEnv(appEnv: string, logLevel: string)

  /** Reading `process.env[e]`: undefined when the name is not set. */
  function Lookup(env: Environment, e: string): Option<string>
  {
    if e in env then Some(env[e]) else None
  }

  /** JavaScript truthiness of a looked-up value: undefined and "" are falsy. */
  predicate Truthy(value: Option<string>)
  {
    value.Some? && value.value != ""
  }

  /** The variable is set to a non-empty value: the map-level form of
      `Truthy(Lookup(env, e))` (see `TruthyLookupIsPresent`). */
  ghost predicate Present(env: Environment, e: string)
  {
    e in env && env[e] != ""
  }

  /** The `!value` test on a lookup fails exactly when the variable is
      present. */
  lemma TruthyLookupIsPresent(env: Environment, e: string)
    ensures Truthy(Lookup(env, e)) <==> Present(env, e)
  {
  }

  /** `validator ? validator(value) : true` */
  predicate Accepts(validator: Option<Validator>, v: string)
  {
    match validator
    case None => true
    case Some(f) => f(v)
  }

  /** `message || generated`: the custom message when it is truthy, the
      generated one otherwise. */
  function MessageOr(message: Option<string>, generated: string): (r: string)
    ensures r == generated || (message.Some? && r == message.value)
    ensures r == "" ==> generated == ""
    ensures r != generated ==> message.Some? && message.value != ""
  {
    if message.Some? && message.value != "" then message.value else generated
  }

  function NotSetMessage(e: string): string
  {
    "The environment variable " + e + " is not set."
  }

  function NotValidMessage(e: string): string
  {
    "The environment variable " + e + " is not valid."
  }

  /** Looks up `e`, returning `def` when it is unset or empty or when the
      validator rejects it. */
  function GetOrDefault(env: Environment, e: string, def: string, validator: Option<Validator>): (r: string)
    ensures !Present(env, e) ==> r == def
    ensures Present(env, e) && Accepts(validator, env[e]) ==> r == env[e]
    ensures Present(env, e) && !Accepts(validator, env[e]) ==> r == def
  {
    var value := Lookup(env, e);
    if !Truthy(value) then def
    else if Accepts(validator, value.value) then value.value
    else def
  }

  /** Looks up `e` and fails when it is unset or empty ("not set") or when the
      validator rejects it ("not valid"); a non-empty custom message replaces
      the generated one in either failure. */
  function GetOrThrow(env: Environment, e: string, message: Option<string>, validator: Option<Validator>): (r: Result<string, EnvError>)
    ensures !Present(env, e) ==> r == Failure(NotSet(MessageOr(message, NotSetMessage(e))))
    ensures Present(env, e) && !Accepts(validator, env[e]) ==> r == Failure(NotValid(MessageOr(message, NotValidMessage(e))))
    ensures r.Success? <==> Present(env, e) && Accepts(validator, env[e])
    ensures r.Success? ==> r.value == env[e]
  {
    var value := Lookup(env, e);
    if !Truthy(value) then Failure(NotSet(MessageOr(message, NotSetMessage(e))))
    else if !Accepts(validator, value.value) then Failure(NotValid(MessageOr(message, NotValidMessage(e))))
    else Success(value.value)
  }

  /** The eight recognised severity names. */
  const LogLevels: seq<string> := ["emerg", "alert", "crit", "error", "warning", "notice", "info", "debug"]

  const LogLevelVar: string := "LOG_LEVEL"
  const AppEnvVar: string := "APP_ENV"

  /** Every level name is a non-empty lower-case string, and no two are
      equal. */
  lemma LogLevelsWellFormed()
    ensures |LogLevels| == 8
    ensures forall l :: l in LogLevels ==> l != "" && IsLowerString(l)
    ensures forall i, j :: 0 <= i < j < |LogLevels| ==> LogLevels[i] != LogLevels[j]
  {
  }

  /** The validator passed for `LOG_LEVEL`: its lower-case form is a level.
      Equivalently, it is one of the level names written in any letter case. */
  predicate IsLogLevel(v: string)
    ensures IsLogLevel(v) <==> exists l :: l in LogLevels && EqualIgnoringCase(v, l)
  {
    LogLevelsWellFormed();
    EqualIgnoringCaseIffSameLower(v, ToLower(v));
    ToLowerIdempotent(v);
    assert forall l :: l in LogLevels ==> ToLower(l) == l by {
      forall l | l in LogLevels ensures ToLower(l) == l {
        ToLowerFixesLower(l);
      }
    }
    assert forall l :: l in LogLevels ==> (EqualIgnoringCase(v, l) <==> ToLower(v) == l) by {
      forall l | l in LogLevels ensures EqualIgnoringCase(v, l) <==> ToLower(v) == l {
        EqualIgnoringCaseIffSameLower(v, l);
      }
    }
    ToLower(v) in LogLevels
  }

  /** The log level: `LOG_LEVEL` when it names a level in any letter case,
      otherwise "INFO"; lower-cased either way. */
  function GetLogLevel(env: Environment): (r: string)
    ensures r in LogLevels
    ensures IsLowerString(r)
    ensures ToLower(r) == r
    ensures Present(env, LogLevelVar) && IsLogLevel(env[LogLevelVar]) ==> r == ToLower(env[LogLevelVar])
    ensures !(Present(env, LogLevelVar) && IsLogLevel(env[LogLevelVar])) ==> r == "info"
  {
    var level := GetOrDefault(env, LogLevelVar, "INFO", Some(IsLogLevel));
    assert ToLower("INFO") == "info";
    ToLowerIdempotent(level);
    ToLower(level)
  }

  /** The configuration record built from the environment. */
  function LoadEnv(env: Environment): (r: AppEnv)
    ensures r.appEnv == (if Present(env, AppEnvVar) then env[AppEnvVar] else "DEV")
    ensures r.logLevel in LogLevels
    ensures r.logLevel == GetLogLevel(env)
  {
    AppEnv(GetOrDefault(env, AppEnvVar, "DEV", None), GetLogLevel(env))
  }
}
