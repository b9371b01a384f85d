/** Properties of the environment resolver that relate several calls, and the
    concrete start-up scenarios of the configuration record. */
module EnvProperties {
  import opened Wrappers
  import opened AsciiCase
  import opened Env

  /** An unset or empty variable yields the default whatever the validator. */
  lemma GetOrDefaultUnsetIgnoresValidator(env: Environment, e: string, def: string, validator: Option<Validator>)
    requires e !in env || env[e] == ""
    ensures GetOrDefault(env, e, def, validator) == def
  {
  }

  /** The result is either the default or the accepted, non-empty value of
      the variable: nothing else is ever returned. */
  lemma GetOrDefaultRange(env: Environment, e: string, def: string, validator: Option<Validator>)
    ensures var r := GetOrDefault(env, e, def, validator);
      r == def || (e in env && env[e] != "" && Accepts(validator, env[e]) && r == env[e])
  {
  }

  /** A value the validator rejects is never returned (unless it happens to
      equal the default). */
  lemma GetOrDefaultNeverReturnsRejected(env: Environment, e: string, def: string, f: Validator)
    requires e in env && !f(env[e]) && env[e] != def
    ensures GetOrDefault(env, e, def, Some(f)) != env[e]
  {
  }

  /** The "not set" check comes first: when the variable is unset or empty,
      the required lookup reports it as not set and its outcome does not
      depend on the validator at all. */
  lemma GetOrThrowUnsetIgnoresValidator(env: Environment, e: string, message: Option<string>, v1: Option<Validator>, v2: Option<Validator>)
    requires e !in env || env[e] == ""
    ensures GetOrThrow(env, e, message, v1) == GetOrThrow(env, e, message, v2)
    ensures GetOrThrow(env, e, message, v1).Failure? && GetOrThrow(env, e, message, v1).error.NotSet?
  {
  }

  /** A non-empty custom message is the message of either failure; otherwise
      the generated message names the variable. */
  lemma GetOrThrowMessage(env: Environment, e: string, message: Option<string>, validator: Option<Validator>)
    requires GetOrThrow(env, e, message, validator).Failure?
    ensures var err := GetOrThrow(env, e, message, validator).error;
      && (message.Some? && message.value != "" ==> err.message == message.value)
      && (message.None? || message.value == "" ==>
            err.message == if err.NotSet? then NotSetMessage(e) else NotValidMessage(e))
  {
  }

  /** An empty custom message is falsy, so it behaves exactly like no
      message at all. */
  lemma EmptyMessageIsNoMessage(generated: string)
    ensures MessageOr(Some(""), generated) == MessageOr(None, generated) == generated
  {
  }

  /** For a non-empty value, the validator test alone decides whether the
      required lookup succeeds, whatever the custom message; without a validator every value passes, and
      the defaulting lookup then returns the value as it is (this is how
      `APP_ENV` is read). */
  lemma AcceptsDecidesSuccess(env: Environment, e: string, def: string, message: Option<string>, validator: Option<Validator>)
    requires e in env && env[e] != ""
    ensures Accepts(validator, env[e]) <==> GetOrThrow(env, e, message, validator).Success?
    ensures Accepts(None, env[e]) && GetOrDefault(env, e, def, None) == env[e]
  {
  }

  /** The defaulting lookup is the required lookup with its failures replaced
      by the default: both agree on every success, and the default is used
      exactly when the required lookup fails. */
  lemma GetOrDefaultIsGetOrThrowOrDefault(env: Environment, e: string, def: string, message: Option<string>, validator: Option<Validator>)
    ensures GetOrDefault(env, e, def, validator) == GetOrThrow(env, e, message, validator).GetOr(def)
  {
  }

  /** Whenever the required lookup succeeds, its raw value is also what the
      defaulting lookup returns, with any default. */
  lemma GetOrThrowSuccessAgrees(env: Environment, e: string, message: Option<string>, validator: Option<Validator>, def: string)
    requires GetOrThrow(env, e, message, validator).Success?
    ensures GetOrDefault(env, e, def, validator) == GetOrThrow(env, e, message, validator).value == env[e]
  {
  }

  /** Values of `LOG_LEVEL` that differ only in letter case give the same
      log level. */
  lemma LogLevelCaseInsensitive(env: Environment, a: string, b: string)
    requires EqualIgnoringCase(a, b)
    ensures GetLogLevel(env[LogLevelVar := a]) == GetLogLevel(env[LogLevelVar := b])
  {
    EqualIgnoringCaseIffSameLower(a, b);
    assert |ToLower(a)| == |a| && |ToLower(b)| == |b|;
  }

  /** Storing the resolved log level back into `LOG_LEVEL` resolves to the
      same level: the normalised value is a fixed point. */
  lemma GetLogLevelIdempotent(env: Environment)
    ensures GetLogLevel(env[LogLevelVar := GetLogLevel(env)]) == GetLogLevel(env)
  {
    var level := GetLogLevel(env);
    ToLowerFixesLower(level);
    assert level != "";
  }

  /** `ERROR`, `Error` and `error` all give `error`. */
  lemma ErrorInAnyCase()
    ensures GetLogLevel(map[LogLevelVar := "ERROR"]) == "error"
    ensures GetLogLevel(map[LogLevelVar := "Error"]) == "error"
    ensures GetLogLevel(map[LogLevelVar := "error"]) == "error"
  {
    assert ToLower("ERROR") == "error";
    assert ToLower("Error") == "error";
    assert ToLower("error") == "error";
  }

  /** A name outside the eight levels, such as `trace`, falls back to `info`. */
  lemma UnrecognisedLevelFallsBack()
    ensures GetLogLevel(map[LogLevelVar := "trace"]) == "info"
  {
    assert ToLower("trace") == "trace";
    assert "trace" !in LogLevels by {
      forall i | 0 <= i < |LogLevels| ensures LogLevels[i] != "trace" {
        assert LogLevels[i][0] != 't';
      }
    }
  }

  /** An empty `LOG_LEVEL` counts as unset and falls back to `info`. */
  lemma EmptyLevelFallsBack()
    ensures GetLogLevel(map[LogLevelVar := ""]) == "info"
  {
  }

  /** With nothing set, the record holds the defaults. */
  lemma EmptyEnvironmentDefaults()
    ensures LoadEnv(map[]) == AppEnv("DEV", "info")
  {
  }

  /** `APP_ENV=production` and `LOG_LEVEL=DEBUG` give a production record at
      debug level. */
  lemma ProductionDebugScenario()
    ensures LoadEnv(map[AppEnvVar := "production", LogLevelVar := "DEBUG"]) == AppEnv("production", "debug")
  {
    assert ToLower("DEBUG") == "debug";
  }
}
