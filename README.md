# Environment resolver

A model of the configuration helper of a TypeScript application skeleton
(`src/env.ts`). It reads named variables from the process environment,
falls back to defaults, applies optional validators, and builds the
configuration record `{APP_ENV, LOG_LEVEL}` that the rest of the
application imports.

The model is written as pure functions, because the source is pure:

- `wrappers.dfy` (`Wrappers`): `Option` stands for a value that may be
  `undefined`. `Result` stands for a value or a thrown error.
- `ascii_case.dfy` (`AsciiCase`): the part of `String.prototype.toLowerCase`
  the resolver relies on. `ToLower` maps ASCII `A`–`Z` to `a`–`z` and keeps
  every other character. `EqualIgnoringCase` defines case-insensitive
  equality on its own terms. Two characters match when they are equal, or
  when one is an upper-case letter and the other is its lower-case partner.
  This definition does not use `LowerChar`.
- `env.dfy` (`Env`): `GetOrDefault`, `GetOrThrow`, `LogLevels`,
  `GetLogLevel` and the record construction `LoadEnv`.
  - `process.env` becomes an explicit `map<string, string>` parameter.
  - `Lookup` and `Truthy` reproduce `process.env[e]` and the `!value` test.
    A missing name and the empty string are both treated as "not set".
    `Present` is the same test stated on the map, and `TruthyLookupIsPresent`
    proves the two agree.
  - `Accepts` is `validator ? validator(value) : true`. `IsLogLevel` is the
    validator that the log-level lookup passes in.
  - A validator is an `Option<string -> bool>`.
  - The custom message is an `Option<string>`. An empty message gives way
    to the generated one, as `message || ...` does.
  - A thrown `Error` becomes `Failure(NotSet(msg))` or `Failure(NotValid(msg))`.
    The source throws the same plain `Error` in both cases. The `NotSet` and
    `NotValid` tags exist only in the model. With a custom message, a caller
    of the source cannot tell the two failures apart.
- `env_properties.dfy` (`EnvProperties`): lemmas that relate several calls,
  and the concrete start-up scenarios.

The source lower-cases with full Unicode rules, and the model uses ASCII
only. For this resolver the two agree. Two non-ASCII characters lower-case
to ASCII: KELVIN SIGN becomes `k`, and `İ` becomes `i` followed by a
combining dot. No level name contains `k`, and the combining dot is not
ASCII. So a value is accepted under the Unicode rules exactly when it is
accepted under the ASCII rules. An accepted value is made only of ASCII
letters, so both rules lower-case it the same way.

## Model

| member | source | states |
|---|---|---|
| `Env.GetOrDefault` | src/env.ts:8-19 | An unset or empty variable gives `def`. A set value the validator accepts, or any set value when there is no validator, is returned unchanged. A set value the validator rejects gives `def`. |
| `EnvProperties.GetOrDefaultUnsetIgnoresValidator` | src/env.ts:13-16 | When the name is absent or maps to `""`, the result is exactly `def` for every validator. |
| `EnvProperties.GetOrDefaultRange` | src/env.ts:13-18 | The result is always either `def` or the variable's non-empty, accepted value. |
| `EnvProperties.GetOrDefaultNeverReturnsRejected` | src/env.ts:17-18 | A value the validator rejects is never returned, unless it equals the default. |
| `EnvProperties.EmptyMessageIsNoMessage` | src/env.ts:24 | An empty custom message is falsy in JavaScript, so it gives the same text as no message: the generated one. |
| `Env.TruthyLookupIsPresent` | src/env.ts:13-14 | The `!value` test on `process.env[e]` fails exactly when the name is in the map with a non-empty value. |
| `EnvProperties.AcceptsDecidesSuccess` | src/env.ts:26-30 | For a non-empty value and any custom message, the required lookup succeeds exactly when `validator ? validator(value) : true` holds. With no validator every value passes, and the defaulting lookup returns the value unchanged. |
| `Env.GetOrThrow` | src/env.ts:21-31 | An unset or empty variable fails with `NotSet` and the text "The environment variable e is not set." unless a custom message is given. A set value the validator rejects fails with `NotValid` and "... is not valid." in the same way. It succeeds exactly when the value is set and accepted, and then returns the raw value. |
| `EnvProperties.GetOrThrowUnsetIgnoresValidator` | src/env.ts:22-25 | When the variable is unset or empty, the failure is `NotSet` and the outcome does not depend on the validator. The missing check comes before the validity check. |
| `EnvProperties.GetOrThrowMessage` | src/env.ts:24-28 | Every failure carries the non-empty custom message if there is one. Otherwise it carries the generated text that matches its kind. |
| `EnvProperties.GetOrDefaultIsGetOrThrowOrDefault` | src/env.ts:8-31 | `GetOrDefault` is `GetOrThrow` with every failure replaced by the default. This holds for every environment, name, default, message and validator. |
| `EnvProperties.GetOrThrowSuccessAgrees` | src/env.ts:30 | When `GetOrThrow` succeeds, its value is the raw variable value. `GetOrDefault` returns the same value with any default. |
| `AsciiCase.LowerChar` | src/env.ts:46 | The result is never an upper-case ASCII letter. An upper-case letter moves to its lower-case partner. Every other character is unchanged. |
| `AsciiCase.ToLower` | src/env.ts:46-48 | The result has the input's length. Each character is the lower-case form of the input's character. The result has no upper-case letter. |
| `AsciiCase.ToLowerFixesLower` | src/env.ts:48 | A string with no upper-case letter is its own lower-case form. |
| `AsciiCase.ToLowerIdempotent` | src/env.ts:48 | Lower-casing twice gives the same string as lower-casing once. |
| `AsciiCase.SameLetterIffSameLower` | src/env.ts:46 | Two characters match ignoring case, by the case-by-case definition, exactly when `LowerChar` maps them to the same character. |
| `AsciiCase.EqualIgnoringCaseIffSameLower` | src/env.ts:46 | Two strings are equal ignoring case exactly when their lower-case forms are equal, in both directions. |
| `Env.LogLevelsWellFormed` | src/env.ts:33-42 | The list holds eight level names. Each is non-empty and lower-case, and no two are equal. |
| `Env.IsLogLevel` | src/env.ts:45-47 | The validator accepts a value exactly when it equals one of the eight level names, ignoring letter case. |
| `Env.GetLogLevel` | src/env.ts:33-49 | The result is always one of the eight level names, and it is lower-case: lower-casing it again leaves it unchanged. A set `LOG_LEVEL` whose lower-case form is a level gives that lower-case form. Anything else gives `info`. |
| `EnvProperties.LogLevelCaseInsensitive` | src/env.ts:45-48 | Two values of `LOG_LEVEL` that differ only in letter case give the same log level. |
| `EnvProperties.GetLogLevelIdempotent` | src/env.ts:44-49 | Writing the resolved level back into `LOG_LEVEL` resolves to the same level. |
| `EnvProperties.ErrorInAnyCase` | src/env.ts:45-48 | `ERROR`, `Error` and `error` all give `error`. |
| `EnvProperties.UnrecognisedLevelFallsBack` | src/env.ts:45-48 | `trace` is not a level and gives `info`. |
| `EnvProperties.EmptyLevelFallsBack` | src/env.ts:14-15 | An empty `LOG_LEVEL` counts as unset and gives `info`. |
| `Env.LoadEnv` | src/env.ts:62-65 | `APP_ENV` is the variable's value when it is set and non-empty, and `DEV` otherwise. `LOG_LEVEL` is the resolved log level, always one of the eight names. |
| `EnvProperties.EmptyEnvironmentDefaults` | src/env.ts:62-65 | With an empty environment, the record is `{APP_ENV: "DEV", LOG_LEVEL: "info"}`. |
| `EnvProperties.ProductionDebugScenario` | src/env.ts:62-65 | With `APP_ENV=production` and `LOG_LEVEL=DEBUG`, the record is `{APP_ENV: "production", LOG_LEVEL: "debug"}`. |

## Left out

- Loading the `.env` file with `dotenv.config` and `path.join` (src/env.ts:58-60) is file I/O through a foreign library. The map given to the model is the environment after that file has been merged.
- The global `process.env` object and the module-level singleton and default export (src/env.ts:62-67) are not modelled as state. `LoadEnv` is the single call made on the given map.
- JavaScript `Error` objects and exception propagation are not modelled. A failure is a datatype value that carries its message.
- `AsciiCase.ToLower`: lower-cases ASCII letters only, not full Unicode. The text above explains why this gives the same log level as the source for every input.
