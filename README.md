# k8snode credential service: the login route, its configuration and its logger

This project models the core of a small Hono service that authenticates a
username and password against a fixed roster and answers with a signed JWT.
Three source files make up the core:

- `src/routes/auth.ts`: the `POST /` login handler. It parses the JSON body,
  checks it against a zod schema (both keys non-empty strings), looks the
  username up in the roster, compares the password with bcrypt, signs a token
  with jsonwebtoken and logs one record for every outcome. Any exception ends
  in the `catch` block and a 500 answer.
- `src/config/index.ts`: the `config` constant. Each setting is
  `process.env.X || default`; the port goes through `parseInt(…, 10)`; the
  roster holds two accounts whose passwords are bcrypt hashes computed at
  start-up.
- `src/utils/logger.ts`: a stateless logger. Each of `info`, `error`, `warn`,
  `debug` and `http` writes one record `{timestamp, LEVEL, message, metadata}`
  as one console line.

Files:

- `wrappers.dfy` (module `Wrappers`): `Option` and `Result`.
- `logger.dfy` (module `Logging`): the record types, ASCII upper-casing, the
  console as an append-only `Console` object and the `Logger` class. The
  logger's only field is the constant console it writes to.
- `config.dfy` (module `Configuration`): environment fallbacks, a model of
  `parseInt` with its inverse `Decimal`, the roster and `Load`, which builds
  the whole `config` value.
- `auth.dfy` (module `AuthRoute`): the request and response types, the zod
  check (`Validate`), the roster lookup (`FindUser`), the handler as one pure
  function (`Authenticate`) that returns status, body and the logger calls,
  the `Handle` method that also writes the log line, and the lemmas.

bcrypt and jsonwebtoken are parameters. `Verifier` stands for
`bcrypt.compare`, `Signer` for `jwt.sign` and `hashSync` for `bcrypt.hashSync`.
`bcrypt.compare` and `jwt.sign` either return a value or throw (`Attempt`).
`bcrypt.hashSync` is a total function that is assumed not to throw: a throw
there would abort loading `src/config/index.ts` before any request is served. The properties
the configuration and its tests expect of bcrypt are collected in the
hypothesis `SoundHasher`: a plaintext matches its own hash, no other plaintext
matches the hash of a roster password, and a string that is not a bcrypt hash
matches nothing. It does not ask for a collision-free hash on all strings,
which no 60-character bcrypt hash can be. `SoundHasherSatisfiable` exhibits a
hasher and compare that meet it, so the lemmas that assume it are not
vacuous. The clock is the `now` parameter of the logger
methods. `process.env` is the `env` map given to `Load`.

The model follows the code, including where it departs from the usual design
of such a service or from its own tests:

- A body that is not valid JSON makes `c.req.json()` throw inside the `try`,
  so it is answered 500 "Internal server error", not 400.
- The 400 message is "Invalid request format".
- There is no length limit on username or password, only non-emptiness.
- The logger has no severity threshold. `debug` is always written. Levels are
  written upper-case, and there is an `http` level.
- Log calls carry no request id and no latency.
- The handler signs with `expiresIn: '24h'` written out. It never reads
  `config.jwt.expiresIn`, so `JWT_EXPIRES_IN` has no effect on tokens.
- `src/__tests__/logger.test.ts` expects things `logger.ts` does not have: a
  constructor threshold, `logRequest`, `logError`, a `meta` key and
  lower-case levels. `src/__tests__/config.test.ts` imports
  `findUserByUsername`, `verifyPassword` and `hashPassword`, which the config
  module does not export. The model follows `logger.ts`, and it states the
  lookup and verification facts those tests expect through the login route's
  lookup (`RosterLookups`, `MalformedHashRejected`).
- `logger.ts` imports a `LogEntry` type that `src/types/index.ts` does not
  export. That file has only `LogLevel`, and its level union lacks `'http'`.
  The record type here is the object literal `log` builds.

## Model

| member | source | states |
|---|---|---|
| `Logging.ToUpper` | src/utils/logger.ts:11 | upper-casing keeps the length and maps each character through the ASCII upper-case mapping |
| `Logging.ToUpperNormalises` | src/utils/logger.ts:11 | an upper-cased level has no lower-case letter left, characters that are not lower-case letters are unchanged, and upper-casing twice is the same as once |
| `Logging.UpperLabel` | src/utils/logger.ts:19-37 | each wrapper's level name upper-cases to its label: INFO, ERROR, WARN, DEBUG and HTTP |
| `Logging.Console.constructor` | src/utils/logger.ts:16 | the console starts with no lines |
| `Logging.Console.WriteLine` | src/utils/logger.ts:16 | `console.log` appends exactly one line and leaves the earlier lines as they were |
| `Logging.Logger.constructor` | src/utils/logger.ts:3-40 | the logger is bound to one console and holds nothing else |
| `Logging.Logger.Log` | src/utils/logger.ts:8-17 | one record is appended, with the given timestamp, the level upper-cased, and the message and metadata unchanged (absent metadata stays absent); earlier lines are untouched |
| `Logging.Logger.Info` | src/utils/logger.ts:19-21 | appends exactly one record, at level INFO |
| `Logging.Logger.Error` | src/utils/logger.ts:23-25 | appends exactly one record, at level ERROR |
| `Logging.Logger.Warn` | src/utils/logger.ts:27-29 | appends exactly one record, at level WARN |
| `Logging.Logger.Debug` | src/utils/logger.ts:31-33 | appends exactly one record, at level DEBUG, unconditionally: there is no threshold |
| `Logging.Logger.Http` | src/utils/logger.ts:35-37 | appends exactly one record, at level HTTP |
| `Logging.Logger.Emit` | src/utils/logger.ts:19-37 | a call of any wrapper writes the record for that call and nothing else |
| `Configuration.Or` | src/config/index.ts:5-10 | the fallback `process.env[name] or default` is the variable when it is set and non-empty, the default otherwise, and never empty when the default is not |
| `Configuration.TrimStart` | src/config/index.ts:5 | `parseInt` drops exactly the leading white space: every dropped character is white space, and what remains is a suffix of the input that is empty or starts with something else |
| `Configuration.ParseInt` | src/config/index.ts:5 | `parseInt(s, 10)` is NaN exactly when, after the leading white space and an optional sign, no digit follows; a negative result needs a leading '-' |
| `Configuration.ParseIntSkipsSpace` | src/config/index.ts:5 | leading white space does not change what `parseInt` reads |
| `Configuration.DigitRun` | src/config/index.ts:5 | `parseInt` reads the longest run of leading digits |
| `Configuration.Decimal` | src/config/index.ts:5 | the decimal notation of a natural number is a non-empty string of digits |
| `Configuration.DigitsValueDecimal` | src/config/index.ts:5 | the digit value of a number's decimal notation is that number |
| `Configuration.ParseIntDecimal` | src/config/index.ts:5 | for every n up to 2^53, where a double holds n exactly, `parseInt` reads back n's decimal notation and ignores any text after it that does not start with a digit |
| `Configuration.ParseIntNoDigits` | src/config/index.ts:5 | a string with no digit parses to NaN |
| `Configuration.DefaultPortParses` | src/config/index.ts:5 | with PORT unset, the port is 3000 |
| `Configuration.Roster` | src/config/index.ts:12-23 | the roster's usernames are pairwise distinct, and so are its ids |
| `Configuration.RosterAccounts` | src/config/index.ts:12-23 | the roster is exactly admin (id '1') then user (id '2'), and each password field is the hash of that account's plaintext |
| `Configuration.Load` | src/config/index.ts:4-24 | environment, version, secret and expiry are the variable when set and non-empty, else 'development', '1.0.0', the fixed default secret, and '24h'; the port is `parseInt` of PORT when it is set and non-empty, and 3000 otherwise; no setting is empty; the users are exactly the two-account roster, which has unique usernames and ids |
| `AuthRoute.FieldIssues` | src/routes/auth.ts:13-14 | a key produces no issue exactly when it holds a non-empty string, and every issue it produces is located at that key |
| `AuthRoute.Validate` | src/routes/auth.ts:12-15 | validation succeeds exactly when the body is an object whose username and password are non-empty strings, and it then yields those two strings; a failure always has at least one issue, and it reports a key exactly when that key is missing, not a string or empty |
| `AuthRoute.FindUser` | src/routes/auth.ts:38 | the lookup finds nothing exactly when no account has that exact username; otherwise it returns an account with that username that no earlier account's username equals |
| `AuthRoute.LookupUnique` | src/routes/auth.ts:38 | with unique usernames, looking up an account's username returns that account |
| `AuthRoute.Authenticate` | src/routes/auth.ts:17-104 | every outcome makes exactly one log call: info on 200, warn on 400 and 401, error on 500. Success holds exactly on 200. 400 happens exactly when validation fails; its body has the issues, and its warn log is 'Authentication failed - Invalid request format' with those issues under `errors`. 200 happens exactly when validation passes, an account is found, its hash verifies and signing returns; the body then carries the signer's token and only the account's id and username. 401 and 500 carry only the generic message |
| `AuthRoute.Handle` | src/routes/auth.ts:17-104 | the handler answers what `Authenticate` computes and appends exactly the one record of its log call to the console |
| `AuthRoute.RefusalsIndistinguishable` | src/routes/auth.ts:40-59 | any two 401 answers have the same body and are logged at warn, so an unknown username cannot be told from a wrong password |
| `AuthRoute.RefusalCauses` | src/routes/auth.ts:40-59 | a 401 comes only from an unknown username or a password the verifier rejects; only the log message differs between the two, and the log carries the username alone |
| `AuthRoute.UnknownUserRefused` | src/routes/auth.ts:38-47 | a username that matches no account is refused with 401, whatever the verifier and signer do; neither of them is consulted |
| `AuthRoute.RejectionConsultsNothing` | src/routes/auth.ts:21-33 | a body that fails validation gets 400, and the same answer for every roster, verifier and signer |
| `AuthRoute.FaultCauses` | src/routes/auth.ts:94-103 | 500 happens exactly when the body is unreadable or the verifier or signer throws; the body has no fault detail, and the one log call carries only the key `error` |
| `AuthRoute.ThrownFaultLogged` | src/routes/auth.ts:50-103 | a throw from the verifier, or from the signer after the password verified, gives exactly the `catch` answer for that thrown value: 500, and an error log whose `error` is its message, or 'Unknown error' when it is not an Error |
| `AuthRoute.UnreadableBodyIsInternalError` | src/routes/auth.ts:20 | an unparseable body is answered by the `catch` block, and the log holds the fault's message, or 'Unknown error' when the thrown value is not an Error |
| `AuthRoute.PasswordNeverLeaks` | src/routes/auth.ts:24-26 | two requests that differ only in the password get identical responses and identical log calls, provided both passwords have the same shape and the verifier answers alike for both against every stored hash; so no response or log record contains the password |
| `AuthRoute.SuccessCarriesSignedIdentity` | src/routes/auth.ts:62-92 | on success, the token in the body is what the signer returned for claims {userId, username}, with expiresIn '24h', issuer 'k8snode-api' and subject the id. The user is {id, username} of an account in the roster, and the info log carries the username and user id |
| `AuthRoute.SoundHasherSatisfiable` | src/config/index.ts:12-23 | a concrete hasher and compare meet every clause of the bcrypt hypothesis the roster relies on |
| `AuthRoute.MalformedHashRejected` | src/__tests__/config.test.ts:32-35 | the test's expectation, as an instance of the third clause of the bcrypt hypothesis: comparing 'password' with 'invalid-hash' gives false and does not throw |
| `AuthRoute.OwnPlaintextAccepted` | src/__tests__/config.test.ts:20-24 | the test's expectation, as an instance of the first clause of the bcrypt hypothesis: a plaintext compared with its own hash gives true |
| `AuthRoute.OtherPlaintextRejected` | src/__tests__/config.test.ts:26-30 | the test's expectation, as an instance of the second clause of the bcrypt hypothesis: a plaintext compared with the hash of a different roster password gives false |
| `AuthRoute.RosterLookups` | src/__tests__/config.test.ts:6-16 | looking up 'admin' finds the account with id '1'; looking up 'nonexistent' finds nothing |
| `AuthRoute.AdminSignsIn` | src/routes/auth.ts:50-92 | under a sound bcrypt, admin with admin123 gets 200, the signed token and the user {id '1', username 'admin'} |
| `AuthRoute.MatchSigned` | src/routes/auth.ts:50-92 | a known user whose password verifies and whose claims are signed gets 200 with exactly that token and the account's id and username |
| `AuthRoute.MismatchRefused` | src/routes/auth.ts:50-59 | a known user whose password the verifier rejects gets 401 'Invalid credentials', logged as an invalid password |
| `AuthRoute.AdminAccepted` | src/routes/auth.ts:50-92 | for any compare that accepts admin123 against its own hash, admin with admin123 gets 200, the signed token and the user {id '1', username 'admin'} |
| `AuthRoute.WrongPasswordRefused` | src/routes/auth.ts:50-59 | under a sound bcrypt, admin with a wrong password gets 401 'Invalid credentials', logged as an invalid password |
| `AuthRoute.AbsentRefused` | src/routes/auth.ts:38-47 | a username no account has gets 401 'Invalid credentials', logged as user not found |
| `AuthRoute.UnknownUserScenario` | src/routes/auth.ts:40-47 | 'ghost' gets the same 401 body, logged as user not found |
| `AuthRoute.EmptyUsernameRejected` | src/routes/auth.ts:21-33 | an empty username gets 400 'Invalid request format' with a single too_small issue on username |

## Left out

- Timestamps: `new Date().toISOString()` is the `now` argument of each logger call.
- Serialisation: `JSON.stringify` of the record and `c.json` of the response are not modelled. Records and bodies are kept as values.
- `bcrypt.hashSync` throwing: it is a total function here, as a throw would stop the module from loading.
- Exceptions from the logger: if `console.log` threw, the handler's control flow would change. The model assumes it does not throw.
- bcrypt and jsonwebtoken internals: salting, the cost factor, constant-time comparison, token encoding and expiry arithmetic. The calls are function parameters. `hashSync` is one fixed draw of the random salts, one per plaintext.
- zod issues: they keep only `code`, `path` and `message`. Other keys (`expected`, `received`, `minimum`, `inclusive`, `exact`, `type`) are dropped; which of them appear depends on the zod version, which is not part of this model. Keys other than username and password are ignored, as zod strips them.
- `async`/`await`: the handler is modelled as straight-line code. A rejected promise from `bcrypt.compare` is a `Threw` result.
- Hono wiring and `src/app.ts`: CORS, middleware, the `onError` and `notFound` handlers, server start and signal handling. These are framework glue.
- `src/routes/health.ts`: process sampling and floating-point rounding.
- Logging.ToUpper: models `toUpperCase` for ASCII only. Every level string the logger receives is ASCII, so the records are unaffected.
- Metadata numbers: `JNumber` holds an exact real, not a double.
- Configuration.ParseInt: keeps the exact integer. Above 2^53 `parseInt` rounds to the nearest double, and a long enough digit run gives Infinity; neither is modelled. `-0` is read as 0, not as the double negative zero.
- Configuration.ParseIntDecimal: claimed only up to 2^53, because above that the double `parseInt` returns is not the number written.
- AuthRoute.SoundHasher: assumes no collision only with the hashes of the two roster passwords, not between any two plaintexts. bcrypt reads at most 72 bytes and has finitely many hashes, so the stronger promise is false.
- AuthRoute.OtherPlaintextRejected: stated for the hashes of admin123 and user123 only. The test at src/__tests__/config.test.ts:26-30 hashes 'testpassword', which the hypothesis does not cover.
- Configuration.TrimStart: `parseInt` skips only ASCII white space here, not the other Unicode spaces and line terminators.
- Test-only APIs that the source lacks: the `Logger` constructor threshold, `logRequest`, `logError`, and `findUserByUsername`, `verifyPassword` and `hashPassword` as config exports. They are not modelled.
