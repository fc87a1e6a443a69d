/** The POST handler of src/routes/auth.ts, as one function from a request,
    the configuration, a password verifier and a token signer to the HTTP
    status, the JSON body and the log calls it makes.

    bcrypt.compare and jwt.sign are parameters: each either returns a value
    or throws. Whatever is thrown inside the handler's `try` lands in its
    `catch`, which answers 500. */
module AuthRoute {
  import opened Wrappers
  import opened Logging
  import opened Configuration

  // ---- inputs ----

  /** A thrown value: an `Error` object with its message, or anything else. */
  datatype Thrown = ErrorObject(message: string) | NonError

  /** What a foreign call does: return a value or throw. */
  datatype Attempt<+T> = Returned(value: T) | Threw(thrown: Thrown)

  /** One key of the parsed request body. */
  datatype Field =
    | Missing                        // key absent
    | NonString(typeName: string)    // present, of the JSON type named
    | Str(s: string)

  /** The value `c.req.json()` resolves to. */
  datatype Body =
    | NonObject(typeName: string)    // null, an array, a number, ...
    | Object(username: Field, password: Field)

  /** The request as the handler sees it: a body that parses, or the fault
      `c.req.json()` throws. */
  datatype Request = Unreadable(fault: Thrown) | Json(body: Body)

  datatype Claims = Claims(userId: string, username: string)
  datatype SignOptions = SignOptions(expiresIn: string, issuer: string, subject: string)

  /** bcrypt.compare(plaintext, hash). */
  type Verifier = (string, string) -> Attempt<bool>
  /** jwt.sign(payload, secret, options). */
  type Signer = (Claims, string, SignOptions) -> Attempt<string>

  // ---- outputs ----

  /** One zod issue: where, which check, and its message. */
  datatype Issue = Issue(path: seq<string>, code: string, message: string)

  datatype UserView = UserView(id: string, username: string)

  datatype ResponseBody = ResponseBody(
    success: bool,
    message: string,
    errors: Option<seq<Issue>>,
    token: Option<string>,
    user: Option<UserView>)

  /** The response sent and the logger calls made on the way. */
  datatype Exchange = Exchange(status: nat, body: ResponseBody, logs: seq<LogCall>)

  datatype Credentials = Credentials(username: string, password: string)

  const InvalidFormat := "Invalid request format"
  const InvalidCredentials := "Invalid credentials"
  const Authenticated := "Authentication successful"
  const InternalServerError := "Internal server error"

  // ---- validation (the zod schema) ----

  /** `z.string().min(1)` accepts exactly the non-empty strings. */
  predicate ValidField(f: Field)
  {
    f.Str? && |f.s| >= 1
  }

  /** The issues `z.string().min(1, tooShort)` reports for one key. */
  function FieldIssues(name: string, f: Field, tooShort: string): (issues: seq<Issue>)
    ensures issues == [] <==> ValidField(f)
    ensures forall i | 0 <= i < |issues| :: issues[i].path == [name]
  {
    match f
    case Missing => [Issue([name], "invalid_type", "Required")]
    case NonString(t) => [Issue([name], "invalid_type", "Expected string, received " + t)]
    case Str(s) => if |s| >= 1 then [] else [Issue([name], "too_small", tooShort)]
  }

  predicate Reports(issues: seq<Issue>, name: string)
  {
    exists i | 0 <= i < |issues| :: issues[i].path == [name]
  }

  lemma ReportsAppend(a: seq<Issue>, b: seq<Issue>, name: string)
    ensures Reports(a + b, name) <==> Reports(a, name) || Reports(b, name)
  {
    if Reports(a + b, name) {
      var i :| 0 <= i < |a + b| && (a + b)[i].path == [name];
      if i >= |a| { assert b[i - |a|] == (a + b)[i]; }
    }
    if Reports(b, name) {
      var i :| 0 <= i < |b| && b[i].path == [name];
      assert (a + b)[|a| + i] == b[i];
    }
    if Reports(a, name) {
      var i :| 0 <= i < |a| && a[i].path == [name];
      assert (a + b)[i] == a[i];
    }
  }

  lemma FieldReports(name: string, f: Field, tooShort: string, other: string)
    ensures Reports(FieldIssues(name, f, tooShort), other) <==> other == name && !ValidField(f)
  {
    var issues := FieldIssues(name, f, tooShort);
    if other != name {
      assert [other] != [name] by { assert [other][0] != [name][0]; }
    } else if !ValidField(f) {
      assert issues[0].path == [name];
    }
  }

  /** `authSchema.safeParse(body)`: the credentials when both keys hold
      non-empty strings, otherwise every issue found, username first. */
  function Validate(body: Body): (r: Result<Credentials, seq<Issue>>)
    ensures r.Success? <==> body.Object? && ValidField(body.username) && ValidField(body.password)
    ensures r.Success? ==> r.value == Credentials(body.username.s, body.password.s)
    ensures r.Failure? ==> r.error != []
    ensures r.Failure? && body.Object? ==>
      (Reports(r.error, "username") <==> !ValidField(body.username)) &&
      (Reports(r.error, "password") <==> !ValidField(body.password))
  {
    match body
    case NonObject(t) => Failure([Issue([], "invalid_type", "Expected object, received " + t)])
    case Object(u, p) =>
      var uIssues := FieldIssues("username", u, "Username is required");
      var pIssues := FieldIssues("password", p, "Password is required");
      var issues := uIssues + pIssues;
      ReportsAppend(uIssues, pIssues, "username");
      ReportsAppend(uIssues, pIssues, "password");
      FieldReports("username", u, "Username is required", "password");
      FieldReports("password", p, "Password is required", "username");
      FieldReports("username", u, "Username is required", "username");
      FieldReports("password", p, "Password is required", "password");
      if issues == [] then Success(Credentials(u.s, p.s)) else Failure(issues)
  }

  // ---- lookup ----

  /** `config.users.find(u => u.username === username)`: the first account
      whose username is exactly `username`. */
  function FindUser(users: seq<User>, username: string): (r: Option<User>)
    ensures r.None? <==> forall i | 0 <= i < |users| :: users[i].username != username
    ensures r.Some? ==> exists i | 0 <= i < |users| ::
      users[i] == r.value && r.value.username == username &&
      forall j | 0 <= j < i :: users[j].username != username
  {
    if users == [] then None
    else if users[0].username == username then Some(users[0])
    else
      var r := FindUser(users[1..], username);
      assert r.Some? ==> exists i | 1 <= i < |users| ::
        users[i] == r.value && r.value.username == username &&
        forall j | 0 <= j < i :: users[j].username != username
      by {
        if r.Some? {
          var k :| 0 <= k < |users[1..]| && users[1..][k] == r.value &&
            forall j | 0 <= j < k :: users[1..][j].username != username;
          assert users[k + 1] == r.value;
        }
      }
      r
  }

  /** With unique usernames the first match is the only match. */
  lemma LookupUnique(users: seq<User>, i: nat)
    requires UniqueUsernames(users)
    requires i < |users|
    ensures FindUser(users, users[i].username) == Some(users[i])
  {
    var r := FindUser(users, users[i].username);
    var k :| 0 <= k < |users| && users[k] == r.value && r.value.username == users[i].username &&
      forall j | 0 <= j < k :: users[j].username != users[i].username;
    if k < i {
      assert users[k].username == users[i].username;
    }
  }

  // ---- the handler ----

  /** The payload and options the handler signs for an account. */
  function ClaimsFor(user: User): Claims
  {
    Claims(user.id, user.username)
  }

  function OptionsFor(user: User): SignOptions
  {
    SignOptions("24h", "k8snode-api", user.id)
  }

  /** `error instanceof Error ? error.message : 'Unknown error'`. */
  function FaultMessage(e: Thrown): string
  {
    match e
    case ErrorObject(m) => m
    case NonError => "Unknown error"
  }

  /** The zod issues as the JSON array the logger receives. */
  function IssuesJson(issues: seq<Issue>): Json
  {
    JArray(seq(|issues|, i requires 0 <= i < |issues| =>
      JObject(map[
        "code" := JString(issues[i].code),
        "path" := JArray(seq(|issues[i].path|, j requires 0 <= j < |issues[i].path| => JString(issues[i].path[j]))),
        "message" := JString(issues[i].message)])))
  }

  function Failed(message: string): ResponseBody
  {
    ResponseBody(false, message, None, None, None)
  }

  /** The `catch` block. */
  function Crash(e: Thrown): Exchange
  {
    Exchange(500, Failed(InternalServerError),
      [LogCall(Error, "Authentication error", Some(map["error" := JString(FaultMessage(e))]))])
  }

  /** The 401 answer, for an unknown user and a wrong password alike. */
  function Refuse(logMessage: string, username: string): Exchange
  {
    Exchange(401, Failed(InvalidCredentials),
      [LogCall(Warn, logMessage, Some(map["username" := JString(username)]))])
  }

  /** Whether the handler signs in: the body validates, an account has the
      username, its hash verifies, and signing returns. */
  predicate Grants(request: Request, config: Config, verify: Verifier, sign: Signer)
  {
    && request.Json?
    && Validate(request.body).Success?
    && var creds := Validate(request.body).value;
       && FindUser(config.users, creds.username).Some?
       && var user := FindUser(config.users, creds.username).value;
          && verify(creds.password, user.password) == Returned(true)
          && sign(ClaimsFor(user), config.jwt.secret, OptionsFor(user)).Returned?
  }

  /** The route handler. */
  function Authenticate(request: Request, config: Config, verify: Verifier, sign: Signer): (r: Exchange)
    // exactly one log call, at the level the outcome calls for
    ensures |r.logs| == 1
    ensures r.status in {200, 400, 401, 500}
    ensures r.logs[0].level == (if r.status == 200 then Info else if r.status == 500 then Error else Warn)
    ensures r.body.success <==> r.status == 200
    // 400: the body does not validate; nothing else was consulted
    ensures r.status == 400 <==> request.Json? && Validate(request.body).Failure?
    ensures r.status == 400 ==>
      && r.body == ResponseBody(false, InvalidFormat, Some(Validate(request.body).error), None, None)
      && r.logs[0] == LogCall(Warn, "Authentication failed - Invalid request format",
           Some(map["errors" := IssuesJson(Validate(request.body).error)]))
    // 200 exactly when every gate passes, with the signed token and the account's identity
    ensures r.status == 200 <==> Grants(request, config, verify, sign)
    ensures r.status == 200 ==>
      var user := FindUser(config.users, Validate(request.body).value.username).value;
      r.body == ResponseBody(true, Authenticated, None,
        Some(sign(ClaimsFor(user), config.jwt.secret, OptionsFor(user)).value),
        Some(UserView(user.id, user.username)))
    // 401 and 500 carry nothing but the generic message
    ensures r.status == 401 ==> r.body == Failed(InvalidCredentials)
    ensures r.status == 500 ==> r.body == Failed(InternalServerError)
  {
    match request
    case Unreadable(e) => Crash(e)
    case Json(body) =>
      match Validate(body)
      case Failure(issues) =>
        Exchange(400, ResponseBody(false, InvalidFormat, Some(issues), None, None),
          [LogCall(Warn, "Authentication failed - Invalid request format",
            Some(map["errors" := IssuesJson(issues)]))])
      case Success(creds) =>
        match FindUser(config.users, creds.username)
        case None => Refuse("Authentication failed - User not found", creds.username)
        case Some(user) =>
          match verify(creds.password, user.password)
          case Threw(e) => Crash(e)
          case Returned(false) => Refuse("Authentication failed - Invalid password", creds.username)
          case Returned(true) =>
            match sign(ClaimsFor(user), config.jwt.secret, OptionsFor(user))
            case Threw(e) => Crash(e)
            case Returned(token) =>
              Exchange(200,
                ResponseBody(true, Authenticated, None, Some(token), Some(UserView(user.id, user.username))),
                [LogCall(Info, Authenticated,
                  Some(map["username" := JString(creds.username), "userId" := JString(user.id)]))])
  }

  /** The handler with its effect: the response, and the one line its log
      call writes to the console. */
  method Handle(logger: Logger, now: string, request: Request, config: Config, verify: Verifier, sign: Signer)
    returns (status: nat, body: ResponseBody)
    modifies logger.console
    ensures var r := Authenticate(request, config, verify, sign);
      && status == r.status && body == r.body
      && logger.console.lines == old(logger.console.lines) + [EntryOf(now, r.logs[0])]
  {
    var r := Authenticate(request, config, verify, sign);
    logger.Emit(now, r.logs[0]);
    status, body := r.status, r.body;
  }

  // ---- properties relating several requests ----

  /** Every 401 has the same status and body, whatever caused it: a caller
      cannot tell an unknown username from a wrong password. */
  lemma RefusalsIndistinguishable(
    r1: Request, c1: Config, v1: Verifier, s1: Signer,
    r2: Request, c2: Config, v2: Verifier, s2: Signer)
    requires Authenticate(r1, c1, v1, s1).status == 401
    requires Authenticate(r2, c2, v2, s2).status == 401
    ensures Authenticate(r1, c1, v1, s1).body == Authenticate(r2, c2, v2, s2).body
    ensures Authenticate(r1, c1, v1, s1).logs[0].level == Authenticate(r2, c2, v2, s2).logs[0].level == Warn
  {
  }

  /** A 401 comes from exactly two causes, which only the log message tells apart. */
  lemma RefusalCauses(request: Request, config: Config, verify: Verifier, sign: Signer)
    requires Authenticate(request, config, verify, sign).status == 401
    ensures request.Json? && Validate(request.body).Success?
    ensures var creds := Validate(request.body).value;
      var found := FindUser(config.users, creds.username);
      var r := Authenticate(request, config, verify, sign);
      && (found.None? || verify(creds.password, found.value.password) == Returned(false))
      && (found.None? ==> r.logs[0].message == "Authentication failed - User not found")
      && (found.Some? ==> r.logs[0].message == "Authentication failed - Invalid password")
      && r.logs[0].metadata == Some(map["username" := JString(creds.username)])
  {
  }

  /** An unknown username is refused with 401 whatever the password; the
      verifier and signer are never consulted. */
  lemma UnknownUserRefused(
    username: string, password: string, config: Config,
    v1: Verifier, s1: Signer, v2: Verifier, s2: Signer)
    requires |username| >= 1 && |password| >= 1
    requires forall i | 0 <= i < |config.users| :: config.users[i].username != username
    ensures var request := Json(Object(Str(username), Str(password)));
      && Authenticate(request, config, v1, s1).status == 401
      && Authenticate(request, config, v1, s1) == Authenticate(request, config, v2, s2)
  {
  }

  /** A request that fails validation gets the same answer whatever the
      roster, verifier and signer: no lookup, verification or signing happens. */
  lemma RejectionConsultsNothing(
    body: Body, c1: Config, v1: Verifier, s1: Signer, c2: Config, v2: Verifier, s2: Signer)
    requires Validate(body).Failure?
    ensures Authenticate(Json(body), c1, v1, s1) == Authenticate(Json(body), c2, v2, s2)
    ensures Authenticate(Json(body), c1, v1, s1).status == 400
  {
  }

  /** Any fault gives the same 500 body, which carries no fault detail; the
      single error log carries the fault's message only. */
  lemma FaultCauses(request: Request, config: Config, verify: Verifier, sign: Signer)
    ensures var r := Authenticate(request, config, verify, sign);
      r.status == 500 <==>
        || request.Unreadable?
        || (&& request.Json? && Validate(request.body).Success?
            && var creds := Validate(request.body).value;
               && FindUser(config.users, creds.username).Some?
               && var user := FindUser(config.users, creds.username).value;
                  || verify(creds.password, user.password).Threw?
                  || (&& verify(creds.password, user.password) == Returned(true)
                      && sign(ClaimsFor(user), config.jwt.secret, OptionsFor(user)).Threw?))
    ensures var r := Authenticate(request, config, verify, sign);
      r.status == 500 ==>
        && r.body == ResponseBody(false, InternalServerError, None, None, None)
        && r.logs[0].message == "Authentication error"
        && r.logs[0].metadata.Some? && r.logs[0].metadata.value.Keys == {"error"}
  {
  }

  /** A fault thrown by the verifier, or by the signer after the password
      verified, is answered by the `catch` block with that fault: the error
      log carries the thrown value's message, or 'Unknown error'. */
  lemma ThrownFaultLogged(username: string, password: string, config: Config, verify: Verifier, sign: Signer, user: User, e: Thrown)
    requires username != "" && password != ""
    requires FindUser(config.users, username) == Some(user)
    requires || verify(password, user.password) == Threw(e)
             || (&& verify(password, user.password) == Returned(true)
                 && sign(ClaimsFor(user), config.jwt.secret, OptionsFor(user)) == Threw(e))
    ensures var r := Authenticate(Json(Object(Str(username), Str(password))), config, verify, sign);
      && r == Crash(e)
      && r.logs[0].metadata == Some(map["error" := JString(FaultMessage(e))])
  {
    assert Validate(Object(Str(username), Str(password))) == Success(Credentials(username, password));
  }

  /** A body that is not valid JSON is a fault of `c.req.json()` inside the
      `try`, so it is answered 500, not 400. */
  lemma UnreadableBodyIsInternalError(fault: Thrown, config: Config, verify: Verifier, sign: Signer)
    ensures var r := Authenticate(Unreadable(fault), config, verify, sign);
      && r == Crash(fault)
      && r.logs[0].metadata == Some(map["error" := JString(FaultMessage(fault))])
  {
  }

  /** The password enters the outcome only through its shape and what the
      verifier says about it: two requests that differ only in the password,
      when the verifier answers alike for both against every stored hash,
      get identical responses and identical log calls. So neither the
      response nor any log record can contain the password. */
  lemma PasswordNeverLeaks(username: Field, p1: Field, p2: Field, config: Config, verify: Verifier, sign: Signer)
    requires SameShape(p1, p2)
    requires ValidField(p1) ==>
      forall i | 0 <= i < |config.users| :: verify(p1.s, config.users[i].password) == verify(p2.s, config.users[i].password)
    ensures Authenticate(Json(Object(username, p1)), config, verify, sign)
         == Authenticate(Json(Object(username, p2)), config, verify, sign)
  {
    var b1, b2 := Object(username, p1), Object(username, p2);
    assert FieldIssues("password", p1, "Password is required") == FieldIssues("password", p2, "Password is required");
    if Validate(b1).Success? {
      var found := FindUser(config.users, Validate(b1).value.username);
      if found.Some? {
        var k :| 0 <= k < |config.users| && config.users[k] == found.value;
        assert verify(p1.s, found.value.password) == verify(p2.s, found.value.password);
      }
    }
  }

  /** Two password fields that zod treats alike: both absent, both the same
      non-string type, or both strings that are both empty or both not. */
  predicate SameShape(f1: Field, f2: Field)
  {
    match f1
    case Missing => f2.Missing?
    case NonString(t) => f2 == NonString(t)
    case Str(s) => f2.Str? && (|s| >= 1 <==> |f2.s| >= 1)
  }

  /** On success the signer gets the account's id and username as claims,
      with a 24-hour expiry, issuer 'k8snode-api' and the id as subject, and
      its token is returned unchanged next to the id and username. */
  lemma SuccessCarriesSignedIdentity(request: Request, config: Config, verify: Verifier, sign: Signer)
    requires Authenticate(request, config, verify, sign).status == 200
    ensures var creds := Validate(request.body).value;
      var user := FindUser(config.users, creds.username).value;
      var r := Authenticate(request, config, verify, sign);
      && user in config.users && user.username == creds.username
      && sign(Claims(user.id, user.username), config.jwt.secret,
              SignOptions("24h", "k8snode-api", user.id)) == Returned(r.body.token.value)
      && r.body.user == Some(UserView(user.id, user.username))
      && r.logs[0] == LogCall(Info, "Authentication successful",
           Some(map["username" := JString(creds.username), "userId" := JString(user.id)]))
  {
    var creds := Validate(request.body).value;
    var found := FindUser(config.users, creds.username);
    var k :| 0 <= k < |config.users| && config.users[k] == found.value && found.value.username == creds.username;
  }

  // ---- bcrypt, as the configuration and its tests rely on it ----

  /** The shape of a bcrypt hash: `$2a$10$` (or 2b, 2x, 2y) and 53 characters
      of bcrypt's base-64 alphabet. */
  predicate WellFormedHash(h: string)
  {
    && |h| == 60 && h[0] == '$' && h[1] == '2' && h[2] in "abxy" && h[3] == '$'
    && IsDigit(h[4]) && IsDigit(h[5]) && h[6] == '$'
    && forall i | 7 <= i < 60 :: h[i] == '.' || h[i] == '/' || IsDigit(h[i]) || 'a' <= h[i] <= 'z' || 'A' <= h[i] <= 'Z'
  }

  /** What the hash and compare functions are assumed to do: a plaintext
      matches its own hash, no other plaintext matches the hash of a roster
      password, and a string that is not a bcrypt hash matches nothing (and
      does not throw). The second clause is kept to the two roster passwords:
      bcrypt maps every plaintext to one of finitely many 60-character hashes
      (and reads at most 72 bytes of it), so it cannot be collision-free on
      all strings. */
  ghost predicate SoundHasher(hashSync: string -> string, verify: Verifier)
  {
    && (forall p :: verify(p, hashSync(p)) == Returned(true))
    && (forall p, q | (p == "admin123" || p == "user123") && p != q :: verify(q, hashSync(p)) == Returned(false))
    && (forall p, h | !WellFormedHash(h) :: verify(p, h) == Returned(false))
  }

  /** A hash with the fixed salt-and-digest character `c`. */
  function SampleDigest(c: char): (h: string)
    requires 'a' <= c <= 'z'
    ensures WellFormedHash(h)
  {
    "$2a$10$" + seq(53, _ => c)
  }

  /** A stand-in for `bcrypt.hashSync`: one hash per roster password and
      one shared hash for every other plaintext. */
  function SampleHash(p: string): string
  {
    if p == "admin123" then SampleDigest('a')
    else if p == "user123" then SampleDigest('b')
    else SampleDigest('c')
  }

  /** The compare that goes with `SampleHash`. */
  function SampleVerify(p: string, h: string): Attempt<bool>
  {
    Returned(SampleHash(p) == h)
  }

  /** The hypothesis can be met, so the lemmas that assume it are not vacuous. */
  lemma SoundHasherSatisfiable()
    ensures SoundHasher(SampleHash, (p, h) => SampleVerify(p, h))
  {
    var verify: Verifier := (p, h) => SampleVerify(p, h);
    assert SampleDigest('a')[7] == 'a' && SampleDigest('b')[7] == 'b' && SampleDigest('c')[7] == 'c';
    forall p, q | (p == "admin123" || p == "user123") && p != q
      ensures verify(q, SampleHash(p)) == Returned(false)
    {
      assert SampleHash(q) != SampleHash(p);
    }
    forall p, h | !WellFormedHash(h)
      ensures verify(p, h) == Returned(false)
    {
      assert WellFormedHash(SampleHash(p));
    }
  }

  /** A malformed hash string is a mismatch, not a fault. */
  lemma MalformedHashRejected(hashSync: string -> string, verify: Verifier)
    requires SoundHasher(hashSync, verify)
    ensures verify("password", "invalid-hash") == Returned(false)
  {
    assert !WellFormedHash("invalid-hash");
  }

  /** Looking up 'admin' in the roster finds the account with id '1';
      'nonexistent' finds nothing. */
  lemma RosterLookups(hashSync: string -> string)
    ensures FindUser(Roster(hashSync), "admin") == Some(User("1", "admin", hashSync("admin123")))
    ensures FindUser(Roster(hashSync), "nonexistent") == None
  {
    LookupUnique(Roster(hashSync), 0);
  }

  /** admin with admin123 signs in as id '1'. */
  lemma AdminSignsIn(env: Env, hashSync: string -> string, verify: Verifier, sign: Signer, token: string)
    requires SoundHasher(hashSync, verify)
    requires sign(Claims("1", "admin"), Load(env, hashSync).jwt.secret, SignOptions("24h", "k8snode-api", "1"))
      == Returned(token)
    ensures var r := Authenticate(Json(Object(Str("admin"), Str("admin123"))), Load(env, hashSync), verify, sign);
      && r.status == 200
      && r.body == ResponseBody(true, "Authentication successful", None, Some(token), Some(UserView("1", "admin")))
  {
    OwnPlaintextAccepted(hashSync, verify, "admin123");
    AdminAccepted(env, hashSync, verify, sign, token);
  }

  /** The same, for any compare that accepts admin123 against its own hash. */
  lemma AdminAccepted(env: Env, hashSync: string -> string, verify: Verifier, sign: Signer, token: string)
    requires verify("admin123", hashSync("admin123")) == Returned(true)
    requires sign(Claims("1", "admin"), Load(env, hashSync).jwt.secret, SignOptions("24h", "k8snode-api", "1"))
      == Returned(token)
    ensures var r := Authenticate(Json(Object(Str("admin"), Str("admin123"))), Load(env, hashSync), verify, sign);
      && r.status == 200
      && r.body == ResponseBody(true, "Authentication successful", None, Some(token), Some(UserView("1", "admin")))
  {
    AdminFound(env, hashSync);
    MatchSigned(Load(env, hashSync), verify, sign, "admin", "admin123", token);
  }

  lemma AdminFound(env: Env, hashSync: string -> string)
    ensures FindUser(Load(env, hashSync).users, "admin") == Some(User("1", "admin", hashSync("admin123")))
  {
    RosterLookups(hashSync);
  }

  /** A known user whose password verifies and whose token is signed gets 200
      with that token and the account's id and username. */
  lemma MatchSigned(config: Config, verify: Verifier, sign: Signer, username: string, password: string, token: string)
    requires username != "" && password != ""
    requires FindUser(config.users, username).Some?
    requires var user := FindUser(config.users, username).value;
      && verify(password, user.password) == Returned(true)
      && sign(Claims(user.id, user.username), config.jwt.secret, SignOptions("24h", "k8snode-api", user.id)) == Returned(token)
    ensures var r := Authenticate(Json(Object(Str(username), Str(password))), config, verify, sign);
      var user := FindUser(config.users, username).value;
      && r.status == 200
      && r.body == ResponseBody(true, "Authentication successful", None, Some(token), Some(UserView(user.id, user.username)))
  {
    assert Validate(Object(Str(username), Str(password))) == Success(Credentials(username, password));
  }

  /** admin with a wrong password gets 401 'Invalid credentials'. */
  lemma WrongPasswordRefused(env: Env, hashSync: string -> string, verify: Verifier, sign: Signer)
    requires SoundHasher(hashSync, verify)
    ensures var r := Authenticate(Json(Object(Str("admin"), Str("wrong"))), Load(env, hashSync), verify, sign);
      && r.status == 401
      && r.body == ResponseBody(false, "Invalid credentials", None, None, None)
      && r.logs[0].message == "Authentication failed - Invalid password"
  {
    var config := Load(env, hashSync);
    RosterLookups(hashSync);
    OtherPlaintextRejected(hashSync, verify, "admin123", "wrong");
    MismatchRefused(config, verify, sign, "admin", "wrong");
  }

  /** A known user whose password does not match is refused. */
  lemma MismatchRefused(config: Config, verify: Verifier, sign: Signer, username: string, password: string)
    requires username != "" && password != ""
    requires FindUser(config.users, username).Some?
    requires verify(password, FindUser(config.users, username).value.password) == Returned(false)
    ensures var r := Authenticate(Json(Object(Str(username), Str(password))), config, verify, sign);
      && r.status == 401
      && r.body == ResponseBody(false, "Invalid credentials", None, None, None)
      && r.logs[0].message == "Authentication failed - Invalid password"
  {
    assert Validate(Object(Str(username), Str(password))) == Success(Credentials(username, password));
  }

  /** A plaintext matches its own hash. */
  lemma OwnPlaintextAccepted(hashSync: string -> string, verify: Verifier, p: string)
    requires SoundHasher(hashSync, verify)
    ensures verify(p, hashSync(p)) == Returned(true)
  {
  }

  /** Another plaintext does not match the hash of a roster password. */
  lemma OtherPlaintextRejected(hashSync: string -> string, verify: Verifier, p: string, q: string)
    requires SoundHasher(hashSync, verify)
    requires p == "admin123" || p == "user123"
    requires p != q
    ensures verify(q, hashSync(p)) == Returned(false)
  {
  }

  /** An unknown user gets the same 401 as a wrong password, whatever the
      hasher does. */
  lemma UnknownUserScenario(env: Env, hashSync: string -> string, verify: Verifier, sign: Signer)
    ensures var r := Authenticate(Json(Object(Str("ghost"), Str("x"))), Load(env, hashSync), verify, sign);
      && r.status == 401
      && r.body == ResponseBody(false, "Invalid credentials", None, None, None)
      && r.logs[0].message == "Authentication failed - User not found"
  {
    var users := Roster(hashSync);
    RosterAccounts(hashSync);
    assert users[1..][1..] == [];
    assert FindUser(users[1..], "ghost") == None;
    assert FindUser(users, "ghost") == None;
    var config := Load(env, hashSync);
    AbsentRefused(config, verify, sign, "ghost", "x");
  }

  /** A username that no account has is refused, logged as user not found. */
  lemma AbsentRefused(config: Config, verify: Verifier, sign: Signer, username: string, password: string)
    requires username != "" && password != ""
    requires FindUser(config.users, username) == None
    ensures var r := Authenticate(Json(Object(Str(username), Str(password))), config, verify, sign);
      && r.status == 401
      && r.body == ResponseBody(false, "Invalid credentials", None, None, None)
      && r.logs[0].message == "Authentication failed - User not found"
  {
    assert Validate(Object(Str(username), Str(password))) == Success(Credentials(username, password));
  }

  /** An empty username is rejected with 400 and a username issue. */
  lemma EmptyUsernameRejected(config: Config, verify: Verifier, sign: Signer)
    ensures var r := Authenticate(Json(Object(Str(""), Str("x"))), config, verify, sign);
      && r.status == 400 && !r.body.success && r.body.message == "Invalid request format"
      && r.body.errors == Some([Issue(["username"], "too_small", "Username is required")])
  {
    assert FieldIssues("password", Str("x"), "Password is required") == [];
    assert FieldIssues("username", Str(""), "Username is required")
      == [Issue(["username"], "too_small", "Username is required")];
    assert [Issue(["username"], "too_small", "Username is required")] + []
      == [Issue(["username"], "too_small", "Username is required")];
    assert Validate(Object(Str(""), Str("x"))) == Failure([Issue(["username"], "too_small", "Username is required")]);
  }
}
