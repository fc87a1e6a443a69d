/** The `config` constant of src/config/index.ts.

    Every setting is `process.env.X || default`: the environment variable
    when it is set to a non-empty string, the default otherwise. The port goes
    through `parseInt(…, 10)`. The roster is a fixed two-account array whose
    password fields are bcrypt hashes computed at start-up; the hash function
    is a parameter (one draw of its random salts). */
module Configuration {

  /** `process.env`: the variables that are set. */
  type Env = map<string, string>

  /** A stored account. `password` holds the hash, never the plaintext. */
  datatype User = User(id: string, username: string, password: string)

  datatype JwtSettings = JwtSettings(secret: string, expiresIn: string)

  /** A JavaScript number as produced by `parseInt`: an integer or NaN. The
      integer is kept exact; a double equals it up to 2^53. */
  datatype Number = Int(value: int) | NaN

  datatype Config = Config(port: Number, environment: string, version: string, jwt: JwtSettings, users: seq<User>)

  const DefaultPort := "3000"
  const DefaultEnvironment := "development"
  const DefaultVersion := "1.0.0"
  const DefaultSecret := "your-super-secret-jwt-key-change-in-production"
  const DefaultExpiresIn := "24h"

  /** Number.MAX_SAFE_INTEGER: up to 2^53 every integer is exactly a double. */
  const MaxSafeInteger := 9007199254740991

  /** Whether `process.env[name]` is truthy: present and not the empty string. */
  predicate IsSet(env: Env, name: string)
  {
    name in env && env[name] != ""
  }

  /** `process.env[name] || default`. */
  function Or(env: Env, name: string, default: string): (r: string)
    ensures IsSet(env, name) ==> r == env[name]
    ensures !IsSet(env, name) ==> r == default
    ensures default != "" ==> r != ""
  {
    if IsSet(env, name) then env[name] else default
  }

  // ---- parseInt(s, 10) ----

  predicate IsDigit(c: char) { '0' <= c <= '9' }

  /** The white space `parseInt` skips, restricted to ASCII. */
  predicate IsSpace(c: char)
  {
    c == ' ' || c == '\t' || c == '\n' || c == '\r' || c == '\U{000B}' || c == '\U{000C}'
  }

  /** `s` without its leading white space. */
  function TrimStart(s: string): (r: string)
    ensures |r| <= |s| && r == s[|s| - |r|..]
    ensures forall i | 0 <= i < |s| - |r| :: IsSpace(s[i])
    ensures r == [] || !IsSpace(r[0])
  {
    if s != [] && IsSpace(s[0]) then TrimStart(s[1..]) else s
  }

  /** The length of the run of decimal digits that starts `s`. */
  function DigitRun(s: string): (k: nat)
    ensures k <= |s|
    ensures forall i | 0 <= i < k :: IsDigit(s[i])
    ensures k < |s| ==> !IsDigit(s[k])
  {
    if s != [] && IsDigit(s[0]) then 1 + DigitRun(s[1..]) else 0
  }

  /** The value of a string of decimal digits, most significant first. */
  function DigitsValue(d: string): nat
    requires forall i | 0 <= i < |d| :: IsDigit(d[i])
  {
    if d == [] then 0 else DigitsValue(d[..|d| - 1]) * 10 + DigitOf(d[|d| - 1])
  }

  function DigitOf(c: char): nat
    requires IsDigit(c)
  {
    c as int - '0' as int
  }

  /** `parseInt(s, 10)`: skip leading white space, read an optional sign,
      then the longest run of digits; no digit at all gives NaN. */
  function ParseInt(s: string): (r: Number)
    ensures r == NaN <==> var u := Unsigned(TrimStart(s)); u == [] || !IsDigit(u[0])
    ensures r.Int? && r.value < 0 ==> TrimStart(s) != [] && TrimStart(s)[0] == '-'
  {
    var t := TrimStart(s);
    if t != [] && t[0] == '-' then Negate(ParseDigits(Unsigned(t)))
    else ParseDigits(Unsigned(t))
  }

  /** `t` without its sign character, if it has one. */
  function Unsigned(t: string): string
  {
    if t != [] && (t[0] == '-' || t[0] == '+') then t[1..] else t
  }

  /** The value of the digit run that starts `s`; NaN when there is none. */
  function ParseDigits(s: string): Number
  {
    var k := DigitRun(s);
    if k == 0 then NaN else Int(DigitsValue(s[..k]))
  }

  function Negate(n: Number): Number
  {
    match n
    case Int(v) => Int(-v)
    case NaN => NaN
  }

  /** The decimal notation of a natural number, the inverse of `DigitsValue`. */
  function Decimal(n: nat): (s: string)
    ensures |s| >= 1
    ensures forall i | 0 <= i < |s| :: IsDigit(s[i])
  {
    if n < 10 then [('0' as int + n) as char]
    else Decimal(n / 10) + [('0' as int + n % 10) as char]
  }

  lemma {:induction false} DigitsValueDecimal(n: nat)
    ensures DigitsValue(Decimal(n)) == n
  {
    var s := Decimal(n);
    if n >= 10 {
      assert s[..|s| - 1] == Decimal(n / 10);
      DigitsValueDecimal(n / 10);
    } else {
      assert s[..|s| - 1] == [];
    }
  }

  /** `parseInt` reads back what `Decimal` writes, and stops at the first
      character that is not a digit (`parseInt('80abc', 10)` is 80). Above
      2^53 `parseInt` rounds to a double, so the bound is part of the claim. */
  lemma ParseIntDecimal(n: nat, suffix: string)
    requires n <= MaxSafeInteger + 1
    requires suffix == [] || !IsDigit(suffix[0])
    ensures ParseInt(Decimal(n) + suffix) == Int(n)
  {
    var d := Decimal(n);
    var s := d + suffix;
    assert s[0] == d[0];
    ParseIntUnsigned(s);
    assert DigitRun(s) == |d| by {
      DigitRunPrefix(d, suffix);
    }
    assert s[..|d|] == d;
    DigitsValueDecimal(n);
  }

  /** A string that starts with a digit is read as its digit run. */
  lemma ParseIntUnsigned(s: string)
    requires s != [] && IsDigit(s[0])
    ensures ParseInt(s) == ParseDigits(s)
  {
    assert TrimStart(s) == s && Unsigned(s) == s;
  }

  lemma {:induction false} DigitRunPrefix(d: string, suffix: string)
    requires forall i | 0 <= i < |d| :: IsDigit(d[i])
    requires suffix == [] || !IsDigit(suffix[0])
    ensures DigitRun(d + suffix) == |d|
  {
    if d != [] {
      assert (d + suffix)[1..] == d[1..] + suffix;
      DigitRunPrefix(d[1..], suffix);
    } else {
      assert d + suffix == suffix;
    }
  }

  /** Leading white space does not change what `parseInt` reads. */
  lemma ParseIntSkipsSpace(w: string, s: string)
    requires forall i | 0 <= i < |w| :: IsSpace(w[i])
    ensures ParseInt(w + s) == ParseInt(s)
  {
    TrimStartSpace(w, s);
  }

  lemma {:induction false} TrimStartSpace(w: string, s: string)
    requires forall i | 0 <= i < |w| :: IsSpace(w[i])
    ensures TrimStart(w + s) == TrimStart(s)
  {
    if w != [] {
      assert (w + s)[1..] == w[1..] + s;
      TrimStartSpace(w[1..], s);
    } else {
      assert w + s == s;
    }
  }

  /** A string with no digit after the white space and sign is NaN. */
  lemma ParseIntNoDigits(s: string)
    requires forall i | 0 <= i < |s| :: !IsDigit(s[i])
    ensures ParseInt(s) == NaN
  {
  }

  // ---- the roster ----

  /** `bcrypt.hashSync(plaintext, 10)` for the two accounts. */
  function Roster(hashSync: string -> string): (users: seq<User>)
    ensures UniqueUsernames(users) && UniqueIds(users)
  {
    [ User("1", "admin", hashSync("admin123")),
      User("2", "user", hashSync("user123")) ]
  }

  predicate UniqueUsernames(users: seq<User>)
  {
    forall i, j | 0 <= i < j < |users| :: users[i].username != users[j].username
  }

  predicate UniqueIds(users: seq<User>)
  {
    forall i, j | 0 <= i < j < |users| :: users[i].id != users[j].id
  }

  /** The `config` constant for a given environment. */
  function Load(env: Env, hashSync: string -> string): (c: Config)
    ensures c.environment == (if IsSet(env, "NODE_ENV") then env["NODE_ENV"] else DefaultEnvironment)
    ensures c.version == (if IsSet(env, "APP_VERSION") then env["APP_VERSION"] else DefaultVersion)
    ensures c.jwt.secret == (if IsSet(env, "JWT_SECRET") then env["JWT_SECRET"] else DefaultSecret)
    ensures c.jwt.expiresIn == (if IsSet(env, "JWT_EXPIRES_IN") then env["JWT_EXPIRES_IN"] else DefaultExpiresIn)
    ensures IsSet(env, "PORT") ==> c.port == ParseInt(env["PORT"])
    ensures !IsSet(env, "PORT") ==> c.port == Int(3000)
    ensures c.environment != "" && c.version != "" && c.jwt.secret != "" && c.jwt.expiresIn != ""
    ensures c.users == Roster(hashSync)
    ensures UniqueUsernames(c.users) && UniqueIds(c.users)
  {
    DefaultPortParses();
    Config(
      ParseInt(Or(env, "PORT", DefaultPort)),
      Or(env, "NODE_ENV", DefaultEnvironment),
      Or(env, "APP_VERSION", DefaultVersion),
      JwtSettings(Or(env, "JWT_SECRET", DefaultSecret), Or(env, "JWT_EXPIRES_IN", DefaultExpiresIn)),
      Roster(hashSync))
  }

  /** With PORT unset the port is 3000. */
  lemma DefaultPortParses()
    ensures ParseInt(DefaultPort) == Int(3000)
  {
    assert Decimal(3000) == DefaultPort;
    ParseIntDecimal(3000, []);
    assert DefaultPort + [] == DefaultPort;
  }

  /** The roster is the two accounts admin (id '1') and user (id '2'), in that order. */
  lemma RosterAccounts(hashSync: string -> string)
    ensures |Roster(hashSync)| == 2
    ensures Roster(hashSync)[0].id == "1" && Roster(hashSync)[0].username == "admin"
    ensures Roster(hashSync)[1].id == "2" && Roster(hashSync)[1].username == "user"
    ensures Roster(hashSync)[0].password == hashSync("admin123")
    ensures Roster(hashSync)[1].password == hashSync("user123")
  {
  }
}
