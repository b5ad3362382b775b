/**
 * The request logic of backend/api.js: the `limit` and `period` query
 * defaults, the bearer-token gate, the login and create-user decision
 * ladders, the dashboard routes and the CSV export dispatch. The JWT,
 * bcrypt and Joi libraries are parameters: `verify` maps a token to the
 * user id it carries (None when verification throws), `compare` checks a
 * password against a hash, `hash` hashes one, `sign` issues a token, and
 * `isEmail` is Joi's email rule.
 */
module Api {
  import opened Optional
  import opened Text
  import opened Seqs
  import opened Store
  import opened Metrics
  import opened Rankings
  import opened Series
  import opened Export

  // ------------------------------------------------------------ parseInt

  /** The white space `parseInt` skips before the number. */
  predicate IsSpace(c: char)
  {
    var n := c as int;
    n == 9 || n == 10 || n == 11 || n == 12 || n == 13 || n == 32 || n == 0xA0 || n == 0x1680
    || (0x2000 <= n <= 0x200A) || n == 0x2028 || n == 0x2029 || n == 0x202F || n == 0x205F
    || n == 0x3000 || n == 0xFEFF
  }

  function TrimStart(s: string): (r: string)
    ensures |r| <= |s| && r == s[|s| - |r|..]
    ensures r == [] || !IsSpace(r[0])
  {
    if s != [] && IsSpace(s[0]) then TrimStart(s[1..]) else s
  }

  /** The value of a digit in base 10 or 16, if the character is one. */
  function DigitIn(c: char, radix: nat): Option<nat>
  {
    if '0' <= c <= '9' then Some((c as int) - ('0' as int))
    else if radix == 16 && 'a' <= c <= 'f' then Some((c as int) - ('a' as int) + 10)
    else if radix == 16 && 'A' <= c <= 'F' then Some((c as int) - ('A' as int) + 10)
    else None
  }

  /** The length of the longest run of digits at the front of `s`. */
  function DigitRun(s: string, radix: nat): (n: nat)
    ensures n <= |s|
    ensures forall i :: 0 <= i < n ==> DigitIn(s[i], radix).Some?
    ensures n < |s| ==> DigitIn(s[n], radix).None?
  {
    if s == [] || DigitIn(s[0], radix).None? then 0 else 1 + DigitRun(s[1..], radix)
  }

  /** The value of a run of digits, most significant first. */
  function RunValue(s: string, radix: nat): nat
    requires forall i :: 0 <= i < |s| ==> DigitIn(s[i], radix).Some?
  {
    if s == [] then 0 else RunValue(s[..|s| - 1], radix) * radix + DigitIn(s[|s| - 1], radix).value
  }

  /**
   * `parseInt(q)` with no radix: skip white space, take one sign, read a
   * hexadecimal number after `0x` or `0X` and a decimal one otherwise, as
   * far as the digits go. None is NaN, which is also what an absent
   * parameter (`parseInt(undefined)`) gives.
   */
  function ParseInt(q: Option<string>): (r: Option<int>)
  {
    if q.None? then None else ParseSigned(TrimStart(q.value))
  }

  /** One optional sign, then the number. */
  function ParseSigned(s: string): Option<int>
  {
    if s != [] && s[0] == '-' then Negate(ParseUnsigned(s[1..]))
    else if s != [] && s[0] == '+' then ParseUnsigned(s[1..])
    else ParseUnsigned(s)
  }

  function Negate(n: Option<nat>): Option<int>
  {
    if n.None? then None else Some(0 - n.value as int)
  }

  /** A hexadecimal number after `0x` or `0X`, a decimal one otherwise. */
  function ParseUnsigned(s: string): Option<nat>
  {
    if |s| >= 2 && s[0] == '0' && (s[1] == 'x' || s[1] == 'X') then ParseRun(s[2..], 16)
    else ParseRun(s, 10)
  }

  /** The value of the digits at the front of `s`; none at all is NaN. */
  function ParseRun(s: string, radix: nat): (r: Option<nat>)
    ensures r.None? <==> DigitRun(s, radix) == 0
  {
    var n := DigitRun(s, radix);
    if n == 0 then None else Some(RunValue(s[..n], radix))
  }

  /** `parseInt(req.query.limit) || 10`: NaN and zero fall back to ten. */
  function LimitParam(q: Option<string>): (limit: int)
    ensures limit != 0
    ensures ParseInt(q).None? || ParseInt(q) == Some(0) ==> limit == 10
    ensures ParseInt(q).Some? && ParseInt(q) != Some(0) ==> limit == ParseInt(q).value
  {
    var n := ParseInt(q);
    if n.None? || n.value == 0 then 10 else n.value
  }

  /** Without a `limit` parameter a ranking has at most ten rows. */
  lemma DefaultLimit()
    ensures LimitParam(None) == 10
  {
  }

  lemma {:induction false} RunValueDecimal(s: string)
    requires AllDigits(s)
    ensures forall i :: 0 <= i < |s| ==> DigitIn(s[i], 10).Some?
    ensures RunValue(s, 10) == DigitsValue(s)
  {
    if s != [] {
      RunValueDecimal(s[..|s| - 1]);
    }
  }

  /** A decimal number with no sign, prefix or trailing text reads back as itself. */
  lemma DecimalLimit(n: nat)
    requires n > 0
    ensures LimitParam(Some(NatToString(n))) == n
  {
    var s := NatToString(n);
    assert IsDigit(s[0]);
    StartsWithDigit(s);
    if |s| >= 2 {
      assert IsDigit(s[1]);
    }
    DecimalBody(s);
    DecimalDigits(s);
  }

  /** Text that starts with a digit has no white space or sign to skip. */
  lemma StartsWithDigit(s: string)
    requires s != [] && IsDigit(s[0])
    ensures ParseInt(Some(s)) == ParseUnsigned(s)
  {
    assert TrimStart(s) == s;
  }

  /** Without an `x` after a leading character the number is decimal. */
  lemma DecimalBody(s: string)
    requires s != [] && (|s| >= 2 && s[0] == '0' ==> s[1] != 'x' && s[1] != 'X')
    ensures ParseUnsigned(s) == ParseRun(s, 10)
  {
  }

  /** A run of decimal digits is read whole, to its decimal value. */
  lemma DecimalDigits(s: string)
    requires s != [] && AllDigits(s)
    ensures ParseRun(s, 10) == Some(DigitsValue(s))
  {
    RunValueDecimal(s);
    assert DigitRun(s, 10) == |s|;
    assert s[..|s|] == s;
  }

  /** A negative limit reaches SQLite, where it means no limit at all. */
  lemma NegativeLimit()
    ensures LimitParam(Some("-5")) == -5
  {
    MinusDigits("-5", "5");
  }

  /** A minus sign before a decimal number with no leading `0x` negates the number. */
  lemma MinusDigits(s: string, digits: string)
    requires s == ['-'] + digits && digits == "5"
    ensures ParseSigned(TrimStart(s)) == Some(-5)
  {
    assert TrimStart(s) == s;
    assert s[1..] == digits;
    DecimalBody(digits);
    DecimalDigits(digits);
    assert digits[..0] == [];
  }

  /** Trailing text is ignored: `12abc` is read as 12. */
  lemma TrailingTextLimit()
    ensures LimitParam(Some("12abc")) == 12
  {
    Twelve("12");
    assert "12abc" == "12" + "abc";
    DigitsThenTextLimit("12", "abc");
  }

  lemma Twelve(s: string)
    requires s == "12"
    ensures AllDigits(s) && DigitsValue(s) == 12
  {
    assert s[..1] == "1" && "1"[..0] == [];
    assert DigitsValue("1") == 1;
  }

  /** A positive decimal number followed by other text is read as the number. */
  lemma DigitsThenTextLimit(digits: string, rest: string)
    requires digits != [] && AllDigits(digits) && digits[0] != '0' && DigitsValue(digits) != 0
    requires rest != [] && !IsDigit(rest[0])
    ensures LimitParam(Some(digits + rest)) == DigitsValue(digits)
  {
    var s := digits + rest;
    assert s[0] == digits[0] && IsDigit(s[0]);
    StartsWithDigit(s);
    DecimalBody(s);
    DigitsThenText(digits, rest);
  }

  /** The digits read stop at the first character that is not one. */
  lemma DigitsThenText(digits: string, rest: string)
    requires digits != [] && AllDigits(digits) && rest != [] && !IsDigit(rest[0])
    ensures ParseRun(digits + rest, 10) == Some(DigitsValue(digits))
  {
    RunValueDecimal(digits);
    RunStops(digits, rest, 10);
    assert (digits + rest)[..|digits|] == digits;
  }

  lemma {:induction false} RunStops(digits: string, rest: string, radix: nat)
    requires forall i :: 0 <= i < |digits| ==> DigitIn(digits[i], radix).Some?
    requires rest != [] && DigitIn(rest[0], radix).None?
    ensures DigitRun(digits + rest, radix) == |digits|
  {
    if digits != [] {
      assert (digits + rest)[1..] == digits[1..] + rest;
      RunStops(digits[1..], rest, radix);
    } else {
      assert digits + rest == rest;
    }
  }

  /** `0x` switches to base 16: `0x10` is sixteen. */
  lemma HexadecimalLimit()
    ensures LimitParam(Some("0x10")) == 16
  {
    var s := "0x10";
    StartsWithDigit(s);
    assert ParseUnsigned(s) == ParseRun(s[2..], 16);
    assert s[2..] == "10";
    HexTen("10");
  }

  lemma HexTen(s: string)
    requires s == "10"
    ensures ParseRun(s, 16) == Some(16)
  {
    assert DigitRun(s, 16) == 2;
    assert s[..2] == s && s[..1] == "1" && "1"[..0] == [];
    assert RunValue("1", 16) == 1;
    assert RunValue(s, 16) == RunValue("1", 16) * 16 + 0;
  }

  // --------------------------------------------------------------- period

  /** `req.query.period || '30 days'`. */
  function PeriodParam(q: Option<string>): (p: string)
    ensures q.None? || q == Some("") ==> p == "30 days"
    ensures q.Some? && q != Some("") ==> p == q.value
  {
    if q.None? || q.value == "" then "30 days" else q.value
  }

  /**
   * The number of days of a period text `N days` or `N day`, the forms
   * SQLite reads as `-N days` once the query prefixes the minus sign.
   */
  function PeriodDays(p: string): Option<nat>
  {
    var parts := Split(p, ' ');
    if |parts| == 2 && parts[0] != "" && AllDigits(parts[0]) && (parts[1] == "days" || parts[1] == "day")
    then Some(DigitsValue(parts[0]))
    else None
  }

  /** A whole number of days written out reads back as that number. */
  lemma PeriodRoundTrip(n: nat)
    ensures PeriodDays(NatToString(n) + " days") == Some(n)
  {
    var s := NatToString(n);
    assert ' ' !in s by {
      forall i | 0 <= i < |s| ensures s[i] != ' ' {
        assert IsDigit(s[i]);
      }
    }
    SplitAfterPiece(s, "days", ' ');
    SplitNoSeparator("days", ' ');
    assert s + " days" == s + [' '] + "days";
  }

  /** Without a `period` parameter the series cover thirty days. */
  lemma DefaultPeriod()
    ensures PeriodDays(PeriodParam(None)) == Some(30)
  {
    ThirtyDays(PeriodParam(None));
  }

  lemma ThirtyDays(p: string)
    requires p == "30 days"
    ensures PeriodDays(p) == Some(30)
  {
    PeriodRoundTrip(30);
    ThirtyText();
  }

  lemma ThirtyText()
    ensures NatToString(30) + " days" == "30 days"
  {
    assert NatToString(3) == "3";
    assert NatToString(30) == "30";
  }

  // ------------------------------------------------------------ the token

  /**
   * `authHeader && authHeader.split(' ')[1]`: the second space-separated
   * piece of the header. An absent or empty header, a header with no space
   * and an empty second piece all give no token. The first piece, the
   * scheme, is not checked.
   */
  function BearerToken(header: Option<string>): (token: Option<string>)
    ensures token.Some? ==> token.value != "" && ' ' !in token.value
    ensures header.None? || header == Some("") ==> token.None?
  {
    if header.None? || header.value == "" then None
    else
      var parts := Split(header.value, ' ');
      if |parts| < 2 || parts[1] == "" then None else Some(parts[1])
  }

  /** `Bearer <token>`, or any other one-word scheme before the token, yields the token. */
  lemma BearerRoundTrip(scheme: string, token: string)
    requires ' ' !in scheme && ' ' !in token && token != ""
    ensures BearerToken(Some(scheme + " " + token)) == Some(token)
  {
    SplitAfterPiece(scheme, token, ' ');
    SplitNoSeparator(token, ' ');
    assert scheme + " " + token == scheme + [' '] + token;
  }

  /** The result of the gate: a rejection with its status and message, or the user put on the request. */
  datatype AuthResult = Rejected(status: int, error: string) | Accepted(user: User)

  /**
   * `authenticateToken`: no token is 401; a token `verify` rejects is 403;
   * a verified token whose user id has no active user row is 401; only
   * otherwise is the request let through, carrying that user.
   */
  function AuthDecision(header: Option<string>, verify: string -> Option<UserId>, users: seq<User>): (r: AuthResult)
    ensures BearerToken(header).None? ==> r == Rejected(401, "Token de acesso requerido")
    ensures BearerToken(header).Some? && verify(BearerToken(header).value).None? ==> r == Rejected(403, "Token inválido")
    ensures (BearerToken(header).Some? && verify(BearerToken(header).value).Some?
             && UserById(users, verify(BearerToken(header).value).value).None?) ==> r == Rejected(401, "Usuário não encontrado")
    ensures r.Accepted? <==> (BearerToken(header).Some? && verify(BearerToken(header).value).Some?
                              && exists u :: u in users && u.id == verify(BearerToken(header).value).value && u.isActive)
    ensures r.Accepted? ==> r.user in users && r.user.isActive && r.user.id == verify(BearerToken(header).value).value
  {
    var token := BearerToken(header);
    if token.None? then Rejected(401, "Token de acesso requerido")
    else
      var id := verify(token.value);
      if id.None? then Rejected(403, "Token inválido")
      else
        var user := UserById(users, id.value);
        if user.None? then Rejected(401, "Usuário não encontrado") else Accepted(user.value)
  }

  /** A deactivated account is turned away even with a valid token. */
  lemma InactiveUserRejected(header: Option<string>, verify: string -> Option<UserId>, users: seq<User>)
    requires BearerToken(header).Some? && verify(BearerToken(header).value).Some?
    requires forall u :: u in users && u.id == verify(BearerToken(header).value).value ==> !u.isActive
    ensures AuthDecision(header, verify, users) == Rejected(401, "Usuário não encontrado")
  {
  }

  /** An incoming request: its Authorization header and, once authenticated, its user. */
  class Request {
    const authorization: Option<string>
    var user: Option<User>

    constructor (authorization: Option<string>)
      ensures this.authorization == authorization && user.None?
    {
      this.authorization := authorization;
      user := None;
    }

    /**
     * Run the gate: on success set `req.user` and continue (`proceed`);
     * otherwise answer with the rejection and leave the request as it was.
     */
    method AuthenticateToken(verify: string -> Option<UserId>, db: Database) returns (proceed: bool, status: int, error: string)
      modifies this`user
      ensures var r := AuthDecision(authorization, verify, db.users);
        && (proceed <==> r.Accepted?)
        && (proceed ==> user == Some(r.user))
        && (!proceed ==> user == old(user) && status == r.status && error == r.error)
    {
      var r := AuthDecision(authorization, verify, db.users);
      if r.Rejected? {
        return false, r.status, r.error;
      }
      user := Some(r.user);
      proceed, status, error := true, 200, "";
    }
  }

  // ---------------------------------------------------------------- login

  /** A login body: the fields present, and whether it has any field the schema does not know. */
  datatype LoginBody = LoginBody(email: Option<string>, password: Option<string>, unknownKeys: bool)

  /** `loginSchema`: a valid email and a password of at least six characters, nothing else. */
  predicate LoginValid(body: LoginBody, isEmail: string -> bool)
  {
    && body.email.Some? && isEmail(body.email.value)
    && body.password.Some? && |body.password.value| >= 6
    && !body.unknownKeys
  }

  /** What the login route sends back; the schema's own message for a 400 is not modelled. */
  datatype LoginReply = LoginInvalid | LoginRefused(error: string) | LoggedIn(token: string, user: User)

  const InvalidCredentials := "Credenciais inválidas"

  /**
   * The login ladder: 400 for a body the schema rejects; 401 with the same
   * message for an email with no active user and for a wrong password; a
   * token signed over the user's id and email otherwise.
   */
  function LoginDecision(users: seq<User>, body: LoginBody, isEmail: string -> bool,
                         compare: (string, string) -> bool, sign: (UserId, string) -> string): (r: LoginReply)
    ensures !LoginValid(body, isEmail) ==> r == LoginInvalid
    ensures LoginValid(body, isEmail) && UserByEmail(users, body.email.value).None? ==> r == LoginRefused(InvalidCredentials)
    ensures r.LoggedIn? <==> (LoginValid(body, isEmail) && UserByEmail(users, body.email.value).Some?
                              && compare(body.password.value, UserByEmail(users, body.email.value).value.passwordHash))
    ensures r.LoggedIn? ==> (r.user in users && r.user.isActive && r.user.email == body.email.value
                             && r.token == sign(r.user.id, r.user.email))
    ensures r.LoginRefused? ==> r.error == InvalidCredentials
  {
    if !LoginValid(body, isEmail) then LoginInvalid
    else
      var user := UserByEmail(users, body.email.value);
      if user.None? then LoginRefused(InvalidCredentials)
      else if !compare(body.password.value, user.value.passwordHash) then LoginRefused(InvalidCredentials)
      else LoggedIn(sign(user.value.id, user.value.email), user.value)
  }

  /**
   * An unknown email and a wrong password for a known one get the very
   * same answer, so the reply does not tell which accounts exist.
   */
  lemma NoAccountOracle(users: seq<User>, unknown: LoginBody, wrong: LoginBody, isEmail: string -> bool,
                        compare: (string, string) -> bool, sign: (UserId, string) -> string)
    requires LoginValid(unknown, isEmail) && UserByEmail(users, unknown.email.value).None?
    requires LoginValid(wrong, isEmail) && UserByEmail(users, wrong.email.value).Some?
    requires !compare(wrong.password.value, UserByEmail(users, wrong.email.value).value.passwordHash)
    ensures LoginDecision(users, unknown, isEmail, compare, sign) == LoginDecision(users, wrong, isEmail, compare, sign)
  {
  }

  /**
   * The login route: decide, and only on success stamp the user's last
   * login before answering with the token; a refused login changes nothing.
   */
  method Login(db: Database, body: LoginBody, isEmail: string -> bool, compare: (string, string) -> bool,
               sign: (UserId, string) -> string, now: Timestamp) returns (reply: LoginReply)
    requires db.Valid()
    modifies db`users
    ensures db.Valid()
    ensures reply == LoginDecision(old(db.users), body, isEmail, compare, sign)
    ensures reply.LoggedIn? ==> db.users == StampLogin(old(db.users), reply.user.id, now)
    ensures !reply.LoggedIn? ==> db.users == old(db.users)
  {
    reply := LoginDecision(db.users, body, isEmail, compare, sign);
    if reply.LoggedIn? {
      db.UpdateUserLastLogin(reply.user.id, now);
    }
  }

  // ---------------------------------------------------------- create user

  /** A create-user body: the fields present, and whether it has any field the schema does not know. */
  datatype NewUserBody = NewUserBody(
    email: Option<string>,
    password: Option<string>,
    name: Option<string>,
    companyName: Option<string>,
    agentId: Option<string>,
    unknownKeys: bool)

  /**
   * `userSchema`: valid email, password of at least six characters,
   * non-empty name and agent id, and a company name that, when present, is
   * non-empty (a Joi string rejects the empty string).
   */
  predicate NewUserValid(body: NewUserBody, isEmail: string -> bool)
  {
    && body.email.Some? && isEmail(body.email.value)
    && body.password.Some? && |body.password.value| >= 6
    && body.name.Some? && body.name.value != ""
    && (body.companyName.None? || body.companyName.value != "")
    && body.agentId.Some? && body.agentId.value != ""
    && !body.unknownKeys
  }

  /** `JSON.stringify({ theme: 'light', notifications: true })`, the settings of a new user. */
  const DefaultSettings := "{\"theme\":\"light\",\"notifications\":true}"

  datatype CreateReply = CreateInvalid | EmailInUse | Created(userId: UserId) | CreateFailed

  /**
   * `/api/admin/create-user`: 400 for a body the schema rejects, 400 for an
   * email an active user has, both before anything is written; otherwise
   * insert the user with the hashed password and answer 201 with its id.
   * An inactive user holding the email makes the insert fail on the unique
   * email, which ends in a 500.
   */
  method CreateUserRoute(db: Database, body: NewUserBody, isEmail: string -> bool, hash: string -> string)
    returns (reply: CreateReply)
    requires db.Valid()
    modifies db
    ensures db.Valid()
    ensures !NewUserValid(body, isEmail) ==> reply == CreateInvalid
    ensures NewUserValid(body, isEmail) && UserByEmail(old(db.users), body.email.value).Some? ==> reply == EmailInUse
    ensures reply.CreateFailed? <==> (NewUserValid(body, isEmail) && UserByEmail(old(db.users), body.email.value).None?
                                      && exists u :: u in old(db.users) && u.email == body.email.value)
    ensures reply.Created? <==> NewUserValid(body, isEmail) && !(exists u :: u in old(db.users) && u.email == body.email.value)
    ensures !reply.Created? ==> db.users == old(db.users) && db.nextUserId == old(db.nextUserId)
    ensures reply.Created? ==> reply.userId == old(db.nextUserId) && db.nextUserId == old(db.nextUserId) + 1
    ensures reply.Created? ==> db.users == old(db.users) + [User(
      reply.userId, body.email.value, hash(body.password.value), body.name.value, body.companyName,
      body.agentId.value, DefaultSettings, true, None)]
    ensures db.products == old(db.products) && db.conversations == old(db.conversations) && db.sales == old(db.sales)
    ensures db.objections == old(db.objections) && db.contactReasons == old(db.contactReasons) && db.sessions == old(db.sessions)
  {
    if !NewUserValid(body, isEmail) {
      return CreateInvalid;
    }
    var existing := UserByEmail(db.users, body.email.value);
    if existing.Some? {
      return EmailInUse;
    }
    var id := db.CreateUser(body.email.value, hash(body.password.value), body.name.value, body.companyName,
      body.agentId.value, DefaultSettings);
    if id.None? {
      return CreateFailed;
    }
    reply := Created(id.value);
  }

  // ------------------------------------------------------ dashboard routes

  /**
   * `/api/dashboard/metrics` for the authenticated user: `getDashboardMetrics`
   * as its parameters are bound. A windowed request reports all zeros; an
   * unwindowed one reports the joined query over the user's own rows, whose
   * counts are the per-table counts.
   */
  function MetricsRoute(t: Tables, user: User, startDate: Option<int>, endDate: Option<int>): (m: Metrics)
    ensures m.completedConversations <= m.totalConversations
    ensures m.handledObjections <= m.totalObjections
    ensures startDate.Some? && endDate.Some? ==> m == NoMetrics
    ensures startDate.None? || endDate.None? ==>
      && m == DashboardMetrics(t, user.id, startDate, endDate)
      && m == DashboardMetrics(OwnedBy(t, user.id), user.id, startDate, endDate)
      && m.(totalRevenue := 0) == IndependentMetrics(t, user.id, startDate, endDate).(totalRevenue := 0)
  {
    if startDate.Some? && endDate.Some? then
      WindowedAsWrittenIsZero(t, user.id, startDate, endDate);
      DashboardMetricsAsWritten(t, user.id, startDate, endDate)
    else
      UnwindowedAsWrittenAgrees(t, user.id, startDate, endDate);
      MetricsBounds(t, Some(user.id), Uniform(WindowFilter(startDate, endDate)));
      MetricsIsolation(t, user.id, Uniform(WindowFilter(startDate, endDate)));
      IndependentAgreesOnCounts(t, user.id, startDate, endDate);
      DashboardMetricsAsWritten(t, user.id, startDate, endDate)
  }

  /** `/api/dashboard/top-products`: at most ten rows unless `limit` says otherwise. */
  function TopProductsRoute(t: Tables, user: User, limit: Option<string>): (r: seq<ProductRow>)
    ensures limit.None? ==> |r| <= 10
    ensures Descending(r, ProductRank)
  {
    TopProducts(t, user.id, LimitParam(limit))
  }

  function TopObjectionsRoute(t: Tables, user: User, limit: Option<string>): (r: seq<ObjectionRow>)
    ensures limit.None? ==> |r| <= 10
    ensures Descending(r, ObjectionRank)
  {
    TopObjections(t, user.id, LimitParam(limit))
  }

  function ContactReasonsRoute(t: Tables, user: User, limit: Option<string>): (r: seq<ContactRow>)
    ensures limit.None? ==> |r| <= 10
    ensures Descending(r, ContactRank)
  {
    TopContactReasons(t, user.id, LimitParam(limit))
  }

  /** A series, or a period text that is not a whole number of days. */
  datatype SeriesReply<P> = Points(points: seq<P>) | UnreadPeriod(period: string)

  /** `/api/dashboard/sales-over-time`. */
  function SalesRoute(t: Tables, user: User, period: Option<string>, now: Timestamp): (r: SeriesReply<SalesPoint>)
    ensures period.None? ==> r.Points? && forall i :: 0 <= i < |r.points| ==> r.points[i].date >= Day(now) - 30
  {
    DefaultPeriod();
    var days := PeriodDays(PeriodParam(period));
    if days.None? then UnreadPeriod(PeriodParam(period)) else Points(SalesOverTime(t, user.id, days.value, now))
  }

  /** `/api/dashboard/conversations-over-time`. */
  function ConversationsRoute(t: Tables, user: User, period: Option<string>, now: Timestamp): (r: SeriesReply<ConversationPoint>)
    ensures period.None? ==> r.Points? && forall i :: 0 <= i < |r.points| ==> r.points[i].date >= Day(now) - 30
  {
    DefaultPeriod();
    var days := PeriodDays(PeriodParam(period));
    if days.None? then UnreadPeriod(PeriodParam(period)) else Points(ConversationsOverTime(t, user.id, days.value, now))
  }

  // ---------------------------------------------------------------- export

  datatype ExportReply = UnknownType | NothingToExport | CsvFile(filename: string, content: string)

  predicate ExportType(kind: string)
  {
    kind == "sales" || kind == "conversations" || kind == "products" || kind == "objections"
  }

  /** The name the downloaded file gets for each export type. */
  function ExportFilename(kind: string): (name: string)
    requires ExportType(kind)
    ensures |name| > 4 && name[|name| - 4..] == ".csv"
  {
    if kind == "sales" then "vendas.csv" else if kind == "conversations" then "conversas.csv"
    else if kind == "products" then "produtos.csv" else "objecoes.csv"
  }

  /** The rows each export type fetches: a year of series points, or the first hundred ranking rows. */
  function ExportRecords(t: Tables, userId: UserId, kind: string, now: Timestamp): seq<Record>
    requires ExportType(kind)
  {
    if kind == "sales" then SalesRecords(SalesOverTime(t, userId, 365, now))
    else if kind == "conversations" then ConversationRecords(ConversationsOverTime(t, userId, 365, now))
    else if kind == "products" then ProductRecords(TopProducts(t, userId, 100))
    else ObjectionRecords(TopObjections(t, userId, 100))
  }

  /**
   * `/api/export/:type`: an unknown type is 400 before anything is
   * fetched; an empty result is 404; otherwise the CSV text of the rows,
   * under the file name of the type.
   */
  method ExportData(t: Tables, user: User, kind: string, now: Timestamp) returns (reply: ExportReply)
    ensures !ExportType(kind) <==> reply == UnknownType
    ensures ExportType(kind) ==> (reply == NothingToExport <==> ExportRecords(t, user.id, kind, now) == [])
    ensures reply.CsvFile? ==> (ExportType(kind) && ExportRecords(t, user.id, kind, now) != []
                                && reply.content == Csv(ExportRecords(t, user.id, kind, now)))
    ensures reply.CsvFile? ==> reply.filename == ExportFilename(kind)
  {
    var data: seq<Record> := [];
    var filename := "";
    if kind == "sales" {
      data := SalesRecords(SalesOverTime(t, user.id, 365, now));
      filename := "vendas.csv";
    } else if kind == "conversations" {
      data := ConversationRecords(ConversationsOverTime(t, user.id, 365, now));
      filename := "conversas.csv";
    } else if kind == "products" {
      data := ProductRecords(TopProducts(t, user.id, 100));
      filename := "produtos.csv";
    } else if kind == "objections" {
      data := ObjectionRecords(TopObjections(t, user.id, 100));
      filename := "objecoes.csv";
    } else {
      return UnknownType;
    }
    if |data| == 0 {
      return NothingToExport;
    }
    reply := CsvFile(filename, Csv(data));
  }

  /** The products and objections exports hold at most a hundred rows. */
  lemma ExportRankingsBounded(t: Tables, userId: UserId, now: Timestamp)
    ensures |ExportRecords(t, userId, "products", now)| <= 100
    ensures |ExportRecords(t, userId, "objections", now)| <= 100
  {
  }

  /** The sales export has a header line and one line per day with a confirmed sale in the last 365 days. */
  lemma SalesExportLines(t: Tables, userId: UserId, now: Timestamp)
    requires ExportRecords(t, userId, "sales", now) != []
    ensures |Split(Csv(ExportRecords(t, userId, "sales", now)), '\n')| == |SalesOverTime(t, userId, 365, now)| + 1
  {
    SalesCsvShape(SalesOverTime(t, userId, 365, now));
  }
}
