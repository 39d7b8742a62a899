/**
 * Authentication and authorization: issuing a bearer token with its expiry,
 * turning a presented token into a principal (in the order the claims are
 * checked), and the role gate placed in front of endpoints.
 *
 * Signing and verification are symbolic: a token records the claims, the key
 * and the algorithm it was signed with, and verification compares them.
 * Times are whole seconds since the epoch.
 */
module Security {
  import opened Wrappers
  import opened Models

  /** The default lifetime of a token, in minutes (`ACCESS_TOKEN_EXPIRE_MINUTES`). */
  const AccessTokenExpireMinutes: int := 30

  /** A JSON claim value, as far as the checks below tell values apart. */
  datatype Claim =
    | JStr(s: string)
    | JInt(n: int)
    | JFloat(whole: int)   // a number with a fraction or exponent, known by its integer part (truncated toward zero)
    | JBool(b: bool)
    | JNull
    | JOther               // arrays and objects

  type Claims = map<string, Claim>

  /** A compact JWS: either one that parses into signed claims, or garbage. */
  datatype Token =
    | Signed(claims: Claims, key: string, alg: string)
    | Unparseable

  /** Why a request is turned away before its handler runs. */
  datatype AuthError =
    | CredentialsRejected                                   // "Could not validate credentials"
    | InvalidUserType(claim: Claim)                         // "Invalid user type: ..."
    | RoleNotAllowed(role: UserType, allowed: seq<UserType>) // "User type ... not authorized ..."
    | ExpTypeError                                          // `int(exp)` raised TypeError, which nothing catches

  /** The HTTP status each rejection is raised with. */
  function StatusOf(e: AuthError): (code: int)
    ensures code == 401 <==> e.CredentialsRejected?
    ensures code == 400 <==> e.InvalidUserType?
    ensures code == 403 <==> e.RoleNotAllowed?
    ensures code == 500 <==> e.ExpTypeError?
  {
    match e
    case CredentialsRejected => 401
    case InvalidUserType(_) => 400
    case RoleNotAllowed(_, _) => 403
    case ExpTypeError => 500
  }

  // ---------------------------------------------------------------------------
  // Issuing
  // ---------------------------------------------------------------------------

  /**
   * The expiry instant: `now + expires_delta` when the delta is truthy, else
   * the default lifetime. A zero delta is falsy, so it also gets the default;
   * a negative one is truthy and yields a token that is already expired.
   */
  function Expiry(expiresDelta: Option<int>, now: int): (exp: int)
    ensures expiresDelta.Some? && expiresDelta.value != 0 ==> exp == now + expiresDelta.value
    ensures expiresDelta.None? || expiresDelta.value == 0 ==> exp == now + AccessTokenExpireMinutes * 60
  {
    if expiresDelta.Some? && expiresDelta.value != 0 then now + expiresDelta.value
    else now + AccessTokenExpireMinutes * 60
  }

  /**
   * `create_access_token`: a copy of the caller's claims with `exp` added or
   * replaced, signed with the configured key and algorithm. The caller's map is
   * a value and cannot be changed.
   */
  function CreateAccessToken(data: Claims, expiresDelta: Option<int>, now: int, key: string, alg: string): (tok: Token)
    ensures tok.Signed? && tok.key == key && tok.alg == alg
    ensures tok.claims.Keys == data.Keys + {"exp"}
    ensures tok.claims["exp"] == JInt(Expiry(expiresDelta, now))
    ensures forall k :: k in data && k != "exp" ==> tok.claims[k] == data[k]
  {
    Signed(data["exp" := JInt(Expiry(expiresDelta, now))], key, alg)
  }

  // ---------------------------------------------------------------------------
  // Verifying
  // ---------------------------------------------------------------------------

  /** What Python's `int(v)` does with a claim value. */
  datatype IntConversion =
    | Converted(n: int)
    | RaisesValueError
    | RaisesTypeError

  /**
   * `int(v)`: an integer stays, a float loses its fraction, a boolean becomes
   * 0 or 1; a string that is not an integer literal raises ValueError, and
   * null, an array or an object raises TypeError.
   */
  function IntOf(c: Claim): (r: IntConversion)
    ensures r.RaisesTypeError? <==> c.JNull? || c.JOther?
    ensures c.JInt? || c.JFloat? || c.JBool? <==> r.Converted?
  {
    match c
    case JInt(n) => Converted(n)
    case JFloat(w) => Converted(w)
    case JBool(b) => Converted(if b then 1 else 0)
    case JStr(_) => RaisesValueError
    case JNull => RaisesTypeError
    case JOther => RaisesTypeError
  }

  /** Why `jwt.decode` gives no claims. */
  datatype DecodeError =
    | JwtError        // any JWTError: bad token, key, algorithm, malformed or past `exp`
    | ExpNotNumber    // `int(exp)` raised TypeError, which the library does not catch

  /**
   * `jwt.decode(token, key, algorithms=[alg])`: the claims of a token that
   * parses and was signed with `key` by an accepted algorithm, once its `exp`,
   * when present, passes the expiry check. That check reads the claim as
   * `int(exp)` and turns only ValueError into JWTError, so a TypeError escapes.
   */
  function Decode(tok: Token, key: string, algorithms: seq<string>, now: int): (r: Result<Claims, DecodeError>)
    ensures r.Success? <==>
      tok.Signed? && tok.key == key && tok.alg in algorithms &&
      ("exp" in tok.claims ==> IntOf(tok.claims["exp"]).Converted? && now <= IntOf(tok.claims["exp"]).n)
    ensures r.Success? ==> r.value == tok.claims
    ensures r == Failure(ExpNotNumber) <==>
      tok.Signed? && tok.key == key && tok.alg in algorithms &&
      "exp" in tok.claims && (tok.claims["exp"].JNull? || tok.claims["exp"].JOther?)
  {
    if tok.Unparseable? || tok.key != key || tok.alg !in algorithms then Failure(JwtError)
    else if "exp" !in tok.claims then Success(tok.claims)
    else
      match IntOf(tok.claims["exp"])
      case RaisesTypeError => Failure(ExpNotNumber)
      case RaisesValueError => Failure(JwtError)
      case Converted(exp) => if exp < now then Failure(JwtError) else Success(tok.claims)
  }

  /** `payload.get(name)`: an absent claim reads as null. */
  function Get(claims: Claims, name: string): Claim
  {
    if name in claims then claims[name] else JNull
  }

  /** `UserType(v)` applied to a claim value: only the three value strings parse. */
  function UserTypeOfClaim(c: Claim): (r: Option<UserType>)
    ensures r.Some? <==> c.JStr? && c.s in UserTypeValues
    ensures r.Some? ==> c == JStr(UserTypeValue(r.value))
  {
    if c.JStr? then ParseUserType(c.s) else None
  }

  /**
   * `get_current_user`, with `emailOf` standing for `EmailStr` validation:
   * None for an invalid address, otherwise the normalized address pydantic
   * stores (lower-cased domain, display name and surrounding blanks removed).
   * The checks run in this order: the token must decode (401, or a 500 when
   * the `exp` check raised TypeError); `username` and
   * `type` must both be present and non-null (401); `type` must be a UserType
   * value (400); `username` must be a string holding a valid email (401).
   */
  function GetCurrentUser(tok: Token, key: string, alg: string, now: int, emailOf: string -> Option<string>): (r: Result<TokenData, AuthError>)
    ensures Decode(tok, key, [alg], now) == Failure(JwtError) ==> r == Failure(CredentialsRejected)
    ensures Decode(tok, key, [alg], now) == Failure(ExpNotNumber) ==> r == Failure(ExpTypeError)
    ensures Decode(tok, key, [alg], now).Success? ==>
      var claims := Decode(tok, key, [alg], now).value;
      var username := Get(claims, "username");
      var userType := Get(claims, "type");
      && (username == JNull || userType == JNull ==> r == Failure(CredentialsRejected))
      && (username != JNull && userType != JNull && UserTypeOfClaim(userType).None? ==>
            r == Failure(InvalidUserType(userType)))
      && (username != JNull && UserTypeOfClaim(userType).Some? && !(username.JStr? && emailOf(username.s).Some?) ==>
            r == Failure(CredentialsRejected))
      && (r.Success? <==> username.JStr? && emailOf(username.s).Some? && UserTypeOfClaim(userType).Some?)
      && (r.Success? ==> r.value.username == emailOf(username.s).value && userType == JStr(UserTypeValue(r.value.userType)))
  {
    match Decode(tok, key, [alg], now)
    case Failure(JwtError) => Failure(CredentialsRejected)
    case Failure(ExpNotNumber) => Failure(ExpTypeError)
    case Success(claims) =>
      var username := Get(claims, "username");
      var userType := Get(claims, "type");
      if username == JNull || userType == JNull then Failure(CredentialsRejected)
      else match UserTypeOfClaim(userType)
        case None => Failure(InvalidUserType(userType))
        case Some(t) =>
          if username.JStr? && emailOf(username.s).Some? then Success(TokenData(emailOf(username.s).value, t))
          else Failure(CredentialsRejected)
  }

  // ---------------------------------------------------------------------------
  // Authorizing
  // ---------------------------------------------------------------------------

  /** `RoleChecker(allowed_roles)(user)`: the principal unchanged, or 403. */
  function RoleChecker(allowedRoles: seq<UserType>, user: TokenData): (r: Result<TokenData, AuthError>)
    ensures r.Success? <==> user.userType in allowedRoles
    ensures r.Success? ==> r.value == user
    ensures r.Failure? ==> r.error == RoleNotAllowed(user.userType, allowedRoles) && StatusOf(r.error) == 403
  {
    if user.userType in allowedRoles then Success(user)
    else Failure(RoleNotAllowed(user.userType, allowedRoles))
  }

  /** `get_current_active_mentor`: the role gate with Mentor as the only role. */
  function GetCurrentActiveMentor(user: TokenData): (r: Result<TokenData, AuthError>)
    ensures r.Success? <==> user.userType == Mentor
    ensures r.Success? ==> r.value == user
    ensures r.Failure? ==> StatusOf(r.error) == 403
  {
    RoleChecker([Mentor], user)
  }

  // ---------------------------------------------------------------------------
  // Issuing and verifying together
  // ---------------------------------------------------------------------------

  /**
   * A token issued with the configured key and algorithm verifies exactly
   * until its expiry instant, and yields the issued claims.
   */
  lemma TokenValidUntilExpiry(data: Claims, expiresDelta: Option<int>, issuedAt: int, key: string, alg: string, now: int)
    ensures Decode(CreateAccessToken(data, expiresDelta, issuedAt, key, alg), key, [alg], now).Success? <==>
      now <= Expiry(expiresDelta, issuedAt)
    ensures Decode(CreateAccessToken(data, expiresDelta, issuedAt, key, alg), key, [alg], now).Success? ==>
      Decode(CreateAccessToken(data, expiresDelta, issuedAt, key, alg), key, [alg], now).value ==
      data["exp" := JInt(Expiry(expiresDelta, issuedAt))]
  {
  }

  /**
   * A token issued for `{"username": email, "type": role}` with the default
   * lifetime authenticates, for thirty minutes, as the principal whose
   * username is the normalized form of `email`, and is rejected with 401
   * afterwards.
   */
  lemma {:induction false} IssuedTokenAuthenticates(
    email: string, role: UserType, issuedAt: int, key: string, alg: string, now: int, emailOf: string -> Option<string>)
    requires emailOf(email).Some?
    ensures var tok := CreateAccessToken(map["username" := JStr(email), "type" := JStr(UserTypeValue(role))], None, issuedAt, key, alg);
      && (now <= issuedAt + 1800 ==> GetCurrentUser(tok, key, alg, now, emailOf) == Success(TokenData(emailOf(email).value, role)))
      && (now > issuedAt + 1800 ==> GetCurrentUser(tok, key, alg, now, emailOf) == Failure(CredentialsRejected))
  {
    var data := map["username" := JStr(email), "type" := JStr(UserTypeValue(role))];
    var tok := CreateAccessToken(data, None, issuedAt, key, alg);
    TokenValidUntilExpiry(data, None, issuedAt, key, alg, now);
    if now <= issuedAt + 1800 {
      var claims := Decode(tok, key, [alg], now).value;
      assert Get(claims, "username") == JStr(email);
      assert Get(claims, "type") == JStr(UserTypeValue(role));
    }
  }

  /**
   * A float `exp` counts by its integer part: a token with a valid username
   * and type authenticates while `now` is not past that part, and is refused
   * with 401 afterwards.
   */
  lemma {:induction false} FloatExpIsTruncated(
    username: string, role: UserType, whole: int, key: string, alg: string, now: int, emailOf: string -> Option<string>)
    requires emailOf(username).Some?
    ensures var tok := Signed(map["username" := JStr(username), "type" := JStr(UserTypeValue(role)), "exp" := JFloat(whole)], key, alg);
      GetCurrentUser(tok, key, alg, now, emailOf) ==
        if now <= whole then Success(TokenData(emailOf(username).value, role)) else Failure(CredentialsRejected)
  {
    var claims := map["username" := JStr(username), "type" := JStr(UserTypeValue(role)), "exp" := JFloat(whole)];
    assert Get(claims, "username") == JStr(username);
    assert Get(claims, "type") == JStr(UserTypeValue(role));
  }

  /**
   * A signed token whose `exp` is null, an array or an object ends the
   * request in a 500, whatever its other claims say.
   */
  lemma NonNumericExpIsServerError(claims: Claims, key: string, alg: string, now: int, emailOf: string -> Option<string>)
    requires "exp" in claims && (claims["exp"].JNull? || claims["exp"].JOther?)
    ensures GetCurrentUser(Signed(claims, key, alg), key, alg, now, emailOf) == Failure(ExpTypeError)
    ensures StatusOf(GetCurrentUser(Signed(claims, key, alg), key, alg, now, emailOf).error) == 500
  {
  }
}
