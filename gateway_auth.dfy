/**
 * The gateway's two authentication middlewares
 * (api-gateway/internal/middleware/auth.go and authcar.go): an ordered chain
 * of checks on the Authorization header and the bearer token, each failure
 * aborting the request with its own error code. Decoding a token and
 * verifying its signature are an oracle, `parse`; the validation of the
 * registered time claims that jwt.Parse (golang-jwt v5) adds on top is
 * modelled, against the wall-clock time `clock` in Unix seconds.
 */
module GatewayAuth {
  import opened Wrappers
  import opened Text

  /** A JSON value inside the token's claims. */
  datatype Claim = NumberClaim(value: real) | StringClaim(text: string) | ListClaim(items: seq<Claim>) | OtherClaim

  type Claims = map<string, Claim>

  /**
   * What jwt.Parse learns from a token string it could decode: whether the
   * signing method is of the HMAC family, whether the signature verifies
   * under the secret, and its claims when they are a claims map.
   */
  datatype ParsedToken = ParsedToken(hmac: bool, signatureValid: bool, claims: Option<Claims>)

  /** The decoder and signature check, with the secret fixed: None when the string does not decode at all. */
  type TokenParser = string -> Option<ParsedToken>

  /**
   * jwt's reading of a registered time claim: absent or zero is no bound, a
   * number is truncated to whole seconds, and any other value is an error.
   */
  datatype TimeClaim = NoBound | Bound(seconds: int) | BadClaim

  function TimeClaimOf(claims: Claims, key: string): (t: TimeClaim)
    ensures t.Bound? ==> key in claims && claims[key].NumberClaim? && t.seconds as real <= claims[key].value < t.seconds as real + 1.0
    ensures t.NoBound? <==> key !in claims || claims[key] == NumberClaim(0.0)
    ensures t.BadClaim? <==> key in claims && !claims[key].NumberClaim?
  {
    if key !in claims then NoBound
    else match claims[key]
      case NumberClaim(v) => if v == 0.0 then NoBound else Bound(v.Floor)
      case _ => BadClaim
  }

  /**
   * jwt.Parse's claim validation at `clock`: the time is strictly before exp
   * and not before nbf, where present; a time claim that is not a number
   * fails.
   */
  predicate ClaimsValidAt(claims: Claims, clock: real)
  {
    && (match TimeClaimOf(claims, "exp")
        case NoBound => true
        case Bound(s) => clock < s as real
        case BadClaim => false)
    && (match TimeClaimOf(claims, "nbf")
        case NoBound => true
        case Bound(s) => s as real <= clock
        case BadClaim => false)
  }

  /** time.Now().Unix(): the clock in whole seconds. */
  function UnixSeconds(clock: real): (t: int)
    ensures t as real <= clock < t as real + 1.0
  {
    clock.Floor
  }

  datatype Rejection = Rejection(status: nat, errorCode: string, description: string, traceId: string)

  const StatusUnauthorized: nat := 401
  const StatusForbidden: nat := 403

  function MissingHeader(traceId: string): Rejection
  {
    Rejection(StatusUnauthorized, "MISSING_AUTH_HEADER", "Authorization header is required", traceId)
  }

  function InvalidHeader(traceId: string): Rejection
  {
    Rejection(StatusUnauthorized, "INVALID_AUTH_HEADER", "Authorization header format must be Bearer {token}", traceId)
  }

  function InvalidToken(traceId: string): Rejection
  {
    Rejection(StatusUnauthorized, "INVALID_TOKEN", "Invalid token", traceId)
  }

  function TokenExpired(traceId: string): Rejection
  {
    Rejection(StatusUnauthorized, "TOKEN_EXPIRED", "Token is expired", traceId)
  }

  function InvalidClaims(traceId: string): Rejection
  {
    Rejection(StatusUnauthorized, "INVALID_CLAIMS", "Invalid token claims", traceId)
  }

  function InsufficientRoles(traceId: string): Rejection
  {
    Rejection(StatusForbidden, "INSUFFICIENT_ROLES", "Insufficient token roles", traceId)
  }

  /** The token of a header of the form "<scheme> <token>" whose scheme is "bearer" in any letter case. */
  function BearerToken(header: string): (token: Option<string>)
    ensures token.Some? ==> ' ' !in token.value
  {
    var parts := Split(header, ' ');
    SplitHasNoSeparator(header, ' ');
    if |parts| != 2 || ToLower(parts[0]) != "bearer" then None
    else
      assert parts[1] in parts;
      Some(parts[1])
  }

  /**
   * The format check accepts exactly a scheme and a token separated by one
   * space, neither holding a space, the scheme being "bearer" in any case.
   */
  lemma BearerTokenExact(header: string, token: string)
    ensures BearerToken(header) == Some(token) <==>
      exists scheme :: header == scheme + " " + token && ' ' !in scheme && ' ' !in token && ToLower(scheme) == "bearer"
  {
    var parts := Split(header, ' ');
    if BearerToken(header) == Some(token) {
      JoinSplit(header, ' ');
      SplitHasNoSeparator(header, ' ');
      assert parts[0] in parts;
      assert header == parts[0] + " " + token by {
        assert parts[..1] == [parts[0]];
      }
    }
    if exists scheme :: header == scheme + " " + token && ' ' !in scheme && ' ' !in token && ToLower(scheme) == "bearer" {
      var scheme :| header == scheme + " " + token && ' ' !in scheme && ' ' !in token && ToLower(scheme) == "bearer";
      SplitWithoutSeparator(scheme, ' ');
      SplitAppendField(scheme, ' ', token);
      assert scheme + " " + token == scheme + [' '] + token;
    }
  }

  /** The checks of RequireAuth, in the order they run. */
  datatype AuthCheck = HeaderPresent | HeaderFormat | TokenValid | ClaimsMap | NotExpired

  function Order(c: AuthCheck): nat
  {
    match c
    case HeaderPresent => 0
    case HeaderFormat => 1
    case TokenValid => 2
    case ClaimsMap => 3
    case NotExpired => 4
  }

  /**
   * `err == nil && token.Valid`: the key function rejects non-HMAC methods,
   * so a token is accepted only when it decodes, is HMAC-signed, its
   * signature verifies and its time claims hold at `clock`.
   */
  predicate Accepted(t: Option<ParsedToken>, clock: real)
  {
    && t.Some? && t.value.hmac && t.value.signatureValid
    && (t.value.claims.Some? ==> ClaimsValidAt(t.value.claims.value, clock))
  }

  /** The exp claim as a number, when it is one. */
  function Expiry(claims: Claims): Option<real>
  {
    if "exp" in claims && claims["exp"].NumberClaim? then Some(claims["exp"].value) else None
  }

  /** Whether one check fails on its own, given that the values it looks at exist. */
  predicate CheckFails(c: AuthCheck, header: string, parse: TokenParser, clock: real)
  {
    match c
    case HeaderPresent => header == ""
    case HeaderFormat => BearerToken(header).None?
    case TokenValid => BearerToken(header).Some? && !Accepted(parse(BearerToken(header).value), clock)
    case ClaimsMap =>
      BearerToken(header).Some? && Accepted(parse(BearerToken(header).value), clock)
      && parse(BearerToken(header).value).value.claims.None?
    case NotExpired =>
      BearerToken(header).Some? && Accepted(parse(BearerToken(header).value), clock)
      && parse(BearerToken(header).value).value.claims.Some?
      && var exp := Expiry(parse(BearerToken(header).value).value.claims.value);
      (exp.None? || UnixSeconds(clock) as real > exp.value)
  }

  function RejectionFor(c: AuthCheck, traceId: string): Rejection
  {
    match c
    case HeaderPresent => MissingHeader(traceId)
    case HeaderFormat => InvalidHeader(traceId)
    case TokenValid => InvalidToken(traceId)
    case ClaimsMap => InvalidClaims(traceId)
    case NotExpired => TokenExpired(traceId)
  }

  /** What RequireAuth leaves in the request context when it lets the request through. */
  datatype AuthOutcome =
    | Rejected(rejection: Rejection)
    | Authenticated(userId: Option<Claim>, email: Option<Claim>, roles: Option<Claim>, claims: Claims)

  function Get(claims: Claims, key: string): Option<Claim>
  {
    if key in claims then Some(claims[key]) else None
  }

  /** RequireAuth: header, format, token, claims, expiry, at the wall-clock time `clock`. */
  function RequireAuth(header: string, traceId: string, parse: TokenParser, clock: real): (out: AuthOutcome)
    ensures out.Rejected? ==> out.rejection.status == StatusUnauthorized && out.rejection.traceId == traceId
    ensures out.Authenticated? ==> BearerToken(header).Some? && Accepted(parse(BearerToken(header).value), clock)
  {
    if header == "" then Rejected(MissingHeader(traceId))
    else match BearerToken(header)
      case None => Rejected(InvalidHeader(traceId))
      case Some(tokenString) =>
        var token := parse(tokenString);
        if !Accepted(token, clock) then Rejected(InvalidToken(traceId))
        else match token.value.claims
          case None => Rejected(InvalidClaims(traceId))
          case Some(claims) =>
            var exp := Expiry(claims);
            if exp.None? || UnixSeconds(clock) as real > exp.value then Rejected(TokenExpired(traceId))
            else Authenticated(Get(claims, "sub"), Get(claims, "email"), Get(claims, "roles"), claims)
  }

  /** RequireAuth lets a request through iff no check fails. */
  lemma RequireAuthPassesExactly(header: string, traceId: string, parse: TokenParser, clock: real)
    ensures RequireAuth(header, traceId, parse, clock).Authenticated? <==> forall c :: !CheckFails(c, header, parse, clock)
  {
    if RequireAuth(header, traceId, parse, clock).Authenticated? {
      forall c ensures !CheckFails(c, header, parse, clock) {
        match c
        case HeaderPresent =>
        case _ =>
      }
    } else {
      var failing :| failing in {HeaderPresent, HeaderFormat, TokenValid, ClaimsMap, NotExpired} && CheckFails(failing, header, parse, clock);
    }
  }

  /** A rejection names the first check, in order, that fails. */
  lemma RequireAuthReportsFirstFailure(header: string, traceId: string, parse: TokenParser, clock: real, c: AuthCheck)
    requires CheckFails(c, header, parse, clock)
    requires forall d :: Order(d) < Order(c) ==> !CheckFails(d, header, parse, clock)
    ensures RequireAuth(header, traceId, parse, clock) == Rejected(RejectionFor(c, traceId))
  {
    match c
    case HeaderPresent =>
    case HeaderFormat => assert !CheckFails(HeaderPresent, header, parse, clock);
    case TokenValid => assert !CheckFails(HeaderPresent, header, parse, clock);
    case ClaimsMap => assert !CheckFails(HeaderPresent, header, parse, clock);
    case NotExpired =>
      assert !CheckFails(HeaderPresent, header, parse, clock);
      assert !CheckFails(ClaimsMap, header, parse, clock);
  }

  /**
   * The middleware's own expiry check is shadowed by jwt.Parse's: a token it
   * lets through answers TOKEN_EXPIRED only when it has no exp claim, or an
   * exp of zero (which jwt reads as no bound) once the clock is past 1970's
   * first second.
   */
  lemma ExpiredOnlyWithoutExpiry(header: string, traceId: string, parse: TokenParser, clock: real)
    requires BearerToken(header).Some? && Accepted(parse(BearerToken(header).value), clock)
    requires parse(BearerToken(header).value).value.claims.Some?
    ensures var claims := parse(BearerToken(header).value).value.claims.value;
      RequireAuth(header, traceId, parse, clock) == Rejected(TokenExpired(traceId)) <==>
        "exp" !in claims || (claims["exp"] == NumberClaim(0.0) && clock >= 1.0)
  {
    var claims := parse(BearerToken(header).value).value.claims.value;
    var t := TimeClaimOf(claims, "exp");
    if t.Bound? {
      assert clock < t.seconds as real;
      assert UnixSeconds(clock) < t.seconds;
      assert !(UnixSeconds(clock) as real > claims["exp"].value);
    }
  }

  /**
   * The expiry bound is exclusive and checked by jwt.Parse: a token whose exp
   * is the whole second T passes before T and is an invalid token from T on.
   */
  lemma ExpiryIsExclusive(header: string, traceId: string, parse: TokenParser, claims: Claims, expiry: int, clock: real)
    requires BearerToken(header).Some? && parse(BearerToken(header).value) == Some(ParsedToken(true, true, Some(claims)))
    requires expiry != 0 && "exp" in claims && claims["exp"] == NumberClaim(expiry as real) && "nbf" !in claims
    ensures clock < expiry as real ==> RequireAuth(header, traceId, parse, clock).Authenticated?
    ensures clock >= expiry as real ==> RequireAuth(header, traceId, parse, clock) == Rejected(InvalidToken(traceId))
  {
    assert TimeClaimOf(claims, "exp") == Bound(expiry);
    if clock < expiry as real {
      assert UnixSeconds(clock) < expiry;
    }
  }

  /**
   * RequireCarAuth's outcomes. `Panicked` is a Go run-time panic: a missing
   * exp claim (an unchecked type assertion; a non-numeric exp never gets this
   * far, jwt.Parse refuses it) or an empty roles
   * list (an unchecked index); gin's default recovery answers it with 500.
   */
  datatype CarAuthOutcome =
    | CarRejected(rejection: Rejection)
    | CarAuthenticated(carId: Option<Claim>, claims: Claims)
    | Panicked

  /** RequireCarAuth: the same header, format and token checks, then expiry, then the roles claim. */
  function RequireCarAuth(header: string, traceId: string, parse: TokenParser, clock: real): (out: CarAuthOutcome)
    ensures out.CarRejected? ==> out.rejection.traceId == traceId
    ensures out.CarAuthenticated? ==> BearerToken(header).Some? && Accepted(parse(BearerToken(header).value), clock)
  {
    if header == "" then CarRejected(MissingHeader(traceId))
    else match BearerToken(header)
      case None => CarRejected(InvalidHeader(traceId))
      case Some(tokenString) =>
        var token := parse(tokenString);
        if !Accepted(token, clock) then CarRejected(InvalidToken(traceId))
        else match token.value.claims
          case None => CarRejected(InvalidClaims(traceId))
          case Some(claims) =>
            var exp := Expiry(claims);
            if exp.None? then Panicked
            else if UnixSeconds(clock) as real > exp.value then CarRejected(TokenExpired(traceId))
            else if "roles" !in claims || !claims["roles"].ListClaim? then CarRejected(InvalidClaims(traceId))
            else if |claims["roles"].items| == 0 then Panicked
            else if claims["roles"].items[0] != StringClaim("car") then CarRejected(InsufficientRoles(traceId))
            else CarAuthenticated(Get(claims, "car_id"), claims)
  }

  /** The first four checks behave as in RequireAuth: the same rejections, for the same requests. */
  lemma CarAuthSharesFirstChecks(header: string, traceId: string, parse: TokenParser, clock: real, c: AuthCheck)
    requires c != NotExpired
    requires CheckFails(c, header, parse, clock)
    requires forall d :: Order(d) < Order(c) ==> !CheckFails(d, header, parse, clock)
    ensures RequireCarAuth(header, traceId, parse, clock) == CarRejected(RejectionFor(c, traceId))
  {
    RequireAuthReportsFirstFailure(header, traceId, parse, clock, c);
  }

  /**
   * A request the car middleware lets through, the user middleware lets
   * through too; the car middleware demands in addition that the first role
   * is "car".
   */
  lemma CarAuthIsStricter(header: string, traceId: string, parse: TokenParser, clock: real)
    requires RequireCarAuth(header, traceId, parse, clock).CarAuthenticated?
    ensures RequireAuth(header, traceId, parse, clock).Authenticated?
    ensures var claims := RequireCarAuth(header, traceId, parse, clock).claims;
      "roles" in claims && claims["roles"].ListClaim? && |claims["roles"].items| > 0
      && claims["roles"].items[0] == StringClaim("car")
  {
  }

  /** Only the first role counts: a "car" role in second place is still refused with 403. */
  lemma OnlyFirstRoleCounts(header: string, traceId: string, parse: TokenParser, clock: real, other: Claim)
    requires other != StringClaim("car")
    requires BearerToken(header).Some? && Accepted(parse(BearerToken(header).value), clock)
    requires parse(BearerToken(header).value).value.claims.Some?
    requires var claims := parse(BearerToken(header).value).value.claims.value;
      && Expiry(claims).Some? && UnixSeconds(clock) as real <= Expiry(claims).value
      && "roles" in claims && claims["roles"] == ListClaim([other, StringClaim("car")])
    ensures RequireCarAuth(header, traceId, parse, clock) == CarRejected(InsufficientRoles(traceId))
  {
  }

  /** A token without an exp claim that passes the signature check: RequireAuth refuses it, RequireCarAuth panics. */
  lemma MissingExpiry(header: string, traceId: string, parse: TokenParser, clock: real)
    requires BearerToken(header).Some? && Accepted(parse(BearerToken(header).value), clock)
    requires parse(BearerToken(header).value).value.claims.Some?
    requires "exp" !in parse(BearerToken(header).value).value.claims.value
    ensures RequireAuth(header, traceId, parse, clock) == Rejected(TokenExpired(traceId))
    ensures RequireCarAuth(header, traceId, parse, clock) == Panicked
  {
  }
}
