/**
 * Issuing and reading the short-lived access token (`JwtTokenProvider`): a JSON Web Token
 * (RFC 7519) signed with HMAC-SHA256. The signature is abstracted to the key that made it;
 * the compact text form is decoded by a caller-supplied function standing for the library's
 * base64url and JSON decoding.
 */
module AccessTokens {
  import opened Wrappers
  import opened JavaText
  import opened Principals

  /** A JSON claim value: a string or a number. */
  datatype ClaimValue = Text(text: string) | Number(number: int)

  type Claims = map<string, ClaimValue>

  /** A signed token: its claims and the key that signed them. */
  datatype Jws = Jws(claims: Claims, signedWith: seq<bv8>)

  const DEFAULT_ACCESS_VALIDITY_SECONDS: Long := 3600

  /** HS256 needs a key of at least 256 bits. */
  const MIN_KEY_BYTES: nat := 32

  datatype JwtError =
    | WeakKey
    | InvalidToken
    | NumberFormat(text: string)
    | RequiredType(claim: string)

  datatype JwtTokenProvider = JwtTokenProvider(signingKey: seq<bv8>, accessTokenValiditySeconds: Long)

  /** The constructor: the secret's bytes become the HMAC key, which must be at least 256 bits long. */
  function NewJwtTokenProvider(secret: seq<bv8>, accessTokenValiditySeconds: Long): (r: Result<JwtTokenProvider, JwtError>)
    ensures r.Ok? <==> |secret| >= MIN_KEY_BYTES
    ensures r.Ok? ==> r.value.signingKey == secret && r.value.accessTokenValiditySeconds == accessTokenValiditySeconds
    ensures r.Err? ==> r.error == WeakKey
  {
    if |secret| < MIN_KEY_BYTES then Err(WeakKey) else Ok(JwtTokenProvider(secret, accessTokenValiditySeconds))
  }

  /** The expiry instant: the issue instant plus the configured validity, in seconds. */
  function ExpiryOf(provider: JwtTokenProvider, issuedAt: int): int {
    issuedAt + provider.accessTokenValiditySeconds
  }

  /** The builder's `claim(name, value)`: a null value leaves the claim out. */
  function WithClaim(c: Claims, name: string, value: Option<string>): (r: Claims)
    ensures value.Some? ==> r == c[name := Text(value.value)]
    ensures value.None? ==> r == c - {name}
  {
    if value.Some? then c[name := Text(value.value)] else c - {name}
  }

  /**
   * The four text claims, filled in the builder's order: `sub` and `providerId` carry the
   * provider identifier, `name` and `nationality` the display data.
   */
  function TextClaims(p: Principal): Claims {
    WithClaim(WithClaim(WithClaim(WithClaim(map[], "sub", p.providerId), "name", p.name), "nationality", p.nationality), "providerId", p.providerId)
  }

  /**
   * The claims of an access token: the text claims, then `iat` and `exp` (issue and expiry
   * times in seconds), then `jti` carrying the user id when there is one.
   */
  function AccessClaims(p: Principal, issuedAt: int, expiry: int): Claims {
    var c := TextClaims(p)["iat" := Number(issuedAt)]["exp" := Number(expiry)];
    if p.userId.Some? then c["jti" := Text(LongText(p.userId.value))] else c
  }

  /** `createAccessToken`: the builder is filled claim by claim; the id is set only for a known user. */
  method CreateAccessToken(provider: JwtTokenProvider, principal: Principal, now: int) returns (token: Jws)
    ensures token.signedWith == provider.signingKey
    ensures token.claims == AccessClaims(principal, now, ExpiryOf(provider, now))
  {
    var expiry := ExpiryOf(provider, now);
    var claims: Claims := map[];
    claims := WithClaim(claims, "sub", principal.providerId);
    claims := WithClaim(claims, "name", principal.name);
    claims := WithClaim(claims, "nationality", principal.nationality);
    claims := WithClaim(claims, "providerId", principal.providerId);
    claims := claims["iat" := Number(now)];
    claims := claims["exp" := Number(expiry)];
    if principal.userId.Some? {
      claims := claims["jti" := Text(LongText(principal.userId.value))];
    }
    token := Jws(claims, provider.signingKey);
  }

  /** A claim and its value, if present. */
  function Lookup(c: Claims, name: string): Option<ClaimValue> {
    if name in c then Some(c[name]) else None
  }

  /** The claim a nullable string becomes. */
  function TextValue(value: Option<string>): Option<ClaimValue> {
    if value.Some? then Some(Text(value.value)) else None
  }

  /** Present and a string; the layout lemma below reads claims through this. */
  function TextOf(c: Claims, name: string): Option<string> {
    match Lookup(c, name)
    case Some(Text(t)) => Some(t)
    case _ => None
  }

  lemma LookupWithClaim(c: Claims, name: string, value: Option<string>, k: string)
    ensures Lookup(WithClaim(c, name, value), k) == if k == name then TextValue(value) else Lookup(c, k)
  {
  }

  lemma LookupUpdate(c: Claims, name: string, v: ClaimValue, k: string)
    ensures Lookup(c[name := v], k) == if k == name then Some(v) else Lookup(c, k)
  {
  }

  /** Each name reads back the last value the builder gave it. */
  lemma TextClaimsLookup(p: Principal, k: string)
    ensures Lookup(TextClaims(p), k) ==
      if k == "providerId" then TextValue(p.providerId)
      else if k == "nationality" then TextValue(p.nationality)
      else if k == "name" then TextValue(p.name)
      else if k == "sub" then TextValue(p.providerId)
      else None
  {
    var c0: Claims := map[];
    var c1 := WithClaim(c0, "sub", p.providerId);
    var c2 := WithClaim(c1, "name", p.name);
    var c3 := WithClaim(c2, "nationality", p.nationality);
    LookupWithClaim(c0, "sub", p.providerId, k);
    LookupWithClaim(c1, "name", p.name, k);
    LookupWithClaim(c2, "nationality", p.nationality, k);
    LookupWithClaim(c3, "providerId", p.providerId, k);
  }

  lemma AccessClaimsLookup(p: Principal, issuedAt: int, expiry: int, k: string)
    ensures Lookup(AccessClaims(p, issuedAt, expiry), k) ==
      if k == "jti" && p.userId.Some? then Some(Text(LongText(p.userId.value)))
      else if k == "exp" then Some(Number(expiry))
      else if k == "iat" then Some(Number(issuedAt))
      else Lookup(TextClaims(p), k)
  {
    var c1 := TextClaims(p)["iat" := Number(issuedAt)];
    var c2 := c1["exp" := Number(expiry)];
    LookupUpdate(TextClaims(p), "iat", Number(issuedAt), k);
    LookupUpdate(c1, "exp", Number(expiry), k);
    if p.userId.Some? {
      LookupUpdate(c2, "jti", Text(LongText(p.userId.value)), k);
    }
  }

  /** The seven claim names the builder writes are pairwise different, and none is `nbf`. */
  lemma ClaimNamesDistinct()
    ensures "sub" != "name" && "sub" != "nationality" && "sub" != "providerId"
    ensures "name" != "nationality" && "name" != "providerId" && "nationality" != "providerId"
    ensures "sub" != "iat" && "sub" != "exp" && "sub" != "jti"
    ensures "name" != "iat" && "name" != "exp" && "name" != "jti"
    ensures "nationality" != "iat" && "nationality" != "exp" && "nationality" != "jti"
    ensures "providerId" != "iat" && "providerId" != "exp" && "providerId" != "jti"
    ensures "iat" != "exp" && "iat" != "jti" && "exp" != "jti"
    ensures "nbf" != "sub" && "nbf" != "name" && "nbf" != "nationality" && "nbf" != "providerId"
    ensures "nbf" != "iat" && "nbf" != "exp" && "nbf" != "jti"
  {
    assert "sub"[0] != "name"[0] && "sub"[0] != "nationality"[0] && "sub"[0] != "providerId"[0];
    assert "name"[2] != "nationality"[2] && "name"[0] != "providerId"[0] && "nationality"[0] != "providerId"[0];
    assert "iat"[0] != "exp"[0] && "iat"[0] != "jti"[0] && "exp"[0] != "jti"[0];
    assert "sub"[0] != "iat"[0] && "sub"[0] != "exp"[0] && "sub"[0] != "jti"[0];
    assert |"name"| != 3 && |"nationality"| != 3 && |"providerId"| != 3;
    assert "nbf"[1] != "name"[1] && "nbf"[1] != "nationality"[1];
    assert "nbf"[0] != "sub"[0] && "nbf"[0] != "providerId"[0] && "nbf"[0] != "iat"[0] && "nbf"[0] != "exp"[0] && "nbf"[0] != "jti"[0];
  }

  /** Where each part of the principal and each time sits in the claims of an access token. */
  lemma AccessClaimsLayout(p: Principal, issuedAt: int, expiry: int)
    ensures var c := AccessClaims(p, issuedAt, expiry);
      && Lookup(c, "sub") == TextValue(p.providerId)
      && Lookup(c, "providerId") == TextValue(p.providerId)
      && Lookup(c, "name") == TextValue(p.name)
      && Lookup(c, "nationality") == TextValue(p.nationality)
      && Lookup(c, "jti") == (if p.userId.Some? then Some(Text(LongText(p.userId.value))) else None)
      && Lookup(c, "iat") == Some(Number(issuedAt))
      && Lookup(c, "exp") == Some(Number(expiry))
      && Lookup(c, "nbf") == None
  {
    ClaimNamesDistinct();
    AccessClaimsLookup(p, issuedAt, expiry, "sub");
    TextClaimsLookup(p, "sub");
    AccessClaimsLookup(p, issuedAt, expiry, "providerId");
    TextClaimsLookup(p, "providerId");
    AccessClaimsLookup(p, issuedAt, expiry, "name");
    TextClaimsLookup(p, "name");
    AccessClaimsLookup(p, issuedAt, expiry, "nationality");
    TextClaimsLookup(p, "nationality");
    AccessClaimsLookup(p, issuedAt, expiry, "jti");
    TextClaimsLookup(p, "jti");
    AccessClaimsLookup(p, issuedAt, expiry, "iat");
    AccessClaimsLookup(p, issuedAt, expiry, "exp");
    AccessClaimsLookup(p, issuedAt, expiry, "nbf");
    TextClaimsLookup(p, "nbf");
  }

  /** The token's subject is the principal's user name: both are the provider identifier. */
  lemma UsernameIsSubject(p: Principal, issuedAt: int, expiry: int)
    ensures TextOf(AccessClaims(p, issuedAt, expiry), "sub") == Username(p)
    ensures PrincipalFromClaims(AccessClaims(p, issuedAt, expiry)).Ok?
    ensures Username(PrincipalFromClaims(AccessClaims(p, issuedAt, expiry)).value) == Username(p)
  {
    AccessClaimsLayout(p, issuedAt, expiry);
    PrincipalRoundTrip(p, issuedAt, expiry);
  }

  /**
   * A date claim as the parser reads it, in seconds since the epoch: a number as it stands, and
   * text that `Long.parseLong` accepts as that many seconds. Other text is unreadable.
   */
  function DateSeconds(v: ClaimValue): (r: Option<int>)
    ensures v.Number? ==> r == Some(v.number)
    ensures v.Text? ==> (r.Some? <==> ParseLong(v.text).Some?)
    ensures v.Text? && r.Some? ==> r.value == ParseLong(v.text).value
  {
    match v
    case Number(n) => Some(n)
    case Text(t) => match ParseLong(t) case Some(n) => Some(n) case None => None
  }

  /** The token has expired when its `exp` lies before `now` (whole seconds, no clock skew). */
  predicate Expired(c: Claims, now: int) {
    "exp" in c && DateSeconds(c["exp"]).Some? && now > DateSeconds(c["exp"]).value
  }

  /** The token is not yet valid when its `nbf` lies after `now`. */
  predicate Premature(c: Claims, now: int) {
    "nbf" in c && DateSeconds(c["nbf"]).Some? && now < DateSeconds(c["nbf"]).value
  }

  /** An `exp` or `nbf` that cannot be read as a date. */
  predicate MalformedDate(c: Claims) {
    ("exp" in c && DateSeconds(c["exp"]).None?) || ("nbf" in c && DateSeconds(c["nbf"]).None?)
  }

  /**
   * `parseClaimsJws`: decode, check the signature against our key, then reject a token whose
   * dates cannot be read, that has expired, or that is not valid yet.
   */
  function ParseClaimsJws(provider: JwtTokenProvider, token: string, now: int, decode: string -> Option<Jws>): (r: Result<Claims, JwtError>)
    ensures r.Ok? <==> (decode(token).Some? && decode(token).value.signedWith == provider.signingKey
                        && !MalformedDate(decode(token).value.claims)
                        && !Expired(decode(token).value.claims, now) && !Premature(decode(token).value.claims, now))
    ensures r.Ok? ==> r.value == decode(token).value.claims
    ensures r.Err? ==> r.error == InvalidToken
  {
    match decode(token)
    case None => Err(InvalidToken)
    case Some(jws) =>
      if jws.signedWith != provider.signingKey || MalformedDate(jws.claims) || Expired(jws.claims, now) || Premature(jws.claims, now) then Err(InvalidToken)
      else Ok(jws.claims)
  }

  /** `validateToken`: every failure of parsing or verification is `false`, never an exception. */
  function ValidateToken(provider: JwtTokenProvider, token: string, now: int, decode: string -> Option<Jws>): (valid: bool)
    ensures valid <==> ParseClaimsJws(provider, token, now, decode).Ok?
  {
    ParseClaimsJws(provider, token, now, decode).Ok?
  }

  /** `Claims.getString`: any present value as text. */
  function StringClaim(c: Claims, name: string): Option<string> {
    match Lookup(c, name)
    case None => None
    case Some(Text(t)) => Some(t)
    case Some(Number(n)) => Some(LongText(n))
  }

  /** `Claims.get(name, String.class)`: absent is null, a number is a type error. */
  function TypedTextClaim(c: Claims, name: string): Result<Option<string>, JwtError> {
    match Lookup(c, name)
    case None => Ok(None)
    case Some(Text(t)) => Ok(Some(t))
    case Some(Number(_)) => Err(RequiredType(name))
  }

  /** A `jti` claim that is present but does not read as a `long`. */
  predicate MalformedId(c: Claims) {
    StringClaim(c, "jti").Some? && ParseLong(StringClaim(c, "jti").value).None?
  }

  /** A claim read as `String.class` that holds a number. */
  predicate WrongType(c: Claims, name: string) {
    Lookup(c, name).Some? && Lookup(c, name).value.Number?
  }

  /**
   * The principal that a token's claims describe. A `jti` that is not a `long` is a
   * `NumberFormatException`, and a number where a string claim is read is a type error.
   */
  function PrincipalFromClaims(c: Claims): (r: Result<Principal, JwtError>)
    ensures r.Ok? <==> !MalformedId(c) && !WrongType(c, "name") && !WrongType(c, "nationality") && !WrongType(c, "providerId")
    ensures r.Ok? ==> r.value.providerId == TextOf(c, "providerId") && r.value.name == TextOf(c, "name")
    ensures r.Ok? ==> r.value.nationality == TextOf(c, "nationality")
    ensures r.Ok? ==> (r.value.userId.Some? <==> Lookup(c, "jti").Some?)
    ensures r.Ok? && r.value.userId.Some? ==> ParseLong(StringClaim(c, "jti").value) == r.value.userId
    ensures MalformedId(c) ==> r == Err(NumberFormat(StringClaim(c, "jti").value))
    ensures r.Err? && !MalformedId(c) ==> r.error.RequiredType? && WrongType(c, r.error.claim)
  {
    var jti := StringClaim(c, "jti");
    var userId: Result<Option<Long>, JwtError> :=
      if jti.None? then Ok(None)
      else match ParseLong(jti.value)
        case None => Err(NumberFormat(jti.value))
        case Some(n) => Ok(Some(n));
    if userId.Err? then Err(userId.error)
    else
      var name := TypedTextClaim(c, "name");
      var nationality := TypedTextClaim(c, "nationality");
      var providerId := TypedTextClaim(c, "providerId");
      if name.Err? then Err(name.error)
      else if nationality.Err? then Err(nationality.error)
      else if providerId.Err? then Err(providerId.error)
      else Ok(Principal(userId.value, name.value, nationality.value, providerId.value))
  }

  /** `getPrincipal`: re-parse the token and map its claims back to a principal. */
  function GetPrincipal(provider: JwtTokenProvider, token: string, now: int, decode: string -> Option<Jws>): (r: Result<Principal, JwtError>)
    ensures !ValidateToken(provider, token, now, decode) ==> r == Err(InvalidToken)
    ensures r.Ok? ==> PrincipalFromClaims(decode(token).value.claims) == r
  {
    match ParseClaimsJws(provider, token, now, decode)
    case Err(e) => Err(e)
    case Ok(c) => PrincipalFromClaims(c)
  }

  /** The claims of an issued token read back as exactly the principal they were made from. */
  lemma PrincipalRoundTrip(p: Principal, issuedAt: int, expiry: int)
    ensures PrincipalFromClaims(AccessClaims(p, issuedAt, expiry)) == Ok(p)
  {
    AccessClaimsLayout(p, issuedAt, expiry);
    if p.userId.Some? {
      ParseLongText(p.userId.value);
    }
  }

  /** A token this provider issued at `issuedAt` validates up to and including its expiry second, and not after. */
  lemma ValidUntilExpiry(provider: JwtTokenProvider, p: Principal, issuedAt: int, token: string, now: int, decode: string -> Option<Jws>)
    requires decode(token) == Some(Jws(AccessClaims(p, issuedAt, ExpiryOf(provider, issuedAt)), provider.signingKey))
    ensures ValidateToken(provider, token, now, decode) <==> now <= ExpiryOf(provider, issuedAt)
  {
    AccessClaimsLayout(p, issuedAt, ExpiryOf(provider, issuedAt));
  }

  /** Reading a token that parses gives the principal of its claims. */
  lemma GetPrincipalOfParsed(provider: JwtTokenProvider, token: string, now: int, decode: string -> Option<Jws>, c: Claims)
    requires ParseClaimsJws(provider, token, now, decode) == Ok(c)
    ensures GetPrincipal(provider, token, now, decode) == PrincipalFromClaims(c)
  {
  }

  /** Reading an unexpired token of ours gives back the principal it was issued for. */
  lemma GetPrincipalOfIssued(provider: JwtTokenProvider, p: Principal, issuedAt: int, token: string, now: int, decode: string -> Option<Jws>)
    requires decode(token) == Some(Jws(AccessClaims(p, issuedAt, ExpiryOf(provider, issuedAt)), provider.signingKey))
    requires now <= ExpiryOf(provider, issuedAt)
    ensures GetPrincipal(provider, token, now, decode) == Ok(p)
  {
    var c := AccessClaims(p, issuedAt, ExpiryOf(provider, issuedAt));
    ValidUntilExpiry(provider, p, issuedAt, token, now, decode);
    PrincipalRoundTrip(p, issuedAt, ExpiryOf(provider, issuedAt));
    GetPrincipalOfParsed(provider, token, now, decode, c);
  }

  /** A correctly signed token whose `nbf` lies after `now` does not validate yet. */
  lemma PrematureRejected(provider: JwtTokenProvider, token: string, now: int, decode: string -> Option<Jws>, notBefore: int)
    requires decode(token).Some? && decode(token).value.signedWith == provider.signingKey
    requires "nbf" in decode(token).value.claims && decode(token).value.claims["nbf"] == Number(notBefore)
    requires now < notBefore
    ensures !ValidateToken(provider, token, now, decode)
  {
  }

  /** An `exp` written as decimal text counts as that many seconds, exactly like a number. */
  lemma TextExpiryAsSeconds(provider: JwtTokenProvider, token: string, now: int, decode: string -> Option<Jws>, expiry: Long)
    requires decode(token) == Some(Jws(map["exp" := Text(LongText(expiry))], provider.signingKey))
    ensures ValidateToken(provider, token, now, decode) <==> now <= expiry
  {
    ParseLongText(expiry);
  }

  /** A token signed with any other key never validates. */
  lemma ForeignSignatureRejected(provider: JwtTokenProvider, token: string, now: int, decode: string -> Option<Jws>)
    requires decode(token).Some? && decode(token).value.signedWith != provider.signingKey
    ensures !ValidateToken(provider, token, now, decode)
  {
  }
}
