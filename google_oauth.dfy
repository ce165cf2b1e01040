/**
 * `GoogleOAuthClient`: the checks made before an authorization code is exchanged with Google,
 * the form sent to the token endpoint, and the validators an ID token must pass.
 * The network call, the key-set fetch and the signature check are parameters.
 */
module GoogleOAuth {
  import opened Wrappers
  import opened JavaText
  import opened Users

  const GOOGLE_ISSUER: string := "https://accounts.google.com"
  const GOOGLE_ISSUER_ALT: string := "accounts.google.com"
  const DEFAULT_TOKEN_URI: string := "https://oauth2.googleapis.com/token"

  /** The registered client; any of the three settings may be missing. */
  datatype GoogleOAuthClient = GoogleOAuthClient(
    clientId: Option<string>,
    clientSecret: Option<string>,
    redirectUri: Option<string>,
    tokenUri: string)

  /** The client as configured; the token endpoint defaults to Google's. */
  function NewGoogleOAuthClient(
    clientId: Option<string>, clientSecret: Option<string>, redirectUri: Option<string>, tokenUri: Option<string>
  ): (c: GoogleOAuthClient)
    ensures c.clientId == clientId && c.clientSecret == clientSecret && c.redirectUri == redirectUri
    ensures c.tokenUri == if tokenUri.Some? then tokenUri.value else DEFAULT_TOKEN_URI
  {
    GoogleOAuthClient(clientId, clientSecret, redirectUri, if tokenUri.Some? then tokenUri.value else DEFAULT_TOKEN_URI)
  }

  /** One reason a validator gives for refusing a token. */
  datatype OAuth2Error = OAuth2Error(errorCode: string, description: string)

  /** How the exchange fails: the two Java exceptions it throws, and the decoder's two. */
  datatype OAuthError =
    | IllegalArgument(message: string)
    | IllegalState(message: string)
    | BadJwt
    | JwtValidation(errors: seq<OAuth2Error>)

  /** The decoded ID token: issuer, audience and the other claims read as strings. */
  datatype Jwt = Jwt(issuer: Option<string>, audience: Option<seq<string>>, claims: map<string, string>)

  function ClaimAsString(jwt: Jwt, name: string): Option<string> {
    if name in jwt.claims then Some(jwt.claims[name]) else None
  }

  const INVALID_ISSUER: OAuth2Error := OAuth2Error("invalid_token", "Invalid Google issuer")
  const AUDIENCE_MISMATCH: OAuth2Error := OAuth2Error("invalid_token", "Google ID token audience does not match client id")

  /** `GoogleIssuerValidator`: the issuer must be one of Google's two spellings; a missing issuer fails. */
  function IssuerValidator(jwt: Jwt): (errors: seq<OAuth2Error>)
    ensures errors == [] <==> jwt.issuer == Some(GOOGLE_ISSUER) || jwt.issuer == Some(GOOGLE_ISSUER_ALT)
    ensures errors != [] ==> errors == [INVALID_ISSUER]
  {
    if jwt.issuer == Some(GOOGLE_ISSUER) || jwt.issuer == Some(GOOGLE_ISSUER_ALT) then [] else [INVALID_ISSUER]
  }

  /**
   * `AudienceValidator`: with no configured audience every token passes; otherwise the token's
   * audience list must be present and contain it.
   */
  function AudienceValidator(audience: Option<string>, jwt: Jwt): (errors: seq<OAuth2Error>)
    ensures errors == [] <==>
      !HasText(audience) || (jwt.audience.Some? && audience.value in jwt.audience.value)
    ensures errors != [] ==> errors == [AUDIENCE_MISMATCH]
  {
    if !HasText(audience) then []
    else if jwt.audience.Some? && audience.value in jwt.audience.value then []
    else [AUDIENCE_MISMATCH]
  }

  /**
   * The decoder's validator: the default checks, then the issuer, then the audience. Every
   * validator runs and their errors are collected in that order, so a token is accepted
   * exactly when all three accept it.
   */
  function Validate(defaultValidator: Jwt -> seq<OAuth2Error>, audience: Option<string>, jwt: Jwt): (errors: seq<OAuth2Error>)
    ensures errors == [] <==>
      && defaultValidator(jwt) == []
      && (jwt.issuer == Some(GOOGLE_ISSUER) || jwt.issuer == Some(GOOGLE_ISSUER_ALT))
      && (!HasText(audience) || (jwt.audience.Some? && audience.value in jwt.audience.value))
  {
    var d, i, a := defaultValidator(jwt), IssuerValidator(jwt), AudienceValidator(audience, jwt);
    assert |d + i + a| == |d| + |i| + |a|;
    d + i + a
  }

  const CODE_REQUIRED: OAuthError := IllegalArgument("authorization code is required")
  const CONFIGURATION_MISSING: OAuthError := IllegalState("Google OAuth client configuration is missing")
  const REDIRECT_MISMATCH: OAuthError := IllegalArgument("Redirect URI does not match registered redirect URI")
  const EXCHANGE_FAILED: OAuthError := IllegalState("Failed to exchange code for Google tokens")

  /**
   * The guards of `exchangeAuthCode`, in order: a code, then a complete configuration, then a
   * requested redirect URI (when one is given) equal to the registered one.
   */
  function Preconditions(client: GoogleOAuthClient, code: Option<string>, requestedRedirectUri: Option<string>): (r: Outcome<OAuthError>)
    ensures !HasText(code) ==> r == Fail(CODE_REQUIRED)
    ensures HasText(code) && !(HasText(client.clientId) && HasText(client.clientSecret) && HasText(client.redirectUri))
      ==> r == Fail(CONFIGURATION_MISSING)
    ensures && HasText(code) && HasText(client.clientId) && HasText(client.clientSecret) && HasText(client.redirectUri)
            && HasText(requestedRedirectUri) && requestedRedirectUri != client.redirectUri
      ==> r == Fail(REDIRECT_MISMATCH)
    ensures r.Pass? <==>
      && HasText(code) && HasText(client.clientId) && HasText(client.clientSecret) && HasText(client.redirectUri)
      && (!HasText(requestedRedirectUri) || requestedRedirectUri == client.redirectUri)
    ensures r.Fail? ==> r.error in {CODE_REQUIRED, CONFIGURATION_MISSING, REDIRECT_MISMATCH}
  {
    if !HasText(code) then Fail(CODE_REQUIRED)
    else if !HasText(client.clientId) || !HasText(client.clientSecret) || !HasText(client.redirectUri) then
      Fail(CONFIGURATION_MISSING)
    else if HasText(requestedRedirectUri) && client.redirectUri != requestedRedirectUri then Fail(REDIRECT_MISMATCH)
    else Pass
  }

  /** A form body: its fields in the order they were added. */
  type FormBody = seq<(string, string)>

  /** The values a `MultiValueMap` holds under `key`, in order. */
  function FormValues(body: FormBody, key: string): (values: seq<string>)
    ensures |values| <= |body|
  {
    if body == [] then []
    else (if body[0].0 == key then [body[0].1] else []) + FormValues(body[1..], key)
  }

  /** `MultiValueMap.add`: the field goes at the end, after those already added. */
  function Add(body: FormBody, key: string, value: string): FormBody {
    body + [(key, value)]
  }

  /** Every value of a key is a field added under that key. */
  lemma {:induction false} FormValuesFromFields(body: FormBody, key: string)
    ensures forall v | v in FormValues(body, key) :: (key, v) in body
  {
    if body != [] {
      var tail := body[1..];
      FormValuesFromFields(tail, key);
      var head := if body[0].0 == key then [body[0].1] else [];
      assert FormValues(body, key) == head + FormValues(tail, key);
      assert forall f | f in tail :: f in body;
    }
  }

  /** Adding a field appends its value to that key's values and leaves every other key's alone. */
  lemma {:induction false} FormValuesAdd(body: FormBody, k: string, v: string, key: string)
    ensures FormValues(Add(body, k, v), key) == FormValues(body, key) + (if k == key then [v] else [])
  {
    if body == [] {
      assert Add(body, k, v) == [(k, v)];
      FormValuesCons((k, v), [], key);
    } else {
      var after := Add(body, k, v);
      assert after[1..] == Add(body[1..], k, v);
      FormValuesAdd(body[1..], k, v, key);
    }
  }

  lemma FormValuesCons(field: (string, string), rest: FormBody, key: string)
    ensures FormValues([field] + rest, key) == (if field.0 == key then [field.1] else []) + FormValues(rest, key)
  {
    assert ([field] + rest)[1..] == rest;
  }

  /** The values each key holds in the five-field token request. */
  lemma TokenRequestValues(code: string, clientId: string, clientSecret: string, redirectUri: string, key: string)
    ensures var body := [("code", code), ("client_id", clientId), ("client_secret", clientSecret),
                         ("redirect_uri", redirectUri), ("grant_type", "authorization_code")];
      FormValues(body, key) ==
        (if key == "code" then [code] else []) + (if key == "client_id" then [clientId] else [])
        + (if key == "client_secret" then [clientSecret] else []) + (if key == "redirect_uri" then [redirectUri] else [])
        + (if key == "grant_type" then ["authorization_code"] else [])
  {
    var f0, f1, f2, f3, f4 := ("code", code), ("client_id", clientId), ("client_secret", clientSecret),
                              ("redirect_uri", redirectUri), ("grant_type", "authorization_code");
    FormValuesCons(f4, [], key);
    FormValuesCons(f3, [f4], key);
    FormValuesCons(f2, [f3, f4], key);
    FormValuesCons(f1, [f2, f3, f4], key);
    FormValuesCons(f0, [f1, f2, f3, f4], key);
    assert [f0, f1, f2, f3, f4] == [f0] + [f1, f2, f3, f4];
    assert [f1, f2, f3, f4] == [f1] + [f2, f3, f4];
    assert [f2, f3, f4] == [f2] + [f3, f4];
    assert [f3, f4] == [f3] + [f4];
    assert [f4] == [f4] + [];
  }

  /** The five fields of the token request, in the order they are added. */
  function TokenRequestForm(code: string, clientId: string, clientSecret: string, redirectUri: string): FormBody {
    [("code", code), ("client_id", clientId), ("client_secret", clientSecret),
     ("redirect_uri", redirectUri), ("grant_type", "authorization_code")]
  }

  /**
   * The form posted to the token endpoint: the code, the client's credentials, the registered
   * redirect URI (never the requested one) and the grant type, each once.
   */
  method TokenRequestBody(code: string, clientId: string, clientSecret: string, redirectUri: string)
    returns (body: FormBody)
    ensures FormValues(body, "code") == [code]
    ensures FormValues(body, "client_id") == [clientId]
    ensures FormValues(body, "client_secret") == [clientSecret]
    ensures FormValues(body, "redirect_uri") == [redirectUri]
    ensures FormValues(body, "grant_type") == ["authorization_code"]
    ensures |body| == 5 && body == TokenRequestForm(code, clientId, clientSecret, redirectUri)
  {
    body := [];
    body := Add(body, "code", code);
    body := Add(body, "client_id", clientId);
    body := Add(body, "client_secret", clientSecret);
    body := Add(body, "redirect_uri", redirectUri);
    body := Add(body, "grant_type", "authorization_code");
    assert body == TokenRequestForm(code, clientId, clientSecret, redirectUri);
    TokenRequestValues(code, clientId, clientSecret, redirectUri, "code");
    TokenRequestValues(code, clientId, clientSecret, redirectUri, "client_id");
    TokenRequestValues(code, clientId, clientSecret, redirectUri, "client_secret");
    TokenRequestValues(code, clientId, clientSecret, redirectUri, "redirect_uri");
    TokenRequestValues(code, clientId, clientSecret, redirectUri, "grant_type");
  }

  /** What the token endpoint answers; a null body is `None` and a missing `id_token` is `None`. */
  datatype TokenResponse = TokenResponse(idToken: Option<string>)

  /** The profile read from a verified ID token. */
  datatype GoogleUserProfile = GoogleUserProfile(sub: Option<string>, email: Option<string>, name: Option<string>)

  /** A Google profile seen as a social profile: provider GOOGLE, and `sub` as the provider id. */
  function AsSocialProfile(p: GoogleUserProfile): (s: SocialUserProfile)
    ensures s.provider == GOOGLE && s.providerId == p.sub && s.email == p.email && s.name == p.name
  {
    SocialUserProfile(GOOGLE, p.sub, p.email, p.name)
  }

  /**
   * What `exchangeAuthCode` returns or throws, as a value: the guards, then the answer to the
   * five-field form, then decoding and validation of the ID token.
   */
  function ExchangeOutcome(
    client: GoogleOAuthClient, code: Option<string>, requestedRedirectUri: Option<string>,
    tokenEndpoint: (string, FormBody) -> Option<TokenResponse>,
    decode: string -> Option<Jwt>,
    defaultValidator: Jwt -> seq<OAuth2Error>
  ): (r: Result<GoogleUserProfile, OAuthError>)
    ensures Preconditions(client, code, requestedRedirectUri).Fail? ==> r == Err(Preconditions(client, code, requestedRedirectUri).error)
    ensures r.Ok? ==>
      && Preconditions(client, code, requestedRedirectUri).Pass?
      && var response := tokenEndpoint(client.tokenUri, TokenRequestForm(code.value, client.clientId.value, client.clientSecret.value, client.redirectUri.value));
      && response.Some? && HasText(response.value.idToken)
      && decode(response.value.idToken.value).Some?
      && var jwt := decode(response.value.idToken.value).value;
      && (jwt.issuer == Some(GOOGLE_ISSUER) || jwt.issuer == Some(GOOGLE_ISSUER_ALT))
      && jwt.audience.Some? && client.clientId.value in jwt.audience.value
      && r.value == GoogleUserProfile(ClaimAsString(jwt, "sub"), ClaimAsString(jwt, "email"), ClaimAsString(jwt, "name"))
  {
    var guard := Preconditions(client, code, requestedRedirectUri);
    if guard.Fail? then Err(guard.error)
    else
      var response := tokenEndpoint(client.tokenUri, TokenRequestForm(code.value, client.clientId.value, client.clientSecret.value, client.redirectUri.value));
      if response.None? || !HasText(response.value.idToken) then Err(EXCHANGE_FAILED)
      else match decode(response.value.idToken.value)
        case None => Err(BadJwt)
        case Some(jwt) =>
          var errors := Validate(defaultValidator, client.clientId, jwt);
          if errors != [] then Err(JwtValidation(errors))
          else Ok(GoogleUserProfile(ClaimAsString(jwt, "sub"), ClaimAsString(jwt, "email"), ClaimAsString(jwt, "name")))
  }

  /**
   * `exchangeAuthCode`. `tokenEndpoint` is the POST to `tokenUri`, `decode` the signature check
   * against Google's key set, and `defaultValidator` the default timestamp checks. `sent` is the
   * form posted, or `None` when a guard refused the call before any request was made.
   */
  method ExchangeAuthCode(
    client: GoogleOAuthClient, code: Option<string>, requestedRedirectUri: Option<string>,
    tokenEndpoint: (string, FormBody) -> Option<TokenResponse>,
    decode: string -> Option<Jwt>,
    defaultValidator: Jwt -> seq<OAuth2Error>
  ) returns (r: Result<GoogleUserProfile, OAuthError>, sent: Option<FormBody>)
    ensures r == ExchangeOutcome(client, code, requestedRedirectUri, tokenEndpoint, decode, defaultValidator)
    ensures Preconditions(client, code, requestedRedirectUri).Fail? ==>
      sent.None? && r == Err(Preconditions(client, code, requestedRedirectUri).error)
    ensures Preconditions(client, code, requestedRedirectUri).Pass? ==> sent.Some?
    ensures sent.Some? ==>
      && FormValues(sent.value, "code") == [code.value]
      && FormValues(sent.value, "client_id") == [client.clientId.value]
      && FormValues(sent.value, "client_secret") == [client.clientSecret.value]
      && FormValues(sent.value, "redirect_uri") == [client.redirectUri.value]
      && FormValues(sent.value, "grant_type") == ["authorization_code"]
      && |sent.value| == 5
    ensures sent.Some? ==>
      var response := tokenEndpoint(client.tokenUri, sent.value);
      if response.None? || !HasText(response.value.idToken) then r == Err(EXCHANGE_FAILED)
      else match decode(response.value.idToken.value)
        case None => r == Err(BadJwt)
        case Some(jwt) =>
          var errors := Validate(defaultValidator, client.clientId, jwt);
          if errors != [] then r == Err(JwtValidation(errors))
          else r == Ok(GoogleUserProfile(ClaimAsString(jwt, "sub"), ClaimAsString(jwt, "email"), ClaimAsString(jwt, "name")))
  {
    var guard := Preconditions(client, code, requestedRedirectUri);
    if guard.Fail? {
      return Err(guard.error), None;
    }
    var body := TokenRequestBody(code.value, client.clientId.value, client.clientSecret.value, client.redirectUri.value);
    sent := Some(body);
    var response := tokenEndpoint(client.tokenUri, body);
    if response.None? || !HasText(response.value.idToken) {
      return Err(EXCHANGE_FAILED), sent;
    }
    var idToken := decode(response.value.idToken.value);
    if idToken.None? {
      return Err(BadJwt), sent;
    }
    var jwt := idToken.value;
    var errors := Validate(defaultValidator, client.clientId, jwt);
    if errors != [] {
      return Err(JwtValidation(errors)), sent;
    }
    r := Ok(GoogleUserProfile(ClaimAsString(jwt, "sub"), ClaimAsString(jwt, "email"), ClaimAsString(jwt, "name")));
  }

  /**
   * A profile comes back only from a token that Google issued for this client: the issuer is
   * Google's and the audience names the configured client id.
   */
  lemma ExchangeTrustsOnlyGoogle(
    client: GoogleOAuthClient, defaultValidator: Jwt -> seq<OAuth2Error>, jwt: Jwt)
    requires HasText(client.clientId)
    requires Validate(defaultValidator, client.clientId, jwt) == []
    ensures jwt.issuer == Some(GOOGLE_ISSUER) || jwt.issuer == Some(GOOGLE_ISSUER_ALT)
    ensures jwt.audience.Some? && client.clientId.value in jwt.audience.value
  {
  }
}
