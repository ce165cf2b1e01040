/**
 * The request filter (`JwtAuthenticationFilter`): read a bearer token from the
 * `Authorization` header (RFC 6750, section 2.1), and when it validates, install the
 * principal it carries in the request's security context before the chain proceeds.
 */
module BearerAuth {
  import opened Wrappers
  import opened JavaText
  import opened Principals
  import opened AccessTokens

  const BEARER_PREFIX: string := "Bearer "

  /** `resolveToken`: the text after an exact, case-sensitive `"Bearer "` prefix, or null. */
  function ResolveToken(authorization: Option<string>): (token: Option<string>)
    ensures token.Some? <==> HasText(authorization) && StartsWith(authorization.value, BEARER_PREFIX)
    ensures token.Some? ==> authorization.value == BEARER_PREFIX + token.value
  {
    if !HasText(authorization) || !StartsWith(authorization.value, BEARER_PREFIX) then None
    else
      var header := authorization.value;
      assert header == header[..7] + header[7..];
      Some(header[7..])
  }

  /** Whatever follows the prefix is handed on untouched. */
  lemma ResolveBearer(t: string)
    ensures ResolveToken(Some(BEARER_PREFIX + t)) == Some(t)
  {
    var header := BEARER_PREFIX + t;
    assert !IsWhitespace(header[0]);
    assert header[..7] == BEARER_PREFIX;
  }

  /** The scheme name is matched case-sensitively: a lower-case `bearer` is not a bearer token. */
  lemma LowerCaseSchemeRejected(t: string)
    ensures ResolveToken(Some("bearer " + t)) == None
  {
    var header := "bearer " + t;
    assert header[0] == 'b';
  }

  /** The authentication installed in the context: the principal, no credentials, its authorities. */
  datatype Authentication = Authentication(principal: Principal, credentials: Option<string>, authorities: seq<string>)

  /**
   * What the filter decides before it proceeds: `Ok(None)` leaves the context as it is,
   * `Ok(Some(a))` installs `a`, `Err` is the exception `getPrincipal` raises.
   */
  function AuthenticationFor(provider: JwtTokenProvider, authorization: Option<string>, now: int, decode: string -> Option<Jws>)
    : (r: Result<Option<Authentication>, JwtError>)
    ensures r != Ok(None) ==>
      var token := ResolveToken(authorization);
      HasText(token) && ValidateToken(provider, token.value, now, decode)
    ensures r.Ok? && r.value.Some? ==>
      var token := ResolveToken(authorization).value;
      && GetPrincipal(provider, token, now, decode) == Ok(r.value.value.principal)
      && r.value.value.credentials.None?
      && r.value.value.authorities == Authorities(r.value.value.principal)
  {
    var token := ResolveToken(authorization);
    if HasText(token) && ValidateToken(provider, token.value, now, decode) then
      match GetPrincipal(provider, token.value, now, decode)
      case Err(e) => Err(e)
      case Ok(principal) => Ok(Some(Authentication(principal, None, Authorities(principal))))
    else Ok(None)
  }

  /** A header of `"Bearer "` followed by nothing but whitespace never authenticates. */
  lemma BlankBearerNeverAuthenticates(provider: JwtTokenProvider, blank: string, now: int, decode: string -> Option<Jws>)
    requires forall i | 0 <= i < |blank| :: IsWhitespace(blank[i])
    ensures AuthenticationFor(provider, Some(BEARER_PREFIX + blank), now, decode) == Ok(None)
  {
    ResolveBearer(blank);
  }

  /** An unexpired access token of ours, presented as a bearer token, authenticates as its principal. */
  lemma IssuedTokenAuthenticates(provider: JwtTokenProvider, p: Principal, issuedAt: int, token: string, now: int, decode: string -> Option<Jws>)
    requires decode(token) == Some(Jws(AccessClaims(p, issuedAt, ExpiryOf(provider, issuedAt)), provider.signingKey))
    requires now <= ExpiryOf(provider, issuedAt)
    requires HasTextIn(token)
    ensures AuthenticationFor(provider, Some(BEARER_PREFIX + token), now, decode) == Ok(Some(Authentication(p, None, [ROLE_USER])))
  {
    ResolveBearer(token);
    ValidUntilExpiry(provider, p, issuedAt, token, now, decode);
    GetPrincipalOfIssued(provider, p, issuedAt, token, now, decode);
  }

  /** The request's security context: the authentication, if any, that later handlers see. */
  class SecurityContext {
    var authentication: Option<Authentication>

    constructor ()
      ensures authentication.None?
    {
      authentication := None;
    }
  }

  /** The rest of the filter chain; `proceeded` counts how often the request was passed on. */
  class FilterChain {
    var proceeded: nat

    constructor ()
      ensures proceeded == 0
    {
      proceeded := 0;
    }

    method DoFilter()
      modifies this
      ensures proceeded == old(proceeded) + 1
    {
      proceeded := proceeded + 1;
    }
  }

  /**
   * `doFilterInternal`: authenticate when the bearer token has text and validates, then pass
   * the request on exactly once, authenticated or not.
   */
  method DoFilterInternal(provider: JwtTokenProvider, authorization: Option<string>, now: int, decode: string -> Option<Jws>,
                          context: SecurityContext, chain: FilterChain)
    returns (outcome: Outcome<JwtError>)
    modifies context, chain
    ensures match AuthenticationFor(provider, authorization, now, decode)
      case Ok(None) =>
        outcome.Pass? && context.authentication == old(context.authentication) && chain.proceeded == old(chain.proceeded) + 1
      case Ok(Some(a)) =>
        outcome.Pass? && context.authentication == Some(a) && chain.proceeded == old(chain.proceeded) + 1
      case Err(e) =>
        outcome == Fail(e) && context.authentication == old(context.authentication) && chain.proceeded == old(chain.proceeded)
  {
    var token := ResolveToken(authorization);
    if HasText(token) && ValidateToken(provider, token.value, now, decode) {
      var principal := GetPrincipal(provider, token.value, now, decode);
      if principal.Err? {
        return Fail(principal.error);
      }
      context.authentication := Some(Authentication(principal.value, None, Authorities(principal.value)));
    }
    chain.DoFilter();
    outcome := Pass;
  }
}
