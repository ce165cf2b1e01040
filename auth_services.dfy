/**
 * `AuthService`: the three ways to obtain tokens (trusted issuance, Google login, refresh)
 * and the profile read-back, sequenced over the user service, the token provider and the
 * refresh-token store.
 */
module AuthServices {
  import opened Wrappers
  import opened JavaText
  import opened Principals
  import opened AccessTokens
  import opened Users
  import opened UserServices
  import opened RefreshTokens
  import opened GoogleOAuth

  /** `AuthRequest`: the caller vouches for all four fields. */
  datatype AuthRequest = AuthRequest(userId: Option<Long>, providerId: Option<string>, name: Option<string>, nationality: Option<string>)

  /** `GoogleAuthCodeRequest`. */
  datatype GoogleAuthCodeRequest = GoogleAuthCodeRequest(code: Option<string>, redirectUri: Option<string>)

  /** `RefreshTokenRequest`. */
  datatype RefreshTokenRequest = RefreshTokenRequest(refreshToken: Option<string>)

  /** `AuthResponse`: the signed access token and, except for trusted issuance, a refresh token. */
  datatype AuthResponse = AuthResponse(accessToken: Jws, refreshToken: Option<string>)

  /** `UserInfoResponse`. */
  datatype UserInfoResponse = UserInfoResponse(userId: Option<Long>, name: Option<string>, nationality: Option<string>, providerId: Option<string>)

  /** How a flow fails: the `UnauthorizedException`, or an exception from a collaborator. */
  datatype AuthError =
    | Unauthorized(message: string)
    | OAuth(oauthError: OAuthError)
    | Persistence(dbError: DbError)
    | MalformedStoredToken

  const INVALID_REFRESH_TOKEN: string := "Invalid refresh token"

  /** `principalOf`: id and provider id from the user, the name falling back to the email, no nationality. */
  function PrincipalOf(user: UserRow): (p: Principal)
    ensures p.userId == user.id && p.providerId == user.providerId && p.nationality.None?
    ensures user.name.Some? ==> p.name == user.name
    ensures user.name.None? ==> p.name == user.email
  {
    Principal(user.id, if user.name.Some? then user.name else user.email, None, user.providerId)
  }

  /** `me`: no principal, no answer; otherwise its four fields, unchanged. */
  function Me(principal: Option<Principal>): (r: Option<UserInfoResponse>)
    ensures principal.None? <==> r.None?
    ensures r.Some? ==>
      && r.value.userId == principal.value.userId && r.value.name == principal.value.name
      && r.value.nationality == principal.value.nationality && r.value.providerId == principal.value.providerId
  {
    match principal
    case None => None
    case Some(p) => Some(UserInfoResponse(p.userId, p.name, p.nationality, p.providerId))
  }

  /** A refresh token the request does not carry is looked up under the text `null`. */
  function TokenText(refreshToken: Option<string>): string {
    if refreshToken.Some? then refreshToken.value else "null"
  }

  class AuthService {
    const jwtTokenProvider: JwtTokenProvider
    const googleOAuthClient: GoogleOAuthClient
    const userService: UserService
    const refreshTokenService: RefreshTokenService

    /** Both services work on the one user repository, whose constraints hold. */
    ghost predicate Valid()
      reads userService.repository, userService.repository.users.Values
    {
      && refreshTokenService.userRepository == userService.repository
      && userService.repository.Valid()
    }

    constructor (
      jwtTokenProvider: JwtTokenProvider, googleOAuthClient: GoogleOAuthClient,
      userService: UserService, refreshTokenService: RefreshTokenService)
      ensures this.jwtTokenProvider == jwtTokenProvider && this.googleOAuthClient == googleOAuthClient
      ensures this.userService == userService && this.refreshTokenService == refreshTokenService
    {
      this.jwtTokenProvider := jwtTokenProvider;
      this.googleOAuthClient := googleOAuthClient;
      this.userService := userService;
      this.refreshTokenService := refreshTokenService;
    }

    /**
     * `issueToken`: an access token for exactly the principal the request describes, and no
     * refresh token.
     */
    method IssueToken(request: AuthRequest, now: int) returns (response: AuthResponse)
      ensures response.refreshToken.None?
      ensures response.accessToken.signedWith == jwtTokenProvider.signingKey
      ensures PrincipalFromClaims(response.accessToken.claims) ==
        Ok(Principal(request.userId, request.name, request.nationality, request.providerId))
      ensures Lookup(response.accessToken.claims, "exp") == Some(Number(ExpiryOf(jwtTokenProvider, now)))
    {
      var principal := Principal(request.userId, request.name, request.nationality, request.providerId);
      var token := CreateAccessToken(jwtTokenProvider, principal, now);
      PrincipalRoundTrip(principal, now, ExpiryOf(jwtTokenProvider, now));
      AccessClaimsLayout(principal, now, ExpiryOf(jwtTokenProvider, now));
      response := AuthResponse(token, None);
    }

    /**
     * The state and result the Google sign-in leaves, from the table `rows0` (next identity
     * value `nextId0`) and the refresh-token store `store0` it started from. A refused upsert
     * is its database error and changes nothing. Otherwise the table is the upserted one, the
     * access token reads back as the principal of the upserted user's row, and the fresh
     * refresh token is stored for that user and redeems as current.
     */
    ghost predicate SignedIn(
      r: Result<AuthResponse, AuthError>, rows0: Rows, nextId0: nat, store0: Store,
      profile: SocialUserProfile, freshToken: string)
      reads this, userService.repository, userService.repository.users.Values, refreshTokenService
    {
      match Upserted(rows0, nextId0, profile)
      case Err(e) =>
        && r == Err(Persistence(e))
        && userService.repository.Rows() == rows0 && refreshTokenService.store == store0
      case Ok(u) =>
        && userService.repository.Rows() == u.rows && userService.repository.nextId == u.nextId
        && r.Ok? && r.value.refreshToken == Some(freshToken)
        && r.value.accessToken.signedWith == jwtTokenProvider.signingKey
        && PrincipalFromClaims(r.value.accessToken.claims) == Ok(PrincipalOf(u.rows[u.id]))
        && refreshTokenService.store == Issued(store0, Some(u.id), freshToken)
        && Redeem(refreshTokenService.store, freshToken) == Current(u.id)
    }

    /**
     * `loginWithGoogleAuthCode`: the code is exchanged, the Google user upserted, and both
     * tokens issued for the stored user. `freshToken` stands for the random refresh token;
     * the Google exchange's I/O is passed in as in `ExchangeAuthCode`. A failed exchange is
     * its error and changes nothing.
     */
    method LoginWithGoogleAuthCode(
      request: GoogleAuthCodeRequest, now: int, freshToken: string,
      tokenEndpoint: (string, FormBody) -> Option<TokenResponse>,
      decode: string -> Option<Jwt>,
      defaultValidator: Jwt -> seq<OAuth2Error>
    ) returns (r: Result<AuthResponse, AuthError>)
      requires Valid()
      modifies userService.repository, userService.repository.users.Values, refreshTokenService`store
      ensures Valid()
      ensures match ExchangeOutcome(googleOAuthClient, request.code, request.redirectUri, tokenEndpoint, decode, defaultValidator)
        case Err(e) =>
          && r == Err(OAuth(e))
          && userService.repository.Rows() == old(userService.repository.Rows())
          && refreshTokenService.store == old(refreshTokenService.store)
        case Ok(google) =>
          SignedIn(r, old(userService.repository.Rows()), old(userService.repository.nextId),
                   old(refreshTokenService.store), AsSocialProfile(google), freshToken)
    {
      var profile, _ := ExchangeAuthCode(googleOAuthClient, request.code, request.redirectUri, tokenEndpoint, decode, defaultValidator);
      assert userService.repository.Rows() == old(userService.repository.Rows());
      if profile.Err? {
        return Err(OAuth(profile.error));
      }
      r := SignIn(AsSocialProfile(profile.value), now, freshToken);
    }

    /** The part of the Google login after the exchange: upsert the user, then issue both tokens. */
    method SignIn(profile: SocialUserProfile, now: int, freshToken: string) returns (r: Result<AuthResponse, AuthError>)
      requires Valid()
      modifies userService.repository, userService.repository.users.Values, refreshTokenService`store
      ensures Valid()
      ensures SignedIn(r, old(userService.repository.Rows()), old(userService.repository.nextId),
                       old(refreshTokenService.store), profile, freshToken)
    {
      ghost var outcome := Upserted(userService.repository.Rows(), userService.repository.nextId, profile);
      var upserted := userService.UpsertSocialUser(profile);
      if upserted.Err? {
        return Err(Persistence(upserted.error));
      }
      var user := upserted.value;
      r := IssueBoth(user, outcome.value.id, now, freshToken);
    }

    /**
     * `refresh`: the presented token is consumed and, for a current token of an existing user,
     * replaced by a new pair. Otherwise it fails with "Invalid refresh token" and issues nothing.
     */
    method Refresh(request: RefreshTokenRequest, now: int, freshToken: string) returns (r: Result<AuthResponse, AuthError>)
      requires Valid()
      modifies refreshTokenService`store
      ensures Valid()
      ensures var token := TokenText(request.refreshToken);
        match Redeem(old(refreshTokenService.store), token)
        case Absent => r == Err(Unauthorized(INVALID_REFRESH_TOKEN)) && refreshTokenService.store == old(refreshTokenService.store)
        case Stale => r == Err(Unauthorized(INVALID_REFRESH_TOKEN)) && refreshTokenService.store == old(refreshTokenService.store)
        case Corrupt => r == Err(MalformedStoredToken) && refreshTokenService.store == old(refreshTokenService.store)
        case Current(userId) =>
          var consumed := Consumed(old(refreshTokenService.store), token);
          if userId !in userService.repository.Rows() then
            r == Err(Unauthorized(INVALID_REFRESH_TOKEN)) && refreshTokenService.store == consumed
          else
            && r.Ok? && r.value.refreshToken == Some(freshToken)
            && r.value.accessToken.signedWith == jwtTokenProvider.signingKey
            && PrincipalFromClaims(r.value.accessToken.claims) == Ok(PrincipalOf(userService.repository.Rows()[userId]))
            && refreshTokenService.store == Issued(consumed, Some(userId), freshToken)
            && Redeem(refreshTokenService.store, freshToken) == Current(userId)
            && (freshToken != token ==> Redeem(refreshTokenService.store, token) == Absent)
    {
      var token := TokenText(request.refreshToken);
      var consumed := refreshTokenService.ConsumeAndRotate(token);
      assert userService.repository.Rows() == old(userService.repository.Rows());
      if consumed.Err? {
        return Err(MalformedStoredToken);
      }
      if consumed.value.None? {
        return Err(Unauthorized(INVALID_REFRESH_TOKEN));
      }
      var user := consumed.value.value;
      ghost var userId := Redeem(old(refreshTokenService.store), token).userId;
      r := IssueBoth(user, userId, now, freshToken);
      KeysDistinct(token, freshToken, None, None);
    }

    /** The access token for a stored user: signed with our key, and reading back as the user's principal. */
    method AccessTokenFor(row: UserRow, now: int) returns (token: Jws)
      ensures token.signedWith == jwtTokenProvider.signingKey
      ensures PrincipalFromClaims(token.claims) == Ok(PrincipalOf(row))
    {
      var principal := PrincipalOf(row);
      token := CreateAccessToken(jwtTokenProvider, principal, now);
      PrincipalRoundTrip(principal, now, ExpiryOf(jwtTokenProvider, now));
    }

    /**
     * The tail both login and refresh share: an access token for the stored user `user`,
     * kept under key `id`, and a refresh token for it.
     */
    method IssueBoth(user: User, ghost id: Long, now: int, freshToken: string) returns (r: Result<AuthResponse, AuthError>)
      requires Valid() && id in userService.repository.users && userService.repository.users[id] == user
      modifies refreshTokenService`store
      ensures Valid() && userService.repository.Rows() == old(userService.repository.Rows())
      ensures id in userService.repository.Rows()
      ensures r.Ok? && r.value.refreshToken == Some(freshToken)
      ensures r.value.accessToken.signedWith == jwtTokenProvider.signingKey
      ensures PrincipalFromClaims(r.value.accessToken.claims) == Ok(PrincipalOf(userService.repository.Rows()[id]))
      ensures refreshTokenService.store == Issued(old(refreshTokenService.store), Some(id), freshToken)
      ensures Redeem(refreshTokenService.store, freshToken) == Current(id)
    {
      var accessToken := StoredUserAccessToken(user, id, now);
      var refreshToken := IssueRefresh(user, id, freshToken);
      r := Ok(AuthResponse(accessToken, Some(refreshToken)));
    }

    /** The access half of `IssueBoth`: the token of the user stored under `id`. */
    method StoredUserAccessToken(user: User, ghost id: Long, now: int) returns (token: Jws)
      requires Valid() && id in userService.repository.users && userService.repository.users[id] == user
      ensures user.id == Some(id) && id in userService.repository.Rows()
      ensures token.signedWith == jwtTokenProvider.signingKey
      ensures PrincipalFromClaims(token.claims) == Ok(PrincipalOf(userService.repository.Rows()[id]))
    {
      userService.repository.StoredRow(id);
      token := AccessTokenFor(user.Row(), now);
    }

    /** The refresh half of `IssueBoth`: only the token store changes. */
    method IssueRefresh(user: User, ghost id: Long, freshToken: string) returns (refreshToken: string)
      requires Valid() && user.id == Some(id)
      modifies refreshTokenService`store
      ensures Valid() && userService.repository.Rows() == old(userService.repository.Rows())
      ensures refreshToken == freshToken
      ensures refreshTokenService.store == Issued(old(refreshTokenService.store), Some(id), freshToken)
      ensures Redeem(refreshTokenService.store, freshToken) == Current(id)
    {
      refreshToken := refreshTokenService.Issue(user, freshToken);
    }
  }
}
