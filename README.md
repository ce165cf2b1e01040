# Authentication service core, modelled in Dafny

This project models the core of a Spring Boot authentication service. Users sign in with a Google
authorization code. The service stores them in a `users` table and issues two tokens:

- a short-lived access token, a JSON Web Token signed with HMAC-SHA256;
- a long-lived refresh token, kept in Redis and rotated on every use.

Modules, one per part of the source:

- `wrappers.dfy`: `Option` for Java's nullable references; `Result` and `Outcome` for its exceptions.
- `java_text.dfy`: the Java and Spring text primitives the code relies on.
  These are `Character.isWhitespace`, `StringUtils.hasText`, `String.trim`, `String.indexOf`,
  `String.split` on one character, `Long.toString` and `Long.parseLong`.
  A `long` is the subset type `Long`, bounded by `LONG_MIN` and `LONG_MAX`.
- `principals.dfy`: the `JwtUserPrincipal` record.
- `access_tokens.dfy`: `JwtTokenProvider`. It covers the claim builder, validation and reading a principal back.
- `bearer_auth.dfy`: `JwtAuthenticationFilter`. It covers the bearer header, the security context and the filter chain.
- `google_oauth.dfy`: `GoogleOAuthClient`. It covers the guards, the token-request form, the ID-token validators and the exchange.
- `security_configuration.dfy`: `splitCsv` and the CORS settings of `SecurityConfig`.
- `users.dfy`: the `User` entity, as a class updated in place.
  - The `users` table's constraints, as pure functions over rows: `provider_id` not null and unique, `email` unique, identity keys.
  - `UserRepository`, as a class holding the managed entities.
  - `Upserted`, the reference definition of an upsert.
- `user_services.dfy`: `UserService.upsertSocialUser`.
- `refresh_tokens.dfy`: `RefreshTokenService`.
  - The Redis store is a `map<string, string>` field.
  - `Issued`, `Redeem`, `Consumed` and `Incremented` specify its operations.
  - `VersionsBounded` is the invariant that makes revocation work.
- `auth_services.dfy`: `AuthService`. Its flows are issue, Google login, refresh and `me`.

What the model makes explicit:

- **Parameters for the things it cannot see.** These are:
  - the clock (`now`, in seconds);
  - the random UUID of a refresh token (`token` / `freshToken`);
  - the JWT compact-form decoder and its signature (`decode`, with a key tag in `Jws.signedWith`);
  - Google's token endpoint, its key-set decoder and the default timestamp validator.
- **Exceptions as error values.**
  - Java's `NumberFormatException` becomes `None` from `ParseLong` and `Err` from `ConsumeAndRotate`.
  - A refused database write becomes `DbError`.
  - An `UnauthorizedException` becomes `AuthError.Unauthorized`.

## Model

Source paths are relative to the repository root.

| member | source | states |
|---|---|---|
| JavaText.IndexOf | src/main/java/com/example/auth/service/RefreshTokenService.java:92 | the first position of the character, or -1 exactly when it is absent; no earlier position holds it |
| JavaText.TrimStartIndex | src/main/java/com/example/auth/config/SecurityConfig.java:98 | the first position, from the start, that holds a character above U+0020 (or the end); everything skipped is at or below U+0020 |
| JavaText.TrimEndIndex | src/main/java/com/example/auth/config/SecurityConfig.java:98 | the end of the text once trailing characters at or below U+0020 are dropped, never before the start index |
| JavaText.Trim | src/main/java/com/example/auth/config/SecurityConfig.java:98 | the result is the input with a prefix and a suffix removed; every removed character is at or below U+0020, and neither end of the result is |
| JavaText.TrimKeepsOut | src/main/java/com/example/auth/config/SecurityConfig.java:98 | trimming never introduces a character that was not in the input |
| JavaText.TrimmedIsFixed | src/main/java/com/example/auth/config/SecurityConfig.java:98 | an already trimmed string is left unchanged |
| JavaText.SplitOnPieces | src/main/java/com/example/auth/config/SecurityConfig.java:97 | no piece of a split contains the separator |
| JavaText.DropTrailingEmpty | src/main/java/com/example/auth/config/SecurityConfig.java:97 | `split` with limit 0 keeps a prefix of the pieces whose last piece is not empty, and every piece it drops is empty |
| JavaText.JavaSplit | src/main/java/com/example/auth/config/SecurityConfig.java:97 | text without the separator is returned as the only piece; otherwise the last piece kept is never empty |
| JavaText.JavaSplitPieces | src/main/java/com/example/auth/config/SecurityConfig.java:97 | no piece of `value.split(",")` contains a comma |
| JavaText.SplitJoin | src/main/java/com/example/auth/config/SecurityConfig.java:97 | splitting separator-free pieces joined by the separator gives back the same pieces |
| JavaText.JoinSplit | src/main/java/com/example/auth/config/SecurityConfig.java:97 | joining the pieces of a split gives back the original text, so nothing is lost and the order is kept |
| JavaText.LongText | src/main/java/com/example/auth/service/RefreshTokenService.java:88 | a `long` is written as an optional `-` followed by decimal digits |
| JavaText.ParseLong | src/main/java/com/example/auth/service/RefreshTokenService.java:81 | only an optional sign followed by digits, within the `long` range, parses |
| JavaText.ParseLongText | src/main/java/com/example/auth/service/RefreshTokenService.java:87-100 | every `long` parses back from its own text |
| JavaText.LongTextInjective | src/main/java/com/example/auth/service/RefreshTokenService.java:71-73 | two ids with the same text are the same id |
| Principals.Authorities | src/main/java/com/example/auth/jwt/JwtUserPrincipal.java:16-22 | every principal has exactly one authority, `ROLE_USER` |
| Principals.Username | src/main/java/com/example/auth/jwt/JwtUserPrincipal.java:29-32 | the user name is the provider identifier |
| Principals.Password | src/main/java/com/example/auth/jwt/JwtUserPrincipal.java:24-27 | there is never a password |
| Principals.PrincipalEquality | src/main/java/com/example/auth/jwt/JwtUserPrincipal.java:9-14 | two principals are equal exactly when all four components are equal |
| AccessTokens.NewJwtTokenProvider | src/main/java/com/example/auth/jwt/JwtTokenProvider.java:19-25 | the provider is built exactly when the secret has at least 32 bytes; otherwise the weak-key error |
| AccessTokens.WithClaim | src/main/java/com/example/auth/jwt/JwtTokenProvider.java:31-34 | a builder claim with a null value leaves the claim out |
| AccessTokens.CreateAccessToken | src/main/java/com/example/auth/jwt/JwtTokenProvider.java:27-43 | the token is signed with the provider's key, and its claims are the builder's claims for the principal, `now` and `now` plus the validity |
| AccessTokens.AccessClaimsLayout | src/main/java/com/example/auth/jwt/JwtTokenProvider.java:27-43 | where each claim sits: `sub` and `providerId` hold the provider id; `name` and `nationality` hold theirs; `iat` and `exp` hold the times; `jti` is present exactly for a user with an id; there is no `nbf` |
| AccessTokens.DateSeconds | src/main/java/com/example/auth/jwt/JwtTokenProvider.java:47-50 | a numeric date is its own number of seconds; a text date reads exactly when `Long.parseLong` accepts it, as that many seconds |
| AccessTokens.ParseClaimsJws | src/main/java/com/example/auth/jwt/JwtTokenProvider.java:47-50 | the claims are returned exactly when the token decodes, carries our signature, its `exp` and `nbf` (if present) read as dates, it has not expired and it is not before its `nbf`; every failure is the invalid-token error |
| AccessTokens.ValidateToken | src/main/java/com/example/auth/jwt/JwtTokenProvider.java:45-55 | valid exactly when parsing succeeds; a failure is `false`, never an exception |
| AccessTokens.PrincipalFromClaims | src/main/java/com/example/auth/jwt/JwtTokenProvider.java:64-69 | Reading succeeds exactly when `jti`, if present, parses as a `long` and none of `name`, `nationality` and `providerId` is a number. On success `providerId`, `name` and `nationality` are the text of their claims, and `userId` is present exactly when `jti` is, holding its parsed value. A malformed `jti` is the number-format error; any other failure names a claim of the wrong type. |
| AccessTokens.GetPrincipal | src/main/java/com/example/auth/jwt/JwtTokenProvider.java:57-70 | an invalid token gives the invalid-token error; a success is the principal of the decoded claims |
| AccessTokens.PrincipalRoundTrip | src/main/java/com/example/auth/jwt/JwtTokenProvider.java:27-70 | the claims of an issued token read back as exactly the principal they were made from |
| AccessTokens.UsernameIsSubject | src/main/java/com/example/auth/jwt/JwtTokenProvider.java:31-34 | the token's `sub` is the principal's user name, and the principal read back has the same user name |
| AccessTokens.ValidUntilExpiry | src/main/java/com/example/auth/jwt/JwtTokenProvider.java:27-55 | a token we issued validates exactly up to and including its expiry second |
| AccessTokens.GetPrincipalOfParsed | src/main/java/com/example/auth/jwt/JwtTokenProvider.java:57-70 | a token that parses reads as the principal of its claims |
| AccessTokens.GetPrincipalOfIssued | src/main/java/com/example/auth/jwt/JwtTokenProvider.java:27-70 | an unexpired token we issued reads back as its principal |
| AccessTokens.ForeignSignatureRejected | src/main/java/com/example/auth/jwt/JwtTokenProvider.java:45-55 | a token signed with any other key never validates |
| AccessTokens.PrematureRejected | src/main/java/com/example/auth/jwt/JwtTokenProvider.java:45-55 | a correctly signed token whose `nbf` lies after `now` does not validate |
| AccessTokens.TextExpiryAsSeconds | src/main/java/com/example/auth/jwt/JwtTokenProvider.java:45-55 | an `exp` written as the decimal text of a `long` validates exactly up to that second, as a numeric one does |
| BearerAuth.ResolveToken | src/main/java/com/example/auth/jwt/JwtAuthenticationFilter.java:40-46 | a token is found exactly when the header has text and starts with `Bearer `; the header is then the prefix followed by the token |
| BearerAuth.ResolveBearer | src/main/java/com/example/auth/jwt/JwtAuthenticationFilter.java:40-46 | whatever follows `Bearer ` is returned untouched |
| BearerAuth.LowerCaseSchemeRejected | src/main/java/com/example/auth/jwt/JwtAuthenticationFilter.java:42 | the prefix check is case-sensitive: `bearer ` gives no token |
| BearerAuth.AuthenticationFor | src/main/java/com/example/auth/jwt/JwtAuthenticationFilter.java:22-38 | authentication happens only for a token that has text and validates; it carries the token's principal, no credentials and that principal's authorities |
| BearerAuth.BlankBearerNeverAuthenticates | src/main/java/com/example/auth/jwt/JwtAuthenticationFilter.java:26-27 | `Bearer ` followed only by whitespace never authenticates |
| BearerAuth.IssuedTokenAuthenticates | src/main/java/com/example/auth/jwt/JwtAuthenticationFilter.java:22-38 | an unexpired access token of ours, sent as a bearer token, authenticates as its principal with `ROLE_USER` |
| BearerAuth.FilterChain.DoFilter | src/main/java/com/example/auth/jwt/JwtAuthenticationFilter.java:37 | the request is passed on once |
| BearerAuth.DoFilterInternal | src/main/java/com/example/auth/jwt/JwtAuthenticationFilter.java:22-38 | no token or an invalid token leaves the context as it was; a valid token installs its authentication; in both cases the chain proceeds exactly once; an exception from reading the principal stops the request |
| GoogleOAuth.NewGoogleOAuthClient | src/main/java/com/example/auth/google/GoogleOAuthClient.java:37-48 | the settings are kept as given; the token URI defaults to Google's endpoint |
| GoogleOAuth.IssuerValidator | src/main/java/com/example/auth/google/GoogleOAuthClient.java:125-135 | a token passes exactly when its issuer is one of Google's two spellings; otherwise the error is "Invalid Google issuer" |
| GoogleOAuth.AudienceValidator | src/main/java/com/example/auth/google/GoogleOAuthClient.java:105-123 | a token passes exactly when no audience is configured or its audience list contains it; otherwise the error is the audience-mismatch error |
| GoogleOAuth.Validate | src/main/java/com/example/auth/google/GoogleOAuthClient.java:90-99 | the delegating validator reports no error exactly when the default validator accepts, the issuer is one of Google's two, and the audience check passes |
| GoogleOAuth.Preconditions | src/main/java/com/example/auth/google/GoogleOAuthClient.java:51-59 | The guards run in source order. The exchange goes ahead exactly when there is a code, the configuration is complete, and any requested redirect URI equals the registered one. A code and a complete configuration with a different requested redirect URI is the redirect-mismatch error. |
| GoogleOAuth.TokenRequestBody | src/main/java/com/example/auth/google/GoogleOAuthClient.java:61-66 | the form has five fields, each key once with its value, and `grant_type=authorization_code`; it is exactly `TokenRequestForm` of the code and the client settings |
| GoogleOAuth.FormValuesFromFields | src/main/java/com/example/auth/google/GoogleOAuthClient.java:61-66 | every value a key holds is a field added under that key |
| GoogleOAuth.FormValuesAdd | src/main/java/com/example/auth/google/GoogleOAuthClient.java:61-66 | `add` appends the value to its key's values and leaves every other key's values unchanged |
| GoogleOAuth.AsSocialProfile | src/main/java/com/example/auth/client/google/GoogleUserProfile.java:7-21 | a Google profile is a social profile with provider GOOGLE, `sub` as the provider id, and its email and name |
| GoogleOAuth.ExchangeOutcome | src/main/java/com/example/auth/google/GoogleOAuthClient.java:50-88 | a failed guard is its own error; a profile is returned only after the guards pass, the endpoint answers the five-field form with an ID token, the token decodes, its issuer is Google's and its audience names the client id; the profile is then `sub`, `email` and `name` of that token |
| GoogleOAuth.ExchangeAuthCode | src/main/java/com/example/auth/google/GoogleOAuthClient.java:50-88 | The result is `ExchangeOutcome`. A failed guard makes no request and returns its error. Otherwise the five-field form is posted, and then: a missing body or ID token is `IllegalState`; an undecodable token is `BadJwt`; any validator error is `JwtValidation` carrying those errors; otherwise the result is `sub`, `email` and `name` from the token. |
| GoogleOAuth.ExchangeTrustsOnlyGoogle | src/main/java/com/example/auth/google/GoogleOAuthClient.java:90-135 | a profile is accepted only from a token whose issuer is Google's and whose audience names the client id |
| SecurityConfiguration.TrimmedNonBlank | src/main/java/com/example/auth/config/SecurityConfig.java:98-100 | trimming and filtering never adds entries |
| SecurityConfiguration.TrimmedNonBlankEntries | src/main/java/com/example/auth/config/SecurityConfig.java:98-100 | every entry kept is trimmed and has text |
| SecurityConfiguration.TrimmedNonBlankCommaFree | src/main/java/com/example/auth/config/SecurityConfig.java:98-100 | comma-free pieces stay comma-free after trimming and filtering |
| SecurityConfiguration.SplitCsv | src/main/java/com/example/auth/config/SecurityConfig.java:93-101 | null or blank gives the empty list; every entry is trimmed, has text and holds no comma |
| SecurityConfiguration.CleanEntriesKept | src/main/java/com/example/auth/config/SecurityConfig.java:98-100 | clean entries pass the trim-and-filter step unchanged and in order |
| SecurityConfiguration.SplitCsvJoin | src/main/java/com/example/auth/config/SecurityConfig.java:93-101 | a comma-joined list of clean entries splits back into the same list |
| SecurityConfiguration.SplitCsvBlank | src/main/java/com/example/auth/config/SecurityConfig.java:94-96 | a missing or all-whitespace value is the empty list |
| SecurityConfiguration.TrimmedNonBlankIndices | src/main/java/com/example/auth/config/SecurityConfig.java:98-100 | the trimming step keeps, in their original order, the trimmed form of exactly the pieces that have text once trimmed |
| SecurityConfiguration.SplitCsvSelects | src/main/java/com/example/auth/config/SecurityConfig.java:93-101 | for any value with text, `splitCsv` is the pieces of `split(",")` whose trimmed form has text, each trimmed, in order, and nothing else |
| SecurityConfiguration.CorsConfiguration.constructor | src/main/java/com/example/auth/config/SecurityConfig.java:75 | a new configuration has every setting unset |
| SecurityConfiguration.CorsConfigurationSource | src/main/java/com/example/auth/config/SecurityConfig.java:73-91 | Origins and origin patterns are set only when their lists are not empty. Methods, headers and credentials are fixed. The configuration is registered for `/**`. |
| Users.WithProfile | src/main/java/com/example/auth/entity/User.java:55-58 | name and email are replaced; id, provider and provider id are kept |
| Users.WithProfileIdempotent | src/main/java/com/example/auth/entity/User.java:55-58 | applying the same profile twice is the same as applying it once |
| Users.NewRow | src/main/java/com/example/auth/service/UserService.java:27-29 | a new user has no id and carries the profile's provider, provider id, email and name |
| Users.Upserted | src/main/java/com/example/auth/service/UserService.java:19-30 | a successful upsert returns a key that holds a row with the profile's identity, name and email, and the table's keys become the old keys plus that one |
| Users.User.constructor | src/main/java/com/example/auth/entity/User.java:48-53 | a new entity has no id and the given fields |
| Users.User.UpdateProfile | src/main/java/com/example/auth/entity/User.java:55-58 | the entity's row becomes `WithProfile` of its old row |
| Users.FindByIdentity | src/main/java/com/example/auth/repository/UserRepository.java:10 | a found key holds the identity; no key is found exactly when no row holds it |
| Users.Inserted | src/main/java/com/example/auth/entity/User.java:25-40 | an insert succeeds exactly when the provider id is present and unused, the email is unused and the identity column is not exhausted |
| Users.InsertedKeepsOthers | src/main/java/com/example/auth/entity/User.java:25-27 | a successful insert stores the row under the next identity value and keeps every other row |
| Users.InsertedConsistent | src/main/java/com/example/auth/entity/User.java:25-40 | an insert keeps the table's constraints |
| Users.UpsertedConsistent | src/main/java/com/example/auth/service/UserService.java:19-30 | an upsert keeps the table's constraints |
| Users.UpsertedRow | src/main/java/com/example/auth/service/UserService.java:19-30 | The returned row has the profile's identity, name and email. Its key is the existing user's key exactly when a user with that identity existed; otherwise it is a fresh key. |
| Users.UpsertedOthersUnchanged | src/main/java/com/example/auth/service/UserService.java:19-30 | an upsert removes no row and changes no row other than the returned user's |
| Users.UpsertedFails | src/main/java/com/example/auth/service/UserService.java:19-30 | An upsert fails exactly when the write breaks a constraint: for a new user: null or used provider id, used email, or exhausted identity; for an existing user: an email already used by another row. |
| Users.UpsertedTwice | src/main/java/com/example/auth/service/UserService.java:19-30 | after an upsert exactly one row has the identity; upserting the same profile again changes nothing and returns the same user |
| Users.UserRepository.constructor | src/main/java/com/example/auth/repository/UserRepository.java:9 | a new repository is an empty, consistent table whose identity starts at 1 |
| Users.UserRepository.FindById | src/main/java/com/example/auth/service/RefreshTokenService.java:53 | the entity stored under the key, or empty exactly when there is none |
| Users.UserRepository.FindByProviderAndProviderId | src/main/java/com/example/auth/repository/UserRepository.java:10 | the stored entity with that identity, or empty exactly when the table has none |
| Users.UserRepository.EmailInUse | src/main/java/com/example/auth/entity/User.java:36-37 | true exactly when another row already holds the non-null email |
| Users.UserRepository.Save | src/main/java/com/example/auth/service/UserService.java:27-29 | the table afterwards is `Inserted` of the old table: the entity gets the next id, or the write is refused and nothing changes |
| Users.UserRepository.Refusal | src/main/java/com/example/auth/entity/User.java:29-37 | the constraint a new row breaks, in the order the insert checks them; none exactly when the insert succeeds |
| Users.UserRepository.Persist | src/main/java/com/example/auth/entity/User.java:25-27 | the entity gets the next identity value and joins the table; no other entity changes |
| UserServices.UserService.UpsertSocialUser | src/main/java/com/example/auth/service/UserService.java:19-30 | The table ends as `Upserted` says and the constraints still hold. An existing user is updated in place and returned as the same entity. The user returned is the one stored under its own id. A refused write changes nothing. |
| UserServices.UserService.UpdateExisting | src/main/java/com/example/auth/service/UserService.java:22-26 | the existing entity is updated in place and returned, or the email constraint refuses and nothing changes |
| UserServices.UserService.SaveNew | src/main/java/com/example/auth/service/UserService.java:27-29 | a new entity is saved as `Upserted` says, or refused with nothing changed |
| UserServices.UserService.UpdateStored | src/main/java/com/example/auth/service/UserService.java:23-26 | updating the stored entity changes only its own row |
| RefreshTokens.IdText | src/main/java/com/example/auth/service/RefreshTokenService.java:71-73 | a null id is written as `null`; any other id parses back |
| RefreshTokens.Issued | src/main/java/com/example/auth/service/RefreshTokenService.java:33-38 | `issue` adds or overwrites only the token's own key; every other key keeps its value |
| RefreshTokens.Redeem | src/main/java/com/example/auth/service/RefreshTokenService.java:40-54 | a token is absent exactly when its key is missing, corrupt exactly when its value does not parse, and current exactly when its recorded version equals its owner's current version, for that owner |
| RefreshTokens.Incremented | src/main/java/com/example/auth/service/RefreshTokenService.java:60-65 | `INCR` succeeds exactly when the counter is missing, or holds a canonical integer below `Long.MAX_VALUE` |
| RefreshTokens.IncrementedSucceeds | src/main/java/com/example/auth/service/RefreshTokenService.java:60-65 | a missing counter, or one written by `Long.toString` below the maximum, always increments |
| RefreshTokens.EmptyStoreBounded | src/main/java/com/example/auth/service/RefreshTokenService.java:33-65 | the empty store, where the service starts, satisfies the version bound that `issue`, `consumeAndRotate` and `revokeAll` preserve |
| RefreshTokens.TokenKey | src/main/java/com/example/auth/service/RefreshTokenService.java:67-69 | the key is `refresh:` followed by the token unchanged |
| RefreshTokens.UserVersionKey | src/main/java/com/example/auth/service/RefreshTokenService.java:71-73 | the key is `refreshver:` followed by the id's text |
| RefreshTokens.KeysDistinct | src/main/java/com/example/auth/service/RefreshTokenService.java:67-73 | token keys and version keys never collide, and each key family is one-to-one |
| RefreshTokens.ParseValue | src/main/java/com/example/auth/service/RefreshTokenService.java:91-100 | a value without `:` is the legacy form, read as version 0 |
| RefreshTokens.ValueRoundTrip | src/main/java/com/example/auth/service/RefreshTokenService.java:87-100 | a written value parses back to the same owner and version |
| RefreshTokens.NullOwnerUnreadable | src/main/java/com/example/auth/service/RefreshTokenService.java:87-100 | a value written for a null id never parses |
| RefreshTokens.CurrentVersion | src/main/java/com/example/auth/service/RefreshTokenService.java:75-85 | a counter that is absent or does not parse reads as version 0 |
| RefreshTokens.Consumed | src/main/java/com/example/auth/service/RefreshTokenService.java:40-54 | the token's key is deleted only when the token is current; otherwise the store is untouched |
| RefreshTokens.RedisInteger | src/main/java/com/example/auth/service/RefreshTokenService.java:64 | `INCR` accepts a counter exactly when it is the canonical decimal text of a `long` |
| RefreshTokens.RedisIntegerOfLongText | src/main/java/com/example/auth/service/RefreshTokenService.java:64 | every `long` written as text reads back as itself |
| RefreshTokens.IssueThenRedeem | src/main/java/com/example/auth/service/RefreshTokenService.java:33-54 | a token issued to a user with an id is current for that user, and issuing changes no version |
| RefreshTokens.IssueNullOwner | src/main/java/com/example/auth/service/RefreshTokenService.java:33-38 | a token issued to a user without an id can never be redeemed |
| RefreshTokens.RedeemOnce | src/main/java/com/example/auth/service/RefreshTokenService.java:40-54 | after a token is consumed, redeeming it again finds nothing |
| RefreshTokens.IncrementedRaises | src/main/java/com/example/auth/service/RefreshTokenService.java:60-65 | `revokeAll` raises the user's version by exactly one |
| RefreshTokens.IncrementedTouchesOneKey | src/main/java/com/example/auth/service/RefreshTokenService.java:60-65 | `revokeAll` writes only the user's own counter |
| RefreshTokens.IssuedKeepsVersion | src/main/java/com/example/auth/service/RefreshTokenService.java:33-38 | issuing a token leaves every user's current version as it was |
| RefreshTokens.ConsumedKeepsVersion | src/main/java/com/example/auth/service/RefreshTokenService.java:40-54 | consuming a token leaves every user's current version as it was |
| RefreshTokens.IssuedKeepsBound | src/main/java/com/example/auth/service/RefreshTokenService.java:33-38 | issuing keeps every stored version at or below its owner's current version |
| RefreshTokens.ConsumedKeepsBound | src/main/java/com/example/auth/service/RefreshTokenService.java:40-54 | consuming keeps that bound |
| RefreshTokens.IncrementedVersions | src/main/java/com/example/auth/service/RefreshTokenService.java:60-65 | after `revokeAll`, the user's version is one higher and every other user's is the same |
| RefreshTokens.IncrementedKeepsBound | src/main/java/com/example/auth/service/RefreshTokenService.java:60-65 | `revokeAll` keeps the bound |
| RefreshTokens.RevokeInvalidates | src/main/java/com/example/auth/service/RefreshTokenService.java:56-65 | after `revokeAll`, no token stored for that user is current any more |
| RefreshTokens.RevokeSparesOthers | src/main/java/com/example/auth/service/RefreshTokenService.java:60-65 | `revokeAll` does not change how any other user's token redeems |
| RefreshTokens.RefreshTokenService.constructor | src/main/java/com/example/auth/service/RefreshTokenService.java:23-31 | the service keeps its store, repository and validity |
| RefreshTokens.RefreshTokenService.Issue | src/main/java/com/example/auth/service/RefreshTokenService.java:33-38 | returns the token; the store becomes `Issued` of the old store |
| RefreshTokens.RefreshTokenService.ConsumeAndRotate | src/main/java/com/example/auth/service/RefreshTokenService.java:40-54 | The store becomes `Consumed` of the old store. The result is: empty for a missing or stale token; the parse error for a corrupt value; `findById` of the owner for a current token. |
| RefreshTokens.RefreshTokenService.RevokeAll | src/main/java/com/example/auth/service/RefreshTokenService.java:60-65 | a null id does nothing; otherwise the store becomes `Incremented` of the old store, or the Redis error leaves it unchanged |
| AuthServices.PrincipalOf | src/main/java/com/example/auth/service/AuthService.java:72-79 | the principal has the user's id and provider id and no nationality; its name is the user's name, or the email when the name is null |
| AuthServices.Me | src/main/java/com/example/auth/service/AuthService.java:65-70 | no principal gives no answer; otherwise its four fields, unchanged |
| AuthServices.AuthService.constructor | src/main/java/com/example/auth/service/AuthService.java:24-34 | the service keeps its four collaborators |
| AuthServices.AuthService.IssueToken | src/main/java/com/example/auth/service/AuthService.java:36-45 | no refresh token; an access token signed with our key that reads back as exactly the requested principal and expires after the configured validity |
| AuthServices.AuthService.LoginWithGoogleAuthCode | src/main/java/com/example/auth/service/AuthService.java:47-54 | The outcome follows `ExchangeOutcome`. An exchange error is returned with the table and store unchanged. A profile is signed in as `SignIn` states, with the profile converted to a social profile. |
| AuthServices.AuthService.SignIn | src/main/java/com/example/auth/service/AuthService.java:49-53 | The outcome follows `Upserted` of the old table. A refused write is a persistence error with the table and store unchanged. Otherwise the table becomes the upserted one, the access token is signed with our key and reads back as `principalOf` of the stored row, and the store becomes `Issued` for that user and the fresh token, which is current for the user. |
| AuthServices.AuthService.Refresh | src/main/java/com/example/auth/service/AuthService.java:56-63 | The outcome follows `Redeem` of the old store: a missing or stale token is "Invalid refresh token", with the store untouched; a corrupt value is the parse error; a current token is consumed. Then either its user is gone ("Invalid refresh token"), or a new pair is issued: the access token is signed with our key, the old token no longer redeems and the new one is current. |
| AuthServices.AuthService.IssueBoth | src/main/java/com/example/auth/service/AuthService.java:59-62 | both tokens for the user stored under `id`: the table is unchanged, the access token is signed with our key and reads back as `principalOf` of the row, and the store becomes `Issued` with the new refresh token current for the user |
| AuthServices.AuthService.AccessTokenFor | src/main/java/com/example/auth/service/AuthService.java:72-79 | an access token signed with our key whose claims read back as `principalOf` of the row |
| AuthServices.AuthService.StoredUserAccessToken | src/main/java/com/example/auth/service/AuthService.java:59-60 | the stored user carries its key as id, and its access token reads back as `principalOf` of its row |
| AuthServices.AuthService.IssueRefresh | src/main/java/com/example/auth/service/AuthService.java:61 | the table is unchanged; the store becomes `Issued` for the user and the token, and the token is current for the user |

## Left out

- **Concurrency and atomicity.** The model is sequential.
  - `consumeAndRotate` reads and then deletes in two Redis calls (RefreshTokenService.java:42-52). The at-most-once redemption that `RedeemOnce` proves holds only for calls that do not overlap.
  - The get and the delete are separate calls, with no transaction or script joining them; the model keeps them as two steps.
- **Logout.** The comment on `revokeAll` (RefreshTokenService.java:56-58) calls it the logout, and AuthServiceTest.java:128-147 calls `authService.logout`. `AuthService.java` itself has no logout method, so the model has none. `RevokeAll` itself is modelled.
- **Redis TTLs.** The model does not capture them. Expired keys are not modelled; a token stays in the store until it is consumed. `refreshValiditySeconds` is kept but not used.
- **Randomness.** `UUID.randomUUID()` is the `token` / `freshToken` parameter. Collisions with existing keys are not excluded, and the contracts hold for any value.
- **Signing and parsing.**
  - HMAC-SHA256 and the JWS compact encoding are abstracted. A token's signature is the key it was signed with, and `decode` stands for base64url and JSON parsing.
  - Clock skew is not modelled, and time is whole seconds.
  - The filter reads the clock twice, once in `validateToken` and once in `getPrincipal` (JwtAuthenticationFilter.java:27-28). `BearerAuth.AuthenticationFor` uses one `now` for both, so a token that expires between the two reads is not modelled.
  - Time arithmetic does not model `Instant` overflow.
- `AccessTokens.ParseClaimsJws`: a date claim written as ISO-8601 text is treated as unreadable, whereas the JWT library parses it as a date. Decimal text and numbers are modelled; the tokens this service issues carry numeric `exp` and no `nbf`.
- **The Google side.**
  - The HTTP call (`RestTemplate`), the JWK-set fetch and the signature check of the ID token are parameters.
  - `JwtValidators.createDefault()` is the parameter `defaultValidator`.
  - Spring reads the issuer as a URL before `GoogleIssuerValidator` compares its text. The model compares the issuer string directly.
  - Transport exceptions from the token endpoint are not modelled.
- **Database constraints.** The unique and not-null checks are modelled as a refusal before the write, which leaves the table unchanged. This matches the transaction rolling back. A refused insert leaves `nextId` where it was, while a real identity column usually uses up a value; the exact ids after a refused insert are not modelled. Column lengths, `createdAt` and `updatedAt` are not modelled.
- **`Users.FindByIdentity`.** It is a ghost choice of key. It is unique because `provider_id` is unique and there is a single provider, `GOOGLE`.
- **`JavaText.ParseLong`.** It accepts ASCII digits only. `Long.parseLong` also accepts other Unicode decimal digits.
- **`JavaText.IsWhitespace`.** It covers the characters `Character.isWhitespace` accepts in the Basic Multilingual Plane. Supplementary characters are not considered.
- **Wiring.** The HTTP layer is not part of this model. That covers `AuthController`, `GlobalExceptionHandler`, the `SecurityFilterChain` rules and the servlet objects. The filter sees only the `Authorization` header; `WebAuthenticationDetailsSource` details are not modelled.
- **The version bound.** `VersionsBounded` is not part of `RefreshTokenService.Valid`. `EmptyStoreBounded`, `IssuedKeepsBound`, `ConsumedKeepsBound` and `IncrementedKeepsBound` state it for the functions that the methods' contracts name.
- **Contract-free definitions.** `HasText`, `IsWhitespace`, `Value`, `AccessClaims`, `ExpiryOf` and `Consistent` are definitions. Their properties are stated by `SplitCsvBlank`, `BlankBearerNeverAuthenticates`, `ValueRoundTrip`, `NullOwnerUnreadable`, `AccessClaimsLayout`, `PrincipalRoundTrip`, `ValidUntilExpiry`, `InsertedConsistent` and `UpsertedConsistent`.
- **`SecurityConfiguration.TrimmedNonBlank`.** Its own contract gives only the length bound. The entry properties are stated by `TrimmedNonBlankEntries`, `TrimmedNonBlankCommaFree` and `TrimmedNonBlankIndices`.
