/** The authenticated caller as the security layer sees it: the `JwtUserPrincipal` record. */
module Principals {
  import opened Wrappers
  import opened JavaText

  /** A record of four nullable components; equality is component-wise. */
  datatype Principal = Principal(
    userId: Option<Long>,
    name: Option<string>,
    nationality: Option<string>,
    providerId: Option<string>)

  const ROLE_USER: string := "ROLE_USER"

  /** The granted authorities: the single `ROLE_USER`, whatever the principal holds. */
  function Authorities(p: Principal): (r: seq<string>)
    ensures |r| == 1 && r[0] == ROLE_USER
  {
    [ROLE_USER]
  }

  /** The user name the security framework sees is the external provider's identifier. */
  function Username(p: Principal): (r: Option<string>)
    ensures r == p.providerId
  {
    p.providerId
  }

  /** There is no password: tokens are the only credential. */
  function Password(p: Principal): (r: Option<string>)
    ensures r.None?
  {
    None
  }

  /** Record semantics: two principals are equal exactly when all four components are. */
  lemma PrincipalEquality(p: Principal, q: Principal)
    ensures p == q <==> (p.userId == q.userId && p.name == q.name && p.nationality == q.nationality && p.providerId == q.providerId)
  {
  }
}
