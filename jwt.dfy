/**
 * Session tokens: the claim record, how `GenerateToken` builds and signs it,
 * and how `ValidateToken` maps the library's verdict.
 * The HS256 signature (JSON Web Signature, RFC 7515, in the JSON Web Token
 * form of RFC 7519) is opaque: a `Signer` is a pair of functions given from
 * outside, and the only facts about it used here are the named predicates
 * below, each an explicit assumption about the library.
 */
module Jwt {
  import opened Wrappers
  import Conf

  /** Tokens live for 24 hours, in seconds. */
  const TokenLifetime: int := 24 * 60 * 60

  const GenerateFailed := "failed to generate token"
  const ParseFailed := "failed to parse token"

  /** The `JWTToken` claims: identity plus the registered `iat` and `exp`, in seconds. */
  datatype Claims = Claims(userId: string, role: string, email: string, issuedAt: int, expiresAt: int)

  /** Why the library rejects a token; the callers here never see which. */
  datatype ParseFailure = Malformed | BadSignature | Expired

  /**
   * The library's HS256 signing and parsing: `sign(secret, claims)` gives the
   * compact token or fails; `parse(secret, token, now)` checks the signature
   * with `secret` and the expiry against the clock reading `now`.
   */
  datatype Signer = Signer(
    sign: (string, Claims) -> Option<string>,
    parse: (string, string, int) -> Result<Claims, ParseFailure>)

  /** The package's signing secret together with the library it signs with. */
  datatype TokenService = TokenService(secret: string, signer: Signer)

  /** The secret is read once, from the configuration's `JWT_SECRET`. */
  function NewTokenService(cfg: Conf.Configuration, signer: Signer): (svc: TokenService)
    reads cfg
    ensures svc.secret == cfg.jwtSecret
  {
    TokenService(cfg.jwtSecret, signer)
  }

  /** Assumption: a token signed with a secret parses, with that secret, to its claims until it expires. */
  ghost predicate SignedTokensParse(s: Signer)
  {
    forall secret, c, now :: s.sign(secret, c).Some? && now < c.expiresAt ==>
      s.parse(secret, s.sign(secret, c).value, now) == Ok(c)
  }

  /** Assumption: once its expiry time is reached, a signed token no longer parses. */
  ghost predicate ExpiredTokensRejected(s: Signer)
  {
    forall secret, c, now :: s.sign(secret, c).Some? && now >= c.expiresAt ==>
      s.parse(secret, s.sign(secret, c).value, now).Err?
  }

  /** Assumption: a compact token (base64url parts joined by dots) contains no space. */
  ghost predicate TokensHaveNoSpace(s: Signer)
  {
    forall secret, c :: s.sign(secret, c).Some? ==> ' ' !in s.sign(secret, c).value
  }

  /**
   * The claim record `GenerateToken` builds. The clock is read twice:
   * `expiryRead` for expires-at and, after it, `issuedRead` for issued-at.
   */
  function MakeClaims(userId: string, role: string, email: string, expiryRead: int, issuedRead: int): Claims
  {
    Claims(userId, role, email, issuedRead, expiryRead + TokenLifetime)
  }

  /** Sign the claims with the package secret; a signing failure becomes one fixed error. */
  function GenerateToken(svc: TokenService, userId: string, role: string, email: string,
                         expiryRead: int, issuedRead: int): (r: Result<string, string>)
    ensures r.Err? ==> r.error == GenerateFailed
    ensures r.Ok? <==> svc.signer.sign(svc.secret, MakeClaims(userId, role, email, expiryRead, issuedRead)).Some?
    ensures r.Ok? ==> svc.signer.sign(svc.secret, MakeClaims(userId, role, email, expiryRead, issuedRead)) == Some(r.value)
  {
    match svc.signer.sign(svc.secret, MakeClaims(userId, role, email, expiryRead, issuedRead))
    case None => Err(GenerateFailed)
    case Some(signed) => Ok(signed)
  }

  /** Parse with the same package secret; every kind of rejection becomes one fixed error. */
  function ValidateToken(svc: TokenService, token: string, now: int): (r: Result<Claims, string>)
    ensures r.Err? <==> svc.signer.parse(svc.secret, token, now).Err?
    ensures r.Err? ==> r.error == ParseFailed
    ensures r.Ok? ==> svc.signer.parse(svc.secret, token, now) == Ok(r.value)
  {
    match svc.signer.parse(svc.secret, token, now)
    case Err(_) => Err(ParseFailed)
    case Ok(claims) => Ok(claims)
  }

  /**
   * The claims carry exactly the given identity. Expires-at is the first
   * reading plus 24 hours and issued-at the second, so with a clock that does
   * not run backwards the token lives at most 24 hours, exactly 24 when both
   * readings agree.
   */
  lemma ClaimsContent(userId: string, role: string, email: string, expiryRead: int, issuedRead: int)
    ensures var c := MakeClaims(userId, role, email, expiryRead, issuedRead);
      && c.userId == userId && c.role == role && c.email == email
      && c.issuedAt == issuedRead
      && c.expiresAt - c.issuedAt == TokenLifetime - (issuedRead - expiryRead)
      && (expiryRead <= issuedRead ==> c.expiresAt - c.issuedAt <= TokenLifetime)
      && (expiryRead == issuedRead ==> c.expiresAt == c.issuedAt + 86400)
  {
  }

  /** A token that `ValidateToken` accepts maps to the library's claims and to nothing else. */
  lemma ValidationIsFaithful(svc: TokenService, token: string, now: int, c: Claims)
    ensures ValidateToken(svc, token, now) == Ok(c) <==> svc.signer.parse(svc.secret, token, now) == Ok(c)
    ensures (forall f: ParseFailure :: svc.signer.parse(svc.secret, token, now) != Err(f)) <==>
            ValidateToken(svc, token, now).Ok?
  {
  }

  /** Under the signing assumption, a freshly issued token validates to the claims it was built from. */
  lemma IssuedTokenValidates(svc: TokenService, userId: string, role: string, email: string,
                             expiryRead: int, issuedRead: int, now: int)
    requires SignedTokensParse(svc.signer)
    requires GenerateToken(svc, userId, role, email, expiryRead, issuedRead).Ok?
    requires now < expiryRead + TokenLifetime
    ensures ValidateToken(svc, GenerateToken(svc, userId, role, email, expiryRead, issuedRead).value, now)
            == Ok(MakeClaims(userId, role, email, expiryRead, issuedRead))
  {
  }

  /** Under the expiry assumption, the same token is refused from 24 hours after the first reading on. */
  lemma IssuedTokenExpires(svc: TokenService, userId: string, role: string, email: string,
                           expiryRead: int, issuedRead: int, now: int)
    requires ExpiredTokensRejected(svc.signer)
    requires GenerateToken(svc, userId, role, email, expiryRead, issuedRead).Ok?
    requires now >= expiryRead + TokenLifetime
    ensures ValidateToken(svc, GenerateToken(svc, userId, role, email, expiryRead, issuedRead).value, now)
            == Err(ParseFailed)
  {
  }
}
