# Algoforces authentication core, modelled in Dafny

This project models the authentication and authorization core of the
Algoforces user service, a Go backend. It covers five source files:

- **Domain records** (`internal/domain/user.go`): the account, request and response
  records. It also gives their outward JSON form, which has no password member, and
  the request validity that the `binding` tags demand. Those tags are interpreted by a small
  model of the validator (`required`, `min=n`, `email`, first failing tag per
  field); the email pattern is a parameter `isEmail`.
- **Configuration** (`internal/conf/configuration.go`): the `init` function. It sets seven
  package variables to their defaults and then overwrites each with a non-empty
  environment value. This is a class whose constructor takes the same steps, proved
  equal to the pure `Resolve`.
- **Token claims** (`internal/utils/jwt.go`): the claim record with its identity, `iat` and
  `exp` claims, and the mapping of signing and parsing failures to two fixed
  errors. The HS256 signature (RFC 7515, in the token format of RFC 7519) is an
  opaque `Signer` value. The lemmas about issued tokens depend only on named assumptions
  (`SignedTokensParse`, `ExpiredTokensRejected`, `TokensHaveNoSpace`), and each
  lemma lists the ones it needs in its `requires`. The signup scenarios
  `SignupAgainstNilOnMiss` and `SignupThenLogin` also need `SignerTotal`
  (signing never fails).
- **Authorization gate** (`internal/middleware/auth.go`). `Decide` is the pure decision:
  missing header, malformed header or invalid token leads to a 401 with abort,
  and success leads to the three context keys and `Next`. `strings.Split` on a space is
  modelled exactly in `GoStrings`. `RequestContext.AuthMiddleware` goes through the
  gin steps in order (`JSON`, `Abort`, `Set` three times, `Next`) on a context
  object.
- **Account use cases** (`internal/services/auth_service.go`): `Signup` and `Login` over an
  in-memory `UserRepository`, an opaque `Hasher` and the token service. They keep
  the code's order of early returns and its error strings.

The repository can be configured for when a lookup finds nothing. It either
reports the error "user not found", as the PostgreSQL repository
(`internal/repository/postgres/user_repository.go`) does, or it answers with no
account and no error. The code of `Signup` needs the second behaviour to reach its
creation branch.

Clock readings, the environment and request headers are parameters. Each clock
reading is an integer number of seconds, read in the code's order. `GenerateToken`
reads the clock twice (`exp` first, then `iat`), and the model keeps those two
readings separate.

The code behaves as follows in four places, and the model does the same:

- The 401 bodies differ by cause.
- Every token rejection becomes the single error "failed to parse token".
- A wrong password gives "Password is incorrect".
- A storage uniqueness conflict during signup is passed through as it is. It is not
  turned into "user already exists".

## Model

| member | source | states |
|---|---|---|
| `GoStrings.Split` | internal/middleware/auth.go:26 | splitting on a one-character separator gives one piece more than there are separators, and always at least one piece |
| `GoStrings.JoinSplit` | internal/middleware/auth.go:26 | joining the pieces with the separator gives back the header, so nothing is lost or reordered |
| `GoStrings.SplitPiecesHaveNoSeparator` | internal/middleware/auth.go:26 | no piece contains the separator |
| `GoStrings.SplitJoin` | internal/middleware/auth.go:26 | separator-free pieces joined and split again come back unchanged |
| `Middleware.BearerToken` | internal/middleware/auth.go:26-36 | a token is handed on exactly when the split gives two pieces, the first `Bearer`, and then the token is the second piece; its full characterisation is in `BearerTokenExactly` |
| `Middleware.Decide` | internal/middleware/auth.go:14-45 | missing-header exactly for an empty header, invalid-format exactly for a non-empty header that fails the format check, and acceptance only with the validator's claims for the handed-on token; the full case split is in `DecideCases` |
| `Middleware.RequestContext.GetHeader` | internal/middleware/auth.go:15 | the header's value, or "" when it is absent |
| `Middleware.BearerTokenExactly` | internal/middleware/auth.go:26-36 | the token handed on is `t` exactly when the header is `Bearer ` followed by a space-free `t`, in both directions |
| `Middleware.BearerTokenAccepts` | internal/middleware/auth.go:26-36 | a header passes the format check exactly when it is `Bearer `, one space, then a space-free rest, and the rest is the token |
| `Middleware.DoubleSpaceRefused` | internal/middleware/auth.go:26-27 | `Bearer  x` splits into three pieces (the middle one empty) and is refused |
| `Middleware.TrailingSpaceGivesEmptyToken` | internal/middleware/auth.go:26-36 | `Bearer ` splits into two pieces and the empty token is handed to the validator |
| `Middleware.SchemeIsCaseSensitive` | internal/middleware/auth.go:27 | a lower-case `bearer` scheme is refused |
| `Middleware.RejectionResponse` | internal/middleware/auth.go:17-43 | every rejection writes a 401 body with that rejection's error and message |
| `Middleware.DecideCases` | internal/middleware/auth.go:14-52 | an empty header gives missing-header, a malformed one gives invalid-format, a token that fails validation gives invalid-token, and otherwise the request is accepted with exactly the validated claims; each case holds in both directions |
| `Middleware.IssuedTokenPassesGate` | internal/middleware/auth.go:36-52 | from the signer assumptions: a token just issued, sent as `Bearer <token>` before it expires, is accepted with the claims it was built from |
| `Middleware.RequestContext.AuthMiddleware` | internal/middleware/auth.go:13-54 | on rejection: that 401 body, abort, keys untouched, next not called; on acceptance: user_id, user_email and user_role set from the claims, next called, no abort and no body |
| `Middleware.RequestContext.GetUserID` | internal/middleware/auth.go:57-63 | an error exactly when user_id is absent, otherwise the stored id |
| `Middleware.RequestContext.GetUserEmail` | internal/middleware/auth.go:66-69 | the stored email; the caller must ensure the key is present, since the code panics otherwise |
| `Middleware.RequestContext.GetUserRole` | internal/middleware/auth.go:72-75 | the stored role; the caller must ensure the key is present, since the code panics otherwise |
| `Middleware.ServeProtected` | internal/middleware/auth.go:14-53 | every request ends either aborted with a 401 or passed on, never both and never neither; a request that is passed on exposes the validated id, email and role |
| `Jwt.NewTokenService` | internal/utils/jwt.go:11 | the signing secret is the configuration's JWT_SECRET |
| `Jwt.MakeClaims` | internal/utils/jwt.go:23-30 | definition of the claim record; its properties are in `ClaimsContent` |
| `Jwt.ClaimsContent` | internal/utils/jwt.go:23-30 | the claims carry exactly the given id, role and email; issued-at is the second reading; expires-at is the first reading plus 24 hours, so the lifetime is at most 24 hours when the clock does not run backwards |
| `Jwt.GenerateToken` | internal/utils/jwt.go:22-39 | the token is the signer's output for those claims under the package secret; each signing failure gives "failed to generate token" |
| `Jwt.ValidateToken` | internal/utils/jwt.go:41-49 | parsing uses the package secret; any parse, signature or expiry failure gives "failed to parse token"; on success the claims are exactly the library's |
| `Jwt.ValidationIsFaithful` | internal/utils/jwt.go:45-48 | the validated claims are `c` exactly when the library parsed `c`, and validation succeeds exactly when no failure kind occurred, so causes are not distinguished |
| `Jwt.IssuedTokenValidates` | internal/utils/jwt.go:22-48 | from the signing assumption: a token just issued validates to the claims it was built from until it expires |
| `Jwt.IssuedTokenExpires` | internal/utils/jwt.go:28 | from the expiry assumption: that token is refused from 24 hours after the first clock reading on |
| `Conf.Getenv` | internal/conf/configuration.go:46-64 | the variable's value when it is set, "" when it is not |
| `Conf.Setting` | internal/conf/configuration.go:46-48 | a non-empty environment value is taken; an unset or empty one leaves the default |
| `Conf.Resolve` | internal/conf/configuration.go:33-67 | each of the seven settings is its own default unless its own variable is non-empty |
| `Conf.NoOverridesGiveDefaults` | internal/conf/configuration.go:11-19 | with no non-empty variable, every setting is its default constant |
| `Conf.EmptyEnvironmentSecret` | internal/conf/configuration.go:12 | with an empty environment the secret is "dev-secret-key-change-in-production" |
| `Conf.OverrideReplacesDefault` | internal/conf/configuration.go:46-66 | a non-empty value replaces that setting's default; an empty or absent one keeps it |
| `Conf.OverrideIsLocal` | internal/conf/configuration.go:46-66 | setting one variable changes no other setting |
| `Conf.Configuration.constructor` | internal/conf/configuration.go:33-67 | defaults assigned first, then the overrides in sequence; the resulting fields are exactly `Resolve(env)` |
| `Domain.UserJson` | internal/domain/user.go:9-16 | definition of an account's JSON from its `json` tags; its properties are in `UserJsonOmitsPassword` |
| `Domain.AuthResponseJson` | internal/domain/user.go:32-35 | definition of the response's JSON from its `json` tags; its properties are in `AuthResponseJsonOmitsPassword` |
| `Domain.ProfileJson` | internal/domain/user.go:37-42 | definition of the profile's JSON from its `json` tags; its properties are in `ProfileJsonExposesOnlyProfile` |
| `Domain.UserJsonOmitsPassword` | internal/domain/user.go:9-16 | an account's JSON has exactly the keys id, email, role, username and created_at; no password member appears at any depth, and the JSON does not depend on the hash |
| `Domain.AuthResponseJsonOmitsPassword` | internal/domain/user.go:32-35 | the signup/login response embeds the whole account but still has no password member at any depth and nothing that depends on the hash |
| `Domain.ProfileJsonExposesOnlyProfile` | internal/domain/user.go:37-42 | the profile view has exactly username, email, role and created_at, with no id and no password |
| `Domain.FirstBroken` | internal/domain/user.go:20-28 | a field passes exactly when it satisfies every one of its tags; otherwise the reported tag is the first one it breaks, every earlier tag holding |
| `Domain.Violations` | internal/domain/user.go:20-28 | there are no validation errors exactly when every field passes its tags |
| `Domain.SignupFields` | internal/domain/user.go:19-23 | definition of the signup fields with their `binding` tags; their meaning is in `SignupTagsMeanValidSignup` |
| `Domain.LoginFields` | internal/domain/user.go:26-29 | definition of the login fields with their `binding` tags; their meaning is in `LoginTagsMeanValidLogin` |
| `Domain.UpdateProfileFields` | internal/domain/user.go:44-47 | definition of the profile-update fields with their `binding` tags; their meaning is in `UpdateTagsMeanValidProfileUpdate` |
| `Domain.SignupTagsMeanValidSignup` | internal/domain/user.go:19-23 | a signup request passes its tags exactly when the username has at least 3 characters, the email is non-empty and email-formatted, and the password has at least 6 characters |
| `Domain.LoginTagsMeanValidLogin` | internal/domain/user.go:26-29 | a login request passes its tags exactly when the email is non-empty and email-formatted and the password is non-empty |
| `Domain.UpdateTagsMeanValidProfileUpdate` | internal/domain/user.go:44-47 | a profile update passes its tags exactly when the username has at least 3 characters and the email is non-empty and email-formatted |
| `Repository.UserRepository.GetByEmail` | internal/repository/postgres/user_repository.go:25-35 | the lookup gives a store error, the account filed under that email, or (only for a nil-on-miss store) no account; a miss on an error-on-miss store gives "user not found" |
| `Repository.UserRepository.Prepared` | internal/domain/user.go:10-13 | the stored record keeps email, hash, username and timestamp; it gets a generated id when it has none and role "user" when its role is empty |
| `Repository.UserRepository.CreateOutcome` | internal/domain/user.go:10-11 | creation succeeds exactly when the store is reachable and neither the email nor the id is taken; a taken email gives the unique-index error |
| `Repository.UserRepository.Create` | internal/repository/postgres/user_repository.go:21-23 | on success exactly one record is added, under its email, and the invariant (emails unique, ids distinct, roles present) is kept; on failure nothing changes |
| `Services.NewAccount` | internal/services/auth_service.go:38-43 | definition of the record `Signup` builds: request email, the hash, role "user", the clock reading, and no id or username; what `Signup` promises about it is in `AuthService.Signup` |
| `Services.AuthService.Signup` | internal/services/auth_service.go:21-60 | a lookup error is returned as-is, an existing account gives "user already exists", a hash failure is returned, and in each of these nothing is written. Otherwise one record is created with the request email, role "user", the hash (not the plaintext) and no username, and a create failure is returned with no token. On success the token is built from the created record's id, role and email, and the response carries that record. Against an error-on-miss store, signup never succeeds |
| `Services.AuthService.Login` | internal/services/auth_service.go:62-86 | a lookup error is propagated, no account gives "user not found", a failed verify gives "Password is incorrect"; success is exactly a stored, reachable account whose hash verifies and whose token signs, and the response carries that account; the store is only read |
| `Services.SignupAgainstErrorOnMiss` | internal/services/auth_service.go:22-30 | against the PostgreSQL-style store, a new email gets "user not found", a known one "user already exists", and nothing is ever written |
| `Services.SignupAgainstNilOnMiss` | internal/services/auth_service.go:32-59 | against a nil-on-miss store, a new email is created as exactly one new key, and its token passes the gate with the new account's identity |
| `Services.SignupThenLogin` | internal/services/auth_service.go:62-86 | with a hasher whose verify accepts the hash of the same password (an assumption, not proved), login after signup returns the stored account, and a rejected password gives "Password is incorrect" |

## Findings

| source | as written | input that shows it | evidently intended | confidence | as-written member | corrected member |
|---|---|---|---|---|---|---|
| internal/services/auth_service.go:22-26 | `Signup` returns any lookup error at once, and the repository it is wired to (`internal/repository/postgres/user_repository.go:29-31`) reports a missing email as the error "user not found" | a signup for an email not yet stored: the result is the error "user not found" and no account is created; a stored email gives "user already exists", so no signup can ever succeed | a missing email is answered with no account and no error, so the new account is created | high, not executed | `Services.SignupAgainstErrorOnMiss` | `Services.SignupAgainstNilOnMiss` |

## Left out

- Password hashing internals (`internal/utils/hash.go`, bcrypt): `Hasher` is opaque. `hash` may fail and its salt is part of the hasher value. `verify` is a total predicate. No property such as `verify(p, hash(p))` is proved; `SignupThenLogin` assumes it in its `requires`.
- JWT byte work: base64url, JSON and HMAC-SHA256 are library code. `Signer` is opaque. The three `Jwt` predicates are assumptions about that library, used only as `requires`. So the property that a token signed with another secret fails is not modelled, since it is a cryptographic property.
- The JWT library's other validation checks (algorithm choice, `nbf`, leeway) stay inside the opaque `parse`.
- `jwt.go:6,11` imports the package as `conf` but refers to it as `configuration`, which does not compile. The model follows the intent: `NewTokenService` reads the secret once from a `Configuration`.
- Printing in `configuration.go:43`: output is not modelled.
- The environment is a map and unset means absent. Real clocks are replaced by integer-second readings passed as parameters.
- `UserRepository.GetByID` and `UpdateByID` (`internal/domain/user.go:53-54`) are not modelled. Nothing in the code calls them, and gorm's non-zero-field `Updates` semantics are library behaviour.
- `GetUserProfile` and `UpdateUserProfile` (`internal/domain/user.go:61-62`) are declared but have no implementation, so they are not modelled. Only their record types and validity are.
- The database itself: SQL, gorm and the UUID column type. `internal/domain/user.go:10` only declares the id column, and no code shown fills in `Id`. The decimal numbering in `Prepared` is the in-memory store's own choice. `autoCreateTime` is not modelled, because `Signup` always sets the creation time itself.
- JSON encoding details: `created_at` is a `JTime` of seconds, not an RFC 3339 string. Member order follows field order.
- Header lookup: the header map is taken to hold canonical header names with their first value. `net/http` canonicalisation and repeated headers are not modelled. Neither is the server's trimming of whitespace around header values, so a `Bearer ` header with a trailing space reaches the gate only when no server has trimmed it.
- HTTP handlers, response envelopes and server wiring (`internal/handlers/*.go`, `internal/utils/reponse.go`, `cmd/api/main.go`) are framework plumbing. There every use-case error becomes a 500 that echoes `err.Error()`, and the middleware is not registered.
- Concurrency between requests, including the race between signup's check and its create: the model runs one call at a time.
