/**
 * The account use cases: signup and login, over the repository, a password
 * hasher and the token service. Clock readings are parameters, in the order
 * the code takes them.
 */
module Services {
  import opened Wrappers
  import opened Domain
  import opened Jwt
  import opened Repository
  import Middleware

  const UserAlreadyExists := "user already exists"
  const LoginUserNotFound := "user not found"
  const PasswordIncorrect := "Password is incorrect"

  /**
   * The password hasher, opaque: `hash` may fail (its salt is part of the
   * hasher value), `verify(plaintext, hash)` is false on a mismatch and on
   * any comparison error.
   */
  datatype Hasher = Hasher(hash: string -> Result<string, string>, verify: (string, string) -> bool)

  /** The account `Signup` builds: request email, the hash, role "user", the clock reading; no id and no username. */
  function NewAccount(req: SignupRequest, hashed: string, createdAt: int): User
  {
    User(id := "", email := req.email, password := hashed, role := "user", username := "", createdAt := createdAt)
  }

  /** The response `Signup` or `Login` gives for an account once the token step has run. */
  function Respond(token: Result<string, string>, account: User): Result<AuthResponse, string>
  {
    match token
    case Err(e) => Err(e)
    case Ok(t) => Ok(AuthResponse(t, account))
  }

  class AuthService {
    const userRepo: UserRepository
    const hasher: Hasher
    const tokens: TokenService

    constructor (userRepo: UserRepository, hasher: Hasher, tokens: TokenService)
      ensures this.userRepo == userRepo && this.hasher == hasher && this.tokens == tokens
    {
      this.userRepo := userRepo;
      this.hasher := hasher;
      this.tokens := tokens;
    }

    /**
     * `Signup`: look the email up, refuse an existing account, hash, create,
     * issue a token for the account as created. Each failure returns at once
     * with the collaborator's error; only `Create` writes the store.
     * `createdAt` is the clock reading for the new record; `expiryRead` and
     * `issuedRead` are the token's two readings.
     */
    method Signup(req: SignupRequest, createdAt: int, expiryRead: int, issuedRead: int)
      returns (r: Result<AuthResponse, string>)
      requires userRepo.Valid()
      modifies userRepo
      ensures userRepo.Valid()
      ensures var lookup := old(userRepo.GetByEmail(req.email));
        && (lookup.Err? ==> r == Err(lookup.error))
        && (lookup.Ok? && lookup.value.Some? ==> r == Err(UserAlreadyExists))
        && (lookup == Ok(None) && hasher.hash(req.password).Err? ==> r == Err(hasher.hash(req.password).error))
        && (!(lookup == Ok(None) && hasher.hash(req.password).Ok?) ==>
              userRepo.users == old(userRepo.users) && userRepo.issued == old(userRepo.issued))
      ensures old(userRepo.GetByEmail(req.email)) == Ok(None) && hasher.hash(req.password).Ok? ==>
        var created := old(userRepo.CreateOutcome(NewAccount(req, hasher.hash(req.password).value, createdAt)));
        && (created.Err? ==> r == Err(created.error) && userRepo.users == old(userRepo.users))
        && (created.Ok? ==>
              && userRepo.users == old(userRepo.users)[req.email := created.value]
              && r == Respond(GenerateToken(tokens, created.value.id, created.value.role, created.value.email,
                                            expiryRead, issuedRead), created.value))
      ensures r.Ok? ==>
        && hasher.hash(req.password) == Ok(r.value.user.password)
        && r.value.user.email == req.email && r.value.user.role == "user" && r.value.user.username == ""
        && r.value.user.createdAt == createdAt
        && req.email !in old(userRepo.users) && userRepo.users == old(userRepo.users)[req.email := r.value.user]
        && GenerateToken(tokens, r.value.user.id, "user", req.email, expiryRead, issuedRead) == Ok(r.value.accessToken)
      ensures userRepo.policy.MissIsError? ==> r.Err? && userRepo.users == old(userRepo.users)
    {
      var existingUser := userRepo.GetByEmail(req.email);
      if existingUser.Err? {
        return Err(existingUser.error);
      }
      if existingUser.value.Some? {
        return Err(UserAlreadyExists);
      }

      var hashedPassword := hasher.hash(req.password);
      if hashedPassword.Err? {
        return Err(hashedPassword.error);
      }

      var newUser := NewAccount(req, hashedPassword.value, createdAt);
      var created := userRepo.Create(newUser);
      if created.Err? {
        return Err(created.error);
      }
      var stored := created.value;

      var jwtToken := GenerateToken(tokens, stored.id, stored.role, stored.email, expiryRead, issuedRead);
      if jwtToken.Err? {
        return Err(jwtToken.error);
      }
      r := Ok(AuthResponse(jwtToken.value, stored));
    }

    /**
     * `Login`: look the email up, refuse a missing account, check the password
     * against the stored hash, issue a token. It only reads the store.
     */
    method Login(req: LoginRequest, expiryRead: int, issuedRead: int) returns (r: Result<AuthResponse, string>)
      ensures var lookup := userRepo.GetByEmail(req.email);
        && (lookup.Err? ==> r == Err(lookup.error))
        && (lookup == Ok(None) ==> r == Err(LoginUserNotFound))
        && (lookup.Ok? && lookup.value.Some? && !hasher.verify(req.password, lookup.value.value.password) ==>
              r == Err(PasswordIncorrect))
      ensures r.Ok? <==>
        && req.email in userRepo.users && userRepo.fault.None?
        && hasher.verify(req.password, userRepo.users[req.email].password)
        && GenerateToken(tokens, userRepo.users[req.email].id, userRepo.users[req.email].role,
                         userRepo.users[req.email].email, expiryRead, issuedRead).Ok?
      ensures r.Ok? ==>
        && r.value.user == userRepo.users[req.email]
        && GenerateToken(tokens, r.value.user.id, r.value.user.role, r.value.user.email, expiryRead, issuedRead)
           == Ok(r.value.accessToken)
      ensures (r.Err? && req.email in userRepo.users && userRepo.fault.None? &&
               hasher.verify(req.password, userRepo.users[req.email].password)) ==> r.error == GenerateFailed
    {
      var user := userRepo.GetByEmail(req.email);
      if user.Err? {
        return Err(user.error);
      }
      if user.value.None? {
        return Err(LoginUserNotFound);
      }
      var account := user.value.value;

      if !hasher.verify(req.password, account.password) {
        return Err(PasswordIncorrect);
      }

      var jwtToken := GenerateToken(tokens, account.id, account.role, account.email, expiryRead, issuedRead);
      if jwtToken.Err? {
        return Err(jwtToken.error);
      }
      r := Ok(AuthResponse(jwtToken.value, account));
    }
  }

  /** The signing library never fails to sign. */
  ghost predicate SignerTotal(s: Signer)
  {
    forall secret, c :: s.sign(secret, c).Some?
  }

  /**
   * Against a store that reports a missing email as an error, as the
   * PostgreSQL repository does, no signup can succeed and none writes the
   * store: a new email gets "user not found", a known one "user already exists".
   */
  method SignupAgainstErrorOnMiss(svc: AuthService, req: SignupRequest, createdAt: int, expiryRead: int, issuedRead: int)
    returns (r: Result<AuthResponse, string>)
    requires svc.userRepo.Valid() && svc.userRepo.policy.MissIsError? && svc.userRepo.fault.None?
    modifies svc.userRepo
    ensures svc.userRepo.users == old(svc.userRepo.users)
    ensures req.email !in old(svc.userRepo.users) ==> r == Err(Repository.UserNotFound)
    ensures req.email in old(svc.userRepo.users) ==> r == Err(UserAlreadyExists)
  {
    r := svc.Signup(req, createdAt, expiryRead, issuedRead);
  }

  /**
   * Against a store that answers a missing email with no account and no
   * error, a signup for a new email succeeds whenever hashing and signing do,
   * and the token it returns gets through the authorization gate until it
   * expires, carrying the new account's identity.
   */
  method SignupAgainstNilOnMiss(svc: AuthService, req: SignupRequest, createdAt: int, expiryRead: int,
                                issuedRead: int, now: int)
    returns (r: Result<AuthResponse, string>)
    requires svc.userRepo.Valid() && svc.userRepo.policy.MissIsNil? && svc.userRepo.fault.None?
    requires req.email !in svc.userRepo.users && !svc.userRepo.IdTaken(Decimal(svc.userRepo.issued))
    requires svc.hasher.hash(req.password).Ok?
    requires SignerTotal(svc.tokens.signer)
    requires SignedTokensParse(svc.tokens.signer) && TokensHaveNoSpace(svc.tokens.signer)
    requires now < expiryRead + TokenLifetime
    modifies svc.userRepo
    ensures r.Ok? && req.email in svc.userRepo.users && svc.userRepo.users[req.email] == r.value.user
    ensures svc.userRepo.users.Keys == old(svc.userRepo.users.Keys) + {req.email}
    ensures Middleware.Decide("Bearer " + r.value.accessToken, svc.tokens, now)
            == Middleware.Accept(MakeClaims(r.value.user.id, "user", req.email, expiryRead, issuedRead))
  {
    ghost var account := NewAccount(req, svc.hasher.hash(req.password).value, createdAt);
    assert svc.userRepo.Prepared(account).id == Decimal(svc.userRepo.issued);
    assert svc.tokens.signer.sign(svc.tokens.secret,
      MakeClaims(svc.userRepo.Prepared(account).id, "user", req.email, expiryRead, issuedRead)).Some?;
    r := svc.Signup(req, createdAt, expiryRead, issuedRead);
    Middleware.IssuedTokenPassesGate(svc.tokens, r.value.user.id, "user", req.email, expiryRead, issuedRead, now);
  }

  /**
   * Signup followed by login, with a hasher whose `verify` accepts the hash
   * of the same password (assumed here, not proved): logging in with that
   * password succeeds and returns the stored account; with a password that
   * `verify` rejects it fails with "Password is incorrect".
   */
  method SignupThenLogin(svc: AuthService, username: string, email: string, password: string, wrong: string,
                         createdAt: int, expiryRead: int, issuedRead: int)
    returns (signedUp: Result<AuthResponse, string>, loggedIn: Result<AuthResponse, string>,
             refused: Result<AuthResponse, string>)
    requires svc.userRepo.Valid() && svc.userRepo.policy.MissIsNil? && svc.userRepo.fault.None?
    requires SignerTotal(svc.tokens.signer)
    requires forall h :: svc.hasher.hash(password) == Ok(h) ==> svc.hasher.verify(password, h)
    requires forall h :: svc.hasher.hash(password) == Ok(h) ==> !svc.hasher.verify(wrong, h)
    modifies svc.userRepo
    ensures signedUp.Ok? ==> loggedIn.Ok? && loggedIn.value.user == signedUp.value.user
    ensures signedUp.Ok? ==> refused == Err(PasswordIncorrect)
  {
    signedUp := svc.Signup(SignupRequest(username, email, password), createdAt, expiryRead, issuedRead);
    loggedIn := svc.Login(LoginRequest(email, password), expiryRead, issuedRead);
    refused := svc.Login(LoginRequest(email, wrong), expiryRead, issuedRead);
  }
}
