/**
 * The records of the account domain, their outward JSON form, and the
 * request validity that the `binding` tags demand.
 * Timestamps are integer seconds; strings are sequences of Unicode scalar
 * values, so `|s|` counts characters as the validator's `min` does.
 */
module Domain {
  import opened Wrappers

  /** The role a stored account gets when none is given (`gorm:"default:user"`). */
  const DefaultRole := "user"

  /** A stored account. `password` holds the credential hash. */
  datatype User = User(
    id: string,
    email: string,
    password: string,
    role: string,
    username: string,
    createdAt: int)

  datatype SignupRequest = SignupRequest(username: string, email: string, password: string)

  datatype LoginRequest = LoginRequest(email: string, password: string)

  /** Sent back after signup or login: the token and the whole account record. */
  datatype AuthResponse = AuthResponse(accessToken: string, user: User)

  datatype UserProfileResponse = UserProfileResponse(
    username: string,
    email: string,
    role: string,
    createdAt: int)

  datatype UpdateUserProfileRequest = UpdateUserProfileRequest(username: string, email: string)

  // ---------------------------------------------------------------------------
  // Outward (JSON) form
  // ---------------------------------------------------------------------------

  /** A JSON value as `encoding/json` produces it for these records; members keep field order. */
  datatype Json = JStr(s: string) | JTime(seconds: int) | JObj(members: seq<Member>)
  datatype Member = Member(key: string, value: Json)

  /** The keys of a JSON object, in order. */
  function Keys(j: Json): seq<string>
  {
    if j.JObj? then seq(|j.members|, i requires 0 <= i < |j.members| => j.members[i].key) else []
  }

  /** `k` is the key of some member of `j` or of any object nested in it. */
  predicate HasKey(j: Json, k: string)
    decreases j
  {
    j.JObj? && exists i :: 0 <= i < |j.members| && (j.members[i].key == k || HasKey(j.members[i].value, k))
  }

  /**
   * A `User` serialised with its JSON tags. `Password` is tagged `json:"-"`,
   * so it has no member here.
   */
  function UserJson(u: User): Json
  {
    JObj([
      Member("id", JStr(u.id)),
      Member("email", JStr(u.email)),
      Member("role", JStr(u.role)),
      Member("username", JStr(u.username)),
      Member("created_at", JTime(u.createdAt))])
  }

  function AuthResponseJson(r: AuthResponse): Json
  {
    JObj([Member("access_token", JStr(r.accessToken)), Member("user", UserJson(r.user))])
  }

  function ProfileJson(p: UserProfileResponse): Json
  {
    JObj([
      Member("username", JStr(p.username)),
      Member("email", JStr(p.email)),
      Member("role", JStr(p.role)),
      Member("created_at", JTime(p.createdAt))])
  }

  /**
   * The outward form of an account exposes exactly its id, email, role,
   * username and creation time, and does not depend on the password hash.
   */
  lemma UserJsonOmitsPassword(u: User, otherHash: string)
    ensures Keys(UserJson(u)) == ["id", "email", "role", "username", "created_at"]
    ensures !HasKey(UserJson(u), "password")
    ensures UserJson(u) == UserJson(u.(password := otherHash))
  {
  }

  /**
   * The response to signup and login embeds the whole account, and still
   * carries no password member at any depth and nothing that depends on the hash.
   */
  lemma AuthResponseJsonOmitsPassword(r: AuthResponse, otherHash: string)
    ensures Keys(AuthResponseJson(r)) == ["access_token", "user"]
    ensures !HasKey(AuthResponseJson(r), "password")
    ensures AuthResponseJson(r) == AuthResponseJson(r.(user := r.user.(password := otherHash)))
  {
    UserJsonOmitsPassword(r.user, otherHash);
  }

  /** The profile view exposes username, email, role and creation time, and no id or password. */
  lemma ProfileJsonExposesOnlyProfile(p: UserProfileResponse)
    ensures Keys(ProfileJson(p)) == ["username", "email", "role", "created_at"]
    ensures !HasKey(ProfileJson(p), "id") && !HasKey(ProfileJson(p), "password")
  {
  }

  // ---------------------------------------------------------------------------
  // Request validity from the `binding` tags
  // ---------------------------------------------------------------------------

  /** A validator tag: `required`, `min=n` on a string, `email`. */
  datatype Rule = Required | MinLength(n: nat) | EmailFormat

  /** A struct field with its value and its tags, in the order they are written. */
  datatype Field = Field(name: string, value: string, rules: seq<Rule>)

  /** The first tag a field breaks, reported with the field's name. */
  datatype FieldError = FieldError(field: string, rule: Rule)

  /** Whether `value` passes one tag; `isEmail` stands for the validator's email pattern. */
  predicate Satisfies(value: string, rule: Rule, isEmail: string -> bool)
  {
    match rule
    case Required => value != ""
    case MinLength(n) => |value| >= n
    case EmailFormat => isEmail(value)
  }

  /** The first of `rules` that `value` breaks; checking a field stops there. */
  function FirstBroken(value: string, rules: seq<Rule>, isEmail: string -> bool): (r: Option<Rule>)
    ensures r.None? <==> forall i :: 0 <= i < |rules| ==> Satisfies(value, rules[i], isEmail)
    ensures r.Some? ==> r.value in rules && !Satisfies(value, r.value, isEmail)
    ensures r.Some? ==>
      exists i :: (0 <= i < |rules| && rules[i] == r.value &&
                   forall j :: 0 <= j < i ==> Satisfies(value, rules[j], isEmail))
    decreases |rules|
  {
    if |rules| == 0 then None
    else if !Satisfies(value, rules[0], isEmail) then Some(rules[0])
    else FirstBroken(value, rules[1..], isEmail)
  }

  /** One error per field that breaks a tag, in field order. */
  function Violations(fields: seq<Field>, isEmail: string -> bool): (r: seq<FieldError>)
    ensures |r| <= |fields|
    ensures r == [] <==>
      forall i :: 0 <= i < |fields| ==> FirstBroken(fields[i].value, fields[i].rules, isEmail).None?
    decreases |fields|
  {
    if |fields| == 0 then []
    else
      var f := fields[0];
      var rest := Violations(fields[1..], isEmail);
      match FirstBroken(f.value, f.rules, isEmail)
      case None => rest
      case Some(rule) => [FieldError(f.name, rule)] + rest
  }

  function SignupFields(req: SignupRequest): seq<Field>
  {
    [ Field("Username", req.username, [Required, MinLength(3)]),
      Field("Email", req.email, [Required, EmailFormat]),
      Field("Password", req.password, [Required, MinLength(6)]) ]
  }

  function LoginFields(req: LoginRequest): seq<Field>
  {
    [ Field("Email", req.email, [Required, EmailFormat]),
      Field("Password", req.password, [Required]) ]
  }

  function UpdateProfileFields(req: UpdateUserProfileRequest): seq<Field>
  {
    [ Field("Username", req.username, [Required, MinLength(3)]),
      Field("Email", req.email, [Required, EmailFormat]) ]
  }

  predicate ValidSignup(req: SignupRequest, isEmail: string -> bool)
  {
    |req.username| >= 3 && req.email != "" && isEmail(req.email) && |req.password| >= 6
  }

  predicate ValidLogin(req: LoginRequest, isEmail: string -> bool)
  {
    req.email != "" && isEmail(req.email) && req.password != ""
  }

  predicate ValidProfileUpdate(req: UpdateUserProfileRequest, isEmail: string -> bool)
  {
    |req.username| >= 3 && req.email != "" && isEmail(req.email)
  }

  /** A signup request passes its tags exactly when it is valid. */
  lemma SignupTagsMeanValidSignup(req: SignupRequest, isEmail: string -> bool)
    ensures Violations(SignupFields(req), isEmail) == [] <==> ValidSignup(req, isEmail)
  {
    var fs := SignupFields(req);
    assert FirstBroken(fs[0].value, fs[0].rules, isEmail).None? <==> |req.username| >= 3;
    assert FirstBroken(fs[1].value, fs[1].rules, isEmail).None? <==> req.email != "" && isEmail(req.email);
    assert FirstBroken(fs[2].value, fs[2].rules, isEmail).None? <==> |req.password| >= 6;
  }

  /** A login request passes its tags exactly when it is valid. */
  lemma LoginTagsMeanValidLogin(req: LoginRequest, isEmail: string -> bool)
    ensures Violations(LoginFields(req), isEmail) == [] <==> ValidLogin(req, isEmail)
  {
  }

  /** A profile update passes its tags exactly when it is valid. */
  lemma UpdateTagsMeanValidProfileUpdate(req: UpdateUserProfileRequest, isEmail: string -> bool)
    ensures Violations(UpdateProfileFields(req), isEmail) == [] <==> ValidProfileUpdate(req, isEmail)
  {
  }
}
