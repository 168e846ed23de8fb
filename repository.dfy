/**
 * The storage collaborator behind the account use cases, as an in-memory
 * table of accounts keyed by email (the unique index). What a lookup does
 * when nothing matches is a parameter: the PostgreSQL repository reports it
 * as the error "user not found"; the interface also admits a repository that
 * answers with no user and no error.
 */
module Repository {
  import opened Wrappers
  import opened Domain

  const UserNotFound := "user not found"
  const DuplicateEmail := "duplicate key value violates unique index on email"
  const DuplicateId := "duplicate key value violates primary key on id"

  /** What `GetByEmail` answers when no account has the email. */
  datatype MissPolicy = MissIsError | MissIsNil

  function DigitChar(d: nat): char
    requires d < 10
  {
    "0123456789"[d]
  }

  /** The decimal numeral of `n`. */
  function Decimal(n: nat): string
    decreases n
  {
    if n < 10 then [DigitChar(n)] else Decimal(n / 10) + [DigitChar(n % 10)]
  }

  class UserRepository {
    /** The stored accounts, by email. */
    var users: map<string, User>
    /** How many accounts have been created; numbers the identifiers handed out. */
    var issued: nat
    const policy: MissPolicy
    /** When present, the store is unreachable and every call fails with this error. */
    const fault: Option<string>

    /** Every account is filed under its own email (so emails are unique) and has a role. */
    ghost predicate Valid()
      reads this
    {
      && (forall e :: e in users ==> users[e].email == e && users[e].role != "")
      && (forall e, f :: e in users && f in users && e != f ==> users[e].id != users[f].id)
    }

    constructor (policy: MissPolicy, fault: Option<string>)
      ensures Valid()
      ensures users == map[] && issued == 0
      ensures this.policy == policy && this.fault == fault
    {
      users := map[];
      issued := 0;
      this.policy := policy;
      this.fault := fault;
    }

    /** `GetByEmail`: an error, or the account with that email, or no account. */
    function GetByEmail(email: string): (r: Result<Option<User>, string>)
      reads this
      ensures fault.Some? ==> r == Err(fault.value)
      ensures r.Ok? && r.value.Some? <==> fault.None? && email in users
      ensures r.Ok? && r.value.Some? ==> r.value.value == users[email]
      ensures r == Ok(None) <==> fault.None? && email !in users && policy.MissIsNil?
      ensures fault.None? && r.Err? ==> email !in users && r.error == UserNotFound
    {
      if fault.Some? then Err(fault.value)
      else if email in users then Ok(Some(users[email]))
      else if policy.MissIsError? then Err(UserNotFound)
      else Ok(None)
    }

    predicate IdTaken(id: string)
      reads this
    {
      exists e :: e in users && users[e].id == id
    }

    /** The record as the store would keep it: a generated id if it has none, the default role if it has none. */
    function Prepared(u: User): (p: User)
      reads this
      ensures p.email == u.email && p.password == u.password && p.username == u.username
      ensures p.createdAt == u.createdAt
      ensures p.role == (if u.role == "" then DefaultRole else u.role)
      ensures u.id != "" ==> p.id == u.id
    {
      u.(id := if u.id == "" then Decimal(issued) else u.id,
         role := if u.role == "" then DefaultRole else u.role)
    }

    /** What `Create` reports for `u` in the current state: a store error, a uniqueness violation, or the stored record. */
    function CreateOutcome(u: User): (r: Result<User, string>)
      reads this
      ensures r.Ok? <==> fault.None? && u.email !in users && !IdTaken(Prepared(u).id)
      ensures r.Ok? ==> r.value == Prepared(u)
      ensures fault.Some? ==> r == Err(fault.value)
      ensures fault.None? && u.email in users ==> r == Err(DuplicateEmail)
    {
      if fault.Some? then Err(fault.value)
      else if u.email in users then Err(DuplicateEmail)
      else
        var p := Prepared(u);
        if IdTaken(p.id) then Err(DuplicateId) else Ok(p)
    }

    /**
     * `Create`: store `u`, giving back the record as stored (the Go code
     * fills in the caller's struct), or fail and store nothing.
     */
    method Create(u: User) returns (r: Result<User, string>)
      requires Valid()
      modifies this
      ensures Valid()
      ensures r == old(CreateOutcome(u))
      ensures r.Ok? ==> users == old(users)[u.email := r.value] && issued == old(issued) + 1
      ensures r.Err? ==> users == old(users) && issued == old(issued)
    {
      r := CreateOutcome(u);
      if r.Ok? {
        users := users[u.email := r.value];
        issued := issued + 1;
      }
    }
  }
}
