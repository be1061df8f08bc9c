/** The decisions of `authenticationService` over the user table. */
module AuthenticationService {
  import opened Wrappers
  import opened Exceptions

  /** `pwd_context.hash` and `pwd_context.verify` (bcrypt), not modelled. */
  type Hasher = string -> string
  type Verifier = (string, string) -> bool

  /** A stored user row, as far as this code sets it; `email` is the unique lookup column. */
  datatype UserRow = UserRow(username: Option<string>, email: string, fullName: Option<string>, hashedPassword: string)

  /** The registration input (`UserCreate`), with its plaintext password. */
  datatype UserCreate = UserCreate(username: Option<string>, email: string, fullName: Option<string>, password: string)

  /** The public view returned by `create_user` (`User` schema): no password of any kind. */
  datatype PublicUser = PublicUser(username: Option<string>, email: string, fullName: Option<string>)

  /** The user table, keyed by the unique email column. */
  type UserTable = map<string, UserRow>

  ghost predicate WellKeyed(users: UserTable)
  {
    forall e :: e in users ==> users[e].email == e
  }

  /** `get_user`: `None` exactly when the lookup by email finds nothing. */
  function GetUser(users: UserTable, email: string): (r: Option<UserRow>)
    ensures r.None? <==> email !in users
    ensures r.Some? ==> r.value == users[email]
  {
    if email in users then Some(users[email]) else None
  }

  /** `authenticate_user`: the looked-up user when it exists and the password verifies, else `None`. */
  function AuthenticateUser(users: UserTable, email: string, password: string, verify: Verifier): (r: Option<UserRow>)
    ensures r.Some? <==> email in users && verify(password, users[email].hashedPassword)
    ensures r.Some? ==> r.value == users[email]
  {
    match GetUser(users, email)
    case None => None
    case Some(user) => if !verify(password, user.hashedPassword) then None else Some(user)
  }

  /** The row `create_user` builds: every field but the password, plus `hash(password)`. */
  function NewUserRow(u: UserCreate, hash: Hasher): (r: UserRow)
    ensures r.email == u.email && r.username == u.username && r.fullName == u.fullName
    ensures r.hashedPassword == hash(u.password)
  {
    UserRow(u.username, u.email, u.fullName, hash(u.password))
  }

  /** The user repository's table, changed in place by `create_user`. */
  class UserRepository {
    var users: UserTable

    /** Every row sits under its own email, as the lookups by email assume. */
    ghost predicate Valid()
      reads this
    {
      WellKeyed(users)
    }

    constructor ()
      ensures Valid() && users == map[]
    {
      users := map[];
    }

    /** `create_user`: a registered email is refused with 400 and the table is left as it was;
        otherwise the new row is added under its email and its public view returned. */
    method CreateUser(u: UserCreate, hash: Hasher) returns (r: Result<PublicUser, Exc>)
      requires Valid()
      modifies this
      ensures Valid()
      ensures u.email in old(users) ==>
        r == Failure(HttpError(400, "Email already registered")) && users == old(users)
      ensures u.email !in old(users) ==>
        users == old(users)[u.email := NewUserRow(u, hash)] &&
        r == Success(PublicUser(u.username, u.email, u.fullName))
    {
      var row := NewUserRow(u, hash);
      if GetUser(users, u.email).Some? {
        return Failure(HttpError(400, "Email already registered"));
      }
      users := users[u.email := row];
      r := Success(PublicUser(row.username, row.email, row.fullName));
    }
  }

  /** In a table keyed by email, whoever authenticates is the user with the email that was given. */
  lemma AuthenticatedUserHasEmail(users: UserTable, email: string, password: string, verify: Verifier)
    requires WellKeyed(users)
    ensures AuthenticateUser(users, email, password, verify).Some? ==>
      AuthenticateUser(users, email, password, verify).value.email == email
  {
  }

  /** Registering a new email keeps the table keyed by email. */
  lemma RegistrationKeepsTableKeyed(users: UserTable, u: UserCreate, hash: Hasher)
    requires WellKeyed(users) && u.email !in users
    ensures WellKeyed(users[u.email := NewUserRow(u, hash)])
  {
  }

  /** After a successful registration, logging in with the same password succeeds exactly when the
      verifier accepts the password against its own hash. */
  lemma RegisteredUserAuthenticates(users: UserTable, u: UserCreate, hash: Hasher, verify: Verifier)
    requires u.email !in users
    ensures AuthenticateUser(users[u.email := NewUserRow(u, hash)], u.email, u.password, verify).Some?
      <==> verify(u.password, hash(u.password))
  {
  }
}
