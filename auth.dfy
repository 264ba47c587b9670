/** The auth service (server/services/authService.ts) over the `users`
    table, the `users` field of an AuthService. Password hashing, hash
    comparison and token signing are dependencies fixed at construction;
    the salt, the fresh id and the clock are parameters. */
module Auth {
  import opened Wrappers
  import opened Schema
  import opened Query

  const UserAlreadyExists := "User already exists with this email"
  const InvalidEmailOrPassword := "Invalid email or password"
  const UserNotFoundMessage := "User not found"

  datatype AuthError =
    | Invalid(issues: seq<Issue>) // the insert or login schema rejected the input
    | EmailTaken                  // "User already exists with this email"
    | InvalidCredentials          // "Invalid email or password"
    | UserNotFound                // "User not found"

  /** The message of an error the service raises itself; schema errors
      carry zod's message. */
  function Message(e: AuthError): Option<string> {
    match e
    case Invalid(_) => None
    case EmailTaken => Some(UserAlreadyExists)
    case InvalidCredentials => Some(InvalidEmailOrPassword)
    case UserNotFound => Some(UserNotFoundMessage)
  }

  /** The password hasher: `hash(password, salt)` and
      `compare(candidate, storedHash)`. */
  datatype Hasher = Hasher(hash: (string, string) -> string, compare: (string, string) -> bool)

  /** What the service relies on from its hasher: a stored hash accepts
      exactly the password it was made from. */
  ghost predicate SoundHasher(h: Hasher) {
    forall password, salt, candidate ::
      h.compare(candidate, h.hash(password, salt)) <==> candidate == password
  }

  /** The payload of a token. */
  datatype Claims = Claims(id: string, email: string, name: string, role: string)

  /** `{ user, token }`, the response of register and login. */
  datatype Session = Session(user: PublicUser, token: string)

  function WithoutPassword(u: User): (p: PublicUser)
    ensures p.id == u.id && p.email == u.email && p.name == u.name && p.role == u.role
    ensures p.createdAt == u.createdAt && p.updatedAt == u.updatedAt
  {
    PublicUser(u.id, u.email, u.name, u.role, u.createdAt, u.updatedAt)
  }

  /** `generateToken` signs the id, email, name and role of a user. */
  function ClaimsOf(p: PublicUser): (c: Claims)
    ensures c.id == p.id && c.email == p.email && c.name == p.name && c.role == p.role
  {
    Claims(p.id, p.email, p.name, p.role)
  }

  /** The session for a user, its token signed at `now`. */
  function SessionFor(u: User, sign: (Claims, Timestamp) -> string, now: Timestamp): (s: Session)
    ensures s.user == WithoutPassword(u)
    ensures s.token == sign(Claims(u.id, u.email, u.name, u.role), now)
  {
    var p := WithoutPassword(u);
    Session(p, sign(ClaimsOf(p), now))
  }

  // ---------------------------------------------------------------------
  // Table predicates
  // ---------------------------------------------------------------------

  predicate IdsDistinct(t: seq<User>) {
    forall i, j :: 0 <= i < j < |t| ==> t[i].id != t[j].id
  }

  predicate EmailsDistinct(t: seq<User>) {
    forall i, j :: 0 <= i < j < |t| ==> t[i].email != t[j].email
  }

  predicate HasId(t: seq<User>, id: string) {
    exists i :: 0 <= i < |t| && t[i].id == id
  }

  predicate EmailInUse(t: seq<User>, email: string) {
    exists i :: 0 <= i < |t| && t[i].email == email
  }

  function IndexOfEmail(t: seq<User>, email: string): (r: Option<nat>)
    ensures r.Some? ==> r.value < |t| && t[r.value].email == email
    ensures r.None? <==> !EmailInUse(t, email)
  {
    FirstIndex(t, (u: User) => u.email == email)
  }

  function IndexOfId(t: seq<User>, id: string): (r: Option<nat>)
    ensures r.Some? ==> r.value < |t| && t[r.value].id == id
    ensures r.None? <==> !HasId(t, id)
  {
    FirstIndex(t, (u: User) => u.id == id)
  }

  /** A row appended after rows that do not carry its email is the one an
      email lookup finds. */
  lemma IndexOfAppendedEmail(t: seq<User>, u: User)
    requires !EmailInUse(t, u.email)
    ensures IndexOfEmail(t + [u], u.email) == Some(|t|)
  {
    assert (t + [u])[|t|].email == u.email;
  }

  lemma IndexOfAppendedId(t: seq<User>, u: User)
    requires !HasId(t, u.id)
    ensures IndexOfId(t + [u], u.id) == Some(|t|)
  {
    assert (t + [u])[|t|].id == u.id;
  }

  // ---------------------------------------------------------------------
  // Queries
  // ---------------------------------------------------------------------

  /** `login(loginData)`: the session of the user with that email when the
      hasher accepts the password; an unknown email and a wrong password
      give the same "Invalid email or password". */
  function Login(users: seq<User>, hasher: Hasher, sign: (Claims, Timestamp) -> string, raw: Raw, now: Timestamp)
    : (r: Result<Session, AuthError>)
    ensures ParseLogin(raw).Err? ==> r == Err(Invalid(ParseLogin(raw).error))
    ensures ParseLogin(raw).Ok? && !EmailInUse(users, ParseLogin(raw).value.email) ==> r == Err(InvalidCredentials)
    ensures ParseLogin(raw).Ok? && EmailInUse(users, ParseLogin(raw).value.email) ==>
      var c := ParseLogin(raw).value;
      var u := users[IndexOfEmail(users, c.email).value];
      && (!hasher.compare(c.password, u.password) ==> r == Err(InvalidCredentials))
      && (hasher.compare(c.password, u.password) ==> r == Ok(SessionFor(u, sign, now)))
    ensures r.Ok? ==> ParseLogin(raw).Ok?
    ensures r.Err? && !r.error.Invalid? ==> Message(r.error) == Some(InvalidEmailOrPassword)
    ensures r.Ok? ==>
      exists k :: 0 <= k < |users| && users[k].email == ParseLogin(raw).value.email &&
        hasher.compare(ParseLogin(raw).value.password, users[k].password) &&
        r.value == SessionFor(users[k], sign, now)
  {
    match ParseLogin(raw)
    case Err(issues) => Err(Invalid(issues))
    case Ok(c) =>
      match IndexOfEmail(users, c.email)
      case None => Err(InvalidCredentials)
      case Some(i) =>
        if hasher.compare(c.password, users[i].password) then Ok(SessionFor(users[i], sign, now))
        else Err(InvalidCredentials)
  }

  /** `getUserById(id)`: the user without its password, or "User not found". */
  function GetUserById(users: seq<User>, id: string): (r: Result<PublicUser, AuthError>)
    ensures r.Ok? <==> HasId(users, id)
    ensures r.Ok? ==> exists k :: 0 <= k < |users| && users[k].id == id && r.value == WithoutPassword(users[k])
    ensures r.Err? ==> r.error == UserNotFound && Message(r.error) == Some(UserNotFoundMessage)
  {
    match IndexOfId(users, id)
    case None => Err(UserNotFound)
    case Some(i) => Ok(WithoutPassword(users[i]))
  }

  // ---------------------------------------------------------------------
  // Rows
  // ---------------------------------------------------------------------

  /** The row `register` stores: the hashed password and the default role. */
  function NewRow(data: NewUser, id: string, hashed: string, now: Timestamp): (u: User)
    ensures u.id == id && u.email == data.email && u.password == hashed && u.name == data.name
    ensures u.role == DefaultRole && u.createdAt == now && u.updatedAt == now
  {
    User(id, data.email, hashed, data.name, DefaultRole, now, now)
  }

  /** A login body. */
  function LoginBody(email: string, password: string): (raw: Raw)
    ensures raw.Keys == {"email", "password"}
    ensures raw["email"] == JString(email) && raw["password"] == JString(password)
  {
    map["email" := JString(email), "password" := JString(password)]
  }

  /** After registering, logging in with the registered email succeeds
      exactly when the candidate is the registered password and the login
      schema accepts the pair: registration checks neither the email shape
      nor the password length, so an account whose email is malformed or
      whose password is shorter than six UTF-16 code units can never log in. */
  lemma RegisterThenLogin(users: seq<User>, h: Hasher, sign: (Claims, Timestamp) -> string,
                          data: NewUser, id: string, salt: string, now: Timestamp,
                          candidate: string, later: Timestamp)
    requires SoundHasher(h) && !EmailInUse(users, data.email)
    ensures
      var stored := users + [NewRow(data, id, h.hash(data.password, salt), now)];
      var r := Login(stored, h, sign, LoginBody(data.email, candidate), later);
      && (r.Ok? <==> IsEmail(data.email) && Utf16Length(candidate) >= MinPasswordLength && candidate == data.password)
      && (r.Ok? ==> r == Ok(SessionFor(stored[|users|], sign, later)))
      && (r.Err? && IsEmail(data.email) && Utf16Length(candidate) >= MinPasswordLength ==> r == Err(InvalidCredentials))
      && (r.Err? && !(IsEmail(data.email) && Utf16Length(candidate) >= MinPasswordLength) ==> r.Err? && r.error.Invalid?)
  {
    var row := NewRow(data, id, h.hash(data.password, salt), now);
    var body := LoginBody(data.email, candidate);
    assert TextGiven(body, "email") && TextGiven(body, "password");
    IndexOfAppendedEmail(users, row);
    assert h.compare(candidate, h.hash(data.password, salt)) <==> candidate == data.password;
  }

  /** The user `register` stored is the one `getUserById` finds. */
  lemma RegisteredUserIsFound(users: seq<User>, data: NewUser, id: string, hashed: string, now: Timestamp)
    requires !HasId(users, id)
    ensures GetUserById(users + [NewRow(data, id, hashed, now)], id) == Ok(WithoutPassword(NewRow(data, id, hashed, now)))
  {
    IndexOfAppendedId(users, NewRow(data, id, hashed, now));
  }

  lemma AppendOneKeepsDistinct(t: seq<User>, u: User)
    requires IdsDistinct(t) && EmailsDistinct(t) && !HasId(t, u.id) && !EmailInUse(t, u.email)
    ensures IdsDistinct(t + [u]) && EmailsDistinct(t + [u])
  {
    var s := t + [u];
    forall i, j | 0 <= i < j < |s| ensures s[i].id != s[j].id && s[i].email != s[j].email {
      if j == |t| {
        assert s[i] == t[i];
      }
    }
  }

  // ---------------------------------------------------------------------
  // The service over its table
  // ---------------------------------------------------------------------

  class AuthService {
    const hasher: Hasher
    const signToken: (Claims, Timestamp) -> string
    var users: seq<User>

    /** The storage-level constraints of the table. */
    ghost predicate Valid()
      reads this
    {
      IdsDistinct(users) && EmailsDistinct(users)
    }

    constructor (hasher: Hasher, signToken: (Claims, Timestamp) -> string)
      ensures Valid() && this.hasher == hasher && this.signToken == signToken && users == []
    {
      this.hasher := hasher;
      this.signToken := signToken;
      users := [];
    }

    /** `register(userData)`: validated by the user insert schema alone
        (so `confirmPassword` is ignored), refused for an email in use,
        stored with the hashed password and the default role. `now` is the
        database's `defaultNow()` for the row; `signedAt` is the server
        clock when the token is signed. */
    method Register(raw: Raw, freshId: string, salt: string, now: Timestamp, signedAt: Timestamp)
      returns (r: Result<Session, AuthError>)
      requires Valid() && !HasId(users, freshId)
      modifies this
      ensures Valid()
      ensures ParseInsertUser(raw).Err? ==> r == Err(Invalid(ParseInsertUser(raw).error))
      ensures ParseInsertUser(raw).Ok? && EmailInUse(old(users), ParseInsertUser(raw).value.email) ==> r == Err(EmailTaken)
      ensures ParseInsertUser(raw).Ok? && !EmailInUse(old(users), ParseInsertUser(raw).value.email) ==>
        var data := ParseInsertUser(raw).value;
        var row := NewRow(data, freshId, hasher.hash(data.password, salt), now);
        && r == Ok(SessionFor(row, signToken, signedAt))
        && users == old(users) + [row]
      ensures r.Err? ==> users == old(users)
      ensures r == Err(EmailTaken) ==> Message(r.error) == Some(UserAlreadyExists)
    {
      var parsed := ParseInsertUser(raw);
      if parsed.Err? {
        return Err(Invalid(parsed.error));
      }
      var data := parsed.value;
      if EmailInUse(users, data.email) {
        return Err(EmailTaken);
      }
      var hashed := hasher.hash(data.password, salt);
      var row := NewRow(data, freshId, hashed, now);
      AppendOneKeepsDistinct(users, row);
      users := users + [row];
      r := Ok(SessionFor(row, signToken, signedAt));
    }
  }
}
