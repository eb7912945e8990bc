/**
 * The account routes: registration, which refuses a taken email and then a
 * taken username before storing a hashed password, and login, which answers
 * an unknown email and a wrong password alike.
 */
module AuthApi {
  import opened Wrappers
  import opened Identity
  import opened Http

  const EmailTaken := Failure(400, "An account with this email already exists. Please login instead.")
  const UsernameTaken := Failure(400, "Username is already taken. Please choose another.")
  const InvalidCredentials := Failure(400, "Invalid credentials")
  const RegisteredMessage := "Registration successful! Please login."

  /** A stored account; the password is only ever kept as its hash. */
  datatype User = User(id: UserId, username: string, email: string, passwordHash: string)

  /** The `user` object of a login reply: no password field. */
  datatype PublicUser = PublicUser(id: UserId, username: string, email: string)

  /** A successful login reply: the public user and a token signed for its id. */
  datatype LoginReply = LoginReply(user: PublicUser, token: string)

  /** The unique fields an account can be looked up by. */
  datatype AccountKey = ByEmail | ByUsername

  function KeyOf(u: User, key: AccountKey): string {
    match key
    case ByEmail => u.email
    case ByUsername => u.username
  }

  /** `User.findOne({ [key]: value })`: the first account whose field holds the value, if any. */
  function FindBy(users: seq<User>, key: AccountKey, value: string): (r: Option<User>)
    ensures r.Some? ==> r.value in users && KeyOf(r.value, key) == value
    ensures r.None? <==> forall k :: 0 <= k < |users| ==> KeyOf(users[k], key) != value
  {
    if users == [] then None
    else if KeyOf(users[0], key) == value then Some(users[0])
    else FindBy(users[1..], key, value)
  }

  function FindByEmail(users: seq<User>, email: string): Option<User> {
    FindBy(users, ByEmail, email)
  }

  function FindByUsername(users: seq<User>, username: string): Option<User> {
    FindBy(users, ByUsername, username)
  }

  /** The account collection, in insertion order; an account's id is its position. */
  class UserRegistry {
    const signer: Signer
    const hasher: Hasher
    var users: seq<User>

    /** Ids match positions, and no two accounts share an email or a username. */
    ghost predicate Valid()
      reads this
    {
      && (forall k :: 0 <= k < |users| ==> users[k].id == k)
      && (forall j, k :: 0 <= j < k < |users| ==> users[j].email != users[k].email && users[j].username != users[k].username)
    }

    constructor (signer: Signer, hasher: Hasher)
      ensures Valid() && this.signer == signer && this.hasher == hasher && users == []
    {
      this.signer := signer;
      this.hasher := hasher;
      users := [];
    }

    /**
     * POST `/register`: 400 for a taken email (checked first), 400 for a
     * taken username, otherwise exactly one new account holding the hash of
     * the password. The uniqueness invariant survives every call.
     */
    method Register(username: string, email: string, password: string, salt: string) returns (r: Result<string, Failure>)
      requires Valid()
      modifies this
      ensures Valid()
      ensures FindByEmail(old(users), email).Some? ==> r == Err(EmailTaken) && users == old(users)
      ensures FindByEmail(old(users), email).None? && FindByUsername(old(users), username).Some? ==>
        r == Err(UsernameTaken) && users == old(users)
      ensures r.Ok? <==> FindByEmail(old(users), email).None? && FindByUsername(old(users), username).None?
      ensures r.Ok? ==>
        && r.value == RegisteredMessage
        && users == old(users) + [User(|old(users)|, username, email, hasher.hash(password, salt))]
      ensures r.Ok? ==> forall attempt :: Login(email, attempt).Ok? <==> hasher.compare(attempt, hasher.hash(password, salt))
      ensures r.Ok? && HasherSound(hasher) ==> Login(email, password).Ok?
      ensures r.Ok? && HasherSound(hasher) && WithinBcryptLimit(password) ==>
        forall attempt :: WithinBcryptLimit(attempt) ==> (Login(email, attempt).Ok? <==> attempt == password)
    {
      if FindByEmail(users, email).Some? {
        return Err(EmailTaken);
      }
      if FindByUsername(users, username).Some? {
        return Err(UsernameTaken);
      }
      users := users + [User(|users|, username, email, hasher.hash(password, salt))];
      r := Ok(RegisteredMessage);
      forall attempt ensures Login(email, attempt).Ok? <==> hasher.compare(attempt, hasher.hash(password, salt)) {
        assert users[|users| - 1].email == email;
      }
    }

    /**
     * POST `/login`: the same 400 "Invalid credentials" for an unknown email
     * and for a wrong password; otherwise the account's public fields and a
     * token signed for its id.
     */
    function Login(email: string, password: string): (r: Result<LoginReply, Failure>)
      reads this
      requires Valid()
      ensures r.Err? ==> r.error == InvalidCredentials
      ensures r.Ok? <==> exists k :: 0 <= k < |users| && users[k].email == email && hasher.compare(password, users[k].passwordHash)
      ensures r.Ok? ==>
        && r.value.user.id < |users|
        && var u := users[r.value.user.id];
        && r.value.user == PublicUser(u.id, u.username, u.email)
        && u.email == email
        && r.value.token == signer.sign(u.id)
    {
      match FindByEmail(users, email)
      case None => Err(InvalidCredentials)
      case Some(u) =>
        if !hasher.compare(password, u.passwordHash) then Err(InvalidCredentials)
        else Ok(LoginReply(PublicUser(u.id, u.username, u.email), signer.sign(u.id)))
    }
  }
}
