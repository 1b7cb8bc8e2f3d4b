/**
 * The `/register` and `/login` handlers (server/routes/auth.js) over the
 * `users` collection, kept as a sequence in insertion order; a user's id is
 * its position. Query filters go through the same `trim`/`lowercase`
 * setters as stored values, as Mongoose casts them. Signing a token is a
 * foreign call: a token here just names the user id it was signed for.
 * bcrypt's `compare` is the opaque function `matches`.
 */
module AuthRoutes {
  import opened Common
  import opened JsString
  import opened UserModel

  type UserId = nat

  /** `jwt.sign({userId}, JWT_SECRET, {expiresIn: "7d"})` */
  datatype Token = Token(userId: UserId)

  /** The user object the handlers answer with: no password in it. */
  datatype PublicUser = PublicUser(id: UserId, email: string, username: string, displayName: string)

  datatype AuthReply =
    | Success(status: nat, message: string, token: Token, user: PublicUser)
    | Failure(status: nat, error: string)

  const DuplicateUserError: string := "User with this email or username already exists"
  const CreateFailedError: string := "Error creating user"
  const InvalidCredentialsError: string := "Invalid credentials"
  const LoginFailedError: string := "Error logging in"

  function Public(users: seq<User>, id: UserId): (p: PublicUser)
    requires id < |users|
    ensures p.id == id && p.email == users[id].email && p.username == users[id].username
    ensures p.displayName == users[id].displayName
  {
    PublicUser(id, users[id].email, users[id].username, users[id].displayName)
  }

  /** `User.findOne({$or: [{email}, {username}]})` found someone. */
  predicate Taken(users: seq<User>, email: string, username: string)
    ensures FindByEmail(users, email).Some? ==> Taken(users, email, username)
  {
    exists i :: 0 <= i < |users| && (users[i].email == NormalizeEmail(email) || users[i].username == NormalizeName(username))
  }

  /** `User.findOne({email})`: the first user with that (normalised) email. */
  function FindByEmail(users: seq<User>, email: string): (r: Option<UserId>)
    ensures r.Some? ==> r.value < |users| && users[r.value].email == NormalizeEmail(email)
    ensures r.Some? ==> forall i :: 0 <= i < r.value ==> users[i].email != NormalizeEmail(email)
    ensures r.None? ==> forall i :: 0 <= i < |users| ==> users[i].email != NormalizeEmail(email)
  {
    FirstWithEmail(users, NormalizeEmail(email), 0)
  }

  function FirstWithEmail(users: seq<User>, email: string, from: nat): (r: Option<UserId>)
    requires from <= |users|
    requires forall i :: 0 <= i < from ==> users[i].email != email
    ensures r.Some? ==> from <= r.value < |users| && users[r.value].email == email
    ensures r.Some? ==> forall i :: 0 <= i < r.value ==> users[i].email != email
    ensures r.None? ==> forall i :: 0 <= i < |users| ==> users[i].email != email
    decreases |users| - from
  {
    if from == |users| then None
    else if users[from].email == email then Some(from)
    else FirstWithEmail(users, email, from + 1)
  }

  /** No two users share an email or a username (the unique indexes). */
  ghost predicate UniqueAccounts(users: seq<User>) {
    forall i, j :: 0 <= i < j < |users| ==>
      users[i].email != users[j].email && users[i].username != users[j].username
  }

  /**
   * The register handler as a function of the collection: 500 when the
   * database fails (`fault`); 400 when the email or username is taken; 500
   * when the schema or the save hook refuses the document; else the one new
   * user, answered with 201.
   */
  function RegisterReply(users: seq<User>, email: string, username: string, password: string,
                         displayName: string, hash: string -> string, fault: bool): (r: (AuthReply, seq<User>))
    ensures r.0.Failure? ==> r.1 == users
    ensures fault ==> r.0 == Failure(500, CreateFailedError)
    ensures !fault && Taken(users, email, username) ==> r.0 == Failure(400, DuplicateUserError)
    ensures r.0.Success? <==>
              && !fault && !Taken(users, email, username)
              && SchemaValid(Build(email, username, Some(password), displayName))
              && SaveHook(Build(email, username, Some(password), displayName), true, hash).Next?
    ensures r.0.Failure? && (fault || !Taken(users, email, username)) ==> r.0 == Failure(500, CreateFailedError)
    ensures r.0.Success? ==>
              && |r.1| == |users| + 1 && r.1[..|users|] == users
              && r.1[|users|] == SaveHook(Build(email, username, Some(password), displayName), true, hash).user
              && r.0.status == 201 && r.0.token == Token(|users|) && r.0.user == Public(r.1, |users|)
  {
    if fault then (Failure(500, CreateFailedError), users)
    else if Taken(users, email, username) then (Failure(400, DuplicateUserError), users)
    else
      var u := Build(email, username, Some(password), displayName);
      if !SchemaValid(u) then (Failure(500, CreateFailedError), users)
      else match SaveHook(u, true, hash)
        case Abort(_) => (Failure(500, CreateFailedError), users)
        case Next(saved) =>
          var users' := users + [saved];
          (Success(201, "User created successfully", Token(|users|), Public(users', |users|)), users')
  }

  /**
   * The login handler as a function of the collection. A database failure
   * (`fault`), or a stored user without a password, which makes bcrypt
   * throw, answers 500.
   */
  function LoginReply(users: seq<User>, email: string, password: string,
                      matches: (string, string) -> bool, fault: bool): (r: AuthReply)
    ensures fault ==> r == Failure(500, LoginFailedError)
    ensures !fault && FindByEmail(users, email).None? ==> r == Failure(401, InvalidCredentialsError)
    ensures r.Success? ==>
              && !fault && FindByEmail(users, email).Some?
              && var id := FindByEmail(users, email).value;
                 && users[id].password.Some? && matches(password, users[id].password.value)
                 && r.status == 200 && r.token == Token(id) && r.user == Public(users, id)
    ensures r.Failure? ==> r.status == 401 || r == Failure(500, LoginFailedError)
    ensures r.Failure? && r.status == 401 ==> r.error == InvalidCredentialsError
    ensures !fault && FindByEmail(users, email).Some? && users[FindByEmail(users, email).value].password.Some? ==>
              (r.Success? <==> matches(password, users[FindByEmail(users, email).value].password.value))
    ensures !fault && FindByEmail(users, email).Some? && users[FindByEmail(users, email).value].password.None? ==>
              r == Failure(500, LoginFailedError)
    ensures !fault && FindByEmail(users, email).Some? && users[FindByEmail(users, email).value].password.Some?
            && !matches(password, users[FindByEmail(users, email).value].password.value) ==>
              r == Failure(401, InvalidCredentialsError)
  {
    if fault then Failure(500, LoginFailedError)
    else match FindByEmail(users, email)
    case None => Failure(401, InvalidCredentialsError)
    case Some(id) =>
      match users[id].password
      case None => Failure(500, LoginFailedError)
      case Some(stored) =>
        if !matches(password, stored) then Failure(401, InvalidCredentialsError)
        else Success(200, "Login successful", Token(id), Public(users, id))
  }

  /**
   * An unknown email and a wrong password get the same answer, so the reply
   * does not tell whether an account exists.
   */
  lemma LoginFailuresIndistinguishable(users: seq<User>, unknown: string, known: string, password: string,
                                       matches: (string, string) -> bool)
    requires FindByEmail(users, unknown).None?
    requires FindByEmail(users, known).Some?
    requires var u := users[FindByEmail(users, known).value];
             u.password.Some? && !matches(password, u.password.value)
    ensures LoginReply(users, unknown, password, matches, false) == LoginReply(users, known, password, matches, false)
  {
  }

  /** Registering keeps emails and usernames unique. */
  lemma {:induction false} RegisterKeepsUnique(users: seq<User>, email: string, username: string,
                                               password: string, displayName: string, hash: string -> string,
                                               fault: bool)
    requires UniqueAccounts(users)
    ensures UniqueAccounts(RegisterReply(users, email, username, password, displayName, hash, fault).1)
  {
    var r := RegisterReply(users, email, username, password, displayName, hash, fault);
    if r.0.Success? {
      var n := |users|;
      var u := Build(email, username, Some(password), displayName);
      var saved := SaveHook(u, true, hash).user;
      assert r.1 == users + [saved];
      assert saved.email == u.email && saved.username == u.username by {
        assert saved.(password := u.password) == u;
      }
      assert !Taken(users, email, username);
      assert saved.email == NormalizeEmail(email) && saved.username == NormalizeName(username);
      forall i, j | 0 <= i < j < |r.1|
        ensures r.1[i].email != r.1[j].email && r.1[i].username != r.1[j].username
      {
        assert r.1[i] == users[i];
        if j == n {
          assert r.1[j] == saved;
          assert !(users[i].email == NormalizeEmail(email) || users[i].username == NormalizeName(username));
        } else {
          assert r.1[j] == users[j];
        }
      }
    }
  }

  /**
   * The user a successful registration stores: email lower-cased and
   * trimmed, username trimmed and within its length bounds, a local account,
   * and the password replaced by the hash of a password of at least six
   * characters.
   */
  lemma RegisteredUserIsValid(users: seq<User>, email: string, username: string, password: string,
                              displayName: string, hash: string -> string)
    requires RegisterReply(users, email, username, password, displayName, hash, false).0.Success?
    ensures var saved := RegisterReply(users, email, username, password, displayName, hash, false).1[|users|];
            && saved.email == NormalizeEmail(email) && NormalizeEmail(saved.email) == saved.email
            && saved.username == NormalizeName(username)
            && MinUsernameLength <= |saved.username| <= MaxUsernameLength
            && saved.authMethod == "local" && saved.googleId == None
            && saved.password == Some(hash(password)) && |password| >= MinPasswordLength
  {
    var u := Build(email, username, Some(password), displayName);
    var saved := SaveHook(u, true, hash).user;
    assert saved.(password := u.password) == u;
    NormalizedEmailIsFixpoint(email);
    ValidatedLocalPasswordsAreLong(u, hash);
  }

  /**
   * A successful registration can be followed by a login with the same
   * email and password, provided bcrypt's `compare` accepts a password
   * against its own hash.
   */
  lemma RegisterThenLogin(users: seq<User>, email: string, username: string, password: string,
                          displayName: string, hash: string -> string, matches: (string, string) -> bool)
    requires RegisterReply(users, email, username, password, displayName, hash, false).0.Success?
    requires matches(password, hash(password))
    ensures var (reply, users') := RegisterReply(users, email, username, password, displayName, hash, false);
            LoginReply(users', email, password, matches, false) == Success(200, "Login successful", reply.token, reply.user)
  {
    var (reply, users') := RegisterReply(users, email, username, password, displayName, hash, false);
    var n := |users|;
    var u := Build(email, username, Some(password), displayName);
    var saved := SaveHook(u, true, hash).user;
    assert users' == users + [saved];
    assert saved.email == NormalizeEmail(email) by {
      assert saved.(password := u.password) == u;
    }
    assert saved.password == Some(hash(password));
    assert !Taken(users, email, username);
    var found := FindByEmail(users', email);
    assert users'[n].email == NormalizeEmail(email);
    assert found.Some?;
    assert found == Some(n);
  }

  /** The `users` collection. */
  class UserCollection {
    var users: seq<User>

    ghost predicate Valid()
      reads this
    {
      UniqueAccounts(users)
    }

    constructor ()
      ensures Valid() && users == []
    {
      users := [];
    }

    /** `POST /register` */
    method Register(email: string, username: string, password: string, displayName: string,
                    hash: string -> string, fault: bool) returns (reply: AuthReply)
      requires Valid()
      modifies this
      ensures Valid()
      ensures (reply, users) == RegisterReply(old(users), email, username, password, displayName, hash, fault)
    {
      RegisterKeepsUnique(users, email, username, password, displayName, hash, fault);
      if fault {
        return Failure(500, CreateFailedError);
      }
      if Taken(users, email, username) {
        return Failure(400, DuplicateUserError);
      }
      var doc := new UserDocument(Build(email, username, Some(password), displayName));
      if !SchemaValid(doc.Value()) {
        return Failure(500, CreateFailedError);
      }
      var error := doc.PreSave(hash);
      if error.Some? {
        return Failure(500, CreateFailedError);
      }
      var id := |users|;
      users := users + [doc.Value()];
      reply := Success(201, "User created successfully", Token(id), Public(users, id));
    }

    /** `POST /login`: reads the collection and changes nothing. */
    method Login(email: string, password: string, matches: (string, string) -> bool, fault: bool)
      returns (reply: AuthReply)
      ensures reply == LoginReply(users, email, password, matches, fault)
      ensures reply.Failure? && reply.status == 401 ==> reply == Failure(401, InvalidCredentialsError)
    {
      if fault {
        return Failure(500, LoginFailedError);
      }
      var found := FindByEmail(users, email);
      if found.None? {
        return Failure(401, InvalidCredentialsError);
      }
      var id := found.value;
      if users[id].password.None? {
        return Failure(500, LoginFailedError);
      }
      if !matches(password, users[id].password.value) {
        return Failure(401, InvalidCredentialsError);
      }
      reply := Success(200, "Login successful", Token(id), Public(users, id));
    }
  }
}
