/**
 * The `User` schema (server/models/User.js): what its setters store, what
 * its validators accept, and the `pre("save")` hook that checks and hashes
 * the password. Mongoose runs validation before the hook, and the unique
 * indexes are checked by the database on insert, outside this module.
 * bcrypt is the opaque function `hash` (its random salt folded in).
 */
module UserModel {
  import opened Common
  import opened JsString

  /** A user document, after the schema's setters. A missing string is `None`. */
  datatype User = User(email: string, username: string, password: Option<string>, displayName: string,
                       googleId: Option<string>, authMethod: string)

  const MinUsernameLength: nat := 3
  const MaxUsernameLength: nat := 20
  const MinPasswordLength: nat := 6
  const DefaultAuthMethod: string := "local"

  /**
   * Why the hook stops a save: `PasswordTooShort` is the error "Password
   * must be at least 6 characters long", `HashFailed` a rejection by bcrypt.
   */
  datatype HookError = PasswordTooShort | HashFailed

  /** `next()` with the (possibly rewritten) document, or `next(error)`. */
  datatype HookResult = Next(user: User) | Abort(error: HookError)

  /** The `lowercase` and `trim` setters of `email`. */
  function NormalizeEmail(email: string): (r: string)
    ensures |r| <= |email|
    ensures r == [] <==> Blank(email)
  {
    ToLower(Trim(email))
  }

  /** The `trim` setter of `username` and `displayName`. */
  function NormalizeName(name: string): (r: string)
    ensures |r| <= |name|
    ensures r == [] <==> Blank(name)
  {
    Trim(name)
  }

  lemma LowerIdempotent(s: string)
    ensures ToLower(ToLower(s)) == ToLower(s)
  {
  }

  /**
   * A stored email is already trimmed and lower-case, so setting it again
   * (or querying with it) does not change it.
   */
  lemma NormalizedEmailIsFixpoint(email: string)
    ensures NormalizeEmail(NormalizeEmail(email)) == NormalizeEmail(email)
    ensures |NormalizeEmail(email)| <= |email|
  {
    var t := Trim(email);
    LowerTrimCommute(t);
    TrimIdempotent(email);
    LowerIdempotent(t);
  }

  /**
   * `new User({email, username, password, displayName})`: the setters run
   * on assignment, and `authMethod` takes its default.
   */
  function Build(email: string, username: string, password: Option<string>, displayName: string): (u: User)
    ensures u.email == NormalizeEmail(email) && u.username == NormalizeName(username)
    ensures u.displayName == NormalizeName(displayName)
    ensures u.password == password && u.googleId == None && u.authMethod == DefaultAuthMethod
  {
    User(NormalizeEmail(email), NormalizeName(username), password, NormalizeName(displayName), None,
         DefaultAuthMethod)
  }

  /** `password` is required exactly when no Google id is set. */
  predicate PasswordRequired(u: User)
    ensures PasswordRequired(u) <==> u.googleId.None? || u.googleId.value == ""
  {
    !Truthy(u.googleId)
  }

  /**
   * The schema's validators: `required` (which also refuses `""`), the
   * length bounds of `username` and the `authMethod` enum.
   */
  predicate SchemaValid(u: User)
    ensures SchemaValid(u) && u.googleId == None ==> u.password.Some? && u.password.value != ""
    ensures SchemaValid(u) ==> |u.username| >= MinUsernameLength && u.email != ""
  {
    && u.email != ""
    && u.username != "" && MinUsernameLength <= |u.username| <= MaxUsernameLength
    && (PasswordRequired(u) ==> Truthy(u.password))
    && u.displayName != ""
    && (u.authMethod == "local" || u.authMethod == "google")
  }

  /** With a Google id set, validation does not look at the password at all. */
  lemma PasswordOptionalWithGoogleId(u: User)
    ensures Truthy(u.googleId) ==> (SchemaValid(u) <==> SchemaValid(u.(password := None)))
  {
  }

  /**
   * The `pre("save")` hook. It lets the save through untouched when the
   * password is unmodified or the user is not a local one; otherwise it
   * refuses a non-empty password shorter than six characters and replaces
   * the password by its hash. bcrypt refuses a missing password.
   */
  function SaveHook(u: User, passwordModified: bool, hash: string -> string): (r: HookResult)
    ensures !passwordModified || u.authMethod != "local" ==> r == Next(u)
    ensures r.Abort? && r.error == PasswordTooShort <==>
              passwordModified && u.authMethod == "local" && Truthy(u.password)
              && |u.password.value| < MinPasswordLength
    ensures r.Next? && passwordModified && u.authMethod == "local" ==>
              u.password.Some? && r.user == u.(password := Some(hash(u.password.value)))
    ensures r.Next? ==> r.user.(password := u.password) == u
    ensures passwordModified && u.authMethod == "local" && u.password.Some?
            && !(Truthy(u.password) && |u.password.value| < MinPasswordLength) ==>
              r == Next(u.(password := Some(hash(u.password.value))))
    ensures r.Abort? && r.error == HashFailed <==> passwordModified && u.authMethod == "local" && u.password.None?
  {
    if !passwordModified || u.authMethod != "local" then Next(u)
    else if Truthy(u.password) && |u.password.value| < MinPasswordLength then Abort(PasswordTooShort)
    else match u.password
      case None => Abort(HashFailed)
      case Some(p) => Next(u.(password := Some(hash(p))))
  }

  /**
   * Validation runs first, so for a local user without a Google id (every
   * user `/register` creates) the hook's "non-empty" test never lets a
   * password through unchecked: whatever it hashes has at least six
   * characters.
   */
  lemma ValidatedLocalPasswordsAreLong(u: User, hash: string -> string)
    requires SchemaValid(u) && PasswordRequired(u) && u.authMethod == "local"
    requires SaveHook(u, true, hash).Next?
    ensures u.password.Some? && |u.password.value| >= MinPasswordLength
  {
  }

  /** A user document being saved: the hook reassigns its password in place. */
  class UserDocument {
    var email: string
    var username: string
    var password: Option<string>
    var displayName: string
    var googleId: Option<string>
    var authMethod: string
    /** `this.isModified("password")` */
    var passwordModified: bool

    function Value(): User
      reads this
    {
      User(email, username, password, displayName, googleId, authMethod)
    }

    /** A new document; a password given to it counts as modified. */
    constructor (u: User)
      ensures Value() == u && passwordModified == u.password.Some?
    {
      email, username, password := u.email, u.username, u.password;
      displayName, googleId, authMethod := u.displayName, u.googleId, u.authMethod;
      passwordModified := u.password.Some?;
    }

    /** `userSchema.pre("save", ...)`: `error` is what it passes to `next`. */
    method PreSave(hash: string -> string) returns (error: Option<HookError>)
      modifies this`password
      ensures var r := SaveHook(old(Value()), passwordModified, hash);
              && (r.Abort? ==> error == Some(r.error) && Value() == old(Value()))
              && (r.Next? ==> error == None && Value() == r.user)
    {
      if !passwordModified || authMethod != "local" {
        return None;
      }
      if Truthy(password) && |password.value| < MinPasswordLength {
        return Some(PasswordTooShort);
      }
      if password.None? {
        return Some(HashFailed);
      }
      password := Some(hash(password.value));
      error := None;
    }
  }
}
