/** The credential store of `auth.controller.ts`: the express-validator rule
    lists for registration and login, and the `register`, `login` and
    `getCurrentUser` handlers acting on the user table. Password hashing
    and comparison (bcrypt) are the two function fields of a `Crypto`
    value; the email check (validator.js) is a predicate parameter. */
module AuthController {
  import opened Common
  import opened Json
  import opened Strings
  import opened Store
  import opened Tokens

  /** A registration body. An absent email, password or role reads as the
      empty string, as express-validator reads it; the names are whatever
      JSON value the body carries, `None` when it has none. */
  datatype RegisterBody = RegisterBody(
    email: string,
    password: string,
    role: string,
    firstName: Option<Value>,
    lastName: Option<Value>)

  datatype LoginBody = LoginBody(email: string, password: string)

  /** One entry of `validationResult(req).array()`: the field and message. */
  datatype FieldError = FieldError(path: string, msg: string)

  /** `bcrypt.hash(password, salt)` and `bcrypt.compare(password, hash)`. */
  datatype Crypto = Crypto(hash: (string, string) -> string, compare: (string, string) -> bool)

  /** The response bodies of the three handlers. */
  datatype AuthBody =
    | Errors(errors: seq<FieldError>)
    | Session(token: string, user: PublicUser)
    | Current(user: PublicUser)

  const RegistrationRoles := ["ADMIN", "RECRUITER", "JOBSEEKER"]
  const MinPasswordLength := 8
  const BadEmail := FieldError("email", "Please provide a valid email")
  const ShortPassword := FieldError("password", "Password must be at least 8 characters long")
  const BadRole := FieldError("role", "Invalid role specified")
  const MissingPassword := FieldError("password", "Password is required")
  /** express-validator's default message, for the `isString` rules. */
  const BadFirstName := FieldError("firstName", "Invalid value")
  const BadLastName := FieldError("lastName", "Invalid value")

  const EmailInUse := AppError("Email already in use", 400)
  const InvalidCredentials := AppError("Invalid email or password", 401)
  const NotActive := AppError("Account is not active", 403)
  const UserNotFound := AppError("User not found", 404)

  /** `optional().isString()`: only `undefined` skips the rule, so `null`,
      a number or any other non-string fails it. */
  predicate OptionalString(v: Option<Value>) {
    v.None? || v.value.Str?
  }

  /** `validateRegistration`: the failing rules, in rule order. The password
      length is the one validator.js's `isLength` measures. */
  function RegistrationErrors(b: RegisterBody, isEmail: string -> bool): (errs: seq<FieldError>)
    ensures errs == [] <==>
      && isEmail(b.email) && ValidatorLength(b.password) >= MinPasswordLength && b.role in RegistrationRoles
      && OptionalString(b.firstName) && OptionalString(b.lastName)
    ensures BadEmail in errs <==> !isEmail(b.email)
    ensures ShortPassword in errs <==> ValidatorLength(b.password) < MinPasswordLength
    ensures BadRole in errs <==> b.role !in RegistrationRoles
    ensures BadFirstName in errs <==> !OptionalString(b.firstName)
    ensures BadLastName in errs <==> !OptionalString(b.lastName)
  {
    (if isEmail(b.email) then [] else [BadEmail])
    + (if ValidatorLength(b.password) >= MinPasswordLength then [] else [ShortPassword])
    + (if b.role in RegistrationRoles then [] else [BadRole])
    + (if OptionalString(b.firstName) then [] else [BadFirstName])
    + (if OptionalString(b.lastName) then [] else [BadLastName])
  }

  /** A name as the profile row stores it; only strings pass validation. */
  function NameOf(v: Option<Value>): Option<string> {
    if v.Some? && v.value.Str? then Some(v.value.s) else None
  }

  /** A registration that passes validation stores the names it carries
      as given and leaves absent ones unset. */
  lemma RegisteredNames(b: RegisterBody, isEmail: string -> bool)
    requires RegistrationErrors(b, isEmail) == []
    ensures NameOf(b.firstName).Some? <==> b.firstName.Some?
    ensures b.firstName.Some? ==> b.firstName == Some(Str(NameOf(b.firstName).value))
    ensures NameOf(b.lastName).Some? <==> b.lastName.Some?
    ensures b.lastName.Some? ==> b.lastName == Some(Str(NameOf(b.lastName).value))
  {
  }

  /** `validateLogin`: a valid email and a non-empty password. */
  function LoginErrors(b: LoginBody, isEmail: string -> bool): (errs: seq<FieldError>)
    ensures errs == [] <==> isEmail(b.email) && b.password != ""
    ensures MissingPassword in errs <==> b.password == ""
  {
    (if isEmail(b.email) then [] else [BadEmail])
    + (if b.password != "" then [] else [MissingPassword])
  }

  /** The row `register` creates: the hash in place of the password, no
      last login, the profile with the given names, and the table's default
      status. */
  function NewUser(id: nat, b: RegisterBody, passwordHash: string, defaultStatus: string): (u: User)
    ensures u.id == id && u.email == b.email && u.role == b.role && u.status == defaultStatus
    ensures u.passwordHash == passwordHash && u.lastLogin.None?
    ensures u.profile.firstName.Some? <==> b.firstName.Some? && b.firstName.value.Str?
    ensures u.profile.lastName.Some? <==> b.lastName.Some? && b.lastName.value.Str?
  {
    User(id, b.email, passwordHash, b.role, defaultStatus, None, Profile(NameOf(b.firstName), NameOf(b.lastName)))
  }

  method Register(db: Db, b: RegisterBody, isEmail: string -> bool, crypto: Crypto, salt: string,
                  ts: TokenService, env: JwtEnv, defaultStatus: string) returns (res: Response<AuthBody>)
    requires db.Valid()
    modifies db`users, db`nextUserId
    ensures db.Valid()
    ensures RegistrationErrors(b, isEmail) != [] ==>
      res == Respond(400, Errors(RegistrationErrors(b, isEmail)))
      && db.users == old(db.users) && db.nextUserId == old(db.nextUserId)
    ensures RegistrationErrors(b, isEmail) == [] && EmailTaken(old(db.users), b.email) ==>
      res == Forward(EmailInUse) && db.users == old(db.users) && db.nextUserId == old(db.nextUserId)
    ensures RegistrationErrors(b, isEmail) == [] && !EmailTaken(old(db.users), b.email) ==>
      var u := NewUser(old(db.nextUserId), b, crypto.hash(b.password, salt), defaultStatus);
      && u.id !in old(db.users)
      && db.users == old(db.users)[u.id := u]
      && res == Respond(201, Session(IssueToken(ts, u, env), Public(u)))
  {
    var errs := RegistrationErrors(b, isEmail);
    if errs != [] {
      return Respond(400, Errors(errs));
    }
    if EmailTaken(db.users, b.email) {
      return Forward(EmailInUse);
    }
    var hashed := crypto.hash(b.password, salt);
    var u := NewUser(db.nextUserId, b, hashed, defaultStatus);
    db.users := db.users[u.id := u];
    db.nextUserId := db.nextUserId + 1;
    res := Respond(201, Session(IssueToken(ts, u, env), Public(u)));
  }

  method Login(db: Db, b: LoginBody, isEmail: string -> bool, crypto: Crypto,
               ts: TokenService, env: JwtEnv, now: nat) returns (res: Response<AuthBody>)
    requires db.Valid()
    modifies db`users
    ensures db.Valid()
    ensures LoginErrors(b, isEmail) != [] ==>
      res == Respond(400, Errors(LoginErrors(b, isEmail))) && db.users == old(db.users)
    ensures LoginErrors(b, isEmail) == [] && !EmailTaken(old(db.users), b.email) ==>
      res == Forward(InvalidCredentials) && db.users == old(db.users)
    ensures LoginErrors(b, isEmail) == [] && EmailTaken(old(db.users), b.email) ==>
      var u := old(db.users)[ByEmail(old(db.users), b.email).value];
      && (!crypto.compare(b.password, u.passwordHash) ==>
            res == Forward(InvalidCredentials) && db.users == old(db.users))
      && (crypto.compare(b.password, u.passwordHash) && u.status != "ACTIVE" ==>
            res == Forward(NotActive) && db.users == old(db.users))
      && (crypto.compare(b.password, u.passwordHash) && u.status == "ACTIVE" ==>
            db.users == old(db.users)[u.id := u.(lastLogin := Some(now))]
            && res == Respond(200, Session(IssueToken(ts, u, env), Public(u))))
  {
    var errs := LoginErrors(b, isEmail);
    if errs != [] {
      return Respond(400, Errors(errs));
    }
    if !EmailTaken(db.users, b.email) {
      return Forward(InvalidCredentials);
    }
    var id :| id in db.users && db.users[id].email == b.email;
    var u := db.users[id];
    if !crypto.compare(b.password, u.passwordHash) {
      return Forward(InvalidCredentials);
    }
    if u.status != "ACTIVE" {
      return Forward(NotActive);
    }
    db.users := db.users[id := u.(lastLogin := Some(now))];
    // The response carries the record as read before the update.
    res := Respond(200, Session(IssueToken(ts, u, env), Public(u)));
  }

  /** `getCurrentUser` for the id that the authentication gate attached. */
  function GetCurrentUser(users: map<nat, User>, id: nat): (r: Response<AuthBody>)
    ensures id !in users <==> r == Forward(UserNotFound)
    ensures id in users ==> r == Respond(200, Current(Public(users[id])))
  {
    if id in users then Respond(200, Current(Public(users[id]))) else Forward(UserNotFound)
  }

  /** Registering and then logging in with the same credentials, when the
      hash checks against its password and new users are ACTIVE, returns a
      token for the new user whose payload names its id and role. */
  method RegisterThenLogin(db: Db, b: RegisterBody, isEmail: string -> bool, crypto: Crypto, salt: string,
                           ts: TokenService, env: JwtEnv, now: nat) returns (registered: Response<AuthBody>, loggedIn: Response<AuthBody>)
    requires db.Valid()
    requires RegistrationErrors(b, isEmail) == [] && !EmailTaken(db.users, b.email)
    requires crypto.compare(b.password, crypto.hash(b.password, salt))
    modifies db`users, db`nextUserId
    ensures registered.Respond? && registered.statusCode == 201 && registered.body.Session?
    ensures loggedIn.Respond? && loggedIn.statusCode == 200 && loggedIn.body.Session?
    ensures var u := registered.body.user;
      && loggedIn.body.user == u && u.email == b.email && u.role == b.role
      && loggedIn.body.token == ts.sign(Claims(u.id, b.role), SigningKey(env), Lifetime(env))
  {
    registered := Register(db, b, isEmail, crypto, salt, ts, env, "ACTIVE");
    var id := old(db.nextUserId);
    assert db.users[id].email == b.email;
    loggedIn := Login(db, LoginBody(b.email, b.password), isEmail, crypto, ts, env, now);
  }
}
