/** The user handlers: registration, login and the user listing. Password hashing
    and comparison, the email syntax check and token signing are oracles passed
    in as functions. */
module UserController {
  import opened Common
  import opened Models
  import opened AuthMiddleware

  /** A sign-up body as received; `unknownKeys` lists fields the schema does not name. */
  datatype SignUpBody = SignUpBody(
    username: Option<string>,
    email: Option<string>,
    password: Option<string>,
    address: Option<string>,
    unknownKeys: seq<string>)

  datatype SignUpFields = SignUpFields(username: string, email: string, password: string, address: Option<string>)

  /** A login body as received. */
  datatype LogInBody = LogInBody(email: Option<string>, password: Option<string>, unknownKeys: seq<string>)

  /** What a successful sign-up or sign-in sends back. */
  datatype Session = Session(id: Id, username: string, token: string)

  /** A user as `getAllUsers` sends it: every field but the password. */
  datatype PublicUser = PublicUser(id: Id, username: string, email: string, role: string, address: Option<string>)

  /** `Joi.string().email()`: a non-empty string the email check accepts. */
  predicate ValidEmail(s: string, isEmail: string -> bool) {
    s != "" && isEmail(s)
  }

  /** The sign-up schema: a username of at least three characters, a valid email,
      a password of at least six characters, optionally an address (the empty
      string allowed), and no other field. */
  function ValidateSignUp(b: SignUpBody, isEmail: string -> bool): (r: Option<SignUpFields>)
    ensures r.Some? <==>
              && b.username.Some? && |b.username.value| >= 3
              && b.email.Some? && ValidEmail(b.email.value, isEmail)
              && b.password.Some? && |b.password.value| >= 6
              && b.unknownKeys == []
    ensures r.Some? ==> r.value == SignUpFields(b.username.value, b.email.value, b.password.value, b.address)
  {
    if && b.username.Some? && |b.username.value| >= 3
       && b.email.Some? && ValidEmail(b.email.value, isEmail)
       && b.password.Some? && |b.password.value| >= 6
       && b.unknownKeys == []
    then Some(SignUpFields(b.username.value, b.email.value, b.password.value, b.address))
    else None
  }

  /** The login schema: a valid email and a non-empty password, nothing else. */
  predicate ValidLogIn(b: LogInBody, isEmail: string -> bool) {
    && b.email.Some? && ValidEmail(b.email.value, isEmail)
    && b.password.Some? && b.password.value != ""
    && b.unknownKeys == []
  }

  /** The claims `generateToken` signs for a user. */
  function ClaimsOf(u: User): Payload {
    Payload(u.id, u.role, u.username)
  }

  /** The document `signUp` stores: the hashed password and the fixed role. */
  function Registered(id: Id, f: SignUpFields, hash: string -> string): (u: User)
    ensures u.id == id && u.username == f.username && u.email == f.email && u.address == f.address
    ensures u.password == hash(f.password)
    ensures u.role == DefaultRole
  {
    User(id, f.username, f.email, hash(f.password), "registered user", f.address)
  }

  /** `signUp`. An invalid body gives 400 and an email already stored gives 409,
      both without writing; otherwise exactly one user is appended, with role
      `registered user` and the hashed password, and the reply carries its id,
      its username and a token for its claims. Emails stay unique. */
  method SignUp(db: Database, body: SignUpBody, newId: Id,
                isEmail: string -> bool, hash: string -> string, sign: Payload -> string)
    returns (reply: Reply<Session>)
    requires db.Valid()
    requires IsStoredId(newId) && forall i :: 0 <= i < |db.users| ==> db.users[i].id != newId
    modifies db
    ensures db.Valid()
    ensures db.recipes == old(db.recipes) && db.categories == old(db.categories)
    ensures ValidateSignUp(body, isEmail).None? ==> reply == Failure(BadRequest)
    ensures (ValidateSignUp(body, isEmail).Some? &&
             UserByEmail(old(db.users), ValidateSignUp(body, isEmail).value.email).Some?) ==>
              reply == Failure(Conflict)
    ensures (ValidateSignUp(body, isEmail).Some? &&
             UserByEmail(old(db.users), ValidateSignUp(body, isEmail).value.email).None?) ==>
              reply.Success?
    ensures reply.Failure? ==> db.users == old(db.users)
    ensures reply.Success? ==>
              && ValidateSignUp(body, isEmail).Some?
              && UserByEmail(old(db.users), ValidateSignUp(body, isEmail).value.email).None?
              && var u := Registered(newId, ValidateSignUp(body, isEmail).value, hash);
                 && db.users == old(db.users) + [u]
                 && reply == Success(Created, Session(newId, u.username, sign(ClaimsOf(u))))
  {
    var validated := ValidateSignUp(body, isEmail);
    if validated.None? {
      return Failure(BadRequest);
    }
    var f := validated.value;
    if UserByEmail(db.users, f.email).Some? {
      return Failure(Conflict);
    }
    var u := Registered(newId, f, hash);
    db.users := db.users + [u];
    reply := Success(Created, Session(newId, u.username, sign(ClaimsOf(u))));
  }

  /** `signIn`: 400 for an invalid body, 401 when no user has the email or the
      password does not match the stored hash, otherwise that user's id, username
      and a token for its claims. */
  function SignIn(us: seq<User>, body: LogInBody, isEmail: string -> bool,
                  compare: (string, string) -> bool, sign: Payload -> string): (r: Reply<Session>)
    ensures r.Failure? ==> r.status == BadRequest || r.status == Unauthorized
    ensures r == Failure(BadRequest) <==> !ValidLogIn(body, isEmail)
    ensures ValidLogIn(body, isEmail) && UserByEmail(us, body.email.value).None? ==> r == Failure(Unauthorized)
    ensures r.Success? ==>
              && ValidLogIn(body, isEmail)
              && UserByEmail(us, body.email.value).Some?
              && var u := us[UserByEmail(us, body.email.value).value];
                 && u.email == body.email.value
                 && compare(body.password.value, u.password)
                 && r == Success(OK, Session(u.id, u.username, sign(ClaimsOf(u))))
    ensures (ValidLogIn(body, isEmail) && UserByEmail(us, body.email.value).Some? &&
             !compare(body.password.value, us[UserByEmail(us, body.email.value).value].password)) ==>
              r == Failure(Unauthorized)
    ensures (ValidLogIn(body, isEmail) && UserByEmail(us, body.email.value).Some? &&
             compare(body.password.value, us[UserByEmail(us, body.email.value).value].password)) ==>
              r.Success?
  {
    if !ValidLogIn(body, isEmail) then Failure(BadRequest)
    else match UserByEmail(us, body.email.value) {
      case None => Failure(Unauthorized)
      case Some(i) =>
        if !compare(body.password.value, us[i].password) then Failure(Unauthorized)
        else Success(OK, Session(us[i].id, us[i].username, sign(ClaimsOf(us[i]))))
    }
  }

  /** Signing in with the credentials of a fresh registration yields the same
      session the registration returned, whenever the comparison accepts a
      password against its own hash. */
  lemma {:induction false} SignUpThenSignIn(us: seq<User>, id: Id, f: SignUpFields, isEmail: string -> bool,
                                           hash: string -> string, compare: (string, string) -> bool,
                                           sign: Payload -> string)
    requires UserByEmail(us, f.email).None?
    requires ValidEmail(f.email, isEmail) && f.password != ""
    requires compare(f.password, hash(f.password))
    ensures var u := Registered(id, f, hash);
            SignIn(us + [u], LogInBody(Some(f.email), Some(f.password), []), isEmail, compare, sign)
              == Success(OK, Session(id, f.username, sign(ClaimsOf(u))))
  {
    var u := Registered(id, f, hash);
    FindAppend(us, u, f.email);
  }

  lemma {:induction false} FindAppend(us: seq<User>, u: User, email: string)
    requires UserByEmail(us, email).None? && u.email == email
    ensures UserByEmail(us + [u], email) == Some(|us|)
  {
    var r := UserByEmail(us + [u], email);
    assert (us + [u])[|us|].email == email;
    assert forall k :: 0 <= k < |us| ==> (us + [u])[k] == us[k];
  }

  /** The token of a session lets its holder through `userAuth` as the user it
      was made for, whenever `Bearer <token>` is sent, the token is a single word
      and verification gives back the claims signing put in, and the user's role
      is one the guard admits. */
  lemma {:induction false} SessionTokenAdmitted(u: User, sign: Payload -> string, verify: string -> Option<Payload>)
    requires u.role in GuardRoles
    requires sign(ClaimsOf(u)) != "" && ' ' !in sign(ClaimsOf(u))
    requires verify(sign(ClaimsOf(u))) == Some(ClaimsOf(u))
    ensures UserAuth(Some("Bearer " + sign(ClaimsOf(u))), verify) == Caller(ClaimsOf(u))
    ensures GetAuth(Some("Bearer " + sign(ClaimsOf(u))), verify) == Caller(ClaimsOf(u))
  {
    var token := sign(ClaimsOf(u));
    TokenOfBearer("Bearer", token, "");
    assert "Bearer" + " " + token + "" == "Bearer " + token;
  }

  /** The token a registration returns admits the new user at once: the guard
      sees the new id, the fixed role `registered user` and the username. */
  lemma RegisteredTokenAdmitted(id: Id, f: SignUpFields, hash: string -> string,
                                sign: Payload -> string, verify: string -> Option<Payload>)
    requires var p := ClaimsOf(Registered(id, f, hash));
             sign(p) != "" && ' ' !in sign(p) && verify(sign(p)) == Some(p)
    ensures var token := sign(ClaimsOf(Registered(id, f, hash)));
            UserAuth(Some("Bearer " + token), verify) == Caller(Payload(id, DefaultRole, f.username))
  {
    SessionTokenAdmitted(Registered(id, f, hash), sign, verify);
  }

  /** A user's view without the password. */
  function Public(u: User): (p: PublicUser)
    ensures p.id == u.id && p.username == u.username && p.email == u.email
    ensures p.role == u.role && p.address == u.address
  {
    PublicUser(u.id, u.username, u.email, u.role, u.address)
  }

  /** `getAllUsers`: every stored user, in natural order, without the password. */
  function GetAllUsers(us: seq<User>): (r: seq<PublicUser>)
    ensures |r| == |us|
    ensures forall i :: 0 <= i < |us| ==> r[i] == Public(us[i])
  {
    seq(|us|, i requires 0 <= i < |us| => Public(us[i]))
  }

  /** Two users that differ only in their password hash are listed identically:
      the listing carries nothing of the password. */
  lemma ListingHidesPasswords(us: seq<User>, i: nat, password: string)
    requires i < |us|
    ensures GetAllUsers(us[i := us[i].(password := password)]) == GetAllUsers(us)
  {
    var us' := us[i := us[i].(password := password)];
    assert forall k :: 0 <= k < |us| ==> Public(us'[k]) == Public(us[k]);
  }
}
