/**
 * The registration and token endpoints. Password hashing, password
 * verification and token minting belong to an authentication module that is
 * not part of this model; they are passed in as functions.
 */
module UserRoutes {
  import opened Wrappers
  import opened Models
  import opened Database
  import Decimal

  /** An `HTTPException`: status code, `detail` text and extra response headers. */
  datatype HttpError = HttpError(status: int, detail: string, headers: map<string, string>)

  /** The login form: OAuth2 calls the email field `username`. */
  datatype LoginForm = LoginForm(username: string, password: string)

  const EmailAlreadyRegistered := HttpError(400, "Email already registered", map[])

  /**
   * FastAPI's answer to a request body that fails validation. Its `detail` is
   * a list of the validation errors, which is not modelled.
   */
  const InvalidRequestBody := HttpError(422, "", map[])

  /** The framework's answer to an exception the route does not catch, or to a response that fails its `response_model`. */
  const InternalServerError := HttpError(500, "Internal Server Error", map[])

  /** The single answer to every failed login, whatever the reason. */
  const IncorrectCredentials := HttpError(401, "Incorrect email or password", map["WWW-Authenticate" := "Bearer"])

  /**
   * `POST /users/register`. The body's `email` is an `EmailStr`: a text that
   * is not an address is refused before the route runs, and the route works
   * with the normalised address. A taken address is refused and nothing is
   * stored; otherwise one user is added under the next id with the hash of
   * the password, and the id and the email are sent back, the email validated
   * once more as the response's `EmailStr`.
   */
  method CreateUser(db: Db, user: UserCreate, hash: string -> string, check: EmailCheck)
    returns (r: Result<UserResponse, HttpError>)
    requires db.Valid()
    modifies db
    ensures db.Valid()
    ensures db.resumes == old(db.resumes) && db.nextResumeId == old(db.nextResumeId)
    ensures check(user.email).None? ==>
              && r == Failure(InvalidRequestBody)
              && db.users == old(db.users)
              && db.nextUserId == old(db.nextUserId)
    ensures check(user.email).Some? && EmailTaken(old(db.users), check(user.email).value) ==>
              && r == Failure(EmailAlreadyRegistered)
              && db.users == old(db.users)
              && db.nextUserId == old(db.nextUserId)
    ensures check(user.email).Some? && !EmailTaken(old(db.users), check(user.email).value) ==>
              var email := check(user.email).value;
              var id := old(db.nextUserId);
              && id !in old(db.users)
              && db.users == old(db.users)[id := User(id, email, hash(user.password))]
              && db.nextUserId == id + 1
              && r == (match check(email)
                       case Some(sent) => Success(UserResponse(id, sent))
                       case None => Failure(InternalServerError))
  {
    var validated := check(user.email);
    if validated.None? {
      return Failure(InvalidRequestBody);
    }
    var email := validated.value;
    if exists id | id in db.users :: db.users[id].email == email {
      return Failure(EmailAlreadyRegistered);
    }
    var hashedPassword := hash(user.password);
    var id := db.nextUserId;
    var newUser := User(id, email, hashedPassword);
    db.users := db.users[id := newUser];
    db.nextUserId := id + 1;
    match check(newUser.email) {
      case Some(sent) => r := Success(UserResponse(newUser.id, sent));
      case None => r := Failure(InternalServerError);
    }
  }

  /**
   * Two spellings of one address (the same address with the domain in other
   * letter case, say) are one registration: once either is stored, the other
   * is refused.
   */
  lemma SpellingsOfOneAddressCollide(users: map<nat, User>, id: nat, a: string, b: string, hashed: string, check: EmailCheck)
    requires check(a).Some? && check(b) == check(a)
    ensures EmailTaken(users[id := User(id, check(a).value, hashed)], check(b).value)
  {
    assert users[id := User(id, check(a).value, hashed)][id].email == check(b).value;
  }

  /**
   * `POST /token`. An unknown email and a wrong password give the same 401;
   * otherwise a bearer token whose subject is the user's id in decimal. The
   * form's `username` is a plain string compared with the stored address as
   * typed, without the normalisation registration applied.
   * The method has no `modifies` clause: logging in never changes the tables.
   */
  method LoginForAccessToken(db: Db, form: LoginForm, verify: (string, string) -> bool, mint: string -> string)
    returns (r: Result<Token, HttpError>)
    requires db.Valid()
    ensures !EmailTaken(db.users, form.username) ==> r == Failure(IncorrectCredentials)
    ensures forall id | id in db.users && db.users[id].email == form.username ::
              r == if verify(form.password, db.users[id].hashedPassword)
                   then Success(Token(mint(Decimal.NatToString(id)), "bearer"))
                   else Failure(IncorrectCredentials)
  {
    if !exists id | id in db.users :: db.users[id].email == form.username {
      return Failure(IncorrectCredentials);
    }
    var id :| id in db.users && db.users[id].email == form.username;
    var user := db.users[id];
    if !verify(form.password, user.hashedPassword) {
      return Failure(IncorrectCredentials);
    }
    var accessToken := mint(Decimal.NatToString(user.id));
    r := Success(Token(accessToken, "bearer"));
  }
}
