/** Registration and login of the backend (`account.rs`), and the routes
    under which `main.rs` serves them.

    The users table is a sequence of accounts. The outcomes of the
    database calls, the e-mail syntax check and the argon2 hashing and
    verification are inputs. */
module BackendAccount {
  import opened Wrappers
  import opened Text
  import HttpStatus
  import J = JsonValue

  /** `USERNAME_MAX_LEN`, in bytes of UTF-8. */
  const USERNAME_MAX_LEN: nat := 50


  /** A row of the users table. */
  datatype Account = Account(username: string, email: string, passwordHash: string)

  datatype SignupForm = SignupForm(username: string, email: string, password: string)

  datatype LoginForm = LoginForm(username: string, password: string)

  datatype RegisterError =
    | FieldTaken(usernameTaken: bool, emailTaken: bool)
    | ServerError
    | FieldInvalid(usernameInvalid: bool, emailInvalid: bool)

  datatype LoginError = InvalidField | ServerError

  /** What `register` answers: 201, or one of its errors. */
  datatype RegisterReply = Created | Rejected(error: RegisterError)

  /** What `login` answers: 200, or one of its errors. */
  datatype LoginReply = LoggedIn | Refused(error: LoginError)

  /** `into_response` of `RegisterError`: each kind has its own status. */
  function RegisterStatus(e: RegisterError): (status: nat)
    ensures status == HttpStatus.CONFLICT <==> e.FieldTaken?
    ensures status == HttpStatus.INTERNAL_SERVER_ERROR <==> e.ServerError?
    ensures status == HttpStatus.UNPROCESSABLE_ENTITY <==> e.FieldInvalid?
  {
    match e
    case FieldTaken(_, _) => HttpStatus.CONFLICT
    case ServerError => HttpStatus.INTERNAL_SERVER_ERROR
    case FieldInvalid(_, _) => HttpStatus.UNPROCESSABLE_ENTITY
  }

  /** The body of a `RegisterError` answer: `Json(self)` in serde's default,
      externally tagged form (one member named after the variant) for the
      two kinds with fields; no body for `ServerError`. */
  function RegisterBody(e: RegisterError): (body: Option<J.Value>)
    ensures body.Some? <==> !e.ServerError?
  {
    match e
    case FieldTaken(u, m) =>
      Some(J.Object([("FieldTaken", J.Object([("username_taken", J.Bool(u)), ("email_taken", J.Bool(m))]))]))
    case ServerError => None
    case FieldInvalid(u, m) =>
      Some(J.Object([("FieldInvalid", J.Object([("username_invalid", J.Bool(u)), ("email_invalid", J.Bool(m))]))]))
  }

  /** The status and body of a `register` answer. */
  function RegisterResponse(r: RegisterReply): (response: (nat, Option<J.Value>))
    ensures response.0 == HttpStatus.CREATED <==> r.Created?
    ensures r.Rejected? ==> response == (RegisterStatus(r.error), RegisterBody(r.error))
  {
    match r
    case Created => (HttpStatus.CREATED, None)
    case Rejected(e) => (RegisterStatus(e), RegisterBody(e))
  }

  /** `into_response` of `LoginError`. */
  function LoginStatus(e: LoginError): (status: nat)
    ensures status == HttpStatus.FORBIDDEN <==> e.InvalidField?
    ensures status == HttpStatus.INTERNAL_SERVER_ERROR <==> e.ServerError?
  {
    match e
    case InvalidField => HttpStatus.FORBIDDEN
    case ServerError => HttpStatus.INTERNAL_SERVER_ERROR
  }

  /** A username the backend accepts: at most 50 bytes. */
  predicate UsernameFits(username: string) {
    ByteLen(username) <= USERNAME_MAX_LEN
  }

  predicate UsernameTaken(users: seq<Account>, username: string) {
    exists i :: 0 <= i < |users| && users[i].username == username
  }

  predicate EmailTaken(users: seq<Account>, email: string) {
    exists i :: 0 <= i < |users| && users[i].email == email
  }

  /** The loop of `register_check`: each flag is or-ed with the row's
      equality, so a flag is set exactly when some row has that field. */
  method TakenFlags(rows: seq<Account>, username: string, email: string) returns (usernameTaken: bool, emailTaken: bool)
    ensures usernameTaken <==> UsernameTaken(rows, username)
    ensures emailTaken <==> EmailTaken(rows, email)
  {
    usernameTaken, emailTaken := false, false;
    for i := 0 to |rows|
      invariant usernameTaken <==> UsernameTaken(rows[..i], username)
      invariant emailTaken <==> EmailTaken(rows[..i], email)
    {
      assert rows[..i + 1] == rows[..i] + [rows[i]];
      usernameTaken := usernameTaken || rows[i].username == username;
      emailTaken := emailTaken || rows[i].email == email;
    }
    assert rows[..|rows|] == rows;
  }

  /** `register_check`: an over-long username and an e-mail address that is
      not valid are reported together (422); then a failing query is 500;
      then a username or an e-mail address already present is 409, with
      both flags; otherwise the form may be registered. */
  method RegisterCheck(rows: seq<Account>, form: SignupForm, emailValid: bool, queryFails: bool)
    returns (r: Option<RegisterError>)
    ensures !UsernameFits(form.username) || !emailValid ==>
      r == Some(FieldInvalid(!UsernameFits(form.username), !emailValid))
    ensures UsernameFits(form.username) && emailValid && queryFails ==> r == Some(RegisterError.ServerError)
    ensures UsernameFits(form.username) && emailValid && !queryFails ==>
      var usernameTaken := UsernameTaken(rows, form.username);
      var emailTaken := EmailTaken(rows, form.email);
      r == if usernameTaken || emailTaken then Some(FieldTaken(usernameTaken, emailTaken)) else None
  {
    var usernameInvalid := ByteLen(form.username) > USERNAME_MAX_LEN;
    var emailInvalid := !emailValid;
    if usernameInvalid || emailInvalid {
      return Some(FieldInvalid(usernameInvalid, emailInvalid));
    }
    if queryFails {
      return Some(RegisterError.ServerError);
    }
    var usernameTaken, emailTaken := TakenFlags(rows, form.username, form.email);
    if usernameTaken || emailTaken {
      return Some(FieldTaken(usernameTaken, emailTaken));
    }
    return None;
  }

  /** What registration keeps true of the users table: no username and no
      e-mail address twice, and every username within the limit. */
  predicate Registered(users: seq<Account>) {
    && (forall i, j :: 0 <= i < j < |users| ==> users[i].username != users[j].username)
    && (forall i, j :: 0 <= i < j < |users| ==> users[i].email != users[j].email)
    && (forall i :: 0 <= i < |users| ==> UsernameFits(users[i].username))
  }

  /** The first account with this username, from index `k` on: the row
      `fetch_optional` reads. */
  function FindUser(users: seq<Account>, username: string, k: nat): (r: Option<nat>)
    requires k <= |users|
    ensures r.Some? ==> k <= r.value < |users| && users[r.value].username == username
    ensures r.Some? ==> forall j :: k <= j < r.value ==> users[j].username != username
    ensures r.None? ==> forall j :: k <= j < |users| ==> users[j].username != username
    decreases |users| - k
  {
    if k == |users| then None
    else if users[k].username == username then Some(k)
    else FindUser(users, username, k + 1)
  }

  /** `login`: an over-long username or an unknown one is 403 and so is a
      password the stored hash does not verify; a failing query is 500; a
      stored hash that does not parse panics. `verify(hash, password)` is
      argon2's answer: None when the hash or its parameters do not parse. */
  function Login(users: seq<Account>, form: LoginForm, queryFails: bool, verify: (string, string) -> Option<bool>)
    : (r: Result<LoginReply>)
    ensures !UsernameFits(form.username) ==> r == Ok(Refused(InvalidField))
    ensures UsernameFits(form.username) && queryFails ==> r == Ok(Refused(LoginError.ServerError))
    ensures UsernameFits(form.username) && !queryFails && !UsernameTaken(users, form.username) ==> r == Ok(Refused(InvalidField))
    ensures r == Ok(LoggedIn) ==>
      exists i :: 0 <= i < |users| && users[i].username == form.username && verify(users[i].passwordHash, form.password) == Some(true)
    ensures r.Fail? ==> r == Panics(UNWRAP_ERR)
  {
    if ByteLen(form.username) > USERNAME_MAX_LEN then Ok(Refused(InvalidField))
    else if queryFails then Ok(Refused(LoginError.ServerError))
    else match FindUser(users, form.username, 0)
      case None => Ok(Refused(InvalidField))
      case Some(i) =>
        match verify(users[i].passwordHash, form.password)
        case None => Panics(UNWRAP_ERR)
        case Some(false) => Ok(Refused(InvalidField))
        case Some(true) => Ok(LoggedIn)
  }

  /** In a table registration built, the row found for a username is that
      user's own, so a registered user whose password verifies against the
      stored hash logs in, and one whose password does not is refused. */
  lemma RegisteredUserLogsIn(users: seq<Account>, i: nat, password: string, verify: (string, string) -> Option<bool>)
    requires Registered(users) && i < |users|
    requires verify(users[i].passwordHash, password).Some?
    ensures Login(users, LoginForm(users[i].username, password), false, verify)
      == Ok(if verify(users[i].passwordHash, password) == Some(true) then LoggedIn else Refused(InvalidField))
  {
    var found := FindUser(users, users[i].username, 0);
    assert found.Some?;
    assert found.value == i by {
      assert users[found.value].username == users[i].username;
    }
  }

  /** The users table. */
  class Accounts {
    var users: seq<Account>

    constructor ()
      ensures users == [] && Registered(users)
    {
      users := [];
    }

    /** `register`: the checks of `register_check` against the table, then
        the insertion of the username, the argon2 `hash` of the password and
        the e-mail address; a failing insertion is 500 and leaves the table
        as it was. Registration keeps the table `Registered`. */
    method Register(form: SignupForm, emailValid: bool, checkFails: bool, hash: string, insertFails: bool)
      returns (r: RegisterReply)
      modifies this
      ensures r.Created? <==>
        && UsernameFits(form.username) && emailValid && !checkFails
        && !UsernameTaken(old(users), form.username) && !EmailTaken(old(users), form.email)
        && !insertFails
      ensures r.Created? ==> users == old(users) + [Account(form.username, form.email, hash)]
      ensures r.Rejected? ==> users == old(users)
      ensures r.Rejected? && UsernameFits(form.username) && emailValid && !checkFails
          && !UsernameTaken(old(users), form.username) && !EmailTaken(old(users), form.email)
          ==> r.error == RegisterError.ServerError
      ensures r.Rejected? && (!UsernameFits(form.username) || !emailValid) ==>
        r.error == FieldInvalid(!UsernameFits(form.username), !emailValid)
      ensures UsernameFits(form.username) && emailValid && checkFails ==>
        r == Rejected(RegisterError.ServerError)
      ensures UsernameFits(form.username) && emailValid && !checkFails &&
              (UsernameTaken(old(users), form.username) || EmailTaken(old(users), form.email)) ==>
        r == Rejected(FieldTaken(UsernameTaken(old(users), form.username), EmailTaken(old(users), form.email)))
      ensures old(Registered(users)) ==> Registered(users)
    {
      var check := RegisterCheck(users, form, emailValid, checkFails);
      if check.Some? {
        return Rejected(check.value);
      }
      if insertFails {
        return Rejected(RegisterError.ServerError);
      }
      users := users + [Account(form.username, form.email, hash)];
      return Created;
    }
  }

  datatype HttpMethod = Get | Post

  datatype Endpoint = RegisterRoute | LoginRoute

  /** Where `users_router` is nested. */
  const USERS_PATH: string := "/users"

  /** The account routes: POST on the users path registers, GET logs in;
      any other path is not routed here. */
  function Route(m: HttpMethod, path: string): (r: Option<Endpoint>)
    ensures r.Some? <==> path == USERS_PATH
    ensures r == Some(RegisterRoute) <==> m == Post && path == USERS_PATH
  {
    if path != USERS_PATH then None
    else if m == Post then Some(RegisterRoute)
    else Some(LoginRoute)
  }
}
