/** The sign-up page of the frontend (`signup.rs`): the checks on the form
    before anything is sent, the request to the backend and how its answer
    becomes an error shown to the user, and the title and description of
    each error.

    The zxcvbn strength estimate and the network are inputs; the signals of
    the page are the fields of a class. */
module FrontendSignup {
  import opened Wrappers
  import opened Text
  import HttpStatus
  import J = JsonValue
  import A = BackendAccount

  datatype SignupError =
    | PasswordRange
    | FieldMissing
    | ServerProblem
    | UnprocessableData
    | FieldTaken(username: bool, email: bool)
    | WeakPassword(warning: Option<string>, description: seq<string>)

  // ---------------------------------------------------------------------
  // Messages
  // ---------------------------------------------------------------------

  const PASSWORD_RANGE_TITLE: string := "Password has invalid length."
  const FIELD_MISSING_TITLE: string := "One of form's field is missing."
  const SERVER_PROBLEM_TITLE: string := "Server problem."
  const UNPROCESSABLE_TITLE: string := "Unprocessable data."
  const FIELD_TAKEN_TITLE: string := "Account is already registered at credentials."
  const WEAK_PASSWORD: string := "Weak password."
  const BOTH_TAKEN: string := "Username and email are already taken."
  const USERNAME_TAKEN: string := "Username is already taken."
  const EMAIL_TAKEN: string := "Email is already taken."
  const PASSWORD_RANGE_TEXT: string := "Password has invalid length. It should contain more than 7 characters."
  const FIELD_MISSING_TEXT: string := "Please fill in all of the form's fields."
  const SERVER_PROBLEM_TEXT: string := "Problem with server connection. Please try again later."
  const UNPROCESSABLE_TEXT: string := "Server returned some unprocessable data. Please try again later."

  /** The six kinds of error, numbered in declaration order. */
  function Kind(e: SignupError): (n: nat)
    ensures n < 6
  {
    match e
    case PasswordRange => 0
    case FieldMissing => 1
    case ServerProblem => 2
    case UnprocessableData => 3
    case FieldTaken(_, _) => 4
    case WeakPassword(_, _) => 5
  }

  /** `error_title`. A weak password's title is "Weak password." followed by
      zxcvbn's warning, if there is one, after a space. */
  function ErrorTitle(e: SignupError): (title: string)
    ensures e.PasswordRange? ==> title == PASSWORD_RANGE_TITLE
    ensures e.FieldMissing? ==> title == FIELD_MISSING_TITLE
    ensures e.ServerProblem? ==> title == SERVER_PROBLEM_TITLE
    ensures e.UnprocessableData? ==> title == UNPROCESSABLE_TITLE
    ensures e.FieldTaken? ==> title == FIELD_TAKEN_TITLE
    ensures e.WeakPassword? ==>
      title == WEAK_PASSWORD + (if e.warning.Some? then " " + e.warning.value else "")
  {
    match e
    case PasswordRange => PASSWORD_RANGE_TITLE
    case FieldMissing => FIELD_MISSING_TITLE
    case ServerProblem => SERVER_PROBLEM_TITLE
    case UnprocessableData => UNPROCESSABLE_TITLE
    case FieldTaken(_, _) => FIELD_TAKEN_TITLE
    case WeakPassword(warning, _) =>
      if warning.Some? then WEAK_PASSWORD + " " + warning.value else WEAK_PASSWORD
  }

  /** The title tells the kinds of error apart: errors of distinct kinds
      have distinct titles. */
  lemma TitleTellsKind(a: SignupError, b: SignupError)
    ensures Kind(a) != Kind(b) ==> ErrorTitle(a) != ErrorTitle(b)
  {
    TitleInitial(a);
    TitleInitial(b);
  }

  /** Each kind's title starts with its own letter. */
  lemma TitleInitial(e: SignupError)
    ensures |ErrorTitle(e)| > 0
    ensures ErrorTitle(e)[0] == (match e
      case PasswordRange => 'P'
      case FieldMissing => 'O'
      case ServerProblem => 'S'
      case UnprocessableData => 'U'
      case FieldTaken(_, _) => 'A'
      case WeakPassword(_, _) => 'W')
  {
    assert PASSWORD_RANGE_TITLE[0] == 'P' && FIELD_MISSING_TITLE[0] == 'O' && SERVER_PROBLEM_TITLE[0] == 'S';
    assert UNPROCESSABLE_TITLE[0] == 'U' && WEAK_PASSWORD[0] == 'W';
    // A long literal is read letter by letter only once it is cut in two.
    assert FIELD_TAKEN_TITLE == "Account" + " is already registered at credentials.";
  }

  /** Each suggestion followed by a newline, in order. */
  function Lines(suggestions: seq<string>): (text: string)
  {
    if suggestions == [] then ""
    else Lines(suggestions[..|suggestions| - 1]) + suggestions[|suggestions| - 1] + "\n"
  }

  /** The lines of two lists of suggestions are the lines of each, one after
      the other. */
  lemma {:induction false} LinesAppend(a: seq<string>, b: seq<string>)
    ensures Lines(a + b) == Lines(a) + Lines(b)
    decreases |b|
  {
    if b == [] {
      assert a + b == a;
    } else {
      var front := b[..|b| - 1];
      assert (a + b)[..|a + b| - 1] == a + front;
      LinesAppend(a, front);
    }
  }

  /** One suggestion is one line. */
  lemma LinesOne(s: string)
    ensures Lines([s]) == s + "\n"
  {
    assert [s][..0] == [];
  }

  /** `error_description`. The description of a weak password is built in
      a loop that writes each suggestion and a newline. */
  method ErrorDescription(e: SignupError) returns (message: string)
    ensures e.PasswordRange? ==> message == PASSWORD_RANGE_TEXT
    ensures e.FieldMissing? ==> message == FIELD_MISSING_TEXT
    ensures e.ServerProblem? ==> message == SERVER_PROBLEM_TEXT
    ensures e.UnprocessableData? ==> message == UNPROCESSABLE_TEXT
    ensures e.FieldTaken? && e.username && e.email ==> message == BOTH_TAKEN
    ensures e.FieldTaken? && e.username && !e.email ==> message == USERNAME_TAKEN
    ensures e.FieldTaken? && !e.username ==> message == EMAIL_TAKEN
    ensures e.WeakPassword? ==> message == Lines(e.description)
  {
    match e {
      case PasswordRange => message := PASSWORD_RANGE_TEXT;
      case FieldMissing => message := FIELD_MISSING_TEXT;
      case ServerProblem => message := SERVER_PROBLEM_TEXT;
      case UnprocessableData => message := UNPROCESSABLE_TEXT;
      case FieldTaken(username, email) =>
        if username && email {
          message := BOTH_TAKEN;
        } else if username {
          message := USERNAME_TAKEN;
        } else {
          message := EMAIL_TAKEN;
        }
      case WeakPassword(_, description) =>
        message := "";
        for i := 0 to |description|
          invariant message == Lines(description[..i])
        {
          assert description[..i + 1][..i] == description[..i];
          message := message + description[i] + "\n";
        }
        assert description[..|description|] == description;
    }
  }

  // ---------------------------------------------------------------------
  // The form
  // ---------------------------------------------------------------------

  /** The minimum password length, in bytes. */
  const PASSWORD_MIN_LEN: nat := 8

  /** The lowest zxcvbn score accepted. */
  const MIN_SCORE: nat := 3

  /** zxcvbn's feedback: a warning and suggestions, as text. */
  datatype Feedback = Feedback(warning: Option<string>, suggestions: seq<string>)

  /** zxcvbn's estimate of the password's strength. */
  datatype Grade = Grade(score: nat, feedback: Option<Feedback>)

  /** The checks of `submit_button`, in order: an empty field, then a
      password under 8 bytes, then a weak password (zxcvbn scores it below
      3), which shows zxcvbn's warning and suggestions. `grade` is zxcvbn's
      answer (None when it refuses the password); it is asked only once the
      first two checks pass, and unwrapping a missing answer or missing
      feedback panics. Ok(None): the form may be sent. */
  function FormError(username: string, email: string, password: string, grade: Option<Grade>)
    : (r: Result<Option<SignupError>>)
    ensures password == [] || username == [] || email == [] ==> r == Ok(Some(FieldMissing))
    ensures password != [] && username != [] && email != [] && ByteLen(password) < PASSWORD_MIN_LEN ==>
      r == Ok(Some(PasswordRange))
    ensures r == Ok(None) <==>
      && username != [] && email != [] && ByteLen(password) >= PASSWORD_MIN_LEN
      && grade.Some? && grade.value.score >= MIN_SCORE
    ensures r.Ok? && r.value.Some? && r.value.value.WeakPassword? ==>
      && grade.Some? && grade.value.score < MIN_SCORE && grade.value.feedback.Some?
      && r.value.value == WeakPassword(grade.value.feedback.value.warning, grade.value.feedback.value.suggestions)
    ensures r.Fail? ==> r == Panics(UNWRAP_NONE) || r == Panics(UNWRAP_ERR)
  {
    var passwordLength := ByteLen(password);
    if passwordLength == 0 || username == [] || email == [] then Ok(Some(FieldMissing))
    else if passwordLength < PASSWORD_MIN_LEN then Ok(Some(PasswordRange))
    else if grade.None? then Panics(UNWRAP_ERR)
    else if grade.value.score < MIN_SCORE then
      if grade.value.feedback.None? then Panics(UNWRAP_NONE)
      else
        var feedback := grade.value.feedback.value;
        Ok(Some(WeakPassword(feedback.warning, feedback.suggestions)))
    else Ok(None)
  }

  /** A form that passes the checks has a username, an e-mail address and a
      password of at least 8 bytes, which is at least 8 characters only
      when the password is ASCII: the byte count is never below the
      character count. */
  lemma SentFormsAreFilled(username: string, email: string, password: string, grade: Option<Grade>)
    requires FormError(username, email, password, grade) == Ok(None)
    ensures username != [] && email != [] && password != []
    ensures |password| <= ByteLen(password)
  {
  }

  // ---------------------------------------------------------------------
  // The answer of the backend
  // ---------------------------------------------------------------------

  /** `SignupMessage`, the error body the page expects. */
  datatype SignupMessage =
    | Taken(usernameTaken: bool, emailTaken: bool)
    | Invalid(usernameInvalid: bool, emailInvalid: bool)

  const REPAIR_IMPLEMENTATION: string := "Repair implementation."
  const CRITICAL_ERROR: string := "Critical error."

  /** The two boolean fields of a struct variant, found by name (serde
      ignores other members). */
  function Flags(v: J.Value, first: string, second: string): (r: Option<(bool, bool)>)
    ensures r.Some? ==> v.Object? && J.BoolMember(v.fields, first) == Some(r.value.0)
                        && J.BoolMember(v.fields, second) == Some(r.value.1)
  {
    if !v.Object? then None
    else
      match (J.BoolMember(v.fields, first), J.BoolMember(v.fields, second))
      case (Some(a), Some(b)) => Some((a, b))
      case _ => None
  }

  /** `SignupMessage` as declared, `#[serde(tag = "type")]`: an object whose
      "type" member names the variant and whose other members are its
      fields. */
  function DecodeTaggedMessage(v: J.Value): (r: Option<SignupMessage>)
    ensures r.Some? ==> v.Object? && J.Member(v.fields, "type", 0).Some?
  {
    if !v.Object? then None
    else
      var tag := J.Member(v.fields, "type", 0);
      if tag == Some(J.String("FieldTaken")) then
        match Flags(v, "username_taken", "email_taken")
        case Some((u, m)) => Some(Taken(u, m))
        case None => None
      else if tag == Some(J.String("FieldInvalid")) then
        match Flags(v, "username_invalid", "email_invalid")
        case Some((u, m)) => Some(Invalid(u, m))
        case None => None
      else None
  }

  /** `SignupMessage` in serde's default, externally tagged form, the one
      `RegisterError` is written in: an object with one member, named after
      the variant, whose value holds the fields. */
  function DecodeMessage(v: J.Value): (r: Option<SignupMessage>)
    ensures r.Some? ==> v.Object? && |v.fields| == 1
  {
    if !v.Object? || |v.fields| != 1 then None
    else
      var (tag, inner) := v.fields[0];
      if tag == "FieldTaken" then
        match Flags(inner, "username_taken", "email_taken")
        case Some((u, m)) => Some(Taken(u, m))
        case None => None
      else if tag == "FieldInvalid" then
        match Flags(inner, "username_invalid", "email_invalid")
        case Some((u, m)) => Some(Invalid(u, m))
        case None => None
      else None
  }

  /** Every error body the backend writes is read back as the message it
      came from. */
  lemma DecodeRegisterBody(e: A.RegisterError)
    requires !e.ServerError?
    ensures DecodeMessage(A.RegisterBody(e).value) ==
      if e.FieldTaken? then Some(Taken(e.usernameTaken, e.emailTaken)) else Some(Invalid(e.usernameInvalid, e.emailInvalid))
  {
    var inner := A.RegisterBody(e).value.fields[0].1;
    assert J.Member(inner.fields, inner.fields[1].0, 1) == Some(inner.fields[1].1);
  }

  /** The body as declared never reads a backend error body: those have no
      "type" member, so a 409 or 422 from the backend becomes
      UnprocessableData on the page. */
  lemma TaggedDecodingRejectsRegisterBody(e: A.RegisterError)
    requires !e.ServerError?
    ensures DecodeTaggedMessage(A.RegisterBody(e).value).None?
    ensures Extract(A.RegisterBody(e), DecodeTaggedMessage) == Ok(UnprocessableData)
  {
    var fields := A.RegisterBody(e).value.fields;
    assert J.Member(fields, "type", 1).None?;
  }

  /** `From<SignupMessage>`: the taken flags are copied; an invalid-field
      message means the page let through a form the backend refuses, and
      panics. */
  function FromMessage(message: SignupMessage): (r: Result<SignupError>)
    ensures message.Taken? ==> r == Ok(FieldTaken(message.usernameTaken, message.emailTaken))
    ensures message.Invalid? ==> r == Panics(REPAIR_IMPLEMENTATION)
  {
    match message
    case Taken(u, m) => Ok(FieldTaken(u, m))
    case Invalid(_, _) => Panics(REPAIR_IMPLEMENTATION)
  }

  /** `extract_from`: a body that cannot be read or decoded (`body` None or
      `decode` None) is UnprocessableData; a decoded message goes through
      `FromMessage`. */
  function Extract(body: Option<J.Value>, decode: J.Value -> Option<SignupMessage>): (r: Result<SignupError>)
    ensures body.None? || decode(body.value).None? ==> r == Ok(UnprocessableData)
    ensures body.Some? && decode(body.value).Some? ==> r == FromMessage(decode(body.value).value)
  {
    if body.None? then Ok(UnprocessableData)
    else match decode(body.value)
      case None => Ok(UnprocessableData)
      case Some(message) => FromMessage(message)
  }

  /** An answer of the backend: its status and its body, None when the
      body is not JSON. */
  datatype Reply = Reply(status: nat, body: Option<J.Value>)

  /** `Result<(), SignupError>` of `signup_request`. */
  datatype Outcome = Done | Refused(error: SignupError)

  /** `signup_request` on the answer (None: the request failed): 201 is
      done; 500 and a failed request are ServerProblem; 422 and 409 read
      the error from the body with `decode`; any other status panics. The
      page as written decodes with `DecodeTaggedMessage`, the form its
      `SignupMessage` declares. */
  function SignupRequest(reply: Option<Reply>, decode: J.Value -> Option<SignupMessage>): (r: Result<Outcome>)
    ensures reply.None? ==> r == Ok(Refused(ServerProblem))
    ensures r == Ok(Done) <==> reply.Some? && reply.value.status == HttpStatus.CREATED
    ensures reply.Some? && reply.value.status == HttpStatus.INTERNAL_SERVER_ERROR ==> r == Ok(Refused(ServerProblem))
    ensures reply.Some? && (reply.value.status == HttpStatus.UNPROCESSABLE_ENTITY || reply.value.status == HttpStatus.CONFLICT) ==>
      match Extract(reply.value.body, decode)
      case Ok(e) => r == Ok(Refused(e))
      case Fail(f) => r == Fail(f)
    ensures (reply.Some? && reply.value.status !in {HttpStatus.CREATED, HttpStatus.INTERNAL_SERVER_ERROR,
                                                    HttpStatus.UNPROCESSABLE_ENTITY, HttpStatus.CONFLICT})
      ==> r == Panics(CRITICAL_ERROR)
  {
    if reply.None? then Ok(Refused(ServerProblem))
    else if reply.value.status == HttpStatus.CREATED then Ok(Done)
    else if reply.value.status == HttpStatus.INTERNAL_SERVER_ERROR then Ok(Refused(ServerProblem))
    else if reply.value.status == HttpStatus.UNPROCESSABLE_ENTITY || reply.value.status == HttpStatus.CONFLICT then
      match Extract(reply.value.body, decode)
      case Ok(e) => Ok(Refused(e))
      case Fail(f) => Fail(f)
    else Panics(CRITICAL_ERROR)
  }

  /** As written, the page cannot tell what `register` refused: every
      answer with a body (a taken or an invalid field) is shown as
      UnprocessableData. */
  lemma RefusalsBecomeUnprocessable(r: A.RegisterReply)
    requires r.Rejected? && !r.error.ServerError?
    ensures var (status, body) := A.RegisterResponse(r);
      SignupRequest(Some(Reply(status, body)), DecodeTaggedMessage) == Ok(Refused(UnprocessableData))
  {
    TaggedDecodingRejectsRegisterBody(r.error);
  }

  /** Decoding in the form the backend writes, the page reports what
      `register` answered: created is done, a taken field shows both flags,
      a server error is a server problem, and an invalid field (a form the
      page's own checks let through) panics. */
  lemma SignupFollowsRegister(r: A.RegisterReply)
    ensures var (status, body) := A.RegisterResponse(r);
      SignupRequest(Some(Reply(status, body)), DecodeMessage) ==
        if r.Created? then Ok(Done)
        else if r.error.FieldTaken? then Ok(Refused(FieldTaken(r.error.usernameTaken, r.error.emailTaken)))
        else if r.error.ServerError? then Ok(Refused(ServerProblem))
        else Panics(REPAIR_IMPLEMENTATION)
  {
    if r.Rejected? && !r.error.ServerError? {
      DecodeRegisterBody(r.error);
    }
  }

  /** A form the page sends can still be refused as invalid by the backend:
      the page checks neither the username's length nor the e-mail
      address, so a 51-byte username passes the page and fails
      registration. */
  lemma LongUsernamePassesPage(password: string, grade: Grade)
    requires ByteLen(password) >= PASSWORD_MIN_LEN && grade.score >= MIN_SCORE
    ensures var username := seq(51, _ => 'a');
      && FormError(username, "a@b.c", password, Some(grade)) == Ok(None)
      && !A.UsernameFits(username)
  {
    var username := seq(51, _ => 'a');
    assert ByteLen(username) >= |username|;
  }

  // ---------------------------------------------------------------------
  // Where the page sends the form
  // ---------------------------------------------------------------------

  /** The path of `SIGNUP_ADDRESS` as written. */
  const SIGNUP_PATH_AS_WRITTEN: string := "/users/signup"

  /** The path `register` is served under. */
  const SIGNUP_PATH: string := A.USERS_PATH

  /** The backend has no route at the written path: the POST is answered
      404, on which `signup_request` panics. */
  lemma SignupPathAsWrittenIsNotRouted()
    ensures A.Route(A.Post, SIGNUP_PATH_AS_WRITTEN).None?
    ensures SignupRequest(Some(Reply(HttpStatus.NOT_FOUND, None)), DecodeTaggedMessage) == Panics(CRITICAL_ERROR)
  {
  }

  /** POST on the users path reaches `register`. */
  lemma SignupPathReachesRegister()
    ensures A.Route(A.Post, SIGNUP_PATH) == Some(A.RegisterRoute)
  {
  }

  // ---------------------------------------------------------------------
  // The page
  // ---------------------------------------------------------------------

  /** The signals of `SignupPage`. */
  class SignupPage {
    var username: string
    var email: string
    var password: string
    var visibleError: Option<SignupError>
    var registrationProcess: bool
    var registrationError: Option<SignupError>
    var accountCreated: bool

    constructor ()
      ensures username == [] && email == [] && password == []
      ensures visibleError.None? && registrationError.None?
      ensures !registrationProcess && !accountCreated
    {
      username, email, password := [], [], [];
      visibleError, registrationError := None, None;
      registrationProcess, accountCreated := false, false;
    }

    /** `submit_button`: clears the success flag, then shows the first
        failed check, or clears the shown error and starts the request.
        A panic is returned and leaves the signals as they were when it
        struck. */
    method Submit(grade: Option<Grade>) returns (panic: Option<string>)
      modifies this
      ensures panic.Some? <==> FormError(username, email, password, grade).Fail?
      ensures username == old(username) && email == old(email) && password == old(password)
      ensures registrationError == old(registrationError)
      ensures !accountCreated
      ensures panic.Some? ==> visibleError == old(visibleError) && registrationProcess == old(registrationProcess)
      ensures panic.None? ==> visibleError == FormError(username, email, password, grade).value
      ensures panic.None? ==> registrationProcess == (visibleError.None? || old(registrationProcess))
    {
      accountCreated := false;
      var passwordLength := ByteLen(password);
      if passwordLength == 0 || username == [] || email == [] {
        visibleError := Some(FieldMissing);
      } else if passwordLength < PASSWORD_MIN_LEN {
        visibleError := Some(PasswordRange);
      } else {
        if grade.None? {
          return Some(UNWRAP_ERR);
        }
        if grade.value.score < MIN_SCORE {
          if grade.value.feedback.None? {
            return Some(UNWRAP_NONE);
          }
          var feedback := grade.value.feedback.value;
          visibleError := Some(WeakPassword(feedback.warning, feedback.suggestions));
        } else {
          visibleError := None;
          registrationProcess := true;
        }
      }
      return None;
    }

    /** The end of the request `Submit` started: success sets the success
        flag, a refusal is kept as the registration error, and the request
        is no longer in progress; `signup_request` panicking leaves the
        signals as they were. `decode` reads error bodies, as in
        `SignupRequest`. */
    method Complete(reply: Option<Reply>, decode: J.Value -> Option<SignupMessage>) returns (panic: Option<string>)
      modifies this
      ensures panic.Some? <==> SignupRequest(reply, decode).Fail?
      ensures username == old(username) && email == old(email) && password == old(password)
      ensures visibleError == old(visibleError)
      ensures panic.Some? ==>
        && accountCreated == old(accountCreated)
        && registrationError == old(registrationError)
        && registrationProcess == old(registrationProcess)
      ensures panic.None? ==> !registrationProcess
      ensures panic.None? ==> accountCreated == (SignupRequest(reply, decode) == Ok(Done) || old(accountCreated))
      ensures panic.None? ==>
        registrationError ==
          (if SignupRequest(reply, decode).value.Refused? then Some(SignupRequest(reply, decode).value.error) else old(registrationError))
    {
      var outcome := SignupRequest(reply, decode);
      if outcome.Fail? {
        return Some(outcome.failure.reason);
      }
      if outcome.value.Done? {
        accountCreated := true;
      } else {
        registrationError := Some(outcome.value.error);
      }
      registrationProcess := false;
      return None;
    }
  }
}
