/** Sessions of the backend (`session.rs`): every request passes through a
    middleware that reads the session cookie, renews the session row it
    names, or creates a new row and cookie when there is none.

    The session table is a map from session id to row. The database's
    answers (an error or not) and the clock readings of each pass of a
    retry loop are inputs; so is the UUID parser and the generator of new
    ids. A loop given too few passes to finish ends as "still retrying". */
module BackendSession {
  import opened Wrappers
  import HttpStatus

  const SESSION_COOKIE: string := "srs-session"

  /** A session lives one hour past its last renewal (seconds). */
  const SESSION_EXPIRATION: nat := 60 * 60

  /** Message of sqlx's `RowNotFound`, the error of `fetch_one` without a
      row. */
  const ROW_NOT_FOUND: string := "no rows returned by a query that expected to return at least one row"

  /** A session id (a 128-bit UUID). */
  type Uuid = nat

  /** A row of the session table: who is logged in, if anyone, and until
      when the session is valid (seconds since the epoch). */
  datatype Session = Session(username: Option<string>, expiration: int)

  /** What a request handler learns about its caller. */
  datatype AuthStatus = NonAuthenticated | Authenticated(user: string)

  /** `AuthStatus::from`: no user name is not authenticated; a name is
      authenticated as that user. */
  function AuthStatusFrom(username: Option<string>): (a: AuthStatus)
    ensures a.Authenticated? <==> username.Some?
    ensures a.Authenticated? ==> a.user == username.value
  {
    match username
    case None => NonAuthenticated
    case Some(name) => Authenticated(name)
  }

  /** The user name an authentication status carries. */
  function UsernameOf(a: AuthStatus): Option<string> {
    if a.Authenticated? then Some(a.user) else None
  }

  /** The conversion loses nothing: it is a bijection with its inverse. */
  lemma AuthStatusRoundTrip(username: Option<string>, a: AuthStatus)
    ensures UsernameOf(AuthStatusFrom(username)) == username
    ensures AuthStatusFrom(UsernameOf(a)) == a
  {
  }

  // ---------------------------------------------------------------------
  // The status among a request's extensions
  // ---------------------------------------------------------------------

  /** What the middleware leaves among the request's extensions, which are
      looked up by type: nothing, a plain `AuthStatus` (the type of what
      `Extension(AuthStatus::NonAuthenticated)` inserts), or a shared
      `Arc<AuthStatus>`. */
  datatype StatusExtension = NoStatus | PlainStatus(status: AuthStatus) | SharedStatus(status: AuthStatus)

  /** Whether a handler runs, with the status it extracts, or axum answers
      for it with a status code. */
  datatype Extracted = Reached(status: AuthStatus) | Refused(code: nat)

  /** The `Extension<Arc<AuthStatus>>` extractor of the handlers: only a
      shared status is found, and a missing one is answered 500 without
      running the handler. */
  function ExtractStatus(e: StatusExtension): (x: Extracted)
    ensures x.Reached? <==> e.SharedStatus?
    ensures x.Reached? ==> x.status == e.status
    ensures x.Refused? ==> x.code == HttpStatus.INTERNAL_SERVER_ERROR
  {
    match e
    case SharedStatus(status) => Reached(status)
    case _ => Refused(HttpStatus.INTERNAL_SERVER_ERROR)
  }

  /** The extension `session_management` leaves as written: a plain status
      on the path that makes a new session, none on the path with a valid
      cookie. The handlers' extractor refuses both. */
  function InsertedStatus(newSession: bool): (e: StatusExtension)
    ensures ExtractStatus(e) == Refused(HttpStatus.INTERNAL_SERVER_ERROR)
    ensures newSession <==> e.PlainStatus?
  {
    if newSession then PlainStatus(NonAuthenticated) else NoStatus
  }

  /** The extension the middleware evidently means to leave on both paths:
      the status of the session's user, shared. The handlers then run with
      exactly that status, and the user name is recovered from it. */
  function IntendedStatus(username: Option<string>): (e: StatusExtension)
    ensures ExtractStatus(e) == Reached(AuthStatusFrom(username))
    ensures UsernameOf(ExtractStatus(e).status) == username
  {
    SharedStatus(AuthStatusFrom(username))
  }

  // ---------------------------------------------------------------------
  // Expiry
  // ---------------------------------------------------------------------

  /** The row `login_session` writes: the user logged in, and the stored
      expiration pushed one hour further. */
  function LoggedIn(s: Session, username: string): (t: Session)
    ensures t.username == Some(username)
    ensures t.expiration > s.expiration
  {
    Session(Some(username), s.expiration + SESSION_EXPIRATION)
  }

  /** The row `validate_session` writes when it finds one at `now`: the
      user is logged out only when `now` is strictly past the expiration,
      and the session is renewed to one hour from `now`. */
  function Revalidated(s: Session, now: int): (t: Session)
    ensures t.expiration > now
    ensures t.username.Some? ==> t.username == s.username
    ensures now <= s.expiration ==> t.username == s.username
    ensures now > s.expiration ==> t.username.None?
  {
    Session(if now > s.expiration then None else s.username, now + SESSION_EXPIRATION)
  }

  /** A user who has just logged in stays logged in for a renewal at any
      time up to an hour past the old expiration, exactly then. */
  lemma LoginLastsAnHour(s: Session, username: string, now: int)
    ensures Revalidated(LoggedIn(s, username), now).username == Some(username)
        <==> now <= s.expiration + SESSION_EXPIRATION
  {
  }

  /** A renewed session keeps its user through the next hour: renewals no
      more than an hour apart never log anyone out. */
  lemma RenewalsKeepUser(s: Session, now: int, later: int)
    requires later <= now + SESSION_EXPIRATION
    requires now <= s.expiration
    ensures Revalidated(Revalidated(s, now), later).username == s.username
  {
  }

  // ---------------------------------------------------------------------
  // validate_session
  // ---------------------------------------------------------------------

  /** One pass of the loop of `validate_session`: whether the select
      succeeded, the clock when the pass began (the expiration of an
      inserted row is an hour after it), the clock read once a row is
      found, and whether the insert or update succeeded. */
  datatype Round = Round(selected: bool, insertAt: int, checkAt: int, written: bool)

  /** The loop of `validate_session` from pass `k` on, over the table
      `rows`: a failed select or write retries; with no row for the id, an
      inserted row (user none, an hour from the pass) is found on the next
      pass; a row found is renewed and, once written, its user and
      expiration are returned. Gives the outcome (`None` when the passes
      run out) and the table. */
  function Validate(rows: map<Uuid, Session>, uuid: Uuid, rounds: seq<Round>, k: nat)
    : (r: (Option<(Option<string>, int)>, map<Uuid, Session>))
    requires k <= |rounds|
    ensures r.1.Keys <= rows.Keys + {uuid}
    ensures forall id :: id in rows && id != uuid ==> id in r.1 && r.1[id] == rows[id]
    decreases |rounds| - k
  {
    if k == |rounds| then (None, rows)
    else
      var d := rounds[k];
      if !d.selected then Validate(rows, uuid, rounds, k + 1)
      else if uuid !in rows then
        Validate(if d.written then rows[uuid := Session(None, d.insertAt + SESSION_EXPIRATION)] else rows,
                 uuid, rounds, k + 1)
      else if d.written then
        var s := Revalidated(rows[uuid], d.checkAt);
        (Some((s.username, s.expiration)), rows[uuid := s])
      else Validate(rows, uuid, rounds, k + 1)
  }

  /** Validation never invents a user: a user name comes back only if the
      session row held it before; the table changes only at that id, which
      ends as the returned session, renewed to an hour after one of the
      passes' clock readings. */
  lemma {:induction false} ValidateReturnsStoredUser(rows: map<Uuid, Session>, uuid: Uuid, rounds: seq<Round>, k: nat)
    requires k <= |rounds|
    ensures Validate(rows, uuid, rounds, k).0.Some? ==>
      var (username, expiration) := Validate(rows, uuid, rounds, k).0.value;
      && (username.Some? ==> uuid in rows && rows[uuid].username == username)
      && Validate(rows, uuid, rounds, k).1 == rows[uuid := Session(username, expiration)]
      && exists i :: k <= i < |rounds| && expiration == rounds[i].checkAt + SESSION_EXPIRATION
    ensures Validate(rows, uuid, rounds, k).0.None? ==>
      Validate(rows, uuid, rounds, k).1.Keys == rows.Keys + (if uuid in Validate(rows, uuid, rounds, k).1 then {uuid} else {})
    decreases |rounds| - k
  {
    if k < |rounds| {
      var d := rounds[k];
      if !d.selected || (uuid in rows && !d.written) {
        ValidateReturnsStoredUser(rows, uuid, rounds, k + 1);
      } else if uuid !in rows {
        var rows' := if d.written then rows[uuid := Session(None, d.insertAt + SESSION_EXPIRATION)] else rows;
        ValidateReturnsStoredUser(rows', uuid, rounds, k + 1);
        if Validate(rows', uuid, rounds, k + 1).0.Some? {
          assert rows'[uuid := Validate(rows', uuid, rounds, k + 1).1[uuid]] == rows[uuid := Validate(rows', uuid, rounds, k + 1).1[uuid]];
        }
      } else {
        assert rounds[k].checkAt + SESSION_EXPIRATION == Validate(rows, uuid, rounds, k).0.value.1;
      }
    }
  }

  /** A session whose user is still within the expiration at every pass
      keeps its user. */
  lemma {:induction false} ValidateKeepsLiveUser(rows: map<Uuid, Session>, uuid: Uuid, rounds: seq<Round>, k: nat)
    requires k <= |rounds| && uuid in rows
    requires forall i :: k <= i < |rounds| ==> rounds[i].checkAt <= rows[uuid].expiration
    ensures Validate(rows, uuid, rounds, k).0.Some? ==> Validate(rows, uuid, rounds, k).0.value.0 == rows[uuid].username
    decreases |rounds| - k
  {
    if k < |rounds| {
      ValidateKeepsLiveUser(rows, uuid, rounds, k + 1);
    }
  }

  // ---------------------------------------------------------------------
  // create_new_session
  // ---------------------------------------------------------------------

  /** Why an insert failed: the database refused it (a unique id clash
      among them) or the connection failed. */
  datatype InsertError = DatabaseError | OtherError

  /** One pass of the loop of `create_new_session`: the fresh id drawn, the
      clock, and the failure the database reports, if any. */
  datatype Attempt = Attempt(uuid: Uuid, now: int, error: Option<InsertError>)

  /** An insert succeeds when the database reports nothing and the id is
      new (the id is the table's key). */
  predicate Inserts(rows: map<Uuid, Session>, a: Attempt) {
    a.error.None? && a.uuid !in rows
  }

  /** The loop of `create_new_session` from pass `k` on: the id and the
      expiration of the first pass whose insert succeeds. */
  function Create(rows: map<Uuid, Session>, attempts: seq<Attempt>, k: nat): (r: Option<(Uuid, int)>)
    requires k <= |attempts|
    ensures r.Some? ==> r.value.0 !in rows
    decreases |attempts| - k
  {
    if k == |attempts| then None
    else if Inserts(rows, attempts[k]) then Some((attempts[k].uuid, attempts[k].now + SESSION_EXPIRATION))
    else Create(rows, attempts, k + 1)
  }

  /** A new session is the id of a pass whose insert succeeds, and
      expires an hour after the clock of that pass. */
  lemma {:induction false} CreateIsFresh(rows: map<Uuid, Session>, attempts: seq<Attempt>, k: nat)
    requires k <= |attempts|
    ensures Create(rows, attempts, k).Some? ==>
      exists i :: k <= i < |attempts| && Inserts(rows, attempts[i])
        && Create(rows, attempts, k).value == (attempts[i].uuid, attempts[i].now + SESSION_EXPIRATION)
    ensures Create(rows, attempts, k).None? <==> forall i :: k <= i < |attempts| ==> !Inserts(rows, attempts[i])
    decreases |attempts| - k
  {
    if k < |attempts| {
      CreateIsFresh(rows, attempts, k + 1);
    }
  }

  class SessionStore {
    /** The session table. */
    var rows: map<Uuid, Session>

    constructor (rows: map<Uuid, Session>)
      ensures this.rows == rows
    {
      this.rows := rows;
    }

    /** `login_session`: the expiration of the session is read, then the
        row is updated with the user and an hour more. A select or update
        error, or no row for the id, is an error and changes nothing. */
    method LoginSession(uuid: Uuid, username: string, selectError: Option<string>, updateError: Option<string>)
      returns (r: Result<int>)
      modifies this
      ensures selectError.Some? ==> r == Err(selectError.value) && rows == old(rows)
      ensures selectError.None? && uuid !in old(rows) ==> r == Err(ROW_NOT_FOUND) && rows == old(rows)
      ensures selectError.None? && uuid in old(rows) && updateError.Some? ==>
        r == Err(updateError.value) && rows == old(rows)
      ensures r.Ok? <==> selectError.None? && uuid in old(rows) && updateError.None?
      ensures r.Ok? ==>
        && rows == old(rows)[uuid := LoggedIn(old(rows)[uuid], username)]
        && r.value == rows[uuid].expiration
    {
      if selectError.Some? {
        return Err(selectError.value);
      }
      if uuid !in rows {
        return Err(ROW_NOT_FOUND);
      }
      var futureExpiration := rows[uuid].expiration + SESSION_EXPIRATION;
      if updateError.Some? {
        return Err(updateError.value);
      }
      rows := rows[uuid := Session(Some(username), futureExpiration)];
      return Ok(futureExpiration);
    }

    /** `validate_session` over the passes given. */
    method ValidateSession(uuid: Uuid, rounds: seq<Round>) returns (r: Option<(Option<string>, int)>)
      modifies this
      ensures (r, rows) == Validate(old(rows), uuid, rounds, 0)
    {
      for i := 0 to |rounds|
        invariant Validate(old(rows), uuid, rounds, 0) == Validate(rows, uuid, rounds, i)
      {
        var d := rounds[i];
        if d.selected {
          if uuid !in rows {
            if d.written {
              rows := rows[uuid := Session(None, d.insertAt + SESSION_EXPIRATION)];
            }
          } else {
            var oldExpiration := rows[uuid].expiration;
            var futureUsername := if d.checkAt > oldExpiration then None else rows[uuid].username;
            if d.written {
              rows := rows[uuid := Session(futureUsername, d.checkAt + SESSION_EXPIRATION)];
              return Some((futureUsername, d.checkAt + SESSION_EXPIRATION));
            }
          }
        }
      }
      return None;
    }

    /** `create_new_session` over the passes given. */
    method CreateNewSession(attempts: seq<Attempt>) returns (r: Option<(Uuid, int)>)
      modifies this
      ensures r == Create(old(rows), attempts, 0)
      ensures r.Some? ==> rows == old(rows)[r.value.0 := Session(None, r.value.1)]
      ensures r.None? ==> rows == old(rows)
    {
      for i := 0 to |attempts|
        invariant Create(rows, attempts, 0) == Create(rows, attempts, i)
        invariant rows == old(rows)
      {
        var a := attempts[i];
        if a.error.None? && a.uuid !in rows {
          var expiration := a.now + SESSION_EXPIRATION;
          rows := rows[a.uuid := Session(None, expiration)];
          return Some((a.uuid, expiration));
        }
      }
      return None;
    }

    /** `session_management` up to the call of the next handler, which is
        not modelled. A cookie that parses as an id renews that session and
        sets the cookie again with the new expiration; no cookie, or one
        that does not parse (whose cookie header is then dropped), makes a
        new session whose cookie is set, whose id is written into the
        request's cookie header, and whose request is given a plain
        not-authenticated status. Neither path leaves a status the handlers
        can extract. `None` when a loop is still retrying. */
    method SessionManagement(cookie: Option<string>, parse: string -> Option<Uuid>,
                             rounds: seq<Round>, attempts: seq<Attempt>)
      returns (r: Option<Middleware>)
      modifies this
      ensures r.Some? ==> ExtractStatus(r.value.status) == Refused(HttpStatus.INTERNAL_SERVER_ERROR)
      ensures cookie.Some? && parse(cookie.value).Some? ==>
        var uuid := parse(cookie.value).value;
        var (validated, table) := Validate(old(rows), uuid, rounds, 0);
        && rows == table
        && (r.Some? <==> validated.Some?)
        && (r.Some? ==> r.value == Middleware(uuid, validated.value.1, InsertedStatus(false), false, Option.None))
      ensures cookie.None? || parse(cookie.value).None? ==>
        && (r.Some? <==> Create(old(rows), attempts, 0).Some?)
        && (r.Some? ==>
              var (uuid, expiration) := Create(old(rows), attempts, 0).value;
              && r.value == Middleware(uuid, expiration, InsertedStatus(true), cookie.Some?, Some(uuid))
              && rows == old(rows)[uuid := Session(None, expiration)])
    {
      var removedHeader := false;
      if cookie.Some? {
        var parsed := parse(cookie.value);
        if parsed.Some? {
          var validated := ValidateSession(parsed.value, rounds);
          if validated.None? {
            return None;
          }
          return Some(Middleware(parsed.value, validated.value.1, NoStatus, false, Option.None));
        }
        removedHeader := true;
      }
      var created := CreateNewSession(attempts);
      if created.None? {
        return None;
      }
      return Some(Middleware(created.value.0, created.value.1, PlainStatus(NonAuthenticated), removedHeader,
                             Some(created.value.0)));
    }
  }

  /** What the middleware does to a request before passing it on: the
      session cookie it sets on the response (id and expiration), the
      status extension it leaves, whether it dropped the request's cookie
      header, and the id it wrote into that header as `srs-session=<id>`,
      if any. */
  datatype Middleware = Middleware(sessionId: Uuid, expires: int, status: StatusExtension,
                                   droppedCookieHeader: bool, requestCookie: Option<Uuid>)
}
