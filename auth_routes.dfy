/** The sign-in route (src/routes/auth.js): `POST /auth/sign-in` runs the
    body validator and then the handler, which looks the user up by
    username, compares the password and issues a token over the user's id. */
module AuthRoutes {
  import opened Values
  import opened StatusCodes
  import opened Errors
  import opened Store
  import opened Http
  import opened Oracles

  /** `validateSignIn`'s check: username (required) first, then password
      (required); only the first failure is reported. */
  function SignInBodyError(body: JsObject): (r: Option<ErrorCode>)
    ensures r == None <==>
      GetUsernameError(Get(body, "username"), true) == None && GetUserPasswordError(Get(body, "password"), true) == None
    ensures GetUsernameError(Get(body, "username"), true) != None ==> r == GetUsernameError(Get(body, "username"), true)
    ensures GetUsernameError(Get(body, "username"), true) == None ==> r == GetUserPasswordError(Get(body, "password"), true)
    ensures r in {None, Some(UsernameIsRequired), Some(UsernameInvalid), Some(UserPasswordIsRequired), Some(UserPasswordInvalid)}
  {
    var usernameError := GetUsernameError(Get(body, "username"), true);
    if usernameError.Some? then usernameError
    else GetUserPasswordError(Get(body, "password"), true)
  }

  /** What `validateSignIn` does with a request. */
  function SignInBodyVerdict(r: RequestState): (g: GuardResult)
    ensures g.Continue? <==> SignInBodyError(r.body) == None
    ensures g.Continue? ==> g.req == r
    ensures g.Reject? ==> g.status == StatusCode.BadRequest && g.error == Envelope(SignInBodyError(r.body).value, None)
    ensures !g.Throw?
  {
    RejectOn(SignInBodyError(r.body), StatusCode.BadRequest, r)
  }

  method ValidateSignIn(req: Request, res: Response) returns (next: bool)
    requires res.sent.None?
    modifies res
    ensures Enacted(SignInBodyVerdict(req.State()), next, req.State(), res.status, res.sent, old(res.status))
  {
    var usernameError := GetUsernameError(Get(req.body, "username"), true);
    if usernameError.Some? {
      res.Status(StatusCode.BadRequest);
      res.Json(ErrorBody(Error(usernameError.value, None)));
      return false;
    }
    var passwordError := GetUserPasswordError(Get(req.body, "password"), true);
    if passwordError.Some? {
      res.Status(StatusCode.BadRequest);
      res.Json(ErrorBody(Error(passwordError.value, None)));
      return false;
    }
    next := true;
  }

  /** The credentials in `body` identify user `u` of the store: `u` is
      stored under the body's (trimmed) username and the password check
      against its stored hash succeeds. */
  predicate Matches(body: JsObject, u: UserDoc, env: Env)
  {
    UsernameKey(Get(body, "username")) == Some(u.username)
    && Get(body, "password").Str?
    && env.compare(Get(body, "password").s, u.password) == Some(true)
  }

  /** What `signIn` answers. A store failure, a password the comparison
      cannot take, a failing comparison and a failing signer all throw
      inside the handler and become 500 `Unexpected`. */
  function SignInAnswer(body: JsObject, db: Db, env: Env): (a: Answer)
    ensures a.status == StatusCode.Ok <==> a.payload.TokenBody?
    ensures a.payload.TokenBody? ==>
      db.reachable && exists u :: u in db.docs && Matches(body, u, env) && env.sign(u.id) == Some(a.payload.token)
    ensures !a.payload.TokenBody? ==> a.payload.ErrorBody? && a.payload.error.message == None
    ensures a.status == StatusCode.Unauthorized <==>
      a == Failed(StatusCode.Unauthorized, SignInUserNotFound) || a == Failed(StatusCode.Unauthorized, SignInWrongPassword)
    ensures a.status == StatusCode.Ok || a.status == StatusCode.Unauthorized || a == Failed(StatusCode.InternalServerError, Unexpected)
    ensures !db.reachable ==> a == Failed(StatusCode.InternalServerError, Unexpected)
  {
    match LookupByUsername(db, Get(body, "username"))
    case Failure(_) => Failed(StatusCode.InternalServerError, Unexpected)
    case Success(None) => Failed(StatusCode.Unauthorized, SignInUserNotFound)
    case Success(Some(u)) =>
      var password := Get(body, "password");
      if !password.Str? then Failed(StatusCode.InternalServerError, Unexpected)
      else match env.compare(password.s, u.password)
        case None => Failed(StatusCode.InternalServerError, Unexpected)
        case Some(false) => Failed(StatusCode.Unauthorized, SignInWrongPassword)
        case Some(true) =>
          match env.sign(u.id)
          case None => Failed(StatusCode.InternalServerError, Unexpected)
          case Some(token) => Answer(StatusCode.Ok, TokenBody(token))
  }

  /** The handler `signIn`. */
  method SignIn(req: Request, res: Response, store: UserCollection, env: Env)
    requires res.sent.None? && res.status == StatusCode.Ok
    modifies res
    ensures res.sent.Some? && res.Answered() == SignInAnswer(req.body, store.State(), env)
  {
    // Each early 500 below is a throw caught by the handler's catch.
    var user := store.FindOne(Get(req.body, "username"));
    if user.Failure? {
      res.Status(StatusCode.InternalServerError);
      res.Json(ErrorBody(Error(Unexpected, None)));
      return;
    }
    if user.value.None? {
      res.Status(StatusCode.Unauthorized);
      res.Json(ErrorBody(Error(SignInUserNotFound, None)));
      return;
    }
    var u := user.value.value;
    var password := Get(req.body, "password");
    var passOk := if password.Str? then env.compare(password.s, u.password) else None;
    if passOk.None? {
      res.Status(StatusCode.InternalServerError);
      res.Json(ErrorBody(Error(Unexpected, None)));
      return;
    }
    if !passOk.value {
      res.Status(StatusCode.Unauthorized);
      res.Json(ErrorBody(Error(SignInWrongPassword, None)));
      return;
    }
    var token := env.sign(u.id);
    if token.None? {
      res.Status(StatusCode.InternalServerError);
      res.Json(ErrorBody(Error(Unexpected, None)));
      return;
    }
    res.Json(TokenBody(token.value));
  }

  // ---------------------------------------------------------------------
  // Properties of sign-in
  // ---------------------------------------------------------------------

  /** An unknown username is answered 401 `SignInUserNotFound` without the
      password being checked: the answer is the same whatever the
      comparison and the signer would say. */
  lemma UnknownUserNotCompared(body: JsObject, db: Db, env1: Env, env2: Env)
    requires db.reachable
    requires forall i :: 0 <= i < |db.docs| ==> UsernameKey(Get(body, "username")) != Some(db.docs[i].username)
    ensures SignInAnswer(body, db, env1) == SignInAnswer(body, db, env2)
    ensures SignInAnswer(body, db, env1) == Failed(StatusCode.Unauthorized, SignInUserNotFound)
  {
  }

  /** In a store with unique usernames, the user a body's username finds is
      the one stored under it. */
  lemma LookupFindsStored(body: JsObject, db: Db, u: UserDoc)
    requires Valid(db.docs) && db.reachable
    requires u in db.docs && UsernameKey(Get(body, "username")) == Some(u.username)
    ensures LookupByUsername(db, Get(body, "username")) == Success(Some(u))
  {
    var r := LookupByUsername(db, Get(body, "username"));
    var j :| 0 <= j < |db.docs| && db.docs[j] == u;
    assert r.value.Some?;
    var i :| 0 <= i < |db.docs| && db.docs[i] == r.value.value;
    assert db.docs[i].username == db.docs[j].username;
  }

  /** A stored user whose password does not check out is answered 401
      `SignInWrongPassword`, and no token is issued. */
  lemma WrongPasswordRejected(body: JsObject, db: Db, env: Env, u: UserDoc)
    requires Valid(db.docs) && db.reachable
    requires u in db.docs && UsernameKey(Get(body, "username")) == Some(u.username)
    requires Get(body, "password").Str? && env.compare(Get(body, "password").s, u.password) == Some(false)
    ensures SignInAnswer(body, db, env) == Failed(StatusCode.Unauthorized, SignInWrongPassword)
  {
    LookupFindsStored(body, db, u);
  }

  /** A stored user found by the body whose password cannot be compared
      (not a string, or the comparison fails), or whose token cannot be
      signed after a match, is answered 500 `Unexpected`. */
  lemma FailedCheckIsUnexpected(body: JsObject, db: Db, env: Env, u: UserDoc)
    requires Valid(db.docs) && db.reachable
    requires u in db.docs && UsernameKey(Get(body, "username")) == Some(u.username)
    requires || !Get(body, "password").Str?
             || env.compare(Get(body, "password").s, u.password).None?
             || (Matches(body, u, env) && env.sign(u.id).None?)
    ensures SignInAnswer(body, db, env) == Failed(StatusCode.InternalServerError, Unexpected)
  {
    LookupFindsStored(body, db, u);
  }

  /** Credentials that identify a stored user earn the token issued over
      that user's id. */
  lemma MatchingCredentialsIssueToken(body: JsObject, db: Db, env: Env, u: UserDoc)
    requires Valid(db.docs) && db.reachable
    requires u in db.docs && Matches(body, u, env)
    requires env.sign(u.id).Some?
    ensures SignInAnswer(body, db, env) == Answer(StatusCode.Ok, TokenBody(env.sign(u.id).value))
  {
    LookupFindsStored(body, db, u);
  }
}
