/** Properties of the whole API: what a client sees when a request goes
    through a route's full chain, whatever the oracles and the store say. */
module Api {
  import opened Values
  import opened StatusCodes
  import opened UserRoles
  import opened Errors
  import opened Store
  import opened Http
  import opened Oracles
  import opened Auth
  import opened AuthRoutes
  import opened Router
  import Permission
  import UserRoutes

  /** The shape checks of a protected route: every guard before
      `authenticate`. */
  function Checks(gs: seq<Guard>): (vs: seq<Guard>)
    requires |gs| >= 2
    ensures |vs| == |gs| - 2 && forall i :: 0 <= i < |vs| ==> vs[i] == gs[i]
  {
    gs[..|gs| - 2]
  }

  /** A protected chain is its shape checks followed by `authenticate` and
      `authorize`, and every one of those checks is a field validator. */
  lemma ProtectedSplits(gs: seq<Guard>, action: Permission.Action)
    requires Protected(gs, action)
    ensures gs == Checks(gs) + [AuthenticateGuard, AuthorizeGuard(action)]
    ensures forall i :: 0 <= i < |Checks(gs)| ==> IsValidation(Checks(gs)[i])
  {
    assert gs == gs[..|gs| - 2] + [gs[|gs| - 2], gs[|gs| - 1]];
  }

  /** Shape checks pass the request on unchanged or answer 400. */
  lemma {:induction false} ChecksKeepRequest(vs: seq<Guard>, r: RequestState, db: Db, env: Env)
    requires forall i :: 0 <= i < |vs| ==> IsValidation(vs[i])
    ensures RunGuards(vs, r, db, env) == Continue(r)
      || (RunGuards(vs, r, db, env).Reject? && RunGuards(vs, r, db, env).status == StatusCode.BadRequest)
    decreases |vs|
  {
    if vs != [] {
      match Step(vs[0], r, db, env)
      case Continue(next) => ChecksKeepRequest(vs[1..], next, db, env);
      case _ =>
    }
  }

  /** Shape checks never look at credentials, the store or the oracles:
      changing the token and the attached user changes nothing but the
      request passed on. */
  lemma {:induction false} ChecksIgnoreCredentials(vs: seq<Guard>, r: RequestState, token: Option<string>, user: Option<JsObject>,
                                                   db1: Db, db2: Db, env1: Env, env2: Env)
    requires forall i :: 0 <= i < |vs| ==> IsValidation(vs[i])
    ensures var r2 := r.(authorization := token, user := user);
      && (RunGuards(vs, r, db1, env1).Continue? ==> RunGuards(vs, r2, db2, env2) == Continue(r2))
      && (!RunGuards(vs, r, db1, env1).Continue? ==> RunGuards(vs, r2, db2, env2) == RunGuards(vs, r, db1, env1))
    decreases |vs|
  {
    if vs != [] {
      ChecksKeepRequest(vs, r, db1, env1);
      var r2 := r.(authorization := token, user := user);
      match Step(vs[0], r, db1, env1)
      case Continue(next) =>
        assert Step(vs[0], r2, db2, env2) == Continue(r2);
        ChecksIgnoreCredentials(vs[1..], r, token, user, db1, db2, env1, env2);
      case Reject(_, _) =>
      case Throw =>
    }
  }

  /** Authentication followed by authorization. */
  lemma AuthenticateThenAuthorize(action: Permission.Action, checked: RequestState, db: Db, env: Env)
    ensures RunGuards([AuthenticateGuard, AuthorizeGuard(action)], checked, db, env) ==
      match AuthenticateVerdict(checked, db, env.verify)
      case Continue(authed) => Permission.AuthorizeVerdict(action, authed)
      case stopped => stopped
  {
    RunTwoGuards(AuthenticateGuard, AuthorizeGuard(action), checked, db, env);
    StepAuthenticate(checked, db, env);
    var authed := AuthenticateVerdict(checked, db, env.verify);
    if authed.Continue? {
      StepAuthorize(action, authed.req, db, env);
    }
  }

  /** A protected chain runs its shape checks, then authentication, then
      authorization. */
  lemma ProtectedRun(gs: seq<Guard>, action: Permission.Action, r: RequestState, db: Db, env: Env)
    requires Protected(gs, action)
    ensures RunGuards(gs, r, db, env) ==
      match RunGuards(Checks(gs), r, db, env)
      case Continue(checked) =>
        (match AuthenticateVerdict(checked, db, env.verify)
         case Continue(authed) => Permission.AuthorizeVerdict(action, authed)
         case stopped => stopped)
      case stopped => stopped
  {
    var tail := [AuthenticateGuard, AuthorizeGuard(action)];
    assert gs == Checks(gs) + tail;
    RunGuardsAppend(Checks(gs), tail, r, db, env);
    match RunGuards(Checks(gs), r, db, env)
    case Continue(checked) => AuthenticateThenAuthorize(action, checked, db, env);
    case _ =>
  }

  /** On a protected route, a request with bad input is answered 400 and
      leaves the store alone, whatever token it carries: input errors are
      reported before credentials are looked at. */
  lemma InputErrorsBeforeCredentials(route: Route, action: Permission.Action, r: RequestState,
                                     token: Option<string>, db: Db, env: Env)
    requires Protected(route.guards, action)
    requires !RunGuards(Checks(route.guards), r, db, env).Continue?
    ensures Serve(route, r.(authorization := token), db, env) == Serve(route, r, db, env)
    ensures Serve(route, r, db, env).Served?
    ensures Serve(route, r, db, env).answer.status == StatusCode.BadRequest && Serve(route, r, db, env).db == db
  {
    var gs := route.guards;
    ChecksKeepRequest(Checks(gs), r, db, env);
    ChecksIgnoreCredentials(Checks(gs), r, token, r.user, db, db, env, env);
    assert r.(authorization := token, user := r.user) == r.(authorization := token);
    ProtectedRun(gs, action, r, db, env);
    ProtectedRun(gs, action, r.(authorization := token), db, env);
  }

  /** `GET /users?limit=abc` without a token is answered 400
      `QueryLimitInvalid`. */
  lemma BadLimitWithoutToken(r: RequestState, db: Db, env: Env)
    requires r.authorization == None && r.limit == Some("abc")
    ensures Serve(ListUsersRoute, r, db, env) == Served(Failed(StatusCode.BadRequest, QueryLimitInvalid), db)
  {
    QueryExamples();
  }

  /** On a protected route, well-shaped input whose token identifies no
      user (no header, a token that does not verify, a user who is gone,
      or an unreachable store) is answered 401 `Unauthorized`. */
  lemma UnidentifiedRejected(route: Route, action: Permission.Action, r: RequestState, db: Db, env: Env)
    requires Protected(route.guards, action)
    requires RunGuards(Checks(route.guards), r, db, env).Continue?
    requires Principal(r, db, env.verify).None?
    ensures Serve(route, r, db, env) == Served(Failed(StatusCode.Unauthorized, ErrorCode.Unauthorized), db)
  {
    ChecksKeepRequest(Checks(route.guards), r, db, env);
    ProtectedRun(route.guards, action, r, db, env);
  }

  /** On a protected route, a user who is not an administrator is answered
      403 `NotAllowed` and the store is left alone. */
  lemma NonAdminForbidden(route: Route, action: Permission.Action, r: RequestState, db: Db, env: Env, u: UserDoc)
    requires Protected(route.guards, action)
    requires RunGuards(Checks(route.guards), r, db, env).Continue?
    requires Principal(r, db, env.verify) == Some(u) && u.role != Some(Admin)
    ensures Serve(route, r, db, env) == Served(Failed(StatusCode.Forbidden, NotAllowed), db)
  {
    ChecksKeepRequest(Checks(route.guards), r, db, env);
    ProtectedRun(route.guards, action, r, db, env);
    RoleOfWithoutPassword(u);
  }

  /** On a protected route, an administrator's well-shaped request reaches
      the handler, with the administrator attached without a password. */
  lemma AdminReachesHandler(route: Route, action: Permission.Action, r: RequestState, db: Db, env: Env, u: UserDoc)
    requires Protected(route.guards, action)
    requires RunGuards(Checks(route.guards), r, db, env).Continue?
    requires Principal(r, db, env.verify) == Some(u) && u.role == Some(Admin)
    ensures Serve(route, r, db, env) ==
      Served(RunHandler(route.handler, r.(user := Some(WithoutPassword(u))), db, env).0,
             RunHandler(route.handler, r.(user := Some(WithoutPassword(u))), db, env).1)
  {
    ChecksKeepRequest(Checks(route.guards), r, db, env);
    ProtectedRun(route.guards, action, r, db, env);
    RoleOfWithoutPassword(u);
  }

  /** A route whose only input check is the user-body guard and whose
      handler is `createUser`, called by an administrator with a valid body
      whose trimmed username and generated id are unused, answers 201 and
      stores one more user. */
  lemma AdminCreatesUserOn(route: Route, r: RequestState, db: Db, env: Env, u: UserDoc)
    requires Protected(route.guards, Permission.CreateUser) && route.handler == CreateUserHandler
    requires Checks(route.guards) == [UserBodyGuard(true)]
    requires db.reachable && UserRoutes.UserBodyError(r.body, true) == None
    requires Principal(r, db, env.verify) == Some(u) && u.role == Some(Admin)
    requires IndexOfId(db.docs, env.newId).None?
    requires forall i :: 0 <= i < |db.docs| ==> db.docs[i].username != Trim(Get(r.body, "username").s)
    ensures Serve(route, r, db, env).Served?
    ensures Serve(route, r, db, env).answer.status == StatusCode.Created
    ensures |Serve(route, r, db, env).db.docs| == |db.docs| + 1
  {
    StepUserBody(true, r, db, env);
    RunSingleGuard(UserBodyGuard(true), r, db, env);
    AdminReachesHandler(route, Permission.CreateUser, r, db, env, u);
    var passed := r.(user := Some(WithoutPassword(u)));
    assert RunHandler(CreateUserHandler, passed, db, env) == UserRoutes.CreateUserOutcome(r.body, db, env);
    UserRoutes.CreateSucceeds(r.body, db, env);
  }

  /** `POST /users` by an administrator with a valid body whose trimmed
      username and generated id are unused answers 201 and stores one more
      user. */
  lemma AdminCreatesUser(r: RequestState, db: Db, env: Env, u: UserDoc)
    requires db.reachable && UserRoutes.UserBodyError(r.body, true) == None
    requires Principal(r, db, env.verify) == Some(u) && u.role == Some(Admin)
    requires IndexOfId(db.docs, env.newId).None?
    requires forall i :: 0 <= i < |db.docs| ==> db.docs[i].username != Trim(Get(r.body, "username").s)
    ensures Serve(CreateUserRoute, r, db, env).Served?
    ensures Serve(CreateUserRoute, r, db, env).answer.status == StatusCode.Created
    ensures |Serve(CreateUserRoute, r, db, env).db.docs| == |db.docs| + 1
  {
    CreateUserRouteShape();
    AdminCreatesUserOn(CreateUserRoute, r, db, env, u);
  }

  /** `POST /users` checks only its body before the credentials. */
  lemma CreateUserRouteShape()
    ensures Protected(CreateUserRoute.guards, Permission.CreateUser)
    ensures Checks(CreateUserRoute.guards) == [UserBodyGuard(true)]
  {
    RouteTable();
  }

  /** `DELETE /users/<id>` checks only the id before the credentials. */
  lemma DeleteUserRouteShape()
    ensures Protected(DeleteUserRoute.guards, Permission.DeleteUser)
    ensures Checks(DeleteUserRoute.guards) == [IdParameterGuard]
  {
    RouteTable();
  }

  /** On a route whose only input check is the id guard and whose handler is
      `deleteUser`, an administrator deleting an existing user gets 200 with
      that user: as written the answer carries the stored password hash, as
      corrected it carries no password. */
  lemma AdminDeleteLeaksOn(route: Route, r: RequestState, db: Db, env: Env, u: UserDoc, d: UserDoc)
    requires Protected(route.guards, Permission.DeleteUser) && route.handler == DeleteUserHandler
    requires Checks(route.guards) == [IdParameterGuard]
    requires IsMongoId(r.id)
    requires Principal(r, db, env.verify) == Some(u) && u.role == Some(Admin)
    requires db.reachable && d in db.docs && d.id == r.id
    ensures ServeAsWritten(route, r, db, env).Served? && Serve(route, r, db, env).Served?
    ensures var a := ServeAsWritten(route, r, db, env).answer;
      a.status == StatusCode.Ok && a.payload.UserBody? && a.payload.user.Some? && Get(a.payload.user.value, "password").Str?
    ensures var a := Serve(route, r, db, env).answer;
      a.status == StatusCode.Ok && a.payload.UserBody? && a.payload.user.Some? && "password" !in a.payload.user.value
  {
    StepIdParameter(r, db, env);
    RunSingleGuard(IdParameterGuard, r, db, env);
    ProtectedRun(route.guards, Permission.DeleteUser, r, db, env);
    AdminReachesHandler(route, Permission.DeleteUser, r, db, env, u);
    UserRoutes.DeleteLeaksPasswordHash(r.id, db, d);
  }

  /** `DELETE /users/<id>` by an administrator of an existing user answers
      the stored password hash as written, and no password as corrected. */
  lemma AdminDeleteLeaks(r: RequestState, db: Db, env: Env, u: UserDoc, d: UserDoc)
    requires IsMongoId(r.id)
    requires Principal(r, db, env.verify) == Some(u) && u.role == Some(Admin)
    requires db.reachable && d in db.docs && d.id == r.id
    ensures ServeAsWritten(DeleteUserRoute, r, db, env).Served? && Serve(DeleteUserRoute, r, db, env).Served?
    ensures var a := ServeAsWritten(DeleteUserRoute, r, db, env).answer;
      a.status == StatusCode.Ok && a.payload.UserBody? && a.payload.user.Some? && Get(a.payload.user.value, "password").Str?
    ensures var a := Serve(DeleteUserRoute, r, db, env).answer;
      a.status == StatusCode.Ok && a.payload.UserBody? && a.payload.user.Some? && "password" !in a.payload.user.value
  {
    DeleteUserRouteShape();
    AdminDeleteLeaksOn(DeleteUserRoute, r, db, env, u, d);
  }

  /** `POST /auth/sign-in` with a valid body whose credentials identify a
      stored user answers 200 with the token issued over that user's id. */
  lemma SignInSucceeds(r: RequestState, db: Db, env: Env, u: UserDoc)
    requires SignInBodyError(r.body) == None
    requires Valid(db.docs) && db.reachable && u in db.docs && Matches(r.body, u, env)
    requires env.sign(u.id).Some?
    ensures Serve(SignInRoute, r, db, env) == Served(Answer(StatusCode.Ok, TokenBody(env.sign(u.id).value)), db)
  {
    SignInBodyPasses(r, db, env);
    MatchingCredentialsIssueToken(r.body, db, env, u);
  }

  /** A valid sign-in body passes the sign-in route's only guard. */
  lemma SignInBodyPasses(r: RequestState, db: Db, env: Env)
    requires SignInBodyError(r.body) == None
    ensures RunGuards(SignInRoute.guards, r, db, env) == Continue(r)
  {
    RunSingleGuard(SignInBodyGuard, r, db, env);
    assert Step(SignInBodyGuard, r, db, env) == SignInBodyVerdict(r);
  }

  /** No user object in a payload carries a `password` property. */
  predicate HidesPasswords(p: Payload)
  {
    && (p.UserBody? && p.user.Some? ==> "password" !in p.user.value)
    && (p.UsersBody? ==> forall i :: 0 <= i < |p.users| ==> "password" !in p.users[i])
  }

  /** Every handler's answer hides passwords. */
  lemma HandlersHidePasswords(h: Handler, r: RequestState, db: Db, env: Env)
    ensures HidesPasswords(RunHandler(h, r, db, env).0.payload)
  {
    match h
    case GetUserHandler =>
      var a := UserRoutes.GetUserAnswer(r.id, db);
      if a.payload.UserBody? && a.payload.user.Some? {
        var d :| d in db.docs && d.id == r.id && a.payload.user == Some(WithoutPassword(d));
      }
    case _ =>
  }

  /** Whatever the route and the request, no response carries a password. */
  lemma ServeHidesPasswords(route: Route, r: RequestState, db: Db, env: Env)
    ensures Serve(route, r, db, env).Served? ==> HidesPasswords(Serve(route, r, db, env).answer.payload)
  {
    match RunGuards(route.guards, r, db, env)
    case Continue(next) => HandlersHidePasswords(route.handler, next, db, env);
    case _ =>
  }

  /** Serving a request keeps the store's unique indexes. */
  lemma ServeKeepsStoreValid(route: Route, r: RequestState, db: Db, env: Env)
    requires Valid(db.docs)
    ensures Serve(route, r, db, env).Served? ==> Valid(Serve(route, r, db, env).db.docs)
  {
  }

  /** No request on the application's routes escapes as an exception. */
  lemma RoutesNeverEscape(route: Route, r: RequestState, db: Db, env: Env)
    requires route in AllRoutes
    ensures Serve(route, r, db, env).Served?
  {
    RouteTable();
    WellFormedNeverThrows(route.guards, r, db, env);
  }
}
