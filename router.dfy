/** The route table (src/routes/users.js:21-61, src/routes/auth.js:17-21)
    and the way the framework runs a route: its guards in order, each either
    passing the request on or answering and stopping the chain, then the
    handler. */
module Router {
  import opened Values
  import opened StatusCodes
  import opened Errors
  import opened Store
  import opened Http
  import opened Oracles
  import opened Common
  import opened Auth
  import opened AuthRoutes
  import Permission
  import UserRoutes

  /** The middleware a route can run before its handler. `UserBodyGuard(true)`
      is `validatePostUser`, `UserBodyGuard(false)` is `validatePutUser`. */
  datatype Guard =
    | QueryLimitGuard
    | QuerySkipGuard
    | IdParameterGuard
    | SignInBodyGuard
    | UserBodyGuard(required: bool)
    | AuthenticateGuard
    | AuthorizeGuard(action: Permission.Action)

  datatype Handler =
    | SignInHandler
    | CreateUserHandler
    | ListUsersHandler
    | GetUserHandler
    | UpdateUserHandler
    | DeleteUserHandler

  datatype Route = Route(guards: seq<Guard>, handler: Handler)

  /** `POST /auth/sign-in`. */
  const SignInRoute := Route([SignInBodyGuard], SignInHandler)
  /** `POST /users`. */
  const CreateUserRoute := Route([UserBodyGuard(true), AuthenticateGuard, AuthorizeGuard(Permission.CreateUser)], CreateUserHandler)
  /** `GET /users`. */
  const ListUsersRoute := Route([QueryLimitGuard, QuerySkipGuard, AuthenticateGuard, AuthorizeGuard(Permission.ListUsers)], ListUsersHandler)
  /** `GET /users/:id`. */
  const GetUserRoute := Route([IdParameterGuard, AuthenticateGuard, AuthorizeGuard(Permission.GetUser)], GetUserHandler)
  /** `PUT /users/:id`. */
  const UpdateUserRoute := Route([IdParameterGuard, UserBodyGuard(false), AuthenticateGuard, AuthorizeGuard(Permission.UpdateUser)], UpdateUserHandler)
  /** `DELETE /users/:id`. */
  const DeleteUserRoute := Route([IdParameterGuard, AuthenticateGuard, AuthorizeGuard(Permission.DeleteUser)], DeleteUserHandler)

  const AllRoutes := [SignInRoute, CreateUserRoute, ListUsersRoute, GetUserRoute, UpdateUserRoute, DeleteUserRoute]

  /** Guards that only check the request's shape. */
  predicate IsValidation(g: Guard)
  {
    !g.AuthenticateGuard? && !g.AuthorizeGuard?
  }

  /** What one guard does with a request. Guards read the store but never
      change it. Only authentication changes the request, and only by
      attaching a user; only authorization can throw, and only when no user
      is attached. */
  function Step(g: Guard, r: RequestState, db: Db, env: Env): (res: GuardResult)
    ensures res.Continue? && g != AuthenticateGuard ==> res.req == r
    ensures res.Continue? && g == AuthenticateGuard ==> res.req == r.(user := res.req.user) && res.req.user.Some?
    ensures res.Throw? <==> g.AuthorizeGuard? && r.user.None?
    ensures res.Reject? && IsValidation(g) ==> res.status == StatusCode.BadRequest
    ensures res.Reject? && g == AuthenticateGuard ==> res.status == StatusCode.Unauthorized
    ensures res.Reject? && g.AuthorizeGuard? ==> res.status == StatusCode.Forbidden
  {
    match g
    case QueryLimitGuard => QueryLimitVerdict(r)
    case QuerySkipGuard => QuerySkipVerdict(r)
    case IdParameterGuard => IdParameterVerdict(r)
    case SignInBodyGuard => SignInBodyVerdict(r)
    case UserBodyGuard(required) => UserRoutes.UserBodyVerdict(r, required)
    case AuthenticateGuard => AuthenticateVerdict(r, db, env.verify)
    case AuthorizeGuard(action) => Permission.AuthorizeVerdict(action, r)
  }

  /** The chain of guards: each `next` runs the following guard; the first
      guard that answers (or throws) ends the chain. */
  function RunGuards(gs: seq<Guard>, r: RequestState, db: Db, env: Env): GuardResult
    decreases |gs|
  {
    if gs == [] then Continue(r)
    else match Step(gs[0], r, db, env)
      case Continue(next) => RunGuards(gs[1..], next, db, env)
      case stopped => stopped
  }

  /** A chain of one guard does what that guard does. */
  lemma RunSingleGuard(g: Guard, r: RequestState, db: Db, env: Env)
    ensures RunGuards([g], r, db, env) == Step(g, r, db, env)
  {
    assert [g][1..] == [];
  }

  /** The authentication guard is `authenticate`. */
  lemma StepAuthenticate(r: RequestState, db: Db, env: Env)
    ensures Step(AuthenticateGuard, r, db, env) == AuthenticateVerdict(r, db, env.verify)
  {
  }

  /** The user-body guard is `validatePostUser` or `validatePutUser`. */
  lemma StepUserBody(required: bool, r: RequestState, db: Db, env: Env)
    ensures Step(UserBodyGuard(required), r, db, env) == UserRoutes.UserBodyVerdict(r, required)
  {
  }

  /** The route-parameter guard is `validateIdParameter`. */
  lemma StepIdParameter(r: RequestState, db: Db, env: Env)
    ensures Step(IdParameterGuard, r, db, env) == IdParameterVerdict(r)
  {
  }

  /** The authorization guard for an action is `authorize` of that action. */
  lemma StepAuthorize(a: Permission.Action, r: RequestState, db: Db, env: Env)
    ensures Step(AuthorizeGuard(a), r, db, env) == Permission.AuthorizeVerdict(a, r)
  {
  }

  /** A chain of two guards runs the second on what the first passes on. */
  lemma RunTwoGuards(g1: Guard, g2: Guard, r: RequestState, db: Db, env: Env)
    ensures RunGuards([g1, g2], r, db, env) ==
      match Step(g1, r, db, env)
      case Continue(next) => Step(g2, next, db, env)
      case stopped => stopped
  {
    assert [g1, g2][1..] == [g2];
    if Step(g1, r, db, env).Continue? {
      RunSingleGuard(g2, Step(g1, r, db, env).req, db, env);
    }
  }

  /** Running two chains one after the other is running their concatenation. */
  lemma {:induction false} RunGuardsAppend(gs1: seq<Guard>, gs2: seq<Guard>, r: RequestState, db: Db, env: Env)
    ensures RunGuards(gs1 + gs2, r, db, env) ==
      match RunGuards(gs1, r, db, env)
      case Continue(next) => RunGuards(gs2, next, db, env)
      case stopped => stopped
    decreases |gs1|
  {
    if gs1 == [] {
      assert gs1 + gs2 == gs2;
    } else {
      assert (gs1 + gs2)[0] == gs1[0];
      assert (gs1 + gs2)[1..] == gs1[1..] + gs2;
      match Step(gs1[0], r, db, env)
      case Continue(next) => RunGuardsAppend(gs1[1..], gs2, next, db, env);
      case _ =>
    }
  }

  /** Once a guard has answered, the guards after it never run. */
  lemma StoppedChainIgnoresRest(gs: seq<Guard>, i: nat, r: RequestState, db: Db, env: Env)
    requires i <= |gs|
    requires !RunGuards(gs[..i], r, db, env).Continue?
    ensures RunGuards(gs, r, db, env) == RunGuards(gs[..i], r, db, env)
  {
    assert gs == gs[..i] + gs[i..];
    RunGuardsAppend(gs[..i], gs[i..], r, db, env);
  }

  /** Extending a chain that passed by one guard runs just that guard. */
  lemma RunGuardsSnoc(gs: seq<Guard>, g: Guard, r: RequestState, db: Db, env: Env)
    requires RunGuards(gs, r, db, env).Continue?
    ensures RunGuards(gs + [g], r, db, env) == Step(g, RunGuards(gs, r, db, env).req, db, env)
  {
    RunGuardsAppend(gs, [g], r, db, env);
    var next := RunGuards(gs, r, db, env).req;
    assert [g][1..] == [];
    match Step(g, next, db, env)
    case Continue(_) =>
    case _ =>
  }

  /** Every authorization guard comes after an authentication guard. */
  predicate WellFormed(gs: seq<Guard>)
  {
    forall i :: 0 <= i < |gs| && gs[i].AuthorizeGuard? ==> AuthenticateGuard in gs[..i]
  }

  /** A chain in which every authorization either has a user already or
      comes after an authentication never throws. */
  lemma {:induction false} NoThrowAfterAuthentication(gs: seq<Guard>, r: RequestState, db: Db, env: Env)
    requires forall i :: 0 <= i < |gs| && gs[i].AuthorizeGuard? ==> r.user.Some? || AuthenticateGuard in gs[..i]
    ensures !RunGuards(gs, r, db, env).Throw?
    decreases |gs|
  {
    if gs != [] {
      match Step(gs[0], r, db, env)
      case Continue(next) =>
        forall i | 0 <= i < |gs[1..]| && gs[1..][i].AuthorizeGuard?
          ensures next.user.Some? || AuthenticateGuard in gs[1..][..i]
        {
          assert gs[1..][i] == gs[i + 1];
          assert gs[..i + 1] == [gs[0]] + gs[1..][..i];
        }
        NoThrowAfterAuthentication(gs[1..], next, db, env);
      case _ =>
    }
  }

  /** A well-formed chain never throws. */
  lemma WellFormedNeverThrows(gs: seq<Guard>, r: RequestState, db: Db, env: Env)
    requires WellFormed(gs)
    ensures !RunGuards(gs, r, db, env).Throw?
  {
    NoThrowAfterAuthentication(gs, r, db, env);
  }

  /** One step of a well-formed chain that has passed its first `i`
      guards with request `r`: the next guard runs on `r` (and has a user
      if it authorizes), and if it answers, the whole chain answers so. */
  lemma ChainAdvance(gs: seq<Guard>, i: nat, r0: RequestState, r: RequestState, db: Db, env: Env)
    requires WellFormed(gs) && i < |gs|
    requires RunGuards(gs[..i], r0, db, env) == Continue(r)
    ensures RunGuards(gs[..i + 1], r0, db, env) == Step(gs[i], r, db, env)
    ensures gs[i].AuthorizeGuard? ==> r.user.Some?
    ensures !Step(gs[i], r, db, env).Continue? ==> RunGuards(gs, r0, db, env) == Step(gs[i], r, db, env)
  {
    assert gs[..i + 1] == gs[..i] + [gs[i]];
    RunGuardsSnoc(gs[..i], gs[i], r0, db, env);
    if gs[i].AuthorizeGuard? {
      assert WellFormed(gs[..i + 1]);
      WellFormedNeverThrows(gs[..i + 1], r0, db, env);
    }
    if !Step(gs[i], r, db, env).Continue? {
      StoppedChainIgnoresRest(gs, i + 1, r0, db, env);
    }
  }

  /** A protected route: shape checks, then `authenticate`, then
      `authorize(action)`. */
  predicate Protected(gs: seq<Guard>, action: Permission.Action)
  {
    && |gs| >= 2
    && gs[|gs| - 2] == AuthenticateGuard
    && gs[|gs| - 1] == AuthorizeGuard(action)
    && forall i :: 0 <= i < |gs| - 2 ==> IsValidation(gs[i])
  }

  /** A protected route is well formed. */
  lemma ProtectedIsWellFormed(gs: seq<Guard>, action: Permission.Action)
    requires Protected(gs, action)
    ensures WellFormed(gs)
  {
    forall i | 0 <= i < |gs| && gs[i].AuthorizeGuard? ensures AuthenticateGuard in gs[..i] {
      assert gs[..i][|gs| - 2] == AuthenticateGuard;
    }
  }

  /** The route table: every account route is protected for its own action
      with field validation first, sign-in runs only its body check, and
      every route is well formed. */
  lemma RouteTable()
    ensures Protected(CreateUserRoute.guards, Permission.CreateUser)
    ensures Protected(ListUsersRoute.guards, Permission.ListUsers)
    ensures Protected(GetUserRoute.guards, Permission.GetUser)
    ensures Protected(UpdateUserRoute.guards, Permission.UpdateUser)
    ensures Protected(DeleteUserRoute.guards, Permission.DeleteUser)
    ensures forall route :: route in AllRoutes ==> WellFormed(route.guards)
  {
    ProtectedIsWellFormed(CreateUserRoute.guards, Permission.CreateUser);
    ProtectedIsWellFormed(ListUsersRoute.guards, Permission.ListUsers);
    ProtectedIsWellFormed(GetUserRoute.guards, Permission.GetUser);
    ProtectedIsWellFormed(UpdateUserRoute.guards, Permission.UpdateUser);
    ProtectedIsWellFormed(DeleteUserRoute.guards, Permission.DeleteUser);
  }

  /** What the handler answers and the store it leaves. */
  function RunHandler(h: Handler, r: RequestState, db: Db, env: Env): (Answer, Db)
  {
    match h
    case SignInHandler => (SignInAnswer(r.body, db, env), db)
    case CreateUserHandler => UserRoutes.CreateUserOutcome(r.body, db, env)
    case ListUsersHandler => (UserRoutes.ListUsersAnswer(r.limit, r.skip, db), db)
    case GetUserHandler => (UserRoutes.GetUserAnswer(r.id, db), db)
    case UpdateUserHandler => UserRoutes.UpdateUserOutcome(r.id, r.body, db, env)
    case DeleteUserHandler => UserRoutes.DeleteUserOutcome(r.id, db)
  }

  /** Serving a request on a route: a guard's answer is the response and
      leaves the store alone; a throw escapes; otherwise the handler runs
      on the request the guards passed on. */
  function Serve(route: Route, r: RequestState, db: Db, env: Env): Served
  {
    match RunGuards(route.guards, r, db, env)
    case Continue(next) =>
      var (answer, after) := RunHandler(route.handler, next, db, env);
      Served(answer, after)
    case Reject(status, error) => Served(Answer(status, ErrorBody(error)), db)
    case Throw => Escaped
  }

  /** The handlers as the source writes them: `updateUser` hands the new
      password to the store unhashed and `deleteUser` answers the removed
      user with its password. The other handlers are those of `RunHandler`. */
  function RunHandlerAsWritten(h: Handler, r: RequestState, db: Db, env: Env): (Answer, Db)
  {
    match h
    case UpdateUserHandler => UserRoutes.UpdateUserOutcomeAsWritten(r.id, r.body, db, env)
    case DeleteUserHandler => UserRoutes.DeleteUserOutcomeAsWritten(r.id, db)
    case _ => RunHandler(h, r, db, env)
  }

  /** Serving a request with the handlers as written. */
  function ServeAsWritten(route: Route, r: RequestState, db: Db, env: Env): Served
  {
    match RunGuards(route.guards, r, db, env)
    case Continue(next) =>
      var (answer, after) := RunHandlerAsWritten(route.handler, next, db, env);
      Served(answer, after)
    case Reject(status, error) => Served(Answer(status, ErrorBody(error)), db)
    case Throw => Escaped
  }

  /** The corrections change only the update and delete handlers: every
      other route serves alike, a request escapes under one exactly when it
      escapes under the other, and a delete answers with the same status and
      leaves the same store. */
  lemma AsWrittenServesAlike(route: Route, r: RequestState, db: Db, env: Env)
    ensures route.handler != UpdateUserHandler && route.handler != DeleteUserHandler ==>
      ServeAsWritten(route, r, db, env) == Serve(route, r, db, env)
    ensures ServeAsWritten(route, r, db, env).Served? <==> Serve(route, r, db, env).Served?
    ensures route.handler == DeleteUserHandler && Serve(route, r, db, env).Served? ==>
      && ServeAsWritten(route, r, db, env).answer.status == Serve(route, r, db, env).answer.status
      && ServeAsWritten(route, r, db, env).db == Serve(route, r, db, env).db
  {
  }

  // ---------------------------------------------------------------------
  // The chain run on the mutable request, response and store
  // ---------------------------------------------------------------------

  /** Runs one guard's middleware. */
  method RunGuard(g: Guard, req: Request, res: Response, store: UserCollection, env: Env) returns (next: bool)
    requires res.sent.None?
    requires g.AuthorizeGuard? ==> req.user.Some?
    modifies req`user, res
    ensures Enacted(Step(g, old(req.State()), store.State(), env), next, req.State(), res.status, res.sent, old(res.status))
  {
    match g
    case QueryLimitGuard => next := ValidateQueryLimit(req, res);
    case QuerySkipGuard => next := ValidateQuerySkip(req, res);
    case IdParameterGuard => next := ValidateIdParameter(req, res);
    case SignInBodyGuard => next := ValidateSignIn(req, res);
    case UserBodyGuard(required) => next := UserRoutes.ValidateUserBody(req, res, required);
    case AuthenticateGuard => next := Authenticate(req, res, store, env.verify);
    case AuthorizeGuard(action) => next := Permission.Authorize(action, req, res);
  }

  /** Runs a route's handler. */
  method Dispatch(h: Handler, req: Request, res: Response, store: UserCollection, env: Env)
    requires res.sent.None? && res.status == StatusCode.Ok
    modifies req`body, res, store
    ensures res.sent.Some? && (res.Answered(), store.State()) == RunHandler(h, old(req.State()), old(store.State()), env)
  {
    match h
    case SignInHandler => SignIn(req, res, store, env);
    case CreateUserHandler => UserRoutes.CreateUser(req, res, store, env);
    case ListUsersHandler => UserRoutes.ListUsers(req, res, store);
    case GetUserHandler => UserRoutes.GetUser(req, res, store);
    case UpdateUserHandler => UserRoutes.UpdateUser(req, res, store, env);
    case DeleteUserHandler => UserRoutes.DeleteUser(req, res, store);
  }

  /** Serves one request on a well-formed route: runs the guards in order
      until one answers, then the handler. The response and the store
      afterwards are those `Serve` describes. */
  method Handle(route: Route, req: Request, res: Response, store: UserCollection, env: Env)
    requires WellFormed(route.guards)
    requires res.sent.None? && res.status == StatusCode.Ok
    modifies req, res, store
    ensures res.sent.Some?
    ensures Serve(route, old(req.State()), old(store.State()), env) == Served(res.Answered(), store.State())
  {
    ghost var r0 := req.State();
    ghost var db := store.State();
    var gs := route.guards;
    var i := 0;
    while i < |gs|
      invariant 0 <= i <= |gs|
      invariant RunGuards(gs[..i], r0, db, env) == Continue(req.State())
      invariant res.sent.None? && res.status == StatusCode.Ok
      invariant store.State() == db
    {
      ChainAdvance(gs, i, r0, req.State(), db, env);
      var next := RunGuard(gs[i], req, res, store, env);
      if !next {
        return;
      }
      i := i + 1;
    }
    assert gs[..i] == gs;
    Dispatch(route.handler, req, res, store, env);
  }
}
