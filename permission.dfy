/** The authorization policy (src/permission.js): a static map from role to
    the actions it may perform, the `isAllowed` predicate over it, and the
    `authorize(action)` guard, which answers 403 `NotAllowed` when the
    authenticated user's role lacks the action. */
module Permission {
  import opened Values
  import opened StatusCodes
  import opened UserRoles
  import opened Errors
  import opened Store
  import opened Http

  /** The operations on accounts. */
  datatype Action = CreateUser | ListUsers | GetUser | UpdateUser | DeleteUser

  /** `Object.values(Action)`, in declaration order. */
  const AllActions: seq<Action> := [CreateUser, ListUsers, GetUser, UpdateUser, DeleteUser]

  /** The policy: only `Admin` has an entry, and it lists every action. */
  const Permissions: map<Role, seq<Action>> := map[Admin := AllActions]

  /** `Action` has exactly five distinct members, all listed in `AllActions`. */
  lemma ActionsEnumerated()
    ensures |AllActions| == 5
    ensures forall a: Action :: a in AllActions
    ensures forall i, j :: 0 <= i < j < |AllActions| ==> AllActions[i] != AllActions[j]
  {
    forall a: Action ensures a in AllActions {
      match a
      case CreateUser => assert AllActions[0] == a;
      case ListUsers => assert AllActions[1] == a;
      case GetUser => assert AllActions[2] == a;
      case UpdateUser => assert AllActions[3] == a;
      case DeleteUser => assert AllActions[4] == a;
    }
  }

  /** `isAllowed(role, action)`: false for a role without an entry, else
      whether the entry lists the action. With the static policy this means:
      allowed exactly for `Admin`, for every action. */
  function IsAllowed(role: Option<Role>, action: Action): (allowed: bool)
    ensures allowed <==> role == Some(Admin)
  {
    ActionsEnumerated();
    if role.None? || role.value !in Permissions then false
    else action in Permissions[role.value]
  }

  /** What `authorize(action)` does with a request: it reads `req.user.role`,
      which throws when no user is attached. */
  function AuthorizeVerdict(action: Action, r: RequestState): (g: GuardResult)
    ensures g.Throw? <==> r.user.None?
    ensures g.Continue? <==> r.user.Some? && IsAllowed(RoleOf(r.user.value), action)
    ensures g.Continue? ==> g.req == r
    ensures g.Reject? ==> g.status == StatusCode.Forbidden && g.error == Envelope(NotAllowed, None)
  {
    if r.user.None? then Throw
    else if IsAllowed(RoleOf(r.user.value), action) then Continue(r)
    else Reject(StatusCode.Forbidden, Error(NotAllowed, None))
  }

  /** The guard `authorize(action)`; it must run after authentication. */
  method Authorize(action: Action, req: Request, res: Response) returns (next: bool)
    requires req.user.Some?
    requires res.sent.None?
    modifies res
    ensures Enacted(AuthorizeVerdict(action, req.State()), next, req.State(), res.status, res.sent, old(res.status))
  {
    if IsAllowed(RoleOf(req.user.value), action) {
      return true;
    }
    res.Status(StatusCode.Forbidden);
    res.Json(ErrorBody(Error(NotAllowed, None)));
    next := false;
  }
}
