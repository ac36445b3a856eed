/** The authentication guard (src/auth.js). A missing header, a token that
    fails verification, a token whose user no longer exists and a failing
    store all end in the same 401 `Unauthorized` with no message; otherwise
    the user, read without its password, is attached to the request. */
module Auth {
  import opened Values
  import opened StatusCodes
  import opened Errors
  import opened Store
  import opened Http

  /** The user a request's token resolves to, if any: the header is present
      and non-empty, the token verifies to an id, and the store finds it. */
  function Principal(r: RequestState, db: Db, verify: string -> Option<string>): Option<UserDoc>
  {
    if !Truthy(r.authorization) then None
    else match verify(r.authorization.value)
      case None => None
      case Some(id) =>
        match LookupById(db, id)
        case Success(Some(u)) => Some(u)
        case _ => None
  }

  /** What `authenticate` does with a request. */
  function AuthenticateVerdict(r: RequestState, db: Db, verify: string -> Option<string>): (g: GuardResult)
    ensures !g.Throw?
    ensures g.Reject? ==> g.status == StatusCode.Unauthorized && g.error == Envelope(ErrorCode.Unauthorized, None)
    ensures !Truthy(r.authorization) ==> g.Reject?
    ensures g.Continue? <==> Principal(r, db, verify).Some?
    ensures g.Continue? ==> g.req == r.(user := Some(WithoutPassword(Principal(r, db, verify).value)))
  {
    if !Truthy(r.authorization) then Reject(StatusCode.Unauthorized, Error(ErrorCode.Unauthorized, None))
    else match verify(r.authorization.value)
      case None => Reject(StatusCode.Unauthorized, Error(ErrorCode.Unauthorized, None))
      case Some(id) =>
        match LookupById(db, id)
        case Success(Some(u)) => Continue(r.(user := Some(WithoutPassword(u))))
        case _ => Reject(StatusCode.Unauthorized, Error(ErrorCode.Unauthorized, None))
  }

  /** Without a header the token verifier and the store are never
      consulted: the answer is the same whatever they would say. */
  lemma MissingHeaderSkipsVerification(r: RequestState, db1: Db, db2: Db,
                                       verify1: string -> Option<string>, verify2: string -> Option<string>)
    requires !Truthy(r.authorization)
    ensures AuthenticateVerdict(r, db1, verify1) == AuthenticateVerdict(r, db2, verify2)
    ensures AuthenticateVerdict(r, db1, verify1) == Reject(StatusCode.Unauthorized, Envelope(ErrorCode.Unauthorized, None))
  {
  }

  /** A token that verifies to the id of a user who is gone is answered
      exactly like a token that does not verify at all. */
  lemma VanishedUserLikeBadToken(r: RequestState, db: Db, verify: string -> Option<string>, badVerify: string -> Option<string>)
    requires Truthy(r.authorization)
    requires verify(r.authorization.value).Some?
    requires db.reachable && forall i :: 0 <= i < |db.docs| ==> db.docs[i].id != verify(r.authorization.value).value
    requires badVerify(r.authorization.value).None?
    ensures AuthenticateVerdict(r, db, verify) == AuthenticateVerdict(r, db, badVerify)
    ensures AuthenticateVerdict(r, db, verify).Reject?
  {
  }

  /** The guard `authenticate`. `req.user` is assigned the lookup's result
      (which may be null) before the not-found check throws. */
  method Authenticate(req: Request, res: Response, store: UserCollection, verify: string -> Option<string>)
    returns (next: bool)
    requires res.sent.None?
    modifies req`user, res
    ensures Enacted(AuthenticateVerdict(old(req.State()), store.State(), verify), next, req.State(),
                    res.status, res.sent, old(res.status))
    ensures !next ==> req.user == old(req.user) || req.user.None?
  {
    var token := req.authorization;
    if !Truthy(token) {
      res.Status(StatusCode.Unauthorized);
      res.Json(ErrorBody(Error(ErrorCode.Unauthorized, None)));
      return false;
    }
    // try
    var failed := true;
    var claims := verify(token.value);
    if claims.Some? {
      var found := store.FindById(claims.value);
      if found.Success? {
        req.user := if found.value.Some? then Some(WithoutPassword(found.value.value)) else None;
        // A valid token whose user was not found throws, like a bad token.
        failed := req.user.None?;
      }
    }
    if failed {
      // catch
      res.Status(StatusCode.Unauthorized);
      res.Json(ErrorBody(Error(ErrorCode.Unauthorized, None)));
      return false;
    }
    next := true;
  }
}
