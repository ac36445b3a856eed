/** The account routes (src/routes/users.js): the body validators of
    `POST /users` and `PUT /users/:id`, and the five handlers. Handlers strip
    the server-managed fields from request bodies, strip `password` from the
    users they return, and map store failures to `DuplicateKey` (code
    11000) or `Unexpected`, both answered 500. */
module UserRoutes {
  import opened Values
  import opened StatusCodes
  import opened Errors
  import opened Store
  import opened Http
  import opened Oracles

  /** The body check of `validatePostUser` (`required` true) and of
      `validatePutUser` (`required` omitted): username, then password, then
      role; only the first failure is reported. */
  function UserBodyError(body: JsObject, required: bool): (r: Option<ErrorCode>)
    ensures r == None <==>
      && GetUsernameError(Get(body, "username"), required) == None
      && GetUserPasswordError(Get(body, "password"), required) == None
      && GetUserRoleError(Get(body, "role"), required) == None
    ensures GetUsernameError(Get(body, "username"), required) != None ==>
      r == GetUsernameError(Get(body, "username"), required)
    ensures GetUsernameError(Get(body, "username"), required) == None && GetUserPasswordError(Get(body, "password"), required) != None ==>
      r == GetUserPasswordError(Get(body, "password"), required)
    ensures GetUsernameError(Get(body, "username"), required) == None && GetUserPasswordError(Get(body, "password"), required) == None ==>
      r == GetUserRoleError(Get(body, "role"), required)
  {
    var usernameError := GetUsernameError(Get(body, "username"), required);
    if usernameError.Some? then usernameError
    else
      var passwordError := GetUserPasswordError(Get(body, "password"), required);
      if passwordError.Some? then passwordError
      else GetUserRoleError(Get(body, "role"), required)
  }

  /** What `validatePostUser` (`required` true) or `validatePutUser`
      (`required` false) does with a request. */
  function UserBodyVerdict(r: RequestState, required: bool): (g: GuardResult)
    ensures g.Continue? <==> UserBodyError(r.body, required) == None
    ensures g.Continue? ==> g.req == r
    ensures g.Reject? ==> g.status == StatusCode.BadRequest && g.error == Envelope(UserBodyError(r.body, required).value, None)
    ensures !g.Throw?
  {
    RejectOn(UserBodyError(r.body, required), StatusCode.BadRequest, r)
  }

  /** `validatePostUser` (`required` true) and `validatePutUser` (`required` false). */
  method ValidateUserBody(req: Request, res: Response, required: bool) returns (next: bool)
    requires res.sent.None?
    modifies res
    ensures Enacted(UserBodyVerdict(req.State(), required), next, req.State(), res.status, res.sent, old(res.status))
  {
    var usernameError := GetUsernameError(Get(req.body, "username"), required);
    if usernameError.Some? {
      res.Status(StatusCode.BadRequest);
      res.Json(ErrorBody(Error(usernameError.value, None)));
      return false;
    }
    var passwordError := GetUserPasswordError(Get(req.body, "password"), required);
    if passwordError.Some? {
      res.Status(StatusCode.BadRequest);
      res.Json(ErrorBody(Error(passwordError.value, None)));
      return false;
    }
    var roleError := GetUserRoleError(Get(req.body, "role"), required);
    if roleError.Some? {
      res.Status(StatusCode.BadRequest);
      res.Json(ErrorBody(Error(roleError.value, None)));
      return false;
    }
    next := true;
  }

  /** A creation body with a valid username and password but no role is
      refused for its role, while the same body passes as an update. */
  lemma CreateRequiresRole(name: string, password: string)
    requires 1 <= |name| <= UsernameMaxLength && Unpadded(name)
    requires UserPasswordMinLength <= |password| <= UserPasswordMaxLength
    ensures UserBodyError(map["username" := Str(name), "password" := Str(password)], true) == Some(UserRoleIsRequired)
    ensures UserBodyError(map["username" := Str(name), "password" := Str(password)], false) == None
  {
    var body := map["username" := Str(name), "password" := Str(password)];
    assert Get(body, "username") == Str(name) && Get(body, "password") == Str(password);
    assert Get(body, "role") == Undefined;
    assert [] + name + [] == name;
    TrimOfPadded([], name, []);
  }

  /** An empty body passes as an update and is refused for its username as
      a creation. */
  lemma EmptyBody()
    ensures UserBodyError(map[], false) == None
    ensures UserBodyError(map[], true) == Some(UsernameIsRequired)
  {
  }

  /** The fields clients may not set: the id and the timestamps. */
  const ServerManagedFields: set<string> := {"_id", "createdAt", "updatedAt"}

  /** A body that passed the creation validator is one the store's schema
      accepts, once the server-managed fields are stripped. */
  lemma ValidatedBodyFitsSchema(body: JsObject)
    requires UserBodyError(body, true) == None
    ensures SchemaAccepts(DeleteProperties(body, ServerManagedFields))
  {
    var fields := DeleteProperties(body, ServerManagedFields);
    assert Get(fields, "username") == Get(body, "username");
    assert Get(fields, "password") == Get(body, "password");
    assert Get(fields, "role") == Get(body, "role");
  }

  /** The code a store failure is reported with. */
  function StoreFailureCode(e: StoreError): (c: ErrorCode)
    ensures c == DuplicateKey <==> e.code == Some(MongoDuplicateKey)
    ensures c == DuplicateKey || c == Unexpected
  {
    if e.code == Some(MongoDuplicateKey) then DuplicateKey else Unexpected
  }

  /** The password-less view of each document, in order. */
  function WithoutPasswords(docs: seq<UserDoc>): (objs: seq<JsObject>)
    ensures |objs| == |docs|
    ensures forall i :: 0 <= i < |docs| ==> objs[i] == WithoutPassword(docs[i])
  {
    seq(|docs|, i requires 0 <= i < |docs| => WithoutPassword(docs[i]))
  }

  // ---------------------------------------------------------------------
  // createUser
  // ---------------------------------------------------------------------

  /** What `createUser` answers and the store it leaves. */
  function CreateUserOutcome(body: JsObject, db: Db, env: Env): (r: (Answer, Db))
    ensures r.0.status == StatusCode.Created || r.0.status == StatusCode.InternalServerError
    ensures r.0.status == StatusCode.Created ==>
      && |r.1.docs| == |db.docs| + 1 && r.1.docs[..|db.docs|] == db.docs
      && r.1.docs[|db.docs|].id == env.newId
      && r.0.payload == UserBody(Some(WithoutPassword(r.1.docs[|db.docs|])))
    ensures r.0.status != StatusCode.Created ==>
      r.1 == db && (r.0 == Failed(StatusCode.InternalServerError, DuplicateKey) || r.0 == Failed(StatusCode.InternalServerError, Unexpected))
    ensures r.0.status == StatusCode.Created <==>
      InsertOutcome(db, DeleteProperties(body, ServerManagedFields), env.newId, env.now, env.hash).0.Success?
    ensures r.0.status == StatusCode.Created ==>
      && Get(body, "username").Str? && Get(body, "password").Str?
      && var d := r.1.docs[|db.docs|];
      && d.username == Trim(Get(body, "username").s)
      && d.password == env.hash(Get(body, "password").s)
      && d.role == RoleField(Get(body, "role"))
      && d.createdAt == env.now && d.updatedAt == env.now
    ensures r.0 == Failed(StatusCode.InternalServerError, DuplicateKey) <==>
      InsertOutcome(db, DeleteProperties(body, ServerManagedFields), env.newId, env.now, env.hash).0 == Failure(DuplicateKeyError)
    ensures r.1.reachable == db.reachable
    ensures Valid(db.docs) ==> Valid(r.1.docs)
  {
    var fields := DeleteProperties(body, ServerManagedFields);
    assert Get(fields, "username") == Get(body, "username");
    assert Get(fields, "password") == Get(body, "password");
    assert Get(fields, "role") == Get(body, "role");
    var (user, after) := InsertOutcome(db, fields, env.newId, env.now, env.hash);
    match user
    case Success(u) => (Answer(StatusCode.Created, UserBody(Some(WithoutPassword(u)))), after)
    case Failure(e) => (Failed(StatusCode.InternalServerError, StoreFailureCode(e)), after)
  }

  /** A client cannot choose the id or the timestamps of a new user: a
      server-managed field in the body changes nothing. */
  lemma CreateIgnoresServerManagedFields(body: JsObject, key: string, v: JsValue, db: Db, env: Env)
    requires key in ServerManagedFields
    ensures CreateUserOutcome(body[key := v], db, env) == CreateUserOutcome(body, db, env)
  {
    assert DeleteProperties(body[key := v], ServerManagedFields) == DeleteProperties(body, ServerManagedFields);
  }

  /** A body the creation validator accepts, whose trimmed username and
      generated id are both unused, creates a user on a reachable store. */
  lemma CreateSucceeds(body: JsObject, db: Db, env: Env)
    requires db.reachable && UserBodyError(body, true) == None
    requires IndexOfId(db.docs, env.newId).None?
    requires forall i :: 0 <= i < |db.docs| ==> db.docs[i].username != Trim(Get(body, "username").s)
    ensures CreateUserOutcome(body, db, env).0.status == StatusCode.Created
    ensures |CreateUserOutcome(body, db, env).1.docs| == |db.docs| + 1
  {
    var fields := DeleteProperties(body, ServerManagedFields);
    ValidatedBodyFitsSchema(body);
    assert Get(fields, "username") == Get(body, "username");
    var name := NewDoc(fields, env.newId, env.now, env.hash).username;
    assert IndexOfUsername(db.docs, name).None?;
  }

  /** The handler `createUser`; it strips `req.body` in place. */
  method CreateUser(req: Request, res: Response, store: UserCollection, env: Env)
    requires res.sent.None? && res.status == StatusCode.Ok
    modifies req`body, res, store
    ensures req.body == DeleteProperties(old(req.body), ServerManagedFields)
    ensures res.sent.Some? && (res.Answered(), store.State()) == CreateUserOutcome(old(req.body), old(store.State()), env)
  {
    req.body := DeleteProperties(req.body, ServerManagedFields);
    var user := store.Create(req.body, env.newId, env.now, env.hash);
    if user.Failure? {
      // catch
      var code := StoreFailureCode(user.error);
      res.Status(StatusCode.InternalServerError);
      res.Json(ErrorBody(Error(code, None)));
      return;
    }
    var obj := ToObject(user.value);
    obj := DeleteProperties(obj, {"password"});
    res.Status(StatusCode.Created);
    res.Json(UserBody(Some(obj)));
  }

  // ---------------------------------------------------------------------
  // listUsers
  // ---------------------------------------------------------------------

  /** `+v` for a query value the guards let through: its integer value, and
      0 (no skip, no limit) when it is absent or empty. */
  function QueryNumber(v: Option<string>): nat
  {
    if Truthy(v) && IsIntString(v.value) && IntValue(v.value) >= 0 then IntValue(v.value) else 0
  }

  /** What `listUsers` answers: the requested window of the collection,
      without passwords, and the size of the whole collection. */
  function ListUsersAnswer(limit: Option<string>, skip: Option<string>, db: Db): (a: Answer)
    ensures !db.reachable ==> a == Failed(StatusCode.InternalServerError, Unexpected)
    ensures db.reachable ==> a.status == StatusCode.Ok && a.payload.UsersBody? && a.payload.totalCount == |db.docs|
    ensures a.payload.UsersBody? ==>
      var (s, n, users) := (QueryNumber(skip), QueryNumber(limit), a.payload.users);
      && |users| == (if s >= |db.docs| then 0 else if n == 0 || |db.docs| - s <= n then |db.docs| - s else n)
      && forall i :: 0 <= i < |users| ==> users[i] == WithoutPassword(db.docs[s + i])
  {
    match PageOutcome(db, QueryNumber(skip), QueryNumber(limit))
    case Failure(_) => Failed(StatusCode.InternalServerError, Unexpected)
    case Success(page) =>
      match CountOutcome(db)
      case Failure(_) => Failed(StatusCode.InternalServerError, Unexpected)
      case Success(totalCount) => Answer(StatusCode.Ok, UsersBody(WithoutPasswords(page), totalCount))
  }

  /** Skipping past the end gives an empty page, while `totalCount` still
      counts the whole collection. */
  lemma SkipPastEnd(skip: string, limit: Option<string>, db: Db)
    requires db.reachable
    requires IsIntString(skip) && IntValue(skip) >= |db.docs|
    ensures ListUsersAnswer(limit, Some(skip), db) == Answer(StatusCode.Ok, UsersBody([], |db.docs|))
  {
    assert skip != "";
  }

  /** The handler `listUsers`. */
  method ListUsers(req: Request, res: Response, store: UserCollection)
    requires res.sent.None? && res.status == StatusCode.Ok
    modifies res
    ensures res.sent.Some? && res.Answered() == ListUsersAnswer(req.limit, req.skip, store.State())
  {
    var users := store.Find(QueryNumber(req.skip), QueryNumber(req.limit));
    var totalCount: Result<nat, StoreError> := Failure(OtherError);
    if users.Success? {
      totalCount := store.EstimatedDocumentCount();
    }
    if totalCount.Failure? {
      // catch
      res.Status(StatusCode.InternalServerError);
      res.Json(ErrorBody(Error(Unexpected, None)));
      return;
    }
    res.Json(UsersBody(WithoutPasswords(users.value), totalCount.value));
  }

  // ---------------------------------------------------------------------
  // getUser
  // ---------------------------------------------------------------------

  /** What `getUser` answers: the password-less user, or null. */
  function GetUserAnswer(id: string, db: Db): (a: Answer)
    ensures !db.reachable ==> a == Failed(StatusCode.InternalServerError, Unexpected)
    ensures db.reachable ==> a.status == StatusCode.Ok && a.payload.UserBody?
    ensures db.reachable ==> (a.payload.user == None <==> forall i :: 0 <= i < |db.docs| ==> db.docs[i].id != id)
    ensures a.payload.UserBody? && a.payload.user.Some? ==>
      exists d :: d in db.docs && d.id == id && a.payload.user == Some(WithoutPassword(d))
  {
    match LookupById(db, id)
    case Failure(_) => Failed(StatusCode.InternalServerError, Unexpected)
    case Success(None) => Answer(StatusCode.Ok, UserBody(None))
    case Success(Some(u)) => Answer(StatusCode.Ok, UserBody(Some(WithoutPassword(u))))
  }

  /** The handler `getUser`. */
  method GetUser(req: Request, res: Response, store: UserCollection)
    requires res.sent.None? && res.status == StatusCode.Ok
    modifies res
    ensures res.sent.Some? && res.Answered() == GetUserAnswer(req.id, store.State())
  {
    var user := store.FindById(req.id);
    if user.Failure? {
      res.Status(StatusCode.InternalServerError);
      res.Json(ErrorBody(Error(Unexpected, None)));
      return;
    }
    var obj := if user.value.Some? then Some(WithoutPassword(user.value.value)) else None;
    res.Json(UserBody(obj));
  }

  /** A user just created is found by its id, and the fetch answers with
      the same password-less user the creation answered with. */
  lemma CreateThenGet(body: JsObject, db: Db, env: Env)
    requires CreateUserOutcome(body, db, env).0.status == StatusCode.Created
    ensures GetUserAnswer(env.newId, CreateUserOutcome(body, db, env).1) ==
      Answer(StatusCode.Ok, CreateUserOutcome(body, db, env).0.payload)
  {
    var (created, after) := CreateUserOutcome(body, db, env);
    var d := after.docs[|db.docs|];
    assert after.docs == db.docs + [d];
    assert IndexOfId(after.docs, env.newId) == Some(|db.docs|);
  }

  // ---------------------------------------------------------------------
  // updateUser
  // ---------------------------------------------------------------------

  /** What `updateUser` answers and the store it leaves, for the fields it
      hands to the store. An id that matches no user makes the handler call
      `toObject` on null; that throw is caught and answered 500 `Unexpected`. */
  function UpdateAnswer(id: string, fields: JsObject, db: Db, now: int): (r: (Answer, Db))
    ensures r.0.status == StatusCode.Ok || r.0.status == StatusCode.InternalServerError
    ensures |r.1.docs| == |db.docs|
    ensures r.0.status != StatusCode.Ok ==>
      r.1 == db && (r.0 == Failed(StatusCode.InternalServerError, DuplicateKey) || r.0 == Failed(StatusCode.InternalServerError, Unexpected))
    ensures (forall i :: 0 <= i < |db.docs| ==> db.docs[i].id != id) ==> r == (Failed(StatusCode.InternalServerError, Unexpected), db)
    ensures r.0.status == StatusCode.Ok ==>
      IndexOfId(db.docs, id).Some? &&
      var k := IndexOfId(db.docs, id).value;
      var u := Patched(db.docs[k], fields, now);
      r.1 == db.(docs := db.docs[k := u]) && r.0.payload == UserBody(Some(WithoutPassword(u)))
    ensures r.0 == Failed(StatusCode.InternalServerError, DuplicateKey) ==>
      IndexOfId(db.docs, id).Some? &&
      var k := IndexOfId(db.docs, id).value;
      UsernameTakenByOther(db.docs, k, Patched(db.docs[k], fields, now).username)
    ensures db.reachable && IndexOfId(db.docs, id).Some? ==>
      var k := IndexOfId(db.docs, id).value;
      UsernameTakenByOther(db.docs, k, Patched(db.docs[k], fields, now).username) ==>
      r == (Failed(StatusCode.InternalServerError, DuplicateKey), db)
    ensures !db.reachable ==> r == (Failed(StatusCode.InternalServerError, Unexpected), db)
    ensures r.0.status == StatusCode.Ok <==>
      && db.reachable && IndexOfId(db.docs, id).Some?
      && var k := IndexOfId(db.docs, id).value;
      !UsernameTakenByOther(db.docs, k, Patched(db.docs[k], fields, now).username)
    ensures Valid(db.docs) ==> Valid(r.1.docs)
  {
    var (user, after) := UpdateOutcome(db, id, fields, now);
    match user
    case Success(Some(u)) => (Answer(StatusCode.Ok, UserBody(Some(WithoutPassword(u)))), after)
    case Success(None) => (Failed(StatusCode.InternalServerError, Unexpected), after)
    case Failure(e) => (Failed(StatusCode.InternalServerError, StoreFailureCode(e)), after)
  }

  /** `updateUser` as written: the stripped body goes to the store as is,
      so a new password is stored in plain text. */
  function UpdateUserOutcomeAsWritten(id: string, body: JsObject, db: Db, env: Env): (r: (Answer, Db))
    ensures |r.1.docs| == |db.docs|
    ensures r.0.status == StatusCode.Ok && Get(body, "password").Str? ==>
      IndexOfId(db.docs, id).Some? && r.1.docs[IndexOfId(db.docs, id).value].password == Get(body, "password").s
  {
    UpdateAnswer(id, DeleteProperties(body, ServerManagedFields), db, env.now)
  }

  /** The fields an update hands to the store: the body without the
      server-managed fields, its password (if any) replaced by its hash. */
  function UpdateFields(body: JsObject, hash: string -> string): (fields: JsObject)
    ensures fields.Keys == body.Keys - ServerManagedFields
    ensures forall k :: k in fields && k != "password" ==> fields[k] == body[k]
    ensures Get(body, "password").Str? ==> Get(fields, "password") == Str(hash(Get(body, "password").s))
    ensures !Get(body, "password").Str? ==> Get(fields, "password") == Get(body, "password")
  {
    var fields := DeleteProperties(body, ServerManagedFields);
    var password := Get(fields, "password");
    if password.Str? then fields["password" := Str(hash(password.s))] else fields
  }

  /** What `updateUser` answers once a new password is hashed like on
      creation: the stored password is the hash of the one sent. */
  function UpdateUserOutcome(id: string, body: JsObject, db: Db, env: Env): (r: (Answer, Db))
    ensures r.0.status == StatusCode.Ok || r.0.status == StatusCode.InternalServerError
    ensures r.0.status != StatusCode.Ok ==> r.1 == db
    ensures (forall i :: 0 <= i < |db.docs| ==> db.docs[i].id != id) ==> r == (Failed(StatusCode.InternalServerError, Unexpected), db)
    ensures r.0.status == StatusCode.Ok ==>
      IndexOfId(db.docs, id).Some? &&
      var k := IndexOfId(db.docs, id).value;
      && |r.1.docs| == |db.docs|
      && (forall i :: 0 <= i < |db.docs| && i != k ==> r.1.docs[i] == db.docs[i])
      && r.1.docs[k].id == id && r.1.docs[k].createdAt == db.docs[k].createdAt && r.1.docs[k].updatedAt == env.now
      && r.1.docs[k].username == (if Get(body, "username").Str? then Trim(Get(body, "username").s) else db.docs[k].username)
      && r.1.docs[k].password == (if Get(body, "password").Str? then env.hash(Get(body, "password").s) else db.docs[k].password)
      && r.1.docs[k].role == (if Get(body, "role").Str? then RoleField(Get(body, "role")) else db.docs[k].role)
      && r.0.payload == UserBody(Some(WithoutPassword(r.1.docs[k])))
    ensures r.0.status == StatusCode.Ok <==>
      && db.reachable && IndexOfId(db.docs, id).Some?
      && var k := IndexOfId(db.docs, id).value;
      var name := if Get(body, "username").Str? then Trim(Get(body, "username").s) else db.docs[k].username;
      !UsernameTakenByOther(db.docs, k, name)
    ensures r.0.status != StatusCode.Ok ==>
      r.0 == Failed(StatusCode.InternalServerError, DuplicateKey) || r.0 == Failed(StatusCode.InternalServerError, Unexpected)
    ensures r.0 == Failed(StatusCode.InternalServerError, DuplicateKey) <==>
      && db.reachable && IndexOfId(db.docs, id).Some?
      && var k := IndexOfId(db.docs, id).value;
      var name := if Get(body, "username").Str? then Trim(Get(body, "username").s) else db.docs[k].username;
      UsernameTakenByOther(db.docs, k, name)
    ensures !db.reachable ==> r == (Failed(StatusCode.InternalServerError, Unexpected), db)
    ensures Valid(db.docs) ==> Valid(r.1.docs)
  {
    if db.reachable && IndexOfId(db.docs, id).Some? then
      UpdatePatch(body, env.hash, db.docs[IndexOfId(db.docs, id).value], env.now);
      UpdateAnswer(id, UpdateFields(body, env.hash), db, env.now)
    else
      UpdateAnswer(id, UpdateFields(body, env.hash), db, env.now)
  }

  /** The document an update leaves, field by field, in terms of the body. */
  lemma UpdatePatch(body: JsObject, hash: string -> string, d: UserDoc, now: int)
    ensures var p := Patched(d, UpdateFields(body, hash), now);
      && p.id == d.id && p.createdAt == d.createdAt && p.updatedAt == now
      && p.username == (if Get(body, "username").Str? then Trim(Get(body, "username").s) else d.username)
      && p.password == (if Get(body, "password").Str? then hash(Get(body, "password").s) else d.password)
      && p.role == (if Get(body, "role").Str? then RoleField(Get(body, "role")) else d.role)
  {
    var fields := UpdateFields(body, hash);
    assert Get(fields, "username") == Get(body, "username");
    assert Get(fields, "role") == Get(body, "role");
  }

  /** As written, an update with a new password stores it in plain text;
      the corrected handler stores its hash. Both succeed or fail alike. */
  lemma UpdateStoresPlaintextPassword(id: string, body: JsObject, db: Db, env: Env, password: string)
    requires Get(body, "password") == Str(password)
    ensures UpdateUserOutcomeAsWritten(id, body, db, env).0.status == UpdateUserOutcome(id, body, db, env).0.status
    ensures UpdateUserOutcomeAsWritten(id, body, db, env).0.status == StatusCode.Ok ==>
      var k := IndexOfId(db.docs, id).value;
      && UpdateUserOutcomeAsWritten(id, body, db, env).1.docs[k].password == password
      && UpdateUserOutcome(id, body, db, env).1.docs[k].password == env.hash(password)
  {
    var raw := DeleteProperties(body, ServerManagedFields);
    var hashed := UpdateFields(body, env.hash);
    if db.reachable && IndexOfId(db.docs, id).Some? {
      var k := IndexOfId(db.docs, id).value;
      assert Patched(db.docs[k], raw, env.now).username == Patched(db.docs[k], hashed, env.now).username;
    }
  }

  /** A client cannot change the id or the timestamps of a user: a
      server-managed field in the body changes nothing. */
  lemma UpdateIgnoresServerManagedFields(id: string, body: JsObject, key: string, v: JsValue, db: Db, env: Env)
    requires key in ServerManagedFields
    ensures UpdateUserOutcome(id, body[key := v], db, env) == UpdateUserOutcome(id, body, db, env)
  {
    assert DeleteProperties(body[key := v], ServerManagedFields) == DeleteProperties(body, ServerManagedFields);
    assert UpdateFields(body[key := v], env.hash) == UpdateFields(body, env.hash);
  }

  /** The handler `updateUser`, hashing a new password before the update;
      it strips `req.body` in place. */
  method UpdateUser(req: Request, res: Response, store: UserCollection, env: Env)
    requires res.sent.None? && res.status == StatusCode.Ok
    modifies req`body, res, store
    ensures req.body == DeleteProperties(old(req.body), ServerManagedFields)
    ensures res.sent.Some? && (res.Answered(), store.State()) == UpdateUserOutcome(req.id, old(req.body), old(store.State()), env)
  {
    req.body := DeleteProperties(req.body, ServerManagedFields);
    var fields := req.body;
    var password := Get(fields, "password");
    if password.Str? {
      fields := fields["password" := Str(env.hash(password.s))];
    }
    var user := store.FindByIdAndUpdate(req.id, fields, env.now);
    if user.Failure? || user.value.None? {
      // catch: a store failure, or `toObject` called on null
      var code := if user.Failure? then StoreFailureCode(user.error) else Unexpected;
      res.Status(StatusCode.InternalServerError);
      res.Json(ErrorBody(Error(code, None)));
      return;
    }
    var obj := ToObject(user.value.value);
    obj := DeleteProperties(obj, {"password"});
    res.Json(UserBody(Some(obj)));
  }

  // ---------------------------------------------------------------------
  // deleteUser
  // ---------------------------------------------------------------------

  /** What `deleteUser` answers as written: the removed document exactly as
      the store returns it, password hash included, or null. */
  function DeleteUserOutcomeAsWritten(id: string, db: Db): (r: (Answer, Db))
    ensures r.1 == RemoveOutcome(db, id).1
    ensures db.reachable ==> r.0.status == StatusCode.Ok && r.0.payload.UserBody?
    ensures r.0.payload.UserBody? && r.0.payload.user.Some? ==>
      exists d :: d in db.docs && d.id == id && r.0.payload.user == Some(ToObject(d))
  {
    match RemoveOutcome(db, id)
    case (Failure(_), after) => (Failed(StatusCode.InternalServerError, Unexpected), after)
    case (Success(user), after) =>
      (Answer(StatusCode.Ok, UserBody(if user.Some? then Some(ToObject(user.value)) else None)), after)
  }

  /** What `deleteUser` answers once the removed user is stripped of its
      password like every other returned user. */
  function DeleteUserOutcome(id: string, db: Db): (r: (Answer, Db))
    ensures !db.reachable ==> r == (Failed(StatusCode.InternalServerError, Unexpected), db)
    ensures db.reachable ==> r.0.status == StatusCode.Ok && r.0.payload.UserBody?
    ensures r.0.payload.UserBody? && r.0.payload.user.Some? ==>
      "password" !in r.0.payload.user.value &&
      exists d :: d in db.docs && d.id == id && r.0.payload.user == Some(WithoutPassword(d))
    ensures r.0 == Answer(StatusCode.Ok, UserBody(None)) ==> r.1 == db
    ensures Valid(db.docs) ==> Valid(r.1.docs)
    ensures Valid(db.docs) && db.reachable ==> forall i :: 0 <= i < |r.1.docs| ==> r.1.docs[i].id != id
    ensures r.1 == DeleteUserOutcomeAsWritten(id, db).1
  {
    match RemoveOutcome(db, id)
    case (Failure(_), after) => (Failed(StatusCode.InternalServerError, Unexpected), after)
    case (Success(user), after) =>
      (Answer(StatusCode.Ok, UserBody(if user.Some? then Some(WithoutPassword(user.value)) else None)), after)
  }

  /** As written, deleting an existing user sends its stored password hash
      to the client; the corrected handler does not. */
  lemma DeleteLeaksPasswordHash(id: string, db: Db, d: UserDoc)
    requires db.reachable && d in db.docs && d.id == id
    ensures var a := DeleteUserOutcomeAsWritten(id, db).0;
      a.payload.UserBody? && a.payload.user.Some? && Get(a.payload.user.value, "password").Str?
    ensures var a := DeleteUserOutcome(id, db).0;
      a.payload.UserBody? && a.payload.user.Some? && "password" !in a.payload.user.value
  {
    var i :| 0 <= i < |db.docs| && db.docs[i] == d;
    assert db.docs[i].id == id;
  }

  /** Deleting twice: the second delete answers null and changes nothing. */
  lemma DeleteTwice(id: string, db: Db)
    requires Valid(db.docs) && db.reachable
    ensures var after := DeleteUserOutcome(id, db).1;
      DeleteUserOutcome(id, after) == (Answer(StatusCode.Ok, UserBody(None)), after)
  {
  }

  /** The handler `deleteUser`, returning the removed user without its
      password. */
  method DeleteUser(req: Request, res: Response, store: UserCollection)
    requires res.sent.None? && res.status == StatusCode.Ok
    modifies res, store
    ensures res.sent.Some? && (res.Answered(), store.State()) == DeleteUserOutcome(req.id, old(store.State()))
  {
    var user := store.FindByIdAndRemove(req.id);
    if user.Failure? {
      res.Status(StatusCode.InternalServerError);
      res.Json(ErrorBody(Error(Unexpected, None)));
      return;
    }
    var obj := if user.value.Some? then Some(WithoutPassword(user.value.value)) else None;
    res.Json(UserBody(obj));
  }
}
