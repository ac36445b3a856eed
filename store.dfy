/** The account collection the handlers talk to, kept in memory. The
    database and its object mapper are not part of this model; this module
    gives them the behaviour the handlers rely on: a unique index on the id
    and on the (trimmed) username, a failure code `MongoDuplicateKey` when
    either is violated, the persistence schema's field checks, and a store
    that may be unreachable, in which case every call fails. */
module Store {
  import opened Values
  import opened UserRoles
  import opened Errors

  /** A stored account. `password` holds whatever the write path stored. */
  datatype UserDoc = UserDoc(
    id: string,
    username: string,
    password: string,
    role: Option<Role>,
    createdAt: int,
    updatedAt: int)

  /** The collection in natural (insertion) order, and whether it can be reached. */
  datatype Db = Db(docs: seq<UserDoc>, reachable: bool)

  /** A failure raised by a store call; `code` is the error's `code` property. */
  datatype StoreError = StoreError(code: Option<int>)

  const DuplicateKeyError := StoreError(Some(MongoDuplicateKey))
  const OtherError := StoreError(None)

  /** The unique indexes: no two documents share an id or a username. */
  predicate Valid(docs: seq<UserDoc>)
  {
    forall i, j :: 0 <= i < j < |docs| ==> docs[i].id != docs[j].id && docs[i].username != docs[j].username
  }

  /** `toObject()`: the document as a plain object. */
  function ToObject(d: UserDoc): (o: JsObject)
    ensures o.Keys == {"_id", "username", "password", "createdAt", "updatedAt"} + (if d.role.Some? then {"role"} else {})
  {
    var base := map["_id" := Str(d.id), "username" := Str(d.username), "password" := Str(d.password),
                     "createdAt" := Num(d.createdAt), "updatedAt" := Num(d.updatedAt)];
    if d.role.Some? then base["role" := Str(RoleName(d.role.value))] else base
  }

  /** The document as read with the projection `{ password: 0 }`, which is
      also what `deleteProperties(user, ['password'])` leaves. */
  function WithoutPassword(d: UserDoc): (o: JsObject)
    ensures "password" !in o
    ensures Get(o, "_id") == Str(d.id) && Get(o, "username") == Str(d.username)
    ensures o.Keys == ToObject(d).Keys - {"password"}
  {
    DeleteProperties(ToObject(d), {"password"})
  }

  /** The role stored on a user object: `user.role`, when it names a role. */
  function RoleOf(user: JsObject): Option<Role>
  {
    match Get(user, "role")
    case Str(s) => ParseRole(s)
    case _ => None
  }

  /** Reading back the role of a password-less user object gives the
      document's role. */
  lemma RoleOfWithoutPassword(d: UserDoc)
    ensures RoleOf(WithoutPassword(d)) == d.role
  {
    if d.role.Some? {
      assert Get(WithoutPassword(d), "role") == Str(RoleName(d.role.value));
    } else {
      assert "role" !in WithoutPassword(d);
    }
  }

  /** Position of the document with the given id. */
  function IndexOfId(docs: seq<UserDoc>, id: string): (k: Option<nat>)
    ensures k.Some? ==> k.value < |docs| && docs[k.value].id == id
    ensures k.None? ==> forall i :: 0 <= i < |docs| ==> docs[i].id != id
    decreases |docs|
  {
    if docs == [] then None
    else if docs[|docs| - 1].id == id then Some(|docs| - 1)
    else IndexOfId(docs[..|docs| - 1], id)
  }

  /** Position of the document with the given username. */
  function IndexOfUsername(docs: seq<UserDoc>, name: string): (k: Option<nat>)
    ensures k.Some? ==> k.value < |docs| && docs[k.value].username == name
    ensures k.None? ==> forall i :: 0 <= i < |docs| ==> docs[i].username != name
    decreases |docs|
  {
    if docs == [] then None
    else if docs[|docs| - 1].username == name then Some(|docs| - 1)
    else IndexOfUsername(docs[..|docs| - 1], name)
  }

  /** `findById`. */
  function LookupById(db: Db, id: string): (r: Result<Option<UserDoc>, StoreError>)
    ensures !db.reachable <==> r.Failure?
    ensures r.Success? && r.value.Some? ==> r.value.value in db.docs && r.value.value.id == id
    ensures r.Success? && r.value.None? ==> forall i :: 0 <= i < |db.docs| ==> db.docs[i].id != id
  {
    if !db.reachable then Failure(OtherError)
    else match IndexOfId(db.docs, id)
      case None => Success(None)
      case Some(k) => Success(Some(db.docs[k]))
  }

  /** The filter value a username query matches: string values go through
      the schema's trim setter; other values match no document. */
  function UsernameKey(username: JsValue): Option<string>
  {
    if username.Str? then Some(Trim(username.s)) else None
  }

  /** `findOne({ username })`. */
  function LookupByUsername(db: Db, username: JsValue): (r: Result<Option<UserDoc>, StoreError>)
    ensures !db.reachable <==> r.Failure?
    ensures r.Success? && r.value.Some? ==>
      r.value.value in db.docs && UsernameKey(username) == Some(r.value.value.username)
    ensures r.Success? && r.value.None? ==>
      forall i :: 0 <= i < |db.docs| ==> UsernameKey(username) != Some(db.docs[i].username)
  {
    if !db.reachable then Failure(OtherError)
    else match UsernameKey(username)
      case None => Success(None)
      case Some(name) =>
        match IndexOfUsername(db.docs, name)
        case None => Success(None)
        case Some(k) => Success(Some(db.docs[k]))
  }

  /** What the persistence schema accepts on creation: a username whose
      trimmed length fits, a password of the right length, an optional valid role. */
  predicate SchemaAccepts(fields: JsObject)
  {
    GetUsernameError(Get(fields, "username"), true) == None
    && GetUserPasswordError(Get(fields, "password"), true) == None
    && GetUserRoleError(Get(fields, "role"), false) == None
  }

  /** The role a body field sets, if it names one. */
  function RoleField(v: JsValue): Option<Role>
  {
    if v.Str? then ParseRole(v.s) else None
  }

  /** The document `create` builds: trimmed username, the password passed
      through the save hook's hash, timestamps set to now. */
  function NewDoc(fields: JsObject, id: string, now: int, hash: string -> string): UserDoc
    requires SchemaAccepts(fields)
  {
    UserDoc(id, Trim(Get(fields, "username").s), hash(Get(fields, "password").s),
            RoleField(Get(fields, "role")), now, now)
  }

  /** `create(fields)`: fails when unreachable or when the schema refuses
      the fields; fails with the duplicate-key code when the id or the
      username is taken; otherwise appends the new document. */
  function InsertOutcome(db: Db, fields: JsObject, id: string, now: int, hash: string -> string)
    : (r: (Result<UserDoc, StoreError>, Db))
    ensures r.0.Failure? ==> r.1 == db
    ensures r.0.Success? ==> r.0.value.id == id && r.1 == db.(docs := db.docs + [r.0.value])
    ensures r.0.Success? ==> SchemaAccepts(fields) && r.0.value == NewDoc(fields, id, now, hash)
    ensures r.0.Success? <==>
      db.reachable && SchemaAccepts(fields) &&
      IndexOfId(db.docs, id).None? && IndexOfUsername(db.docs, NewDoc(fields, id, now, hash).username).None?
    ensures r.0 == Failure(DuplicateKeyError) <==>
      db.reachable && SchemaAccepts(fields) &&
      (IndexOfId(db.docs, id).Some? || IndexOfUsername(db.docs, NewDoc(fields, id, now, hash).username).Some?)
    ensures Valid(db.docs) ==> Valid(r.1.docs)
  {
    if !db.reachable || !SchemaAccepts(fields) then (Failure(OtherError), db)
    else
      var d := NewDoc(fields, id, now, hash);
      if IndexOfId(db.docs, id).Some? || IndexOfUsername(db.docs, d.username).Some? then (Failure(DuplicateKeyError), db)
      else (Success(d), db.(docs := db.docs + [d]))
  }

  /** The document after `$set` of the present fields. The username goes
      through the trim setter; the password is stored as given, because an
      update does not run the save hook that hashes it, nor the schema's
      validators. */
  function Patched(d: UserDoc, fields: JsObject, now: int): UserDoc
  {
    var u := Get(fields, "username");
    var p := Get(fields, "password");
    var r := Get(fields, "role");
    d.(username := if u.Str? then Trim(u.s) else d.username,
       password := if p.Str? then p.s else d.password,
       role := if r.Str? then ParseRole(r.s) else d.role,
       updatedAt := now)
  }

  /** Some document other than the one at `k` has this username. */
  predicate UsernameTakenByOther(docs: seq<UserDoc>, k: nat, name: string)
  {
    exists i :: 0 <= i < |docs| && i != k && docs[i].username == name
  }

  /** `findByIdAndUpdate(id, fields, { new: true })`: the updated document,
      or `None` when no document has the id. */
  function UpdateOutcome(db: Db, id: string, fields: JsObject, now: int)
    : (r: (Result<Option<UserDoc>, StoreError>, Db))
    ensures r.0.Failure? || (r.0.Success? && r.0.value.None?) ==> r.1 == db
    ensures r.0.Success? && r.0.value.None? <==> db.reachable && IndexOfId(db.docs, id).None?
    ensures r.0.Success? && r.0.value.Some? ==>
      IndexOfId(db.docs, id).Some? &&
      var k := IndexOfId(db.docs, id).value;
      r.0.value.value == Patched(db.docs[k], fields, now) && r.1 == db.(docs := db.docs[k := r.0.value.value])
    ensures db.reachable && IndexOfId(db.docs, id).Some? ==>
      var k := IndexOfId(db.docs, id).value;
      (r.0.Success? <==> !UsernameTakenByOther(db.docs, k, Patched(db.docs[k], fields, now).username))
    ensures r.0.Failure? ==> (r.0.error == DuplicateKeyError <==> db.reachable)
    ensures Valid(db.docs) ==> Valid(r.1.docs)
  {
    if !db.reachable then (Failure(OtherError), db)
    else match IndexOfId(db.docs, id)
      case None => (Success(None), db)
      case Some(k) =>
        var d := Patched(db.docs[k], fields, now);
        if UsernameTakenByOther(db.docs, k, d.username) then (Failure(DuplicateKeyError), db)
        else (Success(Some(d)), db.(docs := db.docs[k := d]))
  }

  /** `findByIdAndRemove(id)`: the removed document (all of it), or `None`. */
  function RemoveOutcome(db: Db, id: string): (r: (Result<Option<UserDoc>, StoreError>, Db))
    ensures r.0.Failure? <==> !db.reachable
    ensures r.0.Failure? || (r.0.Success? && r.0.value.None?) ==> r.1 == db
    ensures r.0.Success? ==> r.0 == LookupById(db, id)
    ensures r.0.Success? ==> |r.1.docs| == |db.docs| - (if r.0.value.Some? then 1 else 0)
    ensures r.0.Success? ==> multiset(r.1.docs) + (if r.0.value.Some? then multiset{r.0.value.value} else multiset{}) == multiset(db.docs)
    ensures Valid(db.docs) ==> Valid(r.1.docs)
    ensures Valid(db.docs) && r.0.Success? ==> forall i :: 0 <= i < |r.1.docs| ==> r.1.docs[i].id != id
  {
    if !db.reachable then (Failure(OtherError), db)
    else match IndexOfId(db.docs, id)
      case None => (Success(None), db)
      case Some(k) =>
        var rest := db.docs[..k] + db.docs[k + 1..];
        assert db.docs == db.docs[..k] + [db.docs[k]] + db.docs[k + 1..];
        (Success(Some(db.docs[k])), db.(docs := rest))
  }

  /** `find().skip(skip).limit(limit)` in natural order; a limit of 0 means
      no limit. */
  function PageOutcome(db: Db, skip: nat, limit: nat): (r: Result<seq<UserDoc>, StoreError>)
    ensures !db.reachable <==> r.Failure?
    ensures r.Success? ==> limit > 0 ==> |r.value| <= limit
    ensures r.Success? ==> |r.value| == (if skip >= |db.docs| then 0 else if limit == 0 || |db.docs| - skip <= limit then |db.docs| - skip else limit)
    ensures r.Success? ==> forall i :: 0 <= i < |r.value| ==> r.value[i] == db.docs[skip + i]
  {
    if !db.reachable then Failure(OtherError)
    else
      var rest := if skip >= |db.docs| then [] else db.docs[skip..];
      Success(if limit == 0 || |rest| <= limit then rest else rest[..limit])
  }

  /** `estimatedDocumentCount()`: the size of the whole collection. */
  function CountOutcome(db: Db): (r: Result<nat, StoreError>)
    ensures !db.reachable <==> r.Failure?
    ensures r.Success? ==> r.value == |db.docs|
  {
    if !db.reachable then Failure(OtherError) else Success(|db.docs|)
  }

  /** The collection as a mutable object; each method is one store call. */
  class UserCollection {
    var docs: seq<UserDoc>
    var reachable: bool

    function State(): Db
      reads this
    {
      Db(docs, reachable)
    }

    constructor (db: Db)
      ensures State() == db
    {
      docs, reachable := db.docs, db.reachable;
    }

    method Create(fields: JsObject, id: string, now: int, hash: string -> string) returns (r: Result<UserDoc, StoreError>)
      modifies this
      ensures (r, State()) == InsertOutcome(old(State()), fields, id, now, hash)
    {
      var out := InsertOutcome(State(), fields, id, now, hash);
      r, docs := out.0, out.1.docs;
    }

    method FindById(id: string) returns (r: Result<Option<UserDoc>, StoreError>)
      ensures r == LookupById(State(), id)
    {
      r := LookupById(State(), id);
    }

    method FindOne(username: JsValue) returns (r: Result<Option<UserDoc>, StoreError>)
      ensures r == LookupByUsername(State(), username)
    {
      r := LookupByUsername(State(), username);
    }

    method FindByIdAndUpdate(id: string, fields: JsObject, now: int) returns (r: Result<Option<UserDoc>, StoreError>)
      modifies this
      ensures (r, State()) == UpdateOutcome(old(State()), id, fields, now)
    {
      var out := UpdateOutcome(State(), id, fields, now);
      r, docs := out.0, out.1.docs;
    }

    method FindByIdAndRemove(id: string) returns (r: Result<Option<UserDoc>, StoreError>)
      modifies this
      ensures (r, State()) == RemoveOutcome(old(State()), id)
    {
      var out := RemoveOutcome(State(), id);
      r, docs := out.0, out.1.docs;
    }

    method Find(skip: nat, limit: nat) returns (r: Result<seq<UserDoc>, StoreError>)
      ensures r == PageOutcome(State(), skip, limit)
    {
      r := PageOutcome(State(), skip, limit);
    }

    method EstimatedDocumentCount() returns (r: Result<nat, StoreError>)
      ensures r == CountOutcome(State())
    {
      r := CountOutcome(State());
    }
  }
}
