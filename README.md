# Account API request pipeline, modelled in Dafny

This project models the request-processing core of a small Express
account API: the error taxonomy and field validators, the authorization
policy, the query and route-parameter guards, the authentication guard, the
sign-in route and the five account routes with their guard chains. Each
guard and handler is an imperative method over mutable `Request`,
`Response` and `UserCollection` objects, proved against a pure function
that says what it answers and which store it leaves. On top of these, a
route is modelled as a chain of guards folded with short-circuit,
followed by a handler. Lemmas about that fold and about whole routes state
what a client can observe:

- input errors are reported before credentials are examined;
- a request without an identifiable user gets 401;
- a non-administrator gets 403;
- with the two corrections listed under "## Findings", no response carries a password; as written, deleting a user answers its password hash;
- the store's unique indexes are preserved;
- no request on the application's routes escapes as an exception.

Modules, one per source file where there is one:

- `Values`: JavaScript values and objects, `trim`, and the integer-string test.
- `StatusCodes` and `UserRoles`: stand-ins for `src/status-code.js` and `src/user-role.js`.
- `Errors`: `src/error.js`.
- `Store`: an in-memory user collection with the behaviour the handlers rely on from `src/db.js` and the database.
- `Oracles`: token signing and verification, password hashing and comparison, id generation and the clock, all passed in as parameters.
- `Http`: requests, responses and guard results.
- `Permission`: `src/permission.js`.
- `Common`: `src/common.js`.
- `Auth`: `src/auth.js`.
- `AuthRoutes`: `src/routes/auth.js`.
- `UserRoutes`: `src/routes/users.js`.
- `Router`: the route table and the guard fold.
- `Api`: end-to-end properties.

Modelling decisions:

- A guard's verdict is `Continue(request) | Reject(status, envelope) | Throw`. `Throw` stands for `authorize` reading `req.user.role` when no user is attached.
- Every guard method is proved to `Enacted` its verdict. On `Continue` it calls `next` with that request and writes nothing. On `Reject` it answers with that status and envelope and does not call `next`. It never does both and never neither.
- The store can be unreachable. Every store call then fails, which makes each handler's catch branch reachable.
- The error code of a store failure is kept, so the duplicate-key code 11000 is distinguished from any other failure.
- `src/status-code.js`, `src/user-role.js` and `src/util.js` are not part of this model. The six status codes and the roles `Admin` and `Member` stand in for the first two. `Member` represents every role other than `Admin`. `deleteProperties` is map key removal.

## Model

| member | source | states |
|---|---|---|
| Values.DeleteProperties | src/routes/users.js:92 | the result has exactly the object's keys minus the removed ones, with unchanged values |
| Values.Trim | src/error.js:75 | `trim` yields a string no longer than its input, with no whitespace at either end |
| Values.TrimShape | src/error.js:75 | the input is the trimmed string with whitespace padding on either side |
| Values.TrimStartShape | src/error.js:75 | trimming the start keeps a suffix of the input and drops only whitespace |
| Values.TrimEndShape | src/error.js:75 | trimming the end keeps a prefix of the input and drops only whitespace |
| Values.TrimOfPadded | src/error.js:75 | whitespace on both sides of an unpadded core is exactly what `trim` removes |
| Values.TrimIdempotent | src/error.js:75 | trimming twice equals trimming once |
| Values.DecimalStringRoundTrip | src/error.js:53 | the canonical decimal of any integer passes the integer test and reads back as that integer |
| UserRoles.ParseRole | src/error.js:95 | a string is accepted as a role iff it is one of the role values, and parsing inverts the role's name |
| Errors.CodeNamesDistinct | src/error.js:7-23 | distinct error codes are sent as distinct strings |
| Errors.Error | src/error.js:31-42 | the envelope carries the given code, and a message exactly when a non-empty one was given |
| Errors.GetQueryLimitError | src/error.js:52-56 | no error iff the limit is absent, empty, or an integer string in [1, 1000]; otherwise only `QueryLimitInvalid` |
| Errors.GetQuerySkipError | src/error.js:58-62 | no error iff the skip is absent, empty, or an integer string of at least 0; otherwise only `QuerySkipInvalid` |
| Errors.GetIdParameterError | src/error.js:64-68 | no error iff the id is 24 hexadecimal characters; otherwise only `IdParameterInvalid` |
| Errors.GetUsernameError | src/error.js:70-78 | `UsernameIsRequired` iff absent and required; no error iff absent and optional, or a string whose trimmed length is in [1, 100]; otherwise `UsernameInvalid` |
| Errors.GetUserPasswordError | src/error.js:80-88 | `UserPasswordIsRequired` iff absent and required; no error iff absent and optional, or a string whose untrimmed length is in [6, 30]; otherwise `UserPasswordInvalid` |
| Errors.GetUserRoleError | src/error.js:90-98 | `UserRoleIsRequired` iff absent and required; no error iff absent and optional, or a string naming a role; otherwise `UserRoleInvalid` |
| Errors.AbsentAndNullRule | src/error.js:70-98 | for all three fields, absent gives the required code or nothing depending on `required`, and null is invalid either way |
| Errors.UsernameJudgedByCore | src/error.js:75 | a padded username is accepted iff its unpadded core has length in [1, 100] |
| Errors.LongUsernameRejected | test/api.spec.js:111-119 | a 101-digit username is `UsernameInvalid` |
| Errors.BlankUsernameRejected | src/error.js:75 | an all-whitespace username is `UsernameInvalid` |
| Errors.PasswordBounds | test/api.spec.js:131-149 | "1" and any 31-character password are invalid; "123456" and six spaces are valid |
| Errors.RoleNamesAccepted | test/api.spec.js:252-262 | every role name is accepted, and "some invalid role" is `UserRoleInvalid` |
| Errors.QueryLimitAcceptsExactly | src/error.js:52-56 | the decimal rendering of n is an accepted limit iff 1 <= n <= 1000 |
| Errors.QuerySkipAcceptsExactly | src/error.js:58-62 | the decimal rendering of n is an accepted skip iff n >= 0 |
| Errors.QueryExamples | test/api.spec.js:308-349 | limits "-1", "abc" and "1001" and skips "-1" and "abc" are rejected; "1", empty and absent are accepted |
| Store.ToObject | src/routes/users.js:94 | the plain object has `_id`, `username`, `password`, both timestamps, and `role` when set |
| Store.WithoutPassword | src/auth.js:16 | the projected user has no `password` key, and keeps the id, the username and every other key |
| Store.RoleOfWithoutPassword | src/permission.js:29 | the role read from a password-less user object is the stored role |
| Store.LookupById | src/auth.js:16 | when reachable, the result is the stored document with that id, or none when no document has it; it fails iff unreachable |
| Store.LookupByUsername | src/routes/auth.js:46 | the found document's username equals the trimmed query value; none is found iff no stored username equals it |
| Store.InsertOutcome | src/routes/users.js:93 | a create succeeds exactly when the store is reachable, the schema accepts the fields and neither the id nor the trimmed username is taken; it then stores and returns the document `create` builds (trimmed username, hashed password, both timestamps now), appended at the end; a failure leaves the store unchanged, with the duplicate-key code exactly when the id or username is taken; the unique indexes are preserved |
| Store.UpdateOutcome | src/routes/users.js:168-172 | an unknown id answers none with the store unchanged; for a known id on a reachable store, the update succeeds exactly when no other document has the patched username, and then the document at that id becomes its patched version; a failure leaves the store unchanged and carries the duplicate-key code exactly when the store was reachable; indexes preserved |
| Store.RemoveOutcome | src/routes/users.js:188 | returns what a lookup by id returns, removes exactly that document (as a multiset), and no document with the id remains |
| Store.PageOutcome | src/routes/users.js:110-112 | the page is the documents from position `skip` on, at most `limit` of them (0 meaning no limit), in order |
| Store.CountOutcome | src/routes/users.js:114 | the count is the size of the whole collection |
| Store.UserCollection.constructor | src/db.js:54 | the collection starts in the given state |
| Store.UserCollection.Create | src/routes/users.js:93 | the call returns and leaves what `InsertOutcome` says |
| Store.UserCollection.FindByIdAndUpdate | src/routes/users.js:168-172 | returns and leaves what `UpdateOutcome` says |
| Store.UserCollection.FindByIdAndRemove | src/routes/users.js:188 | returns and leaves what `RemoveOutcome` says |
| Http.Failed | src/common.js:12-13 | a failure answer has the given status and carries exactly the given code and no message |
| Http.RejectOn | src/common.js:9-18 | a guard continues with the request unchanged iff the validator reported nothing, and otherwise rejects with the given status and the reported code |
| Http.Request.constructor | src/common.js:10 | the request holds the given header, query values, id, body and user |
| Http.Response.constructor | src/routes/auth.js:61 | a fresh response has status 200 and no body |
| Http.Response.Status | src/common.js:12 | sets the status and leaves the body alone |
| Http.Response.Json | src/common.js:13 | sends the body once and leaves the status alone |
| Permission.ActionsEnumerated | src/permission.js:5-12 | there are exactly five distinct actions, all listed |
| Permission.IsAllowed | src/permission.js:15-25 | an action is allowed iff the role is `Admin`: a role without a policy entry gets nothing, `Admin` gets every action |
| Permission.AuthorizeVerdict | src/permission.js:27-37 | throws iff no user is attached; continues with the request unchanged iff the user's role is allowed the action; otherwise rejects 403 `NotAllowed` |
| Permission.Authorize | src/permission.js:28-36 | with a user attached, enacts `AuthorizeVerdict` without touching the request |
| Common.QueryLimitVerdict | src/common.js:9-18 | continues unchanged iff the limit has no error, else 400 `QueryLimitInvalid` |
| Common.QuerySkipVerdict | src/common.js:20-29 | continues unchanged iff the skip has no error, else 400 `QuerySkipInvalid` |
| Common.IdParameterVerdict | src/common.js:31-40 | continues unchanged iff the id has Mongo shape, else 400 `IdParameterInvalid` |
| Common.ValidateQueryLimit | src/common.js:9-18 | enacts `QueryLimitVerdict`: exactly one of "answer 400" and "call next" |
| Common.ValidateQuerySkip | src/common.js:20-29 | enacts `QuerySkipVerdict` |
| Common.ValidateIdParameter | src/common.js:31-40 | enacts `IdParameterVerdict` |
| Auth.AuthenticateVerdict | src/auth.js:6-29 | never throws; continues iff the token identifies a stored user, attaching that user without a password; every rejection is 401 `Unauthorized` with no message; a missing or empty header is always rejected |
| Auth.MissingHeaderSkipsVerification | src/auth.js:7-12 | without a header the answer is 401 whatever the verifier and the store would say |
| Auth.VanishedUserLikeBadToken | src/auth.js:16-28 | a valid token for a user who is gone is answered exactly like a token that does not verify |
| Auth.Authenticate | src/auth.js:6-29 | enacts `AuthenticateVerdict`; on failure `req.user` is unchanged or null |
| AuthRoutes.SignInBodyError | src/routes/auth.js:23-41 | no error iff username and password are both valid and present; the username's error is reported if it has one, and otherwise exactly the password's result |
| AuthRoutes.SignInBodyVerdict | src/routes/auth.js:23-41 | continues unchanged iff the body has no error, else 400 with the first error |
| AuthRoutes.ValidateSignIn | src/routes/auth.js:23-41 | enacts `SignInBodyVerdict` |
| AuthRoutes.SignInAnswer | src/routes/auth.js:43-66 | 200 iff a token is sent; a token is sent only for a stored user whose password checks out, and it is the one issued over that user's id; 401 only with `SignInUserNotFound` or `SignInWrongPassword`; an unreachable store gives 500 `Unexpected`, and so does every other failure |
| AuthRoutes.SignIn | src/routes/auth.js:43-66 | sends exactly `SignInAnswer` |
| AuthRoutes.UnknownUserNotCompared | src/routes/auth.js:46-51 | an unknown username gives 401 `SignInUserNotFound` whatever the comparison and the signer would say |
| AuthRoutes.LookupFindsStored | src/routes/auth.js:46 | with unique usernames, the lookup finds the user stored under the trimmed name |
| AuthRoutes.WrongPasswordRejected | src/routes/auth.js:53-58 | a stored user with a mismatching password gives 401 `SignInWrongPassword` |
| AuthRoutes.FailedCheckIsUnexpected | src/routes/auth.js:53-64 | a stored user whose password cannot be compared, or whose token cannot be signed after a match, gives 500 `Unexpected` |
| AuthRoutes.MatchingCredentialsIssueToken | src/routes/auth.js:60-61 | matching credentials give 200 with the token issued over the user's id |
| UserRoutes.UserBodyError | src/routes/users.js:63-88 | no error iff all three fields pass; the result is the username's error if any, else the password's error if any, else exactly the role's result |
| UserRoutes.UserBodyVerdict | src/routes/users.js:138-163 | continues unchanged iff the body has no error, else 400 with the first error |
| UserRoutes.ValidateUserBody | src/routes/users.js:63-163 | enacts `UserBodyVerdict`: with `required` true it is `validatePostUser` (lines 63-88), with `required` false `validatePutUser` (lines 138-163) |
| UserRoutes.CreateRequiresRole | test/api.spec.js:242-250 | valid username and password without a role is `UserRoleIsRequired` on create and accepted on update |
| UserRoutes.EmptyBody | src/routes/users.js:138-163 | an empty body passes the update check and fails the create check with `UsernameIsRequired` |
| UserRoutes.ValidatedBodyFitsSchema | src/routes/users.js:63-88 | a body that passed the create check, stripped of server-managed fields, is accepted by the store's schema |
| UserRoutes.StoreFailureCode | src/routes/users.js:99-101 | `DuplicateKey` iff the store error's code is 11000, else `Unexpected` |
| UserRoutes.WithoutPasswords | src/routes/users.js:110 | each listed user is the password-less view of the document at the same position |
| UserRoutes.CreateUserOutcome | src/routes/users.js:90-106 | 201 exactly when the store accepts the stripped body; the user then appended has the trimmed username, the hash of the password, the role sent and both timestamps now, and the answer is that user without a password; otherwise 500 with the store unchanged, `DuplicateKey` exactly for a store duplicate-key failure; indexes preserved |
| UserRoutes.CreateSucceeds | src/routes/users.js:90-106 | a validated body whose trimmed username and generated id are unused, on a reachable store, is answered 201 and adds one user |
| UserRoutes.CreateIgnoresServerManagedFields | src/routes/users.js:92 | adding `_id`, `createdAt` or `updatedAt` to the body changes neither answer nor store |
| UserRoutes.CreateUser | src/routes/users.js:90-106 | strips the server-managed fields from `req.body` in place, and answers and leaves the store as `CreateUserOutcome` says |
| UserRoutes.ListUsersAnswer | src/routes/users.js:108-126 | 500 `Unexpected` iff unreachable; otherwise 200 with the requested window of password-less users and the size of the whole collection |
| UserRoutes.SkipPastEnd | test/api.spec.js:377-386 | skipping past the end gives an empty list while the total count is still the collection size |
| UserRoutes.ListUsers | src/routes/users.js:108-126 | sends exactly `ListUsersAnswer` |
| UserRoutes.GetUserAnswer | src/routes/users.js:128-136 | when reachable, 200 with null iff no user has the id, else that user without a password; otherwise 500 `Unexpected` |
| UserRoutes.GetUser | src/routes/users.js:128-136 | sends exactly `GetUserAnswer` |
| UserRoutes.CreateThenGet | test/api.spec.js:288-303 | fetching a just-created user by its id answers the same user the creation answered |
| UserRoutes.UpdateAnswer | src/routes/users.js:165-184 | 200 exactly when the store is reachable, the id is known and no other user has the patched username; then the patched password-less user replaces the stored one; a username held by another user gives 500 `DuplicateKey`, an unknown id or an unreachable store 500 `Unexpected`, each with the store unchanged; `DuplicateKey` only when another user has the new username; indexes preserved |
| UserRoutes.UpdateUserOutcomeAsWritten | src/routes/users.js:165-184 | a successful update with a new password stores that password as sent |
| UserRoutes.UpdateFields | src/routes/users.js:167 | the fields sent to the store are the body minus the server-managed fields, with a string password replaced by its hash |
| UserRoutes.UpdateUserOutcome | src/routes/users.js:165-184 | 200 exactly when the store is reachable, the id is known and no other user has the new username (the trimmed one sent, or the old one); 500 `DuplicateKey` exactly when another user has that username; an unknown id or an unreachable store gives 500 `Unexpected`; every failure is one of those two envelopes and leaves the store unchanged; on success only that user changes: id and creation time kept, update time now, username the trimmed one sent or unchanged, password the hash of a new one or unchanged, role the one sent or unchanged; the answer is that user without a password |
| UserRoutes.UpdatePatch | src/routes/users.js:165-172 | the document an update leaves has, field by field, the trimmed username, hashed password and role sent, or the old ones, with the update time now |
| UserRoutes.UpdateStoresPlaintextPassword | src/routes/users.js:168-172 | the as-written and the corrected update succeed alike, and the first stores the plain password where the second stores its hash |
| UserRoutes.UpdateIgnoresServerManagedFields | src/routes/users.js:167 | adding `_id`, `createdAt` or `updatedAt` to the body changes neither answer nor store |
| UserRoutes.UpdateUser | src/routes/users.js:165-184 | strips `req.body` in place, and answers and leaves the store as `UpdateUserOutcome` says |
| UserRoutes.DeleteUserOutcomeAsWritten | src/routes/users.js:186-194 | the answered user is the complete stored document with that id, password included |
| UserRoutes.DeleteUserOutcome | src/routes/users.js:186-194 | when reachable, 200 with the removed user without a password, or null with the store unchanged; afterwards no user has the id; indexes preserved; same store as as written |
| UserRoutes.DeleteLeaksPasswordHash | src/routes/users.js:188-189 | deleting an existing user, as written, sends its stored password; corrected, it does not |
| UserRoutes.DeleteTwice | src/routes/users.js:186-194 | a second delete of the same id answers null and changes nothing |
| UserRoutes.DeleteUser | src/routes/users.js:186-194 | answers and leaves the store as `DeleteUserOutcome` says |
| Router.Step | src/routes/users.js:21-61 | guards never change the store; only authentication changes the request, and only by attaching a user; only authorization throws, and only without a user; rejections are 400, 401 or 403 according to the guard |
| Router.StepAuthenticate | src/routes/users.js:21-61 | the authentication guard does what `authenticate` does |
| Router.StepAuthorize | src/routes/users.js:21-61 | the authorization guard for an action does what `authorize` of that action does |
| Router.StepUserBody | src/routes/users.js:21-61 | the user-body guard does what `validatePostUser` or `validatePutUser` does |
| Router.StepIdParameter | src/routes/users.js:21-61 | the id guard does what `validateIdParameter` does |
| Router.RunSingleGuard | src/routes/users.js:21-61 | a chain of one guard does what that guard does |
| Router.RunTwoGuards | src/routes/users.js:21-61 | a chain of two guards runs the second on the request the first passes on, unless the first answers |
| Router.RunGuardsAppend | src/routes/users.js:21-61 | running two chains in sequence is running their concatenation |
| Router.StoppedChainIgnoresRest | src/routes/users.js:21-61 | once a guard answers, the later guards have no effect |
| Router.RunGuardsSnoc | src/routes/users.js:21-61 | extending a passing chain by one guard runs just that guard on the passed request |
| Router.NoThrowAfterAuthentication | src/routes/users.js:21-61 | a chain never throws when every authorization has a user or follows an authentication |
| Router.WellFormedNeverThrows | src/routes/users.js:21-61 | a chain where every authorization follows an authentication never throws |
| Router.ChainAdvance | src/routes/users.js:21-61 | in a well-formed chain, the next guard runs on the request passed so far, has a user when it authorizes, and if it answers the whole chain answers so |
| Router.ProtectedIsWellFormed | src/routes/users.js:21-61 | shape checks, then authentication, then authorization, is well formed |
| Router.RouteTable | src/routes/users.js:21-61 | every account route is shape checks, then `authenticate`, then `authorize` of its own action; all routes, sign-in included, are well formed |
| Router.RunGuard | src/routes/users.js:21-61 | each guard's middleware enacts that guard's `Step` |
| Router.Dispatch | src/routes/users.js:21-61 | each handler answers and leaves the store as its outcome function says |
| Router.Handle | src/routes/users.js:21-61 | running the guards in order until one answers, then the handler, produces the response and store that `Serve` describes |
| Router.AsWrittenServesAlike | src/routes/users.js:165-194 | the handlers as written and as corrected serve every route other than update and delete alike, escape alike, and a delete answers the same status and leaves the same store |
| Api.ProtectedSplits | src/routes/users.js:21-61 | every protected route runs its shape checks, all of them field validators, then `authenticate`, then `authorize` for its action |
| Api.ChecksKeepRequest | src/routes/users.js:21-61 | shape checks pass the request on unchanged or answer 400 |
| Api.ChecksIgnoreCredentials | src/routes/users.js:21-61 | shape checks give the same outcome whatever the token, user, store and oracles |
| Api.AuthenticateThenAuthorize | src/routes/users.js:21-61 | authentication followed by authorization runs the authorization on the authenticated request |
| Api.ProtectedRun | src/routes/users.js:21-61 | a protected chain runs its checks, then authentication, then authorization |
| Api.InputErrorsBeforeCredentials | src/routes/users.js:21-61 | on a protected route, bad input gives 400 with the store unchanged, whatever the token |
| Api.BadLimitWithoutToken | test/api.spec.js:308-331 | `GET /users?limit=abc` without a token answers 400 `QueryLimitInvalid` |
| Api.UnidentifiedRejected | src/auth.js:6-29 | on a protected route, well-shaped input whose token identifies no user gives 401 `Unauthorized` with the store unchanged |
| Api.NonAdminForbidden | src/permission.js:27-37 | on a protected route, an identified user who is not `Admin` gets 403 `NotAllowed` with the store unchanged |
| Api.AdminReachesHandler | src/routes/users.js:21-61 | on a protected route, an administrator's well-shaped request reaches the handler with the password-less administrator attached |
| Api.AdminCreatesUserOn | src/routes/users.js:21-27 | on a protected create route checking only the body, an administrator with a valid body, unused username and unused id gets 201 and one more user is stored |
| Api.AdminCreatesUser | src/routes/users.js:21-27 | `POST /users` by an administrator with a valid body, unused username and unused id answers 201 and stores one more user |
| Api.CreateUserRouteShape | src/routes/users.js:21-27 | `POST /users` validates only the body before `authenticate` and `authorize(CreateUser)` |
| Api.DeleteUserRouteShape | src/routes/users.js:55-61 | `DELETE /users/:id` validates only the id before `authenticate` and `authorize(DeleteUser)` |
| Api.AdminDeleteLeaksOn | src/routes/users.js:186-194 | on a protected delete route checking only the id, an administrator deleting an existing user gets 200 with a stored password as written, and without one as corrected |
| Api.AdminDeleteLeaks | src/routes/users.js:186-194 | `DELETE /users/<id>` by an administrator of an existing user answers 200 carrying the stored password hash as written, and no password as corrected |
| Api.SignInSucceeds | test/api.spec.js:173-182 | a valid sign-in body with matching credentials answers 200 with the token issued over the user's id |
| Api.SignInBodyPasses | src/routes/auth.js:23-41 | a sign-in body without errors passes the sign-in route's only guard unchanged |
| Api.HandlersHidePasswords | src/routes/users.js:95 | no handler's answer carries a user object with a `password` key |
| Api.ServeHidesPasswords | src/routes/users.js:21-61 | with the corrected update and delete handlers, no response on any route carries a password (as written, `Api.AdminDeleteLeaks` shows one that does) |
| Api.ServeKeepsStoreValid | src/routes/users.js:21-61 | serving any request keeps the store's usernames and ids unique |
| Api.RoutesNeverEscape | src/routes/users.js:21-61 | no request on the application's routes escapes as an exception |

## Left out

- Express wiring, helmet, compression, body parsing, the database connection and the listener (`src/server.js`, `src/index.js`) are not part of this model.
- `src/status-code.js`, `src/user-role.js` and `src/util.js` are not part of this model; they are replaced by stand-ins.
  - Roles other than `Admin` are represented by one `Member` role.
- Requests are served one at a time. Asynchronous suspension and concurrent requests are not modelled.
- Token signing and verification, bcrypt hashing and comparison, id generation and the clock are parameters (`Oracles.Env`).
  - Expiry, the signing key and the secret are not modelled.
  - A thrown comparison or signing failure is a `None` result.
- Mongo's `skip(NaN)` and `limit(NaN)` for absent query values are not modelled. An absent or empty skip or limit reads as 0, which is no skip and no limit.
- A repeated query key, which the framework parses into an array, is not modelled. Query values are single strings.
- Store.PageOutcome: the skip is an unbounded natural number. The database's refusal of a skip beyond the 64-bit integer range, and the rounding of a very large skip to a JavaScript double, are not modelled. A skip that large is applied as given, and so skips past every stored document.
- UserRoutes.ListUsersAnswer: for the same reason, a skip beyond the 64-bit range (say `?skip=99999999999999999999`) answers 200 with an empty page. The source's catch would answer 500 `Unexpected` once the database refuses it. The skip validator bounds the skip only from below, so such a request does reach the store.
- The `validator` library's internals are replaced by these readings:
  - `isInt` accepts an optionally signed string of decimal digits whose value is within the bounds.
  - `isMongoId` accepts 24 hexadecimal characters.
  - `isLength` counts sequence elements, not surrogate pairs or variation selectors.
- Mongoose casting of non-string values, the `__v` key and `ObjectId` case-insensitivity are not modelled.
- Timestamps are integers, not dates.
- The store's own schema validation is modelled on creation only. A body that passed the route validator always satisfies it (`UserRoutes.ValidatedBodyFitsSchema`). An update applies the present fields without validation, as `findByIdAndUpdate` does by default.
- Only string values of the three fields change a document on update.
- Store.UpdateOutcome: an invalid role string clears the role rather than storing the string. The route validator rejects such bodies before the store is reached.
- Values.IsWhitespace: the set is the WhiteSpace and LineTerminator characters of ECMAScript. Any other character class the engine's `trim` uses is not modelled.
- JavaScript prototype keys in the permission lookup are not modelled. The policy is a map over the closed `Role` enumeration.
- UserRoutes.UpdateUser: enacts the corrected `UpdateUserOutcome`, which stores the hash of a new password; the handler as written is `UserRoutes.UpdateUserOutcomeAsWritten` (see "## Findings").
- UserRoutes.DeleteUser: enacts the corrected `DeleteUserOutcome`, which answers without the password; the handler as written is `UserRoutes.DeleteUserOutcomeAsWritten` (see "## Findings").
- Router.RunHandler: dispatches to the corrected update and delete handlers, so `Router.Serve`, `Router.Dispatch`, `Router.Handle` and the lemmas about them describe the corrected program; `Router.RunHandlerAsWritten` and `Router.ServeAsWritten` describe the program as written.
- The framework's default handling of an exception that escapes a route is `Served.Escaped`. No route of the application reaches it (`Api.RoutesNeverEscape`).

## Findings

| source | as written | input that shows it | evidently intended | confidence | as-written member | corrected member |
|---|---|---|---|---|---|---|
| src/routes/users.js:188-189 | `deleteUser` answers with the removed document as the store returns it. That document includes the stored password hash, because the removal has no `{ password: 0 }` projection and the handler does not strip the field. | `DELETE /users/<id of an existing user>` by an administrator | like every other handler, return the user without `password` | high, not executed | UserRoutes.DeleteUserOutcomeAsWritten (shown by UserRoutes.DeleteLeaksPasswordHash) | UserRoutes.DeleteUserOutcome |
| src/routes/users.js:168-172 | `updateUser` passes the body to `findByIdAndUpdate`, which does not run the save hook that hashes passwords. A new password is therefore stored in plain text, and sign-in later compares against a value that is not a hash. | `PUT /users/<id>` with body `{ "password": "abcdef" }` | store the hash of the new password, as creation does | high, not executed | UserRoutes.UpdateUserOutcomeAsWritten (shown by UserRoutes.UpdateStoresPlaintextPassword) | UserRoutes.UpdateUserOutcome |

The methods `UserRoutes.DeleteUser` and `UserRoutes.UpdateUser`, the
router and the end-to-end lemmas use the corrected definitions.
`Router.ServeAsWritten` serves with the handlers as written, and
`Api.AdminDeleteLeaks` shows the password hash reaching the client through
the whole `DELETE /users/<id>` route.
