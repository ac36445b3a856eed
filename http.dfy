/** Requests, responses and the results of guards. The web framework itself
    is not part of this model: a request is the handful of fields the core
    reads and writes, a response is a status and at most one JSON body. */
module Http {
  import opened Values
  import opened StatusCodes
  import opened Errors
  import opened Store

  /** The JSON bodies the core sends. */
  datatype Payload =
    | ErrorBody(error: Envelope)                         // { error: { code, message? } }
    | TokenBody(token: string)                           // { data: { token } }
    | UserBody(user: Option<JsObject>)                   // { data: { user } }, user may be null
    | UsersBody(users: seq<JsObject>, totalCount: nat)   // { data: { users, totalCount } }

  /** A finished response. */
  datatype Answer = Answer(status: StatusCode, payload: Payload)

  /** The response every guard and handler writes on failure:
      `res.status(status).json(error(code))`, no message. */
  function Failed(status: StatusCode, code: ErrorCode): (a: Answer)
    ensures a.status == status
    ensures a.payload.ErrorBody? && a.payload.error.code == code && a.payload.error.message == None
  {
    Answer(status, ErrorBody(Error(code, None)))
  }

  /** What serving a request produced: a response and the store after it,
      or an exception that escaped to the framework's default handler. */
  datatype Served = Served(answer: Answer, db: Db) | Escaped

  /** The parts of a request the core reads and writes: the `Authorization`
      header, the `limit` and `skip` query strings, the `:id` route
      parameter, the parsed body and the user attached by authentication. */
  datatype RequestState = RequestState(
    authorization: Option<string>,
    limit: Option<string>,
    skip: Option<string>,
    id: string,
    body: JsObject,
    user: Option<JsObject>)

  /** What a guard does: call `next` with the (possibly updated) request,
      answer with a status and an error envelope, or throw. */
  datatype GuardResult =
    | Continue(req: RequestState)
    | Reject(status: StatusCode, error: Envelope)
    | Throw

  /** A guard that rejects with `status` exactly when a validator reported
      an error code, and otherwise passes the request on unchanged. */
  function RejectOn(err: Option<ErrorCode>, status: StatusCode, r: RequestState): (g: GuardResult)
    ensures g.Continue? <==> err.None?
    ensures g.Continue? ==> g.req == r
    ensures g.Reject? ==> g.status == status && g.error == Envelope(err.value, None)
  {
    if err.Some? then Reject(status, Error(err.value, None)) else Continue(r)
  }

  /** A guard method did what its verdict `g` says: it called `next`
      (returned true) with request `req` and wrote nothing, or it answered
      with the verdict's status and envelope and did not call `next`; it
      never did both and never neither. */
  predicate Enacted(g: GuardResult, next: bool, req: RequestState,
                    status: StatusCode, sent: Option<Payload>, statusBefore: StatusCode)
  {
    && !g.Throw?
    && (next <==> g.Continue?)
    && (next ==> req == g.req && sent.None? && status == statusBefore)
    && (!next ==> sent == Some(ErrorBody(g.error)) && status == g.status)
  }

  /** The request object, which guards and handlers update in place. */
  class Request {
    var authorization: Option<string>
    var limit: Option<string>
    var skip: Option<string>
    var id: string
    var body: JsObject
    var user: Option<JsObject>

    function State(): RequestState
      reads this
    {
      RequestState(authorization, limit, skip, id, body, user)
    }

    constructor (s: RequestState)
      ensures State() == s
    {
      authorization, limit, skip, id, body, user := s.authorization, s.limit, s.skip, s.id, s.body, s.user;
    }
  }

  /** The response object: a status (200 until set) and the JSON body, once sent. */
  class Response {
    var status: StatusCode
    var sent: Option<Payload>

    /** What the client receives, once a body has been sent. */
    function Answered(): Answer
      reads this
      requires sent.Some?
    {
      Answer(status, sent.value)
    }

    constructor ()
      ensures status == StatusCode.Ok && sent == None
    {
      status, sent := StatusCode.Ok, None;
    }

    /** `res.status(code)`. */
    method Status(code: StatusCode)
      modifies this
      ensures status == code && sent == old(sent)
    {
      status := code;
    }

    /** `res.json(payload)`: sends the body; a response is sent at most once. */
    method Json(payload: Payload)
      requires sent.None?
      modifies this
      ensures sent == Some(payload) && status == old(status)
    {
      sent := Some(payload);
    }
  }
}
