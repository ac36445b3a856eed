/** The query and route-parameter guards (src/common.js). Each guard runs
    one validator; on an error it answers 400 with that error's envelope and
    stops the chain, otherwise it calls `next`. */
module Common {
  import opened Values
  import opened StatusCodes
  import opened Errors
  import opened Http

  /** What `validateQueryLimit` does with a request. */
  function QueryLimitVerdict(r: RequestState): (g: GuardResult)
    ensures g.Continue? <==> GetQueryLimitError(r.limit) == None
    ensures g.Continue? ==> g.req == r
    ensures g.Reject? ==> g.status == StatusCode.BadRequest && g.error == Envelope(QueryLimitInvalid, None)
    ensures !g.Throw?
  {
    RejectOn(GetQueryLimitError(r.limit), StatusCode.BadRequest, r)
  }

  /** What `validateQuerySkip` does with a request. */
  function QuerySkipVerdict(r: RequestState): (g: GuardResult)
    ensures g.Continue? <==> GetQuerySkipError(r.skip) == None
    ensures g.Continue? ==> g.req == r
    ensures g.Reject? ==> g.status == StatusCode.BadRequest && g.error == Envelope(QuerySkipInvalid, None)
    ensures !g.Throw?
  {
    RejectOn(GetQuerySkipError(r.skip), StatusCode.BadRequest, r)
  }

  /** What `validateIdParameter` does with a request. */
  function IdParameterVerdict(r: RequestState): (g: GuardResult)
    ensures g.Continue? <==> IsMongoId(r.id)
    ensures g.Continue? ==> g.req == r
    ensures g.Reject? ==> g.status == StatusCode.BadRequest && g.error == Envelope(IdParameterInvalid, None)
    ensures !g.Throw?
  {
    RejectOn(GetIdParameterError(r.id), StatusCode.BadRequest, r)
  }

  method ValidateQueryLimit(req: Request, res: Response) returns (next: bool)
    requires res.sent.None?
    modifies res
    ensures Enacted(QueryLimitVerdict(req.State()), next, req.State(), res.status, res.sent, old(res.status))
  {
    var limitError := GetQueryLimitError(req.limit);
    if limitError.Some? {
      res.Status(StatusCode.BadRequest);
      res.Json(ErrorBody(Error(limitError.value, None)));
      return false;
    }
    next := true;
  }

  method ValidateQuerySkip(req: Request, res: Response) returns (next: bool)
    requires res.sent.None?
    modifies res
    ensures Enacted(QuerySkipVerdict(req.State()), next, req.State(), res.status, res.sent, old(res.status))
  {
    var skipError := GetQuerySkipError(req.skip);
    if skipError.Some? {
      res.Status(StatusCode.BadRequest);
      res.Json(ErrorBody(Error(skipError.value, None)));
      return false;
    }
    next := true;
  }

  method ValidateIdParameter(req: Request, res: Response) returns (next: bool)
    requires res.sent.None?
    modifies res
    ensures Enacted(IdParameterVerdict(req.State()), next, req.State(), res.status, res.sent, old(res.status))
  {
    var idParamError := GetIdParameterError(req.id);
    if idParamError.Some? {
      res.Status(StatusCode.BadRequest);
      res.Json(ErrorBody(Error(idParamError.value, None)));
      return false;
    }
    next := true;
  }
}
