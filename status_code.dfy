/** The HTTP status codes the pipeline answers with. The module that defines
    them in the application is not part of this model; this enumeration
    stands in for the six values the core uses. */
module StatusCodes {

  /** 200, 201, 400, 401, 403 and 500. */
  datatype StatusCode = Ok | Created | BadRequest | Unauthorized | Forbidden | InternalServerError
}
