/**
 * The HTTP-inspired status classification every controller answers with
 * (src/airport/response/StatusCode.java).
 */
module StatusCodes {

  /** The six enum constants, in declaration order. */
  datatype StatusCode = Ok | Created | BadRequest | NotFound | Conflict | InternalError {

    /** The numeric code each constant is built with; never changes afterwards. */
    function Code(): int {
      match this
      case Ok => 200
      case Created => 201
      case BadRequest => 400
      case NotFound => 404
      case Conflict => 409
      case InternalError => 500
    }
  }

  /** The code table: OK=200, CREATED=201, BAD_REQUEST=400, NOT_FOUND=404, CONFLICT=409, INTERNAL_ERROR=500. */
  lemma CodeTable()
    ensures Ok.Code() == 200 && Created.Code() == 201 && BadRequest.Code() == 400
    ensures NotFound.Code() == 404 && Conflict.Code() == 409 && InternalError.Code() == 500
  {
  }

  /** No two constants share a code, so the code identifies the constant. */
  lemma CodeInjective(a: StatusCode, b: StatusCode)
    ensures a.Code() == b.Code() <==> a == b
  {
  }
}
