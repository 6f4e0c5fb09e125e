/**
 * The uniform result envelope returned by every controller operation
 * (src/airport/response/Response.java): a status, a message and an optional payload.
 * A datatype value never changes after construction, as the final fields of the source require.
 */
module Responses {
  import opened Optional
  import opened StatusCodes

  /** `getStatus`, `getMessage` and `getData` are the three destructors. */
  datatype Response<+T> = Response(status: StatusCode, message: string, data: Option<T>) {

    /** Success means a code in [200, 300). */
    predicate IsSuccess() {
      var code := status.Code();
      code >= 200 && code < 300
    }
  }

  /** The factory with a payload: `Response.of(status, message, data)`. */
  function Of<T>(status: StatusCode, message: string, data: T): Response<T> {
    Response(status, message, Some(data))
  }

  /** The factory without a payload: `Response.of(status, message)`; the data is absent (null). */
  function OfNoData<T>(status: StatusCode, message: string): Response<T> {
    Response(status, message, None)
  }

  /** Both factories keep the status and the message they are given; only the first carries data. */
  lemma FactoriesPreserveFields<T>(status: StatusCode, message: string, data: T)
    ensures Of(status, message, data).status == status && Of(status, message, data).message == message
    ensures Of(status, message, data).data == Some(data)
    ensures OfNoData<T>(status, message).status == status && OfNoData<T>(status, message).message == message
    ensures OfNoData<T>(status, message).data == None
  {
  }

  /** Over the fixed code table, exactly OK and CREATED are success statuses. */
  lemma SuccessIsOkOrCreated<T>(r: Response<T>)
    ensures r.IsSuccess() <==> r.status == Ok || r.status == Created
  {
  }
}
