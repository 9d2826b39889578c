/** `ApiResponse<T>`, the envelope every endpoint returns, and the HTTP result
    an action produces around it. */
module Responses {
  import opened DotNet

  /** `Success`, `Message` and `Result`. A `result` of `None` stands for
      `default(T)`: null for the reference types, false for `bool`. */
  datatype ApiResponse<T> = ApiResponse(success: bool, message: Option<string>, result: Option<T>)

  /** `new ApiResponse<T>()`: every member at its default. */
  function Empty<T>(): (r: ApiResponse<T>)
    ensures !r.success && r.message.None? && r.result.None?
  {
    ApiResponse(false, None, None)
  }

  /** `new ApiResponse<T>(data, message)`. */
  function WithData<T>(data: T, message: Option<string>): ApiResponse<T> {
    ApiResponse(true, message, Some(data))
  }

  /** `new ApiResponse<T>(message)`. */
  function WithError<T>(message: string): ApiResponse<T> {
    Empty().(message := Some(message))
  }

  /** `ApiResponse<T>.Ok`: success, carrying the data and the optional message. */
  function Ok<T>(data: T, message: Option<string>): (r: ApiResponse<T>)
    ensures r.success && r.result == Some(data) && r.message == message
    ensures Consistent(r)
  {
    WithData(data, message)
  }

  /** `ApiResponse<T>.Fail`: failure, carrying the message and no data. */
  function Fail<T>(message: string): (r: ApiResponse<T>)
    ensures !r.success && r.message == Some(message) && r.result.None?
    ensures Consistent(r)
  {
    WithError(message)
  }

  /** The envelopes the factories build carry data exactly when they report success. */
  predicate Consistent<T>(r: ApiResponse<T>) {
    r.success <==> r.result.Some?
  }

  // ---------------------------------------------------------------------
  // Action results
  // ---------------------------------------------------------------------

  const Status200OK: int := 200
  const Status400BadRequest: int := 400
  const Status404NotFound: int := 404
  const Status500InternalServerError: int := 500

  /** The object an action result carries: an envelope, or a bare string
      (`BadRequest("...")`). */
  datatype Body<T> = Envelope(response: ApiResponse<T>) | Text(text: string)

  /** An action result: status code and body. */
  datatype Reply<T> = Reply(status: int, body: Body<T>)

  /** The invariant of every endpoint's reply: the status is one the endpoint
      documents, and an envelope reports success exactly on 200. */
  predicate WellFormedReply<T>(r: Reply<T>) {
    && r.status in {Status200OK, Status400BadRequest, Status404NotFound, Status500InternalServerError}
    && (r.body.Envelope? ==> Consistent(r.body.response) && (r.body.response.success <==> r.status == Status200OK))
    && (r.body.Text? ==> r.status == Status400BadRequest)
  }

  /** `StatusCode(500, ApiResponse<T>.Fail(ex.Message))`, the catch-all of every endpoint. */
  function ServerError<T>(e: Exception): (r: Reply<T>)
    ensures r.status == Status500InternalServerError && r.body == Envelope(Fail(Message(e)))
    ensures WellFormedReply(r)
  {
    Reply(Status500InternalServerError, Envelope(Fail(Message(e))))
  }
}
