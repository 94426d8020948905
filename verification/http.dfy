/** The error vocabulary of the handlers: the `http-errors` objects they throw,
    the arbitrary errors their collaborators may throw, the `catch` rule that
    turns the latter into the former, and the final error middleware of the
    application that shapes the failure envelope. */
module Http {
  import opened Outcomes
  import opened JsText

  /** An error built by `createError(status, message)`. */
  datatype HttpError = HttpError(status: nat, message: JsString)

  /** Anything a handler's `try` block can catch. `status` is 0 when the error
      carries no status (or a falsy one); `code` is the driver's error code,
      such as 11000 for a duplicate key. */
  datatype Thrown = Thrown(status: nat, code: Option<int>, message: JsString)

  /** An `http-errors` object seen from a `catch` block. */
  function Raise(e: HttpError): Thrown {
    Thrown(e.status, None, e.message)
  }

  /** `next(error.status ? error : createError(fallback, error.message))`:
      an error with a status goes on unchanged, any other one gets the
      handler's fallback status and keeps its message. */
  function ForwardOr(t: Thrown, fallback: nat): (e: HttpError)
    ensures e.message == t.message
    ensures e.status == (if t.status != 0 then t.status else fallback)
  {
    if t.status != 0 then HttpError(t.status, t.message) else HttpError(fallback, t.message)
  }

  /** Every error a handler throws itself reaches the error middleware
      exactly as it was created. */
  lemma ForwardOrKeepsRaised(e: HttpError, fallback: nat)
    requires e.status != 0
    ensures ForwardOr(Raise(e), fallback) == e
  {
  }

  /** The failure envelope `{ success: false, message }` with its status. */
  datatype Envelope = Envelope(status: nat, success: bool, message: JsString)

  /** The application's last middleware: status `err.status || 500` and
      message `err.message || 'Internal Server Error'`. The envelope always
      reports failure, keeps a status and a message that are present, and
      falls back to 500 and "Internal Server Error" for ones that are not. */
  function ErrorResponse(e: HttpError): (r: Envelope)
    ensures !r.success
    ensures r.status != 0 && (e.status != 0 ==> r.status == e.status)
    ensures |r.message| > 0 && (|e.message| > 0 ==> r.message == e.message)
    ensures e.status == 0 ==> r.status == 500
    ensures |e.message| == 0 ==> r.message == Lit("Internal Server Error")
  {
    Envelope(if e.status != 0 then e.status else 500,
             false,
             if |e.message| > 0 then e.message else Lit("Internal Server Error"))
  }
}
