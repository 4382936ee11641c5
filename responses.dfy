/** What a Lambda handler returns, and the `except` ladder that turns an
    exception into an error response. The three handlers build their
    responses the same way: 200 with the payload, or an error status with a
    body `{"success": false, "message": ..., "error": ...}` where `error` is
    present only when a detail is given. */
module Responses {
  import opened Common
  import opened Failures
  import opened PyJson

  /** A handler's response; `P` is the handler's success payload. The
      headers are the same constant pair on every response and are left out. */
  datatype Reply<P> =
    | Ok(payload: P)
    | Error(status: int, message: string, detail: Option<string>)
  {
    function Status(): int {
      if Ok? then 200 else status
    }
  }

  /** The JSON body an error reply is sent with: `success` false and the
      message, and `error` only when there is a detail. */
  function ErrorBody<P>(r: Reply<P>): (body: map<string, Json>)
    requires r.Error?
    ensures body.Keys <= {"success", "message", "error"}
    ensures "success" in body && body["success"] == JBool(false)
    ensures "message" in body && body["message"] == JStr(r.message)
    ensures "error" in body <==> r.detail.Some?
    ensures r.detail.Some? ==> body["error"] == JStr(r.detail.value)
  {
    var body := map["success" := JBool(false), "message" := JStr(r.message)];
    match r.detail
    case None => body
    case Some(text) => body["error" := JStr(text)]
  }

  /** `_error_response(status_code, message, error_detail=None)`: the status
      given, and a body saying `success` is false, carrying the message,
      and carrying `error` exactly when a detail is given. */
  function ErrorResponse<P>(status: int, message: string, detail: Option<string> := None): (r: Reply<P>)
    ensures r.Error? && r.Status() == status
    ensures ErrorBody(r)["success"] == JBool(false) && ErrorBody(r)["message"] == JStr(message)
    ensures "error" in ErrorBody(r) <==> detail.Some?
    ensures detail.Some? ==> ErrorBody(r)["error"] == JStr(detail.value)
  {
    Error(status, message, detail)
  }

  /** The body of one `except` clause. */
  datatype Action =
    | WithText(status: int)                 // `_error_response(status, str(exc))`
    | Fixed(status: int, message: string)   // `_error_response(status, message)`
    | Upstream(message: string)             // `_error_response(exc.response.status_code, message, str(exc))`
    | Detailed(status: int, message: string) // `_error_response(status, message, str(exc))`

  /** `except <catches> as exc: <action>`. */
  datatype Clause = Clause(catches: ExcClass, action: Action)

  function Perform<P>(a: Action, e: Exc): Reply<P> {
    match a
    case WithText(status) => ErrorResponse(status, e.Text())
    case Fixed(status, message) => ErrorResponse(status, message)
    case Upstream(message) =>
      ErrorResponse(if e.HttpFailure? then e.status else 500, message, Some(e.Text()))
    case Detailed(status, message) => ErrorResponse(status, message, Some(e.Text()))
  }

  /** Python tries the clauses top to bottom and runs the first whose class
      `e` is an instance of; `None` when no clause matches and `e`
      propagates. */
  function Dispatch<P>(clauses: seq<Clause>, e: Exc): (r: Option<Reply<P>>)
    ensures r.Some? <==> exists k :: 0 <= k < |clauses| && IsInstance(e, clauses[k].catches)
  {
    if clauses == [] then None
    else if IsInstance(e, clauses[0].catches) then Some(Perform(clauses[0].action, e))
    else
      var rest := Dispatch(clauses[1..], e);
      assert forall k :: 1 <= k < |clauses| ==> clauses[k] == clauses[1..][k - 1];
      rest
  }

  /** The ladder of the convert and exchange-rate handlers. */
  const RatesLadder: seq<Clause> := [
    Clause(ValueError, WithText(400)),
    Clause(Timeout, Fixed(504, "Exchange rate service timed out")),
    Clause(HTTPError, Upstream("Exchange rate service returned an error")),
    Clause(RequestException, Fixed(502, "Unable to contact exchange rate service")),
    Clause(ExchangeRateProviderError, WithText(502)),
    Clause(Exception, Detailed(500, "Internal server error"))
  ]

  /** The history handler's single catch-all clause. */
  const HistoryLadder: seq<Clause> := [Clause(Exception, Detailed(500, "Internal server error"))]

  /** What the rates ladder answers, decided class by class in this order:
      `ValueError` first, then `Timeout` (before the `RequestException` it
      derives from), then `HTTPError`, any other `RequestException`,
      `ExchangeRateProviderError`, and everything else. */
  function RatesFailure<P>(e: Exc): (r: Reply<P>)
    ensures r.Error?
  {
    if IsInstance(e, ValueError) then Error(400, e.Text(), None)
    else if IsInstance(e, Timeout) then Error(504, "Exchange rate service timed out", None)
    else if e.HttpFailure? then Error(e.status, "Exchange rate service returned an error", Some(e.Text()))
    else if IsInstance(e, RequestException) then Error(502, "Unable to contact exchange rate service", None)
    else if IsInstance(e, ExchangeRateProviderError) then Error(502, e.Text(), None)
    else Error(500, "Internal server error", Some(e.Text()))
  }

  /** The ladder handles every exception, as `RatesFailure` says. */
  lemma RatesLadderOutcome<P>(e: Exc)
    ensures Dispatch<P>(RatesLadder, e) == Some(RatesFailure<P>(e))
  {
    var L := RatesLadder;
    assert IsInstance(e, HTTPError) <==> e.HttpFailure?;
    if !IsInstance(e, ValueError) {
      var L1 := L[1..];
      assert Dispatch<P>(L, e) == Dispatch<P>(L1, e);
      if !IsInstance(e, Timeout) {
        var L2 := L1[1..];
        assert Dispatch<P>(L1, e) == Dispatch<P>(L2, e);
        if !e.HttpFailure? {
          var L3 := L2[1..];
          assert Dispatch<P>(L2, e) == Dispatch<P>(L3, e);
          if !IsInstance(e, RequestException) {
            var L4 := L3[1..];
            assert Dispatch<P>(L3, e) == Dispatch<P>(L4, e);
            if !IsInstance(e, ExchangeRateProviderError) {
              assert Dispatch<P>(L4, e) == Dispatch<P>(L4[1..], e);
              assert IsInstance(e, Exception);
            }
          }
        }
      }
    }
  }

  /** A `Timeout` is a `RequestException`, so the `Timeout` clause must come
      first: with the two swapped a timeout would be answered with 502. */
  lemma TimeoutClauseMustPrecedeRequestException<P>(detail: string)
    ensures var e := Raised(ReadTimeout, detail);
      var swapped := [RatesLadder[0], RatesLadder[3], RatesLadder[1], RatesLadder[2]] + RatesLadder[4..];
      && Dispatch<P>(RatesLadder, e) == Some(Error(504, "Exchange rate service timed out", None))
      && Dispatch<P>(swapped, e) == Some(Error(502, "Unable to contact exchange rate service", None))
  {
  }

  /** A body that is not JSON raises `requests.JSONDecodeError`, which is
      both a `ValueError` and a `RequestException`; the `ValueError` clause
      comes first, so the client sees 400 with the decoder's message. */
  lemma UpstreamJsonErrorIsBadRequest<P>(detail: string)
    ensures Dispatch<P>(RatesLadder, Raised(RequestsJSONDecodeError, detail)) == Some(Error(400, detail, None))
  {
  }

  /** A `ValueError` is a 400 and a provider error a 502, each with its text. */
  lemma RejectionsKeepTheirText<P>(message: string)
    ensures RatesFailure<P>(Raised(ValueError, message)) == Error(400, message, None)
    ensures RatesFailure<P>(Raised(ExchangeRateProviderError, message)) == Error(502, message, None)
  {
  }

  /** A decimal failure (a text that is not a number, an operation the
      default context traps) falls through to the catch-all: 500. */
  lemma DecimalFailuresAreServerErrors<P>()
    ensures RatesFailure<P>(DecimalSyntaxError) == Error(500, "Internal server error", Some(DecimalSyntaxError.message))
    ensures RatesFailure<P>(DecimalInvalidOperation)
      == Error(500, "Internal server error", Some(DecimalInvalidOperation.message))
  {
  }

  /** A timeout is a 504, an unreachable provider a 502, and an HTTP error
      status is answered with that status. */
  lemma TransportFailuresAnswered<P>(detail: string, status: int, text: string)
    ensures RatesFailure<P>(Raised(ConnectTimeout, detail)) == Error(504, "Exchange rate service timed out", None)
    ensures RatesFailure<P>(Raised(ReadTimeout, detail)) == Error(504, "Exchange rate service timed out", None)
    ensures RatesFailure<P>(Raised(RequestsConnectionError, detail))
      == Error(502, "Unable to contact exchange rate service", None)
    ensures RatesFailure<P>(HttpFailure(status, text)).Status() == status
  {
    assert Ancestors(ConnectTimeout) == {ConnectTimeout, RequestsConnectionError, Timeout, RequestException, OSError, Exception};
    assert Ancestors(ReadTimeout) == {ReadTimeout, Timeout, RequestException, OSError, Exception};
    assert Ancestors(RequestsConnectionError) == {RequestsConnectionError, RequestException, OSError, Exception};
    assert Ancestors(HTTPError) == {HTTPError, RequestException, OSError, Exception};
  }

  /** An `AttributeError` (a method called on a value of the wrong type)
      falls through to the catch-all: 500 with its text. */
  lemma AttributeErrorIsServerError<P>(message: string)
    ensures RatesFailure<P>(Raised(AttributeError, message)) == Error(500, "Internal server error", Some(message))
  {
  }

  /** The history ladder answers every exception with 500 and its text. */
  lemma HistoryLadderOutcome<P>(e: Exc)
    ensures Dispatch<P>(HistoryLadder, e) == Some(Error(500, "Internal server error", Some(e.Text())))
  {
  }
}
