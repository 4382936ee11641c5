/** The `POST /convert` handler (`convert_currency/handler.py`): validate
    the request, fetch the rates for the source currency, convert and round
    to cents, store the conversion when history is available, and answer.
    The provider's answer and the current time are parameters. */
module ConvertHandler {
  import opened Common
  import opened PyJson
  import opened Decimals
  import opened Failures
  import opened Responses
  import opened Exchange
  import opened Storage

  /** The request body after base64 and JSON decoding. `Undecodable` is a
      base64 body that `b64decode` or the UTF-8 decoding refused, with the
      text of the `binascii.Error` or `UnicodeDecodeError` raised; both are
      `ValueError`s, and they escape the decoding outside the `try` that
      turns JSON errors into "Request body must be valid JSON". */
  datatype RequestBody = NoBody | Undecodable(detail: string) | NotJsonBody | JsonBody(json: Json)

  /** The success payload. The numbers are the `Decimal`s that `float()`
      is applied to. */
  datatype Conversion = Conversion(
    from: string,
    to: string,
    amount: Decimal,
    result: Decimal,
    rate: Decimal,
    lastUpdated: Json,
    timestamp: string)

  const BodyRequired := Raised(ValueError, "Request body is required")
  const BodyNotJson := Raised(ValueError, "Request body must be valid JSON")
  const AmountInvalid := "'amount' must be a valid number"

  /** `_parse_json_body(event)`: the decoded body, or the `ValueError`
      raised for a missing or undecodable one. */
  function ParseBody(body: RequestBody): (r: Result<Json, Exc>)
    ensures r.Success? <==> body.JsonBody?
    ensures r.Failure? ==> IsInstance(r.error, ValueError)
  {
    match body
    case NoBody => Failure(BodyRequired)
    case Undecodable(detail) => Failure(Raised(ValueError, detail))
    case NotJsonBody => Failure(BodyNotJson)
    case JsonBody(j) => Success(j)
  }

  /** The body of the handler's `try`: the response it returns, or the
      exception that escapes to the `except` ladder. */
  function Convert(body: RequestBody, upstream: string -> FetchOutcome, now: string)
    : (r: Result<Reply<Conversion>, Exc>)
    ensures r.Success? && r.value.Ok? ==> IsCode(r.value.payload.from) && IsCode(r.value.payload.to)
  {
    var j :- ParseBody(body);
    if !j.JObj? then Failure(Raised(AttributeError, NoGetMessage(j)))
    else ConvertFields(j.fields, upstream, now)
  }

  /** The request's fields read in order: `from`, `to`, then `amount`,
      whose failure is answered with 400 on the spot. */
  function ConvertFields(d: map<string, Json>, upstream: string -> FetchOutcome, now: string)
    : (r: Result<Reply<Conversion>, Exc>)
    ensures r.Success? && r.value.Ok? ==> IsCode(r.value.payload.from) && IsCode(r.value.payload.to)
  {
    var from :- NormalizeCurrency(Get(d, "from"));
    var to :- NormalizeCurrency(Get(d, "to"));
    match FromJson(Get(d, "amount"))
    case None => Success(ErrorResponse(400, AmountInvalid))
    case Some(amount) => ConvertAmount(from, to, amount, upstream, now)
  }

  /** From the fetch on, once the request is valid. */
  function ConvertAmount(from: string, to: string, amount: Decimal, upstream: string -> FetchOutcome, now: string)
    : (r: Result<Reply<Conversion>, Exc>)
    ensures r.Success? && r.value.Ok? ==> r.value.payload.from == from && r.value.payload.to == to
  {
    var snapshot :- FetchRates(from, upstream);
    Priced(from, to, amount, snapshot, now)
  }

  /** The rate lookup, the product and the rounding. */
  function Priced(from: string, to: string, amount: Decimal, snapshot: Snapshot, now: string)
    : (r: Result<Reply<Conversion>, Exc>)
    ensures r.Success? && r.value.Ok? ==> r.value.payload.from == from && r.value.payload.to == to
  {
    if to !in snapshot.rates then Success(ErrorResponse(400, "Currency '" + to + "' is not supported"))
    else
      match FromJson(snapshot.rates[to])
      case None => Failure(DecimalSyntaxError)
      case Some(rate) =>
        match Multiply(amount, rate)
        case None => Failure(DecimalInvalidOperation)
        case Some(product) =>
          match QuantizeCents(product)
          case None => Failure(DecimalInvalidOperation)
          case Some(result) => Success(Ok(Conversion(from, to, amount, result, rate, snapshot.lastUpdated, now)))
  }

  /** `convert_currency(event, context)`: the response, with an escaped
      exception answered by the rates ladder (see `RatesLadderOutcome`). */
  function ConvertResponse(body: RequestBody, upstream: string -> FetchOutcome, now: string): (r: Reply<Conversion>)
    ensures r.Ok? ==> IsCode(r.payload.from) && IsCode(r.payload.to)
  {
    match Convert(body, upstream, now)
    case Success(reply) => reply
    case Failure(e) => RatesFailure(e)
  }

  /** The record handed to `store_conversion_record`. */
  function RecordOf(c: Conversion): (record: map<string, Value>)
    ensures Field(record, "timestamp") == Plain(JStr(c.timestamp))
    ensures Field(record, "amount") == Dec(c.amount) && Field(record, "result") == Dec(c.result)
    ensures Field(record, "rate") == Dec(c.rate)
    ensures Field(record, "from") == Plain(JStr(c.from)) && Field(record, "to") == Plain(JStr(c.to))
    ensures Field(record, "last_updated") == Plain(c.lastUpdated)
  {
    map[
      "from" := Plain(JStr(c.from)),
      "to" := Plain(JStr(c.to)),
      "amount" := Dec(c.amount),
      "result" := Dec(c.result),
      "rate" := Dec(c.rate),
      "last_updated" := Plain(c.lastUpdated),
      "timestamp" := Plain(JStr(c.timestamp))]
  }

  /** The handler, storing the conversion on success. Whatever the store
      does, including raising, does not change the response. */
  method ConvertCurrency(store: HistoryStore, body: RequestBody, upstream: string -> FetchOutcome, now: string,
                         probeOk: bool, callOk: bool)
    returns (response: Reply<Conversion>)
    requires store.Valid()
    modifies store
    ensures store.Valid()
    ensures response == ConvertResponse(body, upstream, now)
    ensures !response.Ok? ==>
      store.checked == old(store.checked) && store.available == old(store.available) && store.table == old(store.table)
    ensures response.Ok? ==>
      && (store.checked, store.available) == Probe(old(store.checked), old(store.available), store.supported, probeOk)
      && (store.available ==> store.table == PutSpec(old(store.table), RecordOf(response.payload), now, callOk).1)
      && (!store.available ==> store.table == old(store.table))
  {
    response := ConvertResponse(body, upstream, now);
    if response.Ok? {
      var stored := store.Put(RecordOf(response.payload), now, probeOk, callOk);
    }
  }

  /** A priced conversion: the rate is the table's entry for the target,
      read exactly, and the result is the product quantized half up to
      cents; for finite operands that is the multiple of 0.01 nearest the
      product, a tie going away from zero. */
  lemma PricedResult(from: string, to: string, amount: Decimal, snapshot: Snapshot, now: string, c: Conversion)
    requires Priced(from, to, amount, snapshot, now) == Success(Ok(c))
    ensures to in snapshot.rates
    ensures FromJson(snapshot.rates[to]) == Some(c.rate)
    ensures c.from == from && c.to == to && c.amount == amount
    ensures c.lastUpdated == snapshot.lastUpdated && c.timestamp == now
    ensures Multiply(c.amount, c.rate).Some? && QuantizeCents(Multiply(c.amount, c.rate).value) == Some(c.result)
    ensures HalfUpProduct(c.amount, c.rate, c.result)
  {
    var rate := FromJson(snapshot.rates[to]).value;
    var product := Multiply(amount, rate).value;
    var result := QuantizeCents(product).value;
    assert c == Conversion(from, to, amount, result, rate, snapshot.lastUpdated, now);
    QuantizedProduct(amount, rate, product, result);
  }

  /** A 200 response comes from a valid request whose fields, read in
      order, priced with the provider's answer give it. */
  lemma ConvertOk(body: RequestBody, upstream: string -> FetchOutcome, now: string)
    returns (from: string, to: string, amount: Decimal)
    requires ConvertResponse(body, upstream, now).Ok?
    ensures body.JsonBody? && body.json.JObj?
    ensures NormalizeCurrency(Get(body.json.fields, "from")) == Success(from)
    ensures NormalizeCurrency(Get(body.json.fields, "to")) == Success(to)
    ensures FromJson(Get(body.json.fields, "amount")) == Some(amount)
    ensures FetchRates(from, upstream).Success?
    ensures Priced(from, to, amount, FetchRates(from, upstream).value, now)
      == Success(ConvertResponse(body, upstream, now))
  {
    var r := Convert(body, upstream, now);
    assert r.Success?;
    var d := body.json.fields;
    assert r == ConvertFields(d, upstream, now);
    from := NormalizeCurrency(Get(d, "from")).value;
    to := NormalizeCurrency(Get(d, "to")).value;
    amount := FromJson(Get(d, "amount")).value;
    assert r == ConvertAmount(from, to, amount, upstream, now);
  }

  /** A successful conversion echoes the request: its codes, normalized,
      and its amount read as a `Decimal`. */
  lemma ConvertedEchoesRequest(body: RequestBody, upstream: string -> FetchOutcome, now: string)
    requires ConvertResponse(body, upstream, now).Ok?
    ensures body.JsonBody? && body.json.JObj?
    ensures var c := ConvertResponse(body, upstream, now).payload;
      var d := body.json.fields;
      && NormalizeCurrency(Get(d, "from")) == Success(c.from)
      && NormalizeCurrency(Get(d, "to")) == Success(c.to)
      && FromJson(Get(d, "amount")) == Some(c.amount)
      && c.timestamp == now
  {
    var from, to, amount := ConvertOk(body, upstream, now);
    var snapshot := FetchRates(from, upstream).value;
    PricedResult(from, to, amount, snapshot, now, ConvertResponse(body, upstream, now).payload);
  }

  /** A successful conversion uses the rate the provider gives for the
      target, read exactly, and its result is the product rounded half up
      to cents: for finite operands the multiple of 0.01 nearest it. */
  lemma ConvertedResult(body: RequestBody, upstream: string -> FetchOutcome, now: string) returns (snapshot: Snapshot)
    requires ConvertResponse(body, upstream, now).Ok?
    ensures var c := ConvertResponse(body, upstream, now).payload;
      && FetchRates(c.from, upstream) == Success(snapshot)
      && c.to in snapshot.rates
      && FromJson(snapshot.rates[c.to]) == Some(c.rate)
      && c.lastUpdated == snapshot.lastUpdated
      && HalfUpProduct(c.amount, c.rate, c.result)
  {
    var from, to, amount := ConvertOk(body, upstream, now);
    snapshot := FetchRates(from, upstream).value;
    PricedResult(from, to, amount, snapshot, now, ConvertResponse(body, upstream, now).payload);
  }

  /** The request is checked before anything is fetched, in this order:
      a body, its base64 encoding, JSON, a dict, `from`, `to`, then
      `amount`; each failure is answered the same whatever the provider
      would say. */
  lemma ValidationPrecedesFetch(body: RequestBody, u1: string -> FetchOutcome, u2: string -> FetchOutcome, now: string)
    ensures body == NoBody ==> ConvertResponse(body, u1, now) == Error(400, "Request body is required", None)
    ensures body.Undecodable? ==> ConvertResponse(body, u1, now) == Error(400, body.detail, None)
    ensures body == NotJsonBody ==> ConvertResponse(body, u1, now) == Error(400, "Request body must be valid JSON", None)
    ensures body.JsonBody? && !body.json.JObj? ==>
      ConvertResponse(body, u1, now) == Error(500, "Internal server error", Some(NoGetMessage(body.json)))
    ensures body.JsonBody? && body.json.JObj? ==>
      var d := body.json.fields;
      && (NormalizeCurrency(Get(d, "from")).Failure? ==>
            ConvertResponse(body, u1, now) == Error(400, NormalizeCurrency(Get(d, "from")).error.Text(), None))
      && (NormalizeCurrency(Get(d, "from")).Success? && NormalizeCurrency(Get(d, "to")).Failure? ==>
            ConvertResponse(body, u1, now) == Error(400, NormalizeCurrency(Get(d, "to")).error.Text(), None))
      && (NormalizeCurrency(Get(d, "from")).Success? && NormalizeCurrency(Get(d, "to")).Success?
          && FromJson(Get(d, "amount")).None? ==>
            ConvertResponse(body, u1, now) == Error(400, AmountInvalid, None))
      && (NormalizeCurrency(Get(d, "from")).Failure? || NormalizeCurrency(Get(d, "to")).Failure?
          || FromJson(Get(d, "amount")).None? ==>
            ConvertResponse(body, u1, now) == ConvertResponse(body, u2, now))
  {
    match body
    case NoBody =>
      RejectionsKeepTheirText<Conversion>(BodyRequired.message);
    case Undecodable(detail) =>
      RejectionsKeepTheirText<Conversion>(detail);
    case NotJsonBody =>
      RejectionsKeepTheirText<Conversion>(BodyNotJson.message);
    case JsonBody(j) =>
      if j.JObj? {
        FieldsValidatedFirst(j.fields, u1, u2, now);
        assert Convert(body, u1, now) == ConvertFields(j.fields, u1, now);
        assert Convert(body, u2, now) == ConvertFields(j.fields, u2, now);
      } else {
        AttributeErrorIsServerError<Conversion>(NoGetMessage(j));
      }
  }

  /** The field checks of `ValidationPrecedesFetch`, on the request object. */
  lemma FieldsValidatedFirst(d: map<string, Json>, u1: string -> FetchOutcome, u2: string -> FetchOutcome, now: string)
    ensures NormalizeCurrency(Get(d, "from")).Failure? ==>
      ConvertFields(d, u1, now) == Failure(NormalizeCurrency(Get(d, "from")).error)
    ensures NormalizeCurrency(Get(d, "from")).Success? && NormalizeCurrency(Get(d, "to")).Failure? ==>
      ConvertFields(d, u1, now) == Failure(NormalizeCurrency(Get(d, "to")).error)
    ensures (NormalizeCurrency(Get(d, "from")).Success? && NormalizeCurrency(Get(d, "to")).Success?
             && FromJson(Get(d, "amount")).None?) ==>
      ConvertFields(d, u1, now) == Success(Error(400, AmountInvalid, None))
    ensures (NormalizeCurrency(Get(d, "from")).Failure? || NormalizeCurrency(Get(d, "to")).Failure?
             || FromJson(Get(d, "amount")).None?) ==>
      ConvertFields(d, u1, now) == ConvertFields(d, u2, now)
    ensures NormalizeCurrency(Get(d, "from")).Failure? ==>
      var e := NormalizeCurrency(Get(d, "from")).error;
      RatesFailure<Conversion>(e) == Error(400, e.Text(), None)
    ensures NormalizeCurrency(Get(d, "to")).Failure? ==>
      var e := NormalizeCurrency(Get(d, "to")).error;
      RatesFailure<Conversion>(e) == Error(400, e.Text(), None)
  {
    var from := NormalizeCurrency(Get(d, "from"));
    var to := NormalizeCurrency(Get(d, "to"));
    if from.Failure? {
      RejectionsKeepTheirText<Conversion>(from.error.message);
    }
    if to.Failure? {
      RejectionsKeepTheirText<Conversion>(to.error.message);
    }
  }

  /** The provider is asked once, for the source code: two providers that
      answer that URL alike give the same response. */
  lemma ConvertAsksOneUrl(body: RequestBody, u1: string -> FetchOutcome, u2: string -> FetchOutcome, now: string,
                          from: string)
    requires body.JsonBody? && body.json.JObj?
    requires NormalizeCurrency(Get(body.json.fields, "from")) == Success(from)
    requires u1(ApiBaseUrl + "/" + from) == u2(ApiBaseUrl + "/" + from)
    ensures ConvertResponse(body, u1, now) == ConvertResponse(body, u2, now)
  {
    CodeIsFixedPoint(from);
    assert FetchRates(from, u1) == FetchRates(from, u2);
    var d := body.json.fields;
    assert Convert(body, u1, now) == ConvertFields(d, u1, now);
    assert Convert(body, u2, now) == ConvertFields(d, u2, now);
    if NormalizeCurrency(Get(d, "to")).Success? && FromJson(Get(d, "amount")).Some? {
      var to := NormalizeCurrency(Get(d, "to")).value;
      var amount := FromJson(Get(d, "amount")).value;
      assert ConvertFields(d, u1, now) == ConvertAmount(from, to, amount, u1, now);
      assert ConvertFields(d, u2, now) == ConvertAmount(from, to, amount, u2, now);
    }
  }

  /** A target the provider's table does not list is a 400 naming it. */
  lemma UnlistedTargetRejected(body: RequestBody, upstream: string -> FetchOutcome, now: string,
                               from: string, to: string)
    requires body.JsonBody? && body.json.JObj?
    requires NormalizeCurrency(Get(body.json.fields, "from")) == Success(from)
    requires NormalizeCurrency(Get(body.json.fields, "to")) == Success(to)
    requires FromJson(Get(body.json.fields, "amount")).Some?
    requires FetchRates(from, upstream).Success? && to !in FetchRates(from, upstream).value.rates
    ensures ConvertResponse(body, upstream, now) == Error(400, "Currency '" + to + "' is not supported", None)
  {
  }

  /** A failed fetch of a valid request is answered by the ladder. */
  lemma FetchFailureAnswered(body: RequestBody, upstream: string -> FetchOutcome, now: string, from: string)
    requires body.JsonBody? && body.json.JObj?
    requires NormalizeCurrency(Get(body.json.fields, "from")) == Success(from)
    requires NormalizeCurrency(Get(body.json.fields, "to")).Success?
    requires FromJson(Get(body.json.fields, "amount")).Some?
    requires FetchRates(from, upstream).Failure?
    ensures ConvertResponse(body, upstream, now) == RatesFailure(FetchRates(from, upstream).error)
  {
    var d := body.json.fields;
    var to := NormalizeCurrency(Get(d, "to")).value;
    var amount := FromJson(Get(d, "amount")).value;
    assert Convert(body, upstream, now) == ConvertFields(d, upstream, now);
    assert ConvertFields(d, upstream, now) == ConvertAmount(from, to, amount, upstream, now);
  }

  /** How the ladder answers a failed query: a timeout with 504, an
      unreachable provider with 502, an HTTP error status with that status. */
  lemma QueryFailureStatus(base: string, upstream: string -> FetchOutcome)
    ensures var answer := upstream(ApiBaseUrl + "/" + base);
      var r := Query(base, upstream);
      && (answer.TimedOut? ==>
            r.Failure? && RatesFailure<Conversion>(r.error) == Error(504, "Exchange rate service timed out", None))
      && (answer.Unreachable? ==>
            r.Failure? && RatesFailure<Conversion>(r.error) == Error(502, "Unable to contact exchange rate service", None))
      && (answer.Answered? && 400 <= answer.status < 600 ==>
            r.Failure? && RatesFailure<Conversion>(r.error).Status() == answer.status)
  {
    var url := ApiBaseUrl + "/" + base;
    match upstream(url)
    case TimedOut(connecting, detail) =>
      TransportFailuresAnswered<Conversion>(detail, 0, "");
    case Unreachable(detail) =>
      TransportFailuresAnswered<Conversion>(detail, 0, "");
    case Answered(status, reason, _) =>
      TransportFailuresAnswered<Conversion>("", status, HttpErrorText(status, reason, url));
  }

  /** A provider failure is answered by the ladder: a timeout with 504, an
      HTTP error status with that status, an unreachable provider with 502. */
  lemma ProviderFailures(body: RequestBody, upstream: string -> FetchOutcome, now: string, from: string)
    requires body.JsonBody? && body.json.JObj?
    requires NormalizeCurrency(Get(body.json.fields, "from")) == Success(from)
    requires NormalizeCurrency(Get(body.json.fields, "to")).Success?
    requires FromJson(Get(body.json.fields, "amount")).Some?
    ensures var answer := upstream(ApiBaseUrl + "/" + from);
      && (answer.TimedOut? ==> ConvertResponse(body, upstream, now) == Error(504, "Exchange rate service timed out", None))
      && (answer.Unreachable? ==>
            ConvertResponse(body, upstream, now) == Error(502, "Unable to contact exchange rate service", None))
      && (answer.Answered? && 400 <= answer.status < 600 ==>
            ConvertResponse(body, upstream, now).Status() == answer.status)
  {
    FetchOfCode(from, upstream);
    QueryFailureStatus(from, upstream);
    if FetchRates(from, upstream).Failure? {
      FetchFailureAnswered(body, upstream, now, from);
    }
  }

  /** A provider rate that is not a number, or an amount and rate whose
      product cannot be rounded (an infinity), is a 500, never a 200. */
  lemma UnusableRateIsServerError(from: string, to: string, amount: Decimal, snapshot: Snapshot, now: string)
    requires to in snapshot.rates
    requires FromJson(snapshot.rates[to]).None?
      || (FromJson(snapshot.rates[to]).Some? && Multiply(amount, FromJson(snapshot.rates[to]).value).Some?
          && Multiply(amount, FromJson(snapshot.rates[to]).value).value.Infinite?)
    ensures Priced(from, to, amount, snapshot, now).Failure?
    ensures RatesFailure<Conversion>(Priced(from, to, amount, snapshot, now).error).Status() == 500
  {
    DecimalFailuresAreServerErrors<Conversion>();
    var r := Priced(from, to, amount, snapshot, now);
    if FromJson(snapshot.rates[to]).None? {
      assert r == Failure(DecimalSyntaxError);
    } else {
      var product := Multiply(amount, FromJson(snapshot.rates[to]).value).value;
      assert QuantizeCents(product).None?;
      assert r == Failure(DecimalInvalidOperation);
    }
  }

  /** The stored record carries the response's values: codes, the exact
      amount, result and rate, the provider's update time, and the
      timestamp as the sort key. When one of the three numbers does not fit
      boto3's context, storing raises its signal and writes nothing; when
      one is out of DynamoDB's range, storing reports `False`. */
  lemma RecordMatchesResponse(c: Conversion, table: map<string, Item>, callOk: bool)
    requires c.timestamp != ""
    requires SerializeError(Plain(c.lastUpdated)).None?
    ensures var after := PutSpec(table, RecordOf(c), c.timestamp, callOk);
      var numbers := [Dec(c.amount), Dec(c.result), Dec(c.rate)];
      && (FirstError(numbers).Some? ==> after == (Failure(FirstError(numbers).value), table))
      && (FirstError(numbers).None? ==> after.0 == Success(callOk && !AnyRefused(numbers)))
      && (after.0 == Success(true) ==> after.1 == table[c.timestamp := Item(Plain(JStr(c.from)), Plain(JStr(c.to)),
            Dec(c.amount), Dec(c.result), Dec(c.rate), Plain(c.lastUpdated))])
  {
    var record := RecordOf(c);
    var key := Plain(JStr(c.timestamp));
    assert SortKeyOf(record, c.timestamp) == key;
    var item := Item(Plain(JStr(c.from)), Plain(JStr(c.to)), Dec(c.amount), Dec(c.result), Dec(c.rate), Plain(c.lastUpdated));
    AttributeNumbers(key, item);
    assert PrepareItem(record, c.timestamp) == (if FirstError([item.amount, item.result, item.rate]).Some?
      then Failure(FirstError([item.amount, item.result, item.rate]).value) else Success((key, item)));
  }

}
