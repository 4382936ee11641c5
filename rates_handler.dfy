/** The `GET /rates` handler (`get_exchange_rates/handler.py`): fetch the
    rates for the `base` query parameter, `USD` by default, and answer with
    them or with the `except` ladder's error. */
module RatesHandler {
  import opened Common
  import opened Text
  import opened PyJson
  import opened Failures
  import opened Responses
  import opened Exchange

  /** `params.get("base") or "USD"`, where `params` is the query string
      parameters or `{}` when there are none. */
  function BaseOf(query: Option<map<string, string>>): (base: string)
    ensures base == "USD" || (query.Some? && "base" in query.value && base == query.value["base"])
    ensures base != ""
    ensures query.Some? && "base" in query.value && query.value["base"] != "" ==> base == query.value["base"]
  {
    if query.Some? && "base" in query.value && query.value["base"] != "" then query.value["base"] else "USD"
  }

  /** `get_exchange_rates(event, context)`: the snapshot `fetch_rates`
      returns, or the ladder's answer to what it raised. */
  function RatesResponse(query: Option<map<string, string>>, upstream: string -> FetchOutcome): (r: Reply<Snapshot>)
    ensures r.Ok? <==> FetchRates(BaseOf(query), upstream).Success?
    ensures r.Ok? ==> IsCode(r.payload.base)
  {
    match FetchRates(BaseOf(query), upstream)
    case Success(snapshot) => Ok(snapshot)
    case Failure(e) => RatesFailure(e)
  }

  /** A 200 response carries the snapshot for the requested base,
      normalized, and the rates table the provider sent. */
  lemma RatesOk(query: Option<map<string, string>>, upstream: string -> FetchOutcome)
    requires RatesResponse(query, upstream).Ok?
    ensures var s := RatesResponse(query, upstream).payload;
      && FetchRates(BaseOf(query), upstream) == Success(s)
      && NormalizeCurrency(JStr(BaseOf(query))) == Success(s.base)
      && IsCode(s.base)
  {
    var s := RatesResponse(query, upstream).payload;
    assert FetchRates(BaseOf(query), upstream) == Success(s);
  }

  /** Without a `base` parameter, or with an empty one, the rates of `USD`
      are asked for. */
  lemma DefaultBaseIsUsd(query: Option<map<string, string>>, upstream: string -> FetchOutcome)
    requires query.None? || "base" !in query.value || query.value["base"] == ""
    ensures RatesResponse(query, upstream) == RatesResponse(None, upstream)
    ensures FetchRates(BaseOf(query), upstream) == Query("USD", upstream)
  {
    assert IsCode("USD");
    FetchOfCode("USD", upstream);
  }

  /** A base in any case, with whitespace around it, is asked for in upper case. */
  lemma BaseIsNormalized(query: map<string, string>, pre: string, letters: string, post: string,
                         upstream: string -> FetchOutcome)
    requires AllSpace(pre) && AllSpace(post)
    requires |letters| == 3 && AllAlpha(letters)
    requires "base" in query && query["base"] == pre + letters + post
    ensures FetchRates(BaseOf(Some(query)), upstream) == Query(Upper(letters), upstream)
  {
    NormalizePadded(pre, letters, post);
  }

  /** An invalid base is a 400 naming it, and the provider is never asked. */
  lemma InvalidBaseIsBadRequest(query: Option<map<string, string>>, upstream: string -> FetchOutcome)
    requires NormalizeCurrency(JStr(BaseOf(query))).Failure?
    ensures RatesResponse(query, upstream)
      == Error(400, NormalizeCurrency(JStr(BaseOf(query))).error.Text(), None)
    ensures forall other: string -> FetchOutcome :: RatesResponse(query, other) == RatesResponse(query, upstream)
  {
    InvalidBaseNeverFetches(BaseOf(query), upstream, upstream);
  }

  /** A base the provider reports as `unsupported-code` is a 400 naming the
      normalized base; any other provider error tag is a 502. */
  lemma ProviderRejection(query: Option<map<string, string>>, upstream: string -> FetchOutcome,
                          base: string, d: map<string, Json>)
    requires NormalizeCurrency(JStr(BaseOf(query))) == Success(base)
    requires var answer := upstream(ApiBaseUrl + "/" + base);
      answer.Answered? && !(400 <= answer.status < 600) && answer.body == Parsed(JObj(d))
    requires Get(d, "result") == JStr("error")
    ensures ErrorTag(d) == JStr("unsupported-code") ==>
      RatesResponse(query, upstream) == Error(400, "Currency '" + base + "' is not supported", None)
    ensures ErrorTag(d) != JStr("unsupported-code") ==>
      RatesResponse(query, upstream) == Error(502, "Exchange rate provider error: " + PyStr(ErrorTag(d)), None)
  {
    assert FetchRates(BaseOf(query), upstream) == Query(base, upstream);
    assert Query(base, upstream) == InterpretPayload(base, JObj(d));
    if ErrorTag(d) == JStr("unsupported-code") {
      UnsupportedAnswer(base, d);
      RejectionsKeepTheirText<Snapshot>("Currency '" + base + "' is not supported");
    } else {
      ProviderErrorAnswer(base, d);
      RejectionsKeepTheirText<Snapshot>("Exchange rate provider error: " + PyStr(ErrorTag(d)));
    }
  }
}
