/** Currency-code validation and the interpretation of the exchange-rate
    provider's answer (`shared/exchange.py`). The HTTP GET is a parameter:
    a function from the requested URL to what came back. */
module Exchange {
  import opened Common
  import opened Text
  import opened PyJson
  import opened Failures

  /** Three upper-case ASCII letters: the shape of an ISO 4217 code. */
  predicate IsCode(s: string) {
    |s| == 3 && forall k :: 0 <= k < |s| ==> 'A' <= s[k] <= 'Z'
  }

  /** The `ValueError` for a missing code. */
  const CodeRequired := Raised(ValueError, "Currency code is required")

  /** The `ValueError` for a code of the wrong shape; it quotes the input as given. */
  function InvalidCode(code: Json): Exc {
    Raised(ValueError, "Invalid currency code '" + PyStr(code) + "'")
  }

  /** `normalize_currency(code)`: a falsy code is missing; otherwise
      `str(code).strip().upper()` must be three letters. */
  function NormalizeCurrency(code: Json): (r: Result<string, Exc>)
    ensures r.Success? ==> IsCode(r.value)
    ensures r.Failure? ==> r.error.Raised? && r.error.cls == ValueError
  {
    if !Truthy(code) then Failure(CodeRequired)
    else
      var normalized := Upper(Strip(PyStr(code)));
      if |normalized| != 3 || !AllAlpha(normalized) then Failure(InvalidCode(code))
      else
        UpperLettersAreCapitals(Strip(PyStr(code)));
        Success(normalized)
  }

  /** The outcome is decided by the trimmed, upper-cased text alone: it is
      accepted exactly when that text is three letters, and then it is the
      result. */
  lemma NormalizeCharacterized(code: Json)
    ensures !Truthy(code) ==> NormalizeCurrency(code) == Failure(CodeRequired)
    ensures Truthy(code) ==>
      (NormalizeCurrency(code).Success? <==> |Upper(Strip(PyStr(code)))| == 3 && AllAlpha(Upper(Strip(PyStr(code)))))
    ensures Truthy(code) && NormalizeCurrency(code).Failure? ==> NormalizeCurrency(code) == Failure(InvalidCode(code))
    ensures NormalizeCurrency(code).Success? ==> NormalizeCurrency(code).value == Upper(Strip(PyStr(code)))
  {
  }

  /** A code of three letters in any case, with any whitespace around it, is
      accepted as the upper-cased letters. */
  lemma NormalizePadded(pre: string, letters: string, post: string)
    requires AllSpace(pre) && AllSpace(post)
    requires |letters| == 3 && AllAlpha(letters)
    ensures NormalizeCurrency(JStr(pre + letters + post)) == Success(Upper(letters))
  {
    var text := pre + letters + post;
    assert !IsSpace(letters[0]) && !IsSpace(letters[2]);
    StripPadded(pre, letters, post);
    assert Strip(PyStr(JStr(text))) == letters;
    UpperKeepsLetters(letters);
    assert |text| >= 3;
    assert Truthy(JStr(text));
    NormalizeCharacterized(JStr(text));
  }

  /** Whitespace alone is present but not a code: it is rejected as invalid,
      not as missing. */
  lemma NormalizeRejectsBlank(s: string)
    requires s != [] && AllSpace(s)
    ensures NormalizeCurrency(JStr(s)) == Failure(InvalidCode(JStr(s)))
  {
    StripPadded(s, [], []);
    assert s + [] + [] == s;
  }

  /** Normalizing an accepted code again gives it back; so `fetch_rates`
      normalizing a base its caller already normalized changes nothing. */
  lemma NormalizeIdempotent(code: Json)
    requires NormalizeCurrency(code).Success?
    ensures NormalizeCurrency(JStr(NormalizeCurrency(code).value)) == NormalizeCurrency(code)
  {
    var c := NormalizeCurrency(code).value;
    CodeIsFixedPoint(c);
  }

  /** A code is letters, and `upper()` leaves it as it is. */
  lemma CodeLetters(c: string)
    requires IsCode(c)
    ensures AllAlpha(c) && Upper(c) == c
  {
    assert forall k :: 0 <= k < |c| ==> IsAlpha(c[k]);
    UpperOfCapitals(c);
  }

  /** A code normalizes to itself. */
  lemma CodeIsFixedPoint(c: string)
    requires IsCode(c)
    ensures NormalizeCurrency(JStr(c)) == Success(c)
  {
    CodeLetters(c);
    NormalizePadded([], c, []);
    assert [] + c + [] == c;
  }

  /** Numbers and booleans are truthy but never codes: `str()` of an
      integer has digits, of `True` four letters. */
  lemma NormalizeRejectsNonText(code: Json)
    requires code.JInt? || code.JBool?
    requires Truthy(code)
    ensures NormalizeCurrency(code) == Failure(InvalidCode(code))
  {
    var t := PyStr(code);
    if code.JInt? {
      var s := Strip(t);
      if s != [] {
        StripKeeps(t);
        assert s[0] in t;
        assert forall c :: c in t ==> IsDigit(c) || c == '-';
        assert !IsAlpha(Upper(s)[0]);
      }
    } else {
      assert t == "True";
      StripPadded([], t, []);
      assert [] + t + [] == t;
    }
  }

  /** The provider's base URL; `EXCHANGE_API_BASE` is not read. */
  const ApiBaseUrl := "https://open.er-api.com/v6/latest"

  /** The body of the provider's answer, as `response.json()` sees it. */
  datatype Body = Parsed(payload: Json) | NotJson(detail: string)

  /** What `requests.get(url, timeout=...)` gave. */
  datatype FetchOutcome =
    | TimedOut(connecting: bool, detail: string)
    | Unreachable(detail: string)
    | Answered(status: int, reason: string, body: Body)

  /** The text of the `HTTPError` `raise_for_status()` raises. */
  function HttpErrorText(status: int, reason: string, url: string): string {
    IntText(status) + (if status < 500 then " Client Error: " else " Server Error: ")
      + reason + " for url: " + url
  }

  /** What `fetch_rates` returns. */
  datatype Snapshot = Snapshot(
    base: string,
    rates: map<string, Json>,
    lastUpdated: Json,
    nextUpdate: Json,
    documentation: Json,
    termsOfUse: Json)

  /** The tag of an error answer: `error-type`, or `exchange_rate_error` when that key is absent. */
  function ErrorTag(d: map<string, Json>): Json {
    if "error-type" in d then d["error-type"] else JStr("exchange_rate_error")
  }

  /** The rates table chosen: `rates` when it is truthy, else `conversion_rates`. */
  function ChosenRates(d: map<string, Json>): Json {
    Or(Get(d, "rates"), Get(d, "conversion_rates"))
  }

  const InvalidAnswer := Raised(ExchangeRateProviderError, "Invalid response from exchange rate provider")

  /** The part of `fetch_rates` after the body was decoded. */
  function InterpretPayload(base: string, payload: Json): (r: Result<Snapshot, Exc>)
    ensures r.Success? ==> r.value.base == base && payload.JObj?
  {
    if !payload.JObj? then Failure(Raised(AttributeError, NoGetMessage(payload)))
    else
      var d := payload.fields;
      if Get(d, "result") == JStr("error") then
        var tag := ErrorTag(d);
        if tag == JStr("unsupported-code") then
          Failure(Raised(ValueError, "Currency '" + base + "' is not supported"))
        else
          Failure(Raised(ExchangeRateProviderError, "Exchange rate provider error: " + PyStr(tag)))
      else
        var rates := ChosenRates(d);
        if !rates.JObj? then Failure(InvalidAnswer)
        else
          Success(Snapshot(
            base,
            rates.fields,
            Or(Get(d, "time_last_update_utc"), Get(d, "time_last_update")),
            Or(Get(d, "time_next_update_utc"), Get(d, "time_next_update")),
            Get(d, "documentation"),
            Get(d, "terms_of_use")))
  }

  /** `fetch_rates(base_currency)`: normalize, GET `<base URL>/<base>`,
      `raise_for_status()`, decode, interpret. */
  function FetchRates(baseCurrency: string, upstream: string -> FetchOutcome): (r: Result<Snapshot, Exc>)
    ensures r.Success? ==> NormalizeCurrency(JStr(baseCurrency)) == Success(r.value.base)
  {
    var base :- NormalizeCurrency(JStr(baseCurrency));
    Query(base, upstream)
  }

  /** `fetch_rates` once the base is normalized: GET `<base URL>/<base>`,
      `raise_for_status()`, decode, interpret. */
  function Query(base: string, upstream: string -> FetchOutcome): (r: Result<Snapshot, Exc>)
    ensures r.Success? ==> r.value.base == base
  {
    var url := ApiBaseUrl + "/" + base;
    match upstream(url)
    case TimedOut(connecting, detail) => Failure(Raised(if connecting then ConnectTimeout else ReadTimeout, detail))
    case Unreachable(detail) => Failure(Raised(RequestsConnectionError, detail))
    case Answered(status, reason, body) =>
      if 400 <= status < 600 then Failure(HttpFailure(status, HttpErrorText(status, reason, url)))
      else
        match body
        case NotJson(detail) => Failure(Raised(RequestsJSONDecodeError, detail))
        case Parsed(payload) => InterpretPayload(base, payload)
  }

  /** An answer with `result == "error"` is never accepted, whatever rates
      it carries. The tag `unsupported-code` is a `ValueError` naming the
      base. */
  lemma UnsupportedAnswer(base: string, d: map<string, Json>)
    requires Get(d, "result") == JStr("error")
    requires Get(d, "error-type") == JStr("unsupported-code")
    ensures InterpretPayload(base, JObj(d)) == Failure(Raised(ValueError, "Currency '" + base + "' is not supported"))
  {
    assert ErrorTag(d) == JStr("unsupported-code");
  }

  /** Any other tag, `exchange_rate_error` when there is none, is a provider
      error carrying the tag. */
  lemma ProviderErrorAnswer(base: string, d: map<string, Json>)
    requires Get(d, "result") == JStr("error")
    requires ErrorTag(d) != JStr("unsupported-code")
    ensures var r := InterpretPayload(base, JObj(d));
      && r == Failure(Raised(ExchangeRateProviderError, "Exchange rate provider error: " + PyStr(ErrorTag(d))))
      && ("error-type" !in d ==> r.error.Text() == "Exchange rate provider error: " + "exchange_rate_error")
  {
  }

  /** Any other dict is accepted exactly when the chosen table is a dict;
      the snapshot then holds that table unchanged and the timestamps with
      the `_utc` field preferred when truthy. */
  lemma AnswerAccepted(base: string, d: map<string, Json>)
    requires Get(d, "result") != JStr("error")
    ensures var r := InterpretPayload(base, JObj(d));
      && (r.Success? <==> ChosenRates(d).JObj?)
      && (r.Failure? ==> r.error == InvalidAnswer)
      && (r.Success? ==>
            && r.value.rates == ChosenRates(d).fields
            && (Truthy(Get(d, "rates")) ==> JObj(r.value.rates) == d["rates"])
            && (!Truthy(Get(d, "rates")) ==> JObj(r.value.rates) == Get(d, "conversion_rates"))
            && (Truthy(Get(d, "time_last_update_utc")) ==> r.value.lastUpdated == d["time_last_update_utc"])
            && (!Truthy(Get(d, "time_last_update_utc")) ==> r.value.lastUpdated == Get(d, "time_last_update"))
            && (Truthy(Get(d, "time_next_update_utc")) ==> r.value.nextUpdate == d["time_next_update_utc"])
            && (!Truthy(Get(d, "time_next_update_utc")) ==> r.value.nextUpdate == Get(d, "time_next_update"))
            && r.value.documentation == Get(d, "documentation")
            && r.value.termsOfUse == Get(d, "terms_of_use"))
  {
  }

  /** An empty `rates` dict is falsy, so `conversion_rates` is used instead. */
  lemma EmptyRatesFallBack(base: string, conversion: map<string, Json>)
    ensures var d := map["rates" := JObj(map[]), "conversion_rates" := JObj(conversion)];
      InterpretPayload(base, JObj(d)).Success?
      && InterpretPayload(base, JObj(d)).value.rates == conversion
  {
  }

  /** A base that is not a code is rejected before any request: the answer
      does not depend on the upstream at all. */
  lemma InvalidBaseNeverFetches(baseCurrency: string, u1: string -> FetchOutcome, u2: string -> FetchOutcome)
    requires NormalizeCurrency(JStr(baseCurrency)).Failure?
    ensures FetchRates(baseCurrency, u1) == FetchRates(baseCurrency, u2)
    ensures FetchRates(baseCurrency, u1).error.Class() == ValueError
  {
  }

  /** The request goes to `<base URL>/<normalized base>`. A timeout or a
      connection failure is raised as such; an error status is reported
      with that status and URL before the body is looked at; any other
      answer that is not JSON raises the decoder's error, and JSON is
      interpreted. */
  lemma FetchRequestsNormalizedUrl(baseCurrency: string, upstream: string -> FetchOutcome)
    requires NormalizeCurrency(JStr(baseCurrency)).Success?
    ensures var base := NormalizeCurrency(JStr(baseCurrency)).value;
      var url := ApiBaseUrl + "/" + base;
      && (upstream(url).Answered? && 400 <= upstream(url).status < 600 ==>
            FetchRates(baseCurrency, upstream)
              == Failure(HttpFailure(upstream(url).status, HttpErrorText(upstream(url).status, upstream(url).reason, url))))
      && (upstream(url).Answered? && !(400 <= upstream(url).status < 600) && upstream(url).body.Parsed? ==>
            FetchRates(baseCurrency, upstream) == InterpretPayload(base, upstream(url).body.payload))
      && (upstream(url).Answered? && !(400 <= upstream(url).status < 600) && upstream(url).body.NotJson? ==>
            FetchRates(baseCurrency, upstream) == Failure(Raised(RequestsJSONDecodeError, upstream(url).body.detail)))
      && (upstream(url).TimedOut? ==>
            FetchRates(baseCurrency, upstream)
              == Failure(Raised(if upstream(url).connecting then ConnectTimeout else ReadTimeout, upstream(url).detail)))
      && (upstream(url).Unreachable? ==>
            FetchRates(baseCurrency, upstream) == Failure(Raised(RequestsConnectionError, upstream(url).detail)))
  {
  }

  /** A base that is already a code is queried as it is. */
  lemma FetchOfCode(code: string, upstream: string -> FetchOutcome)
    requires IsCode(code)
    ensures FetchRates(code, upstream) == Query(code, upstream)
  {
    CodeIsFixedPoint(code);
  }

  /** The text `raise_for_status()` gives a 429 answer. */
  lemma TooManyRequestsText(reason: string, url: string)
    ensures HttpErrorText(429, reason, url) == "429 Client Error: " + reason + " for url: " + url
  {
    assert NatText(429) == "429" by {
      assert NatText(4) == "4";
      assert NatText(42) == "42";
    }
    assert "429" + " Client Error: " == "429 Client Error: ";
  }

  /** Rate limiting: a 429 answer is a client error carrying its status,
      whatever its body. */
  lemma TooManyRequestsIsHttpError(code: string, upstream: string -> FetchOutcome, reason: string, body: Body)
    requires IsCode(code)
    requires upstream(ApiBaseUrl + "/" + code) == Answered(429, reason, body)
    ensures FetchRates(code, upstream)
      == Failure(HttpFailure(429, "429 Client Error: " + reason + " for url: " + (ApiBaseUrl + "/" + code)))
  {
    CodeIsFixedPoint(code);
    TooManyRequestsText(reason, ApiBaseUrl + "/" + code);
  }
}
