# Serverless currency converter: a verified model of the backend

This project models the backend of a serverless currency converter: three
AWS Lambda handlers (`POST /convert`, `GET /rates`, `GET /history`), the
exchange-rate helper they share, and the optional DynamoDB conversion
history.

- **The exchange-rate helper** (`backend/shared/exchange.py`)
  - Validates currency codes: trim, upper-case, exactly three letters.
  - Asks an HTTP provider for the rates of a base currency and interprets
    its answer. That answer can be an error sentinel, `rates` or
    `conversion_rates`, and timestamps with fallbacks.
- **The convert handler**
  - Checks the request in a fixed order: body, JSON, `from`, `to`,
    `amount`.
  - Fetches the rates for the source currency and checks the target is
    listed.
  - Multiplies exact decimals and quantizes the result to cents with
    `ROUND_HALF_UP`.
  - Stores the conversion if it can. Storage is best effort and never
    changes the response.
  - Maps every escaped exception to an HTTP status through an ordered
    `except` ladder.
- **The history store** (`backend/shared/storage.py`) is a class.
  - `checked` and `available` stand for the memoized module globals
    `_table_checked` and `_cached_table`.
  - `table` is a map from the sort key (the conversion's timestamp) to the
    stored attributes.
  - Its methods put, query (newest first, with a limit), get, update and
    delete, keeping the source's return-value conventions.
  - `update_conversion_record`'s loop over the updates is a `while` loop,
    proved against a specification function.
- **The rates and history handlers**
  - The rates handler defaults the base to `USD` and shares the convert
    handler's `except` ladder.
  - The history handler replaces an empty history with two fixed samples
    and labels where the list came from.

Python semantics that matter here are written out explicitly:
- truthiness, `or` and `dict.get`;
- `str.strip` over Python's whitespace set, and `upper` and `isalpha` over
  the ASCII letters;
- `Decimal(str(x))` parsing, including the `NaN`/`Infinity` spellings it
  accepts;
- exception classes with their inheritance, and `isinstance`;
- boto3's serializer: floats refused, numbers passed through its
  38-digit decimal context, and DynamoDB's number range;
- a JSON encoder that refuses `Decimal`s.

Modules:
- `Common`: `Option`, `Result`.
- `Text`: the string methods.
- `PyJson`: parsed JSON values.
- `Decimals`: the decimal model.
- `Failures`: the exception classes.
- `SortKeys`: the sort-key order and the newest-first selection.
- `Storage`, `Responses`, `Exchange`, `ConvertHandler`, `RatesHandler`,
  `HistoryHandler`.

External effects are parameters:
- the provider's answer: a function from the requested URL to an outcome;
- the current time;
- whether each DynamoDB call succeeds.

## Model

| member | source | states |
|---|---|---|
| Exchange.NormalizeCurrency | backend/shared/exchange.py:26-34 | An accepted code is three upper-case ASCII letters. Every rejection is a `ValueError`. |
| Exchange.NormalizeCharacterized | backend/shared/exchange.py:26-34 | A falsy code is "Currency code is required". Otherwise the code is accepted exactly when `str(code).strip().upper()` is three letters, and the result is that text. Any other rejection is "Invalid currency code '<code>'", quoting the input as given. |
| Exchange.NormalizePadded | backend/shared/exchange.py:30-34 | Three letters in any case, with any whitespace around them, are accepted as the upper-cased letters. |
| Exchange.NormalizeRejectsBlank | backend/shared/exchange.py:27-32 | A whitespace-only code is present (truthy) but invalid. It is rejected as invalid, not as missing. |
| Exchange.NormalizeRejectsNonText | backend/shared/exchange.py:27-32 | A non-zero integer or `True` is rejected as an invalid code. |
| Exchange.NormalizeIdempotent | backend/shared/exchange.py:30-38 | Normalizing an accepted code again gives the same code. So `fetch_rates` normalizing a base its caller already normalized changes nothing. |
| Exchange.CodeIsFixedPoint | backend/shared/exchange.py:30-34 | A code of three capitals normalizes to itself. |
| Exchange.InterpretPayload | backend/shared/exchange.py:45-64 | Only a dict payload can give a snapshot. A snapshot's `base` is the normalized base that was requested. |
| Exchange.UnsupportedAnswer | backend/shared/exchange.py:45-48 | `result == "error"` with tag `unsupported-code` raises a `ValueError` naming the base. |
| Exchange.ProviderErrorAnswer | backend/shared/exchange.py:45-49 | Any other error tag raises `ExchangeRateProviderError` carrying the tag, which is `exchange_rate_error` when `error-type` is absent. |
| Exchange.AnswerAccepted | backend/shared/exchange.py:51-64 | A non-error dict is accepted exactly when the chosen table is a dict, and is otherwise "Invalid response from exchange rate provider". The table is `rates` when that is truthy and `conversion_rates` otherwise, kept unchanged. Each timestamp prefers its `_utc` field when truthy. `documentation` and `terms_of_use` are copied, `None` when absent. |
| Exchange.EmptyRatesFallBack | backend/shared/exchange.py:51 | An empty `rates` dict is falsy, so `conversion_rates` is used. |
| Exchange.FetchRates | backend/shared/exchange.py:37-38 | A snapshot is returned only for a base that normalizes, and its `base` is that normalized code. |
| Exchange.Query | backend/shared/exchange.py:39-64 | A snapshot from the request for a base carries that base. |
| Exchange.InvalidBaseNeverFetches | backend/shared/exchange.py:37-38 | An invalid base raises a `ValueError`, and the outcome does not depend on the provider at all. |
| Exchange.FetchRequestsNormalizedUrl | backend/shared/exchange.py:38-43 | The request goes to `<base URL>/<normalized base>`. A timeout raises `ConnectTimeout` or `ReadTimeout`, and an unreachable provider a `ConnectionError`. An error status (400-599) raises `HTTPError` with that status and URL before the body is read. Any other answer whose body is not JSON raises `requests.JSONDecodeError`, and a decoded body is interpreted as above. |
| Exchange.FetchOfCode | backend/shared/exchange.py:38-39 | A base that is already a code is requested as it is. |
| Exchange.TooManyRequestsText | backend/shared/exchange.py:42 | `raise_for_status` words a 429 as "429 Client Error: <reason> for url: <url>". |
| Exchange.HttpErrorText | backend/shared/exchange.py:42 | The text of the `HTTPError` that `raise_for_status` raises. No contract of its own; `TooManyRequestsText` states it for a 429. |
| Exchange.TooManyRequestsIsHttpError | backend/shared/exchange.py:39-42 | A 429 answer is an `HTTPError` carrying status 429, whatever its body. |
| Failures.Ancestors | backend/shared/exchange.py:11-12 | Every exception class is an instance of itself and of `Exception`. |
| Failures.AncestorsClosed | backend/shared/exchange.py:11-12 | Subclassing is transitive: the superclasses of a superclass are superclasses. |
| Responses.ErrorResponse | backend/convert_currency/handler.py:27-35 | An error reply has the given status. Its body says `success` is false and carries the message. It carries `error` exactly when a detail is given, and then it is that detail. |
| Responses.ErrorBody | backend/convert_currency/handler.py:28-30 | The body of an error reply has only the keys `success`, `message` and `error`. `success` is always false and `message` always present. `error` is present exactly when the reply has a detail. |
| Responses.Dispatch | backend/convert_currency/handler.py:99-110 | An ordered `except` ladder handles an exception exactly when one of its clauses names a class the exception is an instance of. |
| Responses.RatesLadderOutcome | backend/convert_currency/handler.py:99-110 | The convert and rates ladder answers every exception as follows. A `ValueError` is 400 with its text. A `Timeout` is 504. An `HTTPError` is the upstream status with its text as detail. Any other `RequestException` is 502. `ExchangeRateProviderError` is 502 with its text. Anything else is 500 with its text as detail. |
| Responses.TimeoutClauseMustPrecedeRequestException | backend/convert_currency/handler.py:101-106 | A read timeout is answered 504 by the ladder as written. With the `RequestException` clause moved above `Timeout` it would be answered 502. |
| Responses.UpstreamJsonErrorIsBadRequest | backend/convert_currency/handler.py:99-100 | A provider body that is not JSON raises `requests.JSONDecodeError`, which is also a `ValueError`, so the client gets 400 with the decoder's message. |
| Responses.RejectionsKeepTheirText | backend/convert_currency/handler.py:99-108 | A `ValueError` is answered 400, and a provider error 502, each with the exception's own text. |
| Responses.DecimalFailuresAreServerErrors | backend/convert_currency/handler.py:109-110 | A decimal syntax error or a trapped `InvalidOperation` falls through to 500 with its text. |
| Responses.TransportFailuresAnswered | backend/convert_currency/handler.py:101-106 | Either kind of timeout is 504 and a connection error 502. An HTTP error is answered with its own status. |
| Responses.AttributeErrorIsServerError | backend/convert_currency/handler.py:109-110 | An `AttributeError` falls through to 500 with its text. |
| Responses.HistoryLadderOutcome | backend/get_history/handler.py:62-64 | The history handler answers every exception with 500, "Internal server error", and its text. |
| Decimals.RoundedCents | backend/convert_currency/handler.py:70 | Half-up rounding lands on a whole number of cents within half a cent of the value. The tie goes up for positive values and down for negative ones. |
| Decimals.Multiply | backend/convert_currency/handler.py:70 | `amount * rate` in the default context. No contract of its own; `QuantizedProduct` and `UnusableRateIsServerError` state what the handler relies on. |
| Decimals.QuantizeCents | backend/convert_currency/handler.py:70 | `quantize(Decimal("0.01"), rounding=ROUND_HALF_UP)`. No contract of its own; `QuantizedProduct`, `RoundHalfUpIsCloseCent`, `RoundHalfUpIsNearest` and `RoundHalfUpUnique` state it. |
| Decimals.QuantizedProduct | backend/convert_currency/handler.py:70 | The product of two finite decimals, quantized, is the exact product rounded half up to cents: whole cents within 0.005 of it. |
| Decimals.RoundHalfUpIsCloseCent | backend/convert_currency/handler.py:70 | The quantized value is a whole number of cents, at most 0.005 from the exact value. A tie moves away from zero. |
| Decimals.RoundHalfUpIsNearest | backend/convert_currency/handler.py:70 | No multiple of 0.01 is closer to the value than the quantized one. |
| Decimals.RoundHalfUpUnique | backend/convert_currency/handler.py:70 | Any multiple of 0.01 within 0.005 of the value, breaking a tie away from zero, is the quantized value. Rounding is therefore exactly "nearest cent, ties away from zero". |
| Decimals.RoundHalfUpOdd | backend/convert_currency/handler.py:70 | Rounding is symmetric about zero. |
| Decimals.RoundHalfUpKeepsCents | backend/convert_currency/handler.py:70 | A value that already is whole cents is unchanged. |
| Decimals.RoundHalfUpExamples | backend/convert_currency/handler.py:70 | Concrete cases: 1.005 gives 1.01, 2.675 gives 2.68, -1.005 gives -1.01, 0.125 gives 0.13, and 100 × 0.85 gives 85. |
| Decimals.JsonIntReadsExactly | backend/convert_currency/handler.py:59 | `Decimal(str(n))` of a JSON integer is exactly `n`. |
| Decimals.IntTextParses | backend/convert_currency/handler.py:59 | The decimal text of any integer, `str(n)`, reads back as `n`. |
| Decimals.NonNumbersRejected | backend/convert_currency/handler.py:59-61 | `null`, booleans, lists and dicts are never a valid amount. |
| Decimals.ParseDecimal | backend/convert_currency/handler.py:59-61 | `Decimal(text)`. No contract of its own; it is stated by `StripBeforeUnderscores`, `TrailingUnderscoreKeepsSpace`, `IntTextParses`, `WordRejected` and the lemmas about `FromJson`. |
| Decimals.FromJson | backend/convert_currency/handler.py:59 | `Decimal(str(x))` of a parsed JSON value. No contract of its own; it is stated by `JsonIntReadsExactly` and `NonNumbersRejected`. |
| Decimals.StripBeforeUnderscores | backend/convert_currency/handler.py:59 | Whitespace around the text is stripped before underscores are dropped, so a padded text is read as its core without underscores. |
| Decimals.TrailingUnderscoreKeepsSpace | backend/convert_currency/handler.py:59-61 | `Decimal("1 _")` is rejected: the space before the underscore is not at an end when stripping happens. |
| Decimals.LiteralRejected | backend/convert_currency/handler.py:59-61 | The text of `None`, `True` and `False` is not a number. |
| Decimals.ContainerRejected | backend/convert_currency/handler.py:59-61 | The text of a list or a dict is not a number. |
| Decimals.WordRejected | backend/convert_currency/handler.py:59-61 | A text starting with anything but a digit, a point or a sign, and not spelling a special value, is not a number. |
| Text.StripPadded | backend/shared/exchange.py:30 | `strip()` removes exactly the whitespace around a text. |
| Text.Strip | backend/shared/exchange.py:30 | `str.strip()` with Python's whitespace set. No contract of its own; it is stated by `StripPadded`, `StripIdempotent` and `StripEnds`. |
| Text.Upper | backend/shared/exchange.py:30 | Upper-casing keeps the length and maps each character on its own, ASCII letters to capitals. |
| Text.StripIdempotent | backend/shared/exchange.py:30 | Stripping twice is stripping once. |
| Text.UpperKeepsLetters | backend/shared/exchange.py:30-31 | Upper-casing keeps letters letters. |
| SortKeys.MaxKey | backend/shared/storage.py:105-108 | The key a descending query returns first is newer than every other key. |
| SortKeys.NewestUnique | backend/shared/storage.py:105-108 | The newest key is unique, so the descending order is determined. |
| SortKeys.Newest | backend/shared/storage.py:105-109 | A descending query with `Limit` returns `limit` keys, or all there are, strictly newest first. Every key left out is older than every key returned. |
| SortKeys.NewestDistinct | backend/shared/storage.py:105-109 | No key is returned twice. |
| SortKeys.NewestAll | backend/shared/storage.py:105-109 | With a limit at least the number of records, every key is returned. |
| Storage.ToDecimal | backend/shared/storage.py:241-246 | `_to_decimal` gives `None` or a `Decimal`. It fails exactly on a value other than `None` whose text is not a number, and then with `InvalidOperation`, whose text names `ConversionSyntax`. A readable value becomes the `Decimal` its text denotes. |
| Storage.ToDecimalKeeps | backend/shared/storage.py:241-246 | `None` and `Decimal`s pass through unchanged, and converting twice is converting once. |
| Storage.ToDecimalOfJson | backend/shared/storage.py:246 | An integer converts exactly. `True`, lists and dicts raise. |
| Storage.FirstError | backend/shared/storage.py:80-92 | boto3 raises on the item exactly when it raises on one of its values. It raises on a float anywhere inside a value, and on a `Decimal` whose text is `Infinity` or `NaN`. It also raises on a top-level number its 38-digit context traps: `Overflow` at 10^127 and above, `Underflow` or `Inexact` when digits below 10^-165 are needed, `Inexact` beyond 38 significant digits, and `Rounded` for a longer integer that ends in zeros. `-Infinity` and a signalling NaN are sent. |
| Storage.PutUpserts | backend/shared/storage.py:78-93 | A successful store upserts under `record["timestamp"]`, or under the current time when that is missing or empty. Every other key keeps its item. The stored item holds the record's fields with the numbers passed through `_to_decimal`. |
| Storage.PutFailureWritesNothing | backend/shared/storage.py:91-96 | A store that does not return `True` leaves the table as it was. |
| Storage.AttributeNumbers | backend/shared/storage.py:80-96 | When the key, the codes and the update time are sent as they are, the error boto3 raises and DynamoDB's refusal depend on the three numbers alone. |
| Storage.TinyUnderflows | backend/shared/storage.py:85-92 | A non-zero number below 10^-165 in magnitude, such as `1e-200`, cannot be sent. boto3 raises `decimal.Underflow`, which `store_conversion_record` does not catch. |
| Storage.CentsFit | backend/shared/storage.py:85-92 | A whole number of cents below 10^36 in magnitude never traps in boto3's context. |
| Storage.CentsInRange | backend/shared/storage.py:85-96 | Such a number is zero or at least a cent in magnitude, so DynamoDB does not refuse it. |
| Storage.CentsStorable | backend/shared/storage.py:85-96 | So such a number is sent and stored. A conversion result is a whole number of cents. |
| Storage.EntryOf | backend/shared/storage.py:115-125 | A listed record's `id` and `timestamp` are both its sort key. |
| Storage.Recent | backend/shared/storage.py:105-127 | The history holds at most `limit` records, and no more than the table has. |
| Storage.RecentListsStored | backend/shared/storage.py:105-127 | The history holds `limit` records or all there are. Each is a stored record shaped as an entry under its own key. They come newest first, and no record left out is newer than one listed. |
| Storage.NewestRecordFirst | backend/shared/storage.py:105-109 | The newest record is listed first. |
| Storage.RecentListsAll | backend/shared/storage.py:105-109 | With a limit at least the size of the table, every stored record is listed. |
| Storage.ProbedOnce | backend/shared/storage.py:41-45 | Once a probe has run, no later call probes again. A found table is returned forever, and a failed probe means no table forever. |
| Storage.UnsupportedNeverProbes | backend/shared/storage.py:35-45 | Without boto3 there is never a table and nothing is probed. |
| Storage.FirstProbeDecides | backend/shared/storage.py:44-70 | From a fresh process, the first probe alone decides availability for good. |
| Storage.Writes | backend/shared/storage.py:192-200 | Only allow-listed fields are written. |
| Storage.WritesLast | backend/shared/storage.py:194-200 | One step of the loop: the last update adds a write exactly when its field is allowed, with `_to_decimal` applied to numeric fields. |
| Storage.WritesFromUpdates | backend/shared/storage.py:194-200 | Every write names an updated field and carries that update's converted value. |
| Storage.UpdatesWritten | backend/shared/storage.py:194-200 | Every allowed updated field is written. |
| Storage.WritesDistinct | backend/shared/storage.py:194-200 | Distinct update fields give distinct writes. |
| Storage.WritesConverted | backend/shared/storage.py:197-198 | Numeric writes are `None` or `Decimal`s. |
| Storage.WritesStopAtFailure | backend/shared/storage.py:194-198 | A `_to_decimal` failure ends the loop: the whole update raises what that step raised. |
| Storage.ApplyWritesFields | backend/shared/storage.py:205-215 | `SET` with distinct fields gives each named field its value and leaves the others unchanged. |
| Storage.UpdateFields | backend/shared/storage.py:192-215 | After an update, every allowed field the updates name holds that update's converted value. Every other field is unchanged. |
| Storage.UpdateKeepsWellTyped | backend/shared/storage.py:197-198 | The numeric attributes stay `None` or `Decimal` through any update. |
| Storage.ReservedFieldsKept | backend/shared/storage.py:192-219 | An update DynamoDB accepts names none of `from`, `to` and `result`, so it leaves those fields as they were. |
| Storage.HistoryStore.constructor | backend/shared/storage.py:31-32 | A fresh process has probed nothing. The table may already hold records written by this code: numbers as `None` or `Decimal`, under non-empty keys. |
| Storage.HistoryStore.GetTable | backend/shared/storage.py:39-70 | `_get_table` returns the table exactly when it is available. It probes only when nothing was probed and boto3 is present, and records the outcome. |
| Storage.HistoryStore.Put | backend/shared/storage.py:73-96 | With no table the store returns `False` and changes nothing. Otherwise the outcome and the new table are as `PutSpec` says. |
| Storage.HistoryStore.FetchHistory | backend/shared/storage.py:99-129 | The flag is `True` exactly when the table is available, the limit is at least 1 and the query succeeds. The history is then the `limit` newest records, newest first, and `[]` otherwise. |
| Storage.HistoryStore.GetById | backend/shared/storage.py:132-164 | `(None, False)` means the table could not be read. `(None, True)` means no such record. Otherwise the result is the record with `id == timestamp ==` the key. |
| Storage.HistoryStore.BuildWrites | backend/shared/storage.py:188-200 | The loop builds exactly the writes `Writes` specifies, or raises its `_to_decimal` failure. |
| Storage.HistoryStore.Update | backend/shared/storage.py:167-219 | It returns `False` without a write when there is no table, no record or no allowed field. It also returns `False` when DynamoDB refuses the call: the expression names `from`, `to` or `result`, which DynamoDB reserves, or a number is out of DynamoDB's range, or the call fails. A value `_to_decimal` or the serializer refuses raises. On `True` exactly that record changed, only in the written fields, and never in `from`, `to` or `result`. |
| Storage.HistoryStore.Delete | backend/shared/storage.py:222-238 | It returns `True` whenever the call goes through, whether or not the key existed. Afterwards the key is absent and nothing else changed. |
| ConvertHandler.ParseBody | backend/convert_currency/handler.py:38-49 | A decoded body is returned exactly when there is one that is JSON. Otherwise a `ValueError` is raised. |
| ConvertHandler.Convert | backend/convert_currency/handler.py:52-97 | A 200 carries two valid codes. |
| ConvertHandler.ConvertFields | backend/convert_currency/handler.py:55-61 | A 200 carries two valid codes. |
| ConvertHandler.ConvertAmount | backend/convert_currency/handler.py:63-64 | A 200 carries the codes it was given. |
| ConvertHandler.Priced | backend/convert_currency/handler.py:66-82 | A 200 carries the codes it was given. |
| ConvertHandler.RecordOf | backend/convert_currency/handler.py:85-93 | The stored record holds the response's codes, the exact `Decimal` amount, result and rate, `last_updated` and the timestamp. |
| ConvertHandler.ConvertCurrency | backend/convert_currency/handler.py:52-97 | The response is the conversion's, whatever the store does. A failed request touches no store state. A 200 stores the record when the table is available. |
| ConvertHandler.ConvertResponse | backend/convert_currency/handler.py:52-110 | A 200 carries two valid codes. The rest is stated by `ValidationPrecedesFetch`, `ConvertedEchoesRequest`, `ConvertedResult`, `UnlistedTargetRejected`, `ProviderFailures` and `UnusableRateIsServerError`. |
| ConvertHandler.PricedResult | backend/convert_currency/handler.py:66-81 | The rate is the provider's entry for the target, read exactly. The codes, amount, `last_updated` and timestamp are the ones given. The result is the product quantized to cents: for finite operands, the product rounded half up, whole cents within 0.005 of it. |
| ConvertHandler.ConvertOk | backend/convert_currency/handler.py:54-70 | A 200 comes from a dict body whose `from`, `to` and `amount` are valid, read in that order, and a successful fetch priced to give that response. |
| ConvertHandler.ConvertedEchoesRequest | backend/convert_currency/handler.py:55-81 | A 200 echoes the request's normalized codes, its amount read as a `Decimal`, and the current time. |
| ConvertHandler.ConvertedResult | backend/convert_currency/handler.py:63-80 | A 200 comes from a successful fetch for the source code, which the lemma returns. The 200 uses the rate that fetch lists for the target and its `last_updated`. Its result is the product rounded half up to whole cents, within 0.005 of the exact product. |
| ConvertHandler.ValidationPrecedesFetch | backend/convert_currency/handler.py:38-61 | The checks run in this order, and the first failure decides. No body gives 400 "Request body is required". A base64 body that does not decode gives 400 with the decoder's text. Text that is not JSON gives 400 "Request body must be valid JSON". A value that is not a dict gives 500. A bad `from`, then a bad `to`, gives 400 with its message. A bad `amount` gives 400 "'amount' must be a valid number". None of these depends on the provider. |
| ConvertHandler.FieldsValidatedFirst | backend/convert_currency/handler.py:55-61 | `from`, then `to`, then `amount` are checked before anything is fetched. |
| ConvertHandler.ConvertAsksOneUrl | backend/convert_currency/handler.py:63 | Only the source code's URL is requested: two providers that answer it alike give the same response. |
| ConvertHandler.UnlistedTargetRejected | backend/convert_currency/handler.py:66-67 | A target the fetched table does not list is 400 "Currency '<to>' is not supported". |
| ConvertHandler.FetchFailureAnswered | backend/convert_currency/handler.py:63-64 | A failed fetch for a valid request is answered by the ladder. |
| ConvertHandler.QueryFailureStatus | backend/convert_currency/handler.py:101-106 | A timeout is answered 504 and an unreachable provider 502. An HTTP error status is passed on as the response status. |
| ConvertHandler.ProviderFailures | backend/convert_currency/handler.py:101-106 | The same, for a whole convert request that passed validation. |
| ConvertHandler.UnusableRateIsServerError | backend/convert_currency/handler.py:69-70 | A listed rate that is not a number, or a product that cannot be quantized (an infinity), is 500, never 200. |
| ConvertHandler.RecordMatchesResponse | backend/convert_currency/handler.py:84-93 | When one of the three numbers traps in boto3's context, the store raises the first such signal and writes nothing. Otherwise it returns `True` exactly when the call succeeds and DynamoDB takes every number. Then it writes, under the response's timestamp, an item with the response's codes, numbers and `last_updated`. |
| RatesHandler.BaseOf | backend/get_exchange_rates/handler.py:34-35 | A non-empty `base` parameter is the base. Otherwise the base is `USD`. |
| RatesHandler.RatesResponse | backend/get_exchange_rates/handler.py:32-59 | The answer is 200 exactly when the rates for the chosen base could be fetched, and a 200's base is a valid code. The rest is stated by `RatesOk`, `InvalidBaseIsBadRequest` and `ProviderRejection`. |
| RatesHandler.RatesOk | backend/get_exchange_rates/handler.py:37-46 | A 200 carries the fetch's snapshot, with the normalized base and the provider's table. |
| RatesHandler.DefaultBaseIsUsd | backend/get_exchange_rates/handler.py:34-35 | With no query string, no `base` or an empty one, `USD` is requested. |
| RatesHandler.BaseIsNormalized | backend/get_exchange_rates/handler.py:35-37 | A base in any case, padded with whitespace, is requested upper-cased. |
| RatesHandler.InvalidBaseIsBadRequest | backend/get_exchange_rates/handler.py:48-49 | An invalid base is 400 with the validation message, whatever the provider would say. |
| RatesHandler.ProviderRejection | backend/get_exchange_rates/handler.py:48-57 | A provider `unsupported-code` answer is 400 naming the base. Any other provider error tag is 502 with the tag. |
| HistoryHandler.AnyUnencodableIff | backend/get_history/handler.py:56-60 | `json.dumps` refuses the list exactly when it refuses one of its entries. |
| HistoryHandler.HistoryOutcome | backend/get_history/handler.py:50-64 | The answer is 200 exactly when the history is empty or every entry encodes. An empty history shows the fixed samples. Otherwise the entries are shown in order. `source` is `dynamodb` exactly when the store was read, even when the samples are shown. Otherwise the answer is 500 with the encoder's message, which is what the `except Exception` clause answers. |
| HistoryHandler.HistoryResponse | backend/get_history/handler.py:11-64 | A 200 always lists something: the two samples of `FALLBACK_HISTORY` (held in `Fallback`) replace an empty history. Its `source` is `dynamodb` exactly when the store was read. Any other answer is a 500. The rest is stated by `HistoryOutcome`. |
| HistoryHandler.GetHistory | backend/get_history/handler.py:50-60 | The handler reads the store with the default limit of 20 and answers as above. Without a readable store it shows the samples labelled `mock`. |
| HistoryHandler.EncodableHistoryListed | backend/get_history/handler.py:53-58 | A non-empty history of encodable entries is returned unchanged. |
| HistoryHandler.StoredHistoryNewestFirst | backend/get_history/handler.py:52-59 | From a store whose records all encode, the answer lists up to 20 stored records, newest first, labelled `dynamodb`. |
| HistoryHandler.NumericUpdateTimeBreaksHistory | backend/get_history/handler.py:56-64 | A newest record whose `last_updated` is a number comes back as a `Decimal`, which `json.dumps` refuses: every history read answers 500. |

## Left out

- The HTTP request and its timeout are replaced by a parameter. `requests.get`, `raise_for_status` and `response.json()` become one outcome: timed out, unreachable, or answered with a status, a reason and a decoded body or a decoding error.
- `EXCHANGE_API_BASE`, `EXCHANGE_API_TIMEOUT` and `_get_timeout` are not modelled. They are environment configuration; the base URL is the default one.
- Base64 and `json.loads` of the request body are abstracted to four outcomes: no body, a base64 body that does not decode (the `binascii.Error` or `UnicodeDecodeError`, a `ValueError` raised outside the `try` that rewords JSON errors, so 400 with its own text), not JSON, or a decoded value. The decoders' messages are a parameter.
- The current time is a parameter. Its ISO text is not modelled.
- JSON floats are exact reals. `NaN` and `Infinity` literals, which `json.loads` accepts, cannot be represented. In Python their `str` is `nan`/`inf`, three letters that `normalize_currency` would accept as `NAN`/`INF`.
- `str()` of a float, list or dict is a placeholder in angle brackets. Whether such a value is accepted as a code or an amount does not change. What differs is the text of messages that quote it: the "Invalid currency code" message, and the provider error "Exchange rate provider error: <tag>" when the provider's `error-type` is not a string.
- Decimal arithmetic is exact. The default 28-digit context precision is not modelled, and the sign of a zero is not kept. Its visible effects are lost with it. A long product is rounded to 28 digits, and the model keeps it exact. `quantize` raises `InvalidOperation` when the result needs more than 28 digits (an amount of `1e30`, say), which the handler answers with 500; the model answers 200. A JSON number beyond the float range (`1e400`) is `inf` after `json.loads`, so its `Decimal` is infinite and `quantize` fails with 500; the model reads it as an exact real and answers 200.
- `str.strip` uses Python's full whitespace set. `upper` and `isalpha` are modelled on the ASCII letters; Unicode case mappings and letters are not, so a code of three non-ASCII letters is rejected by the model and accepted by Python.
- `Decimal` accepts any Unicode decimal digit (`"١٠٠"` is 100). The model reads only ASCII digits, so such an amount is answered 400 by the model and 200 by the handler.
- The `float(...)` fields of the responses and `_to_float` are not modelled. The model keeps the exact `Decimal`s they are projections of.
- DynamoDB is a map keyed by the sort key. Resource construction, the local-development endpoint, `table.load()`, the `UpdateExpression` text, query paging and the item size limit are left out. Only each call's success or failure is kept.
- Storage.UpdateFields, Storage.ApplyWritesFields: they describe setting any allowed field. For `from`, `to` and `result` the real table never reaches that state. The update expression names each field raw (`from = :from`), DynamoDB reserves those three words, and so it refuses such an update and the function returns `False`. `HistoryStore.Update` states this refusal.
- Storage.FirstError: the serializer judges a number by its value, not by how it is written. A `Decimal` with trailing zeros beyond 38 digits (`1.000…0`) raises `Rounded` in boto3 but passes the model. A zero whose exponent lies outside the context is `Clamped` but passes. A value that rounds up to 10^127 raises `Overflow`, where the model says `Inexact`. Integers nested inside a list or a dict are not checked. The sign of a NaN is not kept, so the model raises `TypeError` for `-NaN`, which boto3 sends and DynamoDB refuses. The text of a trapped signal lists every signal raised with it; the model's text names only the class raised.
- Storage.HistoryStore.constructor: the table it starts from is assumed to hold only items this code writes, with numbers as `None` or `Decimal` and non-empty keys. Records written some other way (a string `amount`, which `_to_float` would read) are not modelled.
- Logging, and concurrent invocations sharing the memoized table, are not modelled. Logging has no observable effect, and one invocation runs at a time.
- The payload shaping of the rates response (the dict literal and `metadata`) is the snapshot itself. The dict keys are not modelled.
- The response headers are a constant pair on every response and are not modelled.
- The CRUD handlers the test script imports from the history handler module are not part of the shown source. `create_conversion`, `get_conversion_by_id_handler`, `update_conversion` and `delete_conversion` are not part of this model.
- The frontend, the local-development setup script and the test clients are not part of this model.
- Exchange.Query: its own contract states only that a snapshot carries the requested base. Its outcome for every kind of provider answer (timeout, unreachable, error status, a body that is not JSON, a decoded body) is stated by `FetchRequestsNormalizedUrl`, with `QueryFailureStatus` and `TooManyRequestsIsHttpError`.
- ConvertHandler.Convert, ConvertHandler.ConvertFields, ConvertHandler.ConvertAmount, ConvertHandler.Priced: their own contracts state only that the codes are carried through. Their full behaviour is stated by the lemmas about `ConvertResponse`.
- ConvertHandler.ProviderFailures: states the status of an HTTP error, not the message and detail, which `RatesLadderOutcome` gives.
