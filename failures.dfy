/** The Python exception classes that reach the handlers' `except` clauses,
    with their inheritance, and `isinstance`. */
module Failures {

  datatype ExcClass =
    | Exception
    | ValueError
    | TypeError
    | AttributeError
    | ArithmeticError
    | DecimalException      // decimal.DecimalException
    | InvalidOperation      // decimal.InvalidOperation, raised by `Decimal(text)` for text that is not a number
    | Inexact               // decimal.Inexact
    | Rounded               // decimal.Rounded
    | Subnormal             // decimal.Subnormal
    | Overflow              // decimal.Overflow: an Inexact and a Rounded
    | Underflow             // decimal.Underflow: an Inexact, a Rounded and a Subnormal
    | RuntimeError
    | ExchangeRateProviderError
    | OSError
    | RequestException      // requests.RequestException
    | HTTPError             // requests.HTTPError
    | RequestsConnectionError
    | Timeout               // requests.Timeout
    | ConnectTimeout        // a requests.ConnectionError and a requests.Timeout
    | ReadTimeout
    | InvalidJSONError
    | RequestsJSONDecodeError // requests.JSONDecodeError: also json.JSONDecodeError, a ValueError

  /** Every class `c` is a subclass of, itself included (its MRO as a set). */
  function Ancestors(c: ExcClass): (a: set<ExcClass>)
    ensures c in a && Exception in a
  {
    match c
    case Exception => {Exception}
    case ValueError => {ValueError, Exception}
    case TypeError => {TypeError, Exception}
    case AttributeError => {AttributeError, Exception}
    case ArithmeticError => {ArithmeticError, Exception}
    case DecimalException => {DecimalException, ArithmeticError, Exception}
    case InvalidOperation => {InvalidOperation, DecimalException, ArithmeticError, Exception}
    case Inexact => {Inexact, DecimalException, ArithmeticError, Exception}
    case Rounded => {Rounded, DecimalException, ArithmeticError, Exception}
    case Subnormal => {Subnormal, DecimalException, ArithmeticError, Exception}
    case Overflow => {Overflow, Inexact, Rounded, DecimalException, ArithmeticError, Exception}
    case Underflow => {Underflow, Inexact, Rounded, Subnormal, DecimalException, ArithmeticError, Exception}
    case RuntimeError => {RuntimeError, Exception}
    case ExchangeRateProviderError => {ExchangeRateProviderError, RuntimeError, Exception}
    case OSError => {OSError, Exception}
    case RequestException => {RequestException, OSError, Exception}
    case HTTPError => {HTTPError, RequestException, OSError, Exception}
    case RequestsConnectionError => {RequestsConnectionError, RequestException, OSError, Exception}
    case Timeout => {Timeout, RequestException, OSError, Exception}
    case ConnectTimeout =>
      {ConnectTimeout, RequestsConnectionError, Timeout, RequestException, OSError, Exception}
    case ReadTimeout => {ReadTimeout, Timeout, RequestException, OSError, Exception}
    case InvalidJSONError => {InvalidJSONError, RequestException, OSError, Exception}
    case RequestsJSONDecodeError =>
      {RequestsJSONDecodeError, InvalidJSONError, RequestException, OSError, ValueError, Exception}
  }

  /** The classes raised without an HTTP response attached. */
  type PlainClass = c: ExcClass | c != HTTPError witness Exception

  /** A raised exception. An `HTTPError` comes from `raise_for_status` and
      carries the status code of the response that caused it. */
  datatype Exc =
    | Raised(cls: PlainClass, message: string)
    | HttpFailure(status: int, message: string)
  {
    function Class(): ExcClass {
      if HttpFailure? then HTTPError else cls
    }

    /** `str(exc)`. */
    function Text(): string {
      message
    }
  }

  /** What `Decimal(text)` raises for a text that is not a number: an
      `InvalidOperation` whose text names the `ConversionSyntax` condition. */
  const DecimalSyntaxError := Raised(InvalidOperation, "[<class 'decimal.ConversionSyntax'>]")

  /** What a trapped `InvalidOperation` in decimal arithmetic raises. */
  const DecimalInvalidOperation := Raised(InvalidOperation, "[<class 'decimal.InvalidOperation'>]")

  /** The trapped signals a decimal context raises when a number does not
      fit it; the text names the class raised. */
  const OverflowSignal := Raised(Overflow, "[<class 'decimal.Overflow'>]")
  const UnderflowSignal := Raised(Underflow, "[<class 'decimal.Underflow'>]")
  const InexactSignal := Raised(Inexact, "[<class 'decimal.Inexact'>]")
  const RoundedSignal := Raised(Rounded, "[<class 'decimal.Rounded'>]")

  /** `isinstance(e, c)`. */
  predicate IsInstance(e: Exc, c: ExcClass) {
    c in Ancestors(e.Class())
  }

  /** `issubclass` is transitive: the ancestors of an ancestor are ancestors. */
  lemma AncestorsClosed(c: ExcClass, d: ExcClass)
    requires d in Ancestors(c)
    ensures Ancestors(d) <= Ancestors(c)
  {
    match d
    case Exception =>
    case ValueError =>
    case TypeError =>
    case AttributeError =>
    case ArithmeticError =>
    case DecimalException =>
    case InvalidOperation =>
    case Inexact =>
    case Rounded =>
    case Subnormal =>
    case Overflow =>
    case Underflow =>
    case RuntimeError =>
    case ExchangeRateProviderError =>
    case OSError =>
    case RequestException =>
    case HTTPError =>
    case RequestsConnectionError =>
    case Timeout =>
    case ConnectTimeout =>
    case ReadTimeout =>
    case InvalidJSONError =>
    case RequestsJSONDecodeError =>
  }
}
