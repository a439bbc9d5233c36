/** The exceptions the client raises, as values, and the fixed messages its
    validators use. A Python `raise` becomes an `Err`/`Fail` result. */
module Errors {

  datatype Error =
    /** `ValueError` raised by the client itself with a fixed message */
    | ValueError(message: string)
    /** `ValueError` raised by `int()` or `datetime()` on a malformed field;
        its wording comes from the library and is not modelled */
    | LibraryValueError
    /** `[0]` applied to an empty list or numpy selection */
    | IndexError
    /** a dictionary lookup of a missing key */
    | KeyError(key: string)
    /** a local variable read before any branch assigned it */
    | UnboundLocalError(name: string)
    /** `int()` of a numpy array that does not hold exactly one index, or
        slicing the NaN that pandas returns as the minimum of an empty column */
    | TypeError
    /** `%` by an interval of zero */
    | ZeroDivisionError
    /** `raise_for_status()` on the response for a media URL */
    | HttpError(url: string)
    /** a UTC instant outside the years 1 to 9999 after the zone conversion */
    | OverflowError

  datatype Option<T> = None | Some(value: T)

  datatype Result<T> = Ok(value: T) | Err(error: Error)

  /** A check that either passes or raises. */
  datatype Outcome = Pass | Fail(error: Error)

  const TokenMessage := "API access token is not valid."
  const CameraMessage := "Camera is not an available WebCOOS camera."
  const ProductMessage := "Requested product is not available at this camera."
  const RangeMessage :=
    "At least one requested date bound is outside the range of available data for this product at this camera."
  const NoStateMessage := "Camera name does not contain state abbreviation"

  /** The format message names which bound was malformed ("start" or "stop"). */
  function FormatMessage(dateName: string): string
  {
    "Requested " + dateName + " date is of improper format. Format should be yyyymmddHHMM."
  }
}
