/** Option, the Python exceptions the modelled code raises or catches, and Result. */
module Wrappers {

  datatype Option<T> = None | Some(value: T)

  /** The exceptions that reach a caller of the modelled functions. */
  datatype PyError =
    | TypeError(message: string)
    | AttributeError(message: string)
    | KeyError(key: string)
    | ValueError(message: string)
    | IndexError
    /** An exception raised inside a foreign library (OCR, PDF, DOCX), with its message. */
    | LibraryError(message: string)

  datatype Result<T> = Ok(value: T) | Err(error: PyError)

  /** `str(e)` for the exceptions above: a KeyError shows its key in quotes. */
  function Describe(e: PyError): (s: string)
    ensures e.KeyError? ==> s == "'" + e.key + "'"
  {
    match e
    case TypeError(m) => m
    case AttributeError(m) => m
    case KeyError(k) => "'" + k + "'"
    case ValueError(m) => m
    case IndexError => "list index out of range"
    case LibraryError(m) => m
  }
}
