/** Failures of the image generator: one constructor per place where the
    Python code raises, and the Python exception class each one surfaces as. */
module Failures {

  /** The Python exception classes the generator lets escape. */
  datatype ExceptionKind = TypeError | ValueError | NameError | IOError | AttributeError | NotModelled

  datatype Failure =
    | ColorDictNotMapping          // the palette has no `keys`
    | LayerNotMapping              // a layer definition has no `keys`
    | LayerNotSinglePair           // a layer definition does not hold exactly one pair
    | MissingColor(name: string)   // a colour variable other than "transparent" is not in the palette
    | InvalidHexLiteral            // `int(..., base=16)` rejects a hex pair
    | UnknownColorFormat           // no branch of the colour resolver applies
    | NamedColorUndefined          // the named-colour branch calls an undefined name
    | RgbNotationNotModelled       // the `rgb(...)` branch, which this model does not interpret
    | ImageNotFound(name: string)  // opening a layer's image file fails
    | NotRgba                      // an alpha pass is applied to an image whose mode is not RGBA
    | CompositeWithoutCanvas       // an untinted layer with alpha is composited onto no canvas
    | NoCanvas                     // the layer list was empty, so the canvas is still None

  function Kind(f: Failure): ExceptionKind
  {
    match f
    case ColorDictNotMapping => TypeError
    case LayerNotMapping => TypeError
    case LayerNotSinglePair => ValueError
    case MissingColor(_) => ValueError
    case InvalidHexLiteral => ValueError
    case UnknownColorFormat => ValueError
    case NamedColorUndefined => NameError
    case RgbNotationNotModelled => NotModelled
    case ImageNotFound(_) => IOError
    case NotRgba => ValueError
    case CompositeWithoutCanvas => AttributeError
    case NoCanvas => AttributeError
  }

  /** An optional value, standing for Python's `None`. */
  datatype Option<+T> = None | Some(value: T)

  /** A value, or the failure that aborted the computation; usable with `:-`. */
  datatype Result<+T> = Ok(value: T) | Err(error: Failure) {

    predicate IsFailure() {
      Err?
    }

    function PropagateFailure<U>(): Result<U>
      requires Err?
    {
      Err(error)
    }

    function Extract(): T
      requires Ok?
    {
      value
    }
  }
}
