/**
 * The Python exceptions that the modelled code raises on bad input; a
 * function that can raise returns `Failure` with one of these.
 */
module Errors {
  datatype Error =
    | StructError         // `struct.error`: a value does not fit its field, or an unpack gets the wrong byte count
    | ValueError          // a bad length field, an unknown enum value, a missing required file
    | IncompleteRead      // `asyncio.IncompleteReadError`: the stream ended early
    | UnicodeDecodeError  // bytes that are not valid in the codec
    | UnicodeEncodeError  // characters the codec cannot represent
    | IndexError          // a list index past the end of a row
    | KeyError            // a required key missing from a JSON object
    | TypeError           // a JSON value of the wrong kind, indexed or iterated
    | AttributeError      // `.get` on a JSON value that is not an object
    | OSError             // a file-system call refused: a directory opened as a file, a file where a directory must be
}
