/** The failure vocabulary of the codec.

    `Error` lists the library's own exception classes together with the
    Ruby built-in errors its arithmetic can run into; `Result` stands for
    "returns a value or raises", and `Option` for "a value or nil".
 */
module Errors {

  datatype Error =
    | BarcodeError             // a Prefix or Checksum built from neither form
    | InvalidBarcode           // text that does not have the expected layout
    | ChecksumRequired         // declared; raised only by code outside this model
    | InvalidBarcodeOperation  // declared; raised only by code outside this model
    | ArgumentError            // a number too long to encode; comparing a Checksum with a non-Checksum
    | RangeError               // Integer#chr on a value outside 0..255
    | NoMethodError            // arithmetic or a method call on nil

  datatype Option<+T> = None | Some(value: T)

  /** A value, or the error the Ruby code raises instead. Usable with `:-`. */
  datatype Result<+T> = Ok(value: T) | Err(error: Error) {

    predicate IsFailure() {
      Err?
    }

    function PropagateFailure<U>(): Result<U>
      requires Err?
    {
      Err(error)
    }

    function Extract(): T
      requires Ok?
    {
      value
    }
  }
}
