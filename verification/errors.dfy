/** Every way an operation of the client can fail. Go reports these as
    error values or as run-time panics; here each is an explicit case. */
module Errors {

  datatype Error =
    /** net.Dial could not open the connection. */
    | DialFailed
    /** Writing the command line to the connection failed. */
    | WriteFailed
    /** The connection ended before a line feed arrived. */
    | ReadFailed
    /** The line read is shorter than the two terminator bytes that are
        cut off it (a slice-bounds panic in Go). */
    | ShortLine(line: string)
    /** The reply has no field `index`; it has only `length` fields (an
        index-out-of-range panic in Go). */
    | FieldMissing(index: nat, length: nat)
    /** Field `index` of the reply, `text`, is not a number. */
    | NotANumber(index: nat, text: string)
    /** The identified instrument is not the expected model. */
    | WrongModel(found: string)
    /** A channel value outside the enumeration (a panic in Go). */
    | InvalidChannel(code: int)
}
