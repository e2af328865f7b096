/** The exceptions the core raises. */
module Errors {

  datatype Error =
    /** DcGeneralInvalidArgumentException */
    | InvalidArgument(message: string)
    /** DcGeneralRuntimeException */
    | Runtime(message: string)
    /** A PHP fatal error, such as a method called on null. */
    | Fatal(message: string)
}
