/** The errors the modelled code throws. */
module Errors {

  /** `BadRequestError` and `NotFoundError` are the application's own error
      classes; `ReferenceError` is what the JavaScript engine throws when code
      reads a binding that was never declared. Each carries its message. */
  datatype Error =
    | BadRequestError(message: string)
    | NotFoundError(message: string)
    | ReferenceError(message: string)
}
