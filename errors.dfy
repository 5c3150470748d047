/** The errors the backend throws, kept as distinct as the code keeps them,
    and the HTTP status the handlers turn each one into. */
module Errors {

  /** `NotFoundError` is the only dedicated error class the core throws;
      blank fields, oversized fields and refused transitions are all plain
      `Error`s; a put whose `attribute_not_exists(id)` condition fails is
      the store client's `ConditionalCheckFailedException`. The
      `ValidationError` class exists but nothing in the core constructs one,
      so it has no variant here. */
  datatype Error =
    | NotFoundError(message: string)
    | PlainError(message: string)
    | ConditionalCheckFailed

  /** The `name` property the handlers test. */
  function NameOf(e: Error): string
  {
    match e
    case NotFoundError(_) => "NotFoundError"
    case PlainError(_) => "Error"
    case ConditionalCheckFailed => "ConditionalCheckFailedException"
  }

  /** Status code chosen by the update-status handler's catch block:
      `instanceof NotFoundError` gives 404, `name === 'ValidationError'`
      gives 400, anything else 500. */
  function UpdateHandlerStatus(e: Error): (code: int)
    ensures code == (if e.NotFoundError? then 404 else 500)
  {
    if e.NotFoundError? then 404
    else if NameOf(e) == "ValidationError" then 400
    else 500
  }

  /** Status code chosen by the create handler's catch block: only
      `name === 'ValidationError'` gives 400, anything else 500. */
  function CreateHandlerStatus(e: Error): (code: int)
    ensures code == 500
  {
    if NameOf(e) == "ValidationError" then 400 else 500
  }
}
