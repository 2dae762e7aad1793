/** The HTTP status codes and the JSON envelope of the API. */
module Http {
  import opened Wrappers

  const Ok: int := 200
  const Created: int := 201
  const BadRequest: int := 400
  const Unauthorized: int := 401
  const Forbidden: int := 403
  const NotFound: int := 404
  const Conflict: int := 409
  const UnprocessableEntity: int := 422
  const InternalServerError: int := 500

  /** A field-level error: `['field' => ..., 'message' => ...]`. */
  datatype Violation = Violation(field: string, message: string)

  /** `{success, message?, data?, errors?, count?}` with its status code. */
  datatype Response<T> = Response(
    status: int,
    success: bool,
    message: Option<string>,
    data: Option<T>,
    errors: seq<Violation>,
    count: Option<nat>)

  /** `['success' => false, 'message' => $message]` with the given status. */
  function Refusal<T>(status: int, message: string): Response<T> {
    Response(status, false, Some(message), None, [], None)
  }
}
