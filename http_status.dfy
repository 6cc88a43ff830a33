/** The HTTP status codes the backend answers with and the frontend reads
    (section 15 of RFC 9110). */
module HttpStatus {
  const OK: nat := 200
  const CREATED: nat := 201
  const UNAUTHORIZED: nat := 401
  const FORBIDDEN: nat := 403
  const NOT_FOUND: nat := 404
  const CONFLICT: nat := 409
  const UNPROCESSABLE_ENTITY: nat := 422
  const INTERNAL_SERVER_ERROR: nat := 500
}
