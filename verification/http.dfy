/** Error responses the server raises. */
module Http {

  /** An `HTTPException` (or an unhandled exception turned into a 500): status and detail. */
  datatype HttpError = HttpError(status: int, detail: string)

  const ServerError := HttpError(500, "Internal Server Error")
  const ValidationFailed := HttpError(422, "query must not be empty")
  const UsernameExists := HttpError(400, "Username already exists")
  const MissingCredentials := HttpError(422, "username and password are required")
  const BadLogin := HttpError(400, "Incorrect username or password")
  const InvalidCredentials := HttpError(401, "Invalid credentials")
}
