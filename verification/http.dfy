/** Status codes and response messages the group handlers answer with. */
module Http {

  const StatusOK := 200
  const StatusCreated := 201
  const StatusBadRequest := 400
  const StatusUnauthorized := 401
  const StatusNotFound := 404
  const StatusMethodNotAllowed := 405
  const StatusInternalServerError := 500

  /** The fixed messages of the server's `serverResponse` bodies. */
  datatype Message =
    | MethodNotAllowed
    | AuthenticationRequired
    | ResourceNotFound
    | UnhandledError
    | ResourceInvalid
}
