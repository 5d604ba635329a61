/** What a route handler sends back: a status code with a JSON value, or with an error message. */
module Http {

  datatype Reply<T> = Success(status: int, value: T) | Failure(status: int, message: string)
}
