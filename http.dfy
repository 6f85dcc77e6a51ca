/** What a backend route hands back: a status code with a body, or with an error message. */
module Http {
  import opened Wrappers

  /** A JSON response: `jsonify(body), status` or `jsonify({'message': m}), status`. */
  datatype Response<T> = Success(status: int, body: T) | Failure(status: int, message: string)

  /**
   * A route behind `@jwt_required`: the JWT library refuses the request before
   * the handler runs (its own status codes are not part of this model), or the
   * handler answers.
   */
  datatype Guarded<T> = Refused | Handled(response: Response<T>)

  /**
   * What a request sent from the browser resolves to: the response data, or
   * a rejection carrying the server's `message`, None when there was no
   * response or it had no message.
   */
  datatype Reply<T> = Ok(data: T) | Err(message: Option<string>)
}
