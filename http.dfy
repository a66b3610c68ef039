/** The HTTP vocabulary of the route handlers and middlewares (`HttpCode` in constants.js). */
module Http {

  const OK: int := 200
  const CREATED: int := 201
  const BAD_REQUEST: int := 400
  const FORBIDDEN: int := 403
  const NOT_FOUND: int := 404

  /** What `res.send(text)` or `res.json(value)` puts in the body. */
  datatype Body<T> = Text(text: string) | Json(value: T)

  datatype Response<T> = Response(status: int, body: Body<T>)

  /**
   * What a middleware does with a request: answer it, hand it on with `next()`,
   * or throw (Express then answers from its error handler).
   */
  datatype Outcome<T> = Reply(response: Response<T>) | Next | Throws

  /** A page of the server-rendered site: a redirect or a template rendered with its data. */
  datatype Page<V> = Redirect(location: string) | Render(template: string, view: V)
}
