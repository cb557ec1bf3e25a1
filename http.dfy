/**
 * The request/response vocabulary of the proxy routes and the checkout dialog. A
 * `fetch` is never performed: its outcome is supplied by the caller as a `Reply`.
 */
module Http {
  import opened Wrappers
  import opened Json

  /**
   * The outcome of one `fetch`: either it threw (with the error's text), or the server
   * answered with a status, the body text, and that text read as JSON (`None` when it
   * is not JSON).
   */
  datatype Reply = Thrown(error: string) | Answer(status: int, text: string, json: Option<Json>)

  /** `res.ok` */
  predicate Ok(status: int) { 200 <= status <= 299 }

  /**
   * Whether a response with a body can be built with this status: the `Response`
   * constructor of the Fetch standard throws for a status outside 200 to 599 and for the
   * null-body statuses 204, 205 and 304 when it is given a body.
   */
  predicate BodyAllowed(status: int) { 200 <= status <= 599 && status != 204 && status != 205 && status != 304 }

  /**
   * A response body: JSON, raw text, or `{error: String(e)}` for an exception raised
   * inside the handler whose text the model does not fix (a member read on `null`, a
   * `.map` on something that is not an array).
   */
  datatype Body = JsonBody(json: Json) | TextBody(text: string) | ExceptionBody

  datatype Response = Response(status: int, body: Body)

  /** `NextResponse.json({ error: message }, { status })` */
  function ErrorResponse(status: int, message: string): Response {
    Response(status, JsonBody(JObj(map["error" := JStr(message)])))
  }

  /** The request body as the handler reads it with `req.json()`. */
  datatype RequestBody = Unparseable(error: string) | Parsed(json: Json)
}
