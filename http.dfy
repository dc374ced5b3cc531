/**
 * What an Express handler or middleware does with a request, reduced to
 * the parts the handlers here decide: pass it on, answer with a JSON error,
 * render a view, or redirect.
 */
module Http {
  import opened Common

  datatype Response =
    /** The middleware called `next()`. */
    | Next
    /** `res.status(status).json({ error })`. */
    | JsonError(status: nat, error: string)
    /** `res.status(status).render(view, { title, error: message })`. */
    | Render(status: nat, view: string, title: string, message: Option<string>)
    /** `res.redirect(location)` (302). */
    | Redirect(location: string)

  const StatusOk: nat := 200
  const Found: nat := 302
  const BadRequest: nat := 400
  const Unauthorized: nat := 401
  const TooManyRequests: nat := 429
  const InternalServerError: nat := 500
}
