/** Shared vocabulary of the Express backend: optional values, the errors a
    handler passes to `next`, the two outcomes of a middleware, and the two
    ways a controller finishes (a JSON response, or an error forwarded to
    the error handler). */
module Common {

  datatype Option<+T> = None | Some(value: T)

  /** An error handed to `next(err)`.  `AppError` is the application's own
      operational error class (message and HTTP status code); `Thrown` is any
      other exception the handler catches and forwards unchanged (a failed
      token verification, a Prisma "record not found", a JavaScript
      TypeError), named by its kind. */
  datatype Error =
    | AppError(message: string, statusCode: nat)
    | Thrown(kind: string)

  /** What a middleware does: call `next()` or call `next(error)`. */
  datatype Outcome = Continue | Fail(error: Error)

  /** What a controller does: `res.status(code).json(body)`, or `next(err)`. */
  datatype Response<+T> = Respond(statusCode: nat, body: T) | Forward(error: Error)

  /** The exception kind of `undefined.map(...)` and similar calls. */
  const TypeError := Thrown("TypeError")
  /** The exception kind Prisma raises when `update`/`delete` finds no row. */
  const RecordNotFound := Thrown("PrismaClientKnownRequestError P2025")
  /** The exception kind Prisma raises when a nested write has the wrong shape. */
  const PrismaValidation := Thrown("PrismaClientValidationError")
}
