/**
 * The network service as the pages see it. Every endpoint is an abstract call:
 * the page issues a request (recorded in a log so that "no network call" can be
 * stated) and then either receives a reply or the call throws.
 */
module Api {
  import opened Wrappers

  /** The outcome of awaiting a call: the parsed reply, or an exception (fetch or JSON failure). */
  datatype Call<+T> = Returned(value: T) | Threw

  /**
   * The fields of a JSON reply that the pages read. A string field holds "" when
   * the reply does not carry it, so "" is exactly JavaScript's falsy case.
   * `role` keeps the difference between a missing role and a present one,
   * because `localStorage.setItem` stores a missing role as "undefined".
   * `httpStatus` is the `_status` field added by `login` (0 for other endpoints).
   */
  datatype Reply = Reply(
    status: string,
    httpStatus: int,
    error: string,
    token: string,
    role: Option<string>,
    userId: string,
    message: string)

  /** A request the pages send; a `None` face image is the JSON `null` of `login(email, password, null)`. */
  datatype Request =
    | LoginRequest(email: string, password: string, face: Option<string>)
    | SendOtpRequest(userId: string, email: string)
    | VerifyOtpRequest(userId: string, otp: string)
    | SignupRequest(name: string, email: string, password: string, image: string)
}
