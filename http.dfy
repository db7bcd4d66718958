/** The JSON replies the Express handlers send: an HTTP status code and a body. */
module Http {
  import opened Wrappers

  /** The `status` word of the envelope: "success", "fail" (the client can correct the
      request) or "error" (a fault on the server side). */
  datatype Tag = Success | Fail | Error

  datatype Body<T> =
    | Envelope(status: Tag, message: Option<string>, data: Option<T>, error: Option<string>)
      /** `{ status, message, user }`: the update replies of the user handlers name the
          document `user`, not `data` */
    | UserEnvelope(status: Tag, message: Option<string>, user: T)
      /** `{ error: error.message }`, the body the user handlers send on a fault */
    | Bare(fault: string)

  datatype Reply<T> = Reply(code: int, body: Body<T>)

  /** A success envelope carrying data. */
  function Succeeded<T>(code: int, message: string, data: T): Reply<T> {
    Reply(code, Envelope(Success, Some(message), Some(data), None))
  }

  /** A success envelope with a message only. */
  function Done<T>(code: int, message: string): Reply<T> {
    Reply(code, Envelope(Success, Some(message), None, None))
  }

  /** A "fail" envelope: the request was refused. */
  function Refused<T>(code: int, message: string): Reply<T> {
    Reply(code, Envelope(Fail, Some(message), None, None))
  }

  /** An "error" envelope with a message only. */
  function Faulted<T>(code: int, message: string): Reply<T> {
    Reply(code, Envelope(Error, Some(message), None, None))
  }
}
