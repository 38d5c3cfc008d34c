/**
 * The remote endpoint as the pages see it: the requests they send and the
 * envelope `{status, message, data}` that comes back, or the error the call
 * throws (missing endpoint URL, HTTP failure, transport failure).
 */
module Backend {
  import opened Wrappers

  /** One call of the API service, with its arguments. */
  datatype Request =
    | IssueOrder(orderId: string)
    | QcRecord(orderId: string)
    | StartWork(orderId: string)
      /** `quantity` is `parseInt` of the input; `None` (NaN) travels as JSON `null`. */
    | FinishWork(orderId: string, quantity: Option<int>)
    | QueryOrders

  /** What an awaited call produces: the decoded envelope, or a thrown error's message. */
  datatype Reply<D> =
    | Envelope(status: string, message: string, data: D)
    | Thrown(error: string)
  {
    /** `result.status === 'success'`. */
    predicate Succeeded() {
      Envelope? && status == "success"
    }
  }

  /** The type of the status banner: none, success or error. */
  datatype StatusKind = NoStatus | SuccessStatus | ErrorStatus

  /** The banner state `{type, message}`. */
  datatype Status = Status(kind: StatusKind, message: string)

  /** `{ type: '', message: '' }`: no banner. */
  const Cleared := Status(NoStatus, "")

  /**
   * The banner after an awaited mutation: success with the envelope's message,
   * error with the envelope's message, or error with the thrown error's message.
   */
  function StatusAfter<D>(reply: Reply<D>): (st: Status)
    ensures st.kind == SuccessStatus <==> reply.Succeeded()
    ensures st.kind != NoStatus
    ensures st.message == (if reply.Thrown? then reply.error else reply.message)
  {
    match reply
    case Envelope(status, message, _) =>
      if status == "success" then Status(SuccessStatus, message) else Status(ErrorStatus, message)
    case Thrown(error) => Status(ErrorStatus, error)
  }
}
