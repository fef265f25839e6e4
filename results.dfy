/** Failure-compatible wrappers shared by the proxy entry and the proxy pool. */
module Results {

  datatype Option<+T> = None | Some(value: T)

  /** The exceptions the modelled operations throw, one kind per message. */
  datatype Error =
    | InvalidProxy   // "Missing / invalid host, port, or protocol"
    | InvalidTarget  // "`target` must be either an ip or a domain"
    | InvalidDate    // "`date` must be a date"

  datatype Result<+T> = Ok(value: T) | Err(error: Error)
}
