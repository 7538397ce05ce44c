/** Small wrappers shared by every module of the model. */
module Common {

  /** A nullable value: a SQL NULL column, a Python None, an absent optional argument. */
  datatype Option<+T> = None | Some(value: T)

  /**
   * The outcome of a request handler: a value, or the HTTP error the handler raises
   * (400 Bad Request as InvalidArgument, 404 Not Found as NotFound), with the
   * detail text the handler attaches.
   */
  datatype Outcome<+T> =
    | Ok(value: T)
    | InvalidArgument(detail: string)
    | NotFound(detail: string)
}
