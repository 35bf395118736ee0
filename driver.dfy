/**
 * The database driver (PDO) seen as an oracle: each call the layer makes is
 * answered by an outcome that the caller of the model chooses.
 */
module Driver {

  /** An opaque native connection; two connections are the same iff their ids are. */
  datatype Connection = Connection(id: nat)

  /** One result row: column name to value. */
  type Row = map<string, string>

  /**
   * What opening a connection does: the connect itself raises, or it succeeds
   * and then configuring the session (error mode, character set) raises, or
   * all of it succeeds.
   */
  datatype ConnectOutcome =
    | Connected(conn: Connection)
    | ConnectRaised(message: string)
    | SetupRaised(conn: Connection, message: string)

  /** What one other driver call does: it returns a value or raises with a message. */
  datatype Reply<T> = Returned(value: T) | Raised(message: string)
}
