/** Types shared by the request handlers: optional values, the status-code
    taxonomy carried by acknowledgements, and the client connection that the
    session registry hands to a handler. */
module Protocol {

  datatype Option<+T> = None | Some(value: T)

  /** Status codes of the broker's code enumeration that the handlers use.
      Each constructor denotes one distinct code; OtherCode stands for any
      code the handlers do not name (one carried by an exception raised by a
      collaborator, say). */
  datatype Code =
    | Success
    | FwConnectionNotExists
    | FwCoordinatorNotAvailable
    | CnNoPermission
    | CnUnknownError
    | CnTransactionNotExists
    | OtherCode(value: int)

  /** A client connection as the session registry records it: its id, the
      region it connects from and the apps it is authorised for. */
  datatype Connection = Connection(id: string, region: string, authorizedApps: set<string>)
  {
    predicate IsAuthorized(app: string) {
      app in authorizedApps
    }
  }

  /** The guard every handler runs first: a connection exists for the
      transport and it is authorised for the request's app. */
  predicate Admits(conn: Option<Connection>, app: string)
    ensures Admits(conn, app) ==> conn.Some? && app in conn.value.authorizedApps
    ensures conn.None? ==> !Admits(conn, app)
  {
    conn.Some? && conn.value.IsAuthorized(app)
  }
}
