/**
 * The session gate every handler applies before touching a table, and the
 * outcomes a handler reports (the flashed message and redirect it ends with).
 */
module Access {
  import opened Common

  /** The session `role`: `'admin'`, `'user'`, or anything else (including no role). */
  datatype Role = Admin | User | Other

  /** How a POST request ends. */
  datatype Outcome =
    | Done            // the change was committed
    | AccessDenied    // the role may not use the handler at all
    | NotFound        // the addressed row does not exist (or has another type)
    | ForeignStation  // a user addressed a station other than their own
    | MissingField    // a required form field is empty
    | Failed          // the handler raised before committing

  /** `role in ['user', 'admin']`. */
  predicate Authorized(role: Role) {
    role.Admin? || role.User?
  }

  /**
   * The station check of the user handlers: an admin may act on any
   * station, a user only on the one stored in their session. The two
   * station values are compared as they are, so a user whose session holds
   * no station matches exactly the rows whose station is NULL.
   */
  predicate Permits(role: Role, sessionStation: Option<int>, station: Option<int>) {
    role.Admin? || (role.User? && station == sessionStation)
  }
}
