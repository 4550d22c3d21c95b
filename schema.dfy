/**
 * The records that travel between the booking service, its database and the
 * browser client: the ORM rows of backend/models.py and the request and
 * response bodies of backend/schemas.py.
 *
 * Ids are integers on both sides: the service issues integer keys and the
 * client only ever compares the values it received. Timestamps are whole
 * minutes since 1970-01-01T00:00 in local time; parsing and formatting them
 * is not part of this model.
 */
module Schema {
  import opened Wrappers

  /** Minutes since 1970-01-01T00:00, local time. */
  type Timestamp = int

  /** A row of the `users` table. */
  datatype UserRow = UserRow(id: int, email: string, hashedPassword: string, name: string, preferences: Option<string>)

  /** `schemas.User`, the user the service returns: no password hash; preferences as one comma-joined string. */
  datatype User = User(id: int, email: string, name: string, preferences: Option<string>)

  /**
   * A row of the `timeslots` table, which is also the body `schemas.TimeSlot`
   * the service returns and the record the client keeps. `user_id` is the
   * wire name of the owner: `None` is an unbooked slot.
   */
  datatype TimeSlot = TimeSlot(id: int, category: string, start: Timestamp, end: Timestamp, user_id: Option<int>)

  /** `schemas.UserCreate`: the registration form. */
  datatype UserCreate = UserCreate(email: string, name: string, password: string)

  /** `schemas.UserLogin`: the login form. */
  datatype UserLogin = UserLogin(email: string, password: string)

  /** `schemas.Token`: the login response. */
  datatype Token = Token(access_token: string, token_type: string)

  /** `schemas.TimeSlotCreate`: a new slot as the client posts it, owner under the name `userId`. */
  datatype TimeSlotCreate = TimeSlotCreate(id: int, category: string, start: Timestamp, end: Timestamp, userId: Option<int>)

  /** `schemas.TimeSlotUpdate`: the only three fields an edit may write. */
  datatype TimeSlotUpdate = TimeSlotUpdate(category: string, start: Timestamp, end: Timestamp)

  /** The response body for a stored user: every column except the password hash. */
  function ToWire(row: UserRow): User
  {
    User(row.id, row.email, row.name, row.preferences)
  }
}
