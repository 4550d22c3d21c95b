/**
 * The HTTP routes of the booking service (backend/main.py): each one is a
 * guard followed by one call into the data layer.
 *
 * The caller's identity comes from a dependency whose code is not part of
 * this model; a route receives it as `caller`, where `None` stands for a
 * request the dependency rejected. The route then does nothing at all.
 * Password checking and token minting are parameters as well.
 */
module Routes {
  import opened Wrappers
  import opened Schema
  import opened Crud

  /** Why a request failed. */
  datatype RouteError =
    | HttpError(status: int, detail: string)  // an HTTPException the route raises
    | NotAuthenticated                        // the authentication dependency refused the caller
    | InternalError                           // the data layer failed or returned no row where the response model demands one

  /** A route's answer: the response body, or the error. */
  datatype Reply<T> = Ok(body: T) | Fail(error: RouteError)

  const EmailTaken := HttpError(400, "Email already registered")
  const BadCredentials := HttpError(400, "Incorrect email or password")
  const NotYourPreferences := HttpError(403, "Not authorized to update other user's preferences")

  /** A database answer against a route that declares a response model: a missing row cannot be serialised. */
  function Respond<T>(row: Option<T>): (r: Reply<T>)
    ensures r.Ok? <==> row.Some?
    ensures row.Some? ==> r.body == row.value
    ensures row.None? ==> r.error == InternalError
  {
    match row
    case None => Fail(InternalError)
    case Some(v) => Ok(v)
  }

  /** `POST /register`: a second account for an email is refused with 400; otherwise the new user comes back without its hash. */
  method RegisterUser(db: Database, user: UserCreate, hash: string -> string) returns (r: Reply<User>)
    requires db.Valid()
    modifies db
    ensures db.Valid() && db.slots == old(db.slots)
    ensures old(db.GetUserByEmail(user.email)).Some? ==> r == Fail(EmailTaken) && db.users == old(db.users)
    ensures old(db.GetUserByEmail(user.email)).None? ==>
      var row := NewUser(old(db.users), user, hash);
      r == Ok(ToWire(row)) && db.users == old(db.users) + [row]
  {
    if db.GetUserByEmail(user.email).Some? {
      return Fail(EmailTaken);
    }
    var created := db.CreateUser(user, hash);
    r := Ok(ToWire(created.value));
  }

  /**
   * `POST /token`: a failed credential check is refused with 400; otherwise
   * the token carries the user's email as its subject. `mint` stands for
   * `create_access_token`.
   */
  function LoginForAccessToken(db: Database, form: UserLogin, verify: (string, string) -> bool, mint: string -> string): (r: Reply<Token>)
    reads db
    ensures r.Fail? <==> db.AuthenticateUser(form.email, form.password, verify).None?
    ensures r.Fail? ==> r.error == BadCredentials
    ensures r.Ok? ==> r.body == Token(mint(form.email), "bearer")
  {
    match db.AuthenticateUser(form.email, form.password, verify)
    case None => Fail(BadCredentials)
    case Some(user) => Ok(Token(mint(user.email), "bearer"))
  }

  /** `GET /users`: open to everyone; the users of the page, without hashes. */
  function ReadUsers(db: Database, skip: int, limit: int): (r: seq<User>)
    reads db
    ensures |r| == |db.GetUsers(skip, limit)|
    ensures forall k :: 0 <= k < |r| ==> r[k] == ToWire(db.GetUsers(skip, limit)[k])
  {
    ToWires(db.GetUsers(skip, limit))
  }

  function ToWires(rows: seq<UserRow>): (r: seq<User>)
    ensures |r| == |rows|
    ensures forall k :: 0 <= k < |r| ==> r[k] == ToWire(rows[k])
  {
    if rows == [] then [] else [ToWire(rows[0])] + ToWires(rows[1..])
  }

  /** `GET /timeslots`: open to everyone. */
  function ReadTimeslots(db: Database, skip: int, limit: int): (r: seq<TimeSlot>)
    reads db
    ensures IsPage(db.slots, skip, limit, r)
  {
    db.GetTimeslots(skip, limit)
  }

  // ---------------------------------------------------------------------
  // `POST /timeslots`: the request body as a dictionary
  // ---------------------------------------------------------------------

  /** A value in the dictionary `timeslot.dict()`. */
  datatype Value = IntValue(i: int) | TextValue(s: string) | TimeValue(t: Timestamp) | OwnerValue(o: Option<int>)

  /** `timeslot.dict()`: one key per field of the request body. */
  function AsDict(t: TimeSlotCreate): (d: map<string, Value>)
    ensures d.Keys == {"id", "category", "start", "end", "userId"}
  {
    map["id" := IntValue(t.id), "category" := TextValue(t.category), "start" := TimeValue(t.start),
        "end" := TimeValue(t.end), "userId" := OwnerValue(t.userId)]
  }

  /** The mapped columns of `models.TimeSlot`. */
  const Columns: set<string> := {"id", "category", "start", "end", "user_id"}

  /**
   * `models.TimeSlot(**d)`: a key that is not a mapped column is rejected.
   * A dictionary holding every column, each with a value of its type,
   * builds the row with those values.
   */
  function RowOf(d: map<string, Value>): (r: Option<TimeSlot>)
    ensures (exists k :: k in d && k !in Columns) ==> r.None?
    ensures r.Some? ==> d.Keys <= Columns
    ensures r.Some? ==>
      && "id" in d && d["id"] == IntValue(r.value.id)
      && "category" in d && d["category"] == TextValue(r.value.category)
      && "start" in d && d["start"] == TimeValue(r.value.start)
      && "end" in d && d["end"] == TimeValue(r.value.end)
      && "user_id" in d && d["user_id"] == OwnerValue(r.value.user_id)
  {
    if d.Keys == Columns
       && d["id"].IntValue? && d["category"].TextValue? && d["start"].TimeValue?
       && d["end"].TimeValue? && d["user_id"].OwnerValue?
    then Some(TimeSlot(d["id"].i, d["category"].s, d["start"].t, d["end"].t, d["user_id"].o))
    else None
  }

  /** The rename the route performs: the owner moves from the key `userId` to `user_id`; every other key keeps its value. */
  ghost predicate RenamedOwner(d: map<string, Value>, e: map<string, Value>)
    requires "userId" in d
  {
    && "userId" !in e
    && "user_id" in e && e["user_id"] == d["userId"]
    && (forall k :: k in d && k != "userId" && k != "user_id" ==> k in e && e[k] == d[k])
    && (forall k :: k in e && k != "user_id" ==> k in d)
  }

  /** Renaming the body's owner key yields a dictionary the row constructor accepts, holding the body's fields. */
  lemma RenamedBodyIsRow(t: TimeSlotCreate, e: map<string, Value>)
    requires RenamedOwner(AsDict(t), e)
    ensures RowOf(e) == Some(TimeSlot(t.id, t.category, t.start, t.end, t.userId))
  {
    var d := AsDict(t);
    assert e.Keys == {"id", "category", "start", "end", "user_id"} by {
      forall k | k in e ensures k in {"id", "category", "start", "end", "user_id"} {
        if k != "user_id" { assert k in d; }
      }
      assert "id" in e && "category" in e && "start" in e && "end" in e;
    }
  }

  /**
   * `POST /timeslots`: requires a caller; renames `userId` to `user_id` in
   * the body's dictionary and stores the row. A key already in use fails
   * the insert.
   */
  method CreateTimeslot(db: Database, caller: Option<User>, t: TimeSlotCreate) returns (r: Reply<TimeSlot>)
    requires db.Valid()
    modifies db
    ensures db.Valid() && db.users == old(db.users)
    ensures caller.None? ==> r == Fail(NotAuthenticated) && db.slots == old(db.slots)
    ensures caller.Some? ==>
      var row := TimeSlot(t.id, t.category, t.start, t.end, t.userId);
      if SlotIndex(old(db.slots), t.id).None? then r == Ok(row) && db.slots == Inserted(old(db.slots), row)
      else r == Fail(InternalError) && db.slots == old(db.slots)
  {
    if caller.None? {
      return Fail(NotAuthenticated);
    }
    var timeSlot := AsDict(t);
    var owner := timeSlot["userId"];
    timeSlot := timeSlot - {"userId"};
    timeSlot := timeSlot["user_id" := owner];
    RenamedBodyIsRow(t, timeSlot);
    var stored := db.CreateTimeslot(RowOf(timeSlot).value);
    r := Respond(stored);
  }

  /** `PUT /timeslots/{id}`: requires a caller; an unknown id is a server error. */
  method UpdateTimeslot(db: Database, caller: Option<User>, id: int, u: TimeSlotUpdate) returns (r: Reply<TimeSlot>)
    requires db.Valid()
    modifies db
    ensures db.Valid() && db.users == old(db.users)
    ensures caller.None? ==> r == Fail(NotAuthenticated) && db.slots == old(db.slots)
    ensures caller.Some? ==> db.slots == Updated(old(db.slots), id, u) && r == Respond(SlotById(db.slots, id))
  {
    if caller.None? {
      return Fail(NotAuthenticated);
    }
    var row := db.UpdateTimeslot(id, u);
    r := Respond(row);
  }

  /** `DELETE /timeslots/{id}`: requires a caller; answers with the removed row. */
  method DeleteTimeslot(db: Database, caller: Option<User>, id: int) returns (r: Reply<TimeSlot>)
    requires db.Valid()
    modifies db
    ensures db.Valid() && db.users == old(db.users)
    ensures caller.None? ==> r == Fail(NotAuthenticated) && db.slots == old(db.slots)
    ensures caller.Some? ==> db.slots == Deleted(old(db.slots), id) && r == Respond(SlotById(old(db.slots), id))
  {
    if caller.None? {
      return Fail(NotAuthenticated);
    }
    var row := db.DeleteTimeslot(id);
    r := Respond(row);
  }

  /** `POST /book/{id}`: books for the authenticated caller; there is no way to name another user. */
  method BookTimeslot(db: Database, caller: Option<User>, id: int) returns (r: Reply<TimeSlot>)
    requires db.Valid()
    modifies db
    ensures db.Valid() && db.users == old(db.users)
    ensures caller.None? ==> r == Fail(NotAuthenticated) && db.slots == old(db.slots)
    ensures caller.Some? ==> db.slots == Booked(old(db.slots), id, caller.value.id) && r == Respond(SlotById(db.slots, id))
  {
    if caller.None? {
      return Fail(NotAuthenticated);
    }
    var row := db.BookTimeslot(id, caller.value.id);
    r := Respond(row);
  }

  /** `POST /cancel/{id}`: frees the slot only if the authenticated caller holds it; otherwise a server error. */
  method CancelBooking(db: Database, caller: Option<User>, id: int) returns (r: Reply<TimeSlot>)
    requires db.Valid()
    modifies db
    ensures db.Valid() && db.users == old(db.users)
    ensures caller.None? ==> r == Fail(NotAuthenticated) && db.slots == old(db.slots)
    ensures caller.Some? ==> db.slots == Cancelled(old(db.slots), id, caller.value.id)
    ensures caller.Some? ==> (r.Ok? <==> OwnedSlotIndex(old(db.slots), id, caller.value.id).Some?)
    ensures r.Ok? ==> r.body.id == id && r.body.user_id == None
    ensures caller.Some? && r.Ok? ==>
      r.body == old(db.slots)[OwnedSlotIndex(old(db.slots), id, caller.value.id).value].(user_id := None)
  {
    if caller.None? {
      return Fail(NotAuthenticated);
    }
    var row := db.CancelBooking(id, caller.value.id);
    r := Respond(row);
  }

  /** `PUT /users/{id}/preferences`: only the caller's own preferences may change; anyone else's is refused with 403. */
  method UpdateUserPreferences(db: Database, caller: Option<User>, uid: int, prefs: string) returns (r: Reply<User>)
    requires db.Valid()
    modifies db
    ensures db.Valid() && db.slots == old(db.slots)
    ensures caller.None? ==> r == Fail(NotAuthenticated) && db.users == old(db.users)
    ensures caller.Some? && caller.value.id != uid ==> r == Fail(NotYourPreferences) && db.users == old(db.users)
    ensures caller.Some? && caller.value.id == uid ==>
      db.users == PreferencesSet(old(db.users), uid, prefs)
      && (r.Ok? <==> UserById(old(db.users), uid).Some?)
      && (r.Ok? ==> r.body.id == uid && r.body.preferences == Some(prefs))
      && (r.Ok? ==> r.body == ToWire(UserById(db.users, uid).value))
  {
    if caller.None? {
      return Fail(NotAuthenticated);
    }
    if caller.value.id != uid {
      return Fail(NotYourPreferences);
    }
    var row := db.UpdateUserPreferences(uid, prefs);
    PreferencesOnlyThatUser(old(db.users), uid, prefs);
    match row {
      case None => r := Fail(InternalError);
      case Some(u) => r := Ok(ToWire(u));
    }
  }
}
