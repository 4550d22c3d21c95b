/**
 * The service's data access layer (backend/crud.py): the `users` and
 * `timeslots` tables, the queries over them and the five row-level updates
 * that make up the booking state machine.
 *
 * Each query `.filter(...).first()` finds the first matching row in table
 * order, and each update changes that one row. The pure functions below
 * state what a table looks like after each update; the methods of
 * `Database` perform the update on the stored table and are proved against
 * them.
 */
module Crud {
  import opened Wrappers
  import opened Schema
  import Seqs

  // ---------------------------------------------------------------------
  // Constraints the database enforces
  // ---------------------------------------------------------------------

  /** `timeslots.id` is the primary key. */
  ghost predicate UniqueSlotIds(slots: seq<TimeSlot>)
  {
    forall i, j :: 0 <= i < j < |slots| ==> slots[i].id != slots[j].id
  }

  /**
   * The table lists its slots in key order. `timeslots.id` is an integer
   * primary key, which SQLite stores as the rowid, and a query without
   * `ORDER BY` scans the table by rowid.
   */
  ghost predicate SlotsInKeyOrder(slots: seq<TimeSlot>)
  {
    forall i, j :: 0 <= i < j < |slots| ==> slots[i].id < slots[j].id
  }

  /** `users.id` is the primary key. */
  ghost predicate UniqueUserIds(users: seq<UserRow>)
  {
    forall i, j :: 0 <= i < j < |users| ==> users[i].id != users[j].id
  }

  /** `users.email` is declared unique. */
  ghost predicate UniqueEmails(users: seq<UserRow>)
  {
    forall i, j :: 0 <= i < j < |users| ==> users[i].email != users[j].email
  }

  // ---------------------------------------------------------------------
  // Queries: `.filter(...).first()`
  // ---------------------------------------------------------------------

  /** Position of the row `TimeSlot.id == id`. */
  function SlotIndex(slots: seq<TimeSlot>, id: int): (r: Option<nat>)
    ensures r.Some? ==> r.value < |slots| && slots[r.value].id == id
    ensures r.Some? ==> forall j :: 0 <= j < r.value ==> slots[j].id != id
    ensures r.None? ==> forall j :: 0 <= j < |slots| ==> slots[j].id != id
  {
    Seqs.FirstIndex(slots, (s: TimeSlot) => s.id == id)
  }

  /** Position of the row `TimeSlot.id == id, TimeSlot.user_id == uid` (the cancel query). */
  function OwnedSlotIndex(slots: seq<TimeSlot>, id: int, uid: int): (r: Option<nat>)
    ensures r.Some? ==> r.value < |slots| && slots[r.value].id == id && slots[r.value].user_id == Some(uid)
    ensures r.Some? ==> forall j :: 0 <= j < r.value ==> !(slots[j].id == id && slots[j].user_id == Some(uid))
    ensures r.None? ==> forall j :: 0 <= j < |slots| ==> !(slots[j].id == id && slots[j].user_id == Some(uid))
  {
    Seqs.FirstIndex(slots, (s: TimeSlot) => s.id == id && s.user_id == Some(uid))
  }

  /** Position of the row `User.id == id`. */
  function UserIndex(users: seq<UserRow>, id: int): (r: Option<nat>)
    ensures r.Some? ==> r.value < |users| && users[r.value].id == id
    ensures r.Some? ==> forall j :: 0 <= j < r.value ==> users[j].id != id
    ensures r.None? ==> forall j :: 0 <= j < |users| ==> users[j].id != id
  {
    Seqs.FirstIndex(users, (u: UserRow) => u.id == id)
  }

  /** Position of the row `User.email == email`. */
  function EmailIndex(users: seq<UserRow>, email: string): (r: Option<nat>)
    ensures r.Some? ==> r.value < |users| && users[r.value].email == email
    ensures r.Some? ==> forall j :: 0 <= j < r.value ==> users[j].email != email
    ensures r.None? ==> forall j :: 0 <= j < |users| ==> users[j].email != email
  {
    Seqs.FirstIndex(users, (u: UserRow) => u.email == email)
  }

  /** The slot `id`, as the service would load it. */
  function SlotById(slots: seq<TimeSlot>, id: int): Option<TimeSlot>
  {
    match SlotIndex(slots, id)
    case None => None
    case Some(i) => Some(slots[i])
  }

  /** The user `id`, as the service would load it. */
  function UserById(users: seq<UserRow>, id: int): Option<UserRow>
  {
    match UserIndex(users, id)
    case None => None
    case Some(i) => Some(users[i])
  }

  /**
   * `r` is what `.offset(skip).limit(limit).all()` returns on SQLite: the
   * rows from position `skip` on, at most `limit` of them. A negative
   * offset counts as zero and a negative limit as no limit.
   */
  ghost predicate IsPage<T>(rows: seq<T>, skip: int, limit: int, r: seq<T>)
  {
    var lo := if skip < 0 then 0 else skip;
    var available := if lo >= |rows| then 0 else |rows| - lo;
    && |r| == (if 0 <= limit < available then limit else available)
    && forall k :: 0 <= k < |r| ==> r[k] == rows[lo + k]
  }

  /** `.offset(skip).limit(limit).all()`. */
  function Page<T>(rows: seq<T>, skip: int, limit: int): (r: seq<T>)
    ensures IsPage(rows, skip, limit, r)
    ensures limit >= 0 ==> |r| <= limit
    ensures skip >= |rows| ==> r == []
  {
    var lo := if skip <= 0 then 0 else if skip >= |rows| then |rows| else skip;
    var hi := if limit < 0 || lo + limit >= |rows| then |rows| else lo + limit;
    rows[lo..hi]
  }

  /** Two consecutive pages are the page that spans both. */
  lemma PageConcat<T>(rows: seq<T>, skip: nat, a: nat, b: nat)
    ensures Page(rows, skip, a) + Page(rows, skip + a, b) == Page(rows, skip, a + b)
  {
    var left, right, whole := Page(rows, skip, a), Page(rows, skip + a, b), Page(rows, skip, a + b);
    assert |left| + |right| == |whole|;
    forall k | 0 <= k < |whole|
      ensures (left + right)[k] == whole[k]
    {
      if k >= |left| {
        assert |left| == a;
        assert right[k - a] == rows[skip + k];
      }
    }
  }

  /** The listing routes' default page (skip 0, limit 100) is the whole table exactly when it has at most 100 rows. */
  lemma DefaultPage<T>(rows: seq<T>)
    ensures |rows| <= 100 ==> Page(rows, 0, 100) == rows
    ensures |rows| > 100 ==> Page(rows, 0, 100) == rows[..100]
  {
  }

  // ---------------------------------------------------------------------
  // The row updates, as functions of the table
  // ---------------------------------------------------------------------

  /** Table `b` is `a` with at most the rows keyed `id` changed, and no row's id changed. */
  ghost predicate OnlyRowChanged(a: seq<TimeSlot>, b: seq<TimeSlot>, id: int)
  {
    |a| == |b| &&
    (forall j :: 0 <= j < |a| ==> b[j].id == a[j].id) &&
    (forall j :: 0 <= j < |a| && a[j].id != id ==> b[j] == a[j])
  }

  /** `slots` after `book_timeslot(id, uid)`: the row `id` is given to `uid` if it is free. */
  function Booked(slots: seq<TimeSlot>, id: int, uid: int): (r: seq<TimeSlot>)
    ensures OnlyRowChanged(slots, r, id)
    ensures forall j :: 0 <= j < |slots| ==> r[j] == slots[j] || (slots[j].user_id == None && r[j] == slots[j].(user_id := Some(uid)))
  {
    match SlotIndex(slots, id)
    case None => slots
    case Some(i) => if slots[i].user_id == None then slots[i := slots[i].(user_id := Some(uid))] else slots
  }

  /** `slots` after `cancel_booking(id, uid)`: the row `id` is freed if `uid` holds it. */
  function Cancelled(slots: seq<TimeSlot>, id: int, uid: int): (r: seq<TimeSlot>)
    ensures OnlyRowChanged(slots, r, id)
    ensures forall j :: 0 <= j < |slots| ==> r[j] == slots[j] || (slots[j].user_id == Some(uid) && r[j] == slots[j].(user_id := None))
  {
    match OwnedSlotIndex(slots, id, uid)
    case None => slots
    case Some(i) => slots[i := slots[i].(user_id := None)]
  }

  /** The row `row` with the three editable columns taken from `u`. */
  function Apply(row: TimeSlot, u: TimeSlotUpdate): (r: TimeSlot)
    ensures r.category == u.category && r.start == u.start && r.end == u.end
    ensures r.id == row.id && r.user_id == row.user_id
  {
    row.(category := u.category, start := u.start, end := u.end)
  }

  /** `slots` after `update_timeslot(id, u)`. */
  function Updated(slots: seq<TimeSlot>, id: int, u: TimeSlotUpdate): (r: seq<TimeSlot>)
    ensures OnlyRowChanged(slots, r, id)
    ensures forall j :: 0 <= j < |slots| ==> r[j].user_id == slots[j].user_id
    ensures forall j :: 0 <= j < |slots| ==> r[j] == slots[j] || r[j] == Apply(slots[j], u)
    ensures SlotIndex(slots, id).Some? ==> r[SlotIndex(slots, id).value] == Apply(slots[SlotIndex(slots, id).value], u)
  {
    match SlotIndex(slots, id)
    case None => slots
    case Some(i) => slots[i := Apply(slots[i], u)]
  }

  /** Where a row with key `id` goes in a table listed in key order: after every smaller key. */
  function InsertPos(slots: seq<TimeSlot>, id: int): (p: nat)
    ensures p <= |slots|
    ensures forall j :: 0 <= j < p ==> slots[j].id < id
    ensures p < |slots| ==> slots[p].id >= id
  {
    if slots == [] || slots[0].id >= id then 0 else 1 + InsertPos(slots[1..], id)
  }

  /** `slots` after `create_timeslot(row)`: the row sits at its key's place, and the other rows keep their order. */
  function Inserted(slots: seq<TimeSlot>, row: TimeSlot): (r: seq<TimeSlot>)
    ensures |r| == |slots| + 1
    ensures r[InsertPos(slots, row.id)] == row
    ensures forall j :: 0 <= j < InsertPos(slots, row.id) ==> r[j] == slots[j]
    ensures forall j :: InsertPos(slots, row.id) <= j < |slots| ==> r[j + 1] == slots[j]
  {
    var p := InsertPos(slots, row.id);
    slots[..p] + [row] + slots[p..]
  }

  /** `slots` after `delete_timeslot(id)`: the row `id` is gone. */
  function Deleted(slots: seq<TimeSlot>, id: int): (r: seq<TimeSlot>)
    ensures |r| == if SlotIndex(slots, id).Some? then |slots| - 1 else |slots|
    ensures Seqs.IsSubsequence(r, slots)
  {
    match SlotIndex(slots, id)
    case None => SubsequenceOfSelf(slots); slots
    case Some(i) => DropAt(slots, i)
  }

  /** `s` without the element at position `i`. */
  function DropAt<T>(s: seq<T>, i: nat): (r: seq<T>)
    requires i < |s|
    ensures |r| == |s| - 1
    ensures Seqs.IsSubsequence(r, s)
  {
    DropAtIsSubsequence(s, i);
    s[..i] + s[i + 1..]
  }

  lemma {:induction false} DropAtIsSubsequence<T>(s: seq<T>, i: nat)
    requires i < |s|
    ensures Seqs.IsSubsequence(s[..i] + s[i + 1..], s)
  {
    var r := s[..i] + s[i + 1..];
    if i == 0 {
      assert r == s[1..];
      SubsequenceOfSelf(s[1..]);
    } else {
      DropAtIsSubsequence(s[1..], i - 1);
      assert r[0] == s[0];
      assert r[1..] == s[1..][..i - 1] + s[1..][i..];
    }
  }

  lemma {:induction false} SubsequenceOfSelf<T>(s: seq<T>)
    ensures Seqs.IsSubsequence(s, s)
  {
    if s != [] {
      SubsequenceOfSelf(s[1..]);
    }
  }

  /** `users` after `update_user_preferences(uid, prefs)`. */
  function PreferencesSet(users: seq<UserRow>, uid: int, prefs: string): (r: seq<UserRow>)
    ensures |r| == |users|
    ensures forall j :: 0 <= j < |users| ==> r[j] == users[j] || (users[j].id == uid && r[j] == users[j].(preferences := Some(prefs)))
  {
    match UserIndex(users, uid)
    case None => users
    case Some(i) => users[i := users[i].(preferences := Some(prefs))]
  }

  /** The largest id in use. */
  function MaxUserId(users: seq<UserRow>): (m: int)
    requires |users| > 0
    ensures forall j :: 0 <= j < |users| ==> users[j].id <= m
  {
    if |users| == 1 then users[0].id
    else
      var rest := MaxUserId(users[1..]);
      if users[0].id > rest then users[0].id else rest
  }

  /** The key SQLite gives a new row: one past the largest in use, or 1 in an empty table. */
  function NextUserId(users: seq<UserRow>): (id: int)
    ensures forall j :: 0 <= j < |users| ==> users[j].id != id
  {
    if |users| == 0 then 1 else MaxUserId(users) + 1
  }

  /** The row `create_user` inserts: hashed password, no preferences. */
  function NewUser(users: seq<UserRow>, user: UserCreate, hash: string -> string): UserRow
  {
    UserRow(NextUserId(users), user.email, hash(user.password), user.name, None)
  }

  // ---------------------------------------------------------------------
  // Properties of the booking state machine
  // ---------------------------------------------------------------------

  /** Tables with the same ids in the same order find the same row. */
  lemma SlotIndexFollowsIds(a: seq<TimeSlot>, b: seq<TimeSlot>, id: int)
    requires |a| == |b| && forall j :: 0 <= j < |a| ==> a[j].id == b[j].id
    ensures SlotIndex(a, id) == SlotIndex(b, id)
  {
    var ra, rb := SlotIndex(a, id), SlotIndex(b, id);
    if ra.Some? && rb.Some? {
      assert !(ra.value < rb.value) && !(rb.value < ra.value);
    }
  }

  /** Listing in key order makes the keys unique. */
  lemma KeyOrderIsUnique(slots: seq<TimeSlot>)
    requires SlotsInKeyOrder(slots)
    ensures UniqueSlotIds(slots)
  {
  }

  /** Inserting a fresh key keeps the table in key order. */
  lemma InsertedInKeyOrder(slots: seq<TimeSlot>, row: TimeSlot)
    requires SlotsInKeyOrder(slots)
    requires forall j :: 0 <= j < |slots| ==> slots[j].id != row.id
    ensures SlotsInKeyOrder(Inserted(slots, row))
  {
    var p, r := InsertPos(slots, row.id), Inserted(slots, row);
    forall i, j | 0 <= i < j < |r|
      ensures r[i].id < r[j].id
    {
      if j > p {
        assert r[j] == slots[j - 1] && slots[j - 1].id >= slots[p].id >= row.id;
      }
    }
  }

  /** The inserted row is the one found under its key, and no other row is lost or added. */
  lemma InsertedHoldsRow(slots: seq<TimeSlot>, row: TimeSlot, x: TimeSlot)
    requires SlotsInKeyOrder(slots)
    requires forall j :: 0 <= j < |slots| ==> slots[j].id != row.id
    ensures SlotById(Inserted(slots, row), row.id) == Some(row)
    ensures x in Inserted(slots, row) <==> x in slots || x == row
  {
    var p, r := InsertPos(slots, row.id), Inserted(slots, row);
    var k := SlotIndex(r, row.id);
    assert k.Some? && k.value <= p;
    if x in slots {
      var j :| 0 <= j < |slots| && slots[j] == x;
      if j < p { assert r[j] == x; } else { assert r[j + 1] == x; }
    }
    if x in r {
      var j :| 0 <= j < |r| && r[j] == x;
      if j < p { assert x == slots[j]; } else if j > p { assert x == slots[j - 1]; }
    }
  }

  /** Booking a free slot hands it to the caller and changes nothing else about it. */
  lemma BookFreeSlot(slots: seq<TimeSlot>, id: int, uid: int, s: TimeSlot)
    requires SlotById(slots, id) == Some(s) && s.user_id == None
    ensures SlotById(Booked(slots, id, uid), id) == Some(s.(user_id := Some(uid)))
  {
    SlotIndexFollowsIds(slots, Booked(slots, id, uid), id);
  }

  /** Booking a slot someone holds changes nothing, and the held slot is returned as it was. */
  lemma BookTakenSlot(slots: seq<TimeSlot>, id: int, uid: int, s: TimeSlot)
    requires SlotById(slots, id) == Some(s) && s.user_id != None
    ensures Booked(slots, id, uid) == slots
    ensures SlotById(Booked(slots, id, uid), id) == Some(s)
  {
  }

  /** Cancelling a slot the caller does not hold changes nothing. */
  lemma CancelNotHeld(slots: seq<TimeSlot>, id: int, uid: int)
    requires forall j :: 0 <= j < |slots| && slots[j].id == id ==> slots[j].user_id != Some(uid)
    ensures Cancelled(slots, id, uid) == slots
    ensures OwnedSlotIndex(slots, id, uid) == None
  {
  }

  /** Cancelling a slot the caller holds frees it and changes nothing else about it. */
  lemma CancelHeldSlot(slots: seq<TimeSlot>, id: int, uid: int, i: nat)
    requires UniqueSlotIds(slots)
    requires OwnedSlotIndex(slots, id, uid) == Some(i)
    ensures SlotById(Cancelled(slots, id, uid), id) == Some(slots[i].(user_id := None))
  {
    var after := Cancelled(slots, id, uid);
    SlotIndexFollowsIds(slots, after, id);
    assert SlotIndex(slots, id) == Some(i);
  }

  /** Booking a free slot and cancelling it as the same user restores the table. */
  lemma BookThenCancel(slots: seq<TimeSlot>, id: int, uid: int, s: TimeSlot)
    requires SlotById(slots, id) == Some(s) && s.user_id == None
    ensures OwnedSlotIndex(Booked(slots, id, uid), id, uid) == SlotIndex(slots, id)
    ensures Cancelled(Booked(slots, id, uid), id, uid) == slots
  {
    var i := SlotIndex(slots, id).value;
    var booked := Booked(slots, id, uid);
    assert booked == slots[i := s.(user_id := Some(uid))];
    var k := OwnedSlotIndex(booked, id, uid);
    assert booked[i].id == id && booked[i].user_id == Some(uid);
    assert k.Some? && k.value <= i;
    assert k.value == i;
    assert booked[i := booked[i].(user_id := None)] == slots;
  }

  /** Writing a slot's own category, start and end back to it changes nothing (the edit round trip). */
  lemma UpdateWithOwnFields(slots: seq<TimeSlot>, id: int, s: TimeSlot)
    requires SlotById(slots, id) == Some(s)
    ensures Updated(slots, id, TimeSlotUpdate(s.category, s.start, s.end)) == slots
  {
    var i := SlotIndex(slots, id).value;
    assert Apply(slots[i], TimeSlotUpdate(s.category, s.start, s.end)) == slots[i];
  }

  /** Updating an existing slot stores the update's category, start and end on it, and keeps its id and owner. */
  lemma UpdateWritesFields(slots: seq<TimeSlot>, id: int, u: TimeSlotUpdate, s: TimeSlot)
    requires SlotById(slots, id) == Some(s)
    ensures var after := SlotById(Updated(slots, id, u), id);
      && after.Some?
      && after.value.category == u.category && after.value.start == u.start && after.value.end == u.end
      && after.value.id == s.id && after.value.user_id == s.user_id
  {
    SlotIndexFollowsIds(slots, Updated(slots, id, u), id);
  }

  /** Applying the same edit twice is applying it once. */
  lemma UpdateIdempotent(slots: seq<TimeSlot>, id: int, u: TimeSlotUpdate)
    ensures Updated(Updated(slots, id, u), id, u) == Updated(slots, id, u)
  {
    SlotIndexFollowsIds(slots, Updated(slots, id, u), id);
  }

  /** With unique ids, deleting `id` keeps exactly the rows with another id. */
  lemma DeleteKeepsOthers(slots: seq<TimeSlot>, id: int, x: TimeSlot)
    requires UniqueSlotIds(slots)
    ensures x in Deleted(slots, id) <==> x in slots && x.id != id
  {
    match SlotIndex(slots, id)
    case None =>
    case Some(i) =>
      var r := Deleted(slots, id);
      assert r == slots[..i] + slots[i + 1..];
      if x in slots && x.id != id {
        var k :| 0 <= k < |slots| && slots[k] == x;
        if k < i {
          assert r[k] == x;
        } else {
          assert r[k - 1] == x;
        }
      }
      if x in r {
        var k :| 0 <= k < |r| && r[k] == x;
        if k < i {
          assert x == slots[k];
        } else {
          assert x == slots[k + 1];
        }
      }
  }

  /** A preference update on a missing user changes nothing; otherwise only that user's preferences change. */
  lemma PreferencesOnlyThatUser(users: seq<UserRow>, uid: int, prefs: string)
    ensures UserById(users, uid) == None ==> PreferencesSet(users, uid, prefs) == users
    ensures UserById(users, uid).Some? ==>
      UserById(PreferencesSet(users, uid, prefs), uid) == Some(UserById(users, uid).value.(preferences := Some(prefs)))
  {
    var r := PreferencesSet(users, uid, prefs);
    match UserIndex(users, uid)
    case None =>
    case Some(i) =>
      var k := UserIndex(r, uid).value;
      assert Seqs.FirstIndex(r, (u: UserRow) => u.id == uid) == UserIndex(r, uid);
      assert k == i;
  }

  // ---------------------------------------------------------------------
  // The database
  // ---------------------------------------------------------------------

  /** One item of `timeslot.dict().items()`: a column name with its new value. */
  datatype Column = CategoryColumn(category: string) | StartColumn(start: Timestamp) | EndColumn(end: Timestamp)

  /** The items of a `TimeSlotUpdate`, in declaration order. */
  function Items(u: TimeSlotUpdate): seq<Column>
  {
    [CategoryColumn(u.category), StartColumn(u.start), EndColumn(u.end)]
  }

  /** `setattr(row, key, value)`. */
  function SetAttr(row: TimeSlot, c: Column): TimeSlot
  {
    match c
    case CategoryColumn(v) => row.(category := v)
    case StartColumn(v) => row.(start := v)
    case EndColumn(v) => row.(end := v)
  }

  /** Column `c` of `row` holds the value `c` carries. */
  predicate Holds(row: TimeSlot, c: Column)
  {
    match c
    case CategoryColumn(v) => row.category == v
    case StartColumn(v) => row.start == v
    case EndColumn(v) => row.end == v
  }

  class Database {
    var users: seq<UserRow>
    var slots: seq<TimeSlot>

    ghost predicate Valid()
      reads this
    {
      UniqueUserIds(users) && UniqueEmails(users) && SlotsInKeyOrder(slots)
    }

    constructor ()
      ensures Valid() && users == [] && slots == []
    {
      users := [];
      slots := [];
    }

    /** `get_user`. */
    function GetUser(id: int): (r: Option<UserRow>)
      reads this
      ensures r.Some? ==> r.value in users && r.value.id == id
      ensures r.None? ==> forall j :: 0 <= j < |users| ==> users[j].id != id
    {
      UserById(users, id)
    }

    /** `get_user_by_email`. */
    function GetUserByEmail(email: string): (r: Option<UserRow>)
      reads this
      ensures r.Some? ==> r.value in users && r.value.email == email
      ensures r.None? ==> forall j :: 0 <= j < |users| ==> users[j].email != email
    {
      match EmailIndex(users, email)
      case None => None
      case Some(i) => Some(users[i])
    }

    /** `get_users`. */
    function GetUsers(skip: int, limit: int): (r: seq<UserRow>)
      reads this
      ensures IsPage(users, skip, limit, r)
    {
      Page(users, skip, limit)
    }

    /** `get_timeslots`. */
    function GetTimeslots(skip: int, limit: int): (r: seq<TimeSlot>)
      reads this
      ensures IsPage(slots, skip, limit, r)
    {
      Page(slots, skip, limit)
    }

    /**
     * `authenticate_user`: the user with that email whose stored hash the
     * password passes, or `None` for the source's `False`. `verify` stands
     * for `verify_password`.
     */
    function AuthenticateUser(email: string, password: string, verify: (string, string) -> bool): (r: Option<UserRow>)
      reads this
      ensures r.Some? ==> r.value in users && r.value.email == email && verify(password, r.value.hashedPassword)
      ensures UniqueEmails(users) ==>
        (r.None? <==> forall j :: 0 <= j < |users| && users[j].email == email ==> !verify(password, users[j].hashedPassword))
    {
      match GetUserByEmail(email)
      case None => None
      case Some(user) => if verify(password, user.hashedPassword) then Some(user) else None
    }

    /**
     * `create_user`. Inserting a second row with a registered email violates
     * the unique constraint: the commit fails and nothing is stored.
     */
    method CreateUser(user: UserCreate, hash: string -> string) returns (r: Option<UserRow>)
      requires Valid()
      modifies this
      ensures Valid() && slots == old(slots)
      ensures EmailIndex(old(users), user.email).Some? ==> r == None && users == old(users)
      ensures EmailIndex(old(users), user.email).None? ==>
        r == Some(NewUser(old(users), user, hash)) && users == old(users) + [r.value]
    {
      if EmailIndex(users, user.email).Some? {
        return None;
      }
      var row := NewUser(users, user, hash);
      users := users + [row];
      r := Some(row);
    }

    /**
     * `create_timeslot`. The row is listed at its key's place. A second row
     * with a key in use violates the primary key and is not stored.
     */
    method CreateTimeslot(row: TimeSlot) returns (r: Option<TimeSlot>)
      requires Valid()
      modifies this
      ensures Valid() && users == old(users)
      ensures SlotIndex(old(slots), row.id).Some? ==> r == None && slots == old(slots)
      ensures SlotIndex(old(slots), row.id).None? ==> r == Some(row) && slots == Inserted(old(slots), row)
    {
      if SlotIndex(slots, row.id).Some? {
        return None;
      }
      InsertedInKeyOrder(slots, row);
      slots := Inserted(slots, row);
      r := Some(row);
    }

    /** `update_timeslot`: copies each item of the update onto the row with `setattr`. */
    method UpdateTimeslot(id: int, u: TimeSlotUpdate) returns (r: Option<TimeSlot>)
      requires Valid()
      modifies this
      ensures Valid() && users == old(users)
      ensures slots == Updated(old(slots), id, u)
      ensures r == SlotById(slots, id)
    {
      var found := SlotIndex(slots, id);
      if found.Some? {
        var i := found.value;
        var row := slots[i];
        var items := Items(u);
        for k := 0 to |items|
          invariant row.id == slots[i].id && row.user_id == slots[i].user_id
          invariant forall j :: 0 <= j < k ==> Holds(row, items[j])
        {
          row := SetAttr(row, items[k]);
        }
        assert Holds(row, items[0]) && Holds(row, items[1]) && Holds(row, items[2]);
        slots := slots[i := row];
      }
      SlotIndexFollowsIds(old(slots), slots, id);
      r := SlotById(slots, id);
    }

    /** `delete_timeslot`: removes the row and returns it. */
    method DeleteTimeslot(id: int) returns (r: Option<TimeSlot>)
      requires Valid()
      modifies this
      ensures Valid() && users == old(users)
      ensures slots == Deleted(old(slots), id)
      ensures r == SlotById(old(slots), id)
    {
      r := SlotById(slots, id);
      var found := SlotIndex(slots, id);
      if found.Some? {
        var i := found.value;
        slots := slots[..i] + slots[i + 1..];
      }
    }

    /** `book_timeslot`: a free row is given to `uid`; the row is returned in either case. */
    method BookTimeslot(id: int, uid: int) returns (r: Option<TimeSlot>)
      requires Valid()
      modifies this
      ensures Valid() && users == old(users)
      ensures slots == Booked(old(slots), id, uid)
      ensures r == SlotById(slots, id)
    {
      var found := SlotIndex(slots, id);
      if found.Some? && slots[found.value].user_id == None {
        var i := found.value;
        slots := slots[i := slots[i].(user_id := Some(uid))];
      }
      SlotIndexFollowsIds(old(slots), slots, id);
      r := SlotById(slots, id);
    }

    /** `cancel_booking`: only the row `id` held by `uid` is freed and returned. */
    method CancelBooking(id: int, uid: int) returns (r: Option<TimeSlot>)
      requires Valid()
      modifies this
      ensures Valid() && users == old(users)
      ensures slots == Cancelled(old(slots), id, uid)
      ensures OwnedSlotIndex(old(slots), id, uid).None? ==> r == None
      ensures OwnedSlotIndex(old(slots), id, uid).Some? ==>
        r == Some(old(slots)[OwnedSlotIndex(old(slots), id, uid).value].(user_id := None))
    {
      var found := OwnedSlotIndex(slots, id, uid);
      if found.None? {
        return None;
      }
      var i := found.value;
      slots := slots[i := slots[i].(user_id := None)];
      r := Some(slots[i]);
    }

    /** `update_user_preferences`: stores the preference string of user `uid`. */
    method UpdateUserPreferences(uid: int, prefs: string) returns (r: Option<UserRow>)
      requires Valid()
      modifies this
      ensures Valid() && slots == old(slots)
      ensures users == PreferencesSet(old(users), uid, prefs)
      ensures r == UserById(users, uid)
    {
      var found := UserIndex(users, uid);
      if found.Some? {
        var i := found.value;
        users := users[i := users[i].(preferences := Some(prefs))];
      }
      PreferencesOnlyThatUser(old(users), uid, prefs);
      r := UserById(users, uid);
    }
  }
}
