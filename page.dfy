/**
 * The client's state store (app/page.tsx): the lists of users and slots,
 * the signed-in user and whether the session is authenticated, updated
 * after each remote call.
 *
 * The answer of each remote call is a parameter: `None` when the call
 * threw, in which case the handler only logs the error and leaves every
 * list as it was. The browser's stored token (`localStorage "token"`) is
 * the field `storedToken`.
 */
module Page {
  import opened Wrappers
  import opened Schema
  import opened EventUtils
  import Seqs

  // ---------------------------------------------------------------------
  // The new lists, as the handlers compute them
  // ---------------------------------------------------------------------

  /** The condition `slot.id === id`. */
  function HasSlotId(id: int): TimeSlot -> bool
  {
    (slot: TimeSlot) => slot.id == id
  }

  /** The condition `slot.id !== id`. */
  function IsNotSlot(id: int): TimeSlot -> bool
  {
    (slot: TimeSlot) => slot.id != id
  }

  /** The condition `user.id === id`. */
  function HasUserId(id: int): User -> bool
  {
    (user: User) => user.id == id
  }

  /** `timeSlots.map(slot => slot.id === id ? updated : slot)`. */
  function ReplaceSlot(slots: seq<TimeSlot>, id: int, updated: TimeSlot): (r: seq<TimeSlot>)
    ensures |r| == |slots|
    ensures forall i :: 0 <= i < |slots| && slots[i].id == id ==> r[i] == updated
    ensures forall i :: 0 <= i < |slots| && slots[i].id != id ==> r[i] == slots[i]
  {
    Seqs.Replace(slots, HasSlotId(id), updated)
  }

  /** `users.map(user => user.id === id ? updated : user)`. */
  function ReplaceUser(users: seq<User>, id: int, updated: User): (r: seq<User>)
    ensures |r| == |users|
    ensures forall i :: 0 <= i < |users| && users[i].id == id ==> r[i] == updated
    ensures forall i :: 0 <= i < |users| && users[i].id != id ==> r[i] == users[i]
  {
    Seqs.Replace(users, HasUserId(id), updated)
  }

  /** `timeSlots.filter(slot => slot.id !== id)`. */
  function RemoveSlot(slots: seq<TimeSlot>, id: int): (r: seq<TimeSlot>)
    ensures forall i :: 0 <= i < |r| ==> r[i].id != id && r[i] in slots
    ensures forall i :: 0 <= i < |slots| && slots[i].id != id ==> slots[i] in r
    ensures Seqs.IsSubsequence(r, slots)
  {
    Seqs.Filter(slots, IsNotSlot(id))
  }

  // ---------------------------------------------------------------------
  // The page
  // ---------------------------------------------------------------------

  class Home {
    var users: seq<User>
    var timeSlots: seq<TimeSlot>
    var currentUser: Option<User>
    var isAuthenticated: bool
    var storedToken: Option<string>
    const api: ApiClient

    /** A fresh page over the browser's stored token. */
    constructor (api: ApiClient, storedToken: Option<string>)
      ensures this.api == api && this.storedToken == storedToken
      ensures users == [] && timeSlots == [] && currentUser == None && !isAuthenticated
    {
      this.api := api;
      this.storedToken := storedToken;
      users := [];
      timeSlots := [];
      currentUser := None;
      isAuthenticated := false;
    }

    /**
     * `fetchData`: `fetched` is the signed-in user and the slot list, or
     * `None` when either request threw. The user list is what `getUsers`
     * makes of the user, so it is never empty and its first entry becomes
     * the current user.
     */
    method FetchData(fetched: Option<(User, seq<TimeSlot>)>)
      modifies this
      ensures isAuthenticated == old(isAuthenticated) && storedToken == old(storedToken)
      ensures fetched.None? ==> users == old(users) && timeSlots == old(timeSlots) && currentUser == old(currentUser)
      ensures fetched.Some? ==>
        users == [fetched.value.0] && timeSlots == fetched.value.1 && currentUser == Some(fetched.value.0)
    {
      if fetched.None? {
        return;
      }
      var fetchedUsers := GetUsers(fetched.value.0);
      users := fetchedUsers;
      timeSlots := fetched.value.1;
      if |fetchedUsers| > 0 {
        currentUser := Some(fetchedUsers[0]);
      }
    }

    /** The mount effect: a truthy stored token restores the session and loads the data. */
    method Mount(fetched: Option<(User, seq<TimeSlot>)>)
      modifies this, api
      ensures storedToken == old(storedToken)
      ensures storedToken.Some? && storedToken.value != "" ==>
        api.token == storedToken && isAuthenticated
        && (fetched.Some? ==> users == [fetched.value.0] && timeSlots == fetched.value.1 && currentUser == Some(fetched.value.0))
        && (fetched.None? ==> users == old(users) && timeSlots == old(timeSlots) && currentUser == old(currentUser))
      ensures !(storedToken.Some? && storedToken.value != "") ==>
        api.token == old(api.token) && isAuthenticated == old(isAuthenticated)
        && users == old(users) && timeSlots == old(timeSlots) && currentUser == old(currentUser)
    {
      if storedToken.Some? && storedToken.value != "" {
        api.SetToken(storedToken);
        isAuthenticated := true;
        FetchData(fetched);
      }
    }

    /** `handleLogin`: `reply` is the answer of `POST /token`. */
    method HandleLogin(reply: Option<Token>, fetched: Option<(User, seq<TimeSlot>)>)
      modifies this, api
      ensures reply.None? ==>
        api.token == old(api.token) && storedToken == old(storedToken) && isAuthenticated == old(isAuthenticated)
        && users == old(users) && timeSlots == old(timeSlots) && currentUser == old(currentUser)
      ensures reply.Some? ==>
        api.token == Some(reply.value.access_token) && storedToken == api.token && isAuthenticated
        && (fetched.Some? ==> users == [fetched.value.0] && timeSlots == fetched.value.1 && currentUser == Some(fetched.value.0))
        && (fetched.None? ==> users == old(users) && timeSlots == old(timeSlots) && currentUser == old(currentUser))
    {
      var token := api.Login(reply);
      if token.None? {
        return;
      }
      storedToken := token;
      isAuthenticated := true;
      FetchData(fetched);
    }

    /** `handleRegister`: a successful registration signs in with the same credentials. */
    method HandleRegister(registered: Option<User>, reply: Option<Token>, fetched: Option<(User, seq<TimeSlot>)>)
      modifies this, api
      ensures registered.None? || reply.None? ==>
        api.token == old(api.token) && storedToken == old(storedToken) && isAuthenticated == old(isAuthenticated)
        && users == old(users) && timeSlots == old(timeSlots) && currentUser == old(currentUser)
      ensures registered.Some? && reply.Some? ==>
        api.token == Some(reply.value.access_token) && storedToken == api.token && isAuthenticated
        && (fetched.Some? ==> users == [fetched.value.0] && timeSlots == fetched.value.1 && currentUser == Some(fetched.value.0))
        && (fetched.None? ==> users == old(users) && timeSlots == old(timeSlots) && currentUser == old(currentUser))
    {
      if registered.None? {
        return;
      }
      HandleLogin(reply, fetched);
    }

    /** `handleLogout`: ends the session; the lists stay as they are. */
    method HandleLogout()
      modifies this, api
      ensures storedToken == None && api.token == None && !isAuthenticated && currentUser == None
      ensures users == old(users) && timeSlots == old(timeSlots)
    {
      storedToken := None;
      api.SetToken(None);
      isAuthenticated := false;
      currentUser := None;
    }

    /**
     * The preference update with its failure passed on to the caller: sends
     * the categories comma-joined and puts the answer in place of the user
     * with that id. The returned promise resolves exactly when the request
     * succeeded.
     */
    method UpdateUserPreferencesRethrowing(userId: int, categories: seq<string>, reply: Option<User>) returns (body: string, resolved: bool)
      modifies this
      ensures body == EncodePreferences(categories) && (resolved <==> reply.Some?)
      ensures timeSlots == old(timeSlots) && isAuthenticated == old(isAuthenticated) && storedToken == old(storedToken)
      ensures reply.None? ==> users == old(users) && currentUser == old(currentUser)
      ensures reply.Some? ==> users == ReplaceUser(old(users), userId, reply.value)
      ensures reply.Some? && old(currentUser).Some? && old(currentUser).value.id == userId ==> currentUser == reply
      ensures reply.Some? && !(old(currentUser).Some? && old(currentUser).value.id == userId) ==> currentUser == old(currentUser)
    {
      body := EncodePreferences(categories);
      resolved := reply.Some?;
      if reply.None? {
        return;
      }
      users := ReplaceUser(users, userId, reply.value);
      if currentUser.Some? && currentUser.value.id == userId {
        currentUser := reply;
      }
    }

    /**
     * `updateUserPreferencesHandler`, as written: the same update, but a
     * failure is caught and only logged, so the returned promise always
     * resolves.
     */
    method UpdateUserPreferencesHandler(userId: int, categories: seq<string>, reply: Option<User>) returns (body: string, resolved: bool)
      modifies this
      ensures body == EncodePreferences(categories) && resolved
      ensures timeSlots == old(timeSlots) && isAuthenticated == old(isAuthenticated) && storedToken == old(storedToken)
      ensures reply.None? ==> users == old(users) && currentUser == old(currentUser)
      ensures reply.Some? ==> users == ReplaceUser(old(users), userId, reply.value)
      ensures reply.Some? && old(currentUser).Some? && old(currentUser).value.id == userId ==> currentUser == reply
      ensures reply.Some? && !(old(currentUser).Some? && old(currentUser).value.id == userId) ==> currentUser == old(currentUser)
    {
      var succeeded;
      body, succeeded := UpdateUserPreferencesRethrowing(userId, categories, reply);
      resolved := true;
    }

    /** `bookTimeSlotHandler`: the slot with that id is replaced by the service's answer. */
    method BookTimeSlotHandler(slotId: int, reply: Option<TimeSlot>)
      modifies this
      ensures users == old(users) && currentUser == old(currentUser) && isAuthenticated == old(isAuthenticated) && storedToken == old(storedToken)
      ensures reply.None? ==> timeSlots == old(timeSlots)
      ensures reply.Some? ==> timeSlots == ReplaceSlot(old(timeSlots), slotId, reply.value)
    {
      if reply.Some? {
        timeSlots := ReplaceSlot(timeSlots, slotId, reply.value);
      }
    }

    /** `cancelBookingHandler`: the slot with that id is replaced by the service's answer. */
    method CancelBookingHandler(slotId: int, reply: Option<TimeSlot>)
      modifies this
      ensures users == old(users) && currentUser == old(currentUser) && isAuthenticated == old(isAuthenticated) && storedToken == old(storedToken)
      ensures reply.None? ==> timeSlots == old(timeSlots)
      ensures reply.Some? ==> timeSlots == ReplaceSlot(old(timeSlots), slotId, reply.value)
    {
      if reply.Some? {
        timeSlots := ReplaceSlot(timeSlots, slotId, reply.value);
      }
    }

    /** `addTimeSlotHandler`: the stored slot goes to the end of the list. */
    method AddTimeSlotHandler(reply: Option<TimeSlot>)
      modifies this
      ensures users == old(users) && currentUser == old(currentUser) && isAuthenticated == old(isAuthenticated) && storedToken == old(storedToken)
      ensures reply.None? ==> timeSlots == old(timeSlots)
      ensures reply.Some? ==> timeSlots == old(timeSlots) + [reply.value]
    {
      if reply.Some? {
        timeSlots := timeSlots + [reply.value];
      }
    }

    /** `editTimeSlotHandler`: the slot with the edited id is replaced by the service's answer. */
    method EditTimeSlotHandler(edited: TimeSlot, reply: Option<TimeSlot>)
      modifies this
      ensures users == old(users) && currentUser == old(currentUser) && isAuthenticated == old(isAuthenticated) && storedToken == old(storedToken)
      ensures reply.None? ==> timeSlots == old(timeSlots)
      ensures reply.Some? ==> timeSlots == ReplaceSlot(old(timeSlots), edited.id, reply.value)
    {
      if reply.Some? {
        timeSlots := ReplaceSlot(timeSlots, edited.id, reply.value);
      }
    }

    /** `deleteTimeSlotHandler`: `deleted` tells whether the request succeeded. */
    method DeleteTimeSlotHandler(slotId: int, deleted: bool)
      modifies this
      ensures users == old(users) && currentUser == old(currentUser) && isAuthenticated == old(isAuthenticated) && storedToken == old(storedToken)
      ensures !deleted ==> timeSlots == old(timeSlots)
      ensures deleted ==> timeSlots == RemoveSlot(old(timeSlots), slotId)
    {
      if deleted {
        timeSlots := RemoveSlot(timeSlots, slotId);
      }
    }

    /** `handleUserChange`: only a user from the list can become the current user. */
    method HandleUserChange(userId: int)
      modifies this
      ensures users == old(users) && timeSlots == old(timeSlots) && isAuthenticated == old(isAuthenticated) && storedToken == old(storedToken)
      ensures currentUser == old(currentUser) || (currentUser.Some? && currentUser.value in users && currentUser.value.id == userId)
      ensures (forall j :: 0 <= j < |users| ==> users[j].id != userId) ==> currentUser == old(currentUser)
      ensures Seqs.FirstIndex(users, HasUserId(userId)).Some? ==>
        currentUser == Some(users[Seqs.FirstIndex(users, HasUserId(userId)).value])
    {
      var selectedUser := Seqs.Find(users, HasUserId(userId));
      if selectedUser.Some? {
        currentUser := selectedUser;
      }
    }
  }
}
