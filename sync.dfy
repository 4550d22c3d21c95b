/**
 * How the client's copy of the slot table follows the service's table.
 *
 * After a successful book, cancel, edit or delete, the page patches its
 * list from the service's answer instead of fetching it again. These
 * lemmas show that, as long as the page's list equals the table and the
 * table's keys are unique, the patched list equals the service's new
 * table. They also connect the preference form, the wire format and the
 * calendar filter.
 */
module Sync {
  import opened Wrappers
  import opened Schema
  import opened Crud
  import opened Page
  import Seqs
  import Text
  import EventUtils
  import Calendar
  import EventSlot
  import UserPreferences

  /** Replacing the one row keyed `id` by its new version gives the new table, when only that row changed. */
  lemma ReplaceChangedRow(slots: seq<TimeSlot>, after: seq<TimeSlot>, id: int, i: nat)
    requires UniqueSlotIds(slots)
    requires i < |slots| && slots[i].id == id
    requires OnlyRowChanged(slots, after, id)
    ensures ReplaceSlot(slots, id, after[i]) == after
  {
    var r := ReplaceSlot(slots, id, after[i]);
    forall j | 0 <= j < |slots|
      ensures r[j] == after[j]
    {
      if slots[j].id == id && j != i {
        assert false;
      }
    }
  }

  /** After a booking the page's list equals the service's table. */
  lemma BookKeepsClientInStep(slots: seq<TimeSlot>, id: int, uid: int)
    requires UniqueSlotIds(slots) && SlotIndex(slots, id).Some?
    ensures var after := Booked(slots, id, uid);
      SlotById(after, id).Some? && ReplaceSlot(slots, id, SlotById(after, id).value) == after
  {
    var after := Booked(slots, id, uid);
    SlotIndexFollowsIds(slots, after, id);
    ReplaceChangedRow(slots, after, id, SlotIndex(slots, id).value);
  }

  /** After a cancellation the page's list equals the service's table. */
  lemma CancelKeepsClientInStep(slots: seq<TimeSlot>, id: int, uid: int)
    requires UniqueSlotIds(slots) && OwnedSlotIndex(slots, id, uid).Some?
    ensures var i := OwnedSlotIndex(slots, id, uid).value;
      ReplaceSlot(slots, id, slots[i].(user_id := None)) == Cancelled(slots, id, uid)
  {
    var i := OwnedSlotIndex(slots, id, uid).value;
    ReplaceChangedRow(slots, Cancelled(slots, id, uid), id, i);
  }

  /** The fields of an edited slot the service accepts: the request body read as a `TimeSlotUpdate`. */
  function UpdateOf(edited: TimeSlot): (u: TimeSlotUpdate)
    ensures u.category == edited.category && u.start == edited.start && u.end == edited.end
  {
    TimeSlotUpdate(edited.category, edited.start, edited.end)
  }

  /** After an edit the page's list equals the service's table, and the slot keeps its owner whatever the client sent. */
  lemma EditKeepsClientInStep(slots: seq<TimeSlot>, edited: TimeSlot)
    requires UniqueSlotIds(slots) && SlotIndex(slots, edited.id).Some?
    ensures var after := Updated(slots, edited.id, UpdateOf(edited));
      && SlotById(after, edited.id).Some?
      && ReplaceSlot(slots, edited.id, SlotById(after, edited.id).value) == after
      && SlotById(after, edited.id).value.user_id == SlotById(slots, edited.id).value.user_id
  {
    var after := Updated(slots, edited.id, UpdateOf(edited));
    SlotIndexFollowsIds(slots, after, edited.id);
    ReplaceChangedRow(slots, after, edited.id, SlotIndex(slots, edited.id).value);
  }

  /** Removing an id no row carries keeps the whole list. */
  lemma RemoveAbsent(slots: seq<TimeSlot>, id: int)
    requires forall j :: 0 <= j < |slots| ==> slots[j].id != id
    ensures RemoveSlot(slots, id) == slots
  {
    Seqs.FilterKeepsAll(slots, IsNotSlot(id));
  }

  /** Removing an id from the join of two lists removes it from each. */
  lemma RemoveAppend(a: seq<TimeSlot>, b: seq<TimeSlot>, id: int)
    ensures RemoveSlot(a + b, id) == RemoveSlot(a, id) + RemoveSlot(b, id)
  {
    Seqs.FilterAppend(a, b, IsNotSlot(id));
  }

  /** Removing the id of the one row that carries it leaves the rows around it. */
  lemma RemoveAround(before: seq<TimeSlot>, x: TimeSlot, rest: seq<TimeSlot>, id: int)
    requires x.id == id
    requires forall j :: 0 <= j < |before| ==> before[j].id != id
    requires forall j :: 0 <= j < |rest| ==> rest[j].id != id
    ensures RemoveSlot(before + [x] + rest, id) == before + rest
  {
    RemoveAppend(before + [x], rest, id);
    RemoveAppend(before, [x], id);
    RemoveAbsent(before, id);
    RemoveAbsent(rest, id);
    assert RemoveSlot([x], id) == [];
    assert before + [] == before;
  }

  /** After a deletion the page's list equals the service's table. */
  lemma DeleteKeepsClientInStep(slots: seq<TimeSlot>, id: int)
    requires UniqueSlotIds(slots)
    ensures RemoveSlot(slots, id) == Deleted(slots, id)
  {
    match SlotIndex(slots, id)
    case None =>
      RemoveAbsent(slots, id);
    case Some(i) =>
      var before, rest := slots[..i], slots[i + 1..];
      assert slots == before + [slots[i]] + rest;
      assert forall j :: 0 <= j < |rest| ==> rest[j] == slots[i + 1 + j];
      RemoveAround(before, slots[i], rest, id);
      assert Deleted(slots, id) == before + rest;
  }

  /** The preference string the service stores splits back into the categories the form sent. */
  lemma PreferencesRoundTrip(categories: seq<string>)
    requires |categories| >= 1
    requires forall k :: 0 <= k < |categories| ==> ',' !in categories[k]
    ensures Text.Split(EventUtils.EncodePreferences(categories), ',') == categories
  {
    Text.SplitJoin(categories, ',');
  }

  /**
   * For a user whose stored preferences were saved from a non-empty list
   * of known categories, the calendar lets a slot of a known category
   * through exactly when that category is in the list.
   */
  lemma SavedPreferencesDriveCalendar(user: User, categories: seq<string>, slot: TimeSlot)
    requires |categories| >= 1
    requires forall k :: 0 <= k < |categories| ==> categories[k] in Calendar.KnownCategories
    requires user.preferences == Some(EventUtils.EncodePreferences(categories))
    requires slot.category in Calendar.KnownCategories
    ensures Calendar.MatchesUserPreferences(slot, Some(user)) <==> slot.category in categories
  {
    var s := EventUtils.EncodePreferences(categories);
    assert categories[0] in Calendar.KnownCategories;
    assert s != "" by {
      if |categories| > 1 {
        assert s == categories[0] + [','] + Text.Join(categories[1..], ',');
      }
    }
    Calendar.IncludesMeansChosen(categories, slot.category);
  }

  /** Once the service has booked a free slot for a user, that user's button under it reads "Cancel". */
  lemma BookedSlotOffersCancel(slots: seq<TimeSlot>, id: int, user: User, s: TimeSlot)
    requires SlotById(slots, id) == Some(s) && s.user_id == None
    ensures var booked := SlotById(Booked(slots, id, user.id), id);
      booked.Some? && EventSlot.View(booked.value, Some(user)).value.caption == "Cancel"
  {
    BookFreeSlot(slots, id, user.id, s);
  }

  /**
   * After an add the page appends the stored slot at the end. The service
   * lists it at its key's place, which is the end exactly when its key
   * exceeds every key in the table; a `Date.now()` key does that for slots
   * created earlier from the same clock.
   */
  lemma AddKeepsClientInStep(slots: seq<TimeSlot>, row: TimeSlot)
    requires forall j :: 0 <= j < |slots| ==> slots[j].id < row.id
    ensures Inserted(slots, row) == slots + [row]
  {
    assert InsertPos(slots, row.id) == |slots|;
  }

  /** A slot added with a smaller key than a listed one sits before it in the service's table, not at the end as on the page. */
  lemma AddWithSmallerKeyReorders(slots: seq<TimeSlot>, row: TimeSlot)
    requires |slots| > 0 && row.id < slots[|slots| - 1].id
    ensures Inserted(slots, row) != slots + [row]
  {
    var r := Inserted(slots, row);
    if InsertPos(slots, row.id) < |slots| {
      assert r[|slots|] == slots[|slots| - 1];
    }
  }

  /**
   * Submitting the preference form through the page's handler, as written:
   * the handler swallows a failed request, so the form reports
   * "Preferences Saved" even when nothing was stored.
   */
  method SubmitThroughPage(home: Home, form: UserPreferences.PreferenceForm, reply: Option<User>) returns (toast: UserPreferences.Toast)
    requires home.currentUser.Some? && form.selectedCategories != []
    modifies home
    ensures toast == UserPreferences.SavedToast
    ensures reply.None? ==> home.users == old(home.users) && home.currentUser == old(home.currentUser)
  {
    var user := home.currentUser;
    var body, resolved := home.UpdateUserPreferencesHandler(user.value.id, form.selectedCategories, reply);
    var call;
    call, toast := form.HandleSubmit(user, resolved);
  }

  /**
   * The same submission through a handler that passes the failure on: the
   * form reports "Preferences Saved" exactly when the request succeeded and
   * the failure toast otherwise.
   */
  method SubmitThroughPageRethrowing(home: Home, form: UserPreferences.PreferenceForm, reply: Option<User>) returns (toast: UserPreferences.Toast)
    requires home.currentUser.Some? && form.selectedCategories != []
    modifies home
    ensures reply.Some? ==> toast == UserPreferences.SavedToast
    ensures reply.None? ==> toast == UserPreferences.FailedToast && home.users == old(home.users)
  {
    var user := home.currentUser;
    var body, resolved := home.UpdateUserPreferencesRethrowing(user.value.id, form.selectedCategories, reply);
    var call;
    call, toast := form.HandleSubmit(user, resolved);
  }
}
