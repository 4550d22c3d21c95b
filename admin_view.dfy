/**
 * The administration tab (app/components/AdminView.tsx): a form for a new
 * slot, an edit dialog holding a draft of one slot, deletion behind a
 * confirmation, and the "Booked by" line of every slot.
 *
 * Form fields hold the text of a `datetime-local` input. Turning that text
 * into a timestamp (`new Date(text)`) is the parameter `parse`; the id the
 * form invents (`Date.now().toString()`) is the parameter `stamp`; and the
 * current time's text, which a fresh form shows, is the parameter `nowText`.
 */
module AdminView {
  import opened Wrappers
  import opened Schema
  import Seqs

  /** The new-slot form: category and the text of the two date inputs. */
  datatype NewSlotDraft = NewSlotDraft(category: string, start: string, end: string)

  /** The form as it starts and as it is reset: "Cat 1", both times at "now". */
  function FreshDraft(nowText: string): (d: NewSlotDraft)
    ensures d.category == "Cat 1" && d.start == nowText && d.end == nowText
  {
    NewSlotDraft("Cat 1", nowText, nowText)
  }

  /** The add guard: all three fields are non-empty strings. The order of start and end is not checked. */
  predicate CanAdd(d: NewSlotDraft)
  {
    d.category != "" && d.start != "" && d.end != ""
  }

  /** The slot `handleAddSlot` hands to the page: the form's values, no owner. */
  function NewSlotPayload(d: NewSlotDraft, stamp: int, parse: string -> Timestamp): (t: TimeSlotCreate)
    ensures t.userId == None && t.id == stamp && t.category == d.category
    ensures t.start == parse(d.start) && t.end == parse(d.end)
  {
    TimeSlotCreate(stamp, d.category, parse(d.start), parse(d.end), None)
  }

  /** `handleDeleteSlot`: the id is passed on only when the user confirms. */
  function HandleDeleteSlot(slotId: int, confirmed: bool): (r: Option<int>)
    ensures r.Some? <==> confirmed
    ensures r.Some? ==> r.value == slotId
  {
    if confirmed then Some(slotId) else None
  }

  /** The condition `u.id === slot.user_id`. */
  function IsOwner(owner: int): User -> bool
  {
    (u: User) => u.id == owner
  }

  /**
   * The "Booked by" line: "Not booked" for a falsy owner (none, or 0),
   * otherwise the owner's name, or "Unknown" when the owner is not in the
   * list or has an empty name.
   */
  function BookedByLabel(slot: TimeSlot, users: seq<User>): (r: string)
    ensures slot.user_id.None? || slot.user_id == Some(0) ==> r == "Not booked"
    ensures slot.user_id.Some? && slot.user_id != Some(0) ==>
      (forall j :: 0 <= j < |users| ==> users[j].id != slot.user_id.value) ==> r == "Unknown"
    ensures slot.user_id.Some? && slot.user_id != Some(0) && r != "Unknown" ==>
      exists j :: 0 <= j < |users| && users[j].id == slot.user_id.value && users[j].name == r
    ensures slot.user_id.Some? && slot.user_id != Some(0) ==>
      match Seqs.FirstIndex(users, IsOwner(slot.user_id.value))
      case Some(j) => r == if users[j].name != "" then users[j].name else "Unknown"
      case None => r == "Unknown"
  {
    if slot.user_id.None? || slot.user_id.value == 0 then "Not booked"
    else
      match Seqs.Find(users, IsOwner(slot.user_id.value))
      case None => "Unknown"
      case Some(u) => if u.name != "" then u.name else "Unknown"
  }

  class AdminPanel {
    var newSlot: NewSlotDraft
    var editingSlot: Option<TimeSlot>

    constructor (nowText: string)
      ensures newSlot == FreshDraft(nowText) && editingSlot == None
    {
      newSlot := FreshDraft(nowText);
      editingSlot := None;
    }

    /** `handleAddSlot`: a complete form is dispatched and reset; an incomplete one is left as it is. */
    method HandleAddSlot(stamp: int, parse: string -> Timestamp, nowText: string) returns (dispatched: Option<TimeSlotCreate>)
      modifies this
      ensures editingSlot == old(editingSlot)
      ensures CanAdd(old(newSlot)) ==>
        dispatched == Some(NewSlotPayload(old(newSlot), stamp, parse)) && newSlot == FreshDraft(nowText)
      ensures !CanAdd(old(newSlot)) ==> dispatched == None && newSlot == old(newSlot)
    {
      if CanAdd(newSlot) {
        dispatched := Some(NewSlotPayload(newSlot, stamp, parse));
        newSlot := FreshDraft(nowText);
      } else {
        dispatched := None;
      }
    }

    /** The Edit button: the dialog starts from the slot as listed. */
    method StartEdit(slot: TimeSlot)
      modifies this
      ensures editingSlot == Some(slot) && newSlot == old(newSlot)
    {
      editingSlot := Some(slot);
    }

    /** `handleEditSlot`: an open draft is dispatched and the dialog's draft cleared. */
    method HandleEditSlot() returns (dispatched: Option<TimeSlot>)
      modifies this
      ensures dispatched == old(editingSlot)
      ensures editingSlot == None && newSlot == old(newSlot)
    {
      dispatched := editingSlot;
      if editingSlot.Some? {
        editingSlot := None;
      }
    }
  }
}
