/**
 * One slot in the calendar (app/components/EventSlot.tsx): whether it is
 * booked and by whom, the button drawn for it and what a click asks the
 * page to do.
 */
module EventSlot {
  import opened Wrappers
  import opened Schema

  /** `isBooked`: the slot has an owner. */
  predicate IsBooked(slot: TimeSlot)
  {
    slot.user_id != None
  }

  /** `isBookedByCurrentUser`: the owner is the signed-in user. */
  predicate IsBookedByCurrentUser(slot: TimeSlot, currentUser: Option<User>)
  {
    IsBooked(slot) && currentUser.Some? && slot.user_id == Some(currentUser.value.id)
  }

  /** The page callback a click invokes. */
  datatype Action = CancelBooking(slotId: int) | BookTimeSlot(slotId: int, userId: int)

  /** `handleClick`: at most one callback, chosen by who holds the slot. */
  function HandleClick(slot: TimeSlot, currentUser: Option<User>): (a: Option<Action>)
    ensures IsBookedByCurrentUser(slot, currentUser) <==> a == Some(CancelBooking(slot.id))
    ensures currentUser.Some? ==> (!IsBooked(slot) <==> a == Some(BookTimeSlot(slot.id, currentUser.value.id)))
    ensures IsBooked(slot) && !IsBookedByCurrentUser(slot, currentUser) ==> a == None
    ensures currentUser.None? ==> a == None
  {
    if IsBookedByCurrentUser(slot, currentUser) then Some(CancelBooking(slot.id))
    else if !IsBooked(slot) && currentUser.Some? then Some(BookTimeSlot(slot.id, currentUser.value.id))
    else None
  }

  /** The button's look. */
  datatype Variant = Destructive | Secondary | Default

  datatype Button = Button(caption: string, disabled: bool, variant: Variant)

  /** The button under a slot, drawn only for a signed-in user. */
  function View(slot: TimeSlot, currentUser: Option<User>): (b: Option<Button>)
    ensures b.Some? <==> currentUser.Some?
    ensures b.Some? ==> (b.value.caption == "Cancel" <==> IsBookedByCurrentUser(slot, currentUser))
    ensures b.Some? ==> (b.value.caption == "Unavailable" <==> IsBooked(slot) && !IsBookedByCurrentUser(slot, currentUser))
    ensures b.Some? ==> (b.value.caption == "Book" <==> !IsBooked(slot))
    ensures b.Some? ==> (b.value.disabled <==> IsBooked(slot) && !IsBookedByCurrentUser(slot, currentUser))
  {
    if currentUser.None? then None
    else
      var mine := IsBookedByCurrentUser(slot, currentUser);
      var booked := IsBooked(slot);
      Some(Button(
        if mine then "Cancel" else if booked then "Unavailable" else "Book",
        booked && !mine,
        if mine then Destructive else if booked then Secondary else Default))
  }

  /** A drawn button that is enabled is exactly one whose click does something. */
  lemma EnabledIffClickActs(slot: TimeSlot, currentUser: Option<User>)
    requires currentUser.Some?
    ensures !View(slot, currentUser).value.disabled <==> HandleClick(slot, currentUser).Some?
  {
  }
}
