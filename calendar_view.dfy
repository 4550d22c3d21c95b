/**
 * The week calendar (app/components/CalendarView.tsx): which slots are
 * shown, in which day cell, and the week being looked at.
 *
 * A slot is shown when it starts on a day of the displayed week, when it
 * has the selected category (or "All" is selected) and when the current
 * user's preference string contains its category. That last test is the
 * string method `includes`, a substring test, because the service sends
 * preferences as one comma-joined string.
 */
module Calendar {
  import opened Wrappers
  import opened Schema
  import opened EventUtils
  import Seqs
  import Text

  /** The categories the application offers. */
  const KnownCategories: seq<string> := ["Cat 1", "Cat 2", "Cat 3"]

  /** `isInCurrentWeek`: the slot starts on one of the displayed days. */
  predicate IsInCurrentWeek(slot: TimeSlot, weekDays: seq<int>)
  {
    Day(slot.start) in weekDays
  }

  /** `matchesCategory`: "All" lets every category through. */
  predicate MatchesCategory(slot: TimeSlot, selectedCategory: string)
  {
    selectedCategory == "All" || slot.category == selectedCategory
  }

  /** `matchesUserPreferences`: a user whose preference string is non-empty and contains the category. */
  predicate MatchesUserPreferences(slot: TimeSlot, currentUser: Option<User>)
  {
    && currentUser.Some?
    && currentUser.value.preferences.Some?
    && currentUser.value.preferences.value != ""
    && Text.Includes(currentUser.value.preferences.value, slot.category)
  }

  /** The condition of `filteredSlots`. */
  predicate IsVisible(slot: TimeSlot, weekDays: seq<int>, selectedCategory: string, currentUser: Option<User>)
  {
    IsInCurrentWeek(slot, weekDays) && MatchesCategory(slot, selectedCategory) && MatchesUserPreferences(slot, currentUser)
  }

  function Visible(weekDays: seq<int>, selectedCategory: string, currentUser: Option<User>): TimeSlot -> bool
  {
    (slot: TimeSlot) => IsVisible(slot, weekDays, selectedCategory, currentUser)
  }

  /** `filteredSlots` for the week of `currentDate`. */
  function FilteredSlots(timeSlots: seq<TimeSlot>, currentDate: Timestamp, selectedCategory: string, currentUser: Option<User>): (r: seq<TimeSlot>)
    ensures forall i :: 0 <= i < |r| ==> r[i] in timeSlots && IsVisible(r[i], GetWeekDays(currentDate), selectedCategory, currentUser)
    ensures forall i :: 0 <= i < |timeSlots| && IsVisible(timeSlots[i], GetWeekDays(currentDate), selectedCategory, currentUser) ==> timeSlots[i] in r
    ensures Seqs.IsSubsequence(r, timeSlots)
  {
    Seqs.Filter(timeSlots, Visible(GetWeekDays(currentDate), selectedCategory, currentUser))
  }

  function StartsOn(day: int): TimeSlot -> bool
  {
    (slot: TimeSlot) => Day(slot.start) == day
  }

  /** The slots listed in the cell of `day`. */
  function DaySlots(filtered: seq<TimeSlot>, day: int): (r: seq<TimeSlot>)
    ensures forall i :: 0 <= i < |r| ==> r[i] in filtered && Day(r[i].start) == day
    ensures forall i :: 0 <= i < |filtered| && Day(filtered[i].start) == day ==> filtered[i] in r
    ensures Seqs.IsSubsequence(r, filtered)
  {
    Seqs.Filter(filtered, StartsOn(day))
  }

  /** "No events scheduled" is shown in a cell exactly when no listed slot starts that day. */
  function ShowsPlaceholder(filtered: seq<TimeSlot>, day: int): (b: bool)
    ensures b <==> forall i :: 0 <= i < |filtered| ==> Day(filtered[i].start) != day
  {
    |DaySlots(filtered, day)| == 0
  }

  /** A slot is listed exactly when all three conditions hold. */
  lemma VisibleIff(timeSlots: seq<TimeSlot>, currentDate: Timestamp, selectedCategory: string, currentUser: Option<User>, slot: TimeSlot)
    requires slot in timeSlots
    ensures slot in FilteredSlots(timeSlots, currentDate, selectedCategory, currentUser) <==>
      Day(slot.start) in GetWeekDays(currentDate)
      && (selectedCategory == "All" || slot.category == selectedCategory)
      && MatchesUserPreferences(slot, currentUser)
  {
    var r := FilteredSlots(timeSlots, currentDate, selectedCategory, currentUser);
    var i :| 0 <= i < |timeSlots| && timeSlots[i] == slot;
    if slot in r {
      var k :| 0 <= k < |r| && r[k] == slot;
    }
  }

  /** Without a user, or with absent or empty preferences, the calendar is empty. */
  lemma NothingWithoutPreferences(timeSlots: seq<TimeSlot>, currentDate: Timestamp, selectedCategory: string, currentUser: Option<User>)
    requires currentUser.None? || currentUser.value.preferences.None? || currentUser.value.preferences.value == ""
    ensures FilteredSlots(timeSlots, currentDate, selectedCategory, currentUser) == []
  {
  }

  /** Choosing "All" lists every slot a single category would, in the same order. */
  lemma AllShowsMore(timeSlots: seq<TimeSlot>, currentDate: Timestamp, category: string, currentUser: Option<User>)
    ensures Seqs.IsSubsequence(FilteredSlots(timeSlots, currentDate, category, currentUser),
                               FilteredSlots(timeSlots, currentDate, "All", currentUser))
  {
    var days := GetWeekDays(currentDate);
    Seqs.FilterMonotone(timeSlots, Visible(days, category, currentUser), Visible(days, "All", currentUser));
  }

  /** Every listed slot sits in exactly one of the seven day cells. */
  lemma ExactlyOneCell(filtered: seq<TimeSlot>, currentDate: Timestamp, slot: TimeSlot)
    requires slot in filtered && Day(slot.start) in GetWeekDays(currentDate)
    ensures var days := GetWeekDays(currentDate);
      var k := Day(slot.start) - days[0];
      0 <= k < 7 && slot in DaySlots(filtered, days[k])
      && forall j :: 0 <= j < 7 && j != k ==> slot !in DaySlots(filtered, days[j])
  {
    var i :| 0 <= i < |filtered| && filtered[i] == slot;
  }

  /** Every known category is five characters long and has no comma. */
  lemma KnownCategoriesShape()
    ensures forall k :: 0 <= k < |KnownCategories| ==> |KnownCategories[k]| == 5 && ',' !in KnownCategories[k]
  {
  }

  /**
   * When the preference string is a comma-join of known categories, the
   * substring test on it agrees with membership in the list.
   */
  lemma IncludesMeansChosen(chosen: seq<string>, category: string)
    requires forall k :: 0 <= k < |chosen| ==> chosen[k] in KnownCategories
    requires category in KnownCategories
    ensures Text.Includes(EncodePreferences(chosen), category) <==> category in chosen
  {
    KnownCategoriesShape();
    Text.IncludesJoin(chosen, category, ',');
  }

  /** The state of the calendar: the date whose week is shown and the category filter. */
  class CalendarView {
    var currentDate: Timestamp
    var selectedCategory: string

    constructor (now: Timestamp)
      ensures currentDate == now && selectedCategory == "All"
    {
      currentDate := now;
      selectedCategory := "All";
    }

    /** `weekDays`. */
    function WeekDays(): seq<int>
      reads this
    {
      GetWeekDays(currentDate)
    }

    /** The slots the calendar lists for this week and category. */
    function Shown(timeSlots: seq<TimeSlot>, currentUser: Option<User>): seq<TimeSlot>
      reads this
    {
      FilteredSlots(timeSlots, currentDate, selectedCategory, currentUser)
    }

    /** `handlePrevWeek`. */
    method HandlePrevWeek()
      modifies this
      ensures currentDate == AddWeeks(old(currentDate), -1) && selectedCategory == old(selectedCategory)
    {
      currentDate := AddWeeks(currentDate, -1);
    }

    /** `handleNextWeek`. */
    method HandleNextWeek()
      modifies this
      ensures currentDate == AddWeeks(old(currentDate), 1) && selectedCategory == old(selectedCategory)
    {
      currentDate := AddWeeks(currentDate, 1);
    }

    /** The category menu. */
    method SelectCategory(category: string)
      modifies this
      ensures selectedCategory == category && currentDate == old(currentDate)
    {
      selectedCategory := category;
    }
  }

  /** Going a week ahead and a week back shows the same moment again. */
  lemma NextThenPrev(t: Timestamp)
    ensures AddWeeks(AddWeeks(t, 1), -1) == t
  {
  }
}
