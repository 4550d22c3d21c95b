# Event booking app: the booking state machine and the client state, in Dafny

The Event Bookings App lets signed-in users book time slots of three categories
("Cat 1", "Cat 2", "Cat 3") in a week calendar. A FastAPI service keeps users and
slots in a relational database through SQLAlchemy. The model assumes SQLite, the
engine the service's tests use; the database configuration module
`backend/database.py` is not part of this model. A Next.js page keeps a copy of both lists and patches
it after each call. This project models both sides and proves properties of the model.

- `schema.dfy`: the records of `backend/models.py` and `backend/schemas.py`.
- `crud.dfy`: the data layer `backend/crud.py`. A `Database` class holds the two
  tables. Its methods book, cancel, update, delete and insert rows. Each method is
  proved against a pure function of the old table (`Inserted`, `Booked`,
  `Cancelled`, `Updated`, `Deleted`, `PreferencesSet`). Lemmas about those functions give the
  state machine's laws.
- `routes.dfy`: the routes of `backend/main.py`. Each route is a guard in front of
  one data-layer call: unique email, credential check, owner-only preferences, and
  an authenticated caller for every write.
- `event_utils.dfy`: the client service module `utils/eventUtils.ts`. It holds the
  stored token and the header rule, the Monday-to-Sunday week window, the
  comma-joined preference body and the one-element user list.
- `page.dfy`: the page store `app/page.tsx`, as a class `Home` whose handlers
  replace, append or remove slots by id.
- `calendar_view.dfy`, `event_slot.dfy`, `user_preferences.dfy`, `admin_view.dfy`:
  the four components. These are the visibility filter and day cells, the
  Book/Cancel/Unavailable button, the preference toggle and submit guards, and the
  admin form guards.
- `sync.dfy`: the two sides together. After each successful write, the page's
  patched list equals the service's new table, provided the page held the whole
  table before. That holds after `fetchData` while the table has at most 100
  slots (`Crud.DefaultPage`). A saved preference string reads
  back as the list that was saved. The calendar's substring test on that string
  agrees with list membership.
- `seqs.dfy`, `text.dfy`, `wrappers.dfy`: `filter`/`map`/`find`, `join`/`split`/`includes`, and `Option`.

Modelling choices:
- Ids are integers. The service issues integer keys, and the client only compares
  the values it received.
- Timestamps are whole minutes since 1970-01-01T00:00 local time. A calendar day
  is `t / 1440`, and day 0 is a Thursday.
- The owner field is the wire name `user_id`.
- Stored preferences are one `Option<string>`, as the service stores it.
- A remote call that fails is `None`.
- Two failure kinds are modelled explicitly: a route whose data layer returns no
  row against a declared response model, and an insert that violates a unique
  key. Both are the error `InternalError`.
- Password hashing, password checking and token minting are function parameters.
  So are `Date.now()`, the current time, `confirm()` and text-to-date parsing.
- The model assumes the service lists slots in key order. `timeslots.id` is an
  integer primary key, which SQLite stores as the rowid. `get_timeslots` has no
  `ORDER BY`, and SQLite then scans by rowid. A created slot therefore sits at its key's place in the table.
  The page appends it at the end instead. The two orders agree when the new key
  is the largest.
- The page's `updateUserPreferencesHandler` catches and logs every failure. Its
  effect on the preference form is described under "## Findings".

## Model

| member | source | states |
|---|---|---|
| `Crud.SlotIndex` | backend/crud.py:41 | the row `.filter(TimeSlot.id == id).first()` finds: a matching row with no earlier match, or none at all |
| `Crud.OwnedSlotIndex` | backend/crud.py:65 | the cancel query: the first row with that id AND that owner, or none |
| `Crud.UserIndex` | backend/crud.py:73 | the first user row with that id, or none |
| `Crud.EmailIndex` | backend/crud.py:8-9 | the first user row with that email, or none |
| `Crud.Page` | backend/crud.py:11-12 | offset/limit with SQLite rules: the rows from position `skip` on (a negative offset counts as 0), exactly `limit` of them or all that remain (a negative limit means no limit), in table order |
| `Crud.PageConcat` | backend/crud.py:30-31 | two consecutive pages together are the page spanning both |
| `Crud.DefaultPage` | backend/main.py:54 | the default page (0, 100) is the whole table exactly when it has at most 100 rows, otherwise its first 100 rows |
| `Crud.Booked` | backend/crud.py:56-62 | booking changes only rows keyed by that id, never an id, and only a free row, which gets the caller as owner |
| `Crud.Cancelled` | backend/crud.py:64-70 | cancelling changes only rows keyed by that id, and only a row the caller holds, which becomes free |
| `Crud.Apply` | backend/crud.py:43-44 | the row takes category, start and end from the update and keeps its id and owner |
| `Crud.Updated` | backend/crud.py:40-47 | an update changes only the row keyed by that id: that row gets the update's category, start and end and keeps its id and owner; every other row stays as it was |
| `Crud.Deleted` | backend/crud.py:49-54 | deleting removes one row when the id exists (nothing otherwise) and keeps the rest in order |
| `Crud.InsertPos` | backend/models.py:20 | the place of a new key in a table listed in key order: after every smaller key, before a key at least as large |
| `Crud.Inserted` | backend/crud.py:33-38 | the table after an insert: one row longer, the new row at its key's place, the rows before it and after it unchanged and in order |
| `Crud.PreferencesSet` | backend/crud.py:72-78 | only a row with that user id changes, and only its preferences |
| `Crud.NextUserId` | backend/models.py:9 | the key given to a new user is not in use |
| `Crud.BookFreeSlot` | backend/crud.py:57-61 | after booking a free slot the slot reads back with the caller as owner and every other field as before |
| `Crud.BookTakenSlot` | backend/crud.py:58-62 | booking a held slot leaves the table unchanged, and the slot comes back as it was |
| `Crud.CancelHeldSlot` | backend/crud.py:65-69 | cancelling a slot the caller holds reads back the same slot with no owner |
| `Crud.CancelNotHeld` | backend/crud.py:65-66 | cancelling a slot the caller does not hold finds no row and changes nothing |
| `Crud.BookThenCancel` | backend/crud.py:56-70 | booking a free slot and cancelling it as the same user restores the table exactly |
| `Crud.UpdateWithOwnFields` | backend/crud.py:43-44 | writing a slot's own category, start and end back changes nothing |
| `Crud.UpdateIdempotent` | backend/crud.py:40-47 | applying the same update twice equals applying it once |
| `Crud.UpdateWritesFields` | backend/crud.py:43-46 | after updating an existing slot, the slot found under its id has the update's category, start and end, and its old id and owner |
| `Crud.DeleteKeepsOthers` | backend/crud.py:50-52 | with unique keys, a row survives deletion of `id` exactly when its id differs |
| `Crud.PreferencesOnlyThatUser` | backend/crud.py:73-78 | a missing user leaves the table as it was; otherwise that user reads back with the new preferences and nothing else changed |
| `Crud.InsertedInKeyOrder` | backend/models.py:20 | inserting a key not yet in use keeps the table listed in strictly increasing key order |
| `Crud.InsertedHoldsRow` | backend/crud.py:33-38 | after inserting a fresh key, the new row is the one found under it, and the table holds exactly the old rows plus the new one |
| `Crud.Database.constructor` | backend/models.py:6-26 | an empty database meets the key and unique-email constraints and lists its slots in key order |
| `Crud.Database.GetUser` | backend/crud.py:5-6 | a user with that id from the table, or none when no row has it |
| `Crud.Database.GetUserByEmail` | backend/crud.py:8-9 | a user with that email from the table, or none when no row has it |
| `Crud.Database.GetUsers` | backend/crud.py:11-12 | exactly the page of the users table at offset `skip` with at most `limit` rows, under SQLite's rules |
| `Crud.Database.GetTimeslots` | backend/crud.py:30-31 | exactly the page of the slots table at offset `skip` with at most `limit` rows, in key order |
| `Crud.Database.AuthenticateUser` | backend/crud.py:22-28 | a result is a user with that email whose hash the password passes; with unique emails there is no result exactly when no such user exists |
| `Crud.Database.CreateUser` | backend/crud.py:14-20 | a new email appends a row (fresh key, hashed password, no preferences); a registered email is refused and nothing changes; emails stay unique |
| `Crud.Database.CreateTimeslot` | backend/crud.py:33-38 | a fresh key is stored at its key's place and the table stays in key order; a key in use is refused and nothing changes |
| `Crud.Database.UpdateTimeslot` | backend/crud.py:40-47 | the `setattr` loop over the update's items leaves the table equal to `Updated`; the answer is the row as stored, or none |
| `Crud.Database.DeleteTimeslot` | backend/crud.py:49-54 | the table becomes `Deleted`; the answer is the removed row, or none |
| `Crud.Database.BookTimeslot` | backend/crud.py:56-62 | the table becomes `Booked`; the answer is the row as stored afterwards, whether or not it was free |
| `Crud.Database.CancelBooking` | backend/crud.py:64-70 | the table becomes `Cancelled`; the answer is the freed row, or none when the caller held no such row |
| `Crud.Database.UpdateUserPreferences` | backend/crud.py:72-78 | the table becomes `PreferencesSet`; the answer is the updated user, or none |
| `Routes.Respond` | backend/main.py:73 | a route with a response model answers with the row, or fails with a server error when there is none |
| `Routes.RegisterUser` | backend/main.py:31-36 | a registered email fails with 400 "Email already registered" and stores nothing; otherwise the new user is stored and returned without its hash |
| `Routes.LoginForAccessToken` | backend/main.py:38-47 | fails with 400 "Incorrect email or password" exactly when authentication fails; otherwise a bearer token whose subject is the email |
| `Routes.ReadUsers` | backend/main.py:53-56 | no caller needed; the page of users, each without its password hash |
| `Routes.ReadTimeslots` | backend/main.py:68-71 | no caller needed; exactly the page of slots at offset `skip` with at most `limit` rows, in key order |
| `Routes.AsDict` | backend/main.py:64 | the body's dictionary has exactly the keys id, category, start, end, userId |
| `Routes.RowOf` | backend/crud.py:34 | a key that is not a mapped column (such as `userId`) is rejected; a built row holds the dictionary's values for all five columns |
| `Routes.RenamedBodyIsRow` | backend/main.py:64-65 | after moving `userId` to `user_id`, the dictionary builds the row holding the body's id, category, times and owner |
| `Routes.CreateTimeslot` | backend/main.py:58-66 | no caller: refused and nothing changes; otherwise the renamed body is stored at its key's place, or a server error and no change when its key is in use |
| `Routes.UpdateTimeslot` | backend/main.py:73-80 | no caller: refused and nothing changes; otherwise the table becomes `Updated` and an unknown id is a server error |
| `Routes.DeleteTimeslot` | backend/main.py:82-88 | no caller: refused and nothing changes; otherwise the table becomes `Deleted` and the answer is the removed row |
| `Routes.BookTimeslot` | backend/main.py:90-96 | no caller: refused; otherwise the booking is made for the caller's own id, which is the only owner the route can write |
| `Routes.CancelBooking` | backend/main.py:98-104 | no caller: refused; otherwise only a slot the caller holds is freed, success means exactly that such a slot existed, and the answer is that slot with no owner |
| `Routes.UpdateUserPreferences` | backend/main.py:106-115 | no caller: refused; another user's id: 403 and nothing changes; own id: only that user's preferences change, and the answer is the stored user without its hash |
| `EventUtils.Weekday` | utils/eventUtils.ts:131 | a day of the week between Monday (0) and Sunday (6) |
| `EventUtils.StartOfWeek` | utils/eventUtils.ts:131 | a Monday no later than the day and less than a week before it |
| `EventUtils.MondayUnique` | utils/eventUtils.ts:131 | that Monday is the only one: any Monday within the six days before a day is its week's start |
| `EventUtils.GetWeekDays` | utils/eventUtils.ts:130-134 | seven consecutive days, the first a Monday, the date's own day among them |
| `EventUtils.SameWeekSameDays` | utils/eventUtils.ts:130-134 | two dates in the same Monday-to-Sunday week give the same seven days |
| `EventUtils.AddWeeks` | app/components/CalendarView.tsx:34-35 | moving by `n` weeks moves the day by exactly `7n` |
| `EventUtils.NextWeekDays` | app/components/CalendarView.tsx:34-35 | after moving `n` weeks, every day of the window is `7n` days later |
| `EventUtils.AuthorizationHeader` | utils/eventUtils.ts:39-49 | a header exactly when the token is present and non-empty, reading "Bearer " followed by the token |
| `EventUtils.GetUsers` | utils/eventUtils.ts:75-78 | a one-element list holding the authenticated user |
| `EventUtils.ApiClient.constructor` | utils/eventUtils.ts:29 | the token starts out null |
| `EventUtils.ApiClient.SetToken` | utils/eventUtils.ts:31-33 | the token becomes the given value, including null on logout |
| `EventUtils.ApiClient.Login` | utils/eventUtils.ts:51-55 | on success the stored token and the result are the returned access token; a failed request leaves the token alone |
| `Page.ReplaceSlot` | app/page.tsx:98 | same length and order; slots with the id become the new slot and all others are untouched |
| `Page.ReplaceUser` | app/page.tsx:86 | same length and order; users with the id become the new user and all others are untouched |
| `Page.RemoveSlot` | app/page.tsx:134 | no slot with the id is left, every other slot is kept, and the order is preserved |
| `Page.Home.constructor` | app/page.tsx:29-32 | empty lists, no current user, not authenticated |
| `Page.Home.FetchData` | app/page.tsx:43-54 | on success the lists are replaced and the first fetched user becomes current; on failure nothing changes |
| `Page.Home.Mount` | app/page.tsx:34-41 | a truthy stored token is installed, the session is marked authenticated and the data fetched; otherwise nothing changes |
| `Page.Home.HandleLogin` | app/page.tsx:56-65 | on success the token is stored in both places, the session is authenticated and the data fetched; on failure nothing changes |
| `Page.Home.HandleRegister` | app/page.tsx:67-74 | a failed registration or login changes nothing; otherwise the token is stored and the session authenticated, and the fetched user and slots become the page's lists and current user |
| `Page.Home.HandleLogout` | app/page.tsx:76-81 | token cleared in both places, not authenticated, no current user; the lists stay |
| `Page.Home.UpdateUserPreferencesHandler` | app/page.tsx:83-93 | sends the categories comma-joined; on success replaces the user with that id and replaces the current user only if its id matches; failure changes nothing, and the promise resolves either way |
| `Page.Home.UpdateUserPreferencesRethrowing` | app/page.tsx:83-93 | the same update, with the returned promise resolving exactly when the request succeeded |
| `Page.Home.BookTimeSlotHandler` | app/page.tsx:95-102 | success replaces the slot with that id by the answer; failure changes nothing |
| `Page.Home.CancelBookingHandler` | app/page.tsx:104-111 | success replaces the slot with that id by the answer; failure changes nothing |
| `Page.Home.AddTimeSlotHandler` | app/page.tsx:113-120 | success appends the answer at the end; failure changes nothing |
| `Page.Home.EditTimeSlotHandler` | app/page.tsx:122-129 | success replaces the slot with the edited id by the answer; failure changes nothing |
| `Page.Home.DeleteTimeSlotHandler` | app/page.tsx:131-138 | success removes every slot with that id; failure changes nothing |
| `Page.Home.HandleUserChange` | app/page.tsx:140-145 | the first listed user with that id becomes current; an unknown id changes nothing |
| `Calendar.FilteredSlots` | app/components/CalendarView.tsx:24-31 | only listed slots that pass all three tests, every such slot, and in the original order |
| `Calendar.DaySlots` | app/components/CalendarView.tsx:65-66 | a day cell holds exactly the listed slots starting that day, in list order |
| `Calendar.ShowsPlaceholder` | app/components/CalendarView.tsx:76-78 | "No events scheduled" appears exactly when no listed slot starts that day |
| `Calendar.VisibleIff` | app/components/CalendarView.tsx:24-31 | a slot is listed iff it starts in the week, its category passes ("All" or equal), and the user's preference string contains the category |
| `Calendar.NothingWithoutPreferences` | app/components/CalendarView.tsx:28-29 | no user, or absent or empty preferences, shows nothing |
| `Calendar.AllShowsMore` | app/components/CalendarView.tsx:27 | the "All" list contains the list for any single category, in order |
| `Calendar.ExactlyOneCell` | app/components/CalendarView.tsx:62-66 | a listed slot of the week is in exactly one of the seven day cells |
| `Calendar.IncludesMeansChosen` | app/components/CalendarView.tsx:29 | on a comma-join of known categories, the substring test for a known category is list membership |
| `Calendar.CalendarView.constructor` | app/components/CalendarView.tsx:19-20 | starts at the given time with "All" selected |
| `Calendar.CalendarView.HandlePrevWeek` | app/components/CalendarView.tsx:34 | the anchor moves back exactly one week; the category stays |
| `Calendar.CalendarView.HandleNextWeek` | app/components/CalendarView.tsx:35 | the anchor moves ahead exactly one week; the category stays |
| `Calendar.CalendarView.SelectCategory` | app/components/CalendarView.tsx:50 | the category filter becomes the chosen value; the week stays |
| `Calendar.NextThenPrev` | app/components/CalendarView.tsx:34-35 | a week ahead then a week back returns to the same moment |
| `EventSlot.HandleClick` | app/components/EventSlot.tsx:17-23 | own booking: cancel it; free slot with a user: book it for that user; held by another or no user: nothing; never more than one action |
| `EventSlot.View` | app/components/EventSlot.tsx:33-43 | a button only for a signed-in user; "Cancel" iff own booking, "Unavailable" iff held by another, "Book" iff free; disabled iff held by another |
| `EventSlot.EnabledIffClickActs` | app/components/EventSlot.tsx:36 | a drawn button is enabled exactly when clicking it does something |
| `UserPreferences.Toggle` | app/components/UserPreferences.tsx:22-26 | a present category is removed, with every other category kept in order and with all its copies; an absent one is appended at the end |
| `UserPreferences.DropKeepsOtherCopies` | app/components/UserPreferences.tsx:24 | unticking a category keeps every copy of every other category |
| `UserPreferences.FilterNoDuplicates` | app/components/UserPreferences.tsx:24 | filtering a duplicate-free list leaves it duplicate-free |
| `UserPreferences.ToggleKeepsNoDuplicates` | app/components/UserPreferences.tsx:24 | toggling keeps the selection free of duplicates |
| `UserPreferences.ToggleTwiceAbsent` | app/components/UserPreferences.tsx:24 | ticking an absent category and unticking it restores the exact list |
| `UserPreferences.ToggleTwiceSameSet` | app/components/UserPreferences.tsx:24 | toggling twice restores the same set of categories |
| `UserPreferences.PreferenceForm.constructor` | app/components/UserPreferences.tsx:14 | the selection starts empty |
| `UserPreferences.PreferenceForm.HandleCategoryChange` | app/components/UserPreferences.tsx:22-26 | the selection becomes its toggle |
| `UserPreferences.PreferenceForm.OnCurrentUserChange` | app/components/UserPreferences.tsx:16-20 | truthy preferences replace the selection by their comma-split pieces; otherwise the selection is kept |
| `UserPreferences.PreferenceForm.HandleSubmit` | app/components/UserPreferences.tsx:28-61 | no user: error toast, no call; nothing ticked: error toast, no call; otherwise one call with the user's id and selection, then the success toast iff it resolves and the failure toast iff it rejects |
| `AdminView.FreshDraft` | app/components/AdminView.tsx:19-23 | a reset form has category "Cat 1" and both times at the current time |
| `AdminView.NewSlotPayload` | app/components/AdminView.tsx:28-34 | the dispatched slot has no owner and takes category, start and end from the form |
| `AdminView.HandleDeleteSlot` | app/components/AdminView.tsx:50-54 | the id is passed on exactly when the user confirms |
| `AdminView.BookedByLabel` | app/components/AdminView.tsx:97 | "Not booked" for a falsy owner; otherwise the name of the first listed user with the owner's id, or "Unknown" when there is no such user or the name is empty |
| `AdminView.AdminPanel.constructor` | app/components/AdminView.tsx:19-24 | a fresh form and no edit draft |
| `AdminView.AdminPanel.HandleAddSlot` | app/components/AdminView.tsx:26-41 | a form with all three fields non-empty is dispatched and reset, whatever the order of its times; otherwise nothing is dispatched and the form stays |
| `AdminView.AdminPanel.StartEdit` | app/components/AdminView.tsx:102 | the edit draft becomes the chosen slot |
| `AdminView.AdminPanel.HandleEditSlot` | app/components/AdminView.tsx:43-48 | an open draft is dispatched; the draft is cleared afterwards |
| `Sync.UpdateOf` | backend/schemas.py:39-40 | the service reads only category, start and end from an edited slot |
| `Sync.BookKeepsClientInStep` | app/page.tsx:98 | with unique keys, the page's patched list after a booking equals the service's new table |
| `Sync.CancelKeepsClientInStep` | app/page.tsx:107 | with unique keys, the page's patched list after a cancellation equals the service's new table |
| `Sync.EditKeepsClientInStep` | app/page.tsx:125 | with unique keys, the patched list after an edit equals the service's table, and the owner survives the edit |
| `Sync.DeleteKeepsClientInStep` | app/page.tsx:134 | with unique keys, the filtered list after a delete equals the service's table |
| `Sync.AddKeepsClientInStep` | app/page.tsx:116 | when the new slot's key exceeds every key in the table, the page's appended list equals the service's table |
| `Sync.AddWithSmallerKeyReorders` | backend/crud.py:31 | a new key smaller than the last listed key is not listed at the end by the service, so the page's order then differs |
| `Sync.SubmitThroughPage` | app/components/UserPreferences.tsx:47-59 | submitting through the page's handler as written shows "Preferences Saved" whether or not the request succeeded; after a failure the users are unchanged |
| `Sync.SubmitThroughPageRethrowing` | app/components/UserPreferences.tsx:47-59 | submitting through the rethrowing handler shows "Preferences Saved" when the request succeeded and the failure toast when it did not |
| `Sync.PreferencesRoundTrip` | utils/eventUtils.ts:85 | splitting the stored string on "," gives back the saved non-empty list when no category holds a comma |
| `Sync.SavedPreferencesDriveCalendar` | app/components/CalendarView.tsx:28-29 | after saving a non-empty list of known categories, the calendar lets a known category through iff it is in the list |
| `Sync.BookedSlotOffersCancel` | app/components/EventSlot.tsx:41 | once the service books a free slot for a user, that user's button under it reads "Cancel" |
| `Text.SplitJoin` | app/components/UserPreferences.tsx:18 | `split` undoes `join` on a non-empty list of separator-free pieces |
| `Text.IncludesJoin` | app/components/CalendarView.tsx:29 | on a join of equal-length, separator-free pieces, the substring test for a separator-free string of that length is list membership |
| `Text.SplitJoinEmpty` | app/components/UserPreferences.tsx:18 | the join of an empty list splits into one empty piece, not into the empty list |
| `Seqs.FilterCount` | app/components/UserPreferences.tsx:24 | `filter` keeps every copy of an element that satisfies the test and drops every copy of one that does not |

## Findings

| source | as written | input that shows it | evidently intended | confidence | as-written member | corrected member |
|---|---|---|---|---|---|---|
| app/page.tsx:83-93 with app/components/UserPreferences.tsx:47-59 | `updateUserPreferencesHandler` catches and logs a failed request, so the promise the preference form awaits always resolves. The form shows "Preferences Saved" and never its failure toast. | a signed-in user with one category ticked submits while the `PUT /users/{id}/preferences` request fails: the users are unchanged and the toast reads "Preferences Saved" | the handler passes the failure on, so the form shows "Failed to save preferences" | medium; not executed | `Sync.SubmitThroughPage` | `Sync.SubmitThroughPageRethrowing` |

## Left out

- HTTP and the frameworks are left out: axios, the FastAPI app, CORS, SQLAlchemy
  sessions, `commit` and `refresh`. Each request is a call on the in-memory tables,
  and each remote answer is a parameter.
- The authentication module `backend/auth.py` is not part of this model. Hashing,
  password checking and token minting are function parameters. The caller that
  `get_current_user` yields is a parameter, with `None` for a rejected request.
  No status code is assumed for that rejection.
- `GET /users/me` is not modelled as a route; its answer is the `me` that `EventUtils.GetUsers` receives.
- date-fns and JavaScript/Python date handling are left out. This covers
  formatting, ISO strings and daylight-saving shifts. A timestamp is a whole
  number of local minutes, and a calendar day is that number divided by 1440.
- Converting dates on every slot-returning call (`new Date(...)`) is the identity
  on timestamps. The other server fields pass through unchanged.
- `localStorage`, `confirm`, `toast` and `console` are replaced by a field, a boolean input, a returned value and nothing.
- Rendering, CSS, the draft field setters of the admin form and the edit dialog, and the week heading are left out.
- Async interleaving is left out. This covers `Promise.all`, the login handler's
  un-awaited `fetchData`, and stale closures. Handlers run one after another.
- `saveTimeSlots` and `saveUsers` are unused by the application and are not modelled.
- The client's `EventCategory` type is the plain string; the categories the menus offer are `Calendar.KnownCategories`.
- `TimeSlotCreate` declares string ids and owners, which SQLite stores as integers. The model uses integers throughout.
- The foreign key from `timeslots.user_id` to `users.id` is not enforced by SQLite, and the model does not enforce it either.
- The rejection of a malformed email address by `EmailStr` happens before any route runs and is not modelled.
- `EmailStr` also normalises an address before `register_user` or `authenticate_user`
  sees it, for instance by lower-casing the domain. The model compares emails as
  raw strings, so addresses that normalise to the same value count as different
  accounts here.
- Routes.RowOf: builds a row only from a dictionary that holds all five columns
  with values of their types. SQLAlchemy's constructor also accepts a dictionary
  that lacks some columns and leaves them unset. The route always passes all
  five, so this case never arises here.
- backend/test_main.py calls routes the service does not define, and it posts form
  fields to `/token`. Only its booking assertion is used here.
- Sync: the agreement lemmas assume the page's list equals the service's table.
  After `fetchData` the page holds only the default page `Page(slots, 0, 100)`,
  because `getTimeSlots` sends no `skip` or `limit`. So the lemmas apply while the
  table has at most 100 slots.
- Sync: with more than 100 slots, the page holds the first 100. A delete then lets
  the 101st row into the service's next default page, but not into the page's
  list. A slot added past position 100 disappears from the page after a reload.
  This window is not modelled.
- Sync: concurrent edits by other clients are not modelled.
- Database engine: the model assumes SQLite. On another engine, the key-order
  invariant `Crud.SlotsInKeyOrder` and the negative offset and limit rules of
  `Crud.IsPage` would not hold. A scan without `ORDER BY` has no specified order,
  and a negative `LIMIT` is rejected.
