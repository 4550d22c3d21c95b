/**
 * The client's service module (utils/eventUtils.ts): the stored bearer
 * token and the header rule that uses it, the week window of the calendar
 * and the wire form of a preference list.
 *
 * Dates are whole minutes since 1970-01-01T00:00 local time, so a calendar
 * day is a day number and `formatDate(a) === formatDate(b)` is equality of
 * day numbers. Day 0 is a Thursday.
 */
module EventUtils {
  import opened Wrappers
  import opened Schema
  import Text

  const MinutesPerDay := 1440
  const MinutesPerWeek := 7 * MinutesPerDay

  /** The calendar day a timestamp falls on (rounding down, also before 1970). */
  function Day(t: Timestamp): int
  {
    t / MinutesPerDay
  }

  /** Day of the week, Monday = 0 through Sunday = 6. */
  function Weekday(d: int): (w: int)
    ensures 0 <= w < 7
  {
    (d + 3) % 7
  }

  /** `startOfWeek(d, { weekStartsOn: 1 })`: the Monday on or before day `d`. */
  function StartOfWeek(d: int): (s: int)
    ensures Weekday(s) == 0
    ensures s <= d < s + 7
  {
    d - Weekday(d)
  }

  /** The Monday of a week is the only Monday within six days before a day of that week. */
  lemma MondayUnique(s: int, d: int)
    requires Weekday(s) == 0 && s <= d < s + 7
    ensures StartOfWeek(d) == s
  {
    var s' := StartOfWeek(d);
    assert (s + 3) % 7 == 0 && (s' + 3) % 7 == 0;
    assert (s + 3) == 7 * ((s + 3) / 7);
    assert (s' + 3) == 7 * ((s' + 3) / 7);
    var q, q' := (s + 3) / 7, (s' + 3) / 7;
    assert s - s' == 7 * (q - q');
    assert -7 < s - s' < 7;
  }

  /** `getWeekDays(date)`: the seven days from Monday to Sunday of the week holding `t`. */
  function GetWeekDays(t: Timestamp): (days: seq<int>)
    ensures |days| == 7
    ensures Weekday(days[0]) == 0
    ensures forall k :: 0 <= k < 7 ==> days[k] == days[0] + k
    ensures Day(t) in days
  {
    var s := StartOfWeek(Day(t));
    var days := seq(7, k => s + k);
    assert days[Day(t) - s] == Day(t);
    days
  }

  /** Two dates of the same Monday-to-Sunday week give the same seven days. */
  lemma SameWeekSameDays(t: Timestamp, u: Timestamp)
    requires Day(u) in GetWeekDays(t)
    ensures GetWeekDays(u) == GetWeekDays(t)
  {
    var days := GetWeekDays(t);
    MondayUnique(days[0], Day(u));
  }

  /** `addWeeks(t, n)`: the same time `n` weeks later (daylight saving is not modelled). */
  function AddWeeks(t: Timestamp, n: int): (u: Timestamp)
    ensures Day(u) == Day(t) + 7 * n
  {
    t + n * MinutesPerWeek
  }

  /** Moving a week ahead moves every day of the window seven days ahead. */
  lemma NextWeekDays(t: Timestamp, n: int)
    ensures forall k :: 0 <= k < 7 ==> GetWeekDays(AddWeeks(t, n))[k] == GetWeekDays(t)[k] + 7 * n
  {
    var a, b := GetWeekDays(t), GetWeekDays(AddWeeks(t, n));
    var s := a[0] + 7 * n;
    assert Weekday(s) == 0 by {
      assert (s + 3) % 7 == (a[0] + 3 + 7 * n) % 7;
    }
    MondayUnique(s, Day(AddWeeks(t, n)));
  }

  // ---------------------------------------------------------------------
  // Requests
  // ---------------------------------------------------------------------

  /**
   * The request interceptor: a header `Authorization: Bearer <token>` is
   * added when the stored token is truthy, i.e. present and not empty.
   */
  function AuthorizationHeader(token: Option<string>): (h: Option<string>)
    ensures h.Some? <==> token.Some? && token.value != ""
    ensures h.Some? ==> |h.value| > 7 && h.value[..7] == "Bearer " && h.value[7..] == token.value
  {
    if token.Some? && token.value != "" then Some("Bearer " + token.value) else None
  }

  /** The body `updateUserPreferences` sends: the categories joined with ",". */
  function EncodePreferences(categories: seq<string>): string
  {
    Text.Join(categories, ',')
  }

  /** The user list `getUsers` returns: only the authenticated user, from `GET /users/me`. */
  function GetUsers(me: User): (users: seq<User>)
    ensures |users| == 1 && users[0] == me
  {
    [me]
  }

  /** The module-level token of utils/eventUtils.ts together with the requests that depend on it. */
  class ApiClient {
    var token: Option<string>

    constructor ()
      ensures token == None
    {
      token := None;
    }

    /** The `Authorization` header the next request carries. */
    function Header(): Option<string>
      reads this
    {
      AuthorizationHeader(token)
    }

    /** `setToken`: also called with `null` on logout. */
    method SetToken(newToken: Option<string>)
      modifies this
      ensures token == newToken
    {
      token := newToken;
    }

    /**
     * `login`: `reply` is the answer of `POST /token`, `None` when the
     * request failed. On success the stored token becomes the returned
     * access token; a failed request throws before the token is touched.
     */
    method Login(reply: Option<Token>) returns (r: Option<string>)
      modifies this
      ensures reply.None? ==> r == None && token == old(token)
      ensures reply.Some? ==> r == Some(reply.value.access_token) && token == r
    {
      if reply.None? {
        return None;
      }
      SetToken(Some(reply.value.access_token));
      r := Some(reply.value.access_token);
    }
  }
}
