/** Calendar days as whole numbers and the Monday-start week of
    `getWeekStart` (lib/calculations.ts). */
module Calendar {

  /** A calendar day, counted from 1970-01-01 (day 0, a Thursday). */
  type Day = int

  const Sunday := 0
  const Monday := 1

  /** Day of the week as `Date.getDay` numbers it: 0 = Sunday .. 6 = Saturday. */
  function Weekday(d: Day): (w: int)
    ensures 0 <= w < 7
  {
    (d + 4) % 7
  }

  /** `getWeekStart`: the Monday on or before `d`. A Sunday belongs to the
      week that began six days earlier. */
  function WeekStart(d: Day): (m: Day)
    ensures Weekday(m) == Monday
    ensures 0 <= d - m <= 6
  {
    var day := Weekday(d);
    d - day + (if day == Sunday then -6 else 1)
  }

  /** The Monday on or before `d` is the only Monday in the six days up to `d`. */
  lemma {:induction false} WeekStartUnique(d: Day, m: Day)
    requires Weekday(m) == Monday && 0 <= d - m <= 6
    ensures m == WeekStart(d)
  {
    var s := WeekStart(d);
    assert (m + 4) % 7 == (s + 4) % 7;
    assert -6 <= m - s <= 6;
  }

  /** A Sunday maps back six days. */
  lemma WeekStartOfSunday(d: Day)
    requires Weekday(d) == Sunday
    ensures WeekStart(d) == d - 6
  {
  }

  /** A Monday is its own week start, so `WeekStart` is idempotent. */
  lemma WeekStartIdempotent(d: Day)
    ensures WeekStart(WeekStart(d)) == WeekStart(d)
  {
  }

  /** The week start of the day seven days earlier is seven days earlier. */
  lemma WeekStartShift(d: Day)
    ensures WeekStart(d - 7) == WeekStart(d) - 7
  {
    WeekStartUnique(d - 7, WeekStart(d) - 7);
  }
}
