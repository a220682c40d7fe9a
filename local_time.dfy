/**
 * The one-day shift exactly as src/App.jsx:121-123 and 128-130 write it,
 * with the local time zone in it.
 *
 * `new Date(key)` reads a date-only key as UTC midnight; `getDate` and
 * `setDate` work on the local wall clock; `toISOString` writes the UTC
 * date again. When the zone's offset from UTC changes between the two
 * instants (a daylight-saving change), the UTC date written is not the
 * neighbouring calendar day. The rest of the model uses the calendar
 * shift `Calendar.Next` / `Calendar.Prev`; this module only exhibits how
 * the written code departs from it.
 *
 * Instants and wall-clock readings are whole minutes, counted from
 * 0000-01-01T00:00 (day `n` starts at minute `n * 1440`), so a date's
 * midnight is `Calendar.Ordinal(d) * MinutesPerDay`.
 */
module LocalTime {
  import opened Calendar

  const MinutesPerDay := 1440

  /**
   * A time zone with one offset change: `before` minutes are added to UTC
   * before the instant `switchAt`, `after` minutes from then on.
   */
  datatype TimeZone = TimeZone(switchAt: int, before: int, after: int)

  /** The offset in force at a UTC instant. */
  function OffsetAtInstant(z: TimeZone, t: int): int
  {
    if t < z.switchAt then z.before else z.after
  }

  /**
   * The offset used to read a wall-clock reading back as an instant. A
   * reading that falls in the gap of a forward change, or that occurs
   * twice at a backward change, takes the offset from before the change,
   * as ECMAScript's LocalTZA does.
   */
  function OffsetAtWallClock(z: TimeZone, w: int): int
  {
    if w - z.before < z.switchAt then z.before
    else if w - z.after >= z.switchAt then z.after
    else z.before
  }

  /**
   * The UTC day that `d = new Date(key); d.setDate(d.getDate() + delta);
   * d.toISOString()` names, for the key of UTC day `day`. `setDate` keeps
   * the wall-clock time of day and moves the local date by `delta` days,
   * rolling over month and year ends.
   */
  function ShiftedUtcDay(z: TimeZone, day: int, delta: int): (r: int)
    // with no offset change the shift is exact, whatever the offset
    ensures z.before == z.after ==> r == day + delta
  {
    var start := day * MinutesPerDay;
    var wall := start + OffsetAtInstant(z, start) + delta * MinutesPerDay;
    var instant := wall - OffsetAtWallClock(z, wall);
    instant / MinutesPerDay
  }

  /**
   * A zone at UTC-5 that moves to UTC-4 at 02:00 local time on date `d`
   * (07:00 UTC), as US Eastern time does on 2025-03-09.
   */
  function SpringForwardOn(d: Date): (z: TimeZone)
    requires ValidDate(d)
    ensures z.before == -300 && z.after == -240
    // 02:00 local time, before the change, on date d
    ensures z.switchAt + z.before == Ordinal(d) * MinutesPerDay + 2 * 60
  {
    TimeZone(Ordinal(d) * MinutesPerDay + 7 * 60, -300, -240)
  }

  /**
   * A zone at UTC-4 that moves to UTC-5 at 02:00 local time on date `d`
   * (06:00 UTC), as US Eastern time does on 2025-11-02.
   */
  function FallBackOn(d: Date): (z: TimeZone)
    requires ValidDate(d)
    ensures z.before == -240 && z.after == -300
    // 02:00 local time, before the change, on date d
    ensures z.switchAt + z.before == Ordinal(d) * MinutesPerDay + 2 * 60
  {
    TimeZone(Ordinal(d) * MinutesPerDay + 6 * 60, -240, -300)
  }

  /**
   * As written, the day after the spring-forward date comes out as that
   * same date: the Visit-2 list is filtered to the Visit-1 date itself.
   */
  lemma SpringForwardRepeatsTheDay(d: Date)
    requires ValidDate(d)
    ensures ShiftedUtcDay(SpringForwardOn(d), Ordinal(d), 1) == Ordinal(d)
    ensures ShiftedUtcDay(SpringForwardOn(d), Ordinal(d), 1) != Ordinal(Next(d))
  {
    NextIsOneDayLater(d);
  }

  /**
   * As written, the day before the day after the fall-back date comes out
   * two days back: the Visit-1 list is filtered to the day before the
   * fall-back date.
   */
  lemma FallBackSkipsADay(d: Date)
    requires ValidDate(d)
    ensures ShiftedUtcDay(FallBackOn(d), Ordinal(Next(d)), -1) == Ordinal(d) - 1
    ensures ShiftedUtcDay(FallBackOn(d), Ordinal(Next(d)), -1) != Ordinal(Prev(Next(d)))
  {
    NextIsOneDayLater(d);
    PrevNext(d);
  }
}
