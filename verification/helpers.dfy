/**
 * Date helpers of `src/utils/helpers.js`: the whole-day difference of two
 * dates, the start or end of today, and setting a date's clock to the size of
 * the time-zone offset.
 *
 * A JavaScript `Date` is a millisecond count on one clock. The model does not
 * distinguish the local clock from UTC; the clock reading and the time-zone
 * offset are parameters instead of ambient values.
 */
module Helpers {
  import opened Wrappers

  const MsPerSecond: int := 1000
  const MsPerMinute: int := 60 * MsPerSecond
  const MsPerHour: int := 60 * MsPerMinute
  const MsPerDay: int := 24 * MsPerHour

  /** The day a timestamp falls on (days since the epoch, rounded down). */
  function DayOf(time: int): int { time / MsPerDay }

  /** Milliseconds since the start of that day, in [0, MsPerDay). */
  function TimeOfDay(time: int): (t: int)
    ensures 0 <= t < MsPerDay
  {
    time % MsPerDay
  }

  /** A JavaScript `Date` object: a timestamp that setters change in place. */
  class JsDate {
    var time: int

    constructor (t: int)
      ensures time == t
    {
      time := t;
    }

    /** `setHours(h, m)`: hours and minutes from the start of the same day; seconds and milliseconds are kept. */
    method SetHours(h: int, m: int)
      modifies this
      ensures time == DayOf(old(time)) * MsPerDay + h * MsPerHour + m * MsPerMinute + old(time) % MsPerMinute
    {
      time := DayOf(time) * MsPerDay + h * MsPerHour + m * MsPerMinute + time % MsPerMinute;
    }

    /** `setUTCHours(h, m, s, ms)`: the whole time of day, from the start of the same day. */
    method SetUtcHours(h: int, m: int, s: int, ms: int)
      modifies this
      ensures time == DayOf(old(time)) * MsPerDay + h * MsPerHour + m * MsPerMinute + s * MsPerSecond + ms
    {
      time := DayOf(time) * MsPerDay + h * MsPerHour + m * MsPerMinute + s * MsPerSecond + ms;
    }
  }

  /**
   * `subtractDates(a, b)`: date-fns `differenceInDays` of the two parsed dates,
   * the number of whole days from b to a, truncated toward zero. An unparsable
   * argument (`undefined` becomes the string "undefined") gives NaN.
   */
  function SubtractDates(a: Option<int>, b: Option<int>): (r: Option<int>)
    ensures r.Some? <==> a.Some? && b.Some?
    ensures r.Some? ==> var d := a.value - b.value;
      (d >= 0 ==> 0 <= r.value && r.value * MsPerDay <= d < (r.value + 1) * MsPerDay) &&
      (d <= 0 ==> r.value <= 0 && (r.value - 1) * MsPerDay < d <= r.value * MsPerDay)
  {
    if a.None? || b.None? then None
    else
      var d := a.value - b.value;
      Some(if d >= 0 then d / MsPerDay else -((-d) / MsPerDay))
  }

  /** The difference is positive exactly when a is at least one whole day later than b. */
  lemma SubtractDatesPositive(a: int, b: int)
    ensures SubtractDates(Some(a), Some(b)).value > 0 <==> a - b >= MsPerDay
  {
  }

  /** Swapping the dates negates the difference. */
  lemma SubtractDatesAntisymmetric(a: int, b: int)
    ensures SubtractDates(Some(b), Some(a)).value == -SubtractDates(Some(a), Some(b)).value
  {
  }

  /** For two dates at the same time of day the difference is exactly the number of days between them. */
  lemma {:induction false} SubtractDatesSameTimeOfDay(dayA: int, dayB: int, t: int)
    requires 0 <= t < MsPerDay
    ensures SubtractDates(Some(dayA * MsPerDay + t), Some(dayB * MsPerDay + t)) == Some(dayA - dayB)
  {
    var d := (dayA * MsPerDay + t) - (dayB * MsPerDay + t);
    assert d == (dayA - dayB) * MsPerDay;
    if dayA >= dayB {
      assert d / MsPerDay == dayA - dayB;
    } else {
      assert -d == (dayB - dayA) * MsPerDay;
      assert (-d) / MsPerDay == dayB - dayA;
    }
  }

  /**
   * `getToday(options)`: a fresh `Date` for `now`, set to 00:00:00.000 of that
   * day, or to 23:59:59.999 when `end` is set. (The source returns its ISO
   * string; the model returns the timestamp.)
   */
  method GetToday(now: int, end: bool) returns (today: int)
    ensures DayOf(today) == DayOf(now)
    ensures !end ==> TimeOfDay(today) == 0
    ensures end ==> TimeOfDay(today) == MsPerDay - 1
  {
    var date := new JsDate(now);
    if end {
      date.SetUtcHours(23, 59, 59, 999);
    } else {
      date.SetUtcHours(0, 0, 0, 0);
    }
    today := date.time;
  }

  /** The size of a time-zone offset in minutes, as whole hours and remaining minutes. */
  function OffsetToHoursMinutes(offset: int): (hm: (int, int))
    ensures hm.0 >= 0 && 0 <= hm.1 < 60
    ensures hm.0 * 60 + hm.1 == if offset < 0 then -offset else offset
  {
    var a := if offset < 0 then -offset else offset;
    (a / 60, a % 60)
  }

  /** The sign of the offset is dropped: east and west of UTC by the same amount give the same clock. */
  lemma {:induction false} OffsetSignDropped(offset: int)
    ensures OffsetToHoursMinutes(offset) == OffsetToHoursMinutes(-offset)
  {
    var hm, hm' := OffsetToHoursMinutes(offset), OffsetToHoursMinutes(-offset);
    var a := if offset < 0 then -offset else offset;
    assert hm.0 * 60 + hm.1 == a == hm'.0 * 60 + hm'.1;
  }

  /**
   * `setLocalHoursToUTCOffset(date)`: sets the hours and minutes of `date` in
   * place to |offset| split into hours and minutes, and returns the same
   * object; a missing date is returned as it is.
   */
  method SetLocalHoursToUtcOffset(date: JsDate?, offset: int) returns (r: JsDate?)
    modifies date
    ensures r == date
    ensures date != null ==>
      var hm := OffsetToHoursMinutes(offset);
      date.time == DayOf(old(date.time)) * MsPerDay + hm.0 * MsPerHour + hm.1 * MsPerMinute + old(date.time) % MsPerMinute
    ensures date != null && -24 * 60 < offset < 24 * 60 ==>
      DayOf(date.time) == DayOf(old(date.time)) &&
      date.time % MsPerMinute == old(date.time) % MsPerMinute &&
      (date.time % MsPerDay) / MsPerMinute == (if offset < 0 then -offset else offset)
  {
    var hm := OffsetToHoursMinutes(offset);
    if date != null {
      date.SetHours(hm.0, hm.1);
      if -24 * 60 < offset < 24 * 60 {
        SetClockKeepsDay(old(date.time), hm.0 * 60 + hm.1);
      }
    }
    r := date;
  }

  /** Setting a clock reading of fewer than 24 hours (in minutes) keeps the day and the seconds. */
  lemma SetClockKeepsDay(time: int, minutes: int)
    requires 0 <= minutes < 24 * 60
    ensures var t := DayOf(time) * MsPerDay + minutes * MsPerMinute + time % MsPerMinute;
      DayOf(t) == DayOf(time) && t % MsPerMinute == time % MsPerMinute &&
      (t % MsPerDay) / MsPerMinute == minutes
  {
    var rest := minutes * MsPerMinute + time % MsPerMinute;
    assert 0 <= rest < MsPerDay;
    var t := DayOf(time) * MsPerDay + rest;
    assert t / MsPerDay == DayOf(time) && t % MsPerDay == rest;
    assert t % MsPerMinute == time % MsPerMinute;
  }
}
