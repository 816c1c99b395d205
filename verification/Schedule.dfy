/** The `Schedule` value: a titled time of day, its `HH:MM` text and the "later today" test. */
module Schedules {
  import opened Wrappers
  import opened KotlinText

  /** The random default id is not modelled: callers supply it. */
  datatype Schedule = Schedule(id: int, title: string, hours: int, minutes: int) {

    /** `getTimeString()`: both fields zero-padded to two characters, joined by ':'. */
    function GetTimeString(): (t: string)
      ensures 0 <= hours <= 23 && 0 <= minutes <= 59 ==>
        |t| == 5 && AllDigits(t[..2]) && t[2] == ':' && AllDigits(t[3..])
    {
      TwoDigitFieldShape(if 0 <= hours < 100 then hours else 0);
      TwoDigitFieldShape(if 0 <= minutes < 100 then minutes else 0);
      TwoDigitField(hours) + ":" + TwoDigitField(minutes)
    }

    /**
     * `isAfterCurrentTime(h, m)`: strictly later on the same day. With minutes
     * in 0..59 on both sides this is a comparison of minutes since midnight.
     */
    function IsAfterCurrentTime(currentHours: int, currentMinutes: int): (after: bool)
      ensures 0 <= minutes <= 59 && 0 <= currentMinutes <= 59 ==>
        (after <==> hours * 60 + minutes > currentHours * 60 + currentMinutes)
    {
      hours > currentHours || (hours == currentHours && minutes > currentMinutes)
    }
  }

  predicate InDay(s: Schedule) {
    0 <= s.hours <= 23 && 0 <= s.minutes <= 59
  }

  /**
   * Splitting the time string at its ':' and parsing both halves gives back
   * the schedule's hours and minutes, for every Int value; the string holds
   * exactly one ':'.
   */
  lemma TimeStringRoundTrip(s: Schedule)
    requires IsInt32(s.hours) && IsInt32(s.minutes)
    ensures var t := s.GetTimeString(); var k := IndexOf(t, ':');
      && 0 <= k
      && ':' !in t[k + 1..]
      && ToIntOrNull(t[..k]) == Some(s.hours)
      && ToIntOrNull(t[k + 1..]) == Some(s.minutes)
  {
    var h, m := TwoDigitField(s.hours), TwoDigitField(s.minutes);
    var t := s.GetTimeString();
    TwoDigitFieldChars(s.hours);
    TwoDigitFieldChars(s.minutes);
    assert ':' !in h by {
      forall i | 0 <= i < |h| ensures h[i] != ':' { }
    }
    assert ':' !in m by {
      forall i | 0 <= i < |m| ensures m[i] != ':' { }
    }
    assert t == h + [':'] + m;
    SplitAtFirst(h, ':', m);
    TwoDigitFieldRoundTrip(s.hours);
    TwoDigitFieldRoundTrip(s.minutes);
  }

  /**
   * For a schedule of the day the time string is `HH:MM`: the first two
   * characters parse back to the hours, the last two to the minutes.
   */
  lemma TimeStringFields(s: Schedule)
    requires InDay(s)
    ensures var t := s.GetTimeString();
      && |t| == 5 && t[2] == ':'
      && ToIntOrNull(t[..2]) == Some(s.hours)
      && ToIntOrNull(t[3..]) == Some(s.minutes)
  {
    var h, m := TwoDigitField(s.hours), TwoDigitField(s.minutes);
    TwoDigitFieldShape(s.hours);
    TwoDigitFieldShape(s.minutes);
    TwoDigitFieldRoundTrip(s.hours);
    TwoDigitFieldRoundTrip(s.minutes);
    var t := s.GetTimeString();
    assert t == h + [':'] + m;
    assert t[..2] == h;
    assert t[3..] == m;
  }

  /** A schedule is never after its own time. */
  lemma NotAfterItself(s: Schedule)
    ensures !s.IsAfterCurrentTime(s.hours, s.minutes)
  {
  }

  /** No wrap-around: at 23:59 nothing of the day is still to come. */
  lemma NothingAfterLastMinute(s: Schedule)
    requires InDay(s)
    ensures !s.IsAfterCurrentTime(23, 59)
  {
  }

  /** Later than a time means later than every earlier time too. */
  lemma AfterIsMonotone(s: Schedule, h: int, m: int, h': int, m': int)
    requires s.IsAfterCurrentTime(h, m)
    requires h' < h || (h' == h && m' <= m)
    ensures s.IsAfterCurrentTime(h', m')
  {
  }
}
