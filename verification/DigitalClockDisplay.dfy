/**
 * What `DigitalClockDisplay` computes from the ticker's strings: the
 * `HH:MM:SS` row and the end-of-session countdown shown during 20:00-20:29.
 */
module DigitalClock {
  import opened Wrappers
  import opened KotlinText
  import opened ClockLogic

  /** The texts of the time row, left to right. */
  function TimeRow(hours: string, minutes: string, seconds: string): (row: seq<string>)
    ensures |row| == 5 && row[1] == ":" && row[3] == ":"
    ensures row[0] == hours && row[2] == minutes && row[4] == seconds
  {
    [hours, ":", minutes, ":", seconds]
  }

  /** The texts of a row read side by side. */
  function Join(texts: seq<string>): (line: string)
    ensures |texts| == 0 ==> line == []
  {
    if texts == [] then [] else texts[0] + Join(texts[1..])
  }

  /** The banner under the row. `minutes.toInt()` throws on text that is not an Int. */
  datatype Banner = NoBanner | Countdown(remaining: int) | NumberFormatError

  /**
   * `hours == "20" && minutes.toInt() <= 29`, and then `30 - minutes.toInt()`
   * minutes are left, computed in 32-bit Int arithmetic. The count is
   * `30 - m` unless that overflows the Int range, which only minutes below
   * `30 - INT_MAX` do.
   */
  function EndOfSessionBanner(hours: string, minutes: string): (b: Banner)
    ensures b.NumberFormatError? <==> hours == "20" && ToIntOrNull(minutes).None?
    ensures b.Countdown? <==>
      hours == "20" && ToIntOrNull(minutes).Some? && ToIntOrNull(minutes).value <= 29
    ensures b.Countdown? ==>
      IsInt32(b.remaining) && (b.remaining - (30 - ToIntOrNull(minutes).value)) % 0x1_0000_0000 == 0
    ensures b.Countdown? && 30 - INT_MAX <= ToIntOrNull(minutes).value ==>
      b.remaining == 30 - ToIntOrNull(minutes).value && 1 <= b.remaining
  {
    if hours != "20" then NoBanner
    else match ToIntOrNull(minutes)
      case None => NumberFormatError
      case Some(m) => if m <= 29 then Countdown(WrapInt(30 - m)) else NoBanner
  }

  /**
   * Minutes text below `30 - INT_MAX` makes `30 - minutes` wrap around: the
   * banner then shows a negative count, e.g. -2147483618 for "-2147483648".
   */
  lemma CountdownWrapsAround(minutes: string)
    requires ToIntOrNull(minutes).Some? && ToIntOrNull(minutes).value < 30 - INT_MAX
    ensures EndOfSessionBanner("20", minutes) == Countdown(30 - ToIntOrNull(minutes).value - 0x1_0000_0000)
    ensures EndOfSessionBanner("20", minutes).remaining < 0
  {
    var m := ToIntOrNull(minutes).value;
    assert WrapInt(30 - m) == 30 - m - 0x1_0000_0000;
  }

  /** The text of Int.MIN_VALUE as minutes gives the count -2147483618. */
  lemma CountdownAtIntMin()
    ensures EndOfSessionBanner("20", IntToString(INT_MIN)) == Countdown(-2147483618)
  {
    IntToStringRoundTrip(INT_MIN);
    CountdownWrapsAround(IntToString(INT_MIN));
  }

  /** The countdown text: `あと<n>分で終了だよ！`. */
  function CountdownMessage(remaining: int): (text: string)
    ensures IsNotBlank(text)
  {
    var text := "あと" + IntToString(remaining) + "分で終了だよ！";
    assert text[0] == 'あ' && !IsWhitespace(text[0]);
    text
  }

  /**
   * The countdown text embeds the count verbatim: after "あと" comes a text
   * that parses back to the remaining minutes, then "分で終了だよ！".
   */
  lemma {:induction false} CountdownMessageReadsBack(remaining: int)
    requires IsInt32(remaining)
    ensures var text := CountdownMessage(remaining);
      && 10 <= |text|
      && text[..2] == "あと"
      && text[|text| - 7..] == "分で終了だよ！"
      && ToIntOrNull(text[2..|text| - 7]) == Some(remaining)
  {
    var n := IntToString(remaining);
    var text := CountdownMessage(remaining);
    assert text == "あと" + n + "分で終了だよ！";
    assert text[..2] == "あと";
    assert text[2..|text| - 7] == n;
    assert text[|text| - 7..] == "分で終了だよ！";
    IntToStringRoundTrip(remaining);
  }

  /**
   * On the strings a tick writes, the banner is a countdown exactly during
   * 20:00-20:29, with 30 - minute minutes (1 to 30) left; it never fails to parse.
   */
  lemma BannerOnTickerFields(now: LocalDateTime)
    requires ValidDateTime(now)
    ensures var b := EndOfSessionBanner(TwoDigitField(now.hour), TwoDigitField(now.minute));
      && !b.NumberFormatError?
      && (b.Countdown? <==> now.hour == 20 && now.minute <= 29)
      && (b.Countdown? ==> b.remaining == 30 - now.minute && 1 <= b.remaining <= 30)
  {
    TwoDigitFieldRoundTrip(now.minute);
    TwentyField();
    TwoDigitFieldInjective(now.hour, 20);
    assert TwoDigitField(now.hour) == "20" <==> now.hour == 20;
  }

  /** The hour the banner waits for is printed as "20". */
  lemma TwentyField()
    ensures TwoDigitField(20) == "20"
  {
    assert NatToDigits(2) == ['2'];
    assert NatToDigits(20) == NatToDigits(2) + ['0'];
  }

  /** Other hours, such as "08" or "21", never show the banner. */
  lemma NoBannerOutsideHour20(hours: string, minutes: string)
    requires hours != "20"
    ensures EndOfSessionBanner(hours, minutes) == NoBanner
  {
  }

  /** From 20:30 to 20:59 the banner is gone. */
  lemma NoBannerAfterHalfPast(minutes: string)
    requires ToIntOrNull(minutes).Some? && 30 <= ToIntOrNull(minutes).value
    ensures EndOfSessionBanner("20", minutes) == NoBanner
  {
  }

  /** The row read side by side is the three fields with a ':' between neighbours. */
  lemma JoinTimeRow(h: string, m: string, s: string)
    ensures Join(TimeRow(h, m, s)) == h + (":" + (m + (":" + s)))
  {
    var r4, r3, r2, r1 := [s], [":", s], [m, ":", s], [":", m, ":", s];
    assert Join(r4) == s by { assert r4[1..] == []; }
    assert Join(r3) == ":" + s by { assert r3[1..] == r4; }
    assert Join(r2) == m + (":" + s) by { assert r2[1..] == r3; }
    assert Join(r1) == ":" + (m + (":" + s)) by { assert r1[1..] == r2; }
    assert TimeRow(h, m, s)[1..] == r1;
  }

  /**
   * For a tick's strings the row reads `HH:MM:SS`: eight characters, ':' at
   * positions 2 and 5, and the three pairs parse back to the sampled time.
   */
  lemma TimeRowReadsBack(now: LocalDateTime)
    requires ValidDateTime(now)
    ensures var line := Join(TimeRow(TwoDigitField(now.hour), TwoDigitField(now.minute), TwoDigitField(now.second)));
      && |line| == 8 && line[2] == ':' && line[5] == ':'
      && ToIntOrNull(line[..2]) == Some(now.hour)
      && ToIntOrNull(line[3..5]) == Some(now.minute)
      && ToIntOrNull(line[6..]) == Some(now.second)
  {
    var h, m, s := TwoDigitField(now.hour), TwoDigitField(now.minute), TwoDigitField(now.second);
    TickFieldsRoundTrip(now);
    JoinTimeRow(h, m, s);
    FieldsOfRow(h, m, s);
  }

  /** In a row of three two-character fields each field sits at a fixed position. */
  lemma FieldsOfRow(h: string, m: string, s: string)
    requires |h| == 2 && |m| == 2 && |s| == 2
    ensures var line := h + (":" + (m + (":" + s)));
      && |line| == 8 && line[2] == ':' && line[5] == ':'
      && line[..2] == h && line[3..5] == m && line[6..] == s
  {
    var line := h + (":" + (m + (":" + s)));
    assert line[..2] == h;
    assert line[3..5] == m;
    assert line[6..] == s;
  }
}
