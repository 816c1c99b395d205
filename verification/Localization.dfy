/**
 * The localized string resources: the two `StringResources` implementations
 * (Japanese and English) with their weekday labels, date template and the
 * schedule messages, and the choice of resources by language. The constant
 * labels without logic (button captions, placeholders, preview data) are not
 * modelled, except the "completed" caption the task lines use.
 */
module Localization {
  import opened Wrappers
  import opened KotlinText
  import ClockLogic
  import opened Schedules

  datatype Language = Japanese | English

  datatype StringResources = JapaneseStringResources | EnglishStringResources {

    /** `taskCompleted`: the caption appended to a completed task's line. */
    function TaskCompleted(): (caption: string)
      ensures IsNotBlank(caption)
    {
      var caption := if JapaneseStringResources? then "完了" else "Completed";
      assert !IsWhitespace(caption[0]);
      caption
    }

    /** `monday` ... `sunday`: one character in Japanese, a three-letter abbreviation in English. */
    function DayLabel(d: ClockLogic.DayOfWeek): (caption: string)
      ensures |caption| == if JapaneseStringResources? then 1 else 3
    {
      match this
      case JapaneseStringResources =>
        (match d
         case Monday => "月"
         case Tuesday => "火"
         case Wednesday => "水"
         case Thursday => "木"
         case Friday => "金"
         case Saturday => "土"
         case Sunday => "日")
      case EnglishStringResources =>
        (match d
         case Monday => "Mon"
         case Tuesday => "Tue"
         case Wednesday => "Wed"
         case Thursday => "Thu"
         case Friday => "Fri"
         case Saturday => "Sat"
         case Sunday => "Sun")
    }

    /**
     * `dateFormat(year, month, day, dayOfWeek)`: `<y>年<m>月<d>日 (<w>)` in
     * Japanese, `<m>/<d>/<y> (<w>)` in English. Both end with the weekday in
     * parentheses.
     */
    function DateFormat(year: int, month: int, day: int, dayOfWeek: string): (text: string)
      ensures |dayOfWeek| + 3 <= |text|
      ensures text[|text| - |dayOfWeek| - 3..] == " (" + dayOfWeek + ")"
    {
      var head := if JapaneseStringResources? then
          IntToString(year) + "年" + IntToString(month) + "月" + IntToString(day) + "日"
        else
          IntToString(month) + "/" + IntToString(day) + "/" + IntToString(year);
      assert head + " (" + dayOfWeek + ")" == head + (" (" + dayOfWeek + ")");
      head + " (" + dayOfWeek + ")"
    }

    /** The fixed text before the time in `nextSchedule`. */
    function NextSchedulePrefix(): string {
      if JapaneseStringResources? then "次の予定: " else "Next schedule: "
    }

    /** `nextSchedule(time, title)`: the prefix, the time, a space, the title. */
    function NextSchedule(time: string, title: string): (text: string)
      ensures |text| == |NextSchedulePrefix()| + |time| + 1 + |title|
      ensures text[..|NextSchedulePrefix()|] == NextSchedulePrefix()
      ensures text[|NextSchedulePrefix()|..|NextSchedulePrefix()| + |time|] == time
      ensures text[|NextSchedulePrefix()| + |time|] == ' '
      ensures text[|text| - |title|..] == title
    {
      var p := NextSchedulePrefix();
      var text := p + time + " " + title;
      assert text == p + time + [' '] + title;
      text
    }

    /** The fixed text between the title and the count in `minutesUntilSchedule`. */
    function MinutesInfix(): string {
      if JapaneseStringResources? then "まで" else " in "
    }

    /** The fixed text after the count in `minutesUntilSchedule`. */
    function MinutesSuffix(): string {
      if JapaneseStringResources? then "分だよ" else " minutes"
    }

    /** `minutesUntilSchedule(title, minutes)`: `<title>まで<n>分だよ` or `<title> in <n> minutes`. */
    function MinutesUntilSchedule(title: string, minutes: int): (text: string)
      ensures |title| <= |text|
      ensures text[..|title|] == title
    {
      var rest := if JapaneseStringResources? then "まで" + IntToString(minutes) + "分だよ"
        else " in " + IntToString(minutes) + " minutes";
      assert (title + rest)[..|title|] == title;
      title + rest
    }
  }

  /** `LocalStringResources`' default, used when no language was provided. */
  const DEFAULT_STRING_RESOURCES: StringResources := JapaneseStringResources

  /** `ProvideStringResources(language)`: the `when` choosing the implementation. */
  function ProvideStringResources(language: Language): (res: StringResources)
    ensures res.JapaneseStringResources? <==> language == Japanese
    ensures res.EnglishStringResources? <==> language == English
  {
    match language
    case Japanese => JapaneseStringResources
    case English => EnglishStringResources
  }

  /** The default resources are the ones chosen for Japanese. */
  lemma DefaultIsJapanese()
    ensures DEFAULT_STRING_RESOURCES == ProvideStringResources(Japanese)
  {
  }

  /** In each language the seven weekdays get seven different labels. */
  lemma DayLabelsDistinct(res: StringResources, a: ClockLogic.DayOfWeek, b: ClockLogic.DayOfWeek)
    ensures res.DayLabel(a) == res.DayLabel(b) <==> a == b
  {
  }

  /**
   * The Japanese resources agree with the labels and the template the ticker
   * hard-codes: same weekday characters, same date string.
   */
  lemma JapaneseMatchesTicker(now: ClockLogic.LocalDateTime)
    ensures JapaneseStringResources.DayLabel(now.dayOfWeek) == ClockLogic.JapaneseWeekday(now.dayOfWeek)
    ensures JapaneseStringResources.DateFormat(now.year, now.monthNumber, now.dayOfMonth,
      JapaneseStringResources.DayLabel(now.dayOfWeek)) == ClockLogic.DateLabel(now)
  {
    var y, m, d := IntToString(now.year), IntToString(now.monthNumber), IntToString(now.dayOfMonth);
    var w := ClockLogic.JapaneseWeekday(now.dayOfWeek);
    assert y + "年" + m + "月" + d + "日" + " (" + w + ")" == y + "年" + m + "月" + d + "日 (" + w + ")";
  }

  /** Regrouping a concatenation of seven strings to the right. */
  lemma Concat7(a: string, b: string, c: string, d: string, e: string, f: string, g: string)
    ensures a + b + c + d + e + f + g == a + (b + (c + (d + (e + (f + g)))))
  {
  }

  /**
   * The English date reads back: month up to the first '/', day up to the
   * next '/', year up to the next ' ', each as `toIntOrNull` parses it, and
   * the weekday in parentheses is what remains.
   */
  lemma {:induction false} EnglishDateReadsBack(year: int, month: int, day: int, w: string)
    requires IsInt32(year) && IsInt32(month) && IsInt32(day)
    ensures ReadDelimitedInts(EnglishStringResources.DateFormat(year, month, day, w), "// ")
      == Some(([month, day, year], "(" + w + ")"))
  {
    var last := "(" + w + ")";
    var m, d, y := IntToString(month), IntToString(day), IntToString(year);
    var text := EnglishStringResources.DateFormat(year, month, day, w);
    assert DelimitedInts([month, day, year], "// ", last) == m + (['/'] + (d + (['/'] + (y + ([' '] + last)))))
    by {
      assert [month, day, year][1..] == [day, year] && [day, year][1..] == [year];
      assert "// "[1..] == "/ " && "/ "[1..] == " ";
      assert DelimitedInts([year], " ", last) == y + ([' '] + last) by {
        assert [year][1..] == [] && " "[1..] == [];
      }
    }
    assert text == DelimitedInts([month, day, year], "// ", last) by {
      assert text == m + "/" + d + "/" + y + " (" + w + ")";
      assert text == m + ['/'] + d + ['/'] + y + [' '] + last;
      Concat7(m, ['/'], d, ['/'], y, [' '], last);
    }
    DelimitedIntsRoundTrip([month, day, year], "// ", last);
  }

  /**
   * The Japanese date reads back: year up to '年', month up to '月', day up to
   * '日', and the weekday in parentheses is what remains.
   */
  lemma {:induction false} JapaneseDateReadsBack(year: int, month: int, day: int, w: string)
    requires IsInt32(year) && IsInt32(month) && IsInt32(day)
    ensures ReadDelimitedInts(JapaneseStringResources.DateFormat(year, month, day, w), "年月日")
      == Some(([year, month, day], " (" + w + ")"))
  {
    var last := " (" + w + ")";
    var y, m, d := IntToString(year), IntToString(month), IntToString(day);
    var text := JapaneseStringResources.DateFormat(year, month, day, w);
    assert DelimitedInts([year, month, day], "年月日", last) == y + (['年'] + (m + (['月'] + (d + (['日'] + last)))))
    by {
      assert [year, month, day][1..] == [month, day] && [month, day][1..] == [day];
      assert "年月日"[1..] == "月日" && "月日"[1..] == "日";
      assert DelimitedInts([day], "日", last) == d + (['日'] + last) by {
        assert [day][1..] == [] && "日"[1..] == [];
      }
    }
    assert text == DelimitedInts([year, month, day], "年月日", last) by {
      assert text == y + "年" + m + "月" + d + "日" + last;
      Concat7(y, ['年'], m, ['月'], d, ['日'], last);
    }
    DelimitedIntsRoundTrip([year, month, day], "年月日", last);
  }

  /**
   * `minutesUntilSchedule` embeds the title and the count verbatim: after the
   * title comes the language's infix, then a text that parses back to the
   * minutes, then the language's suffix.
   */
  lemma {:induction false} MinutesUntilScheduleReadsBack(res: StringResources, title: string, minutes: int)
    requires IsInt32(minutes)
    ensures var t := res.MinutesUntilSchedule(title, minutes);
      var a := |title| + |res.MinutesInfix()|; var b := |t| - |res.MinutesSuffix()|;
      && a <= b
      && t[|title|..a] == res.MinutesInfix()
      && ToIntOrNull(t[a..b]) == Some(minutes)
      && t[b..] == res.MinutesSuffix()
  {
    var n := IntToString(minutes);
    var t := res.MinutesUntilSchedule(title, minutes);
    var infix, suffix := res.MinutesInfix(), res.MinutesSuffix();
    assert t == title + infix + n + suffix;
    var a := |title| + |infix|;
    assert t[|title|..a] == infix && t[a..a + |n|] == n && t[a + |n|..] == suffix;
    IntToStringRoundTrip(minutes);
  }

  /**
   * `nextSchedule` for a schedule's own time string: the two digit pairs
   * after the prefix parse back to the schedule's hours and minutes, and the
   * text ends with its title.
   */
  lemma {:induction false} NextScheduleReadsBack(res: StringResources, s: Schedule)
    requires InDay(s)
    ensures var t := res.NextSchedule(s.GetTimeString(), s.title);
      var p := |res.NextSchedulePrefix()|;
      && p + 5 <= |t|
      && ToIntOrNull(t[p..p + 2]) == Some(s.hours)
      && t[p + 2] == ':'
      && ToIntOrNull(t[p + 3..p + 5]) == Some(s.minutes)
      && t[|t| - |s.title|..] == s.title
  {
    TimeStringFields(s);
    var time := s.GetTimeString();
    var t := res.NextSchedule(time, s.title);
    TimeInside(t, |res.NextSchedulePrefix()|, time);
  }

  /** Where an `HH:MM` text sits inside a longer one, its two fields sit there too. */
  lemma TimeInside(t: string, p: nat, time: string)
    requires |time| == 5 && p + 5 <= |t| && t[p..p + 5] == time
    ensures t[p..p + 2] == time[..2] && t[p + 2] == time[2] && t[p + 3..p + 5] == time[3..]
  {
    assert t[p..p + 2] == t[p..p + 5][..2];
    assert t[p + 3..p + 5] == t[p..p + 5][3..];
  }
}
