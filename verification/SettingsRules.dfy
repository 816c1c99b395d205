/**
 * The rules the settings forms share: the field-edit filters for hours and
 * minutes, the submit guards and enabled predicates of the schedule and task
 * forms, and the list lines both settings screens render.
 */
module SettingsRules {
  import opened Wrappers
  import opened KotlinText
  import opened Schedules
  import opened AppState
  import opened Localization

  const MAX_HOURS: int := 23
  const MAX_MINUTES: int := 59

  /**
   * An hours or minutes field edit is taken when the new text is empty or an
   * Int in `0..max`; any other text is refused and the field keeps its value.
   */
  predicate FieldAccepts(text: string, max: int) {
    |text| == 0 || (ToIntOrNull(text).Some? && 0 <= ToIntOrNull(text).value <= max)
  }

  /** The triple the schedule form hands to `onAddSchedule`. */
  datatype ScheduleInput = ScheduleInput(title: string, hours: int, minutes: int)

  /**
   * The schedule submit: with a non-blank title and both fields parsing as
   * Ints, the title and the two values are emitted; otherwise nothing.
   */
  function ScheduleSubmission(title: string, hours: string, minutes: string): (r: Option<ScheduleInput>)
    ensures r.Some? <==> IsNotBlank(title) && ToIntOrNull(hours).Some? && ToIntOrNull(minutes).Some?
    ensures r.Some? ==>
      r.value.title == title && Some(r.value.hours) == ToIntOrNull(hours) && Some(r.value.minutes) == ToIntOrNull(minutes)
  {
    match (ToIntOrNull(hours), ToIntOrNull(minutes))
    case (Some(h), Some(m)) => if IsNotBlank(title) then Some(ScheduleInput(title, h, m)) else None
    case _ => None
  }

  /** The schedule button's `enabled`: every field not blank and both numbers parse. */
  predicate ScheduleAddEnabled(title: string, hours: string, minutes: string) {
    && IsNotBlank(title)
    && IsNotBlank(hours) && ToIntOrNull(hours).Some?
    && IsNotBlank(minutes) && ToIntOrNull(minutes).Some?
  }

  /** The button is enabled exactly when a click would emit a schedule. */
  lemma ScheduleEnabledIsGuard(title: string, hours: string, minutes: string)
    ensures ScheduleAddEnabled(title, hours, minutes) <==> ScheduleSubmission(title, hours, minutes).Some?
  {
    if ToIntOrNull(hours).Some? {
      ParsableIsNotBlank(hours);
    }
    if ToIntOrNull(minutes).Some? {
      ParsableIsNotBlank(minutes);
    }
  }

  /**
   * Fields that only ever took filtered edits yield in-range values: what a
   * submit emits has hours in 0..23, minutes in 0..59 and a non-blank title.
   */
  lemma SubmittedScheduleInRange(title: string, hours: string, minutes: string)
    requires FieldAccepts(hours, MAX_HOURS) && FieldAccepts(minutes, MAX_MINUTES)
    requires ScheduleSubmission(title, hours, minutes).Some?
    ensures var s := ScheduleSubmission(title, hours, minutes).value;
      0 <= s.hours <= 23 && 0 <= s.minutes <= 59 && IsNotBlank(s.title)
  {
  }

  /** The task add: the text is emitted when it is not blank. */
  function TaskSubmission(text: string): (r: Option<string>)
    ensures r.Some? <==> IsNotBlank(text)
    ensures r.Some? ==> r.value == text
  {
    if IsNotBlank(text) then Some(text) else None
  }

  /** The task line of the root settings screen: a bullet, the text, and the completed label in parentheses. */
  function TaskLine(task: Task, res: StringResources): string {
    "• " + task.text + (if task.isCompleted then " (" + res.TaskCompleted() + ")" else "")
  }

  /**
   * The task line reads back: after the two-character bullet comes the
   * text; the completed label in parentheses follows exactly when the task
   * is completed, so the length tells the flag.
   */
  lemma {:induction false} TaskLineReadsBack(task: Task, res: StringResources)
    ensures var line := TaskLine(task, res); var n := 2 + |task.text|;
      && |line| == n + (if task.isCompleted then |res.TaskCompleted()| + 3 else 0)
      && line[..2] == "• " && line[2..n] == task.text
      && (task.isCompleted ==> line[n..] == " (" + res.TaskCompleted() + ")")
  {
    var line := TaskLine(task, res);
    var n := 2 + |task.text|;
    var suffix := if task.isCompleted then " (" + res.TaskCompleted() + ")" else "";
    assert line == "• " + task.text + suffix;
    assert line[..2] == "• " && line[2..n] == task.text && line[n..] == suffix;
  }

  /**
   * The task line `TaskManagementSection` renders as written: its bullet is
   * the three characters the UTF-8 bytes of '•' give when read as
   * Windows-1252 text.
   */
  function TaskLineAsWritten(task: Task, res: StringResources): string {
    "\U{E2}\U{20AC}\U{A2} " + task.text + (if task.isCompleted then " (" + res.TaskCompleted() + ")" else "")
  }

  /**
   * The as-written line never shows the bullet: it starts with 'â', and it is
   * the intended line with the one bullet character replaced by three.
   */
  lemma TaskLineAsWrittenShowsMojibake(task: Task, res: StringResources)
    ensures TaskLineAsWritten(task, res)[0] == '\U{E2}' && TaskLine(task, res)[0] == '\U{2022}'
    ensures TaskLineAsWritten(task, res) != TaskLine(task, res)
    ensures TaskLineAsWritten(task, res)[3..] == TaskLine(task, res)[1..]
  {
    var rest := " " + task.text + (if task.isCompleted then " (" + res.TaskCompleted() + ")" else "");
    assert TaskLineAsWritten(task, res) == "\U{E2}\U{20AC}\U{A2}" + rest;
    assert TaskLine(task, res) == "•" + rest;
  }

  /** A schedule's line: a bullet, its `HH:MM`, a space, its title. */
  function ScheduleLine(s: Schedule): string {
    "• " + s.GetTimeString() + " " + s.title
  }

  /**
   * For a schedule of the day the line reads back: the bullet, two digits
   * giving the hours, ':', two digits giving the minutes, a space, the title.
   */
  lemma {:induction false} ScheduleLineReadsBack(s: Schedule)
    requires InDay(s)
    ensures var line := ScheduleLine(s);
      && |line| == 8 + |s.title|
      && line[..2] == "• "
      && ToIntOrNull(line[2..4]) == Some(s.hours) && line[4] == ':'
      && ToIntOrNull(line[5..7]) == Some(s.minutes) && line[7] == ' '
      && line[8..] == s.title
  {
    TimeStringFields(s);
    var t := s.GetTimeString();
    var line := ScheduleLine(s);
    assert line[2..7] == t;
    assert line[2..4] == t[..2];
    assert line[5..7] == t[3..];
  }
}
