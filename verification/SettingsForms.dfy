/**
 * The input state of the settings forms: the schedule form
 * (`ScheduleManagementSection`), the task form (`TaskManagementSection`) and
 * the root `SettingsScreen`, which inlines both. Each `remember`ed text field
 * is a class field; each `onValueChange` and `onClick` lambda is a method. A
 * submit returns what it hands to `onAddSchedule` / `onAddTask`, or `None`
 * when the guard fails.
 */
module SettingsForms {
  import opened Wrappers
  import opened KotlinText
  import opened SettingsRules

  /** The three fields of the schedule form. */
  class ScheduleManagementSection {
    var scheduleTitle: string
    var scheduleHours: string
    var scheduleMinutes: string

    /** What the edit filters keep true: each number field is empty or an Int in range. */
    predicate Valid()
      reads this
    {
      FieldAccepts(scheduleHours, MAX_HOURS) && FieldAccepts(scheduleMinutes, MAX_MINUTES)
    }

    /** All three fields start empty. */
    constructor ()
      ensures Valid()
      ensures scheduleTitle == "" && scheduleHours == "" && scheduleMinutes == ""
    {
      scheduleTitle, scheduleHours, scheduleMinutes := "", "", "";
    }

    /** The title field takes every edit. */
    method OnTitleChange(text: string)
      modifies this`scheduleTitle
      ensures scheduleTitle == text
      ensures old(Valid()) ==> Valid()
    {
      scheduleTitle := text;
    }

    /** The hours field takes an edit only when it is empty or an Int in 0..23. */
    method OnHoursChange(text: string)
      modifies this`scheduleHours
      ensures FieldAccepts(text, MAX_HOURS) ==> scheduleHours == text
      ensures !FieldAccepts(text, MAX_HOURS) ==> scheduleHours == old(scheduleHours)
      ensures old(Valid()) ==> Valid()
    {
      if |text| == 0 || (ToIntOrNull(text).Some? && 0 <= ToIntOrNull(text).value <= 23) {
        scheduleHours := text;
      }
    }

    /** The minutes field takes an edit only when it is empty or an Int in 0..59. */
    method OnMinutesChange(text: string)
      modifies this`scheduleMinutes
      ensures FieldAccepts(text, MAX_MINUTES) ==> scheduleMinutes == text
      ensures !FieldAccepts(text, MAX_MINUTES) ==> scheduleMinutes == old(scheduleMinutes)
      ensures old(Valid()) ==> Valid()
    {
      if |text| == 0 || (ToIntOrNull(text).Some? && 0 <= ToIntOrNull(text).value <= 59) {
        scheduleMinutes := text;
      }
    }

    /**
     * The add button: with a non-blank title and both numbers parsing, the
     * schedule is emitted and the three fields are cleared; otherwise nothing
     * is emitted and nothing changes. From a valid state the emitted values
     * are in range.
     */
    method OnSubmit() returns (emitted: Option<ScheduleInput>)
      modifies this
      ensures emitted == ScheduleSubmission(old(scheduleTitle), old(scheduleHours), old(scheduleMinutes))
      ensures emitted.Some? ==> scheduleTitle == "" && scheduleHours == "" && scheduleMinutes == ""
      ensures emitted.None? ==>
        scheduleTitle == old(scheduleTitle) && scheduleHours == old(scheduleHours) && scheduleMinutes == old(scheduleMinutes)
      ensures old(Valid()) && emitted.Some? ==>
        0 <= emitted.value.hours <= 23 && 0 <= emitted.value.minutes <= 59 && IsNotBlank(emitted.value.title)
      ensures old(Valid()) ==> Valid()
    {
      if Valid() && ScheduleSubmission(scheduleTitle, scheduleHours, scheduleMinutes).Some? {
        SubmittedScheduleInRange(scheduleTitle, scheduleHours, scheduleMinutes);
      }
      var hours := ToIntOrNull(scheduleHours);
      var minutes := ToIntOrNull(scheduleMinutes);
      if IsNotBlank(scheduleTitle) && hours.Some? && minutes.Some? {
        emitted := Some(ScheduleInput(scheduleTitle, hours.value, minutes.value));
        scheduleTitle, scheduleHours, scheduleMinutes := "", "", "";
      } else {
        emitted := None;
      }
    }

    /** The add button's `enabled`: true exactly when a click would emit a schedule. */
    function Enabled(): (enabled: bool)
      reads this
      ensures enabled <==> ScheduleSubmission(scheduleTitle, scheduleHours, scheduleMinutes).Some?
    {
      ScheduleEnabledIsGuard(scheduleTitle, scheduleHours, scheduleMinutes);
      ScheduleAddEnabled(scheduleTitle, scheduleHours, scheduleMinutes)
    }
  }

  /** The one field of the task form. */
  class TaskManagementSection {
    var textInput: string

    /** The field starts empty. */
    constructor ()
      ensures textInput == ""
    {
      textInput := "";
    }

    /** The field takes every edit. */
    method OnValueChange(text: string)
      modifies this
      ensures textInput == text
    {
      textInput := text;
    }

    /**
     * The add button: non-blank text is emitted and the field is cleared;
     * blank text emits nothing and the field keeps it.
     */
    method OnAdd() returns (emitted: Option<string>)
      modifies this
      ensures emitted == TaskSubmission(old(textInput))
      ensures emitted.Some? ==> textInput == ""
      ensures emitted.None? ==> textInput == old(textInput)
    {
      if IsNotBlank(textInput) {
        emitted := Some(textInput);
        textInput := "";
      } else {
        emitted := None;
      }
    }

    /** The add button's `enabled`: true exactly when a click would emit the text. */
    function Enabled(): (enabled: bool)
      reads this
      ensures enabled <==> TaskSubmission(textInput).Some?
    {
      IsNotBlank(textInput)
    }
  }

  /** The four fields the root settings screen keeps for its inlined task and schedule forms. */
  class SettingsScreen {
    var textInput: string
    var scheduleTitle: string
    var scheduleHours: string
    var scheduleMinutes: string

    /** Each number field is empty or an Int in range. */
    predicate Valid()
      reads this
    {
      FieldAccepts(scheduleHours, MAX_HOURS) && FieldAccepts(scheduleMinutes, MAX_MINUTES)
    }

    /** All four fields start empty. */
    constructor ()
      ensures Valid()
      ensures textInput == "" && scheduleTitle == "" && scheduleHours == "" && scheduleMinutes == ""
    {
      textInput, scheduleTitle, scheduleHours, scheduleMinutes := "", "", "", "";
    }

    /** The task field takes every edit. */
    method OnTaskTextChange(text: string)
      modifies this`textInput
      ensures textInput == text
      ensures old(Valid()) ==> Valid()
    {
      textInput := text;
    }

    /** The task add: non-blank text is emitted and cleared; only the task field changes. */
    method OnAddTask() returns (emitted: Option<string>)
      modifies this`textInput
      ensures emitted == TaskSubmission(old(textInput))
      ensures emitted.Some? ==> textInput == ""
      ensures emitted.None? ==> textInput == old(textInput)
      ensures old(Valid()) ==> Valid()
    {
      if IsNotBlank(textInput) {
        emitted := Some(textInput);
        textInput := "";
      } else {
        emitted := None;
      }
    }

    /** The task button's `enabled`. */
    function TaskAddEnabled(): (enabled: bool)
      reads this
      ensures enabled <==> TaskSubmission(textInput).Some?
    {
      IsNotBlank(textInput)
    }

    /** The schedule title field takes every edit. */
    method OnTitleChange(text: string)
      modifies this`scheduleTitle
      ensures scheduleTitle == text
      ensures old(Valid()) ==> Valid()
    {
      scheduleTitle := text;
    }

    /** The hours field takes an edit only when it is empty or an Int in 0..23. */
    method OnHoursChange(text: string)
      modifies this`scheduleHours
      ensures FieldAccepts(text, MAX_HOURS) ==> scheduleHours == text
      ensures !FieldAccepts(text, MAX_HOURS) ==> scheduleHours == old(scheduleHours)
      ensures old(Valid()) ==> Valid()
    {
      if |text| == 0 || (ToIntOrNull(text).Some? && 0 <= ToIntOrNull(text).value <= 23) {
        scheduleHours := text;
      }
    }

    /** The minutes field takes an edit only when it is empty or an Int in 0..59. */
    method OnMinutesChange(text: string)
      modifies this`scheduleMinutes
      ensures FieldAccepts(text, MAX_MINUTES) ==> scheduleMinutes == text
      ensures !FieldAccepts(text, MAX_MINUTES) ==> scheduleMinutes == old(scheduleMinutes)
      ensures old(Valid()) ==> Valid()
    {
      if |text| == 0 || (ToIntOrNull(text).Some? && 0 <= ToIntOrNull(text).value <= 59) {
        scheduleMinutes := text;
      }
    }

    /**
     * The schedule add: as in the schedule form, and the task field is not
     * touched.
     */
    method OnAddSchedule() returns (emitted: Option<ScheduleInput>)
      modifies this`scheduleTitle, this`scheduleHours, this`scheduleMinutes
      ensures emitted == ScheduleSubmission(old(scheduleTitle), old(scheduleHours), old(scheduleMinutes))
      ensures emitted.Some? ==> scheduleTitle == "" && scheduleHours == "" && scheduleMinutes == ""
      ensures emitted.None? ==>
        scheduleTitle == old(scheduleTitle) && scheduleHours == old(scheduleHours) && scheduleMinutes == old(scheduleMinutes)
      ensures old(Valid()) && emitted.Some? ==>
        0 <= emitted.value.hours <= 23 && 0 <= emitted.value.minutes <= 59 && IsNotBlank(emitted.value.title)
      ensures old(Valid()) ==> Valid()
    {
      if Valid() && ScheduleSubmission(scheduleTitle, scheduleHours, scheduleMinutes).Some? {
        SubmittedScheduleInRange(scheduleTitle, scheduleHours, scheduleMinutes);
      }
      var hours := ToIntOrNull(scheduleHours);
      var minutes := ToIntOrNull(scheduleMinutes);
      if IsNotBlank(scheduleTitle) && hours.Some? && minutes.Some? {
        emitted := Some(ScheduleInput(scheduleTitle, hours.value, minutes.value));
        scheduleTitle, scheduleHours, scheduleMinutes := "", "", "";
      } else {
        emitted := None;
      }
    }

    /** The schedule button's `enabled`: true exactly when a click would emit a schedule. */
    function ScheduleAddEnabled(): (enabled: bool)
      reads this
      ensures enabled <==> ScheduleSubmission(scheduleTitle, scheduleHours, scheduleMinutes).Some?
    {
      ScheduleEnabledIsGuard(scheduleTitle, scheduleHours, scheduleMinutes);
      SettingsRules.ScheduleAddEnabled(scheduleTitle, scheduleHours, scheduleMinutes)
    }
  }
}
