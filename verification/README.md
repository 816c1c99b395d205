# SchoolWatch clock model

A Dafny model of the logic inside SchoolWatch, a Compose Multiplatform
classroom clock. The model covers:

- **`ClockTicker`.** Once per loop iteration it rewrites the zero-padded
  `HH`, `MM` and `SS` strings and a Japanese date label. `start()` replaces
  the running job and `stop()` cancels it.
- **`Schedule` value.** Its `HH:MM` text and its strict "later today" test.
- **Sushi second hand.** It maps an animation progress in [0, 4] onto the
  border of the clock's box, one edge per unit, and places a 60-unit glyph
  there.
- **Digital display.** The `HH:MM:SS` row, and the end-of-session countdown
  shown from 20:00 to 20:29.
- **Localized string resources (Japanese and English).** Weekday labels,
  date template, schedule messages, and the choice of resources by language.
- **`App` state.** The task list with its add, toggle and delete lambdas,
  screen navigation, and the sushi flag.
- **Settings forms.** The schedule form, the task form and the root settings
  screen that inlines both. The schedule inputs have edit filters, while the
  task input takes every edit. Each form has a submit guard, a
  clear-after-submit step and an enabled predicate, plus the list lines it
  renders.

The Kotlin library calls the app relies on are modelled in `KotlinText`:

- `Int.toString()`;
- `padStart(2, '0')`;
- `toIntOrNull()`: ASCII digits, optional sign, 32-bit range;
- `isNotBlank()`: the JVM whitespace set;
- `indexOf`.

The modules are:

| module | models |
|---|---|
| `Wrappers`, `KotlinText` | nullable results and the Kotlin library calls |
| `ClockLogic` | `ClockLogic.kt`: the `ClockTicker` class |
| `Schedules` | `Schedule.kt` |
| `SushiClock` | `SushiSecondHandClock.kt`: `Float` as `real` |
| `DigitalClock` | `DigitalClockDisplay.kt` |
| `Localization` | `localization/Strings.kt` |
| `AppState` | `App.kt` and `Task.kt`: the `App` class |
| `SettingsRules` | filters, guards and list lines shared by the forms |
| `SettingsForms` | the three form classes with their `remember`ed fields |

The schedule form and the root settings screen each have a `Valid()`
invariant: every number field is empty or an Int in range. The constructor
establishes it and every handler preserves it. So from the initial empty state, an emitted schedule always has hours in
0..23, minutes in 0..59 and a non-blank title.

## Model

| member | source | states |
|---|---|---|
| KotlinText.IntToString | composeApp/src/commonMain/kotlin/org/khaki/schoolwatch/ClockLogic.kt:41-43 | `toString()` is never empty and starts with '-' exactly for negative values |
| KotlinText.IntToStringChars | composeApp/src/commonMain/kotlin/org/khaki/schoolwatch/ClockLogic.kt:59 | a printed Int holds only '-' and digits; after the sign for negatives (or from the start otherwise) it is all digits |
| KotlinText.IntToStringRoundTrip | composeApp/src/commonMain/kotlin/org/khaki/schoolwatch/localization/Strings.kt:97 | `toIntOrNull(n.toString()) == n` for every 32-bit Int |
| KotlinText.NatDigitsRoundTrip | composeApp/src/commonMain/kotlin/org/khaki/schoolwatch/ClockLogic.kt:59 | reading back the decimal digits of a natural number gives the number |
| KotlinText.ToIntOrNull | composeApp/src/commonMain/kotlin/org/khaki/schoolwatch/screens/settings/ScheduleManagementSection.kt:106-107 | a parsed value is a 32-bit Int and the text ends with a digit; text not starting with a digit parses only with a sign and at least one digit after it |
| KotlinText.ToIntOrNullCharacterization | composeApp/src/commonMain/kotlin/org/khaki/schoolwatch/screens/settings/ScheduleManagementSection.kt:106-107 | `toIntOrNull` succeeds exactly on an optional '+' or '-' followed by one or more digits whose signed value is an Int, and then returns that signed value |
| KotlinText.WrapInt | composeApp/src/commonMain/kotlin/org/khaki/schoolwatch/DigitalClockDisplay.kt:94 | 32-bit Int arithmetic: the result is an Int, congruent to the exact value modulo 2^32, and equal to it when it is already an Int |
| KotlinText.PadStart2 | composeApp/src/commonMain/kotlin/org/khaki/schoolwatch/ClockLogic.kt:41-43 | `padStart(2, '0')` gives length 2, or the original length when that is longer |
| KotlinText.PadStart2Spec | composeApp/src/commonMain/kotlin/org/khaki/schoolwatch/ClockLogic.kt:41-43 | the padded text ends with the original and everything before it is '0' |
| KotlinText.TwoDigitField | composeApp/src/commonMain/kotlin/org/khaki/schoolwatch/ClockLogic.kt:41-43 | a clock field is at least two characters long |
| KotlinText.TwoDigitFieldChars | composeApp/src/commonMain/kotlin/org/khaki/schoolwatch/ClockLogic.kt:41-43 | a clock field holds only '-' and digits |
| KotlinText.TwoDigitFieldShape | composeApp/src/commonMain/kotlin/org/khaki/schoolwatch/ClockLogic.kt:41-43 | for 0..99 the field is exactly two decimal digits |
| KotlinText.TwoDigitFieldRoundTrip | composeApp/src/commonMain/kotlin/org/khaki/schoolwatch/ClockLogic.kt:41-43 | parsing a padded field gives back the value, for every 32-bit Int |
| KotlinText.TwoDigitFieldInjective | composeApp/src/commonMain/kotlin/org/khaki/schoolwatch/DigitalClockDisplay.kt:92 | two Ints share a field string only if they are equal, so comparing the text with "20" compares the hour with 20 |
| KotlinText.ParsableIsNotBlank | composeApp/src/commonMain/kotlin/org/khaki/schoolwatch/screens/settings/ScheduleManagementSection.kt:115-117 | text that `toIntOrNull` accepts is never blank |
| KotlinText.IndexOf | composeApp/src/commonMain/kotlin/org/khaki/schoolwatch/App.kt:60 | `indexOf` is -1 exactly when the element is absent, else a position holding it |
| KotlinText.IndexOfIsFirst | composeApp/src/commonMain/kotlin/org/khaki/schoolwatch/App.kt:60 | no earlier position holds the element: it is the first occurrence |
| KotlinText.ReadDelimitedInts | composeApp/src/commonMain/kotlin/org/khaki/schoolwatch/localization/Strings.kt:119-120 | a reader for "Int, delimiter" texts returns one value per delimiter |
| KotlinText.DelimitedIntsRoundTrip | composeApp/src/commonMain/kotlin/org/khaki/schoolwatch/localization/Strings.kt:173-174 | Ints printed with non-digit delimiters read back to the same values and the remaining text |
| ClockLogic.JapaneseWeekday | composeApp/src/commonMain/kotlin/org/khaki/schoolwatch/ClockLogic.kt:49-58 | every weekday gets a one-character label, so the `else` arm giving "" is never taken |
| ClockLogic.JapaneseWeekdaysDistinct | composeApp/src/commonMain/kotlin/org/khaki/schoolwatch/ClockLogic.kt:49-58 | two weekdays share a label exactly when they are the same day |
| ClockLogic.ClockTicker.constructor | composeApp/src/commonMain/kotlin/org/khaki/schoolwatch/ClockLogic.kt:19-33 | before any tick the fields are "00", "00", "00" and the placeholder date, and no job exists |
| ClockLogic.ClockTicker.Start | composeApp/src/commonMain/kotlin/org/khaki/schoolwatch/ClockLogic.kt:35-37 | the previous job is cancelled; the newly launched job is the only uncancelled one and becomes the handle; the display fields are untouched |
| ClockLogic.ClockTicker.Stop | composeApp/src/commonMain/kotlin/org/khaki/schoolwatch/ClockLogic.kt:67-69 | afterwards every launched job is cancelled; the handle and the display fields are unchanged, so a second call changes nothing |
| ClockLogic.ClockTicker.Tick | composeApp/src/commonMain/kotlin/org/khaki/schoolwatch/ClockLogic.kt:39-59 | one iteration writes hours, minutes, seconds and the date label, all from the same sampled time |
| ClockLogic.AtMostOneLiveJob | composeApp/src/commonMain/kotlin/org/khaki/schoolwatch/ClockLogic.kt:35-37 | in every state the start/stop discipline keeps, at most one launched job is not cancelled, and it is the current handle |
| ClockLogic.TickFieldsRoundTrip | composeApp/src/commonMain/kotlin/org/khaki/schoolwatch/ClockLogic.kt:41-43 | for a valid sample each field is exactly two digits and parses back to the sampled hour, minute or second |
| Schedules.Schedule.GetTimeString | composeApp/src/commonMain/kotlin/org/khaki/schoolwatch/Schedule.kt:12-14 | for a time of day the text is five characters: two digits, ':', two digits |
| Schedules.TimeStringRoundTrip | composeApp/src/commonMain/kotlin/org/khaki/schoolwatch/Schedule.kt:12-14 | splitting the text at its first ':' and parsing both halves gives back hours and minutes for every Int pair; no second ':' follows |
| Schedules.TimeStringFields | composeApp/src/commonMain/kotlin/org/khaki/schoolwatch/Schedule.kt:12-14 | for a time of day, characters 0-1 parse to the hours and 3-4 to the minutes |
| Schedules.Schedule.IsAfterCurrentTime | composeApp/src/commonMain/kotlin/org/khaki/schoolwatch/Schedule.kt:16-18 | with minutes in 0..59 the test is "more minutes since midnight" |
| Schedules.NotAfterItself | composeApp/src/commonMain/kotlin/org/khaki/schoolwatch/Schedule.kt:17 | a schedule is never after its own time |
| Schedules.NothingAfterLastMinute | composeApp/src/commonMain/kotlin/org/khaki/schoolwatch/Schedule.kt:17 | at 23:59 no schedule of the day is still to come |
| Schedules.AfterIsMonotone | composeApp/src/commonMain/kotlin/org/khaki/schoolwatch/Schedule.kt:16-18 | after a time implies after every earlier time |
| SushiClock.SushiPosition | composeApp/src/commonMain/kotlin/org/khaki/schoolwatch/SushiSecondHandClock.kt:45-66 | the point is always on a boundary line of the box, and for progress in [0, 4] it lies inside the box |
| SushiClock.Corners | composeApp/src/commonMain/kotlin/org/khaki/schoolwatch/SushiSecondHandClock.kt:47-65 | progress 0, 1, 2, 3, 4 gives the corners top-left, top-right, bottom-right, bottom-left, top-left: the path is closed |
| SushiClock.Continuity | composeApp/src/commonMain/kotlin/org/khaki/schoolwatch/SushiSecondHandClock.kt:47-65 | at 1, 2 and 3 the arm `<=` selects and the next arm give the same point |
| SushiClock.TopEdgeRightward | composeApp/src/commonMain/kotlin/org/khaki/schoolwatch/SushiSecondHandClock.kt:47-50 | on [0, 1] x does not decrease |
| SushiClock.RightEdgeDownward | composeApp/src/commonMain/kotlin/org/khaki/schoolwatch/SushiSecondHandClock.kt:52-55 | on [1, 2] y does not decrease |
| SushiClock.BottomEdgeLeftward | composeApp/src/commonMain/kotlin/org/khaki/schoolwatch/SushiSecondHandClock.kt:57-60 | on [2, 3] x does not increase |
| SushiClock.LeftEdgeUpward | composeApp/src/commonMain/kotlin/org/khaki/schoolwatch/SushiSecondHandClock.kt:62-65 | on [3, 4] y does not increase |
| SushiClock.RoundToInt | composeApp/src/commonMain/kotlin/org/khaki/schoolwatch/SushiSecondHandClock.kt:74-75 | `roundToInt` is the integer nearest the value, ties rounded up |
| SushiClock.IconOffset | composeApp/src/commonMain/kotlin/org/khaki/schoolwatch/SushiSecondHandClock.kt:72-77 | the offset plus 30 is within half a unit of the position on each axis |
| DigitalClock.TimeRow | composeApp/src/commonMain/kotlin/org/khaki/schoolwatch/DigitalClockDisplay.kt:66-87 | the row is hours, ":", minutes, ":", seconds, in that order |
| DigitalClock.TimeRowReadsBack | composeApp/src/commonMain/kotlin/org/khaki/schoolwatch/DigitalClockDisplay.kt:66-87 | for a tick's fields the row reads `HH:MM:SS` and each pair parses back to the sampled value |
| DigitalClock.EndOfSessionBanner | composeApp/src/commonMain/kotlin/org/khaki/schoolwatch/DigitalClockDisplay.kt:92-94 | the countdown shows exactly when the hours text is "20" and the minutes text parses to an Int of at most 29; `minutes.toInt()` throws exactly when the hours text is "20" and the minutes text does not parse; the count is `30 - minutes` taken modulo 2^32 into the Int range, and equals `30 - minutes` (at least 1) whenever that does not overflow |
| DigitalClock.CountdownWrapsAround | composeApp/src/commonMain/kotlin/org/khaki/schoolwatch/DigitalClockDisplay.kt:94 | minutes below 30 - Int.MAX_VALUE make the count wrap to `30 - minutes - 2^32`, a negative number |
| DigitalClock.CountdownAtIntMin | composeApp/src/commonMain/kotlin/org/khaki/schoolwatch/DigitalClockDisplay.kt:92-94 | the minutes text "-2147483648" (Int.MIN_VALUE printed) shows the count -2147483618 |
| DigitalClock.BannerOnTickerFields | composeApp/src/commonMain/kotlin/org/khaki/schoolwatch/DigitalClockDisplay.kt:92-94 | on a tick's fields the countdown shows exactly from 20:00 to 20:29, with 30 - minute minutes (1..30) left, and parsing never fails |
| DigitalClock.NoBannerOutsideHour20 | composeApp/src/commonMain/kotlin/org/khaki/schoolwatch/DigitalClockDisplay.kt:92 | an hours text other than "20" never shows the banner |
| DigitalClock.NoBannerAfterHalfPast | composeApp/src/commonMain/kotlin/org/khaki/schoolwatch/DigitalClockDisplay.kt:92 | minutes 30 and later at hour "20" show no banner |
| DigitalClock.CountdownMessage | composeApp/src/commonMain/kotlin/org/khaki/schoolwatch/DigitalClockDisplay.kt:94 | the countdown text is never blank |
| DigitalClock.CountdownMessageReadsBack | composeApp/src/commonMain/kotlin/org/khaki/schoolwatch/DigitalClockDisplay.kt:94 | the countdown text is "あと", then text that parses back to the remaining minutes, then "分で終了だよ！" |
| Localization.StringResources.TaskCompleted | composeApp/src/commonMain/kotlin/org/khaki/schoolwatch/localization/Strings.kt:84 | the completed caption ("完了" or "Completed") is not blank |
| Localization.StringResources.DayLabel | composeApp/src/commonMain/kotlin/org/khaki/schoolwatch/localization/Strings.kt:110-116 | weekday labels are one character in Japanese and three letters in English |
| Localization.DayLabelsDistinct | composeApp/src/commonMain/kotlin/org/khaki/schoolwatch/localization/Strings.kt:164-170 | in each language two weekdays share a label exactly when they are the same day |
| Localization.StringResources.DateFormat | composeApp/src/commonMain/kotlin/org/khaki/schoolwatch/localization/Strings.kt:119-120 | both date templates end with " (" + weekday + ")" |
| Localization.JapaneseDateReadsBack | composeApp/src/commonMain/kotlin/org/khaki/schoolwatch/localization/Strings.kt:119-120 | the Japanese date reads back as year, month, day up to '年', '月', '日', followed by " (w)" |
| Localization.EnglishDateReadsBack | composeApp/src/commonMain/kotlin/org/khaki/schoolwatch/localization/Strings.kt:173-174 | the English date reads back as month, day, year up to '/', '/', ' ', followed by "(w)" |
| Localization.JapaneseMatchesTicker | composeApp/src/commonMain/kotlin/org/khaki/schoolwatch/localization/Strings.kt:110-120 | the Japanese weekday labels and date template give exactly the ticker's hard-coded label |
| Localization.StringResources.NextSchedule | composeApp/src/commonMain/kotlin/org/khaki/schoolwatch/localization/Strings.kt:96 | the message is the prefix, the time verbatim, a space, the title verbatim |
| Localization.NextScheduleReadsBack | composeApp/src/commonMain/kotlin/org/khaki/schoolwatch/localization/Strings.kt:150 | for a schedule's own time text the two pairs after the prefix parse to its hours and minutes, and the text ends with its title |
| Localization.StringResources.MinutesUntilSchedule | composeApp/src/commonMain/kotlin/org/khaki/schoolwatch/localization/Strings.kt:97 | the message starts with the title verbatim |
| Localization.MinutesUntilScheduleReadsBack | composeApp/src/commonMain/kotlin/org/khaki/schoolwatch/localization/Strings.kt:151 | after the title come the infix, a number that parses back to the minutes, and the suffix |
| Localization.ProvideStringResources | composeApp/src/commonMain/kotlin/org/khaki/schoolwatch/localization/Strings.kt:187-192 | JAPANESE selects the Japanese resources and ENGLISH the English ones, and only those |
| Localization.DefaultIsJapanese | composeApp/src/commonMain/kotlin/org/khaki/schoolwatch/localization/Strings.kt:180 | the default resources are the Japanese ones |
| AppState.NewTask | composeApp/src/commonMain/kotlin/org/khaki/schoolwatch/Task.kt:8-14 | a new task keeps its id and text and is not completed |
| AppState.ToggleTaskChangesFirstMatchOnly | composeApp/src/commonMain/kotlin/org/khaki/schoolwatch/App.kt:59-63 | toggling keeps the length, rewrites only the first equal element (same id and text, new flag), leaves every other position alone, and changes nothing when the task is absent |
| AppState.RemoveFirstAbsent | composeApp/src/commonMain/kotlin/org/khaki/schoolwatch/App.kt:65-67 | removing an absent task leaves the list unchanged |
| AppState.RemoveFirstPresent | composeApp/src/commonMain/kotlin/org/khaki/schoolwatch/App.kt:65-67 | removing a present task drops exactly its first occurrence |
| AppState.RemoveFirstMultiset | composeApp/src/commonMain/kotlin/org/khaki/schoolwatch/App.kt:65-67 | as a multiset, removal takes away one copy of the task |
| AppState.App.constructor | composeApp/src/commonMain/kotlin/org/khaki/schoolwatch/App.kt:29-36 | the app starts on the clock screen with no tasks, the sushi shown and one running ticker job |
| AppState.App.AddTask | composeApp/src/commonMain/kotlin/org/khaki/schoolwatch/App.kt:76-78 | one new, not completed task is appended; earlier tasks are unchanged |
| AppState.App.OnTaskCheckedChange | composeApp/src/commonMain/kotlin/org/khaki/schoolwatch/App.kt:59-63 | the list becomes the toggled list; the length is kept and an absent task changes nothing |
| AppState.App.OnTaskDelete | composeApp/src/commonMain/kotlin/org/khaki/schoolwatch/App.kt:65-67 | the first equal task is removed; the length drops by one exactly when it was present |
| AppState.App.OnSettingsClick | composeApp/src/commonMain/kotlin/org/khaki/schoolwatch/App.kt:68 | the screen becomes SETTINGS |
| AppState.App.OnBackClick | composeApp/src/commonMain/kotlin/org/khaki/schoolwatch/App.kt:83 | the screen becomes CLOCK |
| AppState.App.OnShowSushiChange | composeApp/src/commonMain/kotlin/org/khaki/schoolwatch/App.kt:80-82 | the flag takes exactly the switch's value |
| SettingsRules.ScheduleSubmission | composeApp/src/commonMain/kotlin/org/khaki/schoolwatch/screens/settings/ScheduleManagementSection.kt:105-109 | a schedule is emitted exactly when the title is not blank and both fields parse, with the parsed values |
| SettingsRules.ScheduleEnabledIsGuard | composeApp/src/commonMain/kotlin/org/khaki/schoolwatch/screens/settings/ScheduleManagementSection.kt:115-117 | the button's enabled predicate holds exactly when the submit guard does |
| SettingsRules.SubmittedScheduleInRange | composeApp/src/commonMain/kotlin/org/khaki/schoolwatch/screens/settings/ScheduleManagementSection.kt:80-109 | fields that passed the filters yield hours in 0..23, minutes in 0..59 and a non-blank title |
| SettingsRules.TaskSubmission | composeApp/src/commonMain/kotlin/org/khaki/schoolwatch/screens/settings/TaskManagementSection.kt:74-76 | the text is emitted exactly when it is not blank |
| SettingsRules.TaskLineReadsBack | composeApp/src/commonMain/kotlin/org/khaki/schoolwatch/SettingsScreen.kt:143 | the line is "• ", then the text, then " (" + completed caption + ")" exactly when the task is completed |
| SettingsRules.TaskLineAsWrittenShowsMojibake | composeApp/src/commonMain/kotlin/org/khaki/schoolwatch/screens/settings/TaskManagementSection.kt:112 | the line as written starts with 'â' rather than '•' and is never the intended line |
| SettingsRules.ScheduleLineReadsBack | composeApp/src/commonMain/kotlin/org/khaki/schoolwatch/SettingsScreen.kt:307 | the line is "• ", two digits of hours, ':', two digits of minutes, a space, the title |
| SettingsForms.ScheduleManagementSection.constructor | composeApp/src/commonMain/kotlin/org/khaki/schoolwatch/screens/settings/ScheduleManagementSection.kt:43-45 | all three fields start empty, which satisfies the field invariant |
| SettingsForms.ScheduleManagementSection.OnTitleChange | composeApp/src/commonMain/kotlin/org/khaki/schoolwatch/screens/settings/ScheduleManagementSection.kt:72 | the title takes every edit |
| SettingsForms.ScheduleManagementSection.OnHoursChange | composeApp/src/commonMain/kotlin/org/khaki/schoolwatch/screens/settings/ScheduleManagementSection.kt:80-84 | the hours field takes an edit exactly when it is empty or an Int in 0..23, and otherwise keeps its value |
| SettingsForms.ScheduleManagementSection.OnMinutesChange | composeApp/src/commonMain/kotlin/org/khaki/schoolwatch/screens/settings/ScheduleManagementSection.kt:92-96 | the minutes field takes an edit exactly when it is empty or an Int in 0..59, and otherwise keeps its value |
| SettingsForms.ScheduleManagementSection.OnSubmit | composeApp/src/commonMain/kotlin/org/khaki/schoolwatch/screens/settings/ScheduleManagementSection.kt:105-113 | it emits what the guard allows; after an emission all fields are "", and after a refusal nothing changes; from a valid state the values are in range |
| SettingsForms.ScheduleManagementSection.Enabled | composeApp/src/commonMain/kotlin/org/khaki/schoolwatch/screens/settings/ScheduleManagementSection.kt:115-117 | the button is enabled exactly when a click would emit |
| SettingsForms.TaskManagementSection.constructor | composeApp/src/commonMain/kotlin/org/khaki/schoolwatch/screens/settings/TaskManagementSection.kt:41 | the input starts empty |
| SettingsForms.TaskManagementSection.OnValueChange | composeApp/src/commonMain/kotlin/org/khaki/schoolwatch/screens/settings/TaskManagementSection.kt:66 | the input takes every edit |
| SettingsForms.TaskManagementSection.OnAdd | composeApp/src/commonMain/kotlin/org/khaki/schoolwatch/screens/settings/TaskManagementSection.kt:73-78 | non-blank text is emitted and the input cleared; blank text emits nothing and changes nothing |
| SettingsForms.TaskManagementSection.Enabled | composeApp/src/commonMain/kotlin/org/khaki/schoolwatch/screens/settings/TaskManagementSection.kt:79 | the button is enabled exactly when a click would emit |
| SettingsForms.SettingsScreen.constructor | composeApp/src/commonMain/kotlin/org/khaki/schoolwatch/SettingsScreen.kt:54-57 | all four fields start empty, which satisfies the field invariant |
| SettingsForms.SettingsScreen.OnTaskTextChange | composeApp/src/commonMain/kotlin/org/khaki/schoolwatch/SettingsScreen.kt:97 | the task input takes every edit |
| SettingsForms.SettingsScreen.OnAddTask | composeApp/src/commonMain/kotlin/org/khaki/schoolwatch/SettingsScreen.kt:104-108 | non-blank text is emitted and cleared; blank text changes nothing; the schedule fields are untouched |
| SettingsForms.SettingsScreen.TaskAddEnabled | composeApp/src/commonMain/kotlin/org/khaki/schoolwatch/SettingsScreen.kt:110 | the task button is enabled exactly when a click would emit |
| SettingsForms.SettingsScreen.OnTitleChange | composeApp/src/commonMain/kotlin/org/khaki/schoolwatch/SettingsScreen.kt:232 | the title takes every edit |
| SettingsForms.SettingsScreen.OnHoursChange | composeApp/src/commonMain/kotlin/org/khaki/schoolwatch/SettingsScreen.kt:240-244 | the hours field takes only empty text or an Int in 0..23 |
| SettingsForms.SettingsScreen.OnMinutesChange | composeApp/src/commonMain/kotlin/org/khaki/schoolwatch/SettingsScreen.kt:252-256 | the minutes field takes only empty text or an Int in 0..59 |
| SettingsForms.SettingsScreen.OnAddSchedule | composeApp/src/commonMain/kotlin/org/khaki/schoolwatch/SettingsScreen.kt:265-273 | it emits what the guard allows, with in-range values from a valid state, then clears the three schedule fields; a refusal changes nothing |
| SettingsForms.SettingsScreen.ScheduleAddEnabled | composeApp/src/commonMain/kotlin/org/khaki/schoolwatch/SettingsScreen.kt:275-277 | the schedule button is enabled exactly when a click would emit |

## Left out

- Coroutines and timing are not modelled: `scope.launch`, `while (true)`, `delay(1000)` and job cancellation. One loop iteration is `ClockTicker.Tick`. A job is a numbered handle, and a ghost set records which jobs were launched and not cancelled.
- ClockLogic.AtMostOneLiveJob: counts uncancelled jobs, not running ones. `cancel()` is cooperative and takes effect at the loop's next suspension point, `delay(1000)`, so a job that `start()` cancels mid-iteration may still write the four fields, possibly after the new job has.
- The system clock and time zone (`Clock.System.now()` and `toLocalDateTime`) are not modelled. `Tick` receives the decomposed local date-time as a parameter.
- `Random.nextInt()` ids for `Task` and `Schedule` are not modelled. Callers supply the id.
- SushiClock.SushiPosition: computed over exact `real` numbers. `Float` rounding is not modelled, nor the infinite animation that produces `progress`, which is an input.
- SushiClock.RoundToInt: NaN and the saturation of values beyond the Int range are not modelled.
- KotlinText.ToIntOrNull: accepts ASCII digits only. On the JVM, Kotlin also accepts other Unicode decimal digits, such as full-width ones. Those are not modelled.
- `isNotBlank` uses the JVM's `Character.isWhitespace || Character.isSpaceChar` set. Other platforms' whitespace tables are not modelled.
- DigitalClock.EndOfSessionBanner: the exception `minutes.toInt()` throws on non-numeric text becomes the `NumberFormatError` value.
- Several call sites do not match the signatures they call, because the files come from different revisions. So each file is modelled as written, not the wiring between them:
  - `ClockScreen.kt` passes `schedules` to a `DigitalClockDisplay` that has no such parameter.
  - `App.kt` omits the `schedules` arguments that `SettingsScreen.kt` requires.
- `AppState.App` starts the ticker once but does not drive its ticks, since the loop is not modelled.
- Compose layout, theming, icons and colours are not part of this model. That includes `TaskItem.kt`, `TodaysTaskSection.kt`, `screens/clock/ClockScreen.kt`, `AppSettingsSection.kt`, which maps a switch to a `Language`, and `screens/settings/SettingsScreen.kt`, which arranges the sections.
- `screens/settings/SettingsScreen.kt` also keeps a short-comment text field, `currentShortComment`. It takes every edit, and a button passes it to `onShortCommentChange`. That field is not part of this model, because it is a plain pass-through with no guard.
- Constant captions in `Strings.kt` are not modelled: titles, placeholders, button labels and the preview data. The exception is the "completed" caption that the task lines show.

## Findings

| source | as written | input that shows it | evidently intended | confidence | as-written member | corrected member |
|---|---|---|---|---|---|---|
| composeApp/src/commonMain/kotlin/org/khaki/schoolwatch/screens/settings/TaskManagementSection.kt:112 | the task line starts with "â€¢ ": the UTF-8 bytes of '•' read back as Windows-1252 text | any task, e.g. text "A" not completed: the line is "â€¢ A" | "• A", the bullet the root `SettingsScreen.kt:143` uses | high (the two screens differ in exactly this character), not executed | SettingsRules.TaskLineAsWrittenShowsMojibake | SettingsRules.TaskLineReadsBack |
