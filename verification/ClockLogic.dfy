/**
 * `ClockTicker`: the object that owns the repeating clock job and the four
 * display strings (hours, minutes, seconds, Japanese date label) it rewrites
 * once per loop iteration.
 *
 * The coroutine scope, `while (true)`, `delay(1000)` and the system clock are
 * not modelled: one loop iteration is the method `Tick`, which receives the
 * sampled local date-time as a parameter, and a job is an abstract handle
 * whose liveness is tracked in a ghost set.
 */
module ClockLogic {
  import opened Wrappers
  import opened KotlinText

  /** kotlinx.datetime's seven-valued `DayOfWeek`. */
  datatype DayOfWeek = Monday | Tuesday | Wednesday | Thursday | Friday | Saturday | Sunday

  /** The decomposed `LocalDateTime` one iteration samples. */
  datatype LocalDateTime = LocalDateTime(
    year: int, monthNumber: int, dayOfMonth: int,
    hour: int, minute: int, second: int,
    dayOfWeek: DayOfWeek)

  /** The ranges a calendar decomposition guarantees. */
  predicate ValidDateTime(now: LocalDateTime) {
    && IsInt32(now.year)
    && 1 <= now.monthNumber <= 12
    && 1 <= now.dayOfMonth <= 31
    && 0 <= now.hour <= 23
    && 0 <= now.minute <= 59
    && 0 <= now.second <= 59
  }

  /** The weekday character the loop body hard-codes. */
  function JapaneseWeekday(d: DayOfWeek): (w: string)
    ensures |w| == 1
  {
    match d
    case Monday => "月"
    case Tuesday => "火"
    case Wednesday => "水"
    case Thursday => "木"
    case Friday => "金"
    case Saturday => "土"
    case Sunday => "日"
  }

  /** The date label written on every iteration: `<year>年<month>月<day>日 (<weekday>)`. */
  function DateLabel(now: LocalDateTime): string {
    IntToString(now.year) + "年" + IntToString(now.monthNumber) + "月"
      + IntToString(now.dayOfMonth) + "日 (" + JapaneseWeekday(now.dayOfWeek) + ")"
  }

  /** The placeholder date shown before the first iteration. */
  const INITIAL_DATE_LABEL: string := "2025年5月24日 (土)"

  /** An abstract handle for a launched coroutine job. */
  type JobId = nat

  function JobSet(job: Option<JobId>): set<JobId> {
    if job.Some? then {job.value} else {}
  }

  class ClockTicker {
    var hours: string
    var minutes: string
    var seconds: string
    var currentDate: string
    /** The last launched job; `cancel()` leaves the reference in place, as in Kotlin. */
    var clockJob: Option<JobId>
    /** How many jobs this ticker has launched; the next job is numbered by it. */
    var launches: nat
    /**
     * The jobs launched and not cancelled. Cancellation is cooperative, so a
     * cancelled job may still finish the iteration it is in.
     */
    ghost var live: set<JobId>

    ghost predicate Valid()
      reads this
    {
      && live <= JobSet(clockJob)
      && (clockJob.Some? ==> clockJob.value < launches)
    }

    constructor ()
      ensures Valid()
      ensures hours == "00" && minutes == "00" && seconds == "00"
      ensures currentDate == INITIAL_DATE_LABEL
      ensures clockJob == None && launches == 0 && live == {}
    {
      hours, minutes, seconds := "00", "00", "00";
      currentDate := INITIAL_DATE_LABEL;
      clockJob := None;
      launches := 0;
      live := {};
    }

    /** `start()`: cancel the current job, then launch a new one and keep its handle. */
    method Start()
      requires Valid()
      modifies this
      ensures Valid()
      ensures clockJob == Some(old(launches)) && launches == old(launches) + 1
      ensures live == {old(launches)}
      ensures old(clockJob).Some? ==> old(clockJob).value !in live
      ensures hours == old(hours) && minutes == old(minutes) && seconds == old(seconds)
      ensures currentDate == old(currentDate)
    {
      if clockJob.Some? {
        live := live - {clockJob.value};
      }
      var job := launches;
      launches := launches + 1;
      clockJob := Some(job);
      live := live + {job};
    }

    /** `stop()`: cancel the current job, if there is one; nothing else changes. */
    method Stop()
      requires Valid()
      modifies this
      ensures Valid()
      ensures live == {}
      ensures clockJob == old(clockJob) && launches == old(launches)
      ensures hours == old(hours) && minutes == old(minutes) && seconds == old(seconds)
      ensures currentDate == old(currentDate)
    {
      if clockJob.Some? {
        live := live - {clockJob.value};
      }
    }

    /**
     * One iteration of the running job's loop: every display field is written
     * from the same sampled `now`.
     */
    method Tick(now: LocalDateTime)
      requires Valid() && clockJob.Some? && clockJob.value in live
      modifies this`hours, this`minutes, this`seconds, this`currentDate
      ensures Valid()
      ensures hours == TwoDigitField(now.hour)
      ensures minutes == TwoDigitField(now.minute)
      ensures seconds == TwoDigitField(now.second)
      ensures currentDate == DateLabel(now)
    {
      hours := TwoDigitField(now.hour);
      minutes := TwoDigitField(now.minute);
      seconds := TwoDigitField(now.second);
      var dayOfWeekJapanese := JapaneseWeekday(now.dayOfWeek);
      currentDate := IntToString(now.year) + "年" + IntToString(now.monthNumber) + "月"
        + IntToString(now.dayOfMonth) + "日 (" + dayOfWeekJapanese + ")";
    }
  }

  /** A subset of a singleton has at most one element. */
  lemma AtMostOneOf(live: set<JobId>, job: Option<JobId>)
    requires live <= JobSet(job)
    ensures |live| <= 1
  {
    if job.Some? && live != {} {
      assert live == {job.value};
    }
  }

  /** Whatever sequence of `start`/`stop` calls led here, at most one launched job is not cancelled. */
  lemma AtMostOneLiveJob(t: ClockTicker)
    requires t.Valid()
    ensures |t.live| <= 1
    ensures t.live != {} ==> t.clockJob.Some? && t.live == {t.clockJob.value}
  {
    AtMostOneOf(t.live, t.clockJob);
  }

  /**
   * For a valid sample, each time field a tick writes is exactly two decimal
   * digits, and reading it back as an Int gives the sampled value.
   */
  lemma TickFieldsRoundTrip(now: LocalDateTime)
    requires ValidDateTime(now)
    ensures |TwoDigitField(now.hour)| == 2 && AllDigits(TwoDigitField(now.hour))
    ensures |TwoDigitField(now.minute)| == 2 && AllDigits(TwoDigitField(now.minute))
    ensures |TwoDigitField(now.second)| == 2 && AllDigits(TwoDigitField(now.second))
    ensures ToIntOrNull(TwoDigitField(now.hour)) == Some(now.hour)
    ensures ToIntOrNull(TwoDigitField(now.minute)) == Some(now.minute)
    ensures ToIntOrNull(TwoDigitField(now.second)) == Some(now.second)
  {
    TwoDigitFieldShape(now.hour);
    TwoDigitFieldShape(now.minute);
    TwoDigitFieldShape(now.second);
    TwoDigitFieldRoundTrip(now.hour);
    TwoDigitFieldRoundTrip(now.minute);
    TwoDigitFieldRoundTrip(now.second);
  }

  /** The seven weekdays get seven different labels. */
  lemma JapaneseWeekdaysDistinct(a: DayOfWeek, b: DayOfWeek)
    ensures JapaneseWeekday(a) == JapaneseWeekday(b) <==> a == b
  {
  }
}
