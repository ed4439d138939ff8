/** The countdown arithmetic of index.js. Instants are integer milliseconds
    since the Unix epoch, the value of `Date.prototype.getTime`. */
module JsCountdown {
  import opened CountdownTypes

  const MS_PER_HOUR: int := 3_600_000
  const MS_PER_DAY: int := 1000 * 3600 * 24
  const DEFAULT_SERVICE_DAYS: int := 365

  /** `getDaysRemaining(targetDate)` at instant `now`: the millisecond
      difference divided by a day, rounded up (`Math.ceil`). */
  function GetDaysRemaining(target: int, now: int): (days: int)
    ensures (days - 1) * MS_PER_DAY < target - now <= days * MS_PER_DAY
  {
    -((now - target) / MS_PER_DAY)
  }

  /** Any time left at all counts as at least one day. */
  lemma DaysRemainingPositive(target: int, now: int)
    requires now < target
    ensures GetDaysRemaining(target, now) >= 1
  {
  }

  /** Zero days are reported from the target instant itself until just
      under one day after it. */
  lemma DaysRemainingZero(target: int, now: int)
    ensures GetDaysRemaining(target, now) == 0 <==> -MS_PER_DAY < target - now <= 0
  {
  }

  /** The count never goes up as time passes. */
  lemma DaysRemainingNonIncreasing(target: int, earlier: int, later: int)
    requires earlier <= later
    ensures GetDaysRemaining(target, later) <= GetDaysRemaining(target, earlier)
  {
  }

  /** `process.env.ARMY_SERVICE_LENGTH_DAYS || '365'`, already parsed; `None`
      stands for an unset or empty variable. */
  function ServiceLength(env: Option<int>): int
  {
    match env
    case None => DEFAULT_SERVICE_DAYS
    case Some(n) => n
  }

  /** Day of the month (1 to 31) of a local wall-clock reading in
      milliseconds, proleptic Gregorian calendar: what `getDate` returns.
      `setDate(getDate() + n)` only uses differences of it, so the end date
      does not depend on its value. */
  function DayOfMonth(localMs: int): (d: int)
    ensures 1 <= d <= 31
  {
    var z := localMs / MS_PER_DAY + 719468;
    var era := z / 146097;
    var dayOfEra := z - era * 146097;
    var yearOfEra := (dayOfEra - dayOfEra / 1460 + dayOfEra / 36524 - dayOfEra / 146096) / 365;
    var dayOfYear := dayOfEra - (365 * yearOfEra + yearOfEra / 4 - yearOfEra / 100);
    var monthFromMarch := (5 * dayOfYear + 2) / 153;
    MonthStartBounds(dayOfYear, monthFromMarch);
    dayOfYear - (153 * monthFromMarch + 2) / 5 + 1
  }

  /** Whatever the day of the year, the month index (5*doy+2)/153 puts doy
      between 0 and 30 days after the first day of that month. */
  lemma MonthStartBounds(dayOfYear: int, month: int)
    requires month == (5 * dayOfYear + 2) / 153
    ensures 0 <= dayOfYear - (153 * month + 2) / 5 <= 30
  {
    var q := (153 * month + 2) / 5;
    assert 153 * month <= 5 * dayOfYear + 2 < 153 * month + 153;
    assert 5 * q <= 153 * month + 2 < 5 * q + 5;
  }

  /** A JavaScript `Date` in a host zone with a fixed offset (no daylight
      saving): its time value and the host's offset, both in milliseconds. */
  class JsDate {
    var time: int
    const hostOffset: int

    /** `new Date(t)` */
    constructor (t: int, offset: int)
      ensures time == t && hostOffset == offset
    {
      time := t;
      hostOffset := offset;
    }

    function GetDate(): int
      reads this
    {
      DayOfMonth(time + hostOffset)
    }

    /** `setDate(d)`: move to day d of the current local month, keeping the
        local time of day; days outside the month roll over into the
        neighbouring months. */
    method SetDate(d: int)
      modifies this
      ensures time == old(time) + (d - old(GetDate())) * MS_PER_DAY
    {
      time := time + (d - GetDate()) * MS_PER_DAY;
    }
  }

  /** `armyEndDate`: a copy of the start date moved forward with
      `setDate(getDate() + days)`; without a daylight-saving change this is
      exactly `days` whole days later. */
  method ArmyEndDate(start: int, days: int, hostOffset: int) returns (end: JsDate)
    ensures fresh(end)
    ensures end.time == start + days * MS_PER_DAY
  {
    end := new JsDate(start, hostOffset);
    end.SetDate(end.GetDate() + days);
  }

  /** The two `new Date()` reads of one `sendCountdownMessage` call: the one
      that picks the phase and the later one inside `getDaysRemaining`. */
  datatype ClockReads = ClockReads(atPhase: int, atDiff: int)

  /** The phase choice of `sendCountdownMessage`: before the start date count
      to it, from the start date on count to the end date. The phase is
      decided on the first clock read, the day count on the second. */
  function SelectCountdown(start: int, end: int, clock: ClockReads): (c: Countdown)
    ensures c.phase == ToArmy <==> clock.atPhase < start
    ensures var target := if clock.atPhase < start then start else end;
      (c.days - 1) * MS_PER_DAY < target - clock.atDiff <= c.days * MS_PER_DAY
    ensures c.phase == ToArmy && clock.atDiff < start ==> c.days >= 1
  {
    if clock.atPhase < start then Countdown(ToArmy, GetDaysRemaining(start, clock.atDiff))
    else Countdown(ToDemob, GetDaysRemaining(end, clock.atDiff))
  }

  /** When the two reads straddle the start instant, the army countdown
      reads zero days: "0 days to the army". */
  lemma ZeroDaysToArmyAcrossStart(start: int, end: int)
    ensures SelectCountdown(start, end, ClockReads(start - 1, start)) == Countdown(ToArmy, 0)
  {
  }

  /** As long as the second read comes after the first and less than a day
      later, the army countdown is never negative. */
  lemma ArmyCountNonNegative(start: int, end: int, clock: ClockReads)
    requires clock.atPhase <= clock.atDiff < clock.atPhase + MS_PER_DAY
    ensures SelectCountdown(start, end, clock).phase == ToArmy ==> SelectCountdown(start, end, clock).days >= 0
  {
  }

  /** At the start instant itself the count is already the demobilisation
      count, and equals the service length. */
  lemma AtStartDate(start: int, days: int)
    ensures SelectCountdown(start, start + days * MS_PER_DAY, ClockReads(start, start)) == Countdown(ToDemob, days)
  {
  }

  /** node-schedule `RecurrenceRule` with hour, minute and second set, in
      UTC (`rule.tz = 'UTC'`); an unset second defaults to 0. */
  datatype RecurrenceRule = RecurrenceRule(hour: int, minute: int, second: int)

  const DAILY_RULE: RecurrenceRule := RecurrenceRule(20, 0, 0)

  /** The rule fires at instant t (whole milliseconds). */
  predicate Fires(rule: RecurrenceRule, t: int)
  {
    t % MS_PER_DAY == rule.hour * MS_PER_HOUR + rule.minute * 60_000 + rule.second * 1000
  }

  /** 20:00 UTC is midnight at UTC+4: the daily rule fires exactly at the
      instants whose UTC+4 wall clock reads 00:00:00.000. */
  lemma DailyRuleAtDubaiMidnight(t: int)
    ensures Fires(DAILY_RULE, t) <==> (t + 4 * MS_PER_HOUR) % MS_PER_DAY == 0
  {
  }
}
