/** The two-phase countdown of telegram_bot.py (`status` and
    `daily_notification`). Instants are integer microseconds since the Unix
    epoch, the resolution of Python's `datetime`; comparing and subtracting
    two aware datetimes works on these absolute instants. */
module PyCountdown {
  import opened CountdownTypes

  const MICROS_PER_DAY: int := 86_400_000_000
  const DEMOBILIZATION_LENGTH_DAYS: int := 365

  /** ARMY_DATE as the code builds it. Passing a pytz zone as `tzinfo=` gives
      the datetime the zone's first entry, local mean time. pytz rounds that
      offset to whole minutes, +03:41:00, so the instant is 2024-06-16 00:00
      at +03:41 = 2024-06-15T20:19:00Z. */
  const ARMY_DATE: int := 1_718_482_740_000_000

  /** Adding `timedelta(days=n)` to a datetime with a fixed offset moves the
      instant by exactly n days. */
  function DemobDate(armyDate: int): int
  {
    armyDate + DEMOBILIZATION_LENGTH_DAYS * MICROS_PER_DAY
  }

  /** The instant being counted down to at `now`. */
  function Target(armyDate: int, now: int): int
  {
    if now < armyDate then armyDate else DemobDate(armyDate)
  }

  /** `timedelta.days`: the whole days of a duration, rounded toward minus
      infinity (a negative duration of one microsecond is -1 days). */
  function TimedeltaDays(delta: int): (days: int)
    ensures days * MICROS_PER_DAY <= delta < (days + 1) * MICROS_PER_DAY
  {
    delta / MICROS_PER_DAY
  }

  /** The countdown computed by `status` and `daily_notification` for the
      reference instant `armyDate`. */
  function Remaining(armyDate: int, now: int): (r: Countdown)
    ensures r.phase == ToArmy <==> now < armyDate
    ensures r.days * MICROS_PER_DAY <= Target(armyDate, now) - now < (r.days + 1) * MICROS_PER_DAY
    ensures r.phase == ToArmy ==> r.days >= 0
  {
    if now < armyDate then Countdown(ToArmy, TimedeltaDays(armyDate - now))
    else Countdown(ToDemob, TimedeltaDays(DemobDate(armyDate) - now))
  }

  /** The reply of the /status command. */
  function Status(now: int): Countdown
  {
    Remaining(ARMY_DATE, now)
  }

  /** What the daily job sends: the countdown, to the chat stored as the
      job's data. */
  datatype Delivery = Delivery(chatId: int, countdown: Countdown)

  function DailyNotification(jobData: int, now: int): (d: Delivery)
    ensures d.chatId == jobData
    ensures d.countdown == Status(now)
  {
    if now < ARMY_DATE then Delivery(jobData, Countdown(ToArmy, TimedeltaDays(ARMY_DATE - now)))
    else Delivery(jobData, Countdown(ToDemob, TimedeltaDays(DemobDate(ARMY_DATE) - now)))
  }

  /** Equality with the reference instant already counts toward
      demobilisation, with the full service length left; one microsecond
      earlier the army countdown reads zero days. */
  lemma AtArmyDate(armyDate: int)
    ensures Remaining(armyDate, armyDate) == Countdown(ToDemob, DEMOBILIZATION_LENGTH_DAYS)
    ensures Remaining(armyDate, armyDate - 1) == Countdown(ToArmy, 0)
  {
  }

  /** Within one phase the day count never goes up as time passes. */
  lemma DaysNonIncreasing(armyDate: int, earlier: int, later: int)
    requires earlier <= later
    requires Remaining(armyDate, earlier).phase == Remaining(armyDate, later).phase
    ensures Remaining(armyDate, later).days <= Remaining(armyDate, earlier).days
  {
  }

  /** Within one phase, one day later the count is exactly one less. */
  lemma OneDayLater(armyDate: int, now: int)
    requires Remaining(armyDate, now).phase == Remaining(armyDate, now + MICROS_PER_DAY).phase
    ensures Remaining(armyDate, now + MICROS_PER_DAY).days == Remaining(armyDate, now).days - 1
  {
  }

  /** After the army date, the count is negative exactly when the
      demobilisation instant has passed. */
  lemma OverdueIffNegative(armyDate: int, now: int)
    requires armyDate <= now
    ensures Remaining(armyDate, now).days < 0 <==> DemobDate(armyDate) < now
  {
  }

  // 2024-06-16T00:00:00+04:00, local midnight in Dubai on the army date.
  const DUBAI_MIDNIGHT_JUNE_16: int := 1_718_481_600_000_000

  /** As written, the phase switches 19 minutes after Dubai midnight: at
      local midnight of the army date the bot still reports zero days to
      the army instead of the full service length. */
  lemma LocalMidnightStillBeforeArmy()
    ensures ARMY_DATE - DUBAI_MIDNIGHT_JUNE_16 == 19 * 60 * 1_000_000
    ensures Status(DUBAI_MIDNIGHT_JUNE_16) == Countdown(ToArmy, 0)
    // 2024-06-15T20:18:50Z, ten seconds before the reference instant
    ensures Status(1_718_482_730_000_000) == Countdown(ToArmy, 0)
    ensures forall now :: DUBAI_MIDNIGHT_JUNE_16 <= now < ARMY_DATE ==> Status(now) == Countdown(ToArmy, 0)
  {
  }

  /** The army date the comment "UTC+4" describes: 2024-06-16T00:00+04:00. */
  const ARMY_DATE_DUBAI: int := DUBAI_MIDNIGHT_JUNE_16

  function StatusIntended(now: int): Countdown
  {
    Remaining(ARMY_DATE_DUBAI, now)
  }

  /** With the +04:00 reference the phase switches exactly at Dubai
      midnight, and the sample dates give 15, 365 and -1 days. */
  lemma IntendedSwitchAtLocalMidnight(now: int)
    ensures StatusIntended(now).phase == ToDemob <==> DUBAI_MIDNIGHT_JUNE_16 <= now
    ensures StatusIntended(DUBAI_MIDNIGHT_JUNE_16) == Countdown(ToDemob, 365)
    // 2024-06-01T00:00:00+04:00
    ensures StatusIntended(1_717_185_600_000_000) == Countdown(ToArmy, 15)
    // 2025-06-17T00:00:00+04:00
    ensures StatusIntended(1_750_104_000_000_000) == Countdown(ToDemob, -1)
  {
  }
}
