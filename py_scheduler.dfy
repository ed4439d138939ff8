/** `set_timer` of telegram_bot.py: the first-fire computation in Dubai time
    and the replace-by-name update of the bot's job queue. */
module PyScheduler {
  import opened PyCountdown
  import Decimal

  const MICROS_PER_MINUTE: int := 60_000_000
  const MICROS_PER_HOUR: int := 3_600_000_000

  /** Asia/Dubai has kept +04:00 without daylight saving since 1920;
      `datetime.now(zone)` localises correctly, so "now" carries +04:00. */
  const DUBAI_OFFSET: int := 4 * MICROS_PER_HOUR

  /** Wall-clock reading in Dubai, as microseconds since local 1970-01-01. */
  function LocalWallClock(now: int): int
  {
    now + DUBAI_OFFSET
  }

  /** `now.hour == 0 and now.minute == 0` in Dubai time. */
  predicate InMidnightMinute(now: int)
  {
    LocalWallClock(now) % MICROS_PER_DAY < MICROS_PER_MINUTE
  }

  predicate IsLocalMidnight(t: int)
  {
    LocalWallClock(t) % MICROS_PER_DAY == 0
  }

  /** The first-fire instant: "now" itself during the 00:00 minute,
      otherwise midnight of the next Dubai day. */
  function FirstTime(now: int): (t: int)
    ensures now <= t < now + MICROS_PER_DAY
    ensures InMidnightMinute(now) ==> t == now
    ensures !InMidnightMinute(now) ==> now < t && IsLocalMidnight(t)
  {
    if InMidnightMinute(now) then now
    else
      var tomorrow := LocalWallClock(now) + MICROS_PER_DAY;
      tomorrow / MICROS_PER_DAY * MICROS_PER_DAY - DUBAI_OFFSET
  }

  /** `first_time.astimezone(timezone.utc).time()`: the UTC time of day in
      microseconds since UTC midnight. Outside the 00:00 minute it is
      20:00:00 UTC; inside it, 20:00 UTC plus the seconds already elapsed
      in that local minute. */
  function FirstTimeUtc(now: int): (tod: int)
    ensures 0 <= tod < MICROS_PER_DAY
    ensures !InMidnightMinute(now) ==> tod == 20 * MICROS_PER_HOUR
    ensures InMidnightMinute(now) ==>
      tod == 20 * MICROS_PER_HOUR + LocalWallClock(now) % MICROS_PER_DAY &&
      tod < 20 * MICROS_PER_HOUR + MICROS_PER_MINUTE
  {
    var t := FirstTime(now);
    var day := LocalWallClock(now) / MICROS_PER_DAY;
    if InMidnightMinute(now) then
      var m := LocalWallClock(now) % MICROS_PER_DAY;
      assert t == (day - 1) * MICROS_PER_DAY + (20 * MICROS_PER_HOUR + m);
      ShiftedRemainder(day - 1, 20 * MICROS_PER_HOUR + m);
      t % MICROS_PER_DAY
    else
      assert t == day * MICROS_PER_DAY + 20 * MICROS_PER_HOUR;
      ShiftedRemainder(day, 20 * MICROS_PER_HOUR);
      t % MICROS_PER_DAY
  }

  lemma ShiftedRemainder(k: int, x: int)
    requires 0 <= x < MICROS_PER_DAY
    ensures (k * MICROS_PER_DAY + x) % MICROS_PER_DAY == x
  {
  }

  /** `days=(0, 1, 2, 3, 4, 5, 6)` of `run_daily`: every weekday. */
  const EVERY_DAY: seq<int> := [0, 1, 2, 3, 4, 5, 6]

  /** A daily job of the queue. Its callback is always `daily_notification`;
      `time` is the `time=` argument given to `run_daily`, a UTC time of
      day in microseconds (when the scheduler then fires is not modelled);
      `removed` is set by `schedule_removal`. */
  datatype Job = Job(name: string, data: int, time: int, days: seq<int>, removed: bool)

  /** The job name used for a chat: `str(chat_id)`. */
  function JobName(chatId: int): string
  {
    Decimal.IntToString(chatId)
  }

  /** The job `run_daily` adds for `chatId` when called at `now`. */
  function NewJob(chatId: int, now: int): Job
  {
    Job(JobName(chatId), chatId, FirstTimeUtc(now), EVERY_DAY, false)
  }

  /** Job i is in the queue, still scheduled, and named `name`. */
  predicate IsLive(jobs: seq<Job>, i: int, name: string)
  {
    0 <= i < |jobs| && jobs[i].name == name && !jobs[i].removed
  }

  /** `get_jobs_by_name`: the positions of the scheduled jobs with that
      name, in queue order. */
  function JobsByName(jobs: seq<Job>, name: string): (r: seq<int>)
    ensures forall k :: 0 <= k < |r| ==> IsLive(jobs, r[k], name)
    ensures forall i :: IsLive(jobs, i, name) ==> i in r
    decreases |jobs|
  {
    if jobs == [] then []
    else
      var last := |jobs| - 1;
      JobsByName(jobs[..last], name) + (if IsLive(jobs, last, name) then [last] else [])
  }

  /** `schedule_removal` applied to a job if it carries `name`. Marking an
      already removed job again leaves it as it is. */
  function RemoveIfNamed(job: Job, name: string): Job
  {
    if job.name == name then job.(removed := true) else job
  }

  /** The queue after `set_timer(chatId)` at `now`. */
  function Registered(jobs: seq<Job>, chatId: int, now: int): seq<Job>
  {
    seq(|jobs|, i requires 0 <= i < |jobs| => RemoveIfNamed(jobs[i], JobName(chatId)))
      + [NewJob(chatId, now)]
  }

  /** At most one scheduled job per name: what registering only through
      `set_timer` keeps. */
  predicate AtMostOneLivePerName(jobs: seq<Job>)
  {
    forall i, j ::
      0 <= i < |jobs| && 0 <= j < |jobs| && !jobs[i].removed && !jobs[j].removed &&
      jobs[i].name == jobs[j].name
      ==> i == j
  }

  /** After `set_timer(c)`: every earlier job for c is removed, exactly one
      scheduled job for c remains (the new one, carrying c, every day),
      and jobs with other names are untouched. */
  lemma RegisterReplaces(jobs: seq<Job>, c: int, now: int)
    ensures var r := Registered(jobs, c, now);
      |r| == |jobs| + 1 &&
      r[|jobs|] == Job(JobName(c), c, FirstTimeUtc(now), EVERY_DAY, false) &&
      (forall i :: 0 <= i < |jobs| && jobs[i].name == JobName(c) ==> r[i].removed) &&
      (forall i :: 0 <= i < |jobs| && jobs[i].name != JobName(c) ==> r[i] == jobs[i]) &&
      (forall i :: IsLive(r, i, JobName(c)) <==> i == |jobs|)
  {
  }

  /** Registering chat c leaves the scheduled jobs of every other chat d
      exactly as they were. */
  lemma RegisterLeavesOtherChats(jobs: seq<Job>, c: int, d: int, now: int)
    requires c != d
    ensures var r := Registered(jobs, c, now);
      forall i :: IsLive(r, i, JobName(d)) <==> IsLive(jobs, i, JobName(d)) && r[i] == jobs[i]
  {
    if JobName(c) == JobName(d) {
      Decimal.IntToStringInjective(c, d);
    }
  }

  /** Two registrations in a row leave exactly one scheduled job for the
      chat: the one with the second call's fire time. */
  lemma RegisterTwice(jobs: seq<Job>, c: int, now1: int, now2: int)
    ensures var r := Registered(Registered(jobs, c, now1), c, now2);
      (forall i :: IsLive(r, i, JobName(c)) <==> i == |jobs| + 1) &&
      r[|jobs| + 1].time == FirstTimeUtc(now2)
  {
  }

  /** `set_timer` keeps at most one scheduled job per name. */
  lemma RegisterKeepsOnePerName(jobs: seq<Job>, c: int, now: int)
    requires AtMostOneLivePerName(jobs)
    ensures AtMostOneLivePerName(Registered(jobs, c, now))
  {
  }

  /** The application's job queue, holding the daily jobs in the order they
      were added. */
  class JobQueue {
    var jobs: seq<Job>

    constructor ()
      ensures jobs == []
    {
      jobs := [];
    }

    /** `set_timer` for `chatId` at instant `now`. */
    method SetTimer(chatId: int, now: int)
      modifies this
      ensures jobs == Registered(old(jobs), chatId, now)
      ensures AtMostOneLivePerName(old(jobs)) ==> AtMostOneLivePerName(jobs)
    {
      var name := JobName(chatId);
      var current := JobsByName(jobs, name);
      var k := 0;
      while k < |current|
        invariant 0 <= k <= |current|
        invariant |jobs| == |old(jobs)|
        invariant forall t :: 0 <= t < |current| ==> IsLive(old(jobs), current[t], name)
        invariant forall i :: IsLive(old(jobs), i, name) ==> i in current
        invariant forall i :: 0 <= i < |jobs| ==>
          jobs[i] == if i in current[..k] then RemoveIfNamed(old(jobs)[i], name) else old(jobs)[i]
      {
        var i := current[k];
        jobs := jobs[i := RemoveIfNamed(jobs[i], name)];
        assert current[..k + 1] == current[..k] + [i];
        k := k + 1;
      }
      assert current[..k] == current;
      jobs := jobs + [NewJob(chatId, now)];
      assert jobs == Registered(old(jobs), chatId, now);
      if AtMostOneLivePerName(old(jobs)) {
        RegisterKeepsOnePerName(old(jobs), chatId, now);
      }
    }
  }
}
