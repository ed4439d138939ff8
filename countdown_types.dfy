/** Values shared by both bots: which countdown applies and the whole-day
    count reported for it. */
module CountdownTypes {

  datatype Option<+T> = None | Some(value: T)

  /** Before the army start date both bots count down to it; from that
      instant on they count down to the end of service (demobilisation). */
  datatype Phase = ToArmy | ToDemob

  /** What a countdown reply carries once the message text is stripped. */
  datatype Countdown = Countdown(phase: Phase, days: int)
}
