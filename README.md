# Army countdown bots, modelled in Dafny

The repository holds two small Telegram bots that count down to an army
start date and then to the end of service (demobilisation):
`telegram_bot.py` (python-telegram-bot) and `index.js` (node-telegram-bot-api
with node-schedule). This project models the logic inside them and leaves
out the messaging plumbing:

- the two-phase countdown of the Python bot (`status`, `daily_notification`),
  on instants in integer microseconds: `PyCountdown`;
- `set_timer` of the Python bot: the first-fire instant at Dubai midnight,
  its UTC time of day, and the replace-by-name update of the job queue,
  as a `JobQueue` class whose `SetTimer` method marks the old jobs in a loop
  and appends the new one: `PyScheduler`;
- `str(chat_id)`, which names the jobs, with a proof that distinct chats get
  distinct names: `Decimal`;
- the JavaScript countdown on instants in integer milliseconds:
  `getDaysRemaining` (ceiling of whole days), `armyEndDate` built with
  `setDate(getDate() + n)` on a `Date` object, the phase choice of
  `sendCountdownMessage` and the 20:00-UTC `RecurrenceRule`: `JsCountdown`;
- the JavaScript bot's mutable `chatId` and its event handlers, as a
  `CountdownBot` class: `JsBot`.

The wall clock is a parameter everywhere. The JavaScript
`sendCountdownMessage` reads it twice (once for the phase, once inside
`getDaysRemaining`), so it takes both reads. Dubai has a fixed +04:00
offset. The Python reference instant is the integer the code actually
produces (see Findings).

The two bots round differently, and the model keeps both roundings. Python's
`timedelta.days` rounds the elapsed time down: one microsecond before the
target it already reports 0 days. JavaScript's `Math.ceil` rounds up: any
remaining time counts as one day. Calendar-date subtraction in the Dubai
zone would give different counts near midnight; the code subtracts
instants, and the model follows the code.

## Model

| member | source | states |
|---|---|---|
| `PyCountdown.TimedeltaDays` | telegram_bot.py:45 | `.days` of a duration is its floor in whole days: `days*D <= delta < (days+1)*D` |
| `PyCountdown.Remaining` | telegram_bot.py:43-50 | the countdown of the `/status` reply (`Status` is `Remaining` at ARMY_DATE): phase is "to army" exactly when `now < ARMY_DATE`. Days are the floor of the time left to the phase's target, which is ARMY_DATE or ARMY_DATE + 365 days. The army count is never negative |
| `PyCountdown.DailyNotification` | telegram_bot.py:54-66 | the daily job sends to the chat stored as the job's data; its duplicated countdown equals `/status` for every instant |
| `PyCountdown.AtArmyDate` | telegram_bot.py:43-50 | at the reference instant the phase is demobilisation with 365 days. One microsecond earlier it is army with 0 days |
| `PyCountdown.DaysNonIncreasing` | telegram_bot.py:45-50 | within a phase the day count never increases as `now` grows |
| `PyCountdown.OneDayLater` | telegram_bot.py:45-50 | within a phase, one day later the count is exactly one less |
| `PyCountdown.OverdueIffNegative` | telegram_bot.py:49-50 | in the demobilisation phase the count is negative exactly when the end date has passed |
| `PyCountdown.LocalMidnightStillBeforeArmy` | telegram_bot.py:29 | as written, ARMY_DATE lies 19 minutes after Dubai midnight. At that midnight, and until 20:19:00Z, `/status` still reports 0 days to the army |
| `PyCountdown.IntendedSwitchAtLocalMidnight` | telegram_bot.py:29-30 | with a +04:00 reference the phase switches exactly at Dubai midnight. The sample instants give 15, 365 and -1 days |
| `PyScheduler.FirstTime` | telegram_bot.py:82-86 | the first fire is never before `now` and less than one day after it. In the local 00:00 minute it is `now`; otherwise it is the next Dubai midnight |
| `PyScheduler.FirstTimeUtc` | telegram_bot.py:89 | the UTC time of day of the first fire is 20:00:00 outside the local 00:00 minute. Inside that minute it is 20:00 plus the local seconds already elapsed |
| `PyScheduler.JobsByName` | telegram_bot.py:73 | `get_jobs_by_name` lists exactly the still-scheduled jobs with that name |
| `PyScheduler.RegisterReplaces` | telegram_bot.py:73-98 | after `set_timer(c)`: every earlier job named `str(c)` is removed. Exactly one scheduled job named `str(c)` remains: the new one, with data `c`, all seven days and the computed time. Jobs with other names are unchanged |
| `PyScheduler.RegisterLeavesOtherChats` | telegram_bot.py:73-97 | registering chat `c` leaves the scheduled jobs of every other chat `d` as they were |
| `PyScheduler.RegisterTwice` | telegram_bot.py:73-98 | calling `set_timer` twice leaves exactly one scheduled job for the chat, with the second call's time |
| `PyScheduler.RegisterKeepsOnePerName` | telegram_bot.py:73-98 | "at most one scheduled job per name" is preserved by `set_timer` |
| `PyScheduler.JobQueue.SetTimer` | telegram_bot.py:69-98 | the removal loop followed by `run_daily` leaves the queue equal to `Registered(old queue, chat, now)` and keeps at most one scheduled job per name |
| `Decimal.IntToString` | telegram_bot.py:97 | `str(chat_id)` is non-empty and starts with `-` exactly for negative ids |
| `Decimal.IntToStringInjective` | telegram_bot.py:97 | distinct chat ids give distinct job names |
| `JsCountdown.GetDaysRemaining` | index.js:44-48 | the result is the ceiling of the millisecond difference over one day: `(d-1)*D < t-now <= d*D` |
| `JsCountdown.DaysRemainingPositive` | index.js:44-48 | any remaining time counts as at least one day |
| `JsCountdown.DaysRemainingZero` | index.js:44-48 | the count is 0 exactly when `t - now` lies in (-1 day, 0] |
| `JsCountdown.DaysRemainingNonIncreasing` | index.js:45-47 | the count never increases as `now` grows |
| `JsCountdown.JsDate.constructor` | index.js:25 | `new Date(t)` copies the time value |
| `JsCountdown.JsDate.SetDate` | index.js:26 | `setDate(d)` moves the date by `d - getDate()` whole days (fixed host offset) |
| `JsCountdown.ArmyEndDate` | index.js:25-26 | `setDate(getDate() + n)` on a copy of the start date gives exactly start + n days |
| `JsCountdown.SelectCountdown` | index.js:52-63 | the first clock read picks the phase: before the start date the count targets it, from the start date on it targets the end date. The days are the ceiling of the time left at the second read. The army count is at least 1 while the second read is still before the start |
| `JsCountdown.ZeroDaysToArmyAcrossStart` | index.js:45-57 | when the two clock reads straddle the start instant, the bot reports 0 days to the army |
| `JsCountdown.ArmyCountNonNegative` | index.js:45-57 | if the second read is at or after the first and less than a day later, the army count is never negative |
| `JsCountdown.DayOfMonth` | index.js:26 | `getDate` is a day of the month between 1 and 31 |
| `JsCountdown.AtStartDate` | index.js:55-63 | at the start instant the phase is demobilisation and the count equals the service length |
| `JsCountdown.DailyRuleAtDubaiMidnight` | index.js:72-75 | the 20:00:00 UTC rule fires exactly at the instants that read 00:00:00.000 at UTC+4 |
| `JsBot.CountdownBot.constructor` | index.js:19-26 | `chatId` and the start date come from the environment. The end date is the start date plus the service length, 365 by default |
| `JsBot.CountdownBot.SendCountdownMessage` | index.js:51-66 | the message goes to the current `chatId`. Its phase comes from the first clock read and its ceiling day count from the second |
| `JsBot.CountdownBot.StartupMessages` | index.js:92-95 | one countdown is sent at start-up exactly when a chat id is configured, to that chat, with the `SelectCountdown` phase and days |
| `JsBot.CountdownBot.OnNewChatMembers` | index.js:32-41 | when `bot.botInfo` is set and the bot is among the new members, `chatId` becomes that chat, which gets a greeting and a countdown. Otherwise, including when `botInfo` is unset, nothing changes and nothing is sent |
| `JsBot.CountdownBot.SetChat` | index.js:86-90 | `/setchat` makes the issuing chat the target and sends it an acknowledgement and a countdown |
| `JsBot.LastWriterWins` | index.js:20-90 | after start-up, bot-added and `/setchat`, the next countdown goes to the chat of `/setchat` |

## Left out

- Telegram calls (`reply_text`, `send_message`, `bot.sendMessage`, polling) and the message texts: replies are modelled as the (phase, days) they carry, or as `Outgoing` values.
- The `/start` greeting of the Python bot and the acknowledgement text of `set_timer`: these are fixed replies with no logic.
- The Express keep-alive server, the process signal handlers and `job.cancel()` on SIGINT: these are I/O and process lifecycle.
- Environment loading, `parseInt` and `new Date(string)`: configuration values arrive already parsed as integers. An invalid date (NaN) or an invalid day count is not modelled.
- The JavaScript `chatId` is a string when it comes from CHAT_ID and a number when it comes from a message. The model uses one integer type, with `None` for an unset or empty variable.
- Daylight-saving changes in the JavaScript host zone: `JsDate` assumes a fixed host offset, so `setDate` moves by whole 24-hour days. The ±8.64e15 ms range of `Date` is not modelled.
- The real clock and the time-zone database: `now` is a parameter and the Dubai offset is a constant.
- `Math.ceil` on a floating-point quotient is modelled as exact integer ceiling division of the integer milliseconds.
- Job firing: the python-telegram-bot JobQueue/APScheduler and node-schedule internals, the actual firing instants, and async concurrency. Only the queue's contents and the replace operation are modelled.
- Job objects are values in the queue's sequence. A handle to a job held elsewhere does not see `schedule_removal`.
- JsCountdown.DayOfMonth: only its range 1 to 31 is proved, not that it is the calendar day of the month; `setDate(getDate() + n)` uses only differences of it, so the end date does not depend on its value.
- JsBot.CountdownBot.OnNewChatMembers: whether node-telegram-bot-api fills in `bot.botInfo` is not part of this model (the library's source is not modelled). Both cases are covered: an unset `botInfo` leaves the state unchanged, and a set one is taken to hold the bot's user id.
- Removed jobs stay in the modelled queue with their `removed` flag set.
- `PyCountdown.Status` and `PyCountdown.DailyNotification` use the reference instant the code produces, not the corrected one. The general countdown lemmas (`Remaining`, `AtArmyDate`, `DaysNonIncreasing`, `OneDayLater`, `OverdueIffNegative`) are stated for an arbitrary reference instant, so they also hold for the corrected one; the two lemmas of the Findings are about the fixed constants.

## Findings

| source | as written | input that shows it | evidently intended | confidence | as-written member | corrected member |
|---|---|---|---|---|---|---|
| telegram_bot.py:29 | `tzinfo=pytz.timezone('Asia/Dubai')` gives ARMY_DATE the zone's local-mean-time offset, which pytz rounds to whole minutes (+03:41:00), so the reference instant is 2024-06-15T20:19:00Z | `now` = 2024-06-16T00:00:00+04:00: `/status` reports 0 days to the army | 2024-06-16T00:00:00+04:00 ("UTC+4"): at that instant, 365 days to demobilisation | not executed; high (pytz's documented behaviour for `tzinfo=`) | `PyCountdown.LocalMidnightStillBeforeArmy` | `PyCountdown.IntendedSwitchAtLocalMidnight` |
