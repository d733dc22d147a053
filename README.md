# KB-251 class reminder, modelled in Dafny

The system is a cron-style Telegram bot script (`bot.py`) for student group KB-251.
Each run takes the current time in Kyiv and decides whether the current week is
"odd" or "even", counting whole weeks from the Monday 2025-11-10 with floor
division. It looks up today's sessions in a static two-week timetable. It then sends
one message for each session that starts more than 0 and at most
`AHEAD_MINUTES` (10) minutes from now.

The model has four modules, one per part of that logic:

- `TimeOfDay` (`time_of_day.dfy`) covers the `"HH:MM"` start times. `Parse` models
  `map(int, time_str.split(":"))`, `Format` is its inverse, and `MinuteOfDay` gives
  the minute after midnight.
- `WeekParity` (`week_parity.dfy`) covers `get_week_type` and `date.weekday()`. A date
  is its proleptic Gregorian ordinal, the value of `date.toordinal()`, so 2025-11-10
  is day 739565. Python's `(a - b).days` is then the difference of two ordinals, and
  `weekday()` is `(ordinal + 6) % 7`. Python's `//` and `%` with divisor 7 or 2
  round toward negative infinity, and so do Dafny's `/` and `%` with a positive
  divisor.
- `Timetable` (`timetable.dfy`) holds `WEEKDAY_KEYS`, the `SCHEDULE` table with the
  source's titles and times, and the `.get(..., {}).get(..., [])` lookup. The
  odd-week Friday session at 00:41 stays as the source has it.
- `Reminder` (`reminder.dfy`) models the due check, the message text, the loop in
  `main`, and `main` itself.
  - The current moment `now` is the local wall-clock reading in microseconds,
    `((hour*60+minute)*60+second)*1_000_000+microsecond`. It is not the time elapsed
    since midnight; the two differ by an hour on a daylight-saving change day.
  - A session's start is its minute of the day times 60 000 000 microseconds. This
    is `now.replace(hour=h, minute=m, second=0, microsecond=0)`.
  - Python subtracts two aware datetimes that share a `tzinfo` as wall-clock
    times. Both `now` and the session start are wall-clock readings, so `lesson_time - now` is exactly this integer difference, even on a
    daylight-saving day.
  - The float test `0 < diff_minutes <= AHEAD_MINUTES` is the integer test
    `0 < start - now <= 10 * 60 000 000`.
  - The messages that `send_message` would receive form the outbox: the loop
    returns them as a sequence, in order. The loop keeps no list of due sessions
    and no minutes-until-start values; it only builds and sends text. The model
    follows that.

Main results:

- Week parity:
  - `WeekType` always returns "odd" or "even".
  - The base week is "odd", and the seven days before it are "even".
  - Moving seven days flips the type, and moving fourteen days keeps it, on both
    sides of the base date.
  - The type is the same from any Monday through the following Sunday.
- Due sessions:
  - The due sessions are exactly the due entries of the day, kept in schedule
    order.
  - Sub-minute precision never changes which sessions are due.
  - A session that starts exactly now is not due. One that starts exactly 10
    minutes ahead is.
- Timetable and messages:
  - In the timetable, sessions on the same day start at least 100 minutes apart,
    so a run sends at most one message.
  - Weekends send nothing.
  - Within one run, for the timetable's five-character start times, a message text
    determines the start time and title it was built from.

## Model

| member | source | states |
|---|---|---|
| `TimeOfDay.Parse` | bot.py:163 | a well-formed `"HH:MM"` reads as an hour and a minute, each below 100 |
| `TimeOfDay.Format` | bot.py:163 | the zero-padded text of a clock reading is a well-formed `"HH:MM"` |
| `TimeOfDay.ParseFormat` | bot.py:163 | parsing the formatted reading gives the reading back |
| `TimeOfDay.FormatParse` | bot.py:163 | formatting a parsed time string gives the string back, so the parse loses nothing |
| `TimeOfDay.MinuteOfDay` | bot.py:163-166 | the start lies in the day, and dividing by 60 gives back the parsed hour and minute |
| `TimeOfDay.MinuteOfDayExample` | bot.py:163 | `"09:40"` is minute 580 |
| `WeekParity.FloorDiv` | bot.py:111 | `delta_days // 7` is the quotient rounded toward negative infinity: `q*7 <= a < q*7 + 7` |
| `WeekParity.Weekday` | bot.py:149 | `weekday()` is an index 0..6 |
| `WeekParity.BaseIsMonday` | bot.py:12-14 | the base date 2025-11-10 is a Monday |
| `WeekParity.WeekType` | bot.py:105-117 | the result is always exactly "odd" or "even" |
| `WeekParity.WeekTypeOfOffset` | bot.py:110-117 | day `r` (0..6) of the week `k` weeks after the base Monday is "odd" iff `k` is even, for negative `k` too |
| `WeekParity.BaseWeekIsOdd` | bot.py:110-115 | the base date and the six days after it are "odd" |
| `WeekParity.WeekBeforeBaseIsEven` | bot.py:110-117 | the seven days before the base date are "even", because the week count floors to -1 |
| `WeekParity.NextWeekFlips` | bot.py:110-117 | adding seven days always changes the week type |
| `WeekParity.TwoWeeksPeriodic` | bot.py:110-117 | adding fourteen days never changes the week type |
| `WeekParity.SameWeekSameType` | bot.py:110-117 | since the base is a Monday, every day from a Monday to the next Sunday has that Monday's week type |
| `Timetable.TodaySchedule` | bot.py:155 | the day stored under the week type and weekday key, or the empty day when either key is missing; the result always parses and is spaced |
| `Timetable.ScheduleKeys` | bot.py:34-97 | the week types are exactly "odd" and "even", each with the seven keys of `WEEKDAY_KEYS` |
| `Timetable.WeekendsAreFree` | bot.py:62-95 | "sat" and "sun" are empty in both weeks |
| `Timetable.ScheduledDaysWellSpaced` | bot.py:34-97 | every start time in the table is a valid `"HH:MM"`, and sessions of one day start at least 100 minutes apart |
| `Timetable.EvenWeekWellSpaced` | bot.py:35-64 | the same for each day of the "even" week |
| `Timetable.OddWeekWellSpaced` | bot.py:65-96 | the same for each day of the "odd" week |
| `Timetable.SpacedOrdered` | bot.py:34-97 | in a spaced day, any later session starts at least the gap after any earlier one |
| `Reminder.SessionStart` | bot.py:164-166 | the session's instant is a whole minute, and that minute is its parsed start |
| `Reminder.DueByClockMinute` | bot.py:164-171 | a session is due iff it starts 1 to `AHEAD_MINUTES` whole minutes after the minute `now` falls in |
| `Reminder.DueBoundaries` | bot.py:168-171 | not due at or after its start, due exactly `AHEAD_MINUTES` before it, not due earlier than that |
| `Reminder.DueExamples` | bot.py:168-171 | a 09:40 session is due at 09:35 and not due at 09:41 or at 09:29 |
| `Reminder.DueSessions` | bot.py:162-171 | every selected session is an entry of the day and is due; there are no more of them than entries |
| `Reminder.DuePositions` | bot.py:162-171 | the positions of the due sessions lie within the day |
| `Reminder.DueSessionsAtPositions` | bot.py:162-171 | the k-th due session is the day's entry at the k-th due position |
| `Reminder.DuePositionsIncrease` | bot.py:162-171 | the due positions increase, so the due sessions keep schedule order |
| `Reminder.DuePositionsExact` | bot.py:162-171 | a position is among the due positions iff the session there is due |
| `Reminder.AtMostOneDue` | bot.py:162-171 | if sessions are at least `AHEAD_MINUTES` apart, at most one is due at any moment |
| `Reminder.IsDue` | bot.py:168-171 | the test `0 < diff_minutes <= AHEAD_MINUTES` on exact microseconds; a due session has not started yet, and DueByClockMinute and DueBoundaries characterise it fully |
| `Reminder.MessageText` | bot.py:172-174 | the f-string: the text opens with the fixed greeting and the week type, the start time follows the `" неделя) в "` prefix, and the text ends with the title; MessageTextDetermines shows the text identifies time and title |
| `Reminder.Notifications` | bot.py:162-175 | the texts `send_message` receives: MessageText mapped over DueSessions, one per due session, in order, no more than the day's entries |
| `Reminder.MessageTextDetermines` | bot.py:172-174 | for one week type and start times of one length, equal messages have equal start times and titles |
| `Reminder.NotifyDue` | bot.py:162-175 | the loop sends one message per due session, in order: the message texts of the due sessions |
| `Reminder.Run` | bot.py:141-175 | `main` uses the week type of today's date and the weekday's schedule, sends at most one message, and sends none on a weekend |

## Left out

- `send_message` (bot.py:120-138) is not modelled. This covers the HTTP request to the Telegram API, its catch-all `except`, and the check for missing `TOKEN`/`CHAT_ID`, which skips the request. The outbox holds every text passed to it. Whether the text was delivered is network I/O.
- The environment reads (bot.py:101-102) and the `print` diagnostics (bot.py:123, 136, 138, 157-160) are I/O.
- The UTC to Europe/Kyiv conversion (bot.py:143-147) is a foreign library. `Run` takes the local date (as an ordinal) and the local time of day (in microseconds) as inputs.
- Python's float division in `total_seconds() / 60` (bot.py:168) is replaced by the exact integer comparison on microseconds. The differences here stay below a day. At that size one microsecond is far larger than double precision's rounding step, so rounding does not move a value across 0 or 10.
- `TIME_SLOTS` (bot.py:21-28) is never used by the script.
- Malformed start times are not modelled. Python's `int` also accepts one-digit fields, signs, spaces and underscores. `replace` raises an exception for an hour of 24 or more or a minute of 60 or more, and so does a string without exactly one colon. The model requires every start time to be two digits, a colon and two digits, with hour below 24 and minute below 60. `ScheduledDaysWellSpaced` proves that the table meets this.
- Converting a calendar date (year, month, day) to its ordinal is library code. Only the base date's ordinal appears, as a constant.
- `Run`: its `|outbox| <= 1` holds because of the table's data: its sessions are at least 100 minutes apart. The loop alone guarantees only what `NotifyDue` states.
