/** One run of the reminder script: pick today's sessions and send a message
    for each one that starts within the next `AheadMinutes` minutes.
    The current moment `now` is the local wall-clock reading in microseconds,
    `((hour * 60 + minute) * 60 + second) * 1000000 + microsecond`, not the time elapsed
    since midnight (the two differ by an hour on a daylight-saving change day); the
    messages handed to `send_message` are returned in order as the outbox. */
module Reminder {
  import opened TimeOfDay
  import opened WeekParity
  import opened Timetable

  /** How many minutes ahead of a session the reminder is sent. */
  const AheadMinutes: nat := 10

  const MicrosPerMinute: nat := 60 * 1000000

  /** The session's start on today's date, `now.replace(hour=h, minute=m, second=0, microsecond=0)`,
      as a wall-clock reading in microseconds. */
  function SessionStart(s: Session): (t: nat)
    requires IsValid(s.time)
    ensures t % MicrosPerMinute == 0 && t / MicrosPerMinute == MinuteOfDay(s.time)
  {
    MinuteOfDay(s.time) * MicrosPerMinute
  }

  /** `0 < diff_minutes <= AHEAD_MINUTES`, stated exactly on microseconds instead of a float.
      A due session has not started yet; DueByClockMinute and DueBoundaries characterise it. */
  predicate IsDue(s: Session, now: int)
    requires IsValid(s.time)
    ensures IsDue(s, now) ==> now < SessionStart(s)
  {
    0 < SessionStart(s) - now <= AheadMinutes * MicrosPerMinute
  }

  /** Sub-minute precision never changes the verdict: a session is due exactly when it
      starts 1 to `AheadMinutes` whole minutes after the minute `now` falls in. */
  lemma DueByClockMinute(s: Session, now: int)
    requires IsValid(s.time)
    ensures IsDue(s, now) <==> 1 <= MinuteOfDay(s.time) - now / MicrosPerMinute <= AheadMinutes
  {
    var q, sub := now / MicrosPerMinute, now % MicrosPerMinute;
    var d := MinuteOfDay(s.time) - q;
    assert SessionStart(s) - now == d * MicrosPerMinute - sub;
    if d <= 0 {
      assert d * MicrosPerMinute <= 0;
    } else if d > AheadMinutes {
      assert d * MicrosPerMinute >= (AheadMinutes + 1) * MicrosPerMinute;
    } else {
      assert MicrosPerMinute <= d * MicrosPerMinute <= AheadMinutes * MicrosPerMinute;
    }
  }

  /** The boundary cases: a session starting this very microsecond, or already started,
      is not due; one starting exactly `AheadMinutes` ahead is; one further out is not. */
  lemma DueBoundaries(s: Session, now: int)
    requires IsValid(s.time)
    ensures now == SessionStart(s) ==> !IsDue(s, now)
    ensures now > SessionStart(s) ==> !IsDue(s, now)
    ensures now == SessionStart(s) - AheadMinutes * MicrosPerMinute ==> IsDue(s, now)
    ensures now < SessionStart(s) - AheadMinutes * MicrosPerMinute ==> !IsDue(s, now)
  {
  }

  /** A 09:40 session seen at 09:35 is due; at 09:41 or at 09:29 it is not. */
  lemma DueExamples()
    ensures IsValid("09:40")
    ensures IsDue(Session("09:40", "Фіз-ра"), (9 * 60 + 35) * MicrosPerMinute)
    ensures !IsDue(Session("09:40", "Фіз-ра"), (9 * 60 + 41) * MicrosPerMinute)
    ensures !IsDue(Session("09:40", "Фіз-ра"), (9 * 60 + 29) * MicrosPerMinute)
  {
    assert MinuteOfDay("09:40") == 580;
  }

  /** The sessions of `sessions` that are due at `now`, in schedule order. */
  function DueSessions(sessions: seq<Session>, now: int): (r: seq<Session>)
    requires AllValid(sessions)
    ensures |r| <= |sessions|
    ensures forall x :: x in r ==> x in sessions && IsValid(x.time) && IsDue(x, now)
  {
    if sessions == [] then []
    else
      var init, last := sessions[..|sessions| - 1], sessions[|sessions| - 1];
      DueSessions(init, now) + (if IsDue(last, now) then [last] else [])
  }

  /** Positions in `sessions` of the sessions due at `now`, in increasing order. */
  ghost function DuePositions(sessions: seq<Session>, now: int): (r: seq<int>)
    requires AllValid(sessions)
    ensures forall k :: 0 <= k < |r| ==> 0 <= r[k] < |sessions|
  {
    if sessions == [] then []
    else
      var n := |sessions| - 1;
      DuePositions(sessions[..n], now) + (if IsDue(sessions[n], now) then [n] else [])
  }

  /** Each due session is the session at the matching position. */
  lemma {:induction false} DueSessionsAtPositions(sessions: seq<Session>, now: int)
    requires AllValid(sessions)
    ensures |DuePositions(sessions, now)| == |DueSessions(sessions, now)|
    ensures forall k :: 0 <= k < |DuePositions(sessions, now)| ==>
      DueSessions(sessions, now)[k] == sessions[DuePositions(sessions, now)[k]]
  {
    if sessions != [] {
      var n := |sessions| - 1;
      var init := sessions[..n];
      DueSessionsAtPositions(init, now);
      var pos, posInit := DuePositions(sessions, now), DuePositions(init, now);
      var due, dueInit := DueSessions(sessions, now), DueSessions(init, now);
      forall k | 0 <= k < |pos|
        ensures due[k] == sessions[pos[k]]
      {
        if k < |posInit| {
          assert due[k] == dueInit[k] == init[posInit[k]];
        }
      }
    }
  }

  /** The positions increase: the due sessions keep their schedule order. */
  lemma {:induction false} DuePositionsIncrease(sessions: seq<Session>, now: int)
    requires AllValid(sessions)
    ensures forall k, l :: 0 <= k < l < |DuePositions(sessions, now)| ==>
      DuePositions(sessions, now)[k] < DuePositions(sessions, now)[l]
  {
    if sessions != [] {
      var n := |sessions| - 1;
      DuePositionsIncrease(sessions[..n], now);
    }
  }

  /** A position is listed exactly when the session there is due. */
  lemma {:induction false} DuePositionsExact(sessions: seq<Session>, now: int)
    requires AllValid(sessions)
    ensures forall i :: 0 <= i < |sessions| ==> (IsDue(sessions[i], now) <==> i in DuePositions(sessions, now))
  {
    if sessions != [] {
      var n := |sessions| - 1;
      var init := sessions[..n];
      DuePositionsExact(init, now);
      var pos, posInit := DuePositions(sessions, now), DuePositions(init, now);
      forall i | 0 <= i < |sessions|
        ensures IsDue(sessions[i], now) <==> i in pos
      {
        if i < n {
          assert init[i] == sessions[i];
          assert i in pos <==> i in posInit;
        } else {
          assert n !in posInit;
        }
      }
    }
  }

  /** If sessions are at least `AheadMinutes` apart, at most one of them is due at a time. */
  lemma AtMostOneDue(sessions: seq<Session>, gap: nat, now: int)
    requires AllValid(sessions) && Spaced(sessions, gap) && gap >= AheadMinutes
    ensures |DueSessions(sessions, now)| <= 1
  {
    var idx := DuePositions(sessions, now);
    DueSessionsAtPositions(sessions, now);
    DuePositionsIncrease(sessions, now);
    DuePositionsExact(sessions, now);
    if |idx| >= 2 {
      var a, b := sessions[idx[0]], sessions[idx[1]];
      SpacedOrdered(sessions, gap, idx[0], idx[1]);
      DueByClockMinute(a, now);
      DueByClockMinute(b, now);
      assert false;
    }
  }

  /** The f-string handed to `send_message`: it names the week type inside the opening
      parenthesis, carries the start time after the prefix, and ends with the title. */
  function MessageText(weekType: string, time: string, title: string): (r: string)
    ensures var w := |"Скоро начинается пара ("|;
      |r| >= w + |weekType| && r[..w] == "Скоро начинается пара (" && r[w..w + |weekType|] == weekType
    ensures var p := |"Скоро начинается пара ("| + |weekType| + |" неделя) в "|;
      |r| == p + |time| + |" — "| + |title| && r[p..p + |time|] == time && r[|r| - |title|..] == title
  {
    "Скоро начинается пара (" + weekType + " неделя) в " + time + " — " + title
  }

  /** A message names its session: for one week type and start times of one length,
      equal texts mean equal start times and equal titles. */
  lemma MessageTextDetermines(weekType: string, time1: string, title1: string, time2: string, title2: string)
    requires |time1| == |time2|
    requires MessageText(weekType, time1, title1) == MessageText(weekType, time2, title2)
    ensures time1 == time2 && title1 == title2
  {
    var prefix := "Скоро начинается пара (" + weekType + " неделя) в ";
    var m1, m2 := MessageText(weekType, time1, title1), MessageText(weekType, time2, title2);
    assert m1 == prefix + time1 + " — " + title1;
    assert m2 == prefix + time2 + " — " + title2;
    var p, n := |prefix|, |time1|;
    assert m1[p..p + n] == time1;
    assert m2[p..p + n] == time2;
    assert m1[p + n + 3..] == title1;
    assert m2[p + n + 3..] == title2;
  }

  /** The messages one run sends for today's sessions, one per due session, in order. */
  function Notifications(weekType: string, sessions: seq<Session>, now: int): (r: seq<string>)
    requires AllValid(sessions)
    ensures |r| == |DueSessions(sessions, now)| <= |sessions|
    ensures forall k :: 0 <= k < |r| ==>
      r[k] == MessageText(weekType, DueSessions(sessions, now)[k].time, DueSessions(sessions, now)[k].title)
  {
    var due := DueSessions(sessions, now);
    seq(|due|, k requires 0 <= k < |due| => MessageText(weekType, due[k].time, due[k].title))
  }

  /** The loop over today's sessions: parse the start time, place it on today's date,
      and send a message when the session is due. */
  method NotifyDue(weekType: string, todaySchedule: seq<Session>, now: int) returns (outbox: seq<string>)
    requires AllValid(todaySchedule)
    ensures outbox == Notifications(weekType, todaySchedule, now)
  {
    outbox := [];
    for i := 0 to |todaySchedule|
      invariant outbox == Notifications(weekType, todaySchedule[..i], now)
    {
      var session := todaySchedule[i];
      var clock := Parse(session.time);
      var lessonTime := (clock.hour * 60 + clock.minute) * MicrosPerMinute;
      var diff := lessonTime - now;
      ghost var prefix := todaySchedule[..i + 1];
      assert prefix[..i] == todaySchedule[..i] && prefix[i] == session;
      if 0 < diff <= AheadMinutes * MicrosPerMinute {
        outbox := outbox + [MessageText(weekType, session.time, session.title)];
      }
    }
    assert todaySchedule[..|todaySchedule|] == todaySchedule;
  }

  /** `main`: today's date (as an ordinal) and the time of day `now` give the week type,
      the weekday, today's sessions and the messages sent. */
  method Run(today: int, now: int) returns (weekType: string, outbox: seq<string>)
    ensures weekType == "odd" || weekType == "even"
    ensures weekType == WeekType(today)
    ensures outbox == Notifications(weekType, TodaySchedule(weekType, WeekdayKeys[Weekday(today)]), now)
    ensures |outbox| <= 1
    ensures Weekday(today) >= 5 ==> outbox == []
  {
    var weekdayKey := WeekdayKeys[Weekday(today)];
    weekType := WeekType(today);
    var todaySchedule := TodaySchedule(weekType, weekdayKey);
    AtMostOneDue(todaySchedule, 100, now);
    WeekendsAreFree(weekType);
    outbox := NotifyDue(weekType, todaySchedule, now);
  }
}
