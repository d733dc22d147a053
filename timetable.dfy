/** The static two-week timetable of group KB-251 and the lookup that picks
    today's sessions out of it. */
module Timetable {
  import opened TimeOfDay

  /** One class session: its `"HH:MM"` start time and its title. */
  datatype Session = Session(time: string, title: string)

  /** Weekday keys indexed by `date.weekday()` (0 is Monday). */
  const WeekdayKeys: seq<string> := ["mon", "tue", "wed", "thu", "fri", "sat", "sun"]

  /** Week type -> weekday key -> that day's sessions in order of start time. */
  const Schedule: map<string, map<string, seq<Session>>> := map[
    "even" := map[
      "mon" := EvenMon,
      "tue" := EvenTue,
      "wed" := EvenWed,
      "thu" := EvenThu,
      "fri" := EvenFri,
      "sat" := EvenSat,
      "sun" := EvenSun
    ],
    "odd" := map[
      "mon" := OddMon,
      "tue" := OddTue,
      "wed" := OddWed,
      "thu" := OddThu,
      "fri" := OddFri,
      "sat" := OddSat,
      "sun" := OddSun
    ]
  ]

  const EvenMon: seq<Session> := [
    Session("08:00", "Фізика"),
    Session("09:40", "Фізика"),
    Session("11:25", "Web-технології"),
    Session("13:10", "Web-технології")
  ]
  const EvenTue: seq<Session> := [
    Session("09:40", "Фіз-ра"),
    Session("11:25", "Інформатика"),
    Session("13:10", "Інформатика")
  ]
  const EvenWed: seq<Session> := [
    Session("13:10", "Англ. мова / Web-технології"),
    Session("14:50", "Вища математика")
  ]
  const EvenThu: seq<Session> := [
    Session("09:40", "Фіз-ра"),
    Session("11:25", "Вища математика"),
    Session("13:10", "Вища математика")
  ]
  const EvenFri: seq<Session> := [
    Session("08:00", "Інформаційна безпека держави"),
    Session("09:40", "Інформаційна безпека держави"),
    Session("11:25", "Архітектура комп'ютерних систем / Інформатика"),
    Session("13:10", "Архітектура комп'ютерних систем")
  ]
  const EvenSat: seq<Session> := []
  const EvenSun: seq<Session> := []
  const OddMon: seq<Session> := [
    Session("11:25", "Web-технології (1)"),
    Session("13:10", "Вища математика"),
    Session("14:50", "Англ. мова")
  ]
  const OddTue: seq<Session> := [
    Session("08:00", "Інформатика (1) / Архітектура комп'ютерних систем (2)"),
    Session("09:40", "Фіз-ра"),
    Session("11:25", "Інформатика (2)")
  ]
  const OddWed: seq<Session> := [
    Session("08:00", "Web-технології (2)"),
    Session("09:40", "Web-технології (1) / Архітектура комп'ютерних систем (2)"),
    Session("11:25", "Фізика (1) / Інформатика (2)"),
    Session("13:10", "Інформатика (1)")
  ]
  const OddThu: seq<Session> := [
    Session("08:00", "Архітектура комп'ютерних систем (1)"),
    Session("09:40", "Фіз-ра"),
    Session("11:25", "Фізика (2)"),
    Session("13:10", "Web-технології (2)")
  ]
  const OddFri: seq<Session> := [
    Session("00:41", "Інформаційна безпека держави"),
    Session("11:25", "Інформаційна безпека держави"),
    Session("13:10", "Вища математика"),
    Session("14:50", "Архітектура комп'ютерних систем (1)")
  ]
  const OddSat: seq<Session> := []
  const OddSun: seq<Session> := []

  /** Every start time can be parsed and is a time of day. */
  predicate AllValid(sessions: seq<Session>) {
    forall i :: 0 <= i < |sessions| ==> IsValid(sessions[i].time)
  }

  /** Each session starts at least `gap` minutes after the one before it. */
  predicate Spaced(sessions: seq<Session>, gap: nat)
    requires AllValid(sessions)
  {
    forall i :: 0 <= i < |sessions| - 1 ==> MinuteOfDay(sessions[i].time) + gap <= MinuteOfDay(sessions[i + 1].time)
  }

  /** In a spaced day any later session starts at least `gap` minutes after any earlier one. */
  lemma {:induction false} SpacedOrdered(sessions: seq<Session>, gap: nat, i: int, j: int)
    requires AllValid(sessions) && Spaced(sessions, gap)
    requires 0 <= i < j < |sessions|
    ensures MinuteOfDay(sessions[i].time) + gap <= MinuteOfDay(sessions[j].time)
  {
    if i < j - 1 {
      SpacedOrdered(sessions, gap, i, j - 1);
    }
  }

  /** A well-formed day: every start time parses, and sessions are at least 100 minutes apart. */
  predicate WellSpacedDay(sessions: seq<Session>) {
    AllValid(sessions) && Spaced(sessions, 100)
  }

  /** The six start times the timetable uses, in minutes after midnight. */
  lemma StartTimes()
    ensures IsValid("00:41") && MinuteOfDay("00:41") == 41
    ensures IsValid("08:00") && MinuteOfDay("08:00") == 480
    ensures IsValid("09:40") && MinuteOfDay("09:40") == 580
    ensures IsValid("11:25") && MinuteOfDay("11:25") == 685
    ensures IsValid("13:10") && MinuteOfDay("13:10") == 790
    ensures IsValid("14:50") && MinuteOfDay("14:50") == 890
  {
  }

  /** A day of three sessions is well formed when each start is 100 minutes after the previous one. */
  lemma SpacedThree(a: Session, b: Session, c: Session)
    requires IsValid(a.time) && IsValid(b.time) && IsValid(c.time)
    requires MinuteOfDay(a.time) + 100 <= MinuteOfDay(b.time) && MinuteOfDay(b.time) + 100 <= MinuteOfDay(c.time)
    ensures WellSpacedDay([a, b, c])
  {
  }

  /** The same for a day of four sessions. */
  lemma SpacedFour(a: Session, b: Session, c: Session, d: Session)
    requires IsValid(a.time) && IsValid(b.time) && IsValid(c.time) && IsValid(d.time)
    requires MinuteOfDay(a.time) + 100 <= MinuteOfDay(b.time) && MinuteOfDay(b.time) + 100 <= MinuteOfDay(c.time)
    requires MinuteOfDay(c.time) + 100 <= MinuteOfDay(d.time)
    ensures WellSpacedDay([a, b, c, d])
  {
  }

  /** Every day of the "even" week is well formed. */
  lemma EvenWeekWellSpaced()
    ensures WellSpacedDay(EvenMon) && WellSpacedDay(EvenTue) && WellSpacedDay(EvenWed)
    ensures WellSpacedDay(EvenThu) && WellSpacedDay(EvenFri) && WellSpacedDay(EvenSat) && WellSpacedDay(EvenSun)
  {
    StartTimes();
    SpacedFour(EvenMon[0], EvenMon[1], EvenMon[2], EvenMon[3]);
    SpacedThree(EvenTue[0], EvenTue[1], EvenTue[2]);
    SpacedThree(EvenThu[0], EvenThu[1], EvenThu[2]);
    SpacedFour(EvenFri[0], EvenFri[1], EvenFri[2], EvenFri[3]);
  }

  /** Every day of the "odd" week is well formed. */
  lemma OddWeekWellSpaced()
    ensures WellSpacedDay(OddMon) && WellSpacedDay(OddTue) && WellSpacedDay(OddWed)
    ensures WellSpacedDay(OddThu) && WellSpacedDay(OddFri) && WellSpacedDay(OddSat) && WellSpacedDay(OddSun)
  {
    StartTimes();
    SpacedThree(OddMon[0], OddMon[1], OddMon[2]);
    SpacedThree(OddTue[0], OddTue[1], OddTue[2]);
    SpacedFour(OddWed[0], OddWed[1], OddWed[2], OddWed[3]);
    SpacedFour(OddThu[0], OddThu[1], OddThu[2], OddThu[3]);
    SpacedFour(OddFri[0], OddFri[1], OddFri[2], OddFri[3]);
  }

  /** Every day of the timetable is well formed. */
  lemma ScheduledDaysWellSpaced()
    ensures forall weekType, weekdayKey :: weekType in Schedule && weekdayKey in Schedule[weekType] ==>
      WellSpacedDay(Schedule[weekType][weekdayKey])
  {
    EvenWeekWellSpaced();
    OddWeekWellSpaced();
    forall weekType, weekdayKey | weekType in Schedule && weekdayKey in Schedule[weekType]
      ensures WellSpacedDay(Schedule[weekType][weekdayKey])
    {
      var r := Schedule[weekType][weekdayKey];
      if weekType == "even" {
        assert r in {EvenMon, EvenTue, EvenWed, EvenThu, EvenFri, EvenSat, EvenSun};
      } else {
        assert r in {OddMon, OddTue, OddWed, OddThu, OddFri, OddSat, OddSun};
      }
    }
  }

  /** `SCHEDULE.get(week_type, {}).get(weekday_key, [])`: the day stored for the week type
      and weekday, or the empty day when either key is missing. Whatever it yields is well formed. */
  function TodaySchedule(weekType: string, weekdayKey: string): (r: seq<Session>)
    ensures weekType in Schedule && weekdayKey in Schedule[weekType] ==> r == Schedule[weekType][weekdayKey]
    ensures weekType !in Schedule || weekdayKey !in Schedule[weekType] ==> r == []
    ensures WellSpacedDay(r)
  {
    ScheduledDaysWellSpaced();
    if weekType in Schedule && weekdayKey in Schedule[weekType] then Schedule[weekType][weekdayKey] else []
  }

  /** The week types are exactly "odd" and "even", and each has all seven weekday keys. */
  lemma ScheduleKeys()
    ensures Schedule.Keys == {"odd", "even"}
    ensures forall weekType :: weekType in Schedule ==> Schedule[weekType].Keys == set k | k in WeekdayKeys
  {
  }

  /** Saturdays and Sundays have no sessions in either week. */
  lemma WeekendsAreFree(weekType: string)
    ensures TodaySchedule(weekType, "sat") == [] && TodaySchedule(weekType, "sun") == []
  {
  }
}
