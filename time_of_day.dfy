/** Start times of the timetable: the `"HH:MM"` strings that the reminder loop
    splits on `:` and converts with `int` to an hour and a minute. */
module TimeOfDay {

  /** An hour and a minute, as `map(int, time_str.split(":"))` yields them. */
  datatype Clock = Clock(hour: nat, minute: nat)

  predicate IsDigit(c: char) {
    '0' <= c <= '9'
  }

  function DigitValue(c: char): (v: nat)
    requires IsDigit(c)
    ensures v < 10
  {
    c as int - '0' as int
  }

  function DigitChar(v: nat): (c: char)
    requires v < 10
    ensures IsDigit(c) && DigitValue(c) == v
  {
    ('0' as int + v) as char
  }

  /** Two digits, a colon, two digits: the shape of every start time in the timetable. */
  predicate WellFormed(s: string) {
    |s| == 5 && IsDigit(s[0]) && IsDigit(s[1]) && s[2] == ':' && IsDigit(s[3]) && IsDigit(s[4])
  }

  /** Splitting on the colon and reading each half as a decimal number. */
  function Parse(s: string): (t: Clock)
    requires WellFormed(s)
    ensures t.hour < 100 && t.minute < 100
  {
    Clock(DigitValue(s[0]) * 10 + DigitValue(s[1]), DigitValue(s[3]) * 10 + DigitValue(s[4]))
  }

  /** The zero-padded `"HH:MM"` text of a clock reading, the inverse of Parse. */
  function Format(t: Clock): (s: string)
    requires t.hour < 100 && t.minute < 100
    ensures WellFormed(s)
  {
    [DigitChar(t.hour / 10), DigitChar(t.hour % 10), ':', DigitChar(t.minute / 10), DigitChar(t.minute % 10)]
  }

  lemma ParseFormat(t: Clock)
    requires t.hour < 100 && t.minute < 100
    ensures Parse(Format(t)) == t
  {
    var s := Format(t);
    assert DigitValue(s[0]) == t.hour / 10 && DigitValue(s[1]) == t.hour % 10;
    assert DigitValue(s[3]) == t.minute / 10 && DigitValue(s[4]) == t.minute % 10;
  }

  lemma FormatParse(s: string)
    requires WellFormed(s)
    ensures Format(Parse(s)) == s
  {
    var t := Parse(s);
    var r := Format(t);
    assert t.hour / 10 == DigitValue(s[0]) && t.hour % 10 == DigitValue(s[1]);
    assert t.minute / 10 == DigitValue(s[3]) && t.minute % 10 == DigitValue(s[4]);
    assert r[0] == s[0] && r[1] == s[1] && r[2] == s[2] && r[3] == s[3] && r[4] == s[4];
  }

  /** A well-formed start time whose hour and minute `datetime.replace(hour=..., minute=...)` accepts. */
  predicate IsValid(s: string) {
    WellFormed(s) && Parse(s).hour < 24 && Parse(s).minute < 60
  }

  /** Minutes after local midnight at which a session with start time `s` begins. */
  function MinuteOfDay(s: string): (m: nat)
    requires IsValid(s)
    ensures m < 24 * 60
    ensures m / 60 == Parse(s).hour && m % 60 == Parse(s).minute
  {
    Parse(s).hour * 60 + Parse(s).minute
  }

  lemma MinuteOfDayExample()
    ensures IsValid("09:40") && MinuteOfDay("09:40") == 580
  {
  }
}
