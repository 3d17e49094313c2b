/** Dates and times of day as Python's `datetime` counts and prints them, for app/calendar/ics.py. */
module CalendarTime {
  import opened PyText

  /** `date.toordinal()`: day 1 is the first of January of year 1, a Monday. */
  type Date = n: int | 1 <= n witness 1

  type Minute = n: int | 0 <= n < 1440

  datatype Moment = Moment(day: Date, minute: Minute)

  // ----- the Gregorian calendar -----

  datatype Civil = Civil(year: nat, month: nat, day: nat)

  predicate IsLeap(year: nat) {
    year % 4 == 0 && (year % 100 != 0 || year % 400 == 0)
  }

  function DaysIn(year: nat, month: nat): (n: nat)
    ensures 28 <= n <= 31
  {
    if month == 2 then (if IsLeap(year) then 29 else 28)
    else if month == 4 || month == 6 || month == 9 || month == 11 then 30
    else 31
  }

  predicate IsCivil(c: Civil) {
    c.year >= 1 && 1 <= c.month <= 12 && 1 <= c.day <= DaysIn(c.year, c.month)
  }

  function Next(c: Civil): (r: Civil)
    requires IsCivil(c)
    ensures IsCivil(r)
  {
    if c.day < DaysIn(c.year, c.month) then Civil(c.year, c.month, c.day + 1)
    else if c.month < 12 then Civil(c.year, c.month + 1, 1)
    else Civil(c.year + 1, 1, 1)
  }

  function CivilOf(n: Date): (c: Civil)
    ensures IsCivil(c)
  {
    if n == 1 then Civil(1, 1, 1) else Next(CivilOf(n - 1))
  }

  function DaysBeforeYear(year: nat): (n: int)
    requires year >= 1
    ensures n >= 0
  {
    var y := year - 1;
    365 * y + y / 4 - y / 100 + y / 400
  }

  function DaysBeforeMonth(year: nat, month: nat): nat {
    if month <= 1 then 0 else DaysBeforeMonth(year, month - 1) + DaysIn(year, month - 1)
  }

  function Ordinal(c: Civil): Date
    requires IsCivil(c)
  {
    DaysBeforeYear(c.year) + DaysBeforeMonth(c.year, c.month) + c.day
  }

  lemma {:induction false} LeapDays(y: nat)
    ensures (y + 1) / 4 == y / 4 + (if (y + 1) % 4 == 0 then 1 else 0)
    ensures (y + 1) / 100 == y / 100 + (if (y + 1) % 100 == 0 then 1 else 0)
    ensures (y + 1) / 400 == y / 400 + (if (y + 1) % 400 == 0 then 1 else 0)
    ensures ((y + 1) % 400 == 0 ==> (y + 1) % 100 == 0) && ((y + 1) % 100 == 0 ==> (y + 1) % 4 == 0)
  {
  }

  lemma {:induction false} DaysBeforeDecember(year: nat)
    ensures DaysBeforeMonth(year, 12) == 334 + (if IsLeap(year) then 1 else 0)
  {
    hide IsLeap;
    assert DaysBeforeMonth(year, 2) == 31;
    assert DaysBeforeMonth(year, 3) == 59 + (if IsLeap(year) then 1 else 0);
    assert DaysBeforeMonth(year, 5) == 120 + (if IsLeap(year) then 1 else 0);
    assert DaysBeforeMonth(year, 7) == 181 + (if IsLeap(year) then 1 else 0);
    assert DaysBeforeMonth(year, 9) == 243 + (if IsLeap(year) then 1 else 0);
    assert DaysBeforeMonth(year, 11) == 304 + (if IsLeap(year) then 1 else 0);
  }

  lemma {:induction false} YearLength(year: nat)
    requires year >= 1
    ensures DaysBeforeYear(year + 1) == DaysBeforeYear(year) + DaysBeforeMonth(year, 12) + DaysIn(year, 12)
  {
    LeapDays(year - 1);
    DaysBeforeDecember(year);
    hide DaysBeforeMonth;
  }

  lemma {:induction false} NextOrdinal(c: Civil)
    requires IsCivil(c)
    ensures Ordinal(Next(c)) == Ordinal(c) + 1
  {
    if c.day == DaysIn(c.year, c.month) && c.month == 12 {
      YearLength(c.year);
    }
    hide DaysBeforeYear, DaysIn, IsLeap;
  }

  /** The day with a number has that number. */
  lemma {:induction false} OrdinalOfCivil(n: Date)
    ensures Ordinal(CivilOf(n)) == n
  {
    if n > 1 {
      OrdinalOfCivil(n - 1);
      NextOrdinal(CivilOf(n - 1));
      hide Next, Ordinal;
    }
  }

  // ----- printed moments -----

  /** `"%02d" % n`. */
  function Two(n: nat): (s: string)
    requires n < 100
    ensures |s| == 2 && AllDigits(s)
  {
    [(n / 10 + '0' as int) as char, (n % 10 + '0' as int) as char]
  }

  /** `strftime("%Y%m%dT%H%M%S")`; a moment has whole minutes. */
  function Stamp(m: Moment): string {
    StampText(CivilOf(m.day), m.minute / 60, m.minute % 60)
  }

  function StampText(c: Civil, hour: nat, minute: nat): string
    requires IsCivil(c) && hour < 24 && minute < 60
  {
    Decimal(c.year) + Two(c.month) + Two(c.day) + "T" + Two(hour) + Two(minute) + "00"
  }

  /** A reader of such texts. */
  function ReadStamp(s: string): Option<Moment> {
    if |s| < 12 then None
    else
      var k := |s| - 11;
      var (date, time) := (s[..k + 4], s[k + 5..]);
      if AllDigits(date) && s[k + 4] == 'T' && AllDigits(time) then
        PartsAreDigits(date, k);
        PartsAreDigits(time, 2);
        var c := Civil(Number(date[..k]), Number(date[k..k + 2]), Number(date[k + 2..]));
        var (hour, minute, second) := (Number(time[..2]), Number(time[2..4]), Number(time[4..]));
        if IsCivil(c) && hour < 24 && minute < 60 && second == 0 then Some(Moment(Ordinal(c), 60 * hour + minute)) else None
      else None
  }

  lemma {:induction false} PartsAreDigits(s: string, k: nat)
    requires AllDigits(s) && k + 2 <= |s|
    ensures AllDigits(s[..k]) && AllDigits(s[k..k + 2]) && AllDigits(s[k + 2..])
  {
    forall c | c in s[..k] || c in s[k..k + 2] || c in s[k + 2..] ensures c in s {
    }
  }

  lemma {:induction false} NumberOfTwo(n: nat)
    requires n < 100
    ensures Number(Two(n)) == n
  {
    var s := Two(n);
    assert s[..1][..0] == [];
    assert s[..1] == [s[0]];
    assert Number(s[..1]) == n / 10;
  }

  lemma {:induction false} DateParts(year: string, month: string, day: string)
    requires |month| == 2 && AllDigits(year) && AllDigits(month) && AllDigits(day)
    ensures var date, k := year + month + day, |year|;
            AllDigits(date) && date[..k] == year && date[k..k + 2] == month && date[k + 2..] == day
  {
  }

  lemma {:induction false} TextParts(date: string, time: string)
    requires |date| >= 5 && |time| == 6
    ensures var s, k := date + "T" + time, |date| - 4;
            |s| == k + 11 && s[..k + 4] == date && s[k + 4] == 'T' && s[k + 5..] == time
  {
  }

  /** A year, and two digits each for month and day. */
  predicate IsDateText(date: string, c: Civil) {
    |date| >= 5 && AllDigits(date) &&
    var k := |date| - 4;
    && AllDigits(date[..k]) && AllDigits(date[k..k + 2]) && AllDigits(date[k + 2..])
    && Number(date[..k]) == c.year && Number(date[k..k + 2]) == c.month && Number(date[k + 2..]) == c.day
  }

  /** Two digits each for hour, minute and second. */
  predicate IsTimeText(time: string, hour: nat, minute: nat) {
    && |time| == 6 && AllDigits(time)
    && AllDigits(time[..2]) && AllDigits(time[2..4]) && AllDigits(time[4..])
    && Number(time[..2]) == hour && Number(time[2..4]) == minute && Number(time[4..]) == 0
  }

  lemma {:induction false} DateIsRead(c: Civil)
    requires IsCivil(c)
    ensures IsDateText(Decimal(c.year) + Two(c.month) + Two(c.day), c)
  {
    NumberOfDecimal(c.year);
    NumberOfTwo(c.month);
    NumberOfTwo(c.day);
    DateParts(Decimal(c.year), Two(c.month), Two(c.day));
    hide Decimal, Two, Number, AllDigits;
  }

  lemma {:induction false} TimeIsRead(hour: nat, minute: nat)
    requires hour < 24 && minute < 60
    ensures IsTimeText(Two(hour) + Two(minute) + Two(0), hour, minute)
  {
    NumberOfTwo(hour);
    NumberOfTwo(minute);
    NumberOfTwo(0);
    DateParts(Two(hour), Two(minute), Two(0));
    hide Two, Number, AllDigits;
  }

  lemma {:induction false} TextReadsBack(c: Civil, hour: nat, minute: nat)
    requires IsCivil(c) && hour < 24 && minute < 60
    ensures ReadStamp(StampText(c, hour, minute)) == Some(Moment(Ordinal(c), 60 * hour + minute))
  {
    var date, time := Decimal(c.year) + Two(c.month) + Two(c.day), Two(hour) + Two(minute) + Two(0);
    DateIsRead(c);
    TimeIsRead(hour, minute);
    StampParts(c, hour, minute);
    hide *;
    TextIsRead(date, time, c, hour, minute);
  }

  /** Reading a printed moment gives the moment. */
  lemma {:induction false} StampReadsBack(m: Moment)
    ensures ReadStamp(Stamp(m)) == Some(m)
  {
    hide ReadStamp, StampText, Ordinal, CivilOf;
    OrdinalOfCivil(m.day);
    MinuteIs(m.minute);
    TextReadsBack(CivilOf(m.day), m.minute / 60, m.minute % 60);
  }

  lemma {:induction false} MinuteIs(m: Minute)
    ensures m / 60 < 24 && m % 60 < 60 && 60 * (m / 60) + m % 60 == m
  {
  }

  /** What is read from a text whose parts are these numbers. */
  lemma {:induction false} TextIsRead(date: string, time: string, c: Civil, hour: nat, minute: nat)
    requires IsDateText(date, c) && IsTimeText(time, hour, minute) && IsCivil(c) && hour < 24 && minute < 60
    ensures ReadStamp(date + "T" + time) == Some(Moment(Ordinal(c), 60 * hour + minute))
  {
    TextParts(date, time);
    hide Number, Ordinal, IsCivil, AllDigits;
  }

  lemma {:induction false} StampParts(c: Civil, hour: nat, minute: nat)
    requires IsCivil(c) && hour < 24 && minute < 60
    ensures StampText(c, hour, minute)
            == Decimal(c.year) + Two(c.month) + Two(c.day) + "T" + (Two(hour) + Two(minute) + Two(0))
  {
    assert Two(0) == "00";
    hide Decimal, Two;
  }
}
