/** app/calendar/config.py, the validated configuration and its lookups. */
module CalendarConfig {
  import opened PyText
  import opened CalendarTime

  datatype Term = Term(semester: string, monday: Date, teachingStart: Date, weeks: int, exdates: seq<Date>)

  type Window = (string, string)

  datatype Config = Config(
    periods: map<int, Window>,
    periodSource: map<int, string>,
    blockCodes: map<string, seq<int>>,
    dayCodeMap: map<string, string>,
    terms: map<string, Term>,
    studentWeekOffset: map<string, int>,
    onConflict: string,
    version: int)

  const WEEKDAYS := ["MO", "TU", "WE", "TH", "FR", "SA", "SU"]

  /** The five characters `HH:MM` that the time pattern of the configuration accepts. */
  predicate IsClock(s: string) {
    && |s| == 5 && s[2] == ':'
    && IsDigit(s[0]) && IsDigit(s[1]) && IsDigit(s[3]) && IsDigit(s[4])
    && (s[0] <= '1' || (s[0] == '2' && s[1] <= '3'))
    && s[3] <= '5'
  }

  /** `int(hour) * 60 + int(minute)`. */
  function Minutes(s: string): (m: nat)
    requires IsClock(s)
    ensures m < 24 * 60
  {
    (s[0] as int - 48) * 600 + (s[1] as int - 48) * 60 + (s[3] as int - 48) * 10 + (s[4] as int - 48)
  }

  predicate IsWindow(w: Window) {
    IsClock(w.0) && IsClock(w.1) && Less(w.0, w.1)
  }

  predicate IsTerm(t: Term) {
    t.monday % 7 == 1 && t.monday <= t.teachingStart && 1 <= t.weeks <= 30
  }

  ghost predicate DefinesWindows(c: Config) {
    forall p | p in c.periods :: IsWindow(c.periods[p])
  }

  /** What every configuration accepted at startup satisfies. */
  ghost predicate Valid(c: Config) {
    && c.periods != map[]
    && DefinesWindows(c)
    && (forall p <- c.periods :: 1 <= p <= 30)
    && (forall code <- c.blockCodes :: c.blockCodes[code] != [] && forall p <- c.blockCodes[code] :: p in c.periods)
    && (forall code <- c.dayCodeMap :: c.dayCodeMap[code] in WEEKDAYS)
    && (forall a <- c.dayCodeMap, b <- c.dayCodeMap :: c.dayCodeMap[a] == c.dayCodeMap[b] ==> a == b)
    && (forall s <- c.terms :: IsTerm(c.terms[s]) && c.terms[s].semester == s)
    && (forall name <- c.studentWeekOffset :: 0 <= c.studentWeekOffset[name] <= 10)
    && c.onConflict in {"trust_course", "skip"}
  }

  /** Text order on clocks is time order. */
  lemma {:induction false} ClockOrder(a: string, b: string)
    requires IsClock(a) && IsClock(b)
    ensures Less(a, b) <==> Minutes(a) < Minutes(b)
  {
    assert a == [a[0], a[1], a[2], a[3], a[4]];
    assert b == [b[0], b[1], b[2], b[3], b[4]];
    assert Less(a, b) <==> a[0] < b[0] || (a[0] == b[0] && Less(a[1..], b[1..]));
    assert Less(a[1..], b[1..]) <==> a[1] < b[1] || (a[1] == b[1] && Less(a[1..][1..], b[1..][1..]));
    assert a[1..][1..] == a[2..] && b[1..][1..] == b[2..];
    assert Less(a[2..], b[2..]) <==> Less(a[2..][1..], b[2..][1..]);
    assert a[2..][1..] == a[3..] && b[2..][1..] == b[3..];
    assert Less(a[3..], b[3..]) <==> a[3] < b[3] || (a[3] == b[3] && Less(a[3..][1..], b[3..][1..]));
    assert a[3..][1..] == a[4..] && b[3..][1..] == b[4..];
    assert Less(a[4..], b[4..]) <==> a[4] < b[4] || (a[4] == b[4] && Less(a[4..][1..], b[4..][1..]));
  }

  function Earlier(a: string, b: string): string {
    if Less(b, a) then b else a
  }

  function Later(a: string, b: string): string {
    if Less(a, b) then b else a
  }

  /** Earliest start and latest end of the defined periods among `periods`; none when no period is defined. */
  function PeriodWindow(c: Config, periods: seq<int>): Option<Window> {
    if periods == [] then None
    else
      var rest := PeriodWindow(c, periods[1..]);
      if periods[0] !in c.periods then rest
      else
        var w := c.periods[periods[0]];
        match rest
        case None => Some(w)
        case Some(r) => Some((Earlier(w.0, r.0), Later(w.1, r.1)))
  }

  /** `w` contains the window of every defined period of `periods`, and each end of `w` is an end of one of them. */
  ghost predicate Hull(c: Config, periods: seq<int>, w: Window)
    requires DefinesWindows(c)
  {
    && IsWindow(w)
    && (forall p | p in periods && p in c.periods ::
          && Minutes(w.0) <= Minutes(c.periods[p].0)
          && Minutes(c.periods[p].1) <= Minutes(w.1))
    && (exists p :: p in periods && p in c.periods && w.0 == c.periods[p].0)
    && (exists p :: p in periods && p in c.periods && w.1 == c.periods[p].1)
  }

  /** The window is the hull of the defined periods, and is missing exactly when no period is defined. */
  lemma {:induction false} WindowIsHull(c: Config, periods: seq<int>)
    requires DefinesWindows(c)
    ensures PeriodWindow(c, periods).None? <==> forall p | p in periods :: p !in c.periods
    ensures PeriodWindow(c, periods).Some? ==> Hull(c, periods, PeriodWindow(c, periods).value)
  {
    if periods != [] {
      var first, tail := periods[0], periods[1..];
      WindowIsHull(c, tail);
      assert periods == [first] + tail;
      assert forall p :: p in periods <==> p == first || p in tail;
      if first in c.periods {
        var v := c.periods[first];
        ClockOrder(v.0, v.1);
        var rest := PeriodWindow(c, tail);
        if rest.Some? {
          ClockOrder(rest.value.0, v.0);
          ClockOrder(v.0, rest.value.0);
          ClockOrder(v.1, rest.value.1);
          ClockOrder(rest.value.0, rest.value.1);
          var w := PeriodWindow(c, periods).value;
          ClockOrder(w.0, w.1);
        }
      }
    }
  }

  function BlockPeriods(c: Config, timeCode: string): seq<int> {
    var code := Strip(timeCode);
    if code in c.blockCodes then c.blockCodes[code] else []
  }

  function WeekdayIndex(c: Config, dayCode: string): (r: Option<nat>)
    ensures r.Some? ==> r.value < 7 && Strip(dayCode) in c.dayCodeMap && c.dayCodeMap[Strip(dayCode)] == WEEKDAYS[r.value]
    ensures r.None? ==> Strip(dayCode) !in c.dayCodeMap || c.dayCodeMap[Strip(dayCode)] !in WEEKDAYS
  {
    var code := Strip(dayCode);
    if code !in c.dayCodeMap then None else IndexFrom(c.dayCodeMap[code], 0)
  }

  function IndexFrom(token: string, i: nat): (r: Option<nat>)
    requires i <= |WEEKDAYS|
    ensures r.Some? ==> i <= r.value < |WEEKDAYS| && WEEKDAYS[r.value] == token
    ensures r.None? ==> token !in WEEKDAYS[i..]
    decreases |WEEKDAYS| - i
  {
    if i == |WEEKDAYS| then None
    else if WEEKDAYS[i] == token then Some(i)
    else
      assert WEEKDAYS[i..] == [WEEKDAYS[i]] + WEEKDAYS[i + 1..];
      IndexFrom(token, i + 1)
  }

  /** Two day codes that mean the same weekday are the same code, up to blanks around them. */
  lemma {:induction false} WeekdayInjective(c: Config, a: string, b: string)
    requires Valid(c)
    requires WeekdayIndex(c, a).Some? && WeekdayIndex(c, a) == WeekdayIndex(c, b)
    ensures Strip(a) == Strip(b)
  {
  }
}
