/** app/calendar/rules.py: week strings, period names, and teaching weeks to dates. */
module CalendarRules {
  import opened PyText
  import opened CalendarConfig

  datatype ScheduleError =
    | WeeksEmpty
    | BothParities
    | BadSegment(segment: string)
    | BadRange(segment: string)
    | NoWeeks
    | WeeksBeyondTerm(limit: int)
    | NoWeekOfParity
    | WeekOutsideTerm(week: int)
    | PeriodsUnreadable(timeCode: string, timeName: string)
    | PeriodsOutsideBlock(course: seq<int>, block: seq<int>)

  datatype Parity = Odd | Even

  datatype ParsedWeeks = ParsedWeeks(weeks: seq<int>, parity: Option<Parity>)

  // ----- the meaning of a week string -----

  function WeekBody(text: string): string {
    Without(Strip(text), '周')
  }

  function ParityOf(text: string): Option<Parity> {
    var body := WeekBody(text);
    if '单' in body then Some(Odd) else if '双' in body then Some(Even) else None
  }

  predicate MixesParities(text: string) {
    '单' in WeekBody(text) && '双' in WeekBody(text)
  }

  function Separator(c: char): char {
    if c in {'，', ',', '、', '；'} then ';' else c
  }

  function Translate(s: string): (t: string)
    ensures |t| == |s| && forall i | 0 <= i < |s| :: t[i] == Separator(s[i])
  {
    if s == [] then [] else [Separator(s[0])] + Translate(s[1..])
  }

  function Segments(text: string): seq<string> {
    Split(Translate(Without(Without(WeekBody(text), '单'), '双')), ';')
  }

  /** One or two digits. */
  predicate IsShortNumber(s: string) {
    1 <= |s| <= 2 && AllDigits(s)
  }

  /** The two ends of `a` or `a-b`, one or two digits each; none for any other text. */
  function ReadSegment(segment: string): (r: Option<(nat, nat)>)
    ensures r.Some? ==> r.value.0 <= 99 && r.value.1 <= 99
  {
    var parts := Split(segment, '-');
    if |parts| == 1 && IsShortNumber(parts[0]) then
      ShortNumberBound(parts[0]);
      Some((Number(parts[0]), Number(parts[0])))
    else if |parts| == 2 && IsShortNumber(parts[0]) && IsShortNumber(parts[1]) then
      ShortNumberBound(parts[0]);
      ShortNumberBound(parts[1]);
      Some((Number(parts[0]), Number(parts[1])))
    else None
  }

  lemma {:induction false} ShortNumberBound(s: string)
    requires IsShortNumber(s)
    ensures Number(s) <= 99
  {
    assert IsDigit(s[|s| - 1]) && IsDigit(s[0]);
    var t := s[..|s| - 1];
    if |s| == 2 {
      assert t[..0] == [];
      assert Number(t) == s[0] as int - '0' as int;
    }
  }

  function SegmentError(raw: string): Option<ScheduleError> {
    var segment := Strip(raw);
    if segment == "" then None
    else
      match ReadSegment(segment)
      case None => Some(BadSegment(segment))
      case Some((a, b)) => if a < 1 || b < a then Some(BadRange(segment)) else None
  }

  function FirstError(segments: seq<string>): Option<ScheduleError> {
    if segments == [] then None
    else
      match SegmentError(segments[0])
      case Some(e) => Some(e)
      case None => FirstError(segments[1..])
  }

  /** Week `w` lies between the ends of the segment. */
  predicate InSegment(raw: string, w: int) {
    var ends := ReadSegment(Strip(raw));
    Strip(raw) != "" && ends.Some? && ends.value.0 <= w <= ends.value.1
  }

  predicate Named(segments: seq<string>, w: int) {
    exists i | 0 <= i < |segments| :: InSegment(segments[i], w)
  }

  predicate HasParity(parity: Option<Parity>, w: int) {
    match parity
    case None => true
    case Some(Odd) => w % 2 == 1
    case Some(Even) => w % 2 == 0
  }

  /** The weeks a week string means: in some segment, and of the marked parity. */
  predicate Means(text: string, w: int) {
    Named(Segments(text), w) && HasParity(ParityOf(text), w)
  }

  ghost function NamedWeeks(text: string): set<int> {
    set w | 0 <= w <= 99 && Named(Segments(text), w)
  }

  ghost function MeantWeeks(text: string): set<int> {
    set w | 0 <= w <= 99 && Means(text, w)
  }

  /** Why a week string is refused in a term of `limit` weeks; none when it is accepted. */
  ghost function WeeksError(text: string, limit: int): Option<ScheduleError> {
    if WeekBody(text) == "" then Some(WeeksEmpty)
    else if MixesParities(text) then Some(BothParities)
    else if FirstError(Segments(text)).Some? then FirstError(Segments(text))
    else if NamedWeeks(text) == {} then Some(NoWeeks)
    else if exists w :: w in NamedWeeks(text) && w > limit then Some(WeeksBeyondTerm(limit))
    else if MeantWeeks(text) == {} then Some(NoWeekOfParity)
    else None
  }

  /** All weeks a string means are between 1 and 99, so `MeantWeeks` leaves none out. */
  lemma {:induction false} MeantWeeksComplete(text: string, w: int)
    requires FirstError(Segments(text)).None?
    ensures Named(Segments(text), w) ==> 1 <= w <= 99
    ensures Means(text, w) <==> w in MeantWeeks(text)
  {
    var segments := Segments(text);
    if Named(segments, w) {
      var i :| 0 <= i < |segments| && InSegment(segments[i], w);
      NoErrorAt(segments, i);
    }
  }

  lemma {:induction false} NoErrorAt(segments: seq<string>, i: nat)
    requires FirstError(segments).None? && i < |segments|
    ensures SegmentError(segments[i]).None?
  {
    if i > 0 {
      NoErrorAt(segments[1..], i - 1);
    }
  }

  /** `set(range(start, end + 1))`. */
  function Span(start: int, end: int): (weeks: set<int>)
    ensures forall w :: w in weeks <==> start <= w <= end
  {
    var span := Range(start, end + 1);
    set w | w in span
  }

  /** The segment loop of `parse_weeks`: the first bad segment is reported, otherwise the named weeks are collected. */
  method ReadSegments(segments: seq<string>) returns (r: Result<set<int>, ScheduleError>)
    ensures r.Failure? <==> FirstError(segments).Some?
    ensures r.Failure? ==> r.error == FirstError(segments).value
    ensures r.Success? ==> forall w :: w in r.value <==> Named(segments, w)
  {
    hide ReadSegment, Strip;
    var weeks: set<int> := {};
    for i := 0 to |segments|
      invariant FirstError(segments) == FirstError(segments[i..])
      invariant forall w :: w in weeks <==> Named(segments[..i], w)
    {
      assert segments[i..][1..] == segments[i + 1..];
      NamedStep(segments, i);
      var segment := Strip(segments[i]);
      if segment != "" {
        var ends := ReadSegment(segment);
        if ends.None? {
          return Failure(BadSegment(segment));
        }
        var (start, end) := ends.value;
        if start < 1 || end < start {
          return Failure(BadRange(segment));
        }
        weeks := weeks + Span(start, end);
      }
    }
    assert segments[..|segments|] == segments;
    return Success(weeks);
  }

  /** `parse_weeks`: refuses exactly the refused strings, and otherwise lists the meant weeks in order. */
  method ParseWeeks(text: string, limit: int) returns (r: Result<ParsedWeeks, ScheduleError>)
    ensures r.Failure? <==> WeeksError(text, limit).Some?
    ensures r.Failure? ==> r.error == WeeksError(text, limit).value
    ensures r.Success? ==> r.value == ParsedWeeks(Sorted(MeantWeeks(text)), ParityOf(text))
  {
    var raw := Without(Strip(text), '周');
    if raw == "" {
      return Failure(WeeksEmpty);
    }
    var parity: Option<Parity> := None;
    WithoutKeeps(raw, '单', '双');
    WithoutAbsent(raw, '单');
    WithoutAbsent(Without(raw, '单'), '双');
    if '单' in raw {
      parity := Some(Odd);
      raw := Without(raw, '单');
    }
    if '双' in raw {
      if parity.Some? {
        return Failure(BothParities);
      }
      parity := Some(Even);
      raw := Without(raw, '双');
    }
    var segments := Split(Translate(raw), ';');
    assert segments == Segments(text) && parity == ParityOf(text);
    var read := ReadSegments(segments);
    if read.Failure? {
      return Failure(read.error);
    }
    var weeks := read.value;
    NamedWeeksAre(text, weeks);
    if weeks == {} {
      return Failure(NoWeeks);
    }
    if exists w | w in weeks :: w > limit {
      return Failure(WeeksBeyondTerm(limit));
    }
    if parity == Some(Odd) {
      weeks := set w | w in weeks && w % 2 == 1;
    } else if parity == Some(Even) {
      weeks := set w | w in weeks && w % 2 == 0;
    }
    assert weeks == MeantWeeks(text);
    if weeks == {} {
      return Failure(NoWeekOfParity);
    }
    return Success(ParsedWeeks(Sorted(weeks), parity));
  }

  lemma {:induction false} NamedWeeksAre(text: string, weeks: set<int>)
    requires FirstError(Segments(text)).None?
    requires forall w :: w in weeks <==> Named(Segments(text), w)
    ensures weeks == NamedWeeks(text)
    ensures MeantWeeks(text) == set w | w in weeks && HasParity(ParityOf(text), w)
  {
  }

  lemma {:induction false} NamedStep(segments: seq<string>, i: nat)
    requires i < |segments|
    ensures forall w :: Named(segments[..i + 1], w) <==> Named(segments[..i], w) || InSegment(segments[i], w)
  {
    forall w ensures Named(segments[..i + 1], w) <==> Named(segments[..i], w) || InSegment(segments[i], w) {
      if Named(segments[..i + 1], w) && !InSegment(segments[i], w) {
        var k :| 0 <= k < i + 1 && InSegment(segments[..i + 1][k], w);
        assert InSegment(segments[..i][k], w);
      }
      if Named(segments[..i], w) {
        var k :| 0 <= k < i && InSegment(segments[..i][k], w);
        assert InSegment(segments[..i + 1][k], w);
      }
      if InSegment(segments[i], w) {
        assert InSegment(segments[..i + 1][i], w);
      }
    }
  }

  lemma {:induction false} WithoutAbsent(s: string, c: char)
    ensures c !in s ==> Without(s, c) == s
  {
    if s != [] {
      WithoutAbsent(s[1..], c);
    }
  }

  lemma {:induction false} WithoutKeeps(s: string, c: char, d: char)
    requires c != d
    ensures d in Without(s, c) <==> d in s
  {
    if s != [] {
      WithoutKeeps(s[1..], c, d);
      assert s == [s[0]] + s[1..];
    }
  }

  // ----- periods -----

  function DigitRun(s: string): (run: string)
    ensures AllDigits(run) && |run| <= |s|
    ensures s != [] && IsDigit(s[0]) ==> run != []
  {
    if s != [] && IsDigit(s[0]) then [s[0]] + DigitRun(s[1..]) else []
  }

  /** The numbers written in a text, from left to right. */
  function FindNumbers(s: string): seq<int>
    decreases |s|
  {
    if s == [] then []
    else if IsDigit(s[0]) then
      var run := DigitRun(s);
      [Number(run)] + FindNumbers(s[|run|..])
    else FindNumbers(s[1..])
  }

  /** `list(dict.fromkeys(s))`: the first occurrence of each element. */
  function Distinct(s: seq<int>): (r: seq<int>)
    ensures forall x :: x in r <==> x in s
    ensures forall i, j | 0 <= i < j < |r| :: r[i] != r[j]
  {
    if s == [] then []
    else
      var front := Distinct(s[..|s| - 1]);
      assert s == s[..|s| - 1] + [s[|s| - 1]];
      if s[|s| - 1] in front then front else front + [s[|s| - 1]]
  }

  function Range(lo: int, hi: int): (r: seq<int>)
    ensures Ascending(r)
    ensures forall x :: x in r <==> lo <= x < hi
    decreases hi - lo
  {
    if hi <= lo then []
    else
      AscendingAppend(Range(lo, hi - 1), hi - 1);
      Range(lo, hi - 1) + [hi - 1]
  }

  function Lowest(s: seq<int>): (m: int)
    requires s != []
    ensures m in s && forall x | x in s :: m <= x
  {
    if |s| == 1 then s[0]
    else
      assert s == [s[0]] + s[1..];
      var m := Lowest(s[1..]);
      if s[0] < m then s[0] else m
  }

  function Highest(s: seq<int>): (m: int)
    requires s != []
    ensures m in s && forall x | x in s :: x <= m
  {
    if |s| == 1 then s[0]
    else
      assert s == [s[0]] + s[1..];
      var m := Highest(s[1..]);
      if s[0] > m then s[0] else m
  }

  /** `parse_period_numbers`. */
  function PeriodNumbers(name: string): seq<int> {
    var text := Strip(name);
    if text == "" || '节' !in text then []
    else
      var numbers := FindNumbers(Split(text, '节')[0]);
      if |numbers| <= 1 then numbers
      else
        var (low, high) := (Lowest(numbers), Highest(numbers));
        if high - low + 1 != |set x | x in numbers| then Distinct(numbers) else Range(low, high + 1)
  }

  /** The periods are the written numbers, each once: a dash never adds the periods in between. */
  lemma {:induction false} PeriodNumbersAreTheWrittenOnes(name: string)
    ensures var numbers := FindNumbers(Split(Strip(name), '节')[0]);
            var r := PeriodNumbers(name);
            && (forall i, j | 0 <= i < j < |r| :: r[i] != r[j])
            && (forall x :: x in r <==> '节' in Strip(name) && x in numbers)
  {
    var numbers := FindNumbers(Split(Strip(name), '节')[0]);
    if '节' in Strip(name) && |numbers| > 1 {
      var low, high := Lowest(numbers), Highest(numbers);
      var all := set x | x in numbers;
      if high - low + 1 == |all| {
        FullRange(all, low, high + 1);
        forall x ensures x in numbers <==> low <= x <= high {
          assert x in numbers <==> x in all;
        }
      }
    }
  }

  lemma {:induction false} DigitRunOf(d: string, rest: string)
    requires AllDigits(d) && (rest != [] ==> !IsDigit(rest[0]))
    ensures DigitRun(d + rest) == d
  {
    if d == [] {
      assert d + rest == rest;
    } else {
      assert d == [d[0]] + d[1..] && (d + rest)[1..] == d[1..] + rest;
      DigitRunOf(d[1..], rest);
    }
  }

  /** Digits before anything else are the first number. */
  lemma {:induction false} FirstNumber(n: nat, rest: string)
    requires rest != [] ==> !IsDigit(rest[0])
    ensures FindNumbers(Decimal(n) + rest) == [n] + FindNumbers(rest)
  {
    var d := Decimal(n);
    NumberOfDecimal(n);
    hide Decimal, Number, DigitRun;
    DigitRunOf(d, rest);
    assert d[0] in d;
    assert (d + rest)[|d|..] == rest;
  }

  lemma {:induction false} SkipToNumbers(s: string)
    requires s != [] && !IsDigit(s[0])
    ensures FindNumbers(s) == FindNumbers(s[1..])
  {
  }

  function RangeHead(a: nat, b: nat): string {
    ['第'] + (Decimal(a) + (['-'] + Decimal(b)))
  }

  /** A range of periods as it is written. */
  function RangeText(a: nat, b: nat): string {
    RangeHead(a, b) + ['节'] + []
  }

  lemma {:induction false} NothingToFind()
    ensures FindNumbers([]) == []
  {
  }

  lemma {:induction false} RangeHeadNumbers(a: nat, b: nat)
    ensures FindNumbers(RangeHead(a, b)) == [a, b] && '节' !in RangeHead(a, b)
  {
    var tail := ['-'] + Decimal(b);
    var rest := Decimal(a) + tail;
    NothingToFind();
    hide FindNumbers;
    FirstNumber(a, tail);
    FirstNumber(b, []);
    SkipToNumbers(RangeHead(a, b));
    SkipToNumbers(tail);
    hide Decimal;
    assert rest == RangeHead(a, b)[1..];
    assert tail[1..] == Decimal(b) == Decimal(b) + [];
  }

  lemma {:induction false} RangeTextNumbers(a: nat, b: nat)
    ensures var text := RangeText(a, b);
            Strip(text) == text && '节' in text && FindNumbers(Split(text, '节')[0]) == [a, b]
  {
    var text := RangeText(a, b);
    RangeHeadNumbers(a, b);
    assert RangeHead(a, b)[0] == '第';
    hide RangeHead, FindNumbers, Decimal;
    SplitAfter(RangeHead(a, b), [], '节');
    StripKeeps(text, IsSpace);
    hide Split, Strip;
    assert text[|RangeHead(a, b)|] == '节';
  }

  /** The periods of a range from a to b are a and b, so they are all of a to b if and only if none lies between. */
  lemma {:induction false} RangeIsItsEnds(a: nat, b: nat)
    requires a <= b
    ensures var periods := PeriodNumbers(RangeText(a, b));
            && (forall x :: x in periods <==> x == a || x == b)
            && ((forall x :: x in periods <==> a <= x <= b) <==> b <= a + 1)
  {
    RangeTextNumbers(a, b);
    PeriodNumbersAreTheWrittenOnes(RangeText(a, b));
    var periods := PeriodNumbers(RangeText(a, b));
    hide PeriodNumbers, RangeText, FindNumbers, Split, Strip;
    if b > a + 1 {
      assert a + 1 !in periods;
    }
  }

  lemma {:induction false} ThreeToFive()
    ensures "第3-5节" == RangeText(3, 5)
  {
    assert Decimal(3) == "3" && Decimal(5) == "5";
  }

  /** A class written for the periods 3 to 5 gets 3 and 5 but not 4. */
  lemma {:induction false} RangeLosesThePeriodBetween()
    ensures var periods := PeriodNumbers("第3-5节"); 3 in periods && 5 in periods && 4 !in periods
  {
    ThreeToFive();
    RangeIsItsEnds(3, 5);
    hide PeriodNumbers, RangeText;
  }

  lemma {:induction false} FullRange(s: set<int>, lo: int, hi: int)
    requires forall x | x in s :: lo <= x < hi
    requires |s| == hi - lo
    ensures forall x :: x in s <==> lo <= x < hi
    decreases hi - lo
  {
    if lo < hi {
      if hi - 1 in s {
        var t := s - {hi - 1};
        FullRange(t, lo, hi - 1);
        forall x ensures x in s <==> lo <= x < hi {
          assert x in s <==> x in t || x == hi - 1;
        }
      } else {
        RangeBound(s, lo, hi - 1);
      }
    }
  }

  lemma {:induction false} RangeBound(s: set<int>, lo: int, hi: int)
    requires lo <= hi
    requires forall x | x in s :: lo <= x < hi
    ensures |s| <= hi - lo
    decreases hi - lo
  {
    if lo < hi {
      RangeBound(s - {hi - 1}, lo, hi - 1);
    } else if s != {} {
      var e := Element(s);
      assert false;
    }
  }

  /** `resolve_periods`: the course's own periods first, then the block; a note when they disagree. */
  function ResolvePeriods(timeName: string, timeCode: string, cfg: Config)
    : Result<(seq<int>, Option<ScheduleError>), ScheduleError>
  {
    var block := BlockPeriods(cfg, timeCode);
    var course := PeriodNumbers(timeName);
    if course == [] then
      if block == [] then Failure(PeriodsUnreadable(timeCode, timeName)) else Success((block, None))
    else if block != [] && exists p | p in course :: p !in block then
      var note := PeriodsOutsideBlock(course, block);
      if cfg.onConflict == "skip" then Failure(note) else Success((course, Some(note)))
    else Success((course, None))
  }

  /** Some written period lies outside a block that has periods. */
  predicate LiesOutside(timeName: string, timeCode: string, cfg: Config) {
    BlockPeriods(cfg, timeCode) != [] && exists p | p in PeriodNumbers(timeName) :: p !in BlockPeriods(cfg, timeCode)
  }

  /**
   * The periods are the written ones whenever there are any, and those of the block exactly when there are none. A written period
   * outside the block is noted, or refused if the configuration says so, and nothing else is, but a row with neither.
   */
  lemma {:induction false} PeriodsAreTheWrittenOnes(timeName: string, timeCode: string, cfg: Config)
    ensures var r, written := ResolvePeriods(timeName, timeCode, cfg), PeriodNumbers(timeName);
            var outside := LiesOutside(timeName, timeCode, cfg);
            var note := PeriodsOutsideBlock(written, BlockPeriods(cfg, timeCode));
            && (r.Success? ==> r.value.0 == if written != [] then written else BlockPeriods(cfg, timeCode))
            && (r.Success? ==> r.value.0 != [] && r.value.1 == if outside then Some(note) else None)
            && (r.Failure? <==> (outside && cfg.onConflict == "skip") || (written == [] && BlockPeriods(cfg, timeCode) == []))
            && (r.Failure? ==> r.error == if written == [] then PeriodsUnreadable(timeCode, timeName) else note)
  {
    hide PeriodNumbers, BlockPeriods;
  }

  /** The name of one period, as the school writes it. */
  function PeriodText(p: nat): string {
    (['第'] + Decimal(p)) + ['节'] + []
  }

  lemma {:induction false} OnePeriodIsWritten(p: nat)
    ensures PeriodNumbers(PeriodText(p)) == [p]
  {
    var text, head := PeriodText(p), ['第'] + Decimal(p);
    assert '节' !in Decimal(p);
    assert text[|head|] == '节';
    SplitAfter(head, [], '节');
    StripKeeps(text, IsSpace);
    FirstNumber(p, []);
    SkipToNumbers(head);
    assert Decimal(p) + [] == Decimal(p) == head[1..];
    NothingToFind();
    hide Split, Strip, FindNumbers, Decimal;
  }

  // ----- teaching weeks to dates -----

  function Day(term: Term, weekday: int, week: int): int {
    term.monday + 7 * (week - 1) + weekday
  }

  /** The week of a day, and its weekday counted from Monday. */
  function WeekOf(term: Term, day: int): int {
    (day - term.monday) / 7 + 1
  }

  function WeekdayOf(day: int): int {
    (day - 1) % 7
  }

  /** In a term that starts on a Monday, a day is the named weekday of the named week and of no other. */
  lemma {:induction false} DayIsOfItsWeek(term: Term, weekday: int, week: int, day: int)
    requires IsTerm(term) && 0 <= weekday < 7
    ensures day == Day(term, weekday, week) <==> WeekOf(term, day) == week && WeekdayOf(day) == weekday
  {
  }

  predicate Held(term: Term, day: int) {
    term.teachingStart <= day && day !in term.exdates
  }

  /** The dates on which the weeks' classes are held. */
  ghost function HeldDates(term: Term, weekday: int, weeks: set<int>): set<int> {
    set w | w in weeks && Held(term, Day(term, weekday, w)) :: Day(term, weekday, w)
  }

  /** `occurrence_dates`. */
  method OccurrenceDates(term: Term, weekday: int, weeks: seq<int>) returns (r: Result<seq<int>, ScheduleError>)
    ensures r.Success? <==> forall w | w in weeks :: 1 <= w <= term.weeks
    ensures r.Success? ==> r.value == Sorted(HeldDates(term, weekday, set w | w in weeks))
    ensures r.Failure? ==> r.error.WeekOutsideTerm? && r.error.week in weeks && !(1 <= r.error.week <= term.weeks)
  {
    ghost var all := set w | w in weeks;
    var ordered := Sorted(set w | w in weeks);
    SortedIsAscending(all);
    var result: seq<int> := [];
    for i := 0 to |ordered|
      invariant forall k | 0 <= k < i :: 1 <= ordered[k] <= term.weeks
      invariant Ascending(result)
      invariant forall d | d in result :: i > 0 && d <= Day(term, weekday, ordered[i - 1])
      invariant forall d :: d in result <==>
                  exists k | 0 <= k < i :: d == Day(term, weekday, ordered[k]) && Held(term, d)
    {
      var week := ordered[i];
      assert week in ordered;
      if !(1 <= week <= term.weeks) {
        return Failure(WeekOutsideTerm(week));
      }
      var day := term.monday + 7 * (week - 1) + weekday;
      if !(day < term.teachingStart || day in term.exdates) {
        AscendingAppend(result, day);
        result := result + [day];
      }
    }
    HeldIn(term, weekday, all, ordered, result);
    forall w | w in weeks ensures 1 <= w <= term.weeks {
      assert w in ordered;
    }
    return Success(result);
  }

  /** The days collected over all weeks are the held dates in order. */
  lemma {:induction false} HeldIn(term: Term, weekday: int, all: set<int>, ordered: seq<int>, result: seq<int>)
    requires (forall w :: w in ordered <==> w in all) && Ascending(result)
    requires forall d :: d in result <==>
               exists k | 0 <= k < |ordered| :: d == Day(term, weekday, ordered[k]) && Held(term, d)
    ensures result == Sorted(HeldDates(term, weekday, all))
  {
    var held := HeldDates(term, weekday, all);
    hide Day, Held;
    forall d ensures d in result <==> d in held {
      if d in held {
        var w :| w in all && Held(term, Day(term, weekday, w)) && d == Day(term, weekday, w);
        assert w in ordered;
      }
      if d in result {
        var k :| 0 <= k < |ordered| && d == Day(term, weekday, ordered[k]) && Held(term, d);
        assert ordered[k] in ordered;
      }
    }
    SortedIsAscending(held);
    AscendingIsUnique(result, Sorted(held));
  }
}
