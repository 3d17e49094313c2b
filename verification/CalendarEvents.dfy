/** app/calendar/ics.py, first half: timetable rows compiled to recurring events. */
module CalendarEvents {
  import opened PyText
  import opened CalendarTime
  import opened CalendarConfig
  import opened CalendarRules
  import opened EventOrder
  import opened WeeklyRuns

  /** A timetable row; every text field is already `str(row.get(key) or "")`. */
  datatype Row =
    | NotARecord
    | Row(semester: string, dayOfWeekCode: string, timeCode: string, timeName: string, weeks: string,
          courseName: string, courseCode: string, teacherName: string, classroomName: string)

  datatype Anomaly =
    | UnknownWeekday(dayCode: string)
    | BadRow(error: ScheduleError)
    | NoTime(periods: seq<int>)

  /** What the identifier of an event is hashed from. */
  datatype UidKey = UidKey(semester: string, courseCode: string, course: string, day: string,
                           periods: seq<int>, parity: Option<Parity>, index: nat)

  /** What stays the same for all rows of one compilation. */
  datatype Setting = Setting(term: Term, cfg: Config, stableId: UidKey -> string, sequence: int)

  /** What a row means besides its dates. */
  datatype Lesson = Lesson(row: Row, periods: seq<int>, parity: Option<Parity>, window: Window)

  // ----- printed fields -----

  const RULE_PREFIX := "FREQ=WEEKLY;COUNT="

  function RuleText(count: nat): string {
    RULE_PREFIX + Decimal(count)
  }

  /** `"%d" % n`. */
  function Printed(n: int): string {
    if n < 0 then "-" + Decimal(-n) else Decimal(n)
  }

  /** `first` alone, or `first-last`, between a prefix and a suffix. */
  function Spanned(prefix: string, ordered: seq<int>, suffix: string): string {
    if ordered == [] then ""
    else if |ordered| == 1 then prefix + Printed(ordered[0]) + suffix
    else prefix + Printed(ordered[0]) + "-" + Printed(ordered[|ordered| - 1]) + suffix
  }

  function PeriodsLabel(periods: seq<int>): string {
    Spanned("第", Sorted(set p | p in periods), "节")
  }

  function WeeksText(run: seq<int>, term: Term): string {
    Spanned("第", Sorted(set d | d in run :: WeekOf(term, d)), "周")
  }

  lemma {:induction false} RangeShape(lo: int, hi: int)
    requires lo <= hi
    ensures |Range(lo, hi)| == hi - lo
    ensures forall k | 0 <= k < hi - lo :: Range(lo, hi)[k] == lo + k
    decreases hi - lo
  {
    if lo < hi {
      RangeShape(lo, hi - 1);
    }
  }

  /** The weeks of a run are consecutive, so the printed ends name exactly the weeks of the run. */
  lemma {:induction false} WeeksTextNamesTheRun(run: seq<int>, term: Term)
    requires IsWeekly(run)
    ensures WeeksText(run, term) == Spanned("第", Range(WeekOf(term, run[0]), WeekOf(term, run[0]) + |run|), "周")
  {
    hide Sorted, Spanned;
    var first := WeekOf(term, run[0]);
    var weeks := set d | d in run :: WeekOf(term, d);
    forall k | 0 <= k < |run| ensures WeekOf(term, run[k]) == first + k {
      assert run[k] == run[0] + 7 * k;
    }
    forall w ensures w in weeks <==> first <= w < first + |run| {
      if first <= w < first + |run| {
        assert run[w - first] in run;
      }
    }
    SortedIsAscending(weeks);
    AscendingIsUnique(Sorted(weeks), Range(first, first + |run|));
  }

  function Cut(s: string, n: nat): string {
    if |s| <= n then s else s[..n]
  }

  function CourseTitle(row: Row): string
    requires row.Row?
  {
    var course := Strip(row.courseName);
    if course == "" then "课程" else course
  }

  function Summary(row: Row): string
    requires row.Row?
  {
    var teacher := Strip(row.teacherName);
    if teacher == "" then CourseTitle(row) else CourseTitle(row) + "（" + teacher + "）"
  }

  function ParityText(parity: Option<Parity>): seq<string> {
    match parity
    case None => []
    case Some(Odd) => ["单双周：单周"]
    case Some(Even) => ["单双周：双周"]
  }

  function Description(l: Lesson, run: seq<int>, term: Term): string
    requires l.row.Row?
  {
    var room := Strip(l.row.classroomName);
    Join([PeriodsLabel(l.periods)]
         + (if room == "" then [] else ["教室：" + room])
         + ["周次：" + WeeksText(run, term)]
         + ParityText(l.parity),
         " ｜ ")
  }

  function Uid(l: Lesson, index: nat, at: Setting): string
    requires l.row.Row?
  {
    var semester := if l.row.semester != "" then l.row.semester else at.term.semester;
    var uidKey := UidKey(semester, l.row.courseCode, CourseTitle(l.row), l.row.dayOfWeekCode,
                         Sorted(set p | p in l.periods), l.parity, index);
    Cut(at.stableId(uidKey), 32) + "@edu-query-app"
  }

  predicate IsLesson(l: Lesson) {
    l.row.Row? && IsWindow(l.window)
  }

  /** The event written for run number `index` of a lesson. */
  function RunEvent(l: Lesson, run: seq<int>, index: nat, at: Setting): Event
    requires IsLesson(l) && run != [] && 1 <= run[0]
  {
    Event(
      Uid(l, index, at),
      Summary(l.row),
      Strip(l.row.classroomName),
      Description(l, run, at.term),
      Moment(run[0], Minutes(l.window.0)),
      Moment(run[0], Minutes(l.window.1)),
      Some(RuleText(|run|)),
      if at.sequence > 1 then at.sequence else 1)
  }

  // ----- what a row means -----

  ghost predicate Accepted(row: Row, at: Setting) {
    && row.Row?
    && WeekdayIndex(at.cfg, row.dayOfWeekCode).Some?
    && ResolvePeriods(row.timeName, row.timeCode, at.cfg).Success?
    && PeriodWindow(at.cfg, ResolvePeriods(row.timeName, row.timeCode, at.cfg).value.0).Some?
    && WeeksError(row.weeks, at.term.weeks).None?
  }

  ghost function LessonOf(row: Row, at: Setting): (l: Lesson)
    requires DefinesWindows(at.cfg) && Accepted(row, at)
    ensures IsLesson(l)
    ensures Hull(at.cfg, l.periods, l.window)
  {
    var periods := ResolvePeriods(row.timeName, row.timeCode, at.cfg).value.0;
    WindowIsHull(at.cfg, periods);
    Lesson(row, periods, ParityOf(row.weeks), PeriodWindow(at.cfg, periods).value)
  }

  /** What is asked of a row besides its periods. */
  ghost predicate IsDated(row: Row, at: Setting): (r: bool)
    ensures r ==> row.Row? && Strip(row.dayOfWeekCode) in at.cfg.dayCodeMap
  {
    row.Row? && WeekdayIndex(at.cfg, row.dayOfWeekCode).Some? && WeeksError(row.weeks, at.term.weeks).None?
  }

  /** The periods of a row: the written ones, or those of its block. */
  function PeriodsOf(row: Row, cfg: Config): seq<int>
    requires row.Row?
  {
    var written := PeriodNumbers(row.timeName);
    if written != [] then written else BlockPeriods(cfg, row.timeCode)
  }

  /** A written period lies outside the block, and conflicts are to be skipped. */
  predicate IsRefused(row: Row, cfg: Config)
    requires row.Row?
  {
    LiesOutside(row.timeName, row.timeCode, cfg) && cfg.onConflict == "skip"
  }

  /** A row is taught if its weekday and weeks can be read, some of its periods has a time, and no conflict is refused. */
  lemma {:induction false} AcceptedRows(row: Row, at: Setting)
    requires row.Row? && DefinesWindows(at.cfg)
    ensures Accepted(row, at) <==>
            && WeekdayIndex(at.cfg, row.dayOfWeekCode).Some? && WeeksError(row.weeks, at.term.weeks).None?
            && (exists p :: p in PeriodsOf(row, at.cfg) && p in at.cfg.periods)
            && !IsRefused(row, at.cfg)
    ensures Accepted(row, at) ==> LessonOf(row, at).periods == PeriodsOf(row, at.cfg)
  {
    PeriodsAreTheWrittenOnes(row.timeName, row.timeCode, at.cfg);
    WindowIsHull(at.cfg, PeriodsOf(row, at.cfg));
    hide ResolvePeriods, PeriodNumbers, BlockPeriods, LiesOutside, PeriodWindow, WeekdayIndex, WeeksError, Hull;
  }

  /** The dates the row's class is held on. */
  ghost function ClassDates(row: Row, at: Setting): set<int>
    requires Accepted(row, at)
  {
    HeldDates(at.term, WeekdayIndex(at.cfg, row.dayOfWeekCode).value, MeantWeeks(row.weeks))
  }

  /** The runs the row's class is held in. */
  ghost function ClassRuns(row: Row, at: Setting): (runs: seq<seq<int>>)
    requires Accepted(row, at)
    ensures StartOnDates(runs)
  {
    SortedIsAscending(ClassDates(row, at));
    RunsStartOnDays(Sorted(ClassDates(row, at)));
    Runs(Sorted(ClassDates(row, at)))
  }

  predicate StartOnDates(runs: seq<seq<int>>) {
    forall i | 0 <= i < |runs| :: runs[i] != [] && 1 <= runs[i][0]
  }

  ghost function EventsOfRuns(l: Lesson, runs: seq<seq<int>>, at: Setting): (events: seq<Event>)
    requires IsLesson(l) && StartOnDates(runs)
    ensures |events| == |runs|
    ensures forall i | 0 <= i < |runs| :: events[i] == RunEvent(l, runs[i], i, at)
  {
    seq(|runs|, i requires 0 <= i < |runs| => RunEvent(l, runs[i], i, at))
  }

  ghost function RowEvents(row: Row, at: Setting): seq<Event>
    requires DefinesWindows(at.cfg)
  {
    if Accepted(row, at) then EventsOfRuns(LessonOf(row, at), ClassRuns(row, at), at) else []
  }

  ghost function RowAnomalies(row: Row, at: Setting): seq<Anomaly> {
    if row.NotARecord? then []
    else if WeekdayIndex(at.cfg, row.dayOfWeekCode).None? then [UnknownWeekday(row.dayOfWeekCode)]
    else
      match ResolvePeriods(row.timeName, row.timeCode, at.cfg)
      case Failure(e) => [BadRow(e)]
      case Success((periods, note)) =>
        (if note.Some? then [BadRow(note.value)] else [])
        + (if PeriodWindow(at.cfg, periods).None? then [NoTime(periods)]
           else
             match WeeksError(row.weeks, at.term.weeks)
             case Some(e) => [BadRow(e)]
             case None => [])
  }

  ghost function AllEvents(rows: seq<Row>, at: Setting): seq<Event>
    requires DefinesWindows(at.cfg)
  {
    if rows == [] then [] else AllEvents(rows[..|rows| - 1], at) + RowEvents(rows[|rows| - 1], at)
  }

  ghost function AllAnomalies(rows: seq<Row>, at: Setting): seq<Anomaly> {
    if rows == [] then [] else AllAnomalies(rows[..|rows| - 1], at) + RowAnomalies(rows[|rows| - 1], at)
  }

  // ----- what an event denotes -----

  /** The COUNT of a `FREQ=WEEKLY;COUNT=n` rule. */
  function RuleCount(rule: string): Option<nat> {
    if |rule| > |RULE_PREFIX| && rule[..|RULE_PREFIX|] == RULE_PREFIX && AllDigits(rule[|RULE_PREFIX|..])
    then Some(Number(rule[|RULE_PREFIX|..])) else None
  }

  lemma {:induction false} RuleRoundTrip(count: nat)
    ensures RuleCount(RuleText(count)) == Some(count)
  {
    NumberOfDecimal(count);
    var n := |RULE_PREFIX|;
    assert RuleText(count)[..n] == RULE_PREFIX;
    assert RuleText(count)[n..] == Decimal(count);
  }

  /** The days of a weekly recurrence (RFC 5545, section 3.3.10): `n` instances, seven days apart, from the start on. */
  function Recurrence(start: Date, rule: string): seq<int> {
    match RuleCount(rule)
    case Some(n) => seq(n, i => start + 7 * i)
    case None => [start]
  }

  function Expand(e: Event): seq<int> {
    Recurrence(e.start.day, if e.rrule.Some? then e.rrule.value else "")
  }

  function ExpandAll(events: seq<Event>): seq<seq<int>> {
    seq(|events|, i requires 0 <= i < |events| => Expand(events[i]))
  }

  lemma {:induction false} RunEventExpands(l: Lesson, run: seq<int>, index: nat, at: Setting)
    requires IsLesson(l) && IsWeekly(run) && 1 <= run[0]
    ensures var e := RunEvent(l, run, index, at); Expand(e) == run && EarlierMoment(e.start, e.end)
  {
    hide Uid, Summary, Description, RuleText, RuleCount, Minutes, IsClock, Less;
    RuleRoundTrip(|run|);
    ClockOrder(l.window.0, l.window.1);
    var e := RunEvent(l, run, index, at);
    assert e.rrule == Some(RuleText(|run|)) && e.start.day == run[0];
  }

  /** An accepted row's weeks all lie in the term. */
  lemma {:induction false} AcceptedWeeks(row: Row, at: Setting)
    requires Accepted(row, at)
    ensures forall w | w in MeantWeeks(row.weeks) :: 1 <= w <= at.term.weeks
  {
    hide ResolvePeriods, PeriodWindow, Segments, FirstError;
    forall w | w in MeantWeeks(row.weeks) ensures 1 <= w <= at.term.weeks {
      MeantWeeksComplete(row.weeks, w);
      assert w in NamedWeeks(row.weeks);
    }
  }

  /** Day `d` is the row's weekday in some meant week, not before teaching starts and not an exception. */
  ghost predicate HasClassOn(row: Row, at: Setting, d: int)
    requires Accepted(row, at)
  {
    exists w :: Means(row.weeks, w) && d == Day(at.term, WeekdayIndex(at.cfg, row.dayOfWeekCode).value, w) && Held(at.term, d)
  }

  lemma {:induction false} ClassDatesAre(row: Row, at: Setting, d: int)
    requires Accepted(row, at)
    ensures d in ClassDates(row, at) <==> HasClassOn(row, at, d)
  {
  }

  /** The events of a row denote exactly its class days, each once, cut into maximal weekly runs; each ends after it starts. */
  lemma {:induction false} RowDenotation(row: Row, at: Setting)
    requires DefinesWindows(at.cfg) && Accepted(row, at)
    ensures var events := RowEvents(row, at);
            var days := Flatten(ExpandAll(events));
            && IsRunsOf(ExpandAll(events), days) && Ascending(days)
            && LessonOf(row, at).periods == PeriodsOf(row, at.cfg)
            && (forall d :: d in days <==> HasClassOn(row, at, d))
            && (forall i | 0 <= i < |events| ::
                  && EarlierMoment(events[i].start, events[i].end)
                  && events[i].start.day == events[i].end.day
                  && events[i].start.minute == Minutes(LessonOf(row, at).window.0)
                  && events[i].end.minute == Minutes(LessonOf(row, at).window.1))
  {
    AcceptedRows(row, at);
    RowRuns(row, at);
    ClassDaysCut(row, at);
    hide *;
    RowExpands(row, at);
  }

  /** The class days of a row, cut into runs. */
  lemma {:induction false} ClassDaysCut(row: Row, at: Setting)
    requires Accepted(row, at)
    ensures var runs := Runs(Sorted(ClassDates(row, at)));
            && IsRunsOf(runs, Flatten(runs)) && Ascending(Flatten(runs))
            && (forall d :: d in Flatten(runs) <==> HasClassOn(row, at, d))
  {
    var dates := ClassDates(row, at);
    forall d ensures d in dates <==> HasClassOn(row, at, d) {
      ClassDatesAre(row, at, d);
    }
    hide Accepted, HasClassOn, ClassDates, Sorted, Runs;
    SortedIsAscending(dates);
    RunsCutTheDays(Sorted(dates));
  }

  lemma {:induction false} RowExpands(row: Row, at: Setting)
    requires DefinesWindows(at.cfg) && Accepted(row, at)
    ensures ExpandAll(RowEvents(row, at)) == Runs(Sorted(ClassDates(row, at)))
  {
    RowRuns(row, at);
    hide Accepted, Expand, RowEvents, Runs, Sorted, ClassDates, Minutes, LessonOf;
  }

  /** Each event of a row expands to one of its runs, and lasts from the start to the end of its window. */
  lemma {:induction false} RowRuns(row: Row, at: Setting)
    requires DefinesWindows(at.cfg) && Accepted(row, at)
    ensures var events, runs, w := RowEvents(row, at), Runs(Sorted(ClassDates(row, at))), LessonOf(row, at).window;
            && |events| == |runs|
            && (forall i | 0 <= i < |events| ::
                  && Expand(events[i]) == runs[i]
                  && EarlierMoment(events[i].start, events[i].end)
                  && events[i].start.day == events[i].end.day
                  && events[i].start.minute == Minutes(w.0) && events[i].end.minute == Minutes(w.1))
  {
    var l, runs := LessonOf(row, at), ClassRuns(row, at);
    var events := RowEvents(row, at);
    RunsCutTheDays(Sorted(ClassDates(row, at)));
    hide Accepted, Sorted, Runs, Uid, Summary, Description, RuleText, RuleCount, IsClock, Less, Expand;
    forall i | 0 <= i < |runs| ensures Expand(events[i]) == runs[i] && EarlierMoment(events[i].start, events[i].end) {
      RunEventExpands(l, runs[i], i, at);
    }
  }

  // ----- the compiler -----

  /** The inner loop of `build_events`: one event for each weekly run of the row's dates. */
  method BuildRuns(l: Lesson, runs: seq<seq<int>>, at: Setting) returns (events: seq<Event>)
    requires IsLesson(l) && StartOnDates(runs)
    ensures events == EventsOfRuns(l, runs, at)
  {
    hide RunEvent, IsLesson;
    events := [];
    for index := 0 to |runs|
      invariant |events| == index
      invariant forall k | 0 <= k < index :: events[k] == RunEvent(l, runs[k], k, at)
    {
      events := events + [RunEvent(l, runs[index], index, at)];
    }
  }

  /** The part of `build_events` that turns an accepted row into dates; its error never arises. */
  method BuildDates(row: Row, weekday: nat, weeks: seq<int>, at: Setting) returns (dates: seq<int>)
    requires Accepted(row, at) && WeekdayIndex(at.cfg, row.dayOfWeekCode) == Some(weekday)
    requires weeks == Sorted(MeantWeeks(row.weeks))
    ensures dates == Sorted(ClassDates(row, at))
  {
    AcceptedWeeks(row, at);
    SortedIsAscending(MeantWeeks(row.weeks));
    var r := OccurrenceDates(at.term, weekday, weeks);
    assert r.Success?;
    assert (set w | w in weeks) == MeantWeeks(row.weeks);
    dates := r.value;
  }

  lemma {:induction false} ClassRunsAre(row: Row, at: Setting, dates: seq<int>)
    requires Accepted(row, at) && dates == Sorted(ClassDates(row, at))
    ensures Runs(Sorted(set d | d in dates)) == ClassRuns(row, at)
    ensures dates == [] ==> ClassRuns(row, at) == []
  {
    SortedIsAscending(ClassDates(row, at));
    hide Runs, Accepted, WeekdayIndex, MeantWeeks;
    assert (set d | d in dates) == ClassDates(row, at);
  }

  method BuildRow(row: Row, at: Setting) returns (events: seq<Event>, anomalies: seq<Anomaly>)
    requires DefinesWindows(at.cfg)
    ensures events == RowEvents(row, at)
    ensures anomalies == RowAnomalies(row, at)
  {
    hide IsWindow, Less, IsClock, RunEvent, ResolvePeriods, PeriodWindow, WeeksError, ClassDates, ClassRuns, Runs, Sorted,
         WeekdayIndex, StartOnDates, Hull;
    events, anomalies := [], [];
    if row.NotARecord? {
      return;
    }
    var weekday := WeekdayIndex(at.cfg, row.dayOfWeekCode);
    if weekday.None? {
      return [], [UnknownWeekday(row.dayOfWeekCode)];
    }
    var resolved := ResolvePeriods(row.timeName, row.timeCode, at.cfg);
    if resolved.Failure? {
      return [], [BadRow(resolved.error)];
    }
    var (periods, note) := resolved.value;
    if note.Some? {
      anomalies := [BadRow(note.value)];
    }
    var window := PeriodWindow(at.cfg, periods);
    if window.None? {
      anomalies := anomalies + [NoTime(periods)];
      return;
    }
    var parsed := ParseWeeks(row.weeks, at.term.weeks);
    if parsed.Failure? {
      anomalies := anomalies + [BadRow(parsed.error)];
      return;
    }
    var dates := BuildDates(row, weekday.value, parsed.value.weeks, at);
    ClassRunsAre(row, at, dates);
    if dates == [] {
      return;
    }
    var runs := CutWeekly(dates);
    var l := Lesson(row, periods, parsed.value.parity, window.value);
    assert l == LessonOf(row, at);
    events := BuildRuns(l, runs, at);
  }

  /** `build_events`. */
  method BuildEvents(rows: seq<Row>, at: Setting) returns (events: seq<Event>, anomalies: seq<Anomaly>)
    requires DefinesWindows(at.cfg)
    ensures events == StableSort(AllEvents(rows, at))
    ensures anomalies == AllAnomalies(rows, at)
  {
    events, anomalies := [], [];
    for i := 0 to |rows|
      invariant events == AllEvents(rows[..i], at)
      invariant anomalies == AllAnomalies(rows[..i], at)
    {
      assert rows[..i + 1][..i] == rows[..i];
      var rowEvents, rowAnomalies := BuildRow(rows[i], at);
      events, anomalies := events + rowEvents, anomalies + rowAnomalies;
    }
    assert rows[..|rows|] == rows;
    events := StableSort(events);
  }

  // ----- what a calendar denotes -----

  /** Some event takes place on day `d` from minute `a` to minute `b`. */
  ghost predicate Shows(events: seq<Event>, d: int, a: Minute, b: Minute) {
    exists i | 0 <= i < |events| :: Takes(events[i], d, a, b)
  }

  predicate Takes(e: Event, d: int, a: Minute, b: Minute) {
    d in Expand(e) && e.start.minute == a && e.end == Moment(e.start.day, b)
  }

  /** Some row has its class on day `d` from minute `a` to minute `b`. */
  ghost predicate Scheduled(rows: seq<Row>, at: Setting, d: int, a: Minute, b: Minute)
    requires DefinesWindows(at.cfg)
  {
    exists i | 0 <= i < |rows| :: RowTakes(rows[i], at, d, a, b)
  }

  /** `a` is the earliest start of the defined periods, `b` the latest end. */
  ghost predicate StartsAt(cfg: Config, ps: seq<int>, a: Minute)
    requires DefinesWindows(cfg)
  {
    && (exists p :: p in ps && p in cfg.periods && a == Minutes(cfg.periods[p].0))
    && (forall p | p in ps && p in cfg.periods :: a <= Minutes(cfg.periods[p].0))
  }

  ghost predicate EndsAt(cfg: Config, ps: seq<int>, b: Minute)
    requires DefinesWindows(cfg)
  {
    && (exists p :: p in ps && p in cfg.periods && b == Minutes(cfg.periods[p].1))
    && (forall p | p in ps && p in cfg.periods :: Minutes(cfg.periods[p].1) <= b)
  }

  /**
   * The row can be dated and is in no conflict that is refused; `d` is its weekday in a week it means and a teaching day; and the
   * class lasts from the first to the last of its periods, the written ones or those of its block.
   */
  ghost predicate RowTakes(row: Row, at: Setting, d: int, a: Minute, b: Minute)
    requires DefinesWindows(at.cfg)
  {
    && IsDated(row, at) && !IsRefused(row, at.cfg)
    && (exists w :: Means(row.weeks, w) && d == Day(at.term, WeekdayIndex(at.cfg, row.dayOfWeekCode).value, w) && Held(at.term, d))
    && StartsAt(at.cfg, PeriodsOf(row, at.cfg), a) && EndsAt(at.cfg, PeriodsOf(row, at.cfg), b)
  }

  /** The row has its class in the window of the lesson made of it. */
  lemma {:induction false} TakesInWindow(row: Row, at: Setting, d: int, a: Minute, b: Minute)
    requires DefinesWindows(at.cfg) && Accepted(row, at)
    ensures RowTakes(row, at, d, a, b) <==>
            HasClassOn(row, at, d) && a == Minutes(LessonOf(row, at).window.0) && b == Minutes(LessonOf(row, at).window.1)
  {
    AcceptedRows(row, at);
    RowWindow(row, at);
    var cfg, ps := at.cfg, PeriodsOf(row, at.cfg);
    assert HasClassOn(row, at, d) <==>
           exists w :: Means(row.weeks, w) && d == Day(at.term, WeekdayIndex(at.cfg, row.dayOfWeekCode).value, w) && Held(at.term, d);
    hide Accepted, HasClassOn, Means, Day, Held, WeekdayIndex, IsWindow, IsClock, Less, Minutes, PeriodsOf;
  }

  /** The window of an accepted row runs from the first start to the last end of its periods. */
  lemma {:induction false} RowWindow(row: Row, at: Setting)
    requires DefinesWindows(at.cfg) && Accepted(row, at)
    ensures var w := LessonOf(row, at).window;
            StartsAt(at.cfg, PeriodsOf(row, at.cfg), Minutes(w.0)) && EndsAt(at.cfg, PeriodsOf(row, at.cfg), Minutes(w.1))
  {
    AcceptedRows(row, at);
    hide Accepted, IsClock, Less, Minutes, PeriodsOf;
    assert Hull(at.cfg, LessonOf(row, at).periods, LessonOf(row, at).window);
  }

  /** The built calendar shows exactly what the accepted rows schedule. */
  lemma {:induction false} CalendarDenotation(rows: seq<Row>, at: Setting, d: int, a: Minute, b: Minute)
    requires DefinesWindows(at.cfg)
    ensures Shows(StableSort(AllEvents(rows, at)), d, a, b) <==> Scheduled(rows, at, d, a, b)
  {
    var all := AllEvents(rows, at);
    StableSortSorts(all);
    SameElementsShow(all, StableSort(all), d, a, b);
    SameElementsShow(StableSort(all), all, d, a, b);
    AllEventsDenote(rows, at, d, a, b);
  }

  lemma {:induction false} SameElementsShow(x: seq<Event>, y: seq<Event>, d: int, a: Minute, b: Minute)
    requires multiset(x) == multiset(y)
    ensures Shows(x, d, a, b) ==> Shows(y, d, a, b)
  {
    if Shows(x, d, a, b) {
      var i :| 0 <= i < |x| && Takes(x[i], d, a, b);
      assert x[i] in multiset(y);
      var j :| 0 <= j < |y| && y[j] == x[i];
    }
  }

  lemma {:induction false} AllEventsDenote(rows: seq<Row>, at: Setting, d: int, a: Minute, b: Minute)
    requires DefinesWindows(at.cfg)
    ensures Shows(AllEvents(rows, at), d, a, b) <==> Scheduled(rows, at, d, a, b)
  {
    if rows != [] {
      var front, row := rows[..|rows| - 1], rows[|rows| - 1];
      AllEventsDenote(front, at, d, a, b);
      RowEventsDenote(row, at, d, a, b);
      ShowsConcat(AllEvents(front, at), RowEvents(row, at), d, a, b);
      assert rows == front + [row];
      ScheduledAppend(front, row, at, d, a, b);
    }
  }

  lemma {:induction false} ScheduledAppend(front: seq<Row>, row: Row, at: Setting, d: int, a: Minute, b: Minute)
    requires DefinesWindows(at.cfg)
    ensures Scheduled(front + [row], at, d, a, b) <==> Scheduled(front, at, d, a, b) || RowTakes(row, at, d, a, b)
  {
    var rows := front + [row];
    if Scheduled(front, at, d, a, b) {
      var i :| 0 <= i < |front| && RowTakes(front[i], at, d, a, b);
      assert RowTakes(rows[i], at, d, a, b);
    }
    assert rows[|front|] == row;
  }

  lemma {:induction false} ShowsConcat(x: seq<Event>, y: seq<Event>, d: int, a: Minute, b: Minute)
    ensures Shows(x + y, d, a, b) <==> Shows(x, d, a, b) || Shows(y, d, a, b)
  {
    if Shows(x, d, a, b) {
      var i :| 0 <= i < |x| && Takes(x[i], d, a, b);
      assert (x + y)[i] == x[i];
    }
    if Shows(y, d, a, b) {
      var i :| 0 <= i < |y| && Takes(y[i], d, a, b);
      assert (x + y)[|x| + i] == y[i];
    }
  }

  lemma {:induction false} NotTaken(row: Row, at: Setting, d: int, a: Minute, b: Minute)
    requires DefinesWindows(at.cfg) && !Accepted(row, at)
    ensures !RowTakes(row, at, d, a, b)
  {
    if row.Row? {
      AcceptedRows(row, at);
    }
    hide Accepted, Minutes, PeriodsOf, Means, Day, Held, WeekdayIndex;
  }

  lemma {:induction false} EventsShowTheWindow(row: Row, at: Setting, d: int, a: Minute, b: Minute)
    requires DefinesWindows(at.cfg) && Accepted(row, at)
    ensures Shows(RowEvents(row, at), d, a, b) <==>
            HasClassOn(row, at, d) && a == Minutes(LessonOf(row, at).window.0) && b == Minutes(LessonOf(row, at).window.1)
  {
    hide Accepted, EventsOfRuns, Expand, Runs, IsRunsOf, Ascending, HasClassOn, PeriodsOf;
    RowDenotation(row, at);
    var events := RowEvents(row, at);
    InFlatten(ExpandAll(events), d);
    if Shows(events, d, a, b) {
      var i :| 0 <= i < |events| && Takes(events[i], d, a, b);
      assert d in ExpandAll(events)[i];
    }
    if HasClassOn(row, at, d) && a == Minutes(LessonOf(row, at).window.0) && b == Minutes(LessonOf(row, at).window.1) {
      var i :| 0 <= i < |ExpandAll(events)| && d in ExpandAll(events)[i];
      assert Takes(events[i], d, a, b);
    }
  }

  lemma {:induction false} RowEventsDenote(row: Row, at: Setting, d: int, a: Minute, b: Minute)
    requires DefinesWindows(at.cfg)
    ensures Shows(RowEvents(row, at), d, a, b) <==> RowTakes(row, at, d, a, b)
  {
    if Accepted(row, at) {
      TakesInWindow(row, at, d, a, b);
      EventsShowTheWindow(row, at, d, a, b);
    } else {
      NotTaken(row, at, d, a, b);
    }
    hide Accepted, RowTakes, HasClassOn;
  }
}
