/** app/calendar: when a timetable row is taught, in the terms the school writes it in, and how the calendar says so. */
module CalendarMeaning {
  import opened PyText
  import opened CalendarTime
  import opened CalendarConfig
  import opened CalendarRules
  import opened EventOrder
  import opened WeeklyRuns
  import opened CalendarEvents
  import Written = WrittenTimetable

  /** It is taught on a day exactly if the day is the named weekday, lies in a meant week, and is a teaching day. */
  lemma {:induction false} ClassDays(row: Row, at: Setting, d: int)
    requires Accepted(row, at) && IsTerm(at.term)
    ensures HasClassOn(row, at, d) <==>
            && Means(row.weeks, WeekOf(at.term, d))
            && WEEKDAYS[WeekdayOf(d)] == at.cfg.dayCodeMap[Strip(row.dayOfWeekCode)]
            && Held(at.term, d)
  {
    var weekday := WeekdayIndex(at.cfg, row.dayOfWeekCode).value;
    WeekdaysDiffer(weekday, WeekdayOf(d));
    forall w ensures d == Day(at.term, weekday, w) <==> WeekOf(at.term, d) == w && WeekdayOf(d) == weekday {
      DayIsOfItsWeek(at.term, weekday, w, d);
    }
    hide Means, Day, WeekOf, WeekdayOf, Held, WeekdayIndex, ResolvePeriods, PeriodWindow, WeeksError, IsTerm;
    var week := WeekOf(at.term, d);
    if Means(row.weeks, week) && WeekdayOf(d) == weekday && Held(at.term, d) {
      assert d == Day(at.term, weekday, week);
    }
  }

  lemma {:induction false} WeekdaysDiffer(i: nat, j: nat)
    requires i < 7 && j < 7
    ensures WEEKDAYS[i] == WEEKDAYS[j] <==> i == j
  {
  }

  /**
   * A row that names one defined period is taught exactly in that period, whatever its time code, when conflicts are left to the
   * course; when they are to be skipped, the same holds unless its block has periods and this is none of them.
   */
  lemma {:induction false} WrittenPeriodIsTaught(row: Row, p: nat, at: Setting, d: int, a: Minute, b: Minute)
    requires DefinesWindows(at.cfg) && IsDated(row, at) && row.timeName == PeriodText(p) && p in at.cfg.periods
    ensures var block := BlockPeriods(at.cfg, row.timeCode);
            Accepted(row, at) <==> at.cfg.onConflict != "skip" || block == [] || p in block
    ensures Accepted(row, at) ==>
              (RowTakes(row, at, d, a, b) <==>
               HasClassOn(row, at, d) && a == Minutes(at.cfg.periods[p].0) && b == Minutes(at.cfg.periods[p].1))
  {
    OnePeriodIsWritten(p);
    AcceptedRows(row, at);
    assert PeriodsOf(row, at.cfg) == [p];
    hide PeriodNumbers, PeriodText, BlockPeriods, HasClassOn, WeekdayIndex, WeeksError, IsClock, Less, Minutes;
    if Accepted(row, at) {
      TakesInWindow(row, at, d, a, b);
      hide Accepted, RowTakes;
      assert Hull(at.cfg, [p], LessonOf(row, at).window);
    }
  }

  /** Day `d` is a teaching day of the term, the row's weekday, in a week it means. */
  predicate IsClassDay(row: Row, at: Setting, d: int)
    requires row.Row? && Strip(row.dayOfWeekCode) in at.cfg.dayCodeMap
  {
    && Means(row.weeks, WeekOf(at.term, d)) && Held(at.term, d)
    && WEEKDAYS[WeekdayOf(d)] == at.cfg.dayCodeMap[Strip(row.dayOfWeekCode)]
  }

  lemma {:induction false} RowIsTaught(row: Row, p: nat, at: Setting, d: int, a: Minute, b: Minute)
    requires DefinesWindows(at.cfg) && IsDated(row, at) && IsTerm(at.term)
    requires row.timeName == PeriodText(p) && p in at.cfg.periods && at.cfg.onConflict == "trust_course"
    ensures RowTakes(row, at, d, a, b) <==>
            IsClassDay(row, at, d) && a == Minutes(at.cfg.periods[p].0) && b == Minutes(at.cfg.periods[p].1)
  {
    OneIsNotTheOther();
    WrittenPeriodIsTaught(row, p, at, d, a, b);
    hide Accepted, IsWindow, DefinesWindows, RowTakes, HasClassOn, PeriodText, BlockPeriods, Minutes, IsTerm, WeeksError;
    ClassDays(row, at, d);
  }

  lemma {:induction false} OneIsNotTheOther()
    ensures "trust_course" != "skip"
  {
    assert |"trust_course"| != |"skip"|;
  }

  // ----- periods that do not adjoin -----

  /** The class covers the time of period `q`. */
  predicate Covers(cfg: Config, w: Window, q: int)
    requires IsWindow(w) && q in cfg.periods && IsWindow(cfg.periods[q])
  {
    Minutes(w.0) <= Minutes(cfg.periods[q].0) && Minutes(cfg.periods[q].1) <= Minutes(w.1)
  }

  /**
   * The one event of a row covers a period exactly if some of the row's periods starts no later and some ends no earlier: so it
   * covers every period in between, even if the row does not name it.
   */
  lemma {:induction false} CoversWhatLiesBetween(row: Row, at: Setting, q: int)
    requires DefinesWindows(at.cfg) && Accepted(row, at) && q in at.cfg.periods
    ensures var ps := PeriodsOf(row, at.cfg);
            Covers(at.cfg, LessonOf(row, at).window, q) <==>
            && (exists p :: p in ps && p in at.cfg.periods && Minutes(at.cfg.periods[p].0) <= Minutes(at.cfg.periods[q].0))
            && (exists p :: p in ps && p in at.cfg.periods && Minutes(at.cfg.periods[q].1) <= Minutes(at.cfg.periods[p].1))
  {
    AcceptedRows(row, at);
    hide Accepted, IsClock, Less, Minutes, PeriodsOf;
    assert Hull(at.cfg, LessonOf(row, at).periods, LessonOf(row, at).window);
  }

  lemma {:induction false} OneAndThree()
    ensures "第1,3节" == Written.PeriodList([1, 3], ",")
  {
    assert Decimal(1) == "1" && Decimal(3) == "3";
    var texts := Written.Numbers([1, 3]);
    assert texts == [Decimal(1), Decimal(3)];
    assert Join(texts, ",") == Decimal(1) + "," + Decimal(3) by {
      assert texts[1..] == [Decimal(3)];
    }
  }

  /** A class in the periods 1 and 3 gets one event that covers the break of period 2 between them. */
  lemma {:induction false} PeriodBetweenIsCovered(row: Row, at: Setting)
    requires DefinesWindows(at.cfg) && Accepted(row, at) && row.timeName == "第1,3节"
    requires 1 in at.cfg.periods && 2 in at.cfg.periods && 3 in at.cfg.periods
    requires Minutes(at.cfg.periods[1].0) <= Minutes(at.cfg.periods[2].0)
    requires Minutes(at.cfg.periods[2].1) <= Minutes(at.cfg.periods[3].1)
    ensures 2 !in PeriodsOf(row, at.cfg) && Covers(at.cfg, LessonOf(row, at).window, 2)
  {
    PeriodsOneAndThree(row, at.cfg);
    hide PeriodsOf;
    CoversWhatLiesBetween(row, at, 2);
    hide *;
  }

  lemma {:induction false} PeriodsOneAndThree(row: Row, cfg: Config)
    requires row.Row? && row.timeName == "第1,3节"
    ensures var ps := PeriodsOf(row, cfg); 1 in ps && 3 in ps && 2 !in ps
  {
    OneAndThree();
    Written.ListedPeriodsAreRead([1, 3], ",");
    hide PeriodNumbers, Written.PeriodList;
    var ps := PeriodNumbers(row.timeName);
    assert 1 in [1, 3] && 3 in [1, 3] && 2 !in [1, 3];
    assert 1 in ps && 3 in ps && 2 !in ps;
  }

  // ----- the label -----

  lemma {:induction false} SortedEnds(s: set<int>, ps: seq<int>)
    requires ps != [] && s == set p | p in ps
    ensures var o := Sorted(s); o != [] && o[0] == Lowest(ps) && o[|o| - 1] == Highest(ps) && (|o| == 1 <==> o[0] == o[|o| - 1])
  {
    var o := Sorted(s);
    SortedIsAscending(s);
    assert ps[0] in s;
    assert Lowest(ps) in s && Highest(ps) in s;
    hide Sorted;
    assert Lowest(ps) in o && Highest(ps) in o;
    assert o[0] in o && o[|o| - 1] in o;
    assert o[0] in s && o[|o| - 1] in s;
  }

  lemma {:induction false} WrittenTexts(low: nat, high: nat)
    ensures "第" + Printed(low) + "节" == PeriodText(low)
    ensures "第" + Printed(low) + "-" + Printed(high) + "节" == RangeText(low, high)
  {
    hide Decimal;
  }

  lemma {:induction false} SpannedIs(prefix: string, o: seq<int>, suffix: string)
    requires o != [] && (|o| == 1 <==> o[0] == o[|o| - 1])
    ensures Spanned(prefix, o, suffix) ==
            if o[0] == o[|o| - 1] then prefix + Printed(o[0]) + suffix
            else prefix + Printed(o[0]) + "-" + Printed(o[|o| - 1]) + suffix
  {
    hide Printed;
  }

  /** The label names the lowest and the highest period. */
  lemma {:induction false} LabelIs(ps: seq<int>)
    requires ps != [] && Lowest(ps) >= 0
    ensures var (low, high) := (Lowest(ps), Highest(ps));
            PeriodsLabel(ps) == if low == high then PeriodText(low) else RangeText(low, high)
  {
    var s := set p | p in ps;
    SortedEnds(s, ps);
    hide Sorted, Printed, PeriodText, RangeText, Spanned;
    SpannedIs("第", Sorted(s), "节");
    WrittenTexts(Lowest(ps), Highest(ps));
  }

  /**
   * Reading the label as a period name gives the lowest and the highest period only; so it gives back the periods if and only if
   * there is no other.
   */
  lemma {:induction false} LabelReadsBack(ps: seq<int>)
    requires ps != [] && Lowest(ps) >= 0
    ensures var read := PeriodNumbers(PeriodsLabel(ps));
            && (forall p :: p in read <==> p == Lowest(ps) || p == Highest(ps))
            && ((forall p :: p in read <==> p in ps) <==> forall p | p in ps :: p == Lowest(ps) || p == Highest(ps))
  {
    var (low, high) := (Lowest(ps), Highest(ps));
    LabelIs(ps);
    if low == high {
      OnePeriodIsWritten(low);
    } else {
      RangeIsItsEnds(low, high);
    }
    hide PeriodsLabel, PeriodNumbers, PeriodText, RangeText;
  }

  // ----- summaries -----

  /** A summary cut at its first opening parenthesis, without the closing one. */
  function ReadSummary(s: string): (string, Option<string>) {
    if s == [] then ([], None)
    else if s[0] == '（' then ([], Some(if |s| >= 2 then s[1..|s| - 1] else []))
    else
      var (course, teacher) := ReadSummary(s[1..]);
      ([s[0]] + course, teacher)
  }

  lemma {:induction false} CourseCut(course: string, tail: string)
    requires '（' !in course && (tail != [] ==> tail[0] == '（')
    ensures ReadSummary(course + tail) == (course, ReadSummary(tail).1)
  {
    if course == [] {
      assert course + tail == tail;
    } else {
      CourseCut(course[1..], tail);
      assert (course + tail)[1..] == course[1..] + tail;
      assert course == [course[0]] + course[1..];
    }
  }

  lemma {:induction false} SummaryCut(course: string, teacher: string)
    requires '（' !in course
    ensures ReadSummary(course) == (course, None)
    ensures ReadSummary(course + "（" + teacher + "）") == (course, Some(teacher))
  {
    var tail := "（" + teacher + "）";
    assert tail[1..|tail| - 1] == teacher;
    assert ReadSummary(tail).1 == Some(teacher);
    assert ReadSummary([]).1 == None;
    assert course + [] == course && course + "（" + teacher + "）" == course + tail;
    hide ReadSummary;
    CourseCut(course, []);
    CourseCut(course, tail);
  }

  /** The summary names the course and, if there is one, the teacher. */
  lemma {:induction false} SummaryReadsBack(row: Row)
    requires row.Row? && '（' !in row.courseName
    ensures var (course, teacher) := ReadSummary(Summary(row));
            && course == (if Strip(row.courseName) == "" then "课程" else Strip(row.courseName))
            && teacher == (if Strip(row.teacherName) == "" then None else Some(Strip(row.teacherName)))
  {
    StripIsPart(row.courseName, '（');
    SummaryCut(CourseTitle(row), Strip(row.teacherName));
    hide Strip;
  }

  lemma {:induction false} StripIsPart(s: string, c: char)
    requires c !in s
    ensures c !in Strip(s)
  {
    StripLeftIsPart(s, c);
    StripRightOf(StripLeft(s, IsSpace), IsSpace);
  }

  lemma {:induction false} StripLeftIsPart(s: string, c: char)
    requires c !in s
    ensures c !in StripLeft(s, IsSpace)
  {
    if s != [] {
      StripLeftIsPart(s[1..], c);
    }
  }

  // ----- descriptions -----

  /** The parts of a description, cut at its bars and stripped. */
  function ReadDescription(s: string): seq<string> {
    Stripped(Split(s, '｜'))
  }

  function Stripped(parts: seq<string>): seq<string> {
    if parts == [] then [] else [Strip(parts[0])] + Stripped(parts[1..])
  }

  predicate IsBit(s: string) {
    '｜' !in s && Strip(s) == s
  }

  const BAR := " ｜ "

  lemma {:induction false} StripBlankBefore(s: string)
    ensures Strip([' '] + s) == Strip(s)
  {
    assert ([' '] + s)[1..] == s;
  }

  lemma {:induction false} StripBlankAfter(s: string)
    requires Strip(s) == s
    ensures Strip(s + [' ']) == s
  {
    StripLeftOf(s, IsSpace);
    StripRightOf(StripLeft(s, IsSpace), IsSpace);
    var t := s + [' '];
    if s == [] {
      assert t[1..] == [];
    } else {
      assert t[..|t| - 1] == s;
      StripRightKeeps(s);
      assert !IsSpace(s[0]) && !IsSpace(s[|s| - 1]);
      assert StripLeft(t, IsSpace) == t;
    }
  }

  lemma {:induction false} StripRightKeeps(s: string)
    requires Strip(s) == s && s != []
    ensures !IsSpace(s[0]) && !IsSpace(s[|s| - 1])
  {
    StripLeftOf(s, IsSpace);
    StripRightOf(StripLeft(s, IsSpace), IsSpace);
    StripLeftIsSuffix(s);
  }

  lemma {:induction false} StripLeftIsSuffix(s: string)
    ensures |StripLeft(s, IsSpace)| <= |s| && (|StripLeft(s, IsSpace)| == |s| ==> StripLeft(s, IsSpace) == s)
  {
    if s != [] {
      StripLeftIsSuffix(s[1..]);
    }
  }

  lemma {:induction false} SplitBlankBefore(s: string)
    ensures var parts := Split(s, '｜'); Split([' '] + s, '｜') == [[' '] + parts[0]] + parts[1..]
  {
    assert ([' '] + s)[1..] == s;
  }

  lemma {:induction false} StrippedAlike(head: string, parts: seq<string>)
    requires parts != []
    ensures Stripped([head] + ([[' '] + parts[0]] + parts[1..])) == [Strip(head)] + Stripped(parts)
  {
    var tail := [[' '] + parts[0]] + parts[1..];
    StripBlankBefore(parts[0]);
    hide Strip;
    assert ([head] + tail)[1..] == tail && tail[1..] == parts[1..];
  }

  lemma {:induction false} BitsRead(bits: seq<string>)
    requires bits != [] && forall i | 0 <= i < |bits| :: IsBit(bits[i])
    ensures ReadDescription(Join(bits, BAR)) == bits
  {
    if |bits| == 1 {
      SplitOne(bits[0], '｜');
      assert Stripped([bits[0]][1..]) == [];
    } else {
      var rest := Join(bits[1..], BAR);
      BitsRead(bits[1..]);
      var head := bits[0] + [' '];
      assert Join(bits, BAR) == head + ['｜'] + ([' '] + rest);
      hide Join;
      SplitAfter(head, [' '] + rest, '｜');
      SplitBlankBefore(rest);
      StripBlankAfter(bits[0]);
      var parts := Split(rest, '｜');
      StrippedAlike(head, parts);
      hide Strip, Split, Stripped;
      assert bits == [bits[0]] + bits[1..];
    }
  }

  lemma {:induction false} SpannedIsBit(prefix: string, ordered: seq<int>, suffix: string)
    requires prefix != [] && suffix != [] && '｜' !in prefix && '｜' !in suffix
    requires !IsSpace(prefix[0]) && !IsSpace(suffix[|suffix| - 1])
    ensures IsBit(Spanned(prefix, ordered, suffix))
  {
    var s := Spanned(prefix, ordered, suffix);
    if ordered != [] {
      PrintedHasNoBar(ordered[0]);
      PrintedHasNoBar(ordered[|ordered| - 1]);
      hide Printed;
      assert s[0] == prefix[0] && s[|s| - 1] == suffix[|suffix| - 1];
      StripKeeps(s, IsSpace);
    }
  }

  lemma {:induction false} PrintedHasNoBar(n: int)
    ensures '｜' !in Printed(n)
  {
    var d := Decimal(if n < 0 then -n else n);
    hide Decimal;
    assert '｜' !in d;
  }

  function RoomBits(row: Row): seq<string>
    requires row.Row?
  {
    if Strip(row.classroomName) == "" then [] else ["教室：" + Strip(row.classroomName)]
  }

  lemma {:induction false} RoomIsBit(row: Row)
    requires row.Row? && '｜' !in row.classroomName
    ensures forall i | 0 <= i < |RoomBits(row)| :: IsBit(RoomBits(row)[i])
  {
    var room := Strip(row.classroomName);
    StripIsPart(row.classroomName, '｜');
    StripTwice(row.classroomName, IsSpace);
    if room != "" {
      StripRightKeeps(room);
      var s := "教室：" + room;
      assert s[|s| - 1] == room[|room| - 1];
      StripKeeps(s, IsSpace);
    }
  }

  lemma {:induction false} WeeksIsBit(run: seq<int>, term: Term)
    ensures IsBit("周次：" + WeeksText(run, term))
  {
    var weeks := Sorted(set d | d in run :: WeekOf(term, d));
    var s := "周次：" + WeeksText(run, term);
    hide Sorted;
    SpannedIsBit("第", weeks, "周");
    if weeks == [] {
      assert s == "周次：";
    } else {
      assert s[|s| - 1] == '周';
    }
    StripKeeps(s, IsSpace);
  }

  lemma {:induction false} ParityIsBit(parity: Option<Parity>)
    ensures forall i | 0 <= i < |ParityText(parity)| :: IsBit(ParityText(parity)[i])
  {
    StripKeeps("单双周：单周", IsSpace);
    StripKeeps("单双周：双周", IsSpace);
  }

  /** The description gives back the periods, the room if there is one, the weeks of the run, and the parity if there is one. */
  lemma {:induction false} DescriptionReadsBack(l: Lesson, run: seq<int>, term: Term)
    requires l.row.Row? && '｜' !in l.row.classroomName
    ensures ReadDescription(Description(l, run, term))
            == [PeriodsLabel(l.periods)] + RoomBits(l.row) + ["周次：" + WeeksText(run, term)] + ParityText(l.parity)
  {
    var bits := [PeriodsLabel(l.periods)] + RoomBits(l.row) + ["周次：" + WeeksText(run, term)] + ParityText(l.parity);
    SpannedIsBit("第", Sorted(set p | p in l.periods), "节");
    RoomIsBit(l.row);
    WeeksIsBit(run, term);
    ParityIsBit(l.parity);
    assert Description(l, run, term) == Join(bits, BAR);
    hide IsBit, PeriodsLabel, RoomBits, WeeksText, ParityText, Description, ReadDescription;
    BitsRead(bits);
  }

  lemma {:induction false} EventOfRun(row: Row, at: Setting, i: nat)
    requires DefinesWindows(at.cfg) && Accepted(row, at) && i < |RowEvents(row, at)|
    ensures var e := RowEvents(row, at)[i];
            && Expand(e) != [] && 1 <= Expand(e)[0]
            && e == RunEvent(LessonOf(row, at), Expand(e), i, at)
  {
    var l, runs := LessonOf(row, at), ClassRuns(row, at);
    var e := RowEvents(row, at)[i];
    assert e == RunEvent(l, runs[i], i, at);
    RunsCutTheDays(Sorted(ClassDates(row, at)));
    hide Accepted, RunEvent, Expand, RowEvents;
    RunEventExpands(l, runs[i], i, at);
  }

  /** Every event of a row tells its course and teacher, its room, its periods and parity, and the weeks of its own days. */
  lemma {:induction false} EventsTellTheRow(row: Row, at: Setting, i: nat)
    requires DefinesWindows(at.cfg) && Accepted(row, at) && i < |RowEvents(row, at)|
    requires '（' !in row.courseName && '｜' !in row.classroomName
    ensures var e := RowEvents(row, at)[i];
            && e.location == Strip(row.classroomName)
            && ReadSummary(e.summary) == (if Strip(row.courseName) == "" then "课程" else Strip(row.courseName),
                                          if Strip(row.teacherName) == "" then None else Some(Strip(row.teacherName)))
            && ReadDescription(e.description)
               == [PeriodsLabel(PeriodsOf(row, at.cfg))] + RoomBits(row) + ["周次：" + WeeksText(Expand(e), at.term)]
                  + ParityText(ParityOf(row.weeks))
  {
    var e, l := RowEvents(row, at)[i], LessonOf(row, at);
    EventOfRun(row, at, i);
    AcceptedRows(row, at);
    SummaryReadsBack(row);
    DescriptionReadsBack(l, Expand(e), at.term);
    assert l.row == row && l.parity == ParityOf(row.weeks);
    hide Accepted, Expand, RowEvents, ReadSummary, ReadDescription, Summary, Description, Uid, PeriodsLabel, RoomBits, WeeksText,
         ParityText, PeriodsOf, LessonOf, Strip, ParityOf, RuleText;
  }

  // ----- identifiers -----

  /** What the identifier of an event is made of. */
  function KeyOf(l: Lesson, index: nat, at: Setting): UidKey
    requires l.row.Row?
  {
    UidKey(if l.row.semester != "" then l.row.semester else at.term.semester, l.row.courseCode, CourseTitle(l.row),
           l.row.dayOfWeekCode, Sorted(set p | p in l.periods), l.parity, index)
  }

  /** No two keys have the same first half of the hash. */
  ghost predicate IsInjective(stableId: UidKey -> string) {
    forall k, j | Cut(stableId(k), 32) == Cut(stableId(j), 32) :: k == j
  }

  /**
   * As far as the hash keeps keys apart, two events of a calendar have the same identifier if and only if they agree in semester,
   * course code, title, weekday code, periods, parity, and the number of the run within its row.
   */
  lemma {:induction false} UidsAgree(l: Lesson, i: nat, m: Lesson, j: nat, at: Setting)
    requires l.row.Row? && m.row.Row? && IsInjective(at.stableId)
    ensures Uid(l, i, at) == Uid(m, j, at) <==> KeyOf(l, i, at) == KeyOf(m, j, at)
  {
    var k, n := KeyOf(l, i, at), KeyOf(m, j, at);
    var s, t := Cut(at.stableId(k), 32), Cut(at.stableId(n), 32);
    assert Uid(l, i, at) == s + "@edu-query-app" && Uid(m, j, at) == t + "@edu-query-app";
    hide Cut, Uid, KeyOf;
    if s + "@edu-query-app" == t + "@edu-query-app" {
      SameFront(s, t, "@edu-query-app");
    }
  }

  lemma {:induction false} SameFront(s: string, t: string, tail: string)
    requires s + tail == t + tail
    ensures s == t
  {
    assert |s| == |t|;
    assert s == (s + tail)[..|s|] == (t + tail)[..|t|] == t;
  }

  /** The events of one row have different identifiers. */
  lemma {:induction false} RowUidsDiffer(row: Row, at: Setting, i: nat, j: nat)
    requires DefinesWindows(at.cfg) && Accepted(row, at) && IsInjective(at.stableId)
    requires i < j < |RowEvents(row, at)|
    ensures RowEvents(row, at)[i].uid != RowEvents(row, at)[j].uid
  {
    var l := LessonOf(row, at);
    UidsAgree(l, i, l, j, at);
    hide Uid, Summary, Description, ClassRuns;
  }

  /**
   * But a course taught in the same periods of the same weekday by another teacher, in another room, in other weeks of the same
   * parity, gets the same identifiers.
   */
  lemma {:induction false} OtherWeeksSameUid(row: Row, other: Row, at: Setting)
    requires DefinesWindows(at.cfg) && Accepted(row, at) && Accepted(other, at)
    requires other == row.(weeks := other.weeks, teacherName := other.teacherName, classroomName := other.classroomName)
    requires ParityOf(other.weeks) == ParityOf(row.weeks)
    ensures forall i | 0 <= i < |RowEvents(row, at)| && i < |RowEvents(other, at)| ::
              RowEvents(row, at)[i].uid == RowEvents(other, at)[i].uid
  {
    hide Accepted, Summary, Description, ClassRuns, ParityOf, Sorted, Cut;
    var l, m := LessonOf(row, at), LessonOf(other, at);
    assert l.periods == m.periods && l.parity == m.parity;
    forall i | 0 <= i < |RowEvents(row, at)| && i < |RowEvents(other, at)|
      ensures RowEvents(row, at)[i].uid == RowEvents(other, at)[i].uid
    {
      assert RowEvents(row, at)[i].uid == Uid(l, i, at) && RowEvents(other, at)[i].uid == Uid(m, i, at);
    }
  }
}
