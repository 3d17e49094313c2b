/** The whole way of app/calendar: a configuration payload and timetable rows in, the text of a feed out. */
module CalendarFeed {
  import opened PyText
  import opened CalendarTime
  import opened CalendarConfig
  import opened CalendarRules
  import opened CalendarEvents
  import opened CalendarMeaning
  import opened EventOrder
  import opened WeeklyRuns
  import opened TextEscape
  import opened LineFold
  import Parser = ConfigParser
  import Printer = CalendarPrinter

  /** The events `build_events` yields. */
  ghost function Events(rows: seq<Row>, at: Setting): seq<Event>
    requires DefinesWindows(at.cfg)
  {
    StableSort(AllEvents(rows, at))
  }

  /** The text `render` makes of them. */
  ghost function Text(rows: seq<Row>, at: Setting, style: Printer.Style): string
    requires DefinesWindows(at.cfg)
  {
    LineFold.Printed(Printer.Lines(Printer.CalendarProperties(Events(rows, at), style)))
  }

  lemma {:induction false} RulePrefixIsPlain()
    ensures Plain(RULE_PREFIX)
  {
  }

  /** A rule text has no line break. */
  lemma {:induction false} RuleIsPlain(count: nat)
    ensures Plain(RuleText(count))
  {
    RulePrefixIsPlain();
    var d := Decimal(count);
    hide Decimal;
    forall i | 0 <= i < |d| ensures !IsBreak(d[i]) {
      assert d[i] in d;
    }
  }

  lemma {:induction false} AllPrintable(rows: seq<Row>, at: Setting, e: Event)
    requires DefinesWindows(at.cfg) && e in AllEvents(rows, at)
    ensures Printer.IsPrintable(e)
  {
    var n := |rows| - 1;
    if e in AllEvents(rows[..n], at) {
      AllPrintable(rows[..n], at, e);
    } else {
      assert e in RowEvents(rows[n], at);
      RowPrintable(rows[n], at, e);
    }
  }

  lemma {:induction false} RowPrintable(row: Row, at: Setting, e: Event)
    requires DefinesWindows(at.cfg) && e in RowEvents(row, at)
    ensures Printer.IsPrintable(e)
  {
    var l := LessonOf(row, at);
    var runs := ClassRuns(row, at);
    var events := EventsOfRuns(l, runs, at);
    var i :| 0 <= i < |events| && events[i] == e;
    RuleIsPlain(|runs[i]|);
    hide RuleText, Plain, Summary, Description, Uid;
  }

  /** The event read from the feed takes place on day `d` from minute `a` to minute `b`. */
  predicate FieldsTake(f: Printer.Fields, d: int, a: Minute, b: Minute) {
    && f.status == "CONFIRMED" && f.start.Some? && f.end.Some?
    && d in Recurrence(f.start.value.day, f.rrule) && f.start.value.minute == a && f.end.value == Moment(f.start.value.day, b)
  }

  /** Some event read from the feed does. */
  ghost predicate FeedShows(fields: seq<Printer.Fields>, d: int, a: Minute, b: Minute) {
    exists i | 0 <= i < |fields| :: FieldsTake(fields[i], d, a, b)
  }

  lemma {:induction false} FieldsAt(events: seq<Event>, style: Printer.Style)
    ensures var fields := Printer.AllFieldsOf(events, style);
            |fields| == |events| && forall i | 0 <= i < |fields| :: fields[i] == Printer.FieldsOf(events[i], style)
  {
    hide Printer.FieldsOf;
    if events != [] {
      FieldsAt(events[1..], style);
    }
  }

  /** The fields of the printed events show what the events show. */
  lemma {:induction false} FieldsShow(events: seq<Event>, style: Printer.Style, d: int, a: Minute, b: Minute)
    ensures FeedShows(Printer.AllFieldsOf(events, style), d, a, b) <==> Shows(events, d, a, b)
  {
    var fields := Printer.AllFieldsOf(events, style);
    FieldsAt(events, style);
    hide Printer.AllFieldsOf, Recurrence;
    forall i | 0 <= i < |fields| ensures FieldsTake(fields[i], d, a, b) <==> Takes(events[i], d, a, b) {
      assert fields[i] == Printer.FieldsOf(events[i], style);
    }
    hide FieldsTake, Takes, Printer.FieldsOf;
    if i :| 0 <= i < |fields| && FieldsTake(fields[i], d, a, b) {
      assert Takes(events[i], d, a, b);
    }
    if i :| 0 <= i < |events| && Takes(events[i], d, a, b) {
      assert FieldsTake(fields[i], d, a, b);
    }
  }

  /**
   * With any accepted configuration and any rows: the feed's physical lines have at most 75 octets, the events read from it are
   * the built events in order, and by their printed times and rules a class is shown on a day from one minute to another if and
   * only if an accepted row schedules it there.
   */
  lemma {:induction false} FeedShowsTheTimetable(payload: Parser.Json, dates: Parser.Dates, rows: seq<Row>, at: Setting,
                                                 style: Printer.Style, d: int, a: Minute, b: Minute)
    requires Parser.IsFaithful(dates) && Parser.Parse(payload, dates) == Success(at.cfg) && Printer.IsStyle(style)
    ensures DefinesWindows(at.cfg)
    ensures forall p | p in PhysicalLines(Text(rows, at, style)) :: Octets(p) <= MAX_OCTETS
    ensures Printer.ReadCalendar(Text(rows, at, style), style.timezone) == Printer.AllFieldsOf(Events(rows, at), style)
    ensures FeedShows(Printer.ReadCalendar(Text(rows, at, style), style.timezone), d, a, b) <==> Scheduled(rows, at, d, a, b)
  {
    hide Parser.Parse, Printer.IsStyle, Parser.IsFaithful, Printer.ReadCalendar, Printer.AllFieldsOf, PhysicalLines, Shows,
         FeedShows, Scheduled;
    Parser.ParsedIsValid(payload, dates);
    assert DefinesWindows(at.cfg);
    hide DefinesWindows;
    var events := Events(rows, at);
    StableSortSorts(AllEvents(rows, at));
    forall i | 0 <= i < |events| ensures Printer.IsPrintable(events[i]) {
      assert events[i] in multiset(events);
      AllPrintable(rows, at, events[i]);
    }
    Printer.CalendarReadsBack(events, style);
    CalendarDenotation(rows, at, d, a, b);
    FieldsShow(events, style, d, a, b);
  }

  /**
   * A row that names one defined period is shown by the feed on its class days from the start to the end of that period, whatever
   * its time code, if conflicts are left to the course; and a feed of this row alone shows nothing else.
   */
  lemma {:induction false} FeedShowsTheWrittenPeriod(payload: Parser.Json, dates: Parser.Dates, rows: seq<Row>, at: Setting,
                                                     style: Printer.Style, i: nat, p: nat, d: int, a: Minute, b: Minute)
    requires Parser.IsFaithful(dates) && Parser.Parse(payload, dates) == Success(at.cfg) && Printer.IsStyle(style)
    requires i < |rows| && IsDated(rows[i], at) && IsTerm(at.term)
    requires rows[i].timeName == PeriodText(p) && p in at.cfg.periods && at.cfg.onConflict == "trust_course"
    ensures DefinesWindows(at.cfg)
    ensures IsWindow(at.cfg.periods[p]) && IsClock(at.cfg.periods[p].0) && IsClock(at.cfg.periods[p].1)
    ensures var shows := FeedShows(Printer.ReadCalendar(Text(rows, at, style), style.timezone), d, a, b);
            var taught := IsClassDay(rows[i], at, d) && a == Minutes(at.cfg.periods[p].0) && b == Minutes(at.cfg.periods[p].1);
            (taught ==> shows) && (|rows| == 1 ==> (shows <==> taught))
  {
    Parser.ParsedIsValid(payload, dates);
    assert DefinesWindows(at.cfg);
    WindowOf(at.cfg, p);
    hide *;
    FeedShowsTheTimetable(payload, dates, rows, at, style, d, a, b);
    RowIsTaught(rows[i], p, at, d, a, b);
    ScheduledByRow(rows, at, i, d, a, b);
  }

  lemma {:induction false} WindowOf(cfg: Config, p: int)
    requires DefinesWindows(cfg) && p in cfg.periods
    ensures IsWindow(cfg.periods[p]) && IsClock(cfg.periods[p].0) && IsClock(cfg.periods[p].1)
  {
  }

  lemma {:induction false} ScheduledByRow(rows: seq<Row>, at: Setting, i: nat, d: int, a: Minute, b: Minute)
    requires DefinesWindows(at.cfg) && i < |rows|
    ensures RowTakes(rows[i], at, d, a, b) ==> Scheduled(rows, at, d, a, b)
    ensures |rows| == 1 ==> (Scheduled(rows, at, d, a, b) <==> RowTakes(rows[i], at, d, a, b))
  {
    hide RowTakes, DefinesWindows;
    if Scheduled(rows, at, d, a, b) && |rows| == 1 {
      var k :| 0 <= k < |rows| && RowTakes(rows[k], at, d, a, b);
      assert k == i;
    }
  }
}
