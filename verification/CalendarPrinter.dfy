/** app/calendar/ics.py, `render`: events printed as an iCalendar text, and the reader's side of it. */
module CalendarPrinter {
  import opened PyText
  import opened CalendarTime
  import opened EventOrder
  import opened TextEscape
  import opened LineFold

  /** A content line `name:value`; parameters such as TZID count as part of the name. */
  datatype Property = Property(name: string, value: string)

  /** The arguments of `render`, with the clock reading it prints already as text. */
  datatype Style = Style(calendarName: string, refreshSeconds: int, stamp: string, timezone: string)

  // ----- writing -----

  /** `"%d" % n`. */
  function Signed(n: int): string {
    if n < 0 then "-" + Decimal(-n) else Decimal(n)
  }

  function RefreshText(style: Style): string {
    var hours := style.refreshSeconds / 3600;
    "PT" + Signed(if hours > 1 then hours else 1) + "H"
  }

  const CALENDAR_HEAD := [
    Property("BEGIN", "VCALENDAR"),
    Property("VERSION", "2.0"),
    Property("PRODID", "-//edu-query-app//Calendar Subscription//CN"),
    Property("CALSCALE", "GREGORIAN"),
    Property("METHOD", "PUBLISH")
  ]

  function Naming(style: Style): seq<Property> {
    [ Property("X-WR-CALNAME", Escape(style.calendarName)),
      Property("X-WR-TIMEZONE", style.timezone),
      Property("REFRESH-INTERVAL;VALUE=DURATION", RefreshText(style)),
      Property("X-PUBLISHED-TTL", RefreshText(style)),
      Property("BEGIN", "VTIMEZONE"),
      Property("TZID", style.timezone),
      Property("X-LIC-LOCATION", style.timezone) ]
  }

  const STANDARD_ZONE := [
    Property("BEGIN", "STANDARD"),
    Property("DTSTART", "19700101T000000"),
    Property("TZOFFSETFROM", "+0800"),
    Property("TZOFFSETTO", "+0800"),
    Property("TZNAME", "CST"),
    Property("END", "STANDARD"),
    Property("END", "VTIMEZONE")
  ]

  function Header(style: Style): seq<Property> {
    CALENDAR_HEAD + Naming(style) + STANDARD_ZONE
  }

  /** A text field that is left out when it is empty. */
  function TextField(name: string, value: string): seq<Property> {
    if value == "" then [] else [Property(name, Escape(value))]
  }

  function RuleField(rrule: Option<string>): seq<Property> {
    if rrule.Some? && rrule.value != "" then [Property("RRULE", rrule.value)] else []
  }

  function EventHead(e: Event, style: Style): seq<Property> {
    [ Property("BEGIN", "VEVENT"),
      Property("UID", Escape(e.uid)),
      Property("DTSTAMP", style.stamp),
      Property("LAST-MODIFIED", style.stamp),
      Property("SEQUENCE", Signed(e.sequence)),
      Property("DTSTART;TZID=" + style.timezone, Stamp(e.start)),
      Property("DTEND;TZID=" + style.timezone, Stamp(e.end)),
      Property("SUMMARY", Escape(e.summary)) ]
  }

  const EVENT_TAIL := [
    Property("TRANSP", "OPAQUE"), Property("STATUS", "CONFIRMED"), Property("END", "VEVENT")
  ]

  function EventProperties(e: Event, style: Style): seq<Property> {
    EventHead(e, style)
    + TextField("LOCATION", e.location)
    + TextField("DESCRIPTION", e.description)
    + RuleField(e.rrule)
    + EVENT_TAIL
  }

  function EventsProperties(events: seq<Event>, style: Style): seq<Property> {
    if events == [] then []
    else EventsProperties(events[..|events| - 1], style) + EventProperties(events[|events| - 1], style)
  }

  function CalendarProperties(events: seq<Event>, style: Style): seq<Property> {
    Header(style) + EventsProperties(events, style) + [Property("END", "VCALENDAR")]
  }

  function Line(p: Property): string {
    p.name + ":" + p.value
  }

  function Lines(props: seq<Property>): (r: seq<string>)
    ensures |r| == |props| && forall i | 0 <= i < |r| :: r[i] == Line(props[i])
  {
    seq(|props|, i requires 0 <= i < |props| => Line(props[i]))
  }

  lemma {:induction false} LinesConcat(a: seq<Property>, b: seq<Property>)
    ensures Lines(a + b) == Lines(a) + Lines(b)
  {
  }

  lemma {:induction false} LinesAdd(a: seq<Property>, b: seq<Property>, c: seq<Property>)
    ensures Lines(a + (b + c)) == Lines(a + b) + Lines(c)
  {
  }

  lemma {:induction false} EventLines(e: Event, style: Style)
    ensures Lines(EventProperties(e, style)) ==
            Lines(EventHead(e, style)) + Lines(TextField("LOCATION", e.location))
            + Lines(TextField("DESCRIPTION", e.description)) + Lines(RuleField(e.rrule)) + Lines(EVENT_TAIL)
  {
    hide EventHead, TextField, RuleField;
    LinesConcat(EventHead(e, style), TextField("LOCATION", e.location));
    LinesConcat(EventHead(e, style) + TextField("LOCATION", e.location), TextField("DESCRIPTION", e.description));
    LinesConcat(EventHead(e, style) + TextField("LOCATION", e.location) + TextField("DESCRIPTION", e.description),
                RuleField(e.rrule));
  }

  /** The lines one event adds in the loop of `render`. */
  method RenderEvent(e: Event, style: Style) returns (lines: seq<string>)
    ensures lines == Lines(EventProperties(e, style))
  {
    hide EventProperties, EventHead;
    lines := Lines(EventHead(e, style));
    var extra: seq<string> := [];
    if e.location != "" {
      extra := [Line(Property("LOCATION", Escape(e.location)))];
    }
    assert extra == Lines(TextField("LOCATION", e.location));
    lines, extra := lines + extra, [];
    if e.description != "" {
      extra := [Line(Property("DESCRIPTION", Escape(e.description)))];
    }
    assert extra == Lines(TextField("DESCRIPTION", e.description));
    lines, extra := lines + extra, [];
    if e.rrule.Some? && e.rrule.value != "" {
      extra := [Line(Property("RRULE", e.rrule.value))];
    }
    assert extra == Lines(RuleField(e.rrule));
    lines := lines + extra + Lines(EVENT_TAIL);
    EventLines(e, style);
  }

  /** `CRLF.join(_fold(line) for line in lines) + CRLF`. */
  method FoldAll(lines: seq<string>) returns (text: string)
    ensures text == Printed(lines)
  {
    text := "";
    var i := |lines|;
    assert lines[|lines|..] == [];
    while i > 0
      invariant 0 <= i <= |lines|
      invariant text == Printed(lines[i..])
    {
      i := i - 1;
      var folded := Fold(lines[i]);
      text := folded + CRLF + text;
      assert lines[i..][1..] == lines[i + 1..];
    }
    assert lines[0..] == lines;
  }

  /** `render`. */
  method Render(events: seq<Event>, style: Style) returns (text: string)
    ensures text == Printed(Lines(CalendarProperties(events, style)))
  {
    hide EventProperties, Header;
    var lines := Lines(Header(style));
    ghost var header := Header(style);
    assert header + EventsProperties(events[..0], style) == header;
    for i := 0 to |events|
      invariant lines == Lines(header + EventsProperties(events[..i], style))
    {
      var block := RenderEvent(events[i], style);
      assert events[..i + 1][..i] == events[..i];
      LinesAdd(header, EventsProperties(events[..i], style), EventProperties(events[i], style));
      lines := lines + block;
    }
    assert events[..|events|] == events;
    var last := Property("END", "VCALENDAR");
    LinesConcat(header + EventsProperties(events, style), [last]);
    assert Lines([last]) == [Line(last)];
    lines := lines + [Line(last)];
    text := FoldAll(lines);
  }

  // ----- reading -----

  /** A line cut at its first colon. */
  function ReadLine(line: string): Property {
    if line == [] then Property([], [])
    else if line[0] == ':' then Property([], line[1..])
    else
      var rest := ReadLine(line[1..]);
      Property([line[0]] + rest.name, rest.value)
  }

  function ReadLines(lines: seq<string>): (r: seq<Property>)
    ensures |r| == |lines| && forall i | 0 <= i < |r| :: r[i] == ReadLine(lines[i])
  {
    if lines == [] then [] else [ReadLine(lines[0])] + ReadLines(lines[1..])
  }

  function Lookup(props: seq<Property>, name: string): Option<string> {
    if props == [] then None
    else if props[0].name == name then Some(props[0].value)
    else Lookup(props[1..], name)
  }

  /** The number of properties before the first `p`, or all of them. */
  function Before(props: seq<Property>, p: Property): (n: nat)
    ensures n <= |props|
  {
    if props == [] || props[0] == p then 0 else 1 + Before(props[1..], p)
  }

  const BEGIN_EVENT := Property("BEGIN", "VEVENT")
  const END_EVENT := Property("END", "VEVENT")

  /** The properties between each BEGIN:VEVENT and the next END:VEVENT. */
  function EventBlocks(props: seq<Property>): seq<seq<Property>>
    decreases |props|
  {
    if props == [] then []
    else if props[0] == BEGIN_EVENT then
      var n := Before(props, END_EVENT);
      if n == 0 then [] else [props[1..n]] + EventBlocks(props[n..])
    else EventBlocks(props[1..])
  }

  /** What a reader recovers from an event. */
  datatype Fields = Fields(uid: string, summary: string, location: string, description: string,
                           start: Option<Moment>, end: Option<Moment>, rrule: string, sequence: string, status: string)

  function TextOf(props: seq<Property>, name: string): string {
    match Lookup(props, name)
    case None => ""
    case Some(value) => Unescape(value)
  }

  function RawOf(props: seq<Property>, name: string): string {
    match Lookup(props, name)
    case None => ""
    case Some(value) => value
  }

  function ReadFields(block: seq<Property>, timezone: string): Fields {
    Fields(TextOf(block, "UID"), TextOf(block, "SUMMARY"), TextOf(block, "LOCATION"), TextOf(block, "DESCRIPTION"),
           ReadStamp(RawOf(block, "DTSTART;TZID=" + timezone)), ReadStamp(RawOf(block, "DTEND;TZID=" + timezone)),
           RawOf(block, "RRULE"), RawOf(block, "SEQUENCE"), RawOf(block, "STATUS"))
  }

  function ReadAll(blocks: seq<seq<Property>>, timezone: string): seq<Fields> {
    if blocks == [] then [] else [ReadFields(blocks[0], timezone)] + ReadAll(blocks[1..], timezone)
  }

  /** All the events of a calendar text. */
  function ReadCalendar(text: string, timezone: string): seq<Fields> {
    ReadAll(EventBlocks(ReadLines(LogicalLines(text))), timezone)
  }

  /** What was written: the fields themselves, with line breaks normalised. */
  function FieldsOf(e: Event, style: Style): Fields {
    Fields(NormalBreaks(e.uid), NormalBreaks(e.summary), NormalBreaks(e.location), NormalBreaks(e.description),
           Some(e.start), Some(e.end),
           if e.rrule.Some? then e.rrule.value else "", Signed(e.sequence), "CONFIRMED")
  }

  function AllFieldsOf(events: seq<Event>, style: Style): seq<Fields> {
    if events == [] then [] else [FieldsOf(events[0], style)] + AllFieldsOf(events[1..], style)
  }

  // ----- every line is a content line -----

  /** Neither a line break nor a colon. */
  predicate IsName(s: string) {
    s != [] && s[0] != ' ' && s[0] != '\t' && forall i | 0 <= i < |s| :: !IsBreak(s[i]) && s[i] != ':'
  }

  predicate IsProperty(p: Property) {
    IsName(p.name) && Plain(p.value)
  }

  predicate AllProperties(props: seq<Property>) {
    forall i | 0 <= i < |props| :: IsProperty(props[i])
  }

  /** The parts `render` copies without escaping them contain nothing that would end a line or a name. */
  predicate IsStyle(style: Style) {
    && Plain(style.stamp)
    && (forall i | 0 <= i < |style.timezone| :: !IsBreak(style.timezone[i]) && style.timezone[i] != ':')
  }

  predicate IsPrintable(e: Event) {
    e.rrule.Some? ==> Plain(e.rrule.value)
  }

  lemma {:induction false} SignedPlain(n: int)
    ensures Plain(Signed(n))
  {
    var s := Signed(n);
    var d := Decimal(if n < 0 then -n else n);
    forall i | 0 <= i < |s| ensures !IsBreak(s[i]) {
      if n < 0 && i > 0 {
        assert s[i] == d[i - 1] && d[i - 1] in d;
      } else if n >= 0 {
        assert s[i] == d[i] && d[i] in d;
      }
    }
  }

  lemma {:induction false} HeadTexts()
    ensures IsName("BEGIN") && Plain("VCALENDAR") && IsName("VERSION") && Plain("2.0")
    ensures IsName("CALSCALE") && Plain("GREGORIAN") && IsName("METHOD") && Plain("PUBLISH")
  {
  }

  lemma {:induction false} ProductText()
    ensures IsName("PRODID") && Plain("-//edu-query-app//Calendar Subscription//CN")
  {
  }

  lemma {:induction false} CalendarHeadProperties()
    ensures AllProperties(CALENDAR_HEAD)
  {
    HeadTexts();
    ProductText();
  }

  lemma {:induction false} ZoneTexts()
    ensures IsName("BEGIN") && IsName("END") && Plain("STANDARD") && Plain("VTIMEZONE")
    ensures IsName("DTSTART") && Plain("19700101T000000") && IsName("TZNAME") && Plain("CST")
  {
  }

  lemma {:induction false} OffsetTexts()
    ensures IsName("TZOFFSETFROM") && IsName("TZOFFSETTO") && Plain("+0800")
  {
  }

  lemma {:induction false} ZoneProperties()
    ensures AllProperties(STANDARD_ZONE)
  {
    ZoneTexts();
    OffsetTexts();
  }

  lemma {:induction false} TailTexts()
    ensures IsName("TRANSP") && Plain("OPAQUE") && IsName("STATUS") && Plain("CONFIRMED")
  {
  }

  lemma {:induction false} TailProperties()
    ensures AllProperties(EVENT_TAIL)
  {
    TailTexts();
    HeadNames();
    ZoneTexts();
    hide IsName, Plain;
  }

  lemma {:induction false} RefreshPlain(style: Style)
    ensures Plain(RefreshText(style))
  {
    var hours := style.refreshSeconds / 3600;
    SignedPlain(if hours > 1 then hours else 1);
  }

  lemma {:induction false} NamingNames()
    ensures IsName("X-WR-CALNAME") && IsName("X-WR-TIMEZONE") && IsName("X-PUBLISHED-TTL")
    ensures IsName("BEGIN") && IsName("TZID") && IsName("X-LIC-LOCATION") && Plain("VTIMEZONE")
  {
  }

  lemma {:induction false} RefreshName()
    ensures IsName("REFRESH-INTERVAL;VALUE=DURATION")
  {
  }

  lemma {:induction false} NamingProperties(style: Style)
    requires IsStyle(style)
    ensures AllProperties(Naming(style))
  {
    EscapeRoundTrip(style.calendarName);
    RefreshPlain(style);
    NamingNames();
    RefreshName();
  }

  lemma {:induction false} HeadNames()
    ensures IsName("BEGIN") && IsName("UID") && IsName("DTSTAMP") && IsName("LAST-MODIFIED")
    ensures IsName("SEQUENCE") && IsName("SUMMARY") && Plain("VEVENT")
  {
  }

  lemma {:induction false} OptionalNames()
    ensures IsName("LOCATION") && IsName("DESCRIPTION") && IsName("RRULE")
  {
  }

  lemma {:induction false} ZonedNames(timezone: string)
    requires forall i | 0 <= i < |timezone| :: !IsBreak(timezone[i]) && timezone[i] != ':'
    ensures IsName("DTSTART;TZID=" + timezone) && IsName("DTEND;TZID=" + timezone)
  {
  }

  lemma {:induction false} DigitsArePlain(s: string)
    requires AllDigits(s)
    ensures Plain(s)
  {
    forall i | 0 <= i < |s| ensures !IsBreak(s[i]) {
      assert s[i] in s;
    }
  }

  lemma {:induction false} StampTextPlain(c: Civil, hour: nat, minute: nat)
    requires IsCivil(c) && hour < 24 && minute < 60
    ensures Plain(StampText(c, hour, minute))
  {
    DigitsArePlain(Decimal(c.year));
    DigitsArePlain(Two(c.month));
    DigitsArePlain(Two(c.day));
    DigitsArePlain(Two(hour));
    DigitsArePlain(Two(minute));
    hide Decimal, Two, AllDigits;
  }

  lemma {:induction false} StampPlain(m: Moment)
    ensures Plain(Stamp(m))
  {
    StampTextPlain(CivilOf(m.day), m.minute / 60, m.minute % 60);
  }

  lemma {:induction false} TextProperties(e: Event)
    ensures IsProperty(Property("UID", Escape(e.uid))) && IsProperty(Property("SUMMARY", Escape(e.summary)))
    ensures IsProperty(Property("SEQUENCE", Signed(e.sequence))) && IsProperty(BEGIN_EVENT)
  {
    EscapeRoundTrip(e.uid);
    EscapeRoundTrip(e.summary);
    SignedPlain(e.sequence);
    HeadNames();
    hide Signed, Escape, IsName, Plain;
  }

  lemma {:induction false} ClockProperties(e: Event, style: Style)
    requires IsStyle(style)
    ensures IsProperty(Property("DTSTAMP", style.stamp)) && IsProperty(Property("LAST-MODIFIED", style.stamp))
    ensures IsProperty(Property("DTSTART;TZID=" + style.timezone, Stamp(e.start)))
    ensures IsProperty(Property("DTEND;TZID=" + style.timezone, Stamp(e.end)))
  {
    HeadNames();
    ZonedNames(style.timezone);
    StampPlain(e.start);
    StampPlain(e.end);
    hide Stamp, IsName, Plain;
  }

  lemma {:induction false} EventHeadProperties(e: Event, style: Style)
    requires IsStyle(style)
    ensures AllProperties(EventHead(e, style))
  {
    TextProperties(e);
    ClockProperties(e, style);
    hide Signed, Escape, Stamp, IsProperty;
  }

  lemma {:induction false} EventAllProperties(e: Event, style: Style)
    requires IsStyle(style) && IsPrintable(e)
    ensures AllProperties(EventProperties(e, style))
  {
    EventHeadProperties(e, style);
    OptionalProperties(e);
    TailProperties();
    hide EventHead, TextField, RuleField, IsProperty;
  }

  lemma {:induction false} OptionalProperties(e: Event)
    requires IsPrintable(e)
    ensures AllProperties(TextField("LOCATION", e.location)) && AllProperties(TextField("DESCRIPTION", e.description))
    ensures AllProperties(RuleField(e.rrule))
  {
    EscapeRoundTrip(e.location);
    EscapeRoundTrip(e.description);
    OptionalNames();
    hide Escape, IsName, Plain;
  }

  lemma {:induction false} AllEventsProperties(events: seq<Event>, style: Style)
    requires IsStyle(style) && forall i | 0 <= i < |events| :: IsPrintable(events[i])
    ensures AllProperties(EventsProperties(events, style))
  {
    if events != [] {
      EventAllProperties(events[|events| - 1], style);
      AllEventsProperties(events[..|events| - 1], style);
    }
  }

  lemma {:induction false} AllCalendarProperties(events: seq<Event>, style: Style)
    requires IsStyle(style) && forall i | 0 <= i < |events| :: IsPrintable(events[i])
    ensures AllProperties(CalendarProperties(events, style))
  {
    CalendarHeadProperties();
    NamingProperties(style);
    ZoneProperties();
    AllEventsProperties(events, style);
    EndCalendar();
    hide IsProperty;
  }

  lemma {:induction false} EndCalendar()
    ensures IsProperty(Property("END", "VCALENDAR"))
  {
  }

  // ----- reading back the lines -----

  lemma {:induction false} ReadLineBack(name: string, value: string)
    requires forall i | 0 <= i < |name| :: name[i] != ':'
    ensures ReadLine(name + ":" + value) == Property(name, value)
  {
    var line := name + ":" + value;
    if name == [] {
      assert line[1..] == value;
    } else {
      ReadLineBack(name[1..], value);
      assert line[1..] == name[1..] + ":" + value;
    }
  }

  /** Unfolding and cutting a printed calendar gives back the properties that were printed, and its lines are short enough. */
  lemma {:induction false} PrintedPropertiesReadBack(props: seq<Property>)
    requires AllProperties(props)
    ensures LogicalLines(Printed(Lines(props))) == Lines(props)
    ensures ReadLines(LogicalLines(Printed(Lines(props)))) == props
    ensures forall p | p in PhysicalLines(Printed(Lines(props))) :: Octets(p) <= MAX_OCTETS
  {
    var lines := Lines(props);
    forall i | 0 <= i < |lines| ensures IsContentLine(lines[i]) && ReadLine(lines[i]) == props[i] {
      assert IsProperty(props[i]);
      ReadLineBack(props[i].name, props[i].value);
    }
    FoldRoundTrip(lines);
    PhysicalLinesFit(lines);
  }

  // ----- reading back the events -----

  lemma {:induction false} LookupConcat(a: seq<Property>, b: seq<Property>, name: string)
    ensures Lookup(a + b, name) == if Lookup(a, name).Some? then Lookup(a, name) else Lookup(b, name)
  {
    if a == [] {
      assert a + b == b;
    } else {
      LookupConcat(a[1..], b, name);
      assert (a + b)[1..] == a[1..] + b;
    }
  }

  lemma {:induction false} LookupCons(p: Property, rest: seq<Property>, name: string)
    ensures Lookup([p] + rest, name) == if p.name == name then Some(p.value) else Lookup(rest, name)
  {
  }

  /** The properties of an event between its BEGIN and END lines. */
  function Inner(e: Event, style: Style): seq<Property> {
    EventProperties(e, style)[1..|EventProperties(e, style)| - 1]
  }

  function Required(e: Event, style: Style): seq<Property> {
    EventHead(e, style)[1..]
  }

  lemma {:induction false} HeadParts(e: Event, style: Style)
    ensures EventHead(e, style) == [BEGIN_EVENT] + Required(e, style)
  {
    hide Escape, Signed, Stamp;
  }

  lemma {:induction false} Between(first: Property, a: seq<Property>, b: seq<Property>, c: seq<Property>, d: seq<Property>,
                                   e: seq<Property>, last: Property)
    ensures var all := ([first] + a) + b + c + d + (e + [last]); all[1..|all| - 1] == a + b + c + d + e
  {
    var middle := a + b + c + d + e;
    var all := ([first] + a) + b + c + d + (e + [last]);
    assert all == [first] + middle + [last];
  }

  const MARKS := [Property("TRANSP", "OPAQUE"), Property("STATUS", "CONFIRMED")]

  lemma {:induction false} TailParts()
    ensures EVENT_TAIL == MARKS + [END_EVENT]
  {
  }

  lemma {:induction false} InnerParts(e: Event, style: Style)
    ensures Inner(e, style) == Required(e, style) + TextField("LOCATION", e.location)
                               + TextField("DESCRIPTION", e.description) + RuleField(e.rrule) + MARKS
  {
    HeadParts(e, style);
    TailParts();
    hide EventHead, Required, TextField, RuleField, MARKS, EVENT_TAIL, BEGIN_EVENT, END_EVENT;
    Between(BEGIN_EVENT, Required(e, style), TextField("LOCATION", e.location), TextField("DESCRIPTION", e.description),
            RuleField(e.rrule), MARKS, END_EVENT);
  }

  lemma {:induction false} RequiredParts(e: Event, style: Style)
    ensures Required(e, style) ==
            [Property("UID", Escape(e.uid))] + ([Property("DTSTAMP", style.stamp)]
            + ([Property("LAST-MODIFIED", style.stamp)] + ([Property("SEQUENCE", Signed(e.sequence))]
            + ([Property("DTSTART;TZID=" + style.timezone, Stamp(e.start))]
            + ([Property("DTEND;TZID=" + style.timezone, Stamp(e.end))]
            + ([Property("SUMMARY", Escape(e.summary))] + []))))))
  {
  }

  /** Which of the required properties of an event has the given name. */
  lemma {:induction false} LookupRequired(e: Event, style: Style, name: string)
    ensures Lookup(Required(e, style), name) ==
            if name == "UID" then Some(Escape(e.uid))
            else if name == "DTSTAMP" || name == "LAST-MODIFIED" then Some(style.stamp)
            else if name == "SEQUENCE" then Some(Signed(e.sequence))
            else if name == "DTSTART;TZID=" + style.timezone then Some(Stamp(e.start))
            else if name == "DTEND;TZID=" + style.timezone then Some(Stamp(e.end))
            else if name == "SUMMARY" then Some(Escape(e.summary))
            else None
  {
    hide Required, Escape, Signed, Lookup;
    RequiredParts(e, style);
    var p0 := Property("SUMMARY", Escape(e.summary));
    var p1 := Property("DTEND;TZID=" + style.timezone, Stamp(e.end));
    var p2 := Property("DTSTART;TZID=" + style.timezone, Stamp(e.start));
    var p3 := Property("SEQUENCE", Signed(e.sequence));
    var p4 := Property("LAST-MODIFIED", style.stamp);
    var p5 := Property("DTSTAMP", style.stamp);
    LookupCons(p0, [], name);
    LookupNone(name);
    LookupCons(p1, [p0] + [], name);
    LookupCons(p2, [p1] + ([p0] + []), name);
    LookupCons(p3, [p2] + ([p1] + ([p0] + [])), name);
    LookupCons(p4, [p3] + ([p2] + ([p1] + ([p0] + []))), name);
    LookupCons(p5, [p4] + ([p3] + ([p2] + ([p1] + ([p0] + [])))), name);
    LookupCons(Property("UID", Escape(e.uid)), [p5] + ([p4] + ([p3] + ([p2] + ([p1] + ([p0] + []))))), name);
  }

  lemma {:induction false} LookupNone(name: string)
    ensures Lookup([], name) == None
  {
  }

  lemma {:induction false} LookupOptional(e: Event, name: string)
    ensures Lookup(TextField("LOCATION", e.location), name) ==
            if name == "LOCATION" && e.location != "" then Some(Escape(e.location)) else None
    ensures Lookup(TextField("DESCRIPTION", e.description), name) ==
            if name == "DESCRIPTION" && e.description != "" then Some(Escape(e.description)) else None
    ensures Lookup(RuleField(e.rrule), name) ==
            if name == "RRULE" && e.rrule.Some? && e.rrule.value != "" then e.rrule else None
  {
    hide Escape;
    LookupNone(name);
  }

  lemma {:induction false} LookupInner(e: Event, style: Style, name: string)
    ensures Lookup(Inner(e, style), name) ==
            if Lookup(Required(e, style), name).Some? then Lookup(Required(e, style), name)
            else if Lookup(TextField("LOCATION", e.location), name).Some? then Lookup(TextField("LOCATION", e.location), name)
            else if Lookup(TextField("DESCRIPTION", e.description), name).Some?
            then Lookup(TextField("DESCRIPTION", e.description), name)
            else if Lookup(RuleField(e.rrule), name).Some? then Lookup(RuleField(e.rrule), name)
            else Lookup(MARKS, name)
  {
    hide Required, TextField, RuleField, Lookup, Inner;
    InnerParts(e, style);
    var a, b, c, d := Required(e, style), TextField("LOCATION", e.location),
                      TextField("DESCRIPTION", e.description), RuleField(e.rrule);
    LookupConcat(a + b + c + d, MARKS, name);
    LookupConcat(a + b + c, d, name);
    LookupConcat(a + b, c, name);
    LookupConcat(a, b, name);
  }

  lemma {:induction false} ZonedNamesDiffer(timezone: string)
    ensures var from, to := "DTSTART;TZID=" + timezone, "DTEND;TZID=" + timezone;
            from != to && from !in {"UID", "DTSTAMP", "LAST-MODIFIED", "SEQUENCE"}
            && to !in {"UID", "DTSTAMP", "LAST-MODIFIED", "SEQUENCE"}
  {
    var from, to := "DTSTART;TZID=" + timezone, "DTEND;TZID=" + timezone;
    assert from[0] == 'D' && to[0] == 'D' && from[2] == 'S' && to[2] == 'E';
    assert |from| > 8 && |to| > 8;
  }

  lemma {:induction false} OptionalNamesDiffer(timezone: string)
    ensures var from, to := "DTSTART;TZID=" + timezone, "DTEND;TZID=" + timezone;
            from !in {"LOCATION", "DESCRIPTION", "RRULE"} && to !in {"LOCATION", "DESCRIPTION", "RRULE"}
  {
    var from, to := "DTSTART;TZID=" + timezone, "DTEND;TZID=" + timezone;
    assert |from| > 8 && |to| > 8;
    assert from[1] == 'T' && to[1] == 'T';
  }

  lemma {:induction false} LookupField(e: Event, style: Style, name: string)
    requires name != "TRANSP" && name != "STATUS"
    ensures Lookup(Inner(e, style), name) ==
            if name == "UID" then Some(Escape(e.uid))
            else if name == "DTSTAMP" || name == "LAST-MODIFIED" then Some(style.stamp)
            else if name == "SEQUENCE" then Some(Signed(e.sequence))
            else if name == "DTSTART;TZID=" + style.timezone then Some(Stamp(e.start))
            else if name == "DTEND;TZID=" + style.timezone then Some(Stamp(e.end))
            else if name == "SUMMARY" then Some(Escape(e.summary))
            else if name == "LOCATION" && e.location != "" then Some(Escape(e.location))
            else if name == "DESCRIPTION" && e.description != "" then Some(Escape(e.description))
            else if name == "RRULE" && e.rrule.Some? && e.rrule.value != "" then e.rrule
            else None
  {
    assert Lookup(MARKS, name) == None by {
      var status := Property("STATUS", "CONFIRMED");
      LookupNone(name);
      LookupCons(status, [], name);
      LookupCons(Property("TRANSP", "OPAQUE"), [status] + [], name);
      assert MARKS == [Property("TRANSP", "OPAQUE")] + ([status] + []);
    }
    hide Inner, Required, TextField, RuleField, Escape, Lookup, Signed;
    LookupInner(e, style, name);
    LookupRequired(e, style, name);
    LookupOptional(e, name);
  }

  lemma {:induction false} StatusIsNoOther(timezone: string)
    ensures "STATUS" !in {"UID", "DTSTAMP", "LAST-MODIFIED", "SEQUENCE", "SUMMARY", "LOCATION", "DESCRIPTION", "RRULE"}
    ensures "STATUS" != "DTSTART;TZID=" + timezone && "STATUS" != "DTEND;TZID=" + timezone
    ensures Lookup(MARKS, "STATUS") == Some("CONFIRMED")
  {
    var status := "STATUS";
    assert |status| == 6 && status[0] == 'S';
    assert ("DTSTART;TZID=" + timezone)[0] == 'D' && ("DTEND;TZID=" + timezone)[0] == 'D';
    var confirmed := Property("STATUS", "CONFIRMED");
    LookupCons(confirmed, [], "STATUS");
    assert Property("TRANSP", "OPAQUE").name[0] == 'T';
    LookupCons(Property("TRANSP", "OPAQUE"), [confirmed] + [], "STATUS");
    assert MARKS == [Property("TRANSP", "OPAQUE")] + ([confirmed] + []);
  }

  lemma {:induction false} LookupStatus(e: Event, style: Style)
    ensures Lookup(Inner(e, style), "STATUS") == Some("CONFIRMED")
  {
    StatusIsNoOther(style.timezone);
    hide Inner, Required, TextField, RuleField, Escape, Lookup, Signed, Stamp, MARKS;
    LookupInner(e, style, "STATUS");
    LookupRequired(e, style, "STATUS");
    LookupOptional(e, "STATUS");
  }

  /** Reading the properties of an event gives its fields. */
  lemma {:induction false} FieldsReadBack(e: Event, style: Style)
    ensures ReadFields(Inner(e, style), style.timezone) == FieldsOf(e, style)
  {
    hide Inner, Lookup, Escape, Unescape, Signed, Stamp, ReadStamp;
    ZonedNamesDiffer(style.timezone);
    OptionalNamesDiffer(style.timezone);
    assert |"DTSTART;TZID=" + style.timezone| > 7 && |"DTEND;TZID=" + style.timezone| > 7;
    LookupField(e, style, "UID");
    LookupField(e, style, "SUMMARY");
    LookupField(e, style, "LOCATION");
    LookupField(e, style, "DESCRIPTION");
    LookupField(e, style, "RRULE");
    LookupField(e, style, "SEQUENCE");
    LookupStatus(e, style);
    LookupField(e, style, "DTSTART;TZID=" + style.timezone);
    LookupField(e, style, "DTEND;TZID=" + style.timezone);
    EscapeRoundTrip(e.uid);
    EscapeRoundTrip(e.summary);
    EscapeRoundTrip(e.location);
    EscapeRoundTrip(e.description);
    StampReadsBack(e.start);
    StampReadsBack(e.end);
  }

  // ----- reading back the whole calendar -----

  predicate Free(props: seq<Property>, p: Property) {
    forall i | 0 <= i < |props| :: props[i] != p
  }

  lemma {:induction false} BlocksSkip(props: seq<Property>, rest: seq<Property>)
    requires Free(props, BEGIN_EVENT)
    ensures EventBlocks(props + rest) == EventBlocks(rest)
  {
    if props == [] {
      assert props + rest == rest;
    } else {
      BlocksSkip(props[1..], rest);
      assert (props + rest)[1..] == props[1..] + rest;
    }
  }

  lemma {:induction false} BeforeFirst(props: seq<Property>, p: Property, rest: seq<Property>)
    requires Free(props, p)
    ensures Before(props + [p] + rest, p) == |props|
  {
    if props == [] {
      assert (props + [p] + rest)[0] == p;
    } else {
      BeforeFirst(props[1..], p, rest);
      assert (props + [p] + rest)[1..] == props[1..] + [p] + rest;
    }
  }

  lemma {:induction false} BlockRead(inner: seq<Property>, rest: seq<Property>)
    requires Free(inner, END_EVENT)
    ensures EventBlocks([BEGIN_EVENT] + inner + [END_EVENT] + rest) == [inner] + EventBlocks(rest)
  {
    var front := [BEGIN_EVENT] + inner;
    var all := front + [END_EVENT] + rest;
    assert BEGIN_EVENT != END_EVENT;
    BeforeFirst(front, END_EVENT, rest);
    assert all[1..|front|] == inner;
    assert all[|front|..] == [END_EVENT] + rest;
    BlocksSkip([END_EVENT], rest);
  }

  lemma {:induction false} RequiredFree(e: Event, style: Style)
    ensures Free(Required(e, style), END_EVENT)
  {
  }

  lemma {:induction false} InnerFree(e: Event, style: Style)
    ensures Free(Inner(e, style), END_EVENT)
    ensures EventProperties(e, style) == [BEGIN_EVENT] + Inner(e, style) + [END_EVENT]
  {
    EventEnds(e, style);
    OptionalFree(e);
    InnerParts(e, style);
    RequiredFree(e, style);
    hide Required, EventProperties, TextField, RuleField;
    assert Free(MARKS, END_EVENT);
  }

  lemma {:induction false} EventEnds(e: Event, style: Style)
    ensures var all := EventProperties(e, style);
            |all| >= 2 && all[0] == BEGIN_EVENT && all[|all| - 1] == END_EVENT
  {
    HeadParts(e, style);
    hide EventHead, Required, TextField, RuleField;
    assert EVENT_TAIL[2] == END_EVENT;
  }

  lemma {:induction false} OptionalFree(e: Event)
    ensures Free(TextField("LOCATION", e.location), END_EVENT)
    ensures Free(TextField("DESCRIPTION", e.description), END_EVENT)
    ensures Free(RuleField(e.rrule), END_EVENT)
  {
    hide Escape;
  }

  function Inners(events: seq<Event>, style: Style): seq<seq<Property>> {
    if events == [] then [] else [Inner(events[0], style)] + Inners(events[1..], style)
  }

  lemma {:induction false} EventsFront(events: seq<Event>, style: Style)
    requires events != []
    ensures EventsProperties(events, style) == EventProperties(events[0], style) + EventsProperties(events[1..], style)
  {
    hide EventProperties;
    var n := |events| - 1;
    if n == 0 {
      assert events[..0] == [] && events[1..] == [];
    } else {
      EventsFront(events[..n], style);
      assert events[..n][1..] == events[1..][..n - 1];
    }
  }

  lemma {:induction false} BlocksOfEvents(events: seq<Event>, style: Style, rest: seq<Property>)
    ensures EventBlocks(EventsProperties(events, style) + rest) == Inners(events, style) + EventBlocks(rest)
  {
    hide EventProperties, Inner;
    if events == [] {
      assert EventsProperties(events, style) + rest == rest;
    } else {
      EventsFront(events, style);
      var tail := EventsProperties(events[1..], style) + rest;
      InnerFree(events[0], style);
      BlockRead(Inner(events[0], style), tail);
      assert EventsProperties(events, style) + rest
          == [BEGIN_EVENT] + Inner(events[0], style) + [END_EVENT] + tail;
      BlocksOfEvents(events[1..], style, rest);
    }
  }

  lemma {:induction false} HeaderFree(style: Style)
    ensures Free(Header(style), BEGIN_EVENT)
  {
    hide Escape, RefreshText;
    assert Free(CALENDAR_HEAD, BEGIN_EVENT);
    assert Free(Naming(style), BEGIN_EVENT);
    assert Free(STANDARD_ZONE, BEGIN_EVENT);
  }

  lemma {:induction false} AllFieldsReadBack(events: seq<Event>, style: Style)
    ensures ReadAll(Inners(events, style), style.timezone) == AllFieldsOf(events, style)
  {
    if events != [] {
      hide Inner, FieldsOf, ReadFields;
      FieldsReadBack(events[0], style);
      AllFieldsReadBack(events[1..], style);
      assert Inners(events, style)[1..] == Inners(events[1..], style);
    }
  }

  lemma {:induction false} BlocksOfNothing()
    ensures EventBlocks([]) == []
  {
  }

  lemma {:induction false} BlocksOfCalendar(events: seq<Event>, style: Style)
    ensures EventBlocks(CalendarProperties(events, style)) == Inners(events, style)
  {
    hide Header, EventsProperties, EventBlocks, Inners;
    var last := [Property("END", "VCALENDAR")];
    HeaderFree(style);
    BlocksSkip(Header(style), EventsProperties(events, style) + last);
    BlocksOfEvents(events, style, last);
    BlocksSkip(last, []);
    BlocksOfNothing();
    assert last + [] == last;
    assert Header(style) + EventsProperties(events, style) + last == Header(style) + (EventsProperties(events, style) + last);
  }

  /** Reading a rendered calendar gives the fields of every event, in order, with line breaks normalised. */
  lemma {:induction false} CalendarReadsBack(events: seq<Event>, style: Style)
    requires IsStyle(style) && forall i | 0 <= i < |events| :: IsPrintable(events[i])
    ensures var text := Printed(Lines(CalendarProperties(events, style)));
            && ReadCalendar(text, style.timezone) == AllFieldsOf(events, style)
            && forall p | p in PhysicalLines(text) :: Octets(p) <= MAX_OCTETS
  {
    hide CalendarProperties, Inners, EventBlocks, Lines, ReadLines, PhysicalLines;
    AllCalendarProperties(events, style);
    PrintedPropertiesReadBack(CalendarProperties(events, style));
    BlocksOfCalendar(events, style);
    AllFieldsReadBack(events, style);
  }

  // ----- reading back the time zone -----

  /** The minutes an offset like `+0800` lies east of UTC. */
  function ReadOffset(s: string): Option<int> {
    if |s| == 5 && (s[0] == '+' || s[0] == '-') && IsDigit(s[1]) && IsDigit(s[2]) && IsDigit(s[3]) && IsDigit(s[4]) then
      var minutes := (s[1] as int - 48) * 600 + (s[2] as int - 48) * 60 + (s[3] as int - 48) * 10 + (s[4] as int - 48);
      Some(if s[0] == '-' then 0 - minutes else minutes)
    else None
  }

  /** The zone of a calendar text and its offset from UTC, if it is the same before and after its only change. */
  function ReadZone(text: string): Option<(string, int)> {
    var props := ReadLines(LogicalLines(text));
    match (Lookup(props, "TZID"), Lookup(props, "TZOFFSETFROM"), Lookup(props, "TZOFFSETTO"))
    case (Some(zone), Some(from), Some(to)) =>
      if from == to && ReadOffset(to).Some? then Some((zone, ReadOffset(to).value)) else None
    case _ => None
  }

  lemma {:induction false} HeadLacksZone(style: Style)
    ensures Lookup(CALENDAR_HEAD, "TZID") == None
    ensures Lookup(CALENDAR_HEAD, "TZOFFSETFROM") == None && Lookup(CALENDAR_HEAD, "TZOFFSETTO") == None
  {
  }

  lemma {:induction false} LookupAt(props: seq<Property>, name: string, i: nat)
    requires i <= |props| && forall k | 0 <= k < i :: props[k].name != name
    requires i < |props| ==> props[i].name == name
    ensures Lookup(props, name) == if i < |props| then Some(props[i].value) else None
  {
    if i > 0 {
      LookupAt(props[1..], name, i - 1);
    }
  }

  lemma {:induction false} NamingHasZone(style: Style)
    ensures Lookup(Naming(style), "TZID") == Some(style.timezone)
    ensures Lookup(Naming(style), "TZOFFSETFROM") == None && Lookup(Naming(style), "TZOFFSETTO") == None
  {
    var props := Naming(style);
    NamingLengths(style);
    assert props[5].value == style.timezone && props[5].name == "TZID" && |"TZOFFSETFROM"| == 12 && |"TZOFFSETTO"| == 10;
    assert props[0].name[0] == 'X';
    hide Naming, Lookup;
    LookupAt(props, "TZID", 5);
    LookupAt(props, "TZOFFSETFROM", 7);
    LookupAt(props, "TZOFFSETTO", 7);
  }

  lemma {:induction false} NamingLengths(style: Style)
    ensures var props := Naming(style);
            && |props| == 7 && |props[0].name| == 12 && |props[1].name| == 13 && |props[2].name| == 31 && |props[3].name| == 15
            && |props[4].name| == 5 && |props[5].name| == 4 && |props[6].name| == 14
  {
    hide Escape, RefreshText;
  }

  lemma {:induction false} StandardHasOffsets()
    ensures Lookup(STANDARD_ZONE, "TZOFFSETFROM") == Some("+0800") && Lookup(STANDARD_ZONE, "TZOFFSETTO") == Some("+0800")
    ensures ReadOffset("+0800") == Some(480)
  {
  }

  lemma {:induction false} LookupHeader(events: seq<Event>, style: Style, name: string)
    ensures Lookup(CalendarProperties(events, style), name) ==
            if Lookup(CALENDAR_HEAD, name).Some? then Lookup(CALENDAR_HEAD, name)
            else if Lookup(Naming(style), name).Some? then Lookup(Naming(style), name)
            else if Lookup(STANDARD_ZONE, name).Some? then Lookup(STANDARD_ZONE, name)
            else Lookup(EventsProperties(events, style) + [Property("END", "VCALENDAR")], name)
  {
    hide CALENDAR_HEAD, Naming, STANDARD_ZONE, Lookup, EventsProperties;
    var rest := EventsProperties(events, style) + [Property("END", "VCALENDAR")];
    assert CalendarProperties(events, style) == (CALENDAR_HEAD + Naming(style) + STANDARD_ZONE) + rest;
    LookupConcat(CALENDAR_HEAD + Naming(style) + STANDARD_ZONE, rest, name);
    LookupConcat(CALENDAR_HEAD + Naming(style), STANDARD_ZONE, name);
    LookupConcat(CALENDAR_HEAD, Naming(style), name);
  }

  /** The rendered text puts its zone eight hours east of UTC all year. */
  lemma {:induction false} ZoneReadsBack(events: seq<Event>, style: Style)
    requires IsStyle(style) && forall i | 0 <= i < |events| :: IsPrintable(events[i])
    ensures ReadZone(Printed(Lines(CalendarProperties(events, style)))) == Some((style.timezone, 8 * 60))
  {
    AllCalendarProperties(events, style);
    PrintedPropertiesReadBack(CalendarProperties(events, style));
    HeadLacksZone(style);
    NamingHasZone(style);
    StandardHasOffsets();
    LookupHeader(events, style, "TZID");
    LookupHeader(events, style, "TZOFFSETFROM");
    LookupHeader(events, style, "TZOFFSETTO");
    hide CALENDAR_HEAD, Naming, STANDARD_ZONE, Lookup, CalendarProperties, ReadOffset, Lines, Printed, ReadLines, LogicalLines;
  }
}
