/** app/calendar/config.py: `parse_config`, which validates a JSON payload, and `to_dict`, which prints a configuration back. */
module ConfigParser {
  import opened PyText
  import opened CalendarTime
  import opened CalendarConfig

  /** JSON values; `Other` stands for a value of another kind, as `str` prints it. */
  datatype Json =
    | Null
    | Boolean(b: bool)
    | Number(n: int)
    | Text(s: string)
    | Array(items: seq<Json>)
    | Object(members: seq<Member>)
    | Other(printed: string)

  /** A member of an object; an object has each key once, in the order written. */
  datatype Member = Member(key: string, value: Json)

  datatype Error =
    | NotAnObject
    | BadPeriodKey(key: string)
    | PeriodOutOfRange(index: int)
    | BadTimes
    | NoPeriods
    | BadBlockCode(key: string)
    | BadBlock(key: string)
    | BadWeekday(key: string)
    | RepeatedWeekday
    | BadSemester(key: string)
    | BadTerm(key: string)
    | BadDate
    | BadOffset(key: string)
    | BadConflict
    | Crash

  /** Reading and printing dates as `date.fromisoformat` and `isoformat` do. */
  datatype Dates = Dates(read: string -> Option<Date>, show: Date -> string)

  ghost predicate IsFaithful(dates: Dates) {
    forall s, d | dates.read(s) == Some(d) :: dates.read(dates.show(d)) == Some(d) && Strip(dates.show(d)) == dates.show(d)
  }

  // ----- small readers -----

  /** `bool(value)`. */
  predicate IsTruthy(j: Json) {
    match j
    case Null => false
    case Boolean(b) => b
    case Number(n) => n != 0
    case Text(s) => s != ""
    case Array(items) => items != []
    case Object(members) => members != []
    case Other(_) => true
  }

  function TextOf(j: Json): string {
    match j
    case Null => "None"
    case Boolean(b) => if b then "True" else "False"
    case Number(n) => if n < 0 then "-" + Decimal(-n) else Decimal(n)
    case Text(s) => s
    case Array(_) => "[]"
    case Object(_) => "{}"
    case Other(printed) => printed
  }

  /** `int(value)`; none when it raises. */
  function IntOf(j: Json): Option<int> {
    match j
    case Boolean(b) => Some(if b then 1 else 0)
    case Number(n) => Some(n)
    case Text(s) => ParseInt(s)
    case _ => None
  }

  function Find(members: seq<Member>, key: string): Option<Json> {
    if members == [] then None
    else if members[0].key == key then Some(members[0].value)
    else Find(members[1..], key)
  }

  /** `(payload.get(key) or {}).items()`; a true value that is no object raises. */
  function Section(members: seq<Member>, key: string): Result<seq<Member>, Error> {
    match Find(members, key)
    case None => Success([])
    case Some(j) =>
      if !IsTruthy(j) then Success([])
      else match j
        case Object(inner) => Success(inner)
        case _ => Failure(Crash)
  }

  /** The text without the one line feed that `$` lets stand at the end of a match. */
  function Line(s: string): string {
    if s != [] && s[|s| - 1] == '\n' then s[..|s| - 1] else s
  }

  predicate IsPeriodKey(s: string) {
    Line(s) != [] && AllDigits(Line(s))
  }

  predicate IsBlockCode(s: string) {
    var parts := Split(Line(s), '_');
    |parts| == 2 && parts[0] != [] && AllDigits(parts[0]) && AllDigits(parts[1])
  }

  predicate IsSemester(s: string) {
    var t := Line(s);
    && |t| == 11 && t[4] == '-' && t[9] == '-' && '1' <= t[10] <= '2'
    && AllDigits(t[..4]) && AllDigits(t[5..9])
  }

  /** `upper`, on the letters that can make a weekday. */
  function UpperChar(c: char): char {
    if 'a' <= c <= 'z' then (c as int - 32) as char else if c == 'ſ' then 'S' else c
  }

  function Upper(s: string): string {
    seq(|s|, i requires 0 <= i < |s| => UpperChar(s[i]))
  }

  // ----- one entry of each section -----

  function ReadTimes(value: Json): Result<Window, Error> {
    match value
    case Array(items) =>
      if |items| != 2 then Failure(BadTimes)
      else
        var start, end := Strip(TextOf(items[0])), Strip(TextOf(items[1]));
        if IsClock(start) && IsClock(end) && Less(start, end) then Success((start, end)) else Failure(BadTimes)
    case _ => Failure(BadTimes)
  }

  function ReadPeriod(m: Member): Result<Option<(int, Window)>, Error> {
    if !IsPeriodKey(m.key) then Failure(BadPeriodKey(m.key))
    else
      match ParseInt(m.key)
      case None => Failure(Crash)
      case Some(index) =>
        if !(1 <= index <= 30) then Failure(PeriodOutOfRange(index))
        else
          var w :- ReadTimes(m.value);
          Success(Some((index, w)))
  }

  /** Entries of `period_source` with other keys are passed over. */
  function ReadSource(m: Member): Result<Option<(int, string)>, Error> {
    if !IsPeriodKey(m.key) then Success(None)
    else
      match ParseInt(m.key)
      case None => Failure(Crash)
      case Some(index) => Success(Some((index, TextOf(m.value))))
  }

  function ReadInts(items: seq<Json>): Option<seq<int>> {
    if items == [] then Some([])
    else
      match (IntOf(items[0]), ReadInts(items[1..]))
      case (Some(n), Some(rest)) => Some([n] + rest)
      case _ => None
  }

  function ReadBlock(m: Member, periods: set<int>): Result<Option<(string, seq<int>)>, Error> {
    if !IsBlockCode(m.key) then Failure(BadBlockCode(m.key))
    else
      match m.value
      case Array(items) =>
        (match ReadInts(items)
         case None => Failure(Crash)
         case Some(nums) =>
           if nums == [] || exists n :: n in nums && n !in periods then Failure(BadBlock(m.key))
           else Success(Some((m.key, nums))))
      case _ => Failure(BadBlock(m.key))
  }

  function ReadDay(m: Member): Result<Option<(string, string)>, Error> {
    var token := Upper(Strip(TextOf(m.value)));
    if token in WEEKDAYS then Success(Some((m.key, token))) else Failure(BadWeekday(m.key))
  }

  function ReadDate(dates: Dates, j: Json): Option<Date> {
    dates.read(Strip(TextOf(j)))
  }

  function ReadDates(dates: Dates, items: seq<Json>): Option<seq<Date>> {
    if items == [] then Some([])
    else
      match (ReadDate(dates, items[0]), ReadDates(dates, items[1..]))
      case (Some(d), Some(rest)) => Some([d] + rest)
      case _ => None
  }

  /** `item.get(key, default)`. */
  function Get(members: seq<Member>, key: string, default: Json): Json {
    match Find(members, key)
    case Some(j) => j
    case None => default
  }

  function Characters(s: string): seq<Json> {
    seq(|s|, i requires 0 <= i < |s| => Text([s[i]]))
  }

  function KeysOf(members: seq<Member>): seq<Json> {
    seq(|members|, i requires 0 <= i < |members| => Text(members[i].key))
  }

  /** What a `for` loop over `value or []` goes through; none when it raises. */
  function Iterated(j: Json): Option<seq<Json>> {
    if !IsTruthy(j) then Some([])
    else
      match j
      case Array(items) => Some(items)
      case Text(s) => Some(Characters(s))
      case Object(members) => Some(KeysOf(members))
      case _ => None
  }

  function ReadTerm(dates: Dates, m: Member): Result<Option<(string, Term)>, Error> {
    if !IsSemester(m.key) then Failure(BadSemester(m.key))
    else
      match m.value
      case Object(item) =>
        (var monday := ReadDate(dates, Get(item, "monday", Null));
         var start := ReadDate(dates, Get(item, "teaching_start", Get(item, "monday", Null)));
         var weeks := IntOf(Get(item, "weeks", Number(20)));
         var days := Iterated(Get(item, "exdates", Null));
         if monday.None? then Failure(BadDate)
         else if monday.value % 7 != 1 then Failure(BadTerm(m.key))
         else if start.None? then Failure(BadDate)
         else if start.value < monday.value then Failure(BadTerm(m.key))
         else if weeks.None? then Failure(Crash)
         else if !(1 <= weeks.value <= 30) then Failure(BadTerm(m.key))
         else if days.None? then Failure(Crash)
         else
           match ReadDates(dates, days.value)
           case None => Failure(BadDate)
           case Some(exdates) => Success(Some((m.key, Term(m.key, monday.value, start.value, weeks.value, exdates)))))
      case _ => Failure(BadTerm(m.key))
  }

  function ReadOffset(m: Member): Result<Option<(string, int)>, Error> {
    match IntOf(m.value)
    case None => Failure(Crash)
    case Some(n) => Success(Some((m.key, n)))
  }

  /** The first name whose offset is out of range. */
  function FirstBad(members: seq<Member>, offsets: map<string, int>): Option<string> {
    if members == [] then None
    else if members[0].key in offsets && !(0 <= offsets[members[0].key] <= 10) then Some(members[0].key)
    else FirstBad(members[1..], offsets)
  }

  // ----- sections -----

  /** The dictionary a loop over the members fills; a later entry for the same key replaces an earlier one. */
  function Fold<K, V>(members: seq<Member>, read: Member -> Result<Option<(K, V)>, Error>): Result<map<K, V>, Error> {
    if members == [] then Success(map[])
    else
      var m :- Fold(members[..|members| - 1], read);
      var entry :- read(members[|members| - 1]);
      Success(match entry case None => m case Some((k, v)) => m[k := v])
  }

  method Fill<K(==), V>(members: seq<Member>, read: Member -> Result<Option<(K, V)>, Error>) returns (r: Result<map<K, V>, Error>)
    ensures r == Fold(members, read)
  {
    var filled: map<K, V> := map[];
    assert members[..|members|] == members;
    for i := 0 to |members|
      invariant Fold(members[..i], read) == Success(filled)
    {
      assert members[..i + 1][..i] == members[..i];
      match read(members[i]) {
        case Failure(e) =>
          FoldFails(members, i, read);
          return Failure(e);
        case Success(None) =>
        case Success(Some((k, v))) =>
          filled := filled[k := v];
      }
    }
    return Success(filled);
  }

  lemma {:induction false} FoldFails<K, V>(members: seq<Member>, i: nat, read: Member -> Result<Option<(K, V)>, Error>)
    requires i < |members| && Fold(members[..i], read).Success? && read(members[i]).Failure?
    ensures Fold(members, read) == Failure(read(members[i]).error)
  {
    var n := |members| - 1;
    if i < n {
      assert members[..n][..i] == members[..i];
      FoldFails(members[..n], i, read);
    }
  }

  // ----- the whole configuration -----

  function ReadConflict(members: seq<Member>): Result<string, Error> {
    var s := Strip(TextOf(Get(members, "on_conflict", Text("trust_course"))));
    if s == "trust_course" || s == "skip" then Success(s) else Failure(BadConflict)
  }

  predicate IsInjective(m: map<string, string>) {
    |m.Values| == |m|
  }

  /** A section read into a dictionary. */
  function ReadSection<K, V>(members: seq<Member>, key: string, read: Member -> Result<Option<(K, V)>, Error>)
    : Result<map<K, V>, Error>
  {
    var inner :- Section(members, key);
    Fold(inner, read)
  }

  function ReadPeriods(members: seq<Member>): Result<map<int, Window>, Error> {
    var periods :- ReadSection(members, "periods", ReadPeriod);
    if periods == map[] then Failure(NoPeriods) else Success(periods)
  }

  function ReadDays(members: seq<Member>): Result<map<string, string>, Error> {
    var days :- ReadSection(members, "day_code_map", ReadDay);
    if IsInjective(days) then Success(days) else Failure(RepeatedWeekday)
  }

  /** All offsets are read before the first one is checked. */
  function ReadOffsets(members: seq<Member>): Result<map<string, int>, Error> {
    var inner :- Section(members, "student_week_offset");
    var offsets :- Fold(inner, ReadOffset);
    match FirstBad(inner, offsets)
    case Some(name) => Failure(BadOffset(name))
    case None => Success(offsets)
  }

  function ReadVersion(members: seq<Member>): Result<int, Error> {
    match IntOf(Get(members, "version", Number(1)))
    case None => Failure(Crash)
    case Some(version) => Success(version)
  }

  /** The dictionaries of the timetable grid. */
  datatype Grid = Grid(periods: map<int, Window>, source: map<int, string>, blocks: map<string, seq<int>>, days: map<string, string>)

  function ReadGrid(members: seq<Member>): Result<Grid, Error> {
    var periods :- ReadPeriods(members);
    var source :- ReadSection(members, "period_source", ReadSource);
    var blocks :- ReadSection(members, "block_codes", (m: Member) => ReadBlock(m, periods.Keys));
    var days :- ReadDays(members);
    Success(Grid(periods, source, blocks, days))
  }

  function ReadCalendar(members: seq<Member>, dates: Dates, grid: Grid): Result<Config, Error> {
    var terms :- ReadSection(members, "terms", (m: Member) => ReadTerm(dates, m));
    var offsets :- ReadOffsets(members);
    var conflict :- ReadConflict(members);
    var version :- ReadVersion(members);
    Success(Config(grid.periods, grid.source, grid.blocks, grid.days, terms, offsets, conflict, version))
  }

  /** `parse_config`. */
  function Parse(payload: Json, dates: Dates): Result<Config, Error> {
    match payload
    case Object(members) =>
      var grid :- ReadGrid(members);
      ReadCalendar(members, dates, grid)
    case _ => Failure(NotAnObject)
  }

  method FillSection<K(==), V>(members: seq<Member>, key: string, read: Member -> Result<Option<(K, V)>, Error>)
    returns (r: Result<map<K, V>, Error>)
    ensures r == ReadSection(members, key, read)
  {
    var inner :- Section(members, key);
    r := Fill(inner, read);
  }

  method FillOffsets(members: seq<Member>) returns (r: Result<map<string, int>, Error>)
    ensures r == ReadOffsets(members)
  {
    var inner :- Section(members, "student_week_offset");
    var offsets :- Fill(inner, ReadOffset);
    for i := 0 to |inner|
      invariant FirstBad(inner, offsets) == FirstBad(inner[i..], offsets)
    {
      var name := inner[i].key;
      assert inner[i..][1..] == inner[i + 1..];
      if name in offsets && !(0 <= offsets[name] <= 10) {
        return Failure(BadOffset(name));
      }
    }
    return Success(offsets);
  }

  method ParseConfig(payload: Json, dates: Dates) returns (r: Result<Config, Error>)
    ensures r == Parse(payload, dates)
  {
    hide ReadSection, ReadPeriod, ReadSource, ReadBlock, ReadDay, ReadTerm, ReadOffsets, ReadConflict, ReadVersion, IsInjective;
    if !payload.Object? {
      return Failure(NotAnObject);
    }
    var members := payload.members;
    var periods :- FillSection(members, "periods", ReadPeriod);
    if periods == map[] {
      return Failure(NoPeriods);
    }
    var source :- FillSection(members, "period_source", ReadSource);
    var blocks :- FillSection(members, "block_codes", (m: Member) => ReadBlock(m, periods.Keys));
    var days :- FillSection(members, "day_code_map", ReadDay);
    if !IsInjective(days) {
      return Failure(RepeatedWeekday);
    }
    var terms :- FillSection(members, "terms", (m: Member) => ReadTerm(dates, m));
    var offsets :- FillOffsets(members);
    var conflict :- ReadConflict(members);
    var version :- ReadVersion(members);
    return Success(Config(periods, source, blocks, days, terms, offsets, conflict, version));
  }

  // ----- what an accepted configuration satisfies -----

  ghost predicate ReadsBack(dates: Dates, d: Date) {
    dates.read(dates.show(d)) == Some(d) && Strip(dates.show(d)) == dates.show(d)
  }

  ghost predicate HasDates(dates: Dates, t: Term) {
    ReadsBack(dates, t.monday) && ReadsBack(dates, t.teachingStart) && forall i | 0 <= i < |t.exdates| :: ReadsBack(dates, t.exdates[i])
  }

  /** Beyond its meaning, an accepted configuration has keys and dates that can be written down again. */
  ghost predicate Printable(c: Config, dates: Dates) {
    && (forall k: int | k in c.periodSource :: k >= 0 && |Decimal(k)| <= MAX_DIGITS)
    && (forall code | code in c.blockCodes :: IsBlockCode(code))
    && (forall s | s in c.terms :: IsSemester(s) && HasDates(dates, c.terms[s]))
  }

  /** Every entry of the dictionary was read from some member. */
  lemma {:induction false} FoldFrom<K, V>(members: seq<Member>, read: Member -> Result<Option<(K, V)>, Error>, k: K)
    returns (i: nat)
    requires Fold(members, read).Success? && k in Fold(members, read).value
    ensures i < |members| && read(members[i]) == Success(Some((k, Fold(members, read).value[k])))
  {
    var n := |members| - 1;
    if read(members[n]).value.Some? && read(members[n]).value.value.0 == k {
      i := n;
    } else {
      i := FoldFrom(members[..n], read, k);
    }
  }

  lemma {:induction false} PeriodsAreValid(members: seq<Member>)
    requires Fold(members, ReadPeriod).Success?
    ensures forall k | k in Fold(members, ReadPeriod).value :: 1 <= k <= 30 && IsWindow(Fold(members, ReadPeriod).value[k])
  {
    var m := Fold(members, ReadPeriod).value;
    forall k | k in m ensures 1 <= k <= 30 && IsWindow(m[k]) {
      var i := FoldFrom(members, ReadPeriod, k);
      hide Fold, ParseInt, IsClock, Less, Strip;
    }
  }

  lemma {:induction false} PeriodKeyIsShort(s: string)
    requires IsPeriodKey(s) && ParseInt(s).Some?
    ensures ParseInt(s).value >= 0 && |Decimal(ParseInt(s).value)| <= MAX_DIGITS
  {
    var t := Line(s);
    assert IsDigit(t[0]) && IsDigit(t[|t| - 1]);
    StripOfLine(s);
    SplitOne(t, '_');
    assert Flatten([t]) == t + Flatten([]) == t;
    DecimalIsShortest(t);
    hide Decimal, Split;
    assert Digits(t) == Some(PyText.Number(t));
  }

  lemma {:induction false} StripOfLine(s: string)
    requires Line(s) != [] && AllDigits(Line(s))
    ensures Strip(s) == Line(s)
  {
    var t := Line(s);
    assert IsDigit(t[0]) && IsDigit(t[|t| - 1]);
    assert s[0] == t[0];
    assert StripLeft(s, IsSpace) == s;
    StripKeeps(t, IsSpace);
    assert StripLeft(t, IsSpace) == t;
    if t != s {
      assert StripRight(s, IsSpace) == StripRight(t, IsSpace);
    }
  }

  lemma {:induction false} SourceIsPrintable(members: seq<Member>)
    requires Fold(members, ReadSource).Success?
    ensures forall k: int | k in Fold(members, ReadSource).value :: k >= 0 && |Decimal(k)| <= MAX_DIGITS
  {
    var m := Fold(members, ReadSource).value;
    forall k: int | k in m ensures k >= 0 && |Decimal(k)| <= MAX_DIGITS {
      var i := FoldFrom(members, ReadSource, k);
      PeriodKeyIsShort(members[i].key);
      hide Fold, ParseInt, IsPeriodKey;
    }
  }

  lemma {:induction false} BlocksAreValid(members: seq<Member>, periods: set<int>)
    requires Fold(members, (m: Member) => ReadBlock(m, periods)).Success?
    ensures var blocks := Fold(members, (m: Member) => ReadBlock(m, periods)).value;
            forall code | code in blocks :: IsBlockCode(code) && blocks[code] != [] && forall p | p in blocks[code] :: p in periods
  {
    var read := (m: Member) => ReadBlock(m, periods);
    var blocks := Fold(members, read).value;
    forall code | code in blocks
      ensures IsBlockCode(code) && blocks[code] != [] && forall p | p in blocks[code] :: p in periods
    {
      var i := FoldFrom(members, read, code);
      hide Fold, IsBlockCode, ReadInts;
    }
  }

  lemma {:induction false} DaysAreValid(members: seq<Member>)
    requires Fold(members, ReadDay).Success?
    ensures forall code | code in Fold(members, ReadDay).value :: Fold(members, ReadDay).value[code] in WEEKDAYS
  {
    var m := Fold(members, ReadDay).value;
    forall code | code in m ensures m[code] in WEEKDAYS {
      var i := FoldFrom(members, ReadDay, code);
      hide Fold, Upper, Strip, TextOf;
    }
  }

  lemma {:induction false} DatesReadBack(dates: Dates, items: seq<Json>)
    requires IsFaithful(dates) && ReadDates(dates, items).Some?
    ensures var ds := ReadDates(dates, items).value; forall i | 0 <= i < |ds| :: ReadsBack(dates, ds[i])
  {
    if items != [] {
      DatesReadBack(dates, items[1..]);
      hide Strip, TextOf;
    }
  }

  lemma {:induction false} TermsAreValid(members: seq<Member>, dates: Dates)
    requires IsFaithful(dates) && Fold(members, (m: Member) => ReadTerm(dates, m)).Success?
    ensures var terms := Fold(members, (m: Member) => ReadTerm(dates, m)).value;
            forall s | s in terms :: IsTerm(terms[s]) && terms[s].semester == s && IsSemester(s) && HasDates(dates, terms[s])
  {
    var read := (m: Member) => ReadTerm(dates, m);
    var terms := Fold(members, read).value;
    forall s | s in terms ensures IsTerm(terms[s]) && terms[s].semester == s && IsSemester(s) && HasDates(dates, terms[s]) {
      var i := FoldFrom(members, read, s);
      TermIsValid(dates, members[i]);
      hide Fold, IsSemester, ReadTerm, HasDates;
    }
  }

  lemma {:induction false} TermIsValid(dates: Dates, m: Member)
    requires IsFaithful(dates) && ReadTerm(dates, m).Success?
    ensures ReadTerm(dates, m).value.Some?
    ensures var (s, t) := ReadTerm(dates, m).value.value;
            IsTerm(t) && t.semester == s == m.key && IsSemester(s) && HasDates(dates, t)
  {
    hide IsSemester, Strip, TextOf, Find;
    var item := m.value.members;
    DatesReadBack(dates, Iterated(Get(item, "exdates", Null)).value);
    hide ReadDates, Iterated, IntOf;
  }

  lemma {:induction false} FirstBadIs(members: seq<Member>, offsets: map<string, int>, i: nat)
    requires i < |members| && FirstBad(members, offsets).None? && members[i].key in offsets
    ensures 0 <= offsets[members[i].key] <= 10
  {
    if i > 0 {
      FirstBadIs(members[1..], offsets, i - 1);
    }
  }

  lemma {:induction false} NoneIsBad(members: seq<Member>, offsets: map<string, int>)
    requires forall name | name in offsets :: 0 <= offsets[name] <= 10
    ensures FirstBad(members, offsets).None?
  {
    if members != [] {
      NoneIsBad(members[1..], offsets);
    }
  }

  lemma {:induction false} OffsetsAreValid(members: seq<Member>)
    requires ReadOffsets(members).Success?
    ensures forall name | name in ReadOffsets(members).value :: 0 <= ReadOffsets(members).value[name] <= 10
  {
    var inner := Section(members, "student_week_offset").value;
    var m := Fold(inner, ReadOffset).value;
    forall name | name in m ensures 0 <= m[name] <= 10 {
      var i := FoldFrom(inner, ReadOffset, name);
      FirstBadIs(inner, m, i);
      hide Fold, IntOf, Section, FirstBad;
    }
  }

  lemma {:induction false} ValuesAreFew(m: map<string, string>)
    ensures |m.Values| <= |m|
    decreases |m|
  {
  }

  /** As many values as keys means that no value is there twice. */
  lemma {:induction false} InjectiveMeans(m: map<string, string>, a: string, b: string)
    requires IsInjective(m) && a in m && b in m && m[a] == m[b]
    ensures a == b
  {
    if a != b {
      var rest := m - {a};
      assert rest.Keys == m.Keys - {a};
      assert b in rest && rest[b] == m[a] && rest[b] in rest.Values;
      forall v | v in m.Values ensures v in rest.Values {
        var x :| x in m && m[x] == v;
        assert x == a || (x in rest && rest[x] in rest.Values);
      }
      ValuesAreFew(rest);
      SubsetSize(m.Values, rest.Values);
    }
  }

  lemma {:induction false} GridIsValid(members: seq<Member>)
    requires ReadGrid(members).Success?
    ensures var grid := ReadGrid(members).value;
            && grid.periods != map[] && (forall k | k in grid.periods :: 1 <= k <= 30 && IsWindow(grid.periods[k]))
            && (forall k: int | k in grid.source :: k >= 0 && |Decimal(k)| <= MAX_DIGITS)
            && (forall code | code in grid.blocks :: IsBlockCode(code) && grid.blocks[code] != [])
            && (forall code, p | code in grid.blocks && p in grid.blocks[code] :: p in grid.periods)
            && (forall code | code in grid.days :: grid.days[code] in WEEKDAYS)
            && (forall a, b | a in grid.days && b in grid.days && grid.days[a] == grid.days[b] :: a == b)
  {
    var grid := ReadGrid(members).value;
    PeriodsAreValid(Section(members, "periods").value);
    SourceIsPrintable(Section(members, "period_source").value);
    BlocksAreValid(Section(members, "block_codes").value, grid.periods.Keys);
    DaysAreValid(Section(members, "day_code_map").value);
    forall a, b | a in grid.days && b in grid.days && grid.days[a] == grid.days[b] ensures a == b {
      InjectiveMeans(grid.days, a, b);
    }
    hide Fold, Section, IsBlockCode, IsWindow, Decimal, ReadPeriod, ReadSource, ReadBlock, ReadDay, IsInjective;
  }

  lemma {:induction false} RestIsValid(members: seq<Member>, dates: Dates, grid: Grid)
    requires IsFaithful(dates) && ReadCalendar(members, dates, grid).Success?
    ensures var c := ReadCalendar(members, dates, grid).value;
            && Grid(c.periods, c.periodSource, c.blockCodes, c.dayCodeMap) == grid
            && (forall s | s in c.terms :: IsTerm(c.terms[s]) && c.terms[s].semester == s && IsSemester(s) && HasDates(dates, c.terms[s]))
            && (forall name | name in c.studentWeekOffset :: 0 <= c.studentWeekOffset[name] <= 10)
            && c.onConflict in {"trust_course", "skip"}
  {
    TermsAreValid(Section(members, "terms").value, dates);
    OffsetsAreValid(members);
    hide ReadOffsets, ReadVersion, Fold, Section, IsSemester, HasDates, IsTerm, Strip, TextOf, Find, ReadTerm;
  }

  /** Every configuration `parse_config` accepts is valid, and can be printed. */
  lemma {:induction false} ParsedIsValid(payload: Json, dates: Dates)
    requires IsFaithful(dates) && Parse(payload, dates).Success?
    ensures Valid(Parse(payload, dates).value) && Printable(Parse(payload, dates).value, dates)
  {
    var members := payload.members;
    GridIsValid(members);
    RestIsValid(members, dates, ReadGrid(members).value);
    hide ReadGrid, ReadCalendar, IsBlockCode, IsSemester, HasDates, IsWindow, Decimal, IsTerm;
  }

  // ----- printing -----

  /** The members a dictionary is printed as, its keys in some order. */
  function Shown<K, V>(keys: seq<K>, m: map<K, V>, show: (K, V) -> Member): seq<Member>
    requires forall i | 0 <= i < |keys| :: keys[i] in m
  {
    seq(|keys|, i requires 0 <= i < |keys| => show(keys[i], m[keys[i]]))
  }

  ghost predicate IsOrder<K(!new), V>(keys: seq<K>, m: map<K, V>) {
    && (forall i | 0 <= i < |keys| :: keys[i] in m)
    && (forall i, j | 0 <= i < j < |keys| :: keys[i] != keys[j])
    && (forall k | k in m :: k in keys)
  }

  ghost predicate ListsAll<K(!new), V>(j: Json, m: map<K, V>, show: (K, V) -> Member) {
    j.Object? && exists keys :: IsOrder(keys, m) && j.members == Shown(keys, m, show)
  }

  function Numbers(ns: seq<int>): seq<Json> {
    seq(|ns|, i requires 0 <= i < |ns| => Number(ns[i]))
  }

  function DateTexts(dates: Dates, ds: seq<Date>): seq<Json> {
    seq(|ds|, i requires 0 <= i < |ds| => Text(dates.show(ds[i])))
  }

  function ShowPeriod(k: int, w: Window): Member {
    Member(TextOf(Number(k)), Array([Text(w.0), Text(w.1)]))
  }

  function ShowSource(k: int, v: string): Member {
    Member(TextOf(Number(k)), Text(v))
  }

  function ShowBlock(code: string, periods: seq<int>): Member {
    Member(code, Array(Numbers(periods)))
  }

  function ShowDay(code: string, token: string): Member {
    Member(code, Text(token))
  }

  function ShowTerm(dates: Dates, s: string, t: Term): Member {
    Member(s, Object(TermItem(dates, t)))
  }

  function ShowOffset(name: string, offset: int): Member {
    Member(name, Number(offset))
  }

  /** The printed dictionaries. */
  datatype Parts = Parts(periods: Json, source: Json, blocks: Json, days: Json, terms: Json, offsets: Json)

  function ShowAll(c: Config, p: Parts): seq<Member> {
    [Member("version", Number(c.version)),
     Member("periods", p.periods),
     Member("period_source", p.source),
     Member("block_codes", p.blocks),
     Member("day_code_map", p.days),
     Member("terms", p.terms),
     Member("student_week_offset", p.offsets),
     Member("on_conflict", Text(c.onConflict))]
  }

  ghost predicate ArePartsOf(p: Parts, c: Config, dates: Dates) {
    && ListsAll(p.periods, c.periods, ShowPeriod)
    && ListsAll(p.source, c.periodSource, ShowSource)
    && ListsAll(p.blocks, c.blockCodes, ShowBlock)
    && ListsAll(p.days, c.dayCodeMap, ShowDay)
    && ListsAll(p.terms, c.terms, (s: string, t: Term) => ShowTerm(dates, s, t))
    && ListsAll(p.offsets, c.studentWeekOffset, ShowOffset)
  }

  /** `to_dict`, with the entries of each dictionary in whatever order it holds them. */
  ghost predicate IsPrintOf(j: Json, c: Config, dates: Dates) {
    exists p :: ArePartsOf(p, c, dates) && j == Object(ShowAll(c, p))
  }

  /** The dictionary comprehensions of `to_dict`. */
  method ShowDictionary<K(==, !new), V>(m: map<K, V>, show: (K, V) -> Member) returns (j: Json)
    ensures ListsAll(j, m, show)
  {
    var members: seq<Member> := [];
    ghost var keys: seq<K> := [];
    var todo := m.Keys;
    while todo != {}
      invariant todo <= m.Keys && (forall i | 0 <= i < |keys| :: keys[i] in m && keys[i] !in todo)
      invariant (forall i, j | 0 <= i < j < |keys| :: keys[i] != keys[j]) && forall k | k in m :: k in keys || k in todo
      invariant members == Shown(keys, m, show)
      decreases |todo|
    {
      var k: K :| k in todo;
      members := members + [show(k, m[k])];
      keys := keys + [k];
      todo := todo - {k};
    }
    assert IsOrder(keys, m);
    return Object(members);
  }

  method ToDict(c: Config, dates: Dates) returns (j: Json)
    ensures IsPrintOf(j, c, dates)
  {
    var periods := ShowDictionary(c.periods, ShowPeriod);
    var source := ShowDictionary(c.periodSource, ShowSource);
    var blocks := ShowDictionary(c.blockCodes, ShowBlock);
    var days := ShowDictionary(c.dayCodeMap, ShowDay);
    var terms := ShowDictionary(c.terms, (s: string, t: Term) => ShowTerm(dates, s, t));
    var offsets := ShowDictionary(c.studentWeekOffset, ShowOffset);
    hide ListsAll;
    var p := Parts(periods, source, blocks, days, terms, offsets);
    assert ArePartsOf(p, c, dates);
    return Object(ShowAll(c, p));
  }

  // ----- reading back what was printed -----

  /** When every printed entry reads back, so does the dictionary. */
  lemma {:induction false} FoldOfShown<K(!new), V>(keys: seq<K>, m: map<K, V>, show: (K, V) -> Member,
                                                   read: Member -> Result<Option<(K, V)>, Error>)
    requires forall i | 0 <= i < |keys| :: keys[i] in m
    requires forall k | k in m :: read(show(k, m[k])) == Success(Some((k, m[k])))
    ensures Fold(Shown(keys, m, show), read).Success?
    ensures var r := Fold(Shown(keys, m, show), read).value;
            (forall k :: k in r <==> k in keys) && forall k | k in r :: r[k] == m[k]
  {
    if keys != [] {
      var n := |keys| - 1;
      FoldOfShown(keys[..n], m, show, read);
      assert Shown(keys, m, show)[..n] == Shown(keys[..n], m, show);
      assert keys == keys[..n] + [keys[n]];
    }
  }

  lemma {:induction false} ListsReadBack<K(!new), V>(j: Json, m: map<K, V>, show: (K, V) -> Member,
                                                     read: Member -> Result<Option<(K, V)>, Error>)
    requires ListsAll(j, m, show)
    requires forall k | k in m :: read(show(k, m[k])) == Success(Some((k, m[k])))
    ensures Fold(j.members, read) == Success(m)
  {
    var keys :| IsOrder(keys, m) && j.members == Shown(keys, m, show);
    FoldOfShown(keys, m, show, read);
    assert Fold(j.members, read).value == m;
  }

  lemma {:induction false} KeyReadsBack(k: nat)
    requires |Decimal(k)| <= MAX_DIGITS
    ensures IsPeriodKey(TextOf(Number(k))) && ParseInt(TextOf(Number(k))) == Some(k)
  {
    var d := Decimal(k);
    assert IsDigit(d[|d| - 1]);
    ParseDecimal(k);
  }

  lemma {:induction false} TimesReadBack(w: Window)
    requires IsWindow(w)
    ensures ReadTimes(Array([Text(w.0), Text(w.1)])) == Success(w)
  {
    PlainClock(w.0);
    PlainClock(w.1);
    hide IsClock, Less, Strip;
  }

  lemma {:induction false} PlainClock(s: string)
    requires IsClock(s)
    ensures Strip(s) == s
  {
  }

  lemma {:induction false} PeriodReadsBack(k: int, w: Window)
    requires 1 <= k <= 30 && IsWindow(w)
    ensures ReadPeriod(ShowPeriod(k, w)) == Success(Some((k, w)))
  {
    hide Decimal, ParseInt, IsPeriodKey, IsClock, IsWindow, Less, ReadTimes;
    SmallDecimal(k);
    KeyReadsBack(k);
    TimesReadBack(w);
  }

  lemma {:induction false} SmallDecimal(k: nat)
    requires k <= 30
    ensures |Decimal(k)| <= MAX_DIGITS
  {
  }

  lemma {:induction false} SourceReadsBack(k: int, v: string)
    requires k >= 0 && |Decimal(k)| <= MAX_DIGITS
    ensures ReadSource(ShowSource(k, v)) == Success(Some((k, v)))
  {
    KeyReadsBack(k);
    hide Decimal, ParseInt, IsPeriodKey;
  }

  lemma {:induction false} NumbersReadBack(ns: seq<int>)
    ensures ReadInts(Numbers(ns)) == Some(ns)
  {
    if ns != [] {
      NumbersReadBack(ns[1..]);
      assert Numbers(ns)[1..] == Numbers(ns[1..]) && ns == [ns[0]] + ns[1..];
    }
  }

  lemma {:induction false} DatesPrintedReadBack(dates: Dates, ds: seq<Date>)
    requires forall i | 0 <= i < |ds| :: ReadsBack(dates, ds[i])
    ensures ReadDates(dates, DateTexts(dates, ds)) == Some(ds)
  {
    hide Strip;
    if ds != [] {
      DatesPrintedReadBack(dates, ds[1..]);
      assert DateTexts(dates, ds)[1..] == DateTexts(dates, ds[1..]) && ds == [ds[0]] + ds[1..];
    }
  }

  lemma {:induction false} BlockReadsBack(code: string, nums: seq<int>, periods: set<int>)
    requires IsBlockCode(code) && nums != [] && forall p | p in nums :: p in periods
    ensures ReadBlock(ShowBlock(code, nums), periods) == Success(Some((code, nums)))
  {
    NumbersReadBack(nums);
    hide IsBlockCode, ReadInts;
  }

  lemma {:induction false} DayReadsBack(code: string, token: string)
    requires token in WEEKDAYS
    ensures ReadDay(ShowDay(code, token)) == Success(Some((code, token)))
  {
    assert |token| == 2 && 'A' <= token[0] <= 'Z' && 'A' <= token[1] <= 'Z';
    StripKeeps(token, IsSpace);
    assert Upper(token) == token;
    hide Strip, Upper;
  }

  lemma {:induction false} FindAt(members: seq<Member>, i: nat)
    requires i < |members| && forall j | 0 <= j < i :: members[j].key != members[i].key
    ensures Find(members, members[i].key) == Some(members[i].value)
  {
    if i > 0 {
      assert members[0].key != members[i].key;
      FindAt(members[1..], i - 1);
    }
  }

  function TermItem(dates: Dates, t: Term): seq<Member> {
    [Member("semester", Text(t.semester)),
     Member("monday", Text(dates.show(t.monday))),
     Member("teaching_start", Text(dates.show(t.teachingStart))),
     Member("weeks", Number(t.weeks)),
     Member("exdates", Array(DateTexts(dates, t.exdates)))]
  }

  lemma {:induction false} TermItemFinds(dates: Dates, t: Term)
    ensures var item := TermItem(dates, t);
            && Get(item, "monday", Null) == Text(dates.show(t.monday))
            && (forall other :: Get(item, "teaching_start", other) == Text(dates.show(t.teachingStart)))
            && Get(item, "weeks", Number(20)) == Number(t.weeks)
            && Get(item, "exdates", Null) == Array(DateTexts(dates, t.exdates))
  {
    var item := TermItem(dates, t);
    FindAt(item, 1);
    FindAt(item, 2);
    FindAt(item, 3);
    FindAt(item, 4);
    hide Find;
  }

  lemma {:induction false} ExdatesReadBack(dates: Dates, t: Term)
    requires HasDates(dates, t)
    ensures var days := Iterated(Array(DateTexts(dates, t.exdates)));
            days.Some? && ReadDates(dates, days.value) == Some(t.exdates)
  {
    DatesPrintedReadBack(dates, t.exdates);
    NoDates(dates);
    assert t.exdates == [] ==> DateTexts(dates, t.exdates) == [];
    hide ReadDates, Strip;
  }

  lemma {:induction false} TermReadsBack(dates: Dates, s: string, t: Term)
    requires IsSemester(s) && IsTerm(t) && t.semester == s && HasDates(dates, t)
    ensures ReadTerm(dates, ShowTerm(dates, s, t)) == Success(Some((s, t)))
  {
    TermItemFinds(dates, t);
    ExdatesReadBack(dates, t);
    hide IsSemester, Strip, Get, ReadDates, TermItem, Iterated, DateTexts;
  }

  lemma {:induction false} NoDates(dates: Dates)
    ensures ReadDates(dates, []) == Some([])
  {
  }

  lemma {:induction false} SectionReadsBack<K(!new), V>(members: seq<Member>, i: nat, m: map<K, V>, show: (K, V) -> Member,
                                                        read: Member -> Result<Option<(K, V)>, Error>)
    requires i < |members| && forall j | 0 <= j < i :: members[j].key != members[i].key
    requires ListsAll(members[i].value, m, show)
    requires forall k | k in m :: read(show(k, m[k])) == Success(Some((k, m[k])))
    ensures ReadSection(members, members[i].key, read) == Success(m)
  {
    FindAt(members, i);
    ListsReadBack(members[i].value, m, show, read);
  }

  lemma {:induction false} MembersDiffer(c: Config, p: Parts)
    ensures forall i, j | 0 <= i < j < |ShowAll(c, p)| :: ShowAll(c, p)[i].key != ShowAll(c, p)[j].key
  {
  }

  function PartAt(p: Parts, i: nat): (string, Json)
    requires 1 <= i <= 6
  {
    if i == 1 then ("periods", p.periods)
    else if i == 2 then ("period_source", p.source)
    else if i == 3 then ("block_codes", p.blocks)
    else if i == 4 then ("day_code_map", p.days)
    else if i == 5 then ("terms", p.terms)
    else ("student_week_offset", p.offsets)
  }

  lemma {:induction false} MemberIs(c: Config, p: Parts, i: nat)
    requires 1 <= i <= 6
    ensures var ms := ShowAll(c, p);
            i < |ms| && (ms[i].key, ms[i].value) == PartAt(p, i) && forall j | 0 <= j < i :: ms[j].key != ms[i].key
  {
  }

  lemma {:induction false} PeriodsReadBack(c: Config, dates: Dates, p: Parts)
    requires Valid(c) && Printable(c, dates) && ArePartsOf(p, c, dates)
    ensures ReadPeriods(ShowAll(c, p)) == Success(c.periods)
  {
    hide ListsAll, Fold, IsWindow, IsBlockCode, Decimal, Section, IsTerm, IsSemester, HasDates, ReadSection, ShowAll, IsInjective;
    forall k | k in c.periods ensures ReadPeriod(ShowPeriod(k, c.periods[k])) == Success(Some((k, c.periods[k]))) {
      PeriodReadsBack(k, c.periods[k]);
    }
    hide ReadPeriod, ShowPeriod;
    MemberIs(c, p, 1);
    SectionReadsBack(ShowAll(c, p), 1, c.periods, ShowPeriod, ReadPeriod);
  }

  lemma {:induction false} SourcesReadBack(c: Config, dates: Dates, p: Parts)
    requires Valid(c) && Printable(c, dates) && ArePartsOf(p, c, dates)
    ensures ReadSection(ShowAll(c, p), "period_source", ReadSource) == Success(c.periodSource)
  {
    hide ListsAll, Fold, IsWindow, IsBlockCode, Section, IsTerm, IsSemester, HasDates, ReadSection, ShowAll, IsInjective;
    forall k | k in c.periodSource ensures ReadSource(ShowSource(k, c.periodSource[k])) == Success(Some((k, c.periodSource[k]))) {
      SourceReadsBack(k, c.periodSource[k]);
    }
    hide ReadSource, ShowSource;
    MemberIs(c, p, 2);
    SectionReadsBack(ShowAll(c, p), 2, c.periodSource, ShowSource, ReadSource);
  }

  lemma {:induction false} BlocksReadBack(c: Config, dates: Dates, p: Parts)
    requires Valid(c) && Printable(c, dates) && ArePartsOf(p, c, dates)
    ensures ReadSection(ShowAll(c, p), "block_codes", (m: Member) => ReadBlock(m, c.periods.Keys)) == Success(c.blockCodes)
  {
    hide ListsAll, Fold, IsWindow, IsBlockCode, Decimal, Section, IsTerm, IsSemester, HasDates, ReadSection, ShowAll, IsInjective;
    var readBlock := (m: Member) => ReadBlock(m, c.periods.Keys);
    forall k | k in c.blockCodes ensures readBlock(ShowBlock(k, c.blockCodes[k])) == Success(Some((k, c.blockCodes[k]))) {
      BlockReadsBack(k, c.blockCodes[k], c.periods.Keys);
    }
    hide ReadBlock, ShowBlock;
    MemberIs(c, p, 3);
    SectionReadsBack(ShowAll(c, p), 3, c.blockCodes, ShowBlock, readBlock);
  }

  lemma {:induction false} DaysReadBack(c: Config, dates: Dates, p: Parts)
    requires Valid(c) && Printable(c, dates) && ArePartsOf(p, c, dates) && IsInjective(c.dayCodeMap)
    ensures ReadDays(ShowAll(c, p)) == Success(c.dayCodeMap)
  {
    hide ListsAll, Fold, IsWindow, IsBlockCode, Decimal, Section, IsTerm, IsSemester, HasDates, ReadSection, ShowAll, IsInjective;
    forall k | k in c.dayCodeMap ensures ReadDay(ShowDay(k, c.dayCodeMap[k])) == Success(Some((k, c.dayCodeMap[k]))) {
      DayReadsBack(k, c.dayCodeMap[k]);
    }
    hide ReadDay, ShowDay;
    MemberIs(c, p, 4);
    SectionReadsBack(ShowAll(c, p), 4, c.dayCodeMap, ShowDay, ReadDay);
  }

  lemma {:induction false} TermsReadBack(c: Config, dates: Dates, p: Parts)
    requires Valid(c) && Printable(c, dates) && ArePartsOf(p, c, dates)
    ensures ReadSection(ShowAll(c, p), "terms", (m: Member) => ReadTerm(dates, m)) == Success(c.terms)
  {
    hide ListsAll, Fold, IsWindow, IsBlockCode, Decimal, Section, IsTerm, IsSemester, HasDates, ReadSection, ShowAll, IsInjective;
    var readTerm := (m: Member) => ReadTerm(dates, m);
    var showTerm := (s: string, t: Term) => ShowTerm(dates, s, t);
    forall k | k in c.terms ensures readTerm(showTerm(k, c.terms[k])) == Success(Some((k, c.terms[k]))) {
      TermReadsBack(dates, k, c.terms[k]);
    }
    hide ReadTerm, ShowTerm;
    MemberIs(c, p, 5);
    SectionReadsBack(ShowAll(c, p), 5, c.terms, showTerm, readTerm);
  }

  lemma {:induction false} OffsetsAreRead(members: seq<Member>, offsets: map<string, int>)
    requires ReadSection(members, "student_week_offset", ReadOffset) == Success(offsets)
    requires forall name | name in offsets :: 0 <= offsets[name] <= 10
    ensures ReadOffsets(members) == Success(offsets)
  {
    hide Fold, Section, ReadOffset;
    NoneIsBad(Section(members, "student_week_offset").value, offsets);
  }

  lemma {:induction false} OffsetsReadBack(c: Config, dates: Dates, p: Parts)
    requires Valid(c) && Printable(c, dates) && ArePartsOf(p, c, dates)
    ensures ReadOffsets(ShowAll(c, p)) == Success(c.studentWeekOffset)
  {
    hide ListsAll, Fold, IsWindow, IsBlockCode, Decimal, Section, IsTerm, IsSemester, HasDates, ReadSection, ShowAll, IsInjective;
    forall k | k in c.studentWeekOffset
      ensures ReadOffset(ShowOffset(k, c.studentWeekOffset[k])) == Success(Some((k, c.studentWeekOffset[k])))
    {
    }
    hide ReadOffset, ShowOffset;
    MemberIs(c, p, 6);
    SectionReadsBack(ShowAll(c, p), 6, c.studentWeekOffset, ShowOffset, ReadOffset);
    OffsetsAreRead(ShowAll(c, p), c.studentWeekOffset);
  }

  lemma {:induction false} ScalarsReadBack(c: Config, p: Parts)
    requires c.onConflict in {"trust_course", "skip"}
    ensures ReadVersion(ShowAll(c, p)) == Success(c.version) && ReadConflict(ShowAll(c, p)) == Success(c.onConflict)
  {
    MembersDiffer(c, p);
    FindAt(ShowAll(c, p), 0);
    FindAt(ShowAll(c, p), 7);
    hide Find;
    ConflictIsPlain(c.onConflict);
    hide Strip;
  }

  lemma {:induction false} ConflictIsPlain(s: string)
    requires s == "trust_course" || s == "skip"
    ensures Strip(s) == s
  {
  }

  lemma {:induction false} GridReadsBack(c: Config, dates: Dates, p: Parts)
    requires Valid(c) && Printable(c, dates) && ArePartsOf(p, c, dates) && IsInjective(c.dayCodeMap)
    ensures ReadGrid(ShowAll(c, p)) == Success(Grid(c.periods, c.periodSource, c.blockCodes, c.dayCodeMap))
  {
    hide ArePartsOf, Valid, Printable, IsInjective, ReadPeriods, ReadSection, ReadDays, ShowAll, ReadSource, ReadBlock;
    PeriodsReadBack(c, dates, p);
    SourcesReadBack(c, dates, p);
    BlocksReadBack(c, dates, p);
    DaysReadBack(c, dates, p);
  }

  lemma {:induction false} CalendarReadsBack(c: Config, dates: Dates, p: Parts)
    requires Valid(c) && Printable(c, dates) && ArePartsOf(p, c, dates)
    ensures ReadCalendar(ShowAll(c, p), dates, Grid(c.periods, c.periodSource, c.blockCodes, c.dayCodeMap)) == Success(c)
  {
    ScalarsReadBack(c, p);
    hide ArePartsOf, Valid, Printable, ReadSection, ReadVersion, ReadConflict, ShowAll, ReadTerm, ReadOffsets;
    TermsReadBack(c, dates, p);
    OffsetsReadBack(c, dates, p);
  }

  /** As many values as keys, when no value is there twice. */
  lemma {:induction false} InjectiveCounts(m: map<string, string>)
    requires forall a, b | a in m && b in m && m[a] == m[b] :: a == b
    ensures IsInjective(m)
    decreases |m|
  {
    if m == map[] {
      assert m.Values == {};
    } else {
      assert |m| != 0;
      var k := Element(m.Keys);
      var rest := m - {k};
      assert rest.Keys == m.Keys - {k};
      InjectiveCounts(rest);
      assert m[k] in m.Values;
      forall v | v in rest.Values ensures v in m.Values {
        var x :| x in rest && rest[x] == v;
        assert x in m && m[x] == v;
      }
      forall v | v in m.Values ensures v in rest.Values + {m[k]} {
        var x :| x in m && m[x] == v;
        assert x == k || (x in rest && rest[x] in rest.Values);
      }
      assert m.Values == rest.Values + {m[k]};
      assert m[k] !in rest.Values;
    }
  }

  lemma {:induction false} OrderExists<K(!new), V>(m: map<K, V>) returns (keys: seq<K>)
    ensures IsOrder(keys, m)
    decreases |m|
  {
    if m == map[] {
      keys := [];
    } else {
      assert |m| != 0;
      var k := Element(m.Keys);
      var rest := m - {k};
      assert rest.Keys == m.Keys - {k};
      var others := OrderExists(rest);
      keys := others + [k];
      forall x | x in m ensures x in keys {
        assert x == k || x in rest;
      }
    }
  }

  lemma {:induction false} ListingExists<K(!new), V>(m: map<K, V>, show: (K, V) -> Member) returns (j: Json)
    ensures ListsAll(j, m, show)
  {
    var keys := OrderExists(m);
    j := Object(Shown(keys, m, show));
  }

  /** A valid configuration that can be written down is accepted in its printed form, as itself. */
  lemma {:induction false} ValidIsAccepted(c: Config, dates: Dates, printed: Json)
    requires Valid(c) && Printable(c, dates) && IsPrintOf(printed, c, dates)
    ensures Parse(printed, dates) == Success(c)
  {
    var p :| ArePartsOf(p, c, dates) && printed == Object(ShowAll(c, p));
    InjectiveCounts(c.dayCodeMap);
    hide ArePartsOf, Valid, Printable, IsInjective, ReadGrid, ReadCalendar, ShowAll;
    GridReadsBack(c, dates, p);
    CalendarReadsBack(c, dates, p);
  }

  /** Printing an accepted configuration and parsing it again gives the configuration. */
  lemma {:induction false} PrintParses(payload: Json, dates: Dates, printed: Json)
    requires IsFaithful(dates) && Parse(payload, dates).Success?
    requires IsPrintOf(printed, Parse(payload, dates).value, dates)
    ensures Parse(printed, dates) == Parse(payload, dates)
  {
    hide Parse, IsPrintOf, Valid, Printable, IsFaithful;
    ParsedIsValid(payload, dates);
    ValidIsAccepted(Parse(payload, dates).value, dates, printed);
  }

  lemma {:induction false} PrintExists(c: Config, dates: Dates) returns (printed: Json)
    ensures IsPrintOf(printed, c, dates)
  {
    var periods := ListingExists(c.periods, ShowPeriod);
    var source := ListingExists(c.periodSource, ShowSource);
    var blocks := ListingExists(c.blockCodes, ShowBlock);
    var days := ListingExists(c.dayCodeMap, ShowDay);
    var terms := ListingExists(c.terms, (s: string, t: Term) => ShowTerm(dates, s, t));
    var offsets := ListingExists(c.studentWeekOffset, ShowOffset);
    hide ListsAll;
    var p := Parts(periods, source, blocks, days, terms, offsets);
    assert ArePartsOf(p, c, dates);
    printed := Object(ShowAll(c, p));
  }

  /** `parse_config` yields exactly the valid configurations whose keys and dates can be written down. */
  lemma {:induction false} AcceptsExactlyTheValid(c: Config, dates: Dates)
    requires IsFaithful(dates)
    ensures (exists payload :: Parse(payload, dates) == Success(c)) <==> Valid(c) && Printable(c, dates)
  {
    hide Parse, Valid, Printable, IsPrintOf, IsFaithful;
    if payload :| Parse(payload, dates) == Success(c) {
      ParsedIsValid(payload, dates);
    }
    if Valid(c) && Printable(c, dates) {
      var printed := PrintExists(c, dates);
      ValidIsAccepted(c, dates, printed);
    }
  }
}
