/** app/calendar/rules.py: what week strings and period names mean, as the school writes them. */
module WrittenTimetable {
  import opened PyText
  import opened CalendarConfig
  import opened CalendarRules

  // ----- week strings -----

  /** One week or a range of weeks. */
  datatype Part = Week(n: nat) | Range(a: nat, b: nat)

  function First(p: Part): nat {
    match p case Week(n) => n case Range(a, _) => a
  }

  function Last(p: Part): nat {
    match p case Week(n) => n case Range(_, b) => b
  }

  function PartText(p: Part): string {
    match p
    case Week(n) => Decimal(n)
    case Range(a, b) => Decimal(a) + ['-'] + Decimal(b)
  }

  /** The pattern of a segment takes numbers of two digits. */
  predicate IsShort(p: Part) {
    First(p) < 100 && Last(p) < 100
  }

  predicate AllShort(parts: seq<Part>) {
    parts != [] && forall i | 0 <= i < |parts| :: IsShort(parts[i])
  }

  /** Weeks count from one, and a range does not go backwards. */
  predicate IsOrdered(p: Part) {
    1 <= First(p) <= Last(p)
  }

  function PartTexts(parts: seq<Part>): (r: seq<string>)
    ensures |r| == |parts|
  {
    seq(|parts|, i requires 0 <= i < |parts| => PartText(parts[i]))
  }

  /** What separates the segments of a week string. */
  predicate IsSeparator(c: char) {
    c == ';' || c == '；' || c == ',' || c == '，' || c == '、'
  }

  /** The parts with a separator between them, the word for week if wanted, and the mark of odd or even weeks. */
  function WeekString(parts: seq<Part>, sep: char, word: bool, mark: Option<Parity>): string {
    Join(PartTexts(parts), [sep]) + (Word(word) + Mark(mark))
  }

  function Word(word: bool): string {
    if word then ['周'] else []
  }

  function Mark(mark: Option<Parity>): string {
    match mark
    case None => []
    case Some(Odd) => ['单']
    case Some(Even) => ['双']
  }

  predicate Holds(p: Part, w: int) {
    First(p) <= w <= Last(p)
  }

  predicate SomeHolds(parts: seq<Part>, w: int) {
    exists i | 0 <= i < |parts| :: Holds(parts[i], w)
  }

  // ----- reading one part -----

  lemma {:induction false} ShortDecimal(n: nat)
    requires n < 100
    ensures IsShortNumber(Decimal(n)) && Number(Decimal(n)) == n
  {
    NumberOfDecimal(n);
    assert n >= 10 ==> |Decimal(n / 10)| == 1;
  }

  predicate IsPartText(s: string) {
    s != [] && IsDigit(s[0]) && IsDigit(s[|s| - 1]) && forall i | 0 <= i < |s| :: IsDigit(s[i]) || s[i] == '-'
  }

  lemma {:induction false} TextIsPart(p: Part)
    ensures IsPartText(PartText(p))
  {
    match p
    case Week(n) =>
      var d := Decimal(n);
      assert forall i | 0 <= i < |d| :: d[i] in d;
    case Range(a, b) =>
      var d, e := Decimal(a), Decimal(b);
      hide Decimal;
      assert (forall i | 0 <= i < |d| :: d[i] in d) && forall i | 0 <= i < |e| :: e[i] in e;
  }

  lemma {:induction false} PartReads(p: Part)
    requires IsShort(p)
    ensures Strip(PartText(p)) == PartText(p) && PartText(p) != ""
    ensures ReadSegment(PartText(p)) == Some((First(p), Last(p)))
  {
    TextIsPart(p);
    StripKeeps(PartText(p), IsSpace);
    ShortDecimal(First(p));
    ShortDecimal(Last(p));
    hide Decimal, Strip, Number;
    match p
    case Week(n) => SplitOne(Decimal(n), '-');
    case Range(a, b) =>
      SplitAfter(Decimal(a), Decimal(b), '-');
      SplitOne(Decimal(b), '-');
  }

  // ----- reading the string -----

  lemma {:induction false} WithoutConcat(a: string, b: string, c: char)
    ensures Without(a + b, c) == Without(a, c) + Without(b, c)
  {
    if a == [] {
      assert a + b == b;
    } else {
      WithoutConcat(a[1..], b, c);
      assert (a + b)[1..] == a[1..] + b;
    }
  }

  lemma {:induction false} MarksGone(word: bool, mark: Option<Parity>)
    ensures Without(Word(word) + Mark(mark), '周') == Mark(mark)
    ensures Without(Without(Mark(mark), '单'), '双') == []
  {
    assert Word(word) + Mark(mark) == if word then ['周'] + Mark(mark) else Mark(mark);
    assert word ==> (['周'] + Mark(mark))[1..] == Mark(mark);
    WithoutAbsent(Mark(mark), '周');
  }

  predicate IsListChar(c: char) {
    IsDigit(c) || c == '-' || IsSeparator(c)
  }

  lemma {:induction false} JoinedChars(texts: seq<string>, sep: char)
    requires texts != [] && IsSeparator(sep) && forall i | 0 <= i < |texts| :: IsPartText(texts[i])
    ensures var s := Join(texts, [sep]);
            s != [] && IsDigit(s[0]) && IsDigit(s[|s| - 1]) && forall i | 0 <= i < |s| :: IsListChar(s[i])
  {
    if |texts| > 1 {
      JoinedChars(texts[1..], sep);
    }
  }

  lemma {:induction false} TranslateConcat(a: string, b: string)
    ensures Translate(a + b) == Translate(a) + Translate(b)
  {
  }

  lemma {:induction false} TranslateJoined(texts: seq<string>, sep: char)
    requires texts != [] && IsSeparator(sep) && forall i | 0 <= i < |texts| :: IsPartText(texts[i])
    ensures Translate(Join(texts, [sep])) == Join(texts, [';'])
  {
    assert Translate(texts[0]) == texts[0];
    if |texts| > 1 {
      TranslateJoined(texts[1..], sep);
      TranslateConcat(texts[0] + [sep], Join(texts[1..], [sep]));
      TranslateConcat(texts[0], [sep]);
      assert Translate([sep]) == [';'];
      hide Translate;
    }
  }

  lemma {:induction false} StringIsBare(list: string, tail: string)
    requires list != [] && IsDigit(list[0]) && IsDigit(list[|list| - 1])
    requires tail != [] ==> tail[|tail| - 1] in {'周', '单', '双'}
    ensures Strip(list + tail) == list + tail
  {
    StripKeeps(list + tail, IsSpace);
  }

  function List(parts: seq<Part>, sep: char): string {
    Join(PartTexts(parts), [sep])
  }

  lemma {:induction false} TextsAreParts(parts: seq<Part>)
    ensures forall i | 0 <= i < |parts| :: IsPartText(PartTexts(parts)[i])
  {
    forall i | 0 <= i < |parts| ensures IsPartText(PartTexts(parts)[i]) {
      TextIsPart(parts[i]);
    }
  }

  lemma {:induction false} ListIsBare(parts: seq<Part>, sep: char)
    requires parts != [] && IsSeparator(sep)
    ensures var s := List(parts, sep);
            && s != [] && IsDigit(s[0]) && IsDigit(s[|s| - 1])
            && '周' !in s && '单' !in s && '双' !in s && Translate(s) == Join(PartTexts(parts), [';'])
  {
    TextsAreParts(parts);
    hide PartTexts, Translate, IsPartText;
    JoinedChars(PartTexts(parts), sep);
    TranslateJoined(PartTexts(parts), sep);
    hide Join;
    var s := List(parts, sep);
    assert forall c | c in s :: IsListChar(c);
  }

  lemma {:induction false} BodyIs(parts: seq<Part>, sep: char, word: bool, mark: Option<Parity>)
    requires parts != [] && IsSeparator(sep)
    ensures WeekBody(WeekString(parts, sep, word, mark)) == List(parts, sep) + Mark(mark)
  {
    var list, tail := List(parts, sep), Word(word) + Mark(mark);
    ListIsBare(parts, sep);
    StringIsBare(list, tail);
    WithoutConcat(list, tail, '周');
    WithoutAbsent(list, '周');
    MarksGone(word, mark);
    hide Without, Strip, List, Translate, Word, Mark;
    assert WeekString(parts, sep, word, mark) == list + tail by {
      StringIs(parts, sep, word, mark);
    }
  }

  lemma {:induction false} StringIs(parts: seq<Part>, sep: char, word: bool, mark: Option<Parity>)
    ensures WeekString(parts, sep, word, mark) == List(parts, sep) + (Word(word) + Mark(mark))
  {
  }

  lemma {:induction false} ListRemains(list: string, mark: Option<Parity>)
    requires '单' !in list && '双' !in list
    ensures Without(Without(list + Mark(mark), '单'), '双') == list
  {
    WithoutConcat(list, Mark(mark), '单');
    WithoutAbsent(list, '单');
    WithoutConcat(list, Without(Mark(mark), '单'), '双');
    WithoutAbsent(list, '双');
    MarksGone(false, mark);
    hide Without, Mark;
    assert list + [] == list;
  }

  /** Marks leave the segments as they were written. */
  lemma {:induction false} SegmentsAre(parts: seq<Part>, sep: char, word: bool, mark: Option<Parity>)
    requires parts != [] && IsSeparator(sep)
    ensures Segments(WeekString(parts, sep, word, mark)) == PartTexts(parts)
  {
    BodyIs(parts, sep, word, mark);
    ListIsBare(parts, sep);
    ListRemains(List(parts, sep), mark);
    TextsAreParts(parts);
    hide List, Without, Mark, WeekString, WeekBody, Translate, PartTexts;
    SplitJoin(PartTexts(parts), ';');
    hide Split, Join;
  }

  lemma {:induction false} MarkIsRead(parts: seq<Part>, sep: char, word: bool, mark: Option<Parity>)
    requires parts != [] && IsSeparator(sep)
    ensures var text := WeekString(parts, sep, word, mark);
            ParityOf(text) == mark && !MixesParities(text) && WeekBody(text) != ""
  {
    BodyIs(parts, sep, word, mark);
    ListIsBare(parts, sep);
    hide List, WeekString, WeekBody, Translate;
  }

  /** The first part that is out of order is the error; without one there is none. */
  lemma {:induction false} ErrorsAre(parts: seq<Part>)
    requires forall i | 0 <= i < |parts| :: IsShort(parts[i])
    ensures FirstError(PartTexts(parts)).None? <==> forall i | 0 <= i < |parts| :: IsOrdered(parts[i])
    ensures forall i | 0 <= i < |parts| && !IsOrdered(parts[i]) && (forall j | 0 <= j < i :: IsOrdered(parts[j])) ::
              FirstError(PartTexts(parts)) == Some(BadRange(PartText(parts[i])))
  {
    if parts != [] {
      PartReads(parts[0]);
      ErrorsAre(parts[1..]);
      assert PartTexts(parts)[1..] == PartTexts(parts[1..]);
      hide Strip, ReadSegment, PartText;
      assert SegmentError(PartTexts(parts)[0])
          == if IsOrdered(parts[0]) then None else Some(BadRange(PartText(parts[0])));
      hide SegmentError, IsOrdered;
      assert forall i | 0 < i < |parts| :: parts[i] == parts[1..][i - 1];
    }
  }

  lemma {:induction false} NamedAre(parts: seq<Part>, w: int)
    requires forall i | 0 <= i < |parts| :: IsShort(parts[i])
    ensures Named(PartTexts(parts), w) <==> SomeHolds(parts, w)
  {
    forall i | 0 <= i < |parts| ensures InSegment(PartTexts(parts)[i], w) <==> Holds(parts[i], w) {
      PartReads(parts[i]);
    }
    hide InSegment, Holds, PartText;
    if i :| 0 <= i < |parts| && Holds(parts[i], w) {
      assert InSegment(PartTexts(parts)[i], w);
    }
    if i :| 0 <= i < |PartTexts(parts)| && InSegment(PartTexts(parts)[i], w) {
      assert Holds(parts[i], w);
    }
  }

  /** A week string means exactly the weeks between the ends of some part that have the marked parity. */
  lemma {:induction false} StringMeans(parts: seq<Part>, sep: char, word: bool, mark: Option<Parity>, w: int)
    requires AllShort(parts) && IsSeparator(sep)
    ensures Means(WeekString(parts, sep, word, mark), w) <==> SomeHolds(parts, w) && HasParity(mark, w)
  {
    SegmentsAre(parts, sep, word, mark);
    MarkIsRead(parts, sep, word, mark);
    NamedAre(parts, w);
    hide WeekString, Segments, ParityOf, Named, SomeHolds, HasParity, PartTexts;
  }

  /**
   * It is accepted exactly if every part counts from one and not backwards, no part ends after the term, and some week of some
   * part has the marked parity.
   */
  lemma {:induction false} StringIsAccepted(parts: seq<Part>, sep: char, word: bool, mark: Option<Parity>, limit: int)
    requires AllShort(parts) && IsSeparator(sep)
    ensures WeeksError(WeekString(parts, sep, word, mark), limit).None? <==>
            && (forall i | 0 <= i < |parts| :: IsOrdered(parts[i]) && Last(parts[i]) <= limit)
            && (exists w :: SomeHolds(parts, w) && HasParity(mark, w))
  {
    var text := WeekString(parts, sep, word, mark);
    SegmentsAre(parts, sep, word, mark);
    MarkIsRead(parts, sep, word, mark);
    ErrorsAre(parts);
    hide WeekString, WeekBody, ParityOf, MixesParities, PartTexts, FirstError, Segments;
    if forall i | 0 <= i < |parts| :: IsOrdered(parts[i]) {
      OrderedIsAccepted(parts, sep, word, mark, limit);
    }
  }

  /** Where no part is out of order, only the end of the term and the parity count. */
  lemma {:induction false} OrderedIsAccepted(parts: seq<Part>, sep: char, word: bool, mark: Option<Parity>, limit: int)
    requires AllShort(parts) && IsSeparator(sep) && forall i | 0 <= i < |parts| :: IsOrdered(parts[i])
    ensures var text := WeekString(parts, sep, word, mark);
            && NamedWeeks(text) != {}
            && ((exists w :: w in NamedWeeks(text) && w > limit) <==> exists i | 0 <= i < |parts| :: Last(parts[i]) > limit)
            && (MeantWeeks(text) != {} <==> exists w :: SomeHolds(parts, w) && HasParity(mark, w))
  {
    var text := WeekString(parts, sep, word, mark);
    SegmentsAre(parts, sep, word, mark);
    forall w ensures Named(Segments(text), w) <==> SomeHolds(parts, w) {
      NamedAre(parts, w);
    }
    forall w ensures Means(text, w) <==> SomeHolds(parts, w) && HasParity(mark, w) {
      StringMeans(parts, sep, word, mark, w);
    }
    HoldsBetween(parts);
    EndsAreNamed(parts, limit);
    hide WeekString, PartTexts, Named, Means, Segments, HasParity, SomeHolds, AllShort, IsOrdered, First, Last;
    WeeksOver(text, parts, limit);
    MeantExist(text, parts, mark);
    NamedIsSome(text, parts, First(parts[0]));
    hide NamedWeeks, MeantWeeks;
  }

  lemma {:induction false} NamedIsSome(text: string, parts: seq<Part>, w: int)
    requires forall w :: Named(Segments(text), w) <==> SomeHolds(parts, w)
    requires SomeHolds(parts, w) && 0 <= w <= 99
    ensures NamedWeeks(text) != {}
  {
    hide Named, SomeHolds, Segments;
    assert w in NamedWeeks(text);
  }

  lemma {:induction false} HoldsBetween(parts: seq<Part>)
    requires AllShort(parts) && forall i | 0 <= i < |parts| :: IsOrdered(parts[i])
    ensures forall w | SomeHolds(parts, w) :: 0 <= w <= 99
    ensures SomeHolds(parts, First(parts[0]))
  {
    assert Holds(parts[0], First(parts[0]));
  }

  lemma {:induction false} EndsAreNamed(parts: seq<Part>, limit: int)
    requires forall i | 0 <= i < |parts| :: IsOrdered(parts[i])
    ensures (exists w :: SomeHolds(parts, w) && w > limit) <==> exists i | 0 <= i < |parts| :: Last(parts[i]) > limit
  {
    if i :| 0 <= i < |parts| && Last(parts[i]) > limit {
      assert Holds(parts[i], Last(parts[i]));
      assert SomeHolds(parts, Last(parts[i]));
    }
    if w :| SomeHolds(parts, w) && w > limit {
      var i :| 0 <= i < |parts| && Holds(parts[i], w);
      assert Last(parts[i]) > limit;
    }
  }

  lemma {:induction false} WeeksOver(text: string, parts: seq<Part>, limit: int)
    requires forall w :: Named(Segments(text), w) <==> SomeHolds(parts, w)
    requires forall w | SomeHolds(parts, w) :: 0 <= w <= 99
    ensures (exists w :: w in NamedWeeks(text) && w > limit) <==> exists w :: SomeHolds(parts, w) && w > limit
  {
    hide Named, Segments, SomeHolds;
    if w :| SomeHolds(parts, w) && w > limit {
      assert w in NamedWeeks(text);
    }
  }

  lemma {:induction false} MeantExist(text: string, parts: seq<Part>, mark: Option<Parity>)
    requires forall w :: Means(text, w) <==> SomeHolds(parts, w) && HasParity(mark, w)
    requires forall w | SomeHolds(parts, w) :: 0 <= w <= 99
    ensures MeantWeeks(text) != {} <==> exists w :: SomeHolds(parts, w) && HasParity(mark, w)
  {
    hide Means, SomeHolds, HasParity;
    if w :| SomeHolds(parts, w) && HasParity(mark, w) {
      assert w in MeantWeeks(text);
    }
    if MeantWeeks(text) != {} {
      var w := Element(MeantWeeks(text));
      assert Means(text, w);
    }
  }

  // ----- period names -----

  function Numbers(ns: seq<nat>): seq<string> {
    seq(|ns|, i requires 0 <= i < |ns| => Decimal(ns[i]))
  }

  /** A list of periods between 第 and 节. */
  function PeriodList(ns: seq<nat>, sep: string): string {
    (['第'] + Join(Numbers(ns), sep)) + ['节'] + []
  }

  predicate IsBetween(sep: string) {
    sep != [] && forall i | 0 <= i < |sep| :: !IsDigit(sep[i]) && sep[i] != '节'
  }

  lemma {:induction false} SkipAll(sep: string, rest: string)
    requires forall i | 0 <= i < |sep| :: !IsDigit(sep[i])
    ensures FindNumbers(sep + rest) == FindNumbers(rest)
  {
    if sep == [] {
      assert sep + rest == rest;
    } else {
      SkipToNumbers(sep + rest);
      assert (sep + rest)[1..] == sep[1..] + rest;
      SkipAll(sep[1..], rest);
    }
  }

  lemma {:induction false} NumbersAreFound(ns: seq<nat>, sep: string)
    requires IsBetween(sep)
    ensures FindNumbers(Join(Numbers(ns), sep)) == ns
    ensures '节' !in Join(Numbers(ns), sep)
  {
    var texts := Numbers(ns);
    hide FindNumbers;
    NothingToFind();
    if |ns| == 1 {
      FirstNumber(ns[0], []);
      hide Decimal;
      assert Decimal(ns[0]) + [] == Decimal(ns[0]);
      assert '节' !in Decimal(ns[0]);
    } else if |ns| > 1 {
      var rest := Join(Numbers(ns[1..]), sep);
      NumbersAreFound(ns[1..], sep);
      assert texts[1..] == Numbers(ns[1..]);
      FirstNumber(ns[0], sep + rest);
      SkipAll(sep, rest);
      hide Decimal;
      assert Join(texts, sep) == Decimal(ns[0]) + (sep + rest);
      assert '节' !in Decimal(ns[0]) && '节' !in sep;
      assert ns == [ns[0]] + ns[1..];
    }
  }

  /** A list of periods, with anything but digits between them, is read as exactly these periods, each once. */
  lemma {:induction false} ListedPeriodsAreRead(ns: seq<nat>, sep: string)
    requires ns != [] && IsBetween(sep)
    ensures var r := PeriodNumbers(PeriodList(ns, sep));
            (forall i, j | 0 <= i < j < |r| :: r[i] != r[j]) && (forall p :: p in r <==> p in ns)
  {
    var text := PeriodList(ns, sep);
    var list := Join(Numbers(ns), sep);
    NumbersAreFound(ns, sep);
    hide Numbers, Join;
    PeriodNumbersAreTheWrittenOnes(text);
    StripKeeps(text, IsSpace);
    assert text[|['第'] + list|] == '节';
    assert '节' !in ['第'] + list;
    SplitAfter(['第'] + list, [], '节');
    SkipToNumbers(['第'] + list);
    assert (['第'] + list)[1..] == list;
    hide FindNumbers, Split, Strip, PeriodNumbers;
  }
}
