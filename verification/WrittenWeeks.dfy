/** app/jwxt_core.py, `_parse_weeks`: which weeks a written list of weeks and ranges means. */
module WrittenWeeks {
  import opened PyText
  import opened WeekParam

  /** One week or a range of weeks, as a user writes it. */
  datatype Part = Week(n: nat) | Range(a: nat, b: nat)

  function PartText(p: Part): string {
    match p
    case Week(n) => Decimal(n)
    case Range(a, b) => Decimal(a) + "-" + Decimal(b)
  }

  /** `int()` takes a number of so many digits. */
  predicate IsReadable(p: Part) {
    match p
    case Week(n) => |Decimal(n)| <= MAX_DIGITS
    case Range(a, b) => |Decimal(a)| <= MAX_DIGITS && |Decimal(b)| <= MAX_DIGITS
  }

  /** A week outside the term counts as its nearest week; a range goes from the lesser to the greater of its ends. */
  predicate Means(p: Part, w: int) {
    match p
    case Week(n) => w == Nearest(n)
    case Range(a, b) => Lesser(a, b) <= w <= Greater(a, b)
  }

  function Lesser(a: nat, b: nat): int {
    if a <= b then Nearest(a) else Nearest(b)
  }

  function Greater(a: nat, b: nat): int {
    if a <= b then Nearest(b) else Nearest(a)
  }

  function Nearest(n: int): int {
    if n <= 1 then 1 else if n >= 30 then 30 else n
  }

  function PartTexts(parts: seq<Part>): (r: seq<string>)
    ensures |r| == |parts|
  {
    if parts == [] then [] else PartTexts(parts[..|parts| - 1]) + [PartText(parts[|parts| - 1])]
  }

  predicate MeansSome(parts: seq<Part>, w: int) {
    exists i | 0 <= i < |parts| :: Means(parts[i], w)
  }

  /** The weeks of a part in the order they count towards the cap. */
  function WeeksOf(p: Part): seq<int> {
    match p
    case Week(n) => [Nearest(n)]
    case Range(a, b) => Counted(Lesser(a, b), Greater(a, b))
  }

  /** The numbers from `lo` to `hi`, each once, in order. */
  function Counted(lo: int, hi: int): (s: seq<int>)
    requires lo <= hi
    ensures |s| == hi - lo + 1
  {
    seq(hi - lo + 1, i => lo + i)
  }

  function WeeksOfAll(parts: seq<Part>): seq<int> {
    if parts == [] then [] else WeeksOfAll(parts[..|parts| - 1]) + WeeksOf(parts[|parts| - 1])
  }

  // ----- one part -----

  lemma {:induction false} SpanCounts(lo: int, hi: int)
    requires lo <= hi
    ensures Span(lo, hi) == Counted(lo, hi)
    decreases hi - lo
  {
    assert Counted(lo, hi)[0] == lo;
    if lo < hi {
      SpanCounts(lo + 1, hi);
      assert Counted(lo, hi) == [lo] + Counted(lo + 1, hi);
    } else {
      assert Span(lo + 1, hi) == [];
    }
  }

  lemma {:induction false} CountedHas(lo: int, hi: int, w: int)
    requires lo <= hi
    ensures w in Counted(lo, hi) <==> lo <= w <= hi
  {
    if lo <= w <= hi {
      assert Counted(lo, hi)[w - lo] == w;
    }
  }

  /** A number is read from its digits, which have neither blanks nor quotes around them. */
  lemma {:induction false} NumberReads(n: nat)
    requires |Decimal(n)| <= MAX_DIGITS
    ensures ToInt(Text(Decimal(n))) == Some(n)
  {
    var d := Decimal(n);
    assert IsDigit(d[0]) && IsDigit(d[|d| - 1]);
    StripKeeps(d, IsSpace);
    StripKeeps(d, (c: char) => IsQuote(c));
    hide Decimal, ParseInt;
    ParseDecimal(n);
  }

  lemma {:induction false} DashAfter(a: string, b: string)
    requires AllDigits(a)
    ensures Dash(a + "-" + b) == Some(|a|)
  {
    var s := a + "-" + b;
    if a == [] {
      assert s[0] == '-';
    } else {
      assert IsDigit(a[0]);
      assert s[0] == a[0] && s[1..] == a[1..] + "-" + b;
      DashAfter(a[1..], b);
    }
  }

  lemma {:induction false} NoDash(d: string)
    requires AllDigits(d)
    ensures Dash(d) == None
  {
    DashInside(d);
  }

  /** Text that begins and ends with digits is taken as it stands. */
  lemma {:induction false} BareText(s: string)
    requires s != [] && IsDigit(s[0]) && IsDigit(s[|s| - 1])
    ensures Unquoted(Strip(s)) == s && Strip(s) == s
  {
    StripKeeps(s, IsSpace);
    StripKeeps(s, (c: char) => IsQuote(c));
  }

  lemma {:induction false} TextEnds(p: Part)
    ensures var s := PartText(p);
            s != [] && IsDigit(s[0]) && IsDigit(s[|s| - 1]) && forall i | 0 <= i < |s| :: IsDigit(s[i]) || s[i] == '-'
  {
    match p
    case Week(n) =>
      var d := Decimal(n);
      assert forall i | 0 <= i < |d| :: d[i] in d;
    case Range(a, b) =>
      var d, e := Decimal(a), Decimal(b);
      hide Decimal;
      assert (forall i | 0 <= i < |d| :: d[i] in d) && forall i | 0 <= i < |e| :: e[i] in e;
  }

  lemma {:induction false} WeekReads(n: nat)
    requires |Decimal(n)| <= MAX_DIGITS
    ensures SegmentWeeks(Decimal(n)) == [Nearest(n)]
  {
    TextEnds(Week(n));
    BareText(Decimal(n));
    NoDash(Decimal(n));
    NumberReads(n);
    hide Decimal, ToInt, Strip, Unquoted, Dash;
  }

  lemma {:induction false} CutAtDash(d: string, e: string)
    requires AllDigits(d)
    ensures var s, dash := d + "-" + e, Dash(d + "-" + e);
            s != [] && dash == Some(|d|) && |d| < |s| && s[..|d|] == d && s[|d| + 1..] == e
  {
    DashAfter(d, e);
  }

  lemma {:induction false} RangeSegment(s: string, d: string, e: string)
    requires s != [] && Unquoted(Strip(s)) == s
    requires Dash(s) == Some(|d|) && |d| < |s| && s[..|d|] == d && s[|d| + 1..] == e
    requires ToInt(Text(d)).Some? && ToInt(Text(e)).Some?
    ensures var (x, y) := (Clamp(ToInt(Text(d)).value), Clamp(ToInt(Text(e)).value));
            SegmentWeeks(s) == if x <= y then Span(x, y) else Span(y, x)
  {
    hide ToInt, Strip, Unquoted, Dash, Span;
  }

  lemma {:induction false} ClampedEnds(a: nat, b: nat)
    ensures Lesser(a, b) <= Greater(a, b)
    ensures if Clamp(a) <= Clamp(b) then Lesser(a, b) == Clamp(a) && Greater(a, b) == Clamp(b)
            else Lesser(a, b) == Clamp(b) && Greater(a, b) == Clamp(a)
  {
  }

  /** A written range yields exactly the weeks from its lesser to its greater end. */
  lemma {:induction false} RangeReads(a: nat, b: nat)
    requires |Decimal(a)| <= MAX_DIGITS && |Decimal(b)| <= MAX_DIGITS
    ensures SegmentWeeks(Decimal(a) + "-" + Decimal(b)) == Counted(Lesser(a, b), Greater(a, b))
  {
    var d, e := Decimal(a), Decimal(b);
    var s := d + "-" + e;
    TextEnds(Range(a, b));
    BareText(s);
    CutAtDash(d, e);
    NumberReads(a);
    NumberReads(b);
    hide Decimal, ToInt, Strip, Unquoted, Dash, Span, Counted, SegmentWeeks, AllDigits, IsDigit;
    RangeSegment(s, d, e);
    ClampedEnds(a, b);
    hide Clamp, Lesser, Greater, Nearest;
    SpanCounts(Lesser(a, b), Greater(a, b));
  }

  lemma {:induction false} PartReads(p: Part)
    requires IsReadable(p)
    ensures SegmentWeeks(PartText(p)) == WeeksOf(p)
  {
    match p
    case Week(n) => WeekReads(n);
    case Range(a, b) => RangeReads(a, b);
  }

  lemma {:induction false} PartMeans(p: Part)
    ensures forall w :: w in WeeksOf(p) <==> Means(p, w)
  {
    if p.Range? {
      forall w ensures w in WeeksOf(p) <==> Means(p, w) {
        CountedHas(Lesser(p.a, p.b), Greater(p.a, p.b), w);
      }
    }
  }

  // ----- the list -----

  lemma {:induction false} PartsRead(parts: seq<Part>)
    requires forall i | 0 <= i < |parts| :: IsReadable(parts[i])
    ensures AllSegmentWeeks(PartTexts(parts)) == WeeksOfAll(parts)
    ensures forall w :: w in WeeksOfAll(parts) <==> MeansSome(parts, w)
  {
    hide SegmentWeeks, PartText, Means, IsReadable, WeeksOf, MeansSome;
    if parts == [] {
      MeansAppended([], Week(1));
    } else {
      var n := |parts| - 1;
      PartsRead(parts[..n]);
      PartReads(parts[n]);
      PartMeans(parts[n]);
      assert PartTexts(parts)[..n] == PartTexts(parts[..n]);
      MeansAppended(parts[..n], parts[n]);
      assert parts == parts[..n] + [parts[n]];
    }
  }

  lemma {:induction false} MeansAppended(parts: seq<Part>, p: Part)
    ensures forall w :: MeansSome(parts + [p], w) <==> MeansSome(parts, w) || Means(p, w)
    ensures forall w :: !MeansSome([], w)
  {
    hide Means;
    forall w ensures MeansSome(parts + [p], w) <==> MeansSome(parts, w) || Means(p, w) {
      if i :| 0 <= i < |parts| && Means(parts[i], w) {
        assert Means((parts + [p])[i], w);
      }
      assert Means(p, w) ==> Means((parts + [p])[|parts|], w);
    }
  }

  predicate IsListChar(c: char) {
    IsDigit(c) || c == '-' || c == ',' || c == '，'
  }

  predicate IsPartText(s: string) {
    s != [] && IsDigit(s[0]) && IsDigit(s[|s| - 1]) && forall i | 0 <= i < |s| :: IsDigit(s[i]) || s[i] == '-'
  }

  lemma {:induction false} TextsAreParts(parts: seq<Part>)
    ensures forall i | 0 <= i < |parts| :: PartTexts(parts)[i] == PartText(parts[i]) && IsPartText(PartTexts(parts)[i])
  {
    hide PartText;
    if parts != [] {
      TextsAreParts(parts[..|parts| - 1]);
      TextEnds(parts[|parts| - 1]);
    }
  }

  lemma {:induction false} JoinedEnds(texts: seq<string>, sep: char)
    requires texts != [] && forall i | 0 <= i < |texts| :: IsPartText(texts[i])
    requires sep == ',' || sep == '，'
    ensures var s := Join(texts, [sep]);
            s != [] && IsDigit(s[0]) && IsDigit(s[|s| - 1]) && forall i | 0 <= i < |s| :: IsListChar(s[i])
  {
    if |texts| > 1 {
      JoinedEnds(texts[1..], sep);
    }
  }

  lemma {:induction false} CommasAdd(a: string, b: string)
    ensures Commas(a + b) == Commas(a) + Commas(b)
  {
  }

  /** Full-width commas separate like the others. */
  lemma {:induction false} CommasOfJoined(texts: seq<string>, sep: char)
    requires texts != [] && forall i | 0 <= i < |texts| :: IsPartText(texts[i])
    requires sep == ',' || sep == '，'
    ensures Commas(Join(texts, [sep])) == Join(texts, [','])
  {
    assert Commas(texts[0]) == texts[0];
    if |texts| > 1 {
      CommasOfJoined(texts[1..], sep);
      CommasAdd(texts[0] + [sep], Join(texts[1..], [sep]));
      CommasAdd(texts[0], [sep]);
      assert Commas([sep]) == [','];
      hide Commas;
    }
  }

  lemma {:induction false} ListIsBare(s: string)
    requires s != [] && IsDigit(s[0]) && IsDigit(s[|s| - 1]) && forall i | 0 <= i < |s| :: IsListChar(s[i])
    ensures Strip(s) == s && Lower(s) == s && !IsWholeTerm(s)
  {
    StripKeeps(s, IsSpace);
    NotWholeTerm(s);
  }

  /** The weeks of the first forty parts, in the order they are written. */
  lemma {:induction false} ListIsNamed(parts: seq<Part>, sep: char)
    requires parts != [] && (sep == ',' || sep == '，')
    ensures Named(One(Text(Join(PartTexts(parts), [sep])))) == AllSegmentWeeks(First(PartTexts(parts), MAX_SEGMENTS))
  {
    var texts := PartTexts(parts);
    var s := Join(texts, [sep]);
    TextsAreParts(parts);
    hide PartTexts, PartText;
    JoinedEnds(texts, sep);
    ListIsBare(s);
    CommasOfJoined(texts, sep);
    assert forall i | 0 <= i < |texts| :: ',' !in texts[i];
    SplitJoin(texts, ',');
    assert TextOf(Text(s)) == s;
    hide Strip, Lower, Commas, IsWholeTerm, Split, Join, AllSegmentWeeks, IsPartText;
  }

  lemma {:induction false} FirstTexts(parts: seq<Part>, n: nat)
    ensures First(PartTexts(parts), n) == PartTexts(First(parts, n))
  {
    hide PartText;
    if |parts| > n {
      FirstTexts(parts[..|parts| - 1], n);
      if |parts| > n + 1 {
        assert PartTexts(parts)[..n] == PartTexts(parts[..|parts| - 1])[..n];
        assert parts[..|parts| - 1][..n] == parts[..n];
      } else {
        assert parts[..|parts| - 1] == parts[..n];
      }
    }
  }

  /**
   * A list of weeks and ranges, separated by either comma, means the first sixty weeks its first forty parts name, each once in
   * ascending order; and when they name no more than sixty, exactly the weeks some of these parts means.
   */
  lemma {:induction false} ListIsRead(parts: seq<Part>, sep: char)
    requires parts != [] && (sep == ',' || sep == '，') && forall i | 0 <= i < |parts| :: IsReadable(parts[i])
    ensures var r := Parsed(One(Text(Join(PartTexts(parts), [sep]))));
            var some := First(parts, MAX_SEGMENTS);
            && r.Some? && Ascending(r.value)
            && (forall w :: w in r.value <==> w in First(WeeksOfAll(some), MAX_WEEKS))
            && (|WeeksOfAll(some)| <= MAX_WEEKS ==> forall w :: w in r.value <==> MeansSome(some, w))
  {
    var v := One(Text(Join(PartTexts(parts), [sep])));
    var some := First(parts, MAX_SEGMENTS);
    ListIsNamed(parts, sep);
    FirstTexts(parts, MAX_SEGMENTS);
    PartsRead(some);
    FirstIsNotEmpty(some);
    var named := First(WeeksOfAll(some), MAX_WEEKS);
    hide PartTexts, WeeksOfAll, Parsed, Sorted, MeansSome, IsReadable, AllSegmentWeeks, Named;
    ParsedIs(v, named);
    SortedIsAscending(Elements(named));
  }

  lemma {:induction false} FirstIsNotEmpty(parts: seq<Part>)
    requires parts != []
    ensures WeeksOfAll(parts) != []
  {
  }

  /** The range from a to b, alone, means exactly the weeks between its ends. */
  lemma {:induction false} OneRangeIsRead(a: nat, b: nat)
    requires |Decimal(a)| <= MAX_DIGITS && |Decimal(b)| <= MAX_DIGITS
    ensures var r := Parsed(One(Text(Decimal(a) + "-" + Decimal(b))));
            r.Some? && Ascending(r.value) && forall w :: w in r.value <==> Means(Range(a, b), w)
  {
    var p := Range(a, b);
    OnePart(p);
    hide Decimal, SegmentWeeks, AllSegmentWeeks, PartTexts, Parsed, Means, WeeksOfAll, MeansSome;
    assert Join([PartText(p)], [',']) == Decimal(a) + "-" + Decimal(b);
    ListIsRead([p], ',');
  }

  lemma {:induction false} PartIsShort(p: Part)
    ensures |WeeksOf(p)| <= 30
  {
  }

  lemma {:induction false} OnePart(p: Part)
    ensures PartTexts([p]) == [PartText(p)] && First([p], MAX_SEGMENTS) == [p]
    ensures WeeksOfAll([p]) == WeeksOf(p) && |WeeksOf(p)| <= 30
    ensures forall w :: MeansSome([p], w) <==> Means(p, w)
  {
    hide PartText, Means, Nearest, MeansSome;
    assert [p][..0] == [];
    assert PartTexts([p]) == PartTexts([p][..0]) + [PartText(p)];
    assert WeeksOfAll([p]) == WeeksOfAll([p][..0]) + WeeksOf(p);
    PartIsShort(p);
    MeansAppended([], p);
    assert [] + [p] == [p];
  }

  // ----- lists of numbers -----

  lemma {:induction false} NumbersRead(ns: seq<int>)
    ensures |AllItemWeeks(Ints(ns))| == |ns| && forall i | 0 <= i < |ns| :: AllItemWeeks(Ints(ns))[i] == Nearest(ns[i])
  {
    if ns != [] {
      var n := |ns| - 1;
      NumbersRead(ns[..n]);
      assert Ints(ns)[..n] == Ints(ns[..n]);
    }
  }

  /** A JSON list of at most sixty integers means the nearest weeks of the term. */
  lemma {:induction false} NumbersAreRead(ns: seq<int>)
    requires ns != [] && |ns| <= MAX_WEEKS
    ensures var r := Parsed(Items(Ints(ns)));
            r.Some? && Ascending(r.value) && forall w :: w in r.value <==> exists i | 0 <= i < |ns| :: w == Nearest(ns[i])
  {
    var weeks := AllItemWeeks(Ints(ns));
    NumbersRead(ns);
    hide Ints, AllItemWeeks, Sorted, Parsed, Nearest;
    assert Named(Items(Ints(ns))) == weeks;
    ParsedIs(Items(Ints(ns)), weeks);
    SortedIsAscending(Elements(weeks));
    forall w ensures w in weeks <==> exists i | 0 <= i < |ns| :: w == Nearest(ns[i]) {
      if i :| 0 <= i < |ns| && w == Nearest(ns[i]) {
        assert weeks[i] == w;
      }
    }
  }
}
