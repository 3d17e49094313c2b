/** app/jwxt_core.py: the week parameter of schedule queries, clamped, capped and sorted. */
module WeekParam {
  import opened PyText

  const WEEK_MIN := 1
  const WEEK_MAX := 30
  const MAX_SEGMENTS := 40
  const MAX_WEEKS := 60

  /** A scalar of a JSON body; a text stands also for any other value, as `str` prints it. */
  datatype Scalar = Bool(b: bool) | Int(n: int) | Text(s: string)

  datatype Value = Null | One(scalar: Scalar) | Items(items: seq<Scalar>)

  // ----- reading an integer -----

  predicate IsQuote(c: char) {
    c == '\'' || c == '"' || c == '\\' || c == ' '
  }

  /** `strip("'\"\\ ")`. */
  function Unquoted(s: string): string {
    StripBy(s, (c: char) => IsQuote(c))
  }

  /** `_to_int(v, None)`. */
  function ToInt(v: Scalar): Option<int> {
    match v
    case Bool(b) => Some(if b then 1 else 0)
    case Int(n) => Some(n)
    case Text(s) => ParseInt(Unquoted(Strip(s)))
  }

  function Clamp(n: int): (w: int)
    ensures WEEK_MIN <= w <= WEEK_MAX
    ensures WEEK_MIN <= n <= WEEK_MAX ==> w == n
    ensures (n < WEEK_MIN ==> w == WEEK_MIN) && (n > WEEK_MAX ==> w == WEEK_MAX)
  {
    if n > WEEK_MAX then WEEK_MAX else if n < WEEK_MIN then WEEK_MIN else n
  }

  // ----- what a week parameter means -----

  function Weeks1(v: Scalar): seq<int> {
    match ToInt(v)
    case Some(n) => [Clamp(n)]
    case None => []
  }

  function Span(lo: int, hi: int): seq<int>
    decreases hi - lo
  {
    if lo > hi then [] else [lo] + Span(lo + 1, hi)
  }

  /** The position of the first dash. */
  function Dash(s: string): Option<nat> {
    if s == [] then None
    else if s[0] == '-' then Some(0)
    else
      match Dash(s[1..])
      case Some(i) => Some(i + 1)
      case None => None
  }

  lemma {:induction false} DashInside(s: string)
    ensures Dash(s).Some? ==> Dash(s).value < |s|
    ensures Dash(s).Some? <==> '-' in s
  {
    if s != [] {
      DashInside(s[1..]);
    }
  }

  /** The weeks of one segment of the text. */
  function SegmentWeeks(raw: string): seq<int> {
    var seg := Unquoted(Strip(raw));
    DashInside(seg);
    if seg == [] then []
    else
      match Dash(seg)
      case None => Weeks1(Text(seg))
      case Some(i) =>
        var a, b := ToInt(Text(seg[..i])), ToInt(Text(seg[i + 1..]));
        if a.Some? && b.Some? then
          var x, y := Clamp(a.value), Clamp(b.value);
          if x <= y then Span(x, y) else Span(y, x)
        else []
  }

  function LowerChar(c: char): char {
    if 'A' <= c <= 'Z' then (c as int + 32) as char else c
  }

  function Lower(s: string): string {
    seq(|s|, i requires 0 <= i < |s| => LowerChar(s[i]))
  }

  /** The text stands for the whole term. */
  predicate IsWholeTerm(s: string) {
    s == "" || s == "all" || s == "全部" || s == "全学期"
  }

  function CommaChar(c: char): char {
    if c == '，' then ',' else c
  }

  function Commas(s: string): string {
    seq(|s|, i requires 0 <= i < |s| => CommaChar(s[i]))
  }

  function First<T>(s: seq<T>, n: nat): seq<T> {
    if |s| <= n then s else s[..n]
  }

  function TextOf(v: Scalar): string {
    match v
    case Bool(b) => if b then "True" else "False"
    case Int(n) => if n < 0 then "-" + Decimal(-n) else Decimal(n)
    case Text(s) => s
  }

  function Segments(s: string): seq<string> {
    First(Split(Commas(s), ','), MAX_SEGMENTS)
  }

  function AllSegmentWeeks(segments: seq<string>): seq<int> {
    if segments == [] then []
    else AllSegmentWeeks(segments[..|segments| - 1]) + SegmentWeeks(segments[|segments| - 1])
  }

  function AllItemWeeks(items: seq<Scalar>): seq<int> {
    if items == [] then [] else AllItemWeeks(items[..|items| - 1]) + Weeks1(items[|items| - 1])
  }

  /** All weeks named, in the order they are written. */
  function Named(v: Value): seq<int> {
    match v
    case Null => []
    case Items(items) => AllItemWeeks(items)
    case One(scalar) =>
      var s := Lower(Strip(TextOf(scalar)));
      if IsWholeTerm(s) then [] else AllSegmentWeeks(Segments(s))
  }

  ghost function Elements(s: seq<int>): set<int> {
    set w | w in s
  }

  /** `_parse_weeks`: the first weeks named, sorted, without repetition; none when there are none. */
  ghost function Parsed(v: Value): Option<seq<int>> {
    var weeks := Elements(First(Named(v), MAX_WEEKS));
    if weeks == {} then None else Some(Sorted(weeks))
  }

  // ----- the loops -----

  /** `sorted(set(out))`. */
  method SortedSet(out: seq<int>) returns (r: seq<int>)
    requires forall w | w in out :: WEEK_MIN <= w <= WEEK_MAX
    ensures r == Sorted(Elements(out))
  {
    r := [];
    for w := WEEK_MIN to WEEK_MAX + 1
      invariant Ascending(r) && forall x :: x in r <==> x in out && x < w
    {
      if w in out {
        AscendingAppend(r, w);
        r := r + [w];
      }
    }
    SortedIsAscending(Elements(out));
    AscendingIsUnique(r, Sorted(Elements(out)));
  }

  method ItemLoop(items: seq<Scalar>) returns (out: seq<int>)
    ensures out == First(AllItemWeeks(items), MAX_WEEKS)
    ensures forall w | w in out :: WEEK_MIN <= w <= WEEK_MAX
  {
    hide ToInt;
    out := [];
    var i := 0;
    assert items[..|items|] == items;
    while i < |items| && |out| < MAX_WEEKS
      invariant 0 <= i <= |items| && |out| <= MAX_WEEKS
      invariant out == AllItemWeeks(items[..i])
      invariant forall w | w in out :: WEEK_MIN <= w <= WEEK_MAX
    {
      assert items[..i + 1][..i] == items[..i];
      var n := ToInt(items[i]);
      if n.Some? {
        out := out + [Clamp(n.value)];
      }
      i := i + 1;
    }
    ItemsGrow(items, i);
  }

  lemma {:induction false} ItemsGrow(items: seq<Scalar>, i: nat)
    requires i <= |items|
    ensures AllItemWeeks(items[..i]) <= AllItemWeeks(items)
  {
    if i == |items| {
      assert items[..i] == items;
    } else {
      var n := |items| - 1;
      ItemsGrow(items[..n], i);
      assert items[..n][..i] == items[..i];
    }
  }

  lemma {:induction false} SegmentsGrow(segments: seq<string>, i: nat)
    requires i <= |segments|
    ensures AllSegmentWeeks(segments[..i]) <= AllSegmentWeeks(segments)
  {
    if i == |segments| {
      assert segments[..i] == segments;
    } else {
      var n := |segments| - 1;
      SegmentsGrow(segments[..n], i);
      assert segments[..n][..i] == segments[..i];
    }
  }

  /** `for w in range(lo, hi + 1)`, until enough weeks are found. */
  method SpanLoop(before: seq<int>, lo: int, hi: int) returns (out: seq<int>)
    requires |before| < MAX_WEEKS && WEEK_MIN <= lo <= hi <= WEEK_MAX
    ensures out == First(before + Span(lo, hi), MAX_WEEKS)
    ensures forall w | w in out :: w in before || lo <= w <= hi
  {
    out := before;
    var w := lo;
    while w <= hi && |out| < MAX_WEEKS
      invariant lo <= w <= hi + 1 && |out| <= MAX_WEEKS
      invariant out + Span(w, hi) == before + Span(lo, hi)
      invariant forall x | x in out :: x in before || lo <= x <= hi
    {
      assert out + ([w] + Span(w + 1, hi)) == (out + [w]) + Span(w + 1, hi);
      out := out + [w];
      w := w + 1;
    }
    assert out <= before + Span(lo, hi);
    if w > hi {
      assert out + [] == out;
    }
  }

  /** One segment: a range between two dashes, one week, or nothing. */
  method SegmentStep(before: seq<int>, raw: string) returns (out: seq<int>)
    requires |before| < MAX_WEEKS && forall w | w in before :: WEEK_MIN <= w <= WEEK_MAX
    ensures out == First(before + SegmentWeeks(raw), MAX_WEEKS)
    ensures forall w | w in out :: WEEK_MIN <= w <= WEEK_MAX
  {
    hide ToInt, Unquoted, Strip;
    var seg := Unquoted(Strip(raw));
    DashInside(seg);
    assert before + [] == before;
    if seg == [] {
      return before;
    }
    var dash := Dash(seg);
    hide Dash;
    if dash.None? {
      var n := ToInt(Text(seg));
      return if n.Some? then before + [Clamp(n.value)] else before;
    }
    var a, b := ToInt(Text(seg[..dash.value])), ToInt(Text(seg[dash.value + 1..]));
    if a.None? || b.None? {
      return before;
    }
    var x, y := Clamp(a.value), Clamp(b.value);
    out := SpanLoop(before, if x <= y then x else y, if x <= y then y else x);
  }

  method SegmentLoop(segments: seq<string>) returns (out: seq<int>)
    ensures out == First(AllSegmentWeeks(segments), MAX_WEEKS)
    ensures forall w | w in out :: WEEK_MIN <= w <= WEEK_MAX
  {
    hide SegmentWeeks;
    out := [];
    var i := 0;
    assert segments[..|segments|] == segments;
    while i < |segments| && |out| < MAX_WEEKS
      invariant 0 <= i <= |segments| && |out| <= MAX_WEEKS
      invariant out == First(AllSegmentWeeks(segments[..i]), MAX_WEEKS)
      invariant forall w | w in out :: WEEK_MIN <= w <= WEEK_MAX
    {
      assert segments[..i + 1][..i] == segments[..i];
      out := SegmentStep(out, segments[i]);
      i := i + 1;
    }
    SegmentsGrow(segments, i);
  }

  /** What the weeks found make of the result. */
  lemma {:induction false} ParsedIs(v: Value, out: seq<int>)
    requires out == First(Named(v), MAX_WEEKS)
    ensures Parsed(v) == if out == [] then None else Some(Sorted(Elements(out)))
  {
    hide Named, Sorted;
    if out != [] {
      assert out[0] in Elements(out);
    } else {
      assert Elements(out) == {};
    }
  }

  /** `_parse_weeks`. */
  method ParseWeeks(v: Value) returns (r: Option<seq<int>>)
    ensures r == Parsed(v)
  {
    hide Parsed, AllItemWeeks, AllSegmentWeeks, Sorted, IsWholeTerm, Lower, Strip, TextOf, Segments;
    var out: seq<int> := [];
    match v {
      case Null =>
      case Items(items) =>
        out := ItemLoop(items);
      case One(scalar) =>
        var s := Lower(Strip(TextOf(scalar)));
        if !IsWholeTerm(s) {
          out := SegmentLoop(Segments(s));
        }
    }
    ParsedIs(v, out);
    if out == [] {
      return None;
    }
    var sorted := SortedSet(out);
    return Some(sorted);
  }

  // ----- normal forms -----

  /** Ascending weeks of the allowed range, at least one. */
  predicate IsNormal(weeks: seq<int>) {
    weeks != [] && Ascending(weeks) && AllInRange(weeks)
  }

  lemma {:induction false} SpanIsInside(lo: int, hi: int)
    requires WEEK_MIN <= lo && hi <= WEEK_MAX
    ensures AllInRange(Span(lo, hi))
    decreases hi - lo
  {
    if lo <= hi {
      SpanIsInside(lo + 1, hi);
    }
  }

  predicate AllInRange(weeks: seq<int>) {
    forall i | 0 <= i < |weeks| :: WEEK_MIN <= weeks[i] <= WEEK_MAX
  }

  lemma {:induction false} SegmentInRange(raw: string)
    ensures AllInRange(SegmentWeeks(raw))
  {
    hide ToInt, Unquoted, Strip;
    var seg := Unquoted(Strip(raw));
    DashInside(seg);
    if seg != [] && Dash(seg).Some? {
      var i := Dash(seg).value;
      var a, b := ToInt(Text(seg[..i])), ToInt(Text(seg[i + 1..]));
      if a.Some? && b.Some? {
        SpanIsInside(Clamp(a.value), Clamp(b.value));
        SpanIsInside(Clamp(b.value), Clamp(a.value));
      }
    }
  }

  lemma {:induction false} SegmentsInRange(segments: seq<string>)
    ensures AllInRange(AllSegmentWeeks(segments))
  {
    hide SegmentWeeks;
    if segments != [] {
      SegmentsInRange(segments[..|segments| - 1]);
      SegmentInRange(segments[|segments| - 1]);
    }
  }

  lemma {:induction false} ItemsInRange(items: seq<Scalar>)
    ensures AllInRange(AllItemWeeks(items))
  {
    hide ToInt;
    if items != [] {
      ItemsInRange(items[..|items| - 1]);
    }
  }

  /** Whatever the parameter, its weeks are in normal form. */
  lemma {:induction false} ParsedIsNormal(v: Value)
    ensures Parsed(v).Some? ==> IsNormal(Parsed(v).value)
  {
    match v {
      case Null =>
      case Items(items) => ItemsInRange(items);
      case One(scalar) => SegmentsInRange(Segments(Lower(Strip(TextOf(scalar)))));
    }
    hide AllItemWeeks, AllSegmentWeeks, IsWholeTerm, Lower, Strip, TextOf, Segments;
    assert AllInRange(Named(v));
    var out := First(Named(v), MAX_WEEKS);
    hide Named;
    ParsedIs(v, out);
    SortedIsAscending(Elements(out));
    if out != [] {
      var weeks := Sorted(Elements(out));
      assert out[0] in Elements(out);
      assert out[0] in weeks;
      forall i | 0 <= i < |weeks| ensures WEEK_MIN <= weeks[i] <= WEEK_MAX {
        assert weeks[i] in weeks;
      }
      hide Sorted;
    }
  }

  lemma {:induction false} NormalIsShort(weeks: seq<int>)
    requires Ascending(weeks) && AllInRange(weeks)
    ensures |weeks| <= WEEK_MAX
    ensures forall i | 0 <= i < |weeks| :: weeks[i] >= i + 1
  {
    if weeks != [] {
      var n := |weeks| - 1;
      NormalIsShort(weeks[..n]);
      forall i | 0 <= i < |weeks| ensures weeks[i] >= i + 1 {
        if n > 0 {
          assert weeks[..n][n - 1] == weeks[n - 1];
        }
        assert i < n ==> weeks[..n][i] == weeks[i];
      }
      assert weeks[n] >= n + 1;
    }
  }

  lemma {:induction false} NormalIsSorted(weeks: seq<int>)
    requires IsNormal(weeks)
    ensures Sorted(Elements(weeks)) == weeks && First(weeks, MAX_WEEKS) == weeks
  {
    NormalIsShort(weeks);
    SortedIsAscending(Elements(weeks));
    AscendingIsUnique(weeks, Sorted(Elements(weeks)));
  }

  // ----- printing -----

  function Decimals(weeks: seq<int>): (r: seq<string>)
    requires AllInRange(weeks)
    ensures |r| == |weeks| && forall i | 0 <= i < |r| :: r[i] == Decimal(weeks[i])
  {
    seq(|weeks|, i requires 0 <= i < |weeks| => Decimal(weeks[i]))
  }

  /** `",".join(str(x) for x in weeks)`. */
  function Printed(weeks: seq<int>): string
    requires AllInRange(weeks)
  {
    Join(Decimals(weeks), ",")
  }

  /** A printed week reads back as the week. */
  lemma {:induction false} DecimalReadsBack(n: nat)
    requires n < 100
    ensures ToInt(Text(Decimal(n))) == Some(n) && Unquoted(Strip(Decimal(n))) == Decimal(n) && '-' !in Decimal(n)
  {
    var d := Decimal(n);
    assert IsDigit(d[0]) && IsDigit(d[|d| - 1]);
    StripKeeps(d, IsSpace);
    StripKeeps(d, (c: char) => IsQuote(c));
    assert n >= 10 ==> |Decimal(n / 10)| == 1;
    hide Decimal, ParseInt;
    ParseDecimal(n);
  }

  lemma {:induction false} SegmentReadsBack(n: nat)
    requires WEEK_MIN <= n <= WEEK_MAX
    ensures SegmentWeeks(Decimal(n)) == [n]
  {
    DecimalReadsBack(n);
    DashInside(Decimal(n));
    assert Decimal(n) != [];
    hide Decimal, ToInt, Unquoted;
  }

  lemma {:induction false} SegmentsReadBack(weeks: seq<int>)
    requires AllInRange(weeks)
    ensures AllSegmentWeeks(Decimals(weeks)) == weeks
  {
    hide SegmentWeeks, Decimal;
    if weeks != [] {
      var n := |weeks| - 1;
      SegmentsReadBack(weeks[..n]);
      SegmentReadsBack(weeks[n]);
      assert Decimals(weeks)[..n] == Decimals(weeks[..n]);
    }
  }

  predicate IsPrintedChar(c: char) {
    IsDigit(c) || c == ','
  }

  lemma {:induction false} PrintedChars(parts: seq<string>)
    requires parts != [] && forall i | 0 <= i < |parts| :: parts[i] != [] && AllDigits(parts[i])
    ensures var s := Join(parts, ","); s != [] && IsDigit(s[0]) && IsDigit(s[|s| - 1]) && forall c | c in s :: IsPrintedChar(c)
  {
    if |parts| > 1 {
      PrintedChars(parts[1..]);
    }
  }

  /** Printed weeks pass through the text steps unchanged. */
  lemma {:induction false} PrintedIsPlain(weeks: seq<int>)
    requires IsNormal(weeks)
    ensures var s := Printed(weeks);
            Strip(s) == s && Lower(s) == s && Commas(s) == s && !IsWholeTerm(s) && Split(s, ',') == Decimals(weeks)
  {
    var s := Printed(weeks);
    var parts := Decimals(weeks);
    hide Decimal;
    assert parts != [] && forall i | 0 <= i < |parts| :: parts[i] != [] && AllDigits(parts[i]) && ',' !in parts[i];
    PrintedChars(parts);
    SplitJoin(parts, ',');
    StripKeeps(s, IsSpace);
    NotWholeTerm(s);
    forall i | 0 <= i < |s| ensures LowerChar(s[i]) == s[i] && CommaChar(s[i]) == s[i] {
      assert s[i] in s;
    }
    assert Lower(s) == s && Commas(s) == s;
  }

  lemma {:induction false} NotWholeTerm(s: string)
    requires s != [] && IsDigit(s[0])
    ensures !IsWholeTerm(s)
  {
  }

  /**
   * Printing and parsing again is the identity on every parsed parameter, clamped and capped or not, and so is parsing
   * the list of weeks again.
   */
  lemma {:induction false} PrintParses(v: Value)
    requires Parsed(v).Some?
    ensures AllInRange(Parsed(v).value)
    ensures Parsed(One(Text(Printed(Parsed(v).value)))) == Parsed(v)
    ensures Parsed(Items(Ints(Parsed(v).value))) == Parsed(v)
  {
    var weeks := Parsed(v).value;
    ParsedIsNormal(v);
    assert IsNormal(weeks);
    hide Parsed;
    NormalParses(weeks);
  }

  function Ints(weeks: seq<int>): seq<Scalar> {
    seq(|weeks|, i requires 0 <= i < |weeks| => Int(weeks[i]))
  }

  lemma {:induction false} ItemsReadBack(weeks: seq<int>)
    requires AllInRange(weeks)
    ensures AllItemWeeks(Ints(weeks)) == weeks
  {
    if weeks != [] {
      var n := |weeks| - 1;
      ItemsReadBack(weeks[..n]);
      assert Ints(weeks)[..n] == Ints(weeks[..n]);
    }
  }

  lemma {:induction false} NormalParses(weeks: seq<int>)
    requires IsNormal(weeks)
    ensures Parsed(One(Text(Printed(weeks)))) == Some(weeks)
    ensures Parsed(Items(Ints(weeks))) == Some(weeks)
  {
    NormalIsSorted(weeks);
    PrintedIsNamed(weeks);
    ItemsReadBack(weeks);
    var s := Printed(weeks);
    assert Named(Items(Ints(weeks))) == weeks;
    hide Printed, Named, AllItemWeeks, Parsed, Sorted;
    ParsedIs(One(Text(s)), weeks);
    ParsedIs(Items(Ints(weeks)), weeks);
  }

  lemma {:induction false} PrintedIsNamed(weeks: seq<int>)
    requires IsNormal(weeks)
    ensures Named(One(Text(Printed(weeks)))) == weeks
  {
    NormalIsShort(weeks);
    PrintedIsPlain(weeks);
    SegmentsReadBack(weeks);
    var s := Printed(weeks);
    hide Printed, Strip, Lower, Commas, IsWholeTerm, Split, AllSegmentWeeks, Ascending, AllInRange, Decimals;
    assert TextOf(Text(s)) == s;
    assert Segments(s) == Decimals(weeks);
  }
}
