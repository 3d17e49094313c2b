/** Option and Result, and the few text operations of the Python standard library the models rely on. */
module PyText {

  datatype Option<+T> = None | Some(value: T)

  datatype Result<+T, +E> = Success(value: T) | Failure(error: E) {
    predicate IsFailure() {
      Failure?
    }

    function PropagateFailure<U>(): Result<U, E>
      requires Failure?
    {
      Failure(this.error)
    }

    function Extract(): T
      requires Success?
    {
      this.value
    }
  }

  // ----- characters -----

  /** The characters `str.strip()` removes. */
  predicate IsSpace(c: char) {
    || '\t' <= c <= '\r'
    || '\U{1c}' <= c <= ' '
    || c in {'\U{85}', '\U{a0}', '\U{1680}', '\U{2028}', '\U{2029}', '\U{202f}', '\U{205f}', '\U{3000}'}
    || '\U{2000}' <= c <= '\U{200a}'
  }

  predicate IsDigit(c: char) {
    '0' <= c <= '9'
  }

  predicate AllDigits(s: string) {
    forall c | c in s :: IsDigit(c)
  }

  /** Code point order on strings, as Python's `<`. */
  predicate Less(a: string, b: string) {
    b != [] && (a == [] || a[0] < b[0] || (a[0] == b[0] && Less(a[1..], b[1..])))
  }

  // ----- sequences of any element, used for text and for bytes -----

  function StripLeft<T>(s: seq<T>, blank: T -> bool): seq<T> {
    if s != [] && blank(s[0]) then StripLeft(s[1..], blank) else s
  }

  function StripRight<T>(s: seq<T>, blank: T -> bool): seq<T> {
    if s != [] && blank(s[|s| - 1]) then StripRight(s[..|s| - 1], blank) else s
  }

  function StripBy<T>(s: seq<T>, blank: T -> bool): seq<T> {
    StripRight(StripLeft(s, blank), blank)
  }

  function Strip(s: string): string {
    StripBy(s, IsSpace)
  }

  /** `s.split(sep)` for a one-element separator. */
  function Split<T(==)>(s: seq<T>, sep: T): (parts: seq<seq<T>>)
    ensures |parts| >= 1
  {
    if s == [] then [[]]
    else if s[0] == sep then [[]] + Split(s[1..], sep)
    else
      var rest := Split(s[1..], sep);
      [[s[0]] + rest[0]] + rest[1..]
  }

  /** `sep.join(parts)`. */
  function Join<T>(parts: seq<seq<T>>, sep: seq<T>): seq<T> {
    if |parts| == 0 then []
    else if |parts| == 1 then parts[0]
    else parts[0] + sep + Join(parts[1..], sep)
  }

  function Flatten<T>(parts: seq<seq<T>>): seq<T> {
    if parts == [] then [] else parts[0] + Flatten(parts[1..])
  }

  /** `s.replace(c, "")` for one character. */
  function Without(s: string, c: char): string {
    if s == [] then [] else (if s[0] == c then [] else [s[0]]) + Without(s[1..], c)
  }

  /** Text without a separator is one part. */
  lemma {:induction false} SplitOne<T>(s: seq<T>, sep: T)
    requires sep !in s
    ensures Split(s, sep) == [s]
  {
    if s != [] {
      SplitOne(s[1..], sep);
      assert s == [s[0]] + s[1..];
    }
  }

  /** Text that neither begins nor ends with a blank is not stripped. */
  lemma {:induction false} StripKeeps<T>(s: seq<T>, blank: T -> bool)
    requires s != [] ==> !blank(s[0]) && !blank(s[|s| - 1])
    ensures StripBy(s, blank) == s
  {
  }

  lemma {:induction false} StripRightOf<T>(s: seq<T>, blank: T -> bool)
    ensures StripRight(s, blank) <= s
    ensures var r := StripRight(s, blank); r == [] || !blank(r[|r| - 1])
  {
    if s != [] && blank(s[|s| - 1]) {
      StripRightOf(s[..|s| - 1], blank);
    }
  }

  lemma {:induction false} StripLeftOf<T>(s: seq<T>, blank: T -> bool)
    ensures var r := StripLeft(s, blank); r == [] || !blank(r[0])
  {
    if s != [] && blank(s[0]) {
      StripLeftOf(s[1..], blank);
    }
  }

  lemma {:induction false} StripTwice<T>(s: seq<T>, blank: T -> bool)
    ensures StripBy(StripBy(s, blank), blank) == StripBy(s, blank)
  {
    StripLeftOf(s, blank);
    StripRightOf(StripLeft(s, blank), blank);
    StripKeeps(StripBy(s, blank), blank);
  }

  /** Splitting after the first part. */
  lemma {:induction false} SplitAfter<T>(a: seq<T>, rest: seq<T>, sep: T)
    requires sep !in a
    ensures Split(a + [sep] + rest, sep) == [a] + Split(rest, sep)
  {
    var s := a + [sep] + rest;
    if a == [] {
      assert s[1..] == rest;
    } else {
      SplitAfter(a[1..], rest, sep);
      assert s[1..] == a[1..] + [sep] + rest;
      assert [a[0]] + a[1..] == a;
    }
  }

  /** Splitting what was joined gives the parts. */
  lemma {:induction false} SplitJoin<T>(parts: seq<seq<T>>, sep: T)
    requires parts != [] && forall i | 0 <= i < |parts| :: sep !in parts[i]
    ensures Split(Join(parts, [sep]), sep) == parts
  {
    hide Split;
    if |parts| == 1 {
      SplitOne(parts[0], sep);
    } else {
      SplitJoin(parts[1..], sep);
      SplitAfter(parts[0], Join(parts[1..], [sep]), sep);
      assert [parts[0]] + parts[1..] == parts;
    }
  }

  // ----- decimal numbers -----

  /** `"%d" % n` for a natural number. */
  function Decimal(n: nat): (s: string)
    ensures s != [] && AllDigits(s)
  {
    var last := [(n % 10 + '0' as int) as char];
    if n < 10 then last else Decimal(n / 10) + last
  }

  /** `int(s)` for a string of ASCII digits. */
  function Number(s: string): nat
    requires AllDigits(s)
  {
    if s == [] then 0
    else
      assert IsDigit(s[|s| - 1]);
      10 * Number(s[..|s| - 1]) + (s[|s| - 1] as int - '0' as int)
  }

  /** Reading back a printed number gives the number. */
  lemma {:induction false} NumberOfDecimal(n: nat)
    ensures Number(Decimal(n)) == n
  {
    var s := Decimal(n);
    if n >= 10 {
      NumberOfDecimal(n / 10);
      assert s[..|s| - 1] == Decimal(n / 10);
    } else {
      assert s[..|s| - 1] == [];
    }
  }

  /** `int()` refuses texts with more digits than this. */
  const MAX_DIGITS := 4300

  function Digits(s: string): Option<nat> {
    var parts := Split(s, '_');
    if (forall i | 0 <= i < |parts| :: parts[i] != [] && AllDigits(parts[i])) && |Flatten(parts)| <= MAX_DIGITS
    then
      FlattenDigits(parts);
      Some(Number(Flatten(parts)))
    else None
  }

  lemma {:induction false} FlattenDigits(parts: seq<string>)
    requires forall i | 0 <= i < |parts| :: AllDigits(parts[i])
    ensures AllDigits(Flatten(parts))
  {
    if parts != [] {
      FlattenDigits(parts[1..]);
    }
  }

  /** `int(s)` for a text: blanks around, a sign, and digits with single underscores between them. */
  function ParseInt(s: string): Option<int> {
    var t := Strip(s);
    if t != [] && (t[0] == '+' || t[0] == '-') then
      match Digits(t[1..])
      case Some(n) => Some(if t[0] == '-' then 0 - n else n)
      case None => None
    else
      match Digits(t)
      case Some(n) => Some(n)
      case None => None
  }

  /** A printed natural number of no more digits than `int()` takes reads back as the number. */
  lemma {:induction false} ParseDecimal(n: nat)
    requires |Decimal(n)| <= MAX_DIGITS
    ensures ParseInt(Decimal(n)) == Some(n)
  {
    var d := Decimal(n);
    assert IsDigit(d[0]) && IsDigit(d[|d| - 1]);
    StripKeeps(d, IsSpace);
    NumberOfDecimal(n);
    hide Decimal;
    SplitOne(d, '_');
    assert Flatten([d]) == d + Flatten([]);
    assert d + [] == d;
  }

  /** Printing has no more digits than the text a number was read from. */
  lemma {:induction false} DecimalIsShortest(s: string)
    requires AllDigits(s) && s != []
    ensures |Decimal(Number(s))| <= |s|
  {
    var n := |s| - 1;
    assert IsDigit(s[n]);
    if n > 0 {
      DecimalIsShortest(s[..n]);
      assert Number(s) / 10 == Number(s[..n]);
    } else {
      assert s[..0] == [];
    }
  }

  lemma {:induction false} FlattenAppend<T>(parts: seq<seq<T>>, last: seq<T>)
    ensures Flatten(parts + [last]) == Flatten(parts) + last
  {
    if parts == [] {
      assert [last][1..] == [];
      assert Flatten([last]) == last + Flatten([]);
    } else {
      FlattenAppend(parts[1..], last);
      assert (parts + [last])[1..] == parts[1..] + [last];
    }
  }

  lemma {:induction false} InFlatten<T>(parts: seq<seq<T>>, x: T)
    ensures x in Flatten(parts) <==> exists i | 0 <= i < |parts| :: x in parts[i]
  {
    if parts != [] {
      InFlatten(parts[1..], x);
      if x in Flatten(parts[1..]) {
        var i :| 0 <= i < |parts[1..]| && x in parts[1..][i];
        assert x in parts[i + 1];
      }
      if i :| 0 < i < |parts| && x in parts[i] {
        assert x in parts[1..][i - 1];
      }
    }
  }

  lemma {:induction false} LessIsStrict(a: string, b: string)
    ensures !(Less(a, b) && Less(b, a))
    ensures Less(a, b) || Less(b, a) || a == b
  {
    if a != [] && b != [] && a[0] == b[0] {
      LessIsStrict(a[1..], b[1..]);
      if a[1..] == b[1..] {
        assert a == [a[0]] + a[1..] == b;
      }
    }
  }

  lemma {:induction false} LessTransitive(a: string, b: string, c: string)
    requires Less(a, b) && Less(b, c)
    ensures Less(a, c)
  {
    if a != [] && a[0] == b[0] == c[0] {
      LessTransitive(a[1..], b[1..], c[1..]);
    }
  }

  // ----- sorted(set(...)) -----

  predicate Ascending(s: seq<int>) {
    forall i, j | 0 <= i < j < |s| :: s[i] < s[j]
  }

  lemma {:induction false} AscendingAppend(s: seq<int>, x: int)
    requires Ascending(s) && forall y | y in s :: y < x
    ensures Ascending(s + [x])
  {
    forall i, j | 0 <= i < j < |s| + 1 ensures (s + [x])[i] < (s + [x])[j] {
      assert s[i] in s;
    }
  }

  /** Some element of a non-empty set. */
  lemma {:induction false} Element<T>(s: set<T>) returns (e: T)
    requires s != {}
    ensures e in s
  {
    e :| e in s;
  }

  lemma {:induction false} SubsetSize<T>(a: set<T>, b: set<T>)
    requires a <= b
    ensures |a| <= |b| && (a != b ==> |a| < |b|)
  {
    assert |b - a| == |b| - |a|;
    if a != b {
      var e := Element(b - a) by {
        assert b - a != {};
      }
    }
  }

  lemma {:induction false} LeastExists(s: set<int>)
    requires s != {}
    ensures exists m :: m in s && forall x | x in s :: m <= x
  {
    var e := Element(s);
    if s - {e} == {} {
      assert s == {e};
    } else {
      LeastExists(s - {e});
      var m :| m in s - {e} && forall x | x in s - {e} :: m <= x;
      var least := if e < m then e else m;
      assert forall x | x in s :: x == e || x in s - {e};
      assert least in s;
    }
  }

  /** `sorted(s)` for a set of integers. */
  function Sorted(s: set<int>): seq<int> {
    if s == {} then []
    else
      LeastExists(s);
      var m :| m in s && forall x | x in s :: m <= x;
      [m] + Sorted(s - {m})
  }

  lemma {:induction false} AscendingPrepend(m: int, s: seq<int>)
    requires Ascending(s) && forall y | y in s :: m < y
    ensures Ascending([m] + s)
  {
    forall i, j | 0 <= i < j < |s| + 1 ensures ([m] + s)[i] < ([m] + s)[j] {
      assert s[j - 1] in s;
    }
  }

  lemma {:induction false} SortedIsAscending(s: set<int>)
    ensures Ascending(Sorted(s))
    ensures forall x :: x in Sorted(s) <==> x in s
  {
    if s != {} {
      LeastExists(s);
      var m :| m in s && forall x | x in s :: m <= x;
      var rest := Sorted(s - {m});
      SortedIsAscending(s - {m});
      AscendingPrepend(m, rest);
      assert Sorted(s) == [m] + rest;
      forall x ensures x in [m] + rest <==> x in s {
        assert x in s <==> x == m || x in s - {m};
      }
    }
  }

  /** An ascending sequence is determined by its elements. */
  lemma {:induction false} AscendingIsUnique(a: seq<int>, b: seq<int>)
    requires Ascending(a) && Ascending(b)
    requires forall x :: x in a <==> x in b
    ensures a == b
  {
    if b != [] {
      assert b[0] in b;
    }
    if a != [] {
      assert a[0] in a;
      forall x ensures x in a[1..] <==> x in b[1..] {
        assert x in a[1..] <==> x in a && x != a[0];
        assert x in b[1..] <==> x in b && x != b[0];
      }
      AscendingIsUnique(a[1..], b[1..]);
      assert a == [a[0]] + a[1..] && b == [b[0]] + b[1..];
    }
  }
}
