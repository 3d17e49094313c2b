/**
 * app/jwxt_core.py and app/jwxt_http.py: the download link a schedule query hands out, what the request through it carries,
 * and the key of the PDF cache on both sides.
 */
module DownloadLink {
  import opened PyText
  import opened WeekParam
  import opened LineFold
  import opened UrlCoding

  // ----- checks and keys -----

  /** `_weeks_param_error`: the parameter names something, but no week can be read from it. */
  ghost predicate WeeksAreRefused(v: Value) {
    match v
    case Null => false
    case Items(items) => items != [] && Parsed(v).None?
    case One(scalar) =>
      var s := Strip(TextOf(scalar));
      !IsWholeTerm(Lower(s)) && Parsed(One(Text(s))).None?
  }

  /** `_odd_or_double_error`. */
  predicate OddIsRefused(odd: Scalar) {
    ToInt(odd) != Some(1) && ToInt(odd) != Some(2)
  }

  /** `_norm_weeks_key`. */
  ghost function NormKey(v: Value): string {
    ParsedIsNormal(v);
    if Parsed(v).Some? then WeekParam.Printed(Parsed(v).value) else ""
  }

  function SemesterKey(semester: string): string {
    if Strip(semester) == "" then "__current__" else Strip(semester)
  }

  function OddKey(odd: Scalar): int {
    match ToInt(odd) case Some(n) => n case None => 1
  }

  /** `_schedule_pdf_cache_key`, with the owner part already made. */
  ghost function PdfKey(owner: string, semester: string, weeks: Value, odd: Scalar): string {
    ("pdf|" + owner + "|") + SemesterKey(semester) + ("|" + NormKey(weeks) + "|" + TextOf(Int(OddKey(odd))))
  }

  /** The prewarmed key is made from the parity already read. */
  ghost function PrewarmKey(owner: string, semester: string, weeks: Value, odd: Scalar): string {
    PdfKey(owner, semester, weeks, Int(OddKey(odd)))
  }

  // ----- the link and the request through it -----

  /** The query of `_schedule_export_suffix` before it is coded: `weeks` is left out when no week was named. */
  ghost function Fields(code: string, semester: string, weeks: Value, odd: Scalar): seq<Field> {
    [Field("code", code), Field("semester", semester)]
    + (if Parsed(weeks).Some? then [Field("weeks", NormKey(weeks))] else [])
    + [Field("odd_or_double", TextOf(odd))]
  }

  ghost function LinkQuery(code: string, semester: string, weeks: Value, odd: Scalar): string {
    Query(Fields(code, semester, weeks, odd))
  }

  /** What `_export` is called with for a query string: semester and weeks are decoded and stripped, the parity is taken as it stands. */
  datatype Request = Request(semester: string, weeks: string, odd: string)

  function Or(value: Option<string>, default: string): string {
    match value case Some(s) => s case None => default
  }

  /** None where `unquote` would substitute characters for octets that are no UTF-8. */
  ghost function Received(query: string): Option<Request> {
    match (Unquote(Or(Param(query, "semester"), "")), Unquote(Or(Param(query, "weeks"), "")))
    case (Some(semester), Some(weeks)) => Some(Request(Strip(semester), Strip(weeks), Or(Param(query, "odd_or_double"), "1")))
    case _ => None
  }

  /** `_export` refuses the request for its weeks or its parity. */
  ghost predicate IsRefused(r: Request) {
    WeeksAreRefused(One(Text(r.weeks))) || OddIsRefused(Text(r.odd))
  }

  /** `_export` parses the weeks and passes the list, or none, on to the cache. */
  ghost function ListOf(v: Value): Value {
    if Parsed(v).Some? then Items(Ints(Parsed(v).value)) else Null
  }

  ghost function RequestKey(owner: string, r: Request): string {
    PdfKey(owner, r.semester, ListOf(One(Text(r.weeks))), Text(r.odd))
  }

  // ----- reading the link -----

  lemma {:induction false} NamesAreSafe()
    ensures IsSafeText("code") && IsSafeText("semester") && IsSafeText("weeks") && IsSafeText("odd_or_double")
    ensures |"code"| == 4 && |"semester"| == 8 && |"weeks"| == 5 && |"odd_or_double"| == 13
  {
  }

  lemma {:induction false} NamesAreUncoded()
    ensures QuotePlus("code") == "code" && QuotePlus("semester") == "semester"
    ensures QuotePlus("weeks") == "weeks" && QuotePlus("odd_or_double") == "odd_or_double"
  {
    hide QuotePlus;
    NamesAreSafe();
    SafeIsUncoded("code");
    SafeIsUncoded("semester");
    SafeIsUncoded("weeks");
    SafeIsUncoded("odd_or_double");
  }

  /** Every parameter of the link is found, still coded; `weeks` is missing when no week was named. */
  lemma {:induction false} LinkParams(code: string, semester: string, weeks: Value, odd: Scalar)
    ensures var query := LinkQuery(code, semester, weeks, odd);
            && Param(query, "semester") == Some(QuotePlus(semester))
            && Param(query, "weeks") == (if Parsed(weeks).Some? then Some(QuotePlus(NormKey(weeks))) else None)
            && Param(query, "odd_or_double") == Some(QuotePlus(TextOf(odd)))
  {
    hide QuotePlus, Parsed, NormKey, Coded, Lookup, ReadFields, IsSafeText;
    var fields := Fields(code, semester, weeks, odd);
    QueryReadsBack(fields);
    NamesAreSafe();
    NamesAreUncoded();
    FieldIsFound(fields, 1);
    FieldIsFound(fields, |fields| - 1);
    if Parsed(weeks).Some? {
      FieldIsFound(fields, 2);
    } else {
      FieldIsAbsent(fields, "weeks");
    }
  }

  lemma {:induction false} NormKeyIsPlain(weeks: Value)
    ensures Strip(NormKey(weeks)) == NormKey(weeks) && ' ' !in NormKey(weeks)
  {
    ParsedIsNormal(weeks);
    if Parsed(weeks).Some? {
      var w := Parsed(weeks).value;
      PrintedIsPlain(w);
      DecimalsArePlain(w);
      hide Strip;
    }
  }

  lemma {:induction false} DecimalsArePlain(weeks: seq<int>)
    requires IsNormal(weeks)
    ensures ' ' !in WeekParam.Printed(weeks)
  {
    var parts := Decimals(weeks);
    hide Decimal;
    assert parts != [] && forall i | 0 <= i < |parts| :: parts[i] != [] && AllDigits(parts[i]);
    PrintedChars(parts);
  }

  /** What the request through a link carries: the weeks exactly, spaces of the semester as pluses, and the parity still coded. */
  lemma {:induction false} LinkIsReceived(code: string, semester: string, weeks: Value, odd: Scalar)
    ensures Received(LinkQuery(code, semester, weeks, odd))
            == Some(Request(Strip(Pluses(semester)), NormKey(weeks), QuotePlus(TextOf(odd))))
  {
    LinkParams(code, semester, weeks, odd);
    NormKeyIsPlain(weeks);
    EmptyIsUncoded();
    UnquoteOfQuotePlus(semester);
    UnquoteOfQuotePlus(NormKey(weeks));
    PlusesKeep(NormKey(weeks));
    UnquoteOfQuotePlus("");
    hide Strip, QuotePlus, Param, Unquote, Pluses, Parsed, WeekParam.Printed;
  }

  lemma {:induction false} EmptyIsUncoded()
    ensures QuotePlus("") == "" && Pluses("") == "" && Strip("") == ""
  {
  }

  /** The link asks for exactly the weeks of the query, and is never refused for them. */
  lemma {:induction false} LinkNamesTheWeeks(weeks: Value)
    ensures var v := One(Text(NormKey(weeks)));
            Parsed(v) == Parsed(weeks) && !WeeksAreRefused(v) && NormKey(ListOf(v)) == NormKey(weeks)
  {
    ParsedIsNormal(weeks);
    if Parsed(weeks).Some? {
      var w := Parsed(weeks).value;
      WeekParam.PrintParses(weeks);
      PrintedIsPlain(w);
      hide Parsed, WeekParam.Printed, Strip;
    } else {
      NothingIsParsed();
      hide Parsed, WeekParam.Printed;
    }
  }

  lemma {:induction false} NothingIsParsed()
    ensures Strip("") == "" && Lower("") == "" && TextOf(Text("")) == ""
    ensures Parsed(One(Text(""))) == None && Parsed(Null) == None
  {
  }

  // ----- the parity -----

  predicate IsDigits(s: string) {
    forall i | 0 <= i < |s| :: IsDigit(s[i]) || s[i] == '_'
  }

  /** Digits and underscores, after at most one space: what coding leaves readable. */
  predicate IsPlainNumber(s: string) {
    IsDigits(if s != [] && s[0] == ' ' then s[1..] else s)
  }

  /** A JSON integer, or a text that coding leaves readable. */
  predicate IsPlainParity(odd: Scalar) {
    odd.Int? || (odd.Text? && IsPlainNumber(odd.s))
  }

  lemma {:induction false} PartsAreDigits(s: string)
    requires forall i | 0 <= i < |Split(s, '_')| :: AllDigits(Split(s, '_')[i])
    ensures IsDigits(s)
  {
    if s != [] {
      var rest := Split(s[1..], '_');
      var parts := Split(s, '_');
      if s[0] == '_' {
        forall i | 0 <= i < |rest| ensures AllDigits(rest[i]) {
          assert parts[i + 1] == rest[i];
        }
      } else {
        assert parts[0] == [s[0]] + rest[0];
        assert parts[0][0] in parts[0] && forall c | c in rest[0] :: c in parts[0];
        forall i | 0 <= i < |rest| ensures AllDigits(rest[i]) {
          assert i > 0 ==> parts[i] == rest[i];
        }
      }
      PartsAreDigits(s[1..]);
      assert s == [s[0]] + s[1..];
    }
  }

  /** Coded text has no blank and no quote, so it is read as it stands. */
  lemma {:induction false} CodedIsBare(s: string)
    ensures ToInt(Text(QuotePlus(s))) == ParseInt(QuotePlus(s)) && Strip(QuotePlus(s)) == QuotePlus(s)
  {
    var q := QuotePlus(s);
    QuotePlusChars(s);
    hide QuotePlus, ParseInt;
    if q != [] {
      assert q[0] in q && q[|q| - 1] in q;
    }
    StripKeeps(q, IsSpace);
    StripKeeps(q, (c: char) => IsQuote(c));
  }

  lemma {:induction false} CodedFirst(s: string)
    requires s != []
    ensures var q := QuotePlus(s);
            && q != []
            && (IsSafe(s[0]) || s[0] == ' ' ==> q[0] == PlusChar(s[0]) && q[1..] == QuotePlus(s[1..]))
            && (!IsSafe(s[0]) && s[0] != ' ' ==> q[0] == '%')
  {
    hide EncodeChar;
  }

  /** Digits and underscores can only be coded from themselves. */
  lemma {:induction false} CodedDigits(s: string)
    requires IsDigits(QuotePlus(s))
    ensures IsDigits(s)
  {
    if s != [] {
      CodedFirst(s);
      var q := QuotePlus(s);
      hide QuotePlus;
      assert IsDigit(q[0]) || q[0] == '_';
      CodedDigits(s[1..]);
      assert s == [s[0]] + s[1..];
    }
  }

  lemma {:induction false} DigitsAreUncoded(s: string)
    requires IsDigits(s)
    ensures QuotePlus(s) == s
  {
    SafeIsUncoded(s);
  }

  /** A coded text that reads as a number is that of a plain number, or of one with a minus sign. */
  lemma {:induction false} CodedNumber(s: string)
    requires ParseInt(QuotePlus(s)).Some?
    ensures IsPlainNumber(s) || (s != [] && s[0] == '-' && IsDigits(s[1..]))
  {
    var q := QuotePlus(s);
    CodedIsBare(s);
    hide Strip;
    if s == [] {
    } else {
      CodedFirst(s);
      hide QuotePlus;
      if q[0] == '+' || q[0] == '-' {
        PartsAreDigits(q[1..]);
        CodedDigits(s[1..]);
      } else {
        PartsAreDigits(q);
        CodedDigits(s);
      }
    }
  }

  /** Digits after at most one space read as the digits. */
  lemma {:induction false} PlainNumberReads(s: string)
    requires IsPlainNumber(s) && ToInt(Text(s)).Some?
    ensures ToInt(Text(QuotePlus(s))) == ToInt(Text(s))
  {
    if s != [] && s[0] == ' ' {
      var t := s[1..];
      assert s == [' '] + t;
      assert IsDigits(t);
      SpacedNumber(t);
      PlusedNumber(t);
      hide ToInt, QuotePlus, IsPlainNumber;
    } else {
      DigitsAreUncoded(s);
    }
  }

  lemma {:induction false} PlusedNumber(t: string)
    requires IsDigits(t)
    ensures ToInt(Text(QuotePlus([' '] + t))) == match Digits(t) case Some(n) => Some(n) case None => None
  {
    var s := [' '] + t;
    CodedIsBare(s);
    CodedFirst(s);
    DigitsAreUncoded(t);
    hide QuotePlus, Digits, Strip, Unquoted;
    assert s[1..] == t;
    assert QuotePlus(s) == ['+'] + t;
    assert QuotePlus(s)[1..] == t;
  }

  lemma {:induction false} SpacedNumber(t: string)
    requires IsDigits(t)
    ensures ToInt(Text([' '] + t)) == match Digits(t) case Some(n) => Some(n) case None => None
  {
    var s := [' '] + t;
    hide Digits;
    assert s[1..] == t;
    assert StripLeft(s, IsSpace) == StripLeft(t, IsSpace);
    StripKeeps(t, IsSpace);
    StripKeeps(t, (c: char) => IsQuote(c));
    if t != [] {
      assert IsDigit(t[0]) || t[0] == '_';
    }
  }

  lemma {:induction false} NegativeIsNoParity(s: string)
    requires s != [] && s[0] == '-' && IsDigits(s[1..])
    ensures OddIsRefused(Text(s))
  {
    if |s| > 1 {
      assert IsDigit(s[1..][|s| - 2]) || s[1..][|s| - 2] == '_';
    }
    StripKeeps(s, IsSpace);
    StripKeeps(s, (c: char) => IsQuote(c));
    hide Digits;
  }

  lemma {:induction false} WordIsNoNumber(s: string)
    requires s != [] && IsLetter(s[0]) && IsLetter(s[|s| - 1]) && '_' !in s
    ensures ToInt(Text(s)) == None
  {
    StripKeeps(s, IsSpace);
    StripKeeps(s, (c: char) => IsQuote(c));
    SplitOne(s, '_');
    assert !IsDigit(s[0]) && s[0] in s;
  }

  lemma {:induction false} TruthIsNoNumber(b: bool)
    ensures ToInt(Text(QuotePlus(TextOf(Bool(b))))) == None
  {
    hide ToInt, QuotePlus;
    TruthIsSafe(b);
    SafeIsUncoded(TextOf(Bool(b)));
    WordIsNoNumber(TextOf(Bool(b)));
  }

  lemma {:induction false} TruthIsSafe(b: bool)
    ensures var s := TextOf(Bool(b)); IsSafeText(s) && s != [] && IsLetter(s[0]) && IsLetter(s[|s| - 1]) && '_' !in s
  {
  }

  lemma {:induction false} SmallIntReads(n: int)
    requires 1 <= n <= 2
    ensures ToInt(Text(QuotePlus(TextOf(Int(n))))) == Some(n)
  {
    DecimalReadsBack(n);
    var d := Decimal(n);
    hide Decimal, ToInt;
    forall i | 0 <= i < |d| ensures IsSafe(d[i]) {
      assert d[i] in d;
    }
    SafeIsUncoded(d);
  }

  /**
   * An accepted parity survives the link if and only if it is a JSON integer, or a text of digits and underscores after at most
   * one space; any other accepted value makes the link refused.
   */
  lemma {:induction false} ParityReadsBack(odd: Scalar)
    requires !OddIsRefused(odd)
    ensures var sent := Text(QuotePlus(TextOf(odd)));
            && (!OddIsRefused(sent) <==> IsPlainParity(odd))
            && (IsPlainParity(odd) ==> ToInt(sent) == ToInt(odd))
  {
    match odd {
      case Bool(b) => TruthIsNoNumber(b);
      case Int(n) => SmallIntReads(n);
      case Text(s) =>
        CodedIsBare(s);
        hide QuotePlus, ParseInt, IsPlainNumber, Strip, Unquoted;
        if IsPlainNumber(s) {
          PlainNumberReads(s);
        } else if ParseInt(QuotePlus(s)).Some? {
          CodedNumber(s);
          NegativeIsNoParity(s);
        }
    }
  }

  /** The JSON value `true` is an accepted parity, and the link made from it is refused. */
  lemma {:induction false} TruthIsRefused()
    ensures !OddIsRefused(Bool(true)) && OddIsRefused(Text(QuotePlus(TextOf(Bool(true)))))
  {
    TruthIsNoNumber(true);
  }

  lemma {:induction false} OneReads()
    ensures ParseInt("1") == Some(1) && ParseInt("+1") == Some(1)
  {
    DecimalReadsBack(1);
    var one := "1";
    assert Decimal(1) == one;
    var plus := "+1";
    StripKeeps(plus, IsSpace);
    StripKeeps(one, IsSpace);
    hide Digits;
    assert plus[1..] == one;
  }

  lemma {:induction false} QuotedOne()
    ensures Strip("\"1\"") == "\"1\"" && Unquoted("\"1\"") == "1"
  {
    var s := "\"1\"";
    StripKeeps(s, IsSpace);
    var quote := (c: char) => IsQuote(c);
    assert s[1..] == "1\"";
    assert StripLeft(s[1..], quote) == s[1..];
    assert s[1..][..1] == "1";
    assert StripRight("1", quote) == "1";
  }

  lemma {:induction false} SpacedOne()
    ensures Strip("1 ") == "1" && Unquoted("1") == "1"
  {
    var s := "1 ";
    assert StripLeft(s, IsSpace) == s;
    assert s[..1] == "1";
    StripKeeps("1", (c: char) => IsQuote(c));
  }

  lemma {:induction false} SignedOne()
    ensures Strip("+1") == "+1" && Unquoted("+1") == "+1"
  {
    StripKeeps("+1", IsSpace);
    StripKeeps("+1", (c: char) => IsQuote(c));
  }

  lemma {:induction false} NoDigitAt(s: string, i: nat)
    requires i < |s| && s[0] != ' ' && !IsDigit(s[i]) && s[i] != '_'
    ensures !IsPlainNumber(s)
  {
  }

  lemma {:induction false} NotPlain()
    ensures !IsPlainNumber("\"1\"") && !IsPlainNumber("1 ") && !IsPlainNumber("+1")
  {
    NoDigitAt("\"1\"", 0);
    NoDigitAt("1 ", 1);
    NoDigitAt("+1", 0);
  }

  /** The text `"1"` with its quotes is an accepted parity, and the link made from it is refused; so are `1` with a space after it and `+1`. */
  lemma {:induction false} QuotedParityIsRefused()
    ensures forall s | s in {"\"1\"", "1 ", "+1"} :: !OddIsRefused(Text(s)) && OddIsRefused(Text(QuotePlus(s)))
  {
    OneReads();
    QuotedOne();
    SpacedOne();
    SignedOne();
    NotPlain();
    hide Strip, Unquoted, ParseInt, QuotePlus, IsPlainNumber;
    ParityReadsBack(Text("\"1\""));
    ParityReadsBack(Text("1 "));
    ParityReadsBack(Text("+1"));
  }

  // ----- the semester -----

  function PlusCount(s: string): nat {
    multiset(s)['+']
  }

  lemma {:induction false} StripKeepsPluses(s: string)
    ensures PlusCount(Strip(s)) == PlusCount(s)
  {
    StripLeftKeepsPluses(s);
    StripRightKeepsPluses(StripLeft(s, IsSpace));
  }

  lemma {:induction false} StripLeftKeepsPluses(s: string)
    ensures PlusCount(StripLeft(s, IsSpace)) == PlusCount(s)
  {
    if s != [] && IsSpace(s[0]) {
      StripLeftKeepsPluses(s[1..]);
      assert s == [s[0]] + s[1..];
    }
  }

  lemma {:induction false} StripRightKeepsPluses(s: string)
    ensures PlusCount(StripRight(s, IsSpace)) == PlusCount(s)
  {
    if s != [] && IsSpace(s[|s| - 1]) {
      StripRightKeepsPluses(s[..|s| - 1]);
      assert s == s[..|s| - 1] + [s[|s| - 1]];
    }
  }

  lemma {:induction false} PlusesAdd(s: string)
    ensures PlusCount(Pluses(s)) == PlusCount(s) + multiset(s)[' ']
  {
    if s != [] {
      PlusesAdd(s[1..]);
      assert s == [s[0]] + s[1..];
      assert Pluses(s) == [PlusChar(s[0])] + Pluses(s[1..]);
    }
  }

  lemma {:induction false} CurrentHasNoPlus()
    ensures PlusCount("__current__") == 0
  {
  }

  lemma {:induction false} StripIsStripped(s: string)
    ensures Strip(Strip(s)) == Strip(s)
  {
    StripTwice(s, IsSpace);
  }

  /** The key part of a semester survives the link if and only if the semester has no space. */
  lemma {:induction false} SemesterReadsBack(semester: string)
    ensures SemesterKey(Strip(Pluses(semester))) == SemesterKey(semester) <==> ' ' !in semester
  {
    PlusesKeep(semester);
    StripIsStripped(semester);
    StripIsStripped(Pluses(semester));
    StripKeepsPluses(semester);
    StripKeepsPluses(Pluses(semester));
    PlusesAdd(semester);
    CurrentHasNoPlus();
    hide Strip, Pluses;
    if ' ' in semester {
      assert PlusCount(Strip(Pluses(semester))) > PlusCount(Strip(semester));
    }
  }

  // ----- the key -----

  lemma {:induction false} MiddleIsUnique(a: string, x: string, y: string, b: string)
    requires a + x + b == a + y + b
    ensures x == y
  {
    var p, q := a + x + b, a + y + b;
    assert |x| == |y|;
    assert x == p[|a|..|a| + |x|] == q[|a|..|a| + |y|] == y;
  }

  /** Keys with the same owner, weeks and parity agree exactly when their semesters do. */
  lemma {:induction false} KeysAgree(owner: string, s: string, t: string, v: Value, w: Value, m: Scalar, n: Scalar)
    requires NormKey(v) == NormKey(w) && OddKey(m) == OddKey(n)
    ensures PdfKey(owner, s, v, m) == PdfKey(owner, t, w, n) <==> SemesterKey(s) == SemesterKey(t)
  {
    hide NormKey, SemesterKey, ToInt, OddKey;
    if PdfKey(owner, s, v, m) == PdfKey(owner, t, w, n) {
      MiddleIsUnique("pdf|" + owner + "|", SemesterKey(s), SemesterKey(t), "|" + NormKey(v) + "|" + TextOf(Int(OddKey(m))));
    }
  }

  lemma {:induction false} ParityKey(odd: Scalar)
    requires !OddIsRefused(odd) && IsPlainParity(odd)
    ensures OddKey(Text(QuotePlus(TextOf(odd)))) == OddKey(Int(OddKey(odd)))
  {
    ParityReadsBack(odd);
    hide QuotePlus, TextOf, IsPlainParity;
  }

  /** A request for the weeks of the query that is not refused finds the prewarmed PDF exactly when the semester keys agree. */
  lemma {:induction false} RequestFinds(owner: string, r: Request, semester: string, weeks: Value, odd: Scalar)
    requires r.weeks == NormKey(weeks) && r.odd == QuotePlus(TextOf(odd)) && !OddIsRefused(odd) && IsPlainParity(odd)
    ensures RequestKey(owner, r) == PrewarmKey(owner, semester, weeks, odd) <==> SemesterKey(r.semester) == SemesterKey(semester)
  {
    LinkNamesTheWeeks(weeks);
    ParityKey(odd);
    KeysAgree(owner, r.semester, semester, ListOf(One(Text(r.weeks))), weeks, Text(r.odd), Int(OddKey(odd)));
    hide NormKey, SemesterKey, OddKey, ListOf, QuotePlus, TextOf, PdfKey;
  }

  lemma {:induction false} RequestIsRefused(r: Request, weeks: Value, odd: Scalar)
    requires r.weeks == NormKey(weeks) && r.odd == QuotePlus(TextOf(odd)) && !OddIsRefused(odd)
    ensures Parsed(One(Text(r.weeks))) == Parsed(weeks)
    ensures IsRefused(r) <==> !IsPlainParity(odd)
  {
    LinkNamesTheWeeks(weeks);
    ParityReadsBack(odd);
    hide NormKey, Parsed, WeeksAreRefused, OddIsRefused, QuotePlus, TextOf, IsPlainParity;
  }

  /**
   * For every accepted query: the request through the link carries exactly the weeks of the query, and it is accepted and finds
   * the PDF under the key the prewarm filled if and only if the parity is plain and the semester has no space.
   */
  lemma {:induction false} LinkFindsThePrewarmedPdf(owner: string, code: string, semester: string, weeks: Value, odd: Scalar)
    requires !OddIsRefused(odd)
    ensures var received := Received(LinkQuery(code, semester, weeks, odd));
            && received.Some?
            && Parsed(One(Text(received.value.weeks))) == Parsed(weeks)
            && (IsRefused(received.value) <==> !IsPlainParity(odd))
            && (!IsRefused(received.value) && RequestKey(owner, received.value) == PrewarmKey(owner, semester, weeks, odd)
                <==> IsPlainParity(odd) && ' ' !in semester)
  {
    LinkIsReceived(code, semester, weeks, odd);
    SemesterReadsBack(semester);
    var r := Request(Strip(Pluses(semester)), NormKey(weeks), QuotePlus(TextOf(odd)));
    RequestIsRefused(r, weeks, odd);
    hide *;
    if IsPlainParity(odd) {
      RequestFinds(owner, r, semester, weeks, odd);
    }
  }
}
