/** `urlencode` with `quote_plus`, `unquote`, and the splitting of a query that app/jwxt_http.py does itself. */
module UrlCoding {
  import opened PyText
  import opened LineFold

  // ----- coding -----

  predicate IsLetter(c: char) {
    'A' <= c <= 'Z' || 'a' <= c <= 'z'
  }

  /** The characters that are never coded. */
  predicate IsSafe(c: char) {
    IsLetter(c) || IsDigit(c) || c == '_' || c == '.' || c == '-' || c == '~'
  }

  function HexDigit(n: nat): (c: char)
    requires n < 16
    ensures HexValue(c) == Some(n) && IsSafe(c)
  {
    if n < 10 then (n + '0' as int) as char else (n - 10 + 'A' as int) as char
  }

  function HexValue(c: char): (n: Option<nat>)
    ensures n.Some? ==> n.value < 16
  {
    if '0' <= c <= '9' then Some(c as int - '0' as int)
    else if 'A' <= c <= 'F' then Some(c as int - 'A' as int + 10)
    else if 'a' <= c <= 'f' then Some(c as int - 'a' as int + 10)
    else None
  }

  function CodeOctets(octets: seq<Octet>): string {
    if octets == [] then []
    else ['%', HexDigit(octets[0] as int / 16), HexDigit(octets[0] as int % 16)] + CodeOctets(octets[1..])
  }

  function CodeChar(c: char): string {
    if IsSafe(c) then [c] else if c == ' ' then ['+'] else CodeOctets(EncodeChar(c))
  }

  /** `quote_plus`. */
  function QuotePlus(s: string): string {
    if s == [] then [] else CodeChar(s[0]) + QuotePlus(s[1..])
  }

  // ----- decoding -----

  /** The octets a coded text stands for; a percent sign without two hexadecimal digits stands for itself, and so does a plus. */
  function OctetsOf(s: string): seq<Octet> {
    if s == [] then []
    else if s[0] == '%' && |s| >= 3 && HexValue(s[1]).Some? && HexValue(s[2]).Some? then
      [(16 * HexValue(s[1]).value + HexValue(s[2]).value) as Octet] + OctetsOf(s[3..])
    else EncodeChar(s[0]) + OctetsOf(s[1..])
  }

  lemma {:induction false} FirstCharacterIsUnique(a: char, x: seq<Octet>, b: char, y: seq<Octet>)
    requires EncodeChar(a) + x == EncodeChar(b) + y
    ensures a == b && x == y
  {
    var p, q := EncodeChar(a) + x, EncodeChar(b) + y;
    assert p[0] == q[0] && EncodeChar(a)[0] == p[0] && EncodeChar(b)[0] == q[0];
    LeadingOctet(a);
    LeadingOctet(b);
    var n := |EncodeChar(a)|;
    assert EncodeChar(a) == p[..n] == q[..n] == EncodeChar(b);
    assert x == p[n..] == q[n..] == y;
    CharacterIsUnique(a, b);
  }

  /** The leading octet tells the length of the character. */
  lemma {:induction false} LeadingOctet(c: char)
    ensures var o := EncodeChar(c)[0] as int;
            |EncodeChar(c)| == if o < 0x80 then 1 else if o < 0xE0 then 2 else if o < 0xF0 then 3 else 4
  {
  }

  /** The number the octets of one character spell. */
  function Spelled(o: seq<Octet>): int
    requires 1 <= |o| <= 4
  {
    if |o| == 1 then o[0] as int
    else if |o| == 2 then (o[0] as int - 0xC0) * 64 + Payload(o[1])
    else if |o| == 3 then (o[0] as int - 0xE0) * 4096 + Payload(o[1]) * 64 + Payload(o[2])
    else (o[0] as int - 0xF0) * 262144 + Payload(o[1]) * 4096 + Payload(o[2]) * 64 + Payload(o[3])
  }

  function Payload(o: Octet): int {
    o as int - 0x80
  }

  lemma {:induction false} Digits64(n: nat)
    ensures n == n / 64 * 64 + n % 64
    ensures n == n / 4096 * 4096 + (n / 64 % 64) * 64 + n % 64
    ensures n == n / 262144 * 262144 + (n / 4096 % 64) * 4096 + (n / 64 % 64) * 64 + n % 64
  {
    assert n / 4096 == n / 64 / 64 && n / 262144 == n / 64 / 64 / 64;
  }

  lemma {:induction false} PayloadOfTrailing(n: nat)
    ensures Payload(Trailing(n)) == n % 64
  {
  }

  lemma {:induction false} SpelledIsCharacter(c: char)
    ensures Spelled(EncodeChar(c)) == c as int
  {
    var n := c as int;
    Digits64(n);
    PayloadOfTrailing(n);
    PayloadOfTrailing(n / 64);
    PayloadOfTrailing(n / 4096);
    hide Trailing, Payload;
  }

  lemma {:induction false} CharacterIsUnique(a: char, b: char)
    requires EncodeChar(a) == EncodeChar(b)
    ensures a == b
  {
    SpelledIsCharacter(a);
    SpelledIsCharacter(b);
    hide EncodeChar, Spelled;
  }

  lemma {:induction false} Utf8IsUnique(a: string, b: string)
    requires Utf8(a) == Utf8(b)
    ensures a == b
  {
    if a != [] && b != [] {
      FirstCharacterIsUnique(a[0], Utf8(a[1..]), b[0], Utf8(b[1..]));
      Utf8IsUnique(a[1..], b[1..]);
      assert a == [a[0]] + a[1..] && b == [b[0]] + b[1..];
    }
  }

  /** `unquote`: the text whose encoding the octets are; none where the octets are no UTF-8, and Python substitutes characters. */
  ghost function Unquote(s: string): (r: Option<string>)
    ensures r.Some? ==> Utf8(r.value) == OctetsOf(s)
    ensures r.None? ==> forall t :: Utf8(t) != OctetsOf(s)
  {
    if exists t :: Utf8(t) == OctetsOf(s) then
      var t :| Utf8(t) == OctetsOf(s);
      Some(t)
    else None
  }

  // ----- what coding and decoding make of a text -----

  function PlusChar(c: char): char {
    if c == ' ' then '+' else c
  }

  function Pluses(s: string): string {
    seq(|s|, i requires 0 <= i < |s| => PlusChar(s[i]))
  }

  lemma {:induction false} CodedOctets(octets: seq<Octet>, rest: string)
    ensures OctetsOf(CodeOctets(octets) + rest) == octets + OctetsOf(rest)
  {
    hide EncodeChar;
    if octets == [] {
      assert CodeOctets(octets) + rest == rest;
      assert octets + OctetsOf(rest) == OctetsOf(rest);
    } else {
      var o := octets[0] as int;
      var s := CodeOctets(octets) + rest;
      CodedOctets(octets[1..], rest);
      assert s[0] == '%' && s[1] == HexDigit(o / 16) && s[2] == HexDigit(o % 16);
      assert s[3..] == CodeOctets(octets[1..]) + rest;
      assert octets == [octets[0]] + octets[1..];
    }
  }

  lemma {:induction false} CodedChar(c: char, rest: string)
    ensures OctetsOf(CodeChar(c) + rest) == EncodeChar(PlusChar(c)) + OctetsOf(rest)
  {
    if IsSafe(c) || c == ' ' {
      var s := CodeChar(c) + rest;
      assert s[0] == PlusChar(c) && s[1..] == rest;
    } else {
      CodedOctets(EncodeChar(c), rest);
    }
  }

  lemma {:induction false} CodedText(s: string)
    ensures OctetsOf(QuotePlus(s)) == Utf8(Pluses(s))
  {
    if s != [] {
      CodedChar(s[0], QuotePlus(s[1..]));
      CodedText(s[1..]);
      assert Pluses(s)[1..] == Pluses(s[1..]);
    }
  }

  /** Coding and decoding turns every space into a plus and changes nothing else. */
  lemma {:induction false} UnquoteOfQuotePlus(s: string)
    ensures Unquote(QuotePlus(s)) == Some(Pluses(s))
  {
    CodedText(s);
    Utf8IsUnique(Unquote(QuotePlus(s)).value, Pluses(s));
  }

  lemma {:induction false} PlusesKeep(s: string)
    ensures Pluses(s) == s <==> ' ' !in s
  {
    if ' ' in s {
      var i :| 0 <= i < |s| && s[i] == ' ';
      assert Pluses(s)[i] == '+';
    }
  }

  predicate IsCodedChar(c: char) {
    IsSafe(c) || c == '+' || c == '%'
  }

  lemma {:induction false} CodedChars(octets: seq<Octet>)
    ensures forall c | c in CodeOctets(octets) :: IsCodedChar(c)
  {
    if octets != [] {
      CodedChars(octets[1..]);
    }
  }

  /** Coded text has no character that could end a field of a query. */
  lemma {:induction false} QuotePlusChars(s: string)
    ensures forall c | c in QuotePlus(s) :: IsCodedChar(c)
  {
    if s != [] {
      CodedChars(EncodeChar(s[0]));
      QuotePlusChars(s[1..]);
    }
  }

  /** Text of safe characters is not changed. */
  lemma {:induction false} SafeIsUncoded(s: string)
    requires IsSafeText(s)
    ensures QuotePlus(s) == s
  {
    if s != [] {
      SafeIsUncoded(s[1..]);
      assert s == [s[0]] + s[1..];
    }
  }

  // ----- queries -----

  /** A name and a value. */
  datatype Field = Field(name: string, value: string)

  function CodeField(f: Field): string {
    QuotePlus(f.name) + "=" + QuotePlus(f.value)
  }

  function CodeFields(fields: seq<Field>): (r: seq<string>)
    ensures |r| == |fields|
  {
    if fields == [] then [] else CodeFields(fields[..|fields| - 1]) + [CodeField(fields[|fields| - 1])]
  }

  /** `urlencode`. */
  function Query(fields: seq<Field>): string {
    Join(CodeFields(fields), "&")
  }

  /** `x.split("=", 1)`. */
  function ReadField(x: string): Field
    requires '=' in x
  {
    if x[0] == '=' then Field([], x[1..])
    else
      var f := ReadField(x[1..]);
      Field([x[0]] + f.name, f.value)
  }

  /** `x.split("=", 1) for x in parts if "=" in x`. */
  function ReadFields(parts: seq<string>): seq<Field> {
    if parts == [] then []
    else
      ReadFields(parts[..|parts| - 1]) + (if '=' in parts[|parts| - 1] then [ReadField(parts[|parts| - 1])] else [])
  }

  /** The value of a name in the dictionary made of the fields. */
  function Lookup(fields: seq<Field>, name: string): Option<string> {
    if fields == [] then None
    else if fields[|fields| - 1].name == name then Some(fields[|fields| - 1].value)
    else Lookup(fields[..|fields| - 1], name)
  }

  /** `params.get(name)`. */
  function Param(query: string, name: string): Option<string> {
    Lookup(ReadFields(Split(query, '&')), name)
  }

  lemma {:induction false} FieldReadsBack(name: string, value: string)
    requires '=' !in name
    ensures '=' in name + "=" + value && ReadField(name + "=" + value) == Field(name, value)
  {
    var x := name + "=" + value;
    assert x[|name|] == '=';
    if name != [] {
      FieldReadsBack(name[1..], value);
      assert x[1..] == name[1..] + "=" + value;
      assert [name[0]] + name[1..] == name;
    } else {
      assert x[1..] == value;
    }
  }

  function CodedField(f: Field): Field {
    Field(QuotePlus(f.name), QuotePlus(f.value))
  }

  /** The fields as they stand in the query. */
  function Coded(fields: seq<Field>): seq<Field> {
    if fields == [] then [] else Coded(fields[..|fields| - 1]) + [CodedField(fields[|fields| - 1])]
  }

  lemma {:induction false} CodedFieldReadsBack(f: Field)
    ensures '=' in CodeField(f) && ReadField(CodeField(f)) == CodedField(f) && '&' !in CodeField(f)
  {
    QuotePlusChars(f.name);
    QuotePlusChars(f.value);
    FieldReadsBack(QuotePlus(f.name), QuotePlus(f.value));
    hide QuotePlus, ReadField;
  }

  lemma {:induction false} FieldsReadBack(fields: seq<Field>)
    ensures ReadFields(CodeFields(fields)) == Coded(fields)
    ensures forall i | 0 <= i < |fields| :: '&' !in CodeFields(fields)[i]
  {
    hide CodeField, CodedField, ReadField;
    if fields != [] {
      var n := |fields| - 1;
      FieldsReadBack(fields[..n]);
      CodedFieldReadsBack(fields[n]);
      assert CodeFields(fields)[..n] == CodeFields(fields[..n]);
    }
  }

  /** Splitting a query gives its fields back, still coded. */
  lemma {:induction false} QueryReadsBack(fields: seq<Field>)
    requires fields != []
    ensures ReadFields(Split(Query(fields), '&')) == Coded(fields)
  {
    FieldsReadBack(fields);
    SplitJoin(CodeFields(fields), '&');
  }

  predicate IsSafeText(s: string) {
    forall i | 0 <= i < |s| :: IsSafe(s[i])
  }

  /** A field whose safe name no later field has is found by it. */
  lemma {:induction false} FieldIsFound(fields: seq<Field>, i: nat)
    requires i < |fields| && IsSafeText(fields[i].name)
    requires forall j | i < j < |fields| :: QuotePlus(fields[j].name) != fields[i].name
    ensures Lookup(Coded(fields), fields[i].name) == Some(QuotePlus(fields[i].value))
  {
    var n := |fields| - 1;
    SafeIsUncoded(fields[i].name);
    hide QuotePlus, IsSafeText;
    var coded := Coded(fields);
    assert coded[|coded| - 1] == CodedField(fields[n]) && coded[..|coded| - 1] == Coded(fields[..n]);
    if i < n {
      FieldIsFound(fields[..n], i);
    }
  }

  lemma {:induction false} FieldIsAbsent(fields: seq<Field>, name: string)
    requires forall j | 0 <= j < |fields| :: QuotePlus(fields[j].name) != name
    ensures Lookup(Coded(fields), name) == None
  {
    hide QuotePlus;
    if fields != [] {
      var n := |fields| - 1;
      var coded := Coded(fields);
      assert coded[|coded| - 1] == CodedField(fields[n]) && coded[..|coded| - 1] == Coded(fields[..n]);
      FieldIsAbsent(fields[..n], name);
    }
  }
}
