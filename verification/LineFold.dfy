/** app/calendar/ics.py, `_fold`: content lines of RFC 5545, section 3.1. */
module LineFold {
  import opened PyText
  import opened TextEscape

  const CRLF := "\r\n"
  const MAX_OCTETS := 75

  // ----- octets -----

  newtype Octet = i: int | 0 <= i < 256

  /** One character in UTF-8. */
  function EncodeChar(c: char): (r: seq<Octet>)
    ensures 1 <= |r| <= 4
  {
    var n := c as int;
    if n < 0x80 then [n as Octet]
    else if n < 0x800 then [(0xC0 + n / 64) as Octet, Trailing(n)]
    else if n < 0x1_0000 then [(0xE0 + n / 4096) as Octet, Trailing(n / 64), Trailing(n)]
    else [(0xF0 + n / 262144) as Octet, Trailing(n / 4096), Trailing(n / 64), Trailing(n)]
  }

  function Trailing(n: nat): (o: Octet)
    ensures o >= 0x80
  {
    (0x80 + n % 64) as Octet
  }

  function Utf8(s: string): seq<Octet> {
    if s == [] then [] else EncodeChar(s[0]) + Utf8(s[1..])
  }

  /** `len(s.encode("utf-8"))`. */
  function Octets(s: string): nat {
    |Utf8(s)|
  }

  lemma {:induction false} Utf8Concat(a: string, b: string)
    ensures Utf8(a + b) == Utf8(a) + Utf8(b)
  {
    hide EncodeChar;
    if a == [] {
      assert a + b == b;
    } else {
      Utf8Concat(a[1..], b);
      assert (a + b)[1..] == a[1..] + b;
    }
  }

  lemma {:induction false} Utf8One(c: char)
    ensures Utf8([c]) == EncodeChar(c)
  {
  }

  // ----- the greedy cut -----

  /** The length of the longest prefix of `s` of at most `limit` octets. */
  function Fit(s: string, limit: int): (k: nat)
    ensures k <= |s|
  {
    if s == [] || |EncodeChar(s[0])| > limit then 0 else 1 + Fit(s[1..], limit - |EncodeChar(s[0])|)
  }

  lemma {:induction false} FitIsLongest(s: string, limit: nat)
    ensures Octets(s[..Fit(s, limit)]) <= limit
    ensures Fit(s, limit) < |s| ==> Octets(s[..Fit(s, limit) + 1]) > limit
    ensures s != [] && limit >= 4 ==> Fit(s, limit) > 0
    ensures Fit(s, limit) == |s| <==> Octets(s) <= limit
  {
    var k := Fit(s, limit);
    if k == 0 {
      assert s[..0] == [];
      if s != [] {
        assert s[..1] == [s[0]];
        Utf8One(s[0]);
        assert s == [s[0]] + s[1..];
        Utf8Concat([s[0]], s[1..]);
      }
    } else {
      var w := |EncodeChar(s[0])|;
      FitIsLongest(s[1..], limit - w);
      Utf8One(s[0]);
      assert s[..k] == [s[0]] + s[1..][..k - 1];
      Utf8Concat([s[0]], s[1..][..k - 1]);
      assert s == [s[0]] + s[1..];
      Utf8Concat([s[0]], s[1..]);
      if k < |s| {
        assert s[..k + 1] == [s[0]] + s[1..][..k];
        Utf8Concat([s[0]], s[1..][..k]);
      }
    }
  }

  /** Cut greedily: pieces of at most `limit` octets, one octet less after the first piece for the leading space. */
  function Pieces(line: string, limit: nat): (r: seq<string>)
    requires limit >= 4
    ensures r != []
    decreases |line|
  {
    if Octets(line) <= limit then [line]
    else
      var k := Fit(line, limit);
      assert 0 < k by { FitIsLongest(line, limit); }
      [line[..k]] + Pieces(line[k..], MAX_OCTETS - 1)
  }

  /** `r` cuts `line` into pieces of at most `limit`, then 74 octets, none of which could take one character more. */
  predicate IsGreedyCut(r: seq<string>, line: string, limit: nat)
    requires r != []
  {
    && Flatten(r) == line
    && Octets(r[0]) <= limit
    && (forall i | 0 < i < |r| :: r[i] != [] && Octets(r[i]) <= MAX_OCTETS - 1)
    && (forall i | 0 < i < |r| :: Octets(r[i - 1] + r[i][..1]) > if i == 1 then limit else MAX_OCTETS - 1)
  }

  lemma {:induction false} AddPiece(first: string, rest: seq<string>, limit: nat)
    requires rest != [] && rest[0] != [] && IsGreedyCut(rest, Flatten(rest), MAX_OCTETS - 1)
    requires Octets(first) <= limit < Octets(first + rest[0][..1])
    ensures IsGreedyCut([first] + rest, first + Flatten(rest), limit)
  {
  }

  lemma {:induction false} PiecesAreGreedy(line: string, limit: nat)
    requires limit >= 4
    ensures IsGreedyCut(Pieces(line, limit), line, limit)
    ensures line != [] ==> Pieces(line, limit)[0] != [] && Pieces(line, limit)[0][0] == line[0]
    decreases |line|
  {
    FitIsLongest(line, limit);
    if Octets(line) > limit {
      var k := Fit(line, limit);
      var rest := Pieces(line[k..], MAX_OCTETS - 1);
      PiecesAreGreedy(line[k..], MAX_OCTETS - 1);
      assert line[..k] + rest[0][..1] == line[..k + 1];
      AddPiece(line[..k], rest, limit);
      assert line[..k] + line[k..] == line;
    } else {
      assert Flatten([line]) == line + Flatten([line][1..]);
    }
  }

  function Folded(line: string): string {
    Join(Pieces(line, MAX_OCTETS), CRLF + " ")
  }

  /** What `_fold` has gathered so far is a prefix of the pieces. */
  lemma {:induction false} PieceFull(current: string, c: char, rest: string, limit: nat)
    requires limit >= 4
    requires Octets(current) <= limit < Octets(current) + |EncodeChar(c)|
    ensures Pieces(current + [c] + rest, limit) == [current] + Pieces([c] + rest, MAX_OCTETS - 1)
  {
    var line := current + [c] + rest;
    var k := Fit(line, limit);
    FitIsLongest(line, limit);
    Utf8Concat(current, [c]);
    Utf8One(c);
    Utf8Concat(current + [c], rest);
    if k < |current| {
      assert line[..k + 1] == current[..k + 1];
      assert current == current[..k + 1] + current[k + 1..];
      Utf8Concat(current[..k + 1], current[k + 1..]);
      assert false;
    }
    if k > |current| {
      assert line[..k] == current + [c] + line[|current| + 1..k];
      Utf8Concat(current + [c], line[|current| + 1..k]);
      assert false;
    }
    assert line[..k] == current && line[k..] == [c] + rest;
  }

  lemma {:induction false} NoOctets()
    ensures Octets("") == 0
  {
  }

  lemma {:induction false} PiecesShort(s: string, limit: nat)
    requires limit >= 4 && Octets(s) <= limit
    ensures Pieces(s, limit) == [s]
    ensures Join([s], CRLF + " ") == s
  {
  }

  /** `_fold`. */
  method Fold(line: string) returns (r: string)
    ensures r == Folded(line)
  {
    hide Pieces, Utf8, EncodeChar;
    var raw := Utf8(line);
    if |raw| <= MAX_OCTETS {
      PiecesShort(line, MAX_OCTETS);
      return line;
    }
    assert "" + line[0..] == line;
    assert Octets("") == 0 by { NoOctets(); }
    var chunks: seq<string> := [];
    var current, size, limit := "", 0, MAX_OCTETS;
    for i := 0 to |line|
      invariant limit == MAX_OCTETS || limit == MAX_OCTETS - 1
      invariant size == Octets(current) <= limit
      invariant Pieces(line, MAX_OCTETS) == chunks + Pieces(current + line[i..], limit)
    {
      var c := line[i];
      var width := |EncodeChar(c)|;
      assert current + line[i..] == current + [c] + line[i + 1..];
      if size + width > limit {
        PieceFull(current, c, line[i + 1..], limit);
        chunks := chunks + [current];
        current, size, limit := "", 0, MAX_OCTETS - 1;
      }
      Utf8Concat(current, [c]);
      Utf8One(c);
      assert [] + [c] == [c];
      current := current + [c];
      size := size + width;
    }
    assert current + line[|line|..] == current;
    PiecesShort(current, limit);
    chunks := chunks + [current];
    r := Join(chunks, CRLF + " ");
  }

  // ----- reading back -----

  /** Cut at every CR LF pair; used on characters and on octets. */
  function SplitPairs<T(==)>(s: seq<T>, cr: T, lf: T): (parts: seq<seq<T>>)
    ensures |parts| >= 1
  {
    if s == [] then [[]]
    else if |s| >= 2 && s[0] == cr && s[1] == lf then [[]] + SplitPairs(s[2..], cr, lf)
    else
      var rest := SplitPairs(s[1..], cr, lf);
      [[s[0]] + rest[0]] + rest[1..]
  }

  /** The physical lines of a text. */
  function PhysicalLines(text: string): seq<string> {
    SplitPairs(text, '\r', '\n')
  }

  /** Remove every CR LF pair that is followed by a space or a tab (section 3.1). */
  function Unfold(text: string): string {
    if text == [] then []
    else if |text| >= 3 && text[0] == '\r' && text[1] == '\n' && (text[2] == ' ' || text[2] == '\t') then Unfold(text[3..])
    else [text[0]] + Unfold(text[1..])
  }

  /** The logical lines of a text in which every line, the last one too, ends with CR LF. */
  function LogicalLines(text: string): seq<string> {
    var all := PhysicalLines(Unfold(text));
    all[..|all| - 1]
  }

  lemma {:induction false} UnfoldPlain(a: string, rest: string)
    requires Plain(a)
    ensures Unfold(a + rest) == a + Unfold(rest)
  {
    if a == [] {
      assert a + rest == rest;
    } else {
      UnfoldPlain(a[1..], rest);
      assert (a + rest)[1..] == a[1..] + rest;
    }
  }

  lemma {:induction false} UnfoldPieces(pieces: seq<string>, rest: string)
    requires pieces != [] && forall i | 0 <= i < |pieces| :: Plain(pieces[i])
    ensures Unfold(Join(pieces, CRLF + " ") + rest) == Flatten(pieces) + Unfold(rest)
  {
    if |pieces| == 1 {
      UnfoldPlain(pieces[0], rest);
      assert Flatten(pieces) == pieces[0] + Flatten(pieces[1..]);
    } else {
      var tail := Join(pieces[1..], CRLF + " ") + rest;
      UnfoldPieces(pieces[1..], rest);
      var folded := (CRLF + " ") + tail;
      assert Join(pieces, CRLF + " ") + rest == pieces[0] + folded;
      UnfoldPlain(pieces[0], folded);
      assert folded[0] == '\r' && folded[1] == '\n' && folded[2] == ' ' && folded[3..] == tail;
    }
  }

  lemma {:induction false} SplitPlain(a: string, rest: string)
    requires Plain(a)
    ensures PhysicalLines(a + CRLF + rest) == [a] + PhysicalLines(rest)
  {
    var s := a + CRLF + rest;
    if a == [] {
      assert s[0] == '\r' && s[1] == '\n' && s[2..] == rest;
    } else {
      assert s[1..] == a[1..] + CRLF + rest;
      SplitPlain(a[1..], rest);
      assert [a[0]] + a[1..] == a;
    }
  }

  /** `CRLF.join(_fold(line) for line in lines) + CRLF`. */
  function Printed(lines: seq<string>): string {
    if lines == [] then [] else Folded(lines[0]) + CRLF + Printed(lines[1..])
  }

  /** A line without line breaks that cannot be taken for a continuation. */
  predicate IsContentLine(line: string) {
    Plain(line) && line != [] && line[0] != ' ' && line[0] != '\t'
  }

  lemma {:induction false} PiecesPlain(pieces: seq<string>)
    requires Plain(Flatten(pieces))
    ensures forall i | 0 <= i < |pieces| :: Plain(pieces[i])
  {
    forall i | 0 <= i < |pieces| ensures Plain(pieces[i]) {
      forall k | 0 <= k < |pieces[i]| ensures !IsBreak(pieces[i][k]) {
        InFlatten(pieces, pieces[i][k]);
      }
    }
  }

  function Terminated(lines: seq<string>): string {
    if lines == [] then [] else lines[0] + CRLF + Terminated(lines[1..])
  }

  lemma {:induction false} FoldedStart(line: string)
    requires IsContentLine(line)
    ensures Folded(line) != [] && Folded(line)[0] == line[0]
  {
  }

  lemma {:induction false} UnfoldBreak(rest: string)
    requires rest == [] || (rest[0] != ' ' && rest[0] != '\t')
    ensures Unfold(CRLF + rest) == CRLF + Unfold(rest)
  {
  }

  lemma {:induction false} UnfoldLine(line: string, rest: string)
    requires Plain(line)
    ensures Unfold(Folded(line) + CRLF + rest) == line + Unfold(CRLF + rest)
  {
    var pieces := Pieces(line, MAX_OCTETS);
    PiecesAreGreedy(line, MAX_OCTETS);
    PiecesPlain(pieces);
    UnfoldPieces(pieces, CRLF + rest);
    assert Folded(line) + CRLF + rest == Folded(line) + (CRLF + rest);
  }

  lemma {:induction false} UnfoldPrinted(lines: seq<string>)
    requires forall i | 0 <= i < |lines| :: IsContentLine(lines[i])
    ensures Unfold(Printed(lines)) == Terminated(lines)
  {
    if lines != [] {
      var rest := Printed(lines[1..]);
      UnfoldPrinted(lines[1..]);
      UnfoldLine(lines[0], rest);
      if lines[1..] != [] {
        FoldedStart(lines[1]);
        assert rest[0] == Folded(lines[1])[0];
      }
      UnfoldBreak(rest);
      assert lines[0] + (CRLF + Unfold(rest)) == lines[0] + CRLF + Unfold(rest);
    }
  }

  lemma {:induction false} SplitTerminated(lines: seq<string>)
    requires forall i | 0 <= i < |lines| :: Plain(lines[i])
    ensures PhysicalLines(Terminated(lines)) == lines + [""]
  {
    if lines != [] {
      SplitTerminated(lines[1..]);
      SplitPlain(lines[0], Terminated(lines[1..]));
      assert lines == [lines[0]] + lines[1..];
    }
  }

  /** Unfolding and cutting a printed text gives the original lines. */
  lemma {:induction false} FoldRoundTrip(lines: seq<string>)
    requires forall i | 0 <= i < |lines| :: IsContentLine(lines[i])
    ensures LogicalLines(Printed(lines)) == lines
  {
    UnfoldPrinted(lines);
    SplitTerminated(lines);
  }

  // ----- physical lines -----

  /** The physical lines of one folded line: the pieces, all but the first after a space. */
  function Indented(pieces: seq<string>): seq<string> {
    if |pieces| <= 1 then pieces else [pieces[0]] + IndentAll(pieces[1..])
  }

  function IndentAll(pieces: seq<string>): (r: seq<string>)
    ensures |r| == |pieces| && forall i | 0 <= i < |r| :: r[i] == " " + pieces[i]
  {
    if pieces == [] then [] else [" " + pieces[0]] + IndentAll(pieces[1..])
  }

  lemma {:induction false} JoinedLines(pieces: seq<string>, rest: string)
    requires pieces != [] && forall i | 0 <= i < |pieces| :: Plain(pieces[i])
    ensures PhysicalLines(Join(pieces, CRLF + " ") + CRLF + rest) == Indented(pieces) + PhysicalLines(rest)
    decreases |pieces|
  {
    hide SplitPairs;
    if |pieces| == 1 {
      SplitPlain(pieces[0], rest);
    } else {
      var tail := [" " + pieces[1]] + pieces[2..];
      var joined := Join(pieces[1..], CRLF + " ");
      assert Join(tail, CRLF + " ") == " " + joined by {
        assert tail[1..] == pieces[2..] && pieces[1..][1..] == pieces[2..];
        if |pieces| > 2 {
          assert Join(tail, CRLF + " ") == (" " + pieces[1]) + (CRLF + " ") + Join(pieces[2..], CRLF + " ");
        }
      }
      JoinedLines(tail, rest);
      var after := " " + joined + CRLF + rest;
      SplitPlain(pieces[0], after);
      assert Join(pieces, CRLF + " ") + CRLF + rest == pieces[0] + CRLF + after;
      assert Indented(tail) == IndentAll(pieces[1..]) by {
        assert pieces[1..] == [pieces[1]] + pieces[2..];
      }
    }
  }

  /** Every physical line of a printed text has at most 75 octets. */
  lemma {:induction false} PhysicalLinesFit(lines: seq<string>)
    requires forall i | 0 <= i < |lines| :: Plain(lines[i])
    ensures forall p | p in PhysicalLines(Printed(lines)) :: Octets(p) <= MAX_OCTETS
  {
    if lines != [] {
      PhysicalLinesFit(lines[1..]);
      var pieces := Pieces(lines[0], MAX_OCTETS);
      PiecesAreGreedy(lines[0], MAX_OCTETS);
      PiecesPlain(pieces);
      JoinedLines(pieces, Printed(lines[1..]));
      forall p | p in Indented(pieces) ensures Octets(p) <= MAX_OCTETS {
        var i :| 0 <= i < |Indented(pieces)| && Indented(pieces)[i] == p;
        if i > 0 {
          assert p == " " + pieces[i];
          Utf8Concat(" ", pieces[i]);
          Utf8One(' ');
        }
      }
    }
  }

  // ----- the same cut on octets -----

  function Utf8All(parts: seq<string>): (r: seq<seq<Octet>>)
    ensures |r| == |parts| && forall i | 0 <= i < |r| :: r[i] == Utf8(parts[i])
  {
    if parts == [] then [] else [Utf8(parts[0])] + Utf8All(parts[1..])
  }

  lemma {:induction false} SplitPastOctets(a: seq<Octet>, rest: seq<Octet>)
    requires forall i | 0 <= i < |a| :: a[i] != 13
    ensures SplitPairs(a + rest, 13, 10) ==
            [a + SplitPairs(rest, 13, 10)[0]] + SplitPairs(rest, 13, 10)[1..]
  {
    if a == [] {
      assert a + rest == rest;
      assert [] + SplitPairs(rest, 13, 10)[0] == SplitPairs(rest, 13, 10)[0];
    } else {
      SplitPastOctets(a[1..], rest);
      assert (a + rest)[1..] == a[1..] + rest;
      assert [a[0]] + (a[1..] + SplitPairs(rest, 13, 10)[0]) == a + SplitPairs(rest, 13, 10)[0];
    }
  }

  /** Cutting the encoded text at its CR LF octets gives the encoded physical lines: no character is ever split. */
  lemma {:induction false} NoCharacterIsSplit(text: string)
    ensures SplitPairs(Utf8(text), 13, 10) == Utf8All(PhysicalLines(text))
  {
    if text != [] {
      var octets := Utf8(text);
      var head := EncodeChar(text[0]);
      assert octets == head + Utf8(text[1..]);
      assert forall i | 0 <= i < |head| :: (head[i] == 13 <==> text[0] == '\r') && (head[i] == 10 <==> text[0] == '\n');
      if |text| >= 2 {
        var next := EncodeChar(text[1]);
        assert text[1..][1..] == text[2..];
        assert Utf8(text[1..]) == next + Utf8(text[2..]);
        assert next[0] == 10 <==> text[1] == '\n';
      }
      if |text| >= 2 && text[0] == '\r' && text[1] == '\n' {
        NoCharacterIsSplit(text[2..]);
        assert octets[0] == 13 && octets[1] == 10 && octets[2..] == Utf8(text[2..]);
      } else {
        NoCharacterIsSplit(text[1..]);
        var rest := PhysicalLines(text[1..]);
        if text[0] == '\r' {
          assert octets[1..] == Utf8(text[1..]);
        } else {
          SplitPastOctets(head, Utf8(text[1..]));
        }
        assert PhysicalLines(text) == [[text[0]] + rest[0]] + rest[1..];
        assert ([text[0]] + rest[0])[1..] == rest[0];
        assert Utf8All(rest) == [Utf8(rest[0])] + Utf8All(rest[1..]);
      }
    }
  }
}
