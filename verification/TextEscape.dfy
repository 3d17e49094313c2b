/** app/calendar/ics.py, `_escape`: TEXT values of RFC 5545, section 3.3.11. */
module TextEscape {
  import opened PyText

  /** `s.replace(what, by)`: leftmost occurrences first, no overlaps. */
  function Replace(s: string, what: string, with: string): string
    requires what != []
  {
    if |s| < |what| then s
    else if s[..|what|] == what then with + Replace(s[|what|..], what, with)
    else [s[0]] + Replace(s[1..], what, with)
  }

  /** The three replacements of the first line of `_escape`. */
  function EscapeMarks(s: string): string {
    Replace(Replace(Replace(s, "\\", "\\\\"), ";", "\\;"), ",", "\\,")
  }

  /** The three replacements of its last line. */
  function EscapeBreaks(s: string): string {
    Replace(Replace(Replace(s, "\r\n", "\\n"), "\n", "\\n"), "\r", "\\n")
  }

  /** `_escape`: six replacements, one after the other. */
  function Escape(s: string): string {
    EscapeBreaks(EscapeMarks(s))
  }

  // ----- one pass instead of six -----

  function MarkText(c: char): string {
    if c in {'\\', ';', ','} then ['\\', c] else [c]
  }

  predicate IsBreak(c: char) {
    c == '\r' || c == '\n'
  }

  /** One pass over the text: a line break of one or two characters becomes `\n`, a mark gets a backslash. */
  function EscapeOnce(s: string): string {
    if s == [] then []
    else if |s| >= 2 && s[0] == '\r' && s[1] == '\n' then "\\n" + EscapeOnce(s[2..])
    else if IsBreak(s[0]) then "\\n" + EscapeOnce(s[1..])
    else MarkText(s[0]) + EscapeOnce(s[1..])
  }

  /** Every line break, of one or two characters, as a single line feed. */
  function NormalBreaks(s: string): string {
    if s == [] then []
    else if |s| >= 2 && s[0] == '\r' && s[1] == '\n' then "\n" + NormalBreaks(s[2..])
    else (if IsBreak(s[0]) then "\n" else [s[0]]) + NormalBreaks(s[1..])
  }

  /** The reader's side of section 3.3.11; a backslash before any other character is kept as it is. */
  function Unescape(s: string): string {
    if s == [] then []
    else if |s| >= 2 && s[0] == '\\' && s[1] in {'n', 'N'} then "\n" + Unescape(s[2..])
    else if |s| >= 2 && s[0] == '\\' && s[1] in {'\\', ';', ','} then [s[1]] + Unescape(s[2..])
    else [s[0]] + Unescape(s[1..])
  }

  // ----- the chain of replacements is the one pass -----

  lemma {:induction false} ReplaceChar(a: string, b: string, c: char, with: string)
    ensures Replace(a + b, [c], with) == Replace(a, [c], with) + Replace(b, [c], with)
  {
    if a == [] {
      assert a + b == b;
    } else {
      assert (a + b)[..1] == [a[0]] && a[..1] == [a[0]];
      assert (a + b)[1..] == a[1..] + b;
      ReplaceChar(a[1..], b, c, with);
    }
  }

  lemma {:induction false} ReplaceAbsent(s: string, c: char, with: string)
    requires c !in s
    ensures Replace(s, [c], with) == s
  {
    if s != [] {
      assert s[..1] == [s[0]];
      ReplaceAbsent(s[1..], c, with);
    }
  }

  lemma {:induction false} ReplaceOne(c: char, d: char, with: string)
    ensures Replace([d], [c], with) == if d == c then with else [d]
  {
  }

  /** The marks are escaped character by character. */
  lemma {:induction false} MarksHead(c: char, t: string)
    ensures EscapeMarks([c] + t) == MarkText(c) + EscapeMarks(t)
  {
    ReplaceChar([c], t, '\\', "\\\\");
    ReplaceOne('\\', c, "\\\\");
    var c1 := Replace([c], "\\", "\\\\");
    var t1 := Replace(t, "\\", "\\\\");
    ReplaceChar(c1, t1, ';', "\\;");
    if c == ';' {
      ReplaceOne(';', c, "\\;");
    } else {
      ReplaceAbsent(c1, ';', "\\;");
    }
    var c2 := Replace(c1, ";", "\\;");
    var t2 := Replace(t1, ";", "\\;");
    ReplaceChar(c2, t2, ',', "\\,");
    if c == ',' {
      ReplaceOne(',', c, "\\,");
    } else {
      ReplaceAbsent(c2, ',', "\\,");
    }
  }

  lemma {:induction false} ReplacePair(a: string, b: string)
    requires '\r' !in a || (a == "\r" && (b == [] || b[0] != '\n'))
    ensures Replace(a + b, "\r\n", "\\n") == a + Replace(b, "\r\n", "\\n")
  {
    if a == [] {
      assert a + b == b;
    } else {
      var s := a + b;
      assert s[1..] == a[1..] + b;
      if |s| >= 2 {
        assert s[..2] == [s[0], s[1]];
        ReplacePair(a[1..], b);
      } else {
        assert b == [] && a[1..] == [];
      }
    }
  }

  /** Breaks are escaped a piece at a time, as long as no CR LF pair is cut. */
  lemma {:induction false} BreaksHead(a: string, b: string)
    requires '\r' !in a || (a == "\r" && (b == [] || b[0] != '\n'))
    ensures EscapeBreaks(a + b) == Replace(Replace(a, "\n", "\\n"), "\r", "\\n") + EscapeBreaks(b)
  {
    ReplacePair(a, b);
    var b1 := Replace(b, "\r\n", "\\n");
    ReplaceChar(a, b1, '\n', "\\n");
    ReplaceChar(Replace(a, "\n", "\\n"), Replace(b1, "\n", "\\n"), '\r', "\\n");
  }

  lemma {:induction false} BreaksPair(t: string)
    ensures EscapeBreaks("\r\n" + t) == "\\n" + EscapeBreaks(t)
  {
    var s := "\r\n" + t;
    assert s[..2] == "\r\n" && s[2..] == t;
    var t1 := Replace(t, "\r\n", "\\n");
    assert Replace(s, "\r\n", "\\n") == "\\n" + t1;
    ReplaceChar("\\n", t1, '\n', "\\n");
    ReplaceAbsent("\\n", '\n', "\\n");
    ReplaceChar("\\n", Replace(t1, "\n", "\\n"), '\r', "\\n");
    ReplaceAbsent("\\n", '\r', "\\n");
  }

  lemma {:induction false} MarksFirst(t: string)
    ensures EscapeMarks(t) == [] <==> t == []
    ensures t != [] && t[0] != '\n' ==> EscapeMarks(t)[0] != '\n'
  {
  }

  /** Six replacements in a row are one pass over the text. */
  lemma {:induction false} EscapeIsOnePass(s: string)
    ensures Escape(s) == EscapeOnce(s)
  {
    if s != [] {
      var t := s[1..];
      assert s == [s[0]] + t;
      MarksHead(s[0], t);
      if s[0] == '\r' && t != [] && t[0] == '\n' {
        assert t == [t[0]] + s[2..];
        MarksHead(t[0], s[2..]);
        assert EscapeMarks(s) == "\r\n" + EscapeMarks(s[2..]);
        BreaksPair(EscapeMarks(s[2..]));
        EscapeIsOnePass(s[2..]);
      } else {
        var a := MarkText(s[0]);
        MarksFirst(t);
        BreaksHead(a, EscapeMarks(t));
        EscapeIsOnePass(t);
        if s[0] == '\n' {
          ReplaceOne('\n', s[0], "\\n");
          ReplaceAbsent("\\n", '\r', "\\n");
        } else {
          ReplaceAbsent(a, '\n', "\\n");
          if s[0] == '\r' {
            ReplaceOne('\r', s[0], "\\n");
          } else {
            ReplaceAbsent(a, '\r', "\\n");
          }
        }
      }
    }
  }

  lemma {:induction false} UnescapeOnce(s: string)
    ensures Unescape(EscapeOnce(s)) == NormalBreaks(s)
  {
    if s != [] {
      var k := if |s| >= 2 && s[0] == '\r' && s[1] == '\n' then 2 else 1;
      UnescapeOnce(s[k..]);
      var rest := EscapeOnce(s[k..]);
      if k == 2 || IsBreak(s[0]) {
        assert ("\\n" + rest)[2..] == rest;
      } else {
        var head := MarkText(s[0]);
        assert (head + rest)[|head|..] == rest;
      }
    }
  }

  predicate Plain(s: string) {
    forall i | 0 <= i < |s| :: !IsBreak(s[i])
  }

  lemma {:induction false} EscapeOncePlain(s: string)
    ensures Plain(EscapeOnce(s))
  {
    if s != [] {
      EscapeOncePlain(s[(if |s| >= 2 && s[0] == '\r' && s[1] == '\n' then 2 else 1)..]);
    }
  }

  /** Reading an escaped text back gives the text with normal line breaks, and an escaped text has no line break. */
  lemma {:induction false} EscapeRoundTrip(s: string)
    ensures Unescape(Escape(s)) == NormalBreaks(s)
    ensures Plain(Escape(s))
  {
    EscapeIsOnePass(s);
    UnescapeOnce(s);
    EscapeOncePlain(s);
  }

  /** A text without carriage returns is read back unchanged. */
  lemma {:induction false} NormalBreaksKeeps(s: string)
    ensures NormalBreaks(s) == s <==> '\r' !in s
  {
    if s != [] {
      var k := if |s| >= 2 && s[0] == '\r' && s[1] == '\n' then 2 else 1;
      NormalBreaksKeeps(s[k..]);
      NoReturnLeft(s);
      assert s == s[..k] + s[k..];
      if '\r' !in s {
        assert '\r' !in s[k..];
      }
    }
  }

  lemma {:induction false} NoReturnLeft(s: string)
    ensures '\r' !in NormalBreaks(s)
  {
    if s != [] {
      NoReturnLeft(s[(if |s| >= 2 && s[0] == '\r' && s[1] == '\n' then 2 else 1)..]);
    }
  }
}
