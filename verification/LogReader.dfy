/** app/querylog.py, `_iter_file_lines`: reading the lines of log files from the end, one chunk at a time. */
module LogReader {
  import opened PyText

  type Byte = b: int | 0 <= b < 256

  const NEWLINE: Byte := 10

  type Line = seq<Byte>

  /** The bytes `bytes.strip()` removes. */
  predicate IsBlank(b: Byte) {
    b == 32 || 9 <= b <= 13
  }

  function Bare(line: Line): Line {
    StripBy(line, (b: Byte) => IsBlank(b))
  }

  // ----- what the reader promises -----

  function Reversed<T>(s: seq<T>): seq<T> {
    if s == [] then [] else Reversed(s[1..]) + [s[0]]
  }

  /** Every line bare, but the first line of the file as it stands. */
  function Cleaned(parts: seq<Line>): seq<Line>
    requires parts != []
  {
    [parts[0]] + seq(|parts| - 1, i requires 0 <= i < |parts| - 1 => Bare(parts[i + 1]))
  }

  /** The lines that hold more than blanks. */
  function NonBlank(lines: seq<Line>): seq<Line> {
    if lines == [] then []
    else NonBlank(lines[..|lines| - 1]) + (if Bare(lines[|lines| - 1]) == [] then [] else [lines[|lines| - 1]])
  }

  /** The lines of a file, oldest first. */
  function LinesOf(file: seq<Byte>): seq<Line> {
    NonBlank(Cleaned(Split(file, NEWLINE)))
  }

  // ----- splitting -----

  /** The parts of `p` and then those of `q`, the two where they meet joined. */
  function Glue<T>(p: seq<seq<T>>, q: seq<seq<T>>): (r: seq<seq<T>>)
    requires p != [] && q != []
    ensures r != []
  {
    p[..|p| - 1] + [p[|p| - 1] + q[0]] + q[1..]
  }

  lemma {:induction false} GluePrepend<T>(x: seq<T>, p: seq<seq<T>>, q: seq<seq<T>>)
    requires p != [] && q != []
    ensures Glue([x] + p, q) == [x] + Glue(p, q)
  {
  }

  lemma {:induction false} GlueFirst<T>(c: T, p: seq<seq<T>>, q: seq<seq<T>>)
    requires p != [] && q != []
    ensures Glue([[c] + p[0]] + p[1..], q) == [[c] + Glue(p, q)[0]] + Glue(p, q)[1..]
  {
    var w := [[c] + p[0]] + p[1..];
    if |p| == 1 {
      assert [c] + (p[0] + q[0]) == ([c] + p[0]) + q[0];
      assert w[..0] == [] && p[..0] == [];
    } else {
      assert w[..|w| - 1] == [[c] + p[0]] + p[1..|p| - 1];
    }
  }

  lemma {:induction false} GlueNothing<T>(q: seq<seq<T>>)
    requires q != []
    ensures Glue([[]], q) == q
  {
    assert [] + q[0] == q[0];
  }

  /** Splitting a concatenation glues the last part of the first to the first part of the second. */
  lemma {:induction false} SplitConcat<T>(a: seq<T>, b: seq<T>, sep: T)
    ensures Split(a + b, sep) == Glue(Split(a, sep), Split(b, sep))
  {
    var q := Split(b, sep);
    if a == [] {
      assert a + b == b;
      GlueNothing(q);
    } else {
      SplitConcat(a[1..], b, sep);
      assert (a + b)[1..] == a[1..] + b;
      var p := Split(a[1..], sep);
      GluePrepend([], p, q);
      GlueFirst(a[0], p, q);
      hide Glue;
    }
  }

  /** The parts hold no separator. */
  lemma {:induction false} PartsHoldNoSep<T>(s: seq<T>, sep: T)
    ensures forall i | 0 <= i < |Split(s, sep)| :: sep !in Split(s, sep)[i]
  {
    if s != [] {
      PartsHoldNoSep(s[1..], sep);
    }
  }

  // ----- reversing -----

  lemma {:induction false} ReversedAppend<T>(s: seq<T>, x: T)
    ensures Reversed(s + [x]) == [x] + Reversed(s)
  {
    if s == [] {
      assert (s + [x])[1..] == [];
    } else {
      ReversedAppend(s[1..], x);
      assert (s + [x])[1..] == s[1..] + [x];
    }
  }

  lemma {:induction false} ReversedAt<T>(s: seq<T>, i: nat)
    requires i < |s|
    ensures |Reversed(s)| == |s| && Reversed(s)[i] == s[|s| - 1 - i]
  {
    if |s| > 1 {
      ReversedAt(s[1..], if i < |s| - 1 then i else 0);
    }
  }

  // ----- the reader's progress -----

  /** The lines from the newest to the oldest, when `parts` are what is left to split off. */
  function Newest(parts: seq<Line>): seq<Line>
    requires parts != []
  {
    Reversed(NonBlank(Cleaned(parts)))
  }

  function Shown(line: Line): seq<Line> {
    if Bare(line) == [] then [] else [Bare(line)]
  }

  lemma {:induction false} BareTwice(line: Line)
    ensures Bare(Bare(line)) == Bare(line)
  {
    StripTwice(line, (b: Byte) => IsBlank(b));
  }

  /** The last part is the newest line. */
  lemma {:induction false} NewestOfMore(parts: seq<Line>, line: Line)
    requires parts != []
    ensures Newest(parts + [line]) == Shown(line) + Newest(parts)
  {
    var all := Cleaned(parts + [line]);
    assert all == Cleaned(parts) + [Bare(line)];
    assert all[..|all| - 1] == Cleaned(parts);
    BareTwice(line);
    hide Cleaned, Bare;
    var before := NonBlank(Cleaned(parts));
    assert all[|all| - 1] == Bare(line);
    assert NonBlank(all) == before + Shown(line);
    if Bare(line) != [] {
      ReversedAppend(before, Bare(line));
    } else {
      assert before + [] == before && [] + Newest(parts) == Newest(parts);
    }
  }

  /** `reversed(chunks[1:])`: the complete lines of a chunk, newest first, without blank ones. */
  method CompleteLines(chunks: seq<Line>, ghost head: seq<Line>) returns (lines: seq<Line>)
    requires chunks != [] && head != []
    ensures lines + Newest(head) == Newest(head + chunks[1..])
  {
    lines := [];
    var i := |chunks| - 1;
    hide Newest, Bare;
    assert head + chunks[1..1] == head && chunks[1..|chunks|] == chunks[1..];
    assert lines + Newest(head + chunks[1..]) == Newest(head + chunks[1..]);
    while i > 0
      invariant 0 <= i < |chunks|
      invariant lines + Newest(head + chunks[1..i + 1]) == Newest(head + chunks[1..])
    {
      NewestOfChunk(head, chunks, i, lines);
      var text := Bare(chunks[i]);
      if text != [] {
        lines := lines + [text];
      } else {
        assert lines + [] == lines;
      }
      i := i - 1;
    }
  }

  lemma {:induction false} NewestOfChunk(head: seq<Line>, chunks: seq<Line>, i: nat, lines: seq<Line>)
    requires head != [] && 0 < i < |chunks|
    ensures lines + Newest(head + chunks[1..i + 1]) == (lines + Shown(chunks[i])) + Newest(head + chunks[1..i])
  {
    assert head + chunks[1..i + 1] == (head + chunks[1..i]) + [chunks[i]];
    NewestOfMore(head + chunks[1..i], chunks[i]);
  }

  /** The chunk's parts with the tail read so far at their end. */
  function WithTail(chunks: seq<Line>, tail: Line): (r: seq<Line>)
    requires chunks != []
    ensures |r| == |chunks|
  {
    chunks[..|chunks| - 1] + [chunks[|chunks| - 1] + tail]
  }

  /** Reading one more chunk before the tail. */
  lemma {:induction false} ChunkSplits(before: seq<Byte>, chunk: seq<Byte>, tail: seq<Byte>)
    requires NEWLINE !in tail
    ensures var parts := WithTail(Split(chunk, NEWLINE), tail);
            && Split(before + (chunk + tail), NEWLINE) == Split(before + parts[0], NEWLINE) + parts[1..]
            && NEWLINE !in parts[0]
  {
    var parts := WithTail(Split(chunk, NEWLINE), tail);
    SplitOne(tail, NEWLINE);
    SplitConcat(chunk, tail, NEWLINE);
    assert Split(chunk + tail, NEWLINE) == parts;
    PartsHoldNoSep(chunk + tail, NEWLINE);
    SplitOne(parts[0], NEWLINE);
    hide Split, WithTail;
    SplitConcat(before, chunk + tail, NEWLINE);
    SplitConcat(before, parts[0], NEWLINE);
    GlueMore(Split(before, NEWLINE), parts);
  }

  lemma {:induction false} GlueMore<T>(p: seq<seq<T>>, q: seq<seq<T>>)
    requires p != [] && q != []
    ensures Glue(p, q) == Glue(p, [q[0]]) + q[1..]
  {
  }

  /** What is left to yield when the file has been read down to `position`. */
  function Left(file: seq<Byte>, position: nat, tail: Line): seq<Line>
    requires position <= |file|
  {
    Newest(Split(file[..position] + tail, NEWLINE))
  }

  lemma {:induction false} ChunkYields(file: seq<Byte>, start: nat, position: nat, tail: Line, lines: seq<Line>, complete: seq<Line>)
    requires start <= position <= |file| && NEWLINE !in tail
    requires var parts := WithTail(Split(file[start..position], NEWLINE), tail);
             var head := Split(file[..start] + parts[0], NEWLINE);
             complete + Newest(head) == Newest(head + parts[1..])
    ensures var parts := WithTail(Split(file[start..position], NEWLINE), tail);
            && NEWLINE !in parts[0]
            && (lines + complete) + Left(file, start, parts[0]) == lines + Left(file, position, tail)
  {
    hide Split, WithTail, Newest;
    ChunkSplits(file[..start], file[start..position], tail);
    assert file[..position] + tail == file[..start] + (file[start..position] + tail);
  }

  lemma {:induction false} TailYields(file: seq<Byte>, tail: Line)
    requires NEWLINE !in tail
    ensures Left(file, 0, tail) == if Bare(tail) == [] then [] else [tail]
  {
    assert file[..0] + tail == tail;
    SplitOne(tail, NEWLINE);
    NewestOfOne(tail);
  }

  lemma {:induction false} AllIsLeft(file: seq<Byte>)
    ensures Left(file, |file|, []) == Reversed(LinesOf(file))
  {
    assert file[..|file|] + [] == file;
  }

  /** One file: whatever the size of the chunks, its lines from the newest to the oldest. */
  method FileLines(file: seq<Byte>, chunkSize: nat) returns (lines: seq<Line>)
    requires chunkSize > 0
    ensures lines == Reversed(LinesOf(file))
  {
    AllIsLeft(file);
    hide Left, Newest, Split, WithTail, LinesOf;
    lines := [];
    var tail: seq<Byte> := [];
    var position := |file|;
    while position > 0
      invariant 0 <= position <= |file| && NEWLINE !in tail
      invariant lines + Left(file, position, tail) == Left(file, |file|, [])
    {
      var size := if chunkSize < position then chunkSize else position;
      var start := position - size;
      var chunks := WithTail(Split(file[start..position], NEWLINE), tail);
      var complete := CompleteLines(chunks, Split(file[..start] + chunks[0], NEWLINE));
      ChunkYields(file, start, position, tail, lines, complete);
      lines, tail, position := lines + complete, chunks[0], start;
    }
    TailYields(file, tail);
    if Bare(tail) != [] {
      lines := lines + [tail];
    }
  }

  lemma {:induction false} NewestOfOne(line: Line)
    ensures Newest([line]) == if Bare(line) == [] then [] else [line]
  {
    var one := [line];
    assert Cleaned(one) == one;
    ReversedNone<Line>();
    NonBlankOfOne(line);
    if Bare(line) != [] {
      assert one == [] + [line];
      ReversedAppend([], line);
    }
  }

  lemma {:induction false} NonBlankOfOne(line: Line)
    ensures NonBlank([line]) == if Bare(line) == [] then [] else [line]
  {
  }

  lemma {:induction false} ReversedNone<T>()
    ensures Reversed<T>([]) == []
    ensures NonBlank([]) == []
  {
  }

  /** The files in the order given. */
  method FilesLines(files: seq<seq<Byte>>, chunkSize: nat) returns (lines: seq<Line>)
    requires chunkSize > 0
    ensures lines == AllLines(files)
  {
    lines := [];
    assert files[..|files|] == files;
    for i := 0 to |files|
      invariant lines == AllLines(files[..i])
    {
      assert files[..i + 1][..i] == files[..i];
      if |files[i]| == 0 {
        NewestOfOne([]);
        continue;
      }
      var more := FileLines(files[i], chunkSize);
      lines := lines + more;
    }
  }

  function AllLines(files: seq<seq<Byte>>): seq<Line> {
    if files == [] then []
    else AllLines(files[..|files| - 1]) + Reversed(LinesOf(files[|files| - 1]))
  }

  // ----- reading back what was written -----

  /** A JSON record is one line that neither begins nor ends with a blank. */
  predicate IsRecord(line: Line) {
    NEWLINE !in line && line != [] && !IsBlank(line[0]) && !IsBlank(line[|line| - 1])
  }

  /** The bytes of the records, each followed by a newline. */
  function Written(records: seq<Line>): seq<Byte> {
    if records == [] then [] else Written(records[..|records| - 1]) + (records[|records| - 1] + [NEWLINE])
  }

  lemma {:induction false} RecordIsBare(line: Line)
    requires IsRecord(line)
    ensures Bare(line) == line
  {
  }

  lemma {:induction false} SplitNewline()
    ensures Split([NEWLINE], NEWLINE) == [[], []]
  {
  }

  lemma {:induction false} SplitWritten(records: seq<Line>)
    requires forall i | 0 <= i < |records| :: IsRecord(records[i])
    ensures Split(Written(records), NEWLINE) == records + [[]]
  {
    if records != [] {
      var n := |records| - 1;
      SplitWritten(records[..n]);
      SplitTerminated(records[n]);
      SplitConcat(Written(records[..n]), records[n] + [NEWLINE], NEWLINE);
      hide Split, Written;
      var p := records[..n] + [[]];
      assert p[..n] == records[..n] && records == records[..n] + [records[n]];
      assert [] + records[n] == records[n];
      assert Glue(p, [records[n], []]) == records + [[]];
    }
  }

  lemma {:induction false} SplitTerminated(line: Line)
    requires NEWLINE !in line
    ensures Split(line + [NEWLINE], NEWLINE) == [line, []]
  {
    SplitOne(line, NEWLINE);
    SplitConcat(line, [NEWLINE], NEWLINE);
    SplitNewline();
    hide Split;
    assert line + [] == line;
  }

  lemma {:induction false} NewestOfRecords(records: seq<Line>)
    requires records != [] && forall i | 0 <= i < |records| :: IsRecord(records[i])
    ensures Newest(records) == Reversed(records)
  {
    var n := |records| - 1;
    RecordIsBare(records[n]);
    assert records == records[..n] + [records[n]];
    if n == 0 {
      NewestOfOne(records[0]);
      assert records == [records[0]];
      assert records[1..] == [];
    } else {
      NewestOfRecords(records[..n]);
      NewestOfMore(records[..n], records[n]);
      ReversedAppend(records[..n], records[n]);
    }
  }

  /** A file of records reads back as the records, newest first. */
  lemma {:induction false} RecordsReadBack(records: seq<Line>)
    requires forall i | 0 <= i < |records| :: IsRecord(records[i])
    ensures Reversed(LinesOf(Written(records))) == Reversed(records)
  {
    SplitWritten(records);
    assert Bare([]) == [];
    if records == [] {
      NewestOfOne([]);
      assert records + [[]] == [[]];
    } else {
      NewestOfMore(records, []);
      NewestOfRecords(records);
      assert [] + Reversed(records) == Reversed(records);
    }
  }
}
