/** app/querylog.py, `JSONLFileWriter`: records appended to a file that rotates into numbered backups. */
module LogFiles {
  import opened PyText
  import opened LogReader

  /** The records of one file; its bytes are `Written(file)`. */
  type File = seq<Line>

  function Size(file: File): nat {
    |Written(file)|
  }

  /** The log as its reader sees it: the backups from the highest number down, which is oldest first, and the current file. */
  datatype Log = Log(backups: seq<File>, current: Option<File>)

  const EMPTY := Log([], None)

  function CurrentFile(log: Log): File {
    if log.current.Some? then log.current.value else []
  }

  predicate IsFull(log: Log, maxBytes: nat) {
    log.current.Some? && Size(log.current.value) >= maxBytes
  }

  /** The backups after a rotation that keeps at most `count` of them. */
  function Rotated(backups: seq<File>, last: File, count: nat): seq<File> {
    if count == 0 then backups
    else if |backups| < count then backups + [last]
    else backups[1..] + [last]
  }

  /** One record written. */
  function Write(log: Log, maxBytes: nat, count: nat, record: Line): Log
    requires |log.backups| <= count
  {
    if IsFull(log, maxBytes) then Log(Rotated(log.backups, CurrentFile(log), count), Some([record]))
    else Log(log.backups, Some(CurrentFile(log) + [record]))
  }

  // ----- the class -----

  /** The files `path.m` down to `path.1`. */
  ghost function Numbered(files: map<nat, File>, m: nat): (r: seq<File>)
    requires forall k | 1 <= k <= m :: k in files
    ensures |r| == m && forall i | 0 <= i < m :: r[i] == files[m - i]
  {
    if m == 0 then [] else [files[m]] + Numbered(files, m - 1)
  }

  /** The backups above `index` have moved one number up; what the last slot held has been overwritten, if anything moved there. */
  ghost predicate Shifting(before: map<nat, File>, files: map<nat, File>, index: nat, count: nat, slots: nat)
    requires forall k | 1 <= k <= slots :: k in before
  {
    && (forall k :: k in files <==> Occupied(k, index, count, slots))
    && (forall k | k in files && k <= index :: files[k] == before[k])
    && (forall k | k in files && k >= index + 2 :: files[k] == before[k - 1])
  }

  predicate Occupied(k: nat, index: nat, count: nat, slots: nat) {
    && 1 <= k <= count
    && if k <= index then k <= slots else if k == index + 1 then k == count == slots else k - 1 <= slots
  }

  lemma {:induction false} ShiftOneMore(before: map<nat, File>, files: map<nat, File>, index: nat, count: nat, slots: nat)
    requires (forall k | 1 <= k <= slots :: k in before) && 0 < index < count && slots <= count
    requires Shifting(before, files, index, count, slots)
    ensures Shifting(before, if index in files then files[index + 1 := files[index]] - {index} else files,
                     index - 1, count, slots)
  {
  }

  lemma {:induction false} NoBackups(files: seq<File>, last: File)
    ensures Rotated(files, last, 0) == files
  {
  }

  /** The current file takes the first slot once it is free. */
  lemma {:induction false} ShiftedAndStored(before: map<nat, File>, files: map<nat, File>, count: nat, slots: nat, last: File)
    requires (forall k :: k in before <==> 1 <= k <= slots) && slots <= count && count > 0
    requires Shifting(before, files, 0, count, slots)
    ensures var next := files[1 := last];
            var m := if slots < count then slots + 1 else slots;
            && (forall k :: k in next <==> 1 <= k <= m)
            && Numbered(next, m) == Rotated(Numbered(before, slots), last, count)
  {
    var next := files[1 := last];
    var m := if slots < count then slots + 1 else slots;
    assert forall k :: k in next <==> 1 <= k <= m;
  }

  class Writer {
    const maxBytes: nat
    const backupCount: nat
    var current: Option<File>
    var backups: map<nat, File>
    ghost var slots: nat

    ghost predicate Valid()
      reads this
    {
      slots <= backupCount && forall k :: k in backups <==> 1 <= k <= slots
    }

    ghost function View(): Log
      reads this
      requires Valid()
    {
      Log(Numbered(backups, slots), current)
    }

    constructor (max: int, count: int)
      ensures Valid() && View() == EMPTY
      ensures maxBytes as int == (if max > 1 then max else 1) && backupCount as int == (if count > 0 then count else 0)
    {
      maxBytes := if max > 1 then max else 1;
      backupCount := if count > 0 then count else 0;
      current, backups, slots := None, map[], 0;
    }

    /** The loop of `_rotate`: every backup moves one number up, from the top, so that only one in the last slot is overwritten. */
    method ShiftUp()
      requires Valid() && backupCount > 0
      modifies this`backups
      ensures Shifting(old(backups), backups, 0, backupCount, slots)
    {
      var index := backupCount - 1;
      while index > 0
        invariant 0 <= index < backupCount
        invariant Shifting(old(backups), backups, index, backupCount, slots)
      {
        ShiftOneMore(old(backups), backups, index, backupCount, slots);
        if index in backups {
          backups := backups[index + 1 := backups[index]] - {index};
        }
        index := index - 1;
      }
    }

    /** `_rotate`. */
    method Rotate()
      requires Valid() && current.Some?
      modifies this
      ensures Valid()
      ensures if old(IsFull(View(), maxBytes)) then
                View() == Log(Rotated(old(View().backups), old(current.value), backupCount), None)
              else View() == old(View())
    {
      hide Written, Shifting, Numbered, Rotated;
      if Size(current.value) < maxBytes {
        return;
      }
      if backupCount != 0 {
        ShiftUp();
        ShiftedAndStored(old(backups), backups, backupCount, slots, current.value);
        backups := backups[1 := current.value];
        slots := if slots < backupCount then slots + 1 else slots;
      }
      current := None;
      assert backupCount == 0 ==> View().backups == Rotated(old(View().backups), old(current.value), 0) by {
        NoBackups(old(View().backups), old(current.value));
      }
    }

    /** `write_raw`, with the record already sanitised and printed. */
    method WriteRaw(record: Line)
      requires Valid()
      modifies this
      ensures Valid()
      ensures View() == Write(old(View()), maxBytes, backupCount, record)
    {
      if current.Some? {
        Rotate();
      }
      var file := if current.Some? then current.value else [];
      current := Some(file + [record]);
      assert [] + [record] == [record];
    }
  }

  // ----- runs of one writer from an empty log -----

  function After(maxBytes: nat, count: nat, records: seq<Line>): (log: Log)
    ensures |log.backups| <= count
  {
    if records == [] then EMPTY
    else Write(After(maxBytes, count, records[..|records| - 1]), maxBytes, count, records[|records| - 1])
  }

  /** Every record still on disk, oldest first. */
  function Kept(log: Log): seq<Line> {
    Flatten(log.backups) + CurrentFile(log)
  }

  /** `a` is the end of `b`. */
  predicate IsSuffix(a: seq<Line>, b: seq<Line>) {
    |a| <= |b| && a == b[|b| - |a|..]
  }

  /** The file was below the limit until its last record. */
  predicate IsBounded(file: File, maxBytes: nat) {
    file != [] && Size(file[..|file| - 1]) < maxBytes
  }

  predicate IsBackup(file: File, maxBytes: nat) {
    IsBounded(file, maxBytes) && Size(file) >= maxBytes
  }

  /** The number of records a write discards. */
  function Discarded(log: Log, maxBytes: nat, count: nat): nat {
    if !IsFull(log, maxBytes) || |log.backups| < count then 0
    else if count == 0 then |CurrentFile(log)|
    else if log.backups == [] then 0
    else |log.backups[0]|
  }

  /** A write adds its record at the end and discards exactly the oldest backup, and that only when it rotates with all slots taken. */
  lemma {:induction false} WriteDropsTheOldest(log: Log, maxBytes: nat, count: nat, record: Line)
    requires |log.backups| <= count
    ensures Discarded(log, maxBytes, count) <= |Kept(log)|
    ensures Kept(Write(log, maxBytes, count, record)) == Kept(log)[Discarded(log, maxBytes, count)..] + [record]
  {
    hide Size;
    if IsFull(log, maxBytes) && count > 0 {
      var last := CurrentFile(log);
      if |log.backups| < count {
        FlattenAppend(log.backups, last);
      } else {
        FlattenAppend(log.backups[1..], last);
      }
    }
  }

  ghost predicate Healthy(log: Log, maxBytes: nat) {
    && (forall i | 0 <= i < |log.backups| :: IsBackup(log.backups[i], maxBytes))
    && (log.current.Some? ==> IsBounded(log.current.value, maxBytes))
  }

  lemma {:induction false} WriteKeepsHealth(log: Log, maxBytes: nat, count: nat, record: Line)
    requires maxBytes >= 1 && |log.backups| <= count && Healthy(log, maxBytes)
    ensures Healthy(Write(log, maxBytes, count, record), maxBytes)
  {
  }

  /** Every file was below the limit until its last record, and backups are full. */
  lemma {:induction false} LogIsHealthy(maxBytes: nat, count: nat, records: seq<Line>)
    requires maxBytes >= 1
    ensures Healthy(After(maxBytes, count, records), maxBytes)
  {
    hide Healthy, IsFull, Write;
    if records == [] {
      NothingWritten(maxBytes);
    } else {
      var n := |records| - 1;
      LogIsHealthy(maxBytes, count, records[..n]);
      WriteKeepsHealth(After(maxBytes, count, records[..n]), maxBytes, count, records[n]);
    }
  }

  /**
   * For every sequence of writes what is on disk is the newest records, in order, and nothing is discarded before all slots
   * are taken by newer backups.
   */
  lemma {:induction false} LogKeepsTheNewest(maxBytes: nat, count: nat, records: seq<Line>)
    requires maxBytes >= 1
    ensures var log := After(maxBytes, count, records);
            && IsSuffix(Kept(log), records)
            && (records != [] ==> log.current.Some?)
            && (|Kept(log)| < |records| ==> |log.backups| == count)
  {
    hide Healthy, Kept, IsFull, Write, Discarded, IsSuffix;
    if records == [] {
      NothingWritten(maxBytes);
    } else {
      var n := |records| - 1;
      LogKeepsTheNewest(maxBytes, count, records[..n]);
      var log := After(maxBytes, count, records[..n]);
      WriteDropsTheOldest(log, maxBytes, count, records[n]);
      SlotsFillUp(log, maxBytes, count, records[n]);
      SuffixGrows(records, Discarded(log, maxBytes, count), Kept(log));
    }
  }

  lemma {:induction false} NothingWritten(maxBytes: nat)
    ensures Kept(EMPTY) == [] && Healthy(EMPTY, maxBytes) && IsSuffix([], [])
  {
  }

  lemma {:induction false} SuffixGrows(records: seq<Line>, d: nat, kept: seq<Line>)
    requires records != [] && d <= |kept| && IsSuffix(kept, records[..|records| - 1])
    ensures IsSuffix(kept[d..] + [records[|records| - 1]], records)
    ensures |kept| <= |records| - 1
  {
  }

  /** Slots once taken stay taken, and a write that discards finds them all taken. */
  lemma {:induction false} SlotsFillUp(log: Log, maxBytes: nat, count: nat, record: Line)
    requires |log.backups| <= count
    ensures |log.backups| == count ==> |Write(log, maxBytes, count, record).backups| == count
    ensures Discarded(log, maxBytes, count) > 0 ==> |log.backups| == count
    ensures |Write(log, maxBytes, count, record).backups| <= count && Write(log, maxBytes, count, record).current.Some?
  {
  }

  // ----- reading the files -----

  /** `archive_files`: the highest-numbered backup first and the current file last. */
  function ArchiveFiles(log: Log): seq<seq<Byte>> {
    Bytes(log.backups) + (if log.current.Some? then [Written(log.current.value)] else [])
  }

  function Bytes(files: seq<File>): seq<seq<Byte>> {
    seq(|files|, i requires 0 <= i < |files| => Written(files[i]))
  }

  lemma {:induction false} AllLinesConcat(first: seq<Byte>, rest: seq<seq<Byte>>)
    ensures AllLines([first] + rest) == Reversed(LinesOf(first)) + AllLines(rest)
  {
    hide Reversed, LinesOf;
    var all := [first] + rest;
    if rest == [] {
      assert all == [first] && all[..0] == [];
      assert AllLines(all) == AllLines(all[..0]) + Reversed(LinesOf(first));
    } else {
      var n := |rest| - 1;
      AllLinesConcat(first, rest[..n]);
      assert all[..|all| - 1] == [first] + rest[..n];
      var head, mid, last := Reversed(LinesOf(first)), AllLines(rest[..n]), Reversed(LinesOf(rest[n]));
      assert AllLines(all) == AllLines([first] + rest[..n]) + last;
      assert AllLines(rest) == mid + last;
      assert (head + mid) + last == head + (mid + last);
    }
  }

  predicate AllDistinct(records: seq<Line>) {
    forall i, j | 0 <= i < j < |records| :: records[i] != records[j]
  }

  lemma {:induction false} FirstRead(file: File, rest: seq<seq<Byte>>)
    requires file != [] && forall i | 0 <= i < |file| :: IsRecord(file[i])
    ensures var lines := AllLines([Written(file)] + rest); lines != [] && lines[0] == file[|file| - 1]
  {
    AllLinesConcat(Written(file), rest);
    RecordsReadBack(file);
    ReversedAt(file, 0);
  }

  lemma {:induction false} OneFileReadsBack(log: Log)
    requires log.backups == [] && log.current.Some?
    requires forall i | 0 <= i < |log.current.value| :: IsRecord(log.current.value[i])
    ensures AllLines(ArchiveFiles(log)) == Reversed(Kept(log))
  {
    var last := log.current.value;
    assert Flatten(log.backups) == [];
    assert Kept(log) == [] + last == last;
    assert Bytes([]) == [];
    assert ArchiveFiles(log) == [Written(last)] + [];
    AllLinesConcat(Written(last), []);
    RecordsReadBack(last);
    hide Reversed, LinesOf, Written;
    assert Reversed(last) + [] == Reversed(last);
  }

  /** With a backup the first record read is one of the oldest file, not the last one written. */
  lemma {:induction false} BackupIsReadFirst(log: Log)
    requires log.backups != [] && log.backups[0] != [] && log.current.Some? && log.current.value != []
    requires (forall i | 0 <= i < |log.backups[0]| :: IsRecord(log.backups[0][i])) && AllDistinct(Kept(log))
    ensures AllLines(ArchiveFiles(log)) != Reversed(Kept(log))
  {
    var oldest, kept := log.backups[0], Kept(log);
    var rest := ArchiveFiles(log)[1..];
    assert ArchiveFiles(log) == [Written(oldest)] + rest;
    FirstRead(oldest, rest);
    hide Written;
    assert Flatten(log.backups) == oldest + Flatten(log.backups[1..]);
    assert kept[|oldest| - 1] == oldest[|oldest| - 1];
    ReversedAt(kept, 0);
  }

  /**
   * `iter_recent_lines` yields the records on disk from the newest to the oldest exactly when there is no backup:
   * with one, it begins with a record of the oldest file.
   */
  lemma {:induction false} NewestFirstWithoutBackups(maxBytes: nat, count: nat, records: seq<Line>)
    requires maxBytes >= 1 && records != [] && AllDistinct(records)
    requires forall i | 0 <= i < |records| :: IsRecord(records[i])
    ensures var log := After(maxBytes, count, records);
            AllLines(ArchiveFiles(log)) == Reversed(Kept(log)) <==> log.backups == []
  {
    hide Reversed, LinesOf, Written, AllLines, Bytes, ArchiveFiles, Write, After, IsRecord, Size;
    var log := After(maxBytes, count, records);
    LogKeepsTheNewest(maxBytes, count, records);
    LogIsHealthy(maxBytes, count, records);
    var kept := Kept(log);
    forall i | 0 <= i < |kept| ensures kept[i] == records[|records| - |kept| + i] {
    }
    if log.backups == [] {
      assert Flatten(log.backups) == [] && kept == log.current.value;
      OneFileReadsBack(log);
    } else {
      assert Flatten(log.backups) == log.backups[0] + Flatten(log.backups[1..]);
      assert forall i | 0 <= i < |log.backups[0]| :: log.backups[0][i] == kept[i];
      assert IsBackup(log.backups[0], maxBytes);
      BackupIsReadFirst(log);
    }
  }

  /** Two files of one record each are read in the order they are listed. */
  lemma {:induction false} TwoFilesRead(x: Line, y: Line)
    requires IsRecord(x) && IsRecord(y)
    ensures AllLines([Written([x])] + [Written([y])]) == [x, y]
  {
    OneFileRead(x);
    OneFileRead(y);
    NothingRead();
    hide Reversed, LinesOf, Written, AllLines;
    AllLinesConcat(Written([y]), []);
    assert [Written([y])] + [] == [Written([y])];
    AllLinesConcat(Written([x]), [Written([y])]);
  }

  lemma {:induction false} OneFileRead(x: Line)
    requires IsRecord(x)
    ensures Reversed(LinesOf(Written([x]))) == [x]
  {
    RecordsReadBack([x]);
    ReversedOne(x);
    hide Reversed, LinesOf, Written;
  }

  lemma {:induction false} NothingRead()
    ensures AllLines([]) == []
  {
  }

  /** A run with one slot and a limit of one byte: of two records the older is read first. */
  lemma {:induction false} BackupIsReadBeforeTheLast()
    ensures var x, y := [49 as Byte], [50 as Byte];
            var log := After(1, 1, [x, y]);
            log.backups != [] && AllLines(ArchiveFiles(log)) == [x, y] && Reversed(Kept(log)) == [y, x]
  {
    var x, y := [49 as Byte], [50 as Byte];
    assert IsRecord(x) && IsRecord(y);
    hide After, AllLines, Reversed, Written, LinesOf, ArchiveFiles, Kept, IsRecord;
    TwoWrites(x, y);
    FilesOfTwo(x, y);
    ReversedTwo(x, y);
    TwoFilesRead(x, y);
  }

  lemma {:induction false} FilesOfTwo(x: Line, y: Line)
    ensures var log := Log([[x]], Some([y])); Kept(log) == [x, y] && ArchiveFiles(log) == [Written([x])] + [Written([y])]
  {
    hide Written;
    FlattenOne([x]);
  }

  lemma {:induction false} FlattenOne(file: File)
    ensures Flatten([file]) == file
  {
    assert [file][1..] == [];
    assert Flatten([file]) == file + Flatten([file][1..]);
  }

  lemma {:induction false} ReversedOne<T>(x: T)
    ensures Reversed([x]) == [x]
  {
    ReversedAt([x], 0);
  }

  lemma {:induction false} ReversedTwo<T>(x: T, y: T)
    ensures Reversed([x, y]) == [y, x]
  {
    ReversedAt([x, y], 0);
    ReversedAt([x, y], 1);
  }

  lemma {:induction false} TwoWrites(x: Line, y: Line)
    ensures After(1, 1, [x, y]) == Log([[x]], Some([y]))
  {
    assert [x, y][..1] == [x] && [x][..0] == [];
    assert After(1, 1, []) == EMPTY;
    assert [] + [x] == [x];
    assert After(1, 1, [x]) == Write(EMPTY, 1, 1, x);
    assert Written([x]) == Written([]) + (x + [NEWLINE]);
  }
}
