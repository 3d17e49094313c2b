/** app/notices.py: what holds of the notice file after every sequence of operations by any processes. */
module NoticeRuns {
  import opened PyText
  import opened Notices

  // ----- what a step writes -----

  /** Lines with distinct notices replay to their records. */
  lemma {:induction false} ReplayDistinct(lines: seq<Line>)
    requires forall i | 0 <= i < |lines| :: lines[i].Good?
    requires forall i, j | 0 <= i < j < |lines| :: lines[i].record.id != lines[j].record.id
    ensures forall i | 0 <= i < |lines| ::
              lines[i].record.id in Replay(lines) && Replay(lines)[lines[i].record.id] == lines[i].record
    ensures forall id | id in Replay(lines) :: exists i :: 0 <= i < |lines| && lines[i].record.id == id
  {
    if lines != [] {
      var n := |lines| - 1;
      ReplayDistinct(lines[..n]);
      assert lines[n].record.id !in Replay(lines[..n]);
      forall id | id in Replay(lines) ensures exists i :: 0 <= i < |lines| && lines[i].record.id == id {
        if id in Replay(lines[..n]) {
          var i :| 0 <= i < n && lines[..n][i].record.id == id;
          assert lines[i].record.id == id;
        } else {
          assert lines[n].record.id == id;
        }
      }
      forall i | 0 <= i < |lines|
        ensures lines[i].record.id in Replay(lines) && Replay(lines)[lines[i].record.id] == lines[i].record
      {
        assert i < n ==> lines[..n][i] == lines[i];
      }
    }
  }

  lemma {:induction false} ReplayLists(lines: seq<Line>, records: Records)
    requires Lists(lines, records)
    ensures Replay(lines) == records
  {
    ReplayDistinct(lines);
    forall id ensures id in records <==> id in Replay(lines) {
    }
  }

  /** A new line with a new notice or a newer revision takes effect. */
  lemma {:induction false} ReplayAppend(lines: seq<Line>, rec: Record)
    requires rec.id in Replay(lines) ==> rec.revision > Replay(lines)[rec.id].revision
    ensures Replay(lines + [Good(rec)]) == Replay(lines)[rec.id := rec]
  {
  }

  lemma {:induction false} PrunedTwice(records: Records, limit: nat)
    requires WellKeyed(records) && |Archive(records)| <= limit
    ensures Pruned(records, limit) == records
  {
    SmallIsKept(Archive(records), limit);
    forall id | id in records && records[id].status == Archived ensures records[id] in Archive(records) {
    }
  }

  /** An identifier drawn for a new notice is in no line of the file. */
  predicate IsFresh(op: Operation, all: Records) {
    op.Create? ==> op.id !in all
  }

  /** The record of a successful operation that does not delete, and what it does to the records. */
  lemma {:induction false} ChangeIs(cfg: Config, records: Records, op: Operation)
    requires WellKeyed(records) && Apply(cfg, records, op).Success?
    ensures var change := Apply(cfg, records, op).value;
            && change.record.id == op.id && change.compact == op.Delete?
            && (op.Create? ==> change.record == NewRecord(op))
            && (op.Update? ==> op.id in records && change.record == Revised(records[op.id], op))
            && (!op.Delete? ==> change.records == Pruned(records[op.id := change.record], cfg.maxHistory))
            && (op.Delete? ==> op.id in records && records[op.id].status == Draft && change.records == records - {op.id})
  {
  }

  lemma {:induction false} ChangeIsBounded(cfg: Config, lines: seq<Line>, op: Operation)
    requires Apply(cfg, Load(cfg, lines), op).Success?
    ensures var change := Apply(cfg, Load(cfg, lines), op).value;
            WellKeyed(change.records) && |Archive(change.records)| <= cfg.maxHistory
            && Pruned(change.records, cfg.maxHistory) == change.records
  {
    ReplayIsWellKeyed(lines);
    ArchiveOfPruned(Replay(lines), cfg.maxHistory);
    var records := Load(cfg, lines);
    ChangeIs(cfg, records, op);
    var change := Apply(cfg, records, op).value;
    if op.Delete? {
      SubsetSize(Archive(change.records), Archive(records));
    } else {
      assert WellKeyed(records[op.id := change.record]);
      ArchiveOfPruned(records[op.id := change.record], cfg.maxHistory);
    }
    hide Pruned, Apply;
    PrunedTwice(change.records, cfg.maxHistory);
  }

  /**
   * What the next process loads is what this operation kept exactly when the file was compacted or no pruned notice resurfaces:
   * the notice was archived, the file holds more archived notices than the history, and the notice leaves the archive
   * or comes to lie below a pruned one in it.
   */
  lemma {:induction false} MutationIsDurable(cfg: Config, lines: seq<Line>, op: Operation, next: seq<Line>)
    requires IsConfig(cfg) && IsFresh(op, Replay(lines)) && IsStep(cfg, lines, op, next)
    ensures Apply(cfg, Load(cfg, lines), op).Failure? ==> next == lines
    ensures Apply(cfg, Load(cfg, lines), op).Success? ==>
              var change := Apply(cfg, Load(cfg, lines), op).value;
              var all := Replay(lines);
              (Load(cfg, next) == change.records
               <==> Compacts(cfg, lines, change) || !Resurfaces(Archive(all), cfg.maxHistory, Found(all, op.id), change.record))
  {
    if Apply(cfg, Load(cfg, lines), op).Success? {
      var change := Apply(cfg, Load(cfg, lines), op).value;
      ChangeIsBounded(cfg, lines, op);
      ReplayIsWellKeyed(lines);
      if Compacts(cfg, lines, change) {
        hide Pruned, Apply;
        ReplayLists(next, change.records);
      } else {
        AppendIsDurable(cfg, lines, op);
      }
    }
  }

  lemma {:induction false} AppendIsDurable(cfg: Config, lines: seq<Line>, op: Operation)
    requires IsConfig(cfg) && IsFresh(op, Replay(lines))
    requires Apply(cfg, Load(cfg, lines), op).Success? && !op.Delete?
    ensures var change := Apply(cfg, Load(cfg, lines), op).value;
            var all := Replay(lines);
            && Replay(lines + [Good(change.record)]) == all[op.id := change.record]
            && (Load(cfg, lines + [Good(change.record)]) == change.records
                <==> !Resurfaces(Archive(all), cfg.maxHistory, Found(all, op.id), change.record))
  {
    var all, records := Replay(lines), Load(cfg, lines);
    var rec := Apply(cfg, records, op).value.record;
    ReplayIsWellKeyed(lines);
    ArchiveOfPruned(all, cfg.maxHistory);
    ChangeIs(cfg, records, op);
    assert op.Update? ==> records[op.id] == all[op.id];
    ReplayAppend(lines, rec);
    hide Pruned, Apply, Resurfaces, Replay;
    UpdateAfterPruning(all, cfg.maxHistory, rec);
  }

  /** The line an operation writes is what the file then holds of its notice. */
  lemma {:induction false} RecordIsWritten(cfg: Config, lines: seq<Line>, op: Operation, next: seq<Line>)
    requires IsConfig(cfg) && IsFresh(op, Replay(lines)) && IsStep(cfg, lines, op, next)
    requires Apply(cfg, Load(cfg, lines), op).Success? && !op.Delete?
    ensures op.id in Replay(next) ==> Replay(next)[op.id] == Apply(cfg, Load(cfg, lines), op).value.record
  {
    var records := Load(cfg, lines);
    var change := Apply(cfg, records, op).value;
    LoadIsPart(cfg, lines);
    ChangeIs(cfg, records, op);
    if Compacts(cfg, lines, change) {
      ReplayLists(next, change.records);
      KeptNotices(cfg, records, op);
    } else {
      AppendIsDurable(cfg, lines, op);
    }
    hide Replay, Load, Apply, Pruned, Resurfaces, Lists;
  }

  /**
   * What the next process sees of an updated notice that is not pruned: the fields asked for, the others as before, one revision
   * more, a publication time from going online, and an archiving time from being archived.
   */
  lemma {:induction false} UpdateIsSeen(cfg: Config, lines: seq<Line>, op: Operation, next: seq<Line>)
    requires IsConfig(cfg) && IsStep(cfg, lines, op, next) && op.Update?
    requires Apply(cfg, Load(cfg, lines), op).Success? && op.id in Load(cfg, next)
    ensures op.id in Load(cfg, lines)
    ensures var was, now := Load(cfg, lines)[op.id], Load(cfg, next)[op.id];
            && now.id == op.id && now.revision == was.revision + 1 && now.createdAt == was.createdAt && now.updatedAt == op.now
            && (op.text.Some? ==> was.status == Draft && now.content == op.text.value) && (op.text.None? ==> now.content == was.content)
            && (op.grade.Some? ==> was.status == Draft && now.level == op.grade.value) && (op.grade.None? ==> now.level == was.level)
            && (op.status.Some? ==> now.status == op.status.value) && (op.status.None? ==> now.status == was.status)
            && (now.status == Active && was.status != Active ==> now.publishedAt == Some(op.now) && now.archivedAt == None)
            && (now.status == Archived ==> now.publishedAt == was.publishedAt && now.archivedAt == Some(op.now))
  {
    var records := Load(cfg, lines);
    LoadIsPart(cfg, lines);
    LoadIsPart(cfg, next);
    ChangeIs(cfg, records, op);
    RecordIsWritten(cfg, lines, op, next);
    assert UpdateError(cfg, records, op) == None;
    hide Replay, Load, Apply, IsStep;
  }

  // ----- runs -----

  predicate HasTime(op: Operation) {
    !op.Delete?
  }

  /** Operations one after another on an empty file, new identifiers never drawn twice, the clock always advancing. */
  ghost predicate IsRun(cfg: Config, files: seq<seq<Line>>, ops: seq<Operation>) {
    && IsConfig(cfg) && |files| == |ops| + 1 && files[0] == []
    && (forall i | 0 <= i < |ops| :: IsStep(cfg, files[i], ops[i], files[i + 1]))
    && (forall i, j | 0 <= i < j < |ops| && ops[i].Create? && ops[j].Create? :: ops[i].id != ops[j].id)
    && (forall i, j | 0 <= i < j < |ops| && HasTime(ops[i]) && HasTime(ops[j]) :: ops[i].now < ops[j].now)
  }

  /** No later operation draws an identifier of the file. */
  ghost predicate Unseen(all: Records, ops: seq<Operation>, i: nat) {
    forall j | i <= j < |ops| :: IsFresh(ops[j], all)
  }

  ghost predicate Past(all: Records, ops: seq<Operation>, i: nat) {
    forall id, j | id in all && all[id].status == Archived && i <= j < |ops| && HasTime(ops[j]) ::
      TimeValue(all[id].archivedAt) < ops[j].now
  }

  /** The notice of the next file is one of this file, or what the operation made. */
  ghost predicate Comes(cfg: Config, all: Records, records: Records, op: Operation, id: Id, r: Record) {
    || (id in all && r == all[id])
    || (id == op.id && Apply(cfg, records, op).Success?
        && ((op.Create? && r == NewRecord(op)) || (op.Update? && id in all && r == Revised(all[id], op))))
  }

  /** What a process loads is a part of what the file holds. */
  lemma {:induction false} LoadIsPart(cfg: Config, lines: seq<Line>)
    ensures WellKeyed(Replay(lines)) && WellKeyed(Load(cfg, lines))
    ensures forall id | id in Load(cfg, lines) :: id in Replay(lines) && Load(cfg, lines)[id] == Replay(lines)[id]
    ensures ActiveOnes(Load(cfg, lines)) == ActiveOnes(Replay(lines))
  {
    ReplayIsWellKeyed(lines);
    ArchiveOfPruned(Replay(lines), cfg.maxHistory);
    hide Kept;
  }

  lemma {:induction false} KeptNotices(cfg: Config, records: Records, op: Operation)
    requires WellKeyed(records) && Apply(cfg, records, op).Success?
    ensures var change := Apply(cfg, records, op).value;
            forall id | id in change.records ::
              if id == op.id && !op.Delete? then change.records[id] == change.record
              else id in records && change.records[id] == records[id]
  {
  }

  lemma {:induction false} StepNotices(cfg: Config, lines: seq<Line>, op: Operation, next: seq<Line>)
    requires IsConfig(cfg) && IsFresh(op, Replay(lines)) && IsStep(cfg, lines, op, next)
    ensures forall id | id in Replay(next) :: Comes(cfg, Replay(lines), Load(cfg, lines), op, id, Replay(next)[id])
  {
    LoadIsPart(cfg, lines);
    var records := Load(cfg, lines);
    if Apply(cfg, records, op).Success? {
      ChangeIs(cfg, records, op);
      var change := Apply(cfg, records, op).value;
      if Compacts(cfg, lines, change) {
        ReplayLists(next, change.records);
        KeptNotices(cfg, records, op);
      } else {
        AppendIsDurable(cfg, lines, op);
      }
      hide Replay, Revised, NewRecord, Resurfaces, Pruned, Apply, Load, Lists, Compacts;
    }
  }

  lemma {:induction false} RunFacts(cfg: Config, files: seq<seq<Line>>, ops: seq<Operation>, i: nat)
    requires IsRun(cfg, files, ops) && i < |files|
    ensures Unseen(Replay(files[i]), ops, i) && Past(Replay(files[i]), ops, i)
  {
    if i > 0 {
      RunFacts(cfg, files, ops, i - 1);
      var op := ops[i - 1];
      assert IsStep(cfg, files[i - 1], op, files[i]);
      hide IsStep, Apply, Load;
      StepNotices(cfg, files[i - 1], op, files[i]);
      var all, after := Replay(files[i - 1]), Replay(files[i]);
      forall j | i <= j < |ops| ensures IsFresh(ops[j], after) {
        assert IsFresh(ops[j], all);
        assert ops[j].id in after ==> Comes(cfg, all, Load(cfg, files[i - 1]), op, ops[j].id, after[ops[j].id]);
      }
      forall id, j | id in after && after[id].status == Archived && i <= j < |ops| && HasTime(ops[j])
        ensures TimeValue(after[id].archivedAt) < ops[j].now
      {
        assert Comes(cfg, all, Load(cfg, files[i - 1]), op, id, after[id]);
      }
    }
  }

  /** An operation that puts an archived notice back online while the file holds more archived notices than the history keeps. */
  ghost predicate Revives(cfg: Config, lines: seq<Line>, op: Operation) {
    && op.Update? && op.status == Some(Active) && IsArchived(Found(Replay(lines), op.id))
    && |Archive(Replay(lines))| > cfg.maxHistory
  }

  /**
   * In every run, after every successful operation, every process loads exactly the records the operation kept,
   * unless it appended a revival; and then it never does.
   */
  lemma {:induction false} RunsAreDurable(cfg: Config, files: seq<seq<Line>>, ops: seq<Operation>, i: nat)
    requires IsRun(cfg, files, ops) && i < |ops|
    requires Apply(cfg, Load(cfg, files[i]), ops[i]).Success?
    ensures var change := Apply(cfg, Load(cfg, files[i]), ops[i]).value;
            Load(cfg, files[i + 1]) == change.records
            <==> Compacts(cfg, files[i], change) || !Revives(cfg, files[i], ops[i])
  {
    RunFacts(cfg, files, ops, i);
    assert IsStep(cfg, files[i], ops[i], files[i + 1]) && IsFresh(ops[i], Replay(files[i]));
    MutationIsDurable(cfg, files[i], ops[i], files[i + 1]);
    if !ops[i].Delete? {
      ResurfacingIsRevival(cfg, files[i], ops, i);
    } else {
      ChangeIsBounded(cfg, files[i], ops[i]);
    }
    hide Load, Pruned, Resurfaces, Revives, IsStep, Past, Unseen, Replay;
  }

  lemma {:induction false} ResurfacingIsRevival(cfg: Config, lines: seq<Line>, ops: seq<Operation>, i: nat)
    requires i < |ops| && !ops[i].Delete? && IsFresh(ops[i], Replay(lines)) && Past(Replay(lines), ops, i)
    requires Apply(cfg, Load(cfg, lines), ops[i]).Success?
    ensures var rec := Apply(cfg, Load(cfg, lines), ops[i]).value.record;
            Resurfaces(Archive(Replay(lines)), cfg.maxHistory, Found(Replay(lines), ops[i].id), rec)
            <==> Revives(cfg, lines, ops[i])
  {
  }

  // ----- what holds in every state of every run -----

  /** No more than `maxActive` notices are online. */
  lemma {:induction false} ActiveIsBounded(cfg: Config, files: seq<seq<Line>>, ops: seq<Operation>, i: nat)
    requires IsRun(cfg, files, ops) && i < |files|
    ensures |ActiveOnes(Load(cfg, files[i]))| <= cfg.maxActive
  {
    LoadIsPart(cfg, files[i]);
    if i > 0 {
      ActiveIsBounded(cfg, files, ops, i - 1);
      RunFacts(cfg, files, ops, i - 1);
      assert IsStep(cfg, files[i - 1], ops[i - 1], files[i]) && IsFresh(ops[i - 1], Replay(files[i - 1]));
      StepNotices(cfg, files[i - 1], ops[i - 1], files[i]);
      LoadIsPart(cfg, files[i - 1]);
      hide Load, Replay, IsStep, Past, Unseen;
      ActiveStep(cfg, Replay(files[i - 1]), Load(cfg, files[i - 1]), ops[i - 1], Replay(files[i]));
    }
  }

  lemma {:induction false} ActiveStep(cfg: Config, all: Records, records: Records, op: Operation, after: Records)
    requires ActiveOnes(records) == ActiveOnes(all) && |ActiveOnes(records)| <= cfg.maxActive
    requires forall id | id in records :: id in all && records[id] == all[id]
    requires forall id | id in after :: Comes(cfg, all, records, op, id, after[id])
    ensures |ActiveOnes(after)| <= cfg.maxActive
  {
    if op.id in after && after[op.id].status == Active && op.id !in ActiveOnes(all) {
      assert Comes(cfg, all, records, op, op.id, after[op.id]);
      assert |ActiveOnes(all)| < cfg.maxActive;
      assert ActiveOnes(after) <= ActiveOnes(all) + {op.id};
      SubsetSize(ActiveOnes(after), ActiveOnes(all) + {op.id});
    } else {
      assert ActiveOnes(after) <= ActiveOnes(all);
      SubsetSize(ActiveOnes(after), ActiveOnes(all));
    }
  }

  /** The file holds fewer lines than the compaction limit, or exactly one per record. */
  lemma {:induction false} FileIsBounded(cfg: Config, files: seq<seq<Line>>, ops: seq<Operation>, i: nat)
    requires IsRun(cfg, files, ops) && i < |files|
    ensures |files[i]| <= cfg.compactAfter - 1 || |files[i]| == |Load(cfg, files[i])|
  {
    if i > 0 {
      FileIsBounded(cfg, files, ops, i - 1);
      RunFacts(cfg, files, ops, i - 1);
      var lines, op := files[i - 1], ops[i - 1];
      assert IsStep(cfg, lines, op, files[i]) && IsFresh(op, Replay(lines));
      MutationIsDurable(cfg, lines, op, files[i]);
      hide Load, Resurfaces, Replay, Past, Unseen, Apply;
    }
  }

  predicate IsPublished(r: Record) {
    r.status == Active || r.status == Archived
  }

  /** The notice is gone for good, or still published with the same content and level. */
  ghost predicate Stays(all: Records, id: Id, content: string, level: Level) {
    id in all ==> IsPublished(all[id]) && all[id].content == content && all[id].level == level
  }

  /** Once published, a notice keeps its content and level in every later state, even if it is pruned and resurfaces. */
  lemma {:induction false} PublishedStays(cfg: Config, files: seq<seq<Line>>, ops: seq<Operation>, i: nat, j: nat, id: Id)
    requires IsRun(cfg, files, ops) && i <= j < |files|
    requires id in Replay(files[i]) && IsPublished(Replay(files[i])[id])
    ensures Stays(Replay(files[j]), id, Replay(files[i])[id].content, Replay(files[i])[id].level)
    ensures forall k | j <= k < |ops| :: ops[k].Create? ==> ops[k].id != id
  {
    hide Replay;
    if i == j {
      RunFacts(cfg, files, ops, i);
      assert forall k | i <= k < |ops| :: IsFresh(ops[k], Replay(files[i]));
    } else {
      PublishedStays(cfg, files, ops, i, j - 1, id);
      RunFacts(cfg, files, ops, j - 1);
      var lines, op := files[j - 1], ops[j - 1];
      assert IsStep(cfg, lines, op, files[j]) && IsFresh(op, Replay(lines));
      StepNotices(cfg, lines, op, files[j]);
      LoadIsPart(cfg, lines);
      hide IsStep, Load, Past, Unseen;
      if id in Replay(files[j]) {
        assert Comes(cfg, Replay(lines), Load(cfg, lines), op, id, Replay(files[j])[id]);
        PublishedStep(cfg, Replay(lines), Load(cfg, lines), op, id, Replay(files[j])[id]);
      }
    }
  }

  lemma {:induction false} PublishedStep(cfg: Config, all: Records, records: Records, op: Operation, id: Id, r: Record)
    requires forall id | id in records :: id in all && records[id] == all[id]
    requires Comes(cfg, all, records, op, id, r) && !(op.Create? && op.id == id)
    requires id in all ==> IsPublished(all[id])
    ensures id in all && IsPublished(r) && r.content == all[id].content && r.level == all[id].level
  {
  }

  // ----- a revival that brings a pruned notice back -----

  /** A history of one notice. */
  const EXAMPLE := Config(10, 1, 2000)

  const TEXT := "notice"

  /** Two notices are published and archived, and the second goes back online. */
  const EXAMPLE_OPERATIONS := [
    Create(1, TEXT, Info, true, 1),
    Update(1, None, None, Some(Archived), 2),
    Create(2, TEXT, Info, true, 3),
    Update(2, None, None, Some(Archived), 4),
    Update(2, None, None, Some(Active), 5)
  ]

  const FIRST_ONLINE := Record(1, TEXT, Info, Active, 1, 1, 1, Some(1), None)
  const FIRST_ARCHIVED := Record(1, TEXT, Info, Archived, 2, 1, 2, Some(1), Some(2))
  const SECOND_ONLINE := Record(2, TEXT, Info, Active, 1, 3, 3, Some(3), None)
  const SECOND_ARCHIVED := Record(2, TEXT, Info, Archived, 2, 3, 4, Some(3), Some(4))
  const SECOND_REVIVED := Record(2, TEXT, Info, Active, 3, 3, 5, Some(5), None)

  /** The file after `k` of the operations. */
  function ExampleFile(k: nat): seq<Line>
    requires k <= 5
  {
    if k == 0 then []
    else
      ExampleFile(k - 1)
      + [Good(if k == 1 then FIRST_ONLINE else if k == 2 then FIRST_ARCHIVED else if k == 3 then SECOND_ONLINE
              else if k == 4 then SECOND_ARCHIVED else SECOND_REVIVED)]
  }

  lemma {:induction false} ReplayIsSmall(lines: seq<Line>)
    ensures |Replay(lines)| <= |lines|
  {
    if lines != [] {
      ReplayIsSmall(lines[..|lines| - 1]);
    }
  }

  /** In a short file a new notice, or an allowed change of status, is appended. */
  lemma {:induction false} ExampleAppends(lines: seq<Line>, op: Operation, rec: Record)
    requires |lines| < 10
    requires op.Create? || op.Update?
    requires op.Create? ==> rec == NewRecord(op)
    requires op.Update? ==>
               var records := Load(EXAMPLE, lines);
               && op.id in records && op.text == None && op.grade == None && op.status.Some?
               && records[op.id].status != Deleted && IsAllowed(records[op.id].status, op.status.value)
               && rec == Revised(records[op.id], op)
    ensures IsStep(EXAMPLE, lines, op, lines + [Good(rec)])
  {
    var records := Load(EXAMPLE, lines);
    ReplayIsSmall(lines);
    SubsetSize(records.Keys, Replay(lines).Keys);
    SubsetSize(ActiveOnes(records), records.Keys);
    assert op.Update? ==> UpdateError(EXAMPLE, records, op) == None;
    assert Apply(EXAMPLE, records, op).Success?;
    LoadIsPart(EXAMPLE, lines);
    ChangeIs(EXAMPLE, records, op);
    PruningDropsNothing(records[op.id := rec]);
    assert records[op.id := rec].Keys == records.Keys + {op.id};
    hide Apply, Load, Pruned, Revised, IsAllowed;
    assert !Compacts(EXAMPLE, lines, Apply(EXAMPLE, records, op).value);
  }

  lemma {:induction false} PruningDropsNothing(records: Records)
    ensures |Pruned(records, EXAMPLE.maxHistory)| <= |records|
  {
    SubsetSize(Pruned(records, EXAMPLE.maxHistory).Keys, records.Keys);
  }

  lemma {:induction false} ExampleReplays()
    ensures Replay(ExampleFile(0)) == map[]
    ensures Replay(ExampleFile(1)) == map[1 := FIRST_ONLINE]
    ensures Replay(ExampleFile(2)) == map[1 := FIRST_ARCHIVED]
    ensures Replay(ExampleFile(3)) == map[1 := FIRST_ARCHIVED, 2 := SECOND_ONLINE]
    ensures Replay(ExampleFile(4)) == map[1 := FIRST_ARCHIVED, 2 := SECOND_ARCHIVED]
    ensures Replay(ExampleFile(5)) == map[1 := FIRST_ARCHIVED, 2 := SECOND_REVIVED]
  {
    hide Replay;
    assert Replay(ExampleFile(0)) == map[] by {
      NothingReplays();
    }
    ReplayAppend(ExampleFile(0), FIRST_ONLINE);
    ReplayAppend(ExampleFile(1), FIRST_ARCHIVED);
    ReplayAppend(ExampleFile(2), SECOND_ONLINE);
    ReplayAppend(ExampleFile(3), SECOND_ARCHIVED);
    ReplayAppend(ExampleFile(4), SECOND_REVIVED);
  }

  lemma {:induction false} NothingReplays()
    ensures Replay([]) == map[]
  {
  }

  /** With at most one archived notice nothing is pruned. */
  lemma {:induction false} LoadsAll(lines: seq<Line>, r: Record)
    requires Archive(Replay(lines)) <= {r}
    ensures Load(EXAMPLE, lines) == Replay(lines)
  {
    ReplayIsWellKeyed(lines);
    SubsetSize(Archive(Replay(lines)), {r});
    PrunedTwice(Replay(lines), 1);
  }

  lemma {:induction false} ExampleLoads()
    ensures forall k | k in {0, 1, 2, 3, 5} :: Load(EXAMPLE, ExampleFile(k)) == Replay(ExampleFile(k))
    ensures Load(EXAMPLE, ExampleFile(4)) == map[2 := SECOND_ARCHIVED]
  {
    ExampleReplays();
    hide Replay, Load, ExampleFile;
    LoadsAll(ExampleFile(0), FIRST_ARCHIVED);
    LoadsAll(ExampleFile(1), FIRST_ARCHIVED);
    LoadsAll(ExampleFile(2), FIRST_ARCHIVED);
    LoadsAll(ExampleFile(3), FIRST_ARCHIVED);
    LoadsAll(ExampleFile(5), FIRST_ARCHIVED);
    FirstIsPruned();
  }

  lemma {:induction false} FirstIsPruned()
    ensures Load(EXAMPLE, ExampleFile(4)) == map[2 := SECOND_ARCHIVED]
  {
    ExampleReplays();
    var all := Replay(ExampleFile(4));
    hide Replay, ExampleFile;
    var archive := Archive(all);
    forall r ensures r in archive <==> r in {FIRST_ARCHIVED, SECOND_ARCHIVED} {
      assert all[1] == FIRST_ARCHIVED && all[2] == SECOND_ARCHIVED;
    }
    assert archive == {FIRST_ARCHIVED, SECOND_ARCHIVED};
    assert Higher(archive, FIRST_ARCHIVED) == {SECOND_ARCHIVED} && Higher(archive, SECOND_ARCHIVED) == {};
  }

  lemma {:induction false} ExampleSteps()
    ensures forall k | 0 <= k < 5 :: IsStep(EXAMPLE, ExampleFile(k), EXAMPLE_OPERATIONS[k], ExampleFile(k + 1))
  {
    ExampleReplays();
    ExampleLoads();
    hide Replay, Load, IsStep;
    ExampleAppends(ExampleFile(0), EXAMPLE_OPERATIONS[0], FIRST_ONLINE);
    ExampleAppends(ExampleFile(1), EXAMPLE_OPERATIONS[1], FIRST_ARCHIVED);
    ExampleAppends(ExampleFile(2), EXAMPLE_OPERATIONS[2], SECOND_ONLINE);
    ExampleAppends(ExampleFile(3), EXAMPLE_OPERATIONS[3], SECOND_ARCHIVED);
    ExampleAppends(ExampleFile(4), EXAMPLE_OPERATIONS[4], SECOND_REVIVED);
  }

  /**
   * A run from the empty file with a history of one: notice 1 is pruned once notice 2 is archived; 2 goes back online by an
   * appended line; and the next process finds 1 in the history again.
   */
  lemma {:induction false} PrunedNoticeResurfaces()
    ensures exists files: seq<seq<Line>> ::
              && IsRun(EXAMPLE, files, EXAMPLE_OPERATIONS)
              && 1 in Load(EXAMPLE, files[3]) && 1 !in Load(EXAMPLE, files[4]) && 1 in Load(EXAMPLE, files[5])
  {
    ExampleReplays();
    ExampleLoads();
    ExampleSteps();
    var files := seq(6, k requires 0 <= k < 6 => ExampleFile(k));
    assert ExampleFile(0) == [];
    hide Load, Replay, IsStep, ExampleFile;
    assert IsRun(EXAMPLE, files, EXAMPLE_OPERATIONS);
  }
}
