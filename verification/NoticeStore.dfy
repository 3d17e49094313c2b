/** app/notices.py, `NoticeStore`: the in-memory records of one process and the file it shares with the others. */
module NoticeStore {
  import opened PyText
  import opened Notices

  // ----- sorting the archive -----

  ghost predicate IsSorted(s: seq<Record>) {
    forall i, j | 0 <= i < j < |s| :: Above(s[i], s[j])
  }

  function InsertRecord(s: seq<Record>, r: Record): seq<Record> {
    if s == [] || Above(r, s[0]) then [r] + s else [s[0]] + InsertRecord(s[1..], r)
  }

  lemma {:induction false} InsertSorted(s: seq<Record>, r: Record)
    requires IsSorted(s) && forall i | 0 <= i < |s| :: s[i].id != r.id
    ensures IsSorted(InsertRecord(s, r)) && forall x :: x in InsertRecord(s, r) <==> x == r || x in s
  {
    if s == [] || Above(r, s[0]) {
      var t := [r] + s;
      forall i, j | 0 <= i < j < |t| ensures Above(t[i], t[j]) {
        assert j > 1 ==> Above(s[0], s[j - 1]);
      }
    } else {
      var rest := InsertRecord(s[1..], r);
      InsertSorted(s[1..], r);
      var t := [s[0]] + rest;
      forall j | 0 <= j < |rest| ensures Above(s[0], rest[j]) {
        assert rest[j] in rest;
        if rest[j] in s[1..] {
          var k :| 0 <= k < |s[1..]| && s[1..][k] == rest[j];
          assert Above(s[0], s[k + 1]);
        }
      }
      forall x ensures x in t <==> x == r || x in s {
        assert s == [s[0]] + s[1..];
      }
    }
  }

  /** `sorted` with the key of `_sorted_records`, reversed. */
  method SortArchive(records: Records) returns (sorted: seq<Record>)
    requires WellKeyed(records)
    ensures IsSorted(sorted) && forall r :: r in sorted <==> r in Archive(records)
  {
    sorted := [];
    var todo := set id | id in records && records[id].status == Archived;
    while todo != {}
      invariant forall id | id in todo :: id in records && records[id].status == Archived
      invariant forall r :: r in sorted <==> r in Archive(records) && r.id !in todo
      invariant IsSorted(sorted)
      decreases |todo|
    {
      var id: Id :| id in todo;
      var r := records[id];
      assert r in Archive(records);
      assert forall i | 0 <= i < |sorted| :: sorted[i] in sorted;
      InsertSorted(sorted, r);
      sorted := InsertRecord(sorted, r);
      todo := todo - {id};
    }
  }

  /** In the sorted archive the records above one are those before it. */
  lemma {:induction false} RankIsIndex(archive: set<Record>, sorted: seq<Record>, k: nat)
    requires IsSorted(sorted) && k < |sorted| && forall r :: r in sorted <==> r in archive
    ensures |Higher(archive, sorted[k])| == k
  {
    var before := set i | 0 <= i < k :: sorted[i];
    forall r ensures r in Higher(archive, sorted[k]) <==> r in before {
      if r in archive {
        var i :| 0 <= i < |sorted| && sorted[i] == r;
      }
    }
    assert Higher(archive, sorted[k]) == before;
    PrefixSize(sorted, k);
  }

  lemma {:induction false} PrefixSize(sorted: seq<Record>, k: nat)
    requires IsSorted(sorted) && k <= |sorted|
    ensures |set i | 0 <= i < k :: sorted[i]| == k
  {
    var s := set i | 0 <= i < k :: sorted[i];
    if k > 0 {
      PrefixSize(sorted, k - 1);
      var t := set i | 0 <= i < k - 1 :: sorted[i];
      assert s == t + {sorted[k - 1]};
      assert sorted[k - 1] !in t by {
        forall i | 0 <= i < k - 1 ensures sorted[i] != sorted[k - 1] {
          assert Above(sorted[i], sorted[k - 1]);
        }
      }
    } else {
      assert s == {};
    }
  }

  /** Dropping the sorted archive from the limit on is pruning. */
  lemma {:induction false} DroppingIsPruning(records: Records, limit: nat, sorted: seq<Record>, rest: Records)
    requires WellKeyed(records) && IsSorted(sorted) && forall r :: r in sorted <==> r in Archive(records)
    requires forall id :: id in rest <==> id in records && forall k | limit <= k < |sorted| :: sorted[k].id != id
    requires forall id | id in rest :: rest[id] == records[id]
    ensures rest == Pruned(records, limit)
  {
    var archive := Archive(records);
    forall id | id in records ensures id in rest <==> id in Pruned(records, limit) {
      if records[id].status == Archived {
        assert records[id] in archive;
        var k :| 0 <= k < |sorted| && sorted[k] == records[id];
        RankIsIndex(archive, sorted, k);
        forall j | limit <= j < |sorted| && sorted[j].id == id ensures j == k {
          assert sorted[j] in archive;
        }
      } else {
        forall k | limit <= k < |sorted| ensures sorted[k].id != id {
          assert sorted[k] in archive;
        }
      }
    }
  }

  // ----- the file and the store -----

  class NoticeFile {
    var lines: seq<Line>

    constructor ()
      ensures lines == []
    {
      lines := [];
    }
  }

  class Store {
    const cfg: Config
    const file: NoticeFile
    var records: Records
    var rawLines: nat

    constructor (shared: NoticeFile, maxActive: int, maxHistory: int, compactAfter: int)
      ensures file == shared && records == map[] && IsConfig(cfg)
      ensures cfg == Config(if maxActive > 1 then maxActive else 1, if maxHistory > 1 then maxHistory else 1,
                            if compactAfter > 2 then compactAfter else 2)
    {
      cfg := Config(if maxActive > 1 then maxActive else 1, if maxHistory > 1 then maxHistory else 1,
                    if compactAfter > 2 then compactAfter else 2);
      file := shared;
      records, rawLines := map[], 0;
    }

    /** `_refresh`. */
    method Refresh()
      modifies this
      ensures records == Load(cfg, file.lines) && rawLines == |file.lines|
    {
      records := map[];
      assert file.lines[..|file.lines|] == file.lines;
      for i := 0 to |file.lines|
        invariant records == Replay(file.lines[..i])
      {
        var line := file.lines[i];
        assert file.lines[..i + 1][..i] == file.lines[..i];
        if line.Good? {
          var item := line.record;
          if item.id !in records || item.revision > records[item.id].revision {
            records := records[item.id := item];
          }
        }
      }
      rawLines := |file.lines|;
      ReplayIsWellKeyed(file.lines);
      PruneHistory();
    }

    /** `_prune_history`: sorts the archive and drops the records past the limit. */
    method PruneHistory()
      requires WellKeyed(records)
      modifies this`records
      ensures records == Pruned(old(records), cfg.maxHistory)
    {
      var archived := SortArchive(records);
      var k := cfg.maxHistory;
      while k < |archived|
        invariant cfg.maxHistory <= k && (k <= |archived| || k == cfg.maxHistory)
        invariant forall id :: id in records <==>
                    id in old(records) && forall j | cfg.maxHistory <= j < k && j < |archived| :: archived[j].id != id
        invariant forall id | id in records :: records[id] == old(records)[id]
      {
        records := records - {archived[k].id};
        k := k + 1;
      }
      DroppingIsPruning(old(records), cfg.maxHistory, archived, records);
    }

    /** `_compact_locked`: a new file with one line per record takes the place of the old one. */
    method CompactLocked()
      requires WellKeyed(records)
      modifies file
      ensures Lists(file.lines, records)
    {
      var lines: seq<Line> := [];
      var todo := records.Keys;
      while todo != {}
        invariant todo <= records.Keys && |lines| == |records.Keys| - |todo|
        invariant forall i | 0 <= i < |lines| ::
                    lines[i].Good? && lines[i].record.id in records && lines[i].record.id !in todo
                    && records[lines[i].record.id] == lines[i].record
        invariant forall i, j | 0 <= i < j < |lines| :: lines[i].record.id != lines[j].record.id
        invariant forall id | id in records && id !in todo :: exists i :: 0 <= i < |lines| && lines[i].record.id == id
        decreases |todo|
      {
        var id: Id :| id in todo;
        ghost var before := lines;
        lines := lines + [Good(records[id])];
        todo := todo - {id};
        forall k | k in records && k !in todo ensures exists i :: 0 <= i < |lines| && lines[i].record.id == k {
          if k == id {
            assert lines[|before|].record.id == k;
          } else {
            var i :| 0 <= i < |before| && before[i].record.id == k;
            assert lines[i].record.id == k;
          }
        }
      }
      file.lines := lines;
    }

    /** The operation of `create`, on the refreshed records. */
    method OperateCreate(op: Operation) returns (r: Result<Change, Error>)
      requires op.Create? && WellKeyed(records)
      modifies this`records
      ensures r == Apply(cfg, old(records), op)
      ensures records == if r.Success? then r.value.records else old(records)
    {
      if op.active && |ActiveOnes(records)| >= cfg.maxActive {
        return Failure(TooManyActive);
      }
      var record := NewRecord(op);
      records := records[record.id := record];
      PruneHistory();
      return Success(Change(record, records, false));
    }

    method OperateUpdate(op: Operation) returns (r: Result<Change, Error>)
      requires op.Update? && WellKeyed(records)
      modifies this`records
      ensures r == Apply(cfg, old(records), op)
      ensures records == if r.Success? then r.value.records else old(records)
    {
      if op.id !in records || records[op.id].status == Deleted {
        return Failure(NotFound);
      }
      var current := records[op.id];
      if (current.status == Active || current.status == Archived) && (op.text.Some? || op.grade.Some?) {
        return Failure(ContentIsFixed);
      }
      var status := if op.status.Some? then op.status.value else current.status;
      if !IsAllowed(current.status, status) {
        return Failure(StatusNotAllowed);
      }
      if status == Active && current.status != Active && |ActiveOnes(records)| >= cfg.maxActive {
        return Failure(TooManyActive);
      }
      var record := Revised(current, op);
      records := records[op.id := record];
      PruneHistory();
      return Success(Change(record, records, false));
    }

    method OperateDelete(op: Operation) returns (r: Result<Change, Error>)
      requires op.Delete?
      modifies this`records
      ensures r == Apply(cfg, old(records), op)
      ensures records == if r.Success? then r.value.records else old(records)
    {
      if op.id !in records {
        return Failure(NotFound);
      }
      var current := records[op.id];
      if current.status != Draft {
        return Failure(NotADraft);
      }
      records := records - {op.id};
      return Success(Change(current, records, true));
    }

    /**
     * `_mutate`, under the exclusive lock: a step of the file whatever the process held before, and the records it keeps
     * afterwards are those of the operation, or those of the file when the operation fails.
     */
    method Mutate(op: Operation) returns (r: Result<Record, Error>)
      modifies this, file
      ensures IsStep(cfg, old(file.lines), op, file.lines)
      ensures match Apply(cfg, Load(cfg, old(file.lines)), op)
              case Failure(e) => r == Failure(e) && records == Load(cfg, old(file.lines))
              case Success(change) => r == Success(change.record) && records == change.records
    {
      Refresh();
      ReplayIsWellKeyed(file.lines);
      ArchiveOfPruned(Replay(file.lines), cfg.maxHistory);
      ghost var loaded := records;
      hide Pruned, Load, Apply, Lists;
      var done;
      match op {
        case Create(_, _, _, _, _) => done := OperateCreate(op);
        case Update(_, _, _, _, _) => done := OperateUpdate(op);
        case Delete(_) => done := OperateDelete(op);
      }
      if done.Failure? {
        return Failure(done.error);
      }
      var change := done.value;
      KeyedAfter(cfg, loaded, op);
      var rawAfter := rawLines + (if change.compact then 0 else 1);
      if change.compact || |records| >= cfg.compactAfter || rawAfter >= cfg.compactAfter {
        CompactLocked();
      } else {
        file.lines := file.lines + [Good(change.record)];
      }
      return Success(change.record);
    }
  }

  lemma {:induction false} KeyedAfter(cfg: Config, records: Records, op: Operation)
    requires WellKeyed(records) && Apply(cfg, records, op).Success?
    ensures WellKeyed(Apply(cfg, records, op).value.records)
  {
  }
}
