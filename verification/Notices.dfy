/**
 * app/notices.py: site notices kept as a file of revisions that every process replays under a lock, with a bounded
 * history and compaction.
 */
module Notices {
  import opened PyText

  type Id = nat

  datatype Level = Info | Warning

  datatype Status = Draft | Active | Archived | Deleted

  /** Times are points on the clock; a missing time counts as zero. */
  datatype Record = Record(id: Id, content: string, level: Level, status: Status, revision: int,
                           createdAt: int, updatedAt: int, publishedAt: Option<int>, archivedAt: Option<int>)

  type Records = map<Id, Record>

  /** A line of the file, or one that does not parse. */
  datatype Line = Good(record: Record) | Broken

  datatype Config = Config(maxActive: nat, maxHistory: nat, compactAfter: nat)

  predicate IsConfig(cfg: Config) {
    cfg.maxActive >= 1 && cfg.maxHistory >= 1 && cfg.compactAfter >= 2
  }

  // ----- replaying -----

  /** `_read_file`: of each notice the line with the greatest revision, the earliest of equal ones. */
  function Replay(lines: seq<Line>): Records {
    if lines == [] then map[] else Take(Replay(lines[..|lines| - 1]), lines[|lines| - 1])
  }

  function Take(records: Records, line: Line): Records {
    if line.Good? && (line.record.id !in records || line.record.revision > records[line.record.id].revision)
    then records[line.record.id := line.record] else records
  }

  // ----- the bounded history -----

  function TimeValue(time: Option<int>): int {
    if time.Some? then time.value else 0
  }

  /** `_sorted_records` puts `a` before `b`: the later time, then the higher revision, then the greater identifier. */
  predicate Above(a: Record, b: Record) {
    var s, t := TimeValue(a.archivedAt), TimeValue(b.archivedAt);
    s > t || (s == t && (a.revision > b.revision || (a.revision == b.revision && a.id > b.id)))
  }

  ghost function Archive(records: Records): set<Record> {
    set id | id in records && records[id].status == Archived :: records[id]
  }

  ghost function Higher(archive: set<Record>, r: Record): set<Record> {
    set s | s in archive && Above(s, r)
  }

  /** The records of the archive with fewer than `limit` above them. */
  ghost function Kept(archive: set<Record>, limit: nat): set<Record> {
    set r | r in archive && |Higher(archive, r)| < limit
  }

  /** `_prune_history`: every record that is not archived, and the kept ones. */
  ghost function Pruned(records: Records, limit: nat): Records {
    map id | id in records && (records[id].status != Archived || records[id] in Kept(Archive(records), limit)) :: records[id]
  }

  /** What a process holds after `_refresh`. */
  ghost function Load(cfg: Config, lines: seq<Line>): Records {
    Pruned(Replay(lines), cfg.maxHistory)
  }

  // ----- the operations -----

  datatype Error = NotFound | TooManyActive | ContentIsFixed | StatusNotAllowed | NotADraft

  /** An operation with its validated payload, the identifier it draws and the time it read before taking the lock. */
  datatype Operation =
    | Create(id: Id, content: string, level: Level, active: bool, now: int)
    | Update(id: Id, text: Option<string>, grade: Option<Level>, status: Option<Status>, now: int)
    | Delete(id: Id)

  /** What an operation hands to `_mutate`: the record to append, the records to keep, and whether to compact. */
  datatype Change = Change(record: Record, records: Records, compact: bool)

  function ActiveOnes(records: Records): set<Id> {
    set id | id in records && records[id].status == Active
  }

  function NewRecord(op: Operation): Record
    requires op.Create?
  {
    Record(op.id, op.content, op.level, if op.active then Active else Draft, 1, op.now, op.now,
           if op.active then Some(op.now) else None, None)
  }

  predicate IsAllowed(from: Status, to: Status) {
    || (from == Draft && to in {Draft, Active})
    || (from == Active && to in {Active, Archived})
    || (from == Archived && to in {Archived, Active})
  }

  function Revised(current: Record, op: Operation): Record
    requires op.Update?
  {
    var status := if op.status.Some? then op.status.value else current.status;
    var publishes := status == Active && current.status != Active;
    Record(current.id, if op.text.Some? then op.text.value else current.content,
           if op.grade.Some? then op.grade.value else current.level, status, current.revision + 1,
           current.createdAt, op.now,
           if publishes then Some(op.now) else current.publishedAt,
           if publishes then None else if status == Archived then Some(op.now) else current.archivedAt)
  }

  function UpdateError(cfg: Config, records: Records, op: Operation): Option<Error>
    requires op.Update?
  {
    if op.id !in records || records[op.id].status == Deleted then Some(NotFound)
    else
      var current := records[op.id];
      var status := if op.status.Some? then op.status.value else current.status;
      if current.status in {Active, Archived} && (op.text.Some? || op.grade.Some?) then Some(ContentIsFixed)
      else if !IsAllowed(current.status, status) then Some(StatusNotAllowed)
      else if status == Active && current.status != Active && |ActiveOnes(records)| >= cfg.maxActive then Some(TooManyActive)
      else None
  }

  ghost function Apply(cfg: Config, records: Records, op: Operation): Result<Change, Error> {
    match op
    case Create(id, _, _, active, _) =>
      if active && |ActiveOnes(records)| >= cfg.maxActive then Failure(TooManyActive)
      else Success(Change(NewRecord(op), Pruned(records[id := NewRecord(op)], cfg.maxHistory), false))
    case Update(id, _, _, _, _) =>
      var error := UpdateError(cfg, records, op);
      if error.Some? then Failure(error.value)
      else
        var record := Revised(records[id], op);
        Success(Change(record, Pruned(records[id := record], cfg.maxHistory), false))
    case Delete(id) =>
      if id !in records then Failure(NotFound)
      else if records[id].status != Draft then Failure(NotADraft)
      else Success(Change(records[id], records - {id}, true))
  }

  // ----- writing -----

  /** The lines are the records, each once. */
  ghost predicate Lists(lines: seq<Line>, records: Records) {
    && |lines| == |records|
    && (forall i | 0 <= i < |lines| :: lines[i].Good? && lines[i].record.id in records && records[lines[i].record.id] == lines[i].record)
    && (forall i, j | 0 <= i < j < |lines| :: lines[i].record.id != lines[j].record.id)
    && (forall id | id in records :: exists i :: 0 <= i < |lines| && lines[i].record.id == id)
  }

  predicate Compacts(cfg: Config, lines: seq<Line>, change: Change) {
    || change.compact
    || |change.records| >= cfg.compactAfter
    || |lines| + 1 >= cfg.compactAfter
  }

  ghost predicate Writes(cfg: Config, lines: seq<Line>, change: Change, next: seq<Line>) {
    if Compacts(cfg, lines, change) then Lists(next, change.records) else next == lines + [Good(change.record)]
  }

  /** One call of `_mutate` by any process, under the exclusive lock. */
  ghost predicate IsStep(cfg: Config, lines: seq<Line>, op: Operation, next: seq<Line>) {
    match Apply(cfg, Load(cfg, lines), op)
    case Failure(_) => next == lines
    case Success(change) => Writes(cfg, lines, change, next)
  }

  // ----- how much of an archive is kept -----

  ghost predicate OneEach(archive: set<Record>) {
    forall r, s | r in archive && s in archive && r.id == s.id :: r == s
  }

  lemma {:induction false} LowestExists(archive: set<Record>) returns (m: Record)
    requires archive != {} && OneEach(archive)
    ensures m in archive && forall r | r in archive && r != m :: Above(r, m)
  {
    var e := Element(archive);
    if archive == {e} {
      m := e;
    } else {
      var rest := archive - {e};
      assert rest != {};
      var low := LowestExists(rest);
      assert low in archive && e in archive;
      m := if Above(e, low) then low else e;
      forall r | r in archive && r != m ensures Above(r, m) {
        assert r == e || r in rest;
      }
    }
  }

  /** A small archive is kept whole. */
  lemma {:induction false} SmallIsKept(archive: set<Record>, limit: nat)
    requires |archive| <= limit
    ensures Kept(archive, limit) == archive
  {
    forall r | r in archive ensures |Higher(archive, r)| < limit {
      SubsetSize(Higher(archive, r), archive - {r});
    }
  }

  /** Of a large one exactly `limit` records are kept. */
  lemma {:induction false} LargeKeepsLimit(archive: set<Record>, limit: nat)
    requires OneEach(archive) && |archive| >= limit
    ensures |Kept(archive, limit)| == limit
    decreases |archive|
  {
    if |archive| == limit {
      SmallIsKept(archive, limit);
    } else {
      var m := LowestExists(archive);
      var rest := archive - {m};
      assert |rest| == |archive| - 1;
      LargeKeepsLimit(rest, limit);
      assert Higher(archive, m) == rest;
      forall r | r in rest ensures Higher(archive, r) == Higher(rest, r) {
      }
      assert Kept(archive, limit) == Kept(rest, limit);
    }
  }

  /** What is above a kept record is kept; what is not kept is below every kept record. */
  lemma {:induction false} KeptIsTop(archive: set<Record>, limit: nat, r: Record, s: Record)
    requires OneEach(archive) && r in Kept(archive, limit) && s in archive
    ensures Above(s, r) ==> s in Kept(archive, limit)
    ensures s !in Kept(archive, limit) ==> Above(r, s)
  {
    if Above(s, r) {
      SubsetSize(Higher(archive, s), Higher(archive, r));
    }
  }

  /** A record that joins the archive: it makes no difference that the archive was pruned before. */
  lemma {:induction false} JoiningAfterPruning(archive: set<Record>, limit: nat, x: Record)
    requires limit >= 1 && OneEach(archive + {x}) && x !in archive
    ensures Kept(archive + {x}, limit) == Kept(Kept(archive, limit) + {x}, limit)
  {
    var kept := Kept(archive, limit);
    var all, some := archive + {x}, Kept(archive, limit) + {x};
    forall r ensures r in Kept(all, limit) <==> r in Kept(some, limit) {
      if r in kept {
        assert Higher(all, r) == Higher(some, r) by {
          forall s | s in archive && Above(s, r) ensures s in kept {
            KeptIsTop(archive, limit, r, s);
          }
        }
      } else if r in archive && r != x {
        SubsetSize(Higher(archive, r), Higher(all, r));
      } else if r == x {
        NewcomerRank(archive, limit, x);
      }
    }
  }

  /** The newcomer meets `limit` records above it in the archive exactly when it meets them in the pruned archive. */
  lemma {:induction false} NewcomerRank(archive: set<Record>, limit: nat, x: Record)
    requires limit >= 1 && OneEach(archive + {x}) && x !in archive
    ensures |Higher(archive + {x}, x)| < limit <==> |Higher(Kept(archive, limit) + {x}, x)| < limit
  {
    var kept := Kept(archive, limit);
    KeptIsPart(archive, limit, x);
    SubsetSize(Higher(kept + {x}, x), Higher(archive + {x}, x));
    if |Higher(archive + {x}, x)| >= limit {
      SubsetSize(Higher(archive + {x}, x), archive);
      LargeKeepsLimit(archive, limit);
      KeptLieAbove(archive, limit, x);
      hide Kept, Above;
      assert Higher(kept + {x}, x) == kept;
    }
  }

  lemma {:induction false} KeptIsPart(archive: set<Record>, limit: nat, x: Record)
    ensures Higher(Kept(archive, limit) + {x}, x) <= Higher(archive + {x}, x)
  {
  }

  /** A newcomer below `limit` records of the archive is below all that are kept. */
  lemma {:induction false} KeptLieAbove(archive: set<Record>, limit: nat, x: Record)
    requires OneEach(archive + {x}) && x !in archive && |Higher(archive + {x}, x)| >= limit
    ensures forall k | k in Kept(archive, limit) :: k in archive && k != x && Above(k, x)
  {
    forall k | k in Kept(archive, limit) ensures Above(k, x) {
      if Above(x, k) {
        HigherGrows(archive, x, k);
        SubsetSize(Higher(archive + {x}, x), Higher(archive, k));
      }
    }
  }

  lemma {:induction false} HigherGrows(archive: set<Record>, x: Record, k: Record)
    requires Above(x, k)
    ensures Higher(archive + {x}, x) <= Higher(archive, k)
  {
  }

  /** A kept record that leaves an overfull archive lets a pruned one back in. */
  lemma {:induction false} LeavingAfterPruning(archive: set<Record>, limit: nat, y: Record)
    requires limit >= 1 && OneEach(archive) && y in Kept(archive, limit)
    ensures Kept(archive - {y}, limit) == Kept(Kept(archive, limit) - {y}, limit) <==> |archive| <= limit
  {
    var kept := Kept(archive, limit);
    if |archive| <= limit {
      SmallIsKept(archive, limit);
    } else {
      LargeKeepsLimit(archive, limit);
      SmallIsKept(kept - {y}, limit);
      assert |archive - {y}| == |archive| - 1 && |kept - {y}| == limit - 1;
      LargeKeepsLimit(archive - {y}, limit);
    }
  }

  /** The best record that pruning has dropped does not outrank `x`. */
  ghost predicate Outranks(x: Record, archive: set<Record>, limit: nat) {
    forall z | z in archive && z !in Kept(archive, limit) :: Above(x, z)
  }

  ghost predicate Replaces(archive: set<Record>, limit: nat, y: Record, x: Record) {
    OneEach(archive) && y in Kept(archive, limit) && x !in archive && OneEach(archive - {y} + {x}) && Outranks(x, archive, limit)
  }

  lemma {:induction false} AboveTheKept(archive: set<Record>, limit: nat, y: Record, x: Record, r: Record)
    requires Replaces(archive, limit, y, x) && r in Kept(archive, limit) - {y} + {x}
    ensures Higher(archive - {y} + {x}, r) <= Kept(archive, limit) - {y} + {x} - {r}
  {
    forall s | s in Higher(archive - {y} + {x}, r) && s != x ensures s in Kept(archive, limit) {
      if r == x {
        assert s in archive && !Above(x, s);
      } else {
        KeptIsTop(archive, limit, r, s);
      }
    }
  }

  lemma {:induction false} AboveThePruned(archive: set<Record>, limit: nat, y: Record, x: Record, r: Record)
    requires Replaces(archive, limit, y, x) && r in archive && r !in Kept(archive, limit)
    ensures Kept(archive, limit) - {y} + {x} <= Higher(archive - {y} + {x}, r)
  {
    forall s | s in Kept(archive, limit) ensures Above(s, r) {
      KeptIsTop(archive, limit, s, r);
    }
  }

  /** In an overfull archive, a record that outranks what was pruned takes the place of a kept one. */
  lemma {:induction false} OutrankingIsKept(archive: set<Record>, limit: nat, y: Record, x: Record)
    requires limit >= 1 && OneEach(archive) && y in Kept(archive, limit) && x !in archive && OneEach(archive - {y} + {x})
    requires |archive| > limit && Outranks(x, archive, limit)
    ensures Kept(archive - {y} + {x}, limit) == Kept(archive, limit) - {y} + {x}
  {
    var some, all := Kept(archive, limit) - {y} + {x}, archive - {y} + {x};
    LargeKeepsLimit(archive, limit);
    assert |some| == limit;
    assert Replaces(archive, limit, y, x);
    hide Replaces, Outranks, OneEach, Higher;
    forall r | r in all ensures r in Kept(all, limit) <==> r in some {
      if r in some {
        AboveTheKept(archive, limit, y, x, r);
        SubsetSize(Higher(all, r), some - {r});
      } else {
        AboveThePruned(archive, limit, y, x, r);
        SubsetSize(some, Higher(all, r));
      }
    }
  }

  /** A record that does not outrank what was pruned is itself pruned. */
  lemma {:induction false} OutrankedIsPruned(archive: set<Record>, limit: nat, y: Record, x: Record)
    requires limit >= 1 && OneEach(archive) && y in Kept(archive, limit) && x !in archive && OneEach(archive - {y} + {x})
    requires |archive| > limit && !Outranks(x, archive, limit)
    ensures x !in Kept(archive - {y} + {x}, limit)
  {
    var kept := Kept(archive, limit);
    var all := archive - {y} + {x};
    LargeKeepsLimit(archive, limit);
    var z :| z in archive && z !in kept && !Above(x, z);
    assert z in all && z.id != x.id && Above(z, x);
    var above := kept - {y} + {z};
    assert |above| == limit;
    forall s | s in above ensures s in Higher(all, x) {
      if s != z {
        KeptIsTop(archive, limit, s, z);
      }
    }
    SubsetSize(above, Higher(all, x));
  }

  /** A kept record that is archived anew: in an overfull archive it must outrank what was pruned. */
  lemma {:induction false} ReplacingAfterPruning(archive: set<Record>, limit: nat, y: Record, x: Record)
    requires limit >= 1 && OneEach(archive) && y in Kept(archive, limit) && x !in archive && OneEach(archive - {y} + {x})
    ensures Kept(archive - {y} + {x}, limit) == Kept(Kept(archive, limit) - {y} + {x}, limit)
            <==> |archive| <= limit || Outranks(x, archive, limit)
  {
    if |archive| <= limit {
      SmallIsKept(archive, limit);
    } else {
      LargeKeepsLimit(archive, limit);
      var some := Kept(archive, limit) - {y} + {x};
      assert |some| == limit;
      SmallIsKept(some, limit);
      if Outranks(x, archive, limit) {
        OutrankingIsKept(archive, limit, y, x);
      } else {
        OutrankedIsPruned(archive, limit, y, x);
        assert x in some;
      }
    }
  }

  // ----- pruning maps of records -----

  ghost predicate WellKeyed(records: Records) {
    forall id | id in records :: records[id].id == id
  }

  lemma {:induction false} ReplayIsWellKeyed(lines: seq<Line>)
    ensures WellKeyed(Replay(lines))
  {
    if lines != [] {
      ReplayIsWellKeyed(lines[..|lines| - 1]);
    }
  }

  lemma {:induction false} ArchiveOfPruned(records: Records, limit: nat)
    requires WellKeyed(records)
    ensures OneEach(Archive(records))
    ensures Archive(Pruned(records, limit)) == Kept(Archive(records), limit)
    ensures |Archive(Pruned(records, limit))| <= limit
    ensures WellKeyed(Pruned(records, limit))
  {
    var archive := Archive(records);
    forall r ensures r in Archive(Pruned(records, limit)) <==> r in Kept(archive, limit) {
      if r in Kept(archive, limit) {
        assert r.id in Pruned(records, limit);
      }
    }
    if |archive| >= limit {
      LargeKeepsLimit(archive, limit);
    } else {
      SmallIsKept(archive, limit);
    }
  }

  function Found(records: Records, id: Id): Option<Record> {
    if id in records then Some(records[id]) else None
  }

  predicate IsArchived(r: Option<Record>) {
    r.Some? && r.value.status == Archived
  }

  /** An archive after `rec` takes the place of `was`. */
  ghost function Exchanged(archive: set<Record>, was: Option<Record>, rec: Record): set<Record> {
    archive - (if IsArchived(was) then {was.value} else {}) + (if rec.status == Archived then {rec} else {})
  }

  lemma {:induction false} ArchiveOfUpdate(records: Records, rec: Record)
    requires WellKeyed(records)
    ensures Archive(records[rec.id := rec]) == Exchanged(Archive(records), Found(records, rec.id), rec)
  {
    var id := rec.id;
    var next := records[id := rec];
    var expected := Exchanged(Archive(records), Found(records, id), rec);
    forall r ensures r in Archive(next) <==> r in expected {
      if r in expected && r != rec {
        assert r.id in next && next[r.id] == r;
      }
      if r == rec && rec.status == Archived {
        assert id in next && next[id] == rec;
      }
    }
  }

  ghost predicate SameOpen(a: Records, b: Records) {
    && (forall id | id in a && a[id].status != Archived :: id in b && b[id] == a[id])
    && (forall id | id in b && b[id].status != Archived :: id in a && a[id] == b[id])
  }

  /** Maps that agree outside the archive are pruned alike exactly when their archives are. */
  lemma {:induction false} PrunedAlike(a: Records, b: Records, limit: nat)
    requires WellKeyed(a) && WellKeyed(b) && SameOpen(a, b)
    ensures Pruned(a, limit) == Pruned(b, limit) <==> Kept(Archive(a), limit) == Kept(Archive(b), limit)
  {
    ArchiveOfPruned(a, limit);
    ArchiveOfPruned(b, limit);
    if Kept(Archive(a), limit) == Kept(Archive(b), limit) {
      forall id ensures id in Pruned(a, limit) <==> id in Pruned(b, limit) {
        if id in Pruned(a, limit) && a[id].status == Archived {
          assert a[id] in Archive(b);
        }
        if id in Pruned(b, limit) && b[id].status == Archived {
          assert b[id] in Archive(a);
        }
      }
      forall id | id in Pruned(a, limit) ensures a[id] == Pruned(b, limit)[id] {
        if a[id].status == Archived {
          assert a[id] in Archive(b);
        }
      }
    }
  }

  /** A notice leaves or re-enters an overfull archive in a way that lets a pruned notice back in. */
  ghost predicate Resurfaces(archive: set<Record>, limit: nat, was: Option<Record>, rec: Record) {
    IsArchived(was) && |archive| > limit && (rec.status == Archived ==> !Outranks(rec, archive, limit))
  }

  lemma {:induction false} ExchangeAfterPruning(archive: set<Record>, limit: nat, was: Option<Record>, rec: Record)
    requires limit >= 1 && OneEach(archive) && OneEach(Exchanged(archive, was, rec)) && rec !in archive
    requires IsArchived(was) ==> was.value in Kept(archive, limit)
    ensures Kept(Exchanged(archive, was, rec), limit) == Kept(Exchanged(Kept(archive, limit), was, rec), limit)
            <==> !Resurfaces(archive, limit, was, rec)
  {
    hide Kept, Outranks, OneEach;
    var kept := Kept(archive, limit);
    if IsArchived(was) {
      if rec.status == Archived {
        ReplacingAfterPruning(archive, limit, was.value, rec);
      } else {
        assert Exchanged(archive, was, rec) == archive - {was.value} && Exchanged(kept, was, rec) == kept - {was.value};
        LeavingAfterPruning(archive, limit, was.value);
      }
    } else if rec.status == Archived {
      assert Exchanged(archive, was, rec) == archive + {rec} && Exchanged(kept, was, rec) == kept + {rec};
      JoiningAfterPruning(archive, limit, rec);
    } else {
      assert Exchanged(archive, was, rec) == archive && Exchanged(kept, was, rec) == kept;
      KeptTwice(archive, limit);
    }
  }

  lemma {:induction false} KeptTwice(archive: set<Record>, limit: nat)
    requires OneEach(archive)
    ensures Kept(Kept(archive, limit), limit) == Kept(archive, limit)
  {
    if |archive| >= limit {
      LargeKeepsLimit(archive, limit);
    } else {
      SmallIsKept(archive, limit);
    }
    SmallIsKept(Kept(archive, limit), limit);
  }

  lemma {:induction false} OpenAfterUpdate(all: Records, limit: nat, rec: Record)
    requires WellKeyed(all)
    ensures SameOpen(all[rec.id := rec], Pruned(all, limit)[rec.id := rec])
    ensures WellKeyed(all[rec.id := rec]) && WellKeyed(Pruned(all, limit)[rec.id := rec])
  {
  }

  /** Updating and then pruning comes out alike with and without an earlier pruning, unless a pruned notice resurfaces. */
  lemma {:induction false} UpdateAfterPruning(all: Records, limit: nat, rec: Record)
    requires limit >= 1 && WellKeyed(all)
    requires rec.id in all ==> rec.id in Pruned(all, limit) && rec != all[rec.id]
    ensures Pruned(all[rec.id := rec], limit) == Pruned(Pruned(all, limit)[rec.id := rec], limit)
            <==> !Resurfaces(Archive(all), limit, Found(all, rec.id), rec)
  {
    var some := Pruned(all, limit);
    var was := Found(all, rec.id);
    assert was == Found(some, rec.id);
    assert IsArchived(was) ==> was.value in Kept(Archive(all), limit);
    assert rec !in Archive(all);
    ArchiveOfPruned(all, limit);
    OpenAfterUpdate(all, limit, rec);
    hide Pruned, Kept, Outranks, SameOpen, Archive;
    ArchiveOfUpdate(all, rec);
    ArchiveOfUpdate(some, rec);
    ArchiveOfPruned(all[rec.id := rec], limit);
    PrunedAlike(all[rec.id := rec], some[rec.id := rec], limit);
    ExchangeAfterPruning(Archive(all), limit, was, rec);
  }
}
