/** app/notices.py: which changes of a notice are made and which are refused, as the next process to read the file sees it. */
module NoticeChanges {
  import opened PyText
  import opened Notices
  import opened NoticeRuns

  /** A notice is edited only as a draft, goes online and off again, and may be put back online; it never becomes a draft again. */
  predicate IsStage(was: Status, next: Status) {
    match next
    case Draft => was == Draft
    case Active => was != Deleted
    case Archived => was == Active || was == Archived
    case Deleted => false
  }

  function Target(was: Record, op: Operation): Status
    requires op.Update?
  {
    match op.status
    case Some(status) => status
    case None => was.status
  }

  predicate Edits(op: Operation)
    requires op.Update?
  {
    op.text.Some? || op.grade.Some?
  }

  predicate GoesOnline(was: Record, op: Operation)
    requires op.Update?
  {
    was.status != Active && Target(was, op) == Active
  }

  /** The operation changes the file so that the next process sees the notice as it was asked for. */
  ghost predicate Shows(cfg: Config, next: seq<Line>, op: Operation, was: Record)
    requires op.Update?
  {
    op.id in Load(cfg, next) &&
    var now := Load(cfg, next)[op.id];
    && now.status == Target(was, op)
    && now.content == (if op.text.Some? then op.text.value else was.content)
    && now.level == (if op.grade.Some? then op.grade.value else was.level)
    && now.revision == was.revision + 1
  }

  /** The operation is refused with this error, and the file stays as it is. */
  ghost predicate Refuses(cfg: Config, lines: seq<Line>, op: Operation, next: seq<Line>, error: Error) {
    Apply(cfg, Load(cfg, lines), op) == Failure(error) && next == lines
  }

  // ----- a notice that is not archived is not pruned -----

  lemma {:induction false} OpenIsKept(records: Records, limit: nat, id: Id)
    requires id in records && records[id].status != Archived
    ensures id in Pruned(records, limit) && Pruned(records, limit)[id] == records[id]
  {
  }

  lemma {:induction false} OpenIsLoaded(cfg: Config, lines: seq<Line>, id: Id)
    requires id in Replay(lines) && Replay(lines)[id].status != Archived
    ensures id in Load(cfg, lines) && Load(cfg, lines)[id] == Replay(lines)[id]
  {
    OpenIsKept(Replay(lines), cfg.maxHistory, id);
  }

  lemma {:induction false} NewestIsKept(records: Records, limit: nat, id: Id)
    requires limit >= 1 && WellKeyed(records) && id in records && records[id].status == Archived
    requires forall j | j in records && records[j].status == Archived && j != id ::
               TimeValue(records[j].archivedAt) < TimeValue(records[id].archivedAt)
    ensures id in Pruned(records, limit) && Pruned(records, limit)[id] == records[id]
  {
    assert Higher(Archive(records), records[id]) == {};
  }

  /** Nothing that a step leaves in the file is archived later than `now`. */
  ghost predicate IsLatest(all: Records, now: int) {
    forall id | id in all && all[id].status == Archived :: TimeValue(all[id].archivedAt) < now
  }

  /** What the file holds of a notice that was changed. */
  lemma {:induction false} ChangeIsReplayed(cfg: Config, lines: seq<Line>, op: Operation, next: seq<Line>)
    requires IsConfig(cfg) && IsFresh(op, Replay(lines)) && IsStep(cfg, lines, op, next) && !op.Delete?
    requires Apply(cfg, Load(cfg, lines), op).Success?
    ensures var change := Apply(cfg, Load(cfg, lines), op).value;
            Replay(next) == if Compacts(cfg, lines, change) then change.records else Replay(lines)[op.id := change.record]
  {
    LoadIsPart(cfg, lines);
    var change := Apply(cfg, Load(cfg, lines), op).value;
    ChangeIs(cfg, Load(cfg, lines), op);
    if Compacts(cfg, lines, change) {
      ReplayLists(next, change.records);
    } else {
      AppendIsDurable(cfg, lines, op);
    }
    hide Replay, Load, Apply, Pruned, Resurfaces, Lists, Compacts;
  }

  /** The next process sees the changed notice, unless it was archived with a time before that of another. */
  lemma {:induction false} ChangeIsLoaded(cfg: Config, lines: seq<Line>, op: Operation, next: seq<Line>)
    requires IsConfig(cfg) && IsFresh(op, Replay(lines)) && IsStep(cfg, lines, op, next) && !op.Delete?
    requires Apply(cfg, Load(cfg, lines), op).Success?
    ensures var rec := Apply(cfg, Load(cfg, lines), op).value.record;
            rec.status != Archived || (IsLatest(Replay(lines), op.now) && rec.archivedAt == Some(op.now)) ==>
              op.id in Load(cfg, next) && Load(cfg, next)[op.id] == rec
  {
    var records := Load(cfg, lines);
    LoadIsPart(cfg, lines);
    LoadIsPart(cfg, next);
    var change := Apply(cfg, records, op).value;
    var rec := change.record;
    ChangeIs(cfg, records, op);
    ChangeIsReplayed(cfg, lines, op, next);
    ChangeIsBounded(cfg, lines, op);
    var all, some := Replay(lines)[op.id := rec], records[op.id := rec];
    hide Replay, Load, Apply, IsStep, Compacts, IsFresh;
    assert Load(cfg, next) == Pruned(Replay(next), cfg.maxHistory) by {
      LoadIs(cfg, next);
    }
    if rec.status != Archived {
      OpenIsKept(some, cfg.maxHistory, op.id);
      OpenIsKept(all, cfg.maxHistory, op.id);
    } else if IsLatest(Replay(lines), op.now) && rec.archivedAt == Some(op.now) {
      NewestIsKept(some, cfg.maxHistory, op.id);
      NewestIsKept(all, cfg.maxHistory, op.id);
    }
  }

  lemma {:induction false} LoadIs(cfg: Config, lines: seq<Line>)
    ensures Load(cfg, lines) == Pruned(Replay(lines), cfg.maxHistory)
  {
  }

  // ----- changes of one notice -----

  lemma {:induction false} VerdictIs(cfg: Config, lines: seq<Line>, op: Operation)
    requires op.Update?
    ensures var records := Load(cfg, lines);
            Apply(cfg, records, op) ==
            (if op.id !in records || records[op.id].status == Deleted then Failure(NotFound)
             else if Edits(op) && records[op.id].status != Draft then Failure(ContentIsFixed)
             else if !IsStage(records[op.id].status, Target(records[op.id], op)) then Failure(StatusNotAllowed)
             else if GoesOnline(records[op.id], op) && |ActiveOnes(records)| >= cfg.maxActive then Failure(TooManyActive)
             else Success(Change(Revised(records[op.id], op), Pruned(records[op.id := Revised(records[op.id], op)], cfg.maxHistory), false)))
  {
    hide Load, Pruned, Revised, ActiveOnes;
  }

  lemma {:induction false} RevisedShows(was: Record, op: Operation)
    requires op.Update?
    ensures var now := Revised(was, op);
            && now.status == Target(was, op)
            && now.content == (if op.text.Some? then op.text.value else was.content)
            && now.level == (if op.grade.Some? then op.grade.value else was.level)
            && now.revision == was.revision + 1
            && (now.status == Archived ==> now.archivedAt == Some(op.now))
  {
  }

  /**
   * A change that is asked for is made and seen by the next process if and only if the notice is loaded and not deleted, is a
   * draft if its content or level is to change, may take the new status, and finds room if it goes online; otherwise the file
   * is not touched and the first of these that fails is the error. A notice that is archived must be archived after the others.
   */
  lemma {:induction false} ChangesAreMade(cfg: Config, lines: seq<Line>, op: Operation, next: seq<Line>)
    requires IsConfig(cfg) && IsStep(cfg, lines, op, next) && op.Update?
    ensures var records := Load(cfg, lines);
            if op.id !in records || records[op.id].status == Deleted then Refuses(cfg, lines, op, next, NotFound)
            else
              var was := records[op.id];
              if Edits(op) && was.status != Draft then Refuses(cfg, lines, op, next, ContentIsFixed)
              else if !IsStage(was.status, Target(was, op)) then Refuses(cfg, lines, op, next, StatusNotAllowed)
              else if GoesOnline(was, op) && |ActiveOnes(records)| >= cfg.maxActive then
                Refuses(cfg, lines, op, next, TooManyActive)
              else Target(was, op) != Archived || IsLatest(Replay(lines), op.now) ==> Shows(cfg, next, op, was)
  {
    var records := Load(cfg, lines);
    VerdictIs(cfg, lines, op);
    if Apply(cfg, records, op).Success? {
      RevisedShows(records[op.id], op);
      ChangeIsLoaded(cfg, lines, op, next);
    }
    hide Load, Apply, Replay, Pruned, Revised, Writes, ActiveOnes, IsLatest;
  }

  /** A draft goes online while there is room. */
  lemma {:induction false} DraftIsPublished(cfg: Config, lines: seq<Line>, id: Id, now: int, next: seq<Line>)
    requires IsConfig(cfg) && IsStep(cfg, lines, Update(id, None, None, Some(Active), now), next)
    requires id in Load(cfg, lines) && Load(cfg, lines)[id].status == Draft && |ActiveOnes(Load(cfg, lines))| < cfg.maxActive
    ensures id in Load(cfg, next) && Load(cfg, next)[id].status == Active
    ensures Load(cfg, next)[id].content == Load(cfg, lines)[id].content
  {
    ChangesAreMade(cfg, lines, Update(id, None, None, Some(Active), now), next);
    hide Load, IsStep, ActiveOnes;
  }

  /** An archived notice that is kept goes back online while there is room. */
  lemma {:induction false} ArchivedIsRevived(cfg: Config, lines: seq<Line>, id: Id, now: int, next: seq<Line>)
    requires IsConfig(cfg) && IsStep(cfg, lines, Update(id, None, None, Some(Active), now), next)
    requires id in Load(cfg, lines) && Load(cfg, lines)[id].status == Archived && |ActiveOnes(Load(cfg, lines))| < cfg.maxActive
    ensures id in Load(cfg, next) && Load(cfg, next)[id].status == Active
  {
    ChangesAreMade(cfg, lines, Update(id, None, None, Some(Active), now), next);
    hide Load, IsStep, ActiveOnes;
  }

  /** A draft can always be edited. */
  lemma {:induction false} DraftIsEdited(cfg: Config, lines: seq<Line>, id: Id, text: string, level: Level, now: int, next: seq<Line>)
    requires IsConfig(cfg) && IsStep(cfg, lines, Update(id, Some(text), Some(level), None, now), next)
    requires id in Load(cfg, lines) && Load(cfg, lines)[id].status == Draft
    ensures id in Load(cfg, next) && Load(cfg, next)[id].status == Draft
    ensures Load(cfg, next)[id].content == text && Load(cfg, next)[id].level == level
  {
    ChangesAreMade(cfg, lines, Update(id, Some(text), Some(level), None, now), next);
    hide Load, IsStep, ActiveOnes;
  }

  /** In a run, taking a notice offline always succeeds, and the next process finds it in the history. */
  lemma {:induction false} ActiveIsArchived(cfg: Config, files: seq<seq<Line>>, ops: seq<Operation>, i: nat)
    requires IsRun(cfg, files, ops) && i < |ops|
    requires ops[i].Update? && !Edits(ops[i]) && ops[i].status == Some(Archived)
    requires var id := ops[i].id; id in Load(cfg, files[i]) && Load(cfg, files[i])[id].status == Active
    ensures var id := ops[i].id; id in Load(cfg, files[i + 1]) && Load(cfg, files[i + 1])[id].status == Archived
  {
    RunFacts(cfg, files, ops, i);
    assert IsStep(cfg, files[i], ops[i], files[i + 1]);
    ChangesAreMade(cfg, files[i], ops[i], files[i + 1]);
    assert IsLatest(Replay(files[i]), ops[i].now);
    hide Load, IsStep, ActiveOnes, Replay, Past, Unseen, IsLatest;
  }

  // ----- new notices and deleted drafts -----

  /** A new notice is refused only when it would go online and there is no room; otherwise the next process sees it. */
  lemma {:induction false} CreatesAreMade(cfg: Config, lines: seq<Line>, op: Operation, next: seq<Line>)
    requires IsConfig(cfg) && IsStep(cfg, lines, op, next) && op.Create? && IsFresh(op, Replay(lines))
    ensures if op.active && |ActiveOnes(Load(cfg, lines))| >= cfg.maxActive then Refuses(cfg, lines, op, next, TooManyActive)
            else op.id in Load(cfg, next) && Load(cfg, next)[op.id] ==
                   Record(op.id, op.content, op.level, if op.active then Active else Draft, 1, op.now, op.now,
                          if op.active then Some(op.now) else None, None)
  {
    LoadIsPart(cfg, lines);
    if !(op.active && |ActiveOnes(Load(cfg, lines))| >= cfg.maxActive) {
      ChangeIs(cfg, Load(cfg, lines), op);
      ChangeIsLoaded(cfg, lines, op, next);
    }
    hide Load, Replay, Pruned, Writes, ActiveOnes, IsLatest;
  }

  /** A notice is deleted if and only if it is a draft; then it alone is gone, and otherwise the file is not touched. */
  lemma {:induction false} DraftsAreDeleted(cfg: Config, lines: seq<Line>, id: Id, next: seq<Line>)
    requires IsConfig(cfg) && IsStep(cfg, lines, Delete(id), next)
    ensures var records := Load(cfg, lines);
            if id !in records then Refuses(cfg, lines, Delete(id), next, NotFound)
            else if records[id].status != Draft then Refuses(cfg, lines, Delete(id), next, NotADraft)
            else Load(cfg, next) == records - {id}
  {
    var records := Load(cfg, lines);
    if id in records && records[id].status == Draft {
      var change := Apply(cfg, records, Delete(id)).value;
      assert change.records == records - {id} && change.compact;
      ChangeIsBounded(cfg, lines, Delete(id));
      ReplayLists(next, change.records);
    }
    hide Replay, Pruned, Lists;
  }
}
