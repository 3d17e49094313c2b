/**
 * app/jobs.py: a process that is not interrupted does with its Redis commands what the call does to the store, so the commands of
 * `JobProtocol` refine the calls of `JobStore`.
 */
module QueueRefinement {
  import opened PyText
  import opened JobStore
  import opened JobProtocol

  /** The same keys in the database. */
  ghost predicate Matches(s: State, db: Store) {
    && s.ready == db.ready && s.active == db.active && s.pending == db.pending.Keys
    && s.dedupe == db.dedupe && s.status == db.status && s.payload == db.payload
  }

  /** What `n` commands of process `p` alone make of the state. */
  ghost function Alone(s: State, p: nat, n: nat, limit: nat): State
    requires p < |s.procs|
    decreases n
  {
    if n == 0 then s else Alone(StepOf(s, p, limit), p, n - 1, limit)
  }

  ghost predicate RunsAlone(s: State, p: nat, n: nat, limit: nat)
    requires p < |s.procs|
    decreases n
  {
    n > 0 ==> JobProtocol.Enabled(s, p, Step) && RunsAlone(StepOf(s, p, limit), p, n - 1, limit)
  }

  /** Running alone, process `p` comes to the program point `next` with no lock in its hands and the database `db`. */
  ghost predicate Comes(s: State, p: nat, limit: nat, next: Proc, db: Store)
    requires p < |s.procs|
  {
    exists n: nat :: RunsAlone(s, p, n, limit) && Arrives(s, Alone(s, p, n, limit), p, next, db)
  }

  ghost predicate Arrives(s: State, t: State, p: nat, next: Proc, db: Store)
    requires p < |s.procs|
  {
    && t.procs == s.procs[p := next] && Matches(t, db) && t.minted == s.minted
    && t.enqueueLock == (if s.enqueueLock == Some(p) then None else s.enqueueLock)
    && t.claimLock == (if s.claimLock == Some(p) then None else s.claimLock)
  }

  lemma {:induction false} Here(s: State, p: nat, limit: nat, db: Store)
    requires p < |s.procs| && s.enqueueLock != Some(p) && s.claimLock != Some(p) && Matches(s, db)
    ensures Comes(s, p, limit, s.procs[p], db)
  {
    assert RunsAlone(s, p, 0, limit) && Alone(s, p, 0, limit) == s;
    assert s.procs[p := s.procs[p]] == s.procs;
    assert Arrives(s, Alone(s, p, 0, limit), p, s.procs[p], db);
  }

  /** The process leaves the lock alone, takes it or gives it back. */
  predicate IsOwn(before: Option<nat>, after: Option<nat>, p: nat) {
    || after == before
    || (before == None && after == Some(p))
    || (before == Some(p) && after == None)
  }

  /** One command first. */
  lemma {:induction false} OneFirst(s: State, p: nat, limit: nat, next: Proc, db: Store)
    requires p < |s.procs| && JobProtocol.Enabled(s, p, Step) && Comes(StepOf(s, p, limit), p, limit, next, db)
    requires var t := StepOf(s, p, limit);
             IsOwn(s.enqueueLock, t.enqueueLock, p) && IsOwn(s.claimLock, t.claimLock, p)
    ensures Comes(s, p, limit, next, db)
  {
    var t := StepOf(s, p, limit);
    assert t.procs == s.procs[p := t.procs[p]];
    hide StepOf, JobProtocol.Enabled;
    var n: nat :| RunsAlone(t, p, n, limit) && Arrives(t, Alone(t, p, n, limit), p, next, db);
    assert RunsAlone(s, p, n + 1, limit) && Alone(s, p, n + 1, limit) == Alone(t, p, n, limit);
    assert Arrives(s, Alone(s, p, n + 1, limit), p, next, db);
  }

  // ----- enqueue -----

  /** The process may be interrupted by none: its lock is its own, or free. */
  ghost predicate HoldsOnly(s: State, p: nat, enqueue: bool, claim: bool) {
    && p < |s.procs|
    && (if enqueue then s.enqueueLock == Some(p) else s.enqueueLock == None)
    && (if claim then s.claimLock == Some(p) else s.claimLock == None)
  }

  lemma {:induction false} UnlockAlone(s: State, p: nat, limit: nat, db: Store)
    requires HoldsOnly(s, p, true, false) && s.procs[p].EnqUnlock? && Matches(s, db)
    ensures Comes(s, p, limit, JobProtocol.Idle, db)
  {
    Here(StepOf(s, p, limit), p, limit, db);
    OneFirst(s, p, limit, JobProtocol.Idle, db);
  }

  lemma {:induction false} AddAlone(s: State, p: nat, fp: Fingerprint, id: JobId, now: int, limit: nat, db: Store)
    requires HoldsOnly(s, p, true, false) && s.procs[p] == EnqAdd(fp, id, now) && Matches(s, db)
    ensures Comes(s, p, limit, JobProtocol.Idle, Added(db, fp, id, now))
  {
    var t := StepOf(s, p, limit);
    assert Matches(t, Added(db, fp, id, now));
    hide Comes;
    UnlockAlone(t, p, limit, Added(db, fp, id, now));
    OneFirst(s, p, limit, JobProtocol.Idle, Added(db, fp, id, now));
  }

  lemma {:induction false} CountAlone(s: State, p: nat, fp: Fingerprint, id: JobId, now: int, limit: nat, db: Store)
    requires HoldsOnly(s, p, true, false) && s.procs[p] == EnqCount(fp, id, now) && Matches(s, db)
    ensures Comes(s, p, limit, JobProtocol.Idle, if |db.pending| >= limit then db else Added(db, fp, id, now))
  {
    var t := StepOf(s, p, limit);
    assert |db.pending.Keys| == |db.pending|;
    hide Comes, Added;
    if |db.pending| >= limit {
      UnlockAlone(t, p, limit, db);
      OneFirst(s, p, limit, JobProtocol.Idle, db);
    } else {
      AddAlone(t, p, fp, id, now, limit, db);
      OneFirst(s, p, limit, JobProtocol.Idle, Added(db, fp, id, now));
    }
  }

  lemma {:induction false} DropAlone(s: State, p: nat, fp: Fingerprint, id: JobId, now: int, limit: nat, db: Store)
    requires HoldsOnly(s, p, true, false) && s.procs[p] == EnqDrop(fp, id, now) && Matches(s, db)
    requires !IsDuplicate(db, fp)
    ensures Comes(s, p, limit, JobProtocol.Idle, Enqueue(db, fp, id, now, limit).0)
  {
    var t := StepOf(s, p, limit);
    var clean := db.(dedupe := db.dedupe - {fp});
    hide Comes, Added, Rank;
    CountAlone(t, p, fp, id, now, limit, clean);
    OneFirst(s, p, limit, JobProtocol.Idle, Enqueue(db, fp, id, now, limit).0);
  }

  lemma {:induction false} KnownAlone(s: State, p: nat, fp: Fingerprint, id: JobId, now: int, limit: nat, db: Store)
    requires HoldsOnly(s, p, true, false) && Matches(s, db)
    requires fp in db.dedupe && s.procs[p] == EnqStatus(fp, id, now, db.dedupe[fp])
    ensures Comes(s, p, limit, JobProtocol.Idle, Enqueue(db, fp, id, now, limit).0)
  {
    var t := StepOf(s, p, limit);
    assert IsDuplicate(db, fp) <==> IsLiveJob(s, db.dedupe[fp]);
    hide Comes, Added, Rank;
    if IsDuplicate(db, fp) {
      UnlockAlone(t, p, limit, db);
    } else {
      DropAlone(t, p, fp, id, now, limit, db);
    }
    hide Enqueue;
    OneFirst(s, p, limit, JobProtocol.Idle, Enqueue(db, fp, id, now, limit).0);
  }

  lemma {:induction false} NewAlone(s: State, p: nat, fp: Fingerprint, id: JobId, now: int, limit: nat, db: Store)
    requires HoldsOnly(s, p, true, false) && s.procs[p] == EnqCount(fp, id, now) && Matches(s, db) && fp !in db.dedupe
    ensures Comes(s, p, limit, JobProtocol.Idle, Enqueue(db, fp, id, now, limit).0)
  {
    assert db.dedupe - {fp} == db.dedupe;
    hide Comes, Added, Rank;
    CountAlone(s, p, fp, id, now, limit, db);
  }

  lemma {:induction false} LookAlone(s: State, p: nat, fp: Fingerprint, id: JobId, now: int, limit: nat, db: Store)
    requires HoldsOnly(s, p, true, false) && s.procs[p] == EnqGet(fp, id, now) && Matches(s, db)
    ensures Comes(s, p, limit, JobProtocol.Idle, Enqueue(db, fp, id, now, limit).0)
  {
    var t := StepOf(s, p, limit);
    hide Comes, Enqueue;
    if fp in db.dedupe {
      KnownAlone(t, p, fp, id, now, limit, db);
    } else {
      NewAlone(t, p, fp, id, now, limit, db);
    }
    OneFirst(s, p, limit, JobProtocol.Idle, Enqueue(db, fp, id, now, limit).0);
  }

  /** A submission that is not interrupted is `enqueue` on the store. */
  lemma {:induction false} EnqueueRefines(s: State, p: nat, fp: Fingerprint, id: JobId, now: int, limit: nat, db: Store)
    requires HoldsOnly(s, p, false, false) && s.procs[p] == EnqLock(fp, id, now) && Matches(s, db)
    ensures Comes(s, p, limit, JobProtocol.Idle, Enqueue(db, fp, id, now, limit).0)
  {
    hide Comes, Enqueue;
    LookAlone(StepOf(s, p, limit), p, fp, id, now, limit, db);
    OneFirst(s, p, limit, JobProtocol.Idle, Enqueue(db, fp, id, now, limit).0);
  }

  // ----- complete -----

  lemma {:induction false} WriteAlone(s: State, p: nat, id: JobId, success: bool, after: After, limit: nat, db: Store)
    requires HoldsOnly(s, p, false, false) && Matches(s, db)
    requires s.procs[p] == CompleteWrite(id, success, StatusOf(db, id), if id in db.payload then Some(db.payload[id]) else None, after)
    ensures Comes(s, p, limit, Resume(after), Complete(db, id, success))
  {
    var t := StepOf(s, p, limit);
    var done := Complete(db, id, success);
    hide SucceededStatus, FailedStatus, StatusOf, Comes;
    assert t.pending == done.pending.Keys;
    assert Matches(t, done);
    hide Complete;
    Here(t, p, limit, done);
    OneFirst(s, p, limit, Resume(after), done);
  }

  /** A completion that is not interrupted is `complete` on the store. */
  lemma {:induction false} CompleteRefines(s: State, p: nat, id: JobId, success: bool, after: After, limit: nat, db: Store)
    requires HoldsOnly(s, p, false, false) && s.procs[p] == CompleteRead(id, success, after) && Matches(s, db)
    ensures Comes(s, p, limit, Resume(after), Complete(db, id, success))
  {
    hide Comes, Complete;
    WriteAlone(StepOf(s, p, limit), p, id, success, after, limit, db);
    OneFirst(s, p, limit, Resume(after), Complete(db, id, success));
  }

  // ----- claim -----

  /** Where a claim of the job goes on to, and the store it leaves. */
  function Goes(db: Store, id: JobId): Proc {
    if id in db.payload then PhaseRead(id, Dispatching) else JobProtocol.Idle
  }

  function Leaves(db: Store, id: JobId): Store {
    if id in db.payload then db else Complete(db, id, false)
  }

  lemma {:induction false} FetchAlone(s: State, p: nat, id: JobId, limit: nat, db: Store)
    requires HoldsOnly(s, p, false, false) && s.procs[p] == ClaimFetch(id) && Matches(s, db)
    ensures Comes(s, p, limit, Goes(db, id), Leaves(db, id))
  {
    var t := StepOf(s, p, limit);
    hide Comes, Complete;
    if id in db.payload {
      Here(t, p, limit, db);
    } else {
      CompleteRefines(t, p, id, false, Return, limit, db);
    }
    hide Leaves;
    OneFirst(s, p, limit, Goes(db, id), Leaves(db, id));
  }

  lemma {:induction false} ReleaseAlone(s: State, p: nat, id: JobId, limit: nat, db: Store)
    requires HoldsOnly(s, p, false, true) && s.procs[p] == ClaimUnlock(Some(id)) && Matches(s, db)
    ensures Comes(s, p, limit, Goes(db, id), Leaves(db, id))
  {
    hide Comes, Goes, Leaves;
    FetchAlone(StepOf(s, p, limit), p, id, limit, db);
    OneFirst(s, p, limit, Goes(db, id), Leaves(db, id));
  }

  /** The store once the claimed job is active. */
  function Taken(db: Store, id: JobId, now: int): Store {
    db.(ready := db.ready - {id}, active := db.active[id := now])
  }

  lemma {:induction false} PutAlone(s: State, p: nat, id: JobId, now: int, limit: nat, db: Store)
    requires HoldsOnly(s, p, false, true) && s.procs[p] == ClaimPut(id, now) && Matches(s, db)
    ensures var taken := db.(active := db.active[id := now]); Comes(s, p, limit, Goes(taken, id), Leaves(taken, id))
  {
    var taken := db.(active := db.active[id := now]);
    hide Comes, Goes, Leaves;
    ReleaseAlone(StepOf(s, p, limit), p, id, limit, taken);
    OneFirst(s, p, limit, Goes(taken, id), Leaves(taken, id));
  }

  lemma {:induction false} RemoveAlone(s: State, p: nat, id: JobId, now: int, limit: nat, db: Store)
    requires HoldsOnly(s, p, false, true) && s.procs[p] == ClaimRemove(id, now) && Matches(s, db)
    ensures var taken := Taken(db, id, now); Comes(s, p, limit, Goes(taken, id), Leaves(taken, id))
  {
    var taken := Taken(db, id, now);
    hide Comes, Goes, Leaves;
    PutAlone(StepOf(s, p, limit), p, id, now, limit, db.(ready := db.ready - {id}));
    OneFirst(s, p, limit, Goes(taken, id), Leaves(taken, id));
  }

  lemma {:induction false} RangeAlone(s: State, p: nat, now: int, limit: nat, db: Store)
    requires HoldsOnly(s, p, false, true) && s.procs[p] == ClaimRange(now) && Matches(s, db)
    ensures var (after, taken) := Claim(db, now);
            Comes(s, p, limit, if taken.Some? then PhaseRead(taken.value, Dispatching) else JobProtocol.Idle, after)
  {
    var t := StepOf(s, p, limit);
    var (after, taken) := Claim(db, now);
    hide Comes, Complete, First;
    if First(db.ready).Some? {
      RemoveAlone(t, p, First(db.ready).value, now, limit, db);
    } else {
      var u := StepOf(t, p, limit);
      Here(u, p, limit, db);
      OneFirst(t, p, limit, JobProtocol.Idle, db);
    }
    OneFirst(s, p, limit, if taken.Some? then PhaseRead(taken.value, Dispatching) else JobProtocol.Idle, after);
  }

  /** A claim that is not interrupted is `claim` on the store, and goes on to report the job it got. */
  lemma {:induction false} ClaimRefines(s: State, p: nat, now: int, limit: nat, db: Store)
    requires HoldsOnly(s, p, false, false) && s.procs[p] == ClaimLock(now) && Matches(s, db)
    ensures var (after, taken) := Claim(db, now);
            Comes(s, p, limit, if taken.Some? then PhaseRead(taken.value, Dispatching) else JobProtocol.Idle, after)
  {
    var (after, taken) := Claim(db, now);
    hide Comes, Claim;
    RangeAlone(StepOf(s, p, limit), p, now, limit, db);
    OneFirst(s, p, limit, if taken.Some? then PhaseRead(taken.value, Dispatching) else JobProtocol.Idle, after);
  }

  // ----- marks -----

  lemma {:induction false} MarkAlone(s: State, p: nat, id: JobId, phase: Phase, next: Proc, limit: nat, db: Store)
    requires HoldsOnly(s, p, false, false) && Matches(s, db) && id in db.status
    requires || (s.procs[p] == PhaseWrite(id, phase, db.status[id]) && next == AfterPhase(id, phase))
             || (s.procs[p] == ReportWrite(id, phase, db.status[id]) && next == Pipeline(id))
    ensures Comes(s, p, limit, next, db.(status := db.status[id := AtPhase(db.status[id], phase)]))
  {
    var t := StepOf(s, p, limit);
    var marked := db.(status := db.status[id := AtPhase(db.status[id], phase)]);
    hide Comes, AtPhase;
    assert Matches(t, marked);
    Here(t, p, limit, marked);
    OneFirst(s, p, limit, next, marked);
  }

  /** A report that is not interrupted is `mark_phase` on the store. */
  lemma {:induction false} PhaseRefines(s: State, p: nat, id: JobId, phase: Phase, limit: nat, db: Store)
    requires HoldsOnly(s, p, false, false) && Matches(s, db)
    requires s.procs[p] == PhaseRead(id, phase) || s.procs[p] == ReportRead(id, phase)
    ensures Comes(s, p, limit, if s.procs[p].PhaseRead? then AfterPhase(id, phase) else Pipeline(id), MarkPhase(db, id, phase).0)
  {
    var t := StepOf(s, p, limit);
    var next := if s.procs[p].PhaseRead? then AfterPhase(id, phase) else Pipeline(id);
    var marked := MarkPhase(db, id, phase).0;
    if id in db.status && IsLive(db.status[id].state) ==> db.status[id].phase == phase {
      SamePhase(db, id, phase);
    }
    hide Comes, AtPhase;
    if id in db.status && IsLive(db.status[id].state) && db.status[id].phase != phase {
      MarkAlone(t, p, id, phase, next, limit, db);
    } else {
      Here(t, p, limit, db);
    }
    hide MarkPhase;
    OneFirst(s, p, limit, next, marked);
  }

  lemma {:induction false} SamePhase(db: Store, id: JobId, phase: Phase)
    requires id in db.status && IsLive(db.status[id].state) ==> db.status[id].phase == phase
    ensures MarkPhase(db, id, phase).0 == db
  {
    assert id in db.status ==> db.status[id := db.status[id]] == db.status;
  }

  /** Marking a job running without interruption is `mark_running` on the store, and the pipeline runs exactly if it succeeds. */
  lemma {:induction false} RunningRefines(s: State, p: nat, id: JobId, limit: nat, db: Store)
    requires HoldsOnly(s, p, false, false) && s.procs[p] == RunRead(id) && Matches(s, db)
    ensures var (after, ok) := MarkRunning(db, id);
            Comes(s, p, limit, if ok then Pipeline(id) else JobProtocol.Idle, after)
  {
    var t := StepOf(s, p, limit);
    var (after, ok) := MarkRunning(db, id);
    if ok {
      var u := StepOf(t, p, limit);
      Here(u, p, limit, after);
      OneFirst(t, p, limit, Pipeline(id), after);
    } else {
      Here(t, p, limit, db);
    }
    hide Comes;
    OneFirst(s, p, limit, if ok then Pipeline(id) else JobProtocol.Idle, after);
  }

  // ----- reap_stale -----

  lemma {:induction false} DeadAlone(s: State, p: nat, id: JobId, todo: set<JobId>, limit: nat, db: Store)
    requires HoldsOnly(s, p, false, false) && s.procs[p] == ReapActive(id, todo) && Matches(s, db)
    ensures Comes(s, p, limit, Reaping(todo), db.(active := db.active - {id}, pending := db.pending - {id}))
  {
    var t := StepOf(s, p, limit);
    var u := StepOf(t, p, limit);
    var left := db.(active := db.active - {id}, pending := db.pending - {id});
    assert u.pending == left.pending.Keys;
    Here(u, p, limit, left);
    hide Comes;
    OneFirst(t, p, limit, Reaping(todo), left);
    OneFirst(s, p, limit, Reaping(todo), left);
  }

  /** One pass of the reaper's loop that is not interrupted is one pass on the store. */
  lemma {:induction false} ReapRefines(s: State, p: nat, id: JobId, todo: set<JobId>, limit: nat, db: Store)
    requires HoldsOnly(s, p, false, false) && s.procs[p] == ReapRead(id, todo) && Matches(s, db)
    ensures Comes(s, p, limit, Reaping(todo), ReapOne(db, id))
  {
    var t := StepOf(s, p, limit);
    hide Comes, Complete;
    if id in db.status && IsLive(db.status[id].state) {
      CompleteRefines(t, p, id, false, ReapOn(todo), limit, db);
    } else {
      DeadAlone(t, p, id, todo, limit, db);
    }
    OneFirst(s, p, limit, Reaping(todo), ReapOne(db, id));
  }

  /** The reaper looks at the stale jobs of the store. */
  lemma {:induction false} ReaperStarts(s: State, p: nat, deadline: int, limit: nat, db: Store)
    requires JobProtocol.Enabled(s, p, StartReap(deadline)) && Matches(s, db)
    ensures JobProtocol.Do(s, p, StartReap(deadline), limit).procs[p] == Reaping(Stale(db, deadline))
  {
    assert (set j | j in s.active && 0 <= s.active[j] <= deadline) == Stale(db, deadline);
  }
}
