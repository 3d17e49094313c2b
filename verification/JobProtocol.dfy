/**
 * app/jobs.py and the worker loop of app/main.py, one Redis command or transaction at a time.
 * Any number of processes enqueue, claim, work and reap; the two Redis locks are ideal mutexes, and keys may expire
 * at any moment.
 */
module JobProtocol {
  import opened PyText
  import opened JobStore

  /** Where a `complete` call returns to: to the worker, or into the reaper's loop over the jobs left. */
  datatype After = Return | ReapOn(todo: set<JobId>)

  /** The next command of a process. */
  datatype Proc =
    | Idle
    // enqueue
    | EnqLock(fp: Fingerprint, id: JobId, now: int)
    | EnqGet(fp: Fingerprint, id: JobId, now: int)
    | EnqStatus(fp: Fingerprint, id: JobId, now: int, existing: JobId)
    | EnqDrop(fp: Fingerprint, id: JobId, now: int)
    | EnqCount(fp: Fingerprint, id: JobId, now: int)
    | EnqAdd(fp: Fingerprint, id: JobId, now: int)
    | EnqUnlock
    // claim
    | ClaimLock(now: int)
    | ClaimRange(now: int)
    | ClaimRemove(job: JobId, now: int)
    | ClaimPut(job: JobId, now: int)
    | ClaimUnlock(taken: Option<JobId>)
    | ClaimFetch(job: JobId)
    // the worker loop
    | PhaseRead(job: JobId, phase: Phase)
    | PhaseWrite(job: JobId, phase: Phase, raw: Status)
    | RunRead(job: JobId)
    | RunWrite(job: JobId, raw: Status)
    | Pipeline(job: JobId)
    // a report from inside the pipeline
    | ReportRead(job: JobId, phase: Phase)
    | ReportWrite(job: JobId, phase: Phase, raw: Status)
    // complete and fail
    | CompleteRead(job: JobId, success: bool, after: After)
    | CompleteWrite(job: JobId, success: bool, found: Option<Status>, fingerprint: Option<Fingerprint>, after: After)
    // reap_stale
    | Reaping(todo: set<JobId>)
    | ReapRead(job: JobId, todo: set<JobId>)
    | ReapActive(job: JobId, todo: set<JobId>)
    | ReapPending(job: JobId, todo: set<JobId>)

  /** The database, the processes, and two histories: identifiers drawn and jobs removed from the ready set by a claim. */
  datatype State = State(
    ready: map<JobId, int>,
    active: map<JobId, int>,
    pending: set<JobId>,
    dedupe: map<Fingerprint, JobId>,
    status: map<JobId, Status>,
    payload: map<JobId, Fingerprint>,
    enqueueLock: Option<nat>,
    claimLock: Option<nat>,
    procs: seq<Proc>,
    minted: set<JobId>,
    claimed: seq<JobId>)

  datatype Action =
    | Submit(fp: Fingerprint, id: JobId, now: int)
    | StartClaim(now: int)
    | StartReap(deadline: int)
    | GiveUp
    | Step
    | Report(phase: Phase)
    | Finish(success: bool)
    | Pick(job: JobId)
    | ExpireStatus(job: JobId)
    | ExpirePayload(job: JobId)
    | ExpireDedupe(fp: Fingerprint)

  // ----- steps -----

  /** A time-out may end the pipeline in the middle of a report; the job has then failed. */
  ghost predicate Enabled(s: State, p: nat, a: Action) {
    && p < |s.procs|
    && var me := s.procs[p];
       match a
       case Submit(_, id, _) => me.Idle? && id !in s.minted
       case StartClaim(_) => me.Idle?
       case StartReap(_) => me.Idle?
       case GiveUp => me.EnqLock? || me.ClaimLock?
       case Step =>
         && !me.Idle? && !me.Pipeline?
         && (me.EnqLock? ==> s.enqueueLock == None)
         && (me.ClaimLock? ==> s.claimLock == None)
         && (me.Reaping? ==> me.todo == {})
       case Report(_) => me.Pipeline?
       case Finish(success) => me.Pipeline? || ((me.ReportRead? || me.ReportWrite?) && !success)
       case Pick(job) => me.Reaping? && job in me.todo
       case _ => true
  }

  function To(s: State, p: nat, next: Proc): State
    requires p < |s.procs|
  {
    s.(procs := s.procs[p := next])
  }

  /** The worker itself reports `dispatching` and then `querying`. */
  function AfterPhase(job: JobId, phase: Phase): Proc {
    if phase == Dispatching then PhaseRead(job, Querying) else RunRead(job)
  }

  function Resume(after: After): Proc {
    match after
    case Return => Idle
    case ReapOn(todo) => Reaping(todo)
  }

  /** The program point after the next command; a full queue makes `enqueue` leave its critical section. */
  ghost function Next(s: State, q: Proc, limit: nat): Proc {
    match q
    case EnqLock(fp, id, now) => EnqGet(fp, id, now)
    case EnqGet(fp, id, now) => if fp in s.dedupe then EnqStatus(fp, id, now, s.dedupe[fp]) else EnqCount(fp, id, now)
    case EnqStatus(fp, id, now, existing) => if IsLiveJob(s, existing) then EnqUnlock else EnqDrop(fp, id, now)
    case EnqDrop(fp, id, now) => EnqCount(fp, id, now)
    case EnqCount(fp, id, now) => if |s.pending| >= limit then EnqUnlock else EnqAdd(fp, id, now)
    case EnqAdd(_, _, _) => EnqUnlock
    case ClaimLock(now) => ClaimRange(now)
    case ClaimRange(now) => if First(s.ready).Some? then ClaimRemove(First(s.ready).value, now) else ClaimUnlock(None)
    case ClaimRemove(job, now) => ClaimPut(job, now)
    case ClaimPut(job, _) => ClaimUnlock(Some(job))
    case ClaimUnlock(taken) => if taken.Some? then ClaimFetch(taken.value) else Idle
    case ClaimFetch(job) => if job in s.payload then PhaseRead(job, Dispatching) else CompleteRead(job, false, Return)
    case PhaseRead(job, phase) =>
      if IsLiveJob(s, job) && s.status[job].phase != phase then PhaseWrite(job, phase, s.status[job]) else AfterPhase(job, phase)
    case PhaseWrite(job, phase, _) => AfterPhase(job, phase)
    case RunRead(job) =>
      if job in s.status && s.status[job].state == Queued then RunWrite(job, s.status[job]) else Idle
    case RunWrite(job, _) => Pipeline(job)
    case ReportRead(job, phase) =>
      if IsLiveJob(s, job) && s.status[job].phase != phase then ReportWrite(job, phase, s.status[job]) else Pipeline(job)
    case ReportWrite(job, _, _) => Pipeline(job)
    case CompleteRead(job, success, after) =>
      CompleteWrite(job, success, if job in s.status then Some(s.status[job]) else None,
                    if job in s.payload then Some(s.payload[job]) else None, after)
    case CompleteWrite(_, _, _, _, after) => Resume(after)
    case ReapRead(job, todo) => if IsLiveJob(s, job) then CompleteRead(job, false, ReapOn(todo)) else ReapActive(job, todo)
    case ReapActive(job, todo) => ReapPending(job, todo)
    case ReapPending(_, todo) => Reaping(todo)
    case _ => Idle
  }

  predicate IsLiveJob(s: State, job: JobId) {
    job in s.status && IsLive(s.status[job].state)
  }

  // The effect of the next command on each key.

  function NextReady(s: State, q: Proc): map<JobId, int> {
    match q
    case EnqAdd(_, id, now) => s.ready[id := now]
    case ClaimRemove(job, _) => s.ready - {job}
    case _ => s.ready
  }

  function NextActive(s: State, q: Proc): map<JobId, int> {
    match q
    case ClaimPut(job, now) => s.active[job := now]
    case CompleteWrite(job, _, _, _, _) => s.active - {job}
    case ReapActive(job, _) => s.active - {job}
    case _ => s.active
  }

  function NextPending(s: State, q: Proc): set<JobId> {
    match q
    case EnqAdd(_, id, _) => s.pending + {id}
    case CompleteWrite(job, _, _, _, _) => s.pending - {job}
    case ReapPending(job, _) => s.pending - {job}
    case _ => s.pending
  }

  function NextDedupe(s: State, q: Proc): map<Fingerprint, JobId> {
    match q
    case EnqDrop(fp, _, _) => s.dedupe - {fp}
    case EnqAdd(fp, id, _) => s.dedupe[fp := id]
    case CompleteWrite(_, _, _, fp, _) => if fp.Some? then s.dedupe - {fp.value} else s.dedupe
    case _ => s.dedupe
  }

  function NextStatus(s: State, q: Proc): map<JobId, Status> {
    match q
    case EnqAdd(_, id, _) => s.status[id := Status(Queued, InQueue, [])]
    case PhaseWrite(job, phase, raw) => s.status[job := AtPhase(raw, phase)]
    case ReportWrite(job, phase, raw) => s.status[job := AtPhase(raw, phase)]
    case RunWrite(job, raw) => s.status[job := raw.(state := Running)]
    case CompleteWrite(job, success, found, _, _) =>
      s.status[job := if success then SucceededStatus(found) else FailedStatus(found)]
    case _ => s.status
  }

  function NextPayload(s: State, q: Proc): map<JobId, Fingerprint> {
    match q
    case EnqAdd(fp, id, _) => s.payload[id := fp]
    case CompleteWrite(job, _, _, _, _) => s.payload - {job}
    case _ => s.payload
  }

  function NextEnqueueLock(s: State, q: Proc, p: nat): Option<nat> {
    match q
    case EnqLock(_, _, _) => Some(p)
    case EnqUnlock => None
    case _ => s.enqueueLock
  }

  function NextClaimLock(s: State, q: Proc, p: nat): Option<nat> {
    match q
    case ClaimLock(_) => Some(p)
    case ClaimUnlock(_) => None
    case _ => s.claimLock
  }

  /** `claimed` records the removals from ready by `claim`. */
  function NextClaimed(s: State, q: Proc): seq<JobId> {
    match q
    case ClaimRemove(job, _) => s.claimed + [job]
    case _ => s.claimed
  }

  /** The next command of process `p`. */
  ghost function StepOf(s: State, p: nat, limit: nat): State
    requires p < |s.procs|
  {
    var q := s.procs[p];
    State(NextReady(s, q), NextActive(s, q), NextPending(s, q), NextDedupe(s, q), NextStatus(s, q), NextPayload(s, q),
          NextEnqueueLock(s, q, p), NextClaimLock(s, q, p), s.procs[p := Next(s, q, limit)], s.minted, NextClaimed(s, q))
  }

  ghost function Do(s: State, p: nat, a: Action, limit: nat): State
    requires Enabled(s, p, a)
  {
    match a
    case Submit(fp, id, now) => To(s, p, EnqLock(fp, id, now)).(minted := s.minted + {id})
    case StartClaim(now) => To(s, p, ClaimLock(now))
    case StartReap(deadline) => To(s, p, Reaping(set j | j in s.active && 0 <= s.active[j] <= deadline))
    case GiveUp => To(s, p, Idle)
    case Step => StepOf(s, p, limit)
    case Report(phase) => To(s, p, ReportRead(s.procs[p].job, phase))
    case Finish(success) => To(s, p, CompleteRead(s.procs[p].job, success, Return))
    case Pick(job) => To(s, p, ReapRead(job, s.procs[p].todo - {job}))
    case ExpireStatus(job) => s.(status := s.status - {job})
    case ExpirePayload(job) => s.(payload := s.payload - {job})
    case ExpireDedupe(fp) => s.(dedupe := s.dedupe - {fp})
  }

  ghost predicate IsInit(s: State) {
    && s.ready == map[] && s.active == map[] && s.pending == {}
    && s.enqueueLock == None && s.claimLock == None && s.minted == {} && s.claimed == []
    && forall p | 0 <= p < |s.procs| :: s.procs[p] == Idle
  }

  ghost predicate IsRun(run: seq<State>, who: seq<nat>, acts: seq<Action>, limit: nat) {
    && |run| == |acts| + 1 && |who| == |acts| && IsInit(run[0])
    && forall i | 0 <= i < |acts| :: Enabled(run[i], who[i], acts[i]) && run[i + 1] == Do(run[i], who[i], acts[i], limit)
  }

  // ----- the invariant -----

  predicate HoldsEnqueueLock(q: Proc) {
    q.EnqGet? || q.EnqStatus? || q.EnqDrop? || q.EnqCount? || q.EnqAdd? || q.EnqUnlock?
  }

  predicate HoldsClaimLock(q: Proc) {
    q.ClaimRange? || q.ClaimRemove? || q.ClaimPut? || q.ClaimUnlock?
  }

  /** The new identifier an `enqueue` in progress carries. */
  function Carried(q: Proc): Option<JobId> {
    match q
    case EnqLock(_, id, _) => Some(id)
    case EnqGet(_, id, _) => Some(id)
    case EnqStatus(_, id, _, _) => Some(id)
    case EnqDrop(_, id, _) => Some(id)
    case EnqCount(_, id, _) => Some(id)
    case EnqAdd(_, id, _) => Some(id)
    case _ => None
  }

  function Todo(after: After): set<JobId> {
    match after
    case Return => {}
    case ReapOn(todo) => todo
  }

  /** The claimed jobs a process may still complete or remove. */
  function InHand(q: Proc): set<JobId> {
    match q
    case ClaimUnlock(taken) => if taken.Some? then {taken.value} else {}
    case ClaimFetch(job) => {job}
    case PhaseRead(job, _) => {job}
    case PhaseWrite(job, _, _) => {job}
    case RunRead(job) => {job}
    case RunWrite(job, _) => {job}
    case Pipeline(job) => {job}
    case ReportRead(job, _) => {job}
    case ReportWrite(job, _, _) => {job}
    case CompleteRead(job, _, after) => {job} + Todo(after)
    case CompleteWrite(job, _, _, _, after) => {job} + Todo(after)
    case Reaping(todo) => todo
    case ReapRead(job, todo) => {job} + todo
    case ReapActive(job, todo) => {job} + todo
    case ReapPending(job, todo) => {job} + todo
    case _ => {}
  }

  /** The job removed from ready and not yet put into active: at most one, because claims hold a lock. */
  function Popped(s: State): Option<JobId> {
    if s.claimLock.Some? && s.claimLock.value < |s.procs| && s.procs[s.claimLock.value].ClaimPut?
    then Some(s.procs[s.claimLock.value].job) else None
  }

  /** Some reaper has removed the job from active and is about to remove it from pending. */
  ghost predicate BetweenRemovals(s: State, job: JobId) {
    exists p | 0 <= p < |s.procs| :: RemovesNext(s.procs[p], job)
  }

  predicate RemovesNext(q: Proc, job: JobId) {
    q.ReapPending? && q.job == job
  }

  ghost predicate Locks(s: State) {
    && (forall p | 0 <= p < |s.procs| :: HoldsEnqueueLock(s.procs[p]) <==> s.enqueueLock == Some(p))
    && (forall p | 0 <= p < |s.procs| :: HoldsClaimLock(s.procs[p]) <==> s.claimLock == Some(p))
    && (s.enqueueLock.Some? ==> s.enqueueLock.value < |s.procs|)
    && (s.claimLock.Some? ==> s.claimLock.value < |s.procs|)
  }

  /** `pending` is the disjoint union of ready, active, the popped job, and pending jobs between a reaper's two removals. */
  ghost predicate Partition(s: State) {
    && (forall j | j in s.ready :: j in s.pending && j !in s.active && Popped(s) != Some(j))
    && (forall j | j in s.active :: j in s.pending && Popped(s) != Some(j))
    && (Popped(s).Some? ==> Popped(s).value in s.pending)
    && (forall j | j in s.pending ::
          j in s.ready || j in s.active || Popped(s) == Some(j) || BetweenRemovals(s, j))
    && (forall j | BetweenRemovals(s, j) :: j !in s.active)
  }

  /** Claimed jobs never return to ready. */
  ghost predicate Owners(s: State) {
    && (forall p, j | 0 <= p < |s.procs| && j in InHand(s.procs[p]) ::
          j in s.minted && j !in s.ready && Popped(s) != Some(j))
    && (forall j | j in s.pending :: j in s.minted)
    && (forall p | 0 <= p < |s.procs| && s.procs[p].ClaimRemove? :: s.procs[p].job in s.ready)
  }

  /** The identifiers drawn by unfinished calls of `enqueue` are not in the database. */
  ghost predicate Unused(s: State) {
    forall p | 0 <= p < |s.procs| && Carried(s.procs[p]).Some? :: IsUnused(s, Carried(s.procs[p]).value)
  }

  ghost predicate IsUnused(s: State, id: JobId) {
    id in s.minted && id !in s.pending && id !in s.claimed
  }

  /** The identifier `q` has drawn is not known to `r`. */
  ghost predicate Apart(q: Proc, r: Proc) {
    Carried(q).Some? ==> Carried(q).value !in InHand(r) && Carried(r) != Carried(q)
  }

  ghost predicate AllApart(s: State) {
    forall p, q | 0 <= p < |s.procs| && 0 <= q < |s.procs| && p != q :: Apart(s.procs[p], s.procs[q])
  }

  predicate NoRepeat(ids: seq<JobId>) {
    forall i, j | 0 <= i < j < |ids| :: ids[i] != ids[j]
  }

  /** No job is claimed twice. */
  ghost predicate ClaimedOnce(s: State) {
    && NoRepeat(s.claimed)
    && (forall j | j in s.claimed :: j in s.minted && j !in s.ready)
  }

  ghost predicate Bounded(s: State, limit: nat) {
    && |s.pending| <= limit
    && (forall p | 0 <= p < |s.procs| && s.procs[p].EnqAdd? :: |s.pending| < limit)
  }

  ghost predicate Good(s: State, limit: nat) {
    Locks(s) && Partition(s) && Owners(s) && Unused(s) && AllApart(s) && ClaimedOnce(s) && Bounded(s, limit)
  }

  // ----- how a step changes the sets -----

  /** Process `p` moves on to `r`; the key families may change as well, nothing else does. */
  ghost predicate Moves(s: State, t: State, p: nat, r: Proc) {
    && p < |s.procs| && t.procs == s.procs[p := r]
    && t.minted == s.minted
  }

  ghost predicate SameSets(s: State, t: State) {
    t.ready == s.ready && t.active == s.active && t.pending == s.pending && t.claimed == s.claimed
  }

  lemma {:induction false} BetweenKept(s: State, t: State, p: nat, r: Proc)
    requires Moves(s, t, p, r)
    ensures forall j | BetweenRemovals(s, j) && !RemovesNext(s.procs[p], j) :: BetweenRemovals(t, j)
    ensures forall j | BetweenRemovals(t, j) && !RemovesNext(r, j) :: BetweenRemovals(s, j)
  {
    forall j | BetweenRemovals(t, j) && !RemovesNext(r, j) ensures BetweenRemovals(s, j) {
      var q :| 0 <= q < |t.procs| && RemovesNext(t.procs[q], j);
      assert RemovesNext(s.procs[q], j);
    }
    forall j | BetweenRemovals(s, j) && !RemovesNext(s.procs[p], j) ensures BetweenRemovals(t, j) {
      var q :| 0 <= q < |s.procs| && RemovesNext(s.procs[q], j);
      assert RemovesNext(t.procs[q], j);
    }
  }

  // ----- keeping each part of the invariant -----

  lemma {:induction false} OwnersKeep(s: State, t: State, p: nat, r: Proc, added: Option<JobId>)
    requires Owners(s) && p < |s.procs| && t.procs == s.procs[p := r]
    requires forall j | j in s.minted :: j in t.minted
    requires forall j | j in t.ready || Popped(t) == Some(j) :: j in s.ready || Popped(s) == Some(j) || added == Some(j)
    requires added.Some? ==> forall q | 0 <= q < |s.procs| && q != p :: added.value !in InHand(s.procs[q])
    requires forall j | j in InHand(r) :: j in t.minted && j !in t.ready && Popped(t) != Some(j)
    requires forall j | j in t.pending :: j in t.minted
    requires forall q | 0 <= q < |t.procs| && t.procs[q].ClaimRemove? :: t.procs[q].job in t.ready
    ensures Owners(t)
  {
  }

  lemma {:induction false} UnusedKeep(s: State, t: State, p: nat, r: Proc)
    requires Unused(s) && p < |s.procs| && t.procs == s.procs[p := r]
    requires Carried(r).Some? ==> IsUnused(t, Carried(r).value)
    requires forall q | 0 <= q < |s.procs| && q != p && Carried(s.procs[q]).Some? ::
               IsUnused(s, Carried(s.procs[q]).value) ==> IsUnused(t, Carried(s.procs[q]).value)
    ensures Unused(t)
  {
  }

  lemma {:induction false} ApartKeep(s: State, t: State, p: nat, r: Proc)
    requires AllApart(s) && p < |s.procs| && t.procs == s.procs[p := r]
    requires forall q | 0 <= q < |s.procs| && q != p :: Apart(r, s.procs[q]) && Apart(s.procs[q], r)
    ensures AllApart(t)
  {
  }

  /** A program point that knows no more identifiers is as apart from the others as the one before it. */
  lemma {:induction false} ApartQuiet(s: State, p: nat, r: Proc)
    requires AllApart(s) && p < |s.procs|
    requires InHand(r) <= InHand(s.procs[p]) && (Carried(r) == Carried(s.procs[p]) || Carried(r) == None)
    ensures forall q | 0 <= q < |s.procs| && q != p :: Apart(r, s.procs[q]) && Apart(s.procs[q], r)
  {
  }

  lemma {:induction false} PartitionKeep(s: State, t: State, p: nat, r: Proc)
    requires Partition(s) && Moves(s, t, p, r) && SameSets(s, t) && Popped(t) == Popped(s)
    requires !s.procs[p].ReapPending? && !r.ReapPending?
    ensures Partition(t)
  {
    BetweenKept(s, t, p, r);
    assert forall j :: !RemovesNext(s.procs[p], j) && !RemovesNext(r, j);
    hide BetweenRemovals, RemovesNext, Popped;
  }

  // ----- steps that leave the sorted sets alone -----

  /** The next program point knows no more identifiers and is not about to remove from a set. */
  ghost predicate Calm(q: Proc, r: Proc) {
    && InHand(r) <= InHand(q)
    && (Carried(r) == Carried(q) || Carried(r) == None)
    && !q.ReapPending? && !r.ReapPending?
  }

  lemma {:induction false} CalmKeeps(s: State, t: State, p: nat, r: Proc, limit: nat)
    requires Good(s, limit) && Moves(s, t, p, r) && SameSets(s, t) && Calm(s.procs[p], r)
    requires Locks(t) && Popped(t) == Popped(s)
    requires r.EnqAdd? ==> |s.pending| < limit
    requires r.ClaimRemove? ==> r.job in s.ready
    ensures Good(t, limit)
  {
    hide HoldsEnqueueLock, HoldsClaimLock, InHand, Carried, Popped, Partition, Locks, AllApart, BetweenRemovals, NoRepeat, Apart;
    PartitionKeep(s, t, p, r);
    CalmOwners(s, t, p, r);
    CalmUnused(s, t, p, r);
    ApartQuiet(s, p, r);
    ApartKeep(s, t, p, r);
    hide Owners, Unused;
  }

  lemma {:induction false} CalmOwners(s: State, t: State, p: nat, r: Proc)
    requires Owners(s) && Moves(s, t, p, r) && SameSets(s, t) && Calm(s.procs[p], r) && Popped(t) == Popped(s)
    requires r.ClaimRemove? ==> r.job in s.ready
    ensures Owners(t)
  {
    hide InHand, Popped, Carried;
    OwnersKeep(s, t, p, r, None);
  }

  lemma {:induction false} CalmUnused(s: State, t: State, p: nat, r: Proc)
    requires Unused(s) && Moves(s, t, p, r) && SameSets(s, t) && Calm(s.procs[p], r)
    ensures Unused(t)
  {
  }

  /** Taking, keeping or releasing the two locks: both stay with the processes that are inside. */
  lemma {:induction false} LocksKeep(s: State, t: State, p: nat, r: Proc)
    requires Locks(s) && Moves(s, t, p, r)
    requires t.enqueueLock == (if HoldsEnqueueLock(r) then Some(p) else if HoldsEnqueueLock(s.procs[p]) then None else s.enqueueLock)
    requires t.claimLock == (if HoldsClaimLock(r) then Some(p) else if HoldsClaimLock(s.procs[p]) then None else s.claimLock)
    requires HoldsEnqueueLock(r) ==> HoldsEnqueueLock(s.procs[p]) || s.enqueueLock == None
    requires HoldsClaimLock(r) ==> HoldsClaimLock(s.procs[p]) || s.claimLock == None
    ensures Locks(t)
    ensures !s.procs[p].ClaimPut? && !r.ClaimPut? ==> Popped(t) == Popped(s)
    ensures r.ClaimPut? ==> Popped(t) == Some(r.job)
    ensures s.procs[p].ClaimPut? && !r.ClaimPut? ==> Popped(s) == Some(s.procs[p].job) && Popped(t) == None
  {
  }

  // ----- the transaction of enqueue -----

  ghost predicate Adds(s: State, t: State, p: nat, id: JobId, now: int) {
    && Moves(s, t, p, EnqUnlock)
    && t.ready == s.ready[id := now] && t.active == s.active && t.pending == s.pending + {id} && t.claimed == s.claimed
  }

  lemma {:induction false} AddPartition(s: State, t: State, p: nat, id: JobId, now: int)
    requires Partition(s) && Adds(s, t, p, id, now) && Popped(t) == Popped(s)
    requires Unused(s) && s.procs[p].EnqAdd? && s.procs[p].id == id
    ensures Partition(t)
  {
    assert Carried(s.procs[p]) == Some(id);
    hide Carried;
    assert IsUnused(s, id);
    hide Unused;
    BetweenKept(s, t, p, EnqUnlock);
    assert forall j :: !RemovesNext(s.procs[p], j) && !RemovesNext(EnqUnlock, j);
    hide BetweenRemovals, RemovesNext, Popped;
  }

  lemma {:induction false} AddOwners(s: State, t: State, p: nat, id: JobId, now: int)
    requires Owners(s) && AllApart(s) && Adds(s, t, p, id, now) && Popped(t) == Popped(s)
    requires Unused(s) && s.procs[p].EnqAdd? && s.procs[p].id == id
    ensures Owners(t)
  {
    assert Carried(s.procs[p]) == Some(id) && InHand(EnqUnlock) == {};
    hide Popped, InHand, Carried;
    assert IsUnused(s, id);
    hide Unused;
    forall q | 0 <= q < |s.procs| && q != p ensures id !in InHand(s.procs[q]) {
      assert Apart(s.procs[p], s.procs[q]);
    }
    OwnersKeep(s, t, p, EnqUnlock, Some(id));
  }

  lemma {:induction false} AddRest(s: State, t: State, p: nat, id: JobId, now: int, limit: nat)
    requires Locks(s) && Unused(s) && AllApart(s) && ClaimedOnce(s) && Bounded(s, limit)
    requires Adds(s, t, p, id, now) && s.procs[p].EnqAdd? && s.procs[p].id == id
    ensures AllApart(t) && ClaimedOnce(t) && Bounded(t, limit)
  {
    assert Carried(s.procs[p]) == Some(id) && Carried(EnqUnlock) == None && InHand(EnqUnlock) == {};
    hide InHand, Carried, NoRepeat, HoldsClaimLock;
    forall q | 0 <= q < |s.procs| && q != p ensures !s.procs[q].EnqAdd? {
      assert HoldsEnqueueLock(s.procs[p]) && !HoldsEnqueueLock(s.procs[q]);
    }
    assert IsUnused(s, id);
    assert |t.pending| == |s.pending| + 1;
    hide Unused;
    ApartQuiet(s, p, EnqUnlock);
    ApartKeep(s, t, p, EnqUnlock);
    hide AllApart, Apart;
  }

  /** The new job is unknown to every other process. */
  lemma {:induction false} AddKeeps(s: State, t: State, p: nat, id: JobId, now: int, limit: nat)
    requires Good(s, limit) && Adds(s, t, p, id, now) && s.procs[p].EnqAdd? && s.procs[p].id == id
    requires Locks(t) && Popped(t) == Popped(s)
    ensures Good(t, limit)
  {
    hide Locks, Partition, Owners, Unused, AllApart, ClaimedOnce, Bounded, Popped;
    AddPartition(s, t, p, id, now);
    AddOwners(s, t, p, id, now);
    AddUnused(s, t, p, id, now);
    AddRest(s, t, p, id, now, limit);
  }

  lemma {:induction false} AddUnused(s: State, t: State, p: nat, id: JobId, now: int)
    requires Unused(s) && AllApart(s) && Adds(s, t, p, id, now) && s.procs[p].EnqAdd? && s.procs[p].id == id
    ensures Unused(t)
  {
  }

  // ----- the two commands of claim -----

  ghost predicate Pops(s: State, t: State, p: nat, job: JobId, now: int) {
    && Moves(s, t, p, ClaimPut(job, now))
    && t.ready == s.ready - {job} && t.active == s.active && t.pending == s.pending && t.claimed == s.claimed + [job]
  }

  lemma {:induction false} PopPartition(s: State, t: State, p: nat, job: JobId, now: int)
    requires Partition(s) && Pops(s, t, p, job, now) && Popped(s) == None && Popped(t) == Some(job)
    requires job in s.ready && s.procs[p].ClaimRemove?
    ensures Partition(t)
  {
    BetweenKept(s, t, p, ClaimPut(job, now));
    assert forall j :: !RemovesNext(s.procs[p], j) && !RemovesNext(ClaimPut(job, now), j);
    hide BetweenRemovals, RemovesNext, Popped;
  }

  lemma {:induction false} PopOwners(s: State, t: State, p: nat, job: JobId, now: int)
    requires Owners(s) && Locks(s) && Pops(s, t, p, job, now) && s.claimLock == Some(p)
    requires job in s.ready && job in s.pending && Popped(s) == None && Popped(t) == Some(job)
    ensures Owners(t)
  {
    var r := ClaimPut(job, now);
    assert InHand(r) == {};
    forall q | 0 <= q < |s.procs| && s.procs[q].ClaimRemove? ensures q == p {
      assert HoldsClaimLock(s.procs[q]);
    }
    hide Popped, InHand, HoldsClaimLock, HoldsEnqueueLock;
    OwnersKeep(s, t, p, r, None);
  }

  lemma {:induction false} PopUnused(s: State, t: State, p: nat, job: JobId, now: int)
    requires Unused(s) && Pops(s, t, p, job, now) && job in s.pending
    ensures Unused(t)
  {
  }

  lemma {:induction false} PopRest(s: State, t: State, p: nat, job: JobId, now: int, limit: nat)
    requires AllApart(s) && ClaimedOnce(s) && Bounded(s, limit) && Pops(s, t, p, job, now)
    requires job in s.ready && job in s.minted && job !in s.claimed
    ensures AllApart(t) && ClaimedOnce(t) && Bounded(t, limit)
  {
    var r := ClaimPut(job, now);
    assert Carried(r) == None && InHand(r) == {};
    hide InHand, Carried;
    ApartQuiet(s, p, r);
    ApartKeep(s, t, p, r);
    hide Apart, AllApart;
  }

  /** The lock makes the popped job leave ready exactly once. */
  lemma {:induction false} PopKeeps(s: State, t: State, p: nat, job: JobId, now: int, limit: nat)
    requires Good(s, limit) && Pops(s, t, p, job, now)
    requires s.procs[p] == ClaimRemove(job, now) && s.claimLock == Some(p)
    requires Locks(t) && Popped(t) == Some(job)
    ensures Good(t, limit)
  {
    hide Locks, Partition, Owners, Unused, AllApart, ClaimedOnce, Bounded, Popped;
    PopFacts(s, p, job, now);
    PopPartition(s, t, p, job, now);
    PopOwners(s, t, p, job, now);
    PopUnused(s, t, p, job, now);
    PopRest(s, t, p, job, now, limit);
  }

  lemma {:induction false} PopFacts(s: State, p: nat, job: JobId, now: int)
    requires Partition(s) && Owners(s) && ClaimedOnce(s)
    requires p < |s.procs| && s.procs[p] == ClaimRemove(job, now) && s.claimLock == Some(p)
    ensures Popped(s) == None
    ensures job in s.ready && job in s.pending && job in s.minted && job !in s.claimed
  {
  }

  ghost predicate Activates(s: State, t: State, p: nat, job: JobId, now: int) {
    && Moves(s, t, p, ClaimUnlock(Some(job)))
    && t.ready == s.ready && t.active == s.active[job := now] && t.pending == s.pending && t.claimed == s.claimed
  }

  lemma {:induction false} ActivatePartition(s: State, t: State, p: nat, job: JobId, now: int)
    requires Partition(s) && Owners(s) && Activates(s, t, p, job, now) && Popped(s) == Some(job) && Popped(t) == None
    requires s.procs[p].ClaimPut?
    ensures Partition(t)
  {
    var r := ClaimUnlock(Some(job));
    BetweenKept(s, t, p, r);
    assert forall j :: !RemovesNext(s.procs[p], j) && !RemovesNext(r, j);
    forall q | 0 <= q < |s.procs| ensures !RemovesNext(s.procs[q], job) {
      assert RemovesNext(s.procs[q], job) ==> job in InHand(s.procs[q]);
    }
    assert !BetweenRemovals(s, job);
    hide BetweenRemovals, RemovesNext, Popped, Owners;
  }

  lemma {:induction false} ActivateOwners(s: State, t: State, p: nat, job: JobId, now: int)
    requires Partition(s) && Owners(s) && Activates(s, t, p, job, now)
    requires Popped(s) == Some(job) && Popped(t) == None
    ensures Owners(t)
  {
    var r := ClaimUnlock(Some(job));
    assert InHand(r) == {job};
    hide Popped, InHand, BetweenRemovals;
    OwnersKeep(s, t, p, r, None);
  }

  lemma {:induction false} ActivateRest(s: State, t: State, p: nat, job: JobId, now: int, limit: nat)
    requires Unused(s) && AllApart(s) && ClaimedOnce(s) && Bounded(s, limit)
    requires Activates(s, t, p, job, now) && s.procs[p] == ClaimPut(job, now) && job in s.pending
    ensures Unused(t) && AllApart(t) && ClaimedOnce(t) && Bounded(t, limit)
  {
    var r := ClaimUnlock(Some(job));
    assert Carried(r) == None && InHand(r) == {job};
    hide InHand, Carried, NoRepeat;
    UnusedKeep(s, t, p, r);
    forall q | 0 <= q < |s.procs| && q != p ensures Apart(r, s.procs[q]) && Apart(s.procs[q], r) {
      assert Carried(s.procs[q]).Some? ==> IsUnused(s, Carried(s.procs[q]).value);
    }
    ApartKeep(s, t, p, r);
    hide Unused, AllApart;
  }

  lemma {:induction false} PoppedIsPending(s: State)
    requires Partition(s) && Popped(s).Some?
    ensures Popped(s).value in s.pending
  {
  }

  lemma {:induction false} ActivateKeeps(s: State, t: State, p: nat, job: JobId, now: int, limit: nat)
    requires Good(s, limit) && Activates(s, t, p, job, now) && s.procs[p] == ClaimPut(job, now)
    requires Locks(t) && Popped(s) == Some(job) && Popped(t) == None
    ensures Good(t, limit)
  {
    hide Locks, Partition, Owners, Unused, AllApart, ClaimedOnce, Bounded, Popped;
    PoppedIsPending(s);
    ActivatePartition(s, t, p, job, now);
    ActivateOwners(s, t, p, job, now);
    ActivateRest(s, t, p, job, now, limit);
  }

  // ----- removals -----

  /** Process `p` removes `job` from active, from pending, or from both. */
  ghost predicate Removes(s: State, t: State, p: nat, r: Proc, job: JobId, fromActive: bool, fromPending: bool) {
    && Moves(s, t, p, r) && t.ready == s.ready && t.claimed == s.claimed
    && t.active == (if fromActive then s.active - {job} else s.active)
    && t.pending == (if fromPending then s.pending - {job} else s.pending)
  }

  /** A transaction of `complete`, the reaper's first removal, or its second removal. */
  ghost predicate IsRemoval(q: Proc, r: Proc, job: JobId, fromActive: bool, fromPending: bool) {
    || (q.CompleteWrite? && q.job == job && r == Resume(q.after) && fromActive && fromPending)
    || (q.ReapActive? && q.job == job && r == ReapPending(job, q.todo) && fromActive && !fromPending)
    || (q.ReapPending? && q.job == job && r == Reaping(q.todo) && !fromActive && fromPending)
  }

  lemma {:induction false} RemovePartition(s: State, t: State, p: nat, r: Proc, job: JobId, fromActive: bool, fromPending: bool)
    requires Partition(s) && Removes(s, t, p, r, job, fromActive, fromPending) && Popped(t) == Popped(s)
    requires IsRemoval(s.procs[p], r, job, fromActive, fromPending)
    requires job !in s.ready && Popped(s) != Some(job)
    ensures Partition(t)
  {
    BetweenKept(s, t, p, r);
    if r.ReapPending? {
      assert RemovesNext(t.procs[p], job);
      assert BetweenRemovals(t, job);
    }
    assert forall j :: RemovesNext(s.procs[p], j) ==> j == job && fromPending;
    assert forall j :: RemovesNext(r, j) ==> j == job && fromActive;
    hide BetweenRemovals, RemovesNext, Popped, IsRemoval;
  }

  lemma {:induction false} RemovalFacts(q: Proc, r: Proc, job: JobId, fromActive: bool, fromPending: bool)
    requires IsRemoval(q, r, job, fromActive, fromPending)
    ensures job in InHand(q) && InHand(r) <= InHand(q)
    ensures Carried(r) == Carried(q) == None && !r.EnqAdd? && !r.ClaimRemove?
  {
  }

  lemma {:induction false} RemoveOwners(s: State, t: State, p: nat, r: Proc, job: JobId, fromActive: bool, fromPending: bool)
    requires Owners(s) && Removes(s, t, p, r, job, fromActive, fromPending) && Popped(t) == Popped(s)
    requires InHand(r) <= InHand(s.procs[p]) && !r.ClaimRemove?
    ensures Owners(t)
  {
    hide Popped, InHand;
    OwnersKeep(s, t, p, r, None);
  }

  lemma {:induction false} RemoveRest(s: State, t: State, p: nat, r: Proc, job: JobId,
                                      fromActive: bool, fromPending: bool, limit: nat)
    requires Unused(s) && AllApart(s) && ClaimedOnce(s) && Bounded(s, limit)
    requires Removes(s, t, p, r, job, fromActive, fromPending)
    requires InHand(r) <= InHand(s.procs[p]) && Carried(r) == None && !r.EnqAdd?
    ensures Unused(t) && AllApart(t) && ClaimedOnce(t) && Bounded(t, limit)
  {
    SubsetSize(t.pending, s.pending);
    hide InHand, Carried, NoRepeat;
    UnusedKeep(s, t, p, r);
    ApartQuiet(s, p, r);
    ApartKeep(s, t, p, r);
    hide Unused, AllApart;
  }

  lemma {:induction false} HeldIsNotReady(s: State, p: nat, job: JobId)
    requires Owners(s) && p < |s.procs| && job in InHand(s.procs[p])
    ensures job !in s.ready && Popped(s) != Some(job)
  {
  }

  lemma {:induction false} RemoveKeeps(s: State, t: State, p: nat, r: Proc, job: JobId,
                                       fromActive: bool, fromPending: bool, limit: nat)
    requires Good(s, limit) && Removes(s, t, p, r, job, fromActive, fromPending)
    requires IsRemoval(s.procs[p], r, job, fromActive, fromPending)
    requires Locks(t) && Popped(t) == Popped(s)
    ensures Good(t, limit)
  {
    hide Locks, Partition, Owners, Unused, AllApart, ClaimedOnce, Bounded, Popped, IsRemoval;
    RemovalFacts(s.procs[p], r, job, fromActive, fromPending);
    HeldIsNotReady(s, p, job);
    RemovePartition(s, t, p, r, job, fromActive, fromPending);
    RemoveOwners(s, t, p, r, job, fromActive, fromPending);
    RemoveRest(s, t, p, r, job, fromActive, fromPending, limit);
  }

  // ----- starting a call -----

  /** The process `p` has drawn a new identifier. */
  ghost predicate Draws(s: State, t: State, p: nat, r: Proc, id: JobId) {
    && p < |s.procs| && s.procs[p].Idle? && id !in s.minted
    && r.EnqLock? && r.id == id && t == To(s, p, r).(minted := s.minted + {id})
  }

  lemma {:induction false} SubmitPartition(s: State, t: State, p: nat, r: Proc, id: JobId)
    requires Partition(s) && Draws(s, t, p, r, id) && Popped(t) == Popped(s)
    ensures Partition(t)
  {
    var u := To(s, p, r);
    assert Popped(u) == Popped(t);
    PartitionKeep(s, u, p, r);
    assert forall j :: BetweenRemovals(t, j) <==> BetweenRemovals(u, j);
    hide Popped, BetweenRemovals;
  }

  lemma {:induction false} SubmitOwners(s: State, t: State, p: nat, r: Proc, id: JobId)
    requires Owners(s) && Draws(s, t, p, r, id) && Popped(t) == Popped(s)
    ensures Owners(t)
  {
    assert InHand(r) == {};
    hide InHand, Popped;
    OwnersKeep(s, t, p, r, None);
  }

  lemma {:induction false} SubmitUnused(s: State, t: State, p: nat, r: Proc, id: JobId)
    requires Owners(s) && Unused(s) && ClaimedOnce(s) && Draws(s, t, p, r, id)
    ensures Unused(t)
  {
    assert Carried(r) == Some(id);
    hide InHand, Carried, Popped, NoRepeat;
    assert IsUnused(t, id) by {
      assert id !in s.pending;
    }
    UnusedKeep(s, t, p, r);
  }

  lemma {:induction false} SubmitApart(s: State, t: State, p: nat, r: Proc, id: JobId)
    requires Owners(s) && Unused(s) && AllApart(s) && Draws(s, t, p, r, id)
    ensures AllApart(t)
  {
    assert Carried(r) == Some(id) && InHand(r) == {};
    hide InHand, Carried, Popped;
    forall q | 0 <= q < |s.procs| && q != p ensures Apart(r, s.procs[q]) && Apart(s.procs[q], r) {
      assert Carried(s.procs[q]).Some? ==> IsUnused(s, Carried(s.procs[q]).value);
    }
    hide Owners, Unused;
    ApartKeep(s, t, p, r);
  }

  lemma {:induction false} SubmitKeeps(s: State, t: State, p: nat, fp: Fingerprint, id: JobId, now: int, limit: nat)
    requires Good(s, limit) && Draws(s, t, p, EnqLock(fp, id, now), id)
    requires Locks(t) && Popped(t) == Popped(s)
    ensures Good(t, limit)
  {
    var r := EnqLock(fp, id, now);
    assert ClaimedOnce(t) && Bounded(t, limit);
    hide Locks, Partition, Owners, Unused, AllApart, ClaimedOnce, Bounded, Popped;
    SubmitPartition(s, t, p, r, id);
    SubmitOwners(s, t, p, r, id);
    SubmitUnused(s, t, p, r, id);
    SubmitApart(s, t, p, r, id);
  }

  lemma {:induction false} StartReapOwners(s: State, t: State, p: nat, todo: set<JobId>)
    requires Partition(s) && Owners(s) && Moves(s, t, p, Reaping(todo)) && SameSets(s, t) && Popped(t) == Popped(s)
    requires forall j | j in todo :: j in s.active
    ensures Owners(t)
  {
    assert InHand(Reaping(todo)) == todo;
    hide InHand, Popped, BetweenRemovals;
    OwnersKeep(s, t, p, Reaping(todo), None);
  }

  lemma {:induction false} StartReapRest(s: State, t: State, p: nat, todo: set<JobId>, limit: nat)
    requires Partition(s) && Unused(s) && AllApart(s) && ClaimedOnce(s) && Bounded(s, limit)
    requires Moves(s, t, p, Reaping(todo)) && SameSets(s, t) && forall j | j in todo :: j in s.active
    ensures Unused(t) && AllApart(t) && ClaimedOnce(t) && Bounded(t, limit)
  {
    assert Carried(Reaping(todo)) == None;
    hide InHand, Carried, NoRepeat, Apart, Partition;
    StartReapApart(s, p, todo);
    UnusedKeep(s, t, p, Reaping(todo));
    hide Unused;
    ApartKeep(s, t, p, Reaping(todo));
    hide AllApart;
  }

  lemma {:induction false} StartReapKeeps(s: State, t: State, p: nat, todo: set<JobId>, limit: nat)
    requires Good(s, limit) && Moves(s, t, p, Reaping(todo)) && SameSets(s, t) && s.procs[p].Idle?
    requires forall j | j in todo :: j in s.active
    requires Locks(t) && Popped(t) == Popped(s)
    ensures Good(t, limit)
  {
    hide Locks, Partition, Owners, Unused, AllApart, ClaimedOnce, Bounded, Popped;
    PartitionKeep(s, t, p, Reaping(todo));
    StartReapOwners(s, t, p, todo);
    StartReapRest(s, t, p, todo, limit);
  }

  lemma {:induction false} StartReapApart(s: State, p: nat, todo: set<JobId>)
    requires Partition(s) && Unused(s) && p < |s.procs| && forall j | j in todo :: j in s.active
    ensures forall q | 0 <= q < |s.procs| && q != p :: Apart(Reaping(todo), s.procs[q]) && Apart(s.procs[q], Reaping(todo))
  {
  }

  // ----- every step -----

  lemma {:induction false} AfterPhaseFacts(job: JobId, phase: Phase)
    ensures !HoldsEnqueueLock(AfterPhase(job, phase)) && !HoldsClaimLock(AfterPhase(job, phase))
    ensures InHand(AfterPhase(job, phase)) == {job} && Carried(AfterPhase(job, phase)) == None
    ensures AfterPhase(job, phase).PhaseRead? || AfterPhase(job, phase).RunRead?
  {
  }

  /** Locks follow the program points. */
  lemma {:induction false} NextLocks(s: State, p: nat, limit: nat)
    requires Enabled(s, p, Step) && Locks(s)
    ensures var q := s.procs[p];
            var r := Next(s, q, limit);
            && NextEnqueueLock(s, q, p)
               == (if HoldsEnqueueLock(r) then Some(p) else if HoldsEnqueueLock(q) then None else s.enqueueLock)
            && NextClaimLock(s, q, p)
               == (if HoldsClaimLock(r) then Some(p) else if HoldsClaimLock(q) then None else s.claimLock)
            && (HoldsEnqueueLock(r) ==> HoldsEnqueueLock(q) || s.enqueueLock == None)
            && (HoldsClaimLock(r) ==> HoldsClaimLock(q) || s.claimLock == None)
            && (q.EnqAdd? || r.ClaimPut? ==> !q.ClaimPut?)
            && (r.ClaimPut? <==> q.ClaimRemove?)
  {
    var q := s.procs[p];
    if q.PhaseRead? || q.PhaseWrite? {
      AfterPhaseFacts(q.job, q.phase);
    }
    hide AfterPhase, First, IsLiveJob;
  }

  lemma {:induction false} StepLocks(s: State, p: nat, limit: nat)
    requires Enabled(s, p, Step) && Locks(s)
    ensures var t := StepOf(s, p, limit);
            var q, r := s.procs[p], Next(s, s.procs[p], limit);
            && Moves(s, t, p, r) && Locks(t)
            && (!q.ClaimPut? && !r.ClaimPut? ==> Popped(t) == Popped(s))
            && (r.ClaimPut? ==> Popped(t) == Some(r.job))
            && (q.ClaimPut? ==> Popped(s) == Some(q.job) && Popped(t) == None)
            && (HoldsClaimLock(q) ==> s.claimLock == Some(p))
  {
    NextLocks(s, p, limit);
    hide Next, NextReady, NextActive, NextPending, NextDedupe, NextStatus, NextPayload, NextEnqueueLock, NextClaimLock,
         NextClaimed, Popped;
    LocksKeep(s, StepOf(s, p, limit), p, Next(s, s.procs[p], limit));
  }

  predicate IsSetStep(q: Proc) {
    q.EnqAdd? || q.ClaimRemove? || q.ClaimPut? || q.CompleteWrite? || q.ReapActive? || q.ReapPending?
  }

  /** Any other command is calm. */
  lemma {:induction false} OtherNext(s: State, q: Proc, limit: nat)
    requires !IsSetStep(q)
    ensures var r := Next(s, q, limit);
            && Calm(q, r)
            && (r.EnqAdd? ==> |s.pending| < limit)
            && (r.ClaimRemove? ==> r.job in s.ready)
  {
    FirstIsReady(s);
    if q.PhaseRead? || q.PhaseWrite? {
      AfterPhaseFacts(q.job, q.phase);
    }
    hide AfterPhase, First, IsLiveJob;
  }

  lemma {:induction false} FirstIsReady(s: State)
    ensures First(s.ready).Some? ==> First(s.ready).value in s.ready
  {
  }

  lemma {:induction false} OtherSets(s: State, p: nat, limit: nat)
    requires p < |s.procs| && !IsSetStep(s.procs[p])
    ensures SameSets(s, StepOf(s, p, limit))
  {
  }

  /** The commands that change the sorted sets change them as described above. */
  lemma {:induction false} SetStep(s: State, p: nat, limit: nat)
    requires p < |s.procs|
    ensures var t := StepOf(s, p, limit);
            var q, r := s.procs[p], Next(s, s.procs[p], limit);
            && (q.EnqAdd? ==> Adds(s, t, p, q.id, q.now))
            && (q.ClaimRemove? ==> r == ClaimPut(q.job, q.now) && Pops(s, t, p, q.job, q.now))
            && (q.ClaimPut? ==> Activates(s, t, p, q.job, q.now))
            && (q.CompleteWrite? ==> Removes(s, t, p, r, q.job, true, true) && IsRemoval(q, r, q.job, true, true))
            && (q.ReapActive? ==> Removes(s, t, p, r, q.job, true, false) && IsRemoval(q, r, q.job, true, false))
            && (q.ReapPending? ==> Removes(s, t, p, r, q.job, false, true) && IsRemoval(q, r, q.job, false, true))
  {
    hide NextDedupe, NextStatus, NextPayload, NextEnqueueLock, NextClaimLock, First, AfterPhase, IsLiveJob;
  }

  lemma {:induction false} StepKeeps(s: State, p: nat, limit: nat)
    requires Good(s, limit) && Enabled(s, p, Step)
    ensures Good(StepOf(s, p, limit), limit)
  {
    var q := s.procs[p];
    var t := StepOf(s, p, limit);
    var r := Next(s, q, limit);
    StepLocks(s, p, limit);
    SetStep(s, p, limit);
    hide Good, Locks, Popped, StepOf, Next, Calm, Adds, Pops, Activates, Removes, IsRemoval, Moves, SameSets, HoldsEnqueueLock;
    match q
    case EnqAdd(_, id, now) => AddKeeps(s, t, p, id, now, limit);
    case ClaimRemove(job, now) => PopKeeps(s, t, p, job, now, limit);
    case ClaimPut(job, now) => ActivateKeeps(s, t, p, job, now, limit);
    case CompleteWrite(job, _, _, _, _) => RemoveKeeps(s, t, p, r, job, true, true, limit);
    case ReapActive(job, _) => RemoveKeeps(s, t, p, r, job, true, false, limit);
    case ReapPending(job, _) => RemoveKeeps(s, t, p, r, job, false, true, limit);
    case _ =>
      NotSetStep(s, p, limit);
      CalmKeeps(s, t, p, r, limit);
  }

  lemma {:induction false} NotSetStep(s: State, p: nat, limit: nat)
    requires Locks(s) && Enabled(s, p, Step) && !IsSetStep(s.procs[p])
    ensures var t := StepOf(s, p, limit);
            var q, r := s.procs[p], Next(s, s.procs[p], limit);
            && SameSets(s, t) && Calm(q, r) && Popped(t) == Popped(s)
            && (r.EnqAdd? ==> |s.pending| < limit)
            && (r.ClaimRemove? ==> r.job in s.ready)
  {
    NextLocks(s, p, limit);
    StepLocks(s, p, limit);
    OtherNext(s, s.procs[p], limit);
    OtherSets(s, p, limit);
  }

  lemma {:induction false} ExpiryKeepsPartition(s: State, t: State)
    requires Locks(s) && Partition(s) && t == s.(status := t.status, payload := t.payload, dedupe := t.dedupe)
    ensures Locks(t) && Partition(t) && Popped(t) == Popped(s)
  {
    assert Popped(t) == Popped(s);
    assert forall j :: BetweenRemovals(t, j) <==> BetweenRemovals(s, j);
    hide Popped, BetweenRemovals, HoldsEnqueueLock, HoldsClaimLock;
  }

  lemma {:induction false} ExpiryKeeps(s: State, t: State, limit: nat)
    requires Good(s, limit) && t == s.(status := t.status, payload := t.payload, dedupe := t.dedupe)
    ensures Good(t, limit)
  {
    ExpiryKeepsPartition(s, t);
    ExpiryKeepsOwners(s, t);
    hide Locks, Partition, Owners, Unused, NoRepeat, Apart;
  }

  lemma {:induction false} ExpiryKeepsOwners(s: State, t: State)
    requires Owners(s) && Unused(s) && Popped(t) == Popped(s)
    requires t == s.(status := t.status, payload := t.payload, dedupe := t.dedupe)
    ensures Owners(t) && Unused(t)
  {
    hide Popped, InHand, Carried;
  }

  /** Starting, giving up and reporting take no lock. */
  lemma {:induction false} StartLocks(s: State, p: nat, a: Action, limit: nat)
    requires Locks(s) && Enabled(s, p, a)
    requires !a.Step? && !a.ExpireStatus? && !a.ExpirePayload? && !a.ExpireDedupe?
    ensures Locks(Do(s, p, a, limit)) && Popped(Do(s, p, a, limit)) == Popped(s)
  {
    var r := Do(s, p, a, limit).procs[p];
    assert !HoldsEnqueueLock(s.procs[p]) && !HoldsClaimLock(s.procs[p]) && !HoldsEnqueueLock(r) && !HoldsClaimLock(r);
    LocksKeep(s, To(s, p, r), p, r);
  }

  /** The other starts are calm, and the reaper starts with active jobs. */
  lemma {:induction false} StartFacts(s: State, p: nat, a: Action, limit: nat)
    requires Enabled(s, p, a)
    requires !a.Step? && !a.ExpireStatus? && !a.ExpirePayload? && !a.ExpireDedupe? && !a.Submit?
    ensures var t := Do(s, p, a, limit);
            var r := t.procs[p];
            && Moves(s, t, p, r) && SameSets(s, t)
            && (a.StartReap? ==> r.Reaping? && (forall j | j in r.todo :: j in s.active) && s.procs[p].Idle?)
            && (!a.StartReap? ==> Calm(s.procs[p], r) && !r.EnqAdd? && !r.ClaimRemove?)
  {
  }

  lemma {:induction false} StartKeeps(s: State, p: nat, a: Action, limit: nat)
    requires Good(s, limit) && Enabled(s, p, a)
    requires !a.Step? && !a.ExpireStatus? && !a.ExpirePayload? && !a.ExpireDedupe?
    ensures Good(Do(s, p, a, limit), limit)
  {
    var t := Do(s, p, a, limit);
    var r := t.procs[p];
    StartLocks(s, p, a, limit);
    if a.Submit? {
      hide Good, Locks, Popped;
      SubmitKeeps(s, t, p, a.fp, a.id, a.now, limit);
    } else {
      StartFacts(s, p, a, limit);
      hide Good, Locks, Popped, Enabled, Do, Moves, SameSets, Calm;
      if a.StartReap? {
        StartReapKeeps(s, t, p, r.todo, limit);
      } else {
        CalmKeeps(s, t, p, r, limit);
      }
    }
  }

  lemma {:induction false} DoKeeps(s: State, p: nat, a: Action, limit: nat)
    requires Good(s, limit) && Enabled(s, p, a)
    ensures Good(Do(s, p, a, limit), limit)
  {
    hide Good, Enabled;
    match a
    case Step => StepKeeps(s, p, limit);
    case ExpireStatus(_) => ExpiryKeeps(s, Do(s, p, a, limit), limit);
    case ExpirePayload(_) => ExpiryKeeps(s, Do(s, p, a, limit), limit);
    case ExpireDedupe(_) => ExpiryKeeps(s, Do(s, p, a, limit), limit);
    case _ => StartKeeps(s, p, a, limit);
  }

  lemma {:induction false} InitGood(s: State, limit: nat)
    requires IsInit(s)
    ensures Good(s, limit)
  {
  }

  lemma {:induction false} RunIsGood(run: seq<State>, who: seq<nat>, acts: seq<Action>, limit: nat, i: nat)
    requires IsRun(run, who, acts, limit) && i < |run|
    ensures Good(run[i], limit)
  {
    hide Good, Do, Enabled, IsInit;
    if i == 0 {
      InitGood(run[0], limit);
    } else {
      RunIsGood(run, who, acts, limit, i - 1);
      assert run[i] == Do(run[i - 1], who[i - 1], acts[i - 1], limit);
      DoKeeps(run[i - 1], who[i - 1], acts[i - 1], limit);
    }
  }

  // ----- what holds in every state of every run -----

  ghost function BetweenJobs(s: State): set<JobId> {
    set j | j in s.pending && BetweenRemovals(s, j)
  }

  ghost function PoppedJobs(s: State): set<JobId> {
    if Popped(s).Some? then {Popped(s).value} else {}
  }

  /**
   * In every interleaving, pending is the disjoint union of ready, active, the job a claimer holds between its two
   * commands, and the pending jobs between a reaper's two removals; it never exceeds the limit; and no job is claimed twice.
   */
  lemma {:induction false} QueueSafety(run: seq<State>, who: seq<nat>, acts: seq<Action>, limit: nat, i: nat)
    requires IsRun(run, who, acts, limit) && i < |run|
    ensures var s := run[i];
            && s.pending == s.ready.Keys + s.active.Keys + PoppedJobs(s) + BetweenJobs(s)
            && s.ready.Keys !! s.active.Keys !! PoppedJobs(s) !! BetweenJobs(s)
            && |s.pending| <= limit
            && NoRepeat(s.claimed)
            && (forall j | j in s.claimed :: j !in s.ready)
  {
    RunIsGood(run, who, acts, limit, i);
    var s := run[i];
    forall q, j | 0 <= q < |s.procs| && RemovesNext(s.procs[q], j) ensures j !in s.ready && Popped(s) != Some(j) {
      assert j in InHand(s.procs[q]);
    }
    forall j | BetweenRemovals(s, j) ensures j !in s.ready && Popped(s) != Some(j) {
      var q :| 0 <= q < |s.procs| && RemovesNext(s.procs[q], j);
    }
    hide Popped, BetweenRemovals, InHand, Carried, Locks, Owners, Unused, AllApart;
  }
}
