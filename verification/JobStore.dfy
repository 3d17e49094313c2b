/** app/jobs.py: the store of asynchronous query jobs, one call at a time. */
module JobStore {
  import opened PyText

  /** Identifiers and fingerprints are hexadecimal texts of fixed length; the number they spell orders them alike. */
  type JobId = nat
  type Fingerprint = nat

  datatype Phase = InQueue | Dispatching | Querying | Analyzing | GeneratingPdf | Done

  datatype JobState = Queued | Running | Succeeded | Failed

  /** The status document of a job; its time stamps and its result are not part of this model. */
  datatype Status = Status(state: JobState, phase: Phase, completed: seq<Phase>)

  predicate IsLive(state: JobState) {
    state == Queued || state == Running
  }

  /** Three sorted sets with their scores and three key families. */
  datatype Store = Store(
    ready: map<JobId, int>,
    active: map<JobId, int>,
    pending: map<JobId, int>,
    dedupe: map<Fingerprint, JobId>,
    status: map<JobId, Status>,
    payload: map<JobId, Fingerprint>)

  const EMPTY: Store := Store(map[], map[], map[], map[], map[], map[])

  // ----- sorted sets -----

  /** Members are ordered by score, and by name among equal scores. */
  predicate Precedes(z: map<JobId, int>, a: JobId, b: JobId)
    requires a in z && b in z
  {
    z[a] < z[b] || (z[a] == z[b] && a < b)
  }

  /** `zrank`: the number of members before `id`. */
  function Rank(z: map<JobId, int>, id: JobId): nat
    requires id in z
  {
    |set j | j in z && Precedes(z, j, id)|
  }

  ghost predicate IsFirst(z: map<JobId, int>, id: JobId) {
    id in z && forall j | j in z && j != id :: Precedes(z, id, j)
  }

  lemma {:induction false} SomeKey(z: map<JobId, int>) returns (id: JobId)
    requires z != map[]
    ensures id in z
  {
    assert |z| != 0;
    id := Element(z.Keys);
  }

  lemma {:induction false} FirstExists(z: map<JobId, int>)
    requires z != map[]
    ensures exists id :: IsFirst(z, id)
  {
    var id := SomeKey(z);
    var rest := z - {id};
    if rest == map[] {
      assert forall j | j in z :: j == id || j in rest;
      assert IsFirst(z, id);
    } else {
      FirstExists(rest);
      var m :| IsFirst(rest, m);
      var first := if Precedes(z, id, m) then id else m;
      forall j | j in z && j != first ensures Precedes(z, first, j) {
        assert j == id || j in rest;
        if first == id && j != m {
          assert Precedes(rest, m, j);
        }
      }
      assert IsFirst(z, first);
    }
  }

  lemma {:induction false} FirstIsUnique(z: map<JobId, int>, a: JobId, b: JobId)
    requires IsFirst(z, a) && IsFirst(z, b)
    ensures a == b
  {
  }

  /** `zrange(key, 0, 0)`. */
  ghost function First(z: map<JobId, int>): Option<JobId> {
    if z == map[] then None
    else
      FirstExists(z);
      var id :| IsFirst(z, id);
      Some(id)
  }

  // ----- what each call does -----

  /** `enqueue` when it adds a job. */
  function Added(s: Store, fp: Fingerprint, id: JobId, now: int): Store {
    s.(ready := s.ready[id := now], pending := s.pending[id := now], dedupe := s.dedupe[fp := id],
       status := s.status[id := Status(Queued, InQueue, [])], payload := s.payload[id := fp])
  }

  predicate IsDuplicate(s: Store, fp: Fingerprint) {
    fp in s.dedupe && s.dedupe[fp] in s.status && IsLive(s.status[s.dedupe[fp]].state)
  }

  datatype Enqueued = Deduplicated(id: JobId, position: nat) | Fresh(id: JobId, position: nat) | QueueFull(limit: int)

  /** `enqueue`: a stale dedupe entry is dropped even if the queue then turns out to be full. */
  function Enqueue(s: Store, fp: Fingerprint, id: JobId, now: int, limit: int): (Store, Enqueued) {
    if IsDuplicate(s, fp) then
      var existing := s.dedupe[fp];
      (s, Deduplicated(existing, if existing in s.ready then Rank(s.ready, existing) else 0))
    else
      var clean := s.(dedupe := s.dedupe - {fp});
      if |s.pending| >= limit then (clean, QueueFull(limit))
      else
        var added := Added(clean, fp, id, now);
        (added, Fresh(id, Rank(added.ready, id) + 1))
  }

  function FailedStatus(before: Option<Status>): Status {
    match before
    case None => Status(Failed, InQueue, [])
    case Some(st) => st.(state := Failed)
  }

  function SucceededStatus(before: Option<Status>): Status {
    match before
    case None => Status(Succeeded, Done, [InQueue])
    case Some(st) =>
      Status(Succeeded, Done, if st.phase in st.completed then st.completed else st.completed + [st.phase])
  }

  function StatusOf(s: Store, id: JobId): Option<Status> {
    if id in s.status then Some(s.status[id]) else None
  }

  /** `complete` and `fail`. */
  function Complete(s: Store, id: JobId, success: bool): Store {
    s.(status := s.status[id := if success then SucceededStatus(StatusOf(s, id)) else FailedStatus(StatusOf(s, id))],
       dedupe := if id in s.payload then s.dedupe - {s.payload[id]} else s.dedupe,
       active := s.active - {id}, pending := s.pending - {id}, payload := s.payload - {id})
  }

  /** `claim`: the first ready job becomes active; one without a payload fails at once. */
  ghost function Claim(s: Store, now: int): (Store, Option<JobId>) {
    match First(s.ready)
    case None => (s, None)
    case Some(id) =>
      var taken := s.(ready := s.ready - {id}, active := s.active[id := now]);
      if id in s.payload then (taken, Some(id)) else (Complete(taken, id, false), None)
  }

  function MarkRunning(s: Store, id: JobId): (Store, bool) {
    if id in s.status && s.status[id].state == Queued
    then (s.(status := s.status[id := s.status[id].(state := Running)]), true) else (s, false)
  }

  function AtPhase(st: Status, phase: Phase): Status {
    if st.phase == phase then st
    else st.(phase := phase, completed := if st.phase in st.completed then st.completed else st.completed + [st.phase])
  }

  function MarkPhase(s: Store, id: JobId, phase: Phase): (Store, bool) {
    if id in s.status && IsLive(s.status[id].state)
    then (s.(status := s.status[id := AtPhase(s.status[id], phase)]), true) else (s, false)
  }

  /** The jobs `reap_stale` looks at. */
  function Stale(s: Store, deadline: int): set<JobId> {
    set j | j in s.active && 0 <= s.active[j] <= deadline
  }

  function LiveAmong(s: Store, ids: set<JobId>): set<JobId> {
    set j | j in ids && j in s.status && IsLive(s.status[j].state)
  }

  function FingerprintsOf(s: Store, ids: set<JobId>): set<Fingerprint> {
    set j | j in ids && j in s.payload :: s.payload[j]
  }

  /** What `reap_stale` does to the jobs of `ids`: live ones fail, the others only leave the active and pending sets. */
  function Reap(s: Store, ids: set<JobId>): Store {
    var live := LiveAmong(s, ids);
    s.(active := s.active - ids, pending := s.pending - ids, payload := s.payload - live,
       dedupe := s.dedupe - FingerprintsOf(s, live),
       status := s.status + map j | j in live :: FailedStatus(StatusOf(s, j)))
  }

  /** The body of its loop. */
  function ReapOne(s: Store, id: JobId): Store {
    if id in s.status && IsLive(s.status[id].state) then Complete(s, id, false)
    else s.(active := s.active - {id}, pending := s.pending - {id})
  }

  // ----- the invariant -----

  predicate NoRepeats(phases: seq<Phase>) {
    forall i, j | 0 <= i < j < |phases| :: phases[i] != phases[j]
  }

  /** dedupe and payload are inverse to each other. */
  ghost predicate DedupeMatches(s: Store) {
    && (forall fp | fp in s.dedupe :: s.dedupe[fp] in s.payload && s.payload[s.dedupe[fp]] == fp)
    && (forall id | id in s.payload :: s.payload[id] in s.dedupe && s.dedupe[s.payload[id]] == id)
  }

  /** Exactly the live jobs have a payload. */
  ghost predicate PayloadMatches(s: Store) {
    forall id :: id in s.payload <==> id in s.status && IsLive(s.status[id].state)
  }

  /** Exactly the live jobs are pending, each either ready and not yet running, or active. */
  ghost predicate PendingMatches(s: Store) {
    && s.pending.Keys == s.payload.Keys
    && s.pending.Keys == s.ready.Keys + s.active.Keys
    && s.ready.Keys !! s.active.Keys
    && (forall id | id in s.ready :: id in s.status && s.status[id].state == Queued)
  }

  ghost predicate Inv(s: Store) {
    DedupeMatches(s) && PayloadMatches(s) && PendingMatches(s)
  }

  /** `dedupe[fp] == id` says exactly that `id` is a live job with fingerprint `fp`, so a fingerprint has at most one. */
  lemma {:induction false} DedupeNamesTheLiveJob(s: Store, fp: Fingerprint, id: JobId, other: JobId)
    requires Inv(s)
    ensures (fp in s.dedupe && s.dedupe[fp] == id) <==> (id in s.payload && s.payload[id] == fp)
    ensures id in s.payload ==> IsLive(s.status[id].state)
    ensures id in s.payload && other in s.payload && s.payload[id] == s.payload[other] ==> id == other
  {
  }

  /** The phases a job has completed are listed once each. */
  ghost predicate PhasesInv(s: Store) {
    forall id | id in s.status :: NoRepeats(s.status[id].completed)
  }

  /** No call turns a finished job into a live one. */
  ghost predicate KeepsFinished(s: Store, t: Store) {
    forall id | id in s.status && !IsLive(s.status[id].state) :: id in t.status && !IsLive(t.status[id].state)
  }

  lemma {:induction false} NotStored(s: Store, id: JobId)
    requires Inv(s) && id !in s.status
    ensures id !in s.payload && id !in s.pending && id !in s.ready && id !in s.active
  {
  }

  lemma {:induction false} AddedDedupe(s: Store, fp: Fingerprint, id: JobId, now: int)
    requires DedupeMatches(s) && id !in s.payload && fp !in s.dedupe
    ensures DedupeMatches(Added(s, fp, id, now))
  {
  }

  lemma {:induction false} AddedPending(s: Store, fp: Fingerprint, id: JobId, now: int)
    requires PendingMatches(s) && id !in s.pending && id !in s.ready && id !in s.active
    ensures PendingMatches(Added(s, fp, id, now))
  {
  }

  lemma {:induction false} AddedGrows(s: Store, fp: Fingerprint, id: JobId, now: int)
    requires id !in s.pending
    ensures |Added(s, fp, id, now).pending| == |s.pending| + 1
  {
  }

  lemma {:induction false} AddedPayload(s: Store, fp: Fingerprint, id: JobId, now: int)
    requires PayloadMatches(s) && id !in s.status
    ensures PayloadMatches(Added(s, fp, id, now)) && KeepsFinished(s, Added(s, fp, id, now))
  {
  }

  lemma {:induction false} AddedKeeps(s: Store, fp: Fingerprint, id: JobId, now: int)
    requires Inv(s) && id !in s.status && fp !in s.dedupe
    ensures Inv(Added(s, fp, id, now)) && KeepsFinished(s, Added(s, fp, id, now))
    ensures |Added(s, fp, id, now).pending| == |s.pending| + 1
  {
    NotStored(s, id);
    AddedDedupe(s, fp, id, now);
    AddedPending(s, fp, id, now);
    AddedPayload(s, fp, id, now);
    AddedGrows(s, fp, id, now);
    hide DedupeMatches, PendingMatches, PayloadMatches, KeepsFinished, Added;
  }

  /** While the invariant holds, the stale branch of `enqueue` is never taken: a dedupe entry always names a live job. */
  lemma {:induction false} EnqueueIs(s: Store, fp: Fingerprint, id: JobId, now: int, limit: int)
    requires Inv(s)
    ensures IsDuplicate(s, fp) <==> fp in s.dedupe
    ensures Enqueue(s, fp, id, now, limit).0 ==
            if fp in s.dedupe || |s.pending| >= limit then s else Added(s, fp, id, now)
  {
    hide Added, Rank, PendingMatches;
    if fp in s.dedupe {
      assert s.dedupe[fp] in s.payload;
    } else {
      assert s.dedupe - {fp} == s.dedupe;
    }
  }

  /** A rank is a place in line: nobody shares it, and whoever precedes has a smaller one. */
  lemma {:induction false} RanksAreOrdered(z: map<JobId, int>, a: JobId, b: JobId)
    requires a in z && b in z && Precedes(z, a, b)
    ensures Rank(z, a) < Rank(z, b) < |z|
  {
    var before := set j | j in z && Precedes(z, j, a);
    var upTo := set j | j in z && Precedes(z, j, b);
    assert a in upTo && a !in before && b !in upTo;
    SubsetSize(before, upTo);
    SubsetSize(upTo, z.Keys);
    assert |z.Keys| == |z|;
  }

  /** Who comes last in line has everybody before him. */
  lemma {:induction false} LastRank(z: map<JobId, int>, id: JobId)
    requires id in z && forall j | j in z && j != id :: Precedes(z, j, id)
    ensures Rank(z, id) == |z| - 1
  {
    assert (set j | j in z && Precedes(z, j, id)) == z.Keys - {id};
    assert |z.Keys| == |z|;
  }

  /**
   * The reply: a submission whose fingerprint a live job has gets the identifier of that job and its place in line, or zero once
   * it is claimed; one more than the queue takes is told the limit; and a new job gets its place counted from one, which is the
   * last one when no waiting job is from later.
   */
  lemma {:induction false} ReplyIs(s: Store, fp: Fingerprint, id: JobId, now: int, limit: int)
    requires Inv(s) && id !in s.status
    ensures var (t, reply) := Enqueue(s, fp, id, now, limit);
            match reply
            case Deduplicated(existing, position) =>
              && existing in s.payload && s.payload[existing] == fp && IsLive(s.status[existing].state)
              && position == (if existing in s.ready then Rank(s.ready, existing) else 0)
            case QueueFull(n) => n == limit && |s.pending| >= limit && forall j | j in s.payload :: s.payload[j] != fp
            case Fresh(own, position) =>
              && own == id && |s.pending| < limit && (forall j | j in s.payload :: s.payload[j] != fp)
              && id in t.ready && 1 <= position == Rank(t.ready, id) + 1 <= |s.ready| + 1
              && ((forall j | j in s.ready :: s.ready[j] < now) ==> position == |s.ready| + 1)
  {
    EnqueueIs(s, fp, id, now, limit);
    NotStored(s, id);
    NoJobOf(s, fp);
    if fp !in s.dedupe {
      PlaceInLine(s.ready, id, now);
    }
    hide Rank, Inv, Precedes;
  }

  lemma {:induction false} NoJobOf(s: Store, fp: Fingerprint)
    requires Inv(s)
    ensures fp in s.dedupe ==>
              var existing := s.dedupe[fp]; existing in s.payload && s.payload[existing] == fp && IsLive(s.status[existing].state)
    ensures fp !in s.dedupe ==> forall j | j in s.payload :: s.payload[j] != fp
  {
    hide PendingMatches;
  }

  lemma {:induction false} PlaceInLine(ready: map<JobId, int>, id: JobId, now: int)
    requires id !in ready
    ensures var after := ready[id := now];
            && Rank(after, id) <= |ready|
            && ((forall j | j in ready :: ready[j] < now) ==> Rank(after, id) == |ready|)
  {
    var after := ready[id := now];
    assert |after| == |ready| + 1 by {
      assert after.Keys == ready.Keys + {id};
    }
    RankIsBounded(after, id);
    if forall j | j in ready :: ready[j] < now {
      LastRank(after, id);
    }
  }

  lemma {:induction false} RankIsBounded(z: map<JobId, int>, id: JobId)
    requires id in z
    ensures Rank(z, id) < |z|
  {
    SubsetSize((set j | j in z && Precedes(z, j, id)), z.Keys - {id});
    assert |z.Keys| == |z|;
  }

  lemma {:induction false} EnqueueKeeps(s: Store, fp: Fingerprint, id: JobId, now: int, limit: int)
    requires Inv(s) && id !in s.status
    ensures Inv(Enqueue(s, fp, id, now, limit).0) && KeepsFinished(s, Enqueue(s, fp, id, now, limit).0)
    ensures |s.pending| <= limit ==> |Enqueue(s, fp, id, now, limit).0.pending| <= limit
  {
    EnqueueIs(s, fp, id, now, limit);
    if fp !in s.dedupe {
      AddedKeeps(s, fp, id, now);
    }
    hide Enqueue, Added, Inv;
  }

  lemma {:induction false} CompleteDedupe(s: Store, id: JobId, success: bool)
    requires Inv(s)
    ensures DedupeMatches(Complete(s, id, success))
  {
    hide PendingMatches, PayloadMatches, SucceededStatus, FailedStatus;
    var t := Complete(s, id, success);
    forall fp | fp in t.dedupe ensures t.dedupe[fp] in t.payload && t.payload[t.dedupe[fp]] == fp {
      assert t.dedupe[fp] == s.dedupe[fp];
    }
  }

  lemma {:induction false} CompletePending(s: Store, id: JobId, success: bool)
    requires PendingMatches(s) && id !in s.ready
    ensures PendingMatches(Complete(s, id, success))
  {
    hide SucceededStatus, FailedStatus;
    var t := Complete(s, id, success);
    assert t.pending.Keys == s.pending.Keys - {id} && t.payload.Keys == s.payload.Keys - {id};
    assert t.active.Keys == s.active.Keys - {id};
  }

  lemma {:induction false} CompletePayload(s: Store, id: JobId, success: bool)
    requires PayloadMatches(s)
    ensures PayloadMatches(Complete(s, id, success)) && KeepsFinished(s, Complete(s, id, success))
  {
  }

  lemma {:induction false} CompleteKeeps(s: Store, id: JobId, success: bool)
    requires Inv(s) && id !in s.ready
    ensures Inv(Complete(s, id, success)) && KeepsFinished(s, Complete(s, id, success))
    ensures |Complete(s, id, success).pending| <= |s.pending|
  {
    CompleteDedupe(s, id, success);
    CompletePending(s, id, success);
    CompletePayload(s, id, success);
    hide DedupeMatches, PendingMatches, PayloadMatches, KeepsFinished;
    SubsetSize(Complete(s, id, success).pending.Keys, s.pending.Keys);
  }

  /** Completing a job that is no longer live changes only its own status: the entry of a newer job with the same fingerprint stays. */
  lemma {:induction false} LateCompletionIsHarmless(s: Store, id: JobId, success: bool)
    requires Inv(s) && id in s.status && !IsLive(s.status[id].state)
    ensures Complete(s, id, success) == s.(status := Complete(s, id, success).status)
    ensures Complete(s, id, success).status - {id} == s.status - {id}
  {
    assert id !in s.payload && id !in s.pending && id !in s.active;
  }

  lemma {:induction false} ClaimKeeps(s: Store, now: int)
    requires Inv(s)
    ensures Inv(Claim(s, now).0) && KeepsFinished(s, Claim(s, now).0) && Claim(s, now).0.pending == s.pending
    ensures Claim(s, now).1.None? <==> s.ready == map[]
    ensures Claim(s, now).1.Some? ==> IsFirst(s.ready, Claim(s, now).1.value)
  {
    if s.ready != map[] {
      FirstExists(s.ready);
      var id := First(s.ready).value;
      assert IsFirst(s.ready, id);
      assert id in s.payload;
    }
  }

  lemma {:induction false} MarkRunningKeeps(s: Store, id: JobId)
    requires Inv(s) && id !in s.ready
    ensures Inv(MarkRunning(s, id).0) && KeepsFinished(s, MarkRunning(s, id).0)
    ensures MarkRunning(s, id).0.pending == s.pending
  {
  }

  lemma {:induction false} AtPhaseKeepsState(s: Store, id: JobId, phase: Phase)
    ensures id in s.status ==> AtPhase(s.status[id], phase).state == s.status[id].state
  {
  }

  lemma {:induction false} SameStatesKeep(s: Store, status: map<JobId, Status>)
    requires Inv(s) && status.Keys == s.status.Keys
    requires forall id | id in status :: status[id].state == s.status[id].state
    ensures Inv(s.(status := status)) && KeepsFinished(s, s.(status := status))
  {
  }

  lemma {:induction false} MarkPhaseKeeps(s: Store, id: JobId, phase: Phase)
    requires Inv(s)
    ensures Inv(MarkPhase(s, id, phase).0) && KeepsFinished(s, MarkPhase(s, id, phase).0)
    ensures MarkPhase(s, id, phase).0.pending == s.pending
  {
    hide AtPhase, Inv, KeepsFinished;
    AtPhaseKeepsState(s, id, phase);
    SameStatesKeep(s, s.status);
    assert s.(status := s.status) == s;
    if id in s.status {
      SameStatesKeep(s, s.status[id := AtPhase(s.status[id], phase)]);
    }
  }

  /** While the invariant holds, every active job is live, so the reaper fails every job it looks at. */
  lemma {:induction false} ActiveIsLive(s: Store, ids: set<JobId>)
    requires Inv(s) && ids <= s.active.Keys
    ensures LiveAmong(s, ids) == ids && ids <= s.payload.Keys
  {
  }

  lemma {:induction false} ReapDedupe(s: Store, ids: set<JobId>)
    requires DedupeMatches(s) && LiveAmong(s, ids) == ids
    ensures DedupeMatches(Reap(s, ids))
  {
  }

  lemma {:induction false} ReapPending(s: Store, ids: set<JobId>)
    requires PendingMatches(s) && ids <= s.active.Keys && LiveAmong(s, ids) == ids
    ensures PendingMatches(Reap(s, ids))
  {
  }

  lemma {:induction false} ReapPayload(s: Store, ids: set<JobId>)
    requires PayloadMatches(s)
    ensures PayloadMatches(Reap(s, ids)) && KeepsFinished(s, Reap(s, ids))
  {
  }

  lemma {:induction false} ReapShrinks(s: Store, ids: set<JobId>)
    ensures |Reap(s, ids).pending| <= |s.pending|
  {
  }

  lemma {:induction false} ReapKeeps(s: Store, ids: set<JobId>)
    requires Inv(s) && ids <= s.active.Keys
    ensures Inv(Reap(s, ids)) && KeepsFinished(s, Reap(s, ids))
    ensures |Reap(s, ids).pending| <= |s.pending|
  {
    ActiveIsLive(s, ids);
    ReapDedupe(s, ids);
    ReapPending(s, ids);
    ReapPayload(s, ids);
    ReapShrinks(s, ids);
    hide DedupeMatches, PendingMatches, PayloadMatches, KeepsFinished, Reap;
  }

  lemma {:induction false} ReapOneDedupe(s: Store, ids: set<JobId>, id: JobId)
    requires id in s.payload && id !in ids
    ensures FingerprintsOf(s, ids + {id}) == FingerprintsOf(s, ids) + {s.payload[id]}
  {
  }

  lemma {:induction false} ReapOneStatus(s: Store, ids: set<JobId>, id: JobId)
    requires id !in ids && LiveAmong(s, ids + {id}) == LiveAmong(s, ids) + {id}
    ensures Reap(s, ids).status[id := FailedStatus(StatusOf(Reap(s, ids), id))] == Reap(s, ids + {id}).status
  {
  }

  lemma {:induction false} ReapOneSets(s: Store, ids: set<JobId>, id: JobId)
    requires id !in ids && LiveAmong(s, ids + {id}) == LiveAmong(s, ids) + {id}
    ensures var m, n := Reap(s, ids), Reap(s, ids + {id});
            && m.active - {id} == n.active && m.pending - {id} == n.pending && m.payload - {id} == n.payload
            && m.ready == n.ready
  {
    hide FailedStatus, StatusOf, LiveAmong, FingerprintsOf;
    var live := LiveAmong(s, ids);
    assert s.active - ids - {id} == s.active - (ids + {id});
    assert s.pending - ids - {id} == s.pending - (ids + {id});
    assert s.payload - live - {id} == s.payload - (live + {id});
  }

  lemma {:induction false} ReapOneFingerprint(s: Store, ids: set<JobId>, id: JobId)
    requires id !in ids && LiveAmong(s, ids + {id}) == LiveAmong(s, ids) + {id}
    ensures id in Reap(s, ids).payload <==> id in s.payload
    ensures id in s.payload ==> Reap(s, ids).payload[id] == s.payload[id]
    ensures Reap(s, ids + {id}).dedupe ==
            if id in s.payload then Reap(s, ids).dedupe - {s.payload[id]} else Reap(s, ids).dedupe
  {
    assert id !in LiveAmong(s, ids);
    hide FailedStatus, StatusOf, LiveAmong;
    var live := LiveAmong(s, ids);
    if id in s.payload {
      ReapOneDedupe(s, live, id);
      hide FingerprintsOf;
      var fps := FingerprintsOf(s, live);
      assert s.dedupe - fps - {s.payload[id]} == s.dedupe - (fps + {s.payload[id]});
    } else {
      assert FingerprintsOf(s, live + {id}) == FingerprintsOf(s, live);
    }
  }

  lemma {:induction false} ReapOneLive(s: Store, ids: set<JobId>, id: JobId)
    requires id !in ids && LiveAmong(s, ids + {id}) == LiveAmong(s, ids) + {id}
    ensures Complete(Reap(s, ids), id, false) == Reap(s, ids + {id})
  {
    hide Reap, FailedStatus, StatusOf, LiveAmong;
    ReapOneStatus(s, ids, id);
    ReapOneSets(s, ids, id);
    ReapOneFingerprint(s, ids, id);
  }

  /** The loop of `reap_stale` treats the stale jobs one by one, in any order. */
  lemma {:induction false} ReapOneMore(s: Store, ids: set<JobId>, id: JobId)
    requires id !in ids
    ensures ReapOne(Reap(s, ids), id) == Reap(s, ids + {id})
  {
    var m := Reap(s, ids);
    assert id !in LiveAmong(s, ids);
    assert id in m.status <==> id in s.status;
    assert id in s.status ==> m.status[id] == s.status[id];
    if id in s.status && IsLive(s.status[id].state) {
      assert LiveAmong(s, ids + {id}) == LiveAmong(s, ids) + {id};
      ReapOneLive(s, ids, id);
    } else {
      assert LiveAmong(s, ids + {id}) == LiveAmong(s, ids);
      hide FailedStatus, StatusOf, LiveAmong, FingerprintsOf;
      assert m.active - {id} == s.active - (ids + {id});
      assert m.pending - {id} == s.pending - (ids + {id});
    }
  }

  lemma {:induction false} ReapNone(s: Store)
    ensures Reap(s, {}) == s
  {
  }

  // ----- runs of calls -----

  datatype Call =
    | EnqueueCall(fp: Fingerprint, id: JobId, now: int)
    | ClaimCall(now: int)
    | MarkRunningCall(id: JobId)
    | MarkPhaseCall(id: JobId, phase: Phase)
    | CompleteCall(id: JobId, success: bool)
    | ReapCall(deadline: int)

  /** New jobs get identifiers never used before; a job is run and completed only after it has left the ready set. */
  predicate IsAllowed(s: Store, c: Call) {
    match c
    case EnqueueCall(_, id, _) => id !in s.status
    case MarkRunningCall(id) => id !in s.ready
    case CompleteCall(id, _) => id !in s.ready
    case _ => true
  }

  ghost function Perform(s: Store, c: Call, limit: int): Store {
    match c
    case EnqueueCall(fp, id, now) => Enqueue(s, fp, id, now, limit).0
    case ClaimCall(now) => Claim(s, now).0
    case MarkRunningCall(id) => MarkRunning(s, id).0
    case MarkPhaseCall(id, phase) => MarkPhase(s, id, phase).0
    case CompleteCall(id, success) => Complete(s, id, success)
    case ReapCall(deadline) => Reap(s, Stale(s, deadline))
  }

  /** A run from the empty store; `run[i + 1]` is what call `i` makes of `run[i]`. */
  ghost predicate IsRun(run: seq<Store>, calls: seq<Call>, limit: int) {
    && |run| == |calls| + 1 && run[0] == EMPTY
    && forall i | 0 <= i < |calls| :: IsAllowed(run[i], calls[i]) && run[i + 1] == Perform(run[i], calls[i], limit)
  }

  lemma {:induction false} PerformKeeps(s: Store, c: Call, limit: int)
    requires Inv(s) && IsAllowed(s, c) && |s.pending| <= limit
    ensures Inv(Perform(s, c, limit)) && KeepsFinished(s, Perform(s, c, limit))
    ensures |Perform(s, c, limit).pending| <= limit
  {
    hide Inv, KeepsFinished, Enqueue, Claim, MarkRunning, MarkPhase, Complete, Reap;
    match c
    case EnqueueCall(fp, id, now) => EnqueueKeeps(s, fp, id, now, limit);
    case ClaimCall(now) => ClaimKeeps(s, now);
    case MarkRunningCall(id) => MarkRunningKeeps(s, id);
    case MarkPhaseCall(id, phase) => MarkPhaseKeeps(s, id, phase);
    case CompleteCall(id, success) => CompleteKeeps(s, id, success);
    case ReapCall(deadline) => ReapKeeps(s, Stale(s, deadline));
  }

  lemma {:induction false} CompletePhases(s: Store, id: JobId, success: bool)
    requires PhasesInv(s)
    ensures PhasesInv(Complete(s, id, success))
  {
  }

  lemma {:induction false} ReapPhases(s: Store, ids: set<JobId>)
    requires PhasesInv(s)
    ensures PhasesInv(Reap(s, ids))
  {
  }

  lemma {:induction false} MarkPhases(s: Store, id: JobId, phase: Phase)
    requires PhasesInv(s)
    ensures PhasesInv(MarkPhase(s, id, phase).0) && PhasesInv(MarkRunning(s, id).0)
  {
  }

  lemma {:induction false} EnqueuePhases(s: Store, fp: Fingerprint, id: JobId, now: int, limit: int)
    requires PhasesInv(s)
    ensures PhasesInv(Enqueue(s, fp, id, now, limit).0)
  {
    hide Rank, IsDuplicate;
  }

  lemma {:induction false} ClaimPhases(s: Store, now: int)
    requires PhasesInv(s)
    ensures PhasesInv(Claim(s, now).0)
  {
    hide Complete;
    if First(s.ready).Some? {
      var id := First(s.ready).value;
      CompletePhases(s.(ready := s.ready - {id}, active := s.active[id := now]), id, false);
    }
  }

  /** No call lists a phase twice among the phases a job has completed. */
  lemma {:induction false} PerformKeepsPhases(s: Store, c: Call, limit: int)
    requires PhasesInv(s)
    ensures PhasesInv(Perform(s, c, limit))
  {
    hide PhasesInv, Enqueue, Claim, MarkRunning, MarkPhase, Complete, Reap, Stale;
    match c
    case EnqueueCall(fp, id, now) => EnqueuePhases(s, fp, id, now, limit);
    case ClaimCall(now) => ClaimPhases(s, now);
    case MarkRunningCall(id) => MarkPhases(s, id, InQueue);
    case MarkPhaseCall(id, phase) => MarkPhases(s, id, phase);
    case CompleteCall(id, success) => CompletePhases(s, id, success);
    case ReapCall(deadline) => ReapPhases(s, Stale(s, deadline));
  }

  lemma {:induction false} EmptyInv()
    ensures Inv(EMPTY)
  {
  }

  /** In every run of calls the invariant holds, the queue limit is kept, and a job once finished stays finished. */
  lemma {:induction false} RunKeeps(run: seq<Store>, calls: seq<Call>, limit: nat, i: nat, j: nat)
    requires IsRun(run, calls, limit) && i <= j < |run|
    ensures Inv(run[j]) && |run[j].pending| <= limit
    ensures KeepsFinished(run[i], run[j])
  {
    if j == 0 {
      EmptyInv();
    } else {
      RunKeeps(run, calls, limit, if i < j then i else i - 1, j - 1);
      hide Inv, Perform;
      assert run[j] == Perform(run[j - 1], calls[j - 1], limit);
      PerformKeeps(run[j - 1], calls[j - 1], limit);
    }
  }

  // ----- what becomes of a job -----

  /** State and phase of a job. */
  datatype Standing = Standing(state: JobState, phase: Phase)

  /** What a call tells of job `id`, given what was told before: its place in the queue does not matter any more. */
  ghost function TellOne(s: Store, c: Call, limit: int, id: JobId, before: Option<Standing>): Option<Standing> {
    match c
    case EnqueueCall(fp, j, now) =>
      if j == id && Enqueue(s, fp, id, now, limit).1.Fresh? then Some(Standing(Queued, InQueue)) else before
    case ClaimCall(_) =>
      if First(s.ready) == Some(id) && id !in s.payload then Fails(before) else before
    case MarkRunningCall(j) =>
      if j == id && before.Some? && before.value.state == Queued then Some(Standing(Running, before.value.phase)) else before
    case MarkPhaseCall(j, phase) =>
      if j == id && before.Some? && IsLive(before.value.state) then Some(Standing(before.value.state, phase)) else before
    case CompleteCall(j, success) =>
      if j != id then before else if success then Some(Standing(Succeeded, Done)) else Fails(before)
    case ReapCall(deadline) => if id in Stale(s, deadline) then Fails(before) else before
  }

  function Fails(before: Option<Standing>): Option<Standing> {
    Some(Standing(Failed, if before.Some? then before.value.phase else InQueue))
  }

  /** What the first `i` calls of a run tell of the job. */
  ghost function Told(run: seq<Store>, calls: seq<Call>, limit: int, id: JobId, i: nat): Option<Standing>
    requires i <= |calls| && i <= |run|
  {
    if i == 0 then None else TellOne(run[i - 1], calls[i - 1], limit, id, Told(run, calls, limit, id, i - 1))
  }

  function StandingOf(s: Store, id: JobId): Option<Standing> {
    if id in s.status then Some(Standing(s.status[id].state, s.status[id].phase)) else None
  }

  lemma {:induction false} EnqueueTells(s: Store, fp: Fingerprint, j: JobId, now: int, limit: int, id: JobId)
    ensures StandingOf(Enqueue(s, fp, j, now, limit).0, id)
            == TellOne(s, EnqueueCall(fp, j, now), limit, id, StandingOf(s, id))
  {
    hide Rank;
  }

  lemma {:induction false} CompleteTells(s: Store, j: JobId, success: bool, id: JobId)
    ensures StandingOf(Complete(s, j, success), id) == TellOne(s, CompleteCall(j, success), 0, id, StandingOf(s, id))
  {
  }

  lemma {:induction false} ClaimTells(s: Store, now: int, limit: int, id: JobId)
    ensures StandingOf(Claim(s, now).0, id) == TellOne(s, ClaimCall(now), limit, id, StandingOf(s, id))
  {
    if First(s.ready).Some? {
      var first := First(s.ready).value;
      var taken := s.(ready := s.ready - {first}, active := s.active[first := now]);
      CompleteTells(taken, first, false, id);
    }
    hide Complete;
  }

  lemma {:induction false} ReapTells(s: Store, deadline: int, limit: int, id: JobId)
    requires Inv(s)
    ensures StandingOf(Reap(s, Stale(s, deadline)), id) == TellOne(s, ReapCall(deadline), limit, id, StandingOf(s, id))
  {
    ActiveIsLive(s, Stale(s, deadline));
    hide Inv;
  }

  lemma {:induction false} MarksTell(s: Store, j: JobId, phase: Phase, limit: int, id: JobId)
    ensures StandingOf(MarkRunning(s, j).0, id) == TellOne(s, MarkRunningCall(j), limit, id, StandingOf(s, id))
    ensures StandingOf(MarkPhase(s, j, phase).0, id) == TellOne(s, MarkPhaseCall(j, phase), limit, id, StandingOf(s, id))
  {
  }

  lemma {:induction false} PerformTells(s: Store, c: Call, limit: int, id: JobId)
    requires Inv(s)
    ensures StandingOf(Perform(s, c, limit), id) == TellOne(s, c, limit, id, StandingOf(s, id))
  {
    match c
    case EnqueueCall(fp, j, now) => EnqueueTells(s, fp, j, now, limit, id);
    case ClaimCall(now) => ClaimTells(s, now, limit, id);
    case MarkRunningCall(j) => MarksTell(s, j, InQueue, limit, id);
    case MarkPhaseCall(j, phase) => MarksTell(s, j, phase, limit, id);
    case CompleteCall(j, success) => CompleteTells(s, j, success, id);
    case ReapCall(deadline) => ReapTells(s, deadline, limit, id);
  }

  /** In every run the stored state and phase of every job are what the calls about it have told. */
  lemma {:induction false} StatusIsTold(run: seq<Store>, calls: seq<Call>, limit: nat, id: JobId, i: nat)
    requires IsRun(run, calls, limit) && i < |run|
    ensures StandingOf(run[i], id) == Told(run, calls, limit, id, i)
  {
    hide Inv, Perform, TellOne, IsAllowed;
    if i > 0 {
      StatusIsTold(run, calls, limit, id, i - 1);
      RunKeeps(run, calls, limit, i - 1, i - 1);
      hide StandingOf;
      assert run[i] == Perform(run[i - 1], calls[i - 1], limit);
      PerformTells(run[i - 1], calls[i - 1], limit, id);
    }
  }

  /** The call ends the job: it completes it, the reaper finds it stale, or it is claimed without a payload. */
  ghost predicate Ends(s: Store, c: Call, id: JobId, success: bool) {
    || c == CompleteCall(id, success)
    || (!success && c.ReapCall? && id in Stale(s, c.deadline))
    || (!success && c.ClaimCall? && First(s.ready) == Some(id) && id !in s.payload)
  }

  /** The job's state at `i` comes from call `k`: it ended it so, and no later call has ended it otherwise. */
  ghost predicate EndedBy(run: seq<Store>, calls: seq<Call>, id: JobId, success: bool, k: nat, i: nat)
    requires |run| == |calls| + 1 && i < |run|
  {
    k < i && Ends(run[k], calls[k], id, success) && forall j | k < j < i :: !Ends(run[j], calls[j], id, !success)
  }

  lemma {:induction false} TellEnds(s: Store, c: Call, limit: int, id: JobId, success: bool)
    requires IsAllowed(s, c)
    ensures HasEnded(TellOne(s, c, limit, id, StandingOf(s, id)), success) <==>
            Ends(s, c, id, success) || (HasEnded(StandingOf(s, id), success) && !Ends(s, c, id, !success))
  {
    hide First, Stale, Enqueue;
  }

  predicate HasEnded(standing: Option<Standing>, success: bool) {
    standing.Some? && standing.value.state == if success then Succeeded else Failed
  }

  lemma {:induction false} OutcomeStep(run: seq<Store>, calls: seq<Call>, limit: nat, id: JobId, success: bool, i: nat)
    requires IsRun(run, calls, limit) && 0 < i < |run|
    ensures IsOutcome(run[i], id, success) <==>
            || Ends(run[i - 1], calls[i - 1], id, success)
            || (IsOutcome(run[i - 1], id, success) && !Ends(run[i - 1], calls[i - 1], id, !success))
  {
    RunKeeps(run, calls, limit, i - 1, i - 1);
    var s, c := run[i - 1], calls[i - 1];
    assert IsAllowed(s, c) && run[i] == Perform(s, c, limit);
    PerformTells(s, c, limit, id);
    TellEnds(s, c, limit, id, success);
    hide Perform, Inv, IsRun, TellOne, Ends;
  }

  predicate IsOutcome(s: Store, id: JobId, success: bool) {
    id in s.status && s.status[id].state == if success then Succeeded else Failed
  }

  /**
   * In every run a job is stored as succeeded if and only if a completion with success was the last call that ended it, and as
   * failed if and only if a failed completion, the reaper, or a claim without a payload was.
   */
  lemma {:induction false} OutcomeIsTheLast(run: seq<Store>, calls: seq<Call>, limit: nat, id: JobId, success: bool, i: nat)
    requires IsRun(run, calls, limit) && i < |run|
    ensures IsOutcome(run[i], id, success) <==> exists k: nat :: EndedBy(run, calls, id, success, k, i)
  {
    if i > 0 {
      OutcomeIsTheLast(run, calls, limit, id, success, i - 1);
      OutcomeStep(run, calls, limit, id, success, i);
      hide IsRun, Ends, IsOutcome;
      var m := i - 1;
      if k: nat :| EndedBy(run, calls, id, success, k, m) {
        assert !Ends(run[m], calls[m], id, !success) ==> EndedBy(run, calls, id, success, k, i);
      }
      if Ends(run[m], calls[m], id, success) {
        assert EndedBy(run, calls, id, success, m, i);
      }
      if k: nat :| EndedBy(run, calls, id, success, k, i) {
        assert k < m ==> EndedBy(run, calls, id, success, k, m);
      }
    }
  }

  /** An active job carries the time of the claim that took it, so the reaper finds it stale exactly by that time. */
  lemma {:induction false} ActiveSinceClaim(run: seq<Store>, calls: seq<Call>, limit: nat, id: JobId, i: nat) returns (k: nat)
    requires IsRun(run, calls, limit) && i < |run| && id in run[i].active
    ensures k < i && calls[k].ClaimCall? && First(run[k].ready) == Some(id) && run[i].active[id] == calls[k].now
    ensures forall deadline :: id in Stale(run[i], deadline) <==> 0 <= calls[k].now <= deadline
  {
    hide First, Enqueue, MarkRunning, MarkPhase;
    var s, c := run[i - 1], calls[i - 1];
    assert run[i] == Perform(s, c, limit);
    if c.ClaimCall? && First(s.ready) == Some(id) {
      k := i - 1;
    } else {
      ActiveStays(s, c, limit, id);
      hide Perform;
      k := ActiveSinceClaim(run, calls, limit, id, i - 1);
    }
  }

  lemma {:induction false} ActiveStays(s: Store, c: Call, limit: nat, id: JobId)
    requires id in Perform(s, c, limit).active && !(c.ClaimCall? && First(s.ready) == Some(id))
    ensures id in s.active && Perform(s, c, limit).active[id] == s.active[id]
  {
    hide First, Rank, IsDuplicate, AtPhase, FailedStatus, SucceededStatus;
  }

  /** A job that succeeds has left every phase it was in, and one that fails stays where it was. */
  lemma {:induction false} CompletedPhases(s: Store, id: JobId, success: bool)
    requires PhasesInv(s) && id in s.status
    ensures var was, now := s.status[id], Complete(s, id, success).status[id];
            && now.phase == (if success then Done else was.phase)
            && was.completed <= now.completed
            && (forall p :: p in now.completed <==> p in was.completed || (success && p == was.phase))
            && NoRepeats(now.completed)
  {
    CompletePhases(s, id, success);
  }

  /** The phase that is left by a report is completed, and no other. */
  lemma {:induction false} ReportedPhases(s: Store, id: JobId, phase: Phase)
    requires PhasesInv(s) && id in s.status && IsLive(s.status[id].state)
    ensures var was, now := s.status[id], MarkPhase(s, id, phase).0.status[id];
            && MarkPhase(s, id, phase).1 && now.phase == phase && now.state == was.state
            && was.completed <= now.completed
            && (forall p :: p in now.completed <==> p in was.completed || (p == was.phase && phase != was.phase))
            && NoRepeats(now.completed)
  {
    MarkPhases(s, id, phase);
  }

  // ----- the class -----

  /** `JobStore` over a Redis database of its own. */
  class Jobs {
    var ready: map<JobId, int>
    var active: map<JobId, int>
    var pending: map<JobId, int>
    var dedupe: map<Fingerprint, JobId>
    var status: map<JobId, Status>
    var payload: map<JobId, Fingerprint>

    function View(): Store
      reads this
    {
      Store(ready, active, pending, dedupe, status, payload)
    }

    constructor ()
      ensures View() == EMPTY && Inv(View())
    {
      ready, active, pending := map[], map[], map[];
      dedupe, status, payload := map[], map[], map[];
    }

    /** `enqueue`; `id` is the identifier drawn for a new job. */
    method EnqueueJob(fp: Fingerprint, id: JobId, now: int, limit: int) returns (r: Enqueued)
      modifies this
      ensures (View(), r) == Enqueue(old(View()), fp, id, now, limit)
    {
      if fp in dedupe {
        var existing := dedupe[fp];
        if existing in status && IsLive(status[existing].state) {
          return Deduplicated(existing, if existing in ready then Rank(ready, existing) else 0);
        }
      }
      dedupe := dedupe - {fp};
      if |pending| >= limit {
        return QueueFull(limit);
      }
      status := status[id := Status(Queued, InQueue, [])];
      dedupe := dedupe[fp := id];
      payload := payload[id := fp];
      pending := pending[id := now];
      ready := ready[id := now];
      return Fresh(id, Rank(ready, id) + 1);
    }

    /** `zrange(ready, 0, 0)`. */
    method FirstReady() returns (r: Option<JobId>)
      ensures r == First(ready)
    {
      if ready == map[] {
        return None;
      }
      FirstExists(ready);
      var id :| id in ready && forall j | j in ready && j != id :: Precedes(ready, id, j) by {
        var m :| IsFirst(ready, m);
      }
      assert IsFirst(ready, id);
      FirstIsUnique(ready, id, First(ready).value);
      return Some(id);
    }

    method ClaimJob(now: int) returns (r: Option<JobId>)
      modifies this
      ensures (View(), r) == Claim(old(View()), now)
    {
      var first := FirstReady();
      if first.None? {
        return None;
      }
      var id := first.value;
      ready := ready - {id};
      active := active[id := now];
      if id !in payload {
        CompleteJob(id, false);
        return None;
      }
      return Some(id);
    }

    method MarkJobRunning(id: JobId) returns (ok: bool)
      modifies this`status
      ensures (View(), ok) == MarkRunning(old(View()), id)
    {
      if id !in status || status[id].state != Queued {
        return false;
      }
      status := status[id := status[id].(state := Running)];
      return true;
    }

    method MarkJobPhase(id: JobId, phase: Phase) returns (ok: bool)
      modifies this`status
      ensures (View(), ok) == MarkPhase(old(View()), id, phase)
    {
      if id !in status || !IsLive(status[id].state) {
        return false;
      }
      var raw := status[id];
      if raw.phase == phase {
        assert status[id := raw] == status;
        return true;
      }
      var completed := raw.completed;
      if raw.phase !in completed {
        completed := completed + [raw.phase];
      }
      status := status[id := raw.(phase := phase, completed := completed)];
      return true;
    }

    /** `complete`, and `fail` when `success` is false. */
    method CompleteJob(id: JobId, success: bool)
      modifies this
      ensures View() == Complete(old(View()), id, success)
    {
      var raw := if id in status then status[id] else Status(Queued, InQueue, []);
      var phase := if success then Done else raw.phase;
      var completed := raw.completed;
      assert [] + [InQueue] == [InQueue];
      if success && raw.phase !in completed {
        completed := completed + [raw.phase];
      }
      status := status[id := Status(if success then Succeeded else Failed, phase, completed)];
      if id in payload {
        dedupe := dedupe - {payload[id]};
      }
      active := active - {id};
      pending := pending - {id};
      payload := payload - {id};
    }

    /** `reap_stale`. */
    method ReapStale(deadline: int) returns (count: nat)
      modifies this
      ensures View() == Reap(old(View()), Stale(old(View()), deadline))
      ensures count == |Stale(old(View()), deadline)|
    {
      hide Reap, Complete;
      ghost var before := View();
      var stale := Stale(View(), deadline);
      count := |stale|;
      var left := stale;
      ReapNone(before);
      assert stale - left == {};
      while left != {}
        invariant left <= stale
        invariant View() == Reap(before, stale - left)
        decreases |left|
      {
        var id :| id in left;
        ReapOneMore(before, stale - left, id);
        var state := if id in status then Some(status[id].state) else None;
        if state == Some(Running) || state == Some(Queued) {
          CompleteJob(id, false);
        } else {
          active := active - {id};
          pending := pending - {id};
        }
        assert stale - (left - {id}) == stale - left + {id};
        left := left - {id};
      }
      assert stale - left == stale;
    }
  }
}
