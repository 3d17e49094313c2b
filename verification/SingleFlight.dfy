/**
 * app/jwxt_http.py, `_schedule_pdf_cached`: requests that check the cache, take the keyed lock, check again,
 * and only then export; on top of `KeyedLocks`, for any number of requests and keys.
 */
module SingleFlight {
  import opened PyText
  import L = KeyedLocks

  type Key = L.Key

  // The program points inside the lock, carried by the `at` of an inside thread.
  const CHECK := 0
  const CHECK_PAYLOAD := 1
  const EXPORT := 2
  const STORE := 3
  const DONE := 4

  /** The locks, the keys with a live cache entry, and counts of exports started, stored and failed and of entries that died. */
  datatype State = State(locks: L.State, live: set<Key>,
                         started: map<Key, nat>, stored: map<Key, nat>, failed: map<Key, nat>, died: map<Key, nat>)

  datatype Action =
    | Lock(step: L.Action)
    | Look
    | Start
    | Fail
    | Store
    | Die(key: Key)

  function Count(m: map<Key, nat>, key: Key): nat {
    if key in m then m[key] else 0
  }

  function Up(m: map<Key, nat>, key: Key): map<Key, nat> {
    m[key := Count(m, key) + 1]
  }

  // ----- steps -----

  predicate IsAt(s: State, t: nat, at: int) {
    t < |s.locks.threads| && s.locks.threads[t].Inside? && s.locks.threads[t].at == at
  }

  predicate Enabled(s: State, t: nat, a: Action) {
    match a
    case Lock(step) =>
      && L.Enabled(s.locks, t, step)
      && (step.Acquire? ==> step.at == CHECK)
      && !step.Proceed?
      && (step.Release? ==> IsAt(s, t, DONE))
    case Look => IsAt(s, t, CHECK) || IsAt(s, t, CHECK_PAYLOAD)
    case Start => IsAt(s, t, EXPORT)
    case Fail => IsAt(s, t, STORE)
    case Store => IsAt(s, t, STORE)
    case Die(key) => key in s.live
  }

  function At(s: State, t: nat, at: int): State
    requires t < |s.locks.threads| && s.locks.threads[t].Inside?
  {
    s.(locks := L.Do(s.locks, t, L.Proceed(at)))
  }

  /**
   * `Look` reads the cache: a hit leads to reading the payload and then out, a miss to the export. `Start` begins the export
   * and the conversion; either can fail. `Store` puts the result into the cache. An entry may die at any moment, by
   * expiry, by eviction or by a sweep. Between `Start` and `Store` the lock is held.
   */
  function Do(s: State, t: nat, a: Action): State
    requires Enabled(s, t, a)
  {
    match a
    case Lock(step) => s.(locks := L.Do(s.locks, t, step))
    case Look =>
      var key := s.locks.threads[t].key;
      if key !in s.live then At(s, t, EXPORT)
      else if s.locks.threads[t].at == CHECK then At(s, t, CHECK_PAYLOAD)
      else At(s, t, DONE)
    case Start => At(s, t, STORE).(started := Up(s.started, s.locks.threads[t].key))
    case Fail => At(s, t, DONE).(failed := Up(s.failed, s.locks.threads[t].key))
    case Store =>
      var key := s.locks.threads[t].key;
      At(s, t, DONE).(live := s.live + {key}, stored := Up(s.stored, key))
    case Die(key) => s.(live := s.live - {key}, died := Up(s.died, key))
  }

  ghost predicate IsInit(s: State) {
    L.IsInit(s.locks) && s.live == {} && s.started == s.stored == s.failed == s.died == map[]
  }

  ghost predicate IsRun(run: seq<State>, who: seq<nat>, acts: seq<Action>) {
    && |run| == |acts| + 1 && |who| == |acts| && IsInit(run[0])
    && forall i | 0 <= i < |acts| :: Enabled(run[i], who[i], acts[i]) && run[i + 1] == Do(run[i], who[i], acts[i])
  }

  // ----- the invariant -----

  /** Thread `t` holds the lock of `key` and has found no live entry, or is exporting. */
  predicate Misses(s: State, t: nat, key: Key) {
    t < |s.locks.threads| && s.locks.threads[t].Inside? && s.locks.threads[t].key == key
    && (s.locks.threads[t].at == EXPORT || s.locks.threads[t].at == STORE)
  }

  predicate Exporting(s: State, t: nat, key: Key) {
    Misses(s, t, key) && s.locks.threads[t].at == STORE
  }

  ghost predicate InFlight(s: State, key: Key) {
    exists t | 0 <= t < |s.locks.threads| :: Exporting(s, t, key)
  }

  /** No thread exports a key whose entry is live; every start is stored, failed or in flight; every entry stored died or is live. */
  ghost predicate Inv(s: State) {
    && L.Inv(s.locks)
    && NoneLive(s)
    && (forall key: Key :: Balanced(s, key))
  }

  ghost predicate NoneLive(s: State) {
    forall t, key | 0 <= t < |s.locks.threads| && Misses(s, t, key) :: key !in s.live
  }

  ghost predicate Balanced(s: State, key: Key) {
    && Count(s.started, key) == Count(s.stored, key) + Count(s.failed, key) + (if InFlight(s, key) then 1 else 0)
    && Count(s.stored, key) == Count(s.died, key) + (if key in s.live then 1 else 0)
  }

  lemma {:induction false} OneInside(s: State, t: nat, u: nat)
    requires L.Inv(s.locks) && t < |s.locks.threads| && u < |s.locks.threads|
    requires s.locks.threads[t].Inside? && s.locks.threads[u].Inside? && s.locks.threads[t].key == s.locks.threads[u].key
    ensures t == u
  {
  }

  /** A step of the lock starts or ends no export. */
  lemma {:induction false} LockKeeps(s: State, t: nat, step: L.Action)
    requires Inv(s) && Enabled(s, t, Lock(step))
    ensures Inv(Do(s, t, Lock(step)))
  {
    L.DoKeeps(s.locks, t, step);
    var r := Do(s, t, Lock(step));
    assert |r.locks.threads| == |s.locks.threads|;
    forall u, key | 0 <= u < |s.locks.threads| ensures Misses(r, u, key) <==> Misses(s, u, key) {
      assert u != t ==> r.locks.threads[u] == s.locks.threads[u];
    }
    forall u, key | 0 <= u < |s.locks.threads| ensures Exporting(r, u, key) <==> Exporting(s, u, key) {
      assert u != t ==> r.locks.threads[u] == s.locks.threads[u];
    }
    hide L.Inv, L.Do;
    forall key: Key ensures Balanced(r, key) {
      assert InFlight(r, key) <==> InFlight(s, key);
      assert Balanced(s, key);
    }
  }

  /** Moving thread `t`, which is inside, to another program point changes the flight of no other key. */
  lemma {:induction false} FlightElsewhere(s: State, t: nat, at: int, other: Key)
    requires t < |s.locks.threads| && s.locks.threads[t].Inside? && s.locks.threads[t].key != other
    ensures InFlight(At(s, t, at), other) <==> InFlight(s, other)
  {
    var r := At(s, t, at);
    if InFlight(s, other) {
      var u :| 0 <= u < |s.locks.threads| && Exporting(s, u, other);
      assert Exporting(r, u, other);
    }
    if InFlight(r, other) {
      var u :| 0 <= u < |r.locks.threads| && Exporting(r, u, other);
      assert Exporting(s, u, other);
    }
  }

  /** The lock makes `t` the only thread that can be exporting its key. */
  lemma {:induction false} FlightHere(s: State, t: nat, at: int)
    requires L.Inv(s.locks) && t < |s.locks.threads| && s.locks.threads[t].Inside?
    ensures InFlight(s, s.locks.threads[t].key) <==> s.locks.threads[t].at == STORE
    ensures InFlight(At(s, t, at), s.locks.threads[t].key) <==> at == STORE
  {
    var r := At(s, t, at);
    var key := s.locks.threads[t].key;
    L.MoveKeeps(s.locks, t, L.Proceed(at));
    if InFlight(s, key) {
      var u :| 0 <= u < |s.locks.threads| && Exporting(s, u, key);
      OneInside(s, t, u);
    }
    if InFlight(r, key) {
      var u :| 0 <= u < |r.locks.threads| && Exporting(r, u, key);
      OneInside(r, t, u);
    }
    if s.locks.threads[t].at == STORE {
      assert Exporting(s, t, key);
    }
    if at == STORE {
      assert Exporting(r, t, key);
    }
  }

  /** What a step of thread `t` inside its lock leaves of the threads: only `t` has moved. */
  lemma {:induction false} InsideMoves(s: State, t: nat, a: Action) returns (at: int)
    requires L.Inv(s.locks) && Enabled(s, t, a) && (a.Look? || a.Start? || a.Fail? || a.Store?)
    ensures t < |s.locks.threads| && s.locks.threads[t].Inside?
    ensures Do(s, t, a).locks == At(s, t, at).locks && L.Inv(Do(s, t, a).locks)
    ensures at == if a.Start? then STORE else if a.Look? && s.locks.threads[t].key !in s.live then EXPORT
                  else if a.Look? && s.locks.threads[t].at == CHECK then CHECK_PAYLOAD else DONE
  {
    at := Do(s, t, a).locks.threads[t].at;
    L.MoveKeeps(s.locks, t, L.Proceed(at));
  }

  /** No thread exports a key with a live entry after the step: the entry `Store` creates is for the key only `t` can export. */
  lemma {:induction false} InsideKeepsMisses(s: State, t: nat, a: Action)
    requires Inv(s) && Enabled(s, t, a) && (a.Look? || a.Start? || a.Fail? || a.Store?)
    ensures NoneLive(Do(s, t, a))
  {
    var at := InsideMoves(s, t, a);
    var r := Do(s, t, a);
    var key := s.locks.threads[t].key;
    hide L.Inv;
    forall u, k | 0 <= u < |r.locks.threads| && Misses(r, u, k) ensures k !in r.live {
      if u != t {
        assert Misses(s, u, k);
        if k == key {
          OneInside(s, t, u);
        }
      } else {
        assert Misses(s, t, key) || key !in s.live;
      }
    }
  }

  lemma {:induction false} SameFlight(r: State, q: State, k: Key)
    requires r.locks == q.locks
    ensures InFlight(r, k) <==> InFlight(q, k)
  {
    assert forall u :: Exporting(r, u, k) <==> Exporting(q, u, k);
  }

  /** What the step enters into the books of a key. */
  lemma {:induction false} Books(s: State, t: nat, a: Action, k: Key)
    requires Enabled(s, t, a) && (a.Look? || a.Start? || a.Fail? || a.Store?)
    ensures var (r, here) := (Do(s, t, a), k == s.locks.threads[t].key);
            && Count(r.started, k) == Count(s.started, k) + (if here && a.Start? then 1 else 0)
            && Count(r.stored, k) == Count(s.stored, k) + (if here && a.Store? then 1 else 0)
            && Count(r.failed, k) == Count(s.failed, k) + (if here && a.Fail? then 1 else 0)
            && r.died == s.died && (k in r.live <==> k in s.live || (here && a.Store?))
  {
    hide L.Do, L.Enabled;
  }

  /** The books of every key still balance after the step. */
  lemma {:induction false} InsideKeepsBalance(s: State, t: nat, a: Action, k: Key)
    requires Inv(s) && Enabled(s, t, a) && (a.Look? || a.Start? || a.Fail? || a.Store?)
    ensures Balanced(Do(s, t, a), k)
  {
    var at := InsideMoves(s, t, a);
    var key := s.locks.threads[t].key;
    SameFlight(Do(s, t, a), At(s, t, at), k);
    Books(s, t, a, k);
    assert Balanced(s, k);
    assert a.Store? ==> Misses(s, t, key);
    if k != key {
      FlightElsewhere(s, t, at, k);
    } else {
      FlightHere(s, t, at);
    }
    hide InFlight, L.Inv, L.Do, L.Enabled, Do, At, Misses, Count;
  }

  /** A step of thread `t` inside its lock. */
  lemma {:induction false} InsideKeeps(s: State, t: nat, a: Action)
    requires Inv(s) && Enabled(s, t, a) && (a.Look? || a.Start? || a.Fail? || a.Store?)
    ensures Inv(Do(s, t, a))
  {
    var _ := InsideMoves(s, t, a);
    InsideKeepsMisses(s, t, a);
    forall k: Key ensures Balanced(Do(s, t, a), k) {
      InsideKeepsBalance(s, t, a, k);
    }
    hide Balanced, NoneLive, L.Inv, Do, Enabled;
  }

  lemma {:induction false} DieKeeps(s: State, t: nat, dying: Key)
    requires Inv(s) && dying in s.live
    ensures Inv(Do(s, t, Die(dying)))
  {
    var r := Do(s, t, Die(dying));
    assert forall u, k :: Misses(r, u, k) <==> Misses(s, u, k);
    forall k: Key ensures Balanced(r, k) {
      assert Balanced(s, k);
      assert forall u :: Exporting(r, u, k) <==> Exporting(s, u, k);
      assert InFlight(r, k) <==> InFlight(s, k);
    }
  }

  lemma {:induction false} DoKeeps(s: State, t: nat, a: Action)
    requires Inv(s) && Enabled(s, t, a)
    ensures Inv(Do(s, t, a))
  {
    match a
    case Lock(step) => LockKeeps(s, t, step);
    case Die(key) => DieKeeps(s, t, key);
    case _ => InsideKeeps(s, t, a);
  }

  lemma {:induction false} RunKeeps(run: seq<State>, who: seq<nat>, acts: seq<Action>, i: nat)
    requires IsRun(run, who, acts) && i < |run|
    ensures Inv(run[i])
  {
    hide Enabled, Do;
    if i == 0 {
      assert forall key: Key :: !InFlight(run[0], key);
      assert forall key: Key :: Balanced(run[0], key);
    } else {
      hide Inv;
      RunKeeps(run, who, acts, i - 1);
      assert run[i] == Do(run[i - 1], who[i - 1], acts[i - 1]);
      DoKeeps(run[i - 1], who[i - 1], acts[i - 1]);
    }
  }

  /**
   * In every run no key is exported twice at a time or while its entry is live, and the exports of a key are never more
   * than one, plus one for each that failed and each entry that died.
   */
  lemma {:induction false} OneExportPerEntry(run: seq<State>, who: seq<nat>, acts: seq<Action>, i: nat, key: Key)
    requires IsRun(run, who, acts) && i < |run|
    ensures var s := run[i];
            && (forall t, u | 0 <= t < |s.locks.threads| && 0 <= u < |s.locks.threads| ::
                  Exporting(s, t, key) && Exporting(s, u, key) ==> t == u)
            && (InFlight(s, key) ==> key !in s.live)
            && Count(s.started, key) <= 1 + Count(s.failed, key) + Count(s.died, key)
  {
    RunKeeps(run, who, acts, i);
    var s := run[i];
    assert Balanced(s, key);
    forall t, u | 0 <= t < |s.locks.threads| && 0 <= u < |s.locks.threads| && Exporting(s, t, key) && Exporting(s, u, key)
      ensures t == u
    {
      OneInside(s, t, u);
    }
  }

  // ----- nobody leaves empty-handed, and nobody is stuck -----

  /** Threads inside are at one of the five program points. */
  predicate AtPoints(s: State) {
    forall t | 0 <= t < |s.locks.threads| && s.locks.threads[t].Inside? :: CHECK <= s.locks.threads[t].at <= DONE
  }

  lemma {:induction false} StepAtPoints(s: State, t: nat, a: Action)
    requires AtPoints(s) && Enabled(s, t, a)
    ensures AtPoints(Do(s, t, a))
  {
  }

  lemma {:induction false} RunAtPoints(run: seq<State>, who: seq<nat>, acts: seq<Action>, i: nat)
    requires IsRun(run, who, acts) && i < |run|
    ensures AtPoints(run[i])
  {
    hide Do, Enabled;
    if i > 0 {
      RunAtPoints(run, who, acts, i - 1);
      hide AtPoints;
      assert run[i] == Do(run[i - 1], who[i - 1], acts[i - 1]);
      StepAtPoints(run[i - 1], who[i - 1], acts[i - 1]);
    }
  }

  /** Request `t` comes to a program point with this step. */
  predicate Reaches(s: State, r: State, t: nat, at: int) {
    IsAt(r, t, at) && !IsAt(s, t, at)
  }

  lemma {:induction false} StepServes(s: State, u: nat, a: Action, t: nat)
    requires Enabled(s, u, a)
    ensures var r := Do(s, u, a);
            && (Reaches(s, r, t, DONE) ==> u == t && (a.Fail? || r.locks.threads[t].key in r.live))
            && (Reaches(s, r, t, EXPORT) ==> u == t && a.Look? && s.locks.threads[t].key !in s.live)
            && (Reaches(s, r, t, STORE) ==> u == t && a.Start? && IsAt(s, t, EXPORT))
  {
  }

  /**
   * In every run a request comes to the end inside its lock only by finding a live entry, by storing one, or by an export that
   * failed; and it exports only if it found none.
   */
  lemma {:induction false} RequestsAreServed(run: seq<State>, who: seq<nat>, acts: seq<Action>, i: nat, t: nat)
    requires IsRun(run, who, acts) && i < |acts|
    ensures Reaches(run[i], run[i + 1], t, DONE) ==>
              who[i] == t && (acts[i].Fail? || run[i + 1].locks.threads[t].key in run[i + 1].live)
    ensures Reaches(run[i], run[i + 1], t, EXPORT) ==>
              who[i] == t && acts[i].Look? && run[i].locks.threads[t].key !in run[i].live
    ensures Reaches(run[i], run[i + 1], t, STORE) ==> who[i] == t && acts[i].Start? && IsAt(run[i], t, EXPORT)
  {
    StepServes(run[i], who[i], acts[i], t);
    hide Do, Enabled;
  }

  /** What thread `t` can do next by itself. */
  ghost predicate CanGoOn(s: State, t: nat) {
    || Enabled(s, t, Look) || Enabled(s, t, Start) || Enabled(s, t, Store)
    || Enabled(s, t, Lock(L.Release)) || Enabled(s, t, Lock(L.Deregister)) || Enabled(s, t, Lock(L.Acquire(CHECK)))
  }

  /** In every run a request goes on by itself, unless it waits for one that is inside the lock of the same key. */
  lemma {:induction false} NobodyIsStuck(run: seq<State>, who: seq<nat>, acts: seq<Action>, i: nat, t: nat)
    requires IsRun(run, who, acts) && i < |run| && t < |run[i].locks.threads| && !run[i].locks.threads[t].Outside?
    ensures var threads := run[i].locks.threads;
            CanGoOn(run[i], t) <==>
            !(threads[t].Waiting? && exists u | 0 <= u < |threads| :: threads[u].Inside? && threads[u].key == threads[t].key)
  {
    RunKeeps(run, who, acts, i);
    RunAtPoints(run, who, acts, i);
    hide IsRun;
    var s := run[i].locks;
    if s.threads[t].Waiting? {
      L.HolderIsInside(s, t);
      if forall u | 0 <= u < |s.threads| :: !(s.threads[u].Inside? && s.threads[u].key == s.threads[t].key) {
        assert Enabled(run[i], t, Lock(L.Acquire(CHECK)));
      } else {
        var u :| 0 <= u < |s.threads| && s.threads[u].Inside? && s.threads[u].key == s.threads[t].key;
        assert s.entries[s.threads[t].entry].holder == Some(u);
      }
    } else if s.threads[t].Leaving? {
      assert Enabled(run[i], t, Lock(L.Deregister));
    }
  }
}
