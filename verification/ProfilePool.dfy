/**
 * app/rtf_pdf.py: reusable converter profiles behind a conversion slot, for any number of threads. A thread takes a slot,
 * then a profile, converts, and gives both back.
 */
module ProfilePool {
  import opened PyText

  type Profile = nat

  /** The fields the condition variable guards: the free profiles, first in first out, and the count of active ones. */
  datatype Pool = Pool(free: seq<Profile>, active: int)

  datatype Acquired = Reused(profile: Profile) | MayCreate | MustWait

  /** What `_acquire` does under the lock. */
  function Acquire(pool: Pool, capacity: nat): (Pool, Acquired) {
    if pool.free == [] && pool.active >= capacity then (pool, MustWait)
    else if pool.free != [] then (Pool(pool.free[1..], pool.active), Reused(pool.free[0]))
    else (Pool(pool.free, pool.active + 1), MayCreate)
  }

  /** What `_acquire` does under the lock when the directory could not be made. */
  function Abandon(pool: Pool): Pool {
    Pool(pool.free, pool.active - 1)
  }

  /** What `_release` does under the lock. */
  function Release(pool: Pool, profile: Profile, healthy: bool): Pool {
    Pool(if healthy then pool.free + [profile] else pool.free, if pool.active > 1 then pool.active - 1 else 0)
  }

  // ----- the class -----

  class Profiles {
    const capacity: nat
    var free: seq<Profile>
    var active: int

    function View(): Pool
      reads this
    {
      Pool(free, active)
    }

    constructor (size: int)
      ensures View() == Pool([], 0) && capacity as int == if size > 1 then size else 1
    {
      capacity := if size > 1 then size else 1;
      free, active := [], 0;
    }

    /** One pass of the loop of `_acquire` and, when it need not wait, what follows it. */
    method TryAcquire() returns (r: Acquired)
      modifies this
      ensures (View(), r) == Acquire(old(View()), capacity)
    {
      if free == [] && active >= capacity {
        return MustWait;
      }
      if free != [] {
        var profile := free[0];
        free := free[1..];
        return Reused(profile);
      }
      active := active + 1;
      return MayCreate;
    }

    method AbandonCreation()
      modifies this
      ensures View() == Abandon(old(View()))
    {
      active := active - 1;
    }

    method ReleaseProfile(profile: Profile, healthy: bool)
      modifies this
      ensures View() == Release(old(View()), profile, healthy)
    {
      active := if active - 1 > 0 then active - 1 else 0;
      if healthy {
        free := free + [profile];
      }
    }
  }

  // ----- threads -----

  datatype Thread =
    | Idle
    | WithSlot
    | Waiting
    | Creating
    | Failed
    | Leased(profile: Profile)
    | Finished(profile: Profile, healthy: bool)
    | Done

  /** The free conversion slots, the pool, the threads, and the number of profiles made so far. */
  datatype State = State(slots: nat, pool: Pool, threads: seq<Thread>, made: nat)

  datatype Action =
    | TakeSlot
    | TakeProfile
    | Create
    | FailToCreate
    | GiveUp
    | Finish(healthy: bool)
    | GiveBack
    | FreeSlot

  predicate Enabled(s: State, t: nat, a: Action) {
    && t < |s.threads|
    && var me := s.threads[t];
       match a
       case TakeSlot => me.Idle? && s.slots > 0
       case TakeProfile => me.WithSlot? || me.Waiting?
       case Create => me.Creating?
       case FailToCreate => me.Creating?
       case GiveUp => me.Failed?
       case Finish(_) => me.Leased?
       case GiveBack => me.Finished?
       case FreeSlot => me.Done?
  }

  function At(s: State, t: nat, next: Thread): State
    requires t < |s.threads|
  {
    s.(threads := s.threads[t := next])
  }

  function Took(s: State, t: nat, capacity: nat): State
    requires t < |s.threads|
  {
    var (pool, r) := Acquire(s.pool, capacity);
    At(s, t, match r case Reused(p) => Leased(p) case MayCreate => Creating case MustWait => Waiting).(pool := pool)
  }

  function Do(s: State, t: nat, a: Action, capacity: nat): State
    requires Enabled(s, t, a)
  {
    var me := s.threads[t];
    match a
    case TakeSlot => At(s, t, WithSlot).(slots := s.slots - 1)
    case TakeProfile => Took(s, t, capacity)
    case Create => At(s, t, Leased(s.made)).(made := s.made + 1)
    case FailToCreate => At(s, t, Failed)
    case GiveUp => At(s, t, Done).(pool := Abandon(s.pool))
    case Finish(healthy) => At(s, t, Finished(me.profile, healthy))
    case GiveBack => At(s, t, Done).(pool := Release(s.pool, me.profile, me.healthy))
    case FreeSlot => At(s, t, Idle).(slots := s.slots + 1)
  }

  ghost predicate IsInit(s: State, capacity: nat) {
    && s.slots == capacity && s.pool == Pool([], 0) && s.made == 0
    && forall t | 0 <= t < |s.threads| :: s.threads[t].Idle?
  }

  /** Runs with as many slots as the pool has room for profiles. */
  ghost predicate IsRun(capacity: nat, run: seq<State>, who: seq<nat>, acts: seq<Action>) {
    && |run| == |acts| + 1 && |who| == |acts| && IsInit(run[0], capacity)
    && forall i | 0 <= i < |acts| :: Enabled(run[i], who[i], acts[i]) && run[i + 1] == Do(run[i], who[i], acts[i], capacity)
  }

  // ----- the invariant -----

  predicate HasSlot(th: Thread) {
    !th.Idle?
  }

  /** The thread has a profile, or has been counted for one it is making. */
  predicate IsBusy(th: Thread) {
    th.Creating? || th.Failed? || th.Leased? || th.Finished?
  }

  predicate Uses(th: Thread, p: Profile) {
    (th.Leased? || th.Finished?) && th.profile == p
  }

  function CountSlots(threads: seq<Thread>): nat {
    if threads == [] then 0
    else CountSlots(threads[..|threads| - 1]) + (if HasSlot(threads[|threads| - 1]) then 1 else 0)
  }

  function CountBusy(threads: seq<Thread>): nat {
    if threads == [] then 0
    else CountBusy(threads[..|threads| - 1]) + (if IsBusy(threads[|threads| - 1]) then 1 else 0)
  }

  lemma {:induction false} CountsUpdate(threads: seq<Thread>, t: nat, th: Thread)
    requires t < |threads|
    ensures CountSlots(threads[t := th])
            == CountSlots(threads) - (if HasSlot(threads[t]) then 1 else 0) + (if HasSlot(th) then 1 else 0)
    ensures CountBusy(threads[t := th])
            == CountBusy(threads) - (if IsBusy(threads[t]) then 1 else 0) + (if IsBusy(th) then 1 else 0)
  {
    var n := |threads| - 1;
    if t == n {
      assert threads[t := th][..n] == threads[..n];
    } else {
      CountsUpdate(threads[..n], t, th);
      assert threads[t := th][..n] == threads[..n][t := th];
    }
  }

  /** Busy threads have slots, and a thread with a slot that is not busy leaves room. */
  lemma {:induction false} BusyHaveSlots(threads: seq<Thread>, t: nat)
    requires t < |threads|
    ensures CountBusy(threads) <= CountSlots(threads)
    ensures HasSlot(threads[t]) && !IsBusy(threads[t]) ==> CountBusy(threads) < CountSlots(threads)
    ensures IsBusy(threads[t]) ==> CountBusy(threads) > 0
  {
    var n := |threads| - 1;
    if n > 0 {
      BusyHaveSlots(threads[..n], if t < n then t else 0);
    } else {
      assert CountBusy(threads[..n]) == CountSlots(threads[..n]) == 0;
    }
  }

  /**
   * Slots are never over-used; no more profiles are free or in use than there are slots; `_active` may under-count but never
   * over-counts.
   */
  ghost predicate Counts(s: State, capacity: nat) {
    && s.slots + CountSlots(s.threads) == capacity
    && |s.pool.free| + CountBusy(s.threads) <= capacity
    && s.pool.active <= CountBusy(s.threads)
    && forall t | 0 <= t < |s.threads| :: !s.threads[t].Waiting?
  }

  /** Every profile is free once or leased once. */
  ghost predicate Apart(s: State) {
    && (forall i | 0 <= i < |s.pool.free| :: s.pool.free[i] < s.made)
    && (forall t | 0 <= t < |s.threads| && (s.threads[t].Leased? || s.threads[t].Finished?) :: s.threads[t].profile < s.made)
    && (forall i, j | 0 <= i < j < |s.pool.free| :: s.pool.free[i] != s.pool.free[j])
    && (forall i, t | 0 <= i < |s.pool.free| && 0 <= t < |s.threads| :: !Uses(s.threads[t], s.pool.free[i]))
    && (forall t, u, p | 0 <= t < |s.threads| && 0 <= u < |s.threads| && Uses(s.threads[t], p) && Uses(s.threads[u], p) :: t == u)
  }

  lemma {:induction false} DoKeepsCounts(s: State, t: nat, a: Action, capacity: nat)
    requires Counts(s, capacity) && Enabled(s, t, a)
    ensures Counts(Do(s, t, a, capacity), capacity)
  {
    CountsUpdate(s.threads, t, Do(s, t, a, capacity).threads[t]);
    BusyHaveSlots(s.threads, t);
    hide CountBusy, CountSlots;
  }

  lemma {:induction false} TakeKeepsApart(s: State, t: nat, capacity: nat)
    requires Apart(s) && Enabled(s, t, TakeProfile)
    ensures Apart(Do(s, t, TakeProfile, capacity))
  {
  }

  lemma {:induction false} GiveBackKeepsApart(s: State, t: nat, capacity: nat)
    requires Apart(s) && Enabled(s, t, GiveBack)
    ensures Apart(Do(s, t, GiveBack, capacity))
  {
    assert Uses(s.threads[t], s.threads[t].profile);
  }

  lemma {:induction false} MoveKeepsApart(s: State, t: nat, a: Action, capacity: nat)
    requires Apart(s) && Enabled(s, t, a) && !a.TakeProfile? && !a.GiveBack?
    ensures Apart(Do(s, t, a, capacity))
  {
    var r := Do(s, t, a, capacity);
    assert r.pool.free == s.pool.free;
    forall u, p | 0 <= u < |r.threads| && Uses(r.threads[u], p) ensures Uses(s.threads[u], p) || (a.Create? && u == t && p == s.made) {
    }
  }

  lemma {:induction false} DoKeepsApart(s: State, t: nat, a: Action, capacity: nat)
    requires Apart(s) && Enabled(s, t, a)
    ensures Apart(Do(s, t, a, capacity))
  {
    hide Apart, Do;
    match a
    case TakeProfile => TakeKeepsApart(s, t, capacity);
    case GiveBack => GiveBackKeepsApart(s, t, capacity);
    case _ => MoveKeepsApart(s, t, a, capacity);
  }

  lemma {:induction false} NoneStarted(threads: seq<Thread>)
    requires forall t | 0 <= t < |threads| :: threads[t].Idle?
    ensures CountSlots(threads) == 0 && CountBusy(threads) == 0
  {
    if threads != [] {
      NoneStarted(threads[..|threads| - 1]);
    }
  }

  lemma {:induction false} RunKeeps(capacity: nat, run: seq<State>, who: seq<nat>, acts: seq<Action>, i: nat)
    requires IsRun(capacity, run, who, acts) && i < |run|
    ensures Counts(run[i], capacity) && Apart(run[i])
  {
    if i == 0 {
      NoneStarted(run[0].threads);
    } else {
      RunKeeps(capacity, run, who, acts, i - 1);
      hide Counts, Apart;
      assert run[i] == Do(run[i - 1], who[i - 1], acts[i - 1], capacity);
      DoKeepsCounts(run[i - 1], who[i - 1], acts[i - 1], capacity);
      DoKeepsApart(run[i - 1], who[i - 1], acts[i - 1], capacity);
    }
  }

  /**
   * In every interleaving, failed creations and unhealthy releases included: no thread that asks for a profile ever waits, at
   * most `capacity` profiles are free or in use, no profile is leased twice, and none is both leased and free.
   */
  lemma {:induction false} PoolSafety(capacity: nat, run: seq<State>, who: seq<nat>, acts: seq<Action>, i: nat)
    requires IsRun(capacity, run, who, acts) && i < |run|
    ensures var s := run[i];
            && (forall t: nat | Enabled(s, t, TakeProfile) :: Acquire(s.pool, capacity).1 != MustWait)
            && |s.pool.free| + CountBusy(s.threads) <= capacity
            && (forall t, u, p | 0 <= t < |s.threads| && 0 <= u < |s.threads| && Uses(s.threads[t], p) && Uses(s.threads[u], p) ::
                  t == u)
            && (forall t, p | 0 <= t < |s.threads| && Uses(s.threads[t], p) :: p !in s.pool.free)
  {
    RunKeeps(capacity, run, who, acts, i);
    var s := run[i];
    forall t: nat | Enabled(s, t, TakeProfile) ensures Acquire(s.pool, capacity).1 != MustWait {
      BusyHaveSlots(s.threads, t);
    }
  }

  // ----- no profile is lost -----

  predicate HasProfile(th: Thread) {
    th.Leased? || th.Finished?
  }

  function CountHeld(threads: seq<Thread>): nat {
    if threads == [] then 0
    else CountHeld(threads[..|threads| - 1]) + (if HasProfile(threads[|threads| - 1]) then 1 else 0)
  }

  lemma {:induction false} HeldUpdate(threads: seq<Thread>, t: nat, th: Thread)
    requires t < |threads|
    ensures CountHeld(threads[t := th])
            == CountHeld(threads) - (if HasProfile(threads[t]) then 1 else 0) + (if HasProfile(th) then 1 else 0)
  {
    var n := |threads| - 1;
    if t == n {
      assert threads[t := th][..n] == threads[..n];
    } else {
      HeldUpdate(threads[..n], t, th);
      assert threads[t := th][..n] == threads[..n][t := th];
    }
  }

  lemma {:induction false} NoneHeld(threads: seq<Thread>)
    requires forall t | 0 <= t < |threads| :: threads[t].Idle?
    ensures CountHeld(threads) == 0
  {
    if threads != [] {
      NoneHeld(threads[..|threads| - 1]);
    }
  }

  /** The step gives back a profile that is thrown away because its conversion failed. */
  predicate Discards(s: State, t: nat, a: Action)
    requires Enabled(s, t, a)
  {
    a.GiveBack? && !s.threads[t].healthy
  }

  /** How many of the first `i` steps do. */
  function Discarded(run: seq<State>, who: seq<nat>, acts: seq<Action>, i: nat): nat
    requires i <= |acts| == |who| && |acts| < |run|
    requires forall j | 0 <= j < i :: Enabled(run[j], who[j], acts[j])
  {
    if i == 0 then 0
    else Discarded(run, who, acts, i - 1) + (if Discards(run[i - 1], who[i - 1], acts[i - 1]) then 1 else 0)
  }

  lemma {:induction false} StepConserves(s: State, t: nat, a: Action, capacity: nat)
    requires Enabled(s, t, a)
    ensures var r := Do(s, t, a, capacity);
            (r.made - |r.pool.free|) - CountHeld(r.threads)
            == (s.made - |s.pool.free|) - CountHeld(s.threads) + (if Discards(s, t, a) then 1 else 0)
    ensures Do(s, t, a, capacity).threads[t].Creating? && !s.threads[t].Creating? ==> a.TakeProfile? && s.pool.free == []
  {
    HeldUpdate(s.threads, t, Do(s, t, a, capacity).threads[t]);
    hide CountHeld;
  }

  /**
   * In every run each profile ever made is free, in use, or thrown away after a failed conversion; so besides those thrown away at
   * most `capacity` are ever made.
   */
  lemma {:induction false} ProfilesAreConserved(capacity: nat, run: seq<State>, who: seq<nat>, acts: seq<Action>, i: nat)
    requires IsRun(capacity, run, who, acts) && i < |run|
    ensures var s := run[i];
            && s.made == |s.pool.free| + CountHeld(s.threads) + Discarded(run, who, acts, i)
            && s.made <= capacity + Discarded(run, who, acts, i)
  {
    RunKeeps(capacity, run, who, acts, i);
    HeldAreBusy(run[i].threads);
    CountsBound(run[i], capacity);
    MadeIs(capacity, run, who, acts, i);
    hide Counts, Apart, CountBusy, CountHeld, Discarded, IsRun;
  }

  lemma {:induction false} MadeIs(capacity: nat, run: seq<State>, who: seq<nat>, acts: seq<Action>, i: nat)
    requires IsRun(capacity, run, who, acts) && i < |run|
    ensures run[i].made == |run[i].pool.free| + CountHeld(run[i].threads) + Discarded(run, who, acts, i)
  {
    if i == 0 {
      NoneHeld(run[0].threads);
    } else {
      hide Do, CountHeld, Discards, Enabled;
      MadeIs(capacity, run, who, acts, i - 1);
      assert run[i] == Do(run[i - 1], who[i - 1], acts[i - 1], capacity);
      StepConserves(run[i - 1], who[i - 1], acts[i - 1], capacity);
    }
  }

  lemma {:induction false} CountsBound(s: State, capacity: nat)
    requires Counts(s, capacity)
    ensures |s.pool.free| + CountBusy(s.threads) <= capacity
  {
  }

  lemma {:induction false} HeldAreBusy(threads: seq<Thread>)
    ensures CountHeld(threads) <= CountBusy(threads)
  {
    if threads != [] {
      HeldAreBusy(threads[..|threads| - 1]);
    }
  }

  // ----- the count is not a count of leases -----

  /** The step hands out a profile that was given back before. */
  predicate Reuses(s: State, a: Action) {
    a.TakeProfile? && s.pool.free != []
  }

  predicate IsExact(s: State) {
    s.pool.active == CountBusy(s.threads)
  }

  lemma {:induction false} ExactStep(s: State, t: nat, a: Action, capacity: nat)
    requires Enabled(s, t, a) && IsExact(s) && Counts(s, capacity)
    ensures IsExact(Do(s, t, a, capacity)) <==> !Reuses(s, a)
  {
    CountsUpdate(s.threads, t, Do(s, t, a, capacity).threads[t]);
    BusyHaveSlots(s.threads, t);
    hide CountBusy, CountSlots;
  }

  /** Up to a step of a run, `_active` is the number of profiles in use if and only if no profile was reused so far. */
  lemma {:induction false} ActiveIsExact(capacity: nat, run: seq<State>, who: seq<nat>, acts: seq<Action>, i: nat)
    requires IsRun(capacity, run, who, acts) && i < |run|
    ensures (forall j | 0 <= j <= i :: IsExact(run[j])) <==> (forall j | 0 <= j < i :: !Reuses(run[j], acts[j]))
  {
    hide CountBusy, CountSlots;
    if i == 0 {
      NoneStarted(run[0].threads);
    } else {
      ActiveIsExact(capacity, run, who, acts, i - 1);
      RunKeeps(capacity, run, who, acts, i - 1);
      hide Counts, IsExact, Reuses, Do, Apart;
      assert run[i] == Do(run[i - 1], who[i - 1], acts[i - 1], capacity);
      if IsExact(run[i - 1]) {
        ExactStep(run[i - 1], who[i - 1], acts[i - 1], capacity);
      }
    }
  }

  /** A thread that makes a profile is counted. */
  predicate IsCounted(s: State) {
    s.pool.active >= 0 && forall t | 0 <= t < |s.threads| && (s.threads[t].Creating? || s.threads[t].Failed?) :: s.pool.active >= 1
  }

  lemma {:induction false} OneSlot(threads: seq<Thread>, t: nat, u: nat)
    requires t < u < |threads| && HasSlot(threads[t]) && HasSlot(threads[u])
    ensures CountSlots(threads) >= 2
  {
    var n := |threads| - 1;
    if u < n {
      OneSlot(threads[..n], t, u);
    } else {
      SlotIsCounted(threads[..n], t);
    }
  }

  lemma {:induction false} SlotIsCounted(threads: seq<Thread>, t: nat)
    requires t < |threads| && HasSlot(threads[t])
    ensures CountSlots(threads) >= 1
  {
    if t < |threads| - 1 {
      SlotIsCounted(threads[..|threads| - 1], t);
    }
  }

  lemma {:induction false} OneSlotStep(s: State, t: nat, a: Action, capacity: nat)
    requires capacity <= 1 && Counts(s, capacity) && Enabled(s, t, a) && IsCounted(s)
    ensures IsCounted(Do(s, t, a, capacity))
  {
    forall u: nat | u < |s.threads| && u != t && HasSlot(s.threads[u]) ensures !HasSlot(s.threads[t]) {
      if HasSlot(s.threads[t]) {
        OneSlot(s.threads, if t < u then t else u, if t < u then u else t);
      }
    }
    forall u: nat | u < |s.threads| && HasSlot(s.threads[u]) ensures !a.TakeSlot? {
      SlotIsCounted(s.threads, u);
    }
  }

  lemma {:induction false} OneSlotRun(capacity: nat, run: seq<State>, who: seq<nat>, acts: seq<Action>, i: nat)
    requires capacity <= 1 && IsRun(capacity, run, who, acts) && i < |run|
    ensures IsCounted(run[i])
  {
    if i > 0 {
      OneSlotRun(capacity, run, who, acts, i - 1);
      RunKeeps(capacity, run, who, acts, i - 1);
      hide Counts, IsCounted, Do, Apart;
      assert run[i] == Do(run[i - 1], who[i - 1], acts[i - 1], capacity);
      OneSlotStep(run[i - 1], who[i - 1], acts[i - 1], capacity);
    }
  }

  const WHO: seq<nat> := [0, 0, 0, 0, 0, 0, 0, 0, 1, 1, 0, 0, 1, 1]
  const ACTS: seq<Action> := [TakeSlot, TakeProfile, Create, Finish(true), GiveBack, FreeSlot, TakeSlot, TakeProfile,
                              TakeSlot, TakeProfile, Finish(true), GiveBack, FailToCreate, GiveUp]

  /** The states of the run of `WHO` and `ACTS`, for any number of slots that lets both threads in at once. */
  function Example(n: nat): seq<State>
    requires n >= 2
  {
    [State(n, Pool([], 0), [Idle, Idle], 0),
     State(n - 1, Pool([], 0), [WithSlot, Idle], 0),
     State(n - 1, Pool([], 1), [Creating, Idle], 0),
     State(n - 1, Pool([], 1), [Leased(0), Idle], 1),
     State(n - 1, Pool([], 1), [Finished(0, true), Idle], 1),
     State(n - 1, Pool([0], 0), [Done, Idle], 1),
     State(n, Pool([0], 0), [Idle, Idle], 1),
     State(n - 1, Pool([0], 0), [WithSlot, Idle], 1),
     State(n - 1, Pool([], 0), [Leased(0), Idle], 1),
     State(n - 2, Pool([], 0), [Leased(0), WithSlot], 1),
     State(n - 2, Pool([], 1), [Leased(0), Creating], 1),
     State(n - 2, Pool([], 1), [Finished(0, true), Creating], 1),
     State(n - 2, Pool([0], 0), [Done, Creating], 1),
     State(n - 2, Pool([0], 0), [Done, Failed], 1),
     State(n - 2, Pool([0], -1), [Done, Done], 1)]
  }

  /** A reused profile is given back while a new one fails to be made. */
  lemma {:induction false} ExampleRuns(n: nat)
    requires n >= 2
    ensures IsRun(n, Example(n), WHO, ACTS) && Example(n)[14].pool.active == -1
  {
    var run := Example(n);
    forall i | 0 <= i < |ACTS| ensures Enabled(run[i], WHO[i], ACTS[i]) && run[i + 1] == Do(run[i], WHO[i], ACTS[i], n) {
      ExampleStep(n, i);
    }
  }

  lemma {:induction false} ExampleStep(n: nat, i: nat)
    requires n >= 2 && i < |ACTS|
    ensures Enabled(Example(n)[i], WHO[i], ACTS[i]) && Example(n)[i + 1] == Do(Example(n)[i], WHO[i], ACTS[i], n)
  {
    if i < 7 {
      EarlyStep(n, i);
    } else {
      LateStep(n, i);
    }
    hide Enabled, Do, Example, WHO, ACTS;
  }

  lemma {:induction false} EarlyStep(n: nat, i: nat)
    requires n >= 2 && i < 7
    ensures Enabled(Example(n)[i], WHO[i], ACTS[i]) && Example(n)[i + 1] == Do(Example(n)[i], WHO[i], ACTS[i], n)
  {
  }

  lemma {:induction false} LateStep(n: nat, i: nat)
    requires n >= 2 && 7 <= i < |ACTS|
    ensures Enabled(Example(n)[i], WHO[i], ACTS[i]) && Example(n)[i + 1] == Do(Example(n)[i], WHO[i], ACTS[i], n)
  {
  }

  /** `_active` can fall below zero if and only if there is room for two conversions at once. */
  lemma {:induction false} ActiveCanBeNegative(capacity: nat)
    ensures (exists run: seq<State>, who: seq<nat>, acts: seq<Action>, i: nat ::
               IsRun(capacity, run, who, acts) && i < |run| && run[i].pool.active < 0)
            <==> capacity >= 2
  {
    if capacity >= 2 {
      ExampleRuns(capacity);
      hide IsRun;
      var run := Example(capacity);
      assert IsRun(capacity, run, WHO, ACTS) && run[14].pool.active < 0;
    } else {
      forall run: seq<State>, who: seq<nat>, acts: seq<Action>, i: nat
        | IsRun(capacity, run, who, acts) && i < |run|
        ensures run[i].pool.active >= 0
      {
        OneSlotRun(capacity, run, who, acts, i);
      }
    }
  }
}
