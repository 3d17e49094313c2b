/**
 * app/jwxt_state.py, `KeyedLocks`: reference-counted locks by key, for any number of threads and keys.
 * The table lock makes registering and deregistering one step each; acquiring, timing out and releasing are steps between them.
 */
module KeyedLocks {
  import opened PyText

  type Key = nat

  /** An entry `[lock, count]`: the thread holding its lock, and its count. */
  datatype Entry = Entry(holder: Option<nat>, count: int)

  /** Entries are objects: they keep their identity, an index into `entries`, after they leave the table. */
  datatype Thread =
    | Outside
    | Waiting(key: Key, entry: nat)
    | Inside(key: Key, entry: nat, at: int)
    | Leaving(key: Key, entry: nat)

  datatype State = State(entries: seq<Entry>, table: map<Key, nat>, threads: seq<Thread>)

  datatype Action =
    | Register(key: Key)
    | Acquire(at: int)
    | TimeOut
    | Proceed(at: int)
    | Release
    | Deregister

  // ----- the table -----

  /** The object: its entries by identity, and the dictionary from keys to entries. */
  class LockTable {
    var entries: seq<Entry>
    var locks: map<Key, nat>

    predicate Valid()
      reads this
    {
      forall key | key in locks :: locks[key] < |entries|
    }

    constructor ()
      ensures Valid() && entries == [] && locks == map[]
    {
      entries, locks := [], map[];
    }

    /** The first guarded block of `lock`. */
    method Register(key: Key) returns (e: nat)
      requires Valid()
      modifies this
      ensures Valid() && e < |entries|
      ensures (entries, locks, e) == Enter(old(entries), old(locks), key)
    {
      if key in locks {
        e := locks[key];
      } else {
        e := |entries|;
        entries := entries + [Entry(None, 0)];
        locks := locks[key := e];
      }
      entries := entries[e := entries[e].(count := entries[e].count + 1)];
      assert key !in old(locks) ==> entries == old(entries) + [Entry(None, 1)];
    }

    /** The last guarded block of `lock`, also taken when the lock was not acquired in time. */
    method Deregister(key: Key, e: nat)
      requires Valid() && e < |entries|
      modifies this
      ensures Valid()
      ensures (entries, locks) == Leave(old(entries), old(locks), key, e)
    {
      entries := entries[e := entries[e].(count := entries[e].count - 1)];
      if entries[e].count == 0 {
        locks := locks - {key};
      }
    }
  }

  // ----- steps -----

  predicate Enabled(s: State, t: nat, a: Action) {
    && t < |s.threads|
    && match a
       case Register(_) => s.threads[t].Outside?
       case Acquire(_) =>
         s.threads[t].Waiting? && s.threads[t].entry < |s.entries| && s.entries[s.threads[t].entry].holder == None
       case TimeOut => s.threads[t].Waiting?
       case Proceed(_) => s.threads[t].Inside?
       case Release => s.threads[t].Inside? && s.threads[t].entry < |s.entries|
       case Deregister => s.threads[t].Leaving? && s.threads[t].entry < |s.entries|
  }

  /** Under the table lock: find or create the entry of the key, and count one more thread on it. */
  function Enter(entries: seq<Entry>, table: map<Key, nat>, key: Key): (seq<Entry>, map<Key, nat>, nat) {
    if key in table && table[key] < |entries| then
      var e := table[key];
      (entries[e := entries[e].(count := entries[e].count + 1)], table, e)
    else
      (entries + [Entry(None, 1)], table[key := |entries|], |entries|)
  }

  /** Under the table lock: count one thread less, and drop whatever entry the key has once the count is zero. */
  function Leave(entries: seq<Entry>, table: map<Key, nat>, key: Key, e: nat): (seq<Entry>, map<Key, nat>)
    requires e < |entries|
  {
    var count := entries[e].count - 1;
    (entries[e := entries[e].(count := count)], if count == 0 then table - {key} else table)
  }

  function Registered(s: State, t: nat, key: Key): State
    requires t < |s.threads|
  {
    var (entries, table, e) := Enter(s.entries, s.table, key);
    State(entries, table, s.threads[t := Waiting(key, e)])
  }

  function Deregistered(s: State, t: nat, key: Key, e: nat): State
    requires t < |s.threads| && e < |s.entries|
  {
    var (entries, table) := Leave(s.entries, s.table, key, e);
    State(entries, table, s.threads[t := Outside])
  }

  function Do(s: State, t: nat, a: Action): State
    requires Enabled(s, t, a)
  {
    var me := s.threads[t];
    match a
    case Register(key) => Registered(s, t, key)
    case Acquire(at) =>
      s.(entries := s.entries[me.entry := s.entries[me.entry].(holder := Some(t))],
         threads := s.threads[t := Inside(me.key, me.entry, at)])
    case TimeOut => s.(threads := s.threads[t := Leaving(me.key, me.entry)])
    case Proceed(at) => s.(threads := s.threads[t := me.(at := at)])
    case Release =>
      s.(entries := s.entries[me.entry := s.entries[me.entry].(holder := None)],
         threads := s.threads[t := Leaving(me.key, me.entry)])
    case Deregister => Deregistered(s, t, me.key, me.entry)
  }

  ghost predicate IsInit(s: State) {
    s.entries == [] && s.table == map[] && forall t | 0 <= t < |s.threads| :: s.threads[t] == Outside
  }

  ghost predicate IsRun(run: seq<State>, who: seq<nat>, acts: seq<Action>) {
    && |run| == |acts| + 1 && |who| == |acts| && IsInit(run[0])
    && forall i | 0 <= i < |acts| :: Enabled(run[i], who[i], acts[i]) && run[i + 1] == Do(run[i], who[i], acts[i])
  }

  // ----- the invariant -----

  predicate Uses(th: Thread, e: nat) {
    !th.Outside? && th.entry == e
  }

  /** The number of threads registered on an entry. */
  function Users(threads: seq<Thread>, e: nat): nat {
    if threads == [] then 0
    else Users(threads[..|threads| - 1], e) + (if Uses(threads[|threads| - 1], e) then 1 else 0)
  }

  /** A registered thread's key has an entry, and it is the one the thread registered on. */
  ghost predicate Known(s: State) {
    forall t | 0 <= t < |s.threads| && !s.threads[t].Outside? ::
      s.threads[t].key in s.table && s.table[s.threads[t].key] == s.threads[t].entry
  }

  ghost predicate Table(s: State) {
    && (forall k | k in s.table :: s.table[k] < |s.entries| && s.entries[s.table[k]].count > 0)
    && (forall j, k | j in s.table && k in s.table && s.table[j] == s.table[k] :: j == k)
  }

  ghost predicate Counted(s: State) {
    forall e | 0 <= e < |s.entries| :: s.entries[e].count == Users(s.threads, e)
  }

  ghost predicate Held(s: State) {
    && (forall t, e | 0 <= t < |s.threads| && 0 <= e < |s.entries| ::
          s.entries[e].holder == Some(t) <==> s.threads[t].Inside? && s.threads[t].entry == e)
    && (forall e | 0 <= e < |s.entries| && s.entries[e].holder.Some? :: s.entries[e].holder.value < |s.threads|)
  }

  ghost predicate Inv(s: State) {
    Known(s) && Table(s) && Counted(s) && Held(s)
  }

  lemma {:induction false} UsersUpdate(threads: seq<Thread>, t: nat, th: Thread, e: nat)
    requires t < |threads|
    ensures Users(threads[t := th], e)
            == Users(threads, e) - (if Uses(threads[t], e) then 1 else 0) + (if Uses(th, e) then 1 else 0)
  {
    var n := |threads| - 1;
    var next := threads[t := th];
    if t == n {
      assert next[..n] == threads[..n];
    } else {
      UsersUpdate(threads[..n], t, th, e);
      assert next[..n] == threads[..n][t := th];
    }
  }

  lemma {:induction false} UsersPositive(threads: seq<Thread>, t: nat, e: nat)
    requires t < |threads| && Uses(threads[t], e)
    ensures Users(threads, e) > 0
  {
    if t < |threads| - 1 {
      UsersPositive(threads[..|threads| - 1], t, e);
    }
  }

  lemma {:induction false} UsersZero(threads: seq<Thread>, e: nat)
    requires forall t | 0 <= t < |threads| :: !Uses(threads[t], e)
    ensures Users(threads, e) == 0
  {
    if threads != [] {
      UsersZero(threads[..|threads| - 1], e);
    }
  }

  lemma {:induction false} UsersWitness(threads: seq<Thread>, e: nat) returns (t: nat)
    requires Users(threads, e) > 0
    ensures t < |threads| && Uses(threads[t], e)
  {
    var n := |threads| - 1;
    if Uses(threads[n], e) {
      t := n;
    } else {
      t := UsersWitness(threads[..n], e);
    }
  }

  function UsersAfter(s: State, t: nat, th: Thread, e: nat): int
    requires t < |s.threads|
  {
    Users(s.threads, e) - (if Uses(s.threads[t], e) then 1 else 0) + (if Uses(th, e) then 1 else 0)
  }

  lemma {:induction false} CountsFollow(s: State, t: nat, th: Thread)
    requires t < |s.threads|
    ensures forall e: nat {:trigger Users(s.threads[t := th], e)} :: Users(s.threads[t := th], e) == UsersAfter(s, t, th, e)
  {
    forall e: nat ensures Users(s.threads[t := th], e) == UsersAfter(s, t, th, e) {
      UsersUpdate(s.threads, t, th, e);
    }
  }

  lemma {:induction false} RegisterNewKeeps(s: State, t: nat, key: Key)
    requires Inv(s) && Enabled(s, t, Register(key)) && key !in s.table
    ensures Inv(Registered(s, t, key))
  {
    var r := Registered(s, t, key);
    var e := |s.entries|;
    assert Known(r) && Table(r);
    forall u | 0 <= u < |s.threads| ensures !Uses(s.threads[u], e) {
      assert !s.threads[u].Outside? ==> s.table[s.threads[u].key] == s.threads[u].entry;
    }
    UsersZero(s.threads, e);
    CountsFollow(s, t, r.threads[t]);
    hide Known, Table;
    assert Counted(r);
  }

  lemma {:induction false} RegisterKnownKeeps(s: State, t: nat, key: Key)
    requires Inv(s) && Enabled(s, t, Register(key)) && key in s.table
    ensures Inv(Registered(s, t, key))
  {
    var r := Registered(s, t, key);
    assert Known(r) && Table(r);
    CountsFollow(s, t, r.threads[t]);
    assert Counted(r);
  }

  lemma {:induction false} AcquireKeeps(s: State, t: nat, at: int)
    requires Inv(s) && Enabled(s, t, Acquire(at))
    ensures Inv(Do(s, t, Acquire(at)))
  {
    CountsFollow(s, t, Do(s, t, Acquire(at)).threads[t]);
  }

  lemma {:induction false} ReleaseKeeps(s: State, t: nat)
    requires Inv(s) && Enabled(s, t, Release)
    ensures Inv(Do(s, t, Release))
  {
    CountsFollow(s, t, Do(s, t, Release).threads[t]);
  }

  lemma {:induction false} MoveKeeps(s: State, t: nat, a: Action)
    requires Inv(s) && Enabled(s, t, a) && (a.TimeOut? || a.Proceed?)
    ensures Inv(Do(s, t, a))
  {
    CountsFollow(s, t, Do(s, t, a).threads[t]);
  }

  lemma {:induction false} DeregisterKeeps(s: State, t: nat)
    requires Inv(s) && Enabled(s, t, Deregister)
    ensures Inv(Do(s, t, Deregister))
  {
    var me := s.threads[t];
    var r := Do(s, t, Deregister);
    CountsFollow(s, t, Outside);
    assert Uses(me, me.entry);
    forall u | 0 <= u < |r.threads| && !r.threads[u].Outside?
      ensures r.threads[u].key in r.table && r.table[r.threads[u].key] == r.threads[u].entry
    {
      assert u != t;
      if r.threads[u].key == me.key {
        assert Uses(r.threads[u], me.entry);
        UsersPositive(r.threads, u, me.entry);
      }
    }
  }

  lemma {:induction false} DoKeeps(s: State, t: nat, a: Action)
    requires Inv(s) && Enabled(s, t, a)
    ensures Inv(Do(s, t, a))
  {
    hide Inv;
    match a
    case Register(key) =>
      if key in s.table {
        RegisterKnownKeeps(s, t, key);
      } else {
        RegisterNewKeeps(s, t, key);
      }
    case Acquire(at) => AcquireKeeps(s, t, at);
    case TimeOut => MoveKeeps(s, t, a);
    case Proceed(_) => MoveKeeps(s, t, a);
    case Release => ReleaseKeeps(s, t);
    case Deregister => DeregisterKeeps(s, t);
  }

  lemma {:induction false} RunKeeps(run: seq<State>, who: seq<nat>, acts: seq<Action>, i: nat)
    requires IsRun(run, who, acts) && i < |run|
    ensures Inv(run[i])
  {
    if i > 0 {
      RunKeeps(run, who, acts, i - 1);
      assert run[i] == Do(run[i - 1], who[i - 1], acts[i - 1]);
      DoKeeps(run[i - 1], who[i - 1], acts[i - 1]);
    }
  }

  // ----- what holds in every state of every run -----

  /** At most one thread is inside `lock(key)`, and a key has an entry exactly while some thread is registered for it. */
  lemma {:induction false} MutualExclusion(s: State, key: Key)
    requires Inv(s)
    ensures forall t, u | 0 <= t < |s.threads| && 0 <= u < |s.threads| ::
              s.threads[t].Inside? && s.threads[u].Inside? && s.threads[t].key == key && s.threads[u].key == key ==> t == u
    ensures key in s.table <==> exists t | 0 <= t < |s.threads| :: !s.threads[t].Outside? && s.threads[t].key == key
  {
    if key in s.table {
      var e := s.table[key];
      var t := UsersWitness(s.threads, e);
      assert s.table[s.threads[t].key] == e;
    }
    forall t, u | 0 <= t < |s.threads| && 0 <= u < |s.threads|
                  && s.threads[t].Inside? && s.threads[u].Inside? && s.threads[t].key == key && s.threads[u].key == key
      ensures t == u
    {
      assert s.threads[t].entry == s.table[key] == s.threads[u].entry;
      assert s.entries[s.table[key]].holder == Some(t);
    }
  }

  lemma {:induction false} MutualExclusionInRuns(run: seq<State>, who: seq<nat>, acts: seq<Action>, i: nat, key: Key)
    requires IsRun(run, who, acts) && i < |run|
    ensures var s := run[i];
            && (forall t, u | 0 <= t < |s.threads| && 0 <= u < |s.threads| ::
                  s.threads[t].Inside? && s.threads[u].Inside? && s.threads[t].key == key && s.threads[u].key == key ==> t == u)
            && (key in s.table <==>
                  exists t | 0 <= t < |s.threads| :: !s.threads[t].Outside? && s.threads[t].key == key)
  {
    RunKeeps(run, who, acts, i);
    MutualExclusion(run[i], key);
  }

  /** A waiting thread gets the lock at once unless another thread is inside the same key: it waits for nothing else. */
  lemma {:induction false} WaitsOnlyForTheKey(run: seq<State>, who: seq<nat>, acts: seq<Action>, i: nat, t: nat, at: int)
    requires IsRun(run, who, acts) && i < |run| && t < |run[i].threads| && run[i].threads[t].Waiting?
    ensures var s := run[i];
            Enabled(s, t, Acquire(at)) <==>
            forall u | 0 <= u < |s.threads| :: !(s.threads[u].Inside? && s.threads[u].key == s.threads[t].key)
  {
    RunKeeps(run, who, acts, i);
    var s := run[i];
    HolderIsInside(s, t);
    forall u | 0 <= u < |s.threads| && s.threads[u].Inside? && s.threads[u].key == s.threads[t].key
      ensures !Enabled(s, t, Acquire(at))
    {
      assert s.entries[s.threads[t].entry].holder == Some(u);
    }
  }

  /** A lock has no holder but a thread that is inside its key. */
  lemma {:induction false} HolderIsInside(s: State, t: nat)
    requires Inv(s) && t < |s.threads| && s.threads[t].Waiting?
    ensures s.threads[t].entry < |s.entries|
    ensures var holder := s.entries[s.threads[t].entry].holder;
            holder.Some? ==>
              holder.value < |s.threads| && s.threads[holder.value].Inside? && s.threads[holder.value].key == s.threads[t].key
  {
    var e := s.threads[t].entry;
    assert s.table[s.threads[t].key] == e;
    if s.entries[e].holder.Some? {
      var u := s.entries[e].holder.value;
      assert s.threads[u].Inside? && s.threads[u].entry == e;
      assert s.table[s.threads[u].key] == e;
    }
  }

  /** When every thread is outside, the table is empty: no entry is leaked. */
  lemma {:induction false} NoEntryLeft(s: State)
    requires Inv(s) && forall t | 0 <= t < |s.threads| :: s.threads[t].Outside?
    ensures s.table == map[]
  {
    forall k | k in s.table ensures false {
      MutualExclusion(s, k);
    }
  }
}
