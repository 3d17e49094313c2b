/**
 * app/jwxt_redis.py, `RedisSemaphore`: any number of clients on one counter, each reading it under WATCH and changing it in a
 * MULTI transaction that the server refuses once the counter has been written since.
 */
module RedisSemaphore {

  /** Where a client is in `acquire` or `release`: the version of the key when it was watched, and the value read. */
  datatype Client =
    | Idle
    | Acquiring
    | AcquireWatched(version: nat)
    | AcquireRead(version: nat, cur: int)
    | Holding
    | Releasing
    | ReleaseWatched(version: nat)
    | ReleaseRead(version: nat, cur: int)

  /** The counter, the number of writes to it so far, and the transactions of either kind that went through. */
  datatype State = State(counter: int, version: nat, clients: seq<Client>, acquired: nat, released: nat)

  datatype Action =
    | BeginAcquire
    | Watch
    | Get
    | Execute
    | Retry
    | TimeOut
    | BeginRelease
    | NothingToRelease

  predicate Enabled(limit: nat, s: State, c: nat, a: Action) {
    && c < |s.clients|
    && var me := s.clients[c];
       match a
       case BeginAcquire => me.Idle?
       case Watch => me.Acquiring? || me.Releasing?
       case Get => me.AcquireWatched? || me.ReleaseWatched?
       case Execute => (me.AcquireRead? && me.cur < limit) || (me.ReleaseRead? && me.cur > 0)
       case Retry => me.AcquireRead? && me.cur >= limit
       case TimeOut => me.AcquireRead? && me.cur >= limit
       case BeginRelease => me.Holding?
       case NothingToRelease => me.ReleaseRead? && me.cur <= 0
  }

  function At(s: State, c: nat, next: Client): State
    requires c < |s.clients|
  {
    s.(clients := s.clients[c := next])
  }

  /** EXEC: refused when the key was written since it was watched, and then the loop starts again. */
  function Executed(s: State, c: nat): State
    requires c < |s.clients| && (s.clients[c].AcquireRead? || s.clients[c].ReleaseRead?)
  {
    var me := s.clients[c];
    if me.version != s.version then At(s, c, if me.AcquireRead? then Acquiring else Releasing)
    else if me.AcquireRead? then
      State(s.counter + 1, s.version + 1, s.clients[c := Holding], s.acquired + 1, s.released)
    else
      State(s.counter - 1, s.version + 1, s.clients[c := Idle], s.acquired, s.released + 1)
  }

  function Do(limit: nat, s: State, c: nat, a: Action): State
    requires Enabled(limit, s, c, a)
  {
    var me := s.clients[c];
    match a
    case BeginAcquire => At(s, c, Acquiring)
    case Watch => At(s, c, if me.Acquiring? then AcquireWatched(s.version) else ReleaseWatched(s.version))
    case Get => At(s, c, if me.AcquireWatched? then AcquireRead(me.version, s.counter) else ReleaseRead(me.version, s.counter))
    case Execute => Executed(s, c)
    case Retry => At(s, c, Acquiring)
    case TimeOut => At(s, c, Idle)
    case BeginRelease => At(s, c, Releasing)
    case NothingToRelease => At(s, c, Idle)
  }

  ghost predicate IsInit(s: State) {
    s.counter == 0 && s.version == s.acquired == s.released == 0 && forall c | 0 <= c < |s.clients| :: s.clients[c].Idle?
  }

  ghost predicate IsRun(limit: nat, run: seq<State>, who: seq<nat>, acts: seq<Action>) {
    && |run| == |acts| + 1 && |who| == |acts| && IsInit(run[0])
    && forall i | 0 <= i < |acts| :: Enabled(limit, run[i], who[i], acts[i]) && run[i + 1] == Do(limit, run[i], who[i], acts[i])
  }

  // ----- the invariant -----

  /** The client has a slot it has not yet given back. */
  predicate Holds(c: Client) {
    c.Holding? || c.Releasing? || c.ReleaseWatched? || c.ReleaseRead?
  }

  function Holders(clients: seq<Client>): nat {
    if clients == [] then 0
    else Holders(clients[..|clients| - 1]) + (if Holds(clients[|clients| - 1]) then 1 else 0)
  }

  /** A watched version is not from the future, a value read under the current version is the counter, and a holder has read no zero. */
  predicate IsCurrent(s: State, c: Client) {
    && (c.AcquireWatched? || c.ReleaseWatched? || c.AcquireRead? || c.ReleaseRead? ==> c.version <= s.version)
    && (c.AcquireRead? || c.ReleaseRead? ==> (c.version == s.version ==> c.cur == s.counter))
    && (c.ReleaseRead? ==> c.cur > 0)
  }

  ghost predicate Inv(limit: nat, s: State) {
    && s.counter == Holders(s.clients) <= limit
    && s.acquired - s.released == s.counter && s.acquired + s.released == s.version
    && forall c | 0 <= c < |s.clients| :: IsCurrent(s, s.clients[c])
  }

  lemma {:induction false} HoldersUpdate(clients: seq<Client>, c: nat, next: Client)
    requires c < |clients|
    ensures Holders(clients[c := next])
            == Holders(clients) - (if Holds(clients[c]) then 1 else 0) + (if Holds(next) then 1 else 0)
  {
    var n := |clients| - 1;
    if c == n {
      assert clients[c := next][..n] == clients[..n];
    } else {
      HoldersUpdate(clients[..n], c, next);
      assert clients[c := next][..n] == clients[..n][c := next];
    }
  }

  lemma {:induction false} HolderCounts(clients: seq<Client>, c: nat)
    requires c < |clients| && Holds(clients[c])
    ensures Holders(clients) > 0
  {
    if c < |clients| - 1 {
      HolderCounts(clients[..|clients| - 1], c);
    }
  }

  lemma {:induction false} DoKeeps(limit: nat, s: State, c: nat, a: Action)
    requires Inv(limit, s) && Enabled(limit, s, c, a)
    ensures Inv(limit, Do(limit, s, c, a))
  {
    HoldersUpdate(s.clients, c, Do(limit, s, c, a).clients[c]);
    if Holds(s.clients[c]) {
      HolderCounts(s.clients, c);
    }
    hide Holders;
  }

  lemma {:induction false} NoneHolds(clients: seq<Client>)
    requires forall c | 0 <= c < |clients| :: clients[c].Idle?
    ensures Holders(clients) == 0
  {
    if clients != [] {
      NoneHolds(clients[..|clients| - 1]);
    }
  }

  lemma {:induction false} RunKeeps(limit: nat, run: seq<State>, who: seq<nat>, acts: seq<Action>, i: nat)
    requires IsRun(limit, run, who, acts) && i < |run|
    ensures Inv(limit, run[i])
  {
    if i == 0 {
      NoneHolds(run[0].clients);
    } else {
      RunKeeps(limit, run, who, acts, i - 1);
      DoKeeps(limit, run[i - 1], who[i - 1], acts[i - 1]);
      hide Inv;
      assert run[i] == Do(limit, run[i - 1], who[i - 1], acts[i - 1]);
    }
  }

  // ----- what holds in every interleaving -----

  /**
   * The counter is the number of clients with a slot, never more than the limit; no increment and no decrement is ever lost; a
   * client that releases always finds its slot counted; and a transaction is refused only when another has gone through since the
   * key was watched.
   */
  lemma {:induction false} CounterIsHolders(limit: nat, run: seq<State>, who: seq<nat>, acts: seq<Action>, i: nat)
    requires IsRun(limit, run, who, acts) && i < |run|
    ensures var s := run[i];
            && s.counter == Holders(s.clients) <= limit
            && s.counter == s.acquired - s.released
            && (forall c: nat :: !Enabled(limit, s, c, NothingToRelease))
            && (forall c: nat | Enabled(limit, s, c, Execute) && s.clients[c].version != s.version ::
                  s.clients[c].version < s.acquired + s.released)
  {
    RunKeeps(limit, run, who, acts, i);
    hide Holders;
    var s := run[i];
    forall c: nat ensures !Enabled(limit, s, c, NothingToRelease) {
      assert c < |s.clients| ==> IsCurrent(s, s.clients[c]);
    }
    forall c: nat | Enabled(limit, s, c, Execute) && s.clients[c].version != s.version
      ensures s.clients[c].version < s.acquired + s.released
    {
      assert IsCurrent(s, s.clients[c]);
    }
  }

  // ----- slots are given while there are any -----

  /** The client has read `cur` from the counter in some state of the run up to `i`. */
  ghost predicate WasRead(run: seq<State>, i: nat, cur: int) {
    exists j | 0 <= j <= i && j < |run| :: run[j].counter == cur
  }

  lemma {:induction false} ReadsAreReal(limit: nat, run: seq<State>, who: seq<nat>, acts: seq<Action>, i: nat, c: nat)
    requires IsRun(limit, run, who, acts) && i < |run| && c < |run[i].clients| && run[i].clients[c].AcquireRead?
    ensures WasRead(run, i, run[i].clients[c].cur)
  {
    if i > 0 {
      assert run[i] == Do(limit, run[i - 1], who[i - 1], acts[i - 1]);
      if who[i - 1] == c {
        assert run[i - 1].counter == run[i].clients[c].cur;
      } else {
        assert run[i - 1].clients[c] == run[i].clients[c];
        ReadsAreReal(limit, run, who, acts, i - 1, c);
        var j :| 0 <= j <= i - 1 && run[j].counter == run[i].clients[c].cur;
      }
    }
  }

  /** A client is turned away only if every slot was taken at some time while it tried. */
  lemma {:induction false} TurnedAwayWhenFull(limit: nat, run: seq<State>, who: seq<nat>, acts: seq<Action>, i: nat, c: nat)
    requires IsRun(limit, run, who, acts) && i < |run|
    requires Enabled(limit, run[i], c, TimeOut) || Enabled(limit, run[i], c, Retry)
    ensures exists j | 0 <= j <= i :: run[j].counter == Holders(run[j].clients) == limit
  {
    ReadsAreReal(limit, run, who, acts, i, c);
    var j :| 0 <= j <= i && run[j].counter == run[i].clients[c].cur;
    CounterIsHolders(limit, run, who, acts, j);
    hide Holders, IsRun, Enabled;
    assert run[j].counter == limit;
  }

  /** What three commands of client `c` alone make of the state. */
  function Tried(limit: nat, s: State, c: nat): State
    requires c < |s.clients| && (s.clients[c].Acquiring? || s.clients[c].Releasing?)
  {
    var watched := Do(limit, s, c, Watch);
    var read := Do(limit, watched, c, Get);
    if Enabled(limit, read, c, Execute) then Do(limit, read, c, Execute) else read
  }

  /** Undisturbed, a client gets a slot in one try exactly if one is left, and gives it back in one try. */
  lemma {:induction false} OneTrySuffices(limit: nat, s: State, c: nat)
    requires Inv(limit, s) && c < |s.clients|
    ensures s.clients[c].Acquiring? ==>
              var t := Tried(limit, s, c);
              if Holders(s.clients) < limit then t.clients[c].Holding? && t.counter == s.counter + 1
              else Enabled(limit, t, c, TimeOut) && t.counter == s.counter
    ensures s.clients[c].Releasing? ==> var t := Tried(limit, s, c); t.clients[c].Idle? && t.counter == s.counter - 1
  {
    if Holds(s.clients[c]) {
      HolderCounts(s.clients, c);
    }
    hide Holders;
  }
}
