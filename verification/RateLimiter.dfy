/** app/jwxt_state.py, `RateLimiter`: token buckets by key, swept when idle and evicted by least recent use. */
module RateLimiter {
  import opened PyText
  import opened OrderedKeys

  /** A bucket `[tokens, last]`; times are in seconds and exact. */
  datatype Bucket = Bucket(tokens: real, last: real)

  /** `OrderedDict`: the buckets, and their keys from the least to the most recently moved. */
  datatype Table = Table(order: seq<Key>, at: map<Key, Bucket>)

  const EMPTY := Table([], map[])

  const FORGET_AFTER := 120.0

  // ----- one bucket -----

  function Rate(limit: nat): real {
    limit as real / 60.0
  }

  /** The tokens that flow in over a time: `time * limit / 60`. */
  function Gain(limit: nat, time: real): real {
    time * Rate(limit)
  }

  lemma {:induction false} GainAdds(limit: nat, a: real, b: real)
    ensures Gain(limit, a + b) == Gain(limit, a) + Gain(limit, b)
  {
  }

  lemma {:induction false} GainGrows(limit: nat, a: real, b: real)
    requires a <= b
    ensures Gain(limit, 0.0) == 0.0 && Gain(limit, a) <= Gain(limit, b)
  {
    assert (b - a) * Rate(limit) >= 0.0;
    assert b * Rate(limit) == a * Rate(limit) + (b - a) * Rate(limit);
  }

  /** Two minutes refill any bucket twice. */
  lemma {:induction false} GainOfTwoMinutes(limit: nat)
    ensures Gain(limit, 120.0) == 2.0 * limit as real
  {
  }

  function Min(a: real, b: real): real {
    if a <= b then a else b
  }

  function Refilled(limit: nat, b: Bucket, now: real): real {
    Min(limit as real, b.tokens + Gain(limit, now - b.last))
  }

  /** The tokens a call for `key` at `now` would find: what the table means for the future of `key`. */
  function Level(limit: nat, b: Option<Bucket>, now: real): real {
    if b.Some? then Refilled(limit, b.value, now) else limit as real
  }

  function Spent(level: real, now: real): Bucket {
    Bucket(if level >= 1.0 then level - 1.0 else level, now)
  }

  function Lookup(table: Table, key: Key): Option<Bucket> {
    if key in table.at then Some(table.at[key]) else None
  }

  /** The answer of `allow`. */
  predicate Admits(limit: nat, b: Option<Bucket>, now: real) {
    limit == 0 || Level(limit, b, now) >= 1.0
  }

  // ----- one call on the table -----

  function Touched(limit: nat, max: nat, table: Table, key: Key, now: real): Table {
    var b := Spent(Level(limit, Lookup(table, key), now), now);
    if key in table.at then Table(Drop(table.order, {key}) + [key], table.at[key := b])
    else
      var order := table.order + [key];
      var at := table.at[key := b];
      if |order| > max then Table(order[1..], at - {order[0]}) else Table(order, at)
  }

  function Dead(table: Table, now: real): set<Key> {
    set k | k in table.at && table.at[k].last < now - FORGET_AFTER
  }

  function Swept(table: Table, now: real): Table {
    Table(Drop(table.order, Dead(table, now)), table.at - Dead(table, now))
  }

  datatype Call = Allow(key: Key, now: real) | Sweep(now: real)

  function One(limit: nat, max: nat, table: Table, call: Call): Table {
    if limit == 0 then table
    else match call
      case Allow(key, now) => Touched(limit, max, table, key, now)
      case Sweep(now) => Swept(table, now)
  }

  function After(limit: nat, max: nat, table: Table, calls: seq<Call>): Table {
    if calls == [] then table
    else One(limit, max, After(limit, max, table, calls[..|calls| - 1]), calls[|calls| - 1])
  }

  /** The keys last used before the cutoff. */
  method IdleKeys(order: seq<Key>, at: map<Key, Bucket>, cutoff: real) returns (dead: seq<Key>)
    requires Distinct(order) && forall k | k in order :: k in at
    ensures Distinct(dead) && forall k :: k in dead <==> k in order && at[k].last < cutoff
  {
    dead := [];
    for i := 0 to |order|
      invariant forall k :: k in dead <==> k in order[..i] && at[k].last < cutoff
      invariant Distinct(dead)
    {
      assert order[i] !in order[..i];
      assert order[..i + 1] == order[..i] + [order[i]];
      if at[order[i]].last < cutoff {
        dead := dead + [order[i]];
      }
    }
    assert order[..|order|] == order;
  }

  /** What popping the keys of `dead` one by one has made of the table. */
  ghost predicate Popped(before: Table, now: Table, dead: seq<Key>) {
    && now.at == before.at - Keys(dead) && now.order == Drop(before.order, Keys(dead))
    && |now.order| == |before.order| - |dead|
  }

  lemma {:induction false} PopNone(before: Table)
    ensures Popped(before, before, [])
  {
    DropNothing(before.order);
    assert Keys([]) == {};
    assert before.at - {} == before.at;
  }

  lemma {:induction false} PopOneMore(before: Table, now: Table, dead: seq<Key>, i: nat)
    requires i < |dead| && Distinct(dead) && Distinct(before.order) && dead[i] in before.order
    requires Popped(before, now, dead[..i])
    ensures dead[i] in now.order
    ensures Popped(before, Table(Drop(now.order, {dead[i]}), now.at - {dead[i]}), dead[..i + 1])
  {
    var gone := Keys(dead[..i]);
    assert dead[i] !in gone && Keys(dead[..i + 1]) == gone + {dead[i]};
    assert now.at - {dead[i]} == before.at - (gone + {dead[i]});
    hide Keys, Drop;
    DropFacts(before.order, gone);
    DropOneMore(before.order, gone, dead[i]);
    DropExactlyOne(now.order, dead[i]);
  }

  lemma {:induction false} PoppedAll(before: Table, after: Table, dead: seq<Key>, now: real)
    requires Popped(before, after, dead) && Keys(dead) == Dead(before, now)
    ensures after == Swept(before, now) && |dead| == |before.order| - |after.order|
  {
  }

  /** The bucket taken from after it was stored is the bucket of the table, whether or not another key was dropped between. */
  lemma {:induction false} StoredThenSpent(at: map<Key, Bucket>, key: Key, b: Bucket, c: Bucket)
    ensures at[key := b][key := c] == at[key := c]
    ensures forall o | o != key :: (at[key := b] - {o})[key := c] == at[key := c] - {o}
  {
  }

  // ----- the class -----

  class Limiter {
    const limit: nat
    const maxBuckets: nat
    var order: seq<Key>
    var buckets: map<Key, Bucket>

    ghost predicate Valid()
      reads this
    {
      maxBuckets >= 1 && WellFormed(Contents())
    }

    function Contents(): Table
      reads this
    {
      Table(order, buckets)
    }

    /** Negative settings count as zero, and there is always room for one bucket. */
    constructor (limitPerMinute: int, max: int)
      ensures Valid() && Contents() == EMPTY
      ensures limit as int == (if limitPerMinute > 0 then limitPerMinute else 0)
      ensures maxBuckets as int == (if max > 1 then max else 1)
    {
      limit := if limitPerMinute > 0 then limitPerMinute else 0;
      maxBuckets := if max > 1 then max else 1;
      order, buckets := [], map[];
    }

    method TryAllow(key: Key, now: real) returns (ok: bool)
      requires Valid()
      modifies this
      ensures Valid()
      ensures ok == Admits(limit, Lookup(old(Contents()), key), now)
      ensures Contents() == One(limit, maxBuckets, old(Contents()), Allow(key, now))
    {
      if limit == 0 {
        return true;
      }
      hide Refilled, WellFormed, Drop;
      ghost var before := Contents();
      OneKeepsForm(limit, maxBuckets, before, Allow(key, now));
      var b;
      if key !in buckets {
        b := Bucket(limit as real, now);
        buckets := buckets[key := b];
        order := order + [key];
        if |order| > maxBuckets {
          order, buckets := order[1..], buckets - {order[0]};
        }
      } else {
        b := Bucket(Refilled(limit, buckets[key], now), now);
        buckets := buckets[key := b];
        order := Drop(order, {key}) + [key];
      }
      StoredThenSpent(before.at, key, b, Spent(b.tokens, now));
      assert b.tokens == Level(limit, Lookup(before, key), now);
      hide Level, Lookup;
      ok := b.tokens >= 1.0;
      if ok {
        buckets := buckets[key := Bucket(b.tokens - 1.0, now)];
      }
    }

    /** `sweep`; without a time, or with the time zero, it takes the clock. */
    method SweepIdle(given: Option<real>, clock: real) returns (removed: nat)
      requires Valid()
      modifies this
      ensures Valid()
      ensures var now := if given.None? || given.value == 0.0 then clock else given.value;
              && Contents() == One(limit, maxBuckets, old(Contents()), Sweep(now))
              && removed == old(|order|) - |order|
    {
      if limit == 0 {
        return 0;
      }
      var now := if given.None? || given.value == 0.0 then clock else given.value;
      ghost var before := Contents();
      OneKeepsForm(limit, maxBuckets, before, Sweep(now));
      var dead := IdleKeys(order, buckets, now - FORGET_AFTER);
      assert Keys(dead) == Dead(before, now);
      PopNone(before);
      assert dead[..0] == [] && dead[..|dead|] == dead;
      hide Popped, Keys, Drop, Dead;
      for i := 0 to |dead|
        invariant Popped(before, Contents(), dead[..i])
      {
        PopOneMore(before, Contents(), dead, i);
        order, buckets := Drop(order, {dead[i]}), buckets - {dead[i]};
      }
      assert Popped(before, Contents(), dead);
      PoppedAll(before, Contents(), dead, now);
      return |dead|;
    }
  }

  // ----- the shape of the table -----

  ghost predicate WellFormed(table: Table) {
    Distinct(table.order) && forall k :: k in table.order <==> k in table.at
  }

  lemma {:induction false} AllowKnownKeepsForm(limit: nat, max: nat, table: Table, key: Key, now: real)
    requires WellFormed(table) && key in table.at
    ensures WellFormed(Touched(limit, max, table, key, now))
    ensures |Touched(limit, max, table, key, now).order| <= |table.order|
  {
    hide Spent, Level;
    DropFacts(table.order, {key});
    hide Drop;
    assert key in table.order;
  }

  lemma {:induction false} AllowNewKeepsForm(limit: nat, max: nat, table: Table, key: Key, now: real)
    requires WellFormed(table) && max >= 1 && key !in table.at
    ensures WellFormed(Touched(limit, max, table, key, now))
    ensures |table.order| <= max ==> |Touched(limit, max, table, key, now).order| <= max
  {
    hide Spent, Level;
    var order := table.order + [key];
    assert Distinct(order);
    forall k ensures k in order <==> k in table.order || k == key {
    }
    assert order[0] !in order[1..];
    assert forall k :: k in order[1..] <==> k in order && k != order[0];
  }

  lemma {:induction false} OneKeepsForm(limit: nat, max: nat, table: Table, call: Call)
    requires WellFormed(table) && max >= 1
    ensures WellFormed(One(limit, max, table, call))
    ensures |table.order| <= max ==> |One(limit, max, table, call).order| <= max
  {
    match call
    case Sweep(now) => DropFacts(table.order, Dead(table, now));
    case Allow(key, now) =>
      if key in table.at {
        AllowKnownKeepsForm(limit, max, table, key, now);
      } else {
        AllowNewKeepsForm(limit, max, table, key, now);
      }
  }

  /** The table never holds more than `max` buckets. */
  lemma {:induction false} TableIsBounded(limit: nat, max: nat, calls: seq<Call>)
    requires max >= 1
    ensures WellFormed(After(limit, max, EMPTY, calls))
    ensures |After(limit, max, EMPTY, calls).at| <= max
    ensures |After(limit, max, EMPTY, calls).order| <= max
  {
    var r := After(limit, max, EMPTY, calls);
    if calls != [] {
      var n := |calls| - 1;
      TableIsBounded(limit, max, calls[..n]);
      OneKeepsForm(limit, max, After(limit, max, EMPTY, calls[..n]), calls[n]);
    }
    CountKeys(r.order);
    assert Keys(r.order) == r.at.Keys;
  }

  // ----- runs with a clock that never goes back -----

  function Time(call: Call): real {
    call.now
  }

  /** The time of the last call, or the time before any. */
  function Clock(calls: seq<Call>, start: real): real {
    if calls == [] then start else Time(calls[|calls| - 1])
  }

  ghost predicate Ordered(calls: seq<Call>, start: real) {
    forall i | 0 <= i < |calls| :: Clock(calls[..i], start) <= Time(calls[i])
  }

  /** No more tokens than the limit, no bucket from the future, and the least recently used bucket in front. */
  ghost predicate Sane(limit: nat, table: Table, clock: real) {
    && WellFormed(table)
    && (forall k | k in table.at :: 0.0 <= table.at[k].tokens <= limit as real && table.at[k].last <= clock)
    && LeastRecentFirst(table.order, table.at)
  }

  ghost predicate LeastRecentFirst(order: seq<Key>, at: map<Key, Bucket>)
    requires forall k | k in order :: k in at
  {
    forall i, j | 0 <= i < j < |order| :: at[order[i]].last <= at[order[j]].last
  }

  lemma {:induction false} OrderedPrefix(calls: seq<Call>, start: real)
    requires Ordered(calls, start) && calls != []
    ensures Ordered(calls[..|calls| - 1], start)
    ensures Clock(calls[..|calls| - 1], start) <= Clock(calls, start)
  {
  }

  /** A sub-sequence keeps the order of `last` times. */
  lemma {:induction false} DropSorted(order: seq<Key>, at: map<Key, Bucket>, gone: set<Key>)
    requires (forall k | k in order :: k in at) && LeastRecentFirst(order, at)
    ensures (forall k | k in Drop(order, gone) :: k in order) && LeastRecentFirst(Drop(order, gone), at)
  {
    DropFacts(order, gone);
    if order != [] {
      var n := |order| - 1;
      DropFacts(order[..n], gone);
      DropSorted(order[..n], at, gone);
      if order[n] !in gone {
        forall k | k in order[..n] ensures at[k].last <= at[order[n]].last {
        }
        AppendSorted(Drop(order[..n], gone), at, order[n]);
      }
    }
  }

  lemma {:induction false} AppendSorted(order: seq<Key>, at: map<Key, Bucket>, last: Key)
    requires (forall k | k in order :: k in at) && last in at && LeastRecentFirst(order, at)
    requires forall k | k in order :: at[k].last <= at[last].last
    ensures LeastRecentFirst(order + [last], at)
  {
  }

  lemma {:induction false} SameTimesSorted(order: seq<Key>, at: map<Key, Bucket>, next: map<Key, Bucket>)
    requires (forall k | k in order :: k in at && k in next && next[k] == at[k]) && LeastRecentFirst(order, at)
    ensures LeastRecentFirst(order, next)
  {
  }

  lemma {:induction false} RefilledIsBounded(limit: nat, b: Bucket, now: real)
    requires 0.0 <= b.tokens && b.last <= now
    ensures 0.0 <= Refilled(limit, b, now) <= limit as real
  {
    GainGrows(limit, 0.0, now - b.last);
  }

  /** The keys before the one just used keep their order. */
  lemma {:induction false} AllowSorted(limit: nat, max: nat, table: Table, key: Key, now: real, clock: real)
    requires max >= 1 && Sane(limit, table, clock) && clock <= now
    requires WellFormed(Touched(limit, max, table, key, now))
    ensures var r := Touched(limit, max, table, key, now); LeastRecentFirst(r.order, r.at)
  {
    var r := Touched(limit, max, table, key, now);
    var b := Spent(Level(limit, Lookup(table, key), now), now);
    var order := if key in table.at then Drop(table.order, {key}) else table.order;
    var at := table.at[key := b];
    DropFacts(table.order, {key});
    DropSorted(table.order, table.at, {key});
    assert key !in order;
    SameTimesSorted(order, table.at, at);
    AppendSorted(order, at, key);
    if r.order != order + [key] {
      assert r.order == (order + [key])[1..];
      hide Level, Spent, Drop;
      assert LeastRecentFirst(r.order, at);
      SameTimesSorted(r.order, at, r.at);
    }
  }

  lemma {:induction false} AllowIsSane(limit: nat, max: nat, table: Table, key: Key, now: real, clock: real)
    requires limit > 0 && max >= 1 && Sane(limit, table, clock) && clock <= now
    ensures Sane(limit, Touched(limit, max, table, key, now), now)
  {
    OneKeepsForm(limit, max, table, Allow(key, now));
    AllowSorted(limit, max, table, key, now, clock);
    if key in table.at {
      RefilledIsBounded(limit, table.at[key], now);
    }
    hide Refilled, Drop, LeastRecentFirst, Distinct;
  }

  lemma {:induction false} SweepIsSane(limit: nat, table: Table, now: real, clock: real)
    requires Sane(limit, table, clock) && clock <= now
    ensures Sane(limit, Swept(table, now), now)
  {
    OneKeepsForm(1, 1, table, Sweep(now));
    DropSorted(table.order, table.at, Dead(table, now));
    SameTimesSorted(Swept(table, now).order, table.at, Swept(table, now).at);
    hide LeastRecentFirst;
  }

  lemma {:induction false} AfterIsSane(limit: nat, max: nat, table: Table, calls: seq<Call>, start: real)
    requires limit > 0 && max >= 1 && Sane(limit, table, start) && Ordered(calls, start)
    ensures Sane(limit, After(limit, max, table, calls), Clock(calls, start))
  {
    if calls != [] {
      var n := |calls| - 1;
      OrderedPrefix(calls, start);
      AfterIsSane(limit, max, table, calls[..n], start);
      var before := After(limit, max, table, calls[..n]);
      match calls[n]
      case Allow(key, now) => AllowIsSane(limit, max, before, key, now, Clock(calls[..n], start));
      case Sweep(now) => SweepIsSane(limit, before, now, Clock(calls[..n], start));
    }
  }

  // ----- eviction and sweeping -----

  /** The call makes room by dropping the bucket of `key`. */
  predicate Evicts(limit: nat, max: nat, table: Table, call: Call, key: Key) {
    call.Allow? && key in table.at && key !in One(limit, max, table, call).at
  }

  ghost predicate NeverEvicted(limit: nat, max: nat, table: Table, calls: seq<Call>, key: Key) {
    forall i | 0 <= i < |calls| :: !Evicts(limit, max, After(limit, max, table, calls[..i]), calls[i], key)
  }

  lemma {:induction false} NeverEvictedPrefix(limit: nat, max: nat, table: Table, calls: seq<Call>, key: Key)
    requires NeverEvicted(limit, max, table, calls, key) && calls != []
    ensures NeverEvicted(limit, max, table, calls[..|calls| - 1], key)
    ensures !Evicts(limit, max, After(limit, max, table, calls[..|calls| - 1]), calls[|calls| - 1], key)
  {
    var n := |calls| - 1;
    forall i | 0 <= i < n ensures calls[..n][..i] == calls[..i] {
    }
  }

  /** Only a bucket used least recently is evicted. */
  lemma {:induction false} EvictsTheLeastRecent(limit: nat, max: nat, table: Table, call: Call, key: Key, other: Key, clock: real)
    requires limit > 0 && max >= 1 && Sane(limit, table, clock)
    requires Evicts(limit, max, table, call, key) && other in table.at
    ensures |table.order| >= max && call.key !in table.at && table.at[key].last <= table.at[other].last
  {
  }

  /** A bucket idle for longer than two minutes is full again, so dropping it changes nothing. */
  lemma {:induction false} IdleIsFull(limit: nat, b: Bucket, now: real, later: real)
    requires 0.0 <= b.tokens && b.last < now - FORGET_AFTER && now <= later
    ensures Refilled(limit, b, later) == limit as real
  {
    GainGrows(limit, 120.0, later - b.last);
    GainOfTwoMinutes(limit);
  }

  /** What a call that does not evict `key` does to the level of `key`. */
  lemma {:induction false} LevelAfter(limit: nat, max: nat, table: Table, call: Call, clock: real, key: Key, later: real)
    requires limit > 0 && max >= 1 && Sane(limit, table, clock) && clock <= Time(call) <= later
    requires !Evicts(limit, max, table, call, key)
    ensures var b := Lookup(One(limit, max, table, call), key);
            if call.Allow? && call.key == key then
              b == Some(Spent(Level(limit, Lookup(table, key), call.now), call.now))
            else Level(limit, b, later) == Level(limit, Lookup(table, key), later)
  {
    hide Refilled;
    match call
    case Allow(k, now) =>
      if k == key && key !in table.at {
        var order := table.order + [key];
        assert |order| > max ==> order[0] == table.order[0] && table.order[0] in table.order;
      }
    case Sweep(now) =>
      if key in Dead(table, now) {
        IdleIsFull(limit, table.at[key], now, later);
      }
  }

  // ----- the limiter that never forgets -----

  /** The bucket of `key` in a limiter without sweeps and without a cap on buckets. */
  function Ideal(limit: nat, calls: seq<Call>, key: Key): Option<Bucket> {
    if calls == [] then None
    else
      var b := Ideal(limit, calls[..|calls| - 1], key);
      match calls[|calls| - 1]
      case Allow(k, now) => if k == key then Some(Spent(Level(limit, b, now), now)) else b
      case Sweep(_) => b
  }

  lemma {:induction false} LevelIsIdeal(limit: nat, max: nat, calls: seq<Call>, start: real, key: Key, later: real)
    requires limit > 0 && max >= 1 && Ordered(calls, start) && Clock(calls, start) <= later
    requires NeverEvicted(limit, max, EMPTY, calls, key)
    ensures Level(limit, Lookup(After(limit, max, EMPTY, calls), key), later) == Level(limit, Ideal(limit, calls, key), later)
  {
    if calls != [] {
      var n := |calls| - 1;
      var now := Time(calls[n]);
      OrderedPrefix(calls, start);
      NeverEvictedPrefix(limit, max, EMPTY, calls, key);
      AfterIsSane(limit, max, EMPTY, calls[..n], start);
      LevelIsIdeal(limit, max, calls[..n], start, key, later);
      LevelIsIdeal(limit, max, calls[..n], start, key, now);
      var table := After(limit, max, EMPTY, calls[..n]);
      LevelAfter(limit, max, table, calls[n], Clock(calls[..n], start), key, later);
      hide Level, Spent, One, Lookup;
    }
  }

  /**
   * As long as `key` is not evicted, every answer for it is the answer of a limiter that forgets nothing:
   * neither sweeps nor the calls of other keys show.
   */
  lemma {:induction false} AnswersForgetNothing(limit: nat, max: nat, calls: seq<Call>, start: real, key: Key, now: real)
    requires max >= 1 && Ordered(calls, start) && Clock(calls, start) <= now
    requires NeverEvicted(limit, max, EMPTY, calls, key)
    ensures Admits(limit, Lookup(After(limit, max, EMPTY, calls), key), now) == Admits(limit, Ideal(limit, calls, key), now)
  {
    if limit > 0 {
      LevelIsIdeal(limit, max, calls, start, key, now);
    }
  }

  ghost function Callers(calls: seq<Call>): set<Key> {
    set i | 0 <= i < |calls| && calls[i].Allow? :: calls[i].key
  }

  lemma {:induction false} BucketsHaveCallers(limit: nat, max: nat, calls: seq<Call>)
    ensures forall k | k in After(limit, max, EMPTY, calls).at :: k in Callers(calls)
  {
    if calls != [] {
      var n := |calls| - 1;
      BucketsHaveCallers(limit, max, calls[..n]);
      assert forall i | 0 <= i < n :: calls[..n][i] == calls[i];
    }
  }

  /** While no more keys call than there is room for, no key is ever evicted. */
  lemma {:induction false} FewKeysAreNeverEvicted(limit: nat, max: nat, calls: seq<Call>, key: Key)
    requires max >= 1 && |Callers(calls)| <= max
    ensures NeverEvicted(limit, max, EMPTY, calls, key)
  {
    forall i | 0 <= i < |calls| ensures !Evicts(limit, max, After(limit, max, EMPTY, calls[..i]), calls[i], key) {
      var table := After(limit, max, EMPTY, calls[..i]);
      TableIsBounded(limit, max, calls[..i]);
      BucketsHaveCallers(limit, max, calls[..i]);
      if Evicts(limit, max, table, calls[i], key) {
        var all := Keys(table.order) + {calls[i].key};
        CountKeys(table.order);
        assert |all| == |table.order| + 1;
        forall k | k in all ensures k in Callers(calls) {
          if k in Callers(calls[..i]) {
            var j :| 0 <= j < i && calls[..i][j].Allow? && calls[..i][j].key == k;
            assert calls[j].Allow? && calls[j].key == k;
          }
        }
        SubsetSize(all, Callers(calls));
      }
    }
  }

  // ----- the bound on admitted calls -----

  /** The calls of `key` the limiter lets through. */
  function Admitted(limit: nat, max: nat, table: Table, calls: seq<Call>, key: Key): nat {
    if calls == [] then 0
    else
      var call := calls[|calls| - 1];
      var before := After(limit, max, table, calls[..|calls| - 1]);
      Admitted(limit, max, table, calls[..|calls| - 1], key)
      + (if Passes(limit, before, call, key) then 1 else 0)
  }

  lemma {:induction false} LevelGrows(limit: nat, b: Option<Bucket>, t: real, u: real)
    requires t <= u
    ensures Level(limit, b, u) <= Level(limit, b, t) + Gain(limit, u - t)
  {
    GainGrows(limit, 0.0, u - t);
    if b.Some? {
      GainAdds(limit, t - b.value.last, u - t);
      hide Gain;
    }
  }

  predicate Passes(limit: nat, table: Table, call: Call, key: Key) {
    call.Allow? && call.key == key && Admits(limit, Lookup(table, key), call.now)
  }

  /** One call spends at most what there was and what has flowed in. */
  lemma {:induction false} TokenStep(limit: nat, max: nat, table: Table, call: Call, clock: real, key: Key)
    requires limit > 0 && max >= 1 && Sane(limit, table, clock) && clock <= Time(call)
    requires !Evicts(limit, max, table, call, key)
    ensures (if Passes(limit, table, call, key) then 1.0 else 0.0)
            + Level(limit, Lookup(One(limit, max, table, call), key), Time(call))
            <= Level(limit, Lookup(table, key), clock) + Gain(limit, Time(call) - clock)
  {
    LevelGrows(limit, Lookup(table, key), clock, Time(call));
    LevelAfter(limit, max, table, call, clock, key, Time(call));
    SpentLevel(limit, Level(limit, Lookup(table, key), Time(call)), Time(call));
    hide Level, Spent, One, Gain, Lookup, Sane;
  }

  lemma {:induction false} LastCall(limit: nat, max: nat, table: Table, calls: seq<Call>, key: Key)
    requires calls != []
    ensures var rest, call := calls[..|calls| - 1], calls[|calls| - 1];
            && After(limit, max, table, calls) == One(limit, max, After(limit, max, table, rest), call)
            && Admitted(limit, max, table, calls, key) as real == Admitted(limit, max, table, rest, key) as real
               + (if Passes(limit, After(limit, max, table, rest), call, key) then 1.0 else 0.0)
  {
  }

  /** Tokens are conserved: what was admitted and what is left came from the first level and the refill. */
  lemma {:induction false} TokensAreConserved(limit: nat, max: nat, table: Table, calls: seq<Call>, start: real, key: Key)
    requires limit > 0 && max >= 1 && Sane(limit, table, start) && Ordered(calls, start)
    requires NeverEvicted(limit, max, table, calls, key)
    ensures Admitted(limit, max, table, calls, key) as real
            + Level(limit, Lookup(After(limit, max, table, calls), key), Clock(calls, start))
            <= Level(limit, Lookup(table, key), start) + Gain(limit, Clock(calls, start) - start)
  {
    hide Level, Gain, Lookup, Sane, Passes, One, Evicts;
    if calls == [] {
      GainGrows(limit, 0.0, 0.0);
      assert Clock(calls, start) - start == 0.0;
    } else {
      var n := |calls| - 1;
      var was, now := Clock(calls[..n], start), Time(calls[n]);
      LastCall(limit, max, table, calls, key);
      hide After, Admitted;
      OrderedPrefix(calls, start);
      NeverEvictedPrefix(limit, max, table, calls, key);
      hide NeverEvicted, Ordered;
      TokensAreConserved(limit, max, table, calls[..n], start, key);
      AfterIsSane(limit, max, table, calls[..n], start);
      TokenStep(limit, max, After(limit, max, table, calls[..n]), calls[n], was, key);
      GainAdds(limit, was - start, now - was);
      assert (was - start) + (now - was) == Clock(calls, start) - start;
    }
  }

  lemma {:induction false} SpentLevel(limit: nat, level: real, now: real)
    ensures Level(limit, Some(Spent(level, now)), now) <= (if level >= 1.0 then level - 1.0 else level)
  {
  }

  lemma {:induction false} WindowIsBounded(limit: nat, max: nat, table: Table, calls: seq<Call>, start: real, key: Key)
    requires limit > 0 && max >= 1 && Sane(limit, table, start) && Ordered(calls, start)
    requires NeverEvicted(limit, max, table, calls, key)
    ensures Admitted(limit, max, table, calls, key) as real <= limit as real + Gain(limit, Clock(calls, start) - start)
  {
    TokensAreConserved(limit, max, table, calls, start, key);
    AfterIsSane(limit, max, table, calls, start);
    LevelIsBounded(limit, table, start, key, start);
    LevelIsBounded(limit, After(limit, max, table, calls), Clock(calls, start), key, Clock(calls, start));
    hide Gain, Level, Lookup, Admitted, After;
  }

  /**
   * In any stretch of calls between `t1` and `t2`, a key that is not evicted gets at most `limit + (t2 - t1) * limit / 60`
   * calls through.
   */
  lemma {:induction false} AdmissionIsBounded(limit: nat, max: nat, before: seq<Call>, calls: seq<Call>, start: real, key: Key,
                                              t1: real, t2: real)
    requires limit > 0 && max >= 1 && t1 <= t2
    requires Ordered(before, start) && Ordered(calls, Clock(before, start))
    requires forall i | 0 <= i < |calls| :: t1 <= Time(calls[i]) <= t2
    requires NeverEvicted(limit, max, After(limit, max, EMPTY, before), calls, key)
    ensures Admitted(limit, max, After(limit, max, EMPTY, before), calls, key) as real
            <= limit as real + Gain(limit, t2 - t1)
  {
    GainGrows(limit, 0.0, t2 - t1);
    if calls != [] {
      var table := After(limit, max, EMPTY, before);
      var first, last := Time(calls[0]), Time(calls[|calls| - 1]);
      AfterIsSane(limit, max, EMPTY, before, start);
      Later(limit, table, calls, Clock(before, start));
      hide Gain, NeverEvicted, Admitted, Sane, Ordered, After;
      WindowIsBounded(limit, max, table, calls, first, key);
      GainGrows(limit, last - first, t2 - t1);
    } else {
      assert Admitted(limit, max, After(limit, max, EMPTY, before), calls, key) == 0;
    }
  }

  /** The clock may be read first at the first call. */
  lemma {:induction false} Later(limit: nat, table: Table, calls: seq<Call>, start: real)
    requires Sane(limit, table, start) && Ordered(calls, start) && calls != []
    ensures Sane(limit, table, Time(calls[0])) && Ordered(calls, Time(calls[0]))
  {
  }

  lemma {:induction false} LevelIsBounded(limit: nat, table: Table, clock: real, key: Key, now: real)
    requires Sane(limit, table, clock) && clock <= now
    ensures 0.0 <= Level(limit, Lookup(table, key), now) <= limit as real
  {
    if key in table.at {
      RefilledIsBounded(limit, table.at[key], now);
    }
  }
}
