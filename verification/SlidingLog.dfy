/** app/main.py, `_memory_rate_allow`: at most `limit` requests of an address in any sixty seconds. */
module SlidingLog {
  import opened PyText
  import opened OrderedKeys

  const WINDOW := 60.0

  /** `OrderedDict`: the admission times of each address. */
  datatype Table = Table(order: seq<Key>, at: map<Key, seq<real>>)

  const EMPTY := Table([], map[])

  datatype Call = Call(key: Key, now: real)

  /** `[t for t in hits if now - t < 60]`. */
  function Recent(hits: seq<real>, now: real): seq<real> {
    if hits == [] then []
    else Recent(hits[..|hits| - 1], now) + (if now - hits[|hits| - 1] < WINDOW then [hits[|hits| - 1]] else [])
  }

  function Stored(table: Table, key: Key): seq<real> {
    if key in table.at then table.at[key] else []
  }

  predicate IsLimited(limit: int, hits: seq<real>, now: real) {
    |Recent(hits, now)| >= limit
  }

  function Moved(table: Table, key: Key): seq<Key> {
    if key in table.at then Drop(table.order, {key}) + [key] else table.order
  }

  function One(limit: int, max: nat, table: Table, call: Call): Table {
    var hits := Recent(Stored(table, call.key), call.now);
    if |hits| >= limit then Table(Moved(table, call.key), table.at)
    else
      var order := if call.key in table.at then Moved(table, call.key) else table.order + [call.key];
      var at := table.at[call.key := hits + [call.now]];
      if |order| > max && order != [] then Table(order[1..], at - {order[0]}) else Table(order, at)
  }

  function After(limit: int, max: nat, calls: seq<Call>): Table {
    if calls == [] then EMPTY
    else One(limit, max, After(limit, max, calls[..|calls| - 1]), calls[|calls| - 1])
  }

  // ----- the function and the table it closes over -----

  class RateHits {
    const maxKeys: nat
    var order: seq<Key>
    var hits: map<Key, seq<real>>

    ghost predicate Valid()
      reads this
    {
      WellFormed(Contents()) && |order| <= maxKeys && maxKeys >= 1
    }

    function Contents(): Table
      reads this
    {
      Table(order, hits)
    }

    constructor (max: nat)
      requires max >= 1
      ensures Valid() && Contents() == EMPTY && maxKeys == max
    {
      maxKeys := max;
      order, hits := [], map[];
    }

    method MemoryRateAllow(key: Key, now: real, limit: int) returns (limited: bool)
      requires Valid()
      modifies this
      ensures Valid()
      ensures limited == IsLimited(limit, Stored(old(Contents()), key), now)
      ensures Contents() == One(limit, maxKeys, old(Contents()), Call(key, now))
    {
      OneKeepsForm(limit, maxKeys, Contents(), Call(key, now));
      hide WellFormed, Drop, Recent;
      var recent: seq<real> := [];
      if key in hits {
        order := Drop(order, {key}) + [key];
        recent := Recent(hits[key], now);
      } else {
        RecentOfNone(now);
      }
      limited := |recent| >= limit;
      if !limited {
        if key !in hits {
          order := order + [key];
        }
        hits := hits[key := recent + [now]];
        if |order| > maxKeys {
          order, hits := order[1..], hits - {order[0]};
        }
      }
    }
  }

  lemma {:induction false} RecentOfNone(now: real)
    ensures Recent([], now) == []
  {
  }

  // ----- the shape of the table -----

  ghost predicate WellFormed(table: Table) {
    Distinct(table.order) && forall k :: k in table.order <==> k in table.at
  }

  lemma {:induction false} MovedKeepsForm(table: Table, key: Key)
    requires WellFormed(table)
    ensures WellFormed(Table(Moved(table, key), table.at)) && |Moved(table, key)| == |table.order|
  {
    if key in table.at {
      DropFacts(table.order, {key});
      DropExactlyOne(table.order, key);
    }
  }

  lemma {:induction false} OneKeepsForm(limit: int, max: nat, table: Table, call: Call)
    requires WellFormed(table) && |table.order| <= max && max >= 1
    ensures WellFormed(One(limit, max, table, call))
    ensures |One(limit, max, table, call).order| <= max
  {
    var key := call.key;
    MovedKeepsForm(table, key);
    hide Moved, Recent;
    if key !in table.at {
      var order := table.order + [key];
      assert Distinct(order);
      forall k ensures k in order <==> k in table.order || k == key {
      }
      assert order[0] !in order[1..];
      assert forall k :: k in order[1..] <==> k in order && k != order[0];
    }
  }

  // ----- runs with a clock that never goes back -----

  function Clock(calls: seq<Call>, start: real): real {
    if calls == [] then start else calls[|calls| - 1].now
  }

  ghost predicate Ordered(calls: seq<Call>, start: real) {
    calls != [] ==>
      var rest := calls[..|calls| - 1];
      Ordered(rest, start) && Clock(rest, start) <= calls[|calls| - 1].now
  }

  /** The times at which requests of `key` were let through. */
  function Admitted(limit: int, max: nat, calls: seq<Call>, key: Key): seq<real> {
    if calls == [] then []
    else
      var call := calls[|calls| - 1];
      var before := Admitted(limit, max, calls[..|calls| - 1], key);
      if call.key == key && !IsLimited(limit, Stored(After(limit, max, calls[..|calls| - 1]), key), call.now)
      then before + [call.now] else before
  }

  /** The call makes room by dropping the times of `key`. */
  predicate Evicts(limit: int, max: nat, table: Table, call: Call, key: Key) {
    key in table.at && key !in One(limit, max, table, call).at
  }

  ghost predicate NeverEvicted(limit: int, max: nat, calls: seq<Call>, key: Key) {
    calls != [] ==>
      var rest := calls[..|calls| - 1];
      NeverEvicted(limit, max, rest, key) && !Evicts(limit, max, After(limit, max, rest), calls[|calls| - 1], key)
  }

  lemma {:induction false} RecentTwice(hits: seq<real>, a: real, b: real)
    requires a <= b
    ensures Recent(Recent(hits, a), b) == Recent(hits, b)
  {
    if hits != [] {
      var n := |hits| - 1;
      RecentTwice(hits[..n], a, b);
      if a - hits[n] < WINDOW {
        RecentMore(Recent(hits[..n], a), hits[n], b);
      } else {
        assert Recent(hits, a) == Recent(hits[..n], a);
      }
    }
  }

  lemma {:induction false} RecentMore(hits: seq<real>, t: real, now: real)
    ensures Recent(hits + [t], now) == Recent(hits, now) + (if now - t < WINDOW then [t] else [])
  {
  }

  /** What a call that does not evict `key` stores for it. */
  lemma {:induction false} StoredAfter(limit: int, max: nat, table: Table, call: Call, key: Key)
    requires WellFormed(table) && |table.order| <= max && max >= 1 && !Evicts(limit, max, table, call, key)
    ensures var admits := call.key == key && !IsLimited(limit, Stored(table, key), call.now);
            Stored(One(limit, max, table, call), key)
            == if admits then Recent(Stored(table, key), call.now) + [call.now] else Stored(table, key)
  {
  }

  /** The stored times of a key that was never evicted are all its admitted ones that still count. */
  lemma {:induction false} StoredIsRecent(limit: int, max: nat, calls: seq<Call>, start: real, key: Key, now: real)
    requires max >= 1 && Ordered(calls, start) && NeverEvicted(limit, max, calls, key) && Clock(calls, start) <= now
    ensures Recent(Stored(After(limit, max, calls), key), now) == Recent(Admitted(limit, max, calls, key), now)
  {
    if calls != [] {
      var n := |calls| - 1;
      var table := After(limit, max, calls[..n]);
      var stored, admitted := Stored(table, key), Admitted(limit, max, calls[..n], key);
      StoredIsRecent(limit, max, calls[..n], start, key, now);
      TableIsBounded(limit, max, calls[..n]);
      StoredAfter(limit, max, table, calls[n], key);
      hide One, Evicts, Stored, NeverEvicted, Ordered, WellFormed;
      if calls[n].key == key && !IsLimited(limit, stored, calls[n].now) {
        RecentMore(Recent(stored, calls[n].now), calls[n].now, now);
        RecentMore(admitted, calls[n].now, now);
        RecentTwice(stored, calls[n].now, now);
      }
    }
  }

  /** The table never holds more than `max` keys. */
  lemma {:induction false} TableIsBounded(limit: int, max: nat, calls: seq<Call>)
    requires max >= 1
    ensures var table := After(limit, max, calls); WellFormed(table) && |table.order| <= max && |table.at| <= max
  {
    var r := After(limit, max, calls);
    if calls != [] {
      TableIsBounded(limit, max, calls[..|calls| - 1]);
      OneKeepsForm(limit, max, After(limit, max, calls[..|calls| - 1]), calls[|calls| - 1]);
    }
    CountKeys(r.order);
    assert Keys(r.order) == r.at.Keys;
  }

  // ----- the bound in every window -----

  /** The times in the half-open window of sixty seconds from `from`. */
  function InWindow(times: seq<real>, from: real): nat {
    if times == [] then 0
    else InWindow(times[..|times| - 1], from) + (if from <= times[|times| - 1] < from + WINDOW then 1 else 0)
  }

  ghost predicate NotAfter(times: seq<real>, now: real) {
    forall i | 0 <= i < |times| :: times[i] <= now
  }

  /** Times up to `now` that lie in a window reaching past `now` are all recent at `now`. */
  lemma {:induction false} WindowIsRecent(times: seq<real>, from: real, now: real)
    requires NotAfter(times, now) && now < from + WINDOW
    ensures InWindow(times, from) <= |Recent(times, now)|
  {
    if times != [] {
      WindowIsRecent(times[..|times| - 1], from, now);
    }
  }

  lemma {:induction false} AdmittedNotAfter(limit: int, max: nat, calls: seq<Call>, start: real, key: Key)
    requires Ordered(calls, start)
    ensures NotAfter(Admitted(limit, max, calls, key), Clock(calls, start))
  {
    if calls != [] {
      var n := |calls| - 1;
      AdmittedNotAfter(limit, max, calls[..n], start, key);
    }
  }

  /** One more time that the limit allows keeps the bound of every window. */
  lemma {:induction false} WindowStep(limit: int, times: seq<real>, from: real, now: real)
    requires NotAfter(times, now) && InWindow(times, from) <= if limit > 0 then limit else 0
    ensures |Recent(times, now)| < limit ==> InWindow(times + [now], from) <= limit
  {
    if from <= now < from + WINDOW {
      WindowIsRecent(times, from, now);
    }
    assert (times + [now])[..|times|] == times;
  }

  /**
   * Over a whole run, a key that is not evicted gets at most `limit` requests through in every half-open window of sixty
   * seconds, wherever the window starts; none when the limit is not positive.
   */
  lemma {:induction false} EveryWindowIsBounded(limit: int, max: nat, calls: seq<Call>, start: real, key: Key, from: real)
    requires max >= 1 && Ordered(calls, start) && NeverEvicted(limit, max, calls, key)
    ensures InWindow(Admitted(limit, max, calls, key), from) <= if limit > 0 then limit else 0
  {
    if calls != [] {
      var n := |calls| - 1;
      EveryWindowIsBounded(limit, max, calls[..n], start, key, from);
      StoredIsRecent(limit, max, calls[..n], start, key, calls[n].now);
      AdmittedNotAfter(limit, max, calls[..n], start, key);
      hide After, Recent, NeverEvicted, Ordered, Stored, InWindow, NotAfter;
      WindowStep(limit, Admitted(limit, max, calls[..n], key), from, calls[n].now);
    }
  }

  /**
   * A request of a key that was never evicted is refused exactly when `limit` of its requests were let through in the last
   * sixty seconds.
   */
  lemma {:induction false} RefusalIsExact(limit: int, max: nat, calls: seq<Call>, start: real, key: Key, now: real)
    requires max >= 1 && Ordered(calls, start) && NeverEvicted(limit, max, calls, key) && Clock(calls, start) <= now
    ensures IsLimited(limit, Stored(After(limit, max, calls), key), now)
            <==> |Recent(Admitted(limit, max, calls, key), now)| >= limit
  {
    StoredIsRecent(limit, max, calls, start, key, now);
  }

  /** No stored list is longer than the limit. */
  lemma {:induction false} StoredIsBounded(limit: int, max: nat, calls: seq<Call>, key: Key)
    requires max >= 1
    ensures key in After(limit, max, calls).at ==> |After(limit, max, calls).at[key]| <= limit
  {
    if calls != [] {
      StoredIsBounded(limit, max, calls[..|calls| - 1], key);
      hide Recent, Moved;
    }
  }
}
