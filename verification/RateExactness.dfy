/** app/jwxt_state.py, `RateLimiter.allow`: a call is refused exactly when it would break the rate. */
module RateExactness {
  import opened PyText
  import opened OrderedKeys
  import opened RateLimiter

  /** The times of the calls of `key` that were let through. */
  function Passed(limit: nat, max: nat, calls: seq<Call>, key: Key): seq<real> {
    if calls == [] then []
    else
      var rest, call := calls[..|calls| - 1], calls[|calls| - 1];
      var before := Passed(limit, max, rest, key);
      if Passes(limit, After(limit, max, EMPTY, rest), call, key) then before + [call.now] else before
  }

  /** How many of the times are not before `u`. */
  function Since(times: seq<real>, u: real): nat {
    if times == [] then 0
    else Since(times[..|times| - 1], u) + (if times[|times| - 1] >= u then 1 else 0)
  }

  /** With one more call at `now`, no more have passed since `u` than the limit and the refill of that time. */
  predicate Fits(limit: nat, times: seq<real>, u: real, now: real) {
    Since(times, u) as real + 1.0 <= limit as real + Gain(limit, now - u)
  }

  /** The call fits whatever earlier time is looked at. */
  ghost predicate AllFit(limit: nat, times: seq<real>, now: real) {
    forall u | u <= now :: Fits(limit, times, u, now)
  }

  lemma {:induction false} SinceAppend(times: seq<real>, t: real, u: real)
    ensures Since(times + [t], u) == Since(times, u) + (if t >= u then 1 else 0)
  {
    assert (times + [t])[..|times|] == times;
  }

  ghost predicate NotAfter(times: seq<real>, now: real) {
    forall i | 0 <= i < |times| :: times[i] <= now
  }

  lemma {:induction false} NoneSince(times: seq<real>, t: real, u: real)
    requires NotAfter(times, t) && t < u
    ensures Since(times, u) == 0
  {
    if times != [] {
      NoneSince(times[..|times| - 1], t, u);
    }
  }

  lemma {:induction false} SinceIsBounded(times: seq<real>, u: real)
    ensures Since(times, u) <= |times|
  {
    if times != [] {
      SinceIsBounded(times[..|times| - 1], u);
    }
  }

  // ----- one bucket that is never forgotten -----

  /** The times at which the limiter that never forgets lets `key` through. */
  function PassedIdeal(limit: nat, calls: seq<Call>, key: Key): seq<real> {
    if calls == [] then []
    else
      var rest, call := calls[..|calls| - 1], calls[|calls| - 1];
      var before := PassedIdeal(limit, rest, key);
      if call.Allow? && call.key == key && Admits(limit, Ideal(limit, rest, key), call.now) then before + [call.now] else before
  }

  lemma {:induction false} PassedNotAfter(limit: nat, calls: seq<Call>, start: real, key: Key)
    requires Ordered(calls, start)
    ensures NotAfter(PassedIdeal(limit, calls, key), Clock(calls, start))
  {
    if calls != [] {
      OrderedPrefix(calls, start);
      PassedNotAfter(limit, calls[..|calls| - 1], start, key);
      hide Admits, Ideal;
    }
  }

  /** The level after a call, at any later time. */
  lemma {:induction false} LevelThen(limit: nat, level: real, t: real, now: real)
    ensures Level(limit, Some(Spent(level, t)), now)
            == Min(limit as real, (if level >= 1.0 then level - 1.0 else level) + Gain(limit, now - t))
  {
  }

  lemma {:induction false} GainIsNotNegative(limit: nat, time: real)
    requires time >= 0.0
    ensures Gain(limit, time) >= 0.0
  {
    GainGrows(limit, 0.0, time);
  }

  /** What passed since any time and what is left came from a full bucket and the refill. */
  lemma {:induction false} LevelIsAtMost(limit: nat, calls: seq<Call>, start: real, key: Key, u: real, now: real)
    requires limit > 0 && Ordered(calls, start) && Clock(calls, start) <= now && u <= now
    ensures Since(PassedIdeal(limit, calls, key), u) as real + Level(limit, Ideal(limit, calls, key), now)
            <= limit as real + Gain(limit, now - u)
  {
    GainIsNotNegative(limit, now - u);
    if calls != [] {
      var rest, call := calls[..|calls| - 1], calls[|calls| - 1];
      OrderedPrefix(calls, start);
      if call.Allow? && call.key == key {
        var t := call.now;
        LevelThen(limit, Level(limit, Ideal(limit, rest, key), t), t, now);
        SinceAppend(PassedIdeal(limit, rest, key), t, u);
        if u <= t {
          LevelIsAtMost(limit, rest, start, key, u, t);
          GainAdds(limit, t - u, now - t);
          assert (t - u) + (now - t) == now - u;
        } else {
          PassedNotAfter(limit, calls, start, key);
          NoneSince(PassedIdeal(limit, calls, key), t, u);
        }
        hide Gain, Level, Spent, Since, Ordered;
      } else {
        LevelIsAtMost(limit, rest, start, key, u, now);
        hide Gain, Level, Since, Ordered;
      }
    }
  }

  /** The bucket holds no less than some earlier time accounts for. */
  ghost predicate Accounts(limit: nat, times: seq<real>, level: real, u: real, now: real) {
    u <= now && Since(times, u) as real + level >= limit as real + Gain(limit, now - u)
  }

  lemma {:induction false} FullAccounts(limit: nat, times: seq<real>, now: real)
    ensures Accounts(limit, times, limit as real, now, now)
  {
    GainGrows(limit, 0.0, 0.0);
  }

  lemma {:induction false} AccountsThen(limit: nat, times: seq<real>, level: real, v: real, t: real, now: real) returns (u: real)
    requires Accounts(limit, times, level, v, t) && t <= now
    ensures Accounts(limit, if level >= 1.0 then times + [t] else times, Level(limit, Some(Spent(level, t)), now), u, now)
  {
    var after := if level >= 1.0 then times + [t] else times;
    LevelThen(limit, level, t, now);
    if Level(limit, Some(Spent(level, t)), now) == limit as real {
      FullAccounts(limit, after, now);
      u := now;
    } else {
      SinceAppend(times, t, v);
      GainAdds(limit, t - v, now - t);
      assert (t - v) + (now - t) == now - v;
      hide Gain, Level, Spent, Since;
      u := v;
    }
  }

  lemma {:induction false} LevelIsAttained(limit: nat, calls: seq<Call>, start: real, key: Key, now: real) returns (u: real)
    requires limit > 0 && Ordered(calls, start) && Clock(calls, start) <= now
    ensures Accounts(limit, PassedIdeal(limit, calls, key), Level(limit, Ideal(limit, calls, key), now), u, now)
  {
    if calls == [] {
      FullAccounts(limit, [], now);
      u := now;
    } else {
      var rest, call := calls[..|calls| - 1], calls[|calls| - 1];
      OrderedPrefix(calls, start);
      if call.Allow? && call.key == key {
        u := LevelIsAttained(limit, rest, start, key, call.now);
        hide Accounts, Ordered;
        u := AccountsThen(limit, PassedIdeal(limit, rest, key), Level(limit, Ideal(limit, rest, key), call.now), u, call.now, now);
        hide Level, Spent;
      } else {
        u := LevelIsAttained(limit, rest, start, key, now);
        hide Accounts, Level, Ordered;
      }
    }
  }

  lemma {:induction false} IdealIsExact(limit: nat, calls: seq<Call>, start: real, key: Key, now: real)
    requires limit > 0 && Ordered(calls, start) && Clock(calls, start) <= now
    ensures Admits(limit, Ideal(limit, calls, key), now) <==> AllFit(limit, PassedIdeal(limit, calls, key), now)
  {
    var times, level := PassedIdeal(limit, calls, key), Level(limit, Ideal(limit, calls, key), now);
    var v := LevelIsAttained(limit, calls, start, key, now);
    if Admits(limit, Ideal(limit, calls, key), now) {
      forall u | u <= now ensures Fits(limit, times, u, now) {
        LevelIsAtMost(limit, calls, start, key, u, now);
      }
    } else {
      assert !Fits(limit, times, v, now);
    }
  }

  // ----- the limiter -----

  lemma {:induction false} PassedIsIdeal(limit: nat, max: nat, calls: seq<Call>, start: real, key: Key)
    requires max >= 1 && Ordered(calls, start) && NeverEvicted(limit, max, EMPTY, calls, key)
    ensures Passed(limit, max, calls, key) == PassedIdeal(limit, calls, key)
  {
    if calls != [] {
      var n := |calls| - 1;
      OrderedPrefix(calls, start);
      NeverEvictedPrefix(limit, max, EMPTY, calls, key);
      PassedIsIdeal(limit, max, calls[..n], start, key);
      AnswersForgetNothing(limit, max, calls[..n], start, key, Time(calls[n]));
      hide Admits, Ideal, NeverEvicted, Evicts, After, Lookup;
    }
  }

  /**
   * A call of a key that is not evicted is let through if and only if, for every earlier time, no more calls of the key have
   * passed since then, this one included, than the limit and what refills in that time; with limit zero every call is.
   */
  lemma {:induction false} AdmissionIsExact(limit: nat, max: nat, calls: seq<Call>, start: real, key: Key, now: real)
    requires max >= 1 && Ordered(calls, start) && Clock(calls, start) <= now
    requires NeverEvicted(limit, max, EMPTY, calls, key)
    ensures Admits(limit, Lookup(After(limit, max, EMPTY, calls), key), now)
            <==> limit == 0 || AllFit(limit, Passed(limit, max, calls, key), now)
  {
    if limit > 0 {
      AnswersForgetNothing(limit, max, calls, start, key, now);
      PassedIsIdeal(limit, max, calls, start, key);
      IdealIsExact(limit, calls, start, key, now);
    }
  }

  /** As long as fewer than `limit` calls of a key have passed, the next one does. */
  lemma {:induction false} FirstCallsPass(limit: nat, max: nat, calls: seq<Call>, start: real, key: Key, now: real)
    requires max >= 1 && Ordered(calls, start) && Clock(calls, start) <= now
    requires NeverEvicted(limit, max, EMPTY, calls, key) && |Passed(limit, max, calls, key)| < limit
    ensures Admits(limit, Lookup(After(limit, max, EMPTY, calls), key), now)
  {
    var times := Passed(limit, max, calls, key);
    AdmissionIsExact(limit, max, calls, start, key, now);
    forall u | u <= now ensures Fits(limit, times, u, now) {
      SinceIsBounded(times, u);
      GainIsNotNegative(limit, now - u);
    }
  }
}
