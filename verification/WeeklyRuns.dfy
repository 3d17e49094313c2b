/** app/calendar/ics.py, `weekly_runs`: dates cut into runs with a step of seven days. */
module WeeklyRuns {
  import opened PyText

  // ----- weekly runs -----

  function LastDay(run: seq<int>): int
    requires run != []
  {
    run[|run| - 1]
  }

  function Extended(front: seq<seq<int>>, day: int): seq<seq<int>>
    requires front != []
  {
    front[..|front| - 1] + [front[|front| - 1] + [day]]
  }

  /** The runs of a list of days: a day joins the last run exactly when it is seven days after its last day. */
  function Runs(days: seq<int>): (runs: seq<seq<int>>)
    ensures forall i | 0 <= i < |runs| :: runs[i] != []
    ensures days != [] ==> runs != []
  {
    if days == [] then []
    else
      var front := Runs(days[..|days| - 1]);
      var day := days[|days| - 1];
      if front != [] && day - LastDay(front[|front| - 1]) == 7 then
        Extended(front, day)
      else front + [[day]]
  }

  lemma {:induction false} RunsStartOnDays(days: seq<int>)
    ensures forall i | 0 <= i < |Runs(days)| :: Runs(days)[i][0] in days
  {
    if days != [] {
      RunsStartOnDays(days[..|days| - 1]);
    }
  }

  predicate IsWeekly(run: seq<int>) {
    run != [] && forall k | 0 <= k < |run| :: run[k] == run[0] + 7 * k
  }

  /** Every run is weekly, no two neighbouring runs could be one run, and together they are exactly the days. */
  predicate IsRunsOf(runs: seq<seq<int>>, days: seq<int>) {
    && (forall i | 0 <= i < |runs| :: IsWeekly(runs[i]))
    && (forall i | 0 < i < |runs| :: runs[i][0] != LastDay(runs[i - 1]) + 7)
    && Flatten(runs) == days
  }

  lemma {:induction false} ExtendLastRun(front: seq<seq<int>>, days: seq<int>, day: int)
    requires IsRunsOf(front, days) && front != []
    requires front[|front| - 1] != [] && day == LastDay(front[|front| - 1]) + 7
    ensures IsRunsOf(Extended(front, day), days + [day])
  {
    var k := |front| - 1;
    var init, last := front[..k], front[k];
    var runs := Extended(front, day);
    assert IsWeekly(last);
    assert IsWeekly(last + [day]);
    forall i | 0 <= i < |runs| ensures IsWeekly(runs[i]) {
      assert i < k ==> runs[i] == front[i];
    }
    forall i | 0 < i < |runs| ensures runs[i][0] != LastDay(runs[i - 1]) + 7 {
      assert runs[i - 1] == front[i - 1] && runs[i][0] == front[i][0];
    }
    assert front == init + [last];
    FlattenAppend(init, last);
    FlattenAppend(init, last + [day]);
    assert Flatten(init) + (last + [day]) == (Flatten(init) + last) + [day];
  }

  lemma {:induction false} StartRun(front: seq<seq<int>>, days: seq<int>, day: int)
    requires IsRunsOf(front, days)
    requires front != [] ==> front[|front| - 1] != [] && day != LastDay(front[|front| - 1]) + 7
    ensures IsRunsOf(front + [[day]], days + [day])
  {
    FlattenAppend(front, [day]);
    var runs := front + [[day]];
    forall i | 0 <= i < |runs| ensures IsWeekly(runs[i]) {
      assert i < |front| ==> runs[i] == front[i];
    }
  }

  lemma {:induction false} RunsCutTheDays(days: seq<int>)
    ensures IsRunsOf(Runs(days), days)
  {
    if days != [] {
      var n := |days| - 1;
      var front := Runs(days[..n]);
      RunsCutTheDays(days[..n]);
      assert days == days[..n] + [days[n]];
      if front != [] && days[n] - LastDay(front[|front| - 1]) == 7 {
        ExtendLastRun(front, days[..n], days[n]);
      } else {
        StartRun(front, days[..n], days[n]);
      }
    }
  }

  /** No other division of the days satisfies `IsRunsOf`. */
  lemma {:induction false} RunsAreUnique(a: seq<seq<int>>, b: seq<seq<int>>, days: seq<int>)
    requires IsRunsOf(a, days) && IsRunsOf(b, days)
    ensures a == b
    decreases |days|
  {
    EmptyOnlyForNoDays(a, days);
    EmptyOnlyForNoDays(b, days);
    if a != [] {
      FirstRunNotShorter(a, b, days);
      FirstRunNotShorter(b, a, days);
      var k := |a[0]|;
      assert days[..k] == a[0] && days[k..] == Flatten(a[1..]);
      assert days[..k] == b[0] && days[k..] == Flatten(b[1..]);
      assert IsWeekly(a[0]);
      RunsAreUnique(a[1..], b[1..], days[k..]);
    }
  }

  lemma {:induction false} EmptyOnlyForNoDays(runs: seq<seq<int>>, days: seq<int>)
    requires IsRunsOf(runs, days)
    ensures runs == [] <==> days == []
  {
  }

  lemma {:induction false} FirstRunNotShorter(a: seq<seq<int>>, b: seq<seq<int>>, days: seq<int>)
    requires IsRunsOf(a, days) && IsRunsOf(b, days) && a != [] && b != []
    ensures |a[0]| >= |b[0]|
  {
    assert IsWeekly(a[0]) && IsWeekly(b[0]);
    assert days == a[0] + Flatten(a[1..]) == b[0] + Flatten(b[1..]);
    var k := |a[0]|;
    assert days[k - 1] == LastDay(a[0]);
    if |a| > 1 {
      assert Flatten(a[1..]) == a[1] + Flatten(a[1..][1..]);
      assert IsWeekly(a[1]);
      assert days[k] == a[1][0];
    }
  }

  /** `weekly_runs`. */
  method CutWeekly(dates: seq<int>) returns (runs: seq<seq<int>>)
    ensures IsRunsOf(runs, Sorted(set d | d in dates))
    ensures runs == Runs(Sorted(set d | d in dates))
  {
    runs := [];
    var days := Sorted(set d | d in dates);
    for i := 0 to |days|
      invariant runs == Runs(days[..i])
    {
      var day := days[i];
      assert days[..i + 1][..i] == days[..i];
      if runs != [] && day - LastDay(runs[|runs| - 1]) == 7 {
        runs := runs[|runs| - 1 := runs[|runs| - 1] + [day]];
      } else {
        runs := runs + [[day]];
      }
    }
    assert days[..|days|] == days;
    RunsCutTheDays(days);
  }
}
