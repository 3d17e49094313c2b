/** app/main.py, `_read_service_status_summary`: the newest accepted queries of a log scan, kept in a bounded heap. */
module StatusWindow {
  import opened PyText

  type View = nat

  /** A scanned line: it does not parse, it is no query with a public view, or it is one. */
  datatype Line =
    | Unreadable
    | Skipped
    | Query(time: int, runId: string, success: bool, view: View)

  /** An entry of the heap: `(time, run_id, scanned, view)`. */
  datatype Entry = Entry(time: int, runId: string, index: nat, success: bool, view: View)

  function EntryOf(line: Line, index: nat): Entry
    requires line.Query?
  {
    Entry(line.time, line.runId, index, line.success, line.view)
  }

  datatype Summary = Summary(items: seq<View>, acceptedTotal: nat, acceptedSuccess: nat, scanned: nat, parseErrors: nat)

  // ----- the order of the window -----

  /** `a` is the greater in the order of (time, run id, scan index), so it is listed first. */
  predicate Above(a: Entry, b: Entry) {
    || a.time > b.time
    || (a.time == b.time && Less(b.runId, a.runId))
    || (a.time == b.time && a.runId == b.runId && a.index > b.index)
  }

  lemma {:induction false} AboveIsTotal(a: Entry, b: Entry)
    requires a.index != b.index
    ensures Above(a, b) <==> !Above(b, a)
  {
    LessIsStrict(a.runId, b.runId);
  }

  lemma {:induction false} AboveIsTransitive(a: Entry, b: Entry, c: Entry)
    requires Above(a, b) && Above(b, c)
    ensures Above(a, c)
  {
    LessIsStrict(a.runId, b.runId);
    if Less(c.runId, b.runId) && Less(b.runId, a.runId) {
      LessTransitive(c.runId, b.runId, a.runId);
    }
  }

  ghost predicate Descends(s: seq<Entry>) {
    forall i, j | 0 <= i < j < |s| :: Above(s[i], s[j])
  }

  ghost predicate OneIndexEach(s: seq<Entry>) {
    forall i, j | 0 <= i < j < |s| :: s[i].index != s[j].index
  }

  function Insert(s: seq<Entry>, e: Entry): seq<Entry> {
    if s == [] || Above(e, s[0]) then [e] + s else [s[0]] + Insert(s[1..], e)
  }

  /** All entries in descending order. */
  function Sorted(entries: seq<Entry>): seq<Entry> {
    if entries == [] then [] else Insert(Sorted(entries[..|entries| - 1]), entries[|entries| - 1])
  }

  function Front(s: seq<Entry>, limit: nat): seq<Entry> {
    if |s| <= limit then s else s[..limit]
  }

  lemma {:induction false} InsertElements(s: seq<Entry>, e: Entry)
    ensures |Insert(s, e)| == |s| + 1
    ensures multiset(Insert(s, e)) == multiset(s) + multiset{e}
  {
    if s != [] && !Above(e, s[0]) {
      InsertElements(s[1..], e);
      assert s == [s[0]] + s[1..];
    }
  }

  lemma {:induction false} InsertDescends(s: seq<Entry>, e: Entry)
    requires Descends(s) && forall i | 0 <= i < |s| :: s[i].index != e.index
    ensures Descends(Insert(s, e))
  {
    if s == [] {
    } else if Above(e, s[0]) {
      forall j | 0 <= j < |s| ensures Above(e, s[j]) {
        if j > 0 {
          AboveIsTransitive(e, s[0], s[j]);
        }
      }
    } else {
      AboveIsTotal(s[0], e);
      InsertDescends(s[1..], e);
      var rest := Insert(s[1..], e);
      InsertElements(s[1..], e);
      forall j | 0 <= j < |rest| ensures Above(s[0], rest[j]) {
        assert rest[j] in multiset(rest);
        if rest[j] != e {
          assert rest[j] in s[1..];
        }
      }
    }
  }

  /** Sorting lists every entry once, in descending order. */
  lemma {:induction false} SortedSorts(entries: seq<Entry>)
    requires OneIndexEach(entries)
    ensures Descends(Sorted(entries)) && multiset(Sorted(entries)) == multiset(entries) && |Sorted(entries)| == |entries|
  {
    if entries != [] {
      var n := |entries| - 1;
      SortedSorts(entries[..n]);
      InsertElements(Sorted(entries[..n]), entries[n]);
      assert entries == entries[..n] + [entries[n]];
      var s := Sorted(entries[..n]);
      forall i | 0 <= i < |s| ensures s[i].index != entries[n].index {
        assert s[i] in multiset(entries[..n]);
      }
      InsertDescends(s, entries[n]);
    }
  }

  lemma {:induction false} FrontOfCons(e: Entry, s: seq<Entry>, limit: nat)
    ensures Front([e] + s, limit) == if limit == 0 then [] else [e] + Front(s, limit - 1)
  {
  }

  /** Keeping only the front loses nothing an insertion could bring back. */
  lemma {:induction false} FrontOfInsert(s: seq<Entry>, e: Entry, limit: nat)
    ensures Front(Insert(s, e), limit) == Front(Insert(Front(s, limit), e), limit)
  {
    hide Above;
    if s == [] || limit == 0 {
    } else {
      var rest := s[1..];
      var front := Front(rest, limit - 1);
      assert s == [s[0]] + rest;
      FrontOfCons(s[0], rest, limit);
      assert Front(s, limit)[1..] == front;
      if Above(e, s[0]) {
        FrontOfCons(e, s, limit);
        FrontOfCons(e, Front(s, limit), limit);
        FrontTwice(s, limit);
      } else {
        FrontOfInsert(rest, e, limit - 1);
        FrontOfCons(s[0], Insert(rest, e), limit);
        FrontOfCons(s[0], Insert(front, e), limit);
      }
    }
  }

  lemma {:induction false} FrontTwice(s: seq<Entry>, limit: nat)
    requires limit > 0
    ensures Front(Front(s, limit), limit - 1) == Front(s, limit - 1)
  {
  }

  // ----- the scan -----

  function ScannedCount(total: nat, scanLimit: int): nat {
    if scanLimit == 0 then total
    else if scanLimit < 0 then 0
    else if scanLimit < total then scanLimit
    else total
  }

  predicate IsSeen(entries: seq<Entry>, runId: string) {
    runId != "" && exists i | 0 <= i < |entries| :: entries[i].runId == runId
  }

  /** The accepted queries in scan order: of a run id that is not empty only the first. */
  function Accepted(lines: seq<Line>): seq<Entry> {
    if lines == [] then []
    else
      var before := Accepted(lines[..|lines| - 1]);
      var line := lines[|lines| - 1];
      if line.Query? && !IsSeen(before, line.runId)
      then before + [EntryOf(line, |lines|)]
      else before
  }

  function Successes(entries: seq<Entry>): nat {
    if entries == [] then 0
    else Successes(entries[..|entries| - 1]) + (if entries[|entries| - 1].success then 1 else 0)
  }

  function Errors(lines: seq<Line>): nat {
    if lines == [] then 0
    else Errors(lines[..|lines| - 1]) + (if lines[|lines| - 1].Unreadable? then 1 else 0)
  }

  function Views(entries: seq<Entry>): seq<View> {
    seq(|entries|, i requires 0 <= i < |entries| => entries[i].view)
  }

  lemma {:induction false} AcceptedIndices(lines: seq<Line>)
    ensures OneIndexEach(Accepted(lines))
    ensures forall i | 0 <= i < |Accepted(lines)| :: 1 <= Accepted(lines)[i].index <= |lines|
  {
    if lines != [] {
      AcceptedIndices(lines[..|lines| - 1]);
    }
  }

  predicate IsQueryOf(line: Line, runId: string) {
    line.Query? && line.runId == runId
  }

  lemma {:induction false} SeenIsEarlier(lines: seq<Line>, runId: string)
    requires runId != ""
    ensures IsSeen(Accepted(lines), runId) <==> exists j | 0 <= j < |lines| :: IsQueryOf(lines[j], runId)
  {
    if lines != [] {
      var n := |lines| - 1;
      var before := Accepted(lines[..n]);
      SeenIsEarlier(lines[..n], runId);
      if IsSeen(before, runId) {
        var i :| 0 <= i < |before| && before[i].runId == runId;
        assert Accepted(lines)[i].runId == runId;
        var j :| 0 <= j < n && IsQueryOf(lines[..n][j], runId);
        assert IsQueryOf(lines[j], runId);
      } else {
        forall j | 0 <= j < n ensures !IsQueryOf(lines[j], runId) {
          assert lines[..n][j] == lines[j];
        }
        if IsQueryOf(lines[n], runId) {
          assert Accepted(lines)[|before|].runId == runId;
        }
      }
    }
  }

  ghost predicate Lists(entries: seq<Entry>, index: nat) {
    exists i | 0 <= i < |entries| :: entries[i].index == index
  }

  lemma {:induction false} ListsMore(entries: seq<Entry>, e: Entry, index: nat)
    ensures Lists(entries + [e], index) <==> Lists(entries, index) || e.index == index
  {
    if Lists(entries, index) {
      var i :| 0 <= i < |entries| && entries[i].index == index;
      assert (entries + [e])[i].index == index;
    }
    if e.index == index {
      assert (entries + [e])[|entries|].index == index;
    }
  }

  /** A line is accepted exactly when it is a query and no line scanned before it is a query with the same run id. */
  lemma {:induction false} AcceptedAreFirsts(lines: seq<Line>, k: nat)
    requires k < |lines|
    ensures Lists(Accepted(lines), k + 1)
            <==> lines[k].Query? && (lines[k].runId == "" || forall j | 0 <= j < k :: !IsQueryOf(lines[j], lines[k].runId))
  {
    var n := |lines| - 1;
    var line, before := lines[n], Accepted(lines[..n]);
    if line.Query? {
      ListsMore(before, EntryOf(line, |lines|), k + 1);
    }
    if k < n {
      AcceptedAreFirsts(lines[..n], k);
      assert lines[..n][k] == lines[k] && forall j | 0 <= j < k :: lines[..n][j] == lines[j];
    } else {
      AcceptedIndices(lines[..n]);
      assert !Lists(before, k + 1);
      if line.Query? && line.runId != "" {
        SeenIsEarlier(lines[..n], line.runId);
        assert forall j | 0 <= j < n :: lines[..n][j] == lines[j];
      }
    }
  }

  // ----- the heap -----

  ghost function Elements(s: seq<Entry>): set<Entry> {
    set i | 0 <= i < |s| :: s[i]
  }

  lemma {:induction false} ElementsCount(s: seq<Entry>)
    requires Descends(s)
    ensures |Elements(s)| == |s|
  {
    if s == [] {
      assert Elements(s) == {};
    } else {
      var n := |s| - 1;
      ElementsCount(s[..n]);
      assert Elements(s) == Elements(s[..n]) + {s[n]};
      AboveIsStrict(s[n]);
      hide Above;
      assert forall i | 0 <= i < n :: Above(s[i], s[n]) && s[..n][i] == s[i];
    }
  }

  lemma {:induction false} AboveIsStrict(a: Entry)
    ensures !Above(a, a)
  {
    LessIsStrict(a.runId, a.runId);
  }

  lemma {:induction false} NoElements(s: seq<Entry>)
    ensures Elements(s) == {} <==> s == []
  {
    if s != [] {
      assert s[0] in Elements(s);
    }
  }

  ghost predicate IsLeast(e: Entry, window: set<Entry>) {
    e in window && forall o | o in window && o != e :: Above(o, e)
  }

  ghost predicate IsGreatest(e: Entry, window: set<Entry>) {
    e in window && forall o | o in window && o != e :: Above(e, o)
  }

  lemma {:induction false} NotBoth(a: Entry, b: Entry)
    ensures !(Above(a, b) && Above(b, a))
  {
    LessIsStrict(a.runId, b.runId);
  }

  /** The least of a descending sequence is its last. */
  lemma {:induction false} LeastIsLast(s: seq<Entry>)
    requires Descends(s) && s != []
    ensures forall e :: IsLeast(e, Elements(s)) <==> e == s[|s| - 1]
    ensures Elements(s) - {s[|s| - 1]} == Elements(s[..|s| - 1])
  {
    var n := |s| - 1;
    AboveIsStrict(s[n]);
    assert forall x | x in Elements(s) && x != s[n] :: Above(x, s[n]);
    forall e | IsLeast(e, Elements(s)) ensures e == s[n] {
      NotBoth(e, s[n]);
    }
    assert IsLeast(s[n], Elements(s));
    assert forall i | 0 <= i < n :: Above(s[i], s[n]);
  }

  lemma {:induction false} GreatestIsFirst(s: seq<Entry>)
    requires Descends(s) && s != []
    ensures forall e :: IsGreatest(e, Elements(s)) <==> e == s[0]
    ensures Elements(s) - {s[0]} == Elements(s[1..])
  {
    AboveIsStrict(s[0]);
    assert forall x | x in Elements(s) && x != s[0] :: Above(s[0], x);
    forall e | IsGreatest(e, Elements(s)) ensures e == s[0] {
      NotBoth(e, s[0]);
    }
    assert IsGreatest(s[0], Elements(s));
    assert forall i | 0 < i < |s| :: Above(s[0], s[i]);
    forall x ensures x in Elements(s) - {s[0]} <==> x in Elements(s[1..]) {
      if x in Elements(s) - {s[0]} {
        var i :| 0 <= i < |s| && s[i] == x;
        assert s[1..][i - 1] == x;
      }
    }
  }

  /** `heappop`: takes out the least entry. */
  method HeapPop(window: set<Entry>, ghost s: seq<Entry>) returns (rest: set<Entry>)
    requires Descends(s) && s != [] && window == Elements(s)
    ensures rest == Elements(s[..|s| - 1])
  {
    LeastIsLast(s);
    assert IsLeast(s[|s| - 1], window);
    var e: Entry :| e in window && forall o | o in window && o != e :: Above(o, e);
    assert IsLeast(e, window);
    rest := window - {e};
  }

  /** `window.sort(reverse=True)`. */
  method SortWindow(heap: set<Entry>, ghost s: seq<Entry>) returns (sorted: seq<Entry>)
    requires Descends(s) && heap == Elements(s)
    ensures sorted == s
  {
    sorted := [];
    var window := heap;
    assert s[0..] == s;
    while window != {}
      invariant |sorted| <= |s| && sorted == s[..|sorted|] && window == Elements(s[|sorted|..])
      decreases |window|
    {
      ghost var rest := s[|sorted|..];
      GreatestIsFirst(rest);
      assert IsGreatest(rest[0], window);
      var e: Entry :| e in window && forall o | o in window && o != e :: Above(e, o);
      assert IsGreatest(e, window);
      assert s[..|sorted| + 1] == s[..|sorted|] + [e] && rest[1..] == s[|sorted| + 1..];
      sorted, window := sorted + [e], window - {e};
    }
    NoElements(s[|sorted|..]);
  }

  lemma {:induction false} FrontDescends(all: seq<Entry>, limit: nat)
    requires OneIndexEach(all)
    ensures Descends(Front(Sorted(all), limit))
    ensures forall x | x in Front(Sorted(all), limit) :: x in all
  {
    SortedSorts(all);
    var s := Sorted(all);
    hide Sorted;
    forall x | x in Front(s, limit) ensures x in all {
      assert x in multiset(s);
      assert x in multiset(all);
    }
  }

  lemma {:induction false} ElementsOfInsert(s: seq<Entry>, e: Entry)
    ensures Elements(Insert(s, e)) == Elements(s) + {e}
  {
    InsertElements(s, e);
    var pushed := Insert(s, e);
    hide Insert;
    forall x ensures x in Elements(pushed) <==> x in Elements(s) + {e} {
      assert x in multiset(pushed) <==> x in multiset(s) + multiset{e};
      assert x in Elements(pushed) <==> x in pushed;
      assert x in Elements(s) <==> x in s;
    }
  }

  /** One entry pushed, and the least popped when the window is too long. */
  lemma {:induction false} PushKeeps(all: seq<Entry>, e: Entry, limit: nat)
    requires OneIndexEach(all + [e])
    ensures var pushed := Insert(Front(Sorted(all), limit), e);
            && Descends(pushed) && pushed != []
            && Elements(pushed) == Elements(Front(Sorted(all), limit)) + {e}
            && |Elements(pushed)| == |pushed| <= limit + 1
            && Front(Sorted(all + [e]), limit) == if |pushed| > limit then pushed[..|pushed| - 1] else pushed
  {
    assert forall i | 0 <= i < |all| :: (all + [e])[i] == all[i];
    FrontDescends(all, limit);
    assert (all + [e])[..|all|] == all;
    FrontOfInsert(Sorted(all), e, limit);
    assert Sorted(all + [e]) == Insert(Sorted(all), e);
    var front := Front(Sorted(all), limit);
    hide Sorted;
    forall i | 0 <= i < |front| ensures front[i].index != e.index {
      assert front[i] in front;
      var j :| 0 <= j < |all| && all[j] == front[i];
      assert (all + [e])[j].index != (all + [e])[|all|].index;
    }
    InsertDescends(front, e);
    InsertElements(front, e);
    ElementsOfInsert(front, e);
    hide Insert;
    ElementsCount(Insert(front, e));
  }

  /** The state of the scan after the lines `read`. */
  ghost predicate Progress(read: seq<Line>, limit: nat, seen: set<string>, total: nat, success: nat, errors: nat, window: set<Entry>) {
    var all := Accepted(read);
    && (forall id :: id in seen <==> IsSeen(all, id))
    && total == |all| && success == Successes(all) && errors == Errors(read)
    && window == Elements(Front(Sorted(all), limit))
  }

  predicate Accepts(seen: set<string>, line: Line) {
    line.Query? && (line.runId == "" || line.runId !in seen)
  }

  lemma {:induction false} LineSkipped(read: seq<Line>, line: Line, limit: nat, seen: set<string>, total: nat, success: nat,
                                       errors: nat, window: set<Entry>)
    requires Progress(read, limit, seen, total, success, errors, window) && !Accepts(seen, line)
    ensures Progress(read + [line], limit, seen, total, success, errors + (if line.Unreadable? then 1 else 0), window)
  {
  }

  /** What the heap holds before anything is popped. */
  function Pushed(read: seq<Line>, e: Entry, limit: nat): seq<Entry> {
    Insert(Front(Sorted(Accepted(read)), limit), e)
  }

  lemma {:induction false} LinePushed(read: seq<Line>, line: Line, limit: nat)
    requires line.Query? && !IsSeen(Accepted(read), line.runId)
    ensures var e := EntryOf(line, |read| + 1);
            var pushed := Pushed(read, e, limit);
            && Descends(pushed) && pushed != [] && |Elements(pushed)| == |pushed| <= limit + 1
            && Elements(pushed) == Elements(Front(Sorted(Accepted(read)), limit)) + {e}
            && Front(Sorted(Accepted(read + [line])), limit) == if |pushed| > limit then pushed[..|pushed| - 1] else pushed
  {
    hide Accepted, Sorted, Errors, Successes, Elements, Front, Insert, IsSeen, Descends, OneIndexEach;
    AcceptedGrows(read, line);
    AcceptedIndices(read + [line]);
    PushKeeps(Accepted(read), EntryOf(line, |read| + 1), limit);
  }

  lemma {:induction false} AcceptsUnseen(all: seq<Entry>, seen: set<string>, line: Line)
    requires (forall id :: id in seen <==> IsSeen(all, id)) && Accepts(seen, line)
    ensures !IsSeen(all, line.runId)
  {
  }

  lemma {:induction false} LineAccepted(read: seq<Line>, line: Line, limit: nat, seen: set<string>, total: nat, success: nat,
                                        errors: nat, window: set<Entry>)
    requires Progress(read, limit, seen, total, success, errors, window) && Accepts(seen, line)
    ensures var e := EntryOf(line, |read| + 1);
            var pushed := Pushed(read, e, limit);
            && Descends(pushed) && pushed != [] && window + {e} == Elements(pushed) && |Elements(pushed)| == |pushed| <= limit + 1
            && Progress(read + [line], limit, if line.runId != "" then seen + {line.runId} else seen, total + 1,
                        success + (if line.success then 1 else 0), errors,
                        Elements(if |pushed| > limit then pushed[..|pushed| - 1] else pushed))
  {
    hide Accepted, Sorted, Errors, Successes, Elements, Front, Pushed, IsSeen, Descends;
    AcceptsUnseen(Accepted(read), seen, line);
    LinePushed(read, line, limit);
    AcceptedGrows(read, line);
    SeenGrows(Accepted(read), EntryOf(line, |read| + 1));
  }

  lemma {:induction false} AcceptedGrows(read: seq<Line>, line: Line)
    requires line.Query? && !IsSeen(Accepted(read), line.runId)
    ensures var all := Accepted(read);
            var e := EntryOf(line, |read| + 1);
            && Accepted(read + [line]) == all + [e]
            && Successes(all + [e]) == Successes(all) + (if line.success then 1 else 0)
            && Errors(read + [line]) == Errors(read)
  {
  }

  function LimitOf(recentLimit: int): nat {
    if recentLimit > 0 then recentLimit else 0
  }

  /** An accepted query: remembered, counted, pushed on the heap, and the least entry popped if the heap is over the limit. */
  method AcceptQuery(ghost read: seq<Line>, line: Line, recentLimit: int, seen: set<string>, total: nat, success: nat,
                     ghost errors: nat, window: set<Entry>, scanned: nat)
    returns (newSeen: set<string>, newTotal: nat, newSuccess: nat, newWindow: set<Entry>)
    requires Progress(read, LimitOf(recentLimit), seen, total, success, errors, window) && Accepts(seen, line)
    requires scanned == |read| + 1
    ensures Progress(read + [line], LimitOf(recentLimit), newSeen, newTotal, newSuccess, errors, newWindow)
  {
    hide Progress, Pushed, Descends, Elements, EntryOf, IsSeen, Accepted, Sorted, Front, Insert, Successes, Errors, Above, Less;
    LineAccepted(read, line, LimitOf(recentLimit), seen, total, success, errors, window);
    ghost var pushed := Pushed(read, EntryOf(line, scanned), LimitOf(recentLimit));
    newSeen := if line.runId != "" then seen + {line.runId} else seen;
    newTotal, newSuccess := total + 1, success + (if line.success then 1 else 0);
    newWindow := window + {EntryOf(line, scanned)};
    if |newWindow| > recentLimit {
      newWindow := HeapPop(newWindow, pushed);
    }
  }

  /** The loop over the lines, up to the scan limit. */
  method ScanLines(lines: seq<Line>, recentLimit: int, scanLimit: int)
    returns (ghost seen: set<string>, total: nat, success: nat, scanned: nat, errors: nat, window: set<Entry>)
    ensures scanned == ScannedCount(|lines|, scanLimit) <= |lines|
    ensures Progress(lines[..scanned], LimitOf(recentLimit), seen, total, success, errors, window)
  {
    hide Above, Progress, Sorted, Accepted, Successes, Errors, Front, Insert, Elements, Descends, Less, IsSeen, LimitOf;
    var known: set<string> := {};
    window, total, success, scanned, errors := {}, 0, 0, 0, 0;
    NothingRead(LimitOf(recentLimit));
    ghost var read := lines[..0];
    while scanned < |lines| && !(scanLimit != 0 && scanned >= (if scanLimit > 0 then scanLimit else 0))
      invariant 0 <= scanned <= ScannedCount(|lines|, scanLimit) && read == lines[..scanned]
      invariant Progress(read, LimitOf(recentLimit), known, total, success, errors, window)
    {
      var line := lines[scanned];
      ghost var before := read;
      scanned, read := scanned + 1, read + [line];
      if !line.Query? || (line.runId != "" && line.runId in known) {
        LineSkipped(before, line, LimitOf(recentLimit), known, total, success, errors, window);
        errors := errors + (if line.Unreadable? then 1 else 0);
        continue;
      }
      known, total, success, window := AcceptQuery(before, line, recentLimit, known, total, success, errors, window, scanned);
    }
    seen := known;
  }

  /**
   * The summary of a scan: the views of the first `recentLimit` entries of all accepted queries in descending order, and the
   * counts over the same accepted queries.
   */
  method ReadSummary(lines: seq<Line>, recentLimit: int, scanLimit: int) returns (summary: Summary)
    ensures var scanned := lines[..ScannedCount(|lines|, scanLimit)];
            var all := Accepted(scanned);
            summary == Summary(Views(Front(Sorted(all), LimitOf(recentLimit))),
                               |all|, Successes(all), |scanned|, Errors(scanned))
  {
    hide Above, Progress, Sorted, Accepted, Successes, Errors, Front, Elements, Descends, Views;
    ghost var seen;
    var total, success, scanned, errors, window;
    seen, total, success, scanned, errors, window := ScanLines(lines, recentLimit, scanLimit);
    WindowIsFront(lines[..scanned], LimitOf(recentLimit), seen, total, success, errors, window);
    var sorted := SortWindow(window, Front(Sorted(Accepted(lines[..scanned])), LimitOf(recentLimit)));
    return Summary(Views(sorted), total, success, scanned, errors);
  }

  lemma {:induction false} NothingRead(limit: nat)
    ensures Progress([], limit, {}, 0, 0, 0, {})
  {
  }

  lemma {:induction false} WindowIsFront(read: seq<Line>, limit: nat, seen: set<string>, total: nat, success: nat,
                                         errors: nat, window: set<Entry>)
    requires Progress(read, limit, seen, total, success, errors, window)
    ensures var all := Accepted(read);
            && Descends(Front(Sorted(all), limit)) && window == Elements(Front(Sorted(all), limit))
            && total == |all| && success == Successes(all) && errors == Errors(read)
  {
    AcceptedIndices(read);
    FrontDescends(Accepted(read), limit);
  }

  lemma {:induction false} SeenGrows(all: seq<Entry>, e: Entry)
    ensures forall id :: IsSeen(all + [e], id) <==> IsSeen(all, id) || (id != "" && id == e.runId)
  {
    forall id ensures IsSeen(all + [e], id) <==> IsSeen(all, id) || (id != "" && id == e.runId) {
      if IsSeen(all, id) {
        var i :| 0 <= i < |all| && all[i].runId == id;
        assert (all + [e])[i].runId == id;
      }
      if id != "" && id == e.runId {
        assert (all + [e])[|all|].runId == id;
      }
    }
  }

  // ----- what the summary shows -----

  /** The entry tells what its line says, under the number of the line. */
  predicate IsOfLine(e: Entry, lines: seq<Line>) {
    && 1 <= e.index <= |lines|
    && lines[e.index - 1] == Query(e.time, e.runId, e.success, e.view)
  }

  lemma {:induction false} AcceptedAreLines(lines: seq<Line>)
    ensures forall i | 0 <= i < |Accepted(lines)| :: IsOfLine(Accepted(lines)[i], lines)
  {
    if lines != [] {
      var n := |lines| - 1;
      AcceptedAreLines(lines[..n]);
      forall i | 0 <= i < |Accepted(lines)| ensures IsOfLine(Accepted(lines)[i], lines) {
        if i < |Accepted(lines[..n])| {
          assert IsOfLine(Accepted(lines[..n])[i], lines[..n]);
        }
      }
    }
  }

  /** The entries a summary shows. */
  function Shown(lines: seq<Line>, limit: nat): seq<Entry> {
    Front(Sorted(Accepted(lines)), limit)
  }

  lemma {:induction false} DescendingTimes(sorted: seq<Entry>, limit: nat)
    requires Descends(sorted)
    ensures var shown := Front(sorted, limit);
            && (forall i, j | 0 <= i < j < |shown| :: shown[i].time >= shown[j].time && shown[i] != shown[j])
            && (forall e, f | e in shown && f in sorted && f !in shown :: e.time >= f.time)
  {
    var shown := Front(sorted, limit);
    forall i, j | 0 <= i < j < |shown| ensures shown[i].time >= shown[j].time && shown[i] != shown[j] {
      assert Above(sorted[i], sorted[j]);
      AboveIsStrict(sorted[i]);
    }
    forall e, f | e in shown && f in sorted && f !in shown ensures e.time >= f.time {
      var i, j :| 0 <= i < |shown| && shown[i] == e && 0 <= j < |sorted| && sorted[j] == f;
      assert j >= |shown|;
      assert Above(sorted[i], sorted[j]);
    }
  }

  /** What is shown are accepted lines, as many as the limit allows. */
  lemma {:induction false} ShownAreLines(lines: seq<Line>, limit: nat)
    ensures var shown, all := Shown(lines, limit), Accepted(lines);
            && |shown| == (if |all| <= limit then |all| else limit)
            && (forall i | 0 <= i < |shown| :: shown[i] in all && IsOfLine(shown[i], lines))
  {
    var shown, all, sorted := Shown(lines, limit), Accepted(lines), Sorted(Accepted(lines));
    AcceptedAreLines(lines);
    AcceptedIndices(lines);
    SortedSorts(all);
    hide Accepted, Sorted, IsOfLine, Descends, OneIndexEach;
    forall i | 0 <= i < |shown| ensures shown[i] in all && IsOfLine(shown[i], lines) {
      assert shown[i] == sorted[i];
      assert sorted[i] in multiset(sorted);
      assert sorted[i] in all;
    }
  }

  /** They are listed each once, newest first, and no accepted line that is not shown is newer than one that is. */
  lemma {:induction false} ShownAreNewest(lines: seq<Line>, limit: nat)
    ensures var shown, all := Shown(lines, limit), Accepted(lines);
            && (forall i, j | 0 <= i < j < |shown| :: shown[i].time >= shown[j].time && shown[i] != shown[j])
            && (forall e, f | e in shown && f in all && f !in shown :: e.time >= f.time)
  {
    var shown, all, sorted := Shown(lines, limit), Accepted(lines), Sorted(Accepted(lines));
    AcceptedIndices(lines);
    SortedSorts(all);
    DescendingTimes(sorted, limit);
    hide Accepted, Sorted, Descends, OneIndexEach;
    forall e, f | e in shown && f in all && f !in shown ensures e.time >= f.time {
      assert f in multiset(all);
      assert f in sorted;
    }
  }

  ghost function LinesThat(lines: seq<Line>, test: Line -> bool): set<nat> {
    set k: nat | k < |lines| && test(lines[k])
  }

  lemma {:induction false} LinesThatGrow(lines: seq<Line>, test: Line -> bool)
    requires lines != []
    ensures var n := |lines| - 1;
            |LinesThat(lines, test)| == |LinesThat(lines[..n], test)| + (if test(lines[n]) then 1 else 0)
  {
    var n := |lines| - 1;
    assert LinesThat(lines, test) == LinesThat(lines[..n], test) + (if test(lines[n]) then {n} else {});
  }

  /** The errors are the lines that do not parse. */
  lemma {:induction false} ErrorsAreCounted(lines: seq<Line>)
    ensures Errors(lines) == |LinesThat(lines, (line: Line) => line.Unreadable?)|
  {
    var test := (line: Line) => line.Unreadable?;
    if lines == [] {
      assert LinesThat(lines, test) == {};
    } else {
      ErrorsAreCounted(lines[..|lines| - 1]);
      LinesThatGrow(lines, test);
    }
  }

  ghost function Successful(entries: seq<Entry>): set<nat> {
    set i: nat | i < |entries| && entries[i].success
  }

  /** The successes are the accepted queries that succeeded. */
  lemma {:induction false} SuccessesAreCounted(entries: seq<Entry>)
    ensures Successes(entries) == |Successful(entries)|
  {
    if entries == [] {
      assert Successful(entries) == {};
    } else {
      var n := |entries| - 1;
      SuccessesAreCounted(entries[..n]);
      assert Successful(entries) == Successful(entries[..n]) + (if entries[n].success then {n} else {});
    }
  }
}
