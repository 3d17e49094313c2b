/** app/calendar/ics.py, the calendar event and the order in which events are listed. */
module EventOrder {
  import opened PyText
  import opened CalendarTime

  datatype Event = Event(uid: string, summary: string, location: string, description: string,
                         start: Moment, end: Moment, rrule: Option<string>, sequence: int)

  predicate EarlierMoment(a: Moment, b: Moment) {
    a.day < b.day || (a.day == b.day && a.minute < b.minute)
  }

  /** The sort key `(start, summary)` of `a` comes strictly before that of `b`. */
  predicate KeyBefore(a: Event, b: Event) {
    EarlierMoment(a.start, b.start) || (a.start == b.start && Less(a.summary, b.summary))
  }

  predicate SameKey(a: Event, b: Event) {
    a.start == b.start && a.summary == b.summary
  }

  function Insert(events: seq<Event>, e: Event): seq<Event> {
    if events != [] && KeyBefore(e, events[|events| - 1])
    then Insert(events[..|events| - 1], e) + [events[|events| - 1]]
    else events + [e]
  }

  /** The stable sort of `list.sort`. */
  function StableSort(events: seq<Event>): seq<Event> {
    if events == [] then [] else Insert(StableSort(events[..|events| - 1]), events[|events| - 1])
  }

  predicate InOrder(events: seq<Event>) {
    forall i, j | 0 <= i < j < |events| :: !KeyBefore(events[j], events[i])
  }

  function WithKey(events: seq<Event>, key: Event): seq<Event> {
    if events == [] then []
    else WithKey(events[..|events| - 1], key)
         + (if SameKey(events[|events| - 1], key) then [events[|events| - 1]] else [])
  }

  lemma {:induction false} KeyBeforeAsymmetric(a: Event, b: Event)
    requires KeyBefore(a, b)
    ensures !KeyBefore(b, a) && !SameKey(a, b)
  {
    LessIsStrict(a.summary, b.summary);
  }

  lemma {:induction false} InsertAdds(events: seq<Event>, e: Event)
    ensures multiset(Insert(events, e)) == multiset(events) + multiset{e}
  {
    if events != [] && KeyBefore(e, events[|events| - 1]) {
      var front, last := events[..|events| - 1], events[|events| - 1];
      InsertAdds(front, e);
      assert events == front + [last];
    }
  }

  lemma {:induction false} InsertInOrder(events: seq<Event>, e: Event)
    requires InOrder(events)
    ensures InOrder(Insert(events, e))
  {
    if events != [] {
      var n := |events| - 1;
      var front, last := events[..n], events[n];
      if KeyBefore(e, last) {
        var r := Insert(front, e);
        InsertInOrder(front, e);
        InsertAdds(front, e);
        forall i | 0 <= i < |r| ensures !KeyBefore(last, r[i]) {
          assert r[i] in multiset(r);
          if r[i] == e {
            KeyBeforeAsymmetric(e, last);
          } else {
            assert r[i] in multiset(front);
          }
        }
      } else {
        forall i | 0 <= i < |events| ensures !KeyBefore(e, events[i]) {
          if KeyBefore(e, events[i]) && i < n {
            KeyBeforeBoth(e, events[i], last);
          }
        }
      }
    }
  }

  lemma {:induction false} KeyBeforeBoth(a: Event, b: Event, c: Event)
    requires KeyBefore(a, b) && !KeyBefore(c, b)
    ensures KeyBefore(a, c)
  {
    LessIsStrict(b.summary, c.summary);
    if Less(a.summary, b.summary) && Less(b.summary, c.summary) {
      LessTransitive(a.summary, b.summary, c.summary);
    }
  }

  lemma {:induction false} InsertIsStable(events: seq<Event>, e: Event, key: Event)
    ensures WithKey(Insert(events, e), key) == WithKey(events, key) + (if SameKey(e, key) then [e] else [])
  {
    if events != [] && KeyBefore(e, events[|events| - 1]) {
      var front, last := events[..|events| - 1], events[|events| - 1];
      var r := Insert(front, e);
      InsertIsStable(front, e, key);
      assert (r + [last])[..|r|] == r;
      KeyBeforeAsymmetric(e, last);
    } else {
      assert (events + [e])[..|events|] == events;
    }
  }

  /** Sorting orders the events by key, keeps every event, and leaves events of one key in their order. */
  lemma {:induction false} StableSortSorts(events: seq<Event>)
    ensures InOrder(StableSort(events))
    ensures multiset(StableSort(events)) == multiset(events)
    ensures forall key :: WithKey(StableSort(events), key) == WithKey(events, key)
  {
    if events != [] {
      hide Insert, KeyBefore, SameKey, InOrder;
      var n := |events| - 1;
      StableSortSorts(events[..n]);
      InsertAdds(StableSort(events[..n]), events[n]);
      InsertInOrder(StableSort(events[..n]), events[n]);
      forall key ensures WithKey(StableSort(events), key) == WithKey(events, key) {
        InsertIsStable(StableSort(events[..n]), events[n], key);
      }
      assert events == events[..n] + [events[n]];
    }
  }
}
