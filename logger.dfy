/** avalon/logger.py: an append-only list of events, each tagged with a visibility, and the
    filtered views that players and the operator read. */
module Logger {

  /** EventVisibility. The source stores the enum's string value in each event and filters on
      lists of those values; the three values are modelled as the three constructors. */
  datatype EventVisibility = Public | Evil | Admin

  datatype Event = Event(message: string, visibility: EventVisibility)

  /** a is a subsequence of b: a can be obtained from b by deleting elements. */
  predicate IsSubsequence<T(==)>(a: seq<T>, b: seq<T>)
    decreases |b|
  {
    a == [] || (b != [] && ((a[0] == b[0] && IsSubsequence(a[1..], b[1..])) || IsSubsequence(a, b[1..])))
  }

  lemma {:induction false} SubsequenceTransitive<T>(a: seq<T>, b: seq<T>, c: seq<T>)
    requires IsSubsequence(a, b) && IsSubsequence(b, c)
    ensures IsSubsequence(a, c)
    decreases |c|
  {
    if a != [] {
      assert b != [] && c != [];
      if b[0] == c[0] && IsSubsequence(b[1..], c[1..]) {
        if a[0] == b[0] && IsSubsequence(a[1..], b[1..]) {
          SubsequenceTransitive(a[1..], b[1..], c[1..]);
        } else {
          SubsequenceTransitive(a, b[1..], c[1..]);
        }
      } else {
        SubsequenceTransitive(a, b, c[1..]);
      }
    }
  }

  /** get_events_filtered: the events whose visibility is in the allowed list, in log order. */
  function Filter(events: seq<Event>, allowed: seq<EventVisibility>): (r: seq<Event>)
    ensures IsSubsequence(r, events)
    ensures forall e :: e in r ==> e.visibility in allowed
  {
    if events == [] then []
    else
      var rest := Filter(events[1..], allowed);
      if events[0].visibility in allowed then [events[0]] + rest else rest
  }

  /** The view holds every allowed event exactly as often as the log does, and no other event;
      with the subsequence property this determines the view. */
  lemma {:induction false} FilterCounts(events: seq<Event>, allowed: seq<EventVisibility>)
    ensures forall e :: multiset(Filter(events, allowed))[e] ==
                          if e.visibility in allowed then multiset(events)[e] else 0
  {
    if events != [] {
      FilterCounts(events[1..], allowed);
      assert events == [events[0]] + events[1..];
    }
  }

  /** Every allowed event of the log is in the view. */
  lemma {:induction false} FilterKeepsAllowed(events: seq<Event>, allowed: seq<EventVisibility>)
    ensures forall e :: e in events && e.visibility in allowed ==> e in Filter(events, allowed)
  {
    FilterCounts(events, allowed);
    assert forall e :: e in events ==> multiset(events)[e] > 0;
  }

  lemma {:induction false} FilterAppend(a: seq<Event>, b: seq<Event>, allowed: seq<EventVisibility>)
    ensures Filter(a + b, allowed) == Filter(a, allowed) + Filter(b, allowed)
  {
    var c := a + b;
    if a == [] {
      assert c == b;
    } else {
      assert c[0] == a[0] && c[1..] == a[1..] + b;
      FilterAppend(a[1..], b, allowed);
    }
  }

  /** Logging one event extends every view by that event if the view admits it, and leaves it
      as it was otherwise: a view taken before a log call is a prefix of the view taken after. */
  lemma {:induction false} ViewAfterLog(events: seq<Event>, e: Event, allowed: seq<EventVisibility>)
    ensures Filter(events + [e], allowed) ==
            Filter(events, allowed) + (if e.visibility in allowed then [e] else [])
    ensures Filter(events, allowed) <= Filter(events + [e], allowed)
  {
    FilterAppend(events, [e], allowed);
    assert [e][1..] == [];
  }

  /** Views only grow: the view of a log is a prefix of the view of any extension of it. */
  lemma {:induction false} ViewsMonotone(events: seq<Event>, later: seq<Event>, allowed: seq<EventVisibility>)
    ensures Filter(events, allowed) <= Filter(events + later, allowed)
  {
    FilterAppend(events, later, allowed);
  }

  /** Filtering with a smaller allowed list is filtering the wider view again. */
  lemma {:induction false} FilterNarrows(events: seq<Event>, narrow: seq<EventVisibility>,
                                         wide: seq<EventVisibility>)
    requires forall v :: v in narrow ==> v in wide
    ensures Filter(events, narrow) == Filter(Filter(events, wide), narrow)
    ensures IsSubsequence(Filter(events, narrow), Filter(events, wide))
  {
    if events != [] {
      FilterNarrows(events[1..], narrow, wide);
      var w := Filter(events, wide);
      if events[0].visibility in wide {
        assert w == [events[0]] + Filter(events[1..], wide);
        assert w[0] == events[0] && w[1..] == Filter(events[1..], wide);
      }
    }
  }

  /** A view that admits every event of the log is the whole log. */
  lemma {:induction false} FilterKeepsAll(events: seq<Event>, allowed: seq<EventVisibility>)
    requires forall e :: e in events ==> e.visibility in allowed
    ensures Filter(events, allowed) == events
  {
    if events != [] {
      assert events == [events[0]] + events[1..];
      FilterKeepsAll(events[1..], allowed);
    }
  }

  /** A view that admits no event of the log is empty. */
  lemma {:induction false} FilterDropsAll(events: seq<Event>, allowed: seq<EventVisibility>)
    requires forall e :: e in events ==> e.visibility !in allowed
    ensures Filter(events, allowed) == []
  {
    if events != [] {
      assert events[0] in events;
      FilterDropsAll(events[1..], allowed);
    }
  }

  /** The event e in a view that admits `allowed`. */
  function Admitted(e: Event, allowed: seq<EventVisibility>): seq<Event> {
    if e.visibility in allowed then [e] else []
  }

  /** The view of a log that starts with e. */
  lemma {:induction false} FilterCons(e: Event, rest: seq<Event>, allowed: seq<EventVisibility>)
    ensures Filter([e] + rest, allowed) == Admitted(e, allowed) + Filter(rest, allowed)
  {
    assert ([e] + rest)[0] == e && ([e] + rest)[1..] == rest;
  }

  /** Every event has one of the three visibilities. */
  lemma {:induction false} EveryVisibility(events: seq<Event>)
    ensures forall e :: e in events ==> e.visibility in [Public, Evil, Admin]
  {
    forall e | e in events ensures e.visibility in [Public, Evil, Admin] {
      assert e.visibility == Public || e.visibility == Evil || e.visibility == Admin;
    }
  }

  class GameLogger {
    var events: seq<Event>

    constructor ()
      ensures events == []
    {
      events := [];
    }

    method LogPublic(message: string)
      modifies this`events
      ensures events == old(events) + [Event(message, Public)]
    {
      events := events + [Event(message, Public)];
    }

    method LogEvil(message: string)
      modifies this`events
      ensures events == old(events) + [Event(message, Evil)]
    {
      events := events + [Event(message, Evil)];
    }

    method LogAdmin(message: string)
      modifies this`events
      ensures events == old(events) + [Event(message, Admin)]
    {
      events := events + [Event(message, Admin)];
    }

    function GetEventsFiltered(allowed: seq<EventVisibility>): (r: seq<Event>)
      reads this
      ensures IsSubsequence(r, events)
      ensures forall e :: e in r ==> e.visibility in allowed
      ensures forall e :: e in events && e.visibility in allowed ==> e in r
      ensures forall e :: multiset(r)[e] == if e.visibility in allowed then multiset(events)[e] else 0
    {
      FilterCounts(events, allowed);
      FilterKeepsAllowed(events, allowed);
      Filter(events, allowed)
    }

    /** The view of a loyal player: every public event and nothing else. */
    function GetPublicEvents(): (r: seq<Event>)
      reads this
      ensures IsSubsequence(r, events)
      ensures forall e :: e in r ==> e.visibility == Public
      ensures forall e :: e in events && e.visibility == Public ==> e in r
      ensures forall e :: multiset(r)[e] == if e.visibility == Public then multiset(events)[e] else 0
    {
      GetEventsFiltered([Public])
    }

    /** The view of an evil player: every public and evil event, never an admin event. */
    function GetEvilEvents(): (r: seq<Event>)
      reads this
      ensures IsSubsequence(r, events)
      ensures forall e :: e in r ==> e.visibility == Public || e.visibility == Evil
      ensures forall e :: e in events && (e.visibility == Public || e.visibility == Evil) ==> e in r
      ensures forall e :: multiset(r)[e] ==
                if e.visibility == Public || e.visibility == Evil then multiset(events)[e] else 0
    {
      GetEventsFiltered([Public, Evil])
    }

    /** The operator's view: the whole log, since every event has one of the three visibilities. */
    function GetAdminEvents(): (r: seq<Event>)
      reads this
      ensures r == events
    {
      EveryVisibility(events);
      FilterKeepsAll(events, [Public, Evil, Admin]);
      GetEventsFiltered([Public, Evil, Admin])
    }

    /** The views are nested: public within evil within admin. */
    lemma {:induction false} ViewsNested()
      ensures IsSubsequence(GetPublicEvents(), GetEvilEvents())
      ensures IsSubsequence(GetEvilEvents(), GetAdminEvents())
      ensures IsSubsequence(GetPublicEvents(), GetAdminEvents())
    {
      FilterNarrows(events, [Public], [Public, Evil]);
      SubsequenceTransitive(GetPublicEvents(), GetEvilEvents(), GetAdminEvents());
    }
  }
}
