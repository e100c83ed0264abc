/** How the status of a time record and of its events reach each other
    (backend/services/otl_client.py, backend/api/v1/timecards.py). The empty string
    stands for a missing status. */
module Statuses {
  /** `own` is the status read from the `timeStatuses` field, `shown` the `eventStatus`. */
  datatype Event = Event(own: string, shown: string)

  datatype Item = Item(own: string, shown: string, events: seq<Event>)

  function Or(a: string, b: string): string { if a != "" then a else b }

  /** One pass over the events, carrying the item's status along. */
  function PassEvents(carried: string, events: seq<Event>): (seq<Event>, string)
    decreases |events|
  {
    if events == [] then ([], carried)
    else
      var e := events[0];
      var status := Or(Or(e.own, e.shown), carried);
      var (rest, last) := PassEvents(Or(carried, status), events[1..]);
      ([e.(shown := Or(e.shown, status))] + rest, last)
  }

  function Pass(r: Item): Item {
    var (events, last) := PassEvents(Or(r.own, r.shown), r.events);
    Item(r.own, Or(r.shown, last), events)
  }

  /** A time record, whose shown statuses are filled in place. */
  class TimeRecord {
    const own: string
    var shown: string
    var events: seq<Event>

    function Now(): Item reads this { Item(own, shown, events) }

    constructor (r: Item)
      ensures Now() == r
    {
      own, shown, events := r.own, r.shown, r.events;
    }

    method Propagate()
      modifies this
      ensures Now() == Pass(old(Now()))
    {
      var carried := own;
      if carried == "" && shown != "" {
        carried := shown;
      }
      ghost var was := events;
      ghost var all := PassEvents(carried, was);
      SameLength(carried, was);
      assert was[0..] == was && all.0[0..] == all.0;
      for i := 0 to |events|
        invariant |events| == |was| && shown == old(shown)
        invariant forall k | 0 <= k < i :: events[k] == all.0[k]
        invariant forall k | i <= k < |was| :: events[k] == was[k]
        invariant all.0[i..] == PassEvents(carried, was[i..]).0 && all.1 == PassEvents(carried, was[i..]).1
      {
        var e := events[i];
        var status := e.own;
        if status == "" && e.shown != "" {
          status := e.shown;
        }
        if status == "" && carried != "" {
          status := carried;
        }
        assert status == Or(Or(e.own, e.shown), carried);
        OneEvent(carried, was, all, i);
        ghost var before := events;
        if status != "" && e.shown == "" {
          events := events[i := e.(shown := status)];
        }
        assert events == before[i := all.0[i]];
        if carried == "" && status != "" {
          carried := status;
        }
      }
      assert events == all.0;
      if carried != "" && shown == "" {
        shown := carried;
      }
    }
  }

  lemma {:induction false} SameLength(carried: string, events: seq<Event>)
    ensures |PassEvents(carried, events).0| == |events|
    decreases |events|
  {
    if events == [] {
    } else {
      var status := Or(Or(events[0].own, events[0].shown), carried);
      SameLength(Or(carried, status), events[1..]);
    }
  }

  /** What the pass makes of event `i`, and what it carries on from there. */
  lemma {:induction false} OneEvent(carried: string, was: seq<Event>, all: (seq<Event>, string), i: nat)
    requires i < |was| == |all.0|
    requires all.0[i..] == PassEvents(carried, was[i..]).0 && all.1 == PassEvents(carried, was[i..]).1
    ensures var e := was[i];
            var status := Or(Or(e.own, e.shown), carried);
            && all.0[i] == e.(shown := Or(e.shown, status))
            && all.0[i + 1..] == PassEvents(Or(carried, status), was[i + 1..]).0
            && all.1 == PassEvents(Or(carried, status), was[i + 1..]).1
  {
    assert was[i..][0] == was[i] && was[i..][1..] == was[i + 1..];
    assert all.0[i..][0] == all.0[i] && all.0[i..][1..] == all.0[i + 1..];
  }

  /** The pass over a whole list of records. */
  method PropagateAll(items: seq<TimeRecord>)
    requires forall i, j | 0 <= i < j < |items| :: items[i] != items[j]
    modifies set i | 0 <= i < |items| :: items[i]
    ensures forall i | 0 <= i < |items| :: items[i].Now() == Pass(old(items[i].Now()))
  {
    for n := 0 to |items|
      invariant forall i | 0 <= i < n :: items[i].Now() == Pass(old(items[i].Now()))
      invariant forall i | n <= i < |items| :: items[i].Now() == old(items[i].Now())
    {
      items[n].Propagate();
    }
  }

  // ---------------------------------------------------------------- what two passes do

  function FirstOf(events: seq<Event>): string {
    if events == [] then "" else Or(Or(events[0].own, events[0].shown), FirstOf(events[1..]))
  }

  /** The status everyone ends up with who has none: the item's, or else the first one
      among its events. */
  function Source(r: Item): string { Or(Or(r.own, r.shown), FirstOf(r.events)) }

  function Filled(events: seq<Event>, source: string): seq<Event> {
    if events == [] then []
    else [events[0].(shown := Or(events[0].shown, Or(events[0].own, source)))] + Filled(events[1..], source)
  }

  /** Every missing shown status filled, from the record's own statuses or the source;
      no present one touched. */
  function Final(r: Item): Item {
    Item(r.own, Or(r.shown, Source(r)), Filled(r.events, Source(r)))
  }

  lemma {:induction false} CarriedFills(carried: string, events: seq<Event>)
    requires carried != ""
    ensures PassEvents(carried, events) == (Filled(events, carried), carried)
  {
    if events == [] {
    } else {
      CarriedFills(carried, events[1..]);
    }
  }

  /** A first pass hands the item the source; what it skips, a second pass fills. */
  lemma {:induction false} TwoPasses(carried: string, events: seq<Event>)
    decreases |events|
    ensures var source := Or(carried, FirstOf(events));
            var (once, last) := PassEvents(carried, events);
            last == source && Filled(once, source) == Filled(events, source)
  {
    if events == [] {
    } else {
      var e := events[0];
      var status := Or(Or(e.own, e.shown), carried);
      var next := Or(carried, status);
      TwoPasses(next, events[1..]);
      var rest := PassEvents(next, events[1..]).0;
      var source := Or(carried, FirstOf(events));
      assert Or(next, FirstOf(events[1..])) == source;
      var once := [e.(shown := Or(e.shown, status))] + rest;
      assert once[0] == e.(shown := Or(e.shown, status)) && once[1..] == rest;
    }
  }

  lemma {:induction false} BlankStays(events: seq<Event>)
    requires FirstOf(events) == ""
    ensures PassEvents("", events) == (events, "") && Filled(events, "") == events
  {
    if events == [] {
    } else {
      BlankStays(events[1..]);
      assert events[0] == Event("", "") && [events[0]] + events[1..] == events;
    }
  }

  /** The two passes that a listing performs fill everything there is to fill. */
  lemma {:induction false} TwoPassesAreFinal(r: Item)
    ensures Pass(Pass(r)) == Final(r)
  {
    var source := Source(r);
    TwoPasses(Or(r.own, r.shown), r.events);
    if source == "" {
      BlankStays(r.events);
    } else {
      CarriedFills(source, Pass(r).events);
    }
  }

  /** A third pass changes nothing. */
  lemma {:induction false} ThirdPassIsIdle(r: Item)
    ensures Pass(Pass(Pass(r))) == Pass(Pass(r))
  {
    var source, f := Source(r), Final(r);
    TwoPassesAreFinal(r);
    if source == "" {
      BlankStays(r.events);
    } else {
      CarriedFills(Or(f.own, f.shown), f.events);
      OthersOwnStatus(r.events, source, Or(f.own, f.shown));
    }
  }

  /** Once filled, the events ignore what is carried along. */
  lemma {:induction false} OthersOwnStatus(events: seq<Event>, source: string, carried: string)
    requires source != ""
    ensures Filled(Filled(events, source), carried) == Filled(events, source)
  {
    if events == [] {
    } else {
      OthersOwnStatus(events[1..], source, carried);
      assert Filled(events, source)[1..] == Filled(events[1..], source);
    }
  }

  /** Present statuses are never overwritten, and afterwards either all statuses are
      present or there never was any. */
  lemma {:induction false} EverythingIsFilled(r: Item)
    ensures var f := Final(r);
            && |f.events| == |r.events| && (r.shown != "" ==> f.shown == r.shown)
            && (forall i | 0 <= i < |r.events| ::
                  f.events[i].own == r.events[i].own
                      && (r.events[i].shown != "" ==> f.events[i].shown == r.events[i].shown))
            && (Source(r) != "" ==> f.shown != "" && forall i | 0 <= i < |r.events| :: f.events[i].shown != "")
            && (Source(r) == "" ==> f == r)
    ensures Source(r) == ""
            <==> r.own == "" && r.shown == "" && forall i | 0 <= i < |r.events| :: r.events[i] == Event("", "")
  {
    FilledEvents(r.events, Source(r));
    FirstIsBlank(r.events);
    if Source(r) == "" { BlankStays(r.events); }
  }

  lemma {:induction false} FilledEvents(events: seq<Event>, source: string)
    ensures |Filled(events, source)| == |events|
    ensures forall i | 0 <= i < |events| ::
              Filled(events, source)[i] == events[i].(shown := Or(events[i].shown, Or(events[i].own, source)))
  {
    if events == [] {
    } else {
      FilledEvents(events[1..], source);
    }
  }

  lemma {:induction false} FirstIsBlank(events: seq<Event>)
    ensures FirstOf(events) == "" <==> forall i | 0 <= i < |events| :: events[i] == Event("", "")
  {
    if events == [] {
    } else {
      FirstIsBlank(events[1..]);
      if FirstOf(events) == "" {
        forall i | 0 <= i < |events| ensures events[i] == Event("", "") {
          if i > 0 { assert events[i] == events[1..][i - 1]; }
        }
      } else if FirstOf(events[1..]) != "" {
        var j :| 0 <= j < |events[1..]| && events[1..][j] != Event("", "");
        assert events[j + 1] == events[1..][j];
      }
    }
  }

  /** One pass is enough exactly unless a blank first event precedes, in a record without
      a status of its own, the event that has one. */
  lemma {:induction false} OnePassSuffices(r: Item)
    ensures Pass(Pass(r)) == Pass(r)
            <==> !(Or(r.own, r.shown) == "" && r.events != [] && r.events[0] == Event("", "")
                 && FirstOf(r.events) != "")
  {
    var carried, source := Or(r.own, r.shown), Source(r);
    TwoPassesAreFinal(r);
    TwoPasses(carried, r.events);
    if source == "" {
      BlankStays(r.events);
    } else if carried != "" {
      CarriedFills(carried, r.events);
    } else {
      var e := r.events[0];
      var status := Or(e.own, e.shown);
      if status != "" {
        CarriedFills(status, r.events[1..]);
      } else {
        assert Pass(r).events[0].shown == "";
        FilledEvents(r.events, source);
        assert Final(r).events[0].shown == source;
      }
    }
  }
}
