/** compute_scan_stage_interval_overlap: the most intervals that are open at one time. */
module Sweep {
  import opened Lists

  /** A scan stage; a timestamp that is absent or empty is Missing. */
  datatype Time = Missing | At(t: int)

  datatype Stage = Stage(started: Time, completed: Time)

  datatype Event = Event(t: int, delta: int)

  predicate Counted(s: Stage) {
    s.started.At? && s.completed.At? && s.started.t <= s.completed.t
  }

  predicate OpenAt(s: Stage, t: int) {
    Counted(s) && s.started.t <= t < s.completed.t
  }

  /** How many stages are open at time t. */
  function OpenCount(stages: seq<Stage>, t: int): nat {
    if stages == [] then 0
    else OpenCount(stages[..|stages| - 1], t) + (if OpenAt(stages[|stages| - 1], t) then 1 else 0)
  }

  function EventsOf(s: Stage): seq<Event> {
    if Counted(s) then [Event(s.started.t, 1), Event(s.completed.t, -1)] else []
  }

  function Events(stages: seq<Stage>): seq<Event> {
    if stages == [] then [] else Events(stages[..|stages| - 1]) + EventsOf(stages[|stages| - 1])
  }

  // ----- sorted(events, key=(time, delta))

  predicate Before(a: Event, b: Event) {
    a.t < b.t || (a.t == b.t && a.delta <= b.delta)
  }

  predicate Sorted(events: seq<Event>) {
    forall i, j :: 0 <= i < j < |events| ==> Before(events[i], events[j])
  }

  function Insert(e: Event, events: seq<Event>): (r: seq<Event>)
    requires Sorted(events)
    ensures Sorted(r) && multiset(r) == multiset{e} + multiset(events)
  {
    if events == [] then [e]
    else if Before(e, events[0]) then
      assert forall j :: 0 <= j < |events| ==> Before(e, events[j]);
      [e] + events
    else
      var rest := Insert(e, events[1..]);
      assert events == [events[0]] + events[1..];
      assert forall x :: x in rest ==> Before(events[0], x) by {
        forall x | x in rest ensures Before(events[0], x) {
          assert x in multiset(rest);
        }
      }
      [events[0]] + rest
  }

  function Sort(events: seq<Event>): (r: seq<Event>)
    ensures Sorted(r) && multiset(r) == multiset(events)
  {
    if events == [] then []
    else
      assert events == events[..|events| - 1] + [events[|events| - 1]];
      Insert(events[|events| - 1], Sort(events[..|events| - 1]))
  }

  // ----- sums over events

  function Total(events: seq<Event>): int {
    if events == [] then 0 else Total(events[..|events| - 1]) + events[|events| - 1].delta
  }

  /** The sum of the deltas up to time t, taken over the bag of events. */
  function TotalUpTo(events: seq<Event>, t: int): int {
    if events == [] then 0
    else
      var e := events[|events| - 1];
      TotalUpTo(events[..|events| - 1], t) + (if e.t <= t then e.delta else 0)
  }

  method CollectEvents(stages: seq<Stage>) returns (events: seq<Event>)
    ensures events == Events(stages)
  {
    events := [];
    for i := 0 to |stages|
      invariant events == Events(stages[..i])
    {
      assert stages[..i + 1][..i] == stages[..i];
      if Counted(stages[i]) {
        events := events + [Event(stages[i].started.t, 1), Event(stages[i].completed.t, -1)];
      }
    }
    assert stages[..|stages|] == stages;
  }

  /** The largest running total, and where a positive one is reached. */
  method RunningMaximum(events: seq<Event>) returns (maximum: nat, ghost peak: nat)
    ensures forall j :: 0 <= j <= |events| ==> Total(events[..j]) <= maximum
    ensures peak <= |events| && Total(events[..peak]) == maximum
    ensures maximum > 0 ==> 0 < peak && events[peak - 1].delta > 0
  {
    var current := 0;
    maximum, peak := 0, 0;
    for i := 0 to |events|
      invariant current == Total(events[..i])
      invariant peak <= i && Total(events[..peak]) == maximum
      invariant forall j :: 0 <= j <= i ==> Total(events[..j]) <= maximum
      invariant maximum > 0 ==> 0 < peak && events[peak - 1].delta > 0
    {
      assert events[..i + 1][..i] == events[..i];
      current := current + events[i].delta;
      if current > maximum {
        maximum, peak := current, i + 1;
      }
    }
  }

  method Overlap(stages: seq<Stage>) returns (maximum: nat)
    ensures forall t :: OpenCount(stages, t) <= maximum
    ensures maximum > 0 ==> exists s :: s in stages && Counted(s) && OpenCount(stages, s.started.t) == maximum
  {
    var events := CollectEvents(stages);
    var sorted := Sort(events);
    ghost var peak;
    maximum, peak := RunningMaximum(sorted);
    forall t ensures OpenCount(stages, t) <= maximum {
      var k := OpenIsPrefix(stages, sorted, t);
    }
    if maximum > 0 {
      PeakIsOpen(stages, sorted, peak, maximum);
    }
  }

  // ----- the sweep's running total is the number of open stages

  lemma TotalUpToPush(events: seq<Event>, more: seq<Event>, t: int)
    requires |more| == 2
    ensures TotalUpTo(events + more, t)
         == TotalUpTo(events, t) + (if more[0].t <= t then more[0].delta else 0) + (if more[1].t <= t then more[1].delta else 0)
  {
    var all := events + more;
    assert all[..|all| - 1] == events + [more[0]];
    assert (events + [more[0]])[..|events|] == events;
  }

  lemma {:induction false} OpenIsTotal(stages: seq<Stage>, t: int)
    ensures OpenCount(stages, t) == TotalUpTo(Events(stages), t)
  {
    if stages != [] {
      var n := |stages| - 1;
      OpenIsTotal(stages[..n], t);
      if Counted(stages[n]) {
        TotalUpToPush(Events(stages[..n]), EventsOf(stages[n]), t);
      } else {
        assert Events(stages) == Events(stages[..n]);
      }
    }
  }

  function Contribution(e: Event, t: int): int {
    if e.t <= t then e.delta else 0
  }

  lemma {:induction false} RemoveOne(events: seq<Event>, i: nat, t: int)
    requires i < |events|
    ensures TotalUpTo(events, t) == TotalUpTo(events[..i] + events[i + 1..], t) + Contribution(events[i], t)
  {
    var n := |events| - 1;
    if i < n {
      RemoveOne(events[..n], i, t);
      var rest := events[..i] + events[i + 1..];
      assert rest[..|rest| - 1] == events[..n][..i] + events[..n][i + 1..];
    } else {
      assert events[..i] + events[i + 1..] == events[..n];
    }
  }

  /** The order of the events does not change the sum. */
  lemma {:induction false} SameBag(a: seq<Event>, b: seq<Event>, t: int)
    requires multiset(a) == multiset(b)
    ensures TotalUpTo(a, t) == TotalUpTo(b, t)
    decreases |a|
  {
    if a == [] {
      assert |multiset(b)| == 0;
    } else {
      var i := TakeLast(a, b);
      SameBag(a[..|a| - 1], b[..i] + b[i + 1..], t);
      RemoveOne(b, i, t);
    }
  }

  /** In sorted order the events up to time t are a prefix. */
  lemma {:induction false} PrefixTotal(events: seq<Event>, k: nat, t: int)
    requires k <= |events| && (forall i :: 0 <= i < k ==> events[i].t <= t) && forall i :: k <= i < |events| ==> events[i].t > t
    ensures TotalUpTo(events, t) == Total(events[..k])
  {
    var n := |events| - 1;
    if k <= n {
      PrefixTotal(events[..n], k, t);
      assert events[..n][..k] == events[..k];
    } else if n >= 0 {
      PrefixTotal(events[..n], n, t);
      assert events[..k] == events && events[..n][..n] == events[..n];
    }
  }

  lemma SplitAt(events: seq<Event>, t: int) returns (k: nat)
    requires Sorted(events)
    ensures k <= |events| && (forall i :: 0 <= i < k ==> events[i].t <= t) && forall i :: k <= i < |events| ==> events[i].t > t
  {
    k := 0;
    while k < |events| && events[k].t <= t
      invariant k <= |events| && forall i :: 0 <= i < k ==> events[i].t <= t
    {
      k := k + 1;
    }
    if k < |events| {
      forall i | k <= i < |events| ensures events[i].t > t {
        assert i == k || Before(events[k], events[i]);
      }
    }
  }

  lemma OpenIsPrefix(stages: seq<Stage>, sorted: seq<Event>, t: int) returns (k: nat)
    requires Sorted(sorted) && multiset(sorted) == multiset(Events(stages))
    ensures k <= |sorted| && OpenCount(stages, t) == Total(sorted[..k])
    ensures (forall i :: 0 <= i < k ==> sorted[i].t <= t) && forall i :: k <= i < |sorted| ==> sorted[i].t > t
  {
    k := SplitAt(sorted, t);
    OpenIsTotal(stages, t);
    SameBag(Events(stages), sorted, t);
    PrefixTotal(sorted, k, t);
  }

  lemma {:induction false} RisingTotal(events: seq<Event>, j: nat, k: nat)
    requires j <= k <= |events| && forall i :: j <= i < k ==> events[i].delta > 0
    ensures Total(events[..j]) <= Total(events[..k])
  {
    if j < k {
      RisingTotal(events, j, k - 1);
      assert events[..k][..k - 1] == events[..k - 1];
    }
  }

  lemma {:induction false} StartOf(stages: seq<Stage>, e: Event)
    requires e in Events(stages) && e.delta > 0
    ensures exists s :: s in stages && Counted(s) && s.started.t == e.t
  {
    var n := |stages| - 1;
    if e in Events(stages[..n]) {
      StartOf(stages[..n], e);
    } else {
      assert e in EventsOf(stages[n]);
      assert stages[n] in stages;
    }
  }

  /** The event that sets the maximum is a start, and no stage closes between it and the end of its instant. */
  lemma PeakIsOpen(stages: seq<Stage>, sorted: seq<Event>, peak: nat, maximum: nat)
    requires Sorted(sorted) && multiset(sorted) == multiset(Events(stages))
    requires 0 < peak <= |sorted| && Total(sorted[..peak]) == maximum && sorted[peak - 1].delta > 0
    requires forall j :: 0 <= j <= |sorted| ==> Total(sorted[..j]) <= maximum
    ensures exists s :: s in stages && Counted(s) && OpenCount(stages, s.started.t) == maximum
  {
    var e := sorted[peak - 1];
    var k := OpenIsPrefix(stages, sorted, e.t);
    forall i | peak <= i < k ensures sorted[i].delta > 0 {
      assert Before(e, sorted[i]);
    }
    RisingTotal(sorted, peak, k);
    assert e in multiset(sorted);
    StartOf(stages, e);
    var s :| s in stages && Counted(s) && s.started.t == e.t;
    assert OpenCount(stages, s.started.t) == maximum;
  }
}
