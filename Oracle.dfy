/**
 * The run oracle of the scenario test: a link-enter handler that fails the
 * run when an AV enters a pt link, departure and arrival counters, and the
 * final check that every departure was matched by an arrival.
 */
module Oracle {
  import opened Ids
  import opened Multimodal

  /** The dispatchers the parameterised test runs, one run each. */
  const Dispatchers: seq<string> := [
    "SingleHeuristic",
    "DemandSupplyBalancingDispatcher",
    "GlobalBipartiteMatchingDispatcher",
    "AdaptiveRealTimeRebalancingPolicy"
  ]

  /** The test runs four dispatchers, none twice, and leaves out "DriveByDispatcher". */
  lemma DispatchersListed()
    ensures |Dispatchers| == 4
    ensures forall i, j :: 0 <= i < j < |Dispatchers| ==> Dispatchers[i] != Dispatchers[j]
    ensures "SingleHeuristic" in Dispatchers
    ensures "DriveByDispatcher" !in Dispatchers
  {
  }

  /**
   * What the observer is shown of a run: a vehicle entering a link, and the
   * departures and arrivals the scenario analyzer counts.
   */
  datatype Event =
    | LinkEnter(vehicleId: Id, linkId: Id)
    | PersonDeparture
    | PersonArrival

  /** An AV (vehicle id "av_...") entering a pt link (link id "pt..."). */
  predicate IsModeAccessViolation(e: Event): (b: bool)
    ensures b <==>
      && e.LinkEnter?
      && |e.vehicleId| >= 3 && e.vehicleId[0] == 'a' && e.vehicleId[1] == 'v' && e.vehicleId[2] == '_'
      && |e.linkId| >= 2 && e.linkId[0] == 'p' && e.linkId[1] == 't'
  {
    e.LinkEnter? && StartsWith(e.vehicleId, "av_") && StartsWith(e.linkId, "pt")
  }

  predicate SomeViolation(events: seq<Event>) {
    exists k :: 0 <= k < |events| && IsModeAccessViolation(events[k])
  }

  function CountDepartures(events: seq<Event>): nat {
    if events == [] then 0
    else CountDepartures(events[..|events| - 1]) + (if events[|events| - 1].PersonDeparture? then 1 else 0)
  }

  function CountArrivals(events: seq<Event>): nat {
    if events == [] then 0
    else CountArrivals(events[..|events| - 1]) + (if events[|events| - 1].PersonArrival? then 1 else 0)
  }

  /** How one dispatcher's run ends. */
  datatype Verdict =
    | Passed
    | ModeAccessViolation
    | ConservationMismatch(discrepancy: int)

  /**
   * The verdict on a run. A flagged violation fails the run from inside the
   * handler, so the departures/arrivals comparison is never reached then.
   */
  function Judge(violated: bool, departures: nat, arrivals: nat): (v: Verdict)
    ensures v == Passed <==> !violated && departures - arrivals == 0
    ensures violated <==> v == ModeAccessViolation
    ensures v.ConservationMismatch? ==> v.discrepancy == departures - arrivals != 0
  {
    if violated then ModeAccessViolation
    else if departures - arrivals != 0 then ConservationMismatch(departures - arrivals)
    else Passed
  }

  /** The verdict on a whole run, given the events it produced. */
  function RunVerdict(events: seq<Event>): Verdict {
    Judge(SomeViolation(events), CountDepartures(events), CountArrivals(events))
  }

  class RunObserver {
    var violated: bool
    var departures: nat
    var arrivals: nat

    constructor ()
      ensures !violated && departures == 0 && arrivals == 0
    {
      violated := false;
      departures := 0;
      arrivals := 0;
    }

    /** The link-enter handler, and the analyzer's counters for the other two events. */
    method HandleEvent(e: Event)
      modifies this
      ensures violated == (old(violated) || IsModeAccessViolation(e))
      ensures departures == old(departures) + (if e.PersonDeparture? then 1 else 0)
      ensures arrivals == old(arrivals) + (if e.PersonArrival? then 1 else 0)
    {
      match e
      case LinkEnter(vehicleId, linkId) =>
        if StartsWith(vehicleId, "av_") && StartsWith(linkId, "pt") {
          violated := true;
        }
      case PersonDeparture =>
        departures := departures + 1;
      case PersonArrival =>
        arrivals := arrivals + 1;
    }

    /** The engine delivering a run's events, in order. */
    method HandleEvents(events: seq<Event>)
      modifies this
      ensures violated == (old(violated) || SomeViolation(events))
      ensures departures == old(departures) + CountDepartures(events)
      ensures arrivals == old(arrivals) + CountArrivals(events)
    {
      for i := 0 to |events|
        invariant violated == (old(violated) || SomeViolation(events[..i]))
        invariant departures == old(departures) + CountDepartures(events[..i])
        invariant arrivals == old(arrivals) + CountArrivals(events[..i])
      {
        assert events[..i + 1][..i] == events[..i];
        HandleEvent(events[i]);
        assert SomeViolation(events[..i + 1]) == (SomeViolation(events[..i]) || IsModeAccessViolation(events[i])) by {
          if IsModeAccessViolation(events[i]) {
            assert events[..i + 1][i] == events[i];
          }
          if SomeViolation(events[..i]) {
            var k :| 0 <= k < i && IsModeAccessViolation(events[..i][k]);
            assert events[..i + 1][k] == events[..i][k];
          }
        }
      }
      assert events[..|events|] == events;
    }

    /** The final `assertEquals(0, departures - arrivals)`, reached only without a violation. */
    function Outcome(): (v: Verdict)
      reads this
      ensures v == Passed <==> !violated && departures == arrivals
    {
      Judge(violated, departures, arrivals)
    }
  }

  /** A fresh observer fed a run's events reports that run's verdict. */
  method ObserveRun(events: seq<Event>) returns (v: Verdict)
    ensures v == RunVerdict(events)
    ensures v == Passed <==> !SomeViolation(events) && CountDepartures(events) == CountArrivals(events)
  {
    var observer := new RunObserver();
    observer.HandleEvents(events);
    v := observer.Outcome();
  }

  lemma {:induction false} CountsAdd(a: seq<Event>, b: seq<Event>)
    ensures CountDepartures(a + b) == CountDepartures(a) + CountDepartures(b)
    ensures CountArrivals(a + b) == CountArrivals(a) + CountArrivals(b)
    decreases |b|
  {
    if b == [] {
      assert a + b == a;
    } else {
      var b' := b[..|b| - 1];
      assert (a + b)[..|a + b| - 1] == a + b';
      CountsAdd(a, b');
    }
  }

  /** An AV entering any link the corridor loop adds, after any number of iterations, is a violation. */
  lemma AvOnCorridorIsViolation(n: nat, vehicleId: Id, linkId: Id)
    requires StartsWith(vehicleId, "av_")
    requires linkId in Corridor(n)
    ensures IsModeAccessViolation(LinkEnter(vehicleId, linkId))
  {
    CorridorLinkShape(n, linkId);
  }

  /**
   * A run in which some AV enters some injected pt link (for the test, n is
   * `CorridorLength`) fails with a mode
   * access violation, whatever the departure and arrival counts.
   */
  lemma AvOnCorridorFailsRun(n: nat, events: seq<Event>, k: nat)
    requires k < |events| && events[k].LinkEnter?
    requires StartsWith(events[k].vehicleId, "av_")
    requires events[k].linkId in Corridor(n)
    ensures RunVerdict(events) == ModeAccessViolation
  {
    AvOnCorridorIsViolation(n, events[k].vehicleId, events[k].linkId);
  }

  /** One agent's trip as the observer sees it: a departure, link entries, an arrival. */
  predicate IsTrip(trip: seq<Event>) {
    && |trip| >= 2
    && trip[0] == PersonDeparture
    && trip[|trip| - 1] == PersonArrival
    && forall k :: 0 < k < |trip| - 1 ==> trip[k].LinkEnter?
  }

  function Concat(trips: seq<seq<Event>>): seq<Event> {
    if trips == [] then [] else Concat(trips[..|trips| - 1]) + trips[|trips| - 1]
  }

  lemma {:induction false} NoMarkersCount(events: seq<Event>)
    requires forall k :: 0 <= k < |events| ==> events[k].LinkEnter?
    ensures CountDepartures(events) == 0 && CountArrivals(events) == 0
    decreases |events|
  {
    if events != [] {
      NoMarkersCount(events[..|events| - 1]);
    }
  }

  lemma TripCounts(trip: seq<Event>)
    requires IsTrip(trip)
    ensures CountDepartures(trip) == 1 && CountArrivals(trip) == 1
  {
    var middle := trip[1..|trip| - 1];
    assert trip == [trip[0]] + middle + [trip[|trip| - 1]];
    NoMarkersCount(middle);
    CountsAdd([trip[0]], middle);
    CountsAdd([trip[0]] + middle, [trip[|trip| - 1]]);
  }

  /** A run made of n completed trips counts n departures and n arrivals. */
  lemma {:induction false} TripsBalance(trips: seq<seq<Event>>)
    requires forall t :: 0 <= t < |trips| ==> IsTrip(trips[t])
    ensures CountDepartures(Concat(trips)) == |trips| == CountArrivals(Concat(trips))
    decreases |trips|
  {
    if trips != [] {
      var last := trips[|trips| - 1];
      TripsBalance(trips[..|trips| - 1]);
      TripCounts(last);
      CountsAdd(Concat(trips[..|trips| - 1]), last);
    }
  }

  /** Each count is the number of its markers in the run, whatever their order. */
  lemma {:induction false} CountsByMultiset(events: seq<Event>)
    ensures CountDepartures(events) == multiset(events)[PersonDeparture]
    ensures CountArrivals(events) == multiset(events)[PersonArrival]
    decreases |events|
  {
    if events != [] {
      var init := events[..|events| - 1];
      assert events == init + [events[|events| - 1]];
      CountsByMultiset(init);
    }
  }

  /**
   * A run whose events are those of n completed trips, interleaved in any
   * order, with no AV ever on a pt link, counts n departures and n arrivals
   * and passes: the discrepancy is 0.
   */
  lemma CompletedTripsPass(run: seq<Event>, trips: seq<seq<Event>>)
    requires forall t :: 0 <= t < |trips| ==> IsTrip(trips[t])
    requires multiset(run) == multiset(Concat(trips))
    requires !SomeViolation(run)
    ensures CountDepartures(run) == |trips| == CountArrivals(run)
    ensures RunVerdict(run) == Passed
  {
    TripsBalance(trips);
    CountsByMultiset(run);
    CountsByMultiset(Concat(trips));
  }
}
