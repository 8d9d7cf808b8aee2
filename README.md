# amodeus standard MATSim scenario test, modelled in Dafny

This project models the scenario fixture and the run oracle of amodeus's
`StandardMATSimScenarioTest`. The test runs a small MATSim scenario once for
each of four dispatchers and checks two things about each run: that no
autonomous vehicle (AV) ever enters a public-transport (pt) link, and that
every departure is matched by an arrival.

- `Ids` (Ids.dfy): ids as strings. `Decimal` is `String.format("%d", i)`,
  `PairId` builds the `"%d:%d"` ids, and `StartsWith` is Java's `startsWith`.
  The lemmas show that distinct loop indices give distinct ids.
- `Networks` (Networks.dfy): nodes, directed links and the `Network` class.
  The class holds a node map and a link map keyed by id. Its `AddLink`
  method is `network.addLink`, and it keeps the invariant that every link's
  endpoints are nodes.
- `Population` (Population.dfy): plan elements (activity or leg). `Plan` is a
  class whose element list is changed in place. `Person` holds a fixed list
  of plans.
- `Multimodal` (Multimodal.dfy): `makeMultimodal`. Its first loop,
  `AddPtCorridor`, adds nine forward/backward pairs of pt-only links along the
  grid's diagonal. It is proved against `Corridor(n)`, a function giving the
  links the first n iterations add. Its second loop, `AppendPtInteractions`,
  appends a walk leg and a "pt interaction" activity to every plan.
  `MakeMultimodal` runs both loops.
- `Oracle` (Oracle.dfy): the anonymous `LinkEnterEventHandler`, the
  departure/arrival counters and the final assertion, as the `RunObserver`
  class. `Judge` turns the observer's state into a verdict. The list of
  dispatchers returned by `data()` is the constant `Oracle.Dispatchers`,
  described by `Oracle.DispatchersListed`.

The cross-component result is `Oracle.AvOnCorridorFailsRun`. Every id that
the corridor loop adds begins with "pt". So a run in which any vehicle
whose id begins with "av_" enters any added link ends in a mode-access
violation, whatever the departure and arrival counts are.

The model follows the code as written:

- The corridor length is the constant 9 of the loop bound.
- The grid nodes "0:0" to "9:9" must be present (a `requires`). The source
  passes whatever `getNodes().get(...)` returns to `createLink`, without
  checking it.
- The handler recognises a pt link by the prefix "pt" of its id.
  `Multimodal.CorridorLinkShape` shows that on every added link this agrees
  with the allowed modes: the id starts with "pt" and the modes are exactly
  {"pt"}.
- Departures and arrivals are the scenario analyzer's two counters, fed by
  departure and arrival events.

## Model

| member | source | states |
|---|---|---|
| Ids.Decimal | src/test/java/ch/ethz/idsc/amodeus/matsim/StandardMATSimScenarioTest.java:78-81 | `%d` of a non-negative index is a non-empty string of decimal digits with no leading zero |
| Ids.DecimalRoundTrip | src/test/java/ch/ethz/idsc/amodeus/matsim/StandardMATSimScenarioTest.java:78-81 | reading the rendered digits back gives the index: the rendering is invertible |
| Ids.DecimalInjective | src/test/java/ch/ethz/idsc/amodeus/matsim/StandardMATSimScenarioTest.java:78-81 | distinct indices render to distinct strings |
| Ids.StartsWith | src/test/java/ch/ethz/idsc/amodeus/matsim/StandardMATSimScenarioTest.java:184 | a string starts with a prefix exactly when it is at least as long and agrees with the prefix at every position of the prefix |
| Ids.PairId | src/test/java/ch/ethz/idsc/amodeus/matsim/StandardMATSimScenarioTest.java:78-81 | an id built from `prefix%d:%d` starts with its prefix |
| Ids.PairIdShape | src/test/java/ch/ethz/idsc/amodeus/matsim/StandardMATSimScenarioTest.java:78-81 | after the prefix the id is the index's digits, a colon, and the same digits again, so it has length prefix + 2 * digits + 1; for an index below 10 it is the prefix followed by digit, ':', digit |
| Ids.PairIdInjective | src/test/java/ch/ethz/idsc/amodeus/matsim/StandardMATSimScenarioTest.java:78-81 | under one prefix, `prefix%d:%d` ids of distinct indices differ |
| Ids.PairIdsApart | src/test/java/ch/ethz/idsc/amodeus/matsim/StandardMATSimScenarioTest.java:78-79 | ids under prefixes that differ at some position ("pt_fwd_" and "pt_bck_") never coincide |
| Networks.Network.AddLink | src/test/java/ch/ethz/idsc/amodeus/matsim/StandardMATSimScenarioTest.java:87 | adding a link under a fresh id between existing nodes adds exactly that entry, grows the map by one, leaves the nodes alone and keeps the endpoint invariant |
| Networks.Network.constructor | src/test/java/ch/ethz/idsc/amodeus/matsim/StandardMATSimScenarioTest.java:73 | a network built from maps whose entries are keyed by their own ids and whose links join listed nodes is valid and holds exactly those maps |
| Multimodal.PtLink | src/test/java/ch/ethz/idsc/amodeus/matsim/StandardMATSimScenarioTest.java:83-86 | a link made by the factory and configured in the loop has the given id and endpoints, allowed modes exactly {"pt"}, length 1000 and free speed 100 * 1000 / 3600 |
| Multimodal.ForwardLink | src/test/java/ch/ethz/idsc/amodeus/matsim/StandardMATSimScenarioTest.java:78-87 | the forward link of iteration i is keyed "pt_fwd_i:i", runs from node "i:i" to node "i+1:i+1", and has the pt attributes |
| Multimodal.BackwardLink | src/test/java/ch/ethz/idsc/amodeus/matsim/StandardMATSimScenarioTest.java:79-93 | the backward link of iteration i is keyed "pt_bck_i:i", runs back from node "i+1:i+1" to node "i:i", and has the pt attributes |
| Multimodal.Corridor | src/test/java/ch/ethz/idsc/amodeus/matsim/StandardMATSimScenarioTest.java:77-94 | every link the first n iterations add is stored under its own id and allows only the mode "pt" |
| Multimodal.CorridorExcludesLater | src/test/java/ch/ethz/idsc/amodeus/matsim/StandardMATSimScenarioTest.java:77-79 | an iteration never reuses an id that an earlier iteration added |
| Multimodal.CorridorContains | src/test/java/ch/ethz/idsc/amodeus/matsim/StandardMATSimScenarioTest.java:78-93 | for each i below n, "pt_fwd_i:i" runs from node "i:i" to "i+1:i+1" and "pt_bck_i:i" runs back, both with the pt attributes |
| Multimodal.CorridorSize | src/test/java/ch/ethz/idsc/amodeus/matsim/StandardMATSimScenarioTest.java:77-94 | n iterations add exactly 2n distinct links |
| Multimodal.CorridorLinkShape | src/test/java/ch/ethz/idsc/amodeus/matsim/StandardMATSimScenarioTest.java:78-92 | every added link is keyed by its own id, comes from some iteration i below n, has an id starting with "pt", allowed modes exactly {"pt"}, length 1000 and the common pt free speed |
| Multimodal.CorridorEndpoints | src/test/java/ch/ethz/idsc/amodeus/matsim/StandardMATSimScenarioTest.java:80-83 | every added link joins two of the grid nodes "0:0" .. "n:n" |
| Multimodal.CorridorStepFresh | src/test/java/ch/ethz/idsc/amodeus/matsim/StandardMATSimScenarioTest.java:83-93 | in iteration i both new ids are absent from the network, and the two additions turn the links of i iterations into those of i + 1 |
| Multimodal.AugmentSize | src/test/java/ch/ethz/idsc/amodeus/matsim/StandardMATSimScenarioTest.java:73-94 | when no added id was present, the network ends with exactly 18 more links, and every earlier link keeps its id and attributes |
| Multimodal.AddPtCorridor | src/test/java/ch/ethz/idsc/amodeus/matsim/StandardMATSimScenarioTest.java:73-94 | the first loop leaves the link map equal to the old map plus the nine corridor pairs, changes only the link map, and keeps every link's endpoints inside the network |
| Population.Plan.Add | src/test/java/ch/ethz/idsc/amodeus/matsim/StandardMATSimScenarioTest.java:103-104 | adding an element to a plan's element list appends it at the end and leaves the earlier elements in place |
| Multimodal.WithPtInteraction | src/test/java/ch/ethz/idsc/amodeus/matsim/StandardMATSimScenarioTest.java:101-104 | a visited plan grows by two, keeps its earlier elements in order, ends in a walk leg and a "pt interaction" activity at coordinate (5500, 5500) on link "pt_fwd_5:5", and stays well formed (activity, leg, ..., activity) if it was |
| Multimodal.PtInteractionOnCorridor | src/test/java/ch/ethz/idsc/amodeus/matsim/StandardMATSimScenarioTest.java:77-101 | the link of the appended activity is the added forward link of iteration 5, a pt-only link |
| Multimodal.AppendPtInteractions | src/test/java/ch/ethz/idsc/amodeus/matsim/StandardMATSimScenarioTest.java:99-106 | every plan of every person, and nothing else, has the walk leg and the pt interaction activity appended once |
| Multimodal.MakeMultimodal | src/test/java/ch/ethz/idsc/amodeus/matsim/StandardMATSimScenarioTest.java:70-107 | the network gains the 18 corridor links and nothing else, it stays valid, and every plan gains its two trailing elements |
| Oracle.DispatchersListed | src/test/java/ch/ethz/idsc/amodeus/matsim/StandardMATSimScenarioTest.java:53-62 | the test is run for four distinct dispatchers, among them "SingleHeuristic" as the reference case, and "DriveByDispatcher" is not one of them |
| Oracle.IsModeAccessViolation | src/test/java/ch/ethz/idsc/amodeus/matsim/StandardMATSimScenarioTest.java:184 | an event is a violation exactly when it is a link entry whose vehicle id begins with "av_" and whose link id begins with "pt" |
| Oracle.Judge | src/test/java/ch/ethz/idsc/amodeus/matsim/StandardMATSimScenarioTest.java:184-193 | a run passes exactly when nothing was flagged and departures minus arrivals is 0; a flagged violation is the verdict whatever the counts, since the handler fails the run before the count check |
| Oracle.RunObserver.HandleEvent | src/test/java/ch/ethz/idsc/amodeus/matsim/StandardMATSimScenarioTest.java:179-188 | a link entry sets the flag exactly when the vehicle id starts with "av_" and the link id starts with "pt"; the flag is never cleared; departures and arrivals are counted |
| Oracle.RunObserver.HandleEvents | src/test/java/ch/ethz/idsc/amodeus/matsim/StandardMATSimScenarioTest.java:173-192 | after a run's events the flag is set exactly when it was set before or some event was a violation, and each counter has grown by the number of its events |
| Oracle.RunObserver.Outcome | src/test/java/ch/ethz/idsc/amodeus/matsim/StandardMATSimScenarioTest.java:193 | the observer's verdict is a pass exactly when no violation was flagged and departures equal arrivals |
| Oracle.ObserveRun | src/test/java/ch/ethz/idsc/amodeus/matsim/StandardMATSimScenarioTest.java:173-193 | a fresh observer fed a run's events gives that run's verdict, a pass exactly when no event is a violation and departures equal arrivals |
| Oracle.CountsAdd | src/test/java/ch/ethz/idsc/amodeus/matsim/StandardMATSimScenarioTest.java:193 | the departure and arrival counts of two consecutive stretches of a run add up |
| Oracle.AvOnCorridorIsViolation | src/test/java/ch/ethz/idsc/amodeus/matsim/StandardMATSimScenarioTest.java:78-79 | a vehicle whose id starts with "av_" entering any link added by any number of corridor iterations is flagged |
| Oracle.AvOnCorridorFailsRun | src/test/java/ch/ethz/idsc/amodeus/matsim/StandardMATSimScenarioTest.java:184-193 | a run in which such a vehicle enters an added link ends in a mode-access violation, whatever the counts |
| Oracle.NoMarkersCount | src/test/java/ch/ethz/idsc/amodeus/matsim/StandardMATSimScenarioTest.java:193 | link entries alone count no departure and no arrival |
| Oracle.TripCounts | src/test/java/ch/ethz/idsc/amodeus/matsim/StandardMATSimScenarioTest.java:111-112 | one completed trip counts one departure and one arrival |
| Oracle.TripsBalance | src/test/java/ch/ethz/idsc/amodeus/matsim/StandardMATSimScenarioTest.java:111-112 | n completed trips laid end to end count n departures and n arrivals |
| Oracle.CountsByMultiset | src/test/java/ch/ethz/idsc/amodeus/matsim/StandardMATSimScenarioTest.java:193 | each counter equals the number of its events in the run, whatever their order |
| Oracle.CompletedTripsPass | src/test/java/ch/ethz/idsc/amodeus/matsim/StandardMATSimScenarioTest.java:111-193 | a run whose events are those of n completed trips, interleaved in any order, with no AV on a pt link, counts n departures and n arrivals and passes with discrepancy 0 |

## Left out

- The simulation run: the `Controler`, its overriding modules, the dependency-injection wiring and `controler.run()` belong to the external MATSim/DVRP/AV engine. The engine appears only as the sequence of events handed to `Oracle.RunObserver.HandleEvents`.
- The virtual network: `MatsimKMEANSVirtualNetworkCreator.createVirtualNetwork` (k-means into 4 zones) is not part of this model, because its code is not in the test.
- How the scenario analyzer counts departures and arrivals is not part of this model. Its counts are modelled as `PersonDeparture` and `PersonArrival` events.
- Scenario generation: the grid network and population from `TestScenarioGenerator` are inputs.
- Floating point: the free speed is the exact rational 100 * 1000 / 3600, not the Java double. Length and the activity coordinate (5500, 5500) are integers. The scoring parameters (8.86 and the zero rates) are dropped.
- Configuration plumbing: the AV operator and generator configs, the fleet size of 100, the price structure and `publishPeriod` are only passed along, so they are not modelled. The dispatcher list is kept as a constant.
- Dispatcher behaviour: the four dispatchers are external and are not modelled.
- Multimodal.AddPtCorridor: requires that nodes "0:0" to "9:9" exist and that no added id is present. With a missing node the source would hand null to `createLink`. With a duplicate id MATSim's `addLink` throws. Either way the test fails before any run, so neither failure is modelled.
- Multimodal.AppendPtInteractions: requires that no plan object is shared between persons or positions. In MATSim each plan belongs to one person. A shared plan would get the two elements once per occurrence, which the model does not capture.
- Oracle.RunObserver.HandleEvents: keeps folding events after the first violation. In the source, `Assert.fail` aborts the run at that event. Both give the same verdict, because a flagged violation decides the verdict by itself (`Oracle.Judge`).
- `String.format` uses the default locale. Only ASCII digits are modelled.
