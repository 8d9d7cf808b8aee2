/**
 * `makeMultimodal`: the test scenario gets a public-transport corridor along
 * the diagonal of its grid, and every plan gets a trailing "pt interaction"
 * activity on one of the corridor's links.
 */
module Multimodal {
  import opened Ids
  import opened Networks
  import opened Population

  /** The corridor loop runs `for (int i = 0; i < 9; i++)`. */
  const CorridorLength: nat := 9

  /** `100.0 * 1000.0 / 3600.0` metres per second, i.e. 100 km/h. */
  const PtFreespeed: real := 100.0 * 1000.0 / 3600.0
  const PtLength: int := 1000
  const PtModes: set<string> := {"pt"}

  const ForwardPrefix: string := "pt_fwd_"
  const BackwardPrefix: string := "pt_bck_"

  /** The grid node "i:i". */
  function GridNodeId(i: nat): Id {
    PairId("", i)
  }

  function PtForwardId(i: nat): Id {
    PairId(ForwardPrefix, i)
  }

  function PtBackwardId(i: nat): Id {
    PairId(BackwardPrefix, i)
  }

  /** A link as `factory.createLink` followed by the three setters builds it. */
  function PtLink(id: Id, fromNode: Id, toNode: Id): (l: Link)
    ensures l.id == id && l.fromNode == fromNode && l.toNode == toNode
    ensures l.allowedModes == {"pt"} && l.length == 1000 && l.freespeed == PtFreespeed
  {
    Link(id, fromNode, toNode, PtFreespeed, PtLength, PtModes)
  }

  /** The forward link of iteration i: "pt_fwd_i:i" from "i:i" to "i+1:i+1", pt only. */
  function ForwardLink(i: nat): (l: Link)
    ensures l.id == PtForwardId(i)
    ensures l.fromNode == GridNodeId(i) && l.toNode == GridNodeId(i + 1)
    ensures l.allowedModes == {"pt"} && l.length == 1000 && l.freespeed == PtFreespeed
  {
    PtLink(PtForwardId(i), GridNodeId(i), GridNodeId(i + 1))
  }

  /** The backward link of iteration i: "pt_bck_i:i", the reverse of the forward link, pt only. */
  function BackwardLink(i: nat): (l: Link)
    ensures l.id == PtBackwardId(i)
    ensures l.fromNode == GridNodeId(i + 1) && l.toNode == GridNodeId(i)
    ensures l.allowedModes == {"pt"} && l.length == 1000 && l.freespeed == PtFreespeed
  {
    PtLink(PtBackwardId(i), GridNodeId(i + 1), GridNodeId(i))
  }

  /** The links the first n iterations of the corridor loop add, by id. */
  function Corridor(n: nat): (c: map<Id, Link>)
    ensures forall id :: id in c ==> c[id].id == id && c[id].allowedModes == {"pt"}
  {
    if n == 0 then map[]
    else Corridor(n - 1)[PtForwardId(n - 1) := ForwardLink(n - 1)][PtBackwardId(n - 1) := BackwardLink(n - 1)]
  }

  /** The link map after augmentation. */
  function Augment(links: map<Id, Link>): map<Id, Link> {
    links + Corridor(CorridorLength)
  }

  /** The grid nodes the corridor joins: "0:0" up to "9:9". */
  ghost predicate CorridorNodesPresent(nodes: map<Id, Node>) {
    forall i :: 0 <= i <= CorridorLength ==> GridNodeId(i) in nodes
  }

  lemma ForwardIdInjective(i: nat, j: nat)
    ensures PtForwardId(i) == PtForwardId(j) ==> i == j
  {
    PairIdInjective(ForwardPrefix, i, j);
  }

  lemma BackwardIdInjective(i: nat, j: nat)
    ensures PtBackwardId(i) == PtBackwardId(j) ==> i == j
  {
    PairIdInjective(BackwardPrefix, i, j);
  }

  lemma ForwardNotBackward(i: nat, j: nat)
    ensures PtForwardId(i) != PtBackwardId(j)
  {
    PairIdsApart(ForwardPrefix, BackwardPrefix, i, j, 3);
  }

  /** Iterations from n on add ids that the first n iterations have not used. */
  lemma {:induction false} CorridorExcludesLater(n: nat, i: nat)
    requires n <= i
    ensures PtForwardId(i) !in Corridor(n)
    ensures PtBackwardId(i) !in Corridor(n)
  {
    if n > 0 {
      CorridorExcludesLater(n - 1, i);
      ForwardIdInjective(i, n - 1);
      BackwardIdInjective(i, n - 1);
      ForwardNotBackward(i, n - 1);
      ForwardNotBackward(n - 1, i);
    }
  }

  /** Iteration i contributes "pt_fwd_i:i" from "i:i" to "i+1:i+1" and "pt_bck_i:i" back. */
  lemma {:induction false} CorridorContains(n: nat, i: nat)
    requires i < n
    ensures PtForwardId(i) in Corridor(n) && Corridor(n)[PtForwardId(i)] == ForwardLink(i)
    ensures PtBackwardId(i) in Corridor(n) && Corridor(n)[PtBackwardId(i)] == BackwardLink(i)
  {
    var c := Corridor(n - 1)[PtForwardId(n - 1) := ForwardLink(n - 1)];
    assert Corridor(n) == c[PtBackwardId(n - 1) := BackwardLink(n - 1)];
    if i < n - 1 {
      CorridorContains(n - 1, i);
      ForwardIdInjective(i, n - 1);
      BackwardIdInjective(i, n - 1);
      ForwardNotBackward(i, n - 1);
      ForwardNotBackward(n - 1, i);
      assert PtForwardId(i) != PtForwardId(n - 1) && PtForwardId(i) != PtBackwardId(n - 1);
      assert PtBackwardId(i) != PtForwardId(n - 1) && PtBackwardId(i) != PtBackwardId(n - 1);
    } else {
      ForwardNotBackward(i, i);
    }
  }

  /** Each iteration adds exactly two entries. */
  lemma {:induction false} CorridorSize(n: nat)
    ensures |Corridor(n)| == 2 * n
  {
    if n > 0 {
      CorridorSize(n - 1);
      CorridorExcludesLater(n - 1, n - 1);
      ForwardNotBackward(n - 1, n - 1);
    }
  }

  /**
   * Every corridor link is keyed by its own id, is a "pt"-prefixed id that
   * comes from some iteration below n, and carries the fixed pt attributes.
   */
  lemma {:induction false} CorridorLinkShape(n: nat, id: Id)
    requires id in Corridor(n)
    ensures Corridor(n)[id].id == id
    ensures StartsWith(id, "pt")
    ensures exists i :: 0 <= i < n && (Corridor(n)[id] == ForwardLink(i) || Corridor(n)[id] == BackwardLink(i))
    ensures Corridor(n)[id].allowedModes == {"pt"}
    ensures Corridor(n)[id].length == 1000
    ensures Corridor(n)[id].freespeed == PtFreespeed
  {
    if id == PtForwardId(n - 1) || id == PtBackwardId(n - 1) {
      assert StartsWith(ForwardPrefix, "pt") && StartsWith(BackwardPrefix, "pt");
    } else {
      CorridorLinkShape(n - 1, id);
    }
  }

  /** Every corridor link joins two of the grid nodes "0:0" .. "n:n". */
  lemma CorridorEndpoints(n: nat, id: Id)
    requires id in Corridor(n)
    ensures exists i, j ::
      (0 <= i <= n && 0 <= j <= n &&
       Corridor(n)[id].fromNode == GridNodeId(i) && Corridor(n)[id].toNode == GridNodeId(j))
  {
    CorridorLinkShape(n, id);
    var i :| 0 <= i < n && (Corridor(n)[id] == ForwardLink(i) || Corridor(n)[id] == BackwardLink(i));
    if Corridor(n)[id] == ForwardLink(i) {
      assert Corridor(n)[id].fromNode == GridNodeId(i) && Corridor(n)[id].toNode == GridNodeId(i + 1);
    } else {
      assert Corridor(n)[id].fromNode == GridNodeId(i + 1) && Corridor(n)[id].toNode == GridNodeId(i);
    }
  }

  /**
   * A network of L links, none of them with an injected id, ends up with
   * L + 18 links, and every link it had keeps its id and attributes.
   */
  lemma AugmentSize(links: map<Id, Link>)
    requires links.Keys !! Corridor(CorridorLength).Keys
    ensures |Augment(links)| == |links| + 18
    ensures forall id :: id in links ==> id in Augment(links) && Augment(links)[id] == links[id]
  {
    CorridorSize(CorridorLength);
    assert Augment(links).Keys == links.Keys + Corridor(CorridorLength).Keys;
    assert |links.Keys + Corridor(CorridorLength).Keys| == |links.Keys| + |Corridor(CorridorLength).Keys|;
  }

  /** Iteration i of the corridor loop adds two ids not yet in the network, and its links extend Corridor(i) to Corridor(i + 1). */
  lemma CorridorStepFresh(links: map<Id, Link>, n: nat, i: nat)
    requires i < n
    requires links.Keys !! Corridor(n).Keys
    ensures PtForwardId(i) !in links + Corridor(i)
    ensures PtBackwardId(i) !in (links + Corridor(i))[PtForwardId(i) := ForwardLink(i)]
    ensures (links + Corridor(i))[PtForwardId(i) := ForwardLink(i)][PtBackwardId(i) := BackwardLink(i)]
      == links + Corridor(i + 1)
  {
    CorridorContains(n, i);
    CorridorExcludesLater(i, i);
    ForwardNotBackward(i, i);
    var f, b := PtForwardId(i), PtBackwardId(i);
    UnionUpdate(links, Corridor(i), f, ForwardLink(i));
    UnionUpdate(links, Corridor(i)[f := ForwardLink(i)], b, BackwardLink(i));
  }

  /** Updating a union updates its right-hand map. */
  lemma UnionUpdate(m: map<Id, Link>, c: map<Id, Link>, k: Id, v: Link)
    ensures (m + c)[k := v] == m + c[k := v]
  {
  }

  /**
   * The first loop of `makeMultimodal`: nine forward/backward pairs of pt
   * links along the grid's diagonal.
   */
  method AddPtCorridor(network: Network)
    requires network.Valid()
    requires CorridorNodesPresent(network.nodes)
    requires network.links.Keys !! Corridor(CorridorLength).Keys
    modifies network`links
    ensures network.Valid()
    ensures network.links == Augment(old(network.links))
  {
    for i := 0 to CorridorLength
      invariant network.Valid()
      invariant network.links == old(network.links) + Corridor(i)
    {
      CorridorStepFresh(old(network.links), CorridorLength, i);
      var forward := PtLink(PtForwardId(i), GridNodeId(i), GridNodeId(i + 1));
      network.AddLink(forward);
      var backward := PtLink(PtBackwardId(i), GridNodeId(i + 1), GridNodeId(i));
      network.AddLink(backward);
    }
  }

  /** The walk leg the second loop appends. */
  const WalkLeg: PlanElement := Leg("walk")

  /** The "pt interaction" activity at (5500, 5500) on link "pt_fwd_5:5". */
  const PtInteraction: PlanElement := Activity("pt interaction", Coord(5500, 5500), "pt_fwd_5:5")

  /** A plan's element list after the second loop has visited it. */
  function WithPtInteraction(elements: seq<PlanElement>): (r: seq<PlanElement>)
    ensures |r| == |elements| + 2
    ensures r[..|elements|] == elements
    ensures r[|elements|] == Leg("walk") && r[|elements| + 1].Activity?
    ensures r[|elements| + 1].activityType == "pt interaction" && r[|elements| + 1].linkId == PtForwardId(5)
    ensures r[|elements| + 1].coord == Coord(5500, 5500)
    ensures r[|elements| + 1] == PtInteraction
    ensures WellFormed(elements) ==> WellFormed(r)
  {
    assert Decimal(5) == "5";
    elements + [WalkLeg, PtInteraction]
  }

  /** The link the appended activity refers to is a pt-only corridor link, not a road link. */
  lemma PtInteractionOnCorridor()
    ensures PtInteraction.linkId in Corridor(CorridorLength)
    ensures Corridor(CorridorLength)[PtInteraction.linkId] == ForwardLink(5)
    ensures Corridor(CorridorLength)[PtInteraction.linkId].allowedModes == {"pt"}
  {
    assert Decimal(5) == "5";
    assert PtInteraction.linkId == PtForwardId(5);
    CorridorContains(CorridorLength, 5);
  }

  /**
   * The second loop of `makeMultimodal`: every plan of every person gets a
   * walk leg and then the pt interaction activity.
   */
  method AppendPtInteractions(persons: seq<Person>)
    requires DistinctPlans(persons)
    modifies PlansOf(persons)
    ensures forall i, k :: 0 <= i < |persons| && 0 <= k < |persons[i].plans| ==>
      persons[i].plans[k].elements == WithPtInteraction(old(persons[i].plans[k].elements))
  {
    for p := 0 to |persons|
      invariant forall i, k :: 0 <= i < |persons| && 0 <= k < |persons[i].plans| ==>
        persons[i].plans[k].elements ==
          if i < p then WithPtInteraction(old(persons[i].plans[k].elements))
          else old(persons[i].plans[k].elements)
    {
      var plans := persons[p].plans;
      for q := 0 to |plans|
        invariant forall i, k :: 0 <= i < |persons| && 0 <= k < |persons[i].plans| ==>
          persons[i].plans[k].elements ==
            if i < p || (i == p && k < q) then WithPtInteraction(old(persons[i].plans[k].elements))
            else old(persons[i].plans[k].elements)
      {
        var plan := plans[q];
        assert persons[p] in persons && plan in persons[p].plans;
        plan.Add(WalkLeg);
        plan.Add(PtInteraction);
      }
    }
  }

  /** What `makeMultimodal` is given: the scenario's network and population. */
  class Scenario {
    const network: Network
    const persons: seq<Person>

    constructor (network: Network, persons: seq<Person>)
      ensures this.network == network && this.persons == persons
    {
      this.network := network;
      this.persons := persons;
    }
  }

  /** `makeMultimodal(scenario)`: the corridor, then the extra plan elements. */
  method MakeMultimodal(scenario: Scenario)
    requires scenario.network.Valid()
    requires CorridorNodesPresent(scenario.network.nodes)
    requires scenario.network.links.Keys !! Corridor(CorridorLength).Keys
    requires DistinctPlans(scenario.persons)
    modifies scenario.network`links, PlansOf(scenario.persons)
    ensures scenario.network.Valid()
    ensures scenario.network.links == Augment(old(scenario.network.links))
    ensures |scenario.network.links| == |old(scenario.network.links)| + 18
    ensures forall i, k :: 0 <= i < |scenario.persons| && 0 <= k < |scenario.persons[i].plans| ==>
      scenario.persons[i].plans[k].elements == WithPtInteraction(old(scenario.persons[i].plans[k].elements))
  {
    var network, persons := scenario.network, scenario.persons;
    ghost var before := network.links;
    AugmentSize(before);
    AddPtCorridor(network);
    ghost var after := network.links;
    AppendPtInteractions(persons);
    assert network.links == after;
  }
}
