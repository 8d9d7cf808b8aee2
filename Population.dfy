/**
 * Persons and their plans. A plan's element list is the one object the
 * scenario builder changes in place.
 */
module Population {
  import opened Ids
  import opened Networks

  /** A plan element: an activity at a coordinate and link, or a leg in some mode. */
  datatype PlanElement =
    | Activity(activityType: string, coord: Coord, linkId: Id)
    | Leg(mode: string)

  /**
   * A MATSim plan as it reaches the simulation: activity, leg, activity, ...,
   * activity.
   */
  ghost predicate WellFormed(elements: seq<PlanElement>) {
    && |elements| % 2 == 1
    && forall k :: 0 <= k < |elements| ==> (elements[k].Activity? <==> k % 2 == 0)
  }

  class Plan {
    var elements: seq<PlanElement>

    constructor (elements: seq<PlanElement>)
      ensures this.elements == elements
    {
      this.elements := elements;
    }

    /** `plan.getPlanElements().add(e)`. */
    method Add(e: PlanElement)
      modifies this
      ensures elements == old(elements) + [e]
    {
      elements := elements + [e];
    }
  }

  /** A person and its plans; the list of plans itself is never changed here. */
  class Person {
    const id: Id
    const plans: seq<Plan>

    constructor (id: Id, plans: seq<Plan>)
      ensures this.id == id && this.plans == plans
    {
      this.id := id;
      this.plans := plans;
    }
  }

  /** Every plan object of the population. */
  ghost function PlansOf(persons: seq<Person>): set<Plan> {
    set p, plan | p in persons && plan in p.plans :: plan
  }

  /** No plan object is shared: each belongs to one person, at one position. */
  ghost predicate DistinctPlans(persons: seq<Person>) {
    forall i, j, k, l ::
      0 <= i < |persons| && 0 <= j < |persons| &&
      0 <= k < |persons[i].plans| && 0 <= l < |persons[j].plans| &&
      persons[i].plans[k] == persons[j].plans[l]
      ==> i == j && k == l
  }
}
