/**
 * The part of a MATSim network the scenario builder touches: nodes and
 * links keyed by id, and `Network.addLink`.
 */
module Networks {
  import opened Ids

  /** A coordinate in metres; the test only uses whole-metre values. */
  datatype Coord = Coord(x: int, y: int)

  datatype Node = Node(id: Id, coord: Coord)

  /**
   * A directed link. Free speed is in metres per second; a real here is an
   * exact rational, not a Java double.
   */
  datatype Link = Link(
    id: Id,
    fromNode: Id,
    toNode: Id,
    freespeed: real,
    length: int,
    allowedModes: set<string>)

  class Network {
    var nodes: map<Id, Node>
    var links: map<Id, Link>

    /** Every entry is keyed by its own id, and every link's endpoints are nodes of the network. */
    ghost predicate Valid()
      reads this
    {
      && (forall id :: id in nodes ==> nodes[id].id == id)
      && (forall id :: id in links ==>
            links[id].id == id && links[id].fromNode in nodes && links[id].toNode in nodes)
    }

    constructor (nodes: map<Id, Node>, links: map<Id, Link>)
      requires forall id :: id in nodes ==> nodes[id].id == id
      requires forall id :: id in links ==>
        links[id].id == id && links[id].fromNode in nodes && links[id].toNode in nodes
      ensures Valid()
      ensures this.nodes == nodes && this.links == links
    {
      this.nodes := nodes;
      this.links := links;
    }

    /**
     * `network.addLink(link)`: registers a link between two nodes of the
     * network under an id not yet in use.
     */
    method AddLink(link: Link)
      requires Valid()
      requires link.id !in links
      requires link.fromNode in nodes && link.toNode in nodes
      modifies this`links
      ensures Valid()
      ensures links == old(links)[link.id := link]
      ensures |links| == |old(links)| + 1
    {
      links := links[link.id := link];
    }
  }
}
