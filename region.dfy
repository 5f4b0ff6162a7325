/** A region: a named group of nodes sharing one tick period and one thread. */
module Regions {
  import opened Nodes

  class Region {
    var name: string
    /** Tick period, in nanoseconds. */
    var tick: nat
    /** The nodes in registration order. */
    var nodes: seq<Node>

    /** A new region has the given name and period and no nodes. */
    constructor (name: string, tick: nat)
      ensures this.name == name && this.tick == tick && nodes == []
    {
      this.name := name;
      this.tick := tick;
      nodes := [];
    }

    /** Appends one node after the ones already registered; name and period stay. */
    method AddNode(node: Node)
      modifies this
      ensures nodes == old(nodes) + [node]
      ensures name == old(name) && tick == old(tick)
    {
      nodes := nodes + [node];
    }

    method Name() returns (r: string)
      ensures r == name
    {
      r := name;
    }

    method Tick() returns (r: nat)
      ensures r == tick
    {
      r := tick;
    }

    /** The registered nodes, in registration order. */
    method NodesMut() returns (r: seq<Node>)
      ensures r == nodes
    {
      r := nodes;
    }
  }
}
