/** The node interface. A node is a user-supplied unit of work: the framework only
    knows its name and that it can be ticked and asked to process its input.
    What a node does in `tick` and `process_input` is not part of this model, so a
    node is represented by its name and the framework's calls by events. */
module Nodes {

  datatype Node = Node(name: string)

  /** One call made by a region's scheduling loop, naming the node by its
      position in the region's registration order. */
  datatype Event = Tick(node: nat) | Process(node: nat)
}
