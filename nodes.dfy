/** The mind-map node record and the arena that owns every node of one parse.
    A node refers to its children by their positions in the arena; the
    position doubles as the node's identifier. */
module Nodes {
  import opened Wrappers

  /** The foreground colour every node of a document gets. */
  const Foreground: string := "#ffffff"

  /** The two sides a first-level branch can be drawn on, in the order they
      are handed out. */
  const Directions: seq<string> := ["right", "left"]

  /** One field per attribute of the source's node record, in declaration
      order. `id` is a counter standing for the random hexadecimal identifier. */
  datatype Node = Node(
    topic: string,
    level: int,
    id: nat,
    isroot: bool,
    expended: bool,
    direction: string,
    children: seq<nat>,
    background: Option<string>,
    foreground: Option<string>)

  /** A node built from a topic and the fields given explicitly; every other
      field keeps its declared default. */
  function NewNode(topic: string, level: int, id: nat, background: Option<string>, foreground: Option<string>): (n: Node)
    ensures n.topic == topic && n.level == level && n.id == id
    ensures n.background == background && n.foreground == foreground
    ensures !n.isroot && n.expended && n.direction == "right" && n.children == []
  {
    Node(topic, level, id, false, true, "right", [], background, foreground)
  }

  /** The root as the parser creates it: topic "root", level 0, its own
      background colour. Its `isroot` flag keeps the default, false. */
  function RootNode(background: string): (n: Node)
    ensures n.topic == "root" && n.level == 0 && n.id == 0 && !n.isroot
    ensures n.background == Some(background) && n.foreground == Some(Foreground)
    ensures n.children == [] && n.direction == "right"
  {
    NewNode("root", 0, 0, Some(background), Some(Foreground))
  }

  /** Every node created while parsing one document, the root first. */
  class Mind {
    var nodes: seq<Node>

    constructor (rootColor: string)
      ensures nodes == [RootNode(rootColor)]
    {
      nodes := [RootNode(rootColor)];
    }

    /** Allocates `node`: it takes the next free position. */
    method Add(node: Node) returns (index: nat)
      modifies this
      ensures index == |old(nodes)| && nodes == old(nodes) + [node]
    {
      index := |nodes|;
      nodes := nodes + [node];
    }

    /** `Node.add_child`: appends `child` to the children of `parent`; nothing
        else changes. */
    method AddChild(parent: nat, child: nat)
      requires parent < |nodes|
      modifies this
      ensures nodes == old(nodes)[parent := old(nodes[parent]).(children := old(nodes[parent].children) + [child])]
    {
      nodes := nodes[parent := nodes[parent].(children := nodes[parent].children + [child])];
    }

    /** Renames node `index`; nothing else changes. */
    method SetTopic(index: nat, topic: string)
      requires index < |nodes|
      modifies this
      ensures nodes == old(nodes)[index := old(nodes[index]).(topic := topic)]
    {
      nodes := nodes[index := nodes[index].(topic := topic)];
    }
  }
}
