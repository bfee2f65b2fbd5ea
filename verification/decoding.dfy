/**
A decode in front of everything that reads a coded stream as frames: one per
stream, ahead of its first such reader, and every such reader reads it.
*/
module Decoding {
  import opened Wrappers
  import opened Names
  import W = Wiring

  type Ref = W.Ref
  type Kind = W.Kind

  datatype Port = Packets | Frames | OtherPort

  /** `shaped` nodes have a declared shape: `ports` are the kinds it gives the
      inputs, and `packetPads` the outputs it writes as packets. */
  datatype Node = Node(id: string, filter: string, inputs: seq<Ref>, shaped: bool,
                       ports: seq<Option<Port>>, packetPads: set<nat>)

  /** `kinds` is the type of stream a ref names. */
  datatype Graph = Graph(nodes: seq<Node>, packetSinks: set<string>, packetFilters: set<string>,
                         dataFilters: set<string>, decoders: set<string>, kinds: Ref -> Kind)

  const LEAKY := "leaky"

  function DecodeFilter(kind: Kind): string
  {
    if kind == W.Video then "null" else "anull"
  }

  function DecodeId(ref: Ref): string
  {
    match ref
    case Whole(n) => n + "_decode"
    case Pad(n, p) => n + "_" + Decimal(p) + "_decode"
    case Source(_, _, _) => "_decode"
  }

  function NodeRef(ref: Ref): string
    requires !ref.Source?
  {
    W.Slot(ref).node
  }

  predicate IsNode(nodes: seq<Node>, id: string)
  {
    exists k :: 0 <= k < |nodes| && nodes[k].id == id
  }

  /** A node writes the pad as packets. */
  predicate WritesPackets(nodes: seq<Node>, id: string, pad: nat)
  {
    exists k :: 0 <= k < |nodes| && nodes[k].id == id && nodes[k].shaped && pad in nodes[k].packetPads
  }

  /** What a node writes as packets, or a packet filter hands back. */
  predicate Coded(g: Graph, ref: Ref)
  {
    !ref.Source? && (NodeRef(ref) in g.packetFilters || WritesPackets(g.nodes, NodeRef(ref), W.Slot(ref).pad))
  }

  function FirstAt(refs: seq<Ref>, ref: Ref): (at: nat)
    ensures at <= |refs| && (at < |refs| ==> refs[at] == ref)
    ensures forall q :: 0 <= q < at ==> refs[q] != ref
  {
    if refs == [] || refs[0] == ref then 0 else 1 + FirstAt(refs[1..], ref)
  }

  /** The kind of port `reader` reads `ref` at, by its first reading of it. */
  function PortOf(reader: Node, ref: Ref): Option<Port>
  {
    var at := FirstAt(reader.inputs, ref);
    if at < |reader.inputs| && at < |reader.ports| then reader.ports[at] else None
  }

  predicate TakesPackets(g: Graph, reader: Node, ref: Ref)
  {
    || reader.id in g.packetSinks || reader.id in g.packetFilters
    || (reader.shaped && PortOf(reader, ref) == Some(Packets))
  }

  predicate TakesFrames(g: Graph, reader: Node, ref: Ref, modules: set<string>)
  {
    && reader.filter != LEAKY && reader.id !in g.dataFilters && reader.id !in g.decoders
    && !TakesPackets(g, reader, ref)
    && if !reader.shaped then reader.filter in modules else PortOf(reader, ref) == Some(Frames)
  }

  /** An input that has to read a decode. */
  predicate NeedsDecode(g: Graph, modules: set<string>, node: Node, q: nat)
    requires q < |node.inputs|
  {
    var ref := node.inputs[q];
    && (g.kinds(ref) == W.Video || g.kinds(ref) == W.Audio)
    && Coded(g, ref) && TakesFrames(g, node, ref, modules)
  }

  function Decode(g: Graph, ref: Ref): Node
  {
    Node(DecodeId(ref), DecodeFilter(g.kinds(ref)), [ref], false, [], {})
  }

  // What the pass makes

  function Rewired(g: Graph, modules: set<string>, node: Node): (rewired: Node)
    ensures |rewired.inputs| == |node.inputs|
  {
    node.(inputs := seq(|node.inputs|, q requires 0 <= q < |node.inputs| =>
      RewiredInput(g, modules, node, q)))
  }

  function RewiredInput(g: Graph, modules: set<string>, node: Node, q: nat): Ref
    requires q < |node.inputs|
  {
    if NeedsDecode(g, modules, node, q) then W.Whole(DecodeId(node.inputs[q])) else node.inputs[q]
  }

  lemma RewiredAt(g: Graph, modules: set<string>, node: Node, q: nat)
    requires q < |node.inputs|
    ensures RewiredInput(g, modules, node, q)
         == if NeedsDecode(g, modules, node, q) then W.Whole(DecodeId(node.inputs[q])) else node.inputs[q]
  {
  }

  lemma RewiredIs(g: Graph, modules: set<string>, node: Node, inputs: seq<Ref>)
    requires |inputs| == |node.inputs| && forall p :: 0 <= p < |inputs| ==> inputs[p] == RewiredInput(g, modules, node, p)
    ensures node.(inputs := inputs) == Rewired(g, modules, node)
  {
    hide RewiredInput;
    assert inputs == Rewired(g, modules, node).inputs;
  }

  /** The refs with a decode once the node's first `q` inputs are done. */
  function SeenIn(g: Graph, modules: set<string>, node: Node, q: nat, seen: set<Ref>): set<Ref>
    requires q <= |node.inputs|
  {
    if q == 0 then seen
    else SeenIn(g, modules, node, q - 1, seen) + (if NeedsDecode(g, modules, node, q - 1) then {node.inputs[q - 1]} else {})
  }

  function NewDecodes(g: Graph, modules: set<string>, node: Node, q: nat, seen: set<Ref>): seq<Node>
    requires q <= |node.inputs|
  {
    if q == 0 then []
    else
      var ref := node.inputs[q - 1];
      NewDecodes(g, modules, node, q - 1, seen) +
      (if NeedsDecode(g, modules, node, q - 1) && ref !in SeenIn(g, modules, node, q - 1, seen) then [Decode(g, ref)] else [])
  }

  function Seen(g: Graph, modules: set<string>, k: nat): set<Ref>
    requires k <= |g.nodes|
  {
    if k == 0 then {}
    else SeenIn(g, modules, g.nodes[k - 1], |g.nodes[k - 1].inputs|, Seen(g, modules, k - 1))
  }

  /** The first `k` nodes, their decodes ahead of them. */
  function Made(g: Graph, modules: set<string>, k: nat): seq<Node>
    requires k <= |g.nodes|
  {
    if k == 0 then []
    else
      var node := g.nodes[k - 1];
      Made(g, modules, k - 1) + NewDecodes(g, modules, node, |node.inputs|, Seen(g, modules, k - 1))
      + [Rewired(g, modules, node)]
  }

  /** A node kept under its id: over the one there was, or after the others. */
  function Put(nodes: seq<Node>, node: Node): seq<Node>
  {
    if nodes == [] then [node]
    else if nodes[0].id == node.id then [node] + nodes[1..]
    else [nodes[0]] + Put(nodes[1..], node)
  }

  /** The table made by keeping each node under its id in turn. */
  function Table(nodes: seq<Node>): seq<Node>
  {
    if nodes == [] then [] else Put(Table(nodes[..|nodes| - 1]), nodes[|nodes| - 1])
  }

  lemma TableOn(nodes: seq<Node>, node: Node)
    ensures Table(nodes + [node]) == Put(Table(nodes), node)
  {
    assert (nodes + [node])[..|nodes|] == nodes;
  }

  /** The pass over the graph, each table filled as it goes. */
  method DecodeAhead(g: Graph, modules: set<string>) returns (after: Graph)
    ensures after == g.(nodes := Table(Made(g, modules, |g.nodes|)))
  {
    var decodes: set<Ref> := {};
    var nodes: seq<Node> := [];
    for k := 0 to |g.nodes|
      invariant decodes == Seen(g, modules, k) && nodes == Table(Made(g, modules, k))
    {
      hide *;
      var node := g.nodes[k];
      var inputs: seq<Ref>;
      inputs, nodes, decodes := DecodeInputs(g, modules, k, nodes, decodes);
      RewiredIs(g, modules, node, inputs);
      OneNode(g, modules, k);
      nodes := Put(nodes, node.(inputs := inputs));
    }
    after := g.(nodes := nodes);
  }

  /** The inner loop: one node's inputs. */
  method DecodeInputs(g: Graph, modules: set<string>, k: nat, before: seq<Node>, had: set<Ref>)
    returns (inputs: seq<Ref>, nodes: seq<Node>, decodes: set<Ref>)
    requires k < |g.nodes| && had == Seen(g, modules, k) && before == Table(Made(g, modules, k))
    ensures var node := g.nodes[k];
      && |inputs| == |node.inputs| && (forall p :: 0 <= p < |inputs| ==> inputs[p] == RewiredInput(g, modules, node, p))
      && decodes == SeenIn(g, modules, node, |node.inputs|, Seen(g, modules, k))
      && nodes == Table(Made(g, modules, k) + NewDecodes(g, modules, node, |node.inputs|, Seen(g, modules, k)))
  {
    hide *;
    var node := g.nodes[k];
    NoInput(g, modules, k);
    inputs, nodes, decodes := node.inputs, before, had;
    for q := 0 to |node.inputs|
      invariant decodes == SeenIn(g, modules, node, q, Seen(g, modules, k))
      invariant nodes == Table(Made(g, modules, k) + NewDecodes(g, modules, node, q, Seen(g, modules, k)))
      invariant |inputs| == |node.inputs|
      invariant forall p :: 0 <= p < q ==> inputs[p] == RewiredInput(g, modules, node, p)
      invariant forall p :: q <= p < |inputs| ==> inputs[p] == node.inputs[p]
    {
      var ref := node.inputs[q];
      OneInput(g, modules, k, q);
      RewiredAt(g, modules, node, q);
      if NeedsDecode(g, modules, node, q) {
        if ref !in decodes {
          decodes := decodes + {ref};
          nodes := Put(nodes, Decode(g, ref));
        }
        inputs := inputs[q := W.Whole(DecodeId(ref))];
      }
    }
  }

  predicate Distinct(nodes: seq<Node>)
  {
    forall i, j :: 0 <= i < j < |nodes| ==> nodes[i].id != nodes[j].id
  }

  lemma {:induction false} PutNew(nodes: seq<Node>, node: Node)
    requires forall k :: 0 <= k < |nodes| ==> nodes[k].id != node.id
    ensures Put(nodes, node) == nodes + [node]
  {
    if nodes != [] {
      PutNew(nodes[1..], node);
      assert nodes == [nodes[0]] + nodes[1..];
    }
  }

  /** A table has one node an id. */
  lemma {:induction false} PutOne(nodes: seq<Node>, node: Node)
    requires Distinct(nodes)
    ensures Distinct(Put(nodes, node))
    ensures forall k :: 0 <= k < |Put(nodes, node)| ==> Put(nodes, node)[k] == node || Put(nodes, node)[k] in nodes
  {
    if nodes != [] && nodes[0].id != node.id {
      PutOne(nodes[1..], node);
      var others := Put(nodes[1..], node);
      forall k | 0 <= k < |others| ensures others[k].id != nodes[0].id {
        if others[k] != node {
          var i :| 0 <= i < |nodes[1..]| && nodes[1..][i] == others[k];
          assert nodes[i + 1] == others[k];
        }
      }
    }
  }

  lemma {:induction false} TableOne(nodes: seq<Node>)
    ensures Distinct(Table(nodes))
  {
    if nodes != [] {
      TableOne(nodes[..|nodes| - 1]);
      PutOne(Table(nodes[..|nodes| - 1]), nodes[|nodes| - 1]);
    }
  }

  /** Every node is kept, none over another, exactly when no two have one id. */
  lemma {:induction false} TableKeeps(nodes: seq<Node>)
    ensures Table(nodes) == nodes <==> Distinct(nodes)
  {
    TableOne(nodes);
    if nodes != [] && Distinct(nodes) {
      var before, last := nodes[..|nodes| - 1], nodes[|nodes| - 1];
      TableKeeps(before);
      PutNew(before, last);
      assert nodes == before + [last];
    }
  }

  /** What one more input adds. */
  lemma OneInput(g: Graph, modules: set<string>, k: nat, q: nat)
    requires k < |g.nodes| && q < |g.nodes[k].inputs|
    ensures var node, seen := g.nodes[k], Seen(g, modules, k);
      var so := Made(g, modules, k) + NewDecodes(g, modules, node, q, seen);
      var more := Made(g, modules, k) + NewDecodes(g, modules, node, q + 1, seen);
      var ref := node.inputs[q];
      && SeenIn(g, modules, node, q + 1, seen)
           == SeenIn(g, modules, node, q, seen) + (if NeedsDecode(g, modules, node, q) then {ref} else {})
      && Table(more) == if NeedsDecode(g, modules, node, q) && ref !in SeenIn(g, modules, node, q, seen)
                        then Put(Table(so), Decode(g, ref)) else Table(so)
  {
    hide *;
    var node, seen := g.nodes[k], Seen(g, modules, k);
    var made, added := Made(g, modules, k), NewDecodes(g, modules, node, q, seen);
    TableOn(made + added, Decode(g, node.inputs[q]));
    DecodesOn(g, modules, node, q, seen);
    Grouped(made, added, [Decode(g, node.inputs[q])]);
  }

  lemma DecodesOn(g: Graph, modules: set<string>, node: Node, q: nat, seen: set<Ref>)
    requires q < |node.inputs|
    ensures var needs, ref := NeedsDecode(g, modules, node, q), node.inputs[q];
      && SeenIn(g, modules, node, q + 1, seen) == SeenIn(g, modules, node, q, seen) + (if needs then {ref} else {})
      && NewDecodes(g, modules, node, q + 1, seen)
           == if needs && ref !in SeenIn(g, modules, node, q, seen) then NewDecodes(g, modules, node, q, seen) + [Decode(g, ref)]
              else NewDecodes(g, modules, node, q, seen)
  {
    hide NeedsDecode, Decode;
  }

  lemma Grouped<T>(a: seq<T>, b: seq<T>, c: seq<T>)
    ensures a + (b + c) == (a + b) + c
  {
  }

  lemma OneNode(g: Graph, modules: set<string>, k: nat)
    requires k < |g.nodes|
    ensures var node, seen := g.nodes[k], Seen(g, modules, k);
      && Seen(g, modules, k + 1) == SeenIn(g, modules, node, |node.inputs|, seen)
      && Table(Made(g, modules, k + 1))
           == Put(Table(Made(g, modules, k) + NewDecodes(g, modules, node, |node.inputs|, seen)), Rewired(g, modules, node))
  {
    var node := g.nodes[k];
    TableOn(Made(g, modules, k) + NewDecodes(g, modules, node, |node.inputs|, Seen(g, modules, k)), Rewired(g, modules, node));
    hide NeedsDecode, Table, Put, SeenIn, NewDecodes, Rewired;
  }

  lemma NoInput(g: Graph, modules: set<string>, k: nat)
    requires k < |g.nodes|
    ensures SeenIn(g, modules, g.nodes[k], 0, Seen(g, modules, k)) == Seen(g, modules, k)
    ensures Made(g, modules, k) + NewDecodes(g, modules, g.nodes[k], 0, Seen(g, modules, k)) == Made(g, modules, k)
  {
  }
}
