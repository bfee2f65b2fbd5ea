/**
Labels and comma-merged chains: the wiring a filtergraph's text carries. A
label is written only where a chain begins or ends, and linking the text's
chains by label and by comma gives back every edge of the graph.
*/
module Wiring {
  import opened Names
  import opened Filtergraph

  datatype Kind = Video | Audio | Subtitle | Data

  /** `Whole` is a node id alone, its pad 0. */
  datatype Ref = Source(alias: string, kind: Kind, index: nat) | Whole(node: string) | Pad(node: string, pad: nat)

  /** `pads` is how many outputs the node declares. */
  datatype Node = Node(id: string, filter: string, args: seq<(string, string)>, inputs: seq<Ref>, pads: nat)

  datatype Graph = Graph(nodes: seq<Node>, outputs: seq<Ref>, sources: map<string, nat>, inputs: nat)

  /** One spelling per pad; a source is its own. */
  function Slot(ref: Ref): Ref
  {
    if ref.Whole? then Pad(ref.node, 0) else ref
  }

  // What emit checks first

  predicate DistinctIds(nodes: seq<Node>)
  {
    forall i, j :: 0 <= i < j < |nodes| ==> nodes[i].id != nodes[j].id
  }

  /** The ref is a known stream, or a pad of one of `before`. */
  predicate Resolves(g: Graph, ref: Ref, before: seq<Node>)
  {
    match ref
    case Source(alias, _, _) => alias in g.sources && g.sources[alias] < g.inputs
    case _ => exists j :: 0 <= j < |before| && before[j].id == Slot(ref).node && Slot(ref).pad < before[j].pads
  }

  predicate Topological(g: Graph)
  {
    && DistinctIds(g.nodes)
    && (forall k, q :: 0 <= k < |g.nodes| && 0 <= q < |g.nodes[k].inputs| ==>
          Resolves(g, g.nodes[k].inputs[q], g.nodes[..k]))
    && (forall i :: 0 <= i < |g.outputs| ==> Resolves(g, g.outputs[i], g.nodes))
  }

  function Slots(refs: seq<Ref>): (slots: seq<Ref>)
    ensures |slots| == |refs|
  {
    seq(|refs|, i requires 0 <= i < |refs| => Slot(refs[i]))
  }

  function InputSlots(nodes: seq<Node>): seq<Ref>
  {
    if nodes == [] then [] else InputSlots(nodes[..|nodes| - 1]) + Slots(nodes[|nodes| - 1].inputs)
  }

  /** Every consumer's slot, a node's inputs and the graph's outputs alike. */
  function Consumers(g: Graph): seq<Ref>
  {
    InputSlots(g.nodes) + Slots(g.outputs)
  }

  /** `_check_fanout`, whose exemptions are all source refs. */
  ghost predicate ConsumeOnce(g: Graph)
  {
    forall slot: Ref :: !slot.Source? ==> multiset(Consumers(g))[slot] <= 1
  }

  ghost predicate Tallied(counts: map<Ref, nat>, slots: seq<Ref>)
  {
    forall slot: Ref :: multiset(slots)[slot] == if slot in counts then counts[slot] else 0
  }

  lemma TallyOne(counts: map<Ref, nat>, slots: seq<Ref>, slot: Ref)
    requires Tallied(counts, slots)
    ensures Tallied(counts[slot := (if slot in counts then counts[slot] else 0) + 1], slots + [slot])
  {
  }

  method Tally(counts: map<Ref, nat>, refs: seq<Ref>, ghost seen: seq<Ref>) returns (counts': map<Ref, nat>)
    requires Tallied(counts, seen)
    ensures Tallied(counts', seen + Slots(refs))
  {
    hide Tallied;
    counts' := counts;
    assert seen + Slots(refs[..0]) == seen;
    for q := 0 to |refs|
      invariant Tallied(counts', seen + Slots(refs[..q]))
    {
      var slot := Slot(refs[q]);
      TallyOne(counts', seen + Slots(refs[..q]), slot);
      counts' := counts'[slot := (if slot in counts' then counts'[slot] else 0) + 1];
      assert seen + Slots(refs[..q + 1]) == seen + Slots(refs[..q]) + [slot];
    }
    assert refs[..|refs|] == refs;
  }

  /** How often each slot is consumed, one pass over nodes and outputs. */
  method CountConsumers(g: Graph) returns (counts: map<Ref, nat>)
    ensures Tallied(counts, Consumers(g))
  {
    counts := map[];
    assert Tallied(counts, InputSlots(g.nodes[..0]));
    hide Tallied;
    for k := 0 to |g.nodes|
      invariant Tallied(counts, InputSlots(g.nodes[..k]))
    {
      counts := Tally(counts, g.nodes[k].inputs, InputSlots(g.nodes[..k]));
      assert g.nodes[..k + 1][..k] == g.nodes[..k];
    }
    assert g.nodes[..|g.nodes|] == g.nodes;
    counts := Tally(counts, g.outputs, InputSlots(g.nodes));
  }

  /** Every ref resolves and points backwards: one pass over the nodes. Only a
      network may have no output. */
  method VerifyTopological(g: Graph, network: bool) returns (ok: bool)
    requires DistinctIds(g.nodes)
    ensures ok <==> Topological(g) && (g.outputs != [] || network)
  {
    for k := 0 to |g.nodes|
      invariant forall j, q :: 0 <= j < k && 0 <= q < |g.nodes[j].inputs| ==>
        Resolves(g, g.nodes[j].inputs[q], g.nodes[..j])
    {
      for q := 0 to |g.nodes[k].inputs|
        invariant forall p :: 0 <= p < q ==> Resolves(g, g.nodes[k].inputs[p], g.nodes[..k])
      {
        if !Resolves(g, g.nodes[k].inputs[q], g.nodes[..k]) {
          return false;
        }
      }
    }
    if g.outputs == [] && !network {
      return false;
    }
    ok := forall i :: 0 <= i < |g.outputs| ==> Resolves(g, g.outputs[i], g.nodes);
  }

  // A pad has one consumer

  lemma {:induction false} InputSlotAt(nodes: seq<Node>, k: nat, q: nat) returns (at: nat)
    requires k < |nodes| && q < |nodes[k].inputs|
    ensures at < |InputSlots(nodes)| && InputSlots(nodes)[at] == Slot(nodes[k].inputs[q])
    ensures |InputSlots(nodes[..k])| + q == at
    decreases |nodes|
  {
    var last := |nodes| - 1;
    if k == last {
      at := |InputSlots(nodes[..last])| + q;
    } else {
      assert nodes[..last][..k] == nodes[..k];
      at := InputSlotAt(nodes[..last], k, q);
    }
  }

  lemma {:induction false} InputSlotsGrow(nodes: seq<Node>, j: nat, k: nat)
    requires j < k <= |nodes|
    ensures |InputSlots(nodes[..j])| + |nodes[j].inputs| <= |InputSlots(nodes[..k])|
    decreases k
  {
    assert nodes[..k][..k - 1] == nodes[..k - 1];
    if j < k - 1 {
      InputSlotsGrow(nodes, j, k - 1);
    }
  }

  lemma TwiceCounted<T>(s: seq<T>, i: nat, j: nat)
    requires i < j < |s| && s[i] == s[j]
    ensures multiset(s)[s[i]] >= 2
  {
    assert s == s[..j] + [s[j]] + s[j + 1..];
    assert s[..j][i] == s[j] && s[j] in multiset(s[..j]);
  }

  /** A pad has one place among the consumers. */
  lemma OnePosition(g: Graph, a: nat, b: nat)
    requires ConsumeOnce(g) && a < |Consumers(g)| && b < |Consumers(g)|
    requires Consumers(g)[a] == Consumers(g)[b] && !Consumers(g)[a].Source?
    ensures a == b
  {
    var all := Consumers(g);
    if a < b {
      TwiceCounted(all, a, b);
    } else if b < a {
      TwiceCounted(all, b, a);
    }
  }

  /** Two inputs reading one pad are the same input. */
  lemma OneReader(g: Graph, j: nat, p: nat, k: nat, q: nat)
    requires ConsumeOnce(g) && j < |g.nodes| && p < |g.nodes[j].inputs| && k < |g.nodes| && q < |g.nodes[k].inputs|
    requires Slot(g.nodes[j].inputs[p]) == Slot(g.nodes[k].inputs[q]) && !g.nodes[j].inputs[p].Source?
    ensures j == k && p == q
  {
    hide ConsumeOnce;
    var a := InputSlotAt(g.nodes, j, p);
    var b := InputSlotAt(g.nodes, k, q);
    OnePosition(g, a, b);
    if j < k {
      InputSlotsGrow(g.nodes, j, k);
    } else if k < j {
      InputSlotsGrow(g.nodes, k, j);
    }
  }

  /** An output's pad is read by no node. */
  lemma OutputReadByNone(g: Graph, i: nat, k: nat, q: nat)
    requires ConsumeOnce(g) && i < |g.outputs| && k < |g.nodes| && q < |g.nodes[k].inputs|
    requires !g.outputs[i].Source?
    ensures Slot(g.outputs[i]) != Slot(g.nodes[k].inputs[q])
  {
    hide ConsumeOnce;
    var a := InputSlotAt(g.nodes, k, q);
    var b := |InputSlots(g.nodes)| + i;
    var all := Consumers(g);
    assert all[a] == Slot(g.nodes[k].inputs[q]) && all[b] == Slot(g.outputs[i]);
    if all[a] == all[b] {
      OnePosition(g, a, b);
    }
  }

  /** Two outputs of one pad are the same output. */
  lemma OneOutput(g: Graph, i: nat, j: nat)
    requires ConsumeOnce(g) && i < |g.outputs| && j < |g.outputs|
    requires Slot(g.outputs[i]) == Slot(g.outputs[j]) && !g.outputs[i].Source?
    ensures i == j
  {
    hide ConsumeOnce;
    var all, n := Consumers(g), |InputSlots(g.nodes)|;
    assert all[n + i] == Slot(g.outputs[i]) && all[n + j] == Slot(g.outputs[j]);
    OnePosition(g, n + i, n + j);
  }

  // Labels

  function OutputLabel(i: nat): string { "out" + Decimal(i) }

  function Sanitized(id: string): (name: string)
    ensures |name| > 0
    ensures forall i :: 0 <= i < |name| ==> IsLabelChar(name[i]) && name[i] != ':'
  {
    var cleaned := seq(|id|, i requires 0 <= i < |id| =>
      if IsLabelChar(id[i]) && id[i] != ':' then id[i] else '_');
    if cleaned == [] then "pad" else cleaned
  }

  /** A pad's label: letters, digits and underscores. */
  predicate IsPadLabel(name: string)
  {
    IsLabel(name) && forall i :: 0 <= i < |name| ==> name[i] != ':'
  }

  ghost predicate PadOfGraph(nodes: seq<Node>, slot: (string, nat))
  {
    exists k :: 0 <= k < |nodes| && nodes[k].id == slot.0 && slot.1 < nodes[k].pads
  }

  /** Every pad has a label and no two the same; an output's pad is `out<i>`,
      and no other pad is ever labelled so. */
  ghost predicate Labelled(g: Graph, labels: map<(string, nat), string>)
  {
    && (forall slot :: slot in labels <==> PadOfGraph(g.nodes, slot))
    && (forall a, b :: a in labels && b in labels && labels[a] == labels[b] ==> a == b)
    && (forall slot :: slot in labels ==> IsPadLabel(labels[slot]))
    && (forall i, slot :: 0 <= i < |g.outputs| && slot in labels ==>
          (labels[slot] == OutputLabel(i) <==> Slot(g.outputs[i]) == Pad(slot.0, slot.1)))
  }

  lemma OutputLabelIsLabel(i: nat)
    ensures IsPadLabel(OutputLabel(i))
  {
    DecimalDigits(i);
  }

  lemma {:induction false} DecimalDigits(n: nat)
    ensures |Decimal(n)| > 0
    ensures forall i :: 0 <= i < |Decimal(n)| ==> '0' <= Decimal(n)[i] <= '9'
  {
    if n >= 10 {
      DecimalDigits(n / 10);
    }
  }

  lemma OutputLabelsDiffer(i: nat, j: nat)
    requires OutputLabel(i) == OutputLabel(j)
    ensures i == j
  {
    assert OutputLabel(i)[3..] == Decimal(i) && OutputLabel(j)[3..] == Decimal(j);
    DecimalInjective(i, j);
  }

  /** The label an output takes, by its pad (`output_labels`). */
  ghost predicate OutputLabelled(g: Graph, labels: map<Ref, string>, upTo: nat)
    requires upTo <= |g.outputs|
  {
    && (forall slot :: slot in labels ==> exists i :: 0 <= i < upTo && !g.outputs[i].Source? && Slot(g.outputs[i]) == slot)
    && (forall i :: 0 <= i < upTo && !g.outputs[i].Source? ==>
          Slot(g.outputs[i]) in labels && labels[Slot(g.outputs[i])] == OutputLabel(i))
  }

  /** The pads labelled before pad `pad` of node `k`. */
  ghost predicate Before(nodes: seq<Node>, k: nat, pad: nat, slot: (string, nat))
    requires k <= |nodes| && (k == |nodes| ==> pad == 0)
  {
    || PadOfGraph(nodes[..k], slot)
    || (k < |nodes| && slot.0 == nodes[k].id && slot.1 < pad && slot.1 < nodes[k].pads)
  }

  /** What holds of the labels given so far: an output's own, or a name that was
      not in use; every name in use is an output's or given. */
  ghost predicate Partly(g: Graph, outs: map<Ref, string>, used: set<string>, labels: map<(string, nat), string>)
  {
    && (forall a :: a in labels && Pad(a.0, a.1) in outs ==> labels[a] == outs[Pad(a.0, a.1)])
    && (forall a :: a in labels && Pad(a.0, a.1) !in outs ==>
          IsPadLabel(labels[a]) && labels[a] in used && forall i :: 0 <= i < |g.outputs| ==> labels[a] != OutputLabel(i))
    && (forall a, b :: a in labels && b in labels && a != b && Pad(a.0, a.1) !in outs && Pad(b.0, b.1) !in outs ==>
          labels[a] != labels[b])
    && (forall i :: 0 <= i < |g.outputs| ==> OutputLabel(i) in used)
  }

  lemma PartlyNamed(g: Graph, outs: map<Ref, string>, used: set<string>, labels: map<(string, nat), string>,
                    slot: (string, nat), name: string)
    requires Partly(g, outs, used, labels) && slot !in labels && Pad(slot.0, slot.1) !in outs
    requires IsPadLabel(name) && name !in used
    ensures Partly(g, outs, used + {name}, labels[slot := name])
  {
  }

  lemma PartlyDone(g: Graph, outs: map<Ref, string>, used: set<string>, labels: map<(string, nat), string>)
    requires ConsumeOnce(g) && OutputLabelled(g, outs, |g.outputs|) && Partly(g, outs, used, labels)
    requires forall slot :: slot in labels <==> PadOfGraph(g.nodes, slot)
    ensures Labelled(g, labels)
  {
    forall slot | slot in labels && Pad(slot.0, slot.1) in outs
      ensures exists i :: (0 <= i < |g.outputs| && !g.outputs[i].Source? && Slot(g.outputs[i]) == Pad(slot.0, slot.1)
        && labels[slot] == OutputLabel(i) && IsPadLabel(labels[slot]))
    {
      var i :| 0 <= i < |g.outputs| && !g.outputs[i].Source? && Slot(g.outputs[i]) == Pad(slot.0, slot.1);
      OutputLabelIsLabel(i);
    }
    forall i, j | 0 <= i < |g.outputs| && 0 <= j < |g.outputs| && OutputLabel(i) == OutputLabel(j) ensures i == j {
      OutputLabelsDiffer(i, j);
    }
  }

  lemma OutputLabelledOn(g: Graph, outs: map<Ref, string>, i: nat)
    requires ConsumeOnce(g) && i < |g.outputs| && OutputLabelled(g, outs, i)
    ensures g.outputs[i].Source? ==> OutputLabelled(g, outs, i + 1)
    ensures !g.outputs[i].Source? ==> OutputLabelled(g, outs[Slot(g.outputs[i]) := OutputLabel(i)], i + 1)
  {
    if !g.outputs[i].Source? {
      NewOutput(g, i);
      hide ConsumeOnce;
      var outs' := outs[Slot(g.outputs[i]) := OutputLabel(i)];
      forall slot | slot in outs'
        ensures exists j :: 0 <= j < i + 1 && !g.outputs[j].Source? && Slot(g.outputs[j]) == slot
      {
        if slot in outs {
          var j :| 0 <= j < i && !g.outputs[j].Source? && Slot(g.outputs[j]) == slot;
        }
      }
      hide OutputLabel;
    }
  }

  lemma NewOutput(g: Graph, i: nat)
    requires ConsumeOnce(g) && i < |g.outputs| && !g.outputs[i].Source?
    ensures forall j :: 0 <= j < i && !g.outputs[j].Source? ==> Slot(g.outputs[j]) != Slot(g.outputs[i])
  {
    forall j | 0 <= j < i && !g.outputs[j].Source? ensures Slot(g.outputs[j]) != Slot(g.outputs[i]) {
      if Slot(g.outputs[j]) == Slot(g.outputs[i]) {
        OneOutput(g, j, i);
      }
    }
  }

  method OutputLabels(g: Graph) returns (outs: map<Ref, string>)
    requires ConsumeOnce(g)
    ensures OutputLabelled(g, outs, |g.outputs|)
  {
    outs := map[];
    assert OutputLabelled(g, outs, 0);
    hide OutputLabelled, ConsumeOnce;
    for i := 0 to |g.outputs|
      invariant OutputLabelled(g, outs, i)
    {
      OutputLabelledOn(g, outs, i);
      if !g.outputs[i].Source? {
        outs := outs[Slot(g.outputs[i]) := OutputLabel(i)];
      }
    }
  }

  function BaseLabel(node: Node, pad: nat): (base: string)
    ensures IsPadLabel(base)
  {
    DecimalDigits(pad);
    Sanitized(node.id) + (if node.pads > 1 then Decimal(pad) else "")
  }

  lemma Underscored(base: string, name: string)
    requires IsPadLabel(base) && Padded(base, name)
    ensures IsPadLabel(name)
  {
    assert forall i :: 0 <= i < |base| ==> name[i] == base[i];
  }

  /** A label for every pad (`_assign_labels`). */
  method AssignLabels(g: Graph) returns (labels: map<(string, nat), string>)
    requires DistinctIds(g.nodes) && ConsumeOnce(g)
    ensures Labelled(g, labels)
  {
    var outs := OutputLabels(g);
    // Every `out<i>` is reserved, the ones of sources included.
    var used := set i | 0 <= i < |g.outputs| :: OutputLabel(i);
    labels := map[];
    assert Partly(g, outs, used, labels);
    hide Partly, PadOfGraph, Before, IsPadLabel, BaseLabel, OutputLabelled, ConsumeOnce, DistinctIds;
    NoPadYet(g.nodes);
    for k := 0 to |g.nodes|
      invariant forall slot :: slot in labels <==> PadOfGraph(g.nodes[..k], slot)
      invariant Partly(g, outs, used, labels)
    {
      NodeBegun(g.nodes, k);
      labels, used := LabelNode(g, k, outs, used, labels);
      NodeDone(g.nodes, k);
    }
    assert g.nodes[..|g.nodes|] == g.nodes;
    PartlyDone(g, outs, used, labels);
  }

  /** The inner loop: one node's pads. */
  method LabelNode(g: Graph, k: nat, outs: map<Ref, string>, taken: set<string>, given: map<(string, nat), string>)
    returns (labels: map<(string, nat), string>, used: set<string>)
    requires DistinctIds(g.nodes) && k < |g.nodes| && Partly(g, outs, taken, given)
    requires forall slot :: slot in given <==> Before(g.nodes, k, 0, slot)
    ensures Partly(g, outs, used, labels)
    ensures forall slot :: slot in labels <==> Before(g.nodes, k, g.nodes[k].pads, slot)
  {
    hide *;
    var node := g.nodes[k];
    labels, used := given, taken;
    for pad := 0 to node.pads
      invariant forall slot :: slot in labels <==> Before(g.nodes, k, pad, slot)
      invariant Partly(g, outs, used, labels)
    {
      var slot := (node.id, pad);
      NewPad(g.nodes, k, pad);
      BeforeStep(g.nodes, k, pad);
      if Pad(node.id, pad) in outs {
        PartlyOutput(g, outs, used, labels, slot);
        labels := labels[slot := outs[Pad(node.id, pad)]];
      } else {
        var base := BaseLabel(node, pad);
        var name := Fresh(base, used);
        Underscored(base, name);
        PartlyNamed(g, outs, used, labels, slot, name);
        used := used + {name};
        labels := labels[slot := name];
      }
    }
  }

  lemma PartlyOutput(g: Graph, outs: map<Ref, string>, used: set<string>, labels: map<(string, nat), string>,
                     slot: (string, nat))
    requires Partly(g, outs, used, labels) && Pad(slot.0, slot.1) in outs
    ensures Partly(g, outs, used, labels[slot := outs[Pad(slot.0, slot.1)]])
  {
  }

  lemma NoPadYet(nodes: seq<Node>)
    ensures forall slot :: !PadOfGraph(nodes[..0], slot)
  {
  }

  lemma NodeBegun(nodes: seq<Node>, k: nat)
    requires k < |nodes|
    ensures forall slot :: Before(nodes, k, 0, slot) <==> PadOfGraph(nodes[..k], slot)
  {
  }

  lemma NewPad(nodes: seq<Node>, k: nat, pad: nat)
    requires DistinctIds(nodes) && k < |nodes|
    ensures !Before(nodes, k, pad, (nodes[k].id, pad))
  {
  }

  lemma BeforeStep(nodes: seq<Node>, k: nat, pad: nat)
    requires k < |nodes| && pad < nodes[k].pads
    ensures forall slot :: Before(nodes, k, pad + 1, slot) <==> Before(nodes, k, pad, slot) || slot == (nodes[k].id, pad)
  {
  }

  lemma NodeDone(nodes: seq<Node>, k: nat)
    requires k < |nodes|
    ensures forall slot :: PadOfGraph(nodes[..k + 1], slot) <==> Before(nodes, k, nodes[k].pads, slot)
  {
    forall slot: (string, nat) ensures PadOfGraph(nodes[..k + 1], slot) <==> Before(nodes, k, nodes[k].pads, slot) {
      if PadOfGraph(nodes[..k + 1], slot) {
        var j :| 0 <= j < |nodes[..k + 1]| && nodes[..k + 1][j].id == slot.0 && slot.1 < nodes[..k + 1][j].pads;
        assert j < k ==> nodes[..k][j].id == slot.0;
      }
      if PadOfGraph(nodes[..k], slot) {
        var j :| 0 <= j < k && nodes[..k][j].id == slot.0 && slot.1 < nodes[..k][j].pads;
        assert nodes[..k + 1][j].id == slot.0;
      }
      if Before(nodes, k, nodes[k].pads, slot) && !PadOfGraph(nodes[..k], slot) {
        assert nodes[..k + 1][k].id == slot.0;
      }
    }
  }
}
