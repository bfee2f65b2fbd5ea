/** Comma-merged chains, and the links their text is read back with. */
module Chains {
  import opened Wrappers
  import opened Names
  import opened Escaping
  import opened Filtergraph
  import opened Wiring

  // `_build_chains`

  /** `node` may follow `prev` after a comma: its one input is `prev`'s one pad. */
  predicate Extends(prev: Node, node: Node)
  {
    && prev.pads == 1
    && |node.inputs| == 1
    && !node.inputs[0].Source?
    && Slot(node.inputs[0]) == Pad(prev.id, 0)
  }

  function Flat<T>(chains: seq<seq<T>>): seq<T>
  {
    if chains == [] then [] else Flat(chains[..|chains| - 1]) + chains[|chains| - 1]
  }

  /** The nodes in order, cut wherever one does not extend the one before it. */
  ghost predicate Chained(nodes: seq<Node>, chains: seq<seq<Node>>)
  {
    && Flat(chains) == nodes
    && (forall c :: 0 <= c < |chains| ==> chains[c] != [])
    && (forall c, s :: 0 <= c < |chains| && 0 < s < |chains[c]| ==> Extends(chains[c][s - 1], chains[c][s]))
    && (forall c :: 0 < c < |chains| ==> !Extends(chains[c - 1][|chains[c - 1]| - 1], chains[c][0]))
  }

  lemma ChainGrown(nodes: seq<Node>, chains: seq<seq<Node>>, node: Node)
    requires Chained(nodes, chains) && chains != []
    requires var last := chains[|chains| - 1]; Extends(last[|last| - 1], node)
    ensures Chained(nodes + [node], chains[..|chains| - 1] + [chains[|chains| - 1] + [node]])
  {
    var grown := chains[..|chains| - 1] + [chains[|chains| - 1] + [node]];
    assert grown[..|grown| - 1] == chains[..|chains| - 1];
  }

  lemma ChainBegun(nodes: seq<Node>, chains: seq<seq<Node>>, node: Node)
    requires Chained(nodes, chains)
    requires chains != [] ==> var last := chains[|chains| - 1]; !Extends(last[|last| - 1], node)
    ensures Chained(nodes + [node], chains + [[node]])
  {
    var grown := chains + [[node]];
    assert grown[..|grown| - 1] == chains;
  }

  method BuildChains(nodes: seq<Node>) returns (chains: seq<seq<Node>>)
    ensures Chained(nodes, chains)
  {
    chains := [];
    for k := 0 to |nodes|
      invariant Chained(nodes[..k], chains)
    {
      var last := |chains| - 1;
      assert nodes[..k + 1] == nodes[..k] + [nodes[k]];
      if chains != [] && Extends(chains[last][|chains[last]| - 1], nodes[k]) {
        ChainGrown(nodes[..k], chains, nodes[k]);
        chains := chains[..last] + [chains[last] + [nodes[k]]];
      } else {
        ChainBegun(nodes[..k], chains, nodes[k]);
        chains := chains + [[nodes[k]]];
      }
    }
    assert nodes[..|nodes|] == nodes;
  }

  lemma {:induction false} FlatAt<T>(chains: seq<seq<T>>, c: nat, s: nat) returns (k: nat)
    requires c < |chains| && s < |chains[c]|
    ensures k < |Flat(chains)| && Flat(chains)[k] == chains[c][s]
    ensures k == |Flat(chains[..c])| + s
    decreases |chains|
  {
    var last := |chains| - 1;
    if c == last {
      k := |Flat(chains[..last])| + s;
    } else {
      assert chains[..last][..c] == chains[..c];
      k := FlatAt(chains[..last], c, s);
    }
  }

  lemma {:induction false} FlatGrows<T>(chains: seq<seq<T>>, c: nat, d: nat)
    requires c < d <= |chains|
    ensures |Flat(chains[..c])| + |chains[c]| <= |Flat(chains[..d])|
    decreases d
  {
    assert chains[..d][..d - 1] == chains[..d - 1];
    if c < d - 1 {
      FlatGrows(chains, c, d - 1);
    }
  }

  lemma {:induction false} PlaceOf<T>(chains: seq<seq<T>>, k: nat) returns (c: nat, s: nat)
    requires k < |Flat(chains)|
    ensures c < |chains| && s < |chains[c]| && chains[c][s] == Flat(chains)[k]
    decreases |chains|
  {
    var last := |chains| - 1;
    if k < |Flat(chains[..last])| {
      c, s := PlaceOf(chains[..last], k);
    } else {
      c, s := last, k - |Flat(chains[..last])|;
    }
  }

  /** Each node stands in one place. */
  lemma OnePlace(nodes: seq<Node>, chains: seq<seq<Node>>, c: nat, s: nat, d: nat, t: nat)
    requires DistinctIds(nodes) && Flat(chains) == nodes
    requires c < |chains| && s < |chains[c]| && d < |chains| && t < |chains[d]|
    requires chains[c][s].id == chains[d][t].id
    ensures c == d && s == t
  {
    var j := FlatAt(chains, c, s);
    var k := FlatAt(chains, d, t);
    if c < d {
      FlatGrows(chains, c, d);
    } else if d < c {
      FlatGrows(chains, d, c);
    }
    assert nodes[j].id == nodes[k].id;
  }

  // Rendering

  function Marker(kind: Kind): char
  {
    match kind
    case Video => 'v'
    case Audio => 'a'
    case Subtitle => 's'
    case Data => 'd'
  }

  function Spec(input: nat, kind: Kind, index: nat): string
  {
    Decimal(input) + [':', Marker(kind), ':'] + Decimal(index)
  }

  // How ffmpeg reads a stream specifier: the "Stream specifiers" and "-map"
  // sections of its documentation

  function DigitValue(c: char): nat
    requires '0' <= c <= '9'
  {
    c as nat - '0' as nat
  }

  predicate IsNumber(s: string)
  {
    s != "" && forall i :: 0 <= i < |s| ==> '0' <= s[i] <= '9'
  }

  function Number(s: string): nat
    requires forall i :: 0 <= i < |s| ==> '0' <= s[i] <= '9'
  {
    if s == "" then 0 else 10 * Number(s[..|s| - 1]) + DigitValue(s[|s| - 1])
  }

  function KindRead(c: char): Option<Kind>
  {
    if c == 'v' then Some(Video) else if c == 'a' then Some(Audio)
    else if c == 's' then Some(Subtitle) else if c == 'd' then Some(Data) else None
  }

  /** Where the first colon is, or the end. */
  function ColonAt(s: string): (at: nat)
    ensures at <= |s| && (at < |s| ==> s[at] == ':')
    ensures forall i :: 0 <= i < at ==> s[i] != ':'
  {
    if s == "" || s[0] == ':' then 0 else 1 + ColonAt(s[1..])
  }

  /** `<input>:<kind>:<index>`: which stream of its kind in which input. */
  function ReadSpec(s: string): Option<(nat, Kind, nat)>
  {
    var at := ColonAt(s);
    if at + 3 >= |s| || s[at + 2] != ':' || !IsNumber(s[..at]) || !IsNumber(s[at + 3..]) || KindRead(s[at + 1]).None? then None
    else Some((Number(s[..at]), KindRead(s[at + 1]).value, Number(s[at + 3..])))
  }

  lemma {:induction false} NumberReadsBack(n: nat)
    ensures IsNumber(Decimal(n)) && Number(Decimal(n)) == n
  {
    DecimalDigits(n);
    DigitReadsBack(n % 10);
    if n >= 10 {
      NumberReadsBack(n / 10);
      var d := Decimal(n);
      assert d[..|d| - 1] == Decimal(n / 10);
    } else {
      assert Decimal(n)[..0] == "";
    }
  }

  lemma DigitReadsBack(n: nat)
    requires n < 10
    ensures '0' <= Digit(n) <= '9' && DigitValue(Digit(n)) == n
  {
  }

  lemma ColonFirst(s: string, at: nat)
    requires at < |s| && s[at] == ':' && forall i :: 0 <= i < at ==> s[i] != ':'
    ensures ColonAt(s) == at
  {
  }

  /** A spec is read as the stream it was written for. */
  lemma SpecReadsBack(i: nat, k: Kind, n: nat)
    ensures ReadSpec(Spec(i, k, n)) == Some((i, k, n))
  {
    NumberReadsBack(i);
    NumberReadsBack(n);
    var s, d := Spec(i, k, n), |Decimal(i)|;
    assert s[d] == ':' && s[d + 1] == Marker(k) && s[d + 2] == ':';
    assert s[..d] == Decimal(i) && s[d + 3..] == Decimal(n);
    assert |Decimal(n)| > 0;
    ColonFirst(s, d);
    hide Spec, Decimal, ColonAt, Number, IsNumber;
  }

  /** A spec names one stream of one input. */
  lemma SpecInjective(i: nat, k: Kind, n: nat, i': nat, k': Kind, n': nat)
    requires Spec(i, k, n) == Spec(i', k', n')
    ensures i == i' && k == k' && n == n'
  {
    hide *;
    SpecReadsBack(i, k, n);
    SpecReadsBack(i', k', n');
  }

  function InputLabel(g: Graph, ref: Ref, labels: map<(string, nat), string>): string
    requires ref.Source? ==> ref.alias in g.sources
    requires !ref.Source? ==> (Slot(ref).node, Slot(ref).pad) in labels
  {
    if ref.Source? then Spec(g.sources[ref.alias], ref.kind, ref.index) else labels[(Slot(ref).node, Slot(ref).pad)]
  }

  ghost predicate Labels(g: Graph, refs: seq<Ref>, labels: map<(string, nat), string>)
  {
    forall q :: 0 <= q < |refs| ==>
      if refs[q].Source? then refs[q].alias in g.sources else (Slot(refs[q]).node, Slot(refs[q]).pad) in labels
  }

  function InputLabels(g: Graph, refs: seq<Ref>, labels: map<(string, nat), string>): (ins: seq<string>)
    requires Labels(g, refs, labels)
    ensures |ins| == |refs|
  {
    seq(|refs|, q requires 0 <= q < |refs| => InputLabel(g, refs[q], labels))
  }

  predicate PadsIn(node: Node, labels: map<(string, nat), string>)
  {
    forall p :: 0 <= p < node.pads ==> (node.id, p) in labels
  }

  function PadLabels(node: Node, labels: map<(string, nat), string>): (outs: seq<string>)
    requires PadsIn(node, labels)
    ensures |outs| == node.pads
  {
    seq(node.pads, p requires 0 <= p < node.pads => labels[(node.id, p)])
  }

  /** Every ref and pad of the graph can be labelled. */
  ghost predicate Covered(g: Graph, chains: seq<seq<Node>>, labels: map<(string, nat), string>)
  {
    && (forall c, s :: 0 <= c < |chains| && 0 <= s < |chains[c]| ==>
          && Labels(g, chains[c][s].inputs, labels)
          && PadsIn(chains[c][s], labels))
    && Labels(g, g.outputs, labels)
  }

  function Filters(chain: seq<Node>): (filters: seq<(string, seq<Argument>)>)
    ensures |filters| == |chain|
  {
    seq(|chain|, s requires 0 <= s < |chain| => (chain[s].filter, Options(chain[s].filter, chain[s].args)))
  }

  function RenderedChain(g: Graph, chain: seq<Node>, labels: map<(string, nat), string>): Chain
    requires chain != []
    requires Labels(g, chain[0].inputs, labels)
    requires PadsIn(chain[|chain| - 1], labels)
  {
    Chain(InputLabels(g, chain[0].inputs, labels), Filters(chain), PadLabels(chain[|chain| - 1], labels))
  }

  function Rendered(g: Graph, chains: seq<seq<Node>>, labels: map<(string, nat), string>): (rs: seq<Chain>)
    requires forall c :: 0 <= c < |chains| ==> chains[c] != []
    requires Covered(g, chains, labels)
    ensures |rs| == |chains|
  {
    seq(|chains|, c requires 0 <= c < |chains| => RenderedChain(g, chains[c], labels))
  }

  // Linking what is read

  /** Where an input comes from: a stream of an input file, or a pad. */
  datatype End = Stream(spec: string) | From(chain: nat, stage: nat, pad: nat)

  ghost predicate Writes(read: seq<seq<Stage>>, name: string, end: End)
  {
    && end.From? && end.chain < |read| && end.stage < |read[end.chain]|
    && end.pad < |read[end.chain][end.stage].outs| && read[end.chain][end.stage].outs[end.pad] == name
  }

  /** The one pad a label was written after, or the stream it spells. */
  ghost predicate LinksTo(read: seq<seq<Stage>>, name: string, end: End)
  {
    match end
    case From(_, _, _) => Writes(read, name, end) && forall other :: Writes(read, name, other) ==> other == end
    case Stream(spec) => spec == name && forall other :: !Writes(read, name, other)
  }

  /** A filter with no labels in front of it, after a comma, reads the pads of
      the one before it; any other reads what its labels link to. */
  ghost predicate InputLinksTo(read: seq<seq<Stage>>, c: nat, s: nat, q: nat, end: End)
    requires c < |read| && s < |read[c]|
  {
    if s > 0 && read[c][s].ins == [] then end == From(c, s - 1, q)
    else q < |read[c][s].ins| && LinksTo(read, read[c][s].ins[q], end)
  }

  /** `end` is what `ref` names in the graph: a stream by what ffmpeg reads its
      spec as, a pad by where its node stands. */
  ghost predicate Denotes(g: Graph, chains: seq<seq<Node>>, ref: Ref, end: End)
  {
    if ref.Source? then
      && ref.alias in g.sources && end.Stream?
      && ReadSpec(end.spec) == Some((g.sources[ref.alias], ref.kind, ref.index))
    else
      && end.From? && end.chain < |chains| && end.stage < |chains[end.chain]|
      && chains[end.chain][end.stage].id == Slot(ref).node && end.pad == Slot(ref).pad
  }

  ghost predicate InputWired(g: Graph, chains: seq<seq<Node>>, read: seq<seq<Stage>>, c: nat, s: nat, q: nat)
    requires c < |chains| && c < |read| && s < |chains[c]| && s < |read[c]| && q < |chains[c][s].inputs|
  {
    exists end :: Denotes(g, chains, chains[c][s].inputs[q], end) && InputLinksTo(read, c, s, q, end)
  }

  ghost predicate OutputWired(g: Graph, chains: seq<seq<Node>>, read: seq<seq<Stage>>, targets: seq<string>, i: nat)
    requires i < |targets| && i < |g.outputs|
  {
    exists end :: Denotes(g, chains, g.outputs[i], end) && LinksTo(read, targets[i], end)
  }

  /** The options are the node's arguments in order, each under its own key but
      where the filter takes values alone. */
  ghost predicate SaysOptions(node: Node, args: seq<Argument>)
  {
    && |args| == |node.args|
    && (forall i :: 0 <= i < |args| ==>
          && args[i].value == node.args[i].1
          && (args[i].Keyed? ==> args[i].key == node.args[i].0)
          && (args[i].Positional? <==> node.filter == "split" || node.filter == "asplit" || node.args[i].0 == "expr"))
  }

  ghost predicate StageWired(g: Graph, chains: seq<seq<Node>>, read: seq<seq<Stage>>, c: nat, s: nat)
    requires c < |chains| && c < |read| && s < |chains[c]| && s < |read[c]|
  {
    && read[c][s].name == chains[c][s].filter
    && SaysOptions(chains[c][s], read[c][s].args)
    && |chains[c][s].inputs| == (if s > 0 && read[c][s].ins == [] then 1 else |read[c][s].ins|)
    && forall q :: 0 <= q < |chains[c][s].inputs| ==> InputWired(g, chains, read, c, s, q)
  }

  /** The text is the graph: each filter has its node's name and options, and its
      inputs, in order, each from where the node reads it, and each output is
      its own pad. */
  ghost predicate WiredAlike(g: Graph, chains: seq<seq<Node>>, read: seq<seq<Stage>>, targets: seq<string>)
  {
    && |read| == |chains| && |targets| == |g.outputs|
    && (forall c :: 0 <= c < |chains| ==> |read[c]| == |chains[c]|)
    && (forall c, s :: 0 <= c < |chains| && 0 <= s < |chains[c]| ==> StageWired(g, chains, read, c, s))
    && (forall i :: 0 <= i < |targets| ==> OutputWired(g, chains, read, targets, i))
  }

  /** The graph's outputs, as the maps that take them. */
  function Targets(g: Graph, labels: map<(string, nat), string>): (targets: seq<string>)
    requires Labels(g, g.outputs, labels)
    ensures |targets| == |g.outputs|
  {
    InputLabels(g, g.outputs, labels)
  }

  // The proof

  /** Everything emit has made sure of before it renders. */
  ghost predicate Ready(g: Graph, chains: seq<seq<Node>>, labels: map<(string, nat), string>)
  {
    Topological(g) && ConsumeOnce(g) && Chained(g.nodes, chains) && Labelled(g, labels)
  }

  lemma Padded(g: Graph, chains: seq<seq<Node>>, labels: map<(string, nat), string>, c: nat, s: nat)
    requires Ready(g, chains, labels) && c < |chains| && s < |chains[c]|
    ensures PadsIn(chains[c][s], labels)
    ensures Labels(g, chains[c][s].inputs, labels)
  {
    var k := FlatAt(chains, c, s);
    forall p | 0 <= p < chains[c][s].pads ensures (chains[c][s].id, p) in labels {
      assert PadOfGraph(g.nodes, (g.nodes[k].id, p));
    }
    forall q | 0 <= q < |g.nodes[k].inputs| && !g.nodes[k].inputs[q].Source?
      ensures (Slot(g.nodes[k].inputs[q]).node, Slot(g.nodes[k].inputs[q]).pad) in labels
    {
      var ref := g.nodes[k].inputs[q];
      assert Resolves(g, ref, g.nodes[..k]);
      var j :| 0 <= j < k && g.nodes[..k][j].id == Slot(ref).node && Slot(ref).pad < g.nodes[..k][j].pads;
      assert PadOfGraph(g.nodes, (g.nodes[j].id, Slot(ref).pad));
    }
    forall q | 0 <= q < |g.nodes[k].inputs| && g.nodes[k].inputs[q].Source?
      ensures g.nodes[k].inputs[q].alias in g.sources
    {
      assert Resolves(g, g.nodes[k].inputs[q], g.nodes[..k]);
    }
  }

  lemma ReadyCovered(g: Graph, chains: seq<seq<Node>>, labels: map<(string, nat), string>)
    requires Ready(g, chains, labels)
    ensures Covered(g, chains, labels)
  {
    forall c, s | 0 <= c < |chains| && 0 <= s < |chains[c]|
      ensures Labels(g, chains[c][s].inputs, labels)
      ensures PadsIn(chains[c][s], labels)
    {
      Padded(g, chains, labels, c, s);
    }
    forall i | 0 <= i < |g.outputs|
      ensures if g.outputs[i].Source? then g.outputs[i].alias in g.sources
              else (Slot(g.outputs[i]).node, Slot(g.outputs[i]).pad) in labels
    {
      assert Resolves(g, g.outputs[i], g.nodes);
      if !g.outputs[i].Source? {
        var j :| 0 <= j < |g.nodes| && g.nodes[j].id == Slot(g.outputs[i]).node && Slot(g.outputs[i]).pad < g.nodes[j].pads;
        assert PadOfGraph(g.nodes, (g.nodes[j].id, Slot(g.outputs[i]).pad));
      }
    }
  }

  /** The chain and stage a pad ref's node stands at. */
  lemma PadPlace(g: Graph, chains: seq<seq<Node>>, labels: map<(string, nat), string>, ref: Ref) returns (c: nat, s: nat)
    requires Ready(g, chains, labels) && !ref.Source? && (Slot(ref).node, Slot(ref).pad) in labels
    ensures c < |chains| && s < |chains[c]| && chains[c][s].id == Slot(ref).node && Slot(ref).pad < chains[c][s].pads
  {
    assert PadOfGraph(g.nodes, (Slot(ref).node, Slot(ref).pad));
    var k :| 0 <= k < |g.nodes| && g.nodes[k].id == Slot(ref).node && Slot(ref).pad < g.nodes[k].pads;
    c, s := PlaceOf(chains, k);
  }

  /** A pad read where a chain begins, or by an output, ends its own chain: the
      filter a comma puts after it is the only reader of its only pad. */
  lemma ReadAtItsEnd(g: Graph, chains: seq<seq<Node>>, labels: map<(string, nat), string>, c: nat, q: nat, d: nat, t: nat)
    requires Ready(g, chains, labels) && c < |chains| && d < |chains| && t < |chains[d]|
    requires q < |chains[c][0].inputs| && !chains[c][0].inputs[q].Source?
    requires Slot(chains[c][0].inputs[q]).node == chains[d][t].id && Slot(chains[c][0].inputs[q]).pad < chains[d][t].pads
    ensures t == |chains[d]| - 1
  {
    hide ConsumeOnce, Labelled;
    if t + 1 < |chains[d]| {
      assert Extends(chains[d][t], chains[d][t + 1]);
      var j := FlatAt(chains, c, 0);
      var k := FlatAt(chains, d, t + 1);
      OneReader(g, j, q, k, 0);
      OnePlace(g.nodes, chains, c, 0, d, t + 1);
    }
  }

  lemma OutputAtItsEnd(g: Graph, chains: seq<seq<Node>>, labels: map<(string, nat), string>, i: nat, d: nat, t: nat)
    requires Ready(g, chains, labels) && i < |g.outputs| && d < |chains| && t < |chains[d]|
    requires !g.outputs[i].Source?
    requires Slot(g.outputs[i]).node == chains[d][t].id && Slot(g.outputs[i]).pad < chains[d][t].pads
    ensures t == |chains[d]| - 1
  {
    hide ConsumeOnce, Topological, Labelled;
    if t + 1 < |chains[d]| {
      assert Extends(chains[d][t], chains[d][t + 1]);
      var k := FlatAt(chains, d, t + 1);
      OutputReadByNone(g, i, k, 0);
    }
  }

  /** The stages of the rendered chains, as they read back. */
  function Read(g: Graph, chains: seq<seq<Node>>, labels: map<(string, nat), string>): (read: seq<seq<Stage>>)
    requires forall c :: 0 <= c < |chains| ==> chains[c] != []
    requires Covered(g, chains, labels)
    ensures |read| == |chains|
  {
    AllStages(Rendered(g, chains, labels))
  }

  /** Where a label stands in the text: after the last filter of a chain. */
  lemma WrittenAtItsEnd(g: Graph, chains: seq<seq<Node>>, labels: map<(string, nat), string>, name: string, end: End)
    requires Ready(g, chains, labels) && Covered(g, chains, labels)
    ensures Writes(Read(g, chains, labels), name, end) <==>
      && end.From? && end.chain < |chains| && end.stage == |chains[end.chain]| - 1
      && end.pad < chains[end.chain][end.stage].pads
      && labels[(chains[end.chain][end.stage].id, end.pad)] == name
  {
    if end.From? && end.chain < |chains| && end.stage < |chains[end.chain]| {
      var chain := chains[end.chain];
      assert Read(g, chains, labels)[end.chain] == Stages(RenderedChain(g, chain, labels));
      assert PadsIn(chain[|chain| - 1], labels);
    }
  }

  /** A label links to the pad it labels, and to no other. */
  lemma PadLinks(g: Graph, chains: seq<seq<Node>>, labels: map<(string, nat), string>, d: nat, p: nat)
    requires Ready(g, chains, labels) && Covered(g, chains, labels)
    requires d < |chains| && p < chains[d][|chains[d]| - 1].pads
    ensures var tail := chains[d][|chains[d]| - 1];
      && (tail.id, p) in labels
      && LinksTo(Read(g, chains, labels), labels[(tail.id, p)], From(d, |chains[d]| - 1, p))
  {
    var t := |chains[d]| - 1;
    var tail := chains[d][t];
    Padded(g, chains, labels, d, t);
    var name := labels[(tail.id, p)];
    WrittenAtItsEnd(g, chains, labels, name, From(d, t, p));
    forall other | Writes(Read(g, chains, labels), name, other) ensures other == From(d, t, p) {
      WrittenAtItsEnd(g, chains, labels, name, other);
      Padded(g, chains, labels, other.chain, other.stage);
      OnePlace(g.nodes, chains, other.chain, other.stage, d, t);
    }
  }

  /** A stream spec is no pad's label: only it has a colon. */
  lemma SpecLinks(g: Graph, chains: seq<seq<Node>>, labels: map<(string, nat), string>, i: nat, k: Kind, n: nat)
    requires Ready(g, chains, labels) && Covered(g, chains, labels)
    ensures LinksTo(Read(g, chains, labels), Spec(i, k, n), Stream(Spec(i, k, n)))
  {
    var spec := Spec(i, k, n);
    assert spec[|Decimal(i)|] == ':';
    forall other ensures !Writes(Read(g, chains, labels), spec, other) {
      WrittenAtItsEnd(g, chains, labels, spec, other);
      if Writes(Read(g, chains, labels), spec, other) {
        Padded(g, chains, labels, other.chain, other.stage);
      }
    }
  }

  lemma HeadInputLinks(g: Graph, chains: seq<seq<Node>>, labels: map<(string, nat), string>, c: nat, q: nat)
    returns (end: End)
    requires Ready(g, chains, labels) && Covered(g, chains, labels) && c < |chains| && q < |chains[c][0].inputs|
    ensures Denotes(g, chains, chains[c][0].inputs[q], end)
    ensures LinksTo(Read(g, chains, labels), InputLabels(g, chains[c][0].inputs, labels)[q], end)
  {
    var ref := chains[c][0].inputs[q];
    assert Labels(g, chains[c][0].inputs, labels);
    if ref.Source? {
      SpecLinks(g, chains, labels, g.sources[ref.alias], ref.kind, ref.index);
      SpecReadsBack(g.sources[ref.alias], ref.kind, ref.index);
      end := Stream(Spec(g.sources[ref.alias], ref.kind, ref.index));
      hide ReadSpec, Spec;
    } else {
      var d, t := PadPlace(g, chains, labels, ref);
      ReadAtItsEnd(g, chains, labels, c, q, d, t);
      PadLinks(g, chains, labels, d, Slot(ref).pad);
      end := From(d, t, Slot(ref).pad);
    }
  }

  lemma OutputLinks(g: Graph, chains: seq<seq<Node>>, labels: map<(string, nat), string>, i: nat) returns (end: End)
    requires Ready(g, chains, labels) && Covered(g, chains, labels) && i < |g.outputs|
    ensures Denotes(g, chains, g.outputs[i], end)
    ensures LinksTo(Read(g, chains, labels), Targets(g, labels)[i], end)
  {
    var ref := g.outputs[i];
    if ref.Source? {
      SpecLinks(g, chains, labels, g.sources[ref.alias], ref.kind, ref.index);
      SpecReadsBack(g.sources[ref.alias], ref.kind, ref.index);
      end := Stream(Spec(g.sources[ref.alias], ref.kind, ref.index));
      hide ReadSpec, Spec;
    } else {
      var d, t := PadPlace(g, chains, labels, ref);
      OutputAtItsEnd(g, chains, labels, i, d, t);
      PadLinks(g, chains, labels, d, Slot(ref).pad);
      end := From(d, t, Slot(ref).pad);
    }
  }

  lemma StageInputs(g: Graph, chains: seq<seq<Node>>, labels: map<(string, nat), string>, c: nat, s: nat)
    requires Ready(g, chains, labels) && Covered(g, chains, labels) && c < |chains| && s < |chains[c]|
    ensures |Read(g, chains, labels)[c]| == |chains[c]|
    ensures Read(g, chains, labels)[c][s].ins == if s == 0 then InputLabels(g, chains[c][0].inputs, labels) else []
    ensures Read(g, chains, labels)[c][s].name == chains[c][s].filter
    ensures SaysOptions(chains[c][s], Read(g, chains, labels)[c][s].args)
  {
    assert Read(g, chains, labels)[c] == Stages(RenderedChain(g, chains[c], labels));
  }

  lemma HeadWired(g: Graph, chains: seq<seq<Node>>, labels: map<(string, nat), string>, c: nat, q: nat)
    requires Ready(g, chains, labels) && Covered(g, chains, labels) && c < |chains| && q < |chains[c][0].inputs|
    requires |Read(g, chains, labels)[c]| == |chains[c]|
    ensures InputWired(g, chains, Read(g, chains, labels), c, 0, q)
  {
    var end := HeadInputLinks(g, chains, labels, c, q);
    StageInputs(g, chains, labels, c, 0);
    HeadIs(Read(g, chains, labels), c, q, end);
    hide InputLinksTo, Denotes, Read;
  }

  lemma HeadIs(read: seq<seq<Stage>>, c: nat, q: nat, end: End)
    requires c < |read| && read[c] != [] && q < |read[c][0].ins| && LinksTo(read, read[c][0].ins[q], end)
    ensures InputLinksTo(read, c, 0, q, end)
  {
    hide LinksTo;
  }

  /** A filter after a comma reads the one before it. */
  lemma NextWired(g: Graph, chains: seq<seq<Node>>, read: seq<seq<Stage>>, c: nat, s: nat)
    requires c < |chains| && c < |read| && 0 < s < |chains[c]| && s < |read[c]|
    requires Extends(chains[c][s - 1], chains[c][s]) && read[c][s].ins == []
    ensures InputWired(g, chains, read, c, s, 0)
  {
    var end := From(c, s - 1, 0);
    assert Denotes(g, chains, chains[c][s].inputs[0], end) && InputLinksTo(read, c, s, 0, end);
  }

  lemma InputLinks(g: Graph, chains: seq<seq<Node>>, labels: map<(string, nat), string>, c: nat, s: nat, q: nat)
    requires Ready(g, chains, labels) && Covered(g, chains, labels)
    requires c < |chains| && s < |chains[c]| && q < |chains[c][s].inputs|
    ensures |Read(g, chains, labels)[c]| == |chains[c]|
    ensures InputWired(g, chains, Read(g, chains, labels), c, s, q)
  {
    hide *;
    StageInputs(g, chains, labels, c, s);
    if s == 0 {
      HeadWired(g, chains, labels, c, q);
    } else {
      OneInput(g, chains, labels, c, s);
      NextWired(g, chains, Read(g, chains, labels), c, s);
    }
  }

  lemma OneInput(g: Graph, chains: seq<seq<Node>>, labels: map<(string, nat), string>, c: nat, s: nat)
    requires Ready(g, chains, labels) && c < |chains| && 0 < s < |chains[c]|
    ensures Extends(chains[c][s - 1], chains[c][s]) && |chains[c][s].inputs| == 1
    ensures forall d :: 0 <= d < |chains| ==> chains[d] != []
  {
  }

  lemma StageAlike(g: Graph, chains: seq<seq<Node>>, labels: map<(string, nat), string>, c: nat, s: nat)
    requires Ready(g, chains, labels) && Covered(g, chains, labels) && c < |chains| && s < |chains[c]|
    ensures |Read(g, chains, labels)[c]| == |chains[c]| && StageWired(g, chains, Read(g, chains, labels), c, s)
  {
    StageInputs(g, chains, labels, c, s);
    assert s > 0 ==> Extends(chains[c][s - 1], chains[c][s]);
    hide Topological, ConsumeOnce, Labelled, Covered, Read, Options, InputWired;
    forall q | 0 <= q < |chains[c][s].inputs| ensures InputWired(g, chains, Read(g, chains, labels), c, s, q) {
      InputLinks(g, chains, labels, c, s, q);
    }
  }

  /** Chain merging and labelling lose no filter and no wiring. */
  lemma WiringKept(g: Graph, chains: seq<seq<Node>>, labels: map<(string, nat), string>)
    requires Ready(g, chains, labels)
    ensures Covered(g, chains, labels)
    ensures WiredAlike(g, chains, Read(g, chains, labels), Targets(g, labels))
  {
    ReadyCovered(g, chains, labels);
    hide Topological, ConsumeOnce, Labelled, Covered, Read, Targets, InputWired, OutputWired, StageWired;
    var read: seq<seq<Stage>> := Read(g, chains, labels);
    forall c: nat, s: nat | c < |chains| && s < |chains[c]|
      ensures |read[c]| == |chains[c]| && StageWired(g, chains, read, c, s)
    {
      StageAlike(g, chains, labels, c, s);
    }
    forall c | 0 <= c < |chains| ensures |read[c]| == |chains[c]| {
      StageInputs(g, chains, labels, c, 0);
    }
    var targets := Targets(g, labels);
    forall i | 0 <= i < |targets| ensures OutputWired(g, chains, read, targets, i) {
      OutputsWired(g, chains, labels, i);
    }
  }

  lemma OutputsWired(g: Graph, chains: seq<seq<Node>>, labels: map<(string, nat), string>, i: nat)
    requires Ready(g, chains, labels) && Covered(g, chains, labels) && i < |g.outputs|
    ensures OutputWired(g, chains, Read(g, chains, labels), Targets(g, labels), i)
  {
    var end := OutputLinks(g, chains, labels, i);
  }

  // The whole text

  /** Filter names and option keys are plain words. */
  predicate PlainWords(node: Node)
  {
    IsKey(node.filter) && WellKeyed(Options(node.filter, node.args))
  }

  lemma SpecIsLabel(i: nat, k: Kind, n: nat)
    ensures IsLabel(Spec(i, k, n))
  {
    DecimalDigits(i);
    DecimalDigits(n);
  }

  lemma RenderedIsChain(g: Graph, chains: seq<seq<Node>>, labels: map<(string, nat), string>, c: nat)
    requires Ready(g, chains, labels) && Covered(g, chains, labels) && c < |chains|
    requires forall k :: 0 <= k < |g.nodes| ==> PlainWords(g.nodes[k])
    ensures IsChain(Rendered(g, chains, labels)[c])
  {
    var chain := chains[c];
    var r := RenderedChain(g, chain, labels);
    forall q | 0 <= q < |r.ins| ensures IsLabel(r.ins[q]) {
      var ref := chain[0].inputs[q];
      if ref.Source? {
        SpecIsLabel(g.sources[ref.alias], ref.kind, ref.index);
      }
    }
    forall p | 0 <= p < |r.outs| ensures IsLabel(r.outs[p]) {
      assert (chain[|chain| - 1].id, p) in labels;
    }
    forall s | 0 <= s < |chain| ensures IsKey(r.filters[s].0) && WellKeyed(r.filters[s].1) {
      var k := FlatAt(chains, c, s);
      assert PlainWords(g.nodes[k]);
    }
  }

  /** Every node's options survive both levels of escaping. */
  predicate AllReadable(g: Graph, trims: bool)
  {
    forall k :: 0 <= k < |g.nodes| ==> Readable(Options(g.nodes[k].filter, g.nodes[k].args), trims)
  }

  lemma TextReadsBack(g: Graph, chains: seq<seq<Node>>, labels: map<(string, nat), string>, trims: bool)
    requires Ready(g, chains, labels) && Covered(g, chains, labels) && g.nodes != []
    requires forall k :: 0 <= k < |g.nodes| ==> PlainWords(g.nodes[k])
    ensures ReadGraph(GraphText(Rendered(g, chains, labels)), trims) == Some(Read(g, chains, labels)) <==> AllReadable(g, trims)
  {
    hide Readable, ReadGraph, GraphText, IsChain, Covered, Labelled, Topological, ConsumeOnce;
    var rs := Rendered(g, chains, labels);
    forall c | 0 <= c < |rs| ensures IsChain(rs[c]) {
      RenderedIsChain(g, chains, labels, c);
    }
    GraphReadsBack(rs, trims);
    if AllReadable(g, trims) {
      forall c, s | 0 <= c < |rs| && 0 <= s < |rs[c].filters| ensures Readable(rs[c].filters[s].1, trims) {
        var k := FlatAt(chains, c, s);
        assert rs[c].filters[s].1 == Options(g.nodes[k].filter, g.nodes[k].args);
      }
    } else {
      var k :| 0 <= k < |g.nodes| && !Readable(Options(g.nodes[k].filter, g.nodes[k].args), trims);
      var c, s := PlaceOf(chains, k);
      assert rs[c].filters[s].1 == Options(g.nodes[k].filter, g.nodes[k].args);
    }
  }

  /** A checked graph's text and maps. Read as libavfilter reads it, the text
      is the graph's own wiring and options, wherever its values survive. */
  method Emit(g: Graph) returns (text: string, targets: seq<string>, chains: seq<seq<Node>>)
    requires Topological(g) && ConsumeOnce(g) && g.nodes != []
    requires forall k :: 0 <= k < |g.nodes| ==> PlainWords(g.nodes[k])
    ensures Chained(g.nodes, chains)
    ensures forall trims :: AllReadable(g, trims) ==>
      exists read :: ReadGraph(text, trims) == Some(read) && WiredAlike(g, chains, read, targets)
  {
    var labels := AssignLabels(g);
    chains := BuildChains(g.nodes);
    WiringKept(g, chains, labels);
    text := GraphText(Rendered(g, chains, labels));
    targets := Targets(g, labels);
    forall trims | AllReadable(g, trims)
      ensures exists read :: ReadGraph(text, trims) == Some(read) && WiredAlike(g, chains, read, targets)
    {
      TextReadsBack(g, chains, labels, trims);
    }
  }
}
