/** Keeping whole runs: only those that touch a module holding its pictures. */
module DeviceRuns {
  import opened Wrappers
  import opened Device
  import W = Wiring

  /** The nodes on either side of `name`: what it reads, then what reads it. */
  function Neighbours(g: Graph, name: string): seq<string>
    requires IsNode(g, name) && NodeOf(g, name).inputs != []
  {
    var source := Producer(g, NodeOf(g, name).inputs[0]);
    var readers := Readers(g, name);
    (if source.Some? then [source.value] else []) + seq(|readers|, i requires 0 <= i < |readers| => readers[i].0)
  }

  /** A module on the GPU is next to `name`. */
  predicate TouchesModule(g: Graph, name: string)
    requires IsNode(g, name) && NodeOf(g, name).inputs != []
  {
    HeldOut(g, NodeOf(g, name).inputs[0]) || exists r :: r in Readers(g, name) && HeldIn(g, r)
  }

  /** Chosen filters are nodes with an input. */
  ghost predicate Chosen(g: Graph, chosen: set<string>)
  {
    forall n :: n in chosen ==> IsCandidate(g, n) && NodeOf(g, n).inputs != []
  }

  ghost predicate IsRun(g: Graph, chosen: set<string>, p: seq<string>)
    requires Chosen(g, chosen)
  {
    && p != [] && (forall i :: 0 <= i < |p| ==> p[i] in chosen)
    && (forall i :: 0 < i < |p| ==> p[i] in Neighbours(g, p[i - 1]))
  }

  /** `to` is in the same run of chosen filters as `from`. */
  ghost predicate InRun(g: Graph, chosen: set<string>, from: string, to: string)
    requires Chosen(g, chosen)
  {
    exists p :: IsRun(g, chosen, p) && p[0] == from && p[|p| - 1] == to
  }

  /** Some filter of the run touches a module on the GPU. */
  ghost predicate RunTouches(g: Graph, chosen: set<string>, name: string)
    requires Chosen(g, chosen)
  {
    exists m :: m in chosen && InRun(g, chosen, name, m) && TouchesModule(g, m)
  }

  /** A node the search is done with, with nothing found: it touches nothing
      and everything next to it has been seen. */
  ghost predicate DeadEnd(g: Graph, chosen: set<string>, seen: set<string>, x: string)
    requires Chosen(g, chosen)
  {
    x in chosen && !TouchesModule(g, x) && forall n :: n in Neighbours(g, x) && n in chosen ==> n in seen
  }

  /** The search (`touches`): `seen` is threaded through, and a branch that
      found nothing leaves only dead ends behind it. */
  method Touches(g: Graph, chosen: set<string>, name: string, seen: set<string>)
    returns (found: bool, seen': set<string>)
    requires Chosen(g, chosen) && name in chosen
    ensures seen <= seen' && name in seen'
    ensures found ==> RunTouches(g, chosen, name)
    ensures !found ==> forall x :: x in seen' && x !in seen ==> DeadEnd(g, chosen, seen', x)
    decreases chosen - seen
  {
    hide Neighbours, TouchesModule, IsCandidate, NodeOf, RunTouches, Readers;
    if name in seen {
      return false, seen;
    }
    seen' := seen + {name};
    if TouchesModule(g, name) {
      ItsOwnRun(g, chosen, name);
      return true, seen';
    }
    var neighbours := Neighbours(g, name);
    for i := 0 to |neighbours|
      invariant seen + {name} <= seen'
      invariant forall j :: 0 <= j < i && neighbours[j] in chosen ==> neighbours[j] in seen'
      invariant forall x :: x in seen' && x !in seen && x != name ==> DeadEnd(g, chosen, seen', x)
    {
      var n := neighbours[i];
      if n in chosen {
        ghost var before := seen';
        found, seen' := Touches(g, chosen, n, seen');
        if found {
          NextInRun(g, chosen, name, n);
          return;
        }
        forall x | x in seen' && x !in seen && x != name ensures DeadEnd(g, chosen, seen', x) {
          if x in before {
            assert DeadEnd(g, chosen, before, x);
          }
        }
      }
    }
    found := false;
  }

  lemma ItsOwnRun(g: Graph, chosen: set<string>, name: string)
    requires Chosen(g, chosen) && name in chosen && TouchesModule(g, name)
    ensures RunTouches(g, chosen, name)
  {
    hide Neighbours, TouchesModule;
    var p := [name];
    assert IsRun(g, chosen, p) && p[0] == name;
    assert InRun(g, chosen, name, name);
  }

  lemma NextInRun(g: Graph, chosen: set<string>, name: string, n: string)
    requires Chosen(g, chosen) && name in chosen && n in chosen && n in Neighbours(g, name)
    requires RunTouches(g, chosen, n)
    ensures RunTouches(g, chosen, name)
  {
    hide Neighbours, TouchesModule, IsCandidate, NodeOf;
    var m :| m in chosen && InRun(g, chosen, n, m) && TouchesModule(g, m);
    var p :| IsRun(g, chosen, p) && p[0] == n && p[|p| - 1] == m;
    var p' := [name] + p;
    assert IsRun(g, chosen, p') && p'[0] == name && p'[|p'| - 1] == m;
  }

  /** Nothing leads out of the dead ends. */
  lemma {:induction false} RunStays(g: Graph, chosen: set<string>, seen: set<string>, p: seq<string>)
    requires Chosen(g, chosen) && IsRun(g, chosen, p) && p[0] in seen
    requires forall x :: x in seen ==> DeadEnd(g, chosen, seen, x)
    ensures p[|p| - 1] in seen
    decreases |p|
  {
    if |p| > 1 {
      var q := p[..|p| - 1];
      RunStays(g, chosen, seen, q);
      assert p[|p| - 1] in Neighbours(g, q[|q| - 1]);
    }
  }

  lemma NothingFound(g: Graph, chosen: set<string>, name: string, seen: set<string>)
    requires Chosen(g, chosen) && name in seen && forall x :: x in seen ==> DeadEnd(g, chosen, seen, x)
    ensures !RunTouches(g, chosen, name)
  {
    if m :| m in chosen && InRun(g, chosen, name, m) && TouchesModule(g, m) {
      var p :| IsRun(g, chosen, p) && p[0] == name && p[|p| - 1] == m;
      RunStays(g, chosen, seen, p);
    }
  }

  /** The chosen filters whose run touches a module, and no others. */
  method KeepTouching(g: Graph, chosen: set<string>) returns (kept: set<string>)
    requires Chosen(g, chosen)
    ensures forall n :: n in kept <==> n in chosen && RunTouches(g, chosen, n)
  {
    kept := {};
    var order := Listed(chosen);
    for i := 0 to |order|
      invariant forall n :: n in kept <==> n in order[..i] && RunTouches(g, chosen, n)
    {
      var found, seen := Touches(g, chosen, order[i], {});
      assert order[..i + 1] == order[..i] + [order[i]];
      if found {
        kept := kept + {order[i]};
      } else {
        NothingFound(g, chosen, order[i], seen);
      }
    }
    assert order[..|order|] == order;
  }

  // Whole runs

  lemma NeighbourIs(g: Graph, a: string, b: string)
    requires IsNode(g, a) && NodeOf(g, a).inputs != []
    ensures b in Neighbours(g, a) <==>
      Producer(g, NodeOf(g, a).inputs[0]) == Some(b) || exists r :: r in Readers(g, a) && r.0 == b
  {
    var source, readers := Producer(g, NodeOf(g, a).inputs[0]), Readers(g, a);
    hide Producer, Readers;
    if r :| r in readers && r.0 == b {
      var i :| 0 <= i < |readers| && readers[i] == r;
      assert Neighbours(g, a)[|Neighbours(g, a)| - |readers| + i] == b;
    }
    if source == Some(b) {
      assert Neighbours(g, a)[0] == b;
    }
  }

  /** What a filter reads is read by it. */
  lemma Symmetric(g: Graph, chosen: set<string>, a: string, b: string)
    requires WellFormed(g) && Chosen(g, chosen) && a in chosen && b in chosen && b in Neighbours(g, a)
    ensures a in Neighbours(g, b)
  {
    NeighbourIs(g, a, b);
    NeighbourIs(g, b, a);
    assert DistinctNodes(g.nodes) && |NodeOf(g, a).inputs| == |NodeOf(g, b).inputs| == 1 && NodeOf(g, b).pads == 1;
    hide Neighbours, Readers, Chosen, WellFormed, DistinctNodes;
    if Producer(g, NodeOf(g, a).inputs[0]) == Some(b) {
      ReaderIs(g, b, (a, 0));
      assert (a, 0).0 == a;
    } else {
      var r :| r in Readers(g, a) && r.0 == b;
      ReaderIs(g, a, r);
    }
  }

  /** A filter next to a kept one, and chosen, is kept: whole runs stay. */
  lemma KeptWhole(g: Graph, chosen: set<string>, kept: set<string>, a: string, b: string)
    requires WellFormed(g) && Chosen(g, chosen)
    requires forall n :: n in kept <==> n in chosen && RunTouches(g, chosen, n)
    requires a in kept && b in chosen && b in Neighbours(g, a)
    ensures b in kept
  {
    Symmetric(g, chosen, a, b);
    NextInRun(g, chosen, b, a);
  }

  /** What is kept still qualifies, by itself. */
  lemma KeptQualified(g: Graph, chosen: set<string>, kept: set<string>)
    requires WellFormed(g) && Qualified(g, chosen) && Chosen(g, chosen)
    requires forall n :: n in kept <==> n in chosen && RunTouches(g, chosen, n)
    ensures Qualified(g, kept)
  {
    forall name | name in kept ensures ReadsThere(g, kept, name) && ReadThere(g, kept, name) {
      var source := Producer(g, NodeOf(g, name).inputs[0]);
      if source.Some? && source.value in chosen {
        assert Neighbours(g, name)[0] == source.value;
        KeptWhole(g, chosen, kept, name, source.value);
      }
      forall r | r in Readers(g, name) ensures r.0 in kept || HeldIn(g, r) {
        if r.0 in chosen {
          NeighbourIs(g, name, r.0);
          KeptWhole(g, chosen, kept, name, r.0);
        }
      }
    }
  }

  /** A reader outside the set is a module held on the GPU: `wire` finds it a
      shape, and a port where it reads. */
  lemma OutsideReaderShaped(g: Graph, kept: set<string>, name: string, r: (string, nat))
    requires WellFormed(g) && Qualified(g, kept) && name in kept && r in Readers(g, name) && r.0 !in kept
    ensures IsNode(g, r.0) && NodeOf(g, r.0).shaped && r.1 in NodeOf(g, r.0).heldIn
  {
    assert ReadThere(g, kept, name);
  }

  // The promise on the graph itself

  /** The ref takes what the filter writes. */
  predicate Takes(ref: W.Ref, name: string)
  {
    !ref.Source? && W.Slot(ref) == W.Pad(name, 0)
  }

  /** No picture leaves the device that a kept filter makes: every file taking
      one is encoded there, and every other reader has it held there; and some
      file or reader does. */
  ghost predicate PicturesStay(g: Graph, kept: set<string>)
  {
    && (forall s, n :: s in g.sinks && n in kept && Takes(s.ref, n) ==> s.onDevice)
    && (forall i, q, n :: 0 <= i < |g.nodes| && 0 <= q < |g.nodes[i].inputs| && n in kept && Takes(g.nodes[i].inputs[q], n) ==>
          g.nodes[i].id in kept || (g.nodes[i].shaped && q in g.nodes[i].heldIn))
    && (forall n :: n in kept ==> SomeTakes(g, n))
  }

  ghost predicate SomeTakes(g: Graph, name: string)
  {
    || (exists s :: s in g.sinks && Takes(s.ref, name))
    || (exists i, q :: 0 <= i < |g.nodes| && 0 <= q < |g.nodes[i].inputs| && Takes(g.nodes[i].inputs[q], name))
  }

  /** And none comes from off it: a kept filter reads a kept one, a module's pad
      held there, or an input's picture. */
  ghost predicate PicturesBegin(g: Graph, kept: set<string>)
  {
    forall i :: 0 <= i < |g.nodes| && g.nodes[i].id in kept ==>
      && |g.nodes[i].inputs| == 1
      && (var source := g.nodes[i].inputs[0];
          || (exists n :: n in kept && Takes(source, n))
          || (exists j :: 0 <= j < |g.nodes| && PadHeld(g.nodes[j], source))
          || InputPicture(g, source, {}))
  }

  predicate PadHeld(node: Filter, ref: W.Ref)
  {
    && !ref.Source? && W.Slot(ref).node == node.id && W.Slot(ref).pad < node.pads
    && node.shaped && W.Slot(ref).pad in node.heldOut
  }

  lemma ProducerIs(g: Graph, ref: W.Ref, name: string)
    requires WellFormed(g) && IsCandidate(g, name)
    ensures Producer(g, ref) == Some(name) ==> !ref.Source? && W.Slot(ref).node == name && W.Slot(ref).pad == 0
    ensures Takes(ref, name) ==> Producer(g, ref) == Some(name)
  {
  }

  lemma Stays(g: Graph, kept: set<string>)
    requires WellFormed(g) && Qualified(g, kept)
    ensures PicturesStay(g, kept)
  {
    forall s, n | s in g.sinks && n in kept && Takes(s.ref, n) ensures s.onDevice {
      assert IsCandidate(g, n) && ReadThere(g, kept, n);
      ProducerIs(g, s.ref, n);
      assert s in FilesOf(g, n);
    }
    forall i, q, n | 0 <= i < |g.nodes| && 0 <= q < |g.nodes[i].inputs| && n in kept && Takes(g.nodes[i].inputs[q], n)
      ensures g.nodes[i].id in kept || (g.nodes[i].shaped && q in g.nodes[i].heldIn)
    {
      assert IsCandidate(g, n) && ReadThere(g, kept, n);
      ProducerIs(g, g.nodes[i].inputs[q], n);
      NodeIs(g, i);
      ReaderIs(g, n, (g.nodes[i].id, q));
    }
    forall n | n in kept ensures SomeTakes(g, n) {
      TakenBySome(g, kept, n);
    }
  }

  lemma TakenBySome(g: Graph, kept: set<string>, n: string)
    requires WellFormed(g) && Qualified(g, kept) && n in kept
    ensures SomeTakes(g, n)
  {
    assert IsCandidate(g, n) && ReadThere(g, kept, n);
    if Readers(g, n) != [] {
      var r := Readers(g, n)[0];
      ReaderIs(g, n, r);
      var i := Index(g.nodes, r.0);
      assert g.nodes[i] == NodeOf(g, r.0);
      ProducerIs(g, g.nodes[i].inputs[r.1], n);
      assert Takes(g.nodes[i].inputs[r.1], n);
    } else {
      var s :| s in FilesOf(g, n);
      ProducerIs(g, s.ref, n);
      assert Takes(s.ref, n);
    }
  }

  lemma Begins(g: Graph, kept: set<string>)
    requires WellFormed(g) && Qualified(g, kept)
    ensures PicturesBegin(g, kept)
  {
    forall i | 0 <= i < |g.nodes| && g.nodes[i].id in kept
      ensures |g.nodes[i].inputs| == 1
      ensures var source := g.nodes[i].inputs[0];
        || (exists n :: n in kept && Takes(source, n))
        || (exists j :: 0 <= j < |g.nodes| && PadHeld(g.nodes[j], source))
        || InputPicture(g, source, {})
    {
      BeginsOne(g, kept, i);
    }
  }

  lemma BeginsOne(g: Graph, kept: set<string>, i: nat)
    requires WellFormed(g) && Qualified(g, kept) && i < |g.nodes| && g.nodes[i].id in kept
    ensures |g.nodes[i].inputs| == 1
    ensures var source := g.nodes[i].inputs[0];
      || (exists n :: n in kept && Takes(source, n))
      || (exists j :: 0 <= j < |g.nodes| && PadHeld(g.nodes[j], source))
      || InputPicture(g, source, {})
  {
    var name := g.nodes[i].id;
    NodeIs(g, i);
    assert IsCandidate(g, name) && ReadsThere(g, kept, name);
    hide InputPicture, ReadThere;
    var source := g.nodes[i].inputs[0];
    var found := Producer(g, source);
    if found.Some? && found.value in kept {
      assert IsCandidate(g, found.value);
      ProducerIs(g, source, found.value);
      assert Takes(source, found.value);
    } else if HeldOut(g, source) {
      var j := Index(g.nodes, found.value);
      assert PadHeld(g.nodes[j], source);
    }
  }

  /** A set of filters with variants qualifies exactly when pictures begin and
      stay there. */
  lemma QualifiedMeans(g: Graph, kept: set<string>)
    requires WellFormed(g)
    ensures Qualified(g, kept) <==>
      (forall n :: n in kept ==> IsCandidate(g, n)) && PicturesStay(g, kept) && PicturesBegin(g, kept)
  {
    if Qualified(g, kept) {
      Stays(g, kept);
      Begins(g, kept);
    }
    if (forall n :: n in kept ==> IsCandidate(g, n)) && PicturesStay(g, kept) && PicturesBegin(g, kept) {
      forall n | n in kept ensures ReadsThere(g, kept, n) && ReadThere(g, kept, n) {
        ReadsWhereBegun(g, kept, n);
        ReadWhereStays(g, kept, n);
      }
    }
  }

  lemma HeldIsOut(g: Graph, j: nat, ref: W.Ref)
    requires WellFormed(g) && j < |g.nodes| && PadHeld(g.nodes[j], ref)
    ensures HeldOut(g, ref)
  {
    NodeIs(g, j);
  }

  lemma ReadsWhereBegun(g: Graph, kept: set<string>, n: string)
    requires WellFormed(g) && n in kept && IsCandidate(g, n) && PicturesBegin(g, kept)
    requires forall m :: m in kept ==> IsCandidate(g, m)
    ensures ReadsThere(g, kept, n)
  {
    var i := Index(g.nodes, n);
    var source := g.nodes[i].inputs[0];
    assert g.nodes[i] == NodeOf(g, n);
    hide InputPicture;
    if m :| m in kept && Takes(source, m) {
      ProducerIs(g, source, m);
    } else if j :| 0 <= j < |g.nodes| && PadHeld(g.nodes[j], source) {
      HeldIsOut(g, j, source);
    }
  }

  lemma ReadWhereStays(g: Graph, kept: set<string>, n: string)
    requires WellFormed(g) && n in kept && IsCandidate(g, n) && PicturesStay(g, kept)
    ensures ReadThere(g, kept, n)
  {
    forall r | r in Readers(g, n) ensures r.0 in kept || HeldIn(g, r) {
      ReaderIs(g, n, r);
      var i := Index(g.nodes, r.0);
      assert g.nodes[i] == NodeOf(g, r.0);
      ProducerIs(g, g.nodes[i].inputs[r.1], n);
      assert Takes(g.nodes[i].inputs[r.1], n);
    }
    forall s | s in FilesOf(g, n) ensures s.onDevice {
      ProducerIs(g, s.ref, n);
      assert Takes(s.ref, n);
    }
    assert SomeTakes(g, n);
    if s :| s in g.sinks && Takes(s.ref, n) {
      ProducerIs(g, s.ref, n);
      assert s in FilesOf(g, n);
    } else {
      var i, q :| 0 <= i < |g.nodes| && 0 <= q < |g.nodes[i].inputs| && Takes(g.nodes[i].inputs[q], n);
      ReadBy(g, n, i, q);
    }
  }

  lemma ReadBy(g: Graph, n: string, i: nat, q: nat)
    requires WellFormed(g) && IsCandidate(g, n)
    requires i < |g.nodes| && q < |g.nodes[i].inputs| && Takes(g.nodes[i].inputs[q], n)
    ensures (g.nodes[i].id, q) in Readers(g, n)
  {
    ProducerIs(g, g.nodes[i].inputs[q], n);
    NodeIs(g, i);
    ReaderIs(g, n, (g.nodes[i].id, q));
  }

  predicate TakesHeld(node: Filter, q: nat, name: string)
    requires q < |node.inputs|
  {
    Takes(node.inputs[q], name) && node.shaped && q in node.heldIn
  }

  /** A filter touches a module on the GPU exactly when it reads a pad held
      there, or what it writes is read where it is held. */
  lemma TouchesMeans(g: Graph, i: nat)
    requires WellFormed(g) && i < |g.nodes| && g.nodes[i].variant.Some?
    ensures IsNode(g, g.nodes[i].id) && NodeOf(g, g.nodes[i].id) == g.nodes[i]
    ensures TouchesModule(g, g.nodes[i].id) <==>
      || (exists j :: 0 <= j < |g.nodes| && PadHeld(g.nodes[j], g.nodes[i].inputs[0]))
      || (exists j, q :: 0 <= j < |g.nodes| && 0 <= q < |g.nodes[j].inputs| && TakesHeld(g.nodes[j], q, g.nodes[i].id))
  {
    NodeIs(g, i);
    var n, source := g.nodes[i].id, g.nodes[i].inputs[0];
    if HeldOut(g, source) {
      var j := Index(g.nodes, Producer(g, source).value);
      assert PadHeld(g.nodes[j], source);
    }
    if j :| 0 <= j < |g.nodes| && PadHeld(g.nodes[j], source) {
      HeldIsOut(g, j, source);
    }
    if r :| r in Readers(g, n) && HeldIn(g, r) {
      ReaderIs(g, n, r);
      var j := Index(g.nodes, r.0);
      assert g.nodes[j] == NodeOf(g, r.0);
      ProducerIs(g, g.nodes[j].inputs[r.1], n);
      assert TakesHeld(g.nodes[j], r.1, n);
    }
    if j, q :| 0 <= j < |g.nodes| && 0 <= q < |g.nodes[j].inputs| && TakesHeld(g.nodes[j], q, n) {
      ReadBy(g, n, j, q);
      NodeIs(g, j);
      assert HeldIn(g, (g.nodes[j].id, q));
    }
  }

  /** Two filters are next to each other exactly when one takes what the other
      writes. */
  lemma NextTo(g: Graph, i: nat, k: nat)
    requires WellFormed(g) && i < |g.nodes| && g.nodes[i].variant.Some? && k < |g.nodes| && g.nodes[k].variant.Some?
    ensures IsNode(g, g.nodes[i].id) && NodeOf(g, g.nodes[i].id) == g.nodes[i]
    ensures g.nodes[k].id in Neighbours(g, g.nodes[i].id) <==>
      Takes(g.nodes[i].inputs[0], g.nodes[k].id) || Takes(g.nodes[k].inputs[0], g.nodes[i].id)
  {
    NodeIs(g, i);
    NodeIs(g, k);
    var a, b := g.nodes[i].id, g.nodes[k].id;
    NeighbourIs(g, a, b);
    ProducerIs(g, g.nodes[i].inputs[0], b);
    if r :| r in Readers(g, a) && r.0 == b {
      ReaderIs(g, a, r);
      ProducerIs(g, g.nodes[k].inputs[r.1], a);
    }
    if Takes(g.nodes[k].inputs[0], a) {
      ReadBy(g, a, k, 0);
    }
    hide Neighbours, Readers;
  }

  /** The filters that go on the device: the largest qualified set's runs that
      touch a module, whole. */
  method OnTheDevice(g: Graph) returns (kept: set<string>)
    requires WellFormed(g)
    ensures Qualified(g, kept) && Chosen(g, kept)
    ensures PicturesStay(g, kept) && PicturesBegin(g, kept)
    ensures forall n :: n in kept ==> RunTouches(g, kept, n)
    ensures forall other: set<string>, n :: Qualified(g, other) && Chosen(g, other) && n in other && RunTouches(g, other, n) ==> n in kept
  {
    var chosen := DropUntilStable(g);
    assert Chosen(g, chosen);
    kept := KeepTouching(g, chosen);
    KeptQualified(g, chosen, kept);
    Stays(g, kept);
    Begins(g, kept);
    hide WellFormed, Qualified, RunTouches;
    forall n | n in kept ensures RunTouches(g, kept, n) {
      KeptTouches(g, chosen, kept, n);
    }
    forall other: set<string>, n | Qualified(g, other) && Chosen(g, other) && n in other && RunTouches(g, other, n)
      ensures n in kept
    {
      RunGrows(g, other, chosen, n);
    }
  }

  lemma {:induction false} RunKept(g: Graph, chosen: set<string>, kept: set<string>, p: seq<string>)
    requires WellFormed(g) && Chosen(g, chosen) && Chosen(g, kept)
    requires forall n :: n in kept <==> n in chosen && RunTouches(g, chosen, n)
    requires IsRun(g, chosen, p) && p[0] in kept
    ensures IsRun(g, kept, p)
    decreases |p|
  {
    hide Neighbours, RunTouches, WellFormed, IsCandidate, NodeOf;
    if |p| > 1 {
      var q := p[..|p| - 1];
      RunKept(g, chosen, kept, q);
      KeptWhole(g, chosen, kept, q[|q| - 1], p[|p| - 1]);
    }
  }

  lemma KeptTouches(g: Graph, chosen: set<string>, kept: set<string>, n: string)
    requires WellFormed(g) && Chosen(g, chosen) && Chosen(g, kept) && n in kept
    requires forall n :: n in kept <==> n in chosen && RunTouches(g, chosen, n)
    ensures RunTouches(g, kept, n)
  {
    hide Neighbours, TouchesModule, IsCandidate, NodeOf;
    var m :| m in chosen && InRun(g, chosen, n, m) && TouchesModule(g, m);
    var p :| IsRun(g, chosen, p) && p[0] == n && p[|p| - 1] == m;
    RunKept(g, chosen, kept, p);
    assert InRun(g, kept, n, m);
  }

  lemma RunGrows(g: Graph, other: set<string>, chosen: set<string>, n: string)
    requires Chosen(g, other) && Chosen(g, chosen) && other <= chosen && n in other && RunTouches(g, other, n)
    ensures RunTouches(g, chosen, n)
  {
    var m :| m in other && InRun(g, other, n, m) && TouchesModule(g, m);
    var p :| IsRun(g, other, p) && p[0] == n && p[|p| - 1] == m;
    assert IsRun(g, chosen, p);
  }
}
