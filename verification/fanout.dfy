/**
Which streams may be consumed more than once: a pad never, a source only where
every file's taking it is a plain map.
*/
module Fanout {
  import opened Wiring

  /** One file's outputs; a live reader's pipe is such a file too. */
  datatype File = File(refs: seq<Ref>, pipe: bool)

  function Outputs(files: seq<File>): seq<Ref>
  {
    if files == [] then [] else Outputs(files[..|files| - 1]) + files[|files| - 1].refs
  }

  /** Subtitles and data are mapped as they are, never filtered. */
  predicate PassthroughOnly(ref: Ref)
  {
    ref.Source? && (ref.kind == Subtitle || ref.kind == Data)
  }

  /** How often nodes read a stream. */
  ghost function Filtered(g: Graph, ref: Ref): nat
  {
    multiset(InputSlots(g.nodes))[ref]
  }

  /** The file takes the stream once, and no node reads it; a pipe takes on
      what one node reads too. */
  ghost predicate MapsPlainly(g: Graph, file: File, ref: Ref)
  {
    || PassthroughOnly(ref)
    || (multiset(file.refs)[ref] == 1 && (Filtered(g, ref) == 0 || (file.pipe && Filtered(g, ref) == 1)))
  }

  /** A source some file maps, and every file that does maps plainly. */
  ghost predicate Exempt(g: Graph, files: seq<File>, ref: Ref)
  {
    && ref.Source? && (exists k :: 0 <= k < |files| && ref in files[k].refs)
    && (forall k :: 0 <= k < |files| && ref in files[k].refs ==> MapsPlainly(g, files[k], ref))
  }

  ghost predicate SourcesTallied(counts: map<Ref, nat>, refs: seq<Ref>)
  {
    && (forall ref: Ref :: ref.Source? ==> multiset(refs)[ref] == if ref in counts then counts[ref] else 0)
    && (forall ref :: ref in counts <==> ref in refs && ref.Source?)
  }

  lemma SourceTallied(counts: map<Ref, nat>, refs: seq<Ref>, ref: Ref)
    requires SourcesTallied(counts, refs)
    ensures ref.Source? ==> SourcesTallied(counts[ref := (if ref in counts then counts[ref] else 0) + 1], refs + [ref])
    ensures !ref.Source? ==> SourcesTallied(counts, refs + [ref])
  {
  }

  method TallySources(counts: map<Ref, nat>, refs: seq<Ref>, ghost seen: seq<Ref>) returns (counts': map<Ref, nat>)
    requires SourcesTallied(counts, seen)
    ensures SourcesTallied(counts', seen + Slots(refs))
  {
    hide SourcesTallied;
    counts' := counts;
    assert seen + Slots(refs[..0]) == seen;
    for q := 0 to |refs|
      invariant SourcesTallied(counts', seen + Slots(refs[..q]))
    {
      SourceTallied(counts', seen + Slots(refs[..q]), Slot(refs[q]));
      if refs[q].Source? {
        counts' := counts'[refs[q] := (if refs[q] in counts' then counts'[refs[q]] else 0) + 1];
      }
      assert seen + Slots(refs[..q + 1]) == seen + Slots(refs[..q]) + [Slot(refs[q])];
    }
    assert refs[..|refs|] == refs;
  }

  lemma SourceSlots(refs: seq<Ref>, counts: map<Ref, nat>)
    requires SourcesTallied(counts, Slots(refs))
    ensures SourcesTallied(counts, refs)
  {
    forall ref: Ref | ref.Source?
      ensures multiset(Slots(refs))[ref] == multiset(refs)[ref] && (ref in Slots(refs) <==> ref in refs)
    {
      SlotCount(refs, ref);
    }
  }

  lemma {:induction false} SlotCount(refs: seq<Ref>, ref: Ref)
    requires ref.Source?
    ensures multiset(Slots(refs))[ref] == multiset(refs)[ref] && (ref in Slots(refs) <==> ref in refs)
  {
    if refs != [] {
      var before, last := refs[..|refs| - 1], refs[|refs| - 1];
      SlotCount(before, ref);
      OneMoreCounted(before, last, ref);
      OneMoreCounted(Slots(before), Slot(last), ref);
      assert refs == before + [last] && Slots(refs) == Slots(before) + [Slot(last)];
      hide Slots;
    }
  }

  lemma OneMoreCounted(refs: seq<Ref>, last: Ref, ref: Ref)
    ensures multiset(refs + [last])[ref] == multiset(refs)[ref] + (if last == ref then 1 else 0)
    ensures ref in refs + [last] <==> ref in refs || last == ref
  {
  }

  /** The refs of the first `n` files that may be consumed more than once, and
      those that may not (`_exempt_refs`). */
  ghost predicate Sorted(g: Graph, files: seq<File>, n: nat, exempt: set<Ref>, spoiled: set<Ref>)
    requires n <= |files|
  {
    && (forall ref :: ref in exempt <==>
          exists k :: 0 <= k < n && ref.Source? && ref in files[k].refs && MapsPlainly(g, files[k], ref))
    && (forall ref :: ref in spoiled <==>
          exists k :: 0 <= k < n && ref.Source? && ref in files[k].refs && !MapsPlainly(g, files[k], ref))
  }

  method FilteredSources(g: Graph) returns (filtered: map<Ref, nat>)
    ensures SourcesTallied(filtered, InputSlots(g.nodes))
  {
    filtered := map[];
    assert SourcesTallied(filtered, InputSlots(g.nodes[..0]));
    hide SourcesTallied;
    for k := 0 to |g.nodes|
      invariant SourcesTallied(filtered, InputSlots(g.nodes[..k]))
    {
      filtered := TallySources(filtered, g.nodes[k].inputs, InputSlots(g.nodes[..k]));
      assert g.nodes[..k + 1][..k] == g.nodes[..k];
    }
    assert g.nodes[..|g.nodes|] == g.nodes;
  }

  method SeenIn(file: File) returns (seen: map<Ref, nat>)
    ensures SourcesTallied(seen, file.refs)
  {
    seen := TallySources(map[], file.refs, []);
    hide SourcesTallied;
    assert [] + Slots(file.refs) == Slots(file.refs);
    SourceSlots(file.refs, seen);
  }

  function PlainIn(file: File, filtered: map<Ref, nat>, seen: map<Ref, nat>): set<Ref>
  {
    set ref | ref in seen && (PassthroughOnly(ref)
      || (seen[ref] == 1 && (ref !in filtered || (file.pipe && filtered[ref] == 1))))
  }

  method ExemptRefs(g: Graph, files: seq<File>) returns (refs: set<Ref>)
    ensures forall ref :: ref in refs <==> Exempt(g, files, ref)
  {
    var filtered := FilteredSources(g);
    var exempt: set<Ref>, spoiled: set<Ref> := {}, {};
    assert Sorted(g, files, 0, exempt, spoiled);
    hide *;
    for k := 0 to |files|
      invariant Sorted(g, files, k, exempt, spoiled)
    {
      var seen := SeenIn(files[k]);
      var plain := PlainIn(files[k], filtered, seen);
      PlainAre(g, files[k], filtered, seen, plain);
      SortedOn(g, files, k, exempt, spoiled, plain, seen.Keys - plain);
      exempt, spoiled := exempt + plain, spoiled + (seen.Keys - plain);
    }
    refs := exempt - spoiled;
    SortedAll(g, files, exempt, spoiled);
  }

  lemma SortedAll(g: Graph, files: seq<File>, exempt: set<Ref>, spoiled: set<Ref>)
    requires Sorted(g, files, |files|, exempt, spoiled)
    ensures forall ref :: ref in exempt - spoiled <==> Exempt(g, files, ref)
  {
    hide MapsPlainly;
  }

  lemma PlainAre(g: Graph, file: File, filtered: map<Ref, nat>, seen: map<Ref, nat>, plain: set<Ref>)
    requires SourcesTallied(filtered, InputSlots(g.nodes)) && SourcesTallied(seen, file.refs)
    requires plain == PlainIn(file, filtered, seen)
    ensures forall ref :: ref in plain <==> ref.Source? && ref in file.refs && MapsPlainly(g, file, ref)
    ensures forall ref :: ref in seen.Keys - plain <==> ref.Source? && ref in file.refs && !MapsPlainly(g, file, ref)
  {
    forall ref | ref in filtered ensures filtered[ref] > 0 {
      assert ref in InputSlots(g.nodes);
    }
  }

  lemma SortedOn(g: Graph, files: seq<File>, n: nat, exempt: set<Ref>, spoiled: set<Ref>, plain: set<Ref>, others: set<Ref>)
    requires n < |files| && Sorted(g, files, n, exempt, spoiled)
    requires forall ref :: ref in plain <==> ref.Source? && ref in files[n].refs && MapsPlainly(g, files[n], ref)
    requires forall ref :: ref in others <==> ref.Source? && ref in files[n].refs && !MapsPlainly(g, files[n], ref)
    ensures Sorted(g, files, n + 1, exempt + plain, spoiled + others)
  {
    hide MapsPlainly;
  }

  /** No slot but an exempt source is consumed twice. */
  method CheckFanout(g: Graph, files: seq<File>) returns (ok: bool)
    requires Outputs(files) == g.outputs
    ensures ok <==> forall slot :: slot in Consumers(g) && !Exempt(g, files, slot) ==> multiset(Consumers(g))[slot] <= 1
    ensures ok ==> ConsumeOnce(g)
  {
    hide Exempt, Outputs;
    var counts := CountConsumers(g);
    var exempt := ExemptRefs(g, files);
    ok := forall slot :: slot in counts && slot !in exempt ==> counts[slot] <= 1;
    assert forall slot :: slot in Consumers(g) ==> multiset(Consumers(g))[slot] > 0;
    assert ok ==> ConsumeOnce(g) by {
      forall slot: Ref | !slot.Source? ensures !Exempt(g, files, slot) {
        OnlySources(g, files, slot);
      }
    }
  }

  lemma OnlySources(g: Graph, files: seq<File>, ref: Ref)
    ensures Exempt(g, files, ref) ==> ref.Source?
  {
  }

  // What an accepted graph may do

  lemma {:induction false} FileOutputs(files: seq<File>, k: nat, ref: Ref)
    requires k < |files|
    ensures multiset(files[k].refs)[ref] <= multiset(Outputs(files))[ref]
  {
    var last := |files| - 1;
    assert multiset(Outputs(files)) == multiset(Outputs(files[..last])) + multiset(files[last].refs);
    if k < last {
      FileOutputs(files[..last], k, ref);
    }
  }

  /** In an accepted graph a picture or a sound of a source is filtered at most
      once and no file has it twice; what is filtered reaches files unfiltered
      only down pipes. */
  lemma SourceTaken(g: Graph, files: seq<File>, ref: Ref, k: nat)
    requires Outputs(files) == g.outputs && k < |files|
    requires forall slot :: slot in Consumers(g) && !Exempt(g, files, slot) ==> multiset(Consumers(g))[slot] <= 1
    requires ref.Source? && !PassthroughOnly(ref)
    ensures Filtered(g, ref) <= 1 && multiset(files[k].refs)[ref] <= 1
    ensures Filtered(g, ref) == 1 && ref in files[k].refs ==> files[k].pipe
  {
    var inputs, outputs := InputSlots(g.nodes), Slots(g.outputs);
    assert multiset(Consumers(g))[ref] == multiset(inputs)[ref] + multiset(outputs)[ref];
    SlotCount(g.outputs, ref);
    FileOutputs(files, k, ref);
    hide Outputs, InputSlots, Slots;
    if Exempt(g, files, ref) {
      var j :| 0 <= j < |files| && ref in files[j].refs;
      assert MapsPlainly(g, files[j], ref);
      assert ref in files[k].refs ==> MapsPlainly(g, files[k], ref);
      assert ref !in files[k].refs ==> multiset(files[k].refs)[ref] == 0;
    } else {
      assert multiset(Consumers(g))[ref] <= 1 by {
        if multiset(Consumers(g))[ref] > 0 { assert ref in Consumers(g); }
      }
      assert ref in files[k].refs ==> multiset(files[k].refs)[ref] > 0;
    }
  }
}
