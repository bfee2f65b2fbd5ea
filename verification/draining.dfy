/**
Draining a process's stderr as its pipe hands it over, in chunks that may end
anywhere in a line.
*/
module Draining {
  type Byte = b: nat | b < 256

  const NEWLINE: Byte := 10

  function Flat(chunks: seq<seq<Byte>>): seq<Byte>
  {
    if chunks == [] then [] else Flat(chunks[..|chunks| - 1]) + chunks[|chunks| - 1]
  }

  lemma FlatMore(chunks: seq<seq<Byte>>, chunk: seq<Byte>)
    ensures Flat(chunks + [chunk]) == Flat(chunks) + chunk
  {
    assert (chunks + [chunk])[..|chunks|] == chunks;
  }

  lemma {:induction false} FlatFirst(chunks: seq<seq<Byte>>)
    requires chunks != []
    ensures Flat(chunks) == chunks[0] + Flat(chunks[1..])
  {
    var last := |chunks| - 1;
    if last > 0 {
      FlatFirst(chunks[..last]);
      assert chunks[..last][1..] == chunks[1..][..last - 1] && chunks[1..][last - 1] == chunks[last];
      assert chunks[0] + Flat(chunks[1..][..last - 1]) + chunks[last] == chunks[0] + (Flat(chunks[1..][..last - 1]) + chunks[last]);
    } else {
      assert chunks[..0] == [] && chunks[1..] == [];
    }
  }

  // The log kept in memory

  function Min(a: nat, b: nat): nat
  {
    if a < b then a else b
  }

  predicate IsSuffix(s: seq<Byte>, all: seq<Byte>)
  {
    |s| <= |all| && all[|all| - |s|..] == s
  }

  /** One member's last bytes: whole chunks are let go from the front. */
  class Log {
    var chunks: seq<seq<Byte>>
    var held: nat
    const keep: nat
    ghost var written: seq<Byte>

    ghost predicate Valid()
      reads this
    {
      && keep > 0 && held == |Flat(chunks)| && IsSuffix(Flat(chunks), written)
      && held >= Min(|written|, keep)
      && (chunks != [] ==> held - |chunks[0]| < keep)
    }

    constructor (keep: nat)
      requires keep > 0
      ensures Valid() && written == [] && this.keep == keep
    {
      chunks, held, written := [], 0, [];
      this.keep := keep;
    }

    /** What is held is the end of all that was appended: `keep` bytes once so
        many were, and fewer than that without its oldest chunk. */
    method Append(chunk: seq<Byte>)
      requires Valid()
      modifies this
      ensures Valid() && written == old(written) + chunk
    {
      FlatMore(chunks, chunk);
      SuffixMore(Flat(chunks), written, chunk);
      chunks := chunks + [chunk];
      held := held + |chunk|;
      written := written + chunk;
      FlatFirst(chunks);
      while held - |chunks[0]| >= keep
        invariant chunks != [] && held == |Flat(chunks)| && IsSuffix(Flat(chunks), written)
        invariant held >= Min(|written|, keep) && Flat(chunks) == chunks[0] + Flat(chunks[1..])
        invariant written == old(written) + chunk
        decreases |chunks|
      {
        SuffixLess(chunks[0], Flat(chunks[1..]), written);
        held := held - |chunks[0]|;
        chunks := chunks[1..];
        assert chunks != [] by { NoneHeld(chunks); }
        FlatFirst(chunks);
      }
    }

    method Text() returns (text: seq<Byte>)
      requires Valid()
      ensures IsSuffix(text, written) && |text| >= Min(|written|, keep)
    {
      text := Flat(chunks);
    }
  }

  lemma NoneHeld(chunks: seq<seq<Byte>>)
    ensures chunks == [] ==> |Flat(chunks)| == 0
  {
  }

  lemma SuffixMore(s: seq<Byte>, all: seq<Byte>, more: seq<Byte>)
    requires IsSuffix(s, all)
    ensures IsSuffix(s + more, all + more)
  {
    assert (all + more)[|all| - |s|..] == all[|all| - |s|..] + more;
  }

  lemma SuffixLess(first: seq<Byte>, rest: seq<Byte>, all: seq<Byte>)
    requires IsSuffix(first + rest, all)
    ensures IsSuffix(rest, all)
  {
    assert all[|all| - |rest|..] == (first + rest)[|first|..] == rest;
  }

  // Lines

  datatype Split = Split(lines: seq<seq<Byte>>, rest: seq<Byte>)

  /** The whole lines of `s`, without their newlines, and what is past the last. */
  function Lines(s: seq<Byte>): Split
  {
    if s == [] then Split([], [])
    else
      var before := Lines(s[..|s| - 1]);
      if s[|s| - 1] == NEWLINE then Split(before.lines + [before.rest], [])
      else Split(before.lines, before.rest + [s[|s| - 1]])
  }

  /** Splitting what a chunk left over with the next is splitting both. */
  lemma {:induction false} LinesOn(s: seq<Byte>, chunk: seq<Byte>)
    ensures var before, all := Lines(s), Lines(s + chunk);
      var now := Lines(before.rest + chunk);
      all == Split(before.lines + now.lines, now.rest)
    decreases |chunk|
  {
    var before := Lines(s);
    if chunk == [] {
      assert s + [] == s && before.rest + [] == before.rest;
      RestIsRest(s);
      assert before.lines + [] == before.lines;
    } else {
      var last := |chunk| - 1;
      LinesOn(s, chunk[..last]);
      assert (s + chunk)[..|s + chunk| - 1] == s + chunk[..last];
      assert (before.rest + chunk)[..|before.rest + chunk| - 1] == before.rest + chunk[..last];
      var now := Lines(before.rest + chunk[..last]);
      assert before.lines + (now.lines + [now.rest]) == before.lines + now.lines + [now.rest];
    }
  }

  lemma {:induction false} RestIsRest(s: seq<Byte>)
    ensures Lines(Lines(s).rest) == Split([], Lines(s).rest)
  {
    if s != [] && s[|s| - 1] != NEWLINE {
      RestIsRest(s[..|s| - 1]);
      var rest := Lines(s[..|s| - 1]).rest;
      assert (rest + [s[|s| - 1]])[..|rest|] == rest;
    }
  }

  /** The lines, each with its newline, and the rest, are the stream again. */
  function Ended(lines: seq<seq<Byte>>): seq<Byte>
  {
    if lines == [] then [] else Ended(lines[..|lines| - 1]) + (lines[|lines| - 1] + [NEWLINE])
  }

  lemma {:induction false} LinesRebuild(s: seq<Byte>)
    ensures Ended(Lines(s).lines) + Lines(s).rest == s
    ensures forall i :: 0 <= i < |Lines(s).lines| ==> NEWLINE !in Lines(s).lines[i]
    ensures NEWLINE !in Lines(s).rest
  {
    if s != [] {
      var last := |s| - 1;
      LinesRebuild(s[..last]);
      var before := Lines(s[..last]);
      LastLine(s);
      EndedMore(before.lines, before.rest);
      hide Lines, Ended;
      Tacked(Ended(before.lines), before.rest, [s[last]]);
      assert s == s[..last] + [s[last]];
    }
  }

  lemma LastLine(s: seq<Byte>)
    requires s != []
    ensures var before := Lines(s[..|s| - 1]);
      Lines(s) ==
      if s[|s| - 1] == NEWLINE then Split(before.lines + [before.rest], [])
      else Split(before.lines, before.rest + [s[|s| - 1]])
  {
  }

  lemma EndedMore(lines: seq<seq<Byte>>, line: seq<Byte>)
    ensures Ended(lines + [line]) == Ended(lines) + (line + [NEWLINE])
  {
    assert (lines + [line])[..|lines|] == lines;
  }

  lemma Tacked(a: seq<Byte>, b: seq<Byte>, c: seq<Byte>)
    ensures a + (b + c) == a + b + c && a + (b + c) + [] == a + (b + c)
  {
  }
}
