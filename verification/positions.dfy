/**
Where inlined text says it came from. Each expansion's body is moved into its
own range of lines above any script's, and a line there leads back, call site
by call site, to one the script has.
*/
module Positions {
  import opened Wrappers

  const BODY_LINE_BASE: nat := 1_000_000
  const BODY_LINE_SPAN: nat := 10_000

  datatype Pos = Pos(line: nat, col: nat)

  /** A node of the query's text: only some carry a position of their own. */
  datatype Term = Term(pos: Option<Pos>, kind: Kind, args: seq<Term>)
  datatype Kind = Call(name: string) | Read(name: string) | Other

  /** One inlining: the function, and where its call was. */
  datatype Expansion = Expansion(name: string, site: Pos)

  /** The first line above the first `n` expansions' ranges. */
  function Top(n: nat): nat
  {
    BODY_LINE_BASE + n * BODY_LINE_SPAN
  }

  /** Every position is a script's or one of the first `n` expansions'. */
  predicate Known(t: Term, n: nat)
  {
    && (t.pos.Some? ==> t.pos.value.line < Top(n))
    && (forall i :: 0 <= i < |t.args| ==> Known(t.args[i], n))
  }

  /** Every call was written in the script or in an earlier expansion's body. */
  predicate SitesKnown(expansions: seq<Expansion>)
  {
    forall i :: 0 <= i < |expansions| ==> expansions[i].site.line < Top(i)
  }

  lemma {:induction false} KnownLater(t: Term, n: nat, n': nat)
    requires Known(t, n) && n <= n'
    ensures Known(t, n')
  {
    forall i | 0 <= i < |t.args| ensures Known(t.args[i], n') {
      KnownLater(t.args[i], n, n');
    }
  }

  // Moving a body into its range

  function Stamped(t: Term, index: nat): Term
  {
    Term(if t.pos.None? then None else Some(Pos(StampedLine(t.pos.value.line, index), t.pos.value.col)), t.kind,
         seq(|t.args|, i requires 0 <= i < |t.args| => Stamped(t.args[i], index)))
  }

  function StampedLine(line: nat, index: nat): nat
  {
    Top(index) + if line < BODY_LINE_SPAN - 1 then line else BODY_LINE_SPAN - 1
  }

  lemma {:induction false} StampedKnown(t: Term, index: nat)
    ensures Known(Stamped(t, index), index + 1)
  {
    var s := Stamped(t, index);
    forall i | 0 <= i < |s.args| ensures Known(s.args[i], index + 1) {
      StampedKnown(t.args[i], index);
    }
  }

  function IndexOf(line: nat): int
  {
    (line - BODY_LINE_BASE) / BODY_LINE_SPAN
  }

  function BodyLineOf(line: nat): nat
  {
    (line - BODY_LINE_BASE) % BODY_LINE_SPAN
  }

  /** A stamped line says its expansion, and its line in the body unless that
      is past what a range holds. */
  lemma StampReadsBack(line: nat, index: nat)
    ensures IndexOf(StampedLine(line, index)) == index
    ensures BodyLineOf(StampedLine(line, index)) == line <==> line < BODY_LINE_SPAN
  {
    var within := if line < BODY_LINE_SPAN - 1 then line else BODY_LINE_SPAN - 1;
    assert StampedLine(line, index) - BODY_LINE_BASE == index * BODY_LINE_SPAN + within;
    Divided(index, within);
  }

  lemma Divided(index: nat, within: nat)
    requires within < BODY_LINE_SPAN
    ensures (index * BODY_LINE_SPAN + within) / BODY_LINE_SPAN == index
    ensures (index * BODY_LINE_SPAN + within) % BODY_LINE_SPAN == within
  {
  }

  lemma IndexBelow(line: nat, n: nat)
    requires BODY_LINE_BASE <= line
    ensures line < Top(n) <==> 0 <= IndexOf(line) < n
  {
  }

  // The way back

  /** The call site in the script that `pos` goes back to. */
  function Home(expansions: seq<Expansion>, pos: Pos): (home: Pos)
    requires SitesKnown(expansions) && pos.line < Top(|expansions|)
    ensures home.line < BODY_LINE_BASE
    ensures pos.line < BODY_LINE_BASE ==> home == pos
    decreases pos.line
  {
    if pos.line < BODY_LINE_BASE then pos
    else
      IndexBelow(pos.line, |expansions|);
      SiteBefore(expansions, pos.line);
      Home(expansions, expansions[IndexOf(pos.line)].site)
  }

  lemma SiteBefore(expansions: seq<Expansion>, line: nat)
    requires SitesKnown(expansions) && BODY_LINE_BASE <= line < Top(|expansions|)
    ensures 0 <= IndexOf(line) < |expansions|
    ensures expansions[IndexOf(line)].site.line < line
    ensures expansions[IndexOf(line)].site.line >= BODY_LINE_BASE ==>
      0 <= IndexOf(expansions[IndexOf(line)].site.line) < IndexOf(line)
  {
    IndexBelow(line, |expansions|);
    var index := IndexOf(line);
    assert expansions[index].site.line < Top(index) <= line;
    if expansions[index].site.line >= BODY_LINE_BASE {
      IndexBelow(expansions[index].site.line, index);
    }
  }

  const FALLBACK := Pos(1, 1)

  datatype Found = Found(expansion: Expansion, bodyLine: nat, site: Pos)

  /** The expansion `line` came from and the script's call site (`_source`).
      The last line's way out is never taken. */
  method Source(expansions: seq<Expansion>, line: nat) returns (found: Option<Found>)
    requires SitesKnown(expansions)
    ensures found.Some? <==> BODY_LINE_BASE <= line < Top(|expansions|)
    ensures found.Some? ==>
      && 0 <= IndexOf(line) < |expansions|
      && found.value.expansion == expansions[IndexOf(line)] && found.value.bodyLine == BodyLineOf(line)
      && found.value.site == Home(expansions, Pos(line, 0))
  {
    var index := IndexOf(line);
    if !(0 <= index < |expansions|) {
      NotBelow(line, |expansions|);
      return None;
    }
    NotBelow(line, |expansions|);
    SiteBefore(expansions, line);
    var expansion := expansions[index];
    var site := expansion;
    ghost var at := index;
    for turn := 0 to |expansions|
      invariant at + turn < |expansions| && site == expansions[at]
      invariant site.site.line < Top(|expansions|) && Home(expansions, site.site) == Home(expansions, Pos(line, 0))
    {
      if site.site.line < BODY_LINE_BASE {
        return Some(Found(expansion, BodyLineOf(line), site.site));
      }
      SiteBefore(expansions, site.site.line);
      IndexBelow(site.site.line, at);
      var outer := IndexOf(site.site.line);
      if !(0 <= outer < |expansions|) {
        break;
      }
      site, at := expansions[outer], outer;
    }
    return Some(Found(expansion, BodyLineOf(line), FALLBACK));
  }

  lemma NotBelow(line: nat, n: nat)
    ensures 0 <= IndexOf(line) < n <==> BODY_LINE_BASE <= line < Top(n)
  {
    if line >= BODY_LINE_BASE {
      IndexBelow(line, n);
    }
  }

  /** A rejection that landed on body text, said at the call site. `message`
      is what the expansion adds: its name and the body's line. */
  datatype Rejection = Rejection(at: Option<Pos>, within: Option<(string, nat)>)

  method Translate(expansions: seq<Expansion>, err: Rejection) returns (said: Rejection)
    requires SitesKnown(expansions)
    ensures said.at.Some? ==> said.at.value.line < BODY_LINE_BASE
    ensures said.at.Some? <==> err.at.Some?
    ensures err.at.Some? && err.at.value.line < Top(|expansions|) ==> said.at == Some(Home(expansions, err.at.value))
  {
    if err.at.None? || err.at.value.line < BODY_LINE_BASE {
      return err;
    }
    var found := Source(expansions, err.at.value.line);
    if found.None? {
      return Rejection(Some(FALLBACK), err.within);
    }
    HomeIgnoresColumn(expansions, err.at.value, 0);
    return Rejection(Some(found.value.site), Some((found.value.expansion.name, found.value.bodyLine)));
  }

  /** A body line goes home to its call's column, not its own. */
  lemma HomeIgnoresColumn(expansions: seq<Expansion>, pos: Pos, col: nat)
    requires SitesKnown(expansions) && BODY_LINE_BASE <= pos.line < Top(|expansions|)
    ensures Home(expansions, Pos(pos.line, col)) == Home(expansions, pos)
  {
  }

  /** Every stamped position flattened onto its call site. */
  function Settled(expansions: seq<Expansion>, t: Term): Term
    requires SitesKnown(expansions) && Known(t, |expansions|)
  {
    Term(if t.pos.None? then None else Some(Home(expansions, t.pos.value)), t.kind,
         seq(|t.args|, i requires 0 <= i < |t.args| => Settled(expansions, t.args[i])))
  }

  /** Once settled no node keeps a private line, and one of the script's own
      is where it was. */
  lemma {:induction false} NonePrivate(expansions: seq<Expansion>, t: Term)
    requires SitesKnown(expansions) && Known(t, |expansions|)
    ensures Known(Settled(expansions, t), 0)
    ensures Known(t, 0) ==> Settled(expansions, t) == t
  {
    var s := Settled(expansions, t);
    forall i | 0 <= i < |t.args|
      ensures Known(s.args[i], 0) && (Known(t.args[i], 0) ==> s.args[i] == t.args[i])
    {
      NonePrivate(expansions, t.args[i]);
    }
    if Known(t, 0) {
      assert s.args == t.args;
    }
  }

  /** A body's line goes home to where its call's text does. */
  lemma BodyGoesHome(expansions: seq<Expansion>, index: nat, line: nat, col: nat)
    requires SitesKnown(expansions) && index < |expansions|
    ensures BODY_LINE_BASE <= StampedLine(line, index) < Top(|expansions|)
    ensures expansions[index].site.line < Top(|expansions|)
    ensures Home(expansions, Pos(StampedLine(line, index), col)) == Home(expansions, expansions[index].site)
  {
    StampReadsBack(line, index);
    TopsRise(index, |expansions|);
  }

  lemma TopsRise(index: nat, n: nat)
    requires index < n
    ensures Top(index) < Top(index + 1) <= Top(n)
  {
  }
}
