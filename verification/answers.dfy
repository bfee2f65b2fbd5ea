/**
What an inlining answers: how many it takes, and what in a query makes it
refuse. All of it is read off the query and the functions it names.
*/
module Answers {
  import opened Wrappers
  import opened Sql
  import opened Rewriting
  import opened Splicing
  import opened Instancing
  import opened Hosting
  import opened Nulls

  /** How many inlinings the FROM list takes: one a call, and its body's. */
  function Inlinings(items: seq<Item>): nat
  {
    if items == [] then 0
    else (if items[0].Call? then 1 + Inlinings(items[0].fn.body.items) else 0) + Inlinings(items[1..])
  }

  /** Some call is to a function on the stack, or its body's calls are, under it. */
  predicate Loops(items: seq<Item>, stack: seq<string>)
  {
    items != [] &&
    (|| (items[0].Call? && (items[0].fn.name in stack || Loops(items[0].fn.body.items, stack + [items[0].fn.name])))
     || Loops(items[1..], stack))
  }

  /** Every call's arguments fit, wherever the FROM list leads. */
  predicate AllFit(items: seq<Item>)
  {
    items == [] ||
    (&& (items[0].Call? ==> ArgumentsFit(items[0].fn, items[0].args) && AllFit(items[0].fn.body.items))
     && AllFit(items[1..]))
  }

  /** The parameters bound to what reads only names of `closed`. */
  function ClosedParams(fn: Function, args: seq<Expr>, closed: set<string>): set<string>
  {
    set p | p in ParamSet(fn) && ClosedParam(fn, args, closed, p)
  }

  predicate ClosedParam(fn: Function, args: seq<Expr>, closed: set<string>, p: string)
  {
    forall j :: 0 <= j < |fn.params| && fn.params[j].name == p ==> NamesIn(Reads(Bound(fn.params, args)[j])) <= closed
  }

  /** Every call reads what is bound to its left, or a name of `closed`: at the
      top of a query none is, and in a body a parameter is that was bound to
      what reads nothing. */
  predicate PlacedFrom(items: seq<Item>, left: set<string>, closed: set<string>)
  {
    items == [] ||
    (&& (items[0].Call? ==>
           && NamesIn(ReadsOfAll(items[0].args)) <= left + closed
           && PlacedFrom(items[0].fn.body.items, {}, ClosedParams(items[0].fn, items[0].args, closed)))
     && PlacedFrom(items[1..], left + {items[0].alias}, closed))
  }

  predicate Placed(items: seq<Item>)
  {
    PlacedFrom(items, {}, {})
  }

  /** The names a call's columns are read by: its declared columns, and `tags`
      where the body says them. */
  function CallColumns(fn: Function): set<string>
  {
    ColumnsOf(Named(fn.body, fn.columns)).Keys
  }

  predicate ReadsOnly(rs: set<(string, seq<string>)>, alias: string, columns: set<string>)
  {
    forall r :: r in rs && r.0 == alias ==> r.1 != [] && r.1[0] in columns
  }

  /** Every read of a call is of one of its columns, in every body too. */
  predicate ReadsItsColumns(q: Query)
  {
    forall i :: 0 <= i < |q.items| && q.items[i].Call? ==>
      ReadsOnly(ReadsOf(q), q.items[i].alias, CallColumns(q.items[i].fn)) && ReadsItsColumns(q.items[i].fn.body)
  }

  /** The names a query reads and does not bind. */
  function Free(q: Query): set<string>
  {
    NamesIn(ReadsOf(q)) - Aliases(q.items)
  }

  // What a loop is

  /** The FROM list calls the first name, its body the next, and so on. */
  ghost predicate Chain(items: seq<Item>, names: seq<string>)
    decreases names
  {
    names != [] && exists i: nat :: Links(items, i, names)
  }

  ghost predicate Links(items: seq<Item>, i: nat, names: seq<string>)
    requires names != []
    decreases names, 0
  {
    && i < |items| && items[i].Call? && items[i].fn.name == names[0]
    && (|names| == 1 || Chain(items[i].fn.body.items, names[1..]))
  }

  /** The last name of the chain is on the stack, or in the chain before. */
  predicate ComesBack(stack: seq<string>, names: seq<string>)
  {
    names != [] && (Last(names) in stack || Last(names) in names[..|names| - 1])
  }

  function Last(names: seq<string>): string
    requires names != []
  {
    names[|names| - 1]
  }

  /** A query is found to loop exactly when some chain of calls comes back to a
      name on the stack or to one of its own. */
  lemma {:induction false} LoopsMeans(items: seq<Item>, stack: seq<string>)
    ensures Loops(items, stack) <==> exists names :: Chain(items, names) && ComesBack(stack, names)
  {
    if Loops(items, stack) {
      var names := LoopChain(items, stack);
    }
    forall names | Chain(items, names) && ComesBack(stack, names) ensures Loops(items, stack) {
      ChainLoops(items, stack, names);
    }
  }

  lemma {:induction false} LoopChain(items: seq<Item>, stack: seq<string>) returns (names: seq<string>)
    requires Loops(items, stack)
    ensures Chain(items, names) && ComesBack(stack, names)
  {
    if items[0].Call? && items[0].fn.name in stack {
      names := [items[0].fn.name];
      assert Links(items, 0, names);
    } else if items[0].Call? && Loops(items[0].fn.body.items, stack + [items[0].fn.name]) {
      var more := LoopChain(items[0].fn.body.items, stack + [items[0].fn.name]);
      names := [items[0].fn.name] + more;
      assert names[1..] == more;
      assert Links(items, 0, names);
      StackedBack(stack, items[0].fn.name, more);
    } else {
      names := LoopChain(items[1..], stack);
      var i: nat :| Links(items[1..], i, names);
      assert Links(items, i + 1, names);
    }
  }

  lemma {:induction false} ChainLoops(items: seq<Item>, stack: seq<string>, names: seq<string>)
    requires Chain(items, names) && ComesBack(stack, names)
    ensures Loops(items, stack)
    decreases names
  {
    var i: nat :| Links(items, i, names);
    var fn := items[i].fn;
    if fn.name !in stack {
      assert names == [fn.name] + names[1..];
      StackedBack(stack, fn.name, names[1..]);
      ChainLoops(fn.body.items, stack + [fn.name], names[1..]);
    }
    LoopsAt(items, i, stack);
  }

  /** Going one call down moves its name from the chain to the stack. */
  lemma StackedBack(stack: seq<string>, name: string, more: seq<string>)
    requires more != []
    ensures ComesBack(stack + [name], more) ==> ComesBack(stack, [name] + more)
    ensures name !in stack && ComesBack(stack, [name] + more) ==> ComesBack(stack + [name], more)
  {
    var names := [name] + more;
    assert names[..|names| - 1] == [name] + more[..|more| - 1];
    assert Last(names) == Last(more);
  }

  lemma {:induction false} LoopsAt(items: seq<Item>, i: nat, stack: seq<string>)
    requires i < |items| && items[i].Call?
    requires items[i].fn.name in stack || Loops(items[i].fn.body.items, stack + [items[i].fn.name])
    ensures Loops(items, stack)
  {
    if i > 0 {
      LoopsAt(items[1..], i - 1, stack);
    }
  }

  // What depends on the calls alone

  /** The same calls, each with as many arguments. */
  predicate SameCalls(items: seq<Item>, items': seq<Item>)
  {
    && |items'| == |items|
    && (forall i :: 0 <= i < |items| ==>
          && (items'[i].Call? <==> items[i].Call?)
          && (items[i].Call? ==> items'[i].fn == items[i].fn && |items'[i].args| == |items[i].args|))
  }

  lemma {:induction false} CallsDecide(items: seq<Item>, items': seq<Item>, stack: seq<string>)
    requires SameCalls(items, items')
    ensures Inlinings(items') == Inlinings(items) && (Loops(items', stack) <==> Loops(items, stack))
    ensures AllFit(items') <==> AllFit(items)
  {
    if items != [] {
      assert SameCalls(items[1..], items'[1..]);
      CallsDecide(items[1..], items'[1..], stack);
    }
  }

  lemma {:induction false} NoCallsLead(items: seq<Item>, more: seq<Item>, stack: seq<string>)
    requires CallFree(items)
    ensures Inlinings(items + more) == Inlinings(more) && (Loops(items + more, stack) <==> Loops(more, stack))
    ensures AllFit(items + more) <==> AllFit(more)
  {
    if items == [] {
      assert items + more == more;
    } else {
      assert (items + more)[0] == items[0] && (items + more)[1..] == items[1..] + more;
      NoCallsLead(items[1..], more, stack);
    }
  }

  /** What the leftmost call adds to what the rest make of the query. */
  lemma CallAdds(items: seq<Item>, at: nat, stack: seq<string>)
    requires at < |items| && items[at].Call? && CallFree(items[..at])
    ensures var fn, rest := items[at].fn, items[at + 1..];
      && Inlinings(items) == 1 + Inlinings(fn.body.items) + Inlinings(rest)
      && (Loops(items, stack) <==> fn.name in stack || Loops(fn.body.items, stack + [fn.name]) || Loops(rest, stack))
      && (AllFit(items) <==> ArgumentsFit(fn, items[at].args) && AllFit(fn.body.items) && AllFit(rest))
  {
    assert items == items[..at] + items[at..] && items[at..][1..] == items[at + 1..];
    NoCallsLead(items[..at], items[at..], stack);
  }

  lemma InstanceCalls(fn: Function, mapping: map<string, string>, args: seq<Expr>, stack: seq<string>)
    ensures var items := Instance(fn, mapping, args).items;
      && Inlinings(items) == Inlinings(fn.body.items) && (Loops(items, stack) <==> Loops(fn.body.items, stack))
      && (AllFit(items) <==> AllFit(fn.body.items))
  {
    CallsDecide(fn.body.items, Instance(fn, mapping, args).items, stack);
  }

  lemma SplicedCalls(host: Query, at: nat, body: Query, stack: seq<string>)
    requires at < |host.items| && CallFree(host.items[..at]) && CallFree(body.items)
    ensures var items, rest := Spliced(host, at, body).items, host.items[at + 1..];
      && Inlinings(items) == Inlinings(rest) && (Loops(items, stack) <==> Loops(rest, stack))
      && (AllFit(items) <==> AllFit(rest))
  {
    var f := LateralRead(host.items[at].alias, ColumnsOf(body));
    var prefix, rest := RewriteItems(host.items[..at], f), RewriteItems(host.items[at + 1..], f);
    assert Spliced(host, at, body).items == prefix + body.items + rest;
    assert CallFree(prefix + body.items) by {
      forall i | 0 <= i < |prefix + body.items| ensures !(prefix + body.items)[i].Call? {
        if i < |prefix| {
          assert prefix[i] == RewriteItem(host.items[..at][i], f);
        }
      }
    }
    NoCallsLead(prefix + body.items, rest, stack);
    CallsDecide(host.items[at + 1..], rest, stack);
  }

  lemma UpdatedCalls(items: seq<Item>, at: nat, item: Item, stack: seq<string>)
    requires at < |items| && CallFree(items[..at]) && !item.Call?
    ensures var items', rest := items[at := item], items[at + 1..];
      && Inlinings(items') == Inlinings(rest) && (Loops(items', stack) <==> Loops(rest, stack))
      && (AllFit(items') <==> AllFit(rest))
  {
    assert items[at := item] == items[..at] + [item] + items[at + 1..];
    NoCallsLead(items[..at] + [item], items[at + 1..], stack);
  }
}
