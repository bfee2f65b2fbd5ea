/**
That an inlining leaves every call where it reads what is to its left, and every
read of a call a read of one of its columns.
*/
module Placing {
  import opened Wrappers
  import opened Sql
  import opened Rewriting
  import opened Splicing
  import opened Instancing
  import opened Hosting
  import opened Nulls
  import opened Answers

  // Calls stay where they read their left

  /** The reads go to reads of `left'`, and those of `closed` to none. */
  ghost predicate Sends(f: Replacement, rs: set<(string, seq<string>)>, left: set<string>, closed: set<string>,
                        left': set<string>)
  {
    forall n: string, p: seq<string> :: (n, p) in rs ==>
      && (n in left ==> NamesIn(Reads(f(n, p))) <= left')
      && (n in closed ==> Reads(f(n, p)) == {})
  }

  lemma RewrittenNames(e: Expr, f: Replacement, rs: set<(string, seq<string>)>, left: set<string>, closed: set<string>,
                       left': set<string>)
    requires Reads(e) <= rs && Sends(f, rs, left, closed, left') && NamesIn(Reads(e)) <= left + closed
    ensures NamesIn(Reads(Rewrite(e, f))) <= left'
    ensures NamesIn(Reads(e)) <= closed ==> Reads(Rewrite(e, f)) == {}
  {
    forall r | r in Reads(Rewrite(e, f)) ensures r.0 in left' && exists s :: s in NamesIn(Reads(e)) && s !in closed {
      RewriteReads(e, f, r.0, r.1);
      var s :| s in Reads(e) && (r.0, r.1) in Reads(f(s.0, s.1));
      assert (s.0, s.1) in rs && s.0 in NamesIn(Reads(e));
      assert (r.0, r.1).0 in NamesIn(Reads(f(s.0, s.1)));
    }
  }

  lemma BoundReads(fn: Function, args: seq<Expr>, f: Replacement, rs: set<(string, seq<string>)>, left: set<string>,
                   closed: set<string>, left': set<string>, j: nat)
    requires DefaultsClosed(fn) && j < |fn.params| && ReadsOfAll(args) <= rs && Sends(f, rs, left, closed, left')
    requires NamesIn(ReadsOfAll(args)) <= left + closed
    requires NamesIn(Reads(Bound(fn.params, args)[j])) <= closed
    ensures Reads(Bound(fn.params, RewriteAll(args, f))[j]) == {}
  {
    if j < |args| {
      var e := args[j];
      assert RewriteAll(args, f)[j] == Rewrite(e, f);
      assert Reads(e) <= ReadsOfAll(args);
      if fn.params[j].default.Some? && IsNull(e) {
        NullStays(e, f);
      } else {
        RewrittenNames(e, f, rs, left, closed, left');
      }
    }
  }

  lemma ClosedStay(fn: Function, args: seq<Expr>, f: Replacement, rs: set<(string, seq<string>)>, left: set<string>,
                   closed: set<string>, left': set<string>)
    requires DefaultsClosed(fn) && ReadsOfAll(args) <= rs && Sends(f, rs, left, closed, left')
    requires NamesIn(ReadsOfAll(args)) <= left + closed
    ensures ClosedParams(fn, args, closed) <= ClosedParams(fn, RewriteAll(args, f), {})
  {
    hide Bound, Sends, DefaultsClosed, RewriteAll;
    forall p | p in ClosedParams(fn, args, closed) ensures ClosedParam(fn, RewriteAll(args, f), {}, p) {
      forall j | 0 <= j < |fn.params| && fn.params[j].name == p
        ensures NamesIn(Reads(Bound(fn.params, RewriteAll(args, f))[j])) <= {}
      {
        BoundReads(fn, args, f, rs, left, closed, left', j);
      }
    }
  }

  lemma {:induction false} PlacedMore(items: seq<Item>, left: set<string>, closed: set<string>, left': set<string>,
                                      closed': set<string>)
    requires PlacedFrom(items, left, closed) && left <= left' && closed <= closed'
    ensures PlacedFrom(items, left', closed')
  {
    if items != [] {
      if items[0].Call? {
        var fn, args := items[0].fn, items[0].args;
        ClosedMore(fn, args, closed, closed');
        PlacedMore(fn.body.items, {}, ClosedParams(fn, args, closed), {}, ClosedParams(fn, args, closed'));
      }
      PlacedMore(items[1..], left + {items[0].alias}, closed, left' + {items[0].alias}, closed');
      hide ClosedParams, ReadsOfAll, NamesIn;
    }
  }

  lemma ClosedMore(fn: Function, args: seq<Expr>, closed: set<string>, closed': set<string>)
    requires closed <= closed'
    ensures ClosedParams(fn, args, closed) <= ClosedParams(fn, args, closed')
  {
    hide Bound;
  }

  /** The same items with their arguments rewritten. */
  ghost predicate Rewritten(items: seq<Item>, items': seq<Item>, f: Replacement)
  {
    && |items'| == |items|
    && (forall i :: 0 <= i < |items| ==> (items'[i].Call? <==> items[i].Call?))
    && (forall i :: 0 <= i < |items| && items[i].Call? ==>
          items'[i].fn == items[i].fn && items'[i].args == RewriteAll(items[i].args, f))
  }

  /** A read of an item goes to a read of what it is called now, or of `left'`. */
  ghost predicate Follows(items: seq<Item>, items': seq<Item>, f: Replacement, rs: set<(string, seq<string>)>,
                          left': set<string>)
    requires |items'| == |items|
  {
    forall i, p :: 0 <= i < |items| && (items[i].alias, p) in rs ==>
      NamesIn(Reads(f(items[i].alias, p))) <= left' + {items'[i].alias}
  }

  lemma {:induction false} PlacedOn(items: seq<Item>, items': seq<Item>, f: Replacement, rs: set<(string, seq<string>)>,
                                    left: set<string>, closed: set<string>, left': set<string>)
    requires Rewritten(items, items', f) && ItemsDefaultsClosed(items) && ReadsOfItems(items) <= rs
    requires Sends(f, rs, left, closed, left') && Follows(items, items', f, rs, left')
    requires PlacedFrom(items, left, closed)
    ensures PlacedFrom(items', left', {})
    decreases |items|
  {
    if items != [] {
      var item, item' := items[0], items'[0];
      assert ReadsOfItem(item) <= ReadsOfItems(items);
      if item.Call? {
        CallPlaced(item, item', f, rs, left, closed, left');
      }
      RestFollows(items, items', f, rs, left, closed, left');
      hide Sends, Follows, Rewritten, ItemsDefaultsClosed, ClosedParams;
      PlacedOn(items[1..], items'[1..], f, rs, left + {item.alias}, closed, left' + {item'.alias});
    }
  }

  lemma CallPlaced(item: Item, item': Item, f: Replacement, rs: set<(string, seq<string>)>, left: set<string>,
                   closed: set<string>, left': set<string>)
    requires item.Call? && item'.Call? && item'.fn == item.fn && item'.args == RewriteAll(item.args, f)
    requires DefaultsClosed(item.fn) && ReadsOfAll(item.args) <= rs && Sends(f, rs, left, closed, left')
    requires NamesIn(ReadsOfAll(item.args)) <= left + closed
    requires PlacedFrom(item.fn.body.items, {}, ClosedParams(item.fn, item.args, closed))
    ensures NamesIn(ReadsOfAll(item'.args)) <= left' + {}
    ensures PlacedFrom(item'.fn.body.items, {}, ClosedParams(item'.fn, item'.args, {}))
  {
    ClosedStay(item.fn, item.args, f, rs, left, closed, left');
    PlacedMore(item.fn.body.items, {}, ClosedParams(item.fn, item.args, closed), {}, ClosedParams(item.fn, item'.args, {}));
    hide PlacedFrom, ClosedParams, Sends;
    forall r | r in ReadsOfAll(item'.args) ensures r.0 in left' {
      var i := RewrittenAllReads(item.args, f, r);
      assert Reads(item.args[i]) <= ReadsOfAll(item.args);
      RewrittenNames(item.args[i], f, rs, left, closed, left');
      assert r.0 in NamesIn(Reads(Rewrite(item.args[i], f)));
    }
  }

  lemma RestFollows(items: seq<Item>, items': seq<Item>, f: Replacement, rs: set<(string, seq<string>)>,
                    left: set<string>, closed: set<string>, left': set<string>)
    requires items != [] && Rewritten(items, items', f) && ItemsDefaultsClosed(items) && ReadsOfItems(items) <= rs
    requires Sends(f, rs, left, closed, left') && Follows(items, items', f, rs, left')
    ensures var more, more' := left + {items[0].alias}, left' + {items'[0].alias};
      && Rewritten(items[1..], items'[1..], f) && ItemsDefaultsClosed(items[1..]) && ReadsOfItems(items[1..]) <= rs
      && Sends(f, rs, more, closed, more') && Follows(items[1..], items'[1..], f, rs, more')
  {
    assert ReadsOfItems(items[1..]) <= ReadsOfItems(items);
    hide ReadsOfItems, Reads, DefaultsClosed;
  }

  // An instance

  lemma InstancePlaced(fn: Function, mapping: map<string, string>, args: seq<Expr>, known: set<string>)
    requires WellFormed(fn) && FreshFor(fn, mapping, args, known)
    requires PlacedFrom(fn.body.items, {}, ClosedParams(fn, args, {}))
    ensures Placed(Instance(fn, mapping, args).items)
  {
    hide *;
    var items, items' := fn.body.items, Instance(fn, mapping, args).items;
    var f, rs := RenamingOf(fn, mapping, args).Reading(), ReadsOfItems(fn.body.items);
    InstanceHygienic(fn, mapping, args, known);
    BodyClosed(fn);
    InstanceRewritten(fn, mapping, args);
    InstanceSends(fn, mapping, args, rs);
    InstanceFollows(fn, mapping, args, known, rs);
    PlacedOn(items, items', f, rs, {}, ClosedParams(fn, args, {}), {});
    PlacedIs(items');
  }

  lemma PlacedIs(items: seq<Item>)
    ensures Placed(items) <==> PlacedFrom(items, {}, {})
  {
  }

  lemma InstanceRewritten(fn: Function, mapping: map<string, string>, args: seq<Expr>)
    ensures Rewritten(fn.body.items, Instance(fn, mapping, args).items, RenamingOf(fn, mapping, args).Reading())
  {
    var r := RenamingOf(fn, mapping, args);
    var items, items' := fn.body.items, Instance(fn, mapping, args).items;
    assert items' == InstanceItems(items, mapping, r.Reading());
    hide Renaming.Reading, RewriteAll, Instance;
    forall i | 0 <= i < |items| ensures items'[i] == InstanceItem(items[i], mapping, r.Reading()) { }
  }

  lemma InstanceSends(fn: Function, mapping: map<string, string>, args: seq<Expr>, rs: set<(string, seq<string>)>)
    requires RenamingOf(fn, mapping, args).Hygienic() && RenamingOf(fn, mapping, args).bindings.Keys == ParamSet(fn)
    ensures Sends(RenamingOf(fn, mapping, args).Reading(), rs, {}, ClosedParams(fn, args, {}), {})
  {
    hide ClosedParams, Renaming.Reading, Renaming.Hygienic, Reads;
    forall n: string, p: seq<string> | n in ClosedParams(fn, args, {})
      ensures Reads(RenamingOf(fn, mapping, args).Reading()(n, p)) == {}
    {
      ClosedSends(fn, mapping, args, n, p);
    }
  }

  lemma InstanceFollows(fn: Function, mapping: map<string, string>, args: seq<Expr>, known: set<string>,
                        rs: set<(string, seq<string>)>)
    requires WellFormed(fn) && FreshFor(fn, mapping, args, known) && RenamingOf(fn, mapping, args).Hygienic()
    ensures Follows(fn.body.items, Instance(fn, mapping, args).items, RenamingOf(fn, mapping, args).Reading(), rs, {})
  {
    InstanceAliases(fn, mapping, args, known);
    hide WellFormed, FreshFor, Renaming.Reading, Renaming.Hygienic, Reads;
    var items, f := fn.body.items, RenamingOf(fn, mapping, args).Reading();
    forall i, p | 0 <= i < |items| ensures NamesIn(Reads(f(items[i].alias, p))) == {mapping[items[i].alias]} {
      AliasSends(fn, mapping, args, items[i].alias, p);
    }
  }

  lemma BodyClosed(fn: Function)
    requires WellFormed(fn)
    ensures ItemsDefaultsClosed(fn.body.items)
  {
    forall i | 0 <= i < |fn.body.items| && fn.body.items[i].Call? ensures DefaultsClosed(fn.body.items[i].fn) {
      CalledClosed(fn.body.items, i);
    }
  }

  lemma AliasSends(fn: Function, mapping: map<string, string>, args: seq<Expr>, n: string, p: seq<string>)
    requires RenamingOf(fn, mapping, args).Hygienic() && n in mapping
    ensures NamesIn(Reads(RenamingOf(fn, mapping, args).Reading()(n, p))) == {mapping[n]}
  {
    AliasRenamed(RenamingOf(fn, mapping, args), n, p);
    var e := RenamingOf(fn, mapping, args).Reading()(n, p);
    hide *;
    ReadNames(e);
  }

  lemma ReadNames(e: Expr)
    requires e.Read?
    ensures NamesIn(Reads(e)) == {e.name}
  {
    assert Reads(e) == {(e.name, e.path)};
    assert (e.name, e.path) in Reads(e);
  }

  lemma ClosedSends(fn: Function, mapping: map<string, string>, args: seq<Expr>, n: string, p: seq<string>)
    requires RenamingOf(fn, mapping, args).Hygienic() && RenamingOf(fn, mapping, args).bindings.Keys == ParamSet(fn)
    requires n in ClosedParams(fn, args, {})
    ensures Reads(RenamingOf(fn, mapping, args).Reading()(n, p)) == {}
  {
    var r := RenamingOf(fn, mapping, args);
    var names, bound := ParamNames(fn.params), Bound(fn.params, args);
    assert n in r.bindings && n !in r.mapping;
    ColumnsFrom(names, bound, n);
    var i :| 0 <= i < |bound| && names[i] == n && r.bindings[n] == bound[i];
    assert fn.params[i].name == n;
    assert NamesIn(Reads(bound[i])) <= {};
    assert r.Reading()(n, p) == Substituted(r.bindings, n, p);
    NoNames(Reads(bound[i]));
    if p != [] {
      NoNames(Reads(Accessor(bound[i], p)));
    }
  }

  lemma NoNames(rs: set<(string, seq<string>)>)
    ensures NamesIn(rs) == {} ==> rs == {}
  {
    if rs != {} {
      var r :| r in rs;
      assert r.0 in NamesIn(rs);
    }
  }

  /** An instance reads nothing from outside but what its arguments do. */
  lemma InstanceFree(fn: Function, mapping: map<string, string>, args: seq<Expr>, known: set<string>)
    requires WellFormed(fn) && FreshFor(fn, mapping, args, known)
    ensures Free(Instance(fn, mapping, args)) <= NamesIn(ReadsOfAll(args))
  {
    InstanceHosted(fn, mapping, args, known);
    InstanceAliases(fn, mapping, args, known);
    var items, items' := fn.body.items, Instance(fn, mapping, args).items;
    forall v | v in mapping.Values ensures v in Aliases(items') {
      var a :| a in mapping && mapping[a] == v;
      assert a in Aliases(items);
      var i :| 0 <= i < |items| && items[i].alias == a;
      assert items'[i].alias == v;
    }
  }

  // A splice

  /** What the spliced query reads: what the host did but the call, and what the
      body reads. */
  lemma SplicedRead(host: Query, at: nat, body: Query, read: (string, seq<string>))
    requires WellFormedItems(host.items) && at < |host.items| && host.items[at].Call? && Checked(host, at, body)
    requires read in ReadsOf(Spliced(host, at, body))
    ensures (read in ReadsOf(host) && read.0 != host.items[at].alias) || read.0 in NamesIn(ReadsOf(body))
  {
    var alias := host.items[at].alias;
    var f := LateralRead(alias, ColumnsOf(body));
    SplicedShape(host, at, body);
    hide LateralRead, WellFormedItems;
    var q := Spliced(host, at, body);
    if read in ReadsOfItems(q.items) {
      SplicedItemRead(host, at, body, read);
    } else if read in ReadsOfWhere(q.where) {
      ConjoinedReads(RewriteWhere(host.where, f), body.where);
      if read in ReadsOfWhere(RewriteWhere(host.where, f)) {
        SplicedExprRead(host, at, body, host.where.value, read);
      } else {
        assert read.0 in NamesIn(ReadsOf(body));
      }
    } else {
      var i :| 0 <= i < |q.projections| && read in Reads(q.projections[i].expr);
      assert Reads(host.projections[i].expr) <= ReadsOfProjections(host.projections);
      SplicedExprRead(host, at, body, host.projections[i].expr, read);
    }
  }

  lemma SplicedExprRead(host: Query, at: nat, body: Query, e: Expr, read: (string, seq<string>))
    requires at < |host.items| && host.items[at].Call? && Checked(host, at, body) && Reads(e) <= ReadsOf(host)
    requires read in Reads(Rewrite(e, LateralRead(host.items[at].alias, ColumnsOf(body))))
    ensures (read in ReadsOf(host) && read.0 != host.items[at].alias) || read.0 in NamesIn(ReadsOf(body))
  {
    var alias, columns := host.items[at].alias, ColumnsOf(body);
    var f := LateralRead(alias, columns);
    RewriteReads(e, f, read.0, read.1);
    var was :| was in Reads(e) && (read.0, read.1) in Reads(f(was.0, was.1));
    if was.0 == alias {
      ColumnReads(body, was.1[0]);
      assert (read.0, read.1).0 in NamesIn(Reads(f(was.0, was.1)));
      assert NamesIn(Reads(columns[was.1[0]])) <= NamesIn(ReadsOf(body));
    } else {
      assert f(was.0, was.1) == Read(was.0, was.1);
    }
  }

  lemma SplicedItemRead(host: Query, at: nat, body: Query, read: (string, seq<string>))
    requires WellFormedItems(host.items) && at < |host.items| && host.items[at].Call? && Checked(host, at, body)
    requires read in ReadsOfItems(Spliced(host, at, body).items)
    ensures (read in ReadsOf(host) && read.0 != host.items[at].alias) || read.0 in NamesIn(ReadsOf(body))
  {
    var alias := host.items[at].alias;
    var f := LateralRead(alias, ColumnsOf(body));
    var rest := host.items[at + 1..];
    SplicedShape(host, at, body);
    ReadsOfConcat(host.items[..at], Tail(host, at, body));
    ReadsOfConcat(body.items, RewriteItems(rest, f));
    if read in ReadsOfItems(host.items[..at]) {
      NotReadBefore(host, at);
      assert read.0 in NamesIn(ReadsOfItems(host.items[..at]));
      PartReads(host.items, 0, at);
      assert host.items[0..at] == host.items[..at];
    } else if read in ReadsOfItems(body.items) {
      assert read.0 in NamesIn(ReadsOf(body));
    } else {
      RestRead(host, at, body, read);
    }
  }

  lemma RestRead(host: Query, at: nat, body: Query, read: (string, seq<string>))
    requires at < |host.items| && host.items[at].Call? && Checked(host, at, body)
    requires read in ReadsOfItems(RewriteItems(host.items[at + 1..], LateralRead(host.items[at].alias, ColumnsOf(body))))
    ensures (read in ReadsOf(host) && read.0 != host.items[at].alias) || read.0 in NamesIn(ReadsOf(body))
  {
    var f := LateralRead(host.items[at].alias, ColumnsOf(body));
    var rest := host.items[at + 1..];
    var i :| 0 <= i < |rest| && read in ReadsOfItem(RewriteItems(rest, f)[i]);
    hide LateralRead;
    var k := RewrittenAllReads(rest[i].args, f, read);
    assert rest[i] == host.items[at + 1 + i];
    ItemReads(host, at + 1 + i, k);
    SplicedExprRead(host, at, body, rest[i].args[k], read);
  }

  lemma PartReads(items: seq<Item>, lo: nat, hi: nat)
    requires lo <= hi <= |items|
    ensures ReadsOfItems(items[lo..hi]) <= ReadsOfItems(items)
  {
    forall r | r in ReadsOfItems(items[lo..hi]) ensures r in ReadsOfItems(items) {
      var i :| 0 <= i < |items[lo..hi]| && r in ReadsOfItem(items[lo..hi][i]);
      assert items[lo..hi][i] == items[lo + i];
    }
  }

  /** A splice binds what it reads as the host and the body did. */
  lemma SplicedFree(host: Query, at: nat, body: Query)
    requires WellFormedItems(host.items) && at < |host.items| && host.items[at].Call? && Checked(host, at, body)
    requires Free(body) <= NamesIn(ReadsOfAll(host.items[at].args)) <= Aliases(host.items[..at]) + Free(host)
    ensures Free(Spliced(host, at, body)) <= Free(host)
  {
    var q := Spliced(host, at, body);
    SplicedBinds(host, at, body);
    forall n | n in Free(q) ensures n in Free(host) {
      var read :| read in ReadsOf(q) && read.0 == n;
      SplicedRead(host, at, body, read);
      if n in NamesIn(ReadsOf(body)) {
        assert n in Free(body);
      }
    }
  }

  lemma SplicedBinds(host: Query, at: nat, body: Query)
    requires WellFormedItems(host.items) && at < |host.items| && host.items[at].Call?
    requires forall i :: 0 <= i < at ==> !host.items[i].Call?
    ensures Aliases(Spliced(host, at, body).items) == Aliases(host.items) - {host.items[at].alias} + Aliases(body.items)
    ensures Aliases(host.items[..at]) <= Aliases(Spliced(host, at, body).items)
  {
    hide *;
    var alias := host.items[at].alias;
    var f := LateralRead(alias, ColumnsOf(body));
    var prefix, rest := host.items[..at], host.items[at + 1..];
    SplicedShape(host, at, body);
    TailIs(host, at, body);
    ReadsOfConcat(prefix, Tail(host, at, body));
    ReadsOfConcat(body.items, RewriteItems(rest, f));
    RewrittenAliases(rest, f);
    assert host.items == prefix + ([host.items[at]] + rest);
    ReadsOfConcat(prefix, [host.items[at]] + rest);
    ReadsOfConcat([host.items[at]], rest);
    OneAlias(host.items[at]);
    ItemsDistinct(host.items);
    ApartAlias(host.items, at);
    SetsSwapped(Aliases(prefix), alias, Aliases(rest), Aliases(body.items));
  }

  lemma TailIs(host: Query, at: nat, body: Query)
    requires at < |host.items|
    ensures Tail(host, at, body)
         == body.items + RewriteItems(host.items[at + 1..], LateralRead(host.items[at].alias, ColumnsOf(body)))
  {
  }

  lemma ItemsDistinct(items: seq<Item>)
    requires WellFormedItems(items)
    ensures Distinct(items)
  {
  }

  lemma SetsSwapped(a: set<string>, x: string, b: set<string>, c: set<string>)
    requires x !in a + b
    ensures a + (c + b) == a + ({x} + b) - {x} + c
  {
  }

  lemma RewrittenAliases(items: seq<Item>, f: Replacement)
    ensures Aliases(RewriteItems(items, f)) == Aliases(items)
  {
    var items' := RewriteItems(items, f);
    forall i | 0 <= i < |items| ensures items'[i].alias == items[i].alias { }
    forall n | n in Aliases(items) ensures n in Aliases(items') {
      var i :| 0 <= i < |items| && items[i].alias == n;
      assert items'[i].alias == n;
    }
  }

  lemma OneAlias(item: Item)
    ensures Aliases([item]) == {item.alias}
  {
    assert [item][0].alias in Aliases([item]);
  }

  lemma ApartAlias(items: seq<Item>, at: nat)
    requires Distinct(items) && at < |items|
    ensures items[at].alias !in Aliases(items[..at]) + Aliases(items[at + 1..])
  {
    var rest := items[at + 1..];
    forall i | 0 <= i < at ensures items[..at][i].alias != items[at].alias {
      assert items[i].alias != items[at].alias;
    }
    forall i | 0 <= i < |rest| ensures rest[i].alias != items[at].alias {
      assert rest[i] == items[at + 1 + i];
    }
  }

  // Calls after a splice

  lemma {:induction false} PlacedPast(items: seq<Item>, more: seq<Item>, left: set<string>)
    requires CallFree(items)
    ensures PlacedFrom(items + more, left, {}) <==> PlacedFrom(more, left + Aliases(items), {})
  {
    if items == [] {
      assert items + more == more && Aliases(items) == {} && left + {} == left;
    } else {
      assert (items + more)[0] == items[0] && (items + more)[1..] == items[1..] + more;
      PlacedPast(items[1..], more, left + {items[0].alias});
      ReadsOfConcat([items[0]], items[1..]);
      OneAlias(items[0]);
      assert [items[0]] + items[1..] == items;
      assert left + {items[0].alias} + Aliases(items[1..]) == left + Aliases(items);
    }
  }

  /** The leftmost call reads its left, and the rest theirs. */
  lemma CallIsPlaced(items: seq<Item>, at: nat)
    requires at < |items| && items[at].Call? && CallFree(items[..at]) && Placed(items)
    ensures NamesIn(ReadsOfAll(items[at].args)) <= Aliases(items[..at])
    ensures PlacedFrom(items[at].fn.body.items, {}, ClosedParams(items[at].fn, items[at].args, {}))
    ensures PlacedFrom(items[at + 1..], Aliases(items[..at]) + {items[at].alias}, {})
  {
    assert items == items[..at] + items[at..] && items[at..][1..] == items[at + 1..];
    PlacedPast(items[..at], items[at..], {});
    assert {} + Aliases(items[..at]) == Aliases(items[..at]);
    hide ClosedParams, Aliases, ReadsOfAll;
  }

  lemma SplicedPlaced(host: Query, at: nat, body: Query)
    requires WellFormedItems(host.items) && at < |host.items| && host.items[at].Call? && CallFree(host.items[..at])
    requires CallFree(body.items) && Placed(host.items) && Checked(host, at, body)
    requires Free(body) <= NamesIn(ReadsOfAll(host.items[at].args))
    ensures Placed(Spliced(host, at, body).items)
  {
    hide *;
    var alias := host.items[at].alias;
    var f := LateralRead(alias, ColumnsOf(body));
    var prefix, rest := host.items[..at], host.items[at + 1..];
    var left := Aliases(prefix) + {alias};
    var left' := Aliases(prefix) + Aliases(body.items);
    var rs := ReadsOfItems(rest);
    CallIsPlaced(host.items, at);
    PlacedTail(host, at, body);
    PlacedOn(rest, RewriteItems(rest, f), f, rs, left, {}, left');
    PlacedPast(body.items, RewriteItems(rest, f), Aliases(prefix));
    PlacedPast(prefix, body.items + RewriteItems(rest, f), {});
    assert {} + Aliases(prefix) == Aliases(prefix);
    SplicedShapeFree(host, at, body);
    PlacedIs(Spliced(host, at, body).items);
  }

  lemma SplicedShapeFree(host: Query, at: nat, body: Query)
    requires WellFormedItems(host.items) && at < |host.items| && CallFree(host.items[..at])
    ensures var f := LateralRead(host.items[at].alias, ColumnsOf(body));
      Spliced(host, at, body).items == host.items[..at] + (body.items + RewriteItems(host.items[at + 1..], f))
  {
    assert forall i :: 0 <= i < at ==> host.items[i] == host.items[..at][i];
    SplicedShape(host, at, body);
  }

  lemma PlacedTail(host: Query, at: nat, body: Query)
    requires WellFormedItems(host.items) && at < |host.items| && host.items[at].Call? && Checked(host, at, body)
    requires NamesIn(ReadsOfAll(host.items[at].args)) <= Aliases(host.items[..at])
    requires Free(body) <= NamesIn(ReadsOfAll(host.items[at].args))
    ensures var alias, prefix, rest := host.items[at].alias, host.items[..at], host.items[at + 1..];
      var f := LateralRead(alias, ColumnsOf(body));
      var left' := Aliases(prefix) + Aliases(body.items);
      && Rewritten(rest, RewriteItems(rest, f), f) && ItemsDefaultsClosed(rest)
      && Sends(f, ReadsOfItems(rest), Aliases(prefix) + {alias}, {}, left')
      && Follows(rest, RewriteItems(rest, f), f, ReadsOfItems(rest), left')
  {
    hide *;
    TailClosed(host, at);
    ItemsDistinct(host.items);
    TailSends(host, at, body);
    TailFollows(host, at, body);
    RewrittenItems(host.items[at + 1..], LateralRead(host.items[at].alias, ColumnsOf(body)));
  }

  lemma RewrittenItems(items: seq<Item>, f: Replacement)
    ensures Rewritten(items, RewriteItems(items, f), f)
  {
    hide RewriteAll;
  }

  lemma TailClosed(host: Query, at: nat)
    requires WellFormedItems(host.items) && at < |host.items|
    ensures ItemsDefaultsClosed(host.items[at + 1..])
  {
    var rest := host.items[at + 1..];
    forall i | 0 <= i < |rest| && rest[i].Call? ensures DefaultsClosed(rest[i].fn) {
      assert rest[i] == host.items[at + 1 + i];
      CalledClosed(host.items, at + 1 + i);
    }
  }

  lemma TailRead(host: Query, at: nat, r: (string, seq<string>))
    requires at < |host.items| && r in ReadsOfItems(host.items[at + 1..])
    ensures r in ReadsOf(host)
  {
    PartReads(host.items, at + 1, |host.items|);
    assert host.items[at + 1..|host.items|] == host.items[at + 1..];
  }

  lemma TailSends(host: Query, at: nat, body: Query)
    requires at < |host.items| && host.items[at].Call? && Checked(host, at, body)
    requires NamesIn(ReadsOfAll(host.items[at].args)) <= Aliases(host.items[..at])
    requires Free(body) <= NamesIn(ReadsOfAll(host.items[at].args))
    ensures var alias, prefix, rest := host.items[at].alias, host.items[..at], host.items[at + 1..];
      Sends(LateralRead(alias, ColumnsOf(body)), ReadsOfItems(rest), Aliases(prefix) + {alias}, {},
            Aliases(prefix) + Aliases(body.items))
  {
    hide Reads, ReadsOfItems, Aliases, NamesIn, LateralRead, Checked, Free, ReadsOfAll;
    var alias, f := host.items[at].alias, LateralRead(host.items[at].alias, ColumnsOf(body));
    var left' := Aliases(host.items[..at]) + Aliases(body.items);
    forall n: string, p: seq<string> | (n, p) in ReadsOfItems(host.items[at + 1..]) && n in Aliases(host.items[..at]) + {alias}
      ensures NamesIn(Reads(f(n, p))) <= left'
    {
      TailRead(host, at, (n, p));
      LateralSends(host, at, body, n, p);
    }
  }

  lemma TailFollows(host: Query, at: nat, body: Query)
    requires Distinct(host.items) && at < |host.items| && host.items[at].Call? && Checked(host, at, body)
    requires NamesIn(ReadsOfAll(host.items[at].args)) <= Aliases(host.items[..at])
    requires Free(body) <= NamesIn(ReadsOfAll(host.items[at].args))
    ensures var alias, prefix, rest := host.items[at].alias, host.items[..at], host.items[at + 1..];
      var f := LateralRead(alias, ColumnsOf(body));
      Follows(rest, RewriteItems(rest, f), f, ReadsOfItems(rest), Aliases(prefix) + Aliases(body.items))
  {
    var alias, rest := host.items[at].alias, host.items[at + 1..];
    var f := LateralRead(alias, ColumnsOf(body));
    assert forall i :: 0 <= i < |rest| ==> rest[i] == host.items[at + 1 + i] && rest[i].alias != alias;
    assert forall i :: 0 <= i < |rest| ==> RewriteItems(rest, f)[i].alias == rest[i].alias;
    hide Reads, ReadsOfItems, Aliases, NamesIn, LateralRead, Checked, Free, ReadsOfAll, RewriteItems, Distinct;
    forall i, p | 0 <= i < |rest| && (rest[i].alias, p) in ReadsOfItems(rest)
      ensures NamesIn(Reads(f(rest[i].alias, p))) == {rest[i].alias}
    {
      TailRead(host, at, (rest[i].alias, p));
      LateralSends(host, at, body, rest[i].alias, p);
    }
  }

  lemma LateralSends(host: Query, at: nat, body: Query, n: string, p: seq<string>)
    requires at < |host.items| && host.items[at].Call? && Checked(host, at, body)
    requires NamesIn(ReadsOfAll(host.items[at].args)) <= Aliases(host.items[..at])
    requires Free(body) <= NamesIn(ReadsOfAll(host.items[at].args)) && (n, p) in ReadsOf(host)
    ensures var alias, f := host.items[at].alias, LateralRead(host.items[at].alias, ColumnsOf(body));
      && (n == alias ==> NamesIn(Reads(f(n, p))) <= Aliases(host.items[..at]) + Aliases(body.items))
      && (n != alias ==> NamesIn(Reads(f(n, p))) == {n})
  {
    var alias, columns := host.items[at].alias, ColumnsOf(body);
    var e := LateralRead(alias, columns)(n, p);
    if n == alias {
      assert (n, p).1 != [] && (n, p).1[0] in columns;
      ColumnReads(body, p[0]);
      assert NamesIn(Reads(columns[p[0]])) <= NamesIn(ReadsOf(body));
      assert NamesIn(Reads(e)) == NamesIn(Reads(columns[p[0]]));
    } else {
      ReadNames(e);
    }
  }

  // Calls keep to their columns

  /** A read of an instance is one its arguments make, or one of the body's with
      its alias renamed. */
  lemma InstanceReadFrom(fn: Function, mapping: map<string, string>, args: seq<Expr>, known: set<string>,
                         read: (string, seq<string>))
    requires WellFormed(fn) && FreshFor(fn, mapping, args, known) && read in ReadsOf(Instance(fn, mapping, args))
    ensures read.0 in NamesIn(ReadsOfAll(args)) || exists was :: RenamedFrom(fn, mapping, was, read)
  {
    var r := RenamingOf(fn, mapping, args);
    var f := r.Reading();
    var e := OriginalOf(fn.body, Instance(fn, mapping, args), mapping, f, read);
    RewriteReads(e, f, read.0, read.1);
    var was :| was in Reads(e) && (read.0, read.1) in Reads(f(was.0, was.1));
    InstanceHygienic(fn, mapping, args, known);
    BodyNamed(fn, mapping, was);
    if was.0 in mapping {
      AliasRenamed(r, was.0, was.1);
      RenamedRead(r, was.0, was.1);
      assert RenamedFrom(fn, mapping, was, read);
    } else {
      BindingReads(fn, args, was.0);
      assert (read.0, read.1).0 in NamesIn(Reads(f(was.0, was.1)));
      BoundRead(r, was.0, was.1);
      assert NamesIn(Reads(r.bindings[was.0])) <= NamesIn(ReadsOfAll(args));
    }
  }

  lemma BodyNamed(fn: Function, mapping: map<string, string>, was: (string, seq<string>))
    requires WellFormed(fn) && mapping.Keys == Aliases(fn.body.items) && was in ReadsOf(fn.body)
    ensures (was.0 in mapping || was.0 in ParamSet(fn)) && DefaultsClosed(fn)
  {
    assert was.0 in NamesIn(ReadsOf(fn.body));
  }

  predicate RenamedFrom(fn: Function, mapping: map<string, string>, was: (string, seq<string>), read: (string, seq<string>))
  {
    && was in ReadsOf(fn.body) && was.0 in mapping && mapping[was.0] == read.0
    && (was.0 !in SeriesAliases(fn.body.items) ==> read.1 == was.1)
  }

  lemma RenamedRead(r: Renaming, n: string, p: seq<string>)
    requires r.Hygienic() && n in r.mapping
    ensures r.Reading()(n, p).Read? && r.Reading()(n, p).name == r.mapping[n]
    ensures n !in r.series ==> r.Reading()(n, p).path == p
  {
    assert r.mapping[n] in r.mapping.Values;
    assert r.Reading()(n, p) == Renamed(r.mapping, r.series, n, p);
  }

  lemma BoundRead(r: Renaming, n: string, p: seq<string>)
    requires r.Hygienic() && n in r.bindings
    ensures NamesIn(Reads(r.Reading()(n, p))) == NamesIn(Reads(r.bindings[n]))
  {
    assert r.Reading()(n, p) == Substituted(r.bindings, n, p);
  }

  lemma CallNotSeries(q: Query, i: nat)
    requires Distinct(q.items) && i < |q.items| && q.items[i].Call?
    ensures q.items[i].alias !in SeriesAliases(q.items)
  {
    assert forall k :: 0 <= k < |q.items| && k != i ==> q.items[k].alias != q.items[i].alias;
  }

  lemma InstanceReadsIts(fn: Function, mapping: map<string, string>, args: seq<Expr>, known: set<string>)
    requires WellFormed(fn) && FreshFor(fn, mapping, args, known) && ReadsItsColumns(fn.body)
    ensures ReadsItsColumns(Instance(fn, mapping, args))
  {
    var q := Instance(fn, mapping, args);
    InstanceAliases(fn, mapping, args, known);
    forall i | 0 <= i < |q.items| && q.items[i].Call?
      ensures ReadsOnly(ReadsOf(q), q.items[i].alias, CallColumns(q.items[i].fn)) && ReadsItsColumns(q.items[i].fn.body)
    {
      assert fn.body.items[i].Call? && fn.body.items[i].fn == q.items[i].fn;
      assert ReadsItsColumns(q.items[i].fn.body);
      hide ReadsItsColumns, CallColumns;
      CallReadsIts(fn, mapping, args, known, i);
    }
  }

  lemma CallReadsIts(fn: Function, mapping: map<string, string>, args: seq<Expr>, known: set<string>, i: nat)
    requires WellFormed(fn) && FreshFor(fn, mapping, args, known) && ReadsItsColumns(fn.body)
    requires i < |fn.body.items| && fn.body.items[i].Call?
    ensures var q := Instance(fn, mapping, args);
      q.items[i].Call? && ReadsOnly(ReadsOf(q), q.items[i].alias, CallColumns(q.items[i].fn))
  {
    var q, item := Instance(fn, mapping, args), fn.body.items[i];
    InstanceAliases(fn, mapping, args, known);
    ItemsDistinct(fn.body.items);
    CallNotSeries(fn.body, i);
    assert ReadsOnly(ReadsOf(fn.body), item.alias, CallColumns(item.fn));
    assert q.items[i].Call? && q.items[i].fn == item.fn;
    hide ReadsItsColumns, CallColumns, WellFormed, Instance;
    forall read | read in ReadsOf(q) && read.0 == q.items[i].alias
      ensures read.1 != [] && read.1[0] in CallColumns(item.fn)
    {
      InstanceReadFrom(fn, mapping, args, known, read);
      assert read.0 in mapping.Values;
      var was :| RenamedFrom(fn, mapping, was, read);
      assert was.0 == item.alias;
    }
  }

  lemma SplicedReadsIts(host: Query, at: nat, body: Query, known: set<string>, known': set<string>)
    requires Hosted(host, known) && at < |host.items| && host.items[at].Call? && ReadsItsColumns(host)
    requires ReadyBody(host, at, body, known, known') && Checked(host, at, body)
    ensures ReadsItsColumns(Spliced(host, at, body))
  {
    var q := Spliced(host, at, body);
    forall i: nat | i < |q.items| && q.items[i].Call?
      ensures ReadsOnly(ReadsOf(q), q.items[i].alias, CallColumns(q.items[i].fn)) && ReadsItsColumns(q.items[i].fn.body)
    {
      hide *;
      OneReadsIts(host, at, body, known, known', i);
    }
  }

  lemma RestCall(host: Query, at: nat, body: Query, i: nat)
    requires at < |host.items| && CallFree(host.items[..at]) && CallFree(body.items)
    requires i < |Spliced(host, at, body).items| && Spliced(host, at, body).items[i].Call?
    ensures at + |body.items| <= i < |body.items| + |host.items| - 1
    ensures var rest, k, item := host.items[at + 1..], i - at - |body.items|, Spliced(host, at, body).items[i];
      && rest[k] == host.items[at + 1 + k] && rest[k].Call? && rest[k].alias in Aliases(rest)
      && item.fn == rest[k].fn && item.alias == rest[k].alias
  {
    SplicedCall(host, at, body, i);
    hide Spliced;
  }

  lemma ReadsItsAt(q: Query, i: nat)
    requires ReadsItsColumns(q) && i < |q.items| && q.items[i].Call?
    ensures ReadsOnly(ReadsOf(q), q.items[i].alias, CallColumns(q.items[i].fn)) && ReadsItsColumns(q.items[i].fn.body)
  {
  }

  lemma ReadyFree(host: Query, at: nat, body: Query, known: set<string>, known': set<string>)
    requires at < |host.items| && host.items[at].Call?
    requires ReadyBody(host, at, body, known, known') && Checked(host, at, body)
    ensures CallFree(host.items[..at]) && CallFree(body.items)
  {
  }

  lemma OneReadsIts(host: Query, at: nat, body: Query, known: set<string>, known': set<string>, i: nat)
    requires Hosted(host, known) && at < |host.items| && host.items[at].Call? && ReadsItsColumns(host)
    requires ReadyBody(host, at, body, known, known') && Checked(host, at, body)
    requires i < |Spliced(host, at, body).items| && Spliced(host, at, body).items[i].Call?
    ensures var q := Spliced(host, at, body);
      ReadsOnly(ReadsOf(q), q.items[i].alias, CallColumns(q.items[i].fn)) && ReadsItsColumns(q.items[i].fn.body)
  {
    hide *;
    ReadyFree(host, at, body, known, known');
    RestCall(host, at, body, i);
    RestApart(host, at, body, known, known');
    var k := i - at - |body.items|;
    ReadsItsAt(host, at + 1 + k);
    var item := host.items[at + 1 + k];
    RestReadsIts(host, at, body, known, item.alias, CallColumns(item.fn));
  }

  lemma RestReadsIts(host: Query, at: nat, body: Query, known: set<string>, alias: string, columns: set<string>)
    requires Hosted(host, known) && at < |host.items| && host.items[at].Call? && Checked(host, at, body)
    requires alias !in NamesIn(ReadsOf(body)) && ReadsOnly(ReadsOf(host), alias, columns)
    ensures ReadsOnly(ReadsOf(Spliced(host, at, body)), alias, columns)
  {
    forall read | read in ReadsOf(Spliced(host, at, body)) && read.0 == alias
      ensures read.1 != [] && read.1[0] in columns
    {
      SplicedRead(host, at, body, read);
    }
  }
}
