/** What an inlining keeps of the query it happens in. */
module Hosting {
  import opened Wrappers
  import opened Sql
  import opened Rewriting
  import opened Splicing
  import opened Instancing

  /** A query being compiled, all of whose names are already taken. */
  ghost predicate Hosted(q: Query, taken: set<string>)
  {
    && WellFormedItems(q.items)
    && Aliases(q.items) <= taken
    && NamesIn(ReadsOf(q)) <= taken
  }

  predicate CallFree(items: seq<Item>)
  {
    forall i :: 0 <= i < |items| ==> !items[i].Call?
  }

  /** `q'` came of `q` with no name from outside but fresh ones. */
  ghost predicate Grown(q: Query, q': Query, taken: set<string>, taken': set<string>)
  {
    && taken <= taken'
    && NamesIn(ReadsOf(q')) <= NamesIn(ReadsOf(q)) + (taken' - taken)
    && Aliases(q'.items) <= Aliases(q.items) + (taken' - taken)
  }

  /** The same projections stand as the metadata map. */
  ghost predicate SameTags(q: Query, q': Query)
  {
    && |q'.projections| == |q.projections|
    && (forall i :: 0 <= i < |q.projections| ==> (IsTags(q'.projections[i]) <==> IsTags(q.projections[i])))
  }

  // Lists of FROM items

  lemma WellFormedConcat(a: seq<Item>, b: seq<Item>)
    requires WellFormedItems(a) && WellFormedItems(b) && Aliases(a) !! Aliases(b)
    requires forall i :: 0 <= i < |a| && a[i].Source? ==> NamesIn(ReadsOfItem(a[i])) !! Aliases(b)
    ensures WellFormedItems(a + b)
  {
    var c := a + b;
    forall i, j | 0 <= i < j < |c| ensures c[i].alias != c[j].alias {
      if i < |a| <= j {
        assert c[i].alias in Aliases(a) && c[j].alias in Aliases(b) by { assert c[j] == b[j - |a|]; }
      }
    }
    forall i, j | 0 <= i <= j < |c| && c[i].Source? ensures c[j].alias !in NamesIn(ReadsOfItem(c[i])) {
      if i < |a| <= j {
        assert c[j].alias in Aliases(b) by { assert c[j] == b[j - |a|]; }
      } else if |a| <= i {
        assert c[i] == b[i - |a|] && c[j] == b[j - |a|];
      }
    }
  }

  lemma WellFormedPart(items: seq<Item>, lo: nat, hi: nat)
    requires WellFormedItems(items) && lo <= hi <= |items|
    ensures WellFormedItems(items[lo..hi])
    ensures Aliases(items[lo..hi]) <= Aliases(items)
    ensures ReadsOfItems(items[lo..hi]) <= ReadsOfItems(items)
    ensures Aliases(items[..lo]) !! Aliases(items[lo..hi])
    ensures forall i :: 0 <= i < lo && items[i].Source? ==> NamesIn(ReadsOfItem(items[i])) !! Aliases(items[lo..hi])
  {
    var part := items[lo..hi];
    forall i | 0 <= i < |part| ensures part[i] == items[lo + i] { }
    forall i | 0 <= i < lo && items[i].Source? ensures NamesIn(ReadsOfItem(items[i])) !! Aliases(part) {
      forall n | n in Aliases(part) ensures n !in NamesIn(ReadsOfItem(items[i])) {
        var j :| 0 <= j < |part| && part[j].alias == n;
        assert items[lo + j].alias == n;
      }
    }
    forall n | n in Aliases(items[..lo]) ensures n !in Aliases(part) {
      var i :| 0 <= i < lo && items[..lo][i].alias == n;
      assert items[i].alias == n;
    }
  }

  lemma ReadsOfConcat(a: seq<Item>, b: seq<Item>)
    ensures ReadsOfItems(a + b) == ReadsOfItems(a) + ReadsOfItems(b)
    ensures Aliases(a + b) == Aliases(a) + Aliases(b)
  {
    var c := a + b;
    forall r | r in ReadsOfItems(a) + ReadsOfItems(b) ensures r in ReadsOfItems(c) {
      if r in ReadsOfItems(a) {
        var i :| 0 <= i < |a| && r in ReadsOfItem(a[i]);
        assert c[i] == a[i];
      } else {
        var i :| 0 <= i < |b| && r in ReadsOfItem(b[i]);
        assert c[|a| + i] == b[i];
      }
    }
    forall n | n in Aliases(a) + Aliases(b) ensures n in Aliases(c) {
      if n in Aliases(a) {
        var i :| 0 <= i < |a| && a[i].alias == n;
        assert c[i] == a[i];
      } else {
        var i :| 0 <= i < |b| && b[i].alias == n;
        assert c[|a| + i] == b[i];
      }
    }
  }

  // An instance

  lemma InstanceReads(r: Renaming, e: Expr, n: string, p: seq<string>)
    requires r.Covers(Reads(e)) && BindingsApart(r)
    requires (n, p) in Reads(Rewrite(e, r.Reading()))
    ensures (exists b :: b in NamesIn(Reads(e)) && b in r.mapping && r.mapping[b] == n)
         || (exists q :: q in r.bindings && n in NamesIn(Reads(r.bindings[q])))
  {
    RewriteReads(e, r.Reading(), n, p);
    var read :| read in Reads(e) && (n, p) in Reads(r.Reading()(read.0, read.1));
    assert (n, p).0 in NamesIn(Reads(r.Reading()(read.0, read.1)));
    if read.0 in r.mapping {
      assert r.mapping[read.0] in r.mapping.Values;
      assert r.Reading()(read.0, read.1) == Renamed(r.mapping, r.series, read.0, read.1);
      assert read.0 in NamesIn(Reads(e)) && r.mapping[read.0] == n;
    } else {
      assert read.0 in r.bindings && n in NamesIn(Reads(r.bindings[read.0]));
    }
  }

  ghost predicate BindingsApart(r: Renaming)
  {
    r.bindings.Keys !! r.mapping.Keys && r.bindings.Keys !! r.mapping.Values
  }

  /** What an instance reads: its own fresh names and what the arguments read. */
  lemma InstanceNames(fn: Function, mapping: map<string, string>, args: seq<Expr>, known: set<string>, e: Expr,
                      n: string)
    requires WellFormed(fn) && FreshFor(fn, mapping, args, known)
    requires Reads(e) <= ReadsOf(fn.body)
    requires n in NamesIn(Reads(Rewrite(e, RenamingOf(fn, mapping, args).Reading())))
    ensures n in NamesIn(ReadsOfAll(args)) || exists b :: b in NamesIn(Reads(e)) && b in mapping && mapping[b] == n
  {
    var r := RenamingOf(fn, mapping, args);
    InstanceHygienic(fn, mapping, args, known);
    BodyCovered(fn, mapping, args, known);
    var read :| read in Reads(Rewrite(e, r.Reading())) && read.0 == n;
    InstanceReads(r, e, n, read.1);
    if q :| q in r.bindings && n in NamesIn(Reads(r.bindings[q])) {
      BindingReads(fn, args, q);
      assert NamesIn(Reads(r.bindings[q])) <= NamesIn(ReadsOfAll(args));
    }
  }

  lemma RewrittenAllReads(es: seq<Expr>, f: Replacement, read: (string, seq<string>)) returns (i: nat)
    requires read in ReadsOfAll(RewriteAll(es, f))
    ensures i < |es| && read in Reads(Rewrite(es[i], f))
  {
    i :| 0 <= i < |es| && read in Reads(RewriteAll(es, f)[i]);
  }

  lemma InstanceWellFormed(fn: Function, mapping: map<string, string>, args: seq<Expr>, known: set<string>)
    requires WellFormed(fn) && FreshFor(fn, mapping, args, known)
    ensures WellFormedItems(Instance(fn, mapping, args).items)
    ensures Aliases(Instance(fn, mapping, args).items) <= mapping.Values
  {
    var items' := Instance(fn, mapping, args).items;
    InstanceAliases(fn, mapping, args, known);
    forall i, j | 0 <= i <= j < |items'| && items'[i].Source?
      ensures items'[j].alias !in NamesIn(ReadsOfItem(items'[i]))
    {
      forall read | read in ReadsOfItem(items'[i]) ensures read.0 != items'[j].alias {
        InstanceRead(fn, mapping, args, known, i, j, read);
      }
    }
  }

  lemma InstanceAliases(fn: Function, mapping: map<string, string>, args: seq<Expr>, known: set<string>)
    requires WellFormed(fn) && FreshFor(fn, mapping, args, known)
    ensures var items, items' := fn.body.items, Instance(fn, mapping, args).items;
      && Distinct(items')
      && (forall i :: 0 <= i < |items| ==>
            && items[i].alias in mapping && items'[i].alias == mapping[items[i].alias]
            && items'[i].alias in mapping.Values
            && (items'[i].Call? ==> WellFormed(items'[i].fn)))
  {
    var items, items' := fn.body.items, Instance(fn, mapping, args).items;
    forall i | 0 <= i < |items|
      ensures items[i].alias in mapping && items'[i].alias == mapping[items[i].alias]
      ensures items'[i].alias in mapping.Values
      ensures items'[i].Call? ==> WellFormed(items'[i].fn)
    {
      assert items[i].alias in Aliases(items);
      if items'[i].Call? {
        assert WellFormed(items[i].fn);
      }
    }
    forall i, j | 0 <= i < j < |items'| ensures items'[i].alias != items'[j].alias {
      assert items[i].alias != items[j].alias;
    }
  }

  /** A table of an instance reads nothing bound by itself or to its right. */
  lemma InstanceRead(fn: Function, mapping: map<string, string>, args: seq<Expr>, known: set<string>, i: nat, j: nat,
                     read: (string, seq<string>))
    requires WellFormed(fn) && FreshFor(fn, mapping, args, known)
    requires i <= j < |fn.body.items| && fn.body.items[i].Source? && fn.body.items[j].alias in mapping
    requires read in ReadsOfItem(Instance(fn, mapping, args).items[i])
    ensures read.0 != mapping[fn.body.items[j].alias]
  {
    var r := RenamingOf(fn, mapping, args);
    var items := fn.body.items;
    var k := RewrittenAllReads(items[i].args, r.Reading(), read);
    ItemReads(fn.body, i, k);
    InstanceNames(fn, mapping, args, known, items[i].args[k], read.0);
    assert mapping[items[j].alias] in mapping.Values;
    assert NamesIn(Reads(items[i].args[k])) <= NamesIn(ReadsOfItem(items[i]));
  }

  lemma ItemReads(q: Query, i: nat, k: nat)
    requires i < |q.items| && !q.items[i].Derived? && k < |q.items[i].args|
    ensures Reads(q.items[i].args[k]) <= ReadsOfItem(q.items[i]) <= ReadsOf(q)
  {
    assert ReadsOfItem(q.items[i]) <= ReadsOfItems(q.items);
  }

  lemma InstanceHosted(fn: Function, mapping: map<string, string>, args: seq<Expr>, known: set<string>)
    requires WellFormed(fn) && FreshFor(fn, mapping, args, known)
    ensures Hosted(Instance(fn, mapping, args), known + mapping.Values)
    ensures NamesIn(ReadsOf(Instance(fn, mapping, args))) <= NamesIn(ReadsOfAll(args)) + mapping.Values
    ensures Aliases(Instance(fn, mapping, args).items) <= mapping.Values
  {
    var r := RenamingOf(fn, mapping, args);
    var f := r.Reading();
    var q, q' := fn.body, Instance(fn, mapping, args);
    InstanceWellFormed(fn, mapping, args, known);
    forall read | read in ReadsOf(q') ensures read.0 in NamesIn(ReadsOfAll(args)) + mapping.Values {
      var e := OriginalOf(q, q', mapping, f, read);
      InstanceNames(fn, mapping, args, known, e, read.0);
      if b :| b in NamesIn(Reads(e)) && b in mapping && mapping[b] == read.0 {
        assert mapping[b] in mapping.Values;
      }
    }
  }

  /** The expression of the body a read of its instance came of. */
  lemma OriginalOf(q: Query, q': Query, mapping: map<string, string>, f: Replacement, read: (string, seq<string>))
    returns (e: Expr)
    requires q' == Query(InstanceItems(q.items, mapping, f), RewriteWhere(q.where, f), RewriteProjections(q.projections, f))
    requires read in ReadsOf(q')
    ensures Reads(e) <= ReadsOf(q) && read in Reads(Rewrite(e, f))
  {
    if read in ReadsOfItems(q'.items) {
      var i :| 0 <= i < |q'.items| && read in ReadsOfItem(q'.items[i]);
      var k := RewrittenAllReads(q.items[i].args, f, read);
      e := q.items[i].args[k];
      ItemReads(q, i, k);
    } else if read in ReadsOfWhere(q'.where) {
      e := q.where.value;
    } else {
      var i :| 0 <= i < |q'.projections| && read in Reads(q'.projections[i].expr);
      e := q.projections[i].expr;
      assert Reads(e) <= ReadsOfProjections(q.projections);
    }
  }

  // A splice

  /** The body a lateral call's instance became, ready for the call's place. */
  ghost predicate ReadyBody(host: Query, at: nat, body: Query, known: set<string>, known': set<string>)
    requires at < |host.items| && host.items[at].Call?
  {
    && known <= known'
    && Hosted(body, known') && CallFree(body.items)
    && Aliases(body.items) <= known' - known
    && NamesIn(ReadsOf(body)) <= NamesIn(ReadsOfAll(host.items[at].args)) + (known' - known)
  }

  /** `_lateral_reads` passed: no argument reads a name bound to the right, and
      `_read_lateral` will: every read of the call is of one of its columns. */
  ghost predicate Checked(host: Query, at: nat, body: Query)
    requires at < |host.items| && host.items[at].Call?
  {
    && (forall i :: 0 <= i < at ==> !host.items[i].Call?)
    && NamesIn(ReadsOfAll(host.items[at].args)) !! Aliases(host.items[at..])
    && ReadsColumns(ReadsOf(host), host.items[at].alias, ColumnsOf(body))
  }

  lemma ColumnReads(body: Query, c: string)
    requires c in ColumnsOf(body)
    ensures Reads(ColumnsOf(body)[c]) <= ReadsOfProjections(body.projections)
  {
    var names, es := Header(body.projections), ProjectionExprs(body.projections);
    ColumnsFrom(names, es, c);
    var i :| 0 <= i < |es| && names[i] == c && Columns(names, es)[c] == es[i];
    assert es[i] == body.projections[i].expr;
  }

  /** What a host expression reads after `_read_lateral`. */
  lemma LateralNames(body: Query, alias: string, e: Expr, n: string)
    requires ReadsColumns(Reads(e), alias, ColumnsOf(body))
    requires n in NamesIn(Reads(Rewrite(e, LateralRead(alias, ColumnsOf(body)))))
    ensures (n in NamesIn(Reads(e)) && n != alias) || n in NamesIn(ReadsOfProjections(body.projections))
  {
    var columns := ColumnsOf(body);
    var f := LateralRead(alias, columns);
    var read :| read in Reads(Rewrite(e, f)) && read.0 == n;
    RewriteReads(e, f, n, read.1);
    var was :| was in Reads(e) && (n, read.1) in Reads(f(was.0, was.1));
    if was.0 == alias {
      var c := was.1[0];
      ColumnReads(body, c);
      assert (n, read.1).0 in NamesIn(Reads(f(was.0, was.1)));
      assert NamesIn(Reads(f(was.0, was.1))) == NamesIn(Reads(columns[c]));
      assert NamesIn(Reads(columns[c])) <= NamesIn(ReadsOfProjections(body.projections));
    } else {
      assert f(was.0, was.1) == Read(was.0, was.1);
      assert was.0 == n;
    }
  }

  /** FROM items after `_read_lateral`: the same aliases and the same calls,
      reading no more than before and what the body's projections read. */
  lemma LateralItems(items: seq<Item>, body: Query, alias: string)
    requires WellFormedItems(items) && ReadsColumns(ReadsOfItems(items), alias, ColumnsOf(body))
    requires NamesIn(ReadsOfProjections(body.projections)) !! Aliases(items)
    ensures var f := LateralRead(alias, ColumnsOf(body));
      && WellFormedItems(RewriteItems(items, f))
      && Aliases(RewriteItems(items, f)) == Aliases(items)
      && NamesIn(ReadsOfItems(RewriteItems(items, f)))
           <= NamesIn(ReadsOfItems(items)) + NamesIn(ReadsOfProjections(body.projections))
  {
    var f := LateralRead(alias, ColumnsOf(body));
    var items' := RewriteItems(items, f);
    forall i | 0 <= i < |items| ensures items'[i].alias == items[i].alias { }
    forall n | n in Aliases(items) ensures n in Aliases(items') {
      var i :| 0 <= i < |items| && items[i].alias == n;
      assert items'[i].alias == n;
    }
    forall i | 0 <= i < |items| && items'[i].Call?
      ensures WellFormed(items'[i].fn)
    {
      assert WellFormed(items[i].fn);
    }
    forall i, read | 0 <= i < |items| && read in ReadsOfItem(items'[i])
      ensures read.0 in NamesIn(ReadsOfItem(items[i])) + NamesIn(ReadsOfProjections(body.projections))
    {
      var k := RewrittenAllReads(items[i].args, f, read);
      assert Reads(items[i].args[k]) <= ReadsOfItem(items[i]) <= ReadsOfItems(items);
      assert read.0 in NamesIn(Reads(Rewrite(items[i].args[k], f)));
      LateralNames(body, alias, items[i].args[k], read.0);
    }
    forall i, j | 0 <= i <= j < |items'| && items'[i].Source?
      ensures items'[j].alias !in NamesIn(ReadsOfItem(items'[i]))
    {
      assert items[j].alias in Aliases(items);
    }
    assert forall i, read :: 0 <= i < |items| && read in ReadsOfItem(items'[i]) ==> ReadsOfItem(items[i]) <= ReadsOfItems(items);
  }

  lemma RestApart(host: Query, at: nat, body: Query, known: set<string>, known': set<string>)
    requires Hosted(host, known) && at < |host.items| && host.items[at].Call?
    requires ReadyBody(host, at, body, known, known') && Checked(host, at, body)
    ensures NamesIn(ReadsOf(body)) !! Aliases(host.items[at + 1..])
    ensures Aliases(host.items[at + 1..]) <= Aliases(host.items)
    ensures ReadsOfItems(host.items[at + 1..]) <= ReadsOfItems(host.items)
  {
    var rest := host.items[at + 1..];
    WellFormedPart(host.items, at + 1, |host.items|);
    assert host.items[at + 1..|host.items|] == rest;
    assert Aliases(rest) <= Aliases(host.items[at..]) by { assert rest == host.items[at..][1..]; }
  }

  /** The body's items and the rewritten ones to the call's right. */
  lemma TailItems(host: Query, at: nat, body: Query, known: set<string>, known': set<string>)
    requires Hosted(host, known) && at < |host.items| && host.items[at].Call?
    requires ReadyBody(host, at, body, known, known') && Checked(host, at, body)
    ensures var rest := host.items[at + 1..];
      var tail := body.items + RewriteItems(rest, LateralRead(host.items[at].alias, ColumnsOf(body)));
      && WellFormedItems(tail)
      && Aliases(tail) == Aliases(body.items) + Aliases(rest)
      && NamesIn(ReadsOfItems(tail)) <= NamesIn(ReadsOfItems(rest)) + NamesIn(ReadsOf(body))
  {
    var alias := host.items[at].alias;
    var f := LateralRead(alias, ColumnsOf(body));
    var rest := host.items[at + 1..];
    RestApart(host, at, body, known, known');
    WellFormedPart(host.items, at + 1, |host.items|);
    assert host.items[at + 1..|host.items|] == rest;
    BodyNames(body, known');
    assert ReadsColumns(ReadsOfItems(rest), alias, ColumnsOf(body));
    assert NamesIn(ReadsOfItems(body.items)) <= NamesIn(ReadsOf(body));
    assert NamesIn(ReadsOfProjections(body.projections)) <= NamesIn(ReadsOf(body));
    assert Aliases(body.items) !! Aliases(rest);
    hide *;
    LateralItems(rest, body, alias);
    TailJoined(body.items, RewriteItems(rest, f), rest, NamesIn(ReadsOf(body)));
  }

  lemma BodyNames(body: Query, known: set<string>)
    requires Hosted(body, known)
    ensures WellFormedItems(body.items)
    ensures forall i :: 0 <= i < |body.items| ==> NamesIn(ReadsOfItem(body.items[i])) <= NamesIn(ReadsOf(body))
  {
    forall i | 0 <= i < |body.items| ensures NamesIn(ReadsOfItem(body.items[i])) <= NamesIn(ReadsOf(body)) {
      assert ReadsOfItem(body.items[i]) <= ReadsOfItems(body.items);
    }
  }

  lemma TailJoined(items: seq<Item>, rest': seq<Item>, rest: seq<Item>, names: set<string>)
    requires WellFormedItems(items) && WellFormedItems(rest') && Aliases(rest') == Aliases(rest)
    requires Aliases(items) !! Aliases(rest) && names !! Aliases(rest)
    requires forall i :: 0 <= i < |items| ==> NamesIn(ReadsOfItem(items[i])) <= names
    requires NamesIn(ReadsOfItems(rest')) <= NamesIn(ReadsOfItems(rest)) + names
    requires NamesIn(ReadsOfItems(items)) <= names
    ensures WellFormedItems(items + rest')
    ensures Aliases(items + rest') == Aliases(items) + Aliases(rest)
    ensures NamesIn(ReadsOfItems(items + rest')) <= NamesIn(ReadsOfItems(rest)) + names
  {
    hide WellFormedItems, ReadsOfItem, ReadsOfItems, Aliases;
    WellFormedConcat(items, rest');
    ReadsOfConcat(items, rest');
  }

  function Tail(host: Query, at: nat, body: Query): seq<Item>
    requires at < |host.items|
  {
    body.items + RewriteItems(host.items[at + 1..], LateralRead(host.items[at].alias, ColumnsOf(body)))
  }

  lemma SplicedShape(host: Query, at: nat, body: Query)
    requires WellFormedItems(host.items) && at < |host.items|
    requires forall i :: 0 <= i < at ==> !host.items[i].Call?
    ensures Spliced(host, at, body).items == host.items[..at] + Tail(host, at, body)
  {
    NotReadBefore(host, at);
    ItemsUntouched(host.items[..at], LateralRead(host.items[at].alias, ColumnsOf(body)), host.items[at].alias);
  }

  lemma SplicedItems(host: Query, at: nat, body: Query, known: set<string>, known': set<string>)
    requires Hosted(host, known) && at < |host.items| && host.items[at].Call?
    requires ReadyBody(host, at, body, known, known') && Checked(host, at, body)
    ensures WellFormedItems(host.items[..at] + Tail(host, at, body))
  {
    TailItems(host, at, body, known, known');
    RestApart(host, at, body, known, known');
    PrefixApart(host, at, known);
    PrefixJoined(host.items[..at], Tail(host, at, body), Aliases(body.items), Aliases(host.items[at + 1..]), known);
  }

  lemma SplicedNames(host: Query, at: nat, body: Query, known: set<string>, known': set<string>)
    requires Hosted(host, known) && at < |host.items| && host.items[at].Call?
    requires ReadyBody(host, at, body, known, known') && Checked(host, at, body)
    ensures Aliases(host.items[..at] + Tail(host, at, body)) <= Aliases(host.items) + Aliases(body.items)
    ensures NamesIn(ReadsOfItems(host.items[..at] + Tail(host, at, body)))
         <= NamesIn(ReadsOfItems(host.items)) + NamesIn(ReadsOf(body))
  {
    TailItems(host, at, body, known, known');
    RestApart(host, at, body, known, known');
    PrefixApart(host, at, known);
    NamesJoined(host.items[..at], Tail(host, at, body), host.items, NamesIn(ReadsOf(body)), Aliases(body.items));
  }

  lemma NamesJoined(a: seq<Item>, b: seq<Item>, items: seq<Item>, names: set<string>, aliases: set<string>)
    requires Aliases(a) <= Aliases(items) && ReadsOfItems(a) <= ReadsOfItems(items)
    requires Aliases(b) <= Aliases(items) + aliases && NamesIn(ReadsOfItems(b)) <= NamesIn(ReadsOfItems(items)) + names
    ensures Aliases(a + b) <= Aliases(items) + aliases
    ensures NamesIn(ReadsOfItems(a + b)) <= NamesIn(ReadsOfItems(items)) + names
  {
    ReadsOfConcat(a, b);
  }

  lemma PrefixJoined(prefix: seq<Item>, tail: seq<Item>, inner: set<string>, outer: set<string>, known: set<string>)
    requires WellFormedItems(prefix) && WellFormedItems(tail)
    requires Aliases(tail) == inner + outer && inner !! known
    requires Aliases(prefix) <= known && Aliases(prefix) !! outer
    requires forall i :: 0 <= i < |prefix| && prefix[i].Source? ==>
      NamesIn(ReadsOfItem(prefix[i])) !! outer && NamesIn(ReadsOfItem(prefix[i])) <= known
    ensures WellFormedItems(prefix + tail)
  {
    WellFormedConcat(prefix, tail);
  }

  lemma PrefixApart(host: Query, at: nat, known: set<string>)
    requires Hosted(host, known) && at < |host.items|
    ensures WellFormedItems(host.items[..at])
    ensures Aliases(host.items[..at]) <= Aliases(host.items)
    ensures ReadsOfItems(host.items[..at]) <= ReadsOfItems(host.items)
    ensures Aliases(host.items[..at]) !! Aliases(host.items[at + 1..])
    ensures forall i :: 0 <= i < at && host.items[i].Source? ==>
      && NamesIn(ReadsOfItem(host.items[i])) !! Aliases(host.items[at + 1..])
      && NamesIn(ReadsOfItem(host.items[i])) <= known
  {
    WellFormedPart(host.items, 0, at);
    WellFormedPart(host.items, at + 1, |host.items|);
    assert host.items[0..at] == host.items[..at];
    assert host.items[at + 1..|host.items|] == host.items[at + 1..];
    forall n | n in Aliases(host.items[..at]) ensures n in Aliases(host.items[..at + 1]) {
      var i :| 0 <= i < at && host.items[..at][i].alias == n;
      assert host.items[..at + 1][i].alias == n;
    }
    forall i | 0 <= i < at ensures NamesIn(ReadsOfItem(host.items[i])) <= known {
      assert ReadsOfItem(host.items[i]) <= ReadsOfItems(host.items);
      assert NamesIn(ReadsOfItem(host.items[i])) <= NamesIn(ReadsOf(host));
    }
  }

  /** Nothing to the call's left reads it. */
  lemma NotReadBefore(host: Query, at: nat)
    requires WellFormedItems(host.items) && at < |host.items|
    requires forall i :: 0 <= i < at ==> !host.items[i].Call?
    ensures host.items[at].alias !in NamesIn(ReadsOfItems(host.items[..at]))
  {
    var prefix := host.items[..at];
    forall read | read in ReadsOfItems(prefix) ensures read.0 != host.items[at].alias {
      var i :| 0 <= i < |prefix| && read in ReadsOfItem(prefix[i]);
      assert prefix[i] == host.items[i] && read.0 in NamesIn(ReadsOfItem(host.items[i]));
    }
  }

  lemma ConjoinedReads(host: Option<Expr>, body: Option<Expr>)
    ensures ReadsOfWhere(Conjoined(host, body)) == ReadsOfWhere(host) + ReadsOfWhere(body)
  {
    if body.Some? {
      var conjunct := if body.value.Or? then Paren(body.value) else body.value;
      assert Reads(conjunct) == Reads(body.value);
    }
  }

  lemma SplicedWhere(host: Query, at: nat, body: Query)
    requires at < |host.items| && host.items[at].Call? && Checked(host, at, body)
    ensures NamesIn(ReadsOfWhere(Spliced(host, at, body).where)) <= NamesIn(ReadsOf(host)) + NamesIn(ReadsOf(body))
  {
    var alias := host.items[at].alias;
    var f := LateralRead(alias, ColumnsOf(body));
    ConjoinedReads(RewriteWhere(host.where, f), body.where);
    forall read | read in ReadsOfWhere(Spliced(host, at, body).where)
      ensures read.0 in NamesIn(ReadsOf(host)) + NamesIn(ReadsOf(body))
    {
      if read in ReadsOfWhere(RewriteWhere(host.where, f)) {
        assert read.0 in NamesIn(Reads(Rewrite(host.where.value, f)));
        LateralNames(body, alias, host.where.value, read.0);
      }
    }
  }

  lemma SplicedProjections(host: Query, at: nat, body: Query)
    requires at < |host.items| && host.items[at].Call? && Checked(host, at, body)
    ensures NamesIn(ReadsOfProjections(Spliced(host, at, body).projections)) <= NamesIn(ReadsOf(host)) + NamesIn(ReadsOf(body))
    ensures Header(Spliced(host, at, body).projections) == Header(host.projections)
  {
    var alias := host.items[at].alias;
    var f := LateralRead(alias, ColumnsOf(body));
    var ps, ps' := host.projections, Spliced(host, at, body).projections;
    forall read | read in ReadsOfProjections(ps') ensures read.0 in NamesIn(ReadsOf(host)) + NamesIn(ReadsOf(body)) {
      var i :| 0 <= i < |ps'| && read in Reads(ps'[i].expr);
      assert Reads(ps[i].expr) <= ReadsOfProjections(ps) <= ReadsOf(host);
      assert read.0 in NamesIn(Reads(Rewrite(ps[i].expr, f)));
      LateralNames(body, alias, ps[i].expr, read.0);
    }
    forall i | 0 <= i < |ps| ensures NameOf(ps'[i]) == NameOf(ps[i]) { }
  }

  /** A splice leaves a query like the one it was made in: well formed, its
      names all taken, and the call's alias gone. */
  lemma SplicedHosted(host: Query, at: nat, body: Query, known: set<string>, known': set<string>)
    requires Hosted(host, known) && at < |host.items| && host.items[at].Call?
    requires ReadyBody(host, at, body, known, known') && Checked(host, at, body)
    ensures Hosted(Spliced(host, at, body), known') && Grown(host, Spliced(host, at, body), known, known')
  {
    SplicedShape(host, at, body);
    SplicedItems(host, at, body, known, known');
    SplicedNames(host, at, body, known, known');
    SplicedWhere(host, at, body);
    SplicedProjections(host, at, body);
    ArgumentNames(host, at);
    NamesOfQuery(Spliced(host, at, body), NamesIn(ReadsOf(host)) + NamesIn(ReadsOf(body)));
    assert NamesIn(ReadsOfItems(host.items)) <= NamesIn(ReadsOf(host));
  }

  lemma ArgumentNames(host: Query, at: nat)
    requires at < |host.items| && host.items[at].Call?
    ensures NamesIn(ReadsOfAll(host.items[at].args)) <= NamesIn(ReadsOf(host))
  {
    assert ReadsOfItem(host.items[at]) <= ReadsOfItems(host.items);
  }

  lemma NamesOfQuery(q: Query, names: set<string>)
    requires NamesIn(ReadsOfItems(q.items)) <= names && NamesIn(ReadsOfWhere(q.where)) <= names
    requires NamesIn(ReadsOfProjections(q.projections)) <= names
    ensures NamesIn(ReadsOf(q)) <= names
  {
    forall read | read in ReadsOf(q) ensures read.0 in names {
      assert read.0 in NamesIn(ReadsOfItems(q.items)) || read.0 in NamesIn(ReadsOfWhere(q.where))
          || read.0 in NamesIn(ReadsOfProjections(q.projections));
    }
  }

  /** The checks a splice is made under are the ones its meaning needs. */
  lemma CheckedSpliceable(host: Query, at: nat, body: Query, known: set<string>, known': set<string>)
    requires Hosted(host, known) && at < |host.items| && host.items[at].Call?
    requires ReadyBody(host, at, body, known, known') && Checked(host, at, body)
    requires ItemsKeepNulls(host.items[at + 1..], LateralRead(host.items[at].alias, ColumnsOf(body)))
    ensures Spliceable(host, at, body, known)
  {
    var alias := host.items[at].alias;
    var rest := host.items[at + 1..];
    NotReadBefore(host, at);
    RestApart(host, at, body, known, known');
    forall i | 0 <= i < |rest| && rest[i].Call? ensures DefaultsClosed(rest[i].fn) {
      assert rest[i] == host.items[at + 1 + i];
      CalledClosed(host.items, at + 1 + i);
    }
    assert NamesIn(ReadsOf(Query(rest, host.where, host.projections))) <= NamesIn(ReadsOf(host));
    assert alias in Aliases(host.items);
    assert alias !in Aliases(rest) by {
      forall i | 0 <= i < |rest| ensures rest[i].alias != alias { assert rest[i] == host.items[at + 1 + i]; }
    }
    assert NamesIn(ReadsOfWhere(body.where) + ReadsOfProjections(body.projections)) <= NamesIn(ReadsOf(body));
  }

  // Names of the projections

  /** Inlining a call aliases `tags` no projection but one that read its `tags`. */
  lemma SplicedTags(host: Query, at: nat, body: Query)
    requires at < |host.items| && host.items[at].Call? && CallFree(body.items)
    requires NoLooseTags(host)
    ensures SameTags(host, Spliced(host, at, body)) && NoLooseTags(Spliced(host, at, body))
  {
    var alias := host.items[at].alias;
    var q := Spliced(host, at, body);
    forall n | n in CallAliases(q.items) ensures n in CallAliases(host.items) {
      var i :| 0 <= i < |q.items| && q.items[i].Call? && q.items[i].alias == n;
      var j := if i < at then i else i - |body.items| + 1;
      assert i >= at + |body.items| ==> q.items[i] == RewriteItem(host.items[j], LateralRead(alias, ColumnsOf(body)));
      assert host.items[j].Call? && host.items[j].alias == n;
    }
    forall i | 0 <= i < |host.projections|
      ensures IsTags(q.projections[i]) <==> IsTags(host.projections[i])
      ensures var p := q.projections[i];
        p.name.None? && p.expr.Read? && p.expr.name in CallAliases(q.items) ==> NameOf(p) != TAGS
    {
      var p := host.projections[i];
      assert q.projections[i] == LateralProjection(p, alias, ColumnsOf(body));
      if p.expr.Read? && p.expr.name == alias && p.name.None? {
        assert alias in CallAliases(host.items);
      }
    }
  }
}
