/**
Which member a stage's report blames: the first to end with no business
ending, and the members that broke because it did.
*/
module Blame {
  import opened Wrappers

  datatype Member = Member(id: string, exitCode: int, terminated: bool, stderr: string)

  /** How a stage ended. `ended` is when the watch saw each member end; one
      missing was running when the stage was stopped. */
  datatype Ending = Ending(results: seq<Member>, ended: map<string, int>, feeds: seq<(string, string)>,
                           writers: set<string>, windows: bool)

  datatype Report = Report(exitCode: int, failure: Option<Member>, failures: seq<Member>, consequences: seq<Member>)

  const FAILED := 1
  const BROKEN_PIPE: set<int> := {224, 0xFFFFFFE0}
  const PIPE_GONE_WINDOWS := "Error closing file: Invalid argument"

  predicate Contains(s: string, part: string)
  {
    part <= s || (s != "" && Contains(s[1..], part))
  }

  /** Died writing to a pipe nobody was reading. */
  predicate BrokenPipe(e: Ending, m: Member)
  {
    && !m.terminated && m.exitCode != 0
    && (m.exitCode in BROKEN_PIPE || Contains(m.stderr, "Broken pipe")
        || (e.windows && Contains(m.stderr, PIPE_GONE_WINDOWS)))
  }

  predicate WritingAt(e: Ending, id: string, when: int)
  {
    id !in e.ended || e.ended[id] >= when
  }

  /** Something failed; a writer the stage stopped did not. */
  predicate AnyFailed(e: Ending)
  {
    exists m :: m in e.results && if m.terminated then m.id !in e.writers else m.exitCode != 0
  }

  predicate ProducerWriting(e: Ending, m: Member)
    requires m.id in e.ended
  {
    exists f :: f in e.feeds && f.1 == m.id && WritingAt(e, f.0, e.ended[m.id])
  }

  /** It ended by itself, and had no business ending. */
  predicate Candidate(e: Ending, m: Member)
  {
    && m.id in e.ended && !m.terminated
    && (m.exitCode != 0 || (AnyFailed(e) && ProducerWriting(e, m)))
  }

  /** First in time, and of two in one poll a broken pipe last. */
  predicate Sooner(e: Ending, a: Member, b: Member)
    requires a.id in e.ended && b.id in e.ended
  {
    e.ended[a.id] < e.ended[b.id] || (e.ended[a.id] == e.ended[b.id] && !BrokenPipe(e, a) && BrokenPipe(e, b))
  }

  /** The soonest candidate, the first listed of equals. */
  function Cause(e: Ending, results: seq<Member>): (cause: Option<Member>)
    ensures cause.Some? ==> cause.value in results && Candidate(e, cause.value)
    ensures cause.Some? ==> forall m :: m in results && Candidate(e, m) ==> !Sooner(e, m, cause.value)
    ensures cause.None? ==> forall m :: m in results ==> !Candidate(e, m)
  {
    if results == [] then None
    else
      var last := results[|results| - 1];
      var before := Cause(e, results[..|results| - 1]);
      if Candidate(e, last) && (before.None? || Sooner(e, last, before.value)) then Some(last) else before
  }

  predicate IsConsequence(e: Ending, cause: Member, m: Member)
    requires cause.id in e.ended
  {
    m.id != cause.id && BrokenPipe(e, m) && (m.id !in e.ended || e.ended[m.id] >= e.ended[cause.id])
  }

  function Consequences(e: Ending, cause: Member, results: seq<Member>): (those: seq<Member>)
    requires cause.id in e.ended
    ensures forall m :: m in those <==> m in results && IsConsequence(e, cause, m)
  {
    if results == [] then []
    else
      var last := results[|results| - 1];
      Consequences(e, cause, results[..|results| - 1]) + (if IsConsequence(e, cause, last) then [last] else [])
  }

  /** The cause and the members that broke because of it (`_attribute`). */
  function Attribute(e: Ending): (Option<Member>, seq<Member>)
  {
    var cause := Cause(e, e.results);
    (cause, if cause.None? then [] else Consequences(e, cause.value, e.results))
  }

  function Ids(members: seq<Member>): set<string>
  {
    set m | m in members :: m.id
  }

  function Failing(results: seq<Member>, blamed: set<string>): (failing: seq<Member>)
    ensures forall m :: m in failing <==> m in results && m.exitCode != 0 && !m.terminated && m.id !in blamed
  {
    if results == [] then []
    else
      var last := results[|results| - 1];
      Failing(results[..|results| - 1], blamed) +
      (if last.exitCode != 0 && !last.terminated && last.id !in blamed then [last] else [])
  }

  function Named(results: seq<Member>, id: string): (named: seq<Member>)
    ensures forall m :: m in named <==> m in results && m.id == id
  {
    if results == [] then []
    else (if results[0].id == id then [results[0]] else []) + Named(results[1..], id)
  }

  /** `failed` is the member the watch named, or that was running at a timeout. */
  function StageResult(e: Ending, failed: Option<string>, timedOut: bool, wedged: bool): Report
  {
    if timedOut then
      var failures := if failed.None? then [] else Named(e.results, failed.value);
      Report(if failures == [] && !wedged then 0 else FAILED,
             if failures == [] then None else Some(failures[0]), failures, [])
    else if failed.Some? then
      var (cause, consequences) := Attribute(e);
      var failing := Failing(e.results, Ids(consequences));
      Report(if cause.None? then 0 else if cause.value.exitCode != 0 then cause.value.exitCode else FAILED,
             cause,
             if cause.Some? && cause.value.id !in Ids(failing) then [cause.value] + failing else failing,
             consequences)
    else Report(0, None, [], [])
  }

  /** At a timeout the members still running are the failures, nobody is a
      consequence, and the code says whether there is one or a wedge. */
  lemma TimedOut(e: Ending, failed: Option<string>, wedged: bool)
    ensures var report := StageResult(e, failed, true, wedged);
      && (report.exitCode == 0 <==> report.failure.None? && !wedged) && report.consequences == []
      && (forall m :: m in report.failures <==> m in e.results && failed == Some(m.id))
      && (report.failure.Some? <==> exists m :: m in e.results && failed == Some(m.id))
  {
    var report := StageResult(e, failed, true, wedged);
    if report.failure.Some? {
      assert report.failure.value in report.failures;
    }
  }

  // Never a victim

  /** No member feeds itself by way of the others. */
  ghost predicate Acyclic(feeds: seq<(string, string)>)
  {
    exists rank: string -> nat :: Descends(feeds, rank)
  }

  ghost predicate Descends(feeds: seq<(string, string)>, rank: string -> nat)
  {
    forall f :: f in feeds ==> rank(f.1) < rank(f.0)
  }

  /** The stage stops only members still running, once the watch, which alone
      records when one ended, is over (`_watch`, `_stop`). */
  predicate StoppedLast(e: Ending)
  {
    forall m :: m in e.results && m.terminated ==> m.id !in e.ended
  }

  /** A reader of `m` seen ended no later than it. */
  predicate ReadUpTo(e: Ending, m: Member, reader: Member)
  {
    && reader in e.results && (m.id, reader.id) in e.feeds
    && m.id in e.ended && reader.id in e.ended && e.ended[reader.id] <= e.ended[m.id]
  }

  /** Every broken pipe had a reader that went first. */
  ghost predicate PipesBreakInOrder(e: Ending)
  {
    forall m :: m in e.results && m.id in e.ended && BrokenPipe(e, m) ==> exists r :: ReadUpTo(e, m, r)
  }

  /** Downstream of a broken pipe some member ended no later and is no broken pipe. */
  lemma {:induction false} Downstream(e: Ending, rank: string -> nat, m: Member) returns (d: Member)
    requires Descends(e.feeds, rank) && StoppedLast(e) && PipesBreakInOrder(e)
    requires m in e.results && m.id in e.ended && BrokenPipe(e, m)
    ensures d in e.results && Candidate(e, d) && !BrokenPipe(e, d) && e.ended[d.id] <= e.ended[m.id]
    decreases rank(m.id)
  {
    var r :| ReadUpTo(e, m, r);
    if BrokenPipe(e, r) {
      d := Downstream(e, rank, r);
    } else {
      d := r;
      assert AnyFailed(e);
      assert (m.id, r.id).1 == r.id && WritingAt(e, m.id, e.ended[r.id]);
    }
  }

  /** Blame is never put on a victim. */
  lemma NeverAVictim(e: Ending)
    requires Acyclic(e.feeds) && StoppedLast(e) && PipesBreakInOrder(e)
    ensures var cause := Attribute(e).0; cause.Some? ==> !BrokenPipe(e, cause.value)
  {
    var rank: string -> nat :| Descends(e.feeds, rank);
    var cause := Attribute(e).0;
    if cause.Some? && BrokenPipe(e, cause.value) {
      var d := Downstream(e, rank, cause.value);
      assert Sooner(e, d, cause.value);
    }
  }

  // Who is named, and when

  /** A stage names a cause only where something failed. */
  lemma CauseMeansFailure(e: Ending)
    ensures Attribute(e).0.Some? ==> AnyFailed(e)
  {
  }

  /** A stage whose members all exited 0, none of them stopped, names nobody. */
  lemma AllWell(e: Ending, failed: Option<string>)
    requires forall m :: m in e.results ==> m.exitCode == 0 && !m.terminated
    ensures StageResult(e, failed, false, false) == Report(0, None, [], [])
  {
    CauseMeansFailure(e);
    if failed.Some? {
      assert Failing(e.results, {}) == [] by {
        if Failing(e.results, {}) != [] {
          assert Failing(e.results, {})[0] in Failing(e.results, {});
          assert false;
        }
      }
      assert Ids([]) == {};
    }
  }

  predicate DistinctIds(results: seq<Member>)
  {
    forall a, b :: a in results && b in results && a.id == b.id ==> a == b
  }

  /** Every member that failed by itself is in exactly one of the failures and
      the consequences, the cause among the failures and never among the
      consequences, and the report's code says whether there is a cause. */
  lemma EachOnce(e: Ending, failed: string, m: Member)
    requires DistinctIds(e.results) && m in e.results && m.exitCode != 0 && !m.terminated
    ensures var report := StageResult(e, Some(failed), false, false);
      && (m in report.failures <==> m !in report.consequences)
  {
    var (cause, consequences) := Attribute(e);
    if m.id in Ids(consequences) {
      var c :| c in consequences && c.id == m.id;
      assert c == m;
    }
  }

  lemma CauseReported(e: Ending, failed: string)
    requires DistinctIds(e.results)
    ensures var report := StageResult(e, Some(failed), false, false);
      && (report.failure.Some? ==> report.failure.value in report.failures && report.failure.value !in report.consequences)
      && (report.exitCode == 0 <==> report.failure.None?)
      && (report.failure.Some? ==>
            report.exitCode == if report.failure.value.exitCode != 0 then report.failure.value.exitCode else 1)
      && (forall m :: m in report.failures + report.consequences ==> m in e.results && !m.terminated)
  {
    var (cause, consequences) := Attribute(e);
    var failing := Failing(e.results, Ids(consequences));
    if cause.Some? && cause.value.id in Ids(failing) {
      var f :| f in failing && f.id == cause.value.id;
      assert f == cause.value;
    }
  }

  /** It failed on its own: not stopped, and not for the cause's having gone. */
  predicate OnItsOwn(e: Ending, cause: Member, m: Member)
    requires cause.id in e.ended
  {
    m.exitCode != 0 && !m.terminated && !IsConsequence(e, cause, m)
  }

  /** The first of those failing is the first listed. */
  lemma {:induction false} FirstFailing(results: seq<Member>, blamed: set<string>) returns (j: nat)
    requires Failing(results, blamed) != []
    ensures j < |results| && results[j] == Failing(results, blamed)[0]
    ensures forall i :: 0 <= i < j ==> results[i] !in Failing(results, blamed)
  {
    var before := results[..|results| - 1];
    if Failing(before, blamed) == [] {
      j := |results| - 1;
      forall i | 0 <= i < j ensures results[i] !in Failing(results, blamed) {
        assert results[i] in before && before[i] == results[i];
        assert results[i] !in Failing(before, blamed);
      }
    } else {
      j := FirstFailing(before, blamed);
      assert forall i :: 0 <= i < j ==> before[i] == results[i];
    }
  }

  lemma ListedFirst(results: seq<Member>, blamed: set<string>, m: Member)
    requires m in Failing(results, blamed)
    ensures Failing(results, blamed)[0] == m <==>
      exists j :: 0 <= j < |results| && results[j] == m && forall i :: 0 <= i < j ==> results[i] !in Failing(results, blamed)
  {
    var failing := Failing(results, blamed);
    var first := FirstFailing(results, blamed);
    assert results[first] == failing[0] && failing[0] in failing;
    hide Failing;
    if j :| 0 <= j < |results| && results[j] == m && forall i :: 0 <= i < j ==> results[i] !in failing {
      assert j <= first;
      assert first <= j;
    }
  }

  /** The report has the cause first, as its description has it, exactly when
      the cause exited 0 or no member listed before it failed on its own. */
  lemma CauseFirst(e: Ending, failed: string)
    requires DistinctIds(e.results) && Attribute(e).0.Some?
    ensures var cause := Attribute(e).0.value;
      var report := StageResult(e, Some(failed), false, false);
      && report.failure == Some(cause) && report.failures != []
      && (report.failures[0] == cause <==>
            cause.exitCode == 0
            || exists j :: 0 <= j < |e.results| && e.results[j] == cause
                 && forall i :: 0 <= i < j ==> !OnItsOwn(e, cause, e.results[i]))
  {
    var cause, consequences := Attribute(e).0.value, Attribute(e).1;
    var blamed := Ids(consequences);
    var failing := Failing(e.results, blamed);
    forall m | m in e.results ensures m in failing <==> OnItsOwn(e, cause, m) {
      if m.id in blamed {
        var c :| c in consequences && c.id == m.id;
        assert c == m;
      }
    }
    assert cause in failing <==> cause.exitCode != 0;
    assert cause.id in Ids(failing) <==> cause in failing by {
      if cause.id in Ids(failing) {
        var f :| f in failing && f.id == cause.id;
        assert f == cause;
      }
    }
    assert forall i :: 0 <= i < |e.results| ==> (e.results[i] in failing <==> OnItsOwn(e, cause, e.results[i]));
    hide Failing, OnItsOwn, IsConsequence;
    if cause.exitCode != 0 {
      ListedFirst(e.results, blamed, cause);
    }
  }

  /** The failures stay in the members' order: a cause that exited nonzero is
      not moved to the front. */
  lemma CauseNotFirst()
    ensures var late, early := Member("late", 1, false, ""), Member("early", 1, false, "");
      var e := Ending([late, early], map["late" := 5, "early" := 3], [], {}, false);
      var report := StageResult(e, Some("early"), false, false);
      report.failure == Some(early) && report.failures == [late, early]
  {
    var late, early := Member("late", 1, false, ""), Member("early", 1, false, "");
    var e := Ending([late, early], map["late" := 5, "early" := 3], [], {}, false);
    assert e.results[..1] == [late] && [late][..0] == [];
    assert Cause(e, []) == None && Cause(e, [late]) == Some(late);
    assert !BrokenPipe(e, late) && !BrokenPipe(e, early) by {
      assert |"Broken pipe"| > 0;
    }
    assert Consequences(e, early, []) == [] && Consequences(e, early, [late]) == [] && Consequences(e, early, [late, early]) == [];
    assert Ids([]) == {};
    assert Failing([], {}) == [] && Failing([late], {}) == [late] && Failing([late, early], {}) == [late, early];
  }
}
