/** What the watch names and what the report blames, put together. */
module WatchedBlame {
  import opened Wrappers
  import opened Watch
  import opened WatchVerdicts
  import opened Blame

  /** The stage ended after `n` polls: the members seen ended left the codes the
      polls read, and only one running then can have been stopped. */
  ghost predicate EndedAfter(e: Ending, stage: Stage, polls: seq<Poll>, n: nat)
    requires n <= |polls|
  {
    && e.ended == After(stage, polls, n).endedAt && e.feeds == stage.feeds && e.writers == stage.writers.Keys
    && (forall id :: id in stage.members ==> exists m :: m in e.results && m.id == id)
    && StoppedLast(e)
    && (forall m :: m in e.results && m.id in e.ended ==> First(polls, m.id) < |polls| && m.exitCode == CodeOf(polls, m.id))
  }

  lemma MemberOf(e: Ending, stage: Stage, polls: seq<Poll>, n: nat, id: string) returns (m: Member)
    requires Clocked(polls) && n <= |polls| && EndedAfter(e, stage, polls, n) && id in stage.members && First(polls, id) < n
    ensures m in e.results && m.id == id && id in e.ended && e.ended[id] == polls[First(polls, id)].now
    ensures !m.terminated && m.exitCode == CodeOf(polls, id)
  {
    hide After, First, Clocked;
    EndedAtIs(stage, polls, n);
    m :| m in e.results && m.id == id;
  }

  /** A stage the watch ended for `x` blames somebody exactly where something
      failed: a producer still running at the watch's end may yet exit 0, and
      then nobody is blamed. Whoever is blamed ended no later than `x`. */
  lemma NamedIsBlamed(e: Ending, stage: Stage, polls: seq<Poll>, n: nat, x: string)
    requires Clocked(polls) && n <= |polls| && EndedAfter(e, stage, polls, n) && After(stage, polls, n).ended == Some(x)
    ensures Attribute(e).0.Some? <==> AnyFailed(e)
    ensures Attribute(e).0.Some? ==> x in e.ended && e.ended[Attribute(e).0.value.id] <= e.ended[x]
    ensures First(polls, x) < |polls| && (CodeOf(polls, x) != 0 ==> Attribute(e).0.Some?)
  {
    hide After, First, NamedAt, LostItsReader, Clocked, EndedAfter;
    var k := NamedMeans(stage, polls, n, x);
    var m := MemberOf(e, stage, polls, n, x);
    CauseMeansFailure(e);
    if CodeOf(polls, x) != 0 {
      assert AnyFailed(e) && Candidate(e, m);
    } else {
      WasWritten(e, stage, polls, n, m);
    }
    assert AnyFailed(e) ==> Candidate(e, m);
  }

  lemma WasWritten(e: Ending, stage: Stage, polls: seq<Poll>, n: nat, m: Member)
    requires Clocked(polls) && n <= |polls| && EndedAfter(e, stage, polls, n)
    requires First(polls, m.id) < n && m.id in e.ended && e.ended[m.id] == polls[First(polls, m.id)].now
    requires CutOff(stage, polls, m.id)
    ensures ProducerWriting(e, m)
  {
    hide First, After, Clocked;
    var p :| Feeds(stage, p, m.id) && First(polls, p) > First(polls, m.id);
    EndedAtIs(stage, polls, n);
    if p in e.ended {
      NeverBack(polls, First(polls, m.id), First(polls, p));
    }
    assert (p, m.id).1 == m.id && WritingAt(e, p, e.ended[m.id]);
  }
}
