/** What the watch's verdict means, over every sequence of polls. */
module WatchVerdicts {
  import opened Wrappers
  import opened Watch

  /** The poll that first saw `m` ended; the number of polls if none did. */
  function First(polls: seq<Poll>, m: string): (k: nat)
    ensures k <= |polls|
    ensures k < |polls| ==> m in polls[k].codes
    ensures forall i :: 0 <= i < k ==> m !in polls[i].codes
  {
    if polls == [] || m in polls[0].codes then 0 else 1 + First(polls[1..], m)
  }

  function CodeOf(polls: seq<Poll>, m: string): int
    requires First(polls, m) < |polls|
  {
    polls[First(polls, m)].codes[m]
  }

  /** A feeder writer that ended once a reader of it had. */
  ghost predicate LostItsReader(stage: Stage, polls: seq<Poll>, m: string)
  {
    m in stage.writers &&
    exists r :: r in stage.writers[m] && r in stage.members && r != m && First(polls, r) <= First(polls, m)
  }

  // Why a member is named

  /** A producer was still running when `x` was seen to exit. */
  ghost predicate CutOff(stage: Stage, polls: seq<Poll>, x: string)
  {
    exists p :: Feeds(stage, p, x) && First(polls, p) > First(polls, x)
  }

  /** By turn `k` a producer has failed: no earlier than `x` was seen to exit,
      unless it is a writer that lost its reader. */
  ghost predicate ProducerFailed(stage: Stage, polls: seq<Poll>, k: nat, x: string)
    requires k < |polls|
  {
    exists p :: Feeds(stage, p, x) && First(polls, p) <= k && CodeOf(polls, p) != 0
      && (First(polls, p) >= First(polls, x) || LostItsReader(stage, polls, p))
  }

  /** At turn `k` a producer is running, `CASCADE` after `x` was seen to exit. */
  ghost predicate ProducerRunsOn(stage: Stage, polls: seq<Poll>, k: nat, x: string)
    requires k < |polls| && First(polls, x) <= k
  {
    && polls[k].now - polls[First(polls, x)].now >= CASCADE
    && exists p :: Feeds(stage, p, x) && First(polls, p) > k
  }

  /** What turn `k` may name `x` for. */
  ghost predicate EndedTheStage(stage: Stage, polls: seq<Poll>, k: nat, x: string)
    requires k < |polls|
  {
    && x in stage.members && First(polls, x) <= k && !LostItsReader(stage, polls, x)
    && if CodeOf(polls, x) != 0 then First(polls, x) == k
       else CutOff(stage, polls, x) && (ProducerFailed(stage, polls, k, x) || ProducerRunsOn(stage, polls, k, x))
  }

  /** A suspect whose producers have not answered by turn `n`. */
  ghost predicate Open(stage: Stage, polls: seq<Poll>, n: nat, x: string)
    requires n <= |polls|
  {
    && x in stage.members && First(polls, x) < n && CodeOf(polls, x) == 0
    && !LostItsReader(stage, polls, x) && CutOff(stage, polls, x)
  }

  // What the state holds after `n` turns

  /** Every failure so far is a writer's that lost its reader. */
  ghost predicate NoFailure(stage: Stage, polls: seq<Poll>, n: nat)
    requires n <= |polls|
  {
    forall m :: m in stage.members && First(polls, m) < n && CodeOf(polls, m) != 0 ==> LostItsReader(stage, polls, m)
  }

  ghost predicate NamedAt(stage: Stage, polls: seq<Poll>, k: nat, x: string)
    requires k < |polls|
  {
    && After(stage, polls, k).ended.None? && After(stage, polls, k + 1).ended == Some(x)
    && After(stage, polls, k + 1).settled == polls[k].now + CASCADE
  }

  /** The time recorded is that of the poll that first saw the member ended. */
  lemma {:induction false} SeenWhen(stage: Stage, polls: seq<Poll>, n: nat, m: string)
    requires Clocked(polls) && n <= |polls|
    ensures m in After(stage, polls, n).endedAt <==> m in stage.members && First(polls, m) < n
    ensures m in After(stage, polls, n).endedAt ==> After(stage, polls, n).endedAt[m] == polls[First(polls, m)].now
  {
    if n > 0 {
      SeenWhen(stage, polls, n - 1, m);
      TurnSees(stage, After(stage, polls, n - 1), polls[n - 1]);
      StaysEnded(polls, m, n - 1);
      assert After(stage, polls, n) == Turned(stage, After(stage, polls, n - 1), polls[n - 1]);
      hide *;
    }
  }

  lemma EndedAtIs(stage: Stage, polls: seq<Poll>, n: nat)
    requires Clocked(polls) && n <= |polls|
    ensures forall m :: m in After(stage, polls, n).endedAt <==> m in stage.members && First(polls, m) < n
    ensures forall m :: m in After(stage, polls, n).endedAt ==> After(stage, polls, n).endedAt[m] == polls[First(polls, m)].now
  {
    hide *;
    forall m
      ensures m in After(stage, polls, n).endedAt <==> m in stage.members && First(polls, m) < n
      ensures m in After(stage, polls, n).endedAt ==> After(stage, polls, n).endedAt[m] == polls[First(polls, m)].now
    {
      SeenWhen(stage, polls, n, m);
    }
  }

  lemma TurnSees(stage: Stage, s: State, poll: Poll)
    ensures Turned(stage, s, poll).endedAt == Seen(stage, s.endedAt, poll)
  {
  }

  lemma StaysEnded(polls: seq<Poll>, m: string, k: nat)
    requires Clocked(polls) && k < |polls|
    ensures m in polls[k].codes <==> First(polls, m) <= k
    ensures First(polls, m) <= k ==> polls[k].codes[m] == CodeOf(polls, m)
  {
    hide Clocked;
    var f := First(polls, m);
    hide First;
    if f < k {
      Persists(polls, f, k, m);
    }
  }

  lemma Persists(polls: seq<Poll>, i: nat, j: nat, m: string)
    requires Clocked(polls) && i < j < |polls| && m in polls[i].codes
    ensures m in polls[j].codes && polls[j].codes[m] == polls[i].codes[m]
  {
  }

  lemma NeverBack(polls: seq<Poll>, i: nat, j: nat)
    requires Clocked(polls) && i <= j < |polls|
    ensures polls[i].now <= polls[j].now
  {
    assert polls[i].now <= polls[i].later;
  }

  /** What one turn's questions ask, in terms of the polls. */
  lemma TurnAsks(stage: Stage, polls: seq<Poll>, k: nat, m: string)
    requires Clocked(polls) && k < |polls|
    ensures var seen := Seen(stage, After(stage, polls, k).endedAt, polls[k]);
      && seen == After(stage, polls, k + 1).endedAt
      && (m in JustEnded(stage.members, After(stage, polls, k).endedAt, polls[k]) <==>
            m in stage.members && First(polls, m) == k)
      && (First(polls, m) == k ==> (ReaderGone(stage, seen, m) <==> LostItsReader(stage, polls, m)))
      && (First(polls, m) == k ==>
            (Failed(stage, seen, polls[k], m) <==> CodeOf(polls, m) != 0 && !LostItsReader(stage, polls, m)))
      && (First(polls, m) == k && m in stage.members ==>
            (Suspicious(stage, seen, polls[k], m) <==> Open(stage, polls, k + 1, m)))
  {
    EndedAtIs(stage, polls, k);
    EndedAtIs(stage, polls, k + 1);
    TurnSees(stage, After(stage, polls, k), polls[k]);
    StaysEnded(polls, m, k);
    hide Turned, After, Seen, Clocked, JustEnded, First;
    var endedAt := After(stage, polls, k + 1).endedAt;
    assert k < |polls| && First(polls, m) == k ==> (ReaderGone(stage, endedAt, m) <==> LostItsReader(stage, polls, m));
  }

  /** A turn's answer about a suspect, in terms of the polls. */
  lemma TurnAnswers(stage: Stage, polls: seq<Poll>, k: nat, x: string)
    requires Clocked(polls) && k < |polls| && Open(stage, polls, k + 1, x) && NoFailure(stage, polls, k)
    requires LeftEarly(stage, After(stage, polls, k + 1).endedAt, polls[k], x) == Some(true)
    ensures EndedTheStage(stage, polls, k, x)
  {
    var endedAt := After(stage, polls, k + 1).endedAt;
    EndedAtIs(stage, polls, k + 1);
    if p :| Feeds(stage, p, x) && p in endedAt && p in polls[k].codes && polls[k].codes[p] != 0 {
      StaysEnded(polls, p, k);
      FailsIt(stage, polls, k, x, p);
    } else {
      RunsOn(stage, polls, k, x, endedAt);
    }
  }

  lemma FailsIt(stage: Stage, polls: seq<Poll>, k: nat, x: string, p: string)
    requires k < |polls| && Open(stage, polls, k + 1, x) && NoFailure(stage, polls, k)
    requires Feeds(stage, p, x) && First(polls, p) <= k && CodeOf(polls, p) != 0
    ensures EndedTheStage(stage, polls, k, x)
  {
    hide First, Feeds, LostItsReader, CutOff;
    assert p in stage.members by { FeedsIs(stage, p, x); }
    assert ProducerFailed(stage, polls, k, x);
  }

  lemma FeedsIs(stage: Stage, p: string, x: string)
    requires Feeds(stage, p, x)
    ensures p in stage.members
  {
  }

  lemma RunsOn(stage: Stage, polls: seq<Poll>, k: nat, x: string, endedAt: map<string, int>)
    requires k < |polls| && Open(stage, polls, k + 1, x) && LeftEarly(stage, endedAt, polls[k], x) == Some(true)
    requires forall m :: m in endedAt <==> m in stage.members && First(polls, m) < k + 1
    requires forall m :: m in endedAt ==> endedAt[m] == polls[First(polls, m)].now
    requires forall p :: Feeds(stage, p, x) && p in endedAt && p in polls[k].codes ==> polls[k].codes[p] == 0
    ensures EndedTheStage(stage, polls, k, x)
  {
    hide First, LostItsReader, CutOff;
    var p :| p in Producers(stage, x) && p !in endedAt;
    assert Feeds(stage, p, x) && First(polls, p) > k;
  }

  /** What holds after `n` turns. */
  ghost predicate Sound(stage: Stage, polls: seq<Poll>, n: nat)
    requires n <= |polls|
  {
    var s := After(stage, polls, n);
    match s.ended
    case None => NoFailure(stage, polls, n) && (s.suspect.Some? ==> Open(stage, polls, n, s.suspect.value))
    case Some(x) => exists k :: 0 <= k < n && NamedAt(stage, polls, k, x) && EndedTheStage(stage, polls, k, x)
  }

  lemma {:induction false} AlwaysSound(stage: Stage, polls: seq<Poll>, n: nat)
    requires Clocked(polls) && n <= |polls|
    ensures Sound(stage, polls, n)
  {
    hide *;
    if n == 0 {
      SoundAtFirst(stage, polls);
    } else {
      AlwaysSound(stage, polls, n - 1);
      if After(stage, polls, n - 1).ended.Some? {
        NamedSound(stage, polls, n - 1);
      } else {
        TurnSound(stage, polls, n - 1);
      }
    }
  }

  lemma SoundAtFirst(stage: Stage, polls: seq<Poll>)
    ensures Sound(stage, polls, 0)
  {
    assert After(stage, polls, 0) == State(map[], None, None, 0);
    assert NoFailure(stage, polls, 0);
  }

  lemma NamedSound(stage: Stage, polls: seq<Poll>, n: nat)
    requires n < |polls| && Sound(stage, polls, n) && After(stage, polls, n).ended.Some?
    ensures Sound(stage, polls, n + 1)
  {
    hide After, EndedTheStage, NamedAt, NoFailure, Open;
    StaysNamed(stage, polls, n);
  }

  lemma StaysNamed(stage: Stage, polls: seq<Poll>, k: nat)
    requires k < |polls| && After(stage, polls, k).ended.Some?
    ensures After(stage, polls, k + 1).ended == After(stage, polls, k).ended
    ensures After(stage, polls, k + 1).settled == After(stage, polls, k).settled
  {
    hide Seen, LeftEarly, JustEnded, FirstFailed, FirstSuspicious;
  }

  /** Whoever is suspected in a turn is open to suspicion after it. */
  lemma TurnSuspects(stage: Stage, polls: seq<Poll>, k: nat, x: string)
    requires Clocked(polls) && k < |polls| && Sound(stage, polls, k) && After(stage, polls, k).ended.None?
    requires Suspect(stage, After(stage, polls, k), polls[k]) == Some(x)
    ensures Open(stage, polls, k + 1, x)
  {
    TurnAsks(stage, polls, k, x);
    hide After, First, Seen, JustEnded, FirstSuspicious, NoFailure, LostItsReader, CutOff, Clocked;
  }

  /** No failure goes by unnamed. */
  lemma TurnFails(stage: Stage, polls: seq<Poll>, k: nat)
    requires Clocked(polls) && k < |polls| && NoFailure(stage, polls, k)
    requires var s := After(stage, polls, k);
      FirstFailed(stage, Seen(stage, s.endedAt, polls[k]), polls[k], JustEnded(stage.members, s.endedAt, polls[k])).None?
    ensures NoFailure(stage, polls, k + 1)
  {
    hide After, First, Seen, JustEnded, FirstFailed, LostItsReader, Clocked;
    forall m | m in stage.members && First(polls, m) < k + 1 && CodeOf(polls, m) != 0
      ensures LostItsReader(stage, polls, m)
    {
      if First(polls, m) == k {
        TurnAsks(stage, polls, k, m);
      }
    }
  }

  lemma FailureEnds(stage: Stage, polls: seq<Poll>, k: nat, x: string)
    requires Clocked(polls) && k < |polls|
    requires var s := After(stage, polls, k);
      FirstFailed(stage, Seen(stage, s.endedAt, polls[k]), polls[k], JustEnded(stage.members, s.endedAt, polls[k])) == Some(x)
    ensures EndedTheStage(stage, polls, k, x)
  {
    TurnAsks(stage, polls, k, x);
    hide After, First, Seen, JustEnded, FirstFailed, LostItsReader, Clocked;
  }

  /** What a turn names, or leaves suspected. */
  lemma TurnNames(stage: Stage, s: State, poll: Poll)
    requires s.ended.None?
    ensures var t := Turned(stage, s, poll);
      var suspect := Suspect(stage, s, poll);
      var failed := FirstFailed(stage, t.endedAt, poll, JustEnded(stage.members, s.endedAt, poll));
      && t.endedAt == Seen(stage, s.endedAt, poll)
      && (t.suspect.Some? ==> t.suspect == suspect)
      && (t.ended.None? ==> failed.None?)
      && (t.ended.Some? ==> t.settled == poll.now + CASCADE)
      && (t.ended.Some? && t.ended != failed ==>
            t.ended == suspect && LeftEarly(stage, t.endedAt, poll, suspect.value) == Some(true))
  {
    hide Suspect, FirstFailed, JustEnded, LeftEarly, Seen;
  }

  lemma TurnSound(stage: Stage, polls: seq<Poll>, k: nat)
    requires Clocked(polls) && k < |polls| && Sound(stage, polls, k) && After(stage, polls, k).ended.None?
    ensures Sound(stage, polls, k + 1)
  {
    TurnNames(stage, After(stage, polls, k), polls[k]);
    assert After(stage, polls, k + 1) == Turned(stage, After(stage, polls, k), polls[k]);
    var t := After(stage, polls, k + 1);
    var suspect := Suspect(stage, After(stage, polls, k), polls[k]);
    hide Suspect, FirstFailed, JustEnded, LeftEarly, Seen, Turned, First, After, NoFailure, Open, EndedTheStage, Clocked;
    if suspect.Some? {
      TurnSuspects(stage, polls, k, suspect.value);
    }
    if t.ended.None? {
      TurnFails(stage, polls, k);
    } else if t.ended == suspect && LeftEarly(stage, t.endedAt, polls[k], suspect.value) == Some(true) {
      TurnAnswers(stage, polls, k, suspect.value);
      assert NamedAt(stage, polls, k, t.ended.value);
    } else {
      FailureEnds(stage, polls, k, t.ended.value);
      assert NamedAt(stage, polls, k, t.ended.value);
    }
  }

  // The verdict

  /** Named once, named for good: it is the turn `k` that named it that counts. */
  lemma {:induction false} NamedForGood(stage: Stage, polls: seq<Poll>, k: nat, x: string, n: nat)
    requires k < n <= |polls| && NamedAt(stage, polls, k, x)
    ensures After(stage, polls, n).ended == Some(x) && After(stage, polls, n).settled == polls[k].now + CASCADE
    decreases n
  {
    hide After;
    if n > k + 1 {
      NamedForGood(stage, polls, k, x, n - 1);
      StaysNamed(stage, polls, n - 1);
    }
  }

  /** The watch ends naming nobody only if every member that is not a feeder
      writer exited 0. */
  lemma NobodyNamed(stage: Stage, polls: seq<Poll>, n: nat, m: string)
    requires Clocked(polls) && 0 < n <= |polls| && Returns(stage, After(stage, polls, n), polls[n - 1])
    requires After(stage, polls, n).ended.None? && m in stage.members && m !in stage.writers
    ensures First(polls, m) < n && CodeOf(polls, m) == 0
  {
    AlwaysSound(stage, polls, n);
    EndedAtIs(stage, polls, n);
    hide After, First, Clocked;
  }

  /** A member the watch names failed, or exited 0 while a producer of it ran
      that failed or still ran `CASCADE` later; it is never a writer that lost
      its reader. */
  lemma NamedMeans(stage: Stage, polls: seq<Poll>, n: nat, x: string) returns (k: nat)
    requires Clocked(polls) && n <= |polls| && After(stage, polls, n).ended == Some(x)
    ensures k < n && NamedAt(stage, polls, k, x) && EndedTheStage(stage, polls, k, x)
  {
    AlwaysSound(stage, polls, n);
    k :| 0 <= k < n && NamedAt(stage, polls, k, x) && EndedTheStage(stage, polls, k, x);
  }

  /** Once a member is named the watch returns within `CASCADE` and the pause
      before one more poll. */
  lemma ReturnsInTime(stage: Stage, polls: seq<Poll>, k: nat, x: string, n: nat, pause: int)
    requires k < n - 1 < |polls| && NamedAt(stage, polls, k, x) && Going(stage, polls, n - 1)
    requires polls[n - 1].now - polls[n - 2].later <= pause
    ensures polls[n - 1].now < polls[k].now + CASCADE + pause
  {
    hide After, NamedAt, Returns;
    NamedForGood(stage, polls, k, x, n - 1);
    assert !Returns(stage, After(stage, polls, n - 1), polls[n - 2]);
    hide *;
    ReturnsIs(stage, After(stage, polls, n - 1), polls[n - 2]);
  }

  /** The watch returns at a turn exactly when every member that is no feeder
      writer has been seen to exit, or the cascade is over since one was named. */
  lemma ReturnsExactly(stage: Stage, polls: seq<Poll>, n: nat)
    requires Clocked(polls) && 0 < n <= |polls|
    ensures Returns(stage, After(stage, polls, n), polls[n - 1]) <==>
      || (forall m :: m in stage.members && m !in stage.writers ==> First(polls, m) < n)
      || exists k, x :: 0 <= k < n && NamedAt(stage, polls, k, x) && polls[n - 1].later >= polls[k].now + CASCADE
  {
    AlwaysSound(stage, polls, n);
    ReturnsIs(stage, After(stage, polls, n), polls[n - 1]);
    EndedAtIs(stage, polls, n);
    var s := After(stage, polls, n);
    hide After, Returns, First, NamedAt, EndedTheStage, NoFailure, Open, Clocked;
    if s.ended.Some? {
      var k :| 0 <= k < n && NamedAt(stage, polls, k, s.ended.value);
      NamedForGood(stage, polls, k, s.ended.value, n);
    }
    if k, x :| 0 <= k < n && NamedAt(stage, polls, k, x) && polls[n - 1].later >= polls[k].now + CASCADE {
      NamedForGood(stage, polls, k, x, n);
    }
  }

  // Nothing that ends the stage goes by

  /** A member that exited 0 with a producer running is suspected, unless
      another was before it; it stays so only while every producer of it that
      ended exited 0 and it has been gone less than `CASCADE`. */
  lemma SuspectHeld(stage: Stage, polls: seq<Poll>, k: nat, x: string)
    requires Clocked(polls) && k < |polls| && After(stage, polls, k + 1).ended.None?
    ensures After(stage, polls, k).suspect.None? && First(polls, x) == k && Open(stage, polls, k + 1, x) ==>
      After(stage, polls, k + 1).suspect.Some?
    ensures After(stage, polls, k + 1).suspect == Some(x) ==>
      && First(polls, x) <= k && polls[k].now - polls[First(polls, x)].now < CASCADE
      && (exists p :: Feeds(stage, p, x) && First(polls, p) > k)
      && forall p :: Feeds(stage, p, x) && First(polls, p) <= k ==> CodeOf(polls, p) == 0
  {
    hide *;
    NotNamedBefore(stage, polls, k);
    if After(stage, polls, k).suspect.None? && First(polls, x) == k && Open(stage, polls, k + 1, x) {
      SuspectFound(stage, polls, k, x);
    }
    if After(stage, polls, k + 1).suspect == Some(x) {
      AlwaysSound(stage, polls, k + 1);
      SuspectOpen(stage, polls, k + 1, x);
      AfterTurn(stage, polls, k);
      TurnHolds(stage, After(stage, polls, k), polls[k]);
      HeldMeans(stage, polls, k, x);
    }
  }

  lemma SuspectOpen(stage: Stage, polls: seq<Poll>, n: nat, x: string)
    requires n <= |polls| && Sound(stage, polls, n) && After(stage, polls, n).ended.None?
    requires After(stage, polls, n).suspect == Some(x)
    ensures x in stage.members && First(polls, x) < n
  {
    hide After, First, NoFailure;
  }

  lemma AfterTurn(stage: Stage, polls: seq<Poll>, k: nat)
    requires k < |polls|
    ensures After(stage, polls, k + 1) == Turned(stage, After(stage, polls, k), polls[k])
  {
    hide Turned;
  }

  lemma NotNamedBefore(stage: Stage, polls: seq<Poll>, k: nat)
    requires k < |polls| && After(stage, polls, k + 1).ended.None?
    ensures After(stage, polls, k).ended.None?
  {
    if After(stage, polls, k).ended.Some? {
      StaysNamed(stage, polls, k);
    }
  }

  /** A suspect left by a turn is one its producers have not answered for. */
  lemma TurnHolds(stage: Stage, s: State, poll: Poll)
    requires s.ended.None? && Turned(stage, s, poll).ended.None?
    ensures var t := Turned(stage, s, poll);
      && t.endedAt == Seen(stage, s.endedAt, poll)
      && (t.suspect.Some? ==> LeftEarly(stage, t.endedAt, poll, t.suspect.value).None?)
      && (var suspect := Suspect(stage, s, poll);
          suspect.Some? && LeftEarly(stage, t.endedAt, poll, suspect.value) != Some(false) ==> t.suspect == suspect)
  {
    var suspect := Suspect(stage, s, poll);
    if suspect.Some? {
      var verdict := LeftEarly(stage, Seen(stage, s.endedAt, poll), poll, suspect.value);
      assert verdict.None? || verdict == Some(true) || verdict == Some(false);
    }
    hide Suspect, FirstFailed, JustEnded, LeftEarly, Seen;
  }

  lemma SuspectFound(stage: Stage, polls: seq<Poll>, k: nat, x: string)
    requires Clocked(polls) && k < |polls| && After(stage, polls, k + 1).ended.None?
    requires After(stage, polls, k).ended.None? && After(stage, polls, k).suspect.None?
    requires First(polls, x) == k && Open(stage, polls, k + 1, x)
    ensures After(stage, polls, k + 1).suspect.Some?
  {
    var s, poll := After(stage, polls, k), polls[k];
    var seen := Seen(stage, s.endedAt, poll);
    var just := JustEnded(stage.members, s.endedAt, poll);
    hide *;
    AfterTurn(stage, polls, k);
    OpenMember(stage, polls, k + 1, x);
    TurnAsks(stage, polls, k, x);
    TurnHolds(stage, s, poll);
    NewSuspect(stage, s, poll, x);
  }

  lemma OpenMember(stage: Stage, polls: seq<Poll>, n: nat, x: string)
    requires n <= |polls| && Open(stage, polls, n, x)
    ensures x in stage.members
  {
  }

  lemma NewSuspect(stage: Stage, s: State, poll: Poll, x: string)
    requires var seen := Seen(stage, s.endedAt, poll);
      x in JustEnded(stage.members, s.endedAt, poll) && Suspicious(stage, seen, poll, x)
    requires s.suspect.None?
    ensures var suspect := Suspect(stage, s, poll);
      suspect.Some? && LeftEarly(stage, Seen(stage, s.endedAt, poll), poll, suspect.value) != Some(false)
  {
    hide JustEnded, Seen, FirstSuspicious, ReaderGone;
    var found := FirstSuspicious(stage, Seen(stage, s.endedAt, poll), poll, JustEnded(stage.members, s.endedAt, poll));
    assert found.Some?;
  }

  lemma HeldMeans(stage: Stage, polls: seq<Poll>, k: nat, x: string)
    requires Clocked(polls) && k < |polls| && x in stage.members && First(polls, x) <= k
    requires LeftEarly(stage, After(stage, polls, k + 1).endedAt, polls[k], x).None?
    ensures polls[k].now - polls[First(polls, x)].now < CASCADE
    ensures exists p :: Feeds(stage, p, x) && First(polls, p) > k
    ensures forall p :: Feeds(stage, p, x) && First(polls, p) <= k ==> CodeOf(polls, p) == 0
  {
    var endedAt := After(stage, polls, k + 1).endedAt;
    EndedAtIs(stage, polls, k + 1);
    hide *;
    OpenStill(stage, endedAt, polls[k], x);
    var p :| Feeds(stage, p, x) && p !in endedAt;
    FeedsIs(stage, p, x);
    forall p | Feeds(stage, p, x) && First(polls, p) <= k ensures CodeOf(polls, p) == 0 {
      FeedsIs(stage, p, x);
      StaysEnded(polls, p, k);
      assert p in endedAt;
    }
  }

  lemma OpenStill(stage: Stage, endedAt: map<string, int>, poll: Poll, x: string)
    requires x in endedAt && LeftEarly(stage, endedAt, poll, x).None?
    ensures poll.now - endedAt[x] < CASCADE
    ensures exists p :: Feeds(stage, p, x) && p !in endedAt
    ensures forall p :: Feeds(stage, p, x) && p in endedAt && p in poll.codes ==> poll.codes[p] == 0
  {
    hide Feeds;
    var mine := Producers(stage, x);
    assert exists p :: p in mine && p !in endedAt;
  }

  /** Every producer is seen ended less than `CASCADE` after its consumer. */
  ghost predicate ProducersFollow(stage: Stage, polls: seq<Poll>, n: nat)
    requires 0 < n <= |polls|
  {
    forall p, c :: Feeds(stage, p, c) && c in stage.members && First(polls, c) < n ==>
      polls[if First(polls, p) < n then First(polls, p) else n - 1].now - polls[First(polls, c)].now < CASCADE
  }

  /** A stage that finishes in order names nobody. */
  lemma FinishNamesNobody(stage: Stage, polls: seq<Poll>, n: nat)
    requires Clocked(polls) && 0 < n <= |polls| && ProducersFollow(stage, polls, n)
    requires forall m :: m in stage.members && First(polls, m) < n ==> CodeOf(polls, m) == 0
    ensures After(stage, polls, n).ended.None?
  {
    hide After, First, NamedAt, LostItsReader, ProducersFollow, Clocked, CutOff, ProducerRunsOn;
    if After(stage, polls, n).ended.Some? {
      var x := After(stage, polls, n).ended.value;
      var k := NamedMeans(stage, polls, n, x);
      assert !ProducerFailed(stage, polls, k, x);
      NoneRunsOn(stage, polls, n, k, x);
    }
  }

  lemma NoneRunsOn(stage: Stage, polls: seq<Poll>, n: nat, k: nat, x: string)
    requires Clocked(polls) && k < n <= |polls| && ProducersFollow(stage, polls, n)
    requires x in stage.members && First(polls, x) <= k
    ensures !ProducerRunsOn(stage, polls, k, x)
  {
    hide First, Clocked;
    forall p | Feeds(stage, p, x) && First(polls, p) > k
      ensures polls[k].now - polls[First(polls, x)].now < CASCADE
    {
      NeverBack(polls, k, if First(polls, p) < n then First(polls, p) else n - 1);
    }
  }

  /** One poll cannot order two exits within it: a member that exited 0 is
      named for a producer that failed no later than the same poll, which may
      have come first. */
  lemma SamePollNamed()
    ensures var stage := Stage(["reader", "failing", "running"], [("failing", "reader"), ("running", "reader")], map[]);
      var polls := [Poll(0, map["reader" := 0, "failing" := 1], 0)];
      && After(stage, polls, 1).ended == Some("reader")
      && First(polls, "reader") == First(polls, "failing") == 0
  {
    var stage := Stage(["reader", "failing", "running"], [("failing", "reader"), ("running", "reader")], map[]);
    var poll := Poll(0, map["reader" := 0, "failing" := 1], 0);
    var endedAt := Seen(stage, map[], poll);
    assert stage.feeds[0] == ("failing", "reader") && stage.feeds[1] == ("running", "reader");
    assert stage.members[0] == "reader" && stage.members[1] == "failing" && stage.members[2] == "running";
    assert Feeds(stage, "failing", "reader") && Feeds(stage, "running", "reader");
    assert "running" !in endedAt && "failing" in endedAt && "reader" in endedAt;
    assert Suspicious(stage, endedAt, poll, "reader");
    var just := JustEnded(stage.members, map[], poll);
    assert just[0] == "reader";
    assert LeftEarly(stage, endedAt, poll, "reader") == Some(true);
    assert After(stage, [poll], 0) == State(map[], None, None, 0);
  }
}
