/**
The watch over a running stage, one poll of every member at a time: which
member's ending ended it, and when the watch returns.
*/
module Watch {
  import opened Wrappers

  /** How long the other members are given to end on their own, one second.
      The clock counts in ticks of 0.02 s, how often the stage is checked. */
  const CASCADE: nat := 50

  /** `feeds` are producer and consumer pairs; `writers` the members writing a
      feeder connection, each with the members reading it. */
  datatype Stage = Stage(members: seq<string>, feeds: seq<(string, string)>, writers: map<string, seq<string>>)

  /** One turn: the clock, every exited member's code, and the clock again. */
  datatype Poll = Poll(now: int, codes: map<string, int>, later: int)

  datatype State = State(endedAt: map<string, int>, suspect: Option<string>, ended: Option<string>, settled: int)

  const Begun := State(map[], None, None, 0)

  predicate Feeds(stage: Stage, producer: string, consumer: string)
  {
    (producer, consumer) in stage.feeds && producer in stage.members
  }

  /** The consumer's producers in the stage. */
  function Producers(stage: Stage, consumer: string): (producers: set<string>)
    ensures forall p :: p in producers <==> Feeds(stage, p, consumer)
  {
    set f | f in stage.feeds && f.1 == consumer && f.0 in stage.members :: f.0
  }

  /** A feeder writer one of whose readers has ended (`_reader_gone`). */
  predicate ReaderGone(stage: Stage, endedAt: map<string, int>, m: string)
  {
    m in stage.writers && exists r :: r in stage.writers[m] && r in stage.members && r != m && r in endedAt
  }

  /** The members this poll is the first to see ended, in their order. */
  function JustEnded(members: seq<string>, endedAt: map<string, int>, poll: Poll): (just: seq<string>)
    ensures forall m :: m in just <==> m in members && m !in endedAt && m in poll.codes
  {
    if members == [] then []
    else
      (if members[0] !in endedAt && members[0] in poll.codes then [members[0]] else []) +
      JustEnded(members[1..], endedAt, poll)
  }

  /** A member that exited 0 with a producer still running. */
  predicate Suspicious(stage: Stage, endedAt: map<string, int>, poll: Poll, m: string)
  {
    && m in poll.codes && poll.codes[m] == 0
    && (exists p :: p in Producers(stage, m) && p !in endedAt)
    && !ReaderGone(stage, endedAt, m)
  }

  predicate Failed(stage: Stage, endedAt: map<string, int>, poll: Poll, m: string)
  {
    m in poll.codes && poll.codes[m] != 0 && !ReaderGone(stage, endedAt, m)
  }

  function FirstSuspicious(stage: Stage, endedAt: map<string, int>, poll: Poll, just: seq<string>): (found: Option<string>)
    ensures found.Some? ==> found.value in just && Suspicious(stage, endedAt, poll, found.value)
    ensures found.None? ==> forall m :: m in just ==> !Suspicious(stage, endedAt, poll, m)
  {
    if just == [] then None
    else if Suspicious(stage, endedAt, poll, just[0]) then Some(just[0])
    else FirstSuspicious(stage, endedAt, poll, just[1..])
  }

  function FirstFailed(stage: Stage, endedAt: map<string, int>, poll: Poll, just: seq<string>): (found: Option<string>)
    ensures found.Some? ==> found.value in just && Failed(stage, endedAt, poll, found.value)
    ensures found.None? ==> forall m :: m in just ==> !Failed(stage, endedAt, poll, m)
  {
    if just == [] then None
    else if Failed(stage, endedAt, poll, just[0]) then Some(just[0])
    else FirstFailed(stage, endedAt, poll, just[1..])
  }

  /** Whether the suspect's producers have answered, and how (`_left_early`):
      None while that is open. */
  function LeftEarly(stage: Stage, endedAt: map<string, int>, poll: Poll, m: string): Option<bool>
  {
    var mine := Producers(stage, m);
    if exists p :: p in mine && p in endedAt && p in poll.codes && poll.codes[p] != 0 then Some(true)
    else if forall p :: p in mine ==> p in endedAt then Some(false)
    else if poll.now - (if m in endedAt then endedAt[m] else poll.now) >= CASCADE then Some(true)
    else None
  }

  /** When each member was seen ended, this poll's included. */
  function Seen(stage: Stage, was: map<string, int>, poll: Poll): (endedAt: map<string, int>)
    ensures endedAt.Keys == was.Keys + (set m | m in stage.members && m in poll.codes)
    ensures forall m :: m in endedAt ==> endedAt[m] == if m in was then was[m] else poll.now
  {
    var ended := set m | m in stage.members && m in poll.codes;
    map m | m in was.Keys + ended :: if m in was then was[m] else poll.now
  }

  function Suspect(stage: Stage, s: State, poll: Poll): Option<string>
  {
    if s.suspect.Some? then s.suspect
    else FirstSuspicious(stage, Seen(stage, s.endedAt, poll), poll, JustEnded(stage.members, s.endedAt, poll))
  }

  /** What one turn makes of the state. */
  function Turned(stage: Stage, s: State, poll: Poll): State
  {
    var endedAt := Seen(stage, s.endedAt, poll);
    if s.ended.Some? then s.(endedAt := endedAt)
    else
      var suspect := Suspect(stage, s, poll);
      var verdict := if suspect.None? then None else LeftEarly(stage, endedAt, poll, suspect.value);
      var ender :=
        if verdict == Some(true) then suspect
        else FirstFailed(stage, endedAt, poll, JustEnded(stage.members, s.endedAt, poll));
      State(endedAt, if verdict == Some(false) then None else suspect, ender,
            if ender.Some? then poll.now + CASCADE else s.settled)
  }

  /** Every member but the feeder writers has been seen ended. */
  predicate AllEnded(stage: Stage, endedAt: map<string, int>)
  {
    forall m :: m in stage.members && m !in stage.writers ==> m in endedAt
  }

  /** Whether the watch returns at the end of a turn. */
  predicate Returns(stage: Stage, s: State, poll: Poll)
  {
    AllEnded(stage, s.endedAt) || (s.ended.Some? && poll.later >= s.settled)
  }

  /** The state after the first `n` polls. */
  function After(stage: Stage, polls: seq<Poll>, n: nat): State
    requires n <= |polls|
  {
    if n == 0 then Begun else Turned(stage, After(stage, polls, n - 1), polls[n - 1])
  }

  /** One of the first `n` polls saw `m` exited. */
  predicate SeenBy(polls: seq<Poll>, n: nat, m: string)
    requires n <= |polls|
  {
    exists i :: 0 <= i < n && m in polls[i].codes
  }

  /** By poll `n` every member has exited that writes no feeder connection. */
  predicate AllSeen(stage: Stage, polls: seq<Poll>, n: nat)
    requires n <= |polls|
  {
    forall m :: m in stage.members && m !in stage.writers ==> SeenBy(polls, n, m)
  }

  lemma {:induction false} EndedIsSeen(stage: Stage, polls: seq<Poll>, n: nat, m: string)
    requires n <= |polls|
    ensures m in After(stage, polls, n).endedAt <==> m in stage.members && SeenBy(polls, n, m)
  {
    if n > 0 {
      EndedIsSeen(stage, polls, n - 1, m);
      TurnIs(stage, After(stage, polls, n - 1), polls[n - 1]);
      hide Turned, FirstSuspicious, FirstFailed, LeftEarly, JustEnded;
    }
  }

  lemma AllSeenReturns(stage: Stage, polls: seq<Poll>, n: nat)
    requires 0 < n <= |polls|
    ensures AllSeen(stage, polls, n) <==> AllEnded(stage, After(stage, polls, n).endedAt)
    ensures AllSeen(stage, polls, n) ==> Returns(stage, After(stage, polls, n), polls[n - 1])
    ensures Returns(stage, After(stage, polls, n), polls[n - 1]) && !AllSeen(stage, polls, n) ==>
      After(stage, polls, n).ended.Some?
  {
    hide After, SeenBy;
    forall m | m in stage.members
      ensures m in After(stage, polls, n).endedAt <==> SeenBy(polls, n, m)
    {
      EndedIsSeen(stage, polls, n, m);
    }
  }

  /** The watch is still going after the first `n` polls. */
  predicate Going(stage: Stage, polls: seq<Poll>, n: nat)
    requires n <= |polls|
  {
    forall k :: 0 < k <= n ==> !Returns(stage, After(stage, polls, k), polls[k - 1])
  }

  /** A member that has exited stays so, and the clock never goes back. */
  ghost predicate Clocked(polls: seq<Poll>)
  {
    && (forall i :: 0 <= i < |polls| ==> polls[i].now <= polls[i].later)
    && (forall i, j :: 0 <= i < j < |polls| ==> polls[i].later <= polls[j].now)
    && (forall i, j, m :: 0 <= i < j < |polls| && m in polls[i].codes ==> m in polls[j].codes && polls[j].codes[m] == polls[i].codes[m])
  }

  /** The members just ended, each with the time this turn gives them. */
  method MarkEnded(stage: Stage, was: map<string, int>, poll: Poll) returns (endedAt: map<string, int>, just: seq<string>)
    ensures just == JustEnded(stage.members, was, poll)
    ensures endedAt == Seen(stage, was, poll)
  {
    just := JustEnded(stage.members, was, poll);
    endedAt := was;
    hide JustEnded;
    for k := 0 to |just|
      invariant forall m :: m in endedAt <==> m in was || m in just[..k]
      invariant forall m :: m in endedAt ==> endedAt[m] == if m in was then was[m] else poll.now
    {
      endedAt := endedAt[just[k] := poll.now];
    }
    assert just[..|just|] == just;
    hide Seen;
    ghost var seen := Seen(stage, was, poll);
    forall m ensures m in endedAt <==> m in seen {
    }
    SameMap(endedAt, seen);
  }

  lemma SameMap(a: map<string, int>, b: map<string, int>)
    requires (forall m :: m in a <==> m in b) && (forall m :: m in a && m in b ==> a[m] == b[m])
    ensures a == b
  {
  }

  /** The watch itself: it returns at the first turn that says so, naming what
      the turns made of the stage. */
  method WatchStage(stage: Stage, polls: seq<Poll>)
    returns (turns: nat, returned: bool, named: Option<string>, endedAt: map<string, int>)
    ensures turns <= |polls| && (!returned ==> turns == |polls| && Going(stage, polls, turns))
    ensures returned ==> turns > 0 && Going(stage, polls, turns - 1) && Returns(stage, After(stage, polls, turns), polls[turns - 1])
    ensures named == After(stage, polls, turns).ended && endedAt == After(stage, polls, turns).endedAt
    ensures forall n :: 0 < n <= |polls| && AllSeen(stage, polls, n) ==> returned && turns <= n
    ensures returned && named.None? ==> AllSeen(stage, polls, turns)
  {
    endedAt := map[];
    var suspect: Option<string> := None;
    named := None;
    var settled := 0;
    NothingYet(stage, polls);
    hide *;
    for i := 0 to |polls|
      invariant After(stage, polls, i) == State(endedAt, suspect, named, settled)
      invariant Going(stage, polls, i)
    {
      var poll := polls[i];
      TurnIs(stage, State(endedAt, suspect, named, settled), poll);
      NextTurn(stage, polls, i);
      var just: seq<string>;
      endedAt, just := MarkEnded(stage, endedAt, poll);
      if named.None? {
        if suspect.None? {
          suspect := FirstSuspicious(stage, endedAt, poll, just);
        }
        var ender: Option<string> := None;
        if suspect.Some? {
          var verdict := LeftEarly(stage, endedAt, poll, suspect.value);
          if verdict == Some(true) {
            ender := suspect;
          } else if verdict == Some(false) {
            suspect := None;
          }
        }
        if ender.None? {
          ender := FirstFailed(stage, endedAt, poll, just);
        }
        if ender.Some? {
          named := ender;
          settled := poll.now + CASCADE;
        }
      }
      ReturnsIs(stage, State(endedAt, suspect, named, settled), poll);
      AllSeenReturns(stage, polls, i + 1);
      if AllEnded(stage, endedAt) {
        NotBefore(stage, polls, i);
        return i + 1, true, named, endedAt;
      }
      if named.Some? && poll.later >= settled {
        NotBefore(stage, polls, i);
        return i + 1, true, named, endedAt;
      }
    }
    NotBefore(stage, polls, |polls|);
    return |polls|, false, named, endedAt;
  }

  lemma NotBefore(stage: Stage, polls: seq<Poll>, n: nat)
    requires n <= |polls| && Going(stage, polls, n)
    ensures forall k :: 0 < k <= n ==> !AllSeen(stage, polls, k)
  {
    hide Returns, After, AllSeen;
    forall k | 0 < k <= n ensures !AllSeen(stage, polls, k) {
      AllSeenReturns(stage, polls, k);
    }
  }

  lemma NothingYet(stage: Stage, polls: seq<Poll>)
    ensures After(stage, polls, 0) == State(map[], None, None, 0) && Going(stage, polls, 0)
  {
  }

  lemma TurnIs(stage: Stage, s: State, poll: Poll)
    ensures var endedAt := Seen(stage, s.endedAt, poll);
      var just := JustEnded(stage.members, s.endedAt, poll);
      var suspect := if s.suspect.Some? then s.suspect else FirstSuspicious(stage, endedAt, poll, just);
      var verdict := if suspect.None? then None else LeftEarly(stage, endedAt, poll, suspect.value);
      var ender := if verdict == Some(true) then suspect else FirstFailed(stage, endedAt, poll, just);
      Turned(stage, s, poll) ==
      if s.ended.Some? then s.(endedAt := endedAt)
      else State(endedAt, if verdict == Some(false) then None else suspect, ender,
                 if ender.Some? then poll.now + CASCADE else s.settled)
  {
  }

  lemma NextTurn(stage: Stage, polls: seq<Poll>, i: nat)
    requires i < |polls| && Going(stage, polls, i)
    ensures After(stage, polls, i + 1) == Turned(stage, After(stage, polls, i), polls[i])
    ensures Going(stage, polls, i + 1) <==> !Returns(stage, After(stage, polls, i + 1), polls[i])
  {
    hide Returns, Turned;
  }

  lemma ReturnsIs(stage: Stage, s: State, poll: Poll)
    ensures Returns(stage, s, poll) <==> AllEnded(stage, s.endedAt) || (s.ended.Some? && poll.later >= s.settled)
  {
  }
}
