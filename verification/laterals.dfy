/**
A run-time lateral's host: one thread reads messages and queues an instance
for each, one runs them in turn, and the run's end stops both.
*/
module Laterals {
  import opened Wrappers

  /** One message's instance: its number on the stream, and the programme time
      it plays over where the message says. */
  datatype Launch = Launch(row: nat, start: Option<int>, end: Option<int>)

  /** A message as it was bound: refused for what it is, or an instance. */
  datatype Message = Unusable | Bound(start: Option<int>, length: Option<int>)

  /** Both times known, and some of each's programme before the other's end. */
  predicate Overlaps(a: Launch, start: Option<int>, end: Option<int>)
  {
    if a.start.None? || a.end.None? || start.None? || end.None? then false
    else start.value < a.end.value && a.start.value < end.value
  }

  predicate Clash(a: Launch, b: Launch)
  {
    Overlaps(a, b.start, b.end)
  }

  /** What the lock guards. */
  datatype Host = Host(count: nat, waiting: seq<Launch>, running: Option<Launch>, readAll: bool, stopping: bool)

  function Ahead(h: Host): seq<Launch>
  {
    (if h.running.Some? then [h.running.value] else []) + h.waiting
  }

  function LaunchOf(row: nat, m: Message): Launch
    requires m.Bound?
  {
    Launch(row, m.start, if m.start.None? || m.length.None? then None else Some(m.start.value + m.length.value))
  }

  predicate Clear(ahead: seq<Launch>, l: Launch)
  {
    forall a :: a in ahead ==> !Clash(a, l)
  }

  predicate Accepts(h: Host, m: Message)
  {
    m.Bound? && Clear(Ahead(h), LaunchOf(h.count + 1, m))
  }

  /** The next message numbered, and queued where nothing ahead overlaps it. */
  function Arrived(h: Host, m: Message): Host
  {
    if Accepts(h, m) then h.(count := h.count + 1, waiting := h.waiting + [LaunchOf(h.count + 1, m)])
    else h.(count := h.count + 1)
  }

  /** The launcher's turn: the oldest waiting, unless the run is ending. */
  function Taken(h: Host): Host
  {
    if h.stopping || h.waiting == [] then h else h.(running := Some(h.waiting[0]), waiting := h.waiting[1..])
  }

  /** The host's own fields, each method one turn of the lock. */
  class LateralRun {
    var count: nat
    var waiting: seq<Launch>
    var running: Option<Launch>
    var readAll: bool
    var stopping: bool

    constructor ()
      ensures State() == Host(0, [], None, false, false)
    {
      count, waiting, running, readAll, stopping := 0, [], None, false, false;
    }

    function State(): Host
      reads this
    {
      Host(count, waiting, running, readAll, stopping)
    }

    /** `refused` is the number of a message that gets its row at once. */
    method Arrive(m: Message) returns (refused: Option<nat>)
      modifies this
      ensures State() == Arrived(old(State()), m)
      ensures refused == if Accepts(old(State()), m) then None else Some(old(count) + 1)
    {
      ghost var was := State();
      count := count + 1;
      match m
      case Unusable =>
        return Some(count);
      case Bound(start, length) =>
        var end := if start.None? || length.None? then None else Some(start.value + length.value);
        var ahead := (if running.Some? then [running.value] else []) + waiting;
        var clash := false;
        for i := 0 to |ahead|
          invariant clash <==> exists k :: 0 <= k < i && Overlaps(ahead[k], start, end)
        {
          clash := clash || Overlaps(ahead[i], start, end);
        }
        assert ahead == Ahead(was) && LaunchOf(count, m) == Launch(count, start, end);
        assert clash ==> exists k :: 0 <= k < |ahead| && ahead[k] in ahead && Clash(ahead[k], LaunchOf(count, m));
        assert clash <==> !Clear(ahead, LaunchOf(count, m));
        if clash {
          return Some(count);
        }
        waiting := waiting + [Launch(count, start, end)];
        return None;
    }

    /** One turn of the launcher's loop, the wait over: None ends it. */
    method Take() returns (launch: Option<Launch>)
      modifies this
      ensures State() == Taken(old(State()))
      ensures launch == if old(stopping || waiting == []) then None else State().running
    {
      if stopping || waiting == [] {
        return None;
      }
      running := Some(waiting[0]);
      waiting := waiting[1..];
      return running;
    }

    /** What the run's end leaves unstarted. */
    method ClearWaiting() returns (left: seq<Launch>)
      modifies this
      ensures left == old(waiting) && State() == old(State()).(waiting := [])
    {
      left := waiting;
      waiting := [];
    }
  }

  // The three threads

  datatype Reader = Reading | Refusing(row: nat) | ReadOut
  datatype Launcher = Idle | Running(row: nat) | Ending(row: nat) | Returned

  /** `left` is what the stop has still to say, `rows` the messages said in
      order, `started` the instances started, and `late` the messages queued
      once the stop had emptied the queue. */
  datatype State = State(host: Host, reader: Reader, launcher: Launcher, cleared: bool, left: seq<Launch>,
                         rows: seq<nat>, started: seq<nat>, late: set<nat>)

  const Begun := State(Host(0, [], None, false, false), Reading, Idle, false, [], [], [], {})

  datatype Action =
    | Arrives(message: Message)
    | SayRefused
    | ReadAll
    | Take
    | InstanceEnds
    | TurnEnds
    | StopSet
    | StopClears
    | StopSays

  /** Any thread may go next: the reader, the launcher or the stop. */
  predicate Enabled(s: State, a: Action)
  {
    match a
    case Arrives(_) => s.reader.Reading?
    case SayRefused => s.reader.Refusing?
    case ReadAll => s.reader.Reading?
    case Take => s.launcher.Idle? && (s.host.waiting != [] || s.host.stopping || s.host.readAll)
    case InstanceEnds => s.launcher.Running?
    case TurnEnds => s.launcher.Ending?
    case StopSet => true
    case StopClears => s.host.stopping && !s.cleared
    case StopSays => s.left != []
  }

  function Next(s: State, a: Action): State
    requires Enabled(s, a)
  {
    match a
    case Arrives(m) =>
      var row := s.host.count + 1;
      var t := s.(host := Arrived(s.host, m));
      if Accepts(s.host, m) then t.(late := if s.cleared then s.late + {row} else s.late) else t.(reader := Refusing(row))
    case SayRefused => s.(reader := Reading, rows := s.rows + [s.reader.row])
    case ReadAll => s.(reader := ReadOut, host := s.host.(readAll := true))
    case Take =>
      if s.host.stopping || s.host.waiting == [] then s.(launcher := Returned)
      else
        var row := s.host.waiting[0].row;
        s.(host := Taken(s.host), launcher := Running(row), started := s.started + [row])
    case InstanceEnds => s.(launcher := Ending(s.launcher.row), rows := s.rows + [s.launcher.row])
    case TurnEnds => s.(launcher := Idle, host := s.host.(running := None))
    case StopSet => s.(host := s.host.(stopping := true))
    case StopClears => s.(host := s.host.(waiting := []), cleared := true, left := s.host.waiting)
    case StopSays => s.(left := s.left[1..], rows := s.rows + [s.left[0].row])
  }

  predicate Possible(actions: seq<Action>)
    decreases |actions|, 0
  {
    actions == [] ||
    (var last := |actions| - 1; Possible(actions[..last]) && Enabled(Reached(actions[..last]), actions[last]))
  }

  /** The state an interleaving reaches. */
  function Reached(actions: seq<Action>): State
    requires Possible(actions)
    decreases |actions|, 1
  {
    if actions == [] then Begun
    else Next(Reached(actions[..|actions| - 1]), actions[|actions| - 1])
  }

  // What every interleaving keeps

  /** How often `row` has been said. */
  function Said(rows: seq<nat>, row: nat): nat
  {
    if rows == [] then 0 else Said(rows[..|rows| - 1], row) + (if rows[|rows| - 1] == row then 1 else 0)
  }

  /** How many of the instances are message `row`'s. */
  function Held(launches: seq<Launch>, row: nat): nat
  {
    if launches == [] then 0 else (if launches[0].row == row then 1 else 0) + Held(launches[1..], row)
  }

  /** How many rows message `row` is still owed. */
  function Owed(s: State, row: nat): nat
  {
    Held(s.host.waiting, row) + Held(s.left, row)
    + (if s.reader.Refusing? && s.reader.row == row then 1 else 0) + (if s.launcher.Running? && s.launcher.row == row then 1 else 0)
  }

  /** Every message has a row or is owed one, once. */
  predicate AccountedFor(s: State, row: nat)
  {
    Said(s.rows, row) + Owed(s, row) == (if 1 <= row <= s.host.count then 1 else 0)
  }

  ghost predicate Accounted(s: State)
  {
    forall row: nat :: AccountedFor(s, row)
  }

  function Numbers(launches: seq<Launch>): (rows: seq<nat>)
    ensures |rows| == |launches| && forall i :: 0 <= i < |rows| ==> rows[i] == launches[i].row
  {
    seq(|launches|, i requires 0 <= i < |launches| => launches[i].row)
  }

  /** The instances started, and then those waiting. */
  function Order(s: State): seq<nat>
  {
    s.started + Numbers(s.host.waiting)
  }

  /** Ascending, from 1 to `top` at most. */
  predicate Ascending(rows: seq<nat>, top: nat)
  {
    && (forall i, j :: 0 <= i < j < |rows| ==> rows[i] < rows[j])
    && (forall i :: 0 <= i < |rows| ==> rows[i] <= top)
  }

  /** Instances start in the order their messages came. */
  predicate InOrder(s: State)
  {
    Ascending(Order(s), s.host.count)
  }

  /** Nothing running or waiting plays over another's programme. */
  predicate Disjoint(h: Host)
  {
    Apart(Ahead(h))
  }

  predicate Apart(launches: seq<Launch>)
  {
    forall i, j :: 0 <= i < j < |launches| ==> !Clash(launches[i], launches[j])
  }

  /** The instance running is the one the launcher has in hand. */
  predicate OneAtATime(s: State)
  {
    match s.launcher
    case Running(row) => s.host.running.Some? && s.host.running.value.row == row
    case Ending(row) => s.host.running.Some? && s.host.running.value.row == row
    case _ => s.host.running.None?
  }

  /** What the end of the run does and does not reach. */
  predicate RunEnding(s: State)
  {
    && (s.cleared ==> s.host.stopping)
    && (s.left != [] ==> s.cleared)
    && s.late == (if s.cleared then set l | l in s.host.waiting :: l.row else {})
    && (s.host.readAll <==> s.reader.ReadOut?)
    && (s.launcher.Returned? && !s.host.stopping ==> s.host.waiting == [] && s.host.readAll)
  }

  ghost predicate Safe(s: State)
  {
    Accounted(s) && InOrder(s) && Disjoint(s.host) && OneAtATime(s) && RunEnding(s)
  }

  lemma SaidMore(rows: seq<nat>, more: nat, row: nat)
    ensures Said(rows + [more], row) == Said(rows, row) + (if more == row then 1 else 0)
  {
    assert (rows + [more])[..|rows|] == rows;
  }

  lemma {:induction false} HeldMore(launches: seq<Launch>, l: Launch, row: nat)
    ensures Held(launches + [l], row) == Held(launches, row) + (if l.row == row then 1 else 0)
  {
    if launches != [] {
      HeldMore(launches[1..], l, row);
      assert (launches + [l])[1..] == launches[1..] + [l];
    }
  }

  lemma HeldFirst(launches: seq<Launch>, row: nat)
    ensures Held([], row) == 0
    ensures launches != [] ==> Held(launches, row) == (if launches[0].row == row then 1 else 0) + Held(launches[1..], row)
  {
  }

  lemma ArrivalAccounted(s: State, m: Message, row: nat)
    requires AccountedFor(s, row) && s.reader.Reading?
    ensures AccountedFor(Next(s, Arrives(m)), row)
  {
    if Accepts(s.host, m) {
      HeldMore(s.host.waiting, LaunchOf(s.host.count + 1, m), row);
    }
    hide Accepts, Held, Said;
  }

  lemma OthersAccounted(s: State, a: Action, row: nat)
    requires AccountedFor(s, row) && Enabled(s, a) && !a.Arrives?
    requires a.StopClears? ==> s.left == []
    ensures AccountedFor(Next(s, a), row)
  {
    hide Held, Said;
    HeldFirst(s.host.waiting, row);
    HeldFirst(s.left, row);
    if a.SayRefused? {
      SaidMore(s.rows, s.reader.row, row);
    } else if a.InstanceEnds? {
      SaidMore(s.rows, s.launcher.row, row);
    } else if a.StopSays? {
      SaidMore(s.rows, s.left[0].row, row);
    }
  }

  lemma StaysAccounted(s: State, a: Action)
    requires Safe(s) && Enabled(s, a)
    ensures Accounted(Next(s, a))
  {
    assert a.StopClears? ==> s.left == [];
    hide AccountedFor, InOrder, Disjoint, RunEnding, OneAtATime, Next, Enabled;
    forall row: nat ensures AccountedFor(Next(s, a), row) {
      assert AccountedFor(s, row);
      if a.Arrives? {
        assert s.reader.Reading? by { ReadsThen(s, a); }
        ArrivalAccounted(s, a.message, row);
      } else {
        OthersAccounted(s, a, row);
      }
    }
  }

  lemma ReadsThen(s: State, a: Action)
    requires Enabled(s, a) && a.Arrives?
    ensures s.reader.Reading? && a == Arrives(a.message)
  {
  }

  lemma StaysInOrder(s: State, a: Action)
    requires Safe(s) && Enabled(s, a)
    ensures InOrder(Next(s, a))
  {
    hide *;
    var t := Next(s, a);
    OrderAfter(s, a);
    InOrderIs(s);
    InOrderIs(t);
    if a.Arrives? && Accepts(s.host, a.message) {
      AscendingMore(Order(s), s.host.count);
    } else {
      AscendingPart(Order(s), |Order(t)|, s.host.count, t.host.count);
    }
  }

  lemma InOrderIs(s: State)
    ensures InOrder(s) <==> Ascending(Order(s), s.host.count)
  {
  }

  lemma AscendingMore(rows: seq<nat>, top: nat)
    requires Ascending(rows, top)
    ensures Ascending(rows + [top + 1], top + 1)
  {
  }

  lemma AscendingPart(rows: seq<nat>, k: nat, top: nat, top': nat)
    requires Ascending(rows, top) && k <= |rows| && top <= top'
    ensures Ascending(rows[..k], top')
  {
  }

  /** What each action does to the order. */
  lemma OrderAfter(s: State, a: Action)
    requires Safe(s) && Enabled(s, a)
    ensures InOrder(s)
    ensures var t := Next(s, a);
      if a.Arrives? && Accepts(s.host, a.message) then
        Order(t) == Order(s) + [s.host.count + 1] && t.host.count == s.host.count + 1
      else
        |Order(t)| <= |Order(s)| && Order(t) == Order(s)[..|Order(t)|] && s.host.count <= t.host.count
  {
    hide Accounted, Disjoint, OneAtATime, RunEnding, InOrder, Clear, Numbers, Order;
    OrderIs(s);
    OrderIs(Next(s, a));
    var w := s.host.waiting;
    if a.Arrives? && Accepts(s.host, a.message) {
      Appended(s.started, w, LaunchOf(s.host.count + 1, a.message));
    } else if a.Take? && !s.host.stopping && w != [] {
      Passed(s.started, w);
    } else if a.StopClears? {
      Emptied(s.started, w);
    } else {
      assert Order(s)[..|Order(s)|] == Order(s);
    }
  }

  lemma OrderIs(s: State)
    ensures Order(s) == s.started + Numbers(s.host.waiting)
  {
  }

  lemma Appended(started: seq<nat>, waiting: seq<Launch>, l: Launch)
    ensures started + Numbers(waiting + [l]) == started + Numbers(waiting) + [l.row]
  {
    assert Numbers(waiting + [l]) == Numbers(waiting) + [l.row];
  }

  lemma Passed(started: seq<nat>, waiting: seq<Launch>)
    requires waiting != []
    ensures var all := started + Numbers(waiting);
      started + [waiting[0].row] + Numbers(waiting[1..]) == all && all == all[..|all|]
  {
    assert Numbers(waiting) == [waiting[0].row] + Numbers(waiting[1..]);
  }

  lemma Emptied(started: seq<nat>, waiting: seq<Launch>)
    ensures started + Numbers([]) == (started + Numbers(waiting))[..|started|] && |started + Numbers([])| == |started|
  {
  }

  lemma ApartMore(launches: seq<Launch>, l: Launch)
    requires Apart(launches) && Clear(launches, l)
    ensures Apart(launches + [l])
  {
    hide Clash;
    forall i, j | 0 <= i < j < |launches| + 1 ensures !Clash((launches + [l])[i], (launches + [l])[j]) {
      assert (launches + [l])[i] == launches[i] && launches[i] in launches;
    }
  }

  lemma ApartPart(launches: seq<Launch>, lo: nat, hi: nat)
    requires Apart(launches) && lo <= hi <= |launches|
    ensures Apart(launches[lo..hi])
  {
    hide Clash;
  }

  lemma StaysDisjoint(s: State, a: Action)
    requires Safe(s) && Enabled(s, a)
    ensures Disjoint(Next(s, a).host)
  {
    hide *;
    var h, h' := s.host, Next(s, a).host;
    AheadAfter(s, a);
    DisjointIs(h);
    DisjointIs(h');
    if a.Arrives? && Accepts(h, a.message) {
      ClearAhead(h, a.message);
      ApartMore(Ahead(h), LaunchOf(h.count + 1, a.message));
    } else if a.TurnEnds? {
      ApartPart(Ahead(h), 1, |Ahead(h)|);
    } else if a.StopClears? {
      ApartPart(Ahead(h), 0, if h.running.Some? then 1 else 0);
    }
  }

  lemma DisjointIs(h: Host)
    ensures Disjoint(h) <==> Apart(Ahead(h))
  {
  }

  lemma ClearAhead(h: Host, m: Message)
    requires Accepts(h, m)
    ensures m.Bound? && Clear(Ahead(h), LaunchOf(h.count + 1, m))
  {
  }

  /** What each action does to those running and waiting. */
  lemma AheadAfter(s: State, a: Action)
    requires Safe(s) && Enabled(s, a)
    ensures Disjoint(s.host) && (a.TurnEnds? ==> s.host.running.Some?)
    ensures var h, h' := s.host, Next(s, a).host;
      if a.Arrives? && Accepts(h, a.message) then Ahead(h') == Ahead(h) + [LaunchOf(h.count + 1, a.message)]
      else if a.TurnEnds? then |Ahead(h)| >= 1 && Ahead(h') == Ahead(h)[1..|Ahead(h)|]
      else if a.StopClears? then
        var kept := if h.running.Some? then 1 else 0;
        kept <= |Ahead(h)| && Ahead(h') == Ahead(h)[0..kept]
      else Ahead(h') == Ahead(h)
  {
    assert a.Take? ==> s.host.running.None?;
    assert a.TurnEnds? ==> s.host.running.Some?;
    hide Accounted, InOrder, OneAtATime, RunEnding, LaunchOf, Clear, Disjoint, Ahead;
    AheadIs(s.host);
    AheadIs(Next(s, a).host);
    if a.Arrives? && Accepts(s.host, a.message) {
      Moved(if s.host.running.Some? then [s.host.running.value] else [], s.host.waiting,
            [LaunchOf(s.host.count + 1, a.message)]);
    } else if a.Take? && !s.host.stopping && s.host.waiting != [] {
      Passing(s.host.waiting);
    }
  }

  lemma AheadIs(h: Host)
    ensures h.running.None? ==> Ahead(h) == h.waiting
    ensures h.running.Some? ==> Ahead(h) == [h.running.value] + h.waiting && Ahead(h)[1..|Ahead(h)|] == h.waiting
    ensures var kept := if h.running.Some? then 1 else 0;
      kept <= |Ahead(h)| && Ahead(h)[0..kept] == if h.running.Some? then [h.running.value] else []
  {
  }

  lemma Moved<T>(a: seq<T>, b: seq<T>, c: seq<T>)
    ensures a + (b + c) == (a + b) + c
    ensures a == [] ==> a + b == b && a + (b + c) == b + c
  {
  }

  lemma Passing<T>(waiting: seq<T>)
    requires waiting != []
    ensures [waiting[0]] + waiting[1..] == waiting
  {
  }

  lemma StaysOneAtATime(s: State, a: Action)
    requires Safe(s) && Enabled(s, a)
    ensures OneAtATime(Next(s, a)) && RunEnding(Next(s, a))
  {
    hide Accounted, InOrder, Disjoint, Accepts;
  }

  lemma {:induction false} AlwaysSafe(actions: seq<Action>)
    requires Possible(actions)
    ensures Safe(Reached(actions))
  {
    if actions == [] {
      forall row: nat ensures AccountedFor(Begun, row) { }
    } else {
      var last := |actions| - 1;
      AlwaysSafe(actions[..last]);
      var s := Reached(actions[..last]);
      StaysAccounted(s, actions[last]);
      StaysInOrder(s, actions[last]);
      StaysDisjoint(s, actions[last]);
      StaysOneAtATime(s, actions[last]);
    }
  }

  // The promises

  /** In every interleaving at most one instance runs, and no two of the
      running and the waiting play over each other's programme time. */
  lemma NeverOverlapping(actions: seq<Action>, i: nat, j: nat)
    requires Possible(actions) && i < j < |Ahead(Reached(actions).host)|
    ensures !Clash(Ahead(Reached(actions).host)[i], Ahead(Reached(actions).host)[j])
    ensures Reached(actions).launcher.Running? || Reached(actions).launcher.Ending? <==> Reached(actions).host.running.Some?
  {
    AlwaysSafe(actions);
  }

  /** `Clash` is a shared moment, of programmes that last. */
  lemma ClashMeans(a: Launch, b: Launch)
    requires a.start.Some? && a.end.Some? && b.start.Some? && b.end.Some?
    requires a.start.value < a.end.value && b.start.value < b.end.value
    ensures Clash(a, b) <==> exists t :: PlaysAt(a, t) && PlaysAt(b, t)
  {
    if Clash(a, b) {
      var t := if a.start.value < b.start.value then b.start.value else a.start.value;
      assert PlaysAt(a, t) && PlaysAt(b, t);
    }
  }

  // Of the messages themselves

  /** The messages that came, in order: the one numbered `row` is at `row - 1`. */
  function Messages(actions: seq<Action>): seq<Message>
  {
    if actions == [] then []
    else
      var last := |actions| - 1;
      Messages(actions[..last]) + (if actions[last].Arrives? then [actions[last].message] else [])
  }

  /** Moment `t` is in the message's programme, where it says both its times. */
  predicate Plays(m: Message, t: int)
  {
    m.Bound? && m.start.Some? && m.length.Some? && m.start.value <= t < m.start.value + m.length.value
  }

  ghost predicate ShareAMoment(m: Message, m': Message)
  {
    exists t :: Plays(m, t) && Plays(m', t)
  }

  /** What is running or waiting is a message that came, over its programme. */
  predicate IsOf(l: Launch, messages: seq<Message>)
  {
    && 1 <= l.row <= |messages| && messages[l.row - 1].Bound?
    && l == LaunchOf(l.row, messages[l.row - 1])
  }

  ghost predicate AllCame(s: State, messages: seq<Message>)
  {
    s.host.count == |messages| && forall l :: l in Ahead(s.host) ==> IsOf(l, messages)
  }

  lemma StaysCame(s: State, a: Action, messages: seq<Message>)
    requires Safe(s) && Enabled(s, a) && AllCame(s, messages)
    ensures AllCame(Next(s, a), messages + (if a.Arrives? then [a.message] else []))
  {
    AheadAfter(s, a);
    CountAfter(s, a);
    var h, h' := s.host, Next(s, a).host;
    var all := messages + (if a.Arrives? then [a.message] else []);
    hide Next, Enabled, Ahead, Safe, LaunchOf;
    forall l | l in Ahead(h') ensures IsOf(l, all) {
      if l in Ahead(h) {
        assert IsOf(l, messages);
        assert all[l.row - 1] == messages[l.row - 1];
      } else {
        assert all[h.count] == a.message;
        RowIs(h.count + 1, a.message);
      }
    }
  }

  lemma RowIs(row: nat, m: Message)
    requires m.Bound?
    ensures LaunchOf(row, m).row == row
  {
  }

  lemma CountAfter(s: State, a: Action)
    requires Enabled(s, a)
    ensures Next(s, a).host.count == s.host.count + (if a.Arrives? then 1 else 0)
    ensures a.Arrives? && Accepts(s.host, a.message) ==> a.message.Bound?
  {
    hide Clear, LaunchOf;
  }

  lemma {:induction false} AlwaysCame(actions: seq<Action>)
    requires Possible(actions)
    ensures AllCame(Reached(actions), Messages(actions))
  {
    if actions != [] {
      var last := |actions| - 1;
      AlwaysCame(actions[..last]);
      AlwaysSafe(actions[..last]);
      var s := Reached(actions[..last]);
      hide AllCame, Safe;
      StaysCame(s, actions[last], Messages(actions[..last]));
      assert Messages(actions[..last]) + [] == Messages(actions[..last]);
    }
  }

  lemma ClashIs(m: Message, row: nat, m': Message, row': nat)
    requires m.Bound? && m'.Bound?
    ensures ShareAMoment(m, m') ==> Clash(LaunchOf(row, m), LaunchOf(row', m'))
    ensures Clash(LaunchOf(row, m), LaunchOf(row', m')) && Lasts(m) && Lasts(m') ==> ShareAMoment(m, m')
  {
    var l, l' := LaunchOf(row, m), LaunchOf(row', m');
    if Clash(l, l') && Lasts(m) && Lasts(m') {
      var t := if m.start.value < m'.start.value then m'.start.value else m.start.value;
      assert Plays(m, t) && Plays(m', t);
    }
  }

  /** A message with both times known plays for some while. */
  predicate Lasts(m: Message)
  {
    m.Bound? && m.start.Some? && m.length.Some? ==> m.length.value > 0
  }

  /** In every interleaving no moment is in the programmes of two messages that
      are running or waiting. */
  lemma NoMomentShared(actions: seq<Action>, i: nat, j: nat, t: int)
    requires Possible(actions) && i < j < |Ahead(Reached(actions).host)|
    ensures var ahead, messages := Ahead(Reached(actions).host), Messages(actions);
      && 1 <= ahead[i].row <= |messages| && 1 <= ahead[j].row <= |messages|
      && !(Plays(messages[ahead[i].row - 1], t) && Plays(messages[ahead[j].row - 1], t))
  {
    AlwaysCame(actions);
    NeverOverlapping(actions, i, j);
    var ahead, messages := Ahead(Reached(actions).host), Messages(actions);
    hide Reached, Possible, Messages, Ahead;
    assert ahead[i] in ahead && ahead[j] in ahead;
    var m, m' := messages[ahead[i].row - 1], messages[ahead[j].row - 1];
    ClashIs(m, ahead[i].row, m', ahead[j].row);
  }

  /** A message that comes is queued exactly when it is usable and shares no
      moment with one running or waiting, where programmes last. */
  lemma QueuedWhenClear(actions: seq<Action>, m: Message)
    requires Possible(actions) && Enabled(Reached(actions), Arrives(m)) && Lasts(m)
    requires forall l, k :: l in Ahead(Reached(actions).host) && l.row == k + 1 && 0 <= k < |Messages(actions)| ==>
      Lasts(Messages(actions)[k])
    ensures var h, h', messages := Reached(actions).host, Next(Reached(actions), Arrives(m)).host, Messages(actions);
      && (forall l :: l in Ahead(h) ==> 1 <= l.row <= |messages|)
      && (|h'.waiting| == |h.waiting| + 1 && h'.waiting[|h.waiting|].row == |messages| + 1 <==>
            m.Bound? && forall l :: l in Ahead(h) ==> !ShareAMoment(messages[l.row - 1], m))
      && (h'.waiting == h.waiting || |h'.waiting| == |h.waiting| + 1)
  {
    AlwaysCame(actions);
    var s, messages := Reached(actions), Messages(actions);
    var h := s.host;
    hide Reached, Possible, Messages, Ahead, ShareAMoment, Clash;
    if m.Bound? {
      forall l | l in Ahead(h) ensures Clash(l, LaunchOf(h.count + 1, m)) <==> ShareAMoment(messages[l.row - 1], m) {
        assert IsOf(l, messages) && l.row == (l.row - 1) + 1;
        ClashIs(messages[l.row - 1], l.row, m, h.count + 1);
      }
    }
  }

  predicate PlaysAt(l: Launch, t: int)
  {
    l.start.Some? && l.end.Some? && l.start.value <= t < l.end.value
  }

  lemma StartedInOrder(actions: seq<Action>, i: nat, j: nat)
    requires Possible(actions) && i < j < |Reached(actions).started|
    ensures Reached(actions).started[i] < Reached(actions).started[j]
  {
    AlwaysSafe(actions);
    var s := Reached(actions);
    hide Reached, Possible, Accounted, Disjoint, OneAtATime, RunEnding;
    assert Order(s)[i] == s.started[i] && Order(s)[j] == s.started[j];
  }

  /** No message gets two rows, and none a row before it comes. */
  lemma AtMostOneRow(actions: seq<Action>, row: nat)
    requires Possible(actions)
    ensures Said(Reached(actions).rows, row) <= (if 1 <= row <= Reached(actions).host.count then 1 else 0)
  {
    AlwaysSafe(actions);
    assert AccountedFor(Reached(actions), row);
  }

  /** The threads are done: everything was read, the launcher has returned, and
      a stop that began has emptied the queue and said it. */
  predicate Over(s: State)
  {
    s.reader.ReadOut? && s.launcher.Returned? && s.left == [] && (s.host.stopping ==> s.cleared)
  }

  /** At the end every message has exactly one row, but those queued once the
      stop had emptied the queue, which have none. */
  lemma OneRowEach(actions: seq<Action>, row: nat)
    requires Possible(actions) && Over(Reached(actions)) && 1 <= row <= Reached(actions).host.count
    ensures Said(Reached(actions).rows, row) == (if row !in Reached(actions).late then 1 else 0)
  {
    AlwaysSafe(actions);
    var s := Reached(actions);
    assert AccountedFor(s, row);
    HeldWhere(s.host.waiting, row);
    hide Reached, Possible, InOrder, Disjoint;
    if !s.host.stopping {
      assert s.host.waiting == [];
    }
  }

  lemma {:induction false} HeldWhere(launches: seq<Launch>, row: nat)
    ensures Held(launches, row) > 0 <==> row in (set l | l in launches :: l.row)
  {
    if launches != [] {
      HeldWhere(launches[1..], row);
      assert launches == [launches[0]] + launches[1..];
      assert (set l | l in launches :: l.row) == {launches[0].row} + (set l | l in launches[1..] :: l.row);
    }
  }

  /** A message read off the last chunk after the stop has emptied the queue
      waits for ever, and nothing says so. */
  lemma LateGetsNone()
    ensures var run := [StopSet, StopClears, Arrives(Bound(None, None)), ReadAll, Take];
      && Possible(run) && Over(Reached(run)) && Reached(run).host.count == 1 && Reached(run).rows == []
  {
    var m := Bound(None, None);
    var s1 := Next(Begun, StopSet);
    assert [StopSet][..0] == [] && Reached([]) == Begun;
    assert Possible([]) && Possible([StopSet]) && Reached([StopSet]) == s1;
    var two := [StopSet, StopClears];
    assert two[..1] == [StopSet] && Possible(two);
    var s2 := Next(s1, StopClears);
    assert Reached(two) == s2;
    var three := [StopSet, StopClears, Arrives(m)];
    assert three[..2] == two && Possible(three);
    var s3 := Next(s2, Arrives(m));
    assert Accepts(s2.host, m) && Reached(three) == s3;
    var four := [StopSet, StopClears, Arrives(m), ReadAll];
    assert four[..3] == three && Possible(four);
    assert Reached(four) == Next(s3, ReadAll);
    var five := [StopSet, StopClears, Arrives(m), ReadAll, Take];
    assert five[..4] == four && Possible(five);
    assert Reached(five) == Next(Next(s3, ReadAll), Take);
  }
}
