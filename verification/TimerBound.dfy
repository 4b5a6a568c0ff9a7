/** The bound on the calls in one drain is reached: two timers that each pause themselves and resume the other
    are called once for every tick they are late. */
module TimerBound {
  import opened TimerSpec
  import opened TimerInvariant
  import opened TimerDrain
  import opened TimerRuns
  import opened TimerCalls
  import opened TimerHandlers
  import opened Wrappers

  const X := Key(0, 0, 0)
  const Y := Key(1, 0, 0)

  function Other(k: Key): Key {
    if k == X then Y else X
  }

  function SerialOf(k: Key): nat {
    if k == X then 0 else 1
  }

  /** What onTimer of either timer does. */
  function PingPong(log: seq<Event>): seq<Command> {
    if log != [] && log[|log| - 1].callback == OnTimer then
      [Pause(log[|log| - 1].key, []), Resume(Other(log[|log| - 1].key), [])]
    else []
  }

  const SCRIPT: Script := PingPong

  lemma PingPongIsOrderly()
    ensures OrderlyScript(SCRIPT)
  {
    TameScriptIsOrderly(SCRIPT);
  }

  predicate Endless(t: Timer, k: Key) {
    t.serial == SerialOf(k) && t.interval == 1 && t.count == -1
  }

  /** Timer a is late by `la` ticks, and the other one, which is paused, by `lb`. */
  ghost predicate Waiting(s: State, a: Key, la: nat, lb: nat) {
    var b := Other(a);
    && Inv(s) && s.current.Nobody? && a in {X, Y} && s.timers.Keys == {a, b}
    && Endless(s.timers[a], a) && Endless(s.timers[b], b)
    && !s.timers[a].paused && s.timers[a].expire == s.now - la && s.due == (if la > 0 then [a] else [])
    && s.timers[b].paused && s.timers[b].pauseTick == s.now && s.timers[b].expire == s.now - lb
  }

  /** The state in which the onTimer of a is called. */
  ghost predicate Serving(s: State, a: Key, la: nat, lb: nat) {
    var b := Other(a);
    && s.current.Current? && s.current.phase == Polling && s.current.key == a && a in {X, Y}
      && s.timers.Keys == {b} && s.due == []
    && Endless(s.current.timer, a) && Endless(s.timers[b], b)
    && !s.current.timer.paused && s.current.timer.expire == s.now - la && s.current.timer.valid
    && s.timers[b].paused && s.timers[b].valid && s.timers[b].pauseTick == s.now && s.timers[b].expire == s.now - lb
  }

  lemma Begins(s: State, a: Key, la: nat, lb: nat, n: nat)
    requires Waiting(s, a, la, lb) && la > 0
    ensures a in s.timers && Serving(Begin(SCRIPT, Poll(s)), a, la, lb)
    ensures Calls(Begin(SCRIPT, Poll(s)), n) == Calls(s, n)
  {
    hide CountOf, Core;
    var s0 := Poll(s);
    assert s0.timers.Keys == {Other(a)} && s0.due == [];
    assert Serving(s0, a, la, lb);
    if !s0.current.timer.started {
      NotifyCalls(SCRIPT, s0, OnStart, n);
      assert SCRIPT(LogCurrent(s0, OnStart).log) == [];
      assert Notify(SCRIPT, s0, OnStart) == LogCurrent(s0, OnStart);
    }
  }

  lemma CommandsOf(s: State, a: Key, la: nat, lb: nat)
    requires Serving(s, a, la, lb)
    ensures var s', b := ExecAll(s, [Pause(a, []), Resume(Other(a), [])]), Other(a);
      && s'.current == Current(a, Paused(s.current.timer, s.now), Polling)
      && s'.timers == map[b := Resumed(s.timers[b], s.now).(parked := false)]
      && s'.due == (if lb > 0 then [b] else []) && s'.now == s.now
  {
    var b, m := Other(a), s.(log := s.log + [Event(SerialOf(a), a, OnPause)],
                             current := s.current.(timer := Paused(s.current.timer, s.now)));
    assert Exec(s, Pause(a, [])) == m;
    ResumeOf(m, b, lb);
    var s' := Exec(m, Resume(b, []));
    hide Exec;
    assert ExecAll(s, [Pause(a, []), Resume(b, [])]) == ExecAll(m, [Resume(b, [])]) == ExecAll(s', []) == s';
  }

  lemma ResumeOf(s: State, b: Key, lb: nat)
    requires s.timers.Keys == {b} && s.timers[b].paused && s.timers[b].valid && s.due == []
    requires s.timers[b].pauseTick == s.now && s.timers[b].expire == s.now - lb
    ensures var s' := Exec(s, Resume(b, []));
      && s'.current == s.current && s'.timers == map[b := Resumed(s.timers[b], s.now).(parked := false)]
      && s'.due == (if lb > 0 then [b] else []) && s'.now == s.now
  {
    var s1 := Handler(s, Resume(b, []));
    assert Exec(s, Resume(b, [])) == Refile(s1, b);
    assert Refile(s1, b).timers == map[b := s1.timers[b].(parked := false)];
  }

  /** One turn changes their parts. */
  lemma Ping(s: State, a: Key, la: nat, lb: nat, n: nat)
    requires Waiting(s, a, la, lb) && la > 0
    ensures Waiting(Fire(SCRIPT, s), Other(a), lb, la - 1)
    ensures Calls(Fire(SCRIPT, s), n) == Calls(s, n) + if n == SerialOf(a) then 1 else 0
  {
    hide CountOf, Core, ExecAll, Begin;
    PingPongIsOrderly();
    FireKeepsInv(SCRIPT, s);
    assert Other(Other(a)) == a;
    Begins(s, a, la, lb, n);
    var s1 := Begin(SCRIPT, Poll(s));
    var s2 := WithCurrent(s1, Counted(s1.current.timer));
    NotifyCalls(SCRIPT, s2, OnTimer, n);
    var s3 := LogCurrent(s2, OnTimer);
    assert SCRIPT(s3.log) == [Pause(a, []), Resume(Other(a), [])];
    CommandsOf(s3, a, la, lb);
  }

  function Min(x: nat, y: nat): nat {
    if x < y then x else y
  }

  lemma {:induction false} Rally(s: State, a: Key, la: nat, lb: nat)
    requires OrderlyScript(SCRIPT) && Waiting(s, a, la, lb)
    ensures Calls(Drain(SCRIPT, s), SerialOf(a)) == Calls(s, SerialOf(a)) + Min(la, lb + 1)
    ensures Calls(Drain(SCRIPT, s), SerialOf(Other(a))) == Calls(s, SerialOf(Other(a))) + Min(lb, la)
    decreases la + lb
  {
    hide CountOf, Core, Fire, Inv;
    if la > 0 {
      Ping(s, a, la, lb, SerialOf(a));
      Ping(s, a, la, lb, SerialOf(Other(a)));
      Rally(Fire(SCRIPT, s), Other(a), lb, la - 1);
    }
  }

  // ----- from the beginning

  function Fresh(k: Key): Timer {
    Timer(SerialOf(k), 1, 0, -1, false, false, 0, true, false, History(0, 0, 0, 0, 0))
  }

  /** Both timers were started, and j ticks have passed. */
  function Idle(j: nat): State {
    State(j, map[X := Fresh(X), Y := Fresh(Y)], if j > 0 then [X, Y] else [], Nobody, [], [-1, -1], false)
  }

  function Joining(j: nat): seq<Key> {
    if j == 0 then [X, Y] else []
  }

  lemma IdleTicks(j: nat)
    ensures Tick(Idle(j), Idle(j + 1), Joining(j))
  {
    BothJoin();
    var s, s' := Idle(j), Idle(j + 1);
    assert s.due + Joining(j) == s'.due;
    if j > 0 { assert Distinct(Joining(j)); }
  }

  lemma BothJoin()
    ensures Distinct([X, Y])
    ensures forall k :: k in [X, Y] <==> k in Idle(0).timers
    ensures forall k, j :: k in Idle(j).timers ==> !Idle(j).timers[k].parked && Idle(j).timers[k].expire == 0
  {
  }

  function First(): State {
    State(0, map[X := Fresh(X)], [], Nobody, [], [-1], false)
  }

  lemma Starts(s: State, k: Key)
    requires !Known(s, k) && s.now == 0 && |s.totals| == SerialOf(k)
    ensures Exec(s, Start(k, 0, -1, 10)) == s.(timers := s.timers[k := Fresh(k)], totals := s.totals + [-1])
  {
  }

  lemma IdleStarts()
    ensures Exec(INIT, Start(X, 0, -1, 10)) == First() && Exec(First(), Start(Y, 0, -1, 10)) == Idle(0)
  {
    hide Exec;
    Starts(INIT, X);
    Starts(First(), Y);
    assert [-1] + [-1] == [-1, -1];
    assert First().timers[Y := Fresh(Y)] == Idle(0).timers;
  }

  function Parted(m: nat): State {
    State(m, map[X := Fresh(X), Y := Paused(Fresh(Y), m).(parked := true)], [X], Nobody,
      [Event(1, Y, OnPause)], [-1, -1], false)
  }

  lemma IdlePauses(m: nat)
    requires m > 0
    ensures Exec(Idle(m), Pause(Y, [])) == Parted(m)
  {
    var s1 := Handler(Idle(m), Pause(Y, []));
    assert Exec(Idle(m), Pause(Y, [])) == Return(Idle(m), Pause(Y, []), s1);
    assert Without([X, Y], Y) == [X] by {
      assert [X, Y][1..] == [Y] && [Y][1..] == [];
      assert Without([], Y) == [];
      assert Without([Y], Y) == [];
    }
  }

  lemma PartedWaits(m: nat)
    requires m > 0 && Inv(Parted(m))
    ensures var s := Parted(m); Waiting(s, X, m, m) && CallsLeft(s.timers[X], s.now) == m
  {
    hide Core;
  }

  /** For every m there is a run from launch to a state in which a timer is m periods late, and the drain then
      calls it m times: so the bound for all programs cannot be lowered, and a timer that pauses itself may be
      called more than twice. */
  lemma BoundIsReached(m: nat) returns (states: seq<State>, actions: seq<Action>)
    requires m > 0
    ensures OrderlyScript(SCRIPT) && Run(SCRIPT, states, actions) && states[0] == INIT
    ensures var s := states[|states| - 1];
      && Inv(s) && s.current.Nobody? && X in s.timers && s.timers[X].serial == 0
      && CallsLeft(s.timers[X], s.now) == m && Calls(Drain(SCRIPT, s), 0) == Calls(s, 0) + m
  {
    states, actions := States(m), Actions(m);
    PingPongIsOrderly();
    ItRuns(m);
    InitInv();
    RunKeepsInv(SCRIPT, states, actions, m + 3);
    PartedWaits(m);
    Rally(Parted(m), X, m, m);
  }

  function States(m: nat): (r: seq<State>)
    ensures |r| == m + 4 && r[0] == INIT && r[1] == First() && r[m + 3] == Parted(m)
    ensures forall j :: 2 <= j < m + 3 ==> r[j] == Idle(j - 2)
  {
    [INIT, First()] + seq(m + 1, j requires 0 <= j => Idle(j)) + [Parted(m)]
  }

  function Actions(m: nat): (r: seq<Action>)
    ensures |r| == m + 3 && r[0] == Do(Start(X, 0, -1, 10)) && r[1] == Do(Start(Y, 0, -1, 10))
      && r[m + 2] == Do(Pause(Y, []))
    ensures forall j :: 2 <= j < m + 2 ==> r[j] == Pass(Joining(j - 2))
  {
    [Do(Start(X, 0, -1, 10)), Do(Start(Y, 0, -1, 10))] + seq(m, j requires 0 <= j => Pass(Joining(j)))
      + [Do(Pause(Y, []))]
  }

  lemma ItRuns(m: nat)
    requires m > 0
    ensures Run(SCRIPT, States(m), Actions(m))
  {
    hide Exec, Idle, Parted, Tick, States, Actions;
    IdleStarts();
    IdlePauses(m);
    forall i | 0 <= i < m + 3 ensures Next(SCRIPT, States(m)[i], Actions(m)[i], States(m)[i + 1]) {
      if 2 <= i < m + 2 { IdleTicks(i - 2); IdleIsIdle(i - 2); } else { IdleIsIdle(m); }
    }
  }

  lemma IdleIsIdle(j: nat)
    ensures Idle(j).current.Nobody?
  {
  }
}
