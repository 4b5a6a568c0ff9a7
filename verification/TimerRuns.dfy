/** Theorems about whole runs of the timer manager. */
module TimerRuns {
  import opened TimerSpec
  import opened TimerInvariant
  import opened TimerDrain

  /** Between polls the manager obeys a command, lets a tick pass, or takes one turn of the drain loop. */
  datatype Action = Do(command: Command) | Pass(order: seq<Key>) | Turn

  ghost predicate Next(script: Script, s: State, a: Action, s': State) {
    s.current.Nobody? &&
    match a
    case Do(c) => Orderly(s, c, {}) && s' == Exec(s, c)
    case Pass(order) => Tick(s, s', order)
    case Turn => s.due != [] && s.due[0] in s.timers && s' == Fire(script, s)
  }

  ghost predicate Run(script: Script, states: seq<State>, actions: seq<Action>) {
    && |states| == |actions| + 1
    && forall i :: 0 <= i < |actions| ==> Next(script, states[i], actions[i], states[i + 1])
  }

  lemma RunNext(script: Script, states: seq<State>, actions: seq<Action>, i: nat)
    requires Run(script, states, actions) && 0 < i < |states|
    ensures i <= |actions| && Next(script, states[i - 1], actions[i - 1], states[i])
  {
    assert Next(script, states[i - 1], actions[i - 1], states[i - 1 + 1]);
  }

  lemma RunOn(script: Script, states: seq<State>, actions: seq<Action>, a: Action, s: State)
    requires Run(script, states, actions) && Next(script, states[|states| - 1], a, s)
    ensures Run(script, states + [s], actions + [a])
  {
  }

  /** Safety over every run: the invariant, and with it the callback protocol, holds in all states. */
  lemma {:induction false} RunKeepsInv(script: Script, states: seq<State>, actions: seq<Action>, i: nat)
    requires OrderlyScript(script) && Run(script, states, actions) && i < |states|
    requires Inv(states[0]) && states[0].current.Nobody?
    ensures Inv(states[i]) && states[i].current.Nobody?
    decreases i
  {
    if i > 0 {
      RunKeepsInv(script, states, actions, i - 1);
      var s, a := states[i - 1], actions[i - 1];
      assert Next(script, s, a, states[i]);
      match a
      case Do(c) => ExecKeepsInv(s, c);
      case Pass(order) => TickKeepsInv(s, states[i], order);
      case Turn => FireKeepsInv(script, s);
    }
  }

  lemma InitInv()
    ensures Inv(INIT)
  {
  }

  // ----- a timer that no callback is about stays as it is

  /** No event of timer n is logged between log and log'. */
  ghost predicate Silent(log: seq<Event>, log': seq<Event>, n: nat) {
    log <= log' && forall i :: |log| <= i < |log'| ==> log'[i].serial != n
  }

  ghost predicate Untouched(s: State, s': State, k: Key, n: nat) {
    s.log <= s'.log &&
    (k in s.timers && s.timers[k].serial == n && Silent(s.log, s'.log, n)
     ==> k in s'.timers && s'.timers[k] == s.timers[k])
  }

  lemma UntouchedTrans(s: State, m: State, s': State, k: Key, n: nat)
    requires Untouched(s, m, k, n) && Untouched(m, s', k, n)
    ensures Untouched(s, s', k, n)
  {
    if Silent(s.log, s'.log, n) {
      forall i | |s.log| <= i < |m.log| ensures m.log[i].serial != n { assert m.log[i] == s'.log[i]; }
    }
  }

  /** A command: a handler runs from s1 to s2, after and before a change to its own timer c. */
  lemma UntouchedAround(s: State, s1: State, s2: State, s': State, c: Key, k: Key, n: nat)
    requires |s1.log| == |s.log| + 1 && s.log <= s1.log && Untouched(s1, s2, k, n) && s'.log == s2.log
    requires OnlyAt(s, s1, c) && OnlyAt(s2, s', c)
    requires c in s.timers ==> s1.log[|s.log|].serial == s.timers[c].serial
    ensures Untouched(s, s', k, n)
  {
    if k in s.timers && s.timers[k].serial == n && Silent(s.log, s'.log, n) {
      assert s'.log[|s.log|] == s1.log[|s.log|];
      assert k != c;
      forall i | |s1.log| <= i < |s2.log| ensures s2.log[i].serial != n { }
    }
  }

  lemma HandlerOnly(s: State, c: Command, s2: State)
    requires !c.Start? && Acts(s, c)
    ensures var s1 := Handler(s, c);
      && |s1.log| == |s.log| + 1 && s.log <= s1.log && OnlyAt(s, s1, c.key)
      && s1.log[|s.log|].callback in {OnPause, OnResume, OnEnd(false)}
      && (c.key in s.timers ==> s1.log[|s.log|].serial == s.timers[c.key].serial)
    ensures OnlyAt(s2, Return(s, c, s2), c.key)
  {
    WithoutOnly(s2, c.key);
  }

  lemma {:induction false} ExecTouches(s: State, c: Command, k: Key, n: nat)
    ensures Untouched(s, Exec(s, c), k, n)
    decreases c
  {
    if !c.Start? && Acts(s, c) {
      hide Untouched, Handler, Return, OnlyAt;
      var s1 := Handler(s, c);
      var s2 := ExecAll(s1, c.inner);
      ExecAllTouches(s1, c.inner, k, n);
      HandlerOnly(s, c, s2);
      UntouchedAround(s, s1, s2, Return(s, c, s2), c.key, k, n);
    }
  }

  lemma {:induction false} ExecAllTouches(s: State, cs: seq<Command>, k: Key, n: nat)
    ensures Untouched(s, ExecAll(s, cs), k, n)
    decreases cs, 0
  {
    if cs != [] {
      var m := Exec(s, cs[0]);
      ExecTouches(s, cs[0], k, n);
      ExecAllTouches(m, cs[1..], k, n);
      UntouchedTrans(s, m, ExecAll(s, cs), k, n);
    }
  }

  lemma NotifyTouches(script: Script, s: State, c: Callback, k: Key, n: nat)
    requires OrderlyScript(script) && s.current.Current?
    ensures Untouched(s, Notify(script, s, c), k, n)
    ensures |s.log| < |Notify(script, s, c).log|
    ensures Notify(script, s, c).log[|s.log|] == Event(s.current.timer.serial, s.current.key, c)
  {
    var s1 := LogCurrent(s, c);
    ExecAllTouches(s1, script(s1.log), k, n);
    UntouchedTrans(s, s1, Notify(script, s, c), k, n);
  }

  lemma PollLogs(script: Script, s: State, k: Key, n: nat)
    requires OrderlyScript(script) && s.due != [] && s.due[0] in s.timers
    ensures var s' := Served(script, s);
      && Untouched(Poll(s), s', k, n)
      && |s.log| < |s'.log| && s.log <= s'.log && s'.log[|s.log|].serial == s.timers[s.due[0]].serial
  {
    var s0 := Poll(s);
    if !s0.current.timer.started { NotifyTouches(script, s0, OnStart, k, n); }
    var s1 := Begin(script, s0);
    assert Untouched(s0, s1, k, n);
    if s1.current.phase == Polling { NotifyTouches(script, WithCurrent(s1, Counted(s1.current.timer)), OnTimer, k, n); }
    var s2 := Advance(Call(script, s1));
    assert Untouched(s1, s2, k, n);
    UntouchedTrans(s0, s1, s2, k, n);
    if s2.current.timer.count == 0 && s2.current.phase == Polling {
      NotifyTouches(script, Ended(s2), OnEnd(true), k, n);
    }
    var s3 := Finish(script, s2);
    assert Untouched(s2, s3, k, n);
    UntouchedTrans(s0, s2, s3, k, n);
  }

  lemma FireTouches(script: Script, s: State, k: Key, n: nat)
    requires OrderlyScript(script) && Inv(s) && s.current.Nobody? && s.due != []
    ensures Untouched(s, Fire(script, s), k, n)
  {
    hide Served, Settle, Returned, Begun, Inv, Untouched;
    PolledInterval(s);
    PollLogs(script, s, k, n);
    SettleTouches(s, Served(script, s), k, n);
  }

  lemma SettleTouches(s: State, s': State, k: Key, n: nat)
    requires s.due != [] && s.due[0] in s.timers && s'.current.Current? && s'.current.key == s.due[0]
    requires Untouched(Poll(s), s', k, n)
    requires |s.log| < |s'.log| && s.log <= s'.log && s'.log[|s.log|].serial == s.timers[s.due[0]].serial
    ensures Untouched(s, Settle(s'), k, n)
  {
  }

  lemma {:induction false} DrainTouches(script: Script, s: State, k: Key, n: nat)
    requires OrderlyScript(script) && Inv(s) && s.current.Nobody?
    ensures Untouched(s, Drain(script, s), k, n)
    decreases Backlog(s)
  {
    if s.due != [] {
      FireKeepsInv(script, s);
      FireBacklog(script, s);
      FireTouches(script, s, k, n);
      DrainTouches(script, Fire(script, s), k, n);
      UntouchedTrans(s, Fire(script, s), Drain(script, s), k, n);
    }
  }

  /** Nothing due is left out: by the end of a drain every due timer has had some callback. */
  lemma DrainServes(script: Script, s: State, k: Key)
    requires OrderlyScript(script) && Inv(s) && s.current.Nobody? && k in s.due
    ensures !Silent(s.log, Drain(script, s).log, s.timers[k].serial)
  {
    DrainTouches(script, s, k, s.timers[k].serial);
  }

  // ----- exact firing

  lemma NoTicks(s: State)
    ensures Ticks(s, s, 0, [])
  {
  }

  lemma TicksCompose(s: State, m: State, s': State, n: nat, order: seq<Key>, last: seq<Key>)
    requires Ticks(s, m, n, order) && Tick(m, s', last)
    ensures Ticks(s, s', n + 1, order + last)
  {
    forall k | k in order ensures k !in last { }
    DistinctAppend(order, last);
  }

  /** Along any run a timer that nothing kills, pauses or polls keeps its expiry E, and it is due
      exactly in the states past E: it becomes due by the tick from E to E + 1 and by no other. */
  lemma {:induction false} DueExactly(script: Script, states: seq<State>, actions: seq<Action>, k: Key, i: nat)
    requires OrderlyScript(script) && Run(script, states, actions) && i < |states|
    requires Inv(states[0]) && states[0].current.Nobody?
    requires k in states[0].timers && !states[0].timers[k].paused
    requires Silent(states[0].log, states[i].log, states[0].timers[k].serial)
    ensures k in states[i].timers && states[i].timers[k] == states[0].timers[k]
    ensures k in states[i].due <==> states[i].now > states[0].timers[k].expire
    decreases i
  {
    RunKeepsInv(script, states, actions, i);
    RunTouches(script, states, actions, k, states[0].timers[k].serial, i);
  }

  lemma {:induction false} RunTouches(script: Script, states: seq<State>, actions: seq<Action>, k: Key, n: nat, i: nat)
    requires OrderlyScript(script) && Run(script, states, actions) && i < |states|
    requires Inv(states[0]) && states[0].current.Nobody?
    ensures Untouched(states[0], states[i], k, n)
    decreases i
  {
    if i > 0 {
      var s, a := states[i - 1], actions[i - 1];
      RunTouches(script, states, actions, k, n, i - 1);
      RunKeepsInv(script, states, actions, i - 1);
      assert Next(script, s, a, states[i]);
      match a {
        case Do(c) => ExecTouches(s, c, k, n);
        case Pass(order) =>
        case Turn => FireTouches(script, s, k, n);
      }
      UntouchedTrans(states[0], s, states[i], k, n);
    }
  }
}
