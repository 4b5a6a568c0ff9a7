/** The drain loop ends for every orderly program, and leaves nothing due. */
module TimerDrain {
  import opened TimerSpec
  import opened TimerInvariant

  /** How far behind a timer is, counted in ticks during which it is not paused. */
  function Lag(t: Timer, now: int): nat {
    var at := if t.paused then t.pauseTick else now;
    if t.expire < at then at - t.expire else 0
  }

  ghost function Pick(m: map<Key, Timer>): Key
    requires m != map[]
    ensures Pick(m) in m
  {
    assert m.Keys != {};
    var k :| k in m;
    k
  }

  ghost function TotalLag(m: map<Key, Timer>, now: int): nat
    decreases |m|
  {
    if m == map[] then 0 else Lag(m[Pick(m)], now) + TotalLag(m - {Pick(m)}, now)
  }

  lemma {:induction false} TotalLagSplit(m: map<Key, Timer>, k: Key, now: int)
    requires k in m
    ensures TotalLag(m, now) == Lag(m[k], now) + TotalLag(m - {k}, now)
    decreases |m|
  {
    var p := Pick(m);
    if p != k {
      TotalLagSplit(m - {p}, k, now);
      TotalLagSplit(m - {k}, p, now);
      assert m - {p} - {k} == m - {k} - {p};
    }
  }

  lemma TotalLagPut(m: map<Key, Timer>, k: Key, t: Timer, now: int)
    ensures TotalLag(m[k := t], now) == Lag(t, now) + TotalLag(m - {k}, now)
    ensures k !in m ==> m - {k} == m
  {
    TotalLagSplit(m[k := t], k, now);
    assert m[k := t] - {k} == m - {k};
  }

  /** The lag of all timers: what the drain loop works off. */
  ghost function Backlog(s: State): nat {
    TotalLag(s.timers, s.now)
    + if s.current.Current? then Lag(s.current.timer, s.now) else 0
  }

  lemma BacklogAt(s: State, k: Key, t: Timer)
    requires k in s.timers && Lag(t, s.now) <= Lag(s.timers[k], s.now)
    ensures Backlog(s.(timers := s.timers[k := t])) <= Backlog(s)
  {
    TotalLagSplit(s.timers, k, s.now);
    TotalLagPut(s.timers, k, t, s.now);
  }

  lemma BacklogWithout(s: State, k: Key)
    ensures Backlog(Removed(s, k)) <= Backlog(s)
  {
    if k in s.timers { TotalLagSplit(s.timers, k, s.now); } else { assert s.timers - {k} == s.timers; }
  }

  /** The time at which the pause began is not in the future. */
  ghost predicate Ticked(s: State) {
    && (forall k :: k in s.timers && s.timers[k].paused ==> s.timers[k].pauseTick <= s.now)
    && (s.current.Current? && s.current.phase == Polling && s.current.timer.paused ==>
         s.current.timer.pauseTick <= s.now)
  }

  /** Pausing and resuming freezes the lag, and a timer that is over has none to add. */
  lemma HandlerBacklog(s: State, c: Command)
    requires Ticked(s) && !c.Start? && Acts(s, c)
    ensures Backlog(Handler(s, c)) <= Backlog(s) && Ticked(Handler(s, c))
  {
    hide TotalLag;
    if c.key in s.timers { BacklogAt(s, c.key, Handler(s, c).timers[c.key]); }
  }

  lemma ReturnBacklog(s: State, c: Command, s2: State)
    requires Ticked(s2) && !c.Start? && Acts(s, c)
    ensures Backlog(Return(s, c, s2)) <= Backlog(s2) && Ticked(Return(s, c, s2))
  {
    hide TotalLag;
    BacklogWithout(s2, c.key);
    if c.key in s2.timers {
      BacklogAt(s2, c.key, s2.timers[c.key].(parked := true));
      BacklogAt(s2, c.key, s2.timers[c.key].(parked := false));
    }
  }

  lemma StartBacklog(s: State, k: Key, delay: int, count: int, interval: int)
    requires Ticked(s) && Startable(delay, interval)
    ensures var s' := StartTimer(s, k, delay, count, interval); Backlog(s') <= Backlog(s) && Ticked(s')
  {
    hide TotalLag;
    if !Known(s, k) { TotalLagPut(s.timers, k, StartTimer(s, k, delay, count, interval).timers[k], s.now); }
  }

  /** No command adds to the backlog, whatever it sets off. */
  lemma {:induction false} ExecBacklog(s: State, c: Command)
    requires Ticked(s)
    ensures Backlog(Exec(s, c)) <= Backlog(s) && Ticked(Exec(s, c))
    decreases c
  {
    hide Backlog, Ticked, Handler, Return, StartTimer;
    if c.Start? {
      if Startable(c.delay, c.interval) { StartBacklog(s, c.key, c.delay, c.count, c.interval); }
    } else if Acts(s, c) {
      HandlerBacklog(s, c);
      ExecAllBacklog(Handler(s, c), c.inner);
      ReturnBacklog(s, c, ExecAll(Handler(s, c), c.inner));
    }
  }

  lemma {:induction false} ExecAllBacklog(s: State, cs: seq<Command>)
    requires Ticked(s)
    ensures Backlog(ExecAll(s, cs)) <= Backlog(s) && Ticked(ExecAll(s, cs))
    decreases cs, 0
  {
    hide Backlog, Ticked;
    if cs != [] {
      ExecBacklog(s, cs[0]);
      ExecAllBacklog(Exec(s, cs[0]), cs[1..]);
    }
  }

  lemma NotifyBacklog(script: Script, s: State, c: Callback)
    requires OrderlyScript(script) && Loggable(s, c)
    ensures Backlog(Notify(script, s, c)) <= Backlog(s)
  {
    LogKeepsInv(s, c);
    ExecAllBacklog(LogCurrent(s, c), script(LogCurrent(s, c).log));
  }

  lemma PollBacklog(s: State)
    requires Inv(s) && s.current.Nobody? && s.due != []
    ensures Backlog(Poll(s)) == Backlog(s)
  {
    TotalLagSplit(s.timers, s.due[0], s.now);
  }

  lemma BeginBacklog(script: Script, s: State)
    requires OrderlyScript(script) && Inv(s) && s.current.Nobody? && s.due != []
    ensures Backlog(Begin(script, Poll(s))) <= Backlog(s)
  {
    PollKeepsInv(s);
    PollBacklog(s);
    if !Poll(s).current.timer.started {
      StartLoggable(Poll(s));
      NotifyBacklog(script, Poll(s), OnStart);
    }
  }

  lemma CallBacklog(script: Script, s: State, t: Timer, totals: seq<int>)
    requires OrderlyScript(script) && Begun(s, t, totals)
    ensures Backlog(Call(script, s)) <= Backlog(s)
  {
    if s.current.phase == Polling {
      CallLoggable(s);
      NotifyBacklog(script, WithCurrent(s, Counted(s.current.timer)), OnTimer);
    }
  }

  lemma EndBacklog(script: Script, s: State, t: Timer, totals: seq<int>)
    requires OrderlyScript(script) && Returned(s, t, totals) && s.current.phase == Polling && s.current.timer.count == 0
    ensures Backlog(Settle(Finish(script, Advance(s)))) < Backlog(s)
  {
    EndLoggable(s, t, totals);
    NotifyBacklog(script, Ended(Advance(s)), OnEnd(true));
    NotifyKeepsInv(script, Ended(Advance(s)), OnEnd(true));
  }

  /** The poll works off at least one tick of lag. */
  lemma CloseBacklog(script: Script, s: State, t: Timer, totals: seq<int>)
    requires OrderlyScript(script) && Returned(s, t, totals)
    ensures Backlog(Settle(Finish(script, Advance(s)))) < Backlog(s)
  {
    hide Settle, Backlog, Returned;
    ReturnedFacts(s, t, totals);
    if s.current.phase == Polling && s.current.timer.count == 0 {
      EndBacklog(script, s, t, totals);
    } else {
      SettleBacklog(s);
    }
  }

  lemma SettleBacklog(s: State)
    requires s.current.Current? && Left(s.current.timer, s.now)
    requires s.current.phase == Polling ==> 1 <= s.current.timer.interval && s.current.key !in s.timers
    ensures Backlog(Settle(Advance(s))) < Backlog(s)
  {
    var t1 := Later(s.current.timer, 1);
    if s.current.phase == Polling {
      hide TotalLag;
      CatchUp(t1, s.now);
      TotalLagPut(s.timers, s.current.key, if t1.paused then t1.(parked := true)
        else Later(t1, Missed(t1, s.now)), s.now);
    }
  }

  /** Every turn of the drain loop shrinks the backlog, for every orderly program. */
  lemma FireBacklog(script: Script, s: State)
    requires OrderlyScript(script) && Inv(s) && s.current.Nobody? && s.due != []
    ensures Backlog(Fire(script, s)) < Backlog(s)
  {
    BeginReturns(script, s);
    BeginBacklog(script, s);
    var s1, t := Begin(script, Poll(s)), s.timers[s.due[0]];
    CallReturns(script, s1, t, s.totals);
    CallBacklog(script, s1, t, s.totals);
    CloseBacklog(script, Call(script, s1), t, s.totals);
  }

  /** The drain loop. It ends, nothing is due then, and no scheduled timer lies in the past. */
  ghost function Drain(script: Script, s: State): (s': State)
    requires OrderlyScript(script) && Inv(s) && s.current.Nobody?
    ensures Inv(s') && s'.current.Nobody? && s'.due == [] && s'.now == s.now
    ensures forall k :: k in s'.timers && !s'.timers[k].paused ==> s'.timers[k].expire >= s'.now
    decreases Backlog(s)
  {
    if s.due == [] then s
    else
      FireKeepsInv(script, s);
      FireBacklog(script, s);
      Drain(script, Fire(script, s))
  }
}
