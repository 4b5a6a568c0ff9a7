/** How often a drain calls the timers. */
module TimerCalls {
  import opened TimerSpec
  import opened TimerInvariant
  import opened TimerDrain
  import opened TimerRuns
  import opened Numbers

  function Calls(s: State, n: nat): nat {
    CountOf(s.log, n, OnTimer)
  }

  // ----- one turn calls one timer

  /** From log to log' no onStart, onTimer or onEnd(true) was logged. */
  ghost predicate Quiet(log: seq<Event>, log': seq<Event>) {
    log <= log' && forall i :: |log| <= i < |log'| ==> log'[i].callback in {OnPause, OnResume, OnEnd(false)}
  }

  lemma {:induction false} QuietCounts(log: seq<Event>, log': seq<Event>, n: nat)
    requires Quiet(log, log')
    ensures CountOf(log', n, OnTimer) == CountOf(log, n, OnTimer)
    decreases |log'|
  {
    if |log'| > |log| {
      assert log'[|log'| - 1].callback != OnTimer;
      QuietCounts(log, log'[..|log'| - 1], n);
    } else {
      assert log' == log;
    }
  }

  lemma {:induction false} ExecIsQuiet(s: State, c: Command)
    ensures Quiet(s.log, Exec(s, c).log)
    decreases c
  {
    if !c.Start? && Acts(s, c) {
      hide Handler, OnlyAt;
      HandlerOnly(s, c, s);
      ExecAllIsQuiet(Handler(s, c), c.inner);
    }
  }

  lemma {:induction false} ExecAllIsQuiet(s: State, cs: seq<Command>)
    ensures Quiet(s.log, ExecAll(s, cs).log)
    decreases cs, 0
  {
    if cs != [] {
      ExecIsQuiet(s, cs[0]);
      ExecAllIsQuiet(Exec(s, cs[0]), cs[1..]);
    }
  }

  lemma NotifyCalls(script: Script, s: State, c: Callback, n: nat)
    requires s.current.Current?
    ensures Calls(Notify(script, s, c), n) == Calls(s, n) + if c == OnTimer && n == s.current.timer.serial then 1 else 0
  {
    var s1 := LogCurrent(s, c);
    ExecAllIsQuiet(s1, script(s1.log));
    QuietCounts(s1.log, Notify(script, s, c).log, n);
    assert s1.log[..|s1.log| - 1] == s.log;
  }

  /** One turn calls onTimer of the first due timer at most once, and of no other timer at all. */
  lemma FireCalls(script: Script, s: State, n: nat)
    requires OrderlyScript(script) && Inv(s) && s.current.Nobody? && s.due != []
    ensures Calls(Fire(script, s), n) - Calls(s, n) in {0, if n == s.timers[s.due[0]].serial then 1 else 0}
  {
    hide Inv, Notify, CountOf, Settle;
    PolledInterval(s);
    var s0 := Poll(s);
    if !s0.current.timer.started { NotifyCalls(script, s0, OnStart, n); }
    BeginReturns(script, s);
    var s1 := Begin(script, s0);
    if s1.current.phase == Polling { NotifyCalls(script, WithCurrent(s1, Counted(s1.current.timer)), OnTimer, n); }
    var s2 := Advance(Call(script, s1));
    if s2.current.timer.count == 0 && s2.current.phase == Polling { NotifyCalls(script, Ended(s2), OnEnd(true), n); }
    SettleLogs(Finish(script, s2));
  }

  lemma SettleLogs(s: State)
    requires s.current.Current?
    ensures Settle(s).log == s.log
  {
  }

  // ----- how many calls a late timer has left

  /** When the timer expires, if it is paused and is resumed at once. */
  function Expiry(t: Timer, now: int): int {
    if t.paused then now + t.expire - t.pauseTick else t.expire
  }

  /** The ticks of a timer's period that have passed: its lag divided by its interval, rounded up. */
  function CallsLeft(t: Timer, now: int): nat {
    var e := Expiry(t, now);
    if e >= now || t.interval <= 0 then 0 else (now - 1 - e) / t.interval + 1
  }

  /** The timer with serial number n, wherever it is, has at most m calls left. */
  ghost predicate Bounded(s: State, n: nat, m: nat) {
    && (forall k :: k in s.timers && s.timers[k].serial == n ==> CallsLeft(s.timers[k], s.now) <= m)
    && (s.current.Current? && s.current.phase == Polling && s.current.timer.serial == n
        ==> CallsLeft(s.current.timer, s.now) <= m)
  }

  /** Pausing and resuming, and where a timer is kept, make no difference. */
  lemma SameLeft(t: Timer, now: int)
    ensures !t.paused ==> CallsLeft(Paused(t, now), now) == CallsLeft(t, now)
    ensures t.paused ==> CallsLeft(Resumed(t, now), now) == CallsLeft(t, now)
    ensures forall b :: CallsLeft(t.(valid := b), now) == CallsLeft(t, now) == CallsLeft(t.(parked := b), now)
  {
  }

  lemma HandlerBounded(s: State, c: Command, n: nat, m: nat)
    requires Bounded(s, n, m) && !c.Start? && Acts(s, c)
    ensures Bounded(Handler(s, c), n, m)
  {
    hide CallsLeft;
    SameLeft(RecordOf(s, c.key), s.now);
  }

  lemma ReturnBounded(s: State, c: Command, s2: State, n: nat, m: nat)
    requires Bounded(s2, n, m) && !c.Start? && Acts(s, c)
    ensures Bounded(Return(s, c, s2), n, m)
  {
    hide CallsLeft;
    if c.key in s2.timers { SameLeft(s2.timers[c.key], s2.now); }
  }

  lemma StartBounded(s: State, k: Key, delay: int, count: int, interval: int, n: nat, m: nat)
    requires Bounded(s, n, m) && Startable(delay, interval)
    ensures Bounded(StartTimer(s, k, delay, count, interval), n, m)
  {
  }

  /** No command gives a timer more calls, whatever it sets off. */
  lemma {:induction false} ExecBounded(s: State, c: Command, n: nat, m: nat)
    requires Bounded(s, n, m)
    ensures Bounded(Exec(s, c), n, m)
    decreases c
  {
    hide Bounded, Handler, Return, StartTimer;
    if c.Start? {
      if Startable(c.delay, c.interval) { StartBounded(s, c.key, c.delay, c.count, c.interval, n, m); }
    } else if Acts(s, c) {
      HandlerBounded(s, c, n, m);
      ExecAllBounded(Handler(s, c), c.inner, n, m);
      ReturnBounded(s, c, ExecAll(Handler(s, c), c.inner), n, m);
    }
  }

  lemma {:induction false} ExecAllBounded(s: State, cs: seq<Command>, n: nat, m: nat)
    requires Bounded(s, n, m)
    ensures Bounded(ExecAll(s, cs), n, m)
    decreases cs, 0
  {
    if cs != [] {
      ExecBounded(s, cs[0], n, m);
      ExecAllBounded(Exec(s, cs[0]), cs[1..], n, m);
    }
  }

  lemma NotifyBounded(script: Script, s: State, c: Callback, n: nat, m: nat)
    requires s.current.Current? && Bounded(s, n, m)
    ensures Bounded(Notify(script, s, c), n, m) && Notify(script, s, c).current.Current?
  {
    var s1 := LogCurrent(s, c);
    ExecAllBounded(s1, script(s1.log), n, m);
  }

  lemma SameCalls(t: Timer, now: int)
    ensures CallsLeft(t.(started := true), now) == CallsLeft(t, now) == CallsLeft(Counted(t), now)
    ensures CallsLeft(CountDown(t), now) == CallsLeft(t, now)
  {
  }

  lemma WithBounded(s: State, t: Timer, n: nat, m: nat)
    requires s.current.Current? && Bounded(s, n, m) && t.serial == s.current.timer.serial
    requires CallsLeft(t, s.now) == CallsLeft(s.current.timer, s.now)
    ensures Bounded(WithCurrent(s, t), n, m)
  {
    hide CallsLeft;
  }

  /** The state after the onTimer of a poll. */
  lemma CalledBounded(script: Script, s: State, n: nat, m: nat)
    requires s.due != [] && s.due[0] in s.timers && s.current.Nobody? && Bounded(s, n, m)
    ensures Bounded(Call(script, Begin(script, Poll(s))), n, m)
  {
    var s0 := Poll(s);
    assert Bounded(s0, n, m);
    hide Bounded, CallsLeft, Notify;
    if !s0.current.timer.started {
      NotifyBounded(script, s0, OnStart, n, m);
      var b := Notify(script, s0, OnStart);
      SameCalls(b.current.timer, b.now);
      WithBounded(b, b.current.timer.(started := true), n, m);
    }
    var s1 := Begin(script, s0);
    if s1.current.phase == Polling {
      SameCalls(s1.current.timer, s1.now);
      WithBounded(s1, Counted(s1.current.timer), n, m);
      var s2 := WithCurrent(s1, Counted(s1.current.timer));
      NotifyBounded(script, s2, OnTimer, n, m);
      var c := Notify(script, s2, OnTimer);
      SameCalls(c.current.timer, c.now);
      WithBounded(c, CountDown(c.current.timer), n, m);
    }
  }

  /** A call uses up one of the calls left; catching up leaves one at most. */
  lemma CallUsesUp(t: Timer, now: int)
    requires 1 <= t.interval && Expiry(t, now) < now
    ensures CallsLeft(Later(t, 1), now) == CallsLeft(t, now) - 1
    ensures var t' := Later(t, 1);
      !t.paused ==>
        CallsLeft(Later(t', Missed(t', now)), now) <= 1
        && CallsLeft(Later(t', Missed(t', now)), now) < CallsLeft(t, now)
  {
    var d, i := now - 1 - Expiry(t, now), t.interval;
    assert d / i * i + d % i == d;
    DivMod(d - i, i, d / i - 1, d % i);
    assert d < i ==> d / i == 0;
    var t' := Later(t, 1);
    CatchUp(t', now);
    if !t.paused { FewLeft(Later(t', Missed(t', now)), now); }
    if !t.paused && t'.expire < now { AtLeastOne(d - i, i); }
  }

  lemma AtLeastOne(d: int, i: int)
    requires d >= 0 && i >= 1
    ensures d / i >= 0
  {
  }

  lemma FewLeft(t: Timer, now: int)
    requires !t.paused && 1 <= t.interval && now - t.interval <= t.expire
    ensures CallsLeft(t, now) <= 1
    ensures t.expire >= now ==> CallsLeft(t, now) == 0
  {
  }

  /** The timer t polled in s is put back, in a state that bounds everybody. */
  lemma SettledBounded(s: State, n: nat, m: nat)
    requires s.current.Current? && Bounded(s, n, m) && Left(s.current.timer, s.now) && 1 <= s.current.timer.interval
    requires n == s.current.timer.serial ==> m > 0 && forall k :: k in s.timers ==> s.timers[k].serial != n
    ensures Bounded(Settle(Advance(s)), n, if n == s.current.timer.serial then m - 1 else m)
    ensures n == s.current.timer.serial && !s.current.timer.paused ==> Bounded(Settle(Advance(s)), n, 1)
  {
    hide CallsLeft, Later, Missed;
    var t := s.current.timer;
    CallUsesUp(t, s.now);
    SameLeft(Later(t, 1), s.now);
    LaterKeeps(t, 1);
    LaterKeeps(Later(t, 1), Missed(Later(t, 1), s.now));
  }

  lemma LaterKeeps(t: Timer, i: nat)
    ensures Later(t, i).serial == t.serial && Later(t, i).paused == t.paused
  {
  }

  // ----- a bound for every orderly program

  /** The timer polled has ended by itself: it is in nobody's way. */
  lemma EndedBounded(script: Script, s: State, n: nat, m: nat)
    requires s.current.Current? && Bounded(s, n, m)
    requires n == s.current.timer.serial ==> forall k :: k in s.timers ==> s.timers[k].serial != n
    ensures Bounded(Settle(Notify(script, Ended(Advance(s)), OnEnd(true))), n,
      if n == s.current.timer.serial then 0 else m)
  {
    hide CallsLeft, Notify;
    var e, left := Ended(Advance(s)), if n == s.current.timer.serial then 0 else m;
    assert Bounded(e, n, left);
    NotifyBounded(script, e, OnEnd(true), n, left);
    EndedSettles(Notify(script, e, OnEnd(true)), n, left) by { EndingPhase(script, e); }
  }

  lemma EndedSettles(s: State, n: nat, m: nat)
    requires s.current.Current? && s.current.phase != Polling && Bounded(s, n, m)
    ensures Bounded(Settle(s), n, m)
  {
  }

  /** A timer that is over does not come back to life. */
  lemma {:induction false} StaysOver(s: State, cs: seq<Command>)
    requires s.current.Current? && s.current.phase != Polling
    ensures ExecAll(s, cs).current.phase != Polling
    decreases cs, 0
  {
    if cs != [] {
      CommandStaysOver(s, cs[0]);
      StaysOver(Exec(s, cs[0]), cs[1..]);
    }
  }

  lemma {:induction false} CommandStaysOver(s: State, c: Command)
    requires s.current.Current? && s.current.phase != Polling
    ensures Exec(s, c).current.phase != Polling
    decreases c
  {
    if !c.Start? && Acts(s, c) { StaysOver(Handler(s, c), c.inner); }
  }

  lemma EndingPhase(script: Script, s: State)
    requires s.current.Current? && s.current.phase == Ending
    ensures Notify(script, s, OnEnd(true)).current.phase != Polling
  {
    StaysOver(LogCurrent(s, OnEnd(true)), script(LogCurrent(s, OnEnd(true)).log));
  }

  /** The timer polled is paused when its callbacks are over, and so it is parked without catching up. */
  predicate Parks(script: Script, s: State)
    requires s.due != [] && s.due[0] in s.timers
  {
    Served(script, s).current.phase == Polling && Served(script, s).current.timer.paused
  }

  lemma ServedAlone(s: State, t: Timer, totals: seq<int>)
    requires Returned(s, t, totals)
    ensures t.serial == s.current.timer.serial && forall k :: k in s.timers ==> s.timers[k].serial != t.serial
  {
  }

  /** A turn uses up one of the calls left of the timer that is polled; one is left at most, unless it parks. */
  lemma FireBounded(script: Script, s: State, n: nat, m: nat)
    requires OrderlyScript(script) && Inv(s) && s.current.Nobody? && s.due != [] && Bounded(s, n, m)
    ensures n == s.timers[s.due[0]].serial ==> m > 0
    ensures Bounded(Fire(script, s), n, if n == s.timers[s.due[0]].serial then m - 1 else m)
    ensures n == s.timers[s.due[0]].serial && !Parks(script, s) ==> Bounded(Fire(script, s), n, 1)
  {
    PolledInterval(s);
    var t := s.timers[s.due[0]];
    DueIsLate(s);
    hide Inv, CallsLeft, Settle, Begin, Call, Poll, Advance;
    BeginReturns(script, s);
    CallReturns(script, Begin(script, Poll(s)), t, s.totals);
    CalledBounded(script, s, n, m);
    var s2 := Call(script, Begin(script, Poll(s)));
    ReturnedFacts(s2, t, s.totals);
    ServedAlone(s2, t, s.totals);
    SettleServed(script, s2, n, m);
  }

  lemma DueIsLate(s: State)
    requires Inv(s) && s.due != []
    ensures s.due[0] in s.timers && CallsLeft(s.timers[s.due[0]], s.now) > 0
  {
    var t := s.timers[s.due[0]];
    AtLeastOne(s.now - 1 - t.expire, t.interval);
  }

  lemma SettleServed(script: Script, s: State, n: nat, m: nat)
    requires s.current.Current? && Bounded(s, n, m) && Left(s.current.timer, s.now)
    requires s.current.phase == Polling ==> 1 <= s.current.timer.interval
    requires n == s.current.timer.serial ==> m > 0 && forall k :: k in s.timers ==> s.timers[k].serial != n
    ensures var s' := Finish(script, Advance(s));
      && Bounded(Settle(s'), n, if n == s.current.timer.serial then m - 1 else m)
      && (n == s.current.timer.serial && !(s'.current.phase == Polling && s'.current.timer.paused) ==>
        Bounded(Settle(s'), n, 1))
  {
    hide CallsLeft, Notify, Settle;
    if s.current.timer.count == 0 && s.current.phase == Polling {
      EndedBounded(script, s, n, m);
    } else if s.current.phase == Polling {
      SettledBounded(s, n, m);
    } else {
      var left := if n == s.current.timer.serial then 0 else m;
      assert Bounded(Advance(s), n, left);
      EndedSettles(Advance(s), n, left);
    }
    More(Settle(Finish(script, Advance(s))), n);
  }

  lemma More(s: State, n: nat)
    ensures forall m: nat, m': nat :: m <= m' && Bounded(s, n, m) ==> Bounded(s, n, m')
  {
    hide CallsLeft;
  }

  lemma {:induction false} DrainBounded(script: Script, s: State, n: nat, m: nat)
    requires OrderlyScript(script) && Inv(s) && s.current.Nobody? && Bounded(s, n, m)
    ensures Calls(Drain(script, s), n) <= Calls(s, n) + m
    decreases Backlog(s)
  {
    if s.due != [] {
      hide Bounded, Inv, CountOf, Fire;
      FireKeepsInv(script, s);
      FireBacklog(script, s);
      FireCalls(script, s, n);
      FireBounded(script, s, n, m);
      DrainBounded(script, Fire(script, s), n, if n == s.timers[s.due[0]].serial then m - 1 else m);
    }
  }

  /** For every orderly program: a drain calls a timer at most as often as periods of it have passed. One that is
      started meanwhile is not called. */
  lemma CallsInDrain(script: Script, s: State, n: nat)
    requires OrderlyScript(script) && Inv(s) && s.current.Nobody?
    ensures forall k :: k in s.timers && s.timers[k].serial == n ==>
      Calls(Drain(script, s), n) <= Calls(s, n) + CallsLeft(s.timers[k], s.now)
    ensures (forall k :: k in s.timers ==> s.timers[k].serial != n) ==> Calls(Drain(script, s), n) == Calls(s, n)
  {
    if k :| k in s.timers && s.timers[k].serial == n {
      OneTimer(s, k);
      DrainBounded(script, s, n, CallsLeft(s.timers[k], s.now));
    } else {
      DrainBounded(script, s, n, 0);
      CallsGrow(script, s, n);
    }
  }

  lemma OneTimer(s: State, k: Key)
    requires Inv(s) && s.current.Nobody? && k in s.timers
    ensures forall x :: x in s.timers && s.timers[x].serial == s.timers[k].serial ==> x == k
    ensures Bounded(s, s.timers[k].serial, CallsLeft(s.timers[k], s.now))
  {
  }

  lemma {:induction false} CallsGrow(script: Script, s: State, n: nat)
    requires OrderlyScript(script) && Inv(s) && s.current.Nobody?
    ensures Calls(Drain(script, s), n) >= Calls(s, n)
    decreases Backlog(s)
  {
    if s.due != [] {
      hide Inv, CountOf, Fire;
      FireKeepsInv(script, s);
      FireBacklog(script, s);
      FireCalls(script, s, n);
      CallsGrow(script, Fire(script, s), n);
    }
  }

  // ----- at most twice

  /** In the drain that begins with s, timer n is not paused when its first poll is over. */
  ghost predicate CatchesUp(script: Script, s: State, n: nat)
    requires OrderlyScript(script) && Inv(s) && s.current.Nobody?
    decreases Backlog(s)
  {
    if s.due == [] then true
    else
      FireKeepsInv(script, s);
      FireBacklog(script, s);
      if s.timers[s.due[0]].serial == n then !Parks(script, s) else CatchesUp(script, Fire(script, s), n)
  }

  /** However late the drain runs, and whatever its callbacks do: a timer that is called more than twice in it was
      parked by its first poll. */
  lemma {:induction false} AtMostTwice(script: Script, s: State, n: nat)
    requires OrderlyScript(script) && Inv(s) && s.current.Nobody? && CatchesUp(script, s, n)
    ensures Calls(Drain(script, s), n) <= Calls(s, n) + 2
    decreases Backlog(s)
  {
    if s.due != [] {
      hide Inv, CountOf, Fire, Parks;
      FireKeepsInv(script, s);
      FireBacklog(script, s);
      FireCalls(script, s, n);
      if s.timers[s.due[0]].serial == n {
        SomeBound(s, n);
        DrainBounded(script, Fire(script, s), n, 1) by {
          var m: nat :| Bounded(s, n, m);
          FireBounded(script, s, n, m);
        }
      } else {
        AtMostTwice(script, Fire(script, s), n);
      }
    }
  }

  lemma SomeBound(s: State, n: nat)
    requires Inv(s) && s.current.Nobody?
    ensures exists m: nat :: Bounded(s, n, m)
  {
    if k :| k in s.timers && s.timers[k].serial == n {
      OneTimer(s, k);
    } else {
      assert Bounded(s, n, 0);
    }
  }

  /** The command pauses the timer with key k, or one of the handlers it sets off does. */
  predicate MayPause(c: Command, k: Key)
    decreases c
  {
    !c.Start? && ((c.Pause? && c.key == k) || exists d: Command :: d in c.inner && MayPause(d, k))
  }

  /** The callbacks of timer n do not pause it. Those of others may. */
  ghost predicate NeverPausesItself(script: Script, n: nat) {
    forall log: seq<Event>, c: Command :: log != [] && log[|log| - 1].serial == n && c in script(log) ==>
      !MayPause(c, log[|log| - 1].key)
  }

  lemma {:induction false} CommandLeavesUnpaused(s: State, c: Command)
    requires s.current.Current? && !s.current.timer.paused && !MayPause(c, s.current.key)
    ensures !Exec(s, c).current.timer.paused
    decreases c
  {
    if !c.Start? && Acts(s, c) { LeavesUnpaused(Handler(s, c), c.inner); }
  }

  lemma {:induction false} LeavesUnpaused(s: State, cs: seq<Command>)
    requires s.current.Current? && !s.current.timer.paused && forall c :: c in cs ==> !MayPause(c, s.current.key)
    ensures !ExecAll(s, cs).current.timer.paused
    decreases cs, 0
  {
    if cs != [] {
      assert cs[0] in cs;
      CommandLeavesUnpaused(s, cs[0]);
      LeavesUnpaused(Exec(s, cs[0]), cs[1..]);
    }
  }

  lemma NotifyLeavesUnpaused(script: Script, s: State, c: Callback)
    requires s.current.Current? && !s.current.timer.paused && NeverPausesItself(script, s.current.timer.serial)
    ensures !Notify(script, s, c).current.timer.paused
  {
    var s1 := LogCurrent(s, c);
    assert s1.log[|s1.log| - 1].serial == s.current.timer.serial;
    LeavesUnpaused(s1, script(s1.log));
  }

  lemma NeverParks(script: Script, s: State)
    requires OrderlyScript(script) && Inv(s) && s.current.Nobody? && s.due != []
    requires s.due[0] in s.timers && NeverPausesItself(script, s.timers[s.due[0]].serial)
    ensures !Parks(script, s)
  {
    var s0, t := Poll(s), s.timers[s.due[0]];
    hide Notify, NeverPausesItself;
    if !s0.current.timer.started { NotifyLeavesUnpaused(script, s0, OnStart); }
    BeginReturns(script, s);
    var s1 := Begin(script, s0);
    if s1.current.phase == Polling {
      NotifyLeavesUnpaused(script, WithCurrent(s1, Counted(s1.current.timer)), OnTimer);
    }
    CallReturns(script, s1, t, s.totals);
    var s2 := Advance(Call(script, s1));
    if s2.current.phase == Polling && s2.current.timer.count == 0 { EndingPhase(script, Ended(s2)); }
  }

  /** So a timer whose own callbacks do not pause it is called at most twice, whatever others do. */
  lemma {:induction false} TwiceUnlessItPausesItself(script: Script, s: State, n: nat)
    requires OrderlyScript(script) && Inv(s) && s.current.Nobody? && NeverPausesItself(script, n)
    ensures CatchesUp(script, s, n) && Calls(Drain(script, s), n) <= Calls(s, n) + 2
    decreases Backlog(s)
  {
    if s.due != [] {
      hide Inv, CountOf, Fire, Parks;
      FireKeepsInv(script, s);
      FireBacklog(script, s);
      PolledInterval(s);
      if s.timers[s.due[0]].serial == n {
        NeverParks(script, s);
      } else {
        TwiceUnlessItPausesItself(script, Fire(script, s), n);
      }
    }
    AtMostTwice(script, s, n);
  }
}
