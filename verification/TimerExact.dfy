/** Exactly how often a drain calls a timer that no command is about. */
module TimerExact {
  import opened TimerSpec
  import opened TimerInvariant
  import opened TimerDrain
  import opened TimerRuns
  import opened TimerCalls
  import opened TimerDeeds
  import opened Numbers

  /** From log to log' no command about timer n took effect. */
  ghost predicate Spared(log: seq<Event>, log': seq<Event>, n: nat) {
    log <= log' && forall i :: |log| <= i < |log'| && log'[i].serial == n ==> !Answering(log'[i].callback)
  }

  lemma SparedBoth(log: seq<Event>, mid: seq<Event>, log': seq<Event>, n: nat)
    requires log <= mid <= log' && Spared(log, log', n)
    ensures Spared(log, mid, n) && Spared(mid, log', n)
  {
    forall i | |log| <= i < |mid| && mid[i].serial == n ensures !Answering(mid[i].callback) {
      assert mid[i] == log'[i];
    }
  }

  // ----- the timer being polled

  lemma {:induction false} ExecSpares(s: State, c: Command)
    requires s.current.Current? && Spared(s.log, Exec(s, c).log, s.current.timer.serial)
    ensures Exec(s, c).current == s.current
    decreases c
  {
    if !c.Start? && Acts(s, c) {
      AnsweredAtOnce(s, c);
      var log' := Exec(s, c).log;
      var s1 := Handler(s, c);
      ExecAllTouches(s1, c.inner, c.key, 0);
      assert log'[|s.log|] == Event(RecordOf(s, c.key).serial, c.key, Answer(c));
      SparedBoth(s.log, s1.log, log', s.current.timer.serial);
      AllSpare(s1, c.inner);
    }
  }

  lemma {:induction false} AllSpare(s: State, cs: seq<Command>)
    requires s.current.Current? && Spared(s.log, ExecAll(s, cs).log, s.current.timer.serial)
    ensures ExecAll(s, cs).current == s.current
    decreases cs, 0
  {
    if cs != [] {
      var m := Exec(s, cs[0]);
      ExecTouches(s, cs[0], s.current.key, 0);
      ExecAllTouches(m, cs[1..], s.current.key, 0);
      SparedBoth(s.log, m.log, ExecAll(s, cs).log, s.current.timer.serial);
      ExecSpares(s, cs[0]);
      AllSpare(m, cs[1..]);
    }
  }

  /** A callback is logged, and nothing it sets off is about its own timer. */
  lemma NotifySpares(script: Script, s: State, c: Callback)
    requires s.current.Current? && Spared(s.log, Notify(script, s, c).log, s.current.timer.serial)
    ensures Notify(script, s, c).current == s.current
  {
    var s1 := LogCurrent(s, c);
    ExecAllTouches(s1, script(s1.log), s.current.key, 0);
    SparedBoth(s.log, s1.log, Notify(script, s, c).log, s.current.timer.serial);
    AllSpare(s1, script(s1.log));
  }

  /** The record of a timer that was called once more, before it is caught up. */
  function CalledOnce(t: Timer): Timer {
    Later(CountDown(Counted(t.(started := true))), 1)
  }

  /** The log grows all through a turn. */
  lemma TurnLogs(script: Script, s: State)
    requires OrderlyScript(script) && s.due != [] && s.due[0] in s.timers
    ensures var s1 := Begin(script, Poll(s));
      s.log <= s1.log <= Call(script, s1).log <= Fire(script, s).log
  {
    hide Notify;
    var s0, k := Poll(s), s.due[0];
    if !s0.current.timer.started { NotifyTouches(script, s0, OnStart, k, 0); }
    var s1 := Begin(script, s0);
    if s1.current.phase == Polling { NotifyTouches(script, WithCurrent(s1, Counted(s1.current.timer)), OnTimer, k, 0); }
    var s3 := Advance(Call(script, s1));
    if s3.current.timer.count == 0 && s3.current.phase == Polling {
      NotifyTouches(script, Ended(s3), OnEnd(true), k, 0);
    }
    SettleLogs(Finish(script, s3));
  }

  /** A timer that no command is about, after the onTimer of its poll. */
  lemma PollSpares(script: Script, s: State)
    requires OrderlyScript(script) && s.current.Nobody? && s.due != [] && s.due[0] in s.timers
    requires Spared(s.log, Fire(script, s).log, s.timers[s.due[0]].serial)
    ensures var t, s2 := s.timers[s.due[0]], Call(script, Begin(script, Poll(s)));
      s2.current == Current(s.due[0], CountDown(Counted(t.(started := true))), Polling)
  {
    hide Notify, Spared, Fire;
    var k, t := s.due[0], s.timers[s.due[0]];
    TurnLogs(script, s);
    var s0, s1, n := Poll(s), Begin(script, Poll(s)), t.serial;
    SparedBoth(s.log, s1.log, Fire(script, s).log, n);
    if !t.started { NotifySpares(script, s0, OnStart); }
    assert s1.current == Current(k, t.(started := true), Polling);
    var t2 := WithCurrent(s1, Counted(s1.current.timer));
    SparedBoth(s1.log, Call(script, s1).log, Fire(script, s).log, n);
    NotifySpares(script, t2, OnTimer);
  }

  /** How often such a poll calls the timer: once. */
  lemma PollCalls(script: Script, s: State)
    requires OrderlyScript(script) && Inv(s) && s.current.Nobody? && s.due != [] && s.due[0] in s.timers
    requires Begin(script, Poll(s)).current.phase == Polling
    ensures Calls(Fire(script, s), s.timers[s.due[0]].serial) == Calls(s, s.timers[s.due[0]].serial) + 1
  {
    hide Inv, Notify, CountOf, Settle;
    var s0, n := Poll(s), s.timers[s.due[0]].serial;
    if !s0.current.timer.started { NotifyCalls(script, s0, OnStart, n); }
    BeginReturns(script, s);
    var s1 := Begin(script, s0);
    NotifyCalls(script, WithCurrent(s1, Counted(s1.current.timer)), OnTimer, n);
    var s3 := Advance(Call(script, s1));
    if s3.current.timer.count == 0 && s3.current.phase == Polling { NotifyCalls(script, Ended(s3), OnEnd(true), n); }
    SettleLogs(Finish(script, s3));
  }

  /** A timer that ends by itself is gone. */
  lemma OverIsGone(script: Script, s: State, t: Timer, totals: seq<int>)
    requires OrderlyScript(script) && Returned(s, t, totals) && s.current.phase == Polling && s.current.timer.count == 0
    ensures var s' := Settle(Finish(script, Advance(s)));
      forall k :: k in s'.timers ==> s'.timers[k].serial != t.serial
  {
    hide Inv, LivesOk, NoneLost, TimersOk, Queued, AllCalm, Notify, EndsOk, LifeOf;
    EndLoggable(s, t, totals);
    NotifyKeepsInv(script, Ended(Advance(s)), OnEnd(true));
    EndingStays(script, Ended(Advance(s)));
    ApartFromCurrent(Finish(script, Advance(s)));
  }

  lemma ApartFromCurrent(s: State)
    requires Inv(s) && s.current.Current?
    ensures forall k :: k in s.timers ==> s.timers[k].serial != s.current.timer.serial
  {
  }

  /** Polling a timer that no command is about: it is called, and then it is over, or it is caught up. */
  lemma FireSpares(script: Script, s: State)
    requires OrderlyScript(script) && Inv(s) && s.current.Nobody? && s.due != []
    requires s.due[0] in s.timers && Spared(s.log, Fire(script, s).log, s.timers[s.due[0]].serial)
    ensures var k, s' := s.due[0], Fire(script, s);
      var t, t1 := s.timers[k], CalledOnce(s.timers[k]);
      && Calls(s', t.serial) == Calls(s, t.serial) + 1
      && (t1.count == 0 ==> forall x :: x in s'.timers ==> s'.timers[x].serial != t.serial)
      && (t1.count != 0 && !t.paused ==> k in s'.timers && s'.timers[k] == Later(t1, Missed(t1, s.now)))
  {
    hide Inv, Calls, Spared, Missed, Returned, Begin, Call, Notify, Later;
    var t := s.timers[s.due[0]];
    PollSpares(script, s);
    BeginReturns(script, s);
    CallReturns(script, Begin(script, Poll(s)), t, s.totals);
    PolledAlong(script, s);
    PollCalls(script, s);
    var s2 := Call(script, Begin(script, Poll(s)));
    SameCount(s2.current.timer);
    if CalledOnce(t).count == 0 { OverIsGone(script, s2, t, s.totals); }
  }

  lemma PolledAlong(script: Script, s: State)
    requires s.due != [] && s.due[0] in s.timers
    requires Call(script, Begin(script, Poll(s))).current.phase == Polling
    ensures Begin(script, Poll(s)).current.phase == Polling
  {
    hide Notify;
  }

  lemma SameCount(t: Timer)
    ensures forall n: nat :: Later(t, n).count == t.count && Later(t, n).paused == t.paused
  {
  }

  // ----- the other timers

  /** From log to log' there are callbacks of timer m, and others that answer commands. */
  ghost predicate OnlyOf(log: seq<Event>, log': seq<Event>, m: nat) {
    log <= log' && forall i :: |log| <= i < |log'| ==> log'[i].serial == m || Answering(log'[i].callback)
  }

  lemma NotifyOnlyOf(script: Script, s: State, c: Callback, log: seq<Event>)
    requires s.current.Current? && OnlyOf(log, s.log, s.current.timer.serial)
    ensures OnlyOf(log, Notify(script, s, c).log, s.current.timer.serial)
  {
    var s1 := LogCurrent(s, c);
    ExecAllIsQuiet(s1, script(s1.log));
  }

  lemma FireOnlyOf(script: Script, s: State)
    requires OrderlyScript(script) && Inv(s) && s.current.Nobody? && s.due != []
    ensures s.due[0] in s.timers && OnlyOf(s.log, Fire(script, s).log, s.timers[s.due[0]].serial)
  {
    hide Inv, Notify, OnlyOf, Settle, Returned;
    PolledInterval(s);
    var s0, m := Poll(s), s.timers[s.due[0]].serial;
    assert OnlyOf(s.log, s0.log, m) by { Itself(s.log, m); }
    if !s0.current.timer.started { NotifyOnlyOf(script, s0, OnStart, s.log); }
    BeginReturns(script, s);
    var s1 := Begin(script, s0);
    if s1.current.phase == Polling { NotifyOnlyOf(script, WithCurrent(s1, Counted(s1.current.timer)), OnTimer, s.log); }
    CallReturns(script, s1, s.timers[s.due[0]], s.totals);
    var s2 := Call(script, s1);
    SerialOfReturned(s2, s.timers[s.due[0]], s.totals);
    var s3 := Advance(s2);
    if s3.current.timer.count == 0 && s3.current.phase == Polling {
      NotifyOnlyOf(script, Ended(s3), OnEnd(true), s.log);
    }
    SettleLogs(Finish(script, s3));
  }

  lemma Itself(log: seq<Event>, m: nat)
    ensures OnlyOf(log, log, m)
  {
  }

  lemma SerialOfReturned(s: State, t: Timer, totals: seq<int>)
    requires Returned(s, t, totals)
    ensures s.current.timer.serial == t.serial
  {
  }

  // ----- a whole drain

  /** How often a timer is called in a drain in which no command is about it. */
  function CallsDue(t: Timer, now: int): nat {
    var late := now - t.expire;
    if t.paused || late <= 0 then 0
    else if t.count in {0, 1} || late <= t.interval || (late > 2 * t.interval > 0 && late % t.interval == 0) then 1
    else 2
  }

  lemma OneCallLess(t: Timer, now: int)
    requires t.interval >= 1 && !t.paused && t.expire < now
    ensures var t1 := CalledOnce(t);
      && (t1.count == 0 <==> t.count in {0, 1})
      && (t1.count == 0 ==> CallsDue(t, now) == 1)
      && (t1.count != 0 ==> CallsDue(Later(t1, Missed(t1, now)), now) == CallsDue(t, now) - 1)
  {
    var t1, late, i := CalledOnce(t), now - t.expire, t.interval;
    CatchUp(t1, now);
    if late > 2 * i {
      var m := Missed(t1, now);
      assert t1.expire == t.expire + i && m == (late - i) / i;
      WholeSteps(late - i, i);
      var left := late - i - m * i;
      assert late == (m + 1) * i + left;
      DivMod(late, i, m + 1, left);
    }
  }

  lemma NoneDue(s: State, k: Key)
    requires Inv(s) && s.due == [] && k in s.timers
    ensures CallsDue(s.timers[k], s.now) == 0
  {
  }

  lemma DueTimer(s: State)
    requires Inv(s) && s.due != []
    ensures s.due[0] in s.timers
    ensures var t := s.timers[s.due[0]]; !t.paused && t.expire < s.now && t.interval >= 1
  {
    assert s.due[0] in s.timers ==> TimerOk(s.timers[s.due[0]], s.now, s.totals);
  }

  lemma LaterSerial(t: Timer)
    ensures CalledOnce(t).serial == t.serial && forall n: nat :: Later(CalledOnce(t), n).serial == t.serial
  {
  }

  lemma OtherSpared(s: State, s': State, k: Key)
    requires Inv(s) && s.due != [] && s.due[0] in s.timers && k in s.timers && k != s.due[0]
    requires OnlyOf(s.log, s'.log, s.timers[s.due[0]].serial) && Spared(s.log, s'.log, s.timers[k].serial)
    requires Untouched(s, s', k, s.timers[k].serial)
    ensures k in s'.timers && s'.timers[k] == s.timers[k] && s.timers[k].serial != s.timers[s.due[0]].serial
  {
    hide TimersOk, Queued, LivesOk, NoneLost;
    assert s.timers[k].serial != s.timers[s.due[0]].serial;
    assert Silent(s.log, s'.log, s.timers[k].serial);
  }

  lemma Grows(s: State, s': State, k: Key, n: nat)
    requires Untouched(s, s', k, n)
    ensures s.log <= s'.log
  {
  }

  /** In a drain in which no command about it takes effect, a timer is called exactly as often as that. */
  lemma {:induction false} ExactCalls(script: Script, s: State, k: Key)
    requires OrderlyScript(script) && Inv(s) && s.current.Nobody? && k in s.timers
    requires Spared(s.log, Drain(script, s).log, s.timers[k].serial)
    ensures Calls(Drain(script, s), s.timers[k].serial)
         == Calls(s, s.timers[k].serial) + CallsDue(s.timers[k], s.now)
    decreases Backlog(s)
  {
    var t, n := s.timers[k], s.timers[k].serial;
    hide Inv, Calls, Fire, Spared, CallsDue, Missed, Later, Untouched;
    if s.due == [] {
      NoneDue(s, k);
    } else {
      var s' := Fire(script, s);
      FireKeepsInv(script, s);
      FireBacklog(script, s);
      FireTouches(script, s, k, n);
      DrainTouches(script, s', k, n);
      Grows(s, s', k, n);
      Grows(s', Drain(script, s), k, n);
      SparedBoth(s.log, s'.log, Drain(script, s).log, n);
      DueTimer(s);
      if s.due[0] == k {
        FireSpares(script, s);
        OneCallLess(t, s.now);
        if CalledOnce(t).count == 0 {
          CallsInDrain(script, s', n);
        } else {
          LaterSerial(t);
          ExactCalls(script, s', k);
        }
      } else {
        FireOnlyOf(script, s);
        OtherSpared(s, s', k);
        FireCalls(script, s, n);
        ExactCalls(script, s', k);
      }
    }
  }

  // ----- callbacks that issue no commands

  ghost predicate IssuesNothing(script: Script) {
    forall log :: script(log) == []
  }

  lemma FireIssuesNothing(script: Script, s: State, n: nat)
    requires IssuesNothing(script) && s.due != [] && s.due[0] in s.timers
    ensures Spared(s.log, Fire(script, s).log, n)
  {
  }

  lemma {:induction false} DrainIssuesNothing(script: Script, s: State, n: nat)
    requires OrderlyScript(script) && IssuesNothing(script) && Inv(s) && s.current.Nobody?
    ensures Spared(s.log, Drain(script, s).log, n)
    decreases Backlog(s)
  {
    hide Inv, Fire, OrderlyScript, IssuesNothing;
    if s.due != [] {
      FireKeepsInv(script, s);
      FireBacklog(script, s);
      DueTimer(s);
      FireIssuesNothing(script, s, n);
      DrainIssuesNothing(script, Fire(script, s), n);
    }
  }

  /** A program whose callbacks issue no commands: the number of calls of every timer in a drain. */
  lemma CallsOfPassiveProgram(script: Script, s: State, k: Key)
    requires IssuesNothing(script) && Inv(s) && s.current.Nobody? && k in s.timers
    ensures OrderlyScript(script)
    ensures Calls(Drain(script, s), s.timers[k].serial)
         == Calls(s, s.timers[k].serial) + CallsDue(s.timers[k], s.now)
  {
    assert OrderlyScript(script);
    DrainIssuesNothing(script, s, s.timers[k].serial);
    ExactCalls(script, s, k);
  }
}
