/** What the ticks of a run have to do with a timer: how many of them it spent running and how many paused. */
module TimerClock {
  import opened TimerSpec
  import opened TimerInvariant
  import opened TimerRuns
  import opened TimerCalls
  import opened TimerProtocol
  import opened TimerDeeds
  import opened TimerTime

  /** What can be read off a timer: the ticks it spent running, the ticks it spent paused, or the periods that are
      behind it. */
  datatype Dial = Running | Resting | Periods

  function Reading(t: Timer, now: int, dial: Dial): int {
    var h := t.history;
    match dial
    case Running => (if t.paused then t.pauseTick else now) - h.born - h.parkedFor
    case Resting => h.parkedFor + if t.paused then now - t.pauseTick else 0
    case Periods => h.periods
  }

  /** The timer with serial number n, wherever it is, reads r; a timer that was not started yet will read zero. The
      periods of a timer move on while it is polled and are read only then not. */
  ghost predicate Reads(s: State, n: nat, dial: Dial, r: int) {
    && (if dial.Periods? then n < |s.totals| else n >= |s.totals| ==> r == 0)
    && (forall k :: k in s.timers && s.timers[k].serial == n ==> Reading(s.timers[k], s.now, dial) == r)
    && (s.current.Current? && s.current.timer.serial == n ==>
         !dial.Periods? && Reading(s.current.timer, s.now, dial) == r)
  }

  // ----- commands and callbacks change no reading

  lemma HandlerReads(s: State, c: Command, n: nat, dial: Dial, r: int)
    requires Reads(s, n, dial, r) && !c.Start? && Acts(s, c)
    ensures Reads(Handler(s, c), n, dial, r)
  {
    hide Reading;
    TurnedReading(RecordOf(s, c.key), s.now, dial);
  }

  lemma TurnedReading(t: Timer, now: int, dial: Dial)
    ensures !t.paused ==> Reading(Paused(t, now), now, dial) == Reading(t, now, dial)
    ensures t.paused ==> Reading(Resumed(t, now), now, dial) == Reading(t, now, dial)
    ensures Reading(t.(valid := false), now, dial) == Reading(t, now, dial)
  {
  }

  lemma ReturnReads(s: State, c: Command, s2: State, n: nat, dial: Dial, r: int)
    requires Reads(s2, n, dial, r) && !c.Start? && Acts(s, c)
    ensures Reads(Return(s, c, s2), n, dial, r)
  {
  }

  lemma {:induction false} ExecReads(s: State, c: Command, n: nat, dial: Dial, r: int)
    requires Reads(s, n, dial, r)
    ensures Reads(Exec(s, c), n, dial, r)
    decreases c
  {
    if !c.Start? && Acts(s, c) {
      hide Reads, Handler, Return;
      HandlerReads(s, c, n, dial, r);
      ExecAllReads(Handler(s, c), c.inner, n, dial, r);
      ReturnReads(s, c, ExecAll(Handler(s, c), c.inner), n, dial, r);
    }
  }

  lemma {:induction false} ExecAllReads(s: State, cs: seq<Command>, n: nat, dial: Dial, r: int)
    requires Reads(s, n, dial, r)
    ensures Reads(ExecAll(s, cs), n, dial, r)
    decreases cs, 0
  {
    if cs != [] {
      ExecReads(s, cs[0], n, dial, r);
      ExecAllReads(Exec(s, cs[0]), cs[1..], n, dial, r);
    }
  }

  lemma NotifyReads(script: Script, s: State, c: Callback, n: nat, dial: Dial, r: int)
    requires s.current.Current? && Reads(s, n, dial, r)
    ensures Reads(Notify(script, s, c), n, dial, r)
  {
    var s1 := LogCurrent(s, c);
    ExecAllReads(s1, script(s1.log), n, dial, r);
  }

  lemma WithReads(s: State, t: Timer, n: nat, dial: Dial, r: int)
    requires s.current.Current? && Reads(s, n, dial, r) && t.serial == s.current.timer.serial
    requires !dial.Periods? ==> Reading(t, s.now, dial) == Reading(s.current.timer, s.now, dial)
    ensures Reads(WithCurrent(s, t), n, dial, r)
  {
  }

  lemma ServedReads(script: Script, s: State, n: nat, dial: Dial, r: int)
    requires s.due != [] && s.due[0] in s.timers && s.current.Nobody? && Reads(s, n, dial, r)
    requires dial.Periods? ==> s.timers[s.due[0]].serial != n
    ensures Reads(Served(script, s), n, dial, r)
  {
    var s0 := Poll(s);
    assert Reads(s0, n, dial, r);
    hide Reads, Notify, Reading, Call, Begin;
    var s1 := Begin(script, s0);
    BeginReads(script, s0, n, dial, r);
    CallReads(script, s1, n, dial, r);
    var s3 := Call(script, s1);
    SameReading(s3.current.timer, s3.now, dial);
    WithReads(s3, Later(s3.current.timer, 1), n, dial, r);
    var s4 := Advance(s3);
    if s4.current.timer.count == 0 && s4.current.phase == Polling {
      EndedReads(s4, n, dial, r);
      NotifyReads(script, Ended(s4), OnEnd(true), n, dial, r);
    }
  }

  lemma SameReading(t: Timer, now: int, dial: Dial)
    ensures Reading(t.(started := true), now, dial) == Reading(Counted(t), now, dial) == Reading(t, now, dial)
    ensures Reading(CountDown(t), now, dial) == Reading(t, now, dial)
    ensures !dial.Periods? ==> Reading(Later(t, 1), now, dial) == Reading(t, now, dial)
  {
  }

  lemma BeginReads(script: Script, s: State, n: nat, dial: Dial, r: int)
    requires s.current.Current? && Reads(s, n, dial, r)
    ensures Reads(Begin(script, s), n, dial, r)
  {
    hide Reads, Notify, Reading;
    if !s.current.timer.started {
      NotifyReads(script, s, OnStart, n, dial, r);
      var b := Notify(script, s, OnStart);
      SameReading(b.current.timer, b.now, dial);
      WithReads(b, b.current.timer.(started := true), n, dial, r);
    }
  }

  lemma CallReads(script: Script, s: State, n: nat, dial: Dial, r: int)
    requires s.current.Current? && Reads(s, n, dial, r)
    ensures Reads(Call(script, s), n, dial, r)
  {
    hide Reads, Notify, Reading;
    if s.current.phase == Polling {
      SameReading(s.current.timer, s.now, dial);
      WithReads(s, Counted(s.current.timer), n, dial, r);
      var s2 := WithCurrent(s, Counted(s.current.timer));
      NotifyReads(script, s2, OnTimer, n, dial, r);
      var c := Notify(script, s2, OnTimer);
      SameReading(c.current.timer, c.now, dial);
      WithReads(c, CountDown(c.current.timer), n, dial, r);
    }
  }

  lemma EndedReads(s: State, n: nat, dial: Dial, r: int)
    requires s.current.Current? && Reads(s, n, dial, r)
    ensures Reads(Ended(s), n, dial, r)
  {
  }

  lemma SettleReads(s: State, n: nat, dial: Dial, r: int)
    requires s.current.Current? && Reads(s, n, dial, r)
    ensures Reads(Settle(s), n, dial, r)
  {
    hide Missed, Reading;
    LaterReading(s.current.timer, s.now, dial);
  }

  lemma LaterReading(t: Timer, now: int, dial: Dial)
    ensures !dial.Periods? ==> forall i: nat :: Reading(Later(t, i), now, dial) == Reading(t, now, dial)
    ensures Reading(t.(parked := true), now, dial) == Reading(t, now, dial)
  {
  }

  // ----- ticks

  /** Timer n is listed, and paused or not as the dial asks for. */
  ghost predicate Counts(s: State, n: nat, dial: Dial) {
    exists k :: k in s.timers && s.timers[k].serial == n && s.timers[k].paused == dial.Resting?
  }

  /** How many of the first i actions are ticks that timer n spent running, or paused. */
  ghost function TicksWhile(states: seq<State>, actions: seq<Action>, i: nat, n: nat, dial: Dial): nat
    requires i <= |actions| && i <= |states|
  {
    if i == 0 then 0
    else
      TicksWhile(states, actions, i - 1, n, dial)
      + if actions[i - 1].Pass? && !dial.Periods? && Counts(states[i - 1], n, dial) then 1 else 0
  }

  lemma TickReads(s: State, s': State, order: seq<Key>, n: nat, dial: Dial, r: int)
    requires Inv(s) && s.current.Nobody? && Tick(s, s', order) && Reads(s, n, dial, r)
    ensures Reads(s', n, dial, r + if !dial.Periods? && Counts(s, n, dial) then 1 else 0)
  {
    hide LivesOk, NoneLost, Queued, CurrentOk;
    if k :| k in s.timers && s.timers[k].serial == n {
      assert TimerOk(s.timers[k], s.now, s.totals);
      assert Counts(s, n, dial) <==> s.timers[k].paused == dial.Resting?;
    }
  }

  lemma NextReads(script: Script, s: State, a: Action, s': State, n: nat, dial: Dial, r: int)
    requires OrderlyScript(script) && Inv(s) && s.current.Nobody? && Next(script, s, a, s') && Reads(s, n, dial, r)
    requires dial.Periods? && a.Turn? ==> s.timers[s.due[0]].serial != n
    ensures Reads(s', n, dial, r + if a.Pass? && !dial.Periods? && Counts(s, n, dial) then 1 else 0)
  {
    hide Reads, Inv, Tick, Counts;
    match a
    case Do(c) => ExecReads(s, c, n, dial, r);
    case Pass(order) => TickReads(s, s', order, n, dial, r);
    case Turn => ServedReads(script, s, n, dial, r); SettleReads(Served(script, s), n, dial, r);
  }

  lemma InitReads(n: nat, dial: Dial)
    ensures !dial.Periods? ==> Reads(INIT, n, dial, 0)
  {
  }

  /** In every state of every run, the ticks that a timer has spent running, and those it has spent paused, are
      what its record says. */
  lemma {:induction false} RunReads(script: Script, states: seq<State>, actions: seq<Action>,
    i: nat, n: nat, dial: Dial)
    requires OrderlyScript(script) && Run(script, states, actions) && i < |states| && states[0] == INIT
    requires !dial.Periods?
    ensures i <= |actions| && Reads(states[i], n, dial, TicksWhile(states, actions, i, n, dial))
    decreases i
  {
    hide Reads, Counts, Inv, Next;
    InitReads(n, dial);
    if i > 0 {
      hide Run;
      InitInv();
      RunNext(script, states, actions, i);
      RunKeepsInv(script, states, actions, i - 1);
      RunReads(script, states, actions, i - 1, n, dial);
      NextReads(script, states[i - 1], actions[i - 1], states[i], n, dial, TicksWhile(states, actions, i - 1, n, dial));
    }
  }

  // ----- periods

  /** A turn that polls timer n calls it, or is the end of it. */
  lemma PolledIsCalled(script: Script, s: State, n: nat)
    requires OrderlyScript(script) && Inv(s) && s.current.Nobody? && s.due != []
    requires s.timers[s.due[0]].serial == n
    ensures Calls(Fire(script, s), n) > Calls(s, n)
      || forall k :: k in Fire(script, s).timers ==> Fire(script, s).timers[k].serial != n
  {
    hide Inv, Notify, CountOf, Settle;
    PolledInterval(s);
    var s0 := Poll(s);
    if !s0.current.timer.started { NotifyCalls(script, s0, OnStart, n); }
    BeginReturns(script, s);
    var s1 := Begin(script, s0);
    if s1.current.phase == Polling {
      NotifyCalls(script, WithCurrent(s1, Counted(s1.current.timer)), OnTimer, n);
      var s2 := Advance(Call(script, s1));
      if s2.current.timer.count == 0 && s2.current.phase == Polling {
        NotifyCalls(script, Ended(s2), OnEnd(true), n);
      }
      SettleLogs(Finish(script, s2));
    } else {
      KilledIsGone(s1, n);
    }
  }

  lemma KilledIsGone(s: State, n: nat)
    requires Inv(s) && s.current.Current? && s.current.phase != Polling && s.current.timer.serial == n
    ensures forall k :: k in Settle(s).timers ==> Settle(s).timers[k].serial != n
    ensures Settle(Advance(s)).timers == Settle(s).timers
  {
  }

  lemma NobodyReads(s: State, s': State, n: nat, r: int)
    requires Reads(s, n, Periods, r) && s.totals <= s'.totals && s'.current.Nobody?
    requires forall k :: k in s'.timers ==> s'.timers[k].serial != n
    ensures Reads(s', n, Periods, r)
  {
  }

  lemma NextCalls(script: Script, s: State, a: Action, s': State, n: nat)
    requires OrderlyScript(script) && Inv(s) && Next(script, s, a, s')
    ensures Calls(s', n) >= Calls(s, n)
  {
    match a
    case Do(c) => ExecIsQuiet(s, c); QuietCounts(s.log, s'.log, n);
    case Pass(_) =>
    case Turn => FireCalls(script, s, n);
  }

  /** As long as a timer is not called, its periods stay. */
  lemma {:induction false} PeriodsStay(script: Script, states: seq<State>, actions: seq<Action>,
    j: nat, i: nat, n: nat, r: int)
    requires OrderlyScript(script) && Run(script, states, actions) && j <= i < |states| && states[0] == INIT
    requires Reads(states[j], n, Periods, r)
    ensures Calls(states[i], n) >= Calls(states[j], n)
    ensures Calls(states[i], n) == Calls(states[j], n) ==> Reads(states[i], n, Periods, r)
    decreases i
  {
    hide Reads, Inv, Run, CountOf;
    if j < i {
      RunNext(script, states, actions, i);
      var s, a := states[i - 1], actions[i - 1];
      InitInv();
      RunKeepsInv(script, states, actions, i - 1);
      PeriodsStay(script, states, actions, j, i - 1, n, r);
      NextCalls(script, s, a, states[i], n);
      if Calls(states[i], n) == Calls(states[j], n) {
        if a.Turn? && s.timers[s.due[0]].serial == n {
          PolledIsCalled(script, s, n);
          FireKeepsInv(script, s);
          if Calls(states[i], n) == Calls(s, n) { NobodyReads(s, states[i], n, r); }
        } else {
          NextReads(script, s, a, states[i], n, Periods, r);
        }
      }
    }
  }

  // ----- what this says

  /** How long the timer still has to run; less than zero if it is due. */
  function Remaining(t: Timer, now: int): int {
    t.expire - if t.paused then t.pauseTick else now
  }

  /** Every call of every timer, whoever started, paused and resumed it: along any run from launch, a timer that was
      started with some delay and interval and has so many periods behind it is due exactly when it is not paused and
      has spent more ticks running than its delay and its periods take. */
  lemma OnTime(script: Script, states: seq<State>, actions: seq<Action>, i: nat, k: Key)
    requires OrderlyScript(script) && Run(script, states, actions) && i < |states| && states[0] == INIT
    requires k in states[i].timers
    ensures i <= |actions| && states[i].timers[k].serial < |Starts(RunDeeds(script, states, actions, i))|
    ensures var s, t := states[i], states[i].timers[k];
      var c := Starts(RunDeeds(script, states, actions, i))[t.serial];
      var ran := TicksWhile(states, actions, i, t.serial, Running);
      && c.Start? && c.key == k && t.history.periods >= Calls(s, t.serial)
      && (Calls(s, t.serial) == 0 ==> t.history.periods == 0)
      && Remaining(t, s.now) == DelayTicks(c.delay) + t.history.periods * IntervalTicks(c.interval) - ran
      && (k in s.due <==> !t.paused && ran > DelayTicks(c.delay) + t.history.periods * IntervalTicks(c.interval))
  {
    hide Reads, Run, TicksWhile, Starts, RunDeeds, Calls, CountOf;
    var s, t := states[i], states[i].timers[k];
    InitInv();
    RunKeepsInv(script, states, actions, i);
    RunReads(script, states, actions, i, t.serial, Running);
    EachAnswered(script, states, actions, i, t.serial, OnPause);
    OnItsGrid(s, k, TicksWhile(states, actions, i, t.serial, Running));
    CalledInPeriods(s, k);
  }

  lemma OnItsGrid(s: State, k: Key, ran: int)
    requires Inv(s) && k in s.timers && Reads(s, s.timers[k].serial, Running, ran)
    ensures var t := s.timers[k];
      && Remaining(t, s.now) == t.history.delay + t.history.periods * t.interval - ran
      && (k in s.due <==> !t.paused && Remaining(t, s.now) < 0)
  {
    assert TimerOk(s.timers[k], s.now, s.totals);
  }

  lemma CalledInPeriods(s: State, k: Key)
    requires Inv(s) && k in s.timers
    ensures var t := s.timers[k];
      Calls(s, t.serial) <= t.history.periods && (Calls(s, t.serial) == 0 ==> t.history.periods == 0)
  {
    assert Recorded(s.log, s.timers[k]) && TimerOk(s.timers[k], s.now, s.totals);
    LifeCounts(s.log, s.timers[k].serial);
  }

  /** The first call: a timer that was not called yet is due exactly when it is not paused and has spent more ticks
      running than the delay it was started with, whoever started it and however often it was paused. */
  lemma FirstCallAfterDelay(script: Script, states: seq<State>, actions: seq<Action>, i: nat, k: Key)
    requires OrderlyScript(script) && Run(script, states, actions) && i < |states| && states[0] == INIT
    requires k in states[i].timers && Calls(states[i], states[i].timers[k].serial) == 0
    ensures i <= |actions| && states[i].timers[k].serial < |Starts(RunDeeds(script, states, actions, i))|
    ensures var t := states[i].timers[k];
      var c := Starts(RunDeeds(script, states, actions, i))[t.serial];
      && c.Start? && c.key == k
      && (k in states[i].due <==>
           !t.paused && TicksWhile(states, actions, i, t.serial, Running) > DelayTicks(c.delay))
  {
    OnTime(script, states, actions, i, k);
  }

  /** The same in milliseconds: it is due exactly when the ticks of ten milliseconds that it has spent running take
      longer than its delay, one of less than ten milliseconds being taken for ten. */
  lemma FirstCallInMilliseconds(script: Script, states: seq<State>, actions: seq<Action>, i: nat, k: Key)
    requires OrderlyScript(script) && Run(script, states, actions) && i < |states| && states[0] == INIT
    requires k in states[i].timers && Calls(states[i], states[i].timers[k].serial) == 0
    ensures i <= |actions| && states[i].timers[k].serial < |Starts(RunDeeds(script, states, actions, i))|
    ensures var t := states[i].timers[k];
      var c := Starts(RunDeeds(script, states, actions, i))[t.serial];
      var ran := TicksWhile(states, actions, i, t.serial, Running);
      && c.Start? && c.delay >= 0
      && (k in states[i].due <==> !t.paused && 10 * ran > if 0 < c.delay < 10 then 10 else c.delay)
  {
    hide Run, TicksWhile, Starts, RunDeeds, Calls, Inv, DelayTicks;
    FirstCallAfterDelay(script, states, actions, i, k);
    EachAnswered(script, states, actions, i, states[i].timers[k].serial, OnPause);
    var c := Starts(RunDeeds(script, states, actions, i))[states[i].timers[k].serial];
    DelayInTicks(c.delay, DelayTicks(c.delay));
  }

  lemma PeriodsOf(s: State, k: Key)
    requires Inv(s) && s.current.Nobody? && k in s.timers
    ensures Reads(s, s.timers[k].serial, Periods, s.timers[k].history.periods)
  {
    assert TimerOk(s.timers[k], s.now, s.totals);
  }

  lemma ReadPeriods(s: State, k: Key, r: int)
    requires k in s.timers && Reads(s, s.timers[k].serial, Periods, r)
    ensures s.timers[k].history.periods == r
  {
  }

  /** Between two calls only running uses up the time remaining: pauses of any number and length, by whomever they
      begin and end, keep it, with anything else going on meanwhile. A paused timer is not due. */
  lemma PauseKeepsRemaining(script: Script, states: seq<State>, actions: seq<Action>, j: nat, i: nat, k: Key)
    requires OrderlyScript(script) && Run(script, states, actions) && j <= i < |states| && states[0] == INIT
    requires k in states[j].timers && k in states[i].timers
    requires states[j].timers[k].serial == states[i].timers[k].serial
    requires Calls(states[j], states[j].timers[k].serial) == Calls(states[i], states[j].timers[k].serial)
    ensures i <= |actions| && (states[i].timers[k].paused ==> k !in states[i].due)
    ensures var t, t', n := states[j].timers[k], states[i].timers[k], states[j].timers[k].serial;
      Remaining(t', states[i].now) == Remaining(t, states[j].now)
        - (TicksWhile(states, actions, i, n, Running) - TicksWhile(states, actions, j, n, Running))
  {
    hide Reads, Run, TicksWhile, Starts, RunDeeds, Calls, CountOf, Remaining;
    var t, n := states[j].timers[k], states[j].timers[k].serial;
    InitInv();
    RunKeepsInv(script, states, actions, j);
    RunKeepsInv(script, states, actions, i);
    RunReads(script, states, actions, j, n, Running);
    RunReads(script, states, actions, i, n, Running);
    OnItsGrid(states[j], k, TicksWhile(states, actions, j, n, Running));
    OnItsGrid(states[i], k, TicksWhile(states, actions, i, n, Running));
    PeriodsOf(states[j], k);
    PeriodsStay(script, states, actions, j, i, n, t.history.periods);
    ReadPeriods(states[i], k, t.history.periods);
    EachAnswered(script, states, actions, j, n, OnPause);
    EachAnswered(script, states, actions, i, n, OnPause);
    StartsGrow(script, states, actions, j, i);
  }
}
