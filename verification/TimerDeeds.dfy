/** The commands of a run that took effect, whoever issued them: from outside, in a callback, or in a handler that
    another command set off. */
module TimerDeeds {
  import opened TimerSpec
  import opened TimerInvariant
  import opened TimerRuns
  import opened TimerProtocol

  /** A command that took effect, and the serial number of its timer. */
  datatype Deed = Deed(command: Command, serial: nat)

  // ----- what took effect, in the order in which it did

  function Deeds(s: State, c: Command): seq<Deed>
    decreases c
  {
    if c.Start? then
      if Startable(c.delay, c.interval) && !Known(s, c.key) then [Deed(c, |s.totals|)] else []
    else if Acts(s, c) then [Deed(c, RecordOf(s, c.key).serial)] + AllDeeds(Handler(s, c), c.inner)
    else []
  }

  function AllDeeds(s: State, cs: seq<Command>): seq<Deed>
    decreases cs, 0
  {
    if cs == [] then [] else Deeds(s, cs[0]) + AllDeeds(Exec(s, cs[0]), cs[1..])
  }

  function NotifyDeeds(script: Script, s: State, c: Callback): seq<Deed>
    requires s.current.Current?
  {
    AllDeeds(LogCurrent(s, c), script(LogCurrent(s, c).log))
  }

  function BeginDeeds(script: Script, s: State): seq<Deed>
    requires s.current.Current?
  {
    if s.current.timer.started then [] else NotifyDeeds(script, s, OnStart)
  }

  function CallDeeds(script: Script, s: State): seq<Deed>
    requires s.current.Current?
  {
    if s.current.phase != Polling then []
    else NotifyDeeds(script, WithCurrent(s, Counted(s.current.timer)), OnTimer)
  }

  function FinishDeeds(script: Script, s: State): seq<Deed>
    requires s.current.Current?
  {
    if s.current.timer.count == 0 && s.current.phase == Polling then NotifyDeeds(script, Ended(s), OnEnd(true)) else []
  }

  function FireDeeds(script: Script, s: State): seq<Deed>
    requires s.due != [] && s.due[0] in s.timers
  {
    var s1 := Begin(script, Poll(s));
    BeginDeeds(script, Poll(s)) + CallDeeds(script, s1) + FinishDeeds(script, Advance(Call(script, s1)))
  }

  ghost function NextDeeds(script: Script, s: State, a: Action, s': State): seq<Deed>
    requires Next(script, s, a, s')
  {
    match a
    case Do(c) => Deeds(s, c)
    case Pass(_) => []
    case Turn => FireDeeds(script, s)
  }

  ghost function RunDeeds(script: Script, states: seq<State>, actions: seq<Action>, i: nat): seq<Deed>
    requires Run(script, states, actions) && i < |states|
  {
    if i == 0 then []
    else
      RunNext(script, states, actions, i);
      RunDeeds(script, states, actions, i - 1) + NextDeeds(script, states[i - 1], actions[i - 1], states[i])
  }

  // ----- every deed but a start is answered by one callback

  function Answer(c: Command): Callback
    requires !c.Start?
  {
    match c
    case Kill(_, _) => OnEnd(false)
    case Pause(_, _) => OnPause
    case Resume(_, _) => OnResume
  }

  predicate AnsweredBy(d: Deed, n: nat, c: Callback) {
    !d.command.Start? && d.serial == n && Answer(d.command) == c
  }

  /** How many of the deeds are to be answered by c of timer n. */
  function Number(ds: seq<Deed>, n: nat, c: Callback): nat {
    if ds == [] then 0 else (if AnsweredBy(ds[0], n, c) then 1 else 0) + Number(ds[1..], n, c)
  }

  lemma {:induction false} NumberOfBoth(a: seq<Deed>, b: seq<Deed>, n: nat, c: Callback)
    ensures Number(a + b, n, c) == Number(a, n, c) + Number(b, n, c)
    decreases |a|
  {
    if a == [] {
      assert a + b == b;
    } else {
      assert (a + b)[1..] == a[1..] + b;
      NumberOfBoth(a[1..], b, n, c);
    }
  }

  predicate Answering(c: Callback) {
    c in {OnPause, OnResume, OnEnd(false)}
  }

  // ----- every timer is one that was started, with what it was started with

  function Starts(ds: seq<Deed>): seq<Command> {
    if ds == [] then [] else (if ds[0].command.Start? then [ds[0].command] else []) + Starts(ds[1..])
  }

  lemma {:induction false} StartsOfBoth(a: seq<Deed>, b: seq<Deed>)
    ensures Starts(a + b) == Starts(a) + Starts(b)
    decreases |a|
  {
    if a == [] {
      assert a + b == b;
    } else {
      assert (a + b)[1..] == a[1..] + b;
      StartsOfBoth(a[1..], b);
      var first := if a[0].command.Start? then [a[0].command] else [];
      assert first + Starts(a[1..]) + Starts(b) == first + (Starts(a[1..]) + Starts(b));
    }
  }

  /** The timer t with key k is what its start made it. */
  predicate Fits(t: Timer, k: Key, starts: seq<Command>) {
    t.serial < |starts| &&
    var c := starts[t.serial];
    c.Start? && c.key == k && t.interval == IntervalTicks(c.interval) && t.history.delay == DelayTicks(c.delay)
  }

  /** The timers of s, in the order of their serial numbers, were made by `starts`. */
  ghost predicate Made(s: State, starts: seq<Command>) {
    && |starts| == |s.totals|
    && (forall n :: 0 <= n < |starts| ==>
         starts[n].Start? && starts[n].count == s.totals[n] && Startable(starts[n].delay, starts[n].interval))
    && (forall k :: k in s.timers ==> Fits(s.timers[k], k, starts))
    && (s.current.Current? ==> Fits(s.current.timer, s.current.key, starts))
  }

  // ----- along a run

  /** From s to s' exactly the deeds ds were done. */
  ghost predicate Done(s: State, s': State, ds: seq<Deed>) {
    && (forall n, c :: Answering(c) ==> CountOf(s'.log, n, c) == CountOf(s.log, n, c) + Number(ds, n, c))
    && (forall starts :: Made(s, starts) ==> Made(s', starts + Starts(ds)))
  }

  lemma DoneTrans(s: State, m: State, s': State, a: seq<Deed>, b: seq<Deed>)
    requires Done(s, m, a) && Done(m, s', b)
    ensures Done(s, s', a + b)
  {
    hide Made, CountOf, Number, Starts;
    forall n, c | Answering(c) ensures CountOf(s'.log, n, c) == CountOf(s.log, n, c) + Number(a + b, n, c) {
      NumberOfBoth(a, b, n, c);
    }
    StartsOfBoth(a, b);
    forall starts | Made(s, starts) ensures Made(s', starts + Starts(a + b)) {
      assert Made(m, starts + Starts(a));
      assert starts + (Starts(a) + Starts(b)) == starts + Starts(a) + Starts(b);
    }
  }

  lemma CountMore(log: seq<Event>, e: Event, n: nat, c: Callback)
    ensures CountOf(log + [e], n, c) == CountOf(log, n, c) + if e.serial == n && e.callback == c then 1 else 0
  {
    assert (log + [e])[..|log|] == log;
  }

  lemma NothingDone(s: State, s': State)
    requires s'.log == s.log && s'.totals == s.totals
    requires forall k :: k in s'.timers ==>
      || (k in s.timers && SameStart(s.timers[k], s'.timers[k]))
      || (s.current.Current? && s.current.key == k && SameStart(s.current.timer, s'.timers[k]))
    requires s'.current.Current? ==>
      || (s.current.Current? && s'.current.key == s.current.key && SameStart(s.current.timer, s'.current.timer))
      || (s'.current.key in s.timers && s'.current.timer == s.timers[s'.current.key])
    ensures Done(s, s', [])
  {
    hide CountOf;
    forall starts | Made(s, starts) ensures Made(s', starts + Starts([])) { assert starts + [] == starts; }
  }

  predicate SameStart(t: Timer, t': Timer) {
    t'.serial == t.serial && t'.interval == t.interval && t'.history.delay == t.history.delay
  }

  lemma {:induction false} ExecDone(s: State, c: Command)
    ensures Done(s, Exec(s, c), Deeds(s, c))
    decreases c
  {
    if c.Start? {
      StartDone(s, c);
    } else if Acts(s, c) {
      hide Done, Handler, Return;
      var s1 := Handler(s, c);
      HandlerDone(s, c);
      AllDone(s1, c.inner);
      ReturnDone(s, c, ExecAll(s1, c.inner));
      DoneTrans(s, s1, ExecAll(s1, c.inner), [Deed(c, RecordOf(s, c.key).serial)], AllDeeds(s1, c.inner));
      DoneTrans(s, ExecAll(s1, c.inner), Exec(s, c), Deeds(s, c), []);
      assert Deeds(s, c) + [] == Deeds(s, c);
    } else {
      NothingDone(s, s);
    }
  }

  lemma {:induction false} AllDone(s: State, cs: seq<Command>)
    ensures Done(s, ExecAll(s, cs), AllDeeds(s, cs))
    decreases cs, 0
  {
    hide Done;
    if cs == [] {
      NothingDone(s, s);
    } else {
      ExecDone(s, cs[0]);
      AllDone(Exec(s, cs[0]), cs[1..]);
      DoneTrans(s, Exec(s, cs[0]), ExecAll(s, cs), Deeds(s, cs[0]), AllDeeds(Exec(s, cs[0]), cs[1..]));
    }
  }

  lemma StartDone(s: State, c: Command)
    requires c.Start?
    ensures Done(s, Exec(s, c), Deeds(s, c))
  {
    hide CountOf;
    var ds := Deeds(s, c);
    if ds == [] {
      NothingDone(s, s);
    } else {
      assert Starts(ds) == [c];
      assert forall n, x :: Number(ds, n, x) == 0;
      forall starts | Made(s, starts) ensures Made(Exec(s, c), starts + [c]) { }
    }
  }

  lemma HandlerDone(s: State, c: Command)
    requires !c.Start? && Acts(s, c)
    ensures Done(s, Handler(s, c), [Deed(c, RecordOf(s, c.key).serial)])
  {
    hide CountOf;
    var d, s' := Deed(c, RecordOf(s, c.key).serial), Handler(s, c);
    var e := Event(d.serial, c.key, Answer(c));
    assert s'.log == s.log + [e] && Starts([d]) == [];
    forall n, x | Answering(x) ensures CountOf(s'.log, n, x) == CountOf(s.log, n, x) + Number([d], n, x) {
      CountMore(s.log, e, n, x);
      assert Number([d][1..], n, x) == 0;
    }
    forall starts | Made(s, starts) ensures Made(s', starts + []) { assert starts + [] == starts; }
  }

  lemma ReturnDone(s: State, c: Command, s2: State)
    requires !c.Start? && Acts(s, c)
    ensures Done(s2, Return(s, c, s2), [])
  {
    NothingDone(s2, Return(s, c, s2));
  }

  lemma NotifyDone(script: Script, s: State, c: Callback)
    requires s.current.Current? && !Answering(c)
    ensures Done(s, Notify(script, s, c), NotifyDeeds(script, s, c))
  {
    hide Done, CountOf;
    var s1, e := LogCurrent(s, c), Event(s.current.timer.serial, s.current.key, c);
    LogDone(s, c);
    AllDone(s1, script(s1.log));
    DoneTrans(s, s1, Notify(script, s, c), [], NotifyDeeds(script, s, c));
    assert [] + NotifyDeeds(script, s, c) == NotifyDeeds(script, s, c);
  }

  lemma LogDone(s: State, c: Callback)
    requires s.current.Current? && !Answering(c)
    ensures Done(s, LogCurrent(s, c), [])
  {
    hide CountOf;
    forall n, x { CountMore(s.log, Event(s.current.timer.serial, s.current.key, c), n, x); }
    forall starts | Made(s, starts) ensures Made(LogCurrent(s, c), starts + []) { assert starts + [] == starts; }
  }

  lemma BeginDone(script: Script, s: State)
    requires s.current.Current?
    ensures Done(s, Begin(script, s), BeginDeeds(script, s))
  {
    hide Done, Notify;
    if s.current.timer.started {
      NothingDone(s, s);
    } else {
      var b := Notify(script, s, OnStart);
      NotifyDone(script, s, OnStart);
      Behind(s, b, Begin(script, s), BeginDeeds(script, s));
    }
  }

  lemma CallDone(script: Script, s: State)
    requires s.current.Current?
    ensures Done(s, Call(script, s), CallDeeds(script, s))
  {
    hide Done, Notify;
    if s.current.phase != Polling {
      NothingDone(s, s);
    } else {
      var s0 := WithCurrent(s, Counted(s.current.timer));
      NothingDone(s, s0);
      NotifyDone(script, s0, OnTimer);
      DoneTrans(s, s0, Notify(script, s0, OnTimer), [], CallDeeds(script, s));
      assert [] + CallDeeds(script, s) == CallDeeds(script, s);
      Behind(s, Notify(script, s0, OnTimer), Call(script, s), CallDeeds(script, s));
    }
  }

  /** The record of the timer being polled is brought up to date. */
  lemma Behind(s: State, m: State, s': State, ds: seq<Deed>)
    requires Done(s, m, ds) && m.current.Current? && s'.current.Current? && s' == WithCurrent(m, s'.current.timer)
    requires SameStart(m.current.timer, s'.current.timer)
    ensures Done(s, s', ds)
  {
    hide Done;
    NothingDone(m, s');
    DoneTrans(s, m, s', ds, []);
    assert ds + [] == ds;
  }

  lemma FinishDone(script: Script, s: State)
    requires s.current.Current?
    ensures Done(s, Finish(script, s), FinishDeeds(script, s))
  {
    hide Done, Notify;
    NothingDone(s, s);
    if s.current.timer.count == 0 && s.current.phase == Polling {
      NothingDone(s, Ended(s));
      NotifyDone(script, Ended(s), OnEnd(true));
      DoneTrans(s, Ended(s), Finish(script, s), [], FinishDeeds(script, s));
      assert [] + FinishDeeds(script, s) == FinishDeeds(script, s);
    }
  }

  lemma FireDone(script: Script, s: State)
    requires s.due != [] && s.due[0] in s.timers && s.current.Nobody?
    ensures Done(s, Fire(script, s), FireDeeds(script, s))
  {
    hide Done, Begin, Call, Finish, BeginDeeds, CallDeeds, FinishDeeds, Later;
    var s0 := Poll(s);
    var s1 := Begin(script, s0);
    var s2 := Call(script, s1);
    var s3 := Advance(s2);
    var s4 := Finish(script, s3);
    var a, b, c := BeginDeeds(script, s0), CallDeeds(script, s1), FinishDeeds(script, s3);
    NothingDone(s, s0);
    BeginDone(script, s0);
    CallDone(script, s1);
    SameLater(s2.current.timer);
    Behind(s1, s2, s3, b);
    FinishDone(script, s3);
    DoneTrans(s, s0, s1, [], a);
    DoneTrans(s, s1, s3, [] + a, b);
    DoneTrans(s, s3, s4, [] + a + b, c);
    SameLater(s4.current.timer);
    NothingDone(s4, Settle(s4));
    DoneTrans(s, s4, Settle(s4), [] + a + b + c, []);
    assert [] + a + b + c + [] == FireDeeds(script, s);
  }

  lemma SameLater(t: Timer)
    ensures forall n: nat :: SameStart(t, Later(t, n))
  {
  }

  lemma NextDone(script: Script, s: State, a: Action, s': State)
    requires Next(script, s, a, s')
    ensures Done(s, s', NextDeeds(script, s, a, s'))
  {
    hide Done, Deeds, FireDeeds;
    match a
    case Do(c) => ExecDone(s, c);
    case Pass(_) => NothingDone(s, s');
    case Turn => FireDone(script, s);
  }

  /** Along every run, from any of its states: exactly these deeds were done. */
  lemma {:induction false} RunDone(script: Script, states: seq<State>, actions: seq<Action>, i: nat)
    requires Run(script, states, actions) && i < |states|
    ensures Done(states[0], states[i], RunDeeds(script, states, actions, i))
    decreases i
  {
    hide Done, NextDeeds, Next, Run;
    if i == 0 {
      NothingDone(states[0], states[0]);
    } else {
      RunNext(script, states, actions, i);
      RunDone(script, states, actions, i - 1);
      NextDone(script, states[i - 1], actions[i - 1], states[i]);
      DoneTrans(states[0], states[i - 1], states[i], RunDeeds(script, states, actions, i - 1),
        NextDeeds(script, states[i - 1], actions[i - 1], states[i]));
    }
  }

  // ----- what this says

  /** The callback that answers a command is called before anything else that the command sets off. */
  lemma AnsweredAtOnce(s: State, c: Command)
    requires !c.Start? && Acts(s, c)
    ensures var log, log' := s.log, Exec(s, c).log;
      log + [Event(RecordOf(s, c.key).serial, c.key, Answer(c))] <= log'
  {
    ExecAllTouches(Handler(s, c), c.inner, c.key, 0);
  }

  /** Every run from launch: each kill, pause and resume that took effect has been answered by one callback of its
      timer, and there were no other such callbacks; each timer there is was made by the start of its number. */
  lemma EachAnswered(script: Script, states: seq<State>, actions: seq<Action>, i: nat, n: nat, c: Callback)
    requires Run(script, states, actions) && i < |states| && states[0] == INIT && Answering(c)
    ensures CountOf(states[i].log, n, c) == Number(RunDeeds(script, states, actions, i), n, c)
    ensures Made(states[i], Starts(RunDeeds(script, states, actions, i)))
  {
    RunDone(script, states, actions, i);
    assert Made(states[0], []);
    assert [] + Starts(RunDeeds(script, states, actions, i)) == Starts(RunDeeds(script, states, actions, i));
  }

  lemma {:induction false} StartsGrow(script: Script, states: seq<State>, actions: seq<Action>, j: nat, i: nat)
    requires Run(script, states, actions) && j <= i < |states|
    ensures Starts(RunDeeds(script, states, actions, j)) <= Starts(RunDeeds(script, states, actions, i))
    decreases i
  {
    hide Starts, Next, NextDeeds;
    if j < i {
      RunNext(script, states, actions, i);
      StartsGrow(script, states, actions, j, i - 1);
      StartsOfBoth(RunDeeds(script, states, actions, i - 1),
        NextDeeds(script, states[i - 1], actions[i - 1], states[i]));
    }
  }

  /** A kill that takes effect is answered by exactly one onEnd(false), and by no onEnd(true), and its timer is gone
      between any two turns from then on. */
  lemma KilledOnce(script: Script, states: seq<State>, actions: seq<Action>, i: nat, d: Deed)
    requires OrderlyScript(script) && Run(script, states, actions) && i < |states| && states[0] == INIT
    requires d.command.Kill? && d in RunDeeds(script, states, actions, i)
    ensures CountOf(states[i].log, d.serial, OnEnd(false)) == 1 && CountOf(states[i].log, d.serial, OnEnd(true)) == 0
    ensures forall k :: k in states[i].timers ==> states[i].timers[k].serial != d.serial
  {
    InitInv();
    RunKeepsInv(script, states, actions, i);
    EachAnswered(script, states, actions, i, d.serial, OnEnd(false));
    NumberIsPositive(RunDeeds(script, states, actions, i), d, OnEnd(false));
    EndedIsGone(states[i], d.serial);
  }

  lemma {:induction false} NumberIsPositive(ds: seq<Deed>, d: Deed, c: Callback)
    requires d in ds && AnsweredBy(d, d.serial, c)
    ensures Number(ds, d.serial, c) > 0
    decreases |ds|
  {
    if ds[0] != d { NumberIsPositive(ds[1..], d, c); }
  }

  lemma EndedIsGone(s: State, n: nat)
    requires Inv(s) && s.current.Nobody? && CountOf(s.log, n, OnEnd(false)) > 0
    ensures CountOf(s.log, n, OnEnd(false)) == 1 && CountOf(s.log, n, OnEnd(true)) == 0
    ensures forall k :: k in s.timers ==> s.timers[k].serial != n
  {
    assert n < |s.totals| ==> EndsOk(LifeOf(s.log, n), s.totals[n]);
    LifeCounts(s.log, n);
    forall k | k in s.timers ensures s.timers[k].serial != n { assert Recorded(s.log, s.timers[k]); }
  }
}
