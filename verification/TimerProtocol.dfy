/** The callback protocol, read off the log: which callbacks a timer gets, how often and in which order. */
module TimerProtocol {
  import opened TimerSpec
  import opened TimerInvariant
  import opened TimerRuns

  lemma {:induction false} CountIsPositive(log: seq<Event>, n: nat, c: Callback)
    ensures CountOf(log, n, c) > 0 <==> exists i :: Is(log, i, n, c)
    decreases |log|
  {
    if log != [] {
      var init := log[..|log| - 1];
      CountIsPositive(init, n, c);
      if i :| Is(log, i, n, c) { assert i < |init| ==> Is(init, i, n, c); }
      if i :| Is(init, i, n, c) { assert Is(log, i, n, c); }
    }
  }

  lemma {:induction false} LifeCounts(log: seq<Event>, n: nat)
    requires LifeOf(log, n) != Broken
    ensures CountOf(log, n, OnTimer) == LifeOf(log, n).fires
    ensures CountOf(log, n, OnStart) <= 1
    ensures CountOf(log, n, OnPause) - CountOf(log, n, OnResume) in {0, 1}
    ensures match LifeOf(log, n)
      case Open(started, _, paused) =>
        && CountOf(log, n, OnStart) == (if started then 1 else 0)
        && CountOf(log, n, OnPause) - CountOf(log, n, OnResume) == (if paused then 1 else 0)
        && CountOf(log, n, OnEnd(true)) == CountOf(log, n, OnEnd(false)) == 0
      case Closed(_, nonviolent) =>
        CountOf(log, n, OnEnd(nonviolent)) == 1 && CountOf(log, n, OnEnd(!nonviolent)) == 0
    decreases |log|
  {
    if log != [] { LifeCounts(log[..|log| - 1], n); }
  }

  lemma {:induction false} EarlierLife(log: seq<Event>, n: nat, j: nat)
    requires j <= |log| && LifeOf(log, n) != Broken
    ensures LifeOf(log[..j], n) != Broken
    decreases |log|
  {
    if j < |log| {
      EarlierLife(log[..|log| - 1], n, j);
      assert log[..|log| - 1][..j] == log[..j];
    } else {
      assert log[..j] == log;
    }
  }

  /** What comes before a callback of timer n: no onEnd; its onStart, if it is onTimer; and no onStart, if it
      is onStart. */
  lemma Before(log: seq<Event>, n: nat, j: nat)
    requires j < |log| && log[j].serial == n && LifeOf(log, n) != Broken
    ensures forall i :: 0 <= i < j && log[i].serial == n ==> !log[i].callback.OnEnd?
    ensures log[j].callback == OnTimer ==> exists i :: i < j && Is(log, i, n, OnStart)
    ensures log[j].callback == OnStart ==>
      forall i :: 0 <= i < j && log[i].serial == n ==> log[i].callback !in {OnStart, OnTimer}
  {
    var before := log[..j];
    EarlierLife(log, n, j + 1);
    assert log[..j + 1] == before + [log[j]];
    LifeStep(before, log[j], n);
    LifeCounts(before, n);
    CountIsPositive(before, n, OnStart);
    CountIsPositive(before, n, OnTimer);
    forall i | 0 <= i < j && log[i].serial == n ensures !log[i].callback.OnEnd? {
      CountIsPositive(before, n, log[i].callback);
      assert Is(before, i, n, log[i].callback);
    }
    if i :| Is(before, i, n, OnStart) { assert Is(log, i, n, OnStart); }
    if log[j].callback == OnStart {
      forall i | 0 <= i < j && log[i].serial == n ensures log[i].callback !in {OnStart, OnTimer} {
        assert Is(before, i, n, log[i].callback);
      }
    }
  }

  /** In every state of every run, for every orderly program: a timer gets at most one onStart, before any
      onTimer, and at most one onEnd, with nothing after it. If it was started with a count of one or more, it
      is called no more often than that; fewer times while it has no onEnd; and exactly that often if it ended
      by itself. Until it has its onEnd it stays in the map. */
  lemma CallbackProtocol(script: Script, states: seq<State>, actions: seq<Action>, i: nat, n: nat)
    requires OrderlyScript(script) && Run(script, states, actions)
    requires i < |states| && states[0] == INIT && n < |states[i].totals|
    ensures var log, total := states[i].log, states[i].totals[n];
      && CountOf(log, n, OnStart) <= 1 && CountOf(log, n, OnEnd(true)) + CountOf(log, n, OnEnd(false)) <= 1
      && (forall j :: Is(log, j, n, OnTimer) ==> exists k :: k < j && Is(log, k, n, OnStart))
      && (forall j, k :: 0 <= j < k < |log| && log[j].serial == log[k].serial == n ==> !log[j].callback.OnEnd?)
      && (CountOf(log, n, OnEnd(true)) == 1 ==>
           total >= 0 && CountOf(log, n, OnTimer) == if total >= 1 then total else 1)
      && (total >= 1 ==> CountOf(log, n, OnTimer) <= total)
      && (CountOf(log, n, OnEnd(true)) + CountOf(log, n, OnEnd(false)) == 0 ==>
           (exists k :: k in states[i].timers && states[i].timers[k].serial == n)
           && (total >= 1 ==> CountOf(log, n, OnTimer) < total))
  {
    InitInv();
    RunKeepsInv(script, states, actions, i);
    var s := states[i];
    assert EndsOk(LifeOf(s.log, n), s.totals[n]);
    LifeCounts(s.log, n);
    assert LifeOf(s.log, n).Open? ==> Held(s, n);
    forall j | 0 <= j < |s.log| && s.log[j].serial == n
      ensures s.log[j].callback == OnTimer ==> exists k :: k < j && Is(s.log, k, n, OnStart)
      ensures forall k :: 0 <= k < j && s.log[k].serial == n ==> !s.log[k].callback.OnEnd?
    {
      Before(s.log, n, j);
    }
  }
}
