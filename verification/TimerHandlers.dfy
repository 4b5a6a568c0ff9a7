/** Handlers of onPause and onResume that issue commands about their own timer, and what the code makes of them. */
module TimerHandlers {
  import opened TimerSpec
  import opened TimerInvariant
  import opened TimerRuns
  import opened TimerCalls

  /** What can be read off a command: no handler of onPause or onResume in it gives a command about its own timer.
      The handlers of the timers in `busy` are running. */
  ghost predicate Tame(c: Command, busy: set<Key>)
    decreases c
  {
    !c.Start? ==>
      c.key !in busy && forall d :: d in c.inner ==> Tame(d, if c.Kill? then busy else busy + {c.key})
  }

  ghost predicate AllTame(cs: seq<Command>, busy: set<Key>) {
    forall c :: c in cs ==> Tame(c, busy)
  }

  /** Such a command is orderly in every state. */
  lemma {:induction false} TameIsOrderly(s: State, c: Command, busy: set<Key>, more: set<Key>)
    requires Tame(c, more) && busy <= more
    ensures Orderly(s, c, busy)
    decreases c
  {
    if !c.Start? && Acts(s, c) {
      AllTameIsOrderly(Handler(s, c), c.inner, Inside(s, c, busy), if c.Kill? then more else more + {c.key});
    }
  }

  lemma {:induction false} AllTameIsOrderly(s: State, cs: seq<Command>, busy: set<Key>, more: set<Key>)
    requires AllTame(cs, more) && busy <= more
    ensures AllOrderly(s, cs, busy)
    decreases cs, 0
  {
    if cs != [] {
      assert cs[0] in cs;
      TameIsOrderly(s, cs[0], busy, more);
      AllTameIsOrderly(Exec(s, cs[0]), cs[1..], busy, more);
    }
  }

  /** And so is every program of such commands. */
  lemma TameScriptIsOrderly(script: Script)
    requires forall log :: AllTame(script(log), {})
    ensures OrderlyScript(script)
  {
    forall s | Calling(s) ensures AllOrderly(s, script(s.log), {}) {
      AllTameIsOrderly(s, script(s.log), {}, {});
    }
  }

  /** About the timer being polled a handler may do what it likes: only what it sets off elsewhere counts. */
  lemma PolledIsFree(s: State, c: Command, busy: set<Key>)
    requires Ready(s, busy) && !c.Start? && PollingKey(s, c.key) && Acts(s, c)
    ensures Orderly(s, c, busy) <==> AllOrderly(Handler(s, c), c.inner, busy)
  {
    assert c.key !in s.timers;
  }

  /** The onTimer of this program pauses its own timer, whose onPause resumes it. */
  function TurnBack(log: seq<Event>): seq<Command> {
    if log != [] && log[|log| - 1].callback == OnTimer then
      [Pause(log[|log| - 1].key, [Resume(log[|log| - 1].key, [])])]
    else []
  }

  lemma OneOrderly(s: State, c: Command, busy: set<Key>)
    requires Orderly(s, c, busy)
    ensures AllOrderly(s, [c], busy)
  {
    assert AllOrderly(Exec(s, c), [c][1..], busy);
  }

  lemma Alone(s: State, c: Command)
    requires !c.Start? && c.inner == []
    ensures Orderly(s, c, {})
  {
  }

  /** That is in order: its timer is being polled. */
  lemma TurnBackIsOrderly()
    ensures OrderlyScript(TurnBack)
  {
    forall s | Calling(s) ensures AllOrderly(s, TurnBack(s.log), {}) {
      if s.log[|s.log| - 1].callback == OnTimer { TurnsBack(s); }
    }
  }

  lemma TurnsBack(s: State)
    requires Calling(s) && s.log[|s.log| - 1].callback == OnTimer
    ensures AllOrderly(s, [Pause(s.current.key, [Resume(s.current.key, [])])], {})
  {
    hide Orderly, AllOrderly;
    var c, resume := Pause(s.current.key, [Resume(s.current.key, [])]), Resume(s.current.key, []);
    LifeStep(s.log[..|s.log| - 1], s.log[|s.log| - 1], s.current.timer.serial);
    assert s.log[..|s.log| - 1] + [s.log[|s.log| - 1]] == s.log;
    assert PollingKey(s, c.key);
    InvReady(s);
    if Acts(s, c) {
      Alone(Handler(s, c), resume);
      OneOrderly(Handler(s, c), resume, {});
      PolledIsFree(s, c, {});
    } else {
      Idle(s, c);
    }
    OneOrderly(s, c, {});
  }

  lemma Idle(s: State, c: Command)
    requires !c.Start? && !Acts(s, c)
    ensures Orderly(s, c, {})
  {
  }

  /** Timer k is where it should be: parked if it is paused, and not otherwise. */
  predicate WellPlaced(s: State, k: Key) {
    !s.misused && k in s.timers && s.timers[k].parked == s.timers[k].paused
  }

  /** The handler of the pause or resume c has returned in s2: it left its timer alive and as c had made it. */
  predicate LeftAlone(s: State, c: Command, s2: State) {
    !s2.misused && c.key in s.timers && c.key in s2.timers
    && s2.timers[c.key].serial == s.timers[c.key].serial && s2.timers[c.key].paused == c.Pause?
  }

  /** Nobody is left in the middle of his onEnd(false). */
  ghost predicate NoneLeftOver(s: State, s': State) {
    forall k :: k in s'.timers && !s'.timers[k].valid ==> k in s.timers && !s.timers[k].valid
  }

  lemma {:induction false} ExecLeavesNone(s: State, c: Command)
    ensures NoneLeftOver(s, Exec(s, c))
    decreases c
  {
    if !c.Start? && Acts(s, c) {
      AllLeaveNone(Handler(s, c), c.inner);
      HandlerOnly(s, c, ExecAll(Handler(s, c), c.inner));
    }
  }

  lemma {:induction false} AllLeaveNone(s: State, cs: seq<Command>)
    ensures NoneLeftOver(s, ExecAll(s, cs))
    decreases cs, 0
  {
    if cs != [] {
      ExecLeavesNone(s, cs[0]);
      AllLeaveNone(Exec(s, cs[0]), cs[1..]);
    }
  }

  /** Whatever a handler of onPause or onResume does, its timer ends up in the right place if and only if it is
      still alive, and still paused or running as it was told, when the handler returns. */
  lemma PlacedIff(s: State, c: Command)
    requires Inv(s) && (c.Pause? || c.Resume?) && c.key in s.timers && Acts(s, c)
    ensures WellPlaced(Exec(s, c), c.key) <==> LeftAlone(s, c, ExecAll(Handler(s, c), c.inner))
  {
    hide Core;
    AllLeaveNone(Handler(s, c), c.inner);
  }

  lemma OneCommand(s: State, c: Command)
    ensures ExecAll(s, [c]) == Exec(s, c)
    ensures !c.Start? && Acts(s, c) && c.inner == [] ==> Exec(s, c) == Return(s, c, Handler(s, c))
  {
    assert ExecAll(Exec(s, c), [c][1..]) == Exec(s, c);
  }

  /** An onPause handler that resumes its own timer: it is parked and not paused, so no tick makes it due. */
  lemma ResumedInOnPause(s: State, k: Key)
    requires Inv(s) && k in s.timers && !s.timers[k].paused
    ensures var s' := Exec(s, Pause(k, [Resume(k, [])]));
      && k in s'.timers && s'.timers[k].parked && !s'.timers[k].paused && k !in s'.due
      && forall s'', order :: Tick(s', s'', order) ==> k !in s''.due
  {
    hide Inv, Tick;
    InvReady(s);
    var c := Pause(k, [Resume(k, [])]);
    var s1 := Handler(s, c);
    OneCommand(s1, Resume(k, []));
    var s2 := Exec(s1, Resume(k, []));
    assert Exec(s, c) == Return(s, c, s2);
    hide Exec, Handler, Acts;
    WithoutMembers(s2.due, k);
    ParkedStays(Exec(s, c), k);
  }

  lemma ParkedStays(s: State, k: Key)
    requires k in s.timers && s.timers[k].parked && k !in s.due
    ensures forall s', order :: Tick(s, s', order) ==> k !in s'.due
  {
  }

  /** An onResume handler that pauses its own timer: it is paused and not parked, so its tick makes it due. */
  lemma PausedInOnResume(s: State, k: Key)
    requires Inv(s) && k in s.timers && s.timers[k].paused
    ensures var s' := Exec(s, Resume(k, [Pause(k, [])]));
      && k in s'.timers && s'.timers[k].paused && !s'.timers[k].parked
      && forall s'', order :: Tick(s', s'', order) && s'.timers[k].expire == s'.now ==>
        k in s''.due && s''.timers[k].paused
  {
    hide Inv, Tick;
    InvReady(s);
    var c := Resume(k, [Pause(k, [])]);
    var s1 := Handler(s, c);
    OneCommand(s1, Pause(k, []));
    var s2 := Exec(s1, Pause(k, []));
    assert Exec(s, c) == Return(s, c, s2);
    hide Exec, Handler, Acts;
    OnWheelComesDue(Exec(s, c), k);
  }

  lemma OnWheelComesDue(s: State, k: Key)
    requires k in s.timers && !s.timers[k].parked
    ensures forall s', order :: Tick(s, s', order) && s.timers[k].expire == s.now ==>
      k in s'.due && s'.timers == s.timers
  {
  }

  /** And when it is polled, it is called although it is paused. */
  lemma PausedIsCalled(script: Script, s: State)
    requires s.current.Nobody? && s.due != [] && s.due[0] in s.timers
    requires s.timers[s.due[0]].paused && s.timers[s.due[0]].started
    ensures Calls(Fire(script, s), s.timers[s.due[0]].serial) == Calls(s, s.timers[s.due[0]].serial) + 1
  {
    var n, s1 := s.timers[s.due[0]].serial, WithCurrent(Poll(s), Counted(s.timers[s.due[0]]));
    hide Notify, CountOf, Settle;
    NotifyCalls(script, s1, OnTimer, n);
    var s2 := Advance(Call(script, Poll(s)));
    if s2.current.timer.count == 0 && s2.current.phase == Polling { NotifyCalls(script, Ended(s2), OnEnd(true), n); }
    SettleLogs(Served(script, s));
  }

  /** A handler of onPause or onResume that kills its own timer: the code goes on to use it. */
  lemma KilledInHandler(s: State, c: Command)
    requires Inv(s) && (c.Pause? || c.Resume?) && c.key in s.timers && Acts(s, c) && c.inner == [Kill(c.key, [])]
    ensures Exec(s, c).misused
  {
    var s1 := Handler(s, c);
    OneCommand(s1, Kill(c.key, []));
    assert Exec(s1, Kill(c.key, [])) == Removed(Handler(s1, Kill(c.key, [])), c.key);
  }
}
