/** What every reachable state of the timer manager keeps. */
module TimerInvariant {
  import opened TimerSpec
  import opened Wrappers

  // ----- the life of one timer, read off the callback log

  datatype Life = Open(started: bool, fires: nat, paused: bool) | Closed(fires: nat, nonviolent: bool) | Broken

  /** The callback protocol. A paused timer fires only straight after pausing itself in its own onStart. */
  function After(l: Life, c: Callback): Life {
    if !l.Open? then Broken
    else match c
      case OnStart => if l.started || l.paused || l.fires > 0 then Broken else Open(true, 0, false)
      case OnTimer => if !l.started || (l.paused && l.fires > 0) then Broken else Open(true, l.fires + 1, l.paused)
      case OnPause => if l.paused then Broken else Open(l.started, l.fires, true)
      case OnResume => if l.paused then Open(l.started, l.fires, false) else Broken
      case OnEnd(nonviolent) => if nonviolent && l.fires == 0 then Broken else Closed(l.fires, nonviolent)
  }

  function LifeOf(log: seq<Event>, serial: nat): Life
    decreases |log|
  {
    if log == [] then Open(false, 0, false)
    else
      var init, e := log[..|log| - 1], log[|log| - 1];
      if e.serial == serial then After(LifeOf(init, serial), e.callback) else LifeOf(init, serial)
  }

  lemma LifeStep(log: seq<Event>, e: Event, serial: nat)
    ensures LifeOf(log + [e], serial)
            == if e.serial == serial then After(LifeOf(log, serial), e.callback) else LifeOf(log, serial)
  {
    assert (log + [e])[..|log|] == log;
  }

  // ----- the invariant

  ghost predicate Sound(t: Timer, now: int) {
    && 1 <= t.interval < HORIZON
    && 0 <= t.expire
    && (if t.paused then 0 <= t.pauseTick <= now && t.expire < t.pauseTick + HORIZON else t.expire < now + HORIZON)
  }

  /** Whatever delays, pauses and catching up it met, a timer expires on the grid of its own period. */
  ghost predicate OnGrid(t: Timer) {
    t.expire == t.history.born + t.history.delay + t.history.parkedFor + t.history.periods * t.interval
  }

  /** The repeat count of a timer started with `total`, between polls. */
  ghost predicate CountOk(t: Timer, total: int) {
    && t.history.fires <= t.history.periods
    && (total >= 1 ==> t.count == total - t.history.fires >= 1)
    && (total <= 0 ==> t.count == total)
    && (total == 0 ==> t.history.fires == 0)
    && (t.history.fires == 0 ==> t.history.periods == 0)
    && t.started == (t.history.fires > 0)
  }

  ghost predicate TimerOk(t: Timer, now: int, totals: seq<int>) {
    Sound(t, now) && OnGrid(t) && t.serial < |totals| && CountOk(t, totals[t.serial])
  }

  ghost predicate Queued(s: State) {
    && Distinct(s.due)
    && (forall k :: k in s.due <==> k in s.timers && !s.timers[k].parked && s.timers[k].expire < s.now)
  }

  ghost predicate TimersOk(s: State) {
    forall k :: k in s.timers ==> TimerOk(s.timers[k], s.now, s.totals)
  }

  ghost predicate SerialsApart(s: State) {
    && (forall k, k' :: k in s.timers && k' in s.timers && k != k' ==> s.timers[k].serial != s.timers[k'].serial)
    && (s.current.Current? ==> forall k :: k in s.timers ==> s.timers[k].serial != s.current.timer.serial)
  }

  /** A life is in order and stays within the repeat count; one that ended by itself used it up. */
  ghost predicate EndsOk(l: Life, total: int) {
    && l != Broken && (total >= 1 ==> l.fires <= total)
    && (l.Closed? && l.nonviolent ==> total >= 0 && l.fires == if total >= 1 then total else 1)
  }

  /** Some timer of the manager has this serial number and has not ended. */
  ghost predicate Held(s: State, n: nat) {
    || (exists k :: k in s.timers && s.timers[k].serial == n)
    || (s.current.Current? && s.current.phase == Polling && s.current.timer.serial == n)
  }

  /** The record of a timer says what its log says. */
  ghost predicate Recorded(log: seq<Event>, t: Timer) {
    if t.valid then LifeOf(log, t.serial) == Open(t.started, t.history.fires, t.paused)
      else LifeOf(log, t.serial).Closed?
  }

  ghost predicate LivesOk(s: State) {
    && (forall k :: k in s.timers ==> Recorded(s.log, s.timers[k]))
    && (forall n: nat :: n < |s.totals| ==> EndsOk(LifeOf(s.log, n), s.totals[n]))
    && (forall n: nat :: n >= |s.totals| ==> LifeOf(s.log, n) == Open(false, 0, false))
  }

  /** No timer is lost: whoever is gone has had its onEnd. */
  ghost predicate NoneLost(s: State) {
    forall n: nat :: n < |s.totals| && LifeOf(s.log, n).Open? ==> Held(s, n)
  }

  /** The timer being polled, while one of its callbacks runs. */
  ghost predicate CurrentOk(s: State) {
    s.current.Current? ==>
      var t := s.current.timer;
      t.serial < |s.totals| && !t.parked && t.valid == (s.current.phase == Polling) &&
      var life := LifeOf(s.log, t.serial);
      match s.current.phase
      case Polling => PolledOk(t, s.now) && life.Open? && life.fires == t.history.fires && life.paused == t.paused
      case Killed => Left(t, s.now) && life.Closed?
      case Ending => life.Closed?
  }

  ghost predicate PolledOk(t: Timer, now: int) {
    Sound(t, now) && OnGrid(t) && Left(t, now)
  }

  ghost predicate Left(t: Timer, now: int) {
    0 <= t.expire < now && (t.paused ==> t.pauseTick == now)
  }

  /** Its key stays taken until it is over. */
  ghost predicate Unlisted(s: State) {
    s.current.Current? && s.current.phase != Killed ==> s.current.key !in s.timers
  }

  /** What holds in every state, also while a handler of onEnd(false), onPause or onResume runs. */
  ghost predicate Core(s: State) {
    && 0 <= s.now && !s.misused
    && Unlisted(s) && Queued(s) && TimersOk(s) && SerialsApart(s) && LivesOk(s) && NoneLost(s) && CurrentOk(s)
  }

  /** Exactly the paused timers are parked, but for those in `busy`, whose handlers are running. */
  ghost predicate Calm(s: State, busy: set<Key>) {
    forall k :: k in s.timers && k !in busy && s.timers[k].valid ==> s.timers[k].parked == s.timers[k].paused
  }

  /** No such handler is running. */
  ghost predicate AllCalm(s: State) {
    forall k :: k in s.timers ==> s.timers[k].valid && s.timers[k].parked == s.timers[k].paused
  }

  ghost predicate Inv(s: State) {
    Core(s) && AllCalm(s)
  }

  // ----- commands keep it

  lemma WithoutMembers(q: seq<Key>, k: Key)
    ensures forall x :: x in Without(q, k) <==> x in q && x != k
    ensures Distinct(q) ==> Distinct(Without(q, k))
  {
    if q != [] {
      assert q == [q[0]] + q[1..];
      WithoutMembers(q[1..], k);
      if Distinct(q) {
        assert forall i :: 0 <= i < |q[1..]| ==> q[1..][i] == q[i + 1];
        assert q[0] !in q[1..];
      }
    }
  }

  /** Its onStart has been called. */
  ghost predicate Started(s: State, serial: nat) {
    LifeOf(s.log, serial).Open? ==> LifeOf(s.log, serial).started
  }

  /** What no command changes in the timer being polled. */
  ghost predicate Steady(s: State, s': State) {
    && s'.now == s.now && s.totals <= s'.totals && s'.current.Current? == s.current.Current?
    && (s.current.Current? ==>
         var t, t' := s.current.timer, s'.current.timer;
         && s'.current.key == s.current.key
         && t' == t.(paused := t'.paused, pauseTick := t'.pauseTick, valid := t'.valid)
         && (Started(s, t.serial) ==> Started(s', t.serial))
         && (if s.current.phase == Polling then s'.current.phase != Ending else s'.current == s.current))
  }

  /** Logging moves one life on and leaves the others alone. */
  lemma LogLives(log: seq<Event>, e: Event)
    ensures forall n: nat :: LifeOf(log + [e], n) == if n == e.serial then After(LifeOf(log, n), e.callback)
      else LifeOf(log, n)
  {
    forall n: nat { LifeStep(log, e, n); }
  }

  /** From s to s' nothing changes but the entry of k, and what is there in s' is in order. */
  ghost predicate Touches(s: State, s': State, k: Key) {
    && s'.now == s.now && s.totals <= s'.totals
    && (forall x :: x != k ==> (x in s'.timers <==> x in s.timers) && (x in s.due <==> x in s'.due))
    && (forall x :: x != k && x in s.timers ==> s'.timers[x] == s.timers[x])
    && Distinct(s'.due)
    && (k in s'.due <==> k in s'.timers && !s'.timers[k].parked && s'.timers[k].expire < s'.now)
    && (k in s'.timers ==> TimerOk(s'.timers[k], s'.now, s'.totals))
  }

  /** The serial number n belongs to no timer but k's. */
  ghost predicate Apart(s: State, k: Key, n: nat) {
    forall x :: x in s.timers && x != k ==> s.timers[x].serial != n
  }

  lemma TouchedTimers(s: State, s': State, k: Key)
    requires Touches(s, s', k) && TimersOk(s) && Queued(s)
    ensures TimersOk(s') && Queued(s')
  {
  }

  lemma TouchedSerials(s: State, s': State, k: Key)
    requires Touches(s, s', k) && SerialsApart(s)
    requires k in s'.timers ==> Apart(s, k, s'.timers[k].serial)
    requires s'.current.Current? ==> Apart(s, k, s'.current.timer.serial)
    requires s'.current.Current? && k in s'.timers ==> s'.timers[k].serial != s'.current.timer.serial
    ensures SerialsApart(s')
  {
  }

  lemma TouchedLives(s: State, s': State, k: Key, e: Event)
    requires Touches(s, s', k) && TimersOk(s) && LivesOk(s)
    requires e.serial < |s.totals| && s'.totals == s.totals && s'.log == s.log + [e] && Apart(s, k, e.serial)
    requires EndsOk(After(LifeOf(s.log, e.serial), e.callback), s.totals[e.serial])
    requires k in s'.timers ==> s'.timers[k].serial == e.serial && Recorded(s'.log, s'.timers[k])
    ensures LivesOk(s')
  {
    LogLives(s.log, e);
  }

  lemma TouchedHeld(s: State, s': State, k: Key, e: Event)
    requires Touches(s, s', k) && NoneLost(s)
    requires e.serial < |s.totals| && s'.totals == s.totals && s'.log == s.log + [e]
    requires LifeOf(s'.log, e.serial).Open? ==> Held(s', e.serial)
    requires forall n: nat :: n != e.serial && Held(s, n) ==> Held(s', n)
    ensures NoneLost(s')
  {
    LogLives(s.log, e);
  }

  /** A logged change to one listed timer. */
  lemma TouchedCore(s: State, s': State, k: Key, e: Event)
    requires Core(s) && Touches(s, s', k) && k in s.timers && k in s'.timers
    requires e.serial == s.timers[k].serial == s'.timers[k].serial
    requires s'.totals == s.totals && s'.log == s.log + [e] && s'.current == s.current && !s'.misused
    requires After(LifeOf(s.log, e.serial), e.callback) != Broken
    requires e.callback != OnEnd(true) && e.callback != OnTimer
    requires Recorded(s'.log, s'.timers[k])
    ensures Core(s') && Steady(s, s')
  {
    TouchedTimers(s, s', k);
    TouchedSerials(s, s', k);
    LifeStep(s.log, e, e.serial);
    TouchedLives(s, s', k, e);
    forall n: nat | n != e.serial && Held(s, n) ensures Held(s', n) {
      if x :| x in s.timers && s.timers[x].serial == n { assert x != k && x in s'.timers; }
    }
    assert Held(s', e.serial);
    TouchedHeld(s, s', k, e);
    if s.current.Current? { LifeStep(s.log, e, s.current.timer.serial); }
  }

  /** A change to one listed timer that is not logged: it goes to another list, or it is removed, being over. */
  lemma MovedCore(s: State, s': State, k: Key)
    requires Core(s) && Touches(s, s', k) && k in s.timers
    requires s'.totals == s.totals && s'.log == s.log && s'.current == s.current && !s'.misused
    requires if k in s'.timers then s'.timers[k] == s.timers[k].(parked := s'.timers[k].parked) else !s.timers[k].valid
    ensures Core(s') && Steady(s, s')
  {
    hide TimersOk, Queued, LifeOf, EndsOk;
    TouchedTimers(s, s', k);
    TouchedSerials(s, s', k);
    MovedHeld(s, s', k);
    hide NoneLost;
  }

  lemma MovedHeld(s: State, s': State, k: Key)
    requires Core(s) && Touches(s, s', k) && k in s.timers
    requires s'.totals == s.totals && s'.log == s.log && s'.current == s.current
    requires if k in s'.timers then s'.timers[k].serial == s.timers[k].serial else !s.timers[k].valid
    ensures NoneLost(s')
  {
    hide TimersOk, Queued, LifeOf, EndsOk, CurrentOk;
    forall n: nat | n < |s.totals| && LifeOf(s.log, n).Open? ensures Held(s', n) {
      assert Held(s, n);
      if x :| x in s.timers && s.timers[x].serial == n { assert x in s'.timers; }
    }
  }

  lemma SameListed(s: State, s': State)
    requires s'.timers == s.timers && s'.due == s.due && s'.now == s.now && s'.totals == s.totals
    requires TimersOk(s) && Queued(s)
    ensures TimersOk(s') && Queued(s')
  {
  }

  // ----- the steps of a command

  lemma HandlerKeeps(s: State, c: Command)
    requires Core(s) && !c.Start? && Acts(s, c)
    requires c.Resume? && c.key in s.timers ==> s.timers[c.key].parked
    ensures Core(Handler(s, c)) && (!c.Kill? || c.key in s.timers ==> Steady(s, Handler(s, c)))
  {
    hide SerialsApart, NoneLost, EndsOk;
    var k, t, s' := c.key, RecordOf(s, c.key), Handler(s, c);
    var e := Event(t.serial, k, if c.Kill? then OnEnd(false) else if c.Pause? then OnPause else OnResume);
    LifeStep(s.log, e, t.serial);
    if k in s.timers { TouchedCore(s, s', k, e); } else { PolledCore(s, s', e); }
  }

  /** A logged change to the timer being polled. */
  lemma PolledCore(s: State, s': State, e: Event)
    requires Core(s) && s.current.Current? && s.current.phase == Polling && e.serial == s.current.timer.serial
    requires s'.current.Current? && s' == s.(current := s'.current, log := s.log + [e])
      && s'.current.key == s.current.key
    requires var t, t' := s.current.timer, s'.current.timer;
      match e.callback
      case OnPause => !t.paused && t' == Paused(t, s.now) && s'.current.phase == Polling
      case OnResume => t.paused && t' == Resumed(t, s.now) && s'.current.phase == Polling
      case OnEnd(nonviolent) => !nonviolent && t' == t.(valid := false) && s'.current.phase == Ending
      case _ => false
    ensures Core(s') && (s'.current.phase == Polling ==> Steady(s, s'))
  {
    hide TimersOk, Queued;
    LogLives(s.log, e);
    SameListed(s, s');
    forall n: nat | n != e.serial && Held(s, n) ensures Held(s', n) {
      if x :| x in s.timers && s.timers[x].serial == n { assert x in s'.timers; }
    }
  }

  lemma RemovedKeeps(s: State, k: Key)
    requires Core(s) && k in s.timers && !s.timers[k].valid
    ensures Core(Removed(s, k)) && Steady(s, Removed(s, k))
  {
    hide LivesOk, NoneLost, SerialsApart, CurrentOk;
    WithoutMembers(s.due, k);
    MovedCore(s, Removed(s, k), k);
  }

  lemma ParkKeeps(s: State, k: Key)
    requires Core(s) && k in s.timers
    ensures Core(Park(s, k)) && Steady(s, Park(s, k))
  {
    hide LivesOk, NoneLost, SerialsApart, CurrentOk;
    WithoutMembers(s.due, k);
    MovedCore(s, Park(s, k), k);
  }

  lemma RefileKeeps(s: State, k: Key)
    requires Core(s) && k in s.timers
    ensures Core(Refile(s, k)) && Steady(s, Refile(s, k))
  {
    hide LivesOk, NoneLost, SerialsApart, CurrentOk;
    WithoutMembers(s.due, k);
    MovedCore(s, Refile(s, k), k);
  }

  /** The timer being polled loses its key once its onEnd(false) has returned. */
  lemma KilledKeeps(s: State)
    requires Core(s) && s.current.Current? && s.current.phase == Ending && Left(s.current.timer, s.now)
    ensures Core(s.(current := s.current.(phase := Killed)))
  {
    var s' := s.(current := s.current.(phase := Killed));
    forall n: nat | Held(s, n) ensures Held(s', n) {
      if x :| x in s.timers && s.timers[x].serial == n { assert x in s'.timers; }
    }
  }

  lemma StartedHeld(s: State, s': State, k: Key)
    requires NoneLost(s) && k !in s.timers && k in s'.timers && s'.timers[k].serial == |s.totals|
    requires s'.timers == s.timers[k := s'.timers[k]] && |s'.totals| == |s.totals| + 1
      && s'.log == s.log && s'.current == s.current
    ensures NoneLost(s')
  {
    hide LifeOf;
    forall n: nat | n < |s'.totals| && LifeOf(s'.log, n).Open? ensures Held(s', n) {
      if n < |s.totals| {
        assert Held(s, n);
        if x :| x in s.timers && s.timers[x].serial == n { assert x in s'.timers; }
      }
    }
  }

  lemma StartKeepsInv(s: State, k: Key, delay: int, count: int, interval: int)
    requires Core(s) && Startable(delay, interval)
    ensures var s' := StartTimer(s, k, delay, count, interval);
      Core(s') && Steady(s, s')
  {
    var s' := StartTimer(s, k, delay, count, interval);
    if !Known(s, k) {
      hide TimersOk, Queued, EndsOk, LivesOk, Touches, LifeOf, TimerOk, NoneLost;
      StartTouches(s, k, delay, count, interval);
      TouchedTimers(s, s', k);
      StartApart(s, s', k);
      StartedHeld(s, s', k);
    }
  }

  lemma StartTouches(s: State, k: Key, delay: int, count: int, interval: int)
    requires Core(s) && Startable(delay, interval) && !Known(s, k)
    ensures var s' := StartTimer(s, k, delay, count, interval); Touches(s, s', k) && LivesOk(s')
  {
    hide SerialsApart, NoneLost, CurrentOk, LifeOf;
  }

  lemma StartApart(s: State, s': State, k: Key)
    requires SerialsApart(s) && TimersOk(s) && k !in s.timers && k in s'.timers
      && s'.timers == s.timers[k := s'.timers[k]]
    requires s'.timers[k].serial == |s.totals| && s'.current == s.current
    requires s.current.Current? ==> s.current.timer.serial < |s.totals|
    ensures SerialsApart(s')
  {
    forall x | x in s.timers ensures s.timers[x].serial < |s.totals| { assert TimerOk(s.timers[x], s.now, s.totals); }
  }

  // ----- commands keep it

  /** The timers in `busy`, and those whose onEnd(false) is running, stay as they are; no others are left so. */
  ghost predicate Frozen(s: State, s': State, busy: set<Key>) {
    && (forall k :: k in s.timers && (k in busy || !s.timers[k].valid) ==>
         k in s'.timers && s'.timers[k] == s.timers[k] && (k in s'.due <==> k in s.due))
    && (forall k :: k in s'.timers && !s'.timers[k].valid ==> k in s.timers && !s.timers[k].valid)
  }

  /** A state in which the handlers of the timers in `busy` are running. */
  ghost predicate Ready(s: State, busy: set<Key>) {
    Core(s) && Calm(s, busy) && busy <= s.timers.Keys
  }

  /** Only the timer k may be told from before. */
  ghost predicate OnlyAt(s: State, s': State, k: Key) {
    forall x :: x != k ==>
      (x in s'.timers <==> x in s.timers) && (x in s.timers ==> s'.timers[x] == s.timers[x])
        && (x in s'.due <==> x in s.due)
  }

  /** A handler of the valid timer k ran from s1 to s2; before and after it only k was touched. */
  lemma FrozenAround(s: State, s1: State, s2: State, s': State, k: Key, busy: set<Key>, inside: set<Key>)
    requires k in s.timers && s.timers[k].valid && k !in busy && busy <= inside && k in s1.timers
    requires OnlyAt(s, s1, k) && Frozen(s1, s2, inside) && OnlyAt(s2, s', k)
    requires k in s'.timers ==> s'.timers[k].valid
    ensures Frozen(s, s', busy)
  {
  }

  lemma CalmAfter(s: State, s': State, k: Key, busy: set<Key>)
    requires Calm(s, busy + {k}) && OnlyAt(s, s', k) && k !in busy
    requires k in s'.timers && s'.timers[k].valid ==> s'.timers[k].parked == s'.timers[k].paused
    ensures Calm(s', busy)
  {
  }

  lemma SteadyTrans(s: State, m: State, s': State)
    requires Steady(s, m) && Steady(m, s')
    ensures Steady(s, s')
  {
  }

  /** An unlisted timer is told something: the listed ones stay as they are. */
  lemma FrozenBehind(s: State, s1: State, s2: State, s': State, busy: set<Key>)
    requires s1.timers == s.timers && s1.due == s.due && Frozen(s1, s2, busy)
      && s'.timers == s2.timers && s'.due == s2.due
    ensures Frozen(s, s', busy)
  {
  }

  lemma FrozenTrans(s: State, m: State, s': State, busy: set<Key>)
    requires Frozen(s, m, busy) && Frozen(m, s', busy)
    ensures Frozen(s, s', busy)
  {
  }

  lemma Nothing(s: State, busy: set<Key>)
    ensures Steady(s, s) && Frozen(s, s, busy)
  {
  }

  lemma WithoutOnly(s: State, k: Key)
    ensures OnlyAt(s, Removed(s, k), k)
    ensures k in s.timers ==> OnlyAt(s, Park(s, k), k) && OnlyAt(s, Refile(s, k), k)
  {
    WithoutMembers(s.due, k);
  }

  lemma HandlerReady(s: State, c: Command, busy: set<Key>)
    requires Ready(s, busy) && !c.Start? && Acts(s, c) && c.key !in busy
    ensures Ready(Handler(s, c), Inside(s, c, busy)) && (!c.Kill? || c.key in s.timers ==> Steady(s, Handler(s, c)))
  {
    hide Core, Steady;
    HandlerKeeps(s, c);
  }

  lemma ReturnListed(s: State, c: Command, s2: State, busy: set<Key>)
    requires Ready(s, busy) && !c.Start? && Acts(s, c) && c.key in s.timers && c.key !in busy
    requires var s1, inside := Handler(s, c), Inside(s, c, busy);
      Steady(s, s1) && Ready(s2, inside) && Steady(s1, s2) && Frozen(s1, s2, inside)
    ensures var s' := Return(s, c, s2); Ready(s', busy) && Steady(s, s') && Frozen(s, s', busy)
    ensures !c.Kill? ==> c.key in s2.timers && s2.timers[c.key] == Handler(s, c).timers[c.key]
  {
    hide Core, Steady, Calm;
    var k, s1, s' := c.key, Handler(s, c), Return(s, c, s2);
    assert k in s2.timers && s2.timers[k] == s1.timers[k];
    match c {
      case Kill(_, _) => RemovedKeeps(s2, k);
      case Pause(_, _) => ParkKeeps(s2, k);
      case Resume(_, _) => RefileKeeps(s2, k);
    }
    WithoutOnly(s2, k);
    FrozenAround(s, s1, s2, s', k, busy, Inside(s, c, busy));
    if c.Kill? { CalmMore(s2, k, busy); }
    CalmAfter(s2, s', k, busy);
    SteadyTrans(s, s1, s2);
    SteadyTrans(s, s2, s');
  }

  lemma CalmMore(s: State, k: Key, busy: set<Key>)
    requires Calm(s, busy)
    ensures Calm(s, busy + {k})
  {
  }

  lemma ReturnPolled(s: State, c: Command, s2: State, busy: set<Key>)
    requires Ready(s, busy) && !c.Start? && Acts(s, c) && c.key !in s.timers && Ready(s2, busy)
    requires var s1 := Handler(s, c); (c.Kill? || Steady(s, s1)) && Steady(s1, s2) && Frozen(s1, s2, busy)
    ensures var s' := Return(s, c, s2); Ready(s', busy) && Steady(s, s') && Frozen(s, s', busy)
  {
    hide Core, Frozen, Steady;
    var s1, s' := Handler(s, c), Return(s, c, s2);
    FrozenBehind(s, s1, s2, s', busy);
    if c.Kill? {
      KilledPolled(s, s1, s2);
      assert s' == s2.(current := s2.current.(phase := Killed));
    } else {
      SteadyTrans(s, s1, s2);
    }
  }

  lemma KilledPolled(s: State, s1: State, s2: State)
    requires Core(s) && s.current.Current? && s.current.phase == Polling && s.current.key !in s.timers
    requires s1 == Dying(s, s.current.key) && Core(s2) && Steady(s1, s2)
    ensures s2.current.Current?
    ensures var s' := s2.(current := s2.current.(phase := Killed)); Core(s') && Steady(s, s')
  {
    hide LivesOk, TimersOk, Queued, SerialsApart, NoneLost;
    KilledKeeps(s2);
    LifeStep(s.log, Event(s.current.timer.serial, s.current.key, OnEnd(false)), s.current.timer.serial);
  }

  lemma StartReady(s: State, k: Key, delay: int, count: int, interval: int, busy: set<Key>)
    requires Ready(s, busy) && Startable(delay, interval)
    ensures var s' := StartTimer(s, k, delay, count, interval); Ready(s', busy) && Steady(s, s') && Frozen(s, s', busy)
  {
    hide Core, Steady;
    StartKeepsInv(s, k, delay, count, interval);
  }

  /** Whatever a command sets off, in handlers within handlers. */
  lemma {:induction false} ExecKeeps(s: State, c: Command, busy: set<Key>)
    requires Ready(s, busy) && Orderly(s, c, busy)
    ensures var s' := Exec(s, c); Ready(s', busy) && Steady(s, s') && Frozen(s, s', busy)
    decreases c
  {
    hide Ready, Steady, Frozen;
    Nothing(s, busy);
    if c.Start? {
      if Startable(c.delay, c.interval) { StartReady(s, c.key, c.delay, c.count, c.interval, busy); }
    } else if Acts(s, c) {
      HandlerReady(s, c, busy);
      var s1 := Handler(s, c);
      ExecAllKeeps(s1, c.inner, Inside(s, c, busy));
      if c.key in s.timers { ReturnListed(s, c, ExecAll(s1, c.inner), busy); }
      else { ReturnPolled(s, c, ExecAll(s1, c.inner), busy); }
    }
  }

  lemma {:induction false} ExecAllKeeps(s: State, cs: seq<Command>, busy: set<Key>)
    requires Ready(s, busy) && AllOrderly(s, cs, busy)
    ensures var s' := ExecAll(s, cs); Ready(s', busy) && Steady(s, s') && Frozen(s, s', busy)
    decreases cs, 0
  {
    hide Core, Steady, Calm, Frozen;
    if cs == [] {
      Nothing(s, busy);
    } else {
      ExecKeeps(s, cs[0], busy);
      var m := Exec(s, cs[0]);
      ExecAllKeeps(m, cs[1..], busy);
      SteadyTrans(s, m, ExecAll(s, cs));
      FrozenTrans(s, m, ExecAll(s, cs), busy);
    }
  }

  /** What a pause or resume makes of a listed timer, whatever its handler sets off. */
  lemma TurnedTo(s: State, c: Command)
    requires Inv(s) && Orderly(s, c, {}) && (c.Pause? || c.Resume?) && c.key in s.timers
      && s.timers[c.key].paused == c.Resume?
    ensures var s', k, t := Exec(s, c), c.key, s.timers[c.key];
      && k in s'.timers && s'.now == s.now
      && s'.timers[k] == (if c.Pause? then Paused(t, s.now).(parked := true) else Resumed(t, s.now).(parked := false))
      && (k in s'.due <==> c.Resume? && s'.timers[k].expire < s.now)
  {
    hide Ready, Steady, Frozen, Inv;
    InvReady(s);
    var s1, inside := Handler(s, c), {c.key};
    assert {} + {c.key} == inside;
    HandlerReady(s, c, {});
    ExecAllKeeps(s1, c.inner, inside);
    ReturnListed(s, c, ExecAll(s1, c.inner), {});
    WithoutMembers(ExecAll(s1, c.inner).due, c.key);
  }

  lemma InvReady(s: State)
    requires Inv(s)
    ensures Ready(s, {})
    ensures forall k :: k in s.timers ==> s.timers[k].valid
  {
  }

  lemma ExecKeepsInv(s: State, c: Command)
    requires Inv(s) && Orderly(s, c, {})
    ensures Inv(Exec(s, c)) && Steady(s, Exec(s, c))
  {
    ExecKeeps(s, c, {});
  }

  /** Whatever orderly commands a callback issues, the invariant holds when it returns. */
  lemma ExecAllKeepsInv(s: State, cs: seq<Command>)
    requires Inv(s) && AllOrderly(s, cs, {})
    ensures Inv(ExecAll(s, cs)) && Steady(s, ExecAll(s, cs))
  {
    ExecAllKeeps(s, cs, {});
  }

  // ----- polling keeps it

  /** The invariant but for the timer being polled, whose next callback is about to be logged. */
  ghost predicate Base(s: State) {
    && 0 <= s.now && !s.misused && AllCalm(s)
    && Unlisted(s) && Queued(s) && TimersOk(s) && SerialsApart(s) && LivesOk(s)
    && s.current.Current? && s.current.timer.serial < |s.totals|
    && (forall n: nat :: n < |s.totals| && n != s.current.timer.serial && LifeOf(s.log, n).Open? ==> Held(s, n))
  }

  /** The callback c may be logged for the timer being polled. */
  ghost predicate Loggable(s: State, c: Callback) {
    && Base(s) && CurrentOk(LogCurrent(s, c))
    && EndsOk(After(LifeOf(s.log, s.current.timer.serial), c), s.totals[s.current.timer.serial])
  }

  function LogCurrent(s: State, c: Callback): State
    requires s.current.Current?
  {
    Log(s, s.current.timer.serial, s.current.key, c)
  }

  lemma LogKeepsInv(s: State, c: Callback)
    requires Loggable(s, c)
    ensures Inv(LogCurrent(s, c))
  {
    var s' := LogCurrent(s, c);
    var e := Event(s.current.timer.serial, s.current.key, c);
    LogLives(s.log, e);
    forall n: nat | n < |s'.totals| && LifeOf(s'.log, n).Open? ensures Held(s', n) {
      if n != e.serial {
        assert Held(s, n);
        if x :| x in s.timers && s.timers[x].serial == n { assert x in s'.timers; }
      }
    }
  }

  /** A callback of the timer being polled has been logged and is about to issue its commands. */
  ghost predicate Calling(s: State) {
    && Inv(s) && s.current.Current? && s.log != []
    && s.log[|s.log| - 1].serial == s.current.timer.serial && s.log[|s.log| - 1].key == s.current.key
  }

  /** Whenever one of its callbacks is called, the commands of the program are orderly. */
  ghost predicate OrderlyScript(script: Script) {
    forall s :: Calling(s) ==> AllOrderly(s, script(s.log), {})
  }

  lemma NotifyKeepsInv(script: Script, s: State, c: Callback)
    requires OrderlyScript(script) && Loggable(s, c)
    ensures Inv(Notify(script, s, c)) && Steady(LogCurrent(s, c), Notify(script, s, c))
  {
    LogKeepsInv(s, c);
    assert Calling(LogCurrent(s, c));
    ExecAllKeepsInv(LogCurrent(s, c), script(LogCurrent(s, c).log));
  }

  lemma PollKeepsInv(s: State)
    requires Inv(s) && s.current.Nobody? && s.due != []
    ensures Inv(Poll(s))
  {
    var k, s' := s.due[0], Poll(s);
    assert s.due == [k] + s.due[1..];
    assert k in s.timers && k !in s.due[1..];
    assert Touches(s, s', k);
    TouchedTimers(s, s', k);
    TouchedSerials(s, s', k);
    forall n: nat | Held(s, n) ensures Held(s', n) {
      if x :| x in s.timers && s.timers[x].serial == n {
        if x != k { assert x in s'.timers; }
      }
    }
  }

  /** What the polled timer may look like after its callbacks, compared with how it was polled. */
  ghost predicate Polled(t: Timer, t': Timer) {
    t' == t.(started := t'.started, paused := t'.paused, pauseTick := t'.pauseTick, valid := t'.valid)
  }

  /** A state in the middle of polling the timer t. */
  ghost predicate Midway(s: State, t: Timer, key: Key, now: int, totals: seq<int>) {
    && Inv(s) && s.now == now && totals <= s.totals && s.current.Current? && s.current.key == key
    && s.current.phase != Ending && Polled(t, s.current.timer)
  }

  lemma StartLoggable(s: State)
    requires Inv(s) && s.current.Current? && s.current.phase == Polling && !s.current.timer.paused
    requires LifeOf(s.log, s.current.timer.serial) == Open(false, 0, false)
    ensures Loggable(s, OnStart) && Started(LogCurrent(s, OnStart), s.current.timer.serial)
  {
    LifeStep(s.log, Event(s.current.timer.serial, s.current.key, OnStart), s.current.timer.serial);
  }

  lemma BeginKeepsInv(script: Script, s: State)
    requires OrderlyScript(script) && Inv(s)
    requires s.current.Current? && s.current.phase == Polling && !s.current.timer.paused
    requires if s.current.timer.started then Started(s, s.current.timer.serial)
             else LifeOf(s.log, s.current.timer.serial) == Open(false, 0, false)
    ensures var s' := Begin(script, s);
      && Midway(s', s.current.timer, s.current.key, s.now, s.totals)
      && s'.current.timer.started && Started(s', s.current.timer.serial)
      && (s'.current.timer.paused ==> !s.current.timer.started)
  {
    hide LivesOk, TimersOk, Queued, SerialsApart, NoneLost, AllCalm, Loggable;
    var t := s.current.timer;
    if !t.started {
      StartLoggable(s);
      NotifyKeepsInv(script, s, OnStart);
      var s1 := Notify(script, s, OnStart);
      SameButCurrent(s1, Begin(script, s));
    }
  }

  /** The invariant looks at the polled timer only through PolledOk, its serial number and its fires. */
  lemma SameButCurrent(s: State, s': State)
    requires Inv(s) && s.current.Current? && s'.current.Current?
    requires s' == s.(current := s'.current) && s'.current.phase == s.current.phase && s'.current.key == s.current.key
    requires s'.current.timer.serial == s.current.timer.serial
    requires s'.current.timer.paused == s.current.timer.paused && s'.current.timer.parked == s.current.timer.parked
    requires s'.current.timer.valid == s.current.timer.valid
    requires s'.current.timer.expire == s.current.timer.expire
      && s'.current.timer.pauseTick == s.current.timer.pauseTick
    requires s.current.phase == Polling ==>
      PolledOk(s'.current.timer, s.now) && s'.current.timer.history.fires == s.current.timer.history.fires
    ensures Inv(s')
  {
  }

  function CountDown(t: Timer): Timer {
    if t.count > 0 then t.(count := t.count - 1) else t
  }

  /** The timer being polled has not been called as often as it was started for. */
  ghost predicate MoreToCome(s: State)
    requires s.current.Current? && s.current.timer.serial < |s.totals|
  {
    var t := s.current.timer; s.totals[t.serial] >= 1 ==> t.history.fires < s.totals[t.serial]
  }

  lemma CallLoggable(s: State)
    requires Inv(s) && s.current.Current? && s.current.phase == Polling
    requires s.current.timer.paused ==> s.current.timer.history.fires == 0
    requires Started(s, s.current.timer.serial) && MoreToCome(s)
    ensures var s0 := WithCurrent(s, Counted(s.current.timer));
      Loggable(s0, OnTimer) && Started(LogCurrent(s0, OnTimer), s.current.timer.serial)
  {
  }

  lemma CallKeepsInv(script: Script, s: State)
    requires OrderlyScript(script) && Inv(s) && s.current.Current? && s.current.phase == Polling
    requires s.current.timer.paused ==> s.current.timer.history.fires == 0
    requires Started(s, s.current.timer.serial) && MoreToCome(s)
    ensures var s' := Call(script, s);
      && Midway(s', CountDown(Counted(s.current.timer)), s.current.key, s.now, s.totals)
      && s'.current.timer.started == s.current.timer.started && Started(s', s.current.timer.serial)
  {
    hide LivesOk, TimersOk, Queued, SerialsApart, NoneLost, AllCalm, LifeOf, Loggable;
    CallLoggable(s);
    var s0 := WithCurrent(s, Counted(s.current.timer));
    NotifyKeepsInv(script, s0, OnTimer);
    SameButCurrent(Notify(script, s0, OnTimer), Call(script, s));
  }

  /** After the last callback of a poll: the timer has its next expiry, or is over. */
  ghost predicate Closing(s: State) {
    && Base(s) && NoneLost(s)
    && var t := s.current.timer;
       if s.current.phase == Polling then
         && Sound(t, s.now) && OnGrid(t) && CountOk(t, s.totals[t.serial]) && t.started && t.valid && !t.parked
         && LifeOf(s.log, t.serial) == Open(t.started, t.history.fires, t.paused)
       else LifeOf(s.log, t.serial).Closed?
  }

  lemma NextPeriod(t: Timer, n: nat)
    requires OnGrid(t)
    ensures OnGrid(Later(t, n))
  {
    var h := t.history;
    assert (h.periods + n) * t.interval == h.periods * t.interval + n * t.interval;
  }

  /** A timer that is at most one interval behind stays where it is. One that is further behind moves on, by whole
      intervals, to the only expiry that is less than one interval behind and not ahead of the present. */
  lemma CatchUp(t: Timer, now: int)
    requires 1 <= t.interval
    ensures var t' := Later(t, Missed(t, now));
      && (now - t.expire <= t.interval ==> t' == t)
      && (now - t.expire > t.interval ==> now - t.interval < t'.expire <= now && t.expire < t'.expire)
  {
    var late, i := now - t.expire, t.interval;
    if late > i {
      assert late == late / i * i + late % i;
    }
  }

  lemma CaughtUpOk(t: Timer, now: int, totals: seq<int>)
    requires 0 <= now && TimerOk(t, now, totals) && t.started
    ensures !t.paused ==> TimerOk(Later(t, Missed(t, now)), now, totals)
  {
    CatchUp(t, now);
    NextPeriod(t, Missed(t, now));
  }

  lemma SettleKeepsInv(s: State)
    requires Closing(s)
    ensures Inv(Settle(s))
  {
    var t, s' := s.current.timer, Settle(s);
    if s.current.phase == Polling {
      CaughtUpOk(t, s.now, s.totals);
      SettledInv(s, s', if t.paused then t.(parked := true) else Later(t, Missed(t, s.now)));
    } else {
      forall n: nat | n < |s.totals| && LifeOf(s'.log, n).Open? ensures Held(s', n) {
        if x :| x in s.timers && s.timers[x].serial == n { assert x in s'.timers; }
      }
    }
  }

  /** s' is s with the polled timer, as t', back in the map. */
  ghost predicate PutBack(s: State, s': State, t': Timer) {
    && Closing(s) && s.current.phase == Polling && s'.current.Nobody?
    && s'.timers == s.timers[s.current.key := t']
    && s'.now == s.now && s'.log == s.log && s'.totals == s.totals && !s'.misused && t'.valid && t'.parked == t'.paused
    && s'.due == (if !t'.parked && t'.expire < s.now then s.due + [s.current.key] else s.due)
    && TimerOk(t', s.now, s.totals) && t'.serial == s.current.timer.serial
    && LifeOf(s.log, t'.serial) == Open(t'.started, t'.history.fires, t'.paused)
  }

  lemma SettledTimers(s: State, s': State, t': Timer)
    requires PutBack(s, s', t')
    ensures TimersOk(s') && Queued(s')
  {
    TouchedTimers(s, s', s.current.key);
  }

  lemma SettledHeld(s: State, s': State, t': Timer)
    requires PutBack(s, s', t')
    ensures NoneLost(s')
  {
    forall n: nat | n < |s.totals| && LifeOf(s'.log, n).Open? ensures Held(s', n) {
      assert Held(s, n);
      if n == t'.serial { assert s'.timers[s.current.key].serial == n; }
      else if x :| x in s.timers && s.timers[x].serial == n { assert x in s'.timers; }
    }
  }

  lemma SettledInv(s: State, s': State, t': Timer)
    requires PutBack(s, s', t')
    ensures Inv(s')
  {
    hide TimersOk, Queued, NoneLost;
    SettledTimers(s, s', t');
    SettledHeld(s, s', t');
    SettledApart(s, s', t');
  }

  lemma SettledApart(s: State, s': State, t': Timer)
    requires PutBack(s, s', t')
    ensures SerialsApart(s') && LivesOk(s')
  {
    hide TimersOk, Queued, NoneLost, LifeOf, EndsOk;
  }

  /** The state when the onTimer callback of the timer polled as t has returned. */
  ghost predicate Returned(s: State, t: Timer, totals: seq<int>) {
    && Inv(s) && s.current.Current? && s.current.phase != Ending && totals <= s.totals
    && TimerOk(t, s.now, totals) && t.serial == s.current.timer.serial
    && (s.current.phase == Polling ==>
         var t' := s.current.timer;
         && t'.history.fires == t.history.fires + 1 && t'.history.periods == t.history.periods && t'.started
         && t'.count == CountDown(t).count
         && LifeOf(s.log, t.serial) == Open(true, t.history.fires + 1, t'.paused))
  }

  lemma AdvanceKeeps(s: State, t: Timer, totals: seq<int>)
    requires Returned(s, t, totals)
    ensures Base(Advance(s)) && NoneLost(Advance(s))
    ensures s.current.phase == Polling ==>
      OnGrid(Advance(s).current.timer) && Sound(Advance(s).current.timer, s.now)
  {
    if s.current.phase == Polling { NextPeriod(s.current.timer, 1); }
    var s' := Advance(s);
    forall n: nat | Held(s, n) ensures Held(s', n) {
      if x :| x in s.timers && s.timers[x].serial == n { assert x in s'.timers; }
    }
  }

  lemma EndLoggable(s: State, t: Timer, totals: seq<int>)
    requires Returned(s, t, totals) && s.current.phase == Polling && s.current.timer.count == 0
    ensures Loggable(Ended(Advance(s)), OnEnd(true))
  {
    hide TimersOk, Queued, SerialsApart, AllCalm, NoneLost;
    AdvanceKeeps(s, t, totals);
    EndedKeeps(Advance(s));
    LifeStep(s.log, Event(t.serial, s.current.key, OnEnd(true)), t.serial);
    assert EndsOk(LifeOf(s.log, t.serial), s.totals[t.serial]);
  }

  lemma EndedKeeps(s: State)
    requires Base(s) && s.current.phase == Polling
    ensures Base(Ended(s))
  {
    hide EndsOk, LifeOf, TimerOk;
    var s1 := Ended(s);
    forall n: nat | n != s.current.timer.serial && Held(s, n) ensures Held(s1, n) {
      if x :| x in s.timers && s.timers[x].serial == n { assert x in s1.timers; }
    }
  }

  lemma ReturnedFacts(s: State, t: Timer, totals: seq<int>)
    requires Returned(s, t, totals)
    ensures s.current.Current? && s.current.phase != Ending && Left(s.current.timer, s.now)
    ensures s.current.phase == Polling ==> 1 <= s.current.timer.interval && s.current.key !in s.timers
  {
  }

  lemma EndingStays(script: Script, s: State)
    requires OrderlyScript(script) && Loggable(s, OnEnd(true)) && s.current.phase == Ending
    ensures Notify(script, s, OnEnd(true)).current.phase == Ending
  {
    NotifyKeepsInv(script, s, OnEnd(true));
  }

  lemma CloseInv(script: Script, s: State, t: Timer, totals: seq<int>)
    requires OrderlyScript(script) && Returned(s, t, totals)
    ensures Closing(Finish(script, Advance(s)))
    ensures Finish(script, Advance(s)).now == s.now && totals <= Finish(script, Advance(s)).totals
  {
    AdvanceKeeps(s, t, totals);
    if s.current.timer.count == 0 && s.current.phase == Polling {
      EndLoggable(s, t, totals);
      NotifyKeepsInv(script, Ended(Advance(s)), OnEnd(true));
    }
  }

  /** The state when the timer polled as t has had its onStart. */
  ghost predicate Begun(s: State, t: Timer, totals: seq<int>) {
    && s.current.Current? && Midway(s, t, s.current.key, s.now, totals) && TimerOk(t, s.now, totals) && !t.paused
    && s.current.timer.started && Started(s, t.serial) && (s.current.timer.paused ==> !t.started)
  }

  lemma PolledInterval(s: State)
    requires Inv(s) && s.current.Nobody? && s.due != []
    ensures s.due[0] in s.timers && 0 < Poll(s).current.timer.interval < HORIZON
  {
  }

  lemma FirstCall(s: State)
    requires Inv(s) && s.current.Nobody? && s.due != [] && !Poll(s).current.timer.started
    ensures Loggable(Poll(s), OnStart)
  {
    PollKeepsInv(s);
    StartLoggable(Poll(s));
  }

  lemma BeginReturns(script: Script, s: State)
    requires OrderlyScript(script) && Inv(s) && s.current.Nobody? && s.due != []
    ensures var s' := Begin(script, Poll(s)); Inv(s') && s'.now == s.now && Begun(s', s.timers[s.due[0]], s.totals)
  {
    PollKeepsInv(s);
    BeginKeepsInv(script, Poll(s));
  }

  lemma BegunLoggable(s: State, t: Timer, totals: seq<int>)
    requires Begun(s, t, totals) && s.current.phase == Polling
    ensures Loggable(WithCurrent(s, Counted(s.current.timer)), OnTimer)
  {
    CallLoggable(s);
  }

  lemma CallReturns(script: Script, s: State, t: Timer, totals: seq<int>)
    requires OrderlyScript(script) && Begun(s, t, totals)
    ensures var s' := Call(script, s); Inv(s') && s'.now == s.now && Returned(s', t, totals)
  {
    if s.current.phase == Polling { CallKeepsInv(script, s); }
  }

  /** One turn of the drain loop keeps the invariant, for every orderly program. */
  lemma FireKeepsInv(script: Script, s: State)
    requires OrderlyScript(script) && Inv(s) && s.current.Nobody? && s.due != []
    ensures var s' := Fire(script, s);
      Inv(s') && s'.current.Nobody? && s'.now == s.now && s.totals <= s'.totals
  {
    BeginReturns(script, s);
    CallReturns(script, Begin(script, Poll(s)), s.timers[s.due[0]], s.totals);
    var s2 := Call(script, Begin(script, Poll(s)));
    CloseInv(script, s2, s.timers[s.due[0]], s.totals);
    SettleKeepsInv(Finish(script, Advance(s2)));
  }

  /** What the drain loop needs to know of the timer it puts back. */
  lemma ClosingTimer(script: Script, s: State)
    requires OrderlyScript(script) && Inv(s) && s.current.Nobody? && s.due != []
    ensures var s' := Served(script, s);
      s'.now == s.now && (s'.current.phase == Polling ==> Sound(s'.current.timer, s.now) && !s'.current.timer.parked)
  {
    BeginReturns(script, s);
    CallReturns(script, Begin(script, Poll(s)), s.timers[s.due[0]], s.totals);
    CloseInv(script, Call(script, Begin(script, Poll(s))), s.timers[s.due[0]], s.totals);
  }

  lemma DistinctAppend(a: seq<Key>, b: seq<Key>)
    requires Distinct(a) && Distinct(b) && forall k :: k in a ==> k !in b
    ensures Distinct(a + b)
  {
    forall i, j | 0 <= i < j < |a + b| ensures (a + b)[i] != (a + b)[j] {
      if i < |a| <= j { assert (a + b)[i] in a && (a + b)[j] == b[j - |a|]; }
    }
  }

  /** A tick keeps the invariant: the due timers stay exactly the unpaused ones whose tick has passed. */
  lemma TickKeepsInv(s: State, s': State, order: seq<Key>)
    requires Inv(s) && s.current.Nobody? && Tick(s, s', order)
    ensures Inv(s')
  {
    DistinctAppend(s.due, order);
    forall n: nat | Held(s, n) ensures Held(s', n) {
      if x :| x in s.timers && s.timers[x].serial == n { assert x in s'.timers; }
    }
  }
}
