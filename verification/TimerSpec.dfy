/** The timer manager as its users see it: a map from timer key to expiry tick and paused flag,
    the queue of timers whose tick has passed, and the log of callbacks made so far.

    User code is an arbitrary function from the log to the commands that the callback just logged goes on to
    issue. A command that is about to call onEnd(false), onPause or onResume carries the commands which that
    handler issues in turn, so any finite nesting of handlers is covered. A command that would trip one of the
    manager's debug assertions is skipped. */
module TimerSpec {
  import opened Wrappers

  const JIFFIES_INTERVAL := 10
  const MIN_INTERVAL := 10
  /** Ticks spanned by the five gears together: 256 * 64 * 64 * 64 * 64. */
  const HORIZON := 0x1_0000_0000

  datatype Key = Key(timer: int, id: int, context: int)
  datatype Callback = OnStart | OnTimer | OnEnd(nonviolent: bool) | OnPause | OnResume
  datatype Event = Event(serial: nat, key: Key, callback: Callback)
  datatype Command =
    | Start(key: Key, delay: int, count: int, interval: int)
    | Kill(key: Key, inner: seq<Command>)
    | Pause(key: Key, inner: seq<Command>)
    | Resume(key: Key, inner: seq<Command>)
  type Script = seq<Event> -> seq<Command>

  /** What a timer has been through since it was started; no operation reads it. */
  datatype History = History(born: int, delay: int, parkedFor: int, periods: nat, fires: nat)

  /** `parked` says that the timer is in the list of suspended timers, `valid` that it has not ended. */
  datatype Timer = Timer(
    serial: nat, interval: int, expire: int, count: int,
    started: bool, paused: bool, pauseTick: int, valid: bool, parked: bool, history: History)

  /** The timer being polled: it is in no list. `Killed`: killed while polled, hence unmapped.
      `Ending`: its onEnd is running. */
  datatype Phase = Polling | Killed | Ending
  datatype Current = Nobody | Current(key: Key, timer: Timer, phase: Phase)

  /** `totals[n]` is the repeat count that the timer with serial number n was started with. `misused`: the code
      went on to use a timer that it had given back. */
  datatype State = State(
    now: int, timers: map<Key, Timer>, due: seq<Key>, current: Current,
    log: seq<Event>, totals: seq<int>, misused: bool)

  const INIT := State(0, map[], [], Nobody, [], [], false)

  // ----- the log

  predicate Is(log: seq<Event>, i: int, n: nat, c: Callback) {
    0 <= i < |log| && log[i].serial == n && log[i].callback == c
  }

  /** How often timer n was called with c. */
  function CountOf(log: seq<Event>, n: nat, c: Callback): nat
    decreases |log|
  {
    if log == [] then 0 else CountOf(log[..|log| - 1], n, c) + if Is(log, |log| - 1, n, c) then 1 else 0
  }

  // ----- commands

  predicate Known(s: State, k: Key) {
    k in s.timers || (s.current.Current? && s.current.phase != Killed && s.current.key == k)
  }

  function DelayTicks(delay: int): int {
    (if 0 < delay < MIN_INTERVAL then MIN_INTERVAL else delay) / JIFFIES_INTERVAL
  }

  function IntervalTicks(interval: int): int {
    (if interval < MIN_INTERVAL then MIN_INTERVAL else interval) / JIFFIES_INTERVAL
  }

  /** The assertion in startTimer, and the reach of the wheel. */
  predicate Startable(delay: int, interval: int) {
    delay >= 0 && interval > 0 && DelayTicks(delay) < HORIZON && IntervalTicks(interval) < HORIZON
  }

  function StartTimer(s: State, k: Key, delay: int, count: int, interval: int): State {
    if Known(s, k) then s
    else
      var t := Timer(|s.totals|, IntervalTicks(interval), s.now + DelayTicks(delay), count, false, false, 0,
                     true, false, History(s.now, DelayTicks(delay), 0, 0, 0));
      s.(timers := s.timers[k := t], totals := s.totals + [count])
  }

  function Without(q: seq<Key>, k: Key): seq<Key> {
    if q == [] then [] else (if q[0] == k then [] else [q[0]]) + Without(q[1..], k)
  }

  lemma {:induction false} WithoutAbsent(q: seq<Key>, k: Key)
    requires k !in q
    ensures Without(q, k) == q
  {
    if q != [] { WithoutAbsent(q[1..], k); }
  }

  lemma {:induction false} WithoutIndex(q: seq<Key>, i: nat)
    requires i < |q| && forall j :: 0 <= j < |q| && j != i ==> q[j] != q[i]
    ensures Without(q, q[i]) == q[..i] + q[i + 1..]
    decreases i
  {
    if i == 0 {
      WithoutAbsent(q[1..], q[0]);
    } else {
      assert forall j :: 0 <= j < |q| - 1 ==> q[1..][j] == q[j + 1];
      WithoutIndex(q[1..], i - 1);
      assert q[..i] == [q[0]] + q[1..][..i - 1];
    }
  }

  function Log(s: State, serial: nat, k: Key, c: Callback): State {
    s.(log := s.log + [Event(serial, k, c)])
  }

  predicate PollingKey(s: State, k: Key) {
    s.current.Current? && s.current.phase == Polling && s.current.key == k
  }

  /** Takes a timer off all lists and unmaps it. */
  function Removed(s: State, k: Key): State {
    s.(timers := s.timers - {k}, due := Without(s.due, k))
  }

  /** The state in which the onEnd(false) of timer k is called. */
  function Dying(s: State, k: Key): State
    requires Reached(s, k)
  {
    Told(s, k, RecordOf(s, k).(valid := false), OnEnd(false), Ending)
  }

  function Paused(t: Timer, now: int): Timer {
    t.(paused := true, pauseTick := now)
  }

  function Resumed(t: Timer, now: int): Timer {
    t.(paused := false, expire := now + t.expire - t.pauseTick,
       history := t.history.(parkedFor := t.history.parkedFor + (now - t.pauseTick)))
  }

  /** There is a timer to give a command to: a listed one, or the one being polled. */
  predicate Reached(s: State, k: Key) {
    k in s.timers || PollingKey(s, k)
  }

  function RecordOf(s: State, k: Key): Timer
    requires Reached(s, k)
  {
    if k in s.timers then s.timers[k] else s.current.timer
  }

  /** The state in which the handler c of timer k is called, its record now being t. */
  function Told(s: State, k: Key, t: Timer, c: Callback, phase: Phase): State
    requires Reached(s, k)
  {
    if k in s.timers then Log(s, t.serial, k, c).(timers := s.timers[k := t])
    else Log(s, t.serial, k, c).(current := s.current.(timer := t, phase := phase))
  }

  /** From whatever list it is on to the suspended list. */
  function Park(s: State, k: Key): State
    requires k in s.timers
  {
    s.(timers := s.timers[k := s.timers[k].(parked := true)], due := Without(s.due, k))
  }

  /** From whatever list it is on to the list for its expiry. */
  function Refile(s: State, k: Key): State
    requires k in s.timers
  {
    Schedule(s.(due := Without(s.due, k)), k, s.timers[k].(parked := false))
  }

  /** Adding a timer: one whose tick has passed joins the due queue. */
  function Schedule(s: State, k: Key, t: Timer): State {
    s.(timers := s.timers[k := t], due := if t.expire < s.now then s.due + [k] else s.due)
  }

  /** Whether the command gets as far as its handler. Timers that are over are left alone; a pause of a paused
      timer and a resume of a running one would trip the debug assertions. */
  predicate Acts(s: State, c: Command)
    requires !c.Start?
  {
    Reached(s, c.key) && RecordOf(s, c.key).valid
    && (c.Pause? ==> !RecordOf(s, c.key).paused) && (c.Resume? ==> RecordOf(s, c.key).paused)
  }

  /** The state in which the handler runs. */
  function Handler(s: State, c: Command): State
    requires !c.Start? && Acts(s, c)
  {
    var t := RecordOf(s, c.key);
    match c
    case Kill(k, _) => Dying(s, k)
    case Pause(k, _) => Told(s, k, Paused(t, s.now), OnPause, Polling)
    case Resume(k, _) => Told(s, k, Resumed(t, s.now), OnResume, Polling)
  }

  /** What the command does when its handler has returned in s2. */
  function Return(s: State, c: Command, s2: State): (s': State)
    requires !c.Start? && Acts(s, c)
    ensures s'.now == s2.now && s'.log == s2.log && s'.totals == s2.totals
    ensures s'.current.Current? == s2.current.Current? && (s2.current.Current? ==> s'.current.key == s2.current.key)
  {
    var k := c.key;
    if k !in s.timers then
      if c.Kill? && s2.current.Current? then s2.(current := s2.current.(phase := Killed)) else s2
    else if c.Kill? then Removed(s2, k)
    else if k !in s2.timers || s2.timers[k].serial != s.timers[k].serial then s2.(misused := true)
    else if !s2.timers[k].valid then s2
    else if c.Pause? then Park(s2, k)
    else Refile(s2, k)
  }

  function Exec(s: State, c: Command): (s': State)
    ensures s'.now == s.now && s'.current.Current? == s.current.Current?
    ensures s.current.Current? ==> s'.current.key == s.current.key
    decreases c
  {
    if c.Start? then
      if Startable(c.delay, c.interval) then StartTimer(s, c.key, c.delay, c.count, c.interval) else s
    else if Acts(s, c) then Return(s, c, ExecAll(Handler(s, c), c.inner))
    else s
  }

  function ExecAll(s: State, cs: seq<Command>): (s': State)
    ensures s'.now == s.now && s'.current.Current? == s.current.Current?
    ensures s.current.Current? ==> s'.current.key == s.current.key
    decreases cs, 0
  {
    if cs == [] then s else ExecAll(Exec(s, cs[0]), cs[1..])
  }

  /** The handlers that run inside the handler of c and have their timer still in a list. */
  ghost function Inside(s: State, c: Command, busy: set<Key>): set<Key> {
    if c.Kill? || c.key !in s.timers then busy else busy + {c.key}
  }

  /** Given in s, the command c sets off no handler of onPause or onResume, at any depth, that does something to its
      own timer while that is in a list. The handlers of the listed timers in `busy` are running. */
  ghost predicate Orderly(s: State, c: Command, busy: set<Key>)
    decreases c
  {
    c.Start? || !Acts(s, c) || (c.key !in busy && AllOrderly(Handler(s, c), c.inner, Inside(s, c, busy)))
  }

  ghost predicate AllOrderly(s: State, cs: seq<Command>, busy: set<Key>)
    decreases cs, 0
  {
    cs == [] || (Orderly(s, cs[0], busy) && AllOrderly(Exec(s, cs[0]), cs[1..], busy))
  }

  // ----- ticks

  /** One tick: exactly the timers that are not parked and expire with the tick that ends join the due queue. */
  ghost predicate Tick(s: State, s': State, order: seq<Key>) {
    && Distinct(order)
    && (forall k :: k in order <==> k in s.timers && !s.timers[k].parked && s.timers[k].expire == s.now)
    && s' == s.(now := s.now + 1, due := s.due + order)
  }

  /** n ticks: the timers that expire in the n ticks join the due queue, earliest first. */
  ghost predicate Ticks(s: State, s': State, n: nat, order: seq<Key>) {
    && Distinct(order)
    && (forall k :: k in order <==> k in s.timers && !s.timers[k].parked && s.now <= s.timers[k].expire < s.now + n)
    && (forall i, j :: 0 <= i < j < |order| ==> s.timers[order[i]].expire <= s.timers[order[j]].expire)
    && s' == s.(now := s.now + n, due := s.due + order)
  }

  // ----- firing

  /** A callback is logged and the commands it issues are carried out. */
  function Notify(script: Script, s: State, c: Callback): (s': State)
    requires s.current.Current?
    ensures s'.current.Current? && s'.current.key == s.current.key && s'.now == s.now
  {
    var s' := Log(s, s.current.timer.serial, s.current.key, c);
    ExecAll(s', script(s'.log))
  }

  function WithCurrent(s: State, t: Timer): State
    requires s.current.Current?
  {
    s.(current := s.current.(timer := t))
  }

  function Poll(s: State): State
    requires s.due != [] && s.due[0] in s.timers
  {
    var k := s.due[0];
    s.(timers := s.timers - {k}, due := s.due[1..], current := Current(k, s.timers[k], Polling))
  }

  function Begin(script: Script, s: State): (s': State)
    requires s.current.Current?
    ensures s'.current.Current? && s'.current.key == s.current.key
  {
    if s.current.timer.started then s
    else
      var s' := Notify(script, s, OnStart);
      WithCurrent(s', s'.current.timer.(started := true))
  }

  function Counted(t: Timer): Timer {
    t.(history := t.history.(fires := t.history.fires + 1))
  }

  function Call(script: Script, s: State): (s': State)
    requires s.current.Current?
    ensures s'.current.Current? && s'.current.key == s.current.key
  {
    if s.current.phase != Polling then s
    else
      var s' := Notify(script, WithCurrent(s, Counted(s.current.timer)), OnTimer);
      var t := s'.current.timer;
      WithCurrent(s', if t.count > 0 then t.(count := t.count - 1) else t)
  }

  function Later(t: Timer, n: nat): Timer {
    t.(expire := t.expire + n * t.interval, history := t.history.(periods := t.history.periods + n))
  }

  function Ended(s: State): State
    requires s.current.Current?
  {
    s.(current := s.current.(phase := Ending, timer := s.current.timer.(valid := false)))
  }

  function Finish(script: Script, s: State): (s': State)
    requires s.current.Current?
    ensures s'.current.Current? && s'.current.key == s.current.key
  {
    if s.current.timer.count == 0 && s.current.phase == Polling then
      Notify(script, Ended(s), OnEnd(true))
    else s
  }

  /** Whole periods that a late timer skips. */
  function Missed(t: Timer, now: int): nat {
    if now - t.expire > t.interval > 0 then (now - t.expire) / t.interval else 0
  }

  function Settle(s: State): State
    requires s.current.Current?
  {
    var Current(k, t, phase) := s.current;
    var s' := s.(current := Nobody);
    if phase != Polling then s'
    else if t.paused then s'.(timers := s'.timers[k := t.(parked := true)])
    else Schedule(s', k, Later(t, Missed(t, s.now)))
  }

  function Advance(s: State): State
    requires s.current.Current?
  {
    WithCurrent(s, Later(s.current.timer, 1))
  }

  /** The first due timer has had its callbacks and is to be put back, parked or dropped. */
  function Served(script: Script, s: State): (s': State)
    requires s.due != [] && s.due[0] in s.timers
    ensures s'.current.Current? && s'.current.key == s.due[0]
  {
    Finish(script, Advance(Call(script, Begin(script, Poll(s)))))
  }

  /** One turn of the drain loop: the first due timer is polled and put back, parked or dropped. */
  function Fire(script: Script, s: State): State
    requires s.due != [] && s.due[0] in s.timers
  {
    Settle(Served(script, s))
  }
}
