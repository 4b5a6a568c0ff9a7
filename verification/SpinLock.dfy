/** The recursive spinlock under any interleaving of the steps of any number of threads. Each step reads or
    writes one shared variable once; `_reference++` and `_reference--` are a load and a store each. */
module SpinLock {
  type Id = nat

  /** Where a thread stands: at rest between two calls, or before the step that is named. */
  datatype Pc =
    | Rest
    | CompareZero | CompareOwn | TestAndSet | StoreOwner | LoadUp | StoreUp(seen: int)
    | CheckOwner | LoadDown | StoreDown(seen: int) | CompareCount | ClearOwner | ClearFlag

  /** `depth` counts the lock calls of the thread that have returned, less its unlock calls. */
  datatype Thread = Thread(pc: Pc, depth: nat)

  /** The fields of the lock. */
  datatype Shared = Shared(flag: bool, owner: Id, reference: int)
  datatype State = State(shared: Shared, threads: map<Id, Thread>)

  /** What a thread at rest does next. It unlocks only what it has locked. */
  datatype Call = Lock | Unlock

  const FREE := Shared(false, 0, 0)

  function Initial(ids: set<Id>): State {
    State(FREE, map t | t in ids :: Thread(Rest, 0))
  }

  function Down(depth: nat): nat {
    if depth > 0 then depth - 1 else 0
  }

  /** One step of thread t; for a thread at rest, the call it makes. */
  function StepOf(l: Shared, t: Id, th: Thread, call: Call): (Shared, Thread) {
    match th.pc
    case Rest => (l, if call.Lock? then th.(pc := CompareZero) else if th.depth > 0 then th.(pc := CheckOwner) else th)
    case CompareZero => (l, th.(pc := if l.owner == 0 then TestAndSet else CompareOwn))
    case CompareOwn => (l, th.(pc := if l.owner != t then TestAndSet else LoadUp))
    case TestAndSet => if l.flag then (l, th) else (l.(flag := true), th.(pc := StoreOwner))
    case StoreOwner => (l.(owner := t), th.(pc := LoadUp))
    case LoadUp => (l, th.(pc := StoreUp(l.reference)))
    case StoreUp(seen) => (l.(reference := seen + 1), Thread(Rest, th.depth + 1))
    case CheckOwner => (l, th.(pc := LoadDown))
    case LoadDown => (l, th.(pc := StoreDown(l.reference)))
    case StoreDown(seen) => (l.(reference := seen - 1), th.(pc := CompareCount))
    case CompareCount => (l, if l.reference == 0 then th.(pc := ClearOwner) else Thread(Rest, Down(th.depth)))
    case ClearOwner => (l.(owner := 0), th.(pc := ClearFlag))
    case ClearFlag => (l.(flag := false), Thread(Rest, Down(th.depth)))
  }

  function Step(s: State, t: Id, call: Call): State
    requires t in s.threads
  {
    var (l, th) := StepOf(s.shared, t, s.threads[t], call);
    State(l, s.threads[t := th])
  }

  datatype Turn = Turn(t: Id, call: Call)

  function Run(s: State, schedule: seq<Turn>): State
    decreases |schedule|
  {
    if schedule == [] then s
    else
      var turn := schedule[0];
      Run(if turn.t in s.threads then Step(s, turn.t, turn.call) else s, schedule[1..])
  }

  // ----- who is inside

  /** From the test-and-set that succeeded to the clearing of the flag. */
  predicate Inside(th: Thread) {
    match th.pc
    case Rest | CompareZero | CompareOwn | TestAndSet => th.depth > 0
    case _ => true
  }

  /** What holds of the lock while thread t is inside. */
  predicate Holds(l: Shared, t: Id, th: Thread) {
    && l.flag
    && l.owner == (if th.pc.StoreOwner? || th.pc.ClearFlag? then 0 else t)
    && match th.pc
       case Rest | CompareZero | CompareOwn => l.reference == th.depth
       case TestAndSet => false
       case StoreOwner => l.reference == 0 == th.depth
       case LoadUp => l.reference == th.depth
       case StoreUp(seen) => l.reference == seen == th.depth
       case CheckOwner | LoadDown => l.reference == th.depth > 0
       case StoreDown(seen) => l.reference == seen == th.depth && th.depth > 0
       case CompareCount => l.reference == th.depth - 1 && th.depth > 0
       case ClearOwner | ClearFlag => l.reference == 0 && th.depth == 1
  }

  /** At most one thread is inside; the lock is as that thread left it, or free. */
  ghost predicate Inv(s: State) {
    && 0 !in s.threads
    && (forall t :: t in s.threads && Inside(s.threads[t]) ==> Holds(s.shared, t, s.threads[t]))
    && (forall t, u :: t in s.threads && u in s.threads && Inside(s.threads[t]) && Inside(s.threads[u]) ==> t == u)
    && ((forall t :: t in s.threads ==> !Inside(s.threads[t])) ==> s.shared == FREE)
  }

  lemma InitialInv(ids: set<Id>)
    requires 0 !in ids
    ensures Inv(Initial(ids))
  {
  }

  lemma StepInside(l: Shared, t: Id, th: Thread, call: Call)
    requires t != 0 && Inside(th) && Holds(l, t, th)
    ensures var (l', th') := StepOf(l, t, th, call);
      if Inside(th') then Holds(l', t, th') else l' == FREE
  {
  }

  lemma StepOutside(l: Shared, t: Id, th: Thread, call: Call)
    requires t != 0 && !Inside(th) && l.owner != t && (l.flag || l == FREE)
    ensures var (l', th') := StepOf(l, t, th, call);
      if Inside(th') then l == FREE && Holds(l', t, th') else l' == l
  {
  }

  lemma StepKeepsInv(s: State, t: Id, call: Call)
    requires Inv(s) && t in s.threads
    ensures Inv(Step(s, t, call)) && Step(s, t, call).threads.Keys == s.threads.Keys
  {
    hide StepOf, Holds, Inside;
    if Inside(s.threads[t]) {
      StepInside(s.shared, t, s.threads[t], call);
    } else {
      OtherHolds(s, t);
      StepOutside(s.shared, t, s.threads[t], call);
    }
    var s' := Step(s, t, call);
    assert s'.threads[t] == StepOf(s.shared, t, s.threads[t], call).1;
    assert forall u :: u in s.threads && u != t ==> s'.threads[u] == s.threads[u];
    forall u | u in s'.threads ensures u in s.threads {}
    if !Inside(s'.threads[t]) && !Inside(s.threads[t]) {
      if forall u :: u in s'.threads ==> !Inside(s'.threads[u]) {
        forall u | u in s.threads ensures !Inside(s.threads[u]) { assert u in s'.threads; }
      }
    }
  }

  lemma OtherHolds(s: State, t: Id)
    requires Inv(s) && t in s.threads && !Inside(s.threads[t])
    ensures s.shared.owner != t && (s.shared.flag || s.shared == FREE)
    ensures forall u :: u in s.threads && Inside(s.threads[u]) ==> s.shared.flag
  {
  }

  lemma {:induction false} RunKeepsInv(s: State, schedule: seq<Turn>)
    requires Inv(s)
    ensures Inv(Run(s, schedule)) && Run(s, schedule).threads.Keys == s.threads.Keys
    decreases |schedule|
  {
    if schedule != [] {
      var turn := schedule[0];
      if turn.t in s.threads { StepKeepsInv(s, turn.t, turn.call); }
      RunKeepsInv(if turn.t in s.threads then Step(s, turn.t, turn.call) else s, schedule[1..]);
    }
  }

  /** In every state that any interleaving reaches: at most one thread is inside; whoever reads its own id
      does hold the flag; and a thread that holds the lock and is at rest finds its depth in `reference`. */
  lemma MutualExclusion(ids: set<Id>, schedule: seq<Turn>)
    requires 0 !in ids
    ensures var s := Run(Initial(ids), schedule);
      && s.threads.Keys == ids
      && (forall t, u :: t in ids && u in ids && Inside(s.threads[t]) && Inside(s.threads[u]) ==> t == u)
      && (forall t :: t in ids && s.shared.owner == t ==> s.shared.flag && Inside(s.threads[t]))
      && (forall t :: t in ids && s.threads[t].pc.Rest? && s.threads[t].depth > 0 ==>
           s.shared.reference == s.threads[t].depth)
      && (s.shared.flag <==> exists t :: t in ids && Inside(s.threads[t]))
  {
    InitialInv(ids);
    RunKeepsInv(Initial(ids), schedule);
  }

  /** The assertion in unlock holds, and a thread that holds the lock never waits for itself. */
  lemma OwnerKnowsItself(ids: set<Id>, schedule: seq<Turn>, t: Id)
    requires 0 !in ids && t in ids
    ensures var s := Run(Initial(ids), schedule);
      && t in s.threads
      && (s.threads[t].pc.CheckOwner? ==> s.shared.owner == t)
      && (s.threads[t].pc.TestAndSet? ==> s.threads[t].depth == 0)
  {
    InitialInv(ids);
    RunKeepsInv(Initial(ids), schedule);
  }

  /** The steps that are left of a call, if nobody else makes it wait. */
  function StepsLeft(pc: Pc): nat {
    match pc
    case Rest => 0
    case CompareZero => 6
    case CompareOwn => 5
    case TestAndSet => 4
    case StoreOwner => 3
    case LoadUp => 2
    case StoreUp(_) => 1
    case CheckOwner => 6
    case LoadDown => 5
    case StoreDown(_) => 4
    case CompareCount => 3
    case ClearOwner => 2
    case ClearFlag => 1
  }

  /** A call takes at most six steps of its own and waits at one of them only: for the flag, while another
      thread is inside. */
  lemma CallsEnd(s: State, t: Id, call: Call)
    requires Inv(s) && t in s.threads && !s.threads[t].pc.Rest?
    ensures var pc, pc' := s.threads[t].pc, Step(s, t, call).threads[t].pc;
      StepsLeft(pc') < StepsLeft(pc) || (pc.TestAndSet? && exists u :: u in s.threads && u != t && Inside(s.threads[u]))
  {
    if s.threads[t].pc.TestAndSet? && s.shared.flag {
      var u :| u in s.threads && Inside(s.threads[u]);
      assert Holds(s.shared, u, s.threads[u]);
    }
  }

  /** The depth of a thread changes only where one of its own calls returns: up by one for a lock, down by
      one for an unlock. */
  lemma DepthCountsCalls(s: State, t: Id, call: Call, u: Id)
    requires Inv(s) && t in s.threads && u in s.threads
    ensures var th, th' := s.threads[u], Step(s, t, call).threads[u];
      && (u != t ==> th' == th)
      && (th'.depth == th.depth
          || (th'.pc.Rest? && th.pc.StoreUp? && th'.depth == th.depth + 1)
          || (th'.pc.Rest? && (th.pc.CompareCount? || th.pc.ClearFlag?) && th'.depth == th.depth - 1))
      && (th.pc.ClearFlag? && u == t ==> th'.depth == 0)
  {
    if Inside(s.threads[t]) { assert Holds(s.shared, t, s.threads[t]); }
  }
}
