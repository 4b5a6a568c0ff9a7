/** The timer manager itself: timers on intrusive lists, the five gears, and the manager's methods. */
module TimerWheel {
  import opened TimerSpec
  import opened TimerInvariant
  import opened TimerDrain
  import opened TimerRuns
  import opened TimerTime
  import opened Gears
  import opened Numbers
  import opened Wrappers

  class TBase {
    const key: Key
    const interval: int
    const serial: nat
    var list: TList?
    var next: TBase?
    var prev: TBase?
    var valid: bool
    var polling: bool
    var expire: int
    var count: int
    var started: bool
    var pauseTick: int
    var paused: bool
    ghost var parked: bool
    ghost var history: History

    constructor (key: Key, count: int, interval: int, serial: nat, ghost history: History)
      ensures this.key == key && this.count == count && this.interval == interval && this.serial == serial
      ensures this.history == history && list == null && valid && !polling && expire == 0
      ensures !started && !paused && pauseTick == 0 && !parked
    {
      this.key, this.count, this.interval, this.serial, this.history := key, count, interval, serial, history;
      list, next, prev := null, null, null;
      valid, polling := true, false;
      expire, started := 0, false;
      pauseTick, paused, parked := 0, false, false;
    }
  }

  /** An intrusive doubly linked list. `gear` and `index` say which list of the manager it is:
      slot `index` of gear `gear`, or one of the two lists outside the wheel. */
  class TList {
    ghost const gear: int
    ghost const index: int
    var head: TBase?
    var tail: TBase?
    ghost var nodes: seq<TBase>

    ghost predicate Valid()
      reads this, nodes`list, nodes`next, nodes`prev
    {
      && (nodes == [] ==> head == null && tail == null)
      && (nodes != [] ==> head == nodes[0] && tail == nodes[|nodes| - 1] && head.prev == null && tail.next == null)
      && (forall i {:trigger nodes[i].list} :: 0 <= i < |nodes| ==> nodes[i].list == this)
      && (forall i {:trigger nodes[i].next} :: 0 <= i < |nodes| - 1 ==> nodes[i].next == nodes[i + 1])
      && (forall i {:trigger nodes[i].prev} :: 1 <= i < |nodes| ==> nodes[i].prev == nodes[i - 1])
      && (forall i, j :: 0 <= i < j < |nodes| ==> nodes[i] != nodes[j])
    }

    constructor (ghost gear: int, ghost index: int)
      ensures Valid() && nodes == [] && this.gear == gear && this.index == index
    {
      this.gear, this.index := gear, index;
      head, tail, nodes := null, null, [];
    }

    method PushBack(p: TBase)
      requires Valid() && p !in nodes
      modifies this, p`list, p`next, p`prev, nodes`next
      ensures Valid() && nodes == old(nodes) + [p] && p.list == this
    {
      p.list := this;
      p.next := null;
      p.prev := tail;
      if tail != null { tail.next := p; } else { head := p; }
      tail := p;
      nodes := nodes + [p];
    }

    method PopFront() returns (p: TBase?)
      requires Valid()
      modifies this, nodes`list, nodes`next, nodes`prev
      ensures Valid()
      ensures if old(nodes) == [] then p == null && nodes == []
              else p == old(nodes)[0] && nodes == old(nodes)[1..] && p.list == null
    {
      p := head;
      if head != null {
        head := head.next;
        if head == null { tail := null; } else { head.prev := null; }
        p.next, p.prev, p.list := null, null, null;
        nodes := nodes[1..];
      }
    }

    method Remove(p: TBase, ghost i: nat)
      requires Valid() && i < |nodes| && nodes[i] == p
      modifies this, nodes`next, nodes`prev, p`list
      ensures Valid() && nodes == old(nodes)[..i] + old(nodes)[i + 1..] && p.list == null
    {
      ghost var f := nodes;
      Bridge(p, i);
      if p == head { head := head.next; }
      if p == tail { tail := tail.prev; }
      p.next, p.prev, p.list := null, null, null;
      nodes := f[..i] + f[i + 1..];
      Relinked(f, i);
    }

    /** The neighbours of p are linked to each other. */
    method Bridge(p: TBase, ghost i: nat)
      requires Valid() && i < |nodes| && nodes[i] == p
      modifies nodes`next, nodes`prev
      ensures forall j {:trigger nodes[j].next} :: 0 <= j < |nodes| ==>
        nodes[j].next == Nth(nodes, if j + 1 == i then j + 2 else j + 1)
      ensures forall j {:trigger nodes[j].prev} :: 0 <= j < |nodes| ==>
        nodes[j].prev == Nth(nodes, if j - 1 == i then j - 2 else j - 1)
    {
      assert p.prev == Nth(nodes, i - 1) && p.next == Nth(nodes, i + 1);
      if p.prev != null { p.prev.next := p.next; }
      if p.next != null { p.next.prev := p.prev; }
    }

    lemma Relinked(f: seq<TBase>, i: nat)
      requires i < |f| && nodes == f[..i] + f[i + 1..] && (forall j, k :: 0 <= j < k < |f| ==> f[j] != f[k])
      requires head == Nth(f, if i > 0 then 0 else 1) && tail == Nth(f, if i + 1 < |f| then |f| - 1 else |f| - 2)
      requires forall j {:trigger f[j].list} :: 0 <= j < |f| && j != i ==>
        f[j].list == this
      requires forall j {:trigger f[j].next} :: 0 <= j < |f| && j != i ==>
        f[j].next == Nth(f, if j + 1 == i then j + 2 else j + 1)
      requires forall j {:trigger f[j].prev} :: 0 <= j < |f| && j != i ==>
        f[j].prev == Nth(f, if j - 1 == i then j - 2 else j - 1)
      ensures Valid()
    {
      forall j | 0 <= j < |nodes| ensures nodes[j] == f[if j < i then j else j + 1] { }
    }
  }

  ghost function Nth(s: seq<TBase>, k: int): TBase? {
    if 0 <= k < |s| then s[k] else null
  }

  /** Every list of `lists` is well formed and made of timers of `live`, and every timer of `live` is on
      the list its back-pointer names, except those of `loose`, which are on none. */
  ghost predicate Linked(lists: set<TList>, live: set<TBase>, loose: set<TBase>)
    reads lists, live`list, live`next, live`prev
  {
    && (forall l :: l in lists ==> (forall t :: t in l.nodes ==> t in live) && l.Valid())
    && (forall t :: t in live && t !in loose ==> t.list != null && t.list in lists && t in t.list.nodes)
    && (forall t :: t in live && t in loose ==> t.list == null)
  }

  /** Back-pointers keep the lists apart, and loose timers off all of them. */
  lemma ListsApart(l: TList, lists: set<TList>, live: set<TBase>, loose: set<TBase>)
    requires Linked(lists, live, loose) && l in lists
    ensures forall m, i :: m in lists && m != l && 0 <= i < |m.nodes| ==> m.nodes[i] !in l.nodes
    ensures forall m, i :: m in lists && 0 <= i < |m.nodes| ==> m.nodes[i] !in loose
  {
    forall m, i | m in lists && 0 <= i < |m.nodes|
      ensures m.nodes[i] !in loose && (m != l ==> m.nodes[i] !in l.nodes)
    {
      assert m.nodes[i].list == m;
    }
  }

  lemma HeadTells(l: TList, lists: set<TList>, live: set<TBase>, loose: set<TBase>)
    requires Linked(lists, live, loose) && l in lists
    ensures l.head == null <==> l.nodes == []
  {
  }

  /** Appending a loose timer to a list. */
  method Append(l: TList, t: TBase, ghost lists: set<TList>, ghost live: set<TBase>, ghost loose: set<TBase>)
    requires Linked(lists, live, loose) && l in lists && t in live && t in loose
    modifies l, live`list, live`next, live`prev
    ensures Linked(lists, live, loose - {t})
    ensures l.nodes == old(l.nodes) + [t] && t.list == l
    ensures forall x :: x in live && x != t ==> x.list == old(x.list)
  {
    ListsApart(l, lists, live, loose);
    l.PushBack(t);
  }

  method TakeFirst(l: TList, ghost lists: set<TList>, ghost live: set<TBase>, ghost loose: set<TBase>)
    returns (t: TBase?)
    requires Linked(lists, live, loose) && l in lists && l.nodes != []
    modifies l, live`list, live`next, live`prev
    ensures t == old(l.nodes)[0] && t.list == null && t in live && t !in loose
    ensures Linked(lists, live, loose + {t})
    ensures l.nodes == old(l.nodes)[1..]
    ensures forall x :: x in live && x != t ==> x.list == old(x.list)
  {
    ListsApart(l, lists, live, loose);
    t := l.PopFront();
  }

  method Take(l: TList, t: TBase, ghost i: nat, ghost lists: set<TList>, ghost live: set<TBase>,
    ghost loose: set<TBase>)
    requires Linked(lists, live, loose) && l in lists && i < |l.nodes| && l.nodes[i] == t
    modifies l, live`list, live`next, live`prev
    ensures t.list == null && t in live && t !in loose
    ensures Linked(lists, live, loose + {t})
    ensures l.nodes == old(l.nodes)[..i] + old(l.nodes)[i + 1..]
    ensures forall x :: x in live && x != t ==> x.list == old(x.list)
  {
    ListsApart(l, lists, live, loose);
    l.Remove(t, i);
    assert old(l.nodes) == old(l.nodes)[..i] + [t] + old(l.nodes)[i + 1..];
  }

  class TGear {
    const level: nat
    const maxMoveDst: int
    const nextGear: TGear?
    const timerVec: seq<TList>
    var curMoveDst: int

    /** As the constructor leaves it: all slots empty, the cursor at the first. */
    ghost predicate Ready(level: nat, nextGear: TGear?)
      reads this, timerVec
    {
      && level < 5 && this.level == level && maxMoveDst == |timerVec| == Size(level) && this.nextGear == nextGear
      && curMoveDst == 0
      && forall i :: 0 <= i < |timerVec| ==>
           var l := timerVec[i]; l.nodes == [] && l.Valid() && l.gear == level && l.index == i
    }

    constructor (maxMoveDst: nat, nextGear: TGear?, level: nat)
      requires level < 5 && maxMoveDst == Size(level)
      ensures Ready(level, nextGear) && fresh(timerVec)
    {
      this.level, this.maxMoveDst, this.nextGear, curMoveDst := level, maxMoveDst, nextGear, 0;
      var slots: seq<TList> := [];
      for i := 0 to maxMoveDst
        invariant |slots| == i
        invariant forall x :: 0 <= x < i ==>
          var l := slots[x]; fresh(l) && l.Valid() && l.nodes == [] && l.gear == level && l.index == x
      {
        var l := new TList(level, i);
        slots := slots + [l];
      }
      timerVec := slots;
    }

    method CheckHighGear(m: TimerMgr)
      requires m.Ticking() && m.Wheel(m.jiffies, 5) && this == m.gears[0]
      modifies m.gears`curMoveDst, m.lists, m.live`list, m.live`next, m.live`prev
      ensures m.Ticking() && m.Wheel(m.jiffies, 1)
      ensures m.running.nodes == old(m.running.nodes) && m.suspended.nodes == old(m.suspended.nodes)
      ensures forall t :: t in m.live && old(!m.OnWheel(t)) ==> t.list == old(t.list)
      ensures forall t :: t in m.live && old(m.OnWheel(t)) ==> m.OnWheel(t)
    {
      hide InWindow, HandedAt, Linked;
      CursorWraps(0, m.jiffies, curMoveDst);
      if curMoveDst >= maxMoveDst {
        curMoveDst := 0;
      }
      assert m.gears[0].level == 0 && m.gears[1].level == 1;
      if curMoveDst == 0 {
        if nextGear != null {
          nextGear.UpdateToLowGear(m);
        }
      } else {
        m.IdleWheel(1);
      }
    }

    /** Moves the timers of the current slot to the running list: they are the ones that expire now. */
    method Update(m: TimerMgr) returns (ghost moved: seq<TBase>)
      requires m.Fixed() && this == m.gears[0] && Linked(m.lists, m.live, {})
      requires 1 <= m.jiffies < S63 && m.Wheel(m.jiffies - 1, 1)
      modifies this`curMoveDst, m.lists, m.live`list, m.live`next, m.live`prev
      ensures Linked(m.lists, m.live, {}) && m.Wheel(m.jiffies, 5)
      ensures m.running.nodes == old(m.running.nodes) + moved && m.suspended.nodes == old(m.suspended.nodes)
      ensures forall t :: t in m.live ==> (t in moved <==> old(m.OnWheel(t)) && t.expire == m.jiffies - 1)
      ensures forall t :: t in m.live ==> t.list == if t in moved then m.running else old(t.list)
    {
      hide InWindow, HandedAt, Linked, CursorAt;
      m.GearFacts(0);
      FullTurn(0, HandedAt(0, m.jiffies - 1, 1), curMoveDst);
      if curMoveDst >= maxMoveDst {
        curMoveDst := 0;
      }
      moved := DrainSlot(m);
      NextSlot(m);
    }

    /** Empties the slot at the cursor. */
    method DrainSlot(m: TimerMgr) returns (ghost moved: seq<TBase>)
      requires m.Fixed() && this == m.gears[0] && 0 <= curMoveDst < 256 && Linked(m.lists, m.live, {})
      requires 1 <= m.jiffies < S63 && m.Wheel(m.jiffies - 1, 1)
      modifies m.lists, m.live`list, m.live`next, m.live`prev
      ensures Linked(m.lists, m.live, {}) && m.Wheel(m.jiffies - 1, 1)
      ensures m.running.nodes == old(m.running.nodes) + moved && m.suspended.nodes == old(m.suspended.nodes)
      ensures forall t :: t in m.live ==> (t in moved <==> old(m.OnWheel(t)) && t.expire == m.jiffies - 1)
      ensures forall t :: t in m.live ==> t.list == if t in moved then m.running else old(t.list)
    {
      hide InWindow, HandedAt, Linked, CursorAt;
      m.GearFacts(0);
      m.SlotIsDue();
      var currentList := timerVec[curMoveDst];
      moved := EmptySlot(m, currentList);
    }

    method NextSlot(m: TimerMgr)
      requires m.Fixed() && this == m.gears[0] && curMoveDst < 256
      requires 1 <= m.jiffies && m.Wheel(m.jiffies - 1, 1)
      requires forall t :: t in m.live && m.OnWheel(t) ==> t.expire != m.jiffies - 1
      modifies this`curMoveDst
      ensures m.Wheel(m.jiffies, 5)
    {
      hide InWindow, HandedAt, CursorAt;
      m.GearFacts(0);
      m.TickOver();
      curMoveDst := curMoveDst + 1;
      if curMoveDst == maxMoveDst {
        curMoveDst := 0;
      }
    }

    method EmptySlot(m: TimerMgr, currentList: TList) returns (ghost moved: seq<TBase>)
      requires m.Fixed() && Linked(m.lists, m.live, {}) && currentList in m.lists && currentList.gear == 0
      modifies m.lists, m.live`list, m.live`next, m.live`prev
      ensures Linked(m.lists, m.live, {})
      ensures moved == old(currentList.nodes) && currentList.nodes == []
      ensures m.running.nodes == old(m.running.nodes) + moved && m.suspended.nodes == old(m.suspended.nodes)
      ensures forall t :: t in m.live ==> t.list == if t in moved then m.running else old(t.list)
    {
      hide Linked, TimerMgr.Fixed;
      m.OffSlots(currentList);
      moved := [];
      while currentList.head != null
        invariant Linked(m.lists, m.live, {})
        invariant old(currentList.nodes) == moved + currentList.nodes
        invariant m.running.nodes == old(m.running.nodes) + moved && m.suspended.nodes == old(m.suspended.nodes)
        invariant forall t :: t in m.live ==> t.list == if t in moved then m.running else old(t.list)
        decreases |currentList.nodes|
      {
        HeadTells(currentList, m.lists, m.live, {});
        ghost var first := MoveFirst(m, currentList);
        moved := moved + [first];
      }
      HeadTells(currentList, m.lists, m.live, {});
    }

    method MoveFirst(m: TimerMgr, currentList: TList) returns (ghost first: TBase)
      requires m.running in m.lists && Linked(m.lists, m.live, {}) && currentList in m.lists && currentList != m.running
      requires currentList.nodes != []
      modifies currentList, m.running, m.live`list, m.live`next, m.live`prev
      ensures Linked(m.lists, m.live, {})
      ensures old(currentList.nodes) == [first] + currentList.nodes && m.running.nodes == old(m.running.nodes) + [first]
      ensures first in m.live && first.list == m.running
      ensures forall t :: t in m.live && t != first ==> t.list == old(t.list)
    {
      hide Linked;
      var base := TakeFirst(currentList, m.lists, m.live, {});
      assert {} + {base} == {base};
      m.MoveToRunning(base);
      first := base;
    }

    /** Hands the block that starts at this tick down to the lower gears, after the next gear has done so. */
    method UpdateToLowGear(m: TimerMgr)
      requires m.Ticking() && m.Wheel(m.jiffies, 5)
      requires 1 <= level < 5 && this == m.gears[level] && m.jiffies % Width(level) == 0
      modifies m.gears`curMoveDst, m.lists, m.live`list, m.live`next, m.live`prev
      ensures m.Ticking() && m.Wheel(m.jiffies, level)
      ensures m.running.nodes == old(m.running.nodes) && m.suspended.nodes == old(m.suspended.nodes)
      ensures forall t :: t in m.live && old(!m.OnWheel(t)) ==> t.list == old(t.list)
      ensures forall t :: t in m.live && old(m.OnWheel(t)) ==> m.OnWheel(t)
      ensures forall g :: 0 <= g < level ==> m.gears[g].curMoveDst == old(m.gears[g].curMoveDst)
      decreases 5 - level
    {
      hide InWindow, HandedAt, Linked, CursorAt;
      m.GearFacts(level);
      FullTurn(level, HandedAt(level, m.jiffies, 5), curMoveDst);
      CursorWraps(level, m.jiffies, curMoveDst);
      if curMoveDst >= maxMoveDst {
        curMoveDst := 0;
      }
      if curMoveDst == 0 {
        if nextGear != null {
          nextGear.UpdateToLowGear(m);
        }
      } else {
        m.IdleWheel(level + 1);
      }
      var currentList := timerVec[curMoveDst];
      HandDown(m, currentList);
      PassSlot(m);
    }

    method PassSlot(m: TimerMgr)
      requires m.Ticking() && m.Wheel(m.jiffies, level + 1)
      requires 1 <= level < 5 && this == m.gears[level] && m.jiffies % Width(level) == 0
      requires 0 <= curMoveDst < Size(level) && timerVec[curMoveDst].nodes == []
      modifies this`curMoveDst
      ensures m.Wheel(m.jiffies, level)
    {
      hide InWindow, HandedAt, Linked, CursorAt;
      m.SlotPassed(level);
      curMoveDst := curMoveDst + 1;
    }

    /** Files every timer of the slot at the cursor again. */
    method HandDown(m: TimerMgr, currentList: TList)
      requires m.Ticking() && m.Wheel(m.jiffies, level + 1)
      requires 1 <= level < 5 && this == m.gears[level] && m.jiffies % Width(level) == 0
      requires 0 <= curMoveDst < Size(level) && currentList == timerVec[curMoveDst]
      modifies m.lists, m.live`list, m.live`next, m.live`prev
      ensures m.Ticking() && m.Wheel(m.jiffies, level + 1) && currentList.nodes == []
      ensures m.running.nodes == old(m.running.nodes) && m.suspended.nodes == old(m.suspended.nodes)
      ensures forall t :: t in m.live && old(!m.OnWheel(t)) ==> t.list == old(t.list)
      ensures forall t :: t in m.live && old(m.OnWheel(t)) ==> m.OnWheel(t)
    {
      hide InWindow, HandedAt, Linked, CursorAt;
      m.GearFacts(level);
      while currentList.head != null
        invariant m.Ticking() && m.Wheel(m.jiffies, level + 1)
        invariant m.running.nodes == old(m.running.nodes) && m.suspended.nodes == old(m.suspended.nodes)
        invariant forall t :: t in m.live && old(!m.OnWheel(t)) ==> t.list == old(t.list)
        invariant forall t :: t in m.live && old(m.OnWheel(t)) ==> m.OnWheel(t)
        decreases |currentList.nodes|
      {
        HeadTells(currentList, m.lists, m.live, {});
        HandDownFirst(m, currentList);
      }
      HeadTells(currentList, m.lists, m.live, {});
    }

    method HandDownFirst(m: TimerMgr, currentList: TList)
      requires m.Ticking() && m.Wheel(m.jiffies, level + 1)
      requires 1 <= level < 5 && this == m.gears[level] && m.jiffies % Width(level) == 0
      requires 0 <= curMoveDst < Size(level) && currentList == timerVec[curMoveDst] && currentList.nodes != []
      modifies m.lists, m.live`list, m.live`next, m.live`prev
      ensures m.Ticking() && m.Wheel(m.jiffies, level + 1)
      ensures m.running.nodes == old(m.running.nodes) && m.suspended.nodes == old(m.suspended.nodes)
      ensures forall t :: t in m.live && old(!m.OnWheel(t)) ==> t.list == old(t.list)
      ensures forall t :: t in m.live && old(m.OnWheel(t)) ==> m.OnWheel(t)
      ensures |currentList.nodes| < old(|currentList.nodes|)
    {
      hide InWindow, HandedAt, FindTimerList, Linked, Width;
      m.LeavesSlot(level, currentList);
      var base := m.Unfile(currentList, level + 1);
      m.Refile(base, level + 1);
    }
  }

  class TimerMgr {
    const gears: seq<TGear>
    const running: TList
    const suspended: TList
    const script: Script
    ghost const lists: set<TList>
    var jiffies: int
    var timerMap: map<Key, TBase>
    var log: seq<Event>
    var issued: nat
    var last: int
    ghost var live: set<TBase>
    ghost var polled: TBase?
    ghost var phase: Phase
    ghost var totals: seq<int>
    ghost var made: seq<TBase>
    ghost var states: seq<State>
    ghost var actions: seq<Action>

    /** The gears are made from the slowest down, each knowing the next slower one. */
    static method MakeGears() returns (all: seq<TGear>)
      ensures |all| == 5 && fresh(all)
      ensures forall g {:trigger all[g]} :: 0 <= g < 5 ==>
        all[g].Ready(g, if g < 4 then all[g + 1] else null) && fresh(all[g].timerVec)
    {
      hide TList.Valid, TGear.Ready;
      var g4 := new TGear(64, null, 4);
      var g3 := new TGear(64, g4, 3);
      var g2 := new TGear(64, g3, 2);
      var g1 := new TGear(64, g2, 1);
      var g0 := new TGear(256, g1, 0);
      all := [g0, g1, g2, g3, g4];
    }

    /** launch */
    constructor (script: Script, clock: int)
      requires OrderlyScript(script)
      ensures Valid() && View() == INIT && fresh(lists) && fresh(gears) && live == {} && polled == null && Traced()
      ensures last == clock && this.script == script
    {
      hide OrderlyScript, Ticking, Wheel, TList.Valid, Inv;
      var all := MakeGears();
      var run := new TList(-1, 0);
      var parked := new TList(-2, 0);
      gears := all;
      running, suspended := run, parked;
      this.script := script;
      jiffies, timerMap, log, issued, last := 0, map[], [], 0, clock;
      live, polled, phase, totals, made := {}, null, Polling, [], [];
      states, actions := [INIT], [];
      lists := {run, parked} + (set g, i | 0 <= g < 5 && 0 <= i < |all[g].timerVec| :: all[g].timerVec[i]);
      new;
      Launched();
      Started();
    }

    lemma Launched()
      requires |gears| == 5 && jiffies == 0 && live == {} && OrderlyScript(script)
      requires forall g {:trigger gears[g]} :: 0 <= g < 5 ==> gears[g].Ready(g, if g < 4 then gears[g + 1] else null)
      requires running.gear == -1 && running.Valid() && running.nodes == []
      requires suspended.gear == -2 && suspended.Valid() && suspended.nodes == []
      requires lists == {running, suspended}
        + (set g, i | 0 <= g < 5 && 0 <= i < |gears[g].timerVec| :: gears[g].timerVec[i])
      ensures Fixed() && Ticking() && Wheel(0, 5)
    {
      hide OrderlyScript, TList.Valid;
      AllEmpty();
    }

    lemma AllEmpty()
      requires |gears| == 5 && jiffies == 0 && live == {} && OrderlyScript(script)
      requires forall g {:trigger gears[g]} :: 0 <= g < 5 ==> gears[g].Ready(g, if g < 4 then gears[g + 1] else null)
      requires running.gear == -1 && running.Valid() && running.nodes == []
      requires suspended.gear == -2 && suspended.Valid() && suspended.nodes == []
      requires lists == {running, suspended}
        + (set g, i | 0 <= g < 5 && 0 <= i < |gears[g].timerVec| :: gears[g].timerVec[i])
      ensures Fixed() && forall l :: l in lists ==> l.nodes == [] && l.Valid()
    {
      hide OrderlyScript, TList.Valid;
      forall l | l in lists
        ensures l.nodes == [] && l.Valid()
        ensures l == running || l == suspended
          || (0 <= l.gear < 5 && 0 <= l.index < Size(l.gear) && gears[l.gear].timerVec[l.index] == l)
      {
        if l != running && l != suspended {
          var g, i :| 0 <= g < 5 && 0 <= i < |gears[g].timerVec| && l == gears[g].timerVec[i];
          assert gears[g].Ready(g, if g < 4 then gears[g + 1] else null);
        }
      }
      assert forall g :: 0 <= g < 5 ==> gears[g].level == g;
    }

    /** The five gears, each with its slots, and the two other lists. None of this ever changes. */
    ghost predicate Fixed() {
      && |gears| == 5 && OrderlyScript(script)
      && (forall g :: 0 <= g < 5 ==>
           gears[g].level == g && gears[g].maxMoveDst == Size(g) == |gears[g].timerVec|
           && gears[g].nextGear == (if g < 4 then gears[g + 1] else null))
      && (forall g, i :: 0 <= g < 5 && 0 <= i < Size(g) ==>
           var l := gears[g].timerVec[i]; l in lists && l.gear == g && l.index == i)
      && running in lists && running.gear == -1 && suspended in lists && suspended.gear == -2
      && (forall l :: l in lists ==>
           l == running || l == suspended
           || (0 <= l.gear < 5 && 0 <= l.index < Size(l.gear) && gears[l.gear].timerVec[l.index] == l))
    }

    ghost predicate OnWheel(t: TBase)
      reads t`list
    {
      t.list != null && t.list.gear >= 0
    }

    ghost predicate InPlace(t: TBase, j: int, from: int)
      requires 0 <= j
      reads t`list, t`expire
    {
      t.list != null && 0 <= t.list.gear < 5
      && InWindow(t.list.gear, HandedAt(t.list.gear, j, from), t.list.index, t.expire)
    }

    /** Every gear holds the timers of its window, each in its slot, and its cursor is at the first block
        not handed down. Gears from `from` up have already done so for tick j. */
    ghost predicate Wheel(j: int, from: int)
      requires Fixed() && 0 <= j
      reads this`live, gears, live`list, live`expire
    {
      && (forall t :: t in live && OnWheel(t) ==> InPlace(t, j, from))
      && (forall g :: 0 <= g < 5 ==> CursorAt(g, HandedAt(g, j, from), gears[g].curMoveDst))
    }

    /** A state in which the wheel can turn: nobody is being polled, and all timers in it are in reach. */
    ghost predicate Ticking()
      reads this, lists, live
    {
      && Fixed() && 0 <= jiffies < S63 && Linked(lists, live, {})
      && (forall t :: t in live && OnWheel(t) ==> jiffies <= t.expire < jiffies + HORIZON)
    }

    lemma GearFacts(level: nat)
      requires Fixed() && level < 5
      ensures var g := gears[level];
        && g.level == level && g.maxMoveDst == |g.timerVec| == Size(level)
        && g.nextGear == (if level < 4 then gears[level + 1] else null)
        && (level < 4 ==> gears[level + 1].level == level + 1)
        && (forall i :: 0 <= i < Size(level) ==> g.timerVec[i] in lists)
        && (forall h :: 0 <= h < 5 && h != level ==> gears[h] != g)
    {
      assert forall h :: 0 <= h < 5 ==> gears[h].level == h;
    }

    lemma OffSlots(l: TList)
      requires Fixed() && l in lists && l.gear >= 0
      ensures running in lists && suspended in lists && l != running && l != suspended && running != suspended
    {
    }

    /** Whoever is on the wheel was there before, with the expiry and in the slot he has. */
    twostate lemma WheelKept()
      requires Fixed() && old(0 <= jiffies && Wheel(jiffies, 5)) && jiffies == old(jiffies) && live <= old(live)
      requires forall g :: 0 <= g < 5 ==> gears[g].curMoveDst == old(gears[g].curMoveDst)
      requires forall t :: t in live && OnWheel(t) ==> t.list == old(t.list) && t.expire == old(t.expire)
      ensures Wheel(jiffies, 5)
    {
      hide InWindow, HandedAt, CursorAt;
    }

    /** Nobody else is touched, and this timer is and was not on the wheel: its expiry does not matter. */
    twostate lemma OffSideChange(base: TBase)
      requires Fixed() && old(0 <= jiffies && Wheel(jiffies, 5) && Sorted(null)) && jiffies == old(jiffies)
      requires live == old(live) && polled == old(polled) && (base == polled || base.parked) && !OnWheel(base)
      requires (forall g :: g in gears ==> unchanged(g)) && forall t :: t in live && t != base ==> unchanged(t)
      requires base.list == old(base.list) && base.parked == old(base.parked)
      ensures Wheel(jiffies, 5) && Sorted(null)
    {
      hide InWindow, HandedAt, CursorAt;
      forall g | 0 <= g < 5 ensures gears[g].curMoveDst == old(gears[g].curMoveDst) { assert gears[g] in gears; }
    }

    /** A tick has moved exactly the timers that expire with it, to the running list. */
    twostate lemma SortedTurned(new moved: seq<TBase>)
      requires old(Sorted(null) && Linked(lists, live, {})) && Fixed() && jiffies == old(jiffies) + 1
      requires live == old(live) && polled == null && old(polled) == null
      requires forall t :: t in live ==> (t in moved <==> old(OnWheel(t)) && t.expire == old(jiffies))
      requires forall t :: t in live && t in moved ==> t.list == running
      requires forall t :: t in live && t !in moved ==> if old(OnWheel(t)) then OnWheel(t) else t.list == old(t.list)
      requires forall t :: t in live ==> t.expire == old(t.expire) && t.parked == old(t.parked)
      requires forall t :: t in live && old(OnWheel(t)) ==> t.expire >= old(jiffies)
      ensures Sorted(null)
    {
      forall t | t in live
        ensures t.list == suspended <==> t.parked
        ensures t.list == running <==> !t.parked && t.expire < jiffies
      {
        assert old(t.list == suspended <==> t.parked) && old(t.list == running <==> !t.parked && t.expire < jiffies);
        assert old(OnWheel(t) || t.list == running || t.list == suspended);
      }
    }

    lemma SameWheel(j: int, from: nat, from': nat)
      requires Fixed() && 0 <= j && Wheel(j, from)
      requires forall g: nat :: g < 5 ==> HandedAt(g, j, from) == HandedAt(g, j, from')
      ensures Wheel(j, from')
    {
    }

    lemma IdleWheel(from: nat)
      requires Fixed() && 0 <= jiffies && 1 <= from <= 5 && Wheel(jiffies, 5)
      requires from < 5 ==> jiffies % Width(from) != 0
      ensures Wheel(jiffies, from)
    {
      hide InWindow, HandedAt;
      forall g: nat | g < 5 ensures HandedAt(g, jiffies, from) == HandedAt(g, jiffies, 5) {
        NothingToHandDown(from, jiffies, g);
      }
      SameWheel(jiffies, 5, from);
    }

    /** Puts back on the wheel a timer that was taken off it and is not overdue. */
    method Refile(base: TBase, ghost from: int)
      requires Fixed() && 0 <= jiffies < S63 && Linked(lists, live, {base}) && base in live
      requires forall t :: t in live && OnWheel(t) ==> jiffies <= t.expire < jiffies + HORIZON
      requires jiffies <= base.expire < jiffies + HORIZON && 1 <= from <= 5 && Wheel(jiffies, from)
      modifies lists, live`list, live`next, live`prev
      ensures Ticking() && Wheel(jiffies, from)
      ensures running.nodes == old(running.nodes) && suspended.nodes == old(suspended.nodes)
      ensures forall t :: t in live && t != base ==> t.list == old(t.list)
      ensures OnWheel(base) && base.list == ListFor(base.expire)
      ensures forall l :: l in lists && l != base.list ==> l.nodes == old(l.nodes)
    {
      hide InWindow, HandedAt, Linked;
      Schedule(base, from, {base});
      assert {base} - {base} == {};
    }

    /** A timer of the block that starts now goes to a lower gear, so never back to the slot it is in. */
    lemma LeavesSlot(level: nat, l: TList)
      requires Ticking() && 1 <= level < 5 && Wheel(jiffies, level + 1) && jiffies % Width(level) == 0
      requires 0 <= gears[level].curMoveDst < Size(level) && l == gears[level].timerVec[gears[level].curMoveDst]
      requires l.nodes != []
      ensures var t := l.nodes[0];
        jiffies <= t.expire < jiffies + HORIZON && ListFor(t.expire).gear < level && l.gear == level && t.list == l
    {
      var t := l.nodes[0];
      assert t.list == l;
      SlotAtCursor(level, jiffies, gears[level].curMoveDst, t.list.index, t.expire);
      HandedLower(level, t.expire, jiffies);
    }

    /** Takes the first timer off a slot of the wheel. */
    method Unfile(l: TList, ghost from: int) returns (base: TBase)
      requires Ticking() && l in lists && l.gear >= 0 && l.nodes != [] && Wheel(jiffies, from)
      modifies l, live`list, live`next, live`prev
      ensures base == old(l.nodes)[0] && base in live && l.nodes == old(l.nodes)[1..]
      ensures Linked(lists, live, {base}) && Wheel(jiffies, from)
      ensures forall t :: t in live && OnWheel(t) ==> jiffies <= t.expire < jiffies + HORIZON
      ensures forall t :: t in live && t != base ==> t.list == old(t.list)
    {
      hide InWindow, HandedAt, Linked;
      base := TakeFirst(l, lists, live, {});
      assert {} + {base} == {base};
    }

    /** Once the slot at its cursor is empty, a gear holds only later blocks. */
    lemma SlotPassed(level: nat)
      requires Fixed() && Linked(lists, live, {}) && 0 <= jiffies && 1 <= level < 5 && jiffies % Width(level) == 0
      requires Wheel(jiffies, level + 1) && gears[level].curMoveDst < Size(level)
      requires gears[level].timerVec[gears[level].curMoveDst].nodes == []
      ensures forall t :: t in live && OnWheel(t) ==> InPlace(t, jiffies, level)
      ensures forall g :: 0 <= g < 5 && g != level ==> HandedAt(g, jiffies, level) == HandedAt(g, jiffies, level + 1)
      ensures CursorAt(level, HandedAt(level, jiffies, level), gears[level].curMoveDst + 1)
    {
      hide HandedAt, InWindow, CursorAt, Width, OrderlyScript, InPlace;
      CursorMoves(level, jiffies, gears[level].curMoveDst);
      OtherGears(level, jiffies);
      forall t | t in live && OnWheel(t) ensures InPlace(t, jiffies, level) { StaysInPlace(t, level); }
    }

    lemma StaysInPlace(t: TBase, level: nat)
      requires Fixed() && Linked(lists, live, {}) && 0 <= jiffies && 1 <= level < 5 && jiffies % Width(level) == 0
      requires CursorAt(level, HandedAt(level, jiffies, level + 1), gears[level].curMoveDst)
      requires gears[level].curMoveDst < Size(level)
      requires gears[level].timerVec[gears[level].curMoveDst].nodes == []
      requires t in live && OnWheel(t) && InPlace(t, jiffies, level + 1)
      ensures InPlace(t, jiffies, level)
    {
      hide HandedAt, InWindow, CursorAt, Width, OrderlyScript;
      OtherGears(level, jiffies);
      if t.list.gear == level {
        SlotAtCursor(level, jiffies, gears[level].curMoveDst, t.list.index, t.expire);
      }
    }

    method MoveToRunning(base: TBase)
      requires running in lists && Linked(lists, live, {base}) && base in live
      modifies running, live`list, live`next, live`prev
      ensures Linked(lists, live, {}) && running.nodes == old(running.nodes) + [base] && base.list == running
      ensures forall t :: t in live && t != base ==> t.list == old(t.list)
    {
      Append(running, base, lists, live, {base});
      assert {base} - {base} == {};
    }

    lemma SlotIsDue()
      requires Fixed() && Linked(lists, live, {}) && 1 <= jiffies && Wheel(jiffies - 1, 1) && gears[0].curMoveDst < 256
      ensures var l := gears[0].timerVec[gears[0].curMoveDst];
        && l in lists && l.gear == 0
        && forall t :: t in live ==> (t in l.nodes <==> OnWheel(t) && t.expire == jiffies - 1)
    {
      var l := gears[0].timerVec[gears[0].curMoveDst];
      forall t | t in live ensures t in l.nodes <==> OnWheel(t) && t.expire == jiffies - 1 {
        if OnWheel(t) { DueNow(t.list.gear, jiffies - 1, gears[0].curMoveDst, t.list.index, t.expire); }
      }
    }

    lemma TickOver()
      requires Fixed() && 1 <= jiffies && Wheel(jiffies - 1, 1) && gears[0].curMoveDst < 256
      requires forall t :: t in live && OnWheel(t) ==> t.expire != jiffies - 1
      ensures forall t :: t in live && OnWheel(t) ==> InPlace(t, jiffies, 5)
      ensures forall g :: 0 < g < 5 ==> CursorAt(g, HandedAt(g, jiffies, 5), gears[g].curMoveDst)
      ensures var cur := gears[0].curMoveDst;
        CursorAt(0, HandedAt(0, jiffies, 5), if cur + 1 == 256 then 0 else cur + 1)
    {
      forall t | t in live && OnWheel(t) ensures InPlace(t, jiffies, 5) {
        DueNow(t.list.gear, jiffies - 1, gears[0].curMoveDst, t.list.index, t.expire);
      }
      forall g | 0 < g < 5 ensures CursorAt(g, HandedAt(g, jiffies, 5), gears[g].curMoveDst) {
        CursorTicks(g, jiffies - 1, gears[g].curMoveDst);
      }
      CursorTicks(0, jiffies - 1, gears[0].curMoveDst);
    }

    function ListFor(expire: int): TList
      requires Fixed() && 0 <= expire < U64 && 0 <= jiffies < U64
      reads this
    {
      match FindTimerList(expire, jiffies)
      case Overdue => running
      case Slot(g, i) => gears[g].timerVec[i]
    }

    method Schedule(base: TBase, ghost from: int, ghost loose: set<TBase>)
      requires Fixed() && 0 <= jiffies < S63 && Linked(lists, live, loose) && base in live && base in loose
      requires 0 <= base.expire < jiffies + HORIZON && 1 <= from <= 5 && Wheel(jiffies, from)
      modifies lists, live`list, live`next, live`prev
      ensures Linked(lists, live, loose - {base}) && base.list == ListFor(base.expire)
      ensures base.list.nodes == old(ListFor(base.expire).nodes) + [base]
      ensures Wheel(jiffies, from)
      ensures forall l :: l in lists && l != base.list ==> l.nodes == old(l.nodes)
      ensures forall t :: t in live && t != base ==> t.list == old(t.list)
      ensures if base.expire < jiffies then base.list == running else OnWheel(base)
    {
      hide InWindow, HandedAt, Linked;
      if base.expire < jiffies {
        FiledOverdue(base.expire, jiffies);
      } else {
        FiledInWindow(base.expire, jiffies, from);
      }
      Append(ListFor(base.expire), base, lists, live, loose);
    }

    // ----- the abstract state

    ghost function Loose(): set<TBase>
      reads this`polled
    {
      if polled == null then {} else {polled}
    }

    /** The mapped timers and the polled one are live. */
    ghost predicate Closed()
      reads this`live, this`timerMap, this`polled
    {
      (forall k :: k in timerMap ==> timerMap[k] in live && timerMap[k].key == k) && (polled != null ==> polled in live)
    }

    ghost predicate Keyed(t: TBase)
      reads this`timerMap
    {
      t.key in timerMap && timerMap[t.key] == t
    }

    /** Every live timer but the one being polled is mapped from its key; that one still is unless killed.
        A timer `but` may be on its way out. */
    ghost predicate Mapped(but: TBase?)
      reads this`live, this`timerMap, this`polled, this`phase, live`valid, live`polling
    {
      && Closed()
      && (forall t :: t in live && t != polled && t != but ==> Keyed(t) && !t.polling)
      && (polled != null && polled != but ==>
           match phase
           case Polling => polled.valid && polled.polling && Keyed(polled)
           case Killed => !polled.valid && !Keyed(polled)
           case Ending => !polled.valid && Keyed(polled))
    }

    /** The suspended list holds the parked timers, the running list the overdue ones, the wheel the rest.
        A timer `but` may be out of place. */
    ghost predicate Sorted(but: TBase?)
      reads this`live, this`polled, this`jiffies, live`list, live`parked, live`expire
    {
      forall t :: t in live && t != polled && t != but ==>
        && (t.list == suspended <==> t.parked)
        && (t.list == running <==> !t.parked && t.expire < jiffies)
    }

    /** A serial number tells which timer it is. */
    ghost predicate Numbered()
      reads this`live, this`made, this`issued, this`totals
    {
      issued == |totals| == |made| && forall t :: t in live ==> t.serial < |made| && made[t.serial] == t
    }

    ghost predicate Heap()
      reads this, lists, gears, live
    {
      && Fixed() && 0 <= jiffies < S63 && Linked(lists, live, Loose()) && Wheel(jiffies, 5)
      && Closed() && Mapped(null) && Sorted(null) && Numbered()
    }

    ghost predicate Valid()
      reads this, lists, gears, live
    {
      Heap() && Inv(View())
    }

    /** Between any two calls from outside: the manager has gone through the states of a run from launch. */
    ghost predicate Traced()
      reads this, lists, gears, live
    {
      && Valid() && polled == null && Run(script, states, actions)
      && states[0] == INIT && states[|states| - 1] == View()
    }

    static ghost function Record(t: TBase): Timer
      reads t`expire, t`count, t`started, t`paused, t`pauseTick, t`valid, t`parked, t`history
    {
      Timer(t.serial, t.interval, t.expire, t.count, t.started, t.paused, t.pauseTick, t.valid, t.parked, t.history)
    }

    static ghost function Keys(q: seq<TBase>): (ks: seq<Key>)
      ensures |ks| == |q| && forall i :: 0 <= i < |q| ==> ks[i] == q[i].key
    {
      seq(|q|, i requires 0 <= i < |q| => q[i].key)
    }

    ghost function Polled(): Current
      reads this`polled, this`phase, this`live, this`timerMap
      reads live`expire, live`count, live`started, live`paused, live`pauseTick, live`valid, live`parked, live`history
      requires Closed()
    {
      if polled == null then Nobody else Current(polled.key, Record(polled), phase)
    }

    ghost function Listed(): map<Key, Timer>
      reads this`live, this`timerMap, this`polled
      reads live`expire, live`count, live`started, live`paused, live`pauseTick, live`valid, live`parked, live`history
      requires Closed()
    {
      map k | k in timerMap && timerMap[k] != polled :: Record(timerMap[k])
    }

    /** The manager as its users see it. */
    ghost function View(): State
      reads this, lists, live
      requires Fixed() && Closed()
    {
      State(jiffies, Listed(), Keys(running.nodes), Polled(), log, totals, false)
    }

    /** Between any two operations: a timer that is not being polled is mapped from its key and in exactly one
        list, the one its back-pointer names. It is the suspended list if it is paused, the running list if its
        tick has passed, and otherwise the slot for its block of ticks in a gear that has this block ahead. */
    lemma InItsPlace(t: TBase)
      requires Valid() && t in live && t != polled
      ensures t.key in timerMap && timerMap[t.key] == t
      ensures t.list != null && t.list in lists && forall l :: l in lists ==> (t in l.nodes <==> l == t.list)
      ensures t.list == suspended <==> t.paused
      ensures t.list == running <==> !t.paused && t.expire < jiffies
      ensures !t.paused && t.expire >= jiffies ==>
        exists g: nat :: g < 5 && InSlot(t, g, t.expire / Width(g))
    {
      AtRest(t);
      hide Inv, View, Listed, Polled, CursorAt;
      ListsApart(t.list, lists, live, Loose());
      if !t.paused && t.expire >= jiffies {
        assert OnWheel(t) && InPlace(t, jiffies, 5);
        assert InSlot(t, t.list.gear, t.expire / Width(t.list.gear));
      }
    }

    lemma AtRest(t: TBase)
      requires Valid() && t in live && t != polled
      ensures t.valid && t.parked == t.paused
    {
      hide Core, OrderlyScript, Linked, Wheel, Sorted;
      assert Listed()[t.key] == Record(t);
    }

    /** The timer is in gear g, in the slot for the given block, and the block is one of those in view. */
    ghost predicate InSlot(t: TBase, g: nat, block: int)
      requires g < 5 && |gears| == 5 && 0 <= jiffies
      reads this, gears, t
    {
      var size := Size(g);
      && HandedDown(g, jiffies) <= block < HandedDown(g, jiffies) + size == HandedDown(g, jiffies) + |gears[g].timerVec|
      && t.list == gears[g].timerVec[block % size]
    }

    /** The timer being polled is in no list, and the cursor of each gear is at its first block ahead. */
    lemma CursorsInPlace(g: nat)
      requires Valid() && g < 5
      ensures |gears| == 5 && 0 <= gears[g].curMoveDst <= Size(g)
      ensures gears[g].curMoveDst % Size(g) == HandedDown(g, jiffies) % Size(g)
      ensures polled != null ==> polled.list == null && forall l :: l in lists ==> polled !in l.nodes
    {
      hide Inv, View, Listed, Polled, InWindow;
      if polled != null { ListsApart(running, lists, live, Loose()); }
    }

    // ----- ticks

    lemma InReach()
      requires Valid() && polled == null
      ensures Ticking()
    {
      hide InWindow, HandedAt, CursorAt;
      forall t | t in live && OnWheel(t) ensures jiffies <= t.expire < jiffies + HORIZON {
        assert t.key in Listed() && Listed()[t.key] == Record(t);
        assert Sound(Record(t), jiffies);
      }
    }

    /** Turning the wheel by one tick, in terms of lists. */
    method Turn() returns (ghost moved: seq<TBase>)
      requires Ticking() && jiffies + 1 < S63 && Wheel(jiffies, 5)
      modifies this`jiffies, gears`curMoveDst, lists, live`list, live`next, live`prev
      ensures jiffies == old(jiffies) + 1 && Linked(lists, live, {}) && Wheel(jiffies, 5)
      ensures running.nodes == old(running.nodes) + moved && suspended.nodes == old(suspended.nodes)
      ensures forall t :: t in live ==> (t in moved <==> old(OnWheel(t)) && t.expire == old(jiffies))
      ensures forall t :: t in live && t in moved ==> t.list == running
      ensures forall t :: t in live && t !in moved ==> if old(OnWheel(t)) then OnWheel(t) else t.list == old(t.list)
    {
      hide Wheel, Linked;
      GearFacts(0);
      gears[0].CheckHighGear(this);
      jiffies := jiffies + 1;
      moved := gears[0].Update(this);
    }

    /** The wheel holds exactly the timers that are neither parked nor overdue. */
    lemma WaitingOnWheel()
      requires Heap() && polled == null
      ensures forall t :: t in live ==> (OnWheel(t) <==> !t.parked && t.expire >= jiffies)
    {
    }

    /** The keys of a list of timers that holds exactly those expiring at tick j that are not parked. */
    lemma DueKeys(moved: seq<TBase>, j: int)
      requires Mapped(null) && polled == null && forall t :: t in moved ==> t in live
      requires forall t :: t in live ==> (t in moved <==> !t.parked && t.expire == j)
      requires forall i, i' :: 0 <= i < i' < |moved| ==> moved[i] != moved[i']
      ensures Distinct(Keys(moved))
      ensures forall k :: k in Keys(moved) <==> k in Listed() && !Listed()[k].parked && Listed()[k].expire == j
    {
      forall k | k in Listed() && !Listed()[k].parked && Listed()[k].expire == j ensures k in Keys(moved) {
        assert timerMap[k] in moved;
        var i :| 0 <= i < |moved| && moved[i] == timerMap[k];
        assert Keys(moved)[i] == k;
      }
      forall k | k in Keys(moved) ensures k in Listed() && !Listed()[k].parked && Listed()[k].expire == j {
        var i :| 0 <= i < |moved| && Keys(moved)[i] == k;
        assert moved[i] in moved;
      }
      forall i, i' | 0 <= i < i' < |moved| ensures Keys(moved)[i] != Keys(moved)[i'] {
        assert moved[i] in live && moved[i'] in live;
      }
    }

    lemma RunningTail(before: seq<TBase>, moved: seq<TBase>)
      requires Linked(lists, live, {}) && running in lists && running.nodes == before + moved
      ensures forall i, j :: 0 <= i < j < |moved| ==> moved[i] != moved[j]
      ensures forall t :: t in moved ==> t in live
      ensures Keys(running.nodes) == Keys(before) + Keys(moved)
    {
      forall i | 0 <= i < |moved| ensures moved[i] == running.nodes[|before| + i] { }
    }

    /** A tick in terms of the lists of the manager. */
    method TickHeap() returns (ghost moved: seq<TBase>)
      requires Heap() && Ticking() && polled == null && jiffies + 1 < S63
      modifies this`jiffies, gears`curMoveDst, lists, live`list, live`next, live`prev
      ensures Heap() && Linked(lists, live, {}) && running in lists && jiffies == old(jiffies) + 1
      ensures running.nodes == old(running.nodes) + moved
      ensures forall t :: t in live ==> (t in moved <==> !t.parked && t.expire == jiffies - 1)
      ensures Listed() == old(Listed()) && Polled() == old(Polled())
    {
      hide OrderlyScript, Linked, Wheel, Listed, Polled, Record, Sorted, Numbered, Mapped;
      WaitingOnWheel();
      moved := Turn();
      SortedTurned(moved);
    }

    /** A tick in terms of the abstract state. */
    method TickView() returns (ghost order: seq<Key>)
      requires Heap() && Ticking() && polled == null && jiffies + 1 < S63
      modifies this`jiffies, gears`curMoveDst, lists, live`list, live`next, live`prev
      ensures Heap() && TimerSpec.Tick(old(View()), View(), order)
    {
      hide OrderlyScript, Linked, Wheel, Listed, Polled, Record, Sorted, Numbered, Fixed;
      ghost var before := running.nodes;
      ghost var moved := TickHeap();
      order := Keys(moved);
      RunningTail(before, moved);
      DueKeys(moved, jiffies - 1);
    }

    /** One tick of the wheel. */
    method Tick() returns (ghost order: seq<Key>)
      requires Valid() && polled == null && jiffies + 1 < S63
      modifies this`jiffies, gears`curMoveDst, lists, live`list, live`next, live`prev
      ensures Valid() && polled == null && TimerSpec.Tick(old(View()), View(), order)
    {
      hide OrderlyScript, Linked, Wheel, Sorted, Inv, TimerSpec.Tick;
      InReach();
      order := TickView();
      TickKeepsInv(old(View()), View(), order);
    }

    // ----- commands

    function FindTimerBase(key: Key): TBase?
      reads this`timerMap
    {
      if key in timerMap then timerMap[key] else null
    }

    twostate predicate SameLists(timers: set<TBase>)
      reads lists, gears, timers
    {
      && (forall l :: l in lists ==> unchanged(l)) && (forall g :: g in gears ==> unchanged(g))
      && (forall t :: t in timers ==> unchanged(t))
    }

    twostate lemma EnrolledLists(new base: TBase)
      requires old(Heap()) && SameLists(old(live)) && jiffies == old(jiffies) && polled == old(polled)
      requires live == old(live) + {base} && base !in old(live) && base.list == null
      ensures Linked(lists, live, Loose() + {base}) && Wheel(jiffies, 5)
    {
      hide InWindow, HandedAt, CursorAt;
      forall l | l in lists ensures l.Valid() {
        assert old(l.Valid());
        forall i | 0 <= i < |l.nodes| ensures unchanged(l.nodes[i]) {
          assert l.nodes[i] in old(l.nodes);
        }
      }
      forall t | t in live && OnWheel(t) ensures InPlace(t, jiffies, 5) {
        assert unchanged(t);
      }
      forall g | 0 <= g < 5 ensures gears[g].curMoveDst == old(gears[g].curMoveDst) {
        assert gears[g] in gears;
      }
    }

    twostate lemma EnrolledSorted(new base: TBase)
      requires old(Heap()) && SameLists(old(live)) && jiffies == old(jiffies) && polled == old(polled)
      requires live == old(live) + {base} && base !in old(live)
      ensures Sorted(base)
    {
      hide OrderlyScript, Linked, Wheel, Mapped, Numbered;
    }

    twostate lemma EnrolledMap(new base: TBase)
      requires old(Heap()) && SameLists(old(live)) && polled == old(polled)
      requires live == old(live) + {base} && base !in old(live) && base != polled && phase == old(phase)
      requires base.key !in old(timerMap) && timerMap == old(timerMap)[base.key := base]
      requires !base.polling
      ensures Mapped(null) && Listed() == old(Listed())[base.key := Record(base)] && Polled() == old(Polled())
    {
      hide OrderlyScript, Linked, Wheel, Sorted, Fixed;
    }

    /** A new timer, on no list yet, takes its key. */
    method Enroll(base: TBase)
      requires Heap() && base.key !in timerMap && base !in live && base != polled
      requires base.list == null && !base.polling && 0 <= base.expire && base.serial == issued
      modifies this`timerMap, this`issued, this`live, this`totals, this`made
      ensures live == old(live) + {base} && timerMap == old(timerMap)[base.key := base]
      ensures totals == old(totals) + [base.count] && Numbered() && made == old(made) + [base]
      ensures Linked(lists, live, Loose() + {base}) && Wheel(jiffies, 5) && Sorted(base)
      ensures Mapped(null) && Closed()
      ensures Listed() == old(Listed())[base.key := Record(base)] && Polled() == old(Polled())
    {
      hide OrderlyScript, Linked, Wheel, Fixed, Sorted, Mapped, Listed, Polled;
      timerMap := timerMap[base.key := base];
      issued := issued + 1;
      totals, made := totals + [base.count], made + [base];
      live := live + {base};
      EnrolledLists(base);
      EnrolledMap(base);
      EnrolledSorted(base);
    }

    /** Schedules a timer that is on no list: all timers are in place again. */
    method File(base: TBase)
      requires Fixed() && 0 <= jiffies < S63 && Linked(lists, live, Loose() + {base}) && Wheel(jiffies, 5)
      requires Sorted(base) && base in live && base != polled && !base.parked && 0 <= base.expire < jiffies + HORIZON
      requires Closed()
      modifies lists, live`list, live`next, live`prev
      ensures Linked(lists, live, Loose()) && Wheel(jiffies, 5) && Sorted(null)
      ensures Listed() == old(Listed()) && Polled() == old(Polled())
      ensures running.nodes == old(running.nodes) + if base.expire < jiffies then [base] else []
      ensures Keys(running.nodes) == old(Keys(running.nodes)) + if base.expire < jiffies then [base.key] else []
    {
      hide Wheel, OrderlyScript, Linked, FindTimerList, Listed, Polled;
      Schedule(base, 5, Loose() + {base});
      assert Loose() + {base} - {base} == Loose();
    }

    lemma NewRecord(t: TBase)
      ensures Record(t) == Timer(t.serial, t.interval, t.expire, t.count, t.started, t.paused,
        t.pauseTick, t.valid, t.parked, t.history)
    {
    }

    /** A new timer is made, filed on the wheel and mapped. */
    method AddTimer(key: Key, count: int, interval: int, expire: int, ghost history: History)
      requires Heap() && key !in timerMap && jiffies <= expire < jiffies + HORIZON
      modifies this`timerMap, this`issued, this`live, this`totals, this`made, lists, live`list, live`next, live`prev
      ensures Heap() && old(live) <= live && fresh(live - old(live)) && old(made) <= made
      ensures totals == old(totals) + [count]
      ensures Listed() == old(Listed())[key :=
        Timer(|old(totals)|, interval, expire, count, false, false, 0, true, false, history)]
      ensures Polled() == old(Polled()) && running.nodes == old(running.nodes)
    {
      hide Wheel, OrderlyScript, Linked, Mapped, Fixed, Listed, Polled, Sorted, Numbered;
      IssuedSoFar();
      var base := new TBase(key, count, interval, issued, history);
      base.expire := expire;
      NewRecord(base);
      Install(base);
    }

    method Install(base: TBase)
      requires Heap() && base.key !in timerMap && base !in live && base != polled
      requires base.list == null && !base.polling && !base.parked && base.serial == issued
      requires jiffies <= base.expire < jiffies + HORIZON
      modifies this`timerMap, this`issued, this`live, this`totals, this`made
      modifies lists, base`list, base`next, base`prev, live`list, live`next, live`prev
      ensures Heap() && live == old(live) + {base} && made == old(made) + [base]
      ensures totals == old(totals) + [base.count] && Record(base) == old(Record(base))
      ensures Listed() == old(Listed())[base.key := Record(base)]
      ensures Polled() == old(Polled()) && running.nodes == old(running.nodes)
    {
      hide Wheel, OrderlyScript, Linked, Mapped, Fixed, Listed, Polled, Sorted, Numbered;
      Enroll(base);
      File(base);
    }

    lemma IssuedSoFar()
      requires Numbered()
      ensures issued == |totals|
    {
    }

    lemma StartView(key: Key)
      requires Heap()
      ensures Known(View(), key) <==> key in timerMap
      ensures View().timers == Listed() && View().totals == totals
    {
      hide Wheel, OrderlyScript, Linked, Sorted, Numbered;
    }

    method StartTimer(key: Key, delay: int, count: int, interval: int)
      requires Heap() && Startable(delay, interval)
      modifies this`timerMap, this`issued, this`live, this`totals, this`made, lists, live`list, live`next, live`prev
      ensures Heap() && View() == TimerSpec.StartTimer(old(View()), key, delay, count, interval)
      ensures polled == old(polled) && old(live) <= live && fresh(live - old(live)) && old(made) <= made
    {
      hide Wheel, OrderlyScript, Linked, Sorted, Mapped, Numbered, Listed;
      StartView(key);
      var base := FindTimerBase(key);
      if base != null {
        return;
      }
      var every := if interval < MIN_INTERVAL then MIN_INTERVAL else interval;
      var wait := if 0 < delay < MIN_INTERVAL then MIN_INTERVAL else delay;
      AddTimer(key, count, every / JIFFIES_INTERVAL, jiffies + wait / JIFFIES_INTERVAL,
               History(jiffies, DelayTicks(delay), 0, 0, 0));
    }

    /** No other listed timer has the key of this one. */
    ghost predicate Unique(base: TBase)
      reads this`live, this`polled
    {
      forall t :: t in live && t != polled && t.key == base.key ==> t == base
    }

    lemma SortedBut(base: TBase)
      requires Sorted(null)
      ensures Sorted(base)
    {
    }

    /** Takes a timer off the list its back-pointer names. */
    method Unlist(base: TBase)
      requires Fixed() && 0 <= jiffies && Linked(lists, live, Loose()) && Wheel(jiffies, 5) && Sorted(base)
      requires base in live && base != polled && Unique(base) && Closed()
      modifies lists, live`list, live`next, live`prev
      ensures Listed() == old(Listed()) && Polled() == old(Polled())
      ensures Linked(lists, live, Loose() + {base}) && Wheel(jiffies, 5) && Sorted(base)
      ensures Keys(running.nodes) == Without(old(Keys(running.nodes)), base.key)
      ensures old(base.list) != running ==> running.nodes == old(running.nodes)
      ensures suspended in lists
    {
      hide Wheel, OrderlyScript, Linked, Listed, Polled;
      ghost var i := Position(base);
      KeysWithout(base, i);
      Take(base.list, base, i, lists, live, Loose());
      WheelKept();
    }

    lemma Position(base: TBase) returns (i: nat)
      requires Fixed() && Linked(lists, live, Loose()) && base in live && base != polled
      ensures base.list != null && base.list in lists && running in lists
      ensures i < |base.list.nodes| && base.list.nodes[i] == base
    {
      i :| 0 <= i < |base.list.nodes| && base.list.nodes[i] == base;
    }

    lemma KeysWithout(base: TBase, i: nat)
      requires Fixed() && Linked(lists, live, Loose()) && Unique(base) && base in live && base != polled
      requires base.list != null && i < |base.list.nodes| && base.list.nodes[i] == base
      ensures Without(Keys(running.nodes), base.key)
              == if base.list == running then Keys(running.nodes[..i] + running.nodes[i + 1..]) else Keys(running.nodes)
    {
      OnRunning(base);
      hide OrderlyScript, Linked, Fixed, Unique, Without, Keys;
      if base.list == running {
        assert forall j :: 0 <= j < |running.nodes| && j != i ==> running.nodes[j] != running.nodes[i];
        KeysBut(running.nodes, i);
      } else {
        WithoutAbsent(Keys(running.nodes), base.key);
      }
    }

    static lemma KeysBut(q: seq<TBase>, i: nat)
      requires i < |q| && forall j :: 0 <= j < |q| && j != i ==> Keys(q)[j] != q[i].key
      ensures Without(Keys(q), q[i].key) == Keys(q[..i] + q[i + 1..])
    {
      hide Without;
      WithoutIndex(Keys(q), i);
      assert Keys(q[..i] + q[i + 1..]) == Keys(q)[..i] + Keys(q)[i + 1..];
    }

    /** Nobody else on the running list has this key. */
    lemma OnRunning(base: TBase)
      requires Fixed() && Linked(lists, live, Loose()) && Unique(base) && base in live && base != polled
      ensures forall j, k :: 0 <= j < k < |running.nodes| ==> running.nodes[j] != running.nodes[k]
      ensures forall j :: 0 <= j < |running.nodes| ==>
        running.nodes[j].list == running && (running.nodes[j] != base ==> Keys(running.nodes)[j] != base.key)
    {
      assert running in lists && running.Valid();
      forall j | 0 <= j < |running.nodes| ensures running.nodes[j].list == running && running.nodes[j] in live { }
    }

    // ----- the handlers of a command

    /** A timer of the manager, by its key. */
    lemma ListedAs(base: TBase)
      requires Heap() && Keyed(base)
      ensures Closed() && Unique(base) && base in live
        && Reached(View(), base.key) == (base != polled || phase == Polling)
      ensures base == polled && base.valid ==> phase == Polling && base.polling
      ensures base != polled ==> !base.polling && base.key in View().timers && View().timers[base.key] == Record(base)
      ensures base == polled ==> base.key !in View().timers && View().current == Current(base.key, Record(base), phase)
      ensures Reached(View(), base.key) ==> RecordOf(View(), base.key) == Record(base)
      ensures base.serial < |made| && made[base.serial] == base
    {
      hide OrderlyScript, Linked, Wheel, Sorted;
    }

    /** Whoever is listed with the serial number of a timer made before is that timer. */
    lemma SameBase(base: TBase, key: Key)
      requires Heap() && key in View().timers && View().timers[key].serial == base.serial
      requires base.serial < |made| && made[base.serial] == base
      ensures Keyed(base) && base.key == key && base in live && base != polled && Record(base) == View().timers[key]
    {
      hide OrderlyScript, Linked, Wheel, Sorted;
    }

    twostate lemma Rerecorded(base: TBase)
      requires old(Closed()) && live == old(live) && timerMap == old(timerMap) && polled == old(polled) && Keyed(base)
      requires forall t :: t in live && t != base ==> unchanged(t)
      ensures Closed()
      ensures Listed() == if base != polled then old(Listed())[base.key := Record(base)] else old(Listed())
      ensures base != polled && phase == old(phase) ==> Polled() == old(Polled())
    {
      forall k | k in timerMap && k != base.key ensures unchanged(timerMap[k]) { }
    }

    method ForceEnd(base: TBase, ghost c: Command)
      requires Heap() && Keyed(base) && base.valid && c.Kill? && c.key == base.key && Acts(View(), c)
      modifies base`valid, this`log, this`phase
      ensures Heap() && View() == Handler(old(View()), c)
      ensures !base.valid && (base == polled ==> phase == Ending)
    {
      hide Fixed, OrderlyScript, Linked, Wheel, Sorted, Listed;
      ListedAs(base);
      base.valid := false;
      log := log + [Event(base.serial, base.key, OnEnd(false))];
      if base == polled { phase := Ending; }
      Rerecorded(base);
    }

    method DoPause(base: TBase, ghost c: Command)
      requires Heap() && Keyed(base) && base.valid && c.Pause? && c.key == base.key && Acts(View(), c)
      modifies base`paused, base`pauseTick, this`log
      ensures Heap() && View() == Handler(old(View()), c) && base.valid
    {
      hide Fixed, OrderlyScript, Linked, Wheel, Sorted, Listed, Mapped;
      ListedAs(base);
      base.pauseTick := jiffies;
      base.paused := true;
      log := log + [Event(base.serial, base.key, OnPause)];
      Rerecorded(base);
    }

    lemma OffWheel(base: TBase)
      requires Heap() && base in live && (base == polled || base.parked)
      ensures !OnWheel(base) && (base != polled ==> base.list == suspended != running)
    {
    }

    method DoResume(base: TBase, ghost c: Command)
      requires Heap() && Keyed(base) && base.valid && (base == polled || base.parked)
      requires c.Resume? && c.key == base.key && Acts(View(), c)
      requires 0 <= base.pauseTick <= jiffies && 0 <= base.expire < base.pauseTick + HORIZON
      modifies base`paused, base`expire, base`history, this`log
      ensures Heap() && View() == Handler(old(View()), c) && base.valid
    {
      hide Fixed, OrderlyScript, Linked, Wheel, Sorted, Listed, Mapped;
      ListedAs(base);
      Shift(base);
      log := log + [Event(base.serial, base.key, OnResume)];
    }

    method Shift(base: TBase)
      requires Heap() && Keyed(base) && (base == polled || base.parked)
      requires 0 <= base.pauseTick <= jiffies && 0 <= base.expire < base.pauseTick + HORIZON
      modifies base`paused, base`expire, base`history
      ensures Heap() && Record(base) == Resumed(old(Record(base)), jiffies)
      ensures Listed() == if base != polled then old(Listed())[base.key := Record(base)] else old(Listed())
      ensures base != polled ==> Polled() == old(Polled())
    {
      hide Wheel, Fixed, OrderlyScript, Linked, Listed, Polled, Mapped, Numbered, Sorted;
      OffWheel(base);
      base.history := base.history.(parkedFor := base.history.parkedFor + (jiffies - base.pauseTick));
      base.expire := (jiffies + base.expire - base.pauseTick) % U64;
      base.paused := false;
      Rerecorded(base);
      OffSideChange(base);
    }

    // ----- what a command does when its handler has returned

    /** A timer that is on no list is unmapped and given back. */
    method Del(base: TBase)
      requires Fixed() && 0 <= jiffies && Linked(lists, live, Loose() + {base}) && Wheel(jiffies, 5)
      requires Mapped(base) && Sorted(base) && base in live && base != polled && Numbered()
      modifies this`timerMap, this`live
      ensures live == old(live) - {base}
      ensures Linked(lists, live, Loose()) && Wheel(jiffies, 5)
      ensures Mapped(null) && Sorted(null) && Numbered()
      ensures Polled() == old(Polled())
      ensures Listed() == if base.key in old(timerMap) && old(timerMap)[base.key] == base
                          then old(Listed()) - {base.key} else old(Listed())
    {
      hide InWindow, HandedAt, CursorAt, OrderlyScript, Linked, Mapped, Listed, Polled;
      ghost var before := live;
      if base.key in timerMap && timerMap[base.key] == base {
        timerMap := timerMap - {base.key};
      }
      live := live - {base};
      DroppedLists(base, before);
      DroppedMap(base);
    }

    twostate lemma DroppedMap(base: TBase)
      requires old(Mapped(base)) && base in old(live) && base != polled && polled == old(polled) && phase == old(phase)
      requires live == old(live) - {base} && SameLists(live)
      requires timerMap == if base.key in old(timerMap) && old(timerMap)[base.key] == base
                           then old(timerMap) - {base.key} else old(timerMap)
      ensures Mapped(null) && Polled() == old(Polled())
      ensures Listed() == if base.key in old(timerMap) && old(timerMap)[base.key] == base
                          then old(Listed()) - {base.key} else old(Listed())
    {
      forall k | k in timerMap ensures timerMap[k] in live && unchanged(timerMap[k]) {
        assert old(timerMap)[k] == timerMap[k];
      }
    }

    lemma DroppedLists(base: TBase, before: set<TBase>)
      requires Fixed() && 0 <= jiffies && base in before && live == before - {base} && base != polled
      requires Linked(lists, before, Loose() + {base})
      ensures Linked(lists, live, Loose())
    {
      ListsApart(running, lists, before, Loose() + {base});
      forall l, t | l in lists && t in l.nodes ensures t in live {
        var i :| 0 <= i < |l.nodes| && l.nodes[i] == t;
      }
    }

    /** The timer being polled only loses its key; the drain loop will give it back. */
    method RemoveTimerBase(base: TBase)
      requires Heap() && polled == base && phase == Ending
      modifies this`timerMap, this`phase
      ensures Heap() && View() == old(View()).(current := old(View()).current.(phase := Killed))
    {
      hide Fixed, OrderlyScript, Linked, Wheel, Sorted;
      if base.key in timerMap && timerMap[base.key] == base {
        timerMap := timerMap - {base.key};
      }
      phase := Killed;
    }

    method Discard(base: TBase)
      requires Heap() && Keyed(base) && base != polled
      modifies this`timerMap, this`live, lists, live`list, live`next, live`prev
      ensures Heap() && live == old(live) - {base} && View() == Removed(old(View()), base.key)
    {
      hide Fixed, Wheel, OrderlyScript, Linked, Listed, Polled, Sorted, Unique, Numbered;
      ListedAs(base);
      SortedBut(base);
      Unlist(base);
      Del(base);
    }

    /** Puts a timer that is on no list on the suspended list. */
    method PutAway(base: TBase)
      requires Fixed() && 0 <= jiffies && Linked(lists, live, Loose() + {base}) && Wheel(jiffies, 5)
      requires Sorted(base) && base in live && base != polled && Closed() && Keyed(base)
      modifies suspended, base`parked, live`list, live`next, live`prev
      ensures Linked(lists, live, Loose()) && Wheel(jiffies, 5) && Sorted(null) && running.nodes == old(running.nodes)
      ensures Record(base) == old(Record(base)).(parked := true)
      ensures Listed() == old(Listed())[base.key := Record(base)] && Polled() == old(Polled())
    {
      hide Wheel, Sorted, OrderlyScript, Linked, Listed, Polled, Record;
      SetParked(base, true);
      ToSuspended(base);
    }

    method ToSuspended(base: TBase)
      requires Fixed() && 0 <= jiffies && Linked(lists, live, Loose() + {base}) && Wheel(jiffies, 5)
      requires Sorted(base) && base in live && base != polled && base.parked
      modifies suspended, live`list, live`next, live`prev
      ensures Linked(lists, live, Loose()) && Wheel(jiffies, 5) && Sorted(null) && running.nodes == old(running.nodes)
    {
      hide Wheel, Linked;
      assert Loose() + {base} - {base} == Loose();
      Append(suspended, base, lists, live, Loose() + {base});
      WheelKept();
    }

    method SetParked(base: TBase, ghost b: bool)
      requires Closed() && Keyed(base) && base != polled && Sorted(base) && base in live
      modifies base`parked
      ensures Sorted(base) && Record(base) == old(Record(base)).(parked := b) && base.parked == b
      ensures Listed() == old(Listed())[base.key := Record(base)] && Polled() == old(Polled())
    {
      hide Listed, Polled;
      base.parked := b;
      Rerecorded(base);
    }

    method Suspend(base: TBase)
      requires Heap() && Keyed(base) && base != polled
      modifies lists, base`parked, live`list, live`next, live`prev
      ensures Heap() && base.key in old(View()).timers && View() == Park(old(View()), base.key)
    {
      hide Fixed, Wheel, OrderlyScript, Linked, Listed, Polled, Sorted, Unique, Mapped, Numbered;
      ListedAs(base);
      SortedBut(base);
      Unlist(base);
      PutAway(base);
    }

    method Restart(base: TBase)
      requires Heap() && Keyed(base) && base != polled && 0 <= base.expire < jiffies + HORIZON
      modifies lists, base`parked, live`list, live`next, live`prev
      ensures Heap() && base.key in old(View()).timers && View() == TimerSpec.Refile(old(View()), base.key)
    {
      hide Fixed, Wheel, OrderlyScript, Linked, Listed, Polled, Sorted, Unique, Mapped, Numbered;
      ListedAs(base);
      TakeOut(base);
      File(base);
    }

    /** The timer leaves its list to be filed. */
    method TakeOut(base: TBase)
      requires Heap() && Keyed(base) && base in live && base != polled && Unique(base)
      modifies lists, base`parked, live`list, live`next, live`prev
      ensures Fixed() && Linked(lists, live, Loose() + {base}) && Wheel(jiffies, 5) && Sorted(base) && Closed()
      ensures Record(base) == old(Record(base)).(parked := false) && !base.parked
      ensures Listed() == old(Listed())[base.key := Record(base)] && Polled() == old(Polled())
      ensures Keys(running.nodes) == Without(old(Keys(running.nodes)), base.key)
    {
      hide Fixed, Wheel, OrderlyScript, Linked, Listed, Polled, Sorted, Unique, Mapped, Numbered;
      SortedBut(base);
      Unlist(base);
      SetParked(base, false);
    }

    // ----- commands

    /** What the spec says of the command c in state s, whose handler's commands led from s1 to s2. */
    lemma CommandReturns(s: State, c: Command, busy: set<Key>)
      requires Ready(s, busy) && Orderly(s, c, busy) && !c.Start? && Acts(s, c)
      ensures AllOrderly(Handler(s, c), c.inner, Inside(s, c, busy)) && Ready(Handler(s, c), Inside(s, c, busy))
      ensures var s2 := ExecAll(Handler(s, c), c.inner);
        && Ready(s2, Inside(s, c, busy)) && Exec(s, c) == Return(s, c, s2)
        && (c.key in s.timers ==> c.key in s2.timers && s2.timers[c.key] == Handler(s, c).timers[c.key])
        && (c.key !in s.timers && c.Kill? ==> s2.current == Handler(s, c).current)
    {
      hide Core, Calm;
      HandlerReady(s, c, busy);
      ExecAllKeeps(Handler(s, c), c.inner, Inside(s, c, busy));
    }

    /** The handler of c has been called, which led from s to the present state; its commands are carried out. */
    method RunHandler(base: TBase, inner: seq<Command>, ghost c: Command, ghost s: State, ghost busy: set<Key>)
      requires Ready(s, busy) && Orderly(s, c, busy) && !c.Start? && Acts(s, c) && inner == c.inner
      requires Heap() && View() == Handler(s, c) && Keyed(base) && base.key == c.key
        && (c.key in s.timers <==> base != polled)
      modifies this`timerMap, this`issued, this`live, this`totals, this`made, this`log, this`phase, lists
      modifies live`valid, live`paused, live`pauseTick, live`parked, live`expire, live`history,
        live`list, live`next, live`prev
      ensures Heap() && View() == ExecAll(Handler(s, c), inner)
      ensures polled == old(polled) && fresh(live - old(live)) && old(made) <= made && base in live
      ensures base != polled ==> Keyed(base) && Record(base) == old(Record(base))
      ensures base == polled && c.Kill? ==> phase == Ending
      ensures Ready(View(), Inside(s, c, busy))
      decreases inner, 1
    {
      hide OrderlyScript, Linked, Wheel, Sorted, Ready, Exec, ExecAll, Mapped;
      ListedAs(base);
      CommandReturns(s, c, busy);
      ExecuteAll(inner, Inside(s, c, busy));
      if base != polled { SameBase(base, c.key); }
    }

    method KillTimer(key: Key, inner: seq<Command>, ghost busy: set<Key>)
      requires Heap() && Ready(View(), busy) && Orderly(View(), Kill(key, inner), busy)
      modifies this`timerMap, this`issued, this`live, this`totals, this`made, this`log, this`phase, lists
      modifies live`valid, live`paused, live`pauseTick, live`parked, live`expire, live`history,
        live`list, live`next, live`prev
      ensures Heap() && View() == Exec(old(View()), Kill(key, inner))
      ensures polled == old(polled) && fresh(live - old(live)) && old(made) <= made
      decreases inner, 4
    {
      hide OrderlyScript, Linked, Wheel, Sorted, Ready, Mapped, Numbered, Exec;
      var base := FindTimerBase(key);
      if base == null || !base.valid {
        NothingToDo(Kill(key, inner));
        return;
      }
      WillAct(base, Kill(key, inner));
      KillBase(base, inner, Kill(key, inner), busy);
    }

    method KillBase(base: TBase, inner: seq<Command>, ghost c: Command, ghost busy: set<Key>)
      requires Heap() && Ready(View(), busy) && Orderly(View(), c, busy)
        && c.Kill? && Acts(View(), c) && inner == c.inner
      requires Keyed(base) && base in live && base.valid && base.key == c.key
        && (c.key in View().timers <==> base != polled)
      requires base.polling <==> base == polled
      modifies this`timerMap, this`issued, this`live, this`totals, this`made, this`log, this`phase, lists
      modifies live`valid, live`paused, live`pauseTick, live`parked, live`expire, live`history,
        live`list, live`next, live`prev
      ensures Heap() && View() == Exec(old(View()), c)
      ensures polled == old(polled) && fresh(live - old(live)) && old(made) <= made
      decreases inner, 3
    {
      hide Fixed, Closed, Listed, OrderlyScript, Linked, Wheel, Sorted, Mapped, Numbered;
      hide Ready, Handler, ExecAll, Return, Exec, Acts;
      ghost var s := View();
      ExecReturns(s, c);
      TellEnd(base, inner, c, busy);
      EndKill(base, c, s);
    }

    method TellEnd(base: TBase, inner: seq<Command>, ghost c: Command, ghost busy: set<Key>)
      requires Heap() && Ready(View(), busy) && Orderly(View(), c, busy)
        && c.Kill? && Acts(View(), c) && inner == c.inner
      requires Keyed(base) && base in live && base.valid && base.key == c.key
        && (c.key in View().timers <==> base != polled)
      modifies this`timerMap, this`issued, this`live, this`totals, this`made, this`log, this`phase, lists
      modifies live`valid, live`paused, live`pauseTick, live`parked, live`expire, live`history,
        live`list, live`next, live`prev
      ensures Heap() && View() == ExecAll(Handler(old(View()), c), inner)
      ensures polled == old(polled) && fresh(live - old(live)) && old(made) <= made && base in live
      ensures if base != polled then Keyed(base) else phase == Ending
      decreases inner, 2
    {
      hide Fixed, Closed, Listed, OrderlyScript, Linked, Wheel, Sorted, Mapped, Numbered;
      hide Ready, Handler, ExecAll, Return, Exec, Acts;
      ghost var s := View();
      ForceEnd(base, c);
      RunHandler(base, inner, c, s, busy);
    }

    method EndKill(base: TBase, ghost c: Command, ghost s: State)
      requires Heap() && base in live && c.Kill? && Acts(s, c) && c.key == base.key
        && (c.key in s.timers <==> base != polled)
      requires if base != polled then Keyed(base) && !base.polling else base.polling && phase == Ending
      modifies this`timerMap, this`phase, this`live, lists, live`list, live`next, live`prev
      ensures Heap() && View() == Return(s, c, old(View()))
      ensures live <= old(live)
    {
      hide OrderlyScript, Linked, Wheel, Sorted, Mapped, Numbered, Listed;
      if !base.polling {
        Discard(base);
      } else {
        RemoveTimerBase(base);
      }
    }

    /** A command about a timer that is not over and would trip no assertion reaches its handler. */
    lemma WillAct(base: TBase, c: Command)
      requires Heap() && Keyed(base) && base.valid && base.key == c.key && !c.Start?
      requires (c.Pause? ==> !base.paused) && (c.Resume? ==> base.paused)
      ensures Acts(View(), c) && RecordOf(View(), c.key) == Record(base) && (c.key in View().timers <==> base != polled)
      ensures base.polling <==> base == polled
      ensures base in live
    {
      hide OrderlyScript, Linked, Wheel, Sorted;
      ListedAs(base);
    }

    lemma ExecReturns(s: State, c: Command)
      requires !c.Start? && Acts(s, c)
      ensures Exec(s, c) == Return(s, c, ExecAll(Handler(s, c), c.inner))
    {
    }

    lemma NothingToDo(c: Command)
      requires Heap() && !c.Start? && (c.key in timerMap ==> !timerMap[c.key].valid)
      ensures Exec(View(), c) == View()
    {
      hide OrderlyScript, Linked, Wheel, Sorted;
      if c.key in timerMap { ListedAs(timerMap[c.key]); }
    }

    method PauseTimer(key: Key, inner: seq<Command>, ghost busy: set<Key>)
      requires Heap() && Ready(View(), busy) && Orderly(View(), Pause(key, inner), busy)
      requires key in timerMap && timerMap[key].valid ==> !timerMap[key].paused
      modifies this`timerMap, this`issued, this`live, this`totals, this`made, this`log, this`phase, lists
      modifies live`valid, live`paused, live`pauseTick, live`parked, live`expire, live`history,
        live`list, live`next, live`prev
      ensures Heap() && View() == Exec(old(View()), Pause(key, inner))
      ensures polled == old(polled) && fresh(live - old(live)) && old(made) <= made
      decreases inner, 3
    {
      hide OrderlyScript, Linked, Wheel, Sorted, Ready, Mapped, Numbered, Exec;
      var base := FindTimerBase(key);
      if base == null || !base.valid {
        NothingToDo(Pause(key, inner));
        return;
      }
      WillAct(base, Pause(key, inner));
      PauseBase(base, inner, Pause(key, inner), busy);
    }

    method PauseBase(base: TBase, inner: seq<Command>, ghost c: Command, ghost busy: set<Key>)
      requires Heap() && Ready(View(), busy) && Orderly(View(), c, busy)
        && c.Pause? && Acts(View(), c) && inner == c.inner
      requires Keyed(base) && base in live && base.valid && base.key == c.key
        && (c.key in View().timers <==> base != polled)
      requires (base.polling <==> base == polled) && RecordOf(View(), c.key) == Record(base)
      modifies this`timerMap, this`issued, this`live, this`totals, this`made, this`log, this`phase, lists
      modifies live`valid, live`paused, live`pauseTick, live`parked, live`expire, live`history,
        live`list, live`next, live`prev
      ensures Heap() && View() == Exec(old(View()), c)
      ensures polled == old(polled) && fresh(live - old(live)) && old(made) <= made
      decreases inner, 2
    {
      hide Fixed, Closed, Listed, OrderlyScript, Linked, Wheel, Sorted, Mapped, Numbered;
      hide Ready, Handler, ExecAll, Return, Exec, Acts;
      ghost var s := View();
      ExecReturns(s, c);
      DoPause(base, c);
      RunHandler(base, inner, c, s, busy);
      assert fresh(live - old(live));
      EndPause(base, c, s);
    }

    method EndPause(base: TBase, ghost c: Command, ghost s: State)
      requires Heap() && base in live && c.Pause? && Acts(s, c) && c.key == base.key
        && (c.key in s.timers <==> base != polled)
      requires if base != polled then Keyed(base) && !base.polling && base.valid
        && base.serial == s.timers[c.key].serial else base.polling
      modifies lists, base`parked, live`list, live`next, live`prev
      ensures Heap() && View() == Return(s, c, old(View()))
    {
      hide OrderlyScript, Linked, Wheel, Sorted, Mapped, Numbered;
      if base.valid && !base.polling {
        ListedAs(base);
        Suspend(base);
      }
    }

    method ResumeTimer(key: Key, inner: seq<Command>, ghost busy: set<Key>)
      requires Heap() && Ready(View(), busy) && Orderly(View(), Resume(key, inner), busy)
      requires key in timerMap && timerMap[key].valid ==> timerMap[key].paused
      modifies this`timerMap, this`issued, this`live, this`totals, this`made, this`log, this`phase, lists
      modifies live`valid, live`paused, live`pauseTick, live`parked, live`expire, live`history,
        live`list, live`next, live`prev
      ensures Heap() && View() == Exec(old(View()), Resume(key, inner))
      ensures polled == old(polled) && fresh(live - old(live)) && old(made) <= made
      decreases inner, 3
    {
      hide OrderlyScript, Linked, Wheel, Sorted, Ready, Mapped, Numbered, Exec;
      var base := FindTimerBase(key);
      if base == null || !base.valid {
        NothingToDo(Resume(key, inner));
        return;
      }
      SoundBase(base, busy);
      WillAct(base, Resume(key, inner));
      ResumeBase(base, inner, Resume(key, inner), busy);
    }

    method ResumeBase(base: TBase, inner: seq<Command>, ghost c: Command, ghost busy: set<Key>)
      requires Heap() && Ready(View(), busy) && Orderly(View(), c, busy)
        && c.Resume? && Acts(View(), c) && inner == c.inner
      requires Keyed(base) && base in live && base.valid && base.key == c.key
        && (c.key in View().timers <==> base != polled)
      requires (base.polling <==> base == polled) && RecordOf(View(), c.key) == Record(base)
      requires (base == polled || base.parked) && base.paused && Sound(Record(base), jiffies)
      modifies this`timerMap, this`issued, this`live, this`totals, this`made, this`log, this`phase, lists
      modifies live`valid, live`paused, live`pauseTick, live`parked, live`expire, live`history,
        live`list, live`next, live`prev
      ensures Heap() && View() == Exec(old(View()), c)
      ensures polled == old(polled) && fresh(live - old(live)) && old(made) <= made
      decreases inner, 2
    {
      hide Fixed, Closed, Listed, OrderlyScript, Linked, Wheel, Sorted, Mapped, Numbered;
      hide Ready, Handler, ExecAll, Return, Exec, Acts;
      ghost var s := View();
      ExecReturns(s, c);
      DoResume(base, c);
      RunHandler(base, inner, c, s, busy);
      assert fresh(live - old(live));
      if base != polled { SoundBase(base, Inside(s, c, busy)); }
      EndResume(base, c, s);
    }

    method EndResume(base: TBase, ghost c: Command, ghost s: State)
      requires Heap() && base in live && c.Resume? && Acts(s, c) && c.key == base.key
        && (c.key in s.timers <==> base != polled)
      requires if base != polled then Keyed(base) && !base.polling && base.valid
        && base.serial == s.timers[c.key].serial else base.polling
      requires base != polled ==> 0 <= base.expire < jiffies + HORIZON
      modifies lists, base`parked, live`list, live`next, live`prev
      ensures Heap() && View() == Return(s, c, old(View()))
    {
      hide OrderlyScript, Linked, Wheel, Sorted, Mapped, Numbered;
      if base.valid && !base.polling {
        ListedAs(base);
        Restart(base);
      }
    }

    lemma SoundBase(base: TBase, busy: set<Key>)
      requires Heap() && Ready(View(), busy) && Keyed(base) && base.valid
      ensures Sound(Record(base), jiffies)
      ensures base.paused && base != polled && base.key !in busy ==> base.parked
    {
      hide OrderlyScript, Linked, Wheel, Sorted;
      ListedAs(base);
    }

    /** Carries out one command of a callback; one that would trip a debug assertion is skipped. */
    method Execute(c: Command, ghost busy: set<Key>)
      requires Heap() && Ready(View(), busy) && Orderly(View(), c, busy)
      modifies this`timerMap, this`issued, this`live, this`totals, this`made, this`log, this`phase, lists
      modifies live`valid, live`paused, live`pauseTick, live`parked, live`expire, live`history,
        live`list, live`next, live`prev
      ensures Heap() && View() == Exec(old(View()), c)
      ensures polled == old(polled) && fresh(live - old(live)) && old(made) <= made
      decreases c
    {
      hide Wheel, OrderlyScript, Linked, Sorted, Ready;
      var base := FindTimerBase(c.key);
      if base != null { ListedAs(base); }
      match c {
        case Start(key, delay, count, interval) =>
          if Startable(delay, interval) { StartTimer(key, delay, count, interval); }
        case Kill(key, inner) => KillTimer(key, inner, busy);
        case Pause(key, inner) => if base == null || !base.valid || !base.paused { PauseTimer(key, inner, busy); }
        case Resume(key, inner) => if base == null || !base.valid || base.paused { ResumeTimer(key, inner, busy); }
      }
    }

    method ExecuteAll(commands: seq<Command>, ghost busy: set<Key>)
      requires Heap() && Ready(View(), busy) && AllOrderly(View(), commands, busy)
      modifies this`timerMap, this`issued, this`live, this`totals, this`made, this`log, this`phase, lists
      modifies live`valid, live`paused, live`pauseTick, live`parked, live`expire, live`history,
        live`list, live`next, live`prev
      ensures Heap() && View() == ExecAll(old(View()), commands)
      ensures polled == old(polled) && fresh(live - old(live)) && old(made) <= made
      decreases commands, 0
    {
      hide OrderlyScript, Linked, Wheel, Sorted, Ready, Orderly;
      assert commands[0..] == commands;
      for i := 0 to |commands|
        invariant Heap() && Ready(View(), busy) && ExecAll(View(), commands[i..]) == ExecAll(old(View()), commands)
        invariant AllOrderly(View(), commands[i..], busy)
        invariant polled == old(polled) && fresh(live - old(live)) && old(made) <= made
      {
        assert commands[i..][0] == commands[i] && commands[i..][1..] == commands[i + 1..];
        ExecKeeps(View(), commands[i], busy);
        Execute(commands[i], busy);
      }
      assert commands[|commands|..] == [];
    }

    // ----- callbacks

    lemma Programmed()
      requires Fixed()
      ensures OrderlyScript(script)
    {
    }

    /** The commands of a callback of the timer being polled, or of nobody. */
    method ExecuteAllOrderly(commands: seq<Command>)
      requires Valid() && AllOrderly(View(), commands, {})
      modifies this`timerMap, this`issued, this`live, this`totals, this`made, this`log, this`phase, lists
      modifies live`valid, live`paused, live`pauseTick, live`parked, live`expire, live`history,
        live`list, live`next, live`prev
      ensures Valid() && View() == ExecAll(old(View()), commands)
      ensures polled == old(polled) && fresh(live - old(live)) && old(made) <= made
    {
      hide OrderlyScript, Linked, Wheel, Sorted, Inv, Ready;
      InvReady(View());
      ExecAllKeepsInv(View(), commands);
      ExecuteAll(commands, {});
    }

    /** The timer being polled is told something, and its user's commands are carried out. */
    method Notify(base: TBase, c: Callback)
      requires Heap() && base == polled && Loggable(View(), c)
      modifies this`timerMap, this`issued, this`live, this`totals, this`made, this`log, this`phase, lists
      modifies live`valid, live`paused, live`pauseTick, live`parked, live`expire, live`history,
        live`list, live`next, live`prev
      ensures Valid() && View() == TimerSpec.Notify(script, old(View()), c)
      ensures polled == old(polled) && fresh(live - old(live))
    {
      hide Linked, Wheel, Sorted, Inv, Loggable;
      Programmed();
      log := log + [Event(base.serial, base.key, c)];
      LogKeepsInv(old(View()), c);
      assert Calling(View());
      var commands := script(log);
      ExecuteAllOrderly(commands);
    }

    /** Between polls and outside callbacks the flags of the polled timer may lag behind its phase. */
    ghost predicate Midpoll()
      reads this, lists, gears, live
    {
      && Fixed() && 0 <= jiffies < S63 && Linked(lists, live, Loose()) && Wheel(jiffies, 5)
      && Closed() && Mapped(polled) && Sorted(null) && Numbered()
    }

    /** A change to the polled timer's own fields leaves everybody else's record alone. */
    twostate lemma Repolled()
      requires old(Closed()) && polled != null && polled == old(polled)
      requires live == old(live) && timerMap == old(timerMap)
      requires forall t :: t in live && t != polled ==> unchanged(t)
      ensures Closed() && Listed() == old(Listed()) && Polled() == Current(polled.key, Record(polled), phase)
    {
      forall k | k in timerMap && timerMap[k] != polled ensures unchanged(timerMap[k]) { }
    }

    method MarkStarted(base: TBase)
      requires Heap() && base == polled
      modifies base`started
      ensures Heap() && View() == WithCurrent(old(View()), old(View()).current.timer.(started := true))
    {
      hide OrderlyScript, Linked, Wheel, Sorted, Listed;
      base.started := true;
      Repolled();
    }

    method OnTimerStart(base: TBase, ghost s: State)
      requires Valid() && base == polled && Inv(s) && s.current.Nobody? && s.due != [] && View() == Poll(s)
      modifies this`timerMap, this`issued, this`live, this`totals, this`made, this`log, this`phase, lists, base`started
      modifies live`valid, live`paused, live`pauseTick, live`parked, live`expire, live`history,
        live`list, live`next, live`prev
      ensures Valid() && View() == Begin(script, Poll(s))
      ensures polled == old(polled) && fresh(live - old(live))
    {
      hide OrderlyScript, Linked, Wheel, Sorted, Inv, Loggable, TimerSpec.Notify, Poll, Begun, Mapped;
      Programmed();
      BeginReturns(script, s);
      if !base.started {
        FirstCall(s);
        Notify(base, OnStart);
        MarkStarted(base);
      }
    }

    method CountCall(base: TBase)
      requires Heap() && base == polled
      modifies base`history
      ensures Heap() && View() == WithCurrent(old(View()), Counted(old(View()).current.timer))
    {
      hide OrderlyScript, Linked, Wheel, Sorted, Listed;
      base.history := base.history.(fires := base.history.fires + 1);
      Repolled();
    }

    method CountDownBase(base: TBase)
      requires Heap() && base == polled
      modifies base`count
      ensures Heap() && View() == WithCurrent(old(View()), CountDown(old(View()).current.timer))
    {
      hide OrderlyScript, Linked, Wheel, Sorted, Listed;
      if base.count > 0 {
        base.count := base.count - 1;
      }
      Repolled();
    }

    method OnTimerCall(base: TBase, ghost t: Timer, ghost totals0: seq<int>)
      requires Valid() && base == polled && Begun(View(), t, totals0)
      modifies this`timerMap, this`issued, this`live, this`totals, this`made, this`log, this`phase, lists, base`count
      modifies live`valid, live`paused, live`pauseTick, live`parked, live`expire, live`history,
        live`list, live`next, live`prev
      ensures Valid() && View() == Call(script, old(View()))
      ensures polled == old(polled) && fresh(live - old(live))
    {
      hide Fixed, OrderlyScript, Linked, Wheel, Sorted, Inv, Loggable, TimerSpec.Notify, Begun;
      Programmed();
      CallReturns(script, View(), t, totals0);
      if base.valid {
        BegunLoggable(View(), t, totals0);
        CountCall(base);
        Notify(base, TimerSpec.OnTimer);
        CountDownBase(base);
      }
    }

    /** The poll's callbacks but the last are over: the timer moves on to its next expiry. */
    method StepExpire(base: TBase)
      requires Heap() && base == polled && phase != Ending
      requires 0 <= base.expire < jiffies && 0 < base.interval < HORIZON
      modifies base`polling, base`expire, base`history
      ensures Midpoll() && View() == Advance(old(View()))
      ensures !base.polling && base.valid == (phase == Polling) && Keyed(base) == (phase != Killed)
    {
      hide Wheel, OrderlyScript, Linked, Listed, Sorted, Numbered;
      NotOnWheel(base);
      base.polling := false;
      base.expire := (base.expire + base.interval) % U64;
      base.history := base.history.(periods := base.history.periods + 1);
      Repolled();
      OffSideChange(base);
    }

    lemma NotOnWheel(base: TBase)
      requires Heap() && base == polled
      ensures !OnWheel(base)
    {
    }

    method EndByItself(base: TBase)
      requires Midpoll() && base == polled && phase == Polling && base.valid && !base.polling && Keyed(base)
      modifies base`valid, this`phase
      ensures Heap() && phase == Ending && View() == Ended(old(View()))
    {
      hide OrderlyScript, Linked, Wheel, Sorted, Listed, Numbered;
      base.valid := false;
      phase := Ending;
      Repolled();
    }

    method OnTimerEnd(base: TBase, ghost t: Timer, ghost totals0: seq<int>)
      requires Valid() && base == polled && Returned(View(), t, totals0) && 0 < base.interval < HORIZON
      modifies this`timerMap, this`issued, this`live, this`totals, this`made, this`log, this`phase, lists, base`polling
      modifies live`valid, live`paused, live`pauseTick, live`parked, live`expire, live`history,
        live`list, live`next, live`prev
      ensures Midpoll() && View() == Finish(script, Advance(old(View())))
      ensures polled == old(polled) && fresh(live - old(live))
      ensures !base.polling && base.valid == (phase == Polling) && Keyed(base) == (phase != Killed)
    {
      hide Fixed, OrderlyScript, Linked, Wheel, Sorted, Inv, Loggable, Returned, Mapped;
      ReturnedFacts(View(), t, totals0);
      ghost var s := View();
      StepExpire(base);
      if base.count == 0 && base.valid {
        EndLoggable(s, t, totals0);
        LastCall(base);
      }
    }

    /** The count has run out: the timer ends by itself. */
    method LastCall(base: TBase)
      requires Midpoll() && base == polled && phase == Polling && base.valid && !base.polling && Keyed(base)
      requires Loggable(Ended(View()), OnEnd(true))
      modifies this`timerMap, this`issued, this`live, this`totals, this`made, this`log, this`phase, lists
      modifies live`valid, live`paused, live`pauseTick, live`parked, live`expire, live`history,
        live`list, live`next, live`prev
      ensures Midpoll() && View() == TimerSpec.Notify(script, Ended(old(View())), OnEnd(true))
      ensures polled == old(polled) && fresh(live - old(live))
      ensures phase == Ending && !base.valid && Keyed(base)
    {
      hide Fixed, OrderlyScript, Linked, Wheel, Sorted, Inv, Loggable, TimerSpec.Notify;
      Programmed();
      EndingStays(script, Ended(View()));
      EndByItself(base);
      Notify(base, OnEnd(true));
    }

    method OnTimer(base: TBase, ghost s: State)
      requires Midpoll() && base == polled && phase == Polling && base.valid && !base.polling && Keyed(base)
      requires Inv(s) && s.current.Nobody? && s.due != [] && View() == Poll(s)
      modifies this`timerMap, this`issued, this`live, this`totals, this`made, this`log, this`phase, lists
      modifies base`polling, base`started, base`count
      modifies live`valid, live`paused, live`pauseTick, live`parked, live`expire, live`history,
        live`list, live`next, live`prev
      ensures Midpoll() && View() == Served(script, s)
      ensures polled == old(polled) && fresh(live - old(live))
      ensures !base.polling && base.valid == (phase == Polling) && Keyed(base) == (phase != Killed)
    {
      hide Fixed, Mapped, OrderlyScript, Linked, Wheel, Sorted, Closed, Inv, Begun, Returned, Poll, Begin, Call, Finish;
      StartPolling(base, s);
      ghost var t := s.timers[s.due[0]];
      OnTimerStart(base, s);
      assert fresh(live - old(live));
      Programmed();
      BeginReturns(script, s);
      OnTimerStarted(base, t, s.totals);
    }

    method OnTimerStarted(base: TBase, ghost t: Timer, ghost totals0: seq<int>)
      requires Valid() && base == polled && Begun(View(), t, totals0) && 0 < base.interval < HORIZON
      modifies this`timerMap, this`issued, this`live, this`totals, this`made, this`log, this`phase, lists
      modifies base`polling, base`count
      modifies live`valid, live`paused, live`pauseTick, live`parked, live`expire, live`history,
        live`list, live`next, live`prev
      ensures Midpoll() && View() == Finish(script, Advance(Call(script, old(View()))))
      ensures polled == old(polled) && fresh(live - old(live))
      ensures !base.polling && base.valid == (phase == Polling) && Keyed(base) == (phase != Killed)
    {
      hide Fixed, Mapped, OrderlyScript, Linked, Wheel, Sorted, Closed, Inv, Begun, Returned, Call, Finish;
      Programmed();
      CallReturns(script, View(), t, totals0);
      OnTimerCall(base, t, totals0);
      assert fresh(live - old(live));
      OnTimerEnd(base, t, totals0);
    }

    method StartPolling(base: TBase, ghost s: State)
      requires Midpoll() && base == polled && phase == Polling && base.valid && !base.polling && Keyed(base)
      requires Inv(s) && s.current.Nobody? && s.due != [] && View() == Poll(s)
      modifies base`polling
      ensures Valid() && View() == Poll(s) && 0 < base.interval < HORIZON && s.due[0] in s.timers
    {
      hide OrderlyScript, Linked, Wheel, Sorted, Inv, Poll;
      PollKeepsInv(s);
      base.polling := true;
      PolledInterval(s);
    }

    // ----- the drain loop and the update

    lemma FirstDue()
      requires Valid() && polled == null && running.nodes != []
      ensures var t := running.nodes[0];
        && t in live && Keyed(t) && t.valid && !t.polling && !t.parked && t.list == running && running in lists
        && Keys(running.nodes)[0] == t.key && Keys(running.nodes)[1..] == Keys(running.nodes[1..])
        && t.key in Listed() && Listed()[t.key] == Record(t)
    {
      AtRest(running.nodes[0]);
    }

    /** The polled timer leaves the abstract map. */
    method SetPolled(base: TBase)
      requires polled == null && Closed() && Mapped(null) && Keyed(base) && base in live && Sorted(base)
      modifies this`polled, this`phase
      ensures Loose() == old(Loose()) + {base} && Sorted(null)
      ensures polled == base && phase == Polling && Closed() && Mapped(base)
      ensures Listed() == old(Listed()) - {base.key} && Polled() == Current(base.key, Record(base), Polling)
    {
      polled := base;
      phase := Polling;
    }

    /** Takes the first due timer off the running list. */
    method PopRunning() returns (base: TBase)
      requires Valid() && polled == null && running.nodes != []
      modifies running, live`list, live`next, live`prev
      ensures Linked(lists, live, Loose() + {base}) && Wheel(jiffies, 5) && Sorted(base)
      ensures Listed() == old(Listed()) && Mapped(null)
      ensures base == old(running.nodes[0]) && Keys(running.nodes) == old(Keys(running.nodes))[1..]
    {
      hide Wheel, OrderlyScript, Linked, Listed, Mapped, Inv, Numbered;
      FirstDue();
      base := TakeFirst(running, lists, live, {});
      assert {} + {base} == Loose() + {base};
      WheelKept();
    }

    method TakeDue() returns (base: TBase)
      requires Valid() && polled == null && running.nodes != []
      modifies running, live`list, live`next, live`prev, this`polled, this`phase
      ensures base == polled && base in live && phase == Polling && base.valid && !base.polling && Keyed(base)
      ensures Midpoll() && old(View()).due != [] && old(View()).due[0] in old(View()).timers
      ensures View() == Poll(old(View()))
    {
      hide Fixed, Wheel, OrderlyScript, Linked, Listed, Mapped, Sorted, Inv, Numbered, Record;
      FirstDue();
      base := PopRunning();
      SetPolled(base);
    }

    /** The polled timer is a live timer like any other again, but on no list yet. */
    method Release(base: TBase)
      requires Mapped(polled) && Closed() && base == polled && Sorted(null)
      requires base.valid == (phase == Polling) && !base.polling && Keyed(base) == (phase != Killed)
      modifies this`polled
      ensures polled == null && Closed() && Sorted(base) && Mapped(base) && Loose() + {base} == old(Loose())
      ensures phase == Polling ==> Mapped(null)
      ensures phase != Killed ==> base.key !in old(Listed()) && Listed() == old(Listed())[base.key := Record(base)]
      ensures phase == Killed ==> Listed() == old(Listed())
      ensures Polled() == Nobody
    {
      polled := null;
    }

    /** A paused timer is parked after its poll. */
    method ParkPolled(base: TBase)
      requires Midpoll() && base == polled && phase == Polling && base.valid && !base.polling
        && Keyed(base) && base.paused
      modifies suspended, base`parked, live`list, live`next, live`prev, this`polled
      ensures Heap() && polled == null && View() == Settle(old(View()))
    {
      hide Wheel, OrderlyScript, Linked, Listed, Mapped, Sorted;
      Release(base);
      PutAway(base);
    }

    method AdjustExpire(base: TBase, now: int)
      requires 0 <= base.expire < now + HORIZON && 0 <= now < S63 && 0 < base.interval < HORIZON
      modifies base`expire, base`history
      ensures Record(base) == Later(old(Record(base)), Missed(old(Record(base)), now))
      ensures now - old(base.expire) <= base.interval ==> base.expire == old(base.expire)
      ensures now - old(base.expire) > base.interval ==>
        now - base.interval < base.expire <= now && (base.expire - old(base.expire)) % base.interval == 0
    {
      var difference := (base.expire - now) % U64;
      var liveFor := if difference >= S63 then difference - U64 else difference;
      if liveFor < 0 && -liveFor > base.interval {
        ghost var late := now - base.expire;
        WholeSteps(late, base.interval);
        base.history := base.history.(periods := base.history.periods + -liveFor / base.interval);
        base.expire := (base.expire + -liveFor / base.interval * base.interval) % U64;
      }
    }

    method ReschedulePolled(base: TBase)
      requires Midpoll() && base == polled && phase == Polling && base.valid && !base.polling
        && Keyed(base) && !base.paused && !base.parked
      requires 0 <= base.expire < jiffies + HORIZON && 0 < base.interval < HORIZON
      modifies base`expire, base`history, lists, live`list, live`next, live`prev, this`polled
      ensures Heap() && polled == null && View() == Settle(old(View()))
    {
      hide Wheel, OrderlyScript, Linked, Listed, Mapped, Sorted, Later, Missed, Numbered, Fixed;
      AdjustPolled(base);
      Release(base);
      File(base);
    }

    method AdjustPolled(base: TBase)
      requires Midpoll() && base == polled
      requires 0 <= base.expire < jiffies + HORIZON && 0 < base.interval < HORIZON
      modifies base`expire, base`history
      ensures Midpoll() && Listed() == old(Listed())
      ensures Record(base) == Later(old(Record(base)), Missed(old(Record(base)), jiffies))
      ensures 0 <= base.expire < jiffies + HORIZON
    {
      hide OrderlyScript, Linked, Listed, Wheel, Sorted, Mapped, Numbered;
      CatchUp(Record(base), jiffies);
      NotOnWheelMidpoll(base);
      AdjustExpire(base, jiffies);
      Repolled();
      OffSideChange(base);
    }

    lemma NotOnWheelMidpoll(base: TBase)
      requires Midpoll() && base == polled
      ensures !OnWheel(base)
    {
    }

    method DropPolled(base: TBase)
      requires Midpoll() && base == polled && phase != Polling && !base.valid && !base.polling
        && Keyed(base) == (phase != Killed)
      modifies this`polled, this`timerMap, this`live
      ensures Heap() && polled == null && View() == Settle(old(View())) && live <= old(live)
    {
      hide Fixed, Wheel, OrderlyScript, Linked, Listed, Sorted;
      Release(base);
      Del(base);
    }

    /** What becomes of a timer after its poll. */
    method SettlePolled(base: TBase)
      requires Midpoll() && base == polled && (phase == Polling ==> Sound(Record(base), jiffies) && !base.parked)
      requires !base.polling && base.valid == (phase == Polling) && Keyed(base) == (phase != Killed)
      modifies this`polled, this`timerMap, this`live, base`expire, base`history, base`parked
      modifies lists, live`list, live`next, live`prev
      ensures Heap() && polled == null && View() == Settle(old(View())) && live <= old(live)
    {
      hide OrderlyScript, Linked, Wheel, Sorted, Mapped, Settle;
      if !base.valid {
        DropPolled(base);
      } else if base.paused {
        ParkPolled(base);
      } else {
        ReschedulePolled(base);
      }
    }

    /** The first due timer leaves the running list and gets its callbacks. */
    method PollDue() returns (base: TBase)
      requires Valid() && polled == null && running.nodes != []
      modifies this`timerMap, this`issued, this`live, this`totals, this`made, this`log, this`phase, this`polled, lists
      modifies live`polling, live`started, live`count
      modifies live`valid, live`paused, live`pauseTick, live`parked, live`expire, live`history,
        live`list, live`next, live`prev
      ensures Midpoll() && base == polled && !base.polling
      ensures base.valid == (phase == Polling) && Keyed(base) == (phase != Killed)
      ensures base in old(live) && fresh(live - old(live))
      ensures var s := old(View());
        && s.current.Nobody? && s.due != [] && s.due[0] in s.timers
        && View() == Served(script, s)
    {
      hide Fixed, OrderlyScript, Linked, Wheel, Sorted, Mapped, Inv, Poll, Served;
      ghost var s := View();
      FirstDue();
      base := TakeDue();
      OnTimer(base, s);
    }

    /** One turn of the drain loop. */
    method FireFirst()
      requires Valid() && polled == null && running.nodes != []
      modifies this`timerMap, this`issued, this`live, this`totals, this`made, this`log, this`phase, this`polled, lists
      modifies live`polling, live`started, live`count
      modifies live`valid, live`paused, live`pauseTick, live`parked, live`expire, live`history,
        live`list, live`next, live`prev
      ensures Valid() && polled == null && fresh(live - old(live))
      ensures var s := old(View()); s.due != [] && s.due[0] in s.timers && View() == Fire(script, s)
    {
      hide Fixed, OrderlyScript, Linked, Wheel, Sorted, Mapped, Inv, Poll, Settle, Served, Sound;
      ghost var s := View();
      var base := PollDue();
      Programmed();
      FireKeepsInv(script, s);
      ClosingTimer(script, s);
      SettlePolled(base);
    }

    /** The run goes on with an action that has led to the present state. */
    ghost method Note(a: Action)
      requires Valid() && polled == null && Run(script, states, actions) && states[0] == INIT
      requires Next(script, states[|states| - 1], a, View())
      modifies this`states, this`actions
      ensures Traced() && states == old(states) + [View()] && actions == old(actions) + [a]
    {
      hide OrderlyScript, Linked, Wheel, Sorted, Mapped, Inv, Next, Numbered;
      RunOn(script, states, actions, a, View());
      states, actions := states + [View()], actions + [a];
    }

    /** A command from outside the callbacks. */
    method Do(c: Command)
      requires Traced() && Orderly(View(), c, {})
      modifies this`timerMap, this`issued, this`live, this`totals, this`made, this`log,
        this`phase, this`states, this`actions, lists
      modifies live`valid, live`paused, live`pauseTick, live`parked, live`expire, live`history,
        live`list, live`next, live`prev
      ensures Traced() && View() == Exec(old(View()), c) && fresh(live - old(live))
      ensures states == old(states) + [View()] && actions == old(actions) + [Action.Do(c)]
    {
      hide Fixed, Closed, Listed, OrderlyScript, Linked, Wheel, Sorted, Mapped, Inv, Numbered, Exec, Run, Next;
      ExecuteOne(c);
      Note(Action.Do(c));
    }

    method ExecuteOne(c: Command)
      requires Valid() && polled == null && Orderly(View(), c, {})
      modifies this`timerMap, this`issued, this`live, this`totals, this`made, this`log, this`phase, lists
      modifies live`valid, live`paused, live`pauseTick, live`parked, live`expire, live`history,
        live`list, live`next, live`prev
      ensures Valid() && polled == null && View() == Exec(old(View()), c) && fresh(live - old(live))
      ensures Next(script, old(View()), Action.Do(c), View())
    {
      hide OrderlyScript, Linked, Wheel, Sorted, Mapped, Inv, Ready, Numbered, Exec, Listed;
      NobodyPolled();
      InvReady(View());
      ExecKeepsInv(View(), c);
      Execute(c, {});
    }

    method FireNext()
      requires Valid() && polled == null && running.nodes != []
      modifies this`timerMap, this`issued, this`live, this`totals, this`made, this`log, this`phase, this`polled, lists
      modifies live`polling, live`started, live`count
      modifies live`valid, live`paused, live`pauseTick, live`parked, live`expire, live`history,
        live`list, live`next, live`prev
      ensures Valid() && polled == null && fresh(live - old(live)) && Next(script, old(View()), Action.Turn, View())
    {
      hide OrderlyScript, Linked, Wheel, Sorted, Mapped, Inv, Numbered, Fire;
      NobodyPolled();
      FireFirst();
    }

    /** A turn of the drain loop, which becomes part of the run. */
    method TurnOn()
      requires Traced() && running.nodes != []
      modifies this`timerMap, this`issued, this`live, this`totals, this`made, this`log, this`phase, this`polled, lists
      modifies this`states, this`actions, live`polling, live`started, live`count
      modifies live`valid, live`paused, live`pauseTick, live`parked, live`expire, live`history,
        live`list, live`next, live`prev
      ensures Traced() && fresh(live - old(live)) && Next(script, old(View()), Action.Turn, View())
      ensures states == old(states) + [View()] && actions == old(actions) + [Action.Turn]
    {
      hide Fixed, Closed, Listed, OrderlyScript, Linked, Wheel, Sorted, Mapped, Inv, Numbered, Next, Run;
      FireNext();
      Note(Action.Turn);
    }

    method DrainRunning()
      requires Traced()
      modifies this`timerMap, this`issued, this`live, this`totals, this`made, this`log, this`phase, this`polled, lists
      modifies this`states, this`actions, live`polling, live`started, live`count
      modifies live`valid, live`paused, live`pauseTick, live`parked, live`expire, live`history,
        live`list, live`next, live`prev
      ensures Traced() && View() == Drain(script, old(View())) && fresh(live - old(live))
      ensures running.nodes == []
      ensures old(states) <= states && TurnsOnly(old(actions), actions)
    {
      hide OrderlyScript, Linked, Wheel, Sorted, Mapped, Inv, Fire, Backlog, Run, Numbered, TurnsOnly;
      NobodyPolled();
      Programmed();
      MoreTurns(actions, actions);
      while running.head != null
        invariant Traced() && View().current.Nobody? && fresh(live - old(live))
        invariant Drain(script, View()) == Drain(script, old(View()))
        invariant old(states) <= states && TurnsOnly(old(actions), actions)
        decreases Backlog(View())
      {
        NobodyPolled();
        FireBacklog(script, View());
        MoreTurns(old(actions), actions);
        TurnOn();
        NobodyPolled();
      }
      NobodyPolled();
    }

    /** The run went on by turns of the drain loop. */
    static ghost predicate TurnsOnly(before: seq<Action>, after: seq<Action>) {
      before <= after && forall i :: |before| <= i < |after| ==> after[i] == Action.Turn
    }

    static lemma MoreTurns(before: seq<Action>, after: seq<Action>)
      ensures TurnsOnly(before, before)
      ensures TurnsOnly(before, after) ==> TurnsOnly(before, after + [Action.Turn])
    {
    }

    lemma NobodyPolled()
      requires Valid() && polled == null
      ensures View().current.Nobody? && (running.head == null <==> View().due == [])
      ensures running.head == null <==> running.nodes == []
    {
    }

    /** A tick, which becomes part of the run. */
    method TickOn() returns (ghost due: seq<Key>)
      requires Traced() && jiffies + 1 < S63
      modifies this`jiffies, this`states, this`actions, gears`curMoveDst, lists, live`list, live`next, live`prev
      ensures Traced() && TimerSpec.Tick(old(View()), View(), due) && jiffies == old(jiffies) + 1
      ensures states == old(states) + [View()] && actions == old(actions) + [Pass(due)]
    {
      hide OrderlyScript, Linked, Wheel, Sorted, Mapped, Inv, Numbered, Run;
      NobodyPolled();
      due := Tick();
      Note(Pass(due));
    }

    method RunTicks(count: int) returns (ghost order: seq<Key>)
      requires Traced() && jiffies + count < S63
      modifies this`jiffies, this`states, this`actions, gears`curMoveDst, lists, live`list, live`next, live`prev
      ensures Traced() && Ticks(old(View()), View(), if count < 0 then 0 else count, order)
      ensures old(states) <= states && old(actions) <= actions
      ensures |actions| == |old(actions)| + (if count < 0 then 0 else count)
      ensures jiffies == old(jiffies) + if count < 0 then 0 else count
      ensures forall a :: a in actions[|old(actions)|..] ==> a.Pass?
    {
      hide OrderlyScript, Linked, Wheel, Sorted, Mapped, Inv, TimerSpec.Tick, Ticks, Run, Numbered;
      order := [];
      NoTicks(View());
      for i := 0 to if count < 0 then 0 else count
        invariant Traced() && jiffies == old(jiffies) + i
        invariant Ticks(old(View()), View(), i, order)
        invariant old(states) <= states && old(actions) <= actions && |actions| == |old(actions)| + i
        invariant forall a :: a in actions[|old(actions)|..] ==> a.Pass?
      {
        ghost var m := View();
        ghost var due := TickOn();
        TicksCompose(old(View()), m, View(), i, order, due);
        order := order + due;
      }
    }

    /** The ticks that were counted are taken off the clock; the rest of the time waits for the next update. */
    method KeepRemainder(count: int)
      requires Traced()
      modifies this`last
      ensures Traced() && View() == old(View()) && last == old(last) + count * JIFFIES_INTERVAL
    {
      hide OrderlyScript, Linked, Wheel, Sorted, Mapped, Inv, Run, Numbered;
      last := last + count * JIFFIES_INTERVAL;
    }

    /** The first part of an update: the ticks since the last one. */
    method CountTicks(tick: int) returns (ghost mid: State, ghost order: seq<Key>)
      requires Traced() && jiffies + 0x1000_0000 < S63
      modifies this`jiffies, this`last, this`states, this`actions, gears`curMoveDst
      modifies lists, live`list, live`next, live`prev
      ensures Traced() && old(states) <= states && old(actions) <= actions
      ensures jiffies >= old(jiffies) && Ticks(old(View()), mid, jiffies - old(jiffies), order)
      ensures mid == View() && Inv(mid) && mid.current.Nobody?
      ensures ClockStep(old(last), old(jiffies), tick, last, jiffies)
      ensures ClockStep(old(last), old(jiffies), old(last) + Cut32(tick - old(last)), last, jiffies)
    {
      hide OrderlyScript, Linked, Wheel, Sorted, Mapped, Inv, Ticks, Run, Numbered, ClockStep;
      UpdateClock(last, jiffies, tick);
      var count := ElapsedTicks(last, tick);
      order := RunTicks(count);
      KeepRemainder(count);
      NobodyPolled();
      mid := View();
    }

    /** update: the ticks since the last call, then the drain loop. Afterwards nothing is due. */
    method Update(tick: int) returns (ghost mid: State, ghost order: seq<Key>)
      requires Traced() && jiffies + 0x1000_0000 < S63
      modifies this`timerMap, this`issued, this`live, this`totals, this`made, this`log,
        this`phase, this`polled, this`jiffies, this`last
      modifies this`states, this`actions, gears`curMoveDst, lists, live`polling, live`started, live`count
      modifies live`valid, live`paused, live`pauseTick, live`parked, live`expire, live`history,
        live`list, live`next, live`prev
      ensures Traced() && fresh(live - old(live)) && running.nodes == []
      ensures ClockStep(old(last), old(jiffies), tick, last, jiffies)
      ensures ClockStep(old(last), old(jiffies), old(last) + Cut32(tick - old(last)), last, jiffies)
      ensures Ticks(old(View()), mid, jiffies - old(jiffies), order)
      ensures Inv(mid) && mid.current.Nobody? && View() == Drain(script, mid)
      ensures old(states) <= states && old(actions) <= actions
    {
      hide Traced, Valid, Heap, Inv, Ticks, ClockStep, Cut32, Drain;
      mid, order := CountTicks(tick);
      DrainRunning();
    }

    lemma Started()
      requires Fixed() && Ticking() && Wheel(0, 5) && jiffies == 0 && timerMap == map[] && log == [] && issued == 0
      requires live == {} && polled == null && totals == [] && made == [] && running.nodes == []
      ensures Valid() && View() == INIT
    {
    }
  }
}
