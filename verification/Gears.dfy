/** The arithmetic of the wheel: which gear and slot a timer is filed in, and what the gears hold.

    Gear 0 has 256 slots of one tick; gears 1 to 4 have 64 slots, each as wide as the whole gear below. */
module Gears {
  import opened Numbers

  const U64 := 0x1_0000_0000_0000_0000
  const S63 := 0x8000_0000_0000_0000

  function Width(gear: nat): (w: int)
    requires gear < 5
    ensures w > 0
  {
    if gear == 0 then 1 else if gear == 1 then 0x100 else if gear == 2 then 0x4000
    else if gear == 3 then 0x10_0000 else 0x400_0000
  }

  function Size(gear: nat): int
    requires gear < 5
  {
    if gear == 0 then 256 else 64
  }

  datatype Home = Overdue | Slot(gear: nat, index: nat)

  /** findTimerList. Both arguments are unsigned 64-bit; `live` is their wrapped difference, and the
      test for an overdue timer reads it as a signed number. */
  function FindTimerList(expire: int, jiffies: int): (h: Home)
    requires 0 <= expire < U64 && 0 <= jiffies < U64
    ensures h.Slot? ==> h.gear < 5 && h.index < Size(h.gear)
  {
    var live := (expire - jiffies) % U64;
    if live < 0x100 then Slot(0, expire % 256)
    else if live < 0x4000 then Slot(1, expire / 0x100 % 64)
    else if live < 0x10_0000 then Slot(2, expire / 0x4000 % 64)
    else if live < 0x400_0000 then Slot(3, expire / 0x10_0000 % 64)
    else if live >= S63 then Overdue
    else Slot(4, expire / 0x400_0000 % 64)
  }

  /** Blocks of gear k that lie wholly before tick j, counting one just entered: those already handed down. */
  function HandedDown(gear: nat, j: int): int
    requires gear < 5 && 0 <= j
  {
    (j + Width(gear) - 1) / Width(gear)
  }

  /** The same for a wheel whose gears from `from` up have already handed down the block of tick j. */
  function HandedAt(gear: nat, j: int, from: int): int
    requires gear < 5 && 0 <= j
  {
    HandedDown(gear, if gear >= from then j + 1 else j)
  }

  /** The slot of a gear that has handed down its first p blocks holds the one block of the next
      `Size` that is congruent to it. */
  ghost predicate InWindow(gear: nat, p: int, index: int, expire: int)
    requires gear < 5
  {
    && p <= expire / Width(gear) < p + Size(gear)
    && index == expire / Width(gear) % Size(gear)
  }

  lemma NextBlock(gear: nat, j: int)
    requires gear < 5 && 0 <= j
    ensures HandedDown(gear, j + 1) == j / Width(gear) + 1
    ensures HandedDown(gear, j) == if j % Width(gear) == 0 then j / Width(gear) else j / Width(gear) + 1
  {
  }

  lemma {:induction false} AllStart(gear: nat, from: nat, j: int)
    requires from <= gear < 5 && 0 <= j && j % Width(gear) == 0
    ensures j % Width(from) == 0
    decreases gear
  {
    if from < gear {
      StartBelow(gear - 1, j);
      AllStart(gear - 1, from, j);
    }
  }

  lemma Wider(gear: nat)
    requires gear < 4
    ensures Width(gear) * Size(gear) == Width(gear + 1)
  {
  }

  lemma StartBelow(gear: nat, j: int)
    requires gear < 4 && 0 <= j && j % Width(gear + 1) == 0
    ensures j % Width(gear) == 0
  {
    Nested(j / Width(gear + 1) * Size(gear), Width(gear), 1);
    Wider(gear);
  }

  /** Unless a block of gear `from` starts at tick j, no gear from there up has a block to hand down. */
  lemma NothingToHandDown(from: nat, j: int, gear: nat)
    requires gear < 5 && 0 <= j && 1 <= from && (from < 5 ==> j % Width(from) != 0)
    ensures HandedAt(gear, j, from) == HandedAt(gear, j, 5)
  {
    if from <= gear {
      if j % Width(gear) == 0 { AllStart(gear, from, j); }
      NextBlock(gear, j);
    }
  }

  /** A cursor at `cur` when the gear has handed down p blocks. */
  predicate CursorAt(gear: nat, p: int, cur: int)
    requires gear < 5
  {
    0 <= cur <= Size(gear) && cur % Size(gear) == p % Size(gear)
  }

  lemma FullTurn(gear: nat, p: int, cur: int)
    requires gear < 5 && CursorAt(gear, p, cur)
    ensures 0 <= cur <= Size(gear)
    ensures cur == Size(gear) ==> CursorAt(gear, p, 0)
  {
  }

  /** A gear's cursor is back at its first slot exactly when a block of the next gear starts. */
  lemma CursorWraps(gear: nat, j: int, cur: int)
    requires gear < 5 && 0 <= j && j % Width(gear) == 0 && CursorAt(gear, HandedAt(gear, j, 5), cur)
    ensures gear < 4 ==> ((cur == 0 || cur == Size(gear)) <==> j % Width(gear + 1) == 0)
  {
    NextBlock(gear, j);
    if gear < 4 { NextStarts(gear, j); }
    hide Width, HandedDown;
    AtEitherEnd(cur, Size(gear));
  }

  lemma AtEitherEnd(cur: int, size: int)
    requires size == 64 || size == 256
    requires 0 <= cur <= size
    ensures cur % size == 0 <==> cur == 0 || cur == size
  {
  }

  lemma NextStarts(gear: nat, j: int)
    requires gear < 4 && 0 <= j && j % Width(gear) == 0
    ensures j % Width(gear + 1) == 0 <==> j / Width(gear) % Size(gear) == 0
  {
    Nested(j / Width(gear), Width(gear), Size(gear));
    Wider(gear);
  }

  /** What the slot at the cursor holds, and that the others keep their place when it is passed. */
  lemma SlotAtCursor(gear: nat, j: int, cur: int, index: int, expire: int)
    requires 1 <= gear < 5 && 0 <= j && j % Width(gear) == 0 && cur < Size(gear)
    requires CursorAt(gear, HandedAt(gear, j, gear + 1), cur)
    requires InWindow(gear, HandedAt(gear, j, gear + 1), index, expire)
    ensures index == cur ==> expire / Width(gear) == j / Width(gear)
    ensures index != cur ==> InWindow(gear, HandedAt(gear, j, gear), index, expire)
  {
    hide Width;
    NextBlock(gear, j);
    SameBlock(j / Width(gear), expire / Width(gear), 64, cur);
  }

  /** Of a full turn of blocks only the first has its number's remainder. */
  lemma SameBlock(p: int, block: int, size: int, cur: int)
    requires size == 64 || size == 256
    requires 0 <= cur < size && cur % size == p % size && p <= block < p + size
    ensures block == p <==> block % size == cur
  {
    DivMod(cur, size, 0, cur);
    if block % size == cur { SameRemainder(p, block, size); }
  }

  lemma CursorMoves(gear: nat, j: int, cur: int)
    requires 1 <= gear < 5 && 0 <= j && j % Width(gear) == 0 && cur < Size(gear)
    requires CursorAt(gear, HandedAt(gear, j, gear + 1), cur)
    ensures CursorAt(gear, HandedAt(gear, j, gear), cur + 1)
  {
    hide Width, HandedDown;
    NextBlock(gear, j);
    NextRemainder(cur, j / Width(gear), Size(gear));
  }

  lemma OtherGears(level: nat, j: int)
    requires 0 <= j
    ensures forall g :: 0 <= g < 5 && g != level ==> HandedAt(g, j, level) == HandedAt(g, j, level + 1)
  {
    hide HandedDown;
  }

  /** When the gears above have handed down, the slot at gear 0's cursor holds exactly the timers that
      expire now, and all others keep their place for the next tick. */
  lemma DueNow(gear: nat, j: int, cur: int, index: int, expire: int)
    requires gear < 5 && 0 <= j && cur < 256 && CursorAt(0, HandedAt(0, j, 1), cur)
    requires InWindow(gear, HandedAt(gear, j, 1), index, expire)
    ensures expire >= j && (expire == j <==> gear == 0 && index == cur)
    ensures expire != j ==> InWindow(gear, HandedAt(gear, j + 1, 5), index, expire)
  {
    hide InWindow, HandedAt, CursorAt;
    if gear == 0 { DueNowLow(j, cur, index, expire); } else { DueNowHigh(gear, j, index, expire); }
  }

  lemma DueNowLow(j: int, cur: int, index: int, expire: int)
    requires 0 <= j && cur < 256 && CursorAt(0, HandedAt(0, j, 1), cur)
    requires InWindow(0, HandedAt(0, j, 1), index, expire)
    ensures expire >= j && (expire == j <==> index == cur)
    ensures expire != j ==> InWindow(0, HandedAt(0, j + 1, 5), index, expire)
  {
    hide HandedAt, InWindow, CursorAt;
    LowGear(j, 1);
    LowGear(j + 1, 5);
    SameBlock(j, expire, 256, cur);
  }

  /** Gear 0 has one tick to a block. */
  lemma LowGear(j: int, from: int)
    requires 0 <= j && 1 <= from
    ensures forall index, expire ::
      InWindow(0, HandedAt(0, j, from), index, expire) <==> j <= expire < j + 256 && index == expire % 256
    ensures forall cur :: CursorAt(0, HandedAt(0, j, from), cur) <==> 0 <= cur <= 256 && cur % 256 == j % 256
  {
  }

  lemma DueNowHigh(gear: nat, j: int, index: int, expire: int)
    requires 0 < gear < 5 && 0 <= j && InWindow(gear, HandedAt(gear, j, 1), index, expire)
    ensures expire > j && InWindow(gear, HandedAt(gear, j + 1, 5), index, expire)
  {
    NextBlock(gear, j);
    LaterBlock(gear, j, expire);
  }

  lemma LaterBlock(gear: nat, j: int, expire: int)
    requires gear < 5 && 0 <= j && expire / Width(gear) > j / Width(gear)
    ensures expire > j
  {
  }

  lemma CursorTicks(gear: nat, j: int, cur: int)
    requires gear < 5 && 0 <= j && CursorAt(gear, HandedAt(gear, j, 1), cur)
    ensures gear > 0 ==> CursorAt(gear, HandedAt(gear, j + 1, 5), cur)
    ensures gear == 0 && cur < 256 ==> CursorAt(0, HandedAt(0, j + 1, 5), if cur + 1 == 256 then 0 else cur + 1)
  {
    if gear == 0 {
      hide HandedAt, CursorAt;
      LowGear(j, 1);
      LowGear(j + 1, 5);
      NextRemainder(cur, j, 256);
    } else {
      hide HandedDown, Width;
    }
  }

  lemma WithinReach(gear: nat, expire: int, jiffies: int)
    requires gear < 5 && 0 <= jiffies
    requires jiffies + (if gear == 0 then 0 else Width(gear)) <= expire < jiffies + Size(gear) * Width(gear)
    ensures HandedDown(gear, jiffies) <= expire / Width(gear) < HandedDown(gear, jiffies) + Size(gear)
    ensures gear > 0 ==>
      HandedDown(gear, jiffies + 1) <= expire / Width(gear) < HandedDown(gear, jiffies + 1) + Size(gear)
  {
    NextBlock(gear, jiffies);
  }

  /** Filing keeps the window, whether or not the gear has handed down the block of this tick. */
  lemma FiledInWindow(expire: int, jiffies: int, from: int)
    requires 1 <= from && 0 <= jiffies <= expire < jiffies + 0x1_0000_0000 && jiffies < S63
    ensures var h := FindTimerList(expire, jiffies);
      h.Slot? && InWindow(h.gear, HandedAt(h.gear, jiffies, from), h.index, expire)
  {
    SlotFor(expire, jiffies);
    hide FindTimerList, Width, HandedDown;
    WithinReach(FindTimerList(expire, jiffies).gear, expire, jiffies);
  }

  lemma SlotFor(expire: int, jiffies: int)
    requires 0 <= jiffies <= expire < jiffies + 0x1_0000_0000 && jiffies < S63
    ensures var h := FindTimerList(expire, jiffies);
      && h.Slot? && h.index == expire / Width(h.gear) % Size(h.gear)
      && jiffies + (if h.gear == 0 then 0 else Width(h.gear)) <= expire < jiffies + Size(h.gear) * Width(h.gear)
  {
    DivMod(expire - jiffies, U64, 0, expire - jiffies);
  }

  /** Where the tick counter is about to wrap around, a timer that expires behind the wrap-around is filed by the
      ticks that are left. */
  lemma FiledAcrossWrap(expire: int, jiffies: int)
    requires 0 <= expire < jiffies < 0x1_0000_0000_0000_0000
    requires expire + 0x1_0000_0000_0000_0000 - jiffies < 0x1_0000_0000
    ensures var left, h := expire + 0x1_0000_0000_0000_0000 - jiffies, FindTimerList(expire, jiffies);
      && h.Slot? && h.index == expire / Width(h.gear) % Size(h.gear)
      && (if h.gear == 0 then 0 else Width(h.gear)) <= left < Size(h.gear) * Width(h.gear)
  {
    DivMod(expire - jiffies, U64, -1, expire - jiffies + U64);
  }

  lemma FiledOverdue(expire: int, jiffies: int)
    requires 0 <= expire < jiffies < S63
    ensures FindTimerList(expire, jiffies) == Overdue
  {
  }

  /** A timer in the block that gear k is handing down goes to a lower gear. */
  lemma HandedLower(gear: nat, expire: int, jiffies: int)
    requires 0 < gear < 5 && 0 <= jiffies < S63 && jiffies % Width(gear) == 0
    requires expire / Width(gear) == jiffies / Width(gear)
    ensures var h := FindTimerList(expire, jiffies); jiffies <= expire && h.Slot? && h.gear < gear
  {
  }

  // ----- beyond the horizon

  type Tick = t: int | 0 <= t < U64

  /** The first tick from `jiffies` on at which gear 4 hands down the slot that `expire` is filed in. */
  function FirstVisit(expire: int, jiffies: int): int
    requires 0 <= jiffies
  {
    var p := HandedDown(4, jiffies);
    (p + (expire / Width(4) - p) % 64) * Width(4)
  }

  lemma FiledFar(expire: int, jiffies: int)
    requires 0 <= jiffies && jiffies + Width(4) <= expire < jiffies + S63 && expire < U64
    ensures FindTimerList(expire, jiffies) == Slot(4, expire / Width(4) % 64)
  {
  }

  lemma FirstVisitBlock(expire: int, jiffies: int)
    requires 0 <= jiffies && jiffies + Width(4) <= expire
    ensures var j, b, p := FirstVisit(expire, jiffies), expire / Width(4), HandedDown(4, jiffies);
      && jiffies <= j <= expire && j % Width(4) == 0
      && (b < p + 64 ==> j / Width(4) == b)
      && (b >= p + 64 ==> j + Width(4) <= expire)
  {
    NextBlock(4, jiffies);
    var b, p := expire / Width(4), HandedDown(4, jiffies);
    var d := (b - p) % 64;
    assert b - p == (b - p) / 64 * 64 + d;
    assert jiffies <= p * Width(4) <= (p + d) * Width(4);
  }

  /** A timer filed in gear 4 is put back into the very slot being handed down exactly if its block
      lies beyond the 64 that gear 4 has in view. */
  lemma RefiledIff(expire: int, jiffies: int)
    requires 0 <= jiffies < S63 && jiffies + Width(4) <= expire < S63
    ensures var j := FirstVisit(expire, jiffies);
      && jiffies <= j < U64 && FindTimerList(expire, jiffies) == Slot(4, expire / Width(4) % 64)
      && (FindTimerList(expire, j) == FindTimerList(expire, jiffies)
          <==> expire / Width(4) >= HandedDown(4, jiffies) + 64)
  {
    FiledFar(expire, jiffies);
    FirstVisitBlock(expire, jiffies);
    var j := FirstVisit(expire, jiffies);
    if expire / Width(4) >= HandedDown(4, jiffies) + 64 { FiledFar(expire, j); } else { HandedLower(4, expire, j); }
  }

  /** One turn of the loop that empties a slot: the first timer leaves it, unless it is filed here again. */
  function PopAndFile(slot: seq<Tick>, here: Home, jiffies: Tick): seq<Tick>
    requires slot != []
  {
    slot[1..] + if FindTimerList(slot[0], jiffies) == here then [slot[0]] else []
  }

  function Emptying(slot: seq<Tick>, here: Home, jiffies: Tick, turns: nat): seq<Tick>
    decreases turns
  {
    if turns == 0 || slot == [] then slot else Emptying(PopAndFile(slot, here, jiffies), here, jiffies, turns - 1)
  }

  lemma {:induction false} StuckForever(slot: seq<Tick>, here: Home, jiffies: Tick, e: Tick, turns: nat)
    requires e in slot && FindTimerList(e, jiffies) == here
    ensures e in Emptying(slot, here, jiffies, turns)
    decreases turns
  {
    if turns > 0 {
      assert slot == [slot[0]] + slot[1..];
      StuckForever(PopAndFile(slot, here, jiffies), here, jiffies, e, turns - 1);
    }
  }

  lemma {:induction false} EmptiesAtOnce(slot: seq<Tick>, here: Home, jiffies: Tick)
    requires forall e :: e in slot ==> FindTimerList(e, jiffies) != here
    ensures Emptying(slot, here, jiffies, |slot|) == []
    decreases |slot|
  {
    if slot != [] {
      assert PopAndFile(slot, here, jiffies) == slot[1..];
      EmptiesAtOnce(slot[1..], here, jiffies);
    }
  }

  /** The emptying loop ends if and only if no timer of the slot is filed into it again. */
  lemma EmptyingEndsIff(slot: seq<Tick>, here: Home, jiffies: Tick)
    ensures (exists turns: nat :: Emptying(slot, here, jiffies, turns) == [])
            <==> (forall e :: e in slot ==> FindTimerList(e, jiffies) != here)
  {
    if e :| e in slot && FindTimerList(e, jiffies) == here {
      forall turns: nat ensures Emptying(slot, here, jiffies, turns) != [] {
        StuckForever(slot, here, jiffies, e, turns);
      }
    } else {
      EmptiesAtOnce(slot, here, jiffies);
    }
  }
}
