# Proofs about the server's core

A Dafny model of the parts of the server whose correctness is hardest to see, and proofs of what they promise.
Objects that change in place are classes with the fields of the original, linked lists included; what a loop does
is a method with a loop, proved against a function or a state machine about which the theorems are stated.

- **Timers.** `TimerSpec` is the timer manager as its users see it: a map from key to expiry and paused flag, the
  queue of due timers, and the log of callbacks. User code is any function from the log to the commands a callback
  issues; a command carries, nested to any finite depth, the commands of the onEnd(false), onPause or onResume handler
  that it sets off. A program is orderly if no handler of onPause or onResume does something to its own timer while
  that is in a list; about the timer being polled handlers may do what they like. The invariant (`TimerInvariant`),
  the callback protocol (`TimerProtocol`), the drain that terminates (`TimerDrain`), exact firing (`TimerRuns`), the
  calls in one drain (`TimerCalls`, `TimerBound`; their exact number in `TimerExact`), the commands that took effect
  and the callbacks that answer them (`TimerDeeds`), and the ticks a timer spends running before each of its calls
  (`TimerClock`; `TimerTime` has the milliseconds) are proved for every run of every orderly program. `TimerHandlers`
  says which programs are orderly, and what goes wrong in others, and exactly when. `TimerWheel` is the manager on the
  heap: five gears (`Gears`) of doubly linked lists with back-pointers, a running and a suspended list, and the key
  map. Each of its operations is proved to do on its abstract state what `TimerSpec` says, the handlers included, and
  the manager carries its own run from launch (`Traced`), which every operation extends, so the theorems about runs
  hold of the heap.
- **JSON** (`JsonValue` to `JsonTheorems`). The cursor reader is proved to answer what a reader on tokens answers.
  Both writers are proved to print a text that lexes to the tokens of the value. Together they give the round trip,
  its exact domain, and that the styled text is read as the same value as the compact one. Apart from the code,
  `JsonGrammar` has the texts of RFC 8259 with their meanings, all of which are read; `JsonConforms` proves that what
  is printed is such a text, `JsonLayout` how the styled one is laid out, and `JsonComments` where comments may stand.
- **Closest point of a triangle** (`ClosestPoint`), over the reals, for every triangle, degenerate ones included.
- **Allocators** (`ObjectPool` on the heap with its two linked lists; `BlockAllocator` on memory addresses).
- **Queue and lock** (`RingQueue`; `SpinLock` as interleaved atomic steps of any number of threads).
- **Path merging** (`CrowdPath`): the in-place removal of trackbacks, and that the order of removals is immaterial.
- **XML text** (`XmlText`, `XmlReads`, `XmlEntities`): un-escaping in place against the escaping printer, and of any
  text made of chars, entities, references and line ends.
- **Digests** (`Blocks`, `Md5`, `Sha1`): streaming against the padded message of RFC 1321 and FIPS 180-4, and the
  published digests of two messages (`Md5Values`, `Sha1Values`).

`Numbers` holds facts about division, `Bytes` chars that stand for bytes, `Wrappers` an optional
value. `dafny verify dfyconfig.toml` checks everything.

## Where the code differs from what is expected of it

Each of these is stated exactly, by the member named.

- Delays and intervals of 2^32 ticks or more: the loop that empties a slot of the last gear never ends if and only
  if a timer of the slot is filed into it again (`Gears.EmptyingEndsIff`, `Gears.RefiledIff`).
- A timer in a list that its own onPause or onResume handler resumes, pauses or kills: it ends up in the right place
  if and only if the handler returns with it alive and as it was told (`TimerHandlers.PlacedIff`). Otherwise it is
  suspended although it runs (`TimerHandlers.ResumedInOnPause`), called although it is paused
  (`TimerHandlers.PausedInOnResume`, `TimerHandlers.PausedIsCalled`), or used after it is gone
  (`TimerHandlers.KilledInHandler`).
- Calls in one drain: at most two, unless the timer is parked by its own first poll there, because a parked timer is
  not caught up (`TimerCalls.AtMostTwice`). In every orderly program at most the lag divided by the interval, rounded up
  (`TimerCalls.CallsInDrain`), and two timers that pause themselves and resume each other reach that
  (`TimerBound.BoundIsReached`).
- A clock that is set back and goes on is counted twice (`TimerTime.SetBack`); one that is not loses nothing
  (`TimerTime.NoTimeLost`).
- Integers within nine of either limit are read as real numbers (`JsonText.IntReadsBack`,
  `JsonWriter.FastRoundTripExact`).
- Any token other than a closing bracket or a comment separates two elements of a JSON array
  (`JsonTheorems.AnySeparator`).
- A comment in an empty array, or before a colon, makes the reader fail (`JsonComments.CommentsRefused`); anywhere
  else it makes no difference (`JsonComments.CommentsIgnored`). A minus sign alone is read as zero
  (`JsonGrammar.OtherNumbers`).
- The closest point is 0/0 if and only if two corners coincide and the point lies beyond them towards the third
  (`ClosestPoint.ClosestPoint`).
- Growth of the queue with its window in one piece would fill it with copies of one element; `Push` never grows it
  then (`RingQueue.TQueue.DoubleQueueSize`, `RingQueue.TQueue.FullMeans`).
- A corridor of a single polygon is merged without removing trackbacks (`CrowdPath.MergePaths`).
- Text with a carriage return does not survive printing and parsing (`XmlText.PrintThenParse`).
- A hexadecimal reference is taken modulo 2^32, so only its last eight digits count
  (`XmlReads.LastEightDigits`).
- An ampersand that begins no entity is replaced by the character that stands at the write pointer, and so is kept
  if and only if that is an ampersand (`XmlEntities.UnknownKeptIff`): always where nothing before it could shrink
  (`XmlEntities.UnknownIsKept`), never directly behind an entity (`XmlEntities.UnknownIsLost`).

## Model

| member | source | states |
|---|---|---|
| Gears.FindTimerList | cppserver/tcore3/timer/timermgr.cpp:234-251 | with 64-bit wrap-around, every expiry gets a list: the overdue one or a slot that exists in one of the five gears |
| Gears.FiledInWindow | cppserver/tcore3/timer/timermgr.cpp:234-251 | a timer due within 2^32 ticks is filed in a slot of its gear's window: its block is one of the next 64 (256 ticks in gear 0) not yet handed down, at that block number modulo the gear size |
| Gears.FiledAcrossWrap | cppserver/tcore3/timer/timermgr.cpp:234-251 | where the tick counter is about to wrap around, a timer that expires behind the wrap-around is filed by the ticks that are left |
| Gears.HandedLower | cppserver/tcore3/timer/tgear.cpp:78-84 | a timer in the block that a gear hands down is filed in a strictly lower gear, so never in the list being emptied |
| Gears.NothingToHandDown | cppserver/tcore3/timer/tgear.cpp:33-37 | unless a block of a gear starts at this tick, no gear above it has one to hand down |
| Gears.CursorWraps | cppserver/tcore3/timer/tgear.cpp:29-38 | a gear's cursor is at its first slot, or rests one past its last, exactly when a block of the next gear starts |
| Gears.SlotAtCursor | cppserver/tcore3/timer/tgear.cpp:72-76 | the slot at the cursor holds exactly the block that starts now, and all other slots keep their window when it is passed |
| Gears.CursorMoves | cppserver/tcore3/timer/tgear.cpp:86 | stepping the cursor keeps it at the first block that is not handed down |
| Gears.DueNow | cppserver/tcore3/timer/tgear.cpp:40-61 | once the upper gears have handed down, the timers in the slot at gear 0's cursor are exactly those that expire at this tick; all others keep their place for the next tick |
| Gears.RefiledIff | cppserver/tcore3/timer/timermgr.cpp:247-248 | beyond the reach of the wheel: a timer of gear 4 is put back into the very slot being emptied if and only if its block lies 64 or more ahead |
| Gears.EmptyingEndsIff | cppserver/tcore3/timer/tgear.cpp:78-84 | the loop that empties a slot ends if and only if no timer of the slot is filed into it again |
| Gears.StuckForever | cppserver/tcore3/timer/tgear.cpp:78-84 | a timer that is filed into the slot again is still there after any number of turns |
| Gears.EmptiesAtOnce | cppserver/tcore3/timer/tgear.cpp:78-84 | otherwise one turn for each timer empties the slot |
| TimerInvariant.StartKeepsInv | cppserver/tcore3/timer/timermgr.cpp:126-143 | starting a timer keeps the invariant: due queue exact, all expiries in reach and on the grid of their period, counts right, every life in order, nobody lost |
| TimerInvariant.HandlerKeeps | cppserver/tcore3/timer/timermgr.cpp:145-208 | while a handler of onEnd(false), onPause or onResume runs the state is in order but for its own timer, which is marked as being worked on; the callback was in order in the life of that timer |
| TimerInvariant.ReturnListed | cppserver/tcore3/timer/timermgr.cpp:145-208 | when the handler of a command about a listed timer returns, having left that timer alone, the timer goes to where it belongs and the order is whole again |
| TimerInvariant.ReturnPolled | cppserver/tcore3/timer/timermgr.cpp:145-208 | likewise for a command about the timer being polled, which stays in no list |
| TimerInvariant.ExecKeeps | cppserver/tcore3/timer/timermgr.cpp:126-208 | any orderly command, with any finite nesting of handlers, keeps the order and leaves untouched the timers whose handlers are running; orderly means that no handler of onPause or onResume does something to its own timer while that is in a list |
| TimerInvariant.TurnedTo | cppserver/tcore3/timer/timermgr.cpp:165-208 | what a pause or resume has made of its timer when it returns, whatever its handler did to others: parked without a place in the due queue, or due exactly if its tick has passed |
| TimerInvariant.ExecKeepsInv | cppserver/tcore3/timer/timermgr.cpp:126-208 | so any orderly command keeps the invariant, also when it and its handlers are about the timer being polled, whose other fields do not change |
| TimerInvariant.NotifyKeepsInv | cppserver/tcore3/timer/tbase.cpp:33-53 | and so does a callback of an orderly program that is in order in the life of its timer, with everything it and the handlers set off |
| TimerInvariant.PollKeepsInv | cppserver/tcore3/timer/timermgr.cpp:63-69 | taking the first due timer off the running list keeps the invariant |
| TimerInvariant.BeginKeepsInv | cppserver/tcore3/timer/tbase.cpp:33-37 | onStart is called for a timer that never had it; afterwards the timer has its onStart behind it, killed by it or not |
| TimerInvariant.CallKeepsInv | cppserver/tcore3/timer/tbase.cpp:39-44 | onTimer is called only between onStart and onEnd, and one call is counted down |
| TimerInvariant.SettleKeepsInv | cppserver/tcore3/timer/timermgr.cpp:70-77 | after its poll a timer is dropped, parked or rescheduled so that the invariant holds again |
| TimerInvariant.CatchUp | cppserver/tcore3/timer/tbase.cpp:86-91 | a timer at most one interval behind stays where it is; one further behind moves by whole intervals to the only expiry less than one interval behind and not ahead of the present |
| TimerInvariant.NextPeriod | cppserver/tcore3/timer/tbase.cpp:46-47 | moving on by whole periods keeps the expiry at start + delay + time parked + a multiple of the interval |
| TimerInvariant.FireKeepsInv | cppserver/tcore3/timer/timermgr.cpp:63-78 | one turn of the drain loop keeps the invariant, for every orderly program: whatever is set off inside it, the due queue, the grid of expiries, the counts and the lives of all timers are in order afterwards |
| TimerInvariant.TickKeepsInv | cppserver/tcore3/timer/timermgr.cpp:253-259 | a tick keeps the due queue exactly the unpaused timers whose tick has passed |
| TimerHandlers.TameScriptIsOrderly | cppserver/tcore3/timer/timermgr.cpp:165-208 | what can be read off a program: it is orderly if no handler of onPause or onResume in it, at any depth, gives a command about its own timer |
| TimerHandlers.PolledIsFree | cppserver/tcore3/timer/timermgr.cpp:175-178 | about the timer being polled a handler may do what it likes, kill, resume or restart it: such a command is orderly exactly if those of its handler are |
| TimerHandlers.TurnBackIsOrderly | cppserver/tcore3/timer/timermgr.cpp:175-207 | one such program, which the rule above does not cover: an onTimer that pauses its own timer, whose onPause resumes it |
| TimerHandlers.PlacedIff | cppserver/tcore3/timer/timermgr.cpp:165-208 | what goes wrong for a timer in a list, and exactly when: after a pause or resume with any handler at all, the timer is parked if and only if paused, and nothing released is used, if and only if the handler returns with the timer alive and paused or running as it was told |
| TimerHandlers.ResumedInOnPause | cppserver/tcore3/timer/timermgr.cpp:175-182 | an onPause handler that resumes its own timer leaves it suspended although it runs: no tick makes it due |
| TimerHandlers.PausedInOnResume | cppserver/tcore3/timer/timermgr.cpp:198-205 | an onResume handler that pauses its own timer leaves it on the wheel although it is paused: its tick makes it due |
| TimerHandlers.PausedIsCalled | cppserver/tcore3/timer/tbase.cpp:29-44 | and when such a timer is polled, its onTimer is called although it is paused |
| TimerHandlers.KilledInHandler | cppserver/tcore3/timer/timermgr.cpp:175-182 | a handler that kills its own timer leaves the manager with a timer that is gone |
| TimerDrain.ExecBacklog | cppserver/tcore3/timer/timermgr.cpp:126-208 | no command adds to the backlog of lag that the drain works off, whatever handlers it sets off, restricted or not |
| TimerDrain.FireBacklog | cppserver/tcore3/timer/timermgr.cpp:63-78 | every turn of the drain loop shrinks the backlog, for every orderly program: the loop terminates |
| TimerDrain.Drain | cppserver/tcore3/timer/timermgr.cpp:63-78 | when the drain loop ends nothing is due, no scheduled timer lies in the past, and no time has passed |
| TimerRuns.InitInv | cppserver/tcore3/timer/timermgr.cpp:33-43 | the invariant holds at launch |
| TimerRuns.RunKeepsInv | cppserver/tcore3/timer/timermgr.cpp:54-79 | safety over every run of orderly commands, ticks and turns of the drain, for every orderly program: the invariant holds in every state |
| TimerRuns.RunTouches | cppserver/tcore3/timer/timermgr.cpp:54-208 | along any run a timer without callbacks of its own stays in the map unchanged |
| TimerRuns.DueExactly | cppserver/tcore3/timer/timermgr.cpp:223-259 | exact firing: along any run an untouched timer with expiry E is due in exactly the states past E, so the tick from E to E + 1 makes it due and no other does |
| TimerRuns.TicksCompose | cppserver/tcore3/timer/timermgr.cpp:58-60 | ticks compose: the timers that expire in n ticks become due in the order of their expiries, each once |
| TimerRuns.DrainServes | cppserver/tcore3/timer/timermgr.cpp:63-78 | every timer that is due when a drain begins has had some callback by its end |
| TimerRuns.DrainTouches | cppserver/tcore3/timer/timermgr.cpp:63-78 | a drain leaves alone every timer that no callback is about |
| TimerClock.RunReads | cppserver/tcore3/timer/timermgr.cpp:165-208 | in every state of every run, the ticks that a timer has spent running, and those it has spent paused, counted along the run, are what its record says, for any number of pauses and resumes, also while it is being polled |
| TimerClock.PeriodsStay | cppserver/tcore3/timer/tbase.cpp:46-47 | the periods behind a timer stay as long as it is not called |
| TimerClock.OnTime | cppserver/tcore3/timer/timermgr.cpp:126-259 | every call of every timer, whoever started, paused and resumed it: along any run from launch a timer is due if and only if it is not paused and the ticks of the run that it has spent running outnumber the delay it was started with and the periods behind it, of which there are at least as many as calls; the difference is the time remaining |
| TimerClock.FirstCallAfterDelay | cppserver/tcore3/timer/timermgr.cpp:137-142 | so a timer that was not called yet is due if and only if it is not paused and the ticks of the run that it has spent running outnumber the delay it was started with, be it from outside, in a callback or in a handler |
| TimerClock.FirstCallInMilliseconds | cppserver/tcore3/timer/timermgr.cpp:135-141 | the same in milliseconds: the ticks of ten milliseconds spent running take longer than the delay, one of less than ten being taken for ten |
| TimerTime.DelayInTicks | cppserver/tcore3/timer/timermgr.cpp:137-141 | a delay of 0 ms is no tick, one of less than 10 ms is one, any other is cut down to whole ticks of 10 ms |
| TimerTime.IntervalInTicks | cppserver/tcore3/timer/timermgr.cpp:133-134 | an interval of less than 10 ms is one tick, any other is cut down to whole ticks |
| TimerTime.StartableRange | cppserver/tcore3/timer/timermgr.cpp:132 | what may be started: no negative delay, no interval of nothing, and neither 2^32 ticks or more |
| TimerTime.UpdateClock | cppserver/tcore3/timer/timermgr.cpp:55-61 | what an update makes of the clock: it counts on to less than a tick before the present; if the clock went back it counts nothing and goes back too, to less than a tick after the present; of a longer time it sees what a cast to 32 bits keeps |
| TimerTime.NoTimeLost | cppserver/tcore3/timer/timermgr.cpp:55-61 | however often updates come, if the clock does not go back: the ticks counted in all of them are the whole ticks of the time that passed |
| TimerTime.SetBack | cppserver/tcore3/timer/timermgr.cpp:58-61 | a clock that is set back and goes on: what it went back by, in whole ticks, is counted once more |
| TimerClock.PauseKeepsRemaining | cppserver/tcore3/timer/tbase.cpp:62-80 | between two calls only the ticks spent running use up the time remaining: pauses of any number and length, begun and ended by whomever, keep it, whatever else happens meanwhile; a paused timer is never due |
| TimerCalls.FireCalls | cppserver/tcore3/timer/tbase.cpp:29-53 | one turn of the drain calls onTimer of the timer polled at most once and of no other timer, whatever is set off in it |
| TimerCalls.ExecBounded | cppserver/tcore3/timer/timermgr.cpp:126-208 | no command gives any timer more calls, whatever handlers it sets off: pausing and resuming do not change the periods it is late by |
| TimerCalls.CallUsesUp | cppserver/tcore3/timer/tbase.cpp:46-47 | a call uses up one of the periods a timer is late by; one is left at most if it catches up |
| TimerCalls.FireBounded | cppserver/tcore3/timer/timermgr.cpp:63-78 | so does a whole turn of the drain for the timer polled, and it leaves one at most unless the timer is parked |
| TimerCalls.CallsInDrain | cppserver/tcore3/timer/timermgr.cpp:63-78 | for every orderly program: a drain calls a timer at most as often as its lag divided by its interval, rounded up; a timer started meanwhile is not called at all |
| TimerBound.BoundIsReached | cppserver/tcore3/timer/timermgr.cpp:63-78 | and for every m a run from launch leads to a drain in which a timer that is m periods late is called m times: two timers that pause themselves and resume each other |
| TimerCalls.AtMostTwice | cppserver/tcore3/timer/timermgr.cpp:63-78 | for any backlog and whatever other callbacks do, a timer is called at most twice in a drain unless its first poll parks it |
| TimerCalls.TwiceUnlessItPausesItself | cppserver/tcore3/timer/timermgr.cpp:63-78 | so at most twice if its own callbacks do not pause it, directly or in a handler they set off; those of other timers may |
| TimerExact.FireSpares | cppserver/tcore3/timer/timermgr.cpp:63-78 | a poll in which no command about the timer takes effect calls it once; then it is over, or caught up |
| TimerExact.ExactCalls | cppserver/tcore3/timer/timermgr.cpp:63-78 | in a drain in which no command about it takes effect, whatever callbacks do to others, a timer is called exactly as often as follows: not at all if paused or not late; once if its count runs out, if it is late by at most one interval, or by a multiple of it beyond the second; otherwise twice |
| TimerExact.CallsOfPassiveProgram | cppserver/tcore3/timer/timermgr.cpp:63-78 | so the number of calls of every timer in a drain of a program whose callbacks issue no commands |
| TimerProtocol.LifeCounts | cppserver/tcore3/timer/tbase.cpp:29-80 | the life of a timer counts its callbacks: onStart at most once, pauses and resumes alternating, and one onEnd exactly if it is over |
| TimerProtocol.EarlierLife | cppserver/tcore3/timer/tbase.cpp:29-80 | a log in order was in order at every earlier time |
| TimerProtocol.Before | cppserver/tcore3/timer/tbase.cpp:29-80 | before a callback of a timer there was no onEnd of it, before onTimer there was its onStart, and before onStart neither |
| TimerProtocol.CallbackProtocol | cppserver/tcore3/timer/timermgr.cpp:54-208 | in every state of every run from launch, for every orderly program: at most one onStart, before any onTimer; at most one onEnd and nothing after it; onEnd(true) after exactly the repeat count of calls, never more calls than that, fewer while the timer goes on; and until its onEnd the timer is in the map |
| TimerDeeds.AnsweredAtOnce | cppserver/tcore3/timer/tbase.cpp:55-80 | a kill, pause or resume that takes effect calls onEnd(false), onPause or onResume of its timer before anything else that it sets off |
| TimerDeeds.RunDone | cppserver/tcore3/timer/timermgr.cpp:54-208 | along every run, of any program: the commands that took effect, at every depth, account for all starts and for all these callbacks |
| TimerDeeds.EachAnswered | cppserver/tcore3/timer/timermgr.cpp:126-208 | so in every state of every run from launch there have been exactly as many onEnd(false), onPause and onResume of a timer as kills, pauses and resumes of it took effect, and every timer has the key, count, delay and interval of the start that made it, whoever issued it |
| TimerDeeds.KilledOnce | cppserver/tcore3/timer/timermgr.cpp:145-163 | a kill that takes effect, also in a callback of the timer itself, is answered by exactly one onEnd(false) and no onEnd(true), and its timer is gone for good |
| TimerWheel.TBase.constructor | cppserver/tcore3/timer/tbase.cpp:12-27 | a new timer is valid, on no list, neither started nor paused |
| TimerWheel.TList.PushBack | cppserver/tcore3/timer/tlist.cpp:5-15 | appends to the doubly linked list; the back-pointer names it |
| TimerWheel.TList.PopFront | cppserver/tcore3/timer/tlist.cpp:17-31 | takes the first timer, or answers null for an empty list; its links are cleared |
| TimerWheel.TList.Remove | cppserver/tcore3/timer/tlist.cpp:33-49 | takes out one timer wherever it stands and keeps the order of the others |
| TimerWheel.ListsApart | cppserver/tcore3/timer/tlist.cpp:5-49 | back-pointers keep all lists disjoint, and a timer that is on its way from one to another off all of them |
| TimerWheel.TGear.constructor | cppserver/tcore3/timer/tgear.cpp:7-14 | all slots empty, the cursor at the first |
| TimerWheel.TGear.CheckHighGear | cppserver/tcore3/timer/tgear.cpp:29-38 | all gears above the first have handed down the block of this tick; running and suspended lists are unchanged and no timer leaves the wheel |
| TimerWheel.TGear.UpdateToLowGear | cppserver/tcore3/timer/tgear.cpp:63-87 | the same from one gear up, the gears above it first; lower cursors unchanged |
| TimerWheel.TGear.HandDown | cppserver/tcore3/timer/tgear.cpp:78-84 | the slot is empty afterwards: the loop terminates because every timer goes to a lower gear |
| TimerWheel.TGear.Update | cppserver/tcore3/timer/tgear.cpp:40-61 | moves exactly the timers that expire at this tick to the running list, in order, and leaves everybody else where it is |
| TimerWheel.TimerMgr.LeavesSlot | cppserver/tcore3/timer/tgear.cpp:78-84 | the list a handed-down timer goes to is of a lower gear than the slot it is in |
| TimerWheel.TimerMgr.SlotIsDue | cppserver/tcore3/timer/tgear.cpp:44 | the slot at gear 0's cursor is exactly the set of timers on the wheel that expire now |
| TimerWheel.TimerMgr.SlotPassed | cppserver/tcore3/timer/tgear.cpp:86 | once the slot at its cursor is empty a gear holds only later blocks, and its cursor fits the next one |
| TimerWheel.TimerMgr.InItsPlace | cppserver/tcore3/timer/timermgr.cpp:234-251 | between any two operations a timer not being polled is mapped from its key and in exactly one list, the one its back-pointer names: suspended if and only if paused, running if and only if overdue, otherwise the slot for its block in a gear that has the block ahead |
| TimerWheel.TimerMgr.CursorsInPlace | cppserver/tcore3/timer/tgear.cpp:40-87 | the cursor of each gear is the number of blocks handed down modulo the gear size, possibly resting at the size; the timer being polled is in no list |
| TimerWheel.TimerMgr.constructor | cppserver/tcore3/timer/timermgr.cpp:33-43 | launch: five linked gears, empty lists, and the abstract state is the initial one |
| TimerWheel.TimerMgr.Schedule | cppserver/tcore3/timer/timermgr.cpp:223-228 | appends to the list for the expiry and to no other; overdue timers go to the running list, the others on the wheel; the window invariant is kept |
| TimerWheel.TimerMgr.MoveToRunning | cppserver/tcore3/timer/timermgr.cpp:230-232 | appends to the running list and nothing else |
| TimerWheel.TimerMgr.Tick | cppserver/tcore3/timer/timermgr.cpp:253-259 | refinement: on the abstract state a tick of the wheel makes exactly the unpaused timers due whose expiry is this tick, whatever gears they passed through |
| TimerWheel.TimerMgr.StartTimer | cppserver/tcore3/timer/timermgr.cpp:126-143 | refinement: the heap manager does what the simple map does; the key of a known timer is refused |
| TimerWheel.TimerMgr.KillTimer | cppserver/tcore3/timer/timermgr.cpp:145-163 | refinement for orderly commands, for listed timers, the polled timer and unknown keys alike, with what the onEnd(false) handler does, which may start, pause, resume or kill others and give commands about its own key |
| TimerWheel.TimerMgr.PauseTimer | cppserver/tcore3/timer/timermgr.cpp:165-184 | refinement for orderly commands: onPause is called with its timer still in its list, then the timer moves to the suspended list; the polled one is only flagged, whatever its handler does to it |
| TimerWheel.TimerMgr.ResumeTimer | cppserver/tcore3/timer/timermgr.cpp:186-208 | refinement for orderly commands: the expiry is shifted by the time paused, onResume is called, then the timer moves to the list for its expiry, unless it is being polled |
| TimerWheel.TimerMgr.ForceEnd | cppserver/tcore3/timer/tbase.cpp:55-60 | ends a valid timer and calls its onEnd(false); what that handler issues is carried out next, by RunHandler |
| TimerWheel.TimerMgr.RunHandler | cppserver/tcore3/timer/tbase.cpp:55-80 | refinement of the handler that was just called: its commands are carried out, at any depth, and its timer stays where it is |
| TimerWheel.TimerMgr.Execute | cppserver/tcore3/timer/timermgr.cpp:126-208 | refinement for any orderly command, at any depth of handlers; the timers whose handlers are running stay where they are |
| TimerWheel.TimerMgr.ExecuteAll | cppserver/tcore3/timer/tbase.cpp:29-80 | refinement for the orderly commands of a callback or handler |
| TimerWheel.TimerMgr.OnTimer | cppserver/tcore3/timer/tbase.cpp:29-53 | refinement of the callbacks of one poll and of all they set off in the manager meanwhile |
| TimerWheel.TimerMgr.RemoveTimerBase | cppserver/tcore3/timer/timermgr.cpp:96-110 | a timer killed while polled loses its key and stays alive until its poll is over |
| TimerWheel.TimerMgr.Del | cppserver/tcore3/timer/timermgr.cpp:261-271 | a timer off all lists is unmapped, if the key is still its own, and given back |
| TimerWheel.TimerMgr.AdjustExpire | cppserver/tcore3/timer/tbase.cpp:86-91 | the same on the fields of the timer, in wrapped 64-bit arithmetic, and in the terms of the abstract timer |
| TimerWheel.TimerMgr.FireFirst | cppserver/tcore3/timer/timermgr.cpp:63-78 | refinement of one turn of the drain loop |
| TimerWheel.TimerMgr.DrainRunning | cppserver/tcore3/timer/timermgr.cpp:63-78 | refinement of the whole loop, which terminates, and the recorded run goes on from the one before by turns only |
| TimerWheel.TimerMgr.RunTicks | cppserver/tcore3/timer/timermgr.cpp:58-60 | refinement of the loop over elapsed ticks, none if the clock went back; the recorded run goes on from the one before by as many ticks |
| TimerWheel.TimerMgr.CountTicks | cppserver/tcore3/timer/timermgr.cpp:55-61 | the first part of an update: the ticks since the last one, and the clock as TimerTime.ClockStep has it |
| TimerWheel.TimerMgr.Update | cppserver/tcore3/timer/timermgr.cpp:54-79 | update: as many ticks as tens of milliseconds passed, then the drain; the clock is moved on by them, to less than ten milliseconds before the present; afterwards the running list is empty; the recorded run extends the one before |
| TimerWheel.TimerMgr.Do | cppserver/tcore3/timer/timermgr.cpp:126-208 | a command from outside: the recorded abstract states of the manager are those before and the present one, and are a run from launch, so every theorem about runs, and about two states of one run, holds of the objects on the heap |
| TimerWheel.TimerMgr.TickOn | cppserver/tcore3/timer/timermgr.cpp:58-60 | likewise for a tick |
| TimerWheel.TimerMgr.TurnOn | cppserver/tcore3/timer/timermgr.cpp:63-78 | likewise for a turn of the drain |
| JsonValue.LessIsOrder | cppserver/public/json/json_value.cpp:217-223 | comparing names as strcmp does is a strict total order |
| JsonValue.PutIsUpdate | cppserver/public/json/json_value.cpp:1021-1042 | assigning a member keeps the members in order and changes exactly the one named |
| JsonValue.PutLast | cppserver/public/json/json_value.cpp:1021-1042 | members that arrive in order are appended |
| JsonLexer.LexReads | cppserver/public/json/json_reader.cpp:273-346 | one token read is the first of the text's tokens; after the last one the reader keeps answering the end |
| JsonLexer.FirmThenFirm | cppserver/public/json/json_reader.cpp:273-346 | texts that lex alike whatever follows can be put together |
| JsonLexer.FirmThenEmits | cppserver/public/json/json_reader.cpp:273-346 | and followed by a number or another text that must not be prolonged |
| JsonLexer.EmitsThenFirm | cppserver/public/json/json_reader.cpp:273-346 | which is safe before anything that is no number character |
| JsonLexer.FirmQuoted | cppserver/public/json/json_reader.cpp:463-476 | a quoted text whose first free quote is its last character is one token |
| JsonText.UIntToString | cppserver/public/json/json_writer.cpp:29-40 | digits are put down backwards before a NUL and are the decimal text; nothing before them is written, and eleven characters are enough |
| JsonText.ValueToStringInt | cppserver/public/json/json_writer.cpp:42-54 | the decimal text with its sign, read from the buffer as a C string |
| JsonText.ValueToStringUInt | cppserver/public/json/json_writer.cpp:57-64 | the decimal text of an unsigned integer |
| JsonText.ReadDigitsOfDecimal | cppserver/public/json/json_reader.cpp:597-607 | the digit loop gives up as soon as all digits but the last reach the threshold, one digit early |
| JsonText.IntReadsBack | cppserver/public/json/json_reader.cpp:581-616 | a printed integer is read back as itself from -2147483639 to 4294967289, and as a real number outside |
| JsonText.ContainsControlCharacter | cppserver/public/json/json_writer.cpp:21-28 | true exactly if the C string has a control character |
| JsonText.ContainsSpecial | cppserver/public/json/json_writer.cpp:113-117 | true exactly if the C string has a character that is escaped by name |
| JsonText.WalkAndEscape | cppserver/public/json/json_writer.cpp:118-170 | the loop over the characters prints the escaped text in quotes |
| JsonText.ValueToQuotedString | cppserver/public/json/json_writer.cpp:111-171 | the short way for plain strings and the walk over all others print the same text |
| JsonText.ScanEscaped | cppserver/public/json/json_reader.cpp:463-476 | the lexer ends an escaped string exactly at its closing quote, whatever it contains |
| JsonText.FirmQuote | cppserver/public/json/json_reader.cpp:463-476 | a quoted string is one token in any context |
| JsonText.HexReadsBack | cppserver/public/json/json_reader.cpp:733-756 | a control character written as four hexadecimal digits is read back |
| JsonText.EscapeReadsBack | cppserver/public/json/json_reader.cpp:658-701 | un-escaping undoes escaping, for every string |
| JsonTokens.ScalarReadsBack | cppserver/public/json/json_reader.cpp:194-242 | the token of a scalar is read as the scalar, whatever follows |
| JsonTokens.ElementsReadBack | cppserver/public/json/json_reader.cpp:539-578 | the rest of an array is read to its bracket, after any elements already read |
| JsonTokens.ArrayReadsBack | cppserver/public/json/json_reader.cpp:539-578 | the tokens of an array are read as the array and no token more is used up |
| JsonTokens.MembersReadBack | cppserver/public/json/json_reader.cpp:478-536 | the rest of an object is read to its brace, after any members with smaller names |
| JsonTokens.ObjectReadsBack | cppserver/public/json/json_reader.cpp:478-536 | the tokens of an object are read as the object |
| JsonTokens.ReadsBack | cppserver/public/json/json_reader.cpp:194-242 | for every value the tokens are read as that value, up to the canonical form of its integers |
| JsonTokens.CanonIsIdentityOnExact | cppserver/public/json/json_reader.cpp:581-616 | the canonical form is the value itself if and only if all integers are in the exact range and unsigned ones exceed the signed maximum |
| JsonWriter.WellFormedPrints | cppserver/public/json/json_writer.cpp:207-263 | every value of the round trip is one that the writers accept |
| JsonWriter.FastWriter.Write | cppserver/public/json/json_writer.cpp:197-205 | the compact text and a line break, whatever the writer wrote before |
| JsonWriter.FastWriter.WriteValue | cppserver/public/json/json_writer.cpp:207-263 | appends exactly the compact text of the value |
| JsonWriter.FastWriter.WriteArray | cppserver/public/json/json_writer.cpp:233-244 | appends brackets, elements and the commas between them |
| JsonWriter.FastWriter.WriteObject | cppserver/public/json/json_writer.cpp:245-262 | appends braces, members in order and the commas between them |
| JsonWriter.FastWriter.WriteMember | cppserver/public/json/json_writer.cpp:254-258 | appends quoted name, separator and value, in either style of separator |
| JsonWriter.LeafEmits | cppserver/public/json/json_writer.cpp:211-232 | the text of a scalar or empty container lexes to its tokens |
| JsonWriter.FastEmits | cppserver/public/json/json_writer.cpp:207-263 | the compact text of any value lexes to the tokens of the value |
| JsonWriter.FastElementsFirm | cppserver/public/json/json_writer.cpp:233-244 | so does the tail of an array |
| JsonWriter.FastMembersFirm | cppserver/public/json/json_writer.cpp:245-262 | so does the tail of an object |
| JsonWriter.EmittedReads | cppserver/public/json/json_reader.cpp:150-191 | any text that lexes to the tokens of a value is parsed as that value |
| JsonWriter.FastRoundTrip | cppserver/public/json/json_reader.cpp:150-191 | parsing what the compact writer wrote succeeds and gives the value back in canonical form, for every value, in both separator styles |
| JsonWriter.FastRoundTripExact | cppserver/public/json/json_reader.cpp:581-616 | the value comes back unchanged if and only if its integers are in the exact range |
| JsonStyled.StyledWriter.Write | cppserver/public/json/json_writer.cpp:276-287 | the styled text and a line break |
| JsonStyled.StyledWriter.WriteIndent | cppserver/public/json/json_writer.cpp:445-457 | a fresh line with the indentation, unless the document ends in a blank or a line break that makes it unnecessary |
| JsonStyled.StyledWriter.WriteValue | cppserver/public/json/json_writer.cpp:290-348 | only leaves are ever printed into the buffer; everything else goes to the document as the styled text |
| JsonStyled.StyledWriter.WriteObjectValue | cppserver/public/json/json_writer.cpp:317-346 | an object, one member on each line |
| JsonStyled.StyledWriter.WriteMember | cppserver/public/json/json_writer.cpp:328-334 | one member: indentation, name, separator, value |
| JsonStyled.StyledWriter.IsMultilineArray | cppserver/public/json/json_writer.cpp:404-432 | decides by length and content; afterwards the buffer is empty or holds exactly one text for each element, never a stale one, and it is full when the array goes on one line |
| JsonStyled.StyledWriter.WriteLine | cppserver/public/json/json_writer.cpp:387-397 | prints the one-line form from the buffer |
| JsonStyled.StyledWriter.WriteLines | cppserver/public/json/json_writer.cpp:361-384 | prints one element on each line, from the buffer if it was filled before the first of them |
| JsonStyled.StyledWriter.WriteArrayValue | cppserver/public/json/json_writer.cpp:351-401 | an array, on one line or several |
| JsonStyled.IndentedFirm | cppserver/public/json/json_writer.cpp:445-457 | indentation adds no token and separates what stands before it |
| JsonStyled.LineFirm | cppserver/public/json/json_writer.cpp:387-397 | the one-line form lexes to the tokens of the array |
| JsonStyled.StyledEmits | cppserver/public/json/json_writer.cpp:290-348 | printing a value at the end of a document adds exactly the tokens of the value |
| JsonStyled.StyledElementsEmit | cppserver/public/json/json_writer.cpp:361-384 | so for the elements of an array on several lines |
| JsonStyled.StyledMembersEmit | cppserver/public/json/json_writer.cpp:324-343 | so for the members of an object |
| JsonStyled.StyledRoundTrip | cppserver/public/json/json_writer.cpp:276-480 | the styled text is parsed as the value, and so as the same value as the compact text, for every value |
| JsonLayout.StyledIsShown | cppserver/public/json/json_writer.cpp:290-457 | the layout of the styled text: what is in a bracket stands on lines of its own, three blanks further in than the line with the bracket, and the closing bracket as far in as that line |
| JsonLayout.DocumentLayout | cppserver/public/json/json_writer.cpp:276-287 | so for the whole document, its first line not indented |
| JsonStyled.LineFits | cppserver/public/json/json_writer.cpp:404-432 | an array that is put on one line is shorter than the right margin |
| JsonParser.Reader.GetNextChar | cppserver/public/json/json_reader.cpp:807-813 | past the end of the text the cursor stays and the answer is NUL |
| JsonParser.Reader.SkipSpaces | cppserver/public/json/json_reader.cpp:348-359 | leaves the cursor at the first character that is no space |
| JsonParser.Reader.Match | cppserver/public/json/json_reader.cpp:362-374 | true exactly if the pattern comes next; only then does the cursor move |
| JsonParser.Reader.ReadNumber | cppserver/public/json/json_reader.cpp:451-461 | moves over the longest run of number characters |
| JsonParser.Reader.ReadString | cppserver/public/json/json_reader.cpp:463-476 | moves behind the first quote that is not escaped, or to the end of the text if there is none |
| JsonParser.Reader.ReadCStyleComment | cppserver/public/json/json_reader.cpp:425-435 | moves behind the end mark of the comment, or fails at the end of the text |
| JsonParser.Reader.ReadCppStyleComment | cppserver/public/json/json_reader.cpp:438-448 | moves behind the end of the line |
| JsonParser.Reader.ReadComment | cppserver/public/json/json_reader.cpp:377-402 | a comment of either kind, or an error |
| JsonParser.Reader.ReadToken | cppserver/public/json/json_reader.cpp:273-346 | the cursor loop reads the token the definition of tokens says, and moves on unless at the end |
| JsonParser.Reader.SkipCommentTokens | cppserver/public/json/json_reader.cpp:245-260 | the next token that is no comment |
| JsonParser.Reader.RecoverFromError | cppserver/public/json/json_reader.cpp:773-787 | stops behind the first token of the kind looked for, or at the end of the text, and neither adds nor loses a complaint |
| JsonParser.Reader.DecodeUnicodeEscapeSequence | cppserver/public/json/json_reader.cpp:733-756 | four hexadecimal digits, or one complaint |
| JsonParser.Reader.DecodeUnicodeCodePoint | cppserver/public/json/json_reader.cpp:703-730 | a code point, from a surrogate pair where one is due, or one complaint |
| JsonParser.Reader.DecodeStringBody | cppserver/public/json/json_reader.cpp:657-701 | the decoded string, or one complaint |
| JsonParser.Reader.DecodeNumberText | cppserver/public/json/json_reader.cpp:581-616 | the number, or one complaint |
| JsonParser.Reader.ReadValue | cppserver/public/json/json_reader.cpp:194-242 | the cursor reader answers what the definition on tokens answers and stops at the same place; one complaint exactly if it fails |
| JsonParser.Reader.ReadArray | cppserver/public/json/json_reader.cpp:538-578 | likewise for an array, its bracket read |
| JsonParser.Reader.ReadObject | cppserver/public/json/json_reader.cpp:478-536 | likewise for an object, its brace read |
| JsonParser.Reader.ParseDocument | cppserver/public/json/json_reader.cpp:150-191 | parse succeeds without a complaint, or fails with exactly one |
| JsonTheorems.ReadsStable | cppserver/public/json/json_reader.cpp:194-242 | whatever tokens are read, the value read survives being written and read again, if no real number is in it |
| JsonTheorems.ReparseIsIdentity | cppserver/public/json/json_reader.cpp:150-191 | for any document at all: if it parses to a value without real numbers, writing that and parsing again gives the same value |
| JsonTheorems.SeparatedReadBack | cppserver/public/json/json_reader.cpp:563-573 | the rest of an array is read whatever tokens other than a closing bracket or comment stand between its elements |
| JsonTheorems.AnySeparator | cppserver/public/json/json_reader.cpp:563-573 | the test for a bad separator in an array is never true: an array of any length, with any such tokens in place of its commas, is read as the same array |
| JsonTheorems.Utf8IsShortest | cppserver/public/json/json_reader.cpp:68-103 | every code point is encoded in the form that RFC 3629 section 3 prescribes, and decodes to itself |
| JsonTheorems.FourDigitsReadBack | cppserver/public/json/json_reader.cpp:733-756 | four hexadecimal digits, each in either case, are read as their number |
| JsonTheorems.SurrogatePairReadsBack | cppserver/public/json/json_reader.cpp:703-730 | a code point beyond 0xFFFF written as a surrogate pair (RFC 8259 section 7), in digits of either case, is read back |
| JsonTheorems.EscapeSequenceReadsBack | cppserver/public/json/json_reader.cpp:733-756 | any other code point is read back from one escape, in digits of either case |
| JsonTheorems.EscapesInString | cppserver/public/json/json_reader.cpp:657-701 | in a string, the UTF-8 form of the code point takes the place of either |
| JsonGrammar.ShortEscapes | cppserver/public/json/json_reader.cpp:669-690 | the eight escapes of RFC 8259 section 7, and no other char after a backslash, stand for the chars given there |
| JsonGrammar.StringReads | cppserver/public/json/json_reader.cpp:657-701 | any string of RFC 8259 section 7, in any mixture of chars, short escapes and code points, is read as what it means |
| JsonGrammar.StringScans | cppserver/public/json/json_reader.cpp:463-476 | and its token ends at its last quote |
| JsonGrammar.IntegerReads | cppserver/public/json/json_reader.cpp:581-616 | any integer of RFC 8259 section 6 is read as the number its digits denote in the exact range, and as a real number outside; minus zero as zero |
| JsonGrammar.RealReads | cppserver/public/json/json_reader.cpp:581-616 | any number with a fraction or an exponent is read as a real number |
| JsonGrammar.OtherNumbers | cppserver/public/json/json_reader.cpp:581-627 | number tokens beyond the grammar: a minus sign alone is taken for zero, one before a fraction for a real number, others are refused |
| JsonGrammar.TokensRead | cppserver/public/json/json_reader.cpp:194-242 | the tokens of any value of RFC 8259, members in any order and names repeated, are read as what it means, the last member of a name staying |
| JsonGrammar.WhiteSpace | cppserver/public/json/json_reader.cpp:348-359 | each of blank, tab, line feed and carriage return makes no difference before a token, and no other char is skipped |
| JsonGrammar.SpacedLexes | cppserver/public/json/json_reader.cpp:273-346 | tokens with any white space between them are read as those tokens |
| JsonGrammar.EveryText | cppserver/public/json/json_reader.cpp:150-242 | every text of RFC 8259, with any white space between its tokens, is parsed as what it means |
| JsonGrammar.PrintedSpaced | cppserver/public/json/json_reader.cpp:150-242 | also what the writers print, spaced out in any other way |
| JsonComments.BlockComment | cppserver/public/json/json_reader.cpp:425-435 | a comment is what stands between its marks, the second of which does not come earlier |
| JsonComments.LineComment | cppserver/public/json/json_reader.cpp:438-448 | two slashes begin a comment up to the end of the line, or of the text |
| JsonComments.ValueIgnoresComments | cppserver/public/json/json_reader.cpp:194-260 | wherever comments stand but between the brackets of an empty array or before a colon, what is read without them is read with them |
| JsonComments.CommentsIgnored | cppserver/public/json/json_reader.cpp:150-191 | so is the whole document |
| JsonComments.CommentsRefused | cppserver/public/json/json_reader.cpp:510-517 | at those two places a comment is refused |
| JsonConforms.StringPrinted | cppserver/public/json/json_writer.cpp:111-171 | every string is printed as a string of RFC 8259 that means it, no control character standing for itself |
| JsonConforms.Conforms | cppserver/public/json/json_writer.cpp:207-263 | the tokens printed for a value are those of a text of RFC 8259, if its real numbers are numbers of it |
| JsonConforms.CompactConforms | cppserver/public/json/json_writer.cpp:197-263 | the compact text is that text, without any white space, and means the value |
| ClosestPoint.OuterSides | cppserver/logic/module/navigation/DetourCommon.cpp:48-57 | beyond a corner of an edge and on its outer side means on the outer side of the next edge too: the order of the tests does not matter |
| ClosestPoint.FaceAreas | cppserver/logic/module/navigation/DetourCommon.cpp:97-103 | where all region tests failed the three areas va, vb, vc are positive |
| ClosestPoint.TriangleProducts | cppserver/logic/module/navigation/DetourCommon.cpp:27-33 | the scalar products of any triangle and point, degenerate ones included, satisfy what the case distinction needs |
| ClosestPoint.EdgeIsObtuse | cppserver/logic/module/navigation/DetourCommon.cpp:48-57 | the foot of the perpendicular on an edge sees every corner at an obtuse angle |
| ClosestPoint.Cramer | cppserver/logic/module/navigation/DetourCommon.cpp:97-106 | the barycentric quotients solve the normal equations |
| ClosestPoint.FaceIsObtuse | cppserver/logic/module/navigation/DetourCommon.cpp:97-106 | so does the foot on the face, which lies in the triangle; there the divisor is not zero |
| ClosestPoint.CodeIsObtuse | cppserver/logic/module/navigation/DetourCommon.cpp:24-108 | every branch returns weights of the triangle that see all corners at obtuse angles; the quotient is 0/0 in one case only |
| ClosestPoint.ObtuseIsClosest | cppserver/logic/module/navigation/DetourCommon.cpp:24-108 | such a point is closer to p than any other point of the triangle, by the law of cosines |
| ClosestPoint.ClosestPoint | cppserver/logic/module/navigation/DetourCommon.cpp:24-108 | the point returned lies in the triangle and every other point x of it is further from p, by at least its distance from the point returned (squared); 0/0 arises if and only if a and b coincide and p lies beyond them towards c |
| ClosestPoint.OrderOfCorners | cppserver/logic/module/navigation/DetourCommon.cpp:24-108 | the order of the corners makes no difference wherever both orders give a point |
| ClosestPoint.InsideIsFixed | cppserver/logic/module/navigation/DetourCommon.cpp:24-108 | a point of the triangle is its own closest point |
| ObjectPool.Pool.Add | cppserver/public/tpool.h:188-193 | puts a chunk at the head of the doubly linked free list |
| ObjectPool.Pool.Remove | cppserver/public/tpool.h:195-207 | takes one chunk out and keeps the order of the others; a chunk on no list changes nothing |
| ObjectPool.Pool.ArrangeChunkList | cppserver/public/tpool.h:173-186 | a new page's chunks are new, name it as their parent and are all free |
| ObjectPool.Pool.PushPage | cppserver/public/tpool.h:145-148 | a page at the head of the page list |
| ObjectPool.Pool.UnlinkPage | cppserver/public/tpool.h:160-167 | one page out of the page list, the order of the others kept |
| ObjectPool.Pool.AllocChunk | cppserver/public/tpool.h:138-152 | so many pages more, all free; chunks and pages there were are still there |
| ObjectPool.Pool.constructor | cppserver/public/tpool.h:46-48 | as many pages as asked for, all chunks free |
| ObjectPool.Pool.Create | cppserver/public/tpool.h:107-125 | hands out a chunk of the pool that was not in use, and keeps the invariant: free list exactly the free chunks of the live pages, counts exact |
| ObjectPool.Pool.Recover | cppserver/public/tpool.h:127-136 | takes back a chunk in use; a page goes if and only if it is free as a whole and more pages are left than the minimum, which the page count never goes below |
| ObjectPool.Pool.FreeChunkList | cppserver/public/tpool.h:154-171 | releases a page all of whose chunks are free: they leave the free list and the pool, everybody else stays |
| ObjectPool.Pool.ChunksOfPages | cppserver/public/tpool.h:103 | the pages hold the chunks without overlap, each as many as the page size |
| ObjectPool.Pool.Integrity | cppserver/public/tpool.h:107-207 | between any two operations the free list is exactly the free chunks of the live pages, linked both ways; a chunk is in one page; a page's count is the number of its chunks in use |
| ObjectPool.Pool.Conservation | cppserver/public/tpool.h:103 | free chunks and chunks in use add up to the number the pool reports |
| BlockAllocator.BuildLookup | cppserver/public/blockallocator.cpp:54-67 | the table gives every size the smallest class whose blocks can hold it |
| BlockAllocator.FitsOnce | cppserver/public/blockallocator.cpp:54-67 | that class is unique |
| BlockAllocator.BlocksApart | cppserver/public/blockallocator.cpp:118-122 | two blocks of a chunk do not overlap |
| BlockAllocator.NoCommonByte | cppserver/public/blockallocator.cpp:151-157 | what it means that two blocks, or a block and a stored address of eight bytes, do not overlap: no byte is in both |
| BlockAllocator.SizesAligned | cppserver/public/blockallocator.cpp:24-39 | all sizes are multiples of sixteen, each at most twice the one before, the largest 640 |
| BlockAllocator.ChainCarved | cppserver/public/blockallocator.cpp:118-126 | blocks linked each to the next make up a free list of exactly the carved blocks |
| BlockAllocator.ChainElsewhere | cppserver/public/blockallocator.cpp:154-156 | writing into a block that is on no free list changes no free list |
| BlockAllocator.PartitionGrow | cppserver/public/blockallocator.cpp:118-129 | the other blocks of a new chunk are the free list of their class; free and live blocks still partition all carved blocks |
| BlockAllocator.Taken | cppserver/public/blockallocator.cpp:93-98 | taking the head of a free list: not live before, live afterwards, partition kept |
| BlockAllocator.GivenBack | cppserver/public/blockallocator.cpp:151-156 | giving it back: on no free list before, on its own afterwards, partition kept |
| BlockAllocator.RegionTaken | cppserver/public/blockallocator.cpp:85-89 | a large block is a region of its own and overlaps nothing |
| BlockAllocator.RegionGone | cppserver/public/blockallocator.cpp:146-149 | and goes back as that region |
| BlockAllocator.Allocator.LiveBlocksApart | cppserver/public/blockallocator.cpp:77-157 | in every state the operations reach, no two live blocks share a byte, and a small block is at least as large as was asked for |
| BlockAllocator.Allocator.CarvedBlocks | cppserver/public/blockallocator.cpp:77-157 | every block carved from a chunk is either live or exactly once on the free list of its class and on no other; the size record is the sum of the live sizes |
| BlockAllocator.Allocator.FreeIsElsewhere | cppserver/public/blockallocator.cpp:151-157 | the address kept in a free block lies outside every live block |
| BlockAllocator.Allocator.UserWrites | cppserver/public/blockallocator.cpp:77-131 | whatever a user writes anywhere in a live block, every free list stays as it is and the invariant holds |
| BlockAllocator.Allocator.constructor | cppserver/public/blockallocator.cpp:44-68 | nothing live, no chunk, the table filled |
| BlockAllocator.Allocator.Allocate | cppserver/public/blockallocator.cpp:77-131 | nothing for size zero; otherwise an address that was not live becomes live with that size: the head of the list of its class, the first block of a new chunk, or a region of its own |
| BlockAllocator.Allocator.NewChunk | cppserver/public/blockallocator.cpp:99-130 | carves a chunk when the list of the class is empty |
| BlockAllocator.Allocator.Carve | cppserver/public/blockallocator.cpp:118-124 | links every block to the next and writes nowhere outside the chunk |
| BlockAllocator.Allocator.Free | cppserver/public/blockallocator.cpp:133-136 | exactly that block is not live any more; the size record is the sum of the live sizes again |
| BlockAllocator.Allocator.Release | cppserver/public/blockallocator.cpp:138-157 | back to the head of the list of its class, or to the system if it is large; nothing for the null pointer |
| BlockAllocator.Allocator.ClearFree | cppserver/public/blockallocator.cpp:169-174 | no block is live afterwards, in whatever order they are freed, and the size record is zero |
| SpinLock.StepInside | cppserver/public/spinlock.h:37-62 | a step of the thread inside leaves the lock as that thread must find it next, or free |
| SpinLock.StepOutside | cppserver/public/spinlock.h:37-62 | a step of a thread outside changes nothing in the lock unless the thread gets in, which it does only into a free lock |
| SpinLock.StepKeepsInv | cppserver/public/spinlock.h:37-62 | every atomic step of every thread keeps the invariant |
| SpinLock.RunKeepsInv | cppserver/public/spinlock.h:37-62 | so does every interleaving |
| SpinLock.MutualExclusion | cppserver/public/spinlock.h:37-62 | in every state of every interleaving of any number of threads: at most one is inside, the flag says whether one is, a thread that reads its own id is it, and at rest the reference count is its nesting depth |
| SpinLock.OwnerKnowsItself | cppserver/public/spinlock.h:38-53 | the assertion in unlock never fails, and a thread that holds the lock never waits for itself |
| SpinLock.CallsEnd | cppserver/public/spinlock.h:39-41 | a call takes a bounded number of its own steps and waits at one of them only, for a flag that another thread holds |
| SpinLock.DepthCountsCalls | cppserver/public/spinlock.h:44-61 | the depth of a thread changes only by one where a call of its own returns |
| RingQueue.TQueue.constructor | cppserver/public/tqueue.h:22-24 | an empty ring of the block size |
| RingQueue.TQueue.TakenIsWindow | cppserver/public/tqueue.h:28-65 | the spaces taken are exactly the circular window from the reading end, as long as the wrapped counters say, and hold what was pushed and not pulled yet, in order |
| RingQueue.TQueue.FullMeans | cppserver/public/tqueue.h:30-32 | the space at the writing end is taken exactly when all are, and then both ends meet: growth is entered only so |
| RingQueue.TQueue.Push | cppserver/public/tqueue.h:28-40 | appends, growing if the ring is full; every run is first in, first out, across any number of growths |
| RingQueue.TQueue.TryPull | cppserver/public/tqueue.h:42-57 | takes the oldest element, or says there is none and changes nothing |
| RingQueue.TQueue.IsEmpty | cppserver/public/tqueue.h:59-61 | comparing the wrapped counters tells whether the queue is empty |
| RingQueue.TQueue.Count | cppserver/public/tqueue.h:63-65 | their wrapped difference is the number of elements |
| RingQueue.TQueue.CopyPiece | cppserver/public/tqueue.h:81-83 | the copy of a window in one piece never steps its source: it copies the first element again and again |
| RingQueue.TQueue.CopyPieces | cppserver/public/tqueue.h:86-92 | the copy of a window that goes round the end is exact |
| RingQueue.TQueue.DoubleQueueSize | cppserver/public/tqueue.h:68-98 | growth keeps the contents unless the window lies in one piece, where it leaves copies of the first element; push never gets there |
| CrowdPath.PushKeeps | cppserver/logic/module/navigation/DetourCrowd.cpp:860-868 | going on by one polygon, or straight back, leaves no trackback; the last polygon is the one gone to and the first stays |
| CrowdPath.ReducedPath | cppserver/logic/module/navigation/DetourCrowd.cpp:857-869 | the reduced path has no trackback, keeps its first and last polygon, and every step of it was a step of the path: a walk stays a walk |
| CrowdPath.CollapseKeepsReduced | cppserver/logic/module/navigation/DetourCrowd.cpp:862-867 | no removal changes what remains when none is left to remove |
| CrowdPath.OrderOfRemovals | cppserver/logic/module/navigation/DetourCrowd.cpp:857-869 | in whichever order trackbacks are removed the same path remains |
| CrowdPath.Advance | cppserver/logic/module/navigation/DetourCrowd.cpp:858-869 | one step of the loop, forward or two back, keeps the result |
| CrowdPath.RemoveTrackbacks | cppserver/logic/module/navigation/DetourCrowd.cpp:857-869 | the in-place loop terminates and leaves the reduced path |
| CrowdPath.CloseGap | cppserver/logic/module/navigation/DetourCrowd.cpp:862-866 | the memmove takes out exactly the two polygons of the trackback |
| CrowdPath.MergePaths | cppserver/logic/module/navigation/DetourCrowd.cpp:838-871 | accepts the new path exactly if it begins where the old one ends; then the array holds the two joined, cut to the room there is, without trackbacks |
| CrowdPath.MergedPath | cppserver/logic/module/navigation/DetourCrowd.cpp:838-871 | the merged path begins and ends where the joined one does and has no trackback, if the old path has more than one polygon |
| XmlText.XMLPrinter.PrintString | cppserver/public/tinyxml/tinyxml2.cpp:2494-2546 | printing runs between entities whole is escaping character by character |
| XmlText.EscapedAppend | cppserver/public/tinyxml/tinyxml2.cpp:2494-2546 | escaping goes piece by piece |
| XmlText.EscapedHasNo | cppserver/public/tinyxml/tinyxml2.cpp:2494-2546 | escaped text has none of the flagged characters but the ampersand |
| XmlText.CharacterRef | cppserver/public/tinyxml/tinyxml2.cpp:456-549 | what a reference is replaced by is never longer than the reference |
| XmlText.Unescaped | cppserver/public/tinyxml/tinyxml2.cpp:267-365 | so un-escaped text is never longer than the text |
| XmlText.ReadBackwards | cppserver/public/tinyxml/tinyxml2.cpp:478-536 | the loop over the digits from the last back, in 32-bit arithmetic, up to the mark or the first that is no digit |
| XmlText.GetCharacterRef | cppserver/public/tinyxml/tinyxml2.cpp:456-549 | the bytes and the new read position, or that there is no reference |
| XmlText.FindEntity | cppserver/public/tinyxml/tinyxml2.cpp:331-345 | the first entry of the table whose pattern and semicolon stand there |
| XmlText.Turn | cppserver/public/tinyxml/tinyxml2.cpp:279-360 | one turn in place: what is written is the step's text, everything else is untouched, and the write pointer never gets ahead of the read pointer |
| XmlText.PutCharacterRef | cppserver/public/tinyxml/tinyxml2.cpp:308-329 | likewise for a numeric reference |
| XmlText.StrPair.constructor | cppserver/public/tinyxml/tinyxml2.h:135-195 | a pair over a piece of the document that is still to be un-escaped |
| XmlText.StrPair.GetStr | cppserver/public/tinyxml/tinyxml2.cpp:267-365 | un-escaping in place leaves exactly the un-escaped text, ended by a NUL, and touches nothing before the piece or behind its end |
| XmlText.ParseText | cppserver/public/tinyxml/tinyxml2.cpp:193-215 | finds the first place where the end tag stands, or that there is none |
| XmlText.PrintedIsCutOut | cppserver/public/tinyxml/tinyxml2.cpp:193-215 | the end tag behind printed text is found at the end of it and not earlier, in text and in attributes |
| XmlText.StepReads | cppserver/public/tinyxml/tinyxml2.cpp:279-360 | a step un-escapes exactly what one character, or one line end, was escaped to |
| XmlText.UnescapedEscaped | cppserver/public/tinyxml/tinyxml2.cpp:267-365 | from any point on, un-escaping undoes escaping up to line ends |
| XmlText.PrintThenParse | cppserver/public/tinyxml/tinyxml2.cpp:267-365 | printed and parsed text comes back with its line ends normalised, and unchanged if and only if it has no carriage return, in text and in attributes |
| XmlText.NewlinesKeepIff | cppserver/public/tinyxml/tinyxml2.cpp:281-300 | normalising line ends changes nothing exactly if there is no carriage return, and leaves none |
| XmlText.EntityReads | cppserver/public/tinyxml/tinyxml2.cpp:331-345 | the printed entity is read as its character |
| XmlText.BackwardsNumber | cppserver/public/tinyxml/tinyxml2.cpp:478-543 | the backward loop gives the number that the digits stand for, with any leading zeros; its 32-bit factor does not wrap around where it matters |
| XmlText.NumericReference | cppserver/public/tinyxml/tinyxml2.cpp:456-549 | a reference to any code point becomes its UTF-8 form (RFC 3629 section 3), with any leading zeros |
| XmlText.WrittenReference | cppserver/public/tinyxml/tinyxml2.cpp:456-549 | so written in decimal digits or in hexadecimal ones of either case, whatever follows |
| XmlReads.PrintedForms | cppserver/public/tinyxml/tinyxml2.cpp:2494-2546 | the five entities of XML 1.0 section 4.6 as they are printed, quotes in attributes only |
| XmlReads.LineEnds | cppserver/public/tinyxml/tinyxml2.cpp:281-300 | CR LF, LF CR, CR and LF each become one line feed |
| XmlReads.PiecesRead | cppserver/public/tinyxml/tinyxml2.cpp:267-365 | any text made of chars, entities, references and line ends is un-escaped to what these mean |
| XmlReads.EveryText | cppserver/public/tinyxml/tinyxml2.cpp:267-365 | so is a whole one, in text and in attributes alike |
| XmlText.Utf8AsInJson | cppserver/public/tinyxml/tinyxml2.cpp:403-453 | both encoders of the repository agree on every code point |
| XmlEntities.UnknownKeptIff | cppserver/public/tinyxml/tinyxml2.cpp:338-345 | for every text and every unknown ampersand in it: what appears in its place is the character that stands at the write pointer, so the ampersand is kept if and only if an ampersand stands there |
| XmlEntities.UnknownIsKept | cppserver/public/tinyxml/tinyxml2.cpp:338-345 | what can be seen beforehand: with no known entity, numeric reference or line end of two characters before it, an unknown ampersand is kept in its place |
| XmlEntities.UnknownIsLost | cppserver/public/tinyxml/tinyxml2.cpp:338-345 | directly behind an entity of the table it is lost, whatever follows: the second character of that entity appears instead |
| XmlEntities.LostIn | cppserver/public/tinyxml/tinyxml2.cpp:338-345 | one such text: "&lt;&x" comes out as "<lx" |
| Blocks.FoldAppend | cppserver/public/md5.cpp:177-180 | digesting whole blocks in two pieces is digesting them in one |
| Blocks.PaddedLength | cppserver/public/md5.cpp:185-209 | the padded message is the shortest one of whole blocks with room for the mark and the length |
| Blocks.PaddedEnd | cppserver/public/md5.cpp:187-198 | padding takes one block or two, and which |
| Blocks.AbsorbMore | cppserver/public/md5.cpp:162-182 | a running digest that takes more data stands for the longer message |
| Blocks.AbsorbEnd | cppserver/public/md5.cpp:185-209 | digesting what is left with the padding is digesting the padded message |
| Md5.FastF | cppserver/public/md5.cpp:7 | the short form of F is F of RFC 1321 section 3.4 |
| Md5.FastG | cppserver/public/md5.cpp:8 | the short form of G is G of RFC 1321 section 3.4 |
| Md5.BitByBit | cppserver/public/md5.cpp:7-10 | the four round functions bit by bit: F and G select, H is the parity, I turns over |
| Md5.LinesAgree | cppserver/public/md5.cpp:67-141 | each of the 64 lines names the word, the constant and the shift that RFC 1321 section 3.4 gives its step; word and shift follow the formulas of the definition |
| Md5.StepsAgree | cppserver/public/md5.cpp:45-142 | keeping the registers and naming them in turn, with the short forms of F and G, is the step of the definition that passes the four words on |
| Md5.CompressIsRfc | cppserver/public/md5.cpp:45-142 | so the block function is the one of RFC 1321 section 3.4 |
| Md5Values.EmptyDigest | cppserver/public/md5.cpp:36-227 | the digest of the empty message in RFC 1321 section A.5 |
| Md5Values.AbcDigest | cppserver/public/md5.cpp:36-227 | and of "abc" |
| Md5.CounterAdds | cppserver/public/md5.cpp:158-161 | lo and hi, with the carry found by comparing, count the bytes modulo 2^61, for updates of any size |
| Md5.CounterIsLength | cppserver/public/md5.cpp:200-208 | lo shifted by three and hi are the length in bits modulo 2^64 |
| Md5.Context.constructor | cppserver/public/md5.cpp:144-152 | the empty message |
| Md5.Context.Body | cppserver/public/md5.cpp:45-142 | the loop over blocks is the fold of the block function |
| Md5.Context.Update | cppserver/public/md5.cpp:154-183 | any split of a message into updates: the context stands for the message so far followed by the data |
| Md5.Context.Final | cppserver/public/md5.cpp:185-227 | the result is the fold over the message padded as RFC 1321 sections 3.1 and 3.2 say |
| Md5.Context.Pad | cppserver/public/md5.cpp:187-209 | in one block or two, as the room left requires |
| Sha1.SameCh | cppserver/public/sha1.cpp:153 | the code's choice function is Ch of FIPS 180-4 section 4.1.1 |
| Sha1.SameMaj | cppserver/public/sha1.cpp:174 | the code's majority function is Maj of FIPS 180-4 section 4.1.1 |
| Sha1.BitByBit | cppserver/public/sha1.cpp:153-174 | the three round functions bit by bit: choice, majority and parity |
| Sha1.CountersAreLength | cppserver/public/sha1.cpp:222-229 | the two counters are the length in bits as 64 bits |
| Sha1.Schedule | cppserver/public/sha1.cpp:135-144 | the loop computes the message schedule |
| Sha1.Sha1Object.ProcessMessageBlock | cppserver/public/sha1.cpp:120-200 | the four loops over 80 rounds, with choice and majority written as the code has them, compute the block function of FIPS 180-4 section 6.1.2; the block is empty afterwards |
| Sha1Values.AbcDigest | cppserver/public/sha1.cpp:11-232 | the digest of "abc" that is published with FIPS 180-4 |
| Sha1.Sha1Object.constructor | cppserver/public/sha1.cpp:4-6 | the empty message, neither computed nor corrupted |
| Sha1.Sha1Object.Reset | cppserver/public/sha1.cpp:11-24 | back to the empty message from any state |
| Sha1.Sha1Object.Input | cppserver/public/sha1.cpp:45-74 | any split of a message into inputs; corrupted for good if and only if data comes after the result or the length reaches 2^64 bits |
| Sha1.Sha1Object.TakeByte | cppserver/public/sha1.cpp:56-70 | one byte more in the message, and a block digested when it is full |
| Sha1.Sha1Object.CountByte | cppserver/public/sha1.cpp:58-66 | the carry between the counters, and corruption exactly at 2^64 bits |
| Sha1.Sha1Object.PadMessage | cppserver/public/sha1.cpp:202-232 | digests the padding in one block or two |
| Sha1.Sha1Object.EndOf | cppserver/public/sha1.cpp:202-232 | which gives the digest of the whole message padded as FIPS 180-4 section 5.1.1 says |
| Sha1.Sha1Object.Result | cppserver/public/sha1.cpp:26-43 | fails exactly if corrupted; otherwise the digest of the message, asked for any number of times |
| XmlReads.LastEightDigits | cppserver/public/tinyxml/tinyxml2.cpp:478-536 | only the last eight hexadecimal digits of a reference count: its number is taken modulo 2^32 |
| JsonConforms.EscapedByName | cppserver/public/json/json_writer.cpp:21-28 | the chars escaped by name, and the control characters, are exactly those that the short way looks for |
| JsonLayout.OneLineIff | cppserver/public/json/json_writer.cpp:404-432 | a non-empty array stands on one line exactly when its elements need no more than one each, there are at most 24 of them, and the line is shorter than 74 chars |
| JsonLayout.Separators | cppserver/public/json/json_writer.cpp:254-258 | a colon stands between name and value of the compact text, with a blank behind it in the style for YAML |
| CrowdPath.CutToRoom | cppserver/logic/module/navigation/DetourCrowd.cpp:844-853 | what is joined is the two paths in one piece, cut off where the room ends |

## Left out

- TimerMgr.StartTimer: the assertions on delay and interval are preconditions, and so is their bound of 2^32 ticks, beyond which the wheel does not terminate; the key of a timer in use is refused before they are tested in the code and after them here.
- TimerMgr.PauseTimer: the debug assertion (no pause of a paused timer) is a precondition; in a program of callbacks such a command is skipped. Handlers that do something to their own timer while it is in a list are outside the refinement; TimerHandlers is about them.
- TimerMgr.ResumeTimer: likewise (no resume of a running timer).
- ExecKeeps: only orderly commands, so no handler of onPause or onResume that does something to its own timer while that is in a list, not even one that in the end leaves it as it was told, which PlacedIff shows to do no harm; onEnd(false) handlers, and all handlers of the timer being polled, are free. A program counts as orderly if it is so in all states in which the invariant holds.
- TimerMgr.Update: requires the tick counter to stay below 2^63; the clock is a parameter, read once.
- TimerMgr.OnTimer: a timer killed in its own onStart goes on as in a release build, where the assertion after onStart is not compiled in.
- Programs whose handlers set each other off without end: every nesting is finite here.
- Timers otherwise: shutdown, reuse of their memory, tracing, file and line strings, and the hashing of keys.
- ValueToStringInt: the least 32-bit integer is left out, because negating it is undefined in the code.
- FastRoundTrip: the least 32-bit integer is left out for the same reason; real numbers are kept as the text that is printed for them, so the rounding of printf and sscanf is not modelled; StyledRoundTrip likewise.
- ReparseIsIdentity: only for documents without real numbers, for the same reason.
- ReadValue: after a failure the place of the cursor and the kind of complaint are open.
- ReadArray: likewise.
- ReadObject: likewise.
- ParseDocument: comments are skipped but not collected, the optional strict features are off, and the text and place of error messages are not modelled, only which complaint and how many; depth of recursion is not limited.
- WriteValue: of the styled writer, comments and 32-bit overflow of the line length; the writer to streams is left out altogether.
- JSON arrays are dense sequences here, maps keyed by index in the code; paths into values, iterators and removal are left out.
- ClosestPoint: over the reals, so rounding is not modelled; the other functions of that file are left out.
- Pool: construction and destruction of the objects in the chunks, and the debug fields.
- Push: requires the ring to stay below 2^32 spaces. Each operation of the queue is one step: a reader between the test and the growth is not modelled.
- MutualExclusion: for sequentially consistent memory, and threads that unlock only what they have locked; clear is left out.
- MergePaths: the corridor, the polygons found and the room are inputs, the corridor no longer than the room; what the navigation mesh answers and everything else in the crowd is left out.
- StrPair.GetStr: white space is not collapsed, and a pair that is already un-escaped is not asked for again; the document tree, elements and attributes are left out.
- CharacterRef: the running sum of a numeric reference is unbounded here, its terms have 32 bits.
- CompressIsRfc: the 64 constants are written out on both sides, not derived from the sine, and the order of bytes in a word is one definition; the digests in Md5Values fix both. Hexadecimal output and digests of files are left out.
- Sha1Object: the stream operators are left out.
- Allocate: what malloc answers is a parameter, any region apart from all in use; the array of chunks is a sequence and does not grow by copying; the record of sizes is unbounded.
- Free: requires the size that was asked for, or the null pointer; clear, which drops live blocks, is left out.
- Base64, URL coding, string splitting, the byte buffer and the packing of polygon references: easy members.
- The pool's sort does not keep the list for neighbouring nodes, and the identifier generator does not advance its last timestamp after waiting: neither is modelled.
- Steering and collision code, network, HTTP, database and shared memory clients, logging, loading of libraries and code generators.
