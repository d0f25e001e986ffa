# ThreadCity scheduling core in Dafny

This project models the user-space cooperative threading library of the
ThreadCity repository, its tiered scheduler, its cooperative mutex, and the
grid movement of the city simulation.

- **Thread registry** (`Threads.Registry`, from `src/mypthreads/thread.rs`).
  It holds the table of thread control blocks, at most 64 of them, and the
  current-thread slot. It also holds the scheduler's shared cells. Create,
  end, yield, join, detach and change-policy are methods. Each method states
  the new table, the new current slot and the new scheduler cells in terms
  of the old ones. The methods also keep two invariants: a record's id is
  its index, and every Running record is the current thread.
- **Tiered scheduler** (`Scheduler`, `RealTime`, `Lottery`, `RoundRobin`,
  `SchedUtil`, from `src/scheduler/`).
  - `Scheduler.Next` runs the deadline sweep and the snapshot loop. It then
    calls the three tier pickers in priority order.
  - `Scheduler.Select` is the pure function `Next` is proved against.
    Lemmas about `Select` state the tier order and that every pick was
    Ready.
  - The real-time tier sorts an array in place with a stable insertion
    sort. The sort is proved equal to a functional stable sort, which is
    proved sorted, a permutation of its input, and headed by the first
    entry with the least deadline.
  - The lottery draw is a parameter. The lottery tier is proved to return
    the entry that owns the draw. An entry with t tickets owns exactly t
    of the `total` draws.
  - The round-robin cursor is proved to reset, to advance modulo the list
    length, and to cycle through the list in order.
- **Cooperative mutex** (`CoopMutex.MyMutex`, from
  `src/mypthreads/mutex.rs`). It has a lock flag and an owner. New, lock,
  try_lock, unlock and destroy keep the invariant "locked exactly when
  there is an owner". `Swap` is the atomic step inside lock and try_lock
  and does not keep it on its own. A failed turn of lock yields through
  the thread registry, as the source does.
- **City movement** (`ThreadCity.City`, from `src/threadcity/city.rs`).
  A step moves each vehicle one cell per axis toward its destination. It
  returns the bridge crossings instead of performing them. Lemmas show
  that a step lowers every remaining distance by one and that the fleet
  arrives after as many steps as the largest distance.

Each of the three inputs the source reads from its environment becomes a
parameter:
- The clock reading is `now`.
- The lottery's random number is `draw`, which must lie in `[0, total)`
  whenever `total > 0`.
- For `end` and `yield`, the scheduler sees the table as it stands at that
  point of the operation. For `end` that is after the current thread is
  Finished and its waiter is Ready (`Threads.Finish`).

Behaviours of the source that the model keeps as written:
- `src/scheduler/rr.rs:9-11` resets an out-of-range cursor to 0; it does
  not clamp it to the last index.
- The sweep at `src/scheduler/mod.rs:30-35` tests `!= Finished`, although
  its comment at `src/scheduler/mod.rs:25` speaks of Ready threads. So
  every real-time record that is not Finished counts.
- `end` sets the recorded waiter to Ready whatever its state was
  (`src/mypthreads/thread.rs:141-145`).
- `yield` sets the old current thread to Ready whatever its state was
  (`src/mypthreads/thread.rs:179-181`). So a thread that `join` has just
  Blocked (`src/mypthreads/thread.rs:222-224`) becomes Ready again at the
  first yield of its polling loop that switches to another thread
  (`Threads.Registry.JoinPoll`, `Threads.Registry.YieldEffect`).

The `tickets` and `deadline` fields are read by `src/scheduler/mod.rs:60`
and `src/scheduler/mod.rs:67`. The thread control block in
`src/mypthreads/thread.rs:32-44` lacks them, so the model adds them as
plain fields. `src/mypthreads/thread.rs` in this repository sets neither field; the model starts a new
record with 1 ticket and no deadline.

## Model

| member | source | states |
|---|---|---|
| `RealTime.SortProperties` | src/scheduler/rt.rs:7 | the stable sort yields a list sorted ascending by deadline that is a permutation of its input |
| `RealTime.SortHeadIsFirstMinimum` | src/scheduler/rt.rs:7-8 | the head of the sorted list is the earliest input entry among those with the least deadline (stability on ties) |
| `RealTime.ChoiceIsEarliestDeadline` | src/scheduler/rt.rs:3-8 | no candidates gives None; otherwise the pick is the id of an input entry whose deadline is at most every deadline and strictly below those of all earlier entries |
| `RealTime.InsertInPlace` | src/scheduler/rt.rs:7 | one insertion pass leaves the prefix alone and the suffix equal to the functional insertion of the moved entry |
| `RealTime.SortByKey` | src/scheduler/rt.rs:7 | sorting the array in place leaves it equal to the functional stable sort of its old contents |
| `RealTime.Pick` | src/scheduler/rt.rs:2-9 | an empty array gives None and stays unchanged; otherwise the array ends sorted and the result is the id of its first entry |
| `Lottery.PrefixMonotone` | src/scheduler/lottery.rs:14-16 | running ticket sums never decrease along the list |
| `Lottery.OwnerExists` | src/scheduler/lottery.rs:13-19 | every draw below the total lies in the ticket interval of some entry |
| `Lottery.OwnerUnique` | src/scheduler/lottery.rs:14-19 | no draw lies in the intervals of two different entries |
| `Lottery.ScanFindsOwner` | src/scheduler/lottery.rs:15-19 | the scan stops exactly at the entry whose interval holds the draw |
| `Lottery.ChoiceIsOwner` | src/scheduler/lottery.rs:4-22 | with a fitting draw the result is Some exactly when the total is positive, and is then the owner of the draw, so the trailing None is unreachable |
| `Lottery.WinsInProportion` | src/scheduler/lottery.rs:8-19 | an entry with t tickets wins exactly the t draws of its interval and no others |
| `Lottery.OneAgainstFive` | src/scheduler/lottery.rs:8-19 | with weights 1 and 5 the total is 6 and the weight-5 entry wins five of the six draws |
| `Lottery.Pick` | src/scheduler/lottery.rs:4-22 | empty list or zero total gives None; otherwise the result is the id of the entry owning the draw |
| `Lottery.IntervalFacts` | src/scheduler/lottery.rs:13 | the draw range `[lo, hi)` holds exactly the naturals from lo below hi and has hi - lo members |
| `RoundRobin.ChoiceFacts` | src/scheduler/rr.rs:4-15 | an empty list gives None with the cursor unchanged; an out-of-range cursor is reset to 0; the pick is the element at the cursor used and the new cursor is that one plus one modulo the length, below the length |
| `RoundRobin.AdvanceCursor` | src/scheduler/rr.rs:13 | advancing an in-range cursor wraps to 0 after the last element |
| `RoundRobin.PicksCycle` | src/scheduler/rr.rs:9-14 | repeated calls on an unchanged list from cursor c return the elements in order from c, wrapping around |
| `RoundRobin.FourPicksOfThree` | src/scheduler/rr.rs:9-14 | four calls on t1, t2, t3 from a fresh cursor return t1, t2, t3, t1 |
| `RoundRobin.Pick` | src/scheduler/rr.rs:4-15 | the result and the new shared cursor are those of `Choice` on the old cursor |
| `SchedUtil.SchedulerState.constructor` | src/scheduler/util.rs:7-16 | the run queue starts empty, the cursor at 0 and the explosion flag false |
| `SchedUtil.SchedulerState.PushRunQueue` | src/scheduler/util.rs:18-21 | the tid is appended and the earlier entries are untouched |
| `SchedUtil.SchedulerState.MarkExplosion` | src/scheduler/util.rs:29-31 | the flag is true afterwards |
| `SchedUtil.SchedulerState.Exploded` | src/scheduler/util.rs:34-36 | returns the flag and changes nothing |
| `Scheduler.Add` | src/scheduler/mod.rs:10-12 | appends the tid to the run queue |
| `Scheduler.PlantExploded` | src/scheduler/mod.rs:15-17 | returns the flag and changes nothing |
| `Scheduler.SweepDeadlines` | src/scheduler/mod.rs:26-38 | the flag becomes true iff it was true or some non-Finished real-time record has a deadline at or before now; nothing else changes |
| `Scheduler.CandidatesFacts` | src/scheduler/mod.rs:54-73 | each list holds exactly the Ready threads of its policy (real-time ones with their deadline; lottery ones with weight 1 for a stored 0; real-time ones without deadline in the round-robin list), each in strictly increasing table-index order |
| `Scheduler.LotTotalPositive` | src/scheduler/mod.rs:67 | with every weight at least 1 the ticket sum of n entries is at least n, so a non-empty lottery list has a positive total |
| `Scheduler.Classify` | src/scheduler/mod.rs:49-76 | the snapshot loop produces exactly the three candidate lists |
| `Scheduler.SelectIsReady` | src/scheduler/mod.rs:54-57 | any id the scheduler returns indexes a record that was Ready in the snapshot |
| `Lottery.ScanInList` | src/scheduler/lottery.rs:15-21 | a lottery scan that returns an id returns the id of some entry at or after its start |
| `Scheduler.TierOrder` | src/scheduler/mod.rs:79-87 | real-time wins whenever its list is non-empty; lottery decides (and returns Some) only when real-time is empty; round-robin only when both are empty; None exactly when all three lists are empty; only the round-robin tier moves the cursor |
| `Scheduler.RealTimeWithoutDeadlineIsRoundRobin` | src/scheduler/mod.rs:59-64 | a Ready real-time thread without deadline is in the round-robin list and not in the real-time list |
| `Scheduler.TwoRealTimeThreads` | src/scheduler/mod.rs:79-81 | of two Ready real-time threads the earlier deadline wins, and on a tie the first created |
| `Scheduler.Next` | src/scheduler/mod.rs:44-88 | the pick and new cursor are those of `Select` on the snapshot, the flag is updated by the sweep, and any pick was Ready |
| `Threads.FinishKeeps` | src/mypthreads/thread.rs:131-145 | finishing the current thread keeps the table length and ids and leaves no record Running |
| `Threads.SetStateKeeps` | src/mypthreads/thread.rs:149-151 | setting one state keeps length and ids; making one record Running leaves it the only Running one |
| `Threads.EndPicksAnotherThread` | src/mypthreads/thread.rs:133-152 | after end the finished thread is Finished and never the pick (unless it joined itself), and its waiter is Ready when the scheduler looks |
| `Threads.Registry.constructor` | src/mypthreads/thread.rs:55-63 | the table is empty and there is no current thread |
| `Threads.Registry.Create` | src/mypthreads/thread.rs:87-114 | at 64 records the result is an error and nothing changes; otherwise the id is the old length, the table grows by exactly a Ready, waiter-less, non-detached record with the requested policy, and the id is appended to the run queue |
| `Threads.Registry.End` | src/mypthreads/thread.rs:119-156 | no current thread changes nothing; otherwise the current thread is Finished with no waiter, its waiter is Ready, the scheduler's pick on that table is Running and current (or current is cleared), and the invariants hold |
| `Threads.Registry.Yield` | src/mypthreads/thread.rs:159-191 | no current thread, no pick or the same pick leave table and current unchanged; otherwise the old current is Ready, the pick Running and current, and no other record changes |
| `Threads.Registry.Join` | src/mypthreads/thread.rs:199-228 | checks in order: unknown target is an error, a Finished target is Ok at once (even with no current thread), no current thread is an error; otherwise the caller becomes the target's only waiter and Blocked |
| `Threads.Registry.JoinPoll` | src/mypthreads/thread.rs:231-241 | a turn is done exactly when the target is Finished and then changes nothing; otherwise it is one yield |
| `Threads.Registry.Detach` | src/mypthreads/thread.rs:245-252 | an unknown id is an error with no change; otherwise only that record's detached flag is set |
| `Threads.Registry.ChangeScheduler` | src/mypthreads/thread.rs:255-262 | an unknown id is an error with no change; otherwise only that record's policy changes |
| `CoopMutex.MyMutex.constructor` | src/mypthreads/mutex.rs:21-26 | unlocked and ownerless |
| `CoopMutex.MyMutex.Swap` | src/mypthreads/mutex.rs:35 | the flag is set and its previous value returned |
| `CoopMutex.MyMutex.Lock` | src/mypthreads/mutex.rs:34-42 | the loop ends exactly when the flag was clear, leaving the mutex locked and owned by the caller with the registry untouched; a failed turn leaves flag and owner unchanged and performs one registry yield |
| `CoopMutex.MyMutex.Unlock` | src/mypthreads/mutex.rs:48-60 | the recorded owner releases (flag and owner cleared, Ok); anyone else, or no owner, gets NotOwner with no change |
| `CoopMutex.MyMutex.TryLock` | src/mypthreads/mutex.rs:66-75 | a free mutex is taken (true, locked, owner recorded); a held one returns false with flag and owner unchanged |
| `CoopMutex.MyMutex.Destroy` | src/mypthreads/mutex.rs:81-84 | unconditionally unlocked and ownerless, so a second call leaves the same state |
| `CoopMutex.MutexInit` | src/mypthreads/mutex.rs:97-99 | a fresh unlocked, ownerless mutex |
| `CoopMutex.MutexDestroy` | src/mypthreads/mutex.rs:105-107 | as destroy |
| `CoopMutex.MutexLock` | src/mypthreads/mutex.rs:112-114 | as one turn of lock, including the yield of a failed turn |
| `CoopMutex.MutexUnlock` | src/mypthreads/mutex.rs:117-119 | as unlock |
| `CoopMutex.MutexTryLock` | src/mypthreads/mutex.rs:122-124 | as try_lock |
| `ThreadCity.MoveFacts` | src/threadcity/city.rs:70-76 | a step keeps id, type and destination; an arrived vehicle stays put; any other gets exactly one step closer in the larger-axis distance |
| `ThreadCity.CrossingsNameBridges` | src/threadcity/city.rs:79-85 | every crossing names bridge 1, 2 or 3, so the bridge lookup `bridges[b - 1]` is in range |
| `ThreadCity.StepNDistance` | src/threadcity/city.rs:70-76 | after n steps each vehicle's distance has dropped by n, down to 0 |
| `ThreadCity.EventuallyAllArrive` | src/threadcity/city.rs:66-95 | after at least the largest remaining distance in steps every vehicle has arrived, so the next step returns true |
| `ThreadCity.MaxDistance` | src/threadcity/city.rs:70-76 | bounds every vehicle's remaining distance |
| `ThreadCity.MaxDistanceAttained` | src/threadcity/city.rs:70-76 | a nonempty fleet has a vehicle whose distance equals the largest, so no fewer steps bring all vehicles home |
| `ThreadCity.City.constructor` | src/threadcity/city.rs:17-52 | no vehicles, next id 0, bridges with ids 1, 2, 3 |
| `ThreadCity.City.SpawnVehicle` | src/threadcity/city.rs:54-63 | appends a vehicle with id next_id at the start, increments next_id, and keeps ids strictly increasing |
| `ThreadCity.City.Step` | src/threadcity/city.rs:65-96 | every vehicle moved once (same number, order, ids, types, destinations); true iff all had arrived before; the crossings are those of moved vehicles that land on row 1, 2 or 3, in vehicle order |
| `ThreadCity.City.Snapshot` | src/threadcity/city.rs:281-283 | returns width, height and the vehicles, changing nothing |

## Left out

- Host-level synchronisation is not modelled: the lazy statics, the std mutex guards and the atomic orderings. All state lives in sequential objects, so lock re-entrance and the deadlock risk of calling the scheduler under the table lock are not modelled either.
- The random source and the clock are not modelled: the draw and `now` are parameters.
- Threads.Registry.JoinPoll: the unbounded polling loop of `join` is modelled as one turn that the caller repeats. Termination of the loop is not claimed.
- CoopMutex.MyMutex.Lock and CoopMutex.MutexLock: the swap-and-yield retry loop is modelled as one turn (the swap, and on failure one `Threads.Registry.Yield`) that the caller repeats until it acquires. Termination of the loop is not claimed, since it depends on some other caller unlocking between turns.
- Thread bodies are left out: `start_routine` is opaque.
- `my_thread_set_tickets`, `my_thread_set_deadline_ms`, `with_threads`, `with_threads_mut`, `my_thread_id` and `set_current_thread_id` are re-exported by `src/mypthreads/mod.rs`, but `src/mypthreads/thread.rs` does not define them, so they are not part of this model.
- Threads.Registry.End: the model requires the current id to be in range (part of `Valid`). The source would panic on an out-of-range index.
- `now_ms` in `src/scheduler/mod.rs` and `src/scheduler/util.rs` reads the process clock and is not modelled.
- ThreadCity.City.Step: the `tid` argument only feeds `cross_bridge`, so it is dropped. The crossings are returned, not performed.
- `cross_bridge` and `print_state` are left out: they do I/O, sleep, and wait on host locks.
- Bridges are modelled by id only: the bridge struct in `src/threadcity/entities.rs` does not agree with the fields `city.rs` uses.
- Integer widths (`usize`, `u32`, `u64`) are modelled as unbounded naturals. With at most 64 threads and `u32` weights the ticket sum fits in `u64`, and positions never go below zero, so no wrap-around is reachable.
- The driver and UI files are not part of this model: `src/main.rs`, `src/gui.rs` and `src/bin/demo_scheduler.rs`.
