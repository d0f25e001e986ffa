/**
 * The thread registry and lifecycle operations (src/mypthreads/thread.rs).
 * The global table and the current-thread slot become the fields of one
 * Registry object; the scheduler's cells are the object it holds in
 * `sched`. Scheduling calls see the table as it stands at that point of
 * the operation; the clock reading and the lottery draw are parameters.
 */
module Threads {
  import opened Wrappers
  import opened ThreadTypes
  import opened SchedUtil
  import Scheduler

  /** Outcome of the first part of join: finished already, or wait for the target. */
  datatype JoinStatus = Done | Waiting

  /**
   * The table as `end` leaves it before asking the scheduler: the current
   * thread Finished with its waiter cleared, then the recorded waiter Ready.
   */
  function Finish(table: seq<TCB>, cur: nat): seq<TCB>
    requires cur < |table|
  {
    var w := table[cur].waiter;
    var t1 := table[cur := table[cur].(state := Finished, waiter := None)];
    if w.Some? && w.value < |t1| then t1[w.value := t1[w.value].(state := Ready)] else t1
  }

  /** Sets a record's state when the id is in range, as `get_mut` does. */
  function SetState(table: seq<TCB>, i: nat, s: ThreadState): seq<TCB>
  {
    if i < |table| then table[i := table[i].(state := s)] else table
  }

  /** Record i sits at index i. */
  ghost predicate IdsAreIndices(table: seq<TCB>)
  {
    forall i :: 0 <= i < |table| ==> table[i].id == i
  }

  /** Every Running record is the thread `cur` names. */
  ghost predicate RunningOnly(table: seq<TCB>, cur: Option<nat>)
  {
    forall i :: 0 <= i < |table| && table[i].state == Running ==> cur == Some(i)
  }

  /** Finishing keeps the length and the ids, and leaves no record Running. */
  lemma FinishKeeps(table: seq<TCB>, cur: nat)
    requires cur < |table|
    ensures |Finish(table, cur)| == |table|
    ensures IdsAreIndices(table) ==> IdsAreIndices(Finish(table, cur))
    ensures RunningOnly(table, Some(cur)) ==> RunningOnly(Finish(table, cur), None)
  {
  }

  /** Setting a state keeps the length and the ids; making one record Running names it. */
  lemma SetStateKeeps(table: seq<TCB>, i: nat, s: ThreadState, cur: Option<nat>)
    ensures |SetState(table, i, s)| == |table|
    ensures IdsAreIndices(table) ==> IdsAreIndices(SetState(table, i, s))
    ensures RunningOnly(table, None) && s == Running ==> RunningOnly(SetState(table, i, s), Some(i))
    ensures RunningOnly(table, cur) && s != Running ==> RunningOnly(SetState(table, i, s), cur)
  {
  }

  /**
   * After `end` the scheduler never picks the thread that just finished
   * (unless it had joined itself and so woke itself up), and the thread
   * waiting on it is Ready when the scheduler looks.
   */
  lemma EndPicksAnotherThread(table: seq<TCB>, cur: nat, draw: nat, cursor: nat)
    requires cur < |table|
    ensures table[cur].waiter != Some(cur) ==>
      Finish(table, cur)[cur].state == Finished
      && Scheduler.Select(Finish(table, cur), draw, cursor).0 != Some(cur)
    ensures table[cur].waiter.Some? && table[cur].waiter.value < |table| ==>
      Finish(table, cur)[table[cur].waiter.value].state == Ready
  {
    Scheduler.SelectIsReady(Finish(table, cur), draw, cursor);
  }

  class Registry {
    var table: seq<TCB>
    var current: Option<nat>
    const sched: SchedulerState

    /** Ids are table indices, the table is within capacity, current is in range. */
    ghost predicate Valid()
      reads this
    {
      && |table| <= MAX_THREADS
      && IdsAreIndices(table)
      && (current.Some? ==> current.value < |table|)
    }

    /** Every Running record is the current thread, so at most one is Running. */
    ghost predicate RunningIsCurrent()
      reads this
    {
      RunningOnly(table, current)
    }

    constructor ()
      ensures Valid() && RunningIsCurrent()
      ensures table == [] && current == None
      ensures fresh(sched) && sched.runQueue == [] && sched.rrCursor == 0 && !sched.exploded
    {
      table := [];
      current := None;
      sched := new SchedulerState();
    }

    /** my_thread_create: appends a Ready record and registers it with the scheduler. */
    method Create(policy: SchedulerType) returns (r: Result<nat, ThreadError>)
      requires Valid()
      modifies this, sched`runQueue
      ensures Valid()
      ensures old(RunningIsCurrent()) ==> RunningIsCurrent()
      ensures current == old(current)
      ensures old(|table|) >= MAX_THREADS ==>
        r == Err(MaxThreadsReached) && table == old(table) && sched.runQueue == old(sched.runQueue)
      ensures old(|table|) < MAX_THREADS ==>
        && r == Ok(old(|table|))
        && table == old(table) + [NewTCB(old(|table|), policy)]
        && sched.runQueue == old(sched.runQueue) + [old(|table|)]
    {
      if |table| >= MAX_THREADS {
        return Err(MaxThreadsReached);
      }
      var id := |table|;
      table := table + [NewTCB(id, policy)];
      Scheduler.Add(sched, id);
      r := Ok(id);
    }

    /**
     * my_thread_end: finishes the current thread, wakes its waiter, then
     * makes the scheduler's pick Running and current (or clears current).
     */
    method End(now: nat, draw: nat)
      requires Valid()
      requires current.Some? ==> Scheduler.DrawFits(Finish(table, current.value), draw)
      modifies this, sched`rrCursor, sched`exploded
      ensures Valid()
      ensures old(RunningIsCurrent()) ==> RunningIsCurrent()
      ensures old(sched.exploded) ==> sched.exploded
      ensures old(current).None? ==>
        table == old(table) && current == None
        && sched.exploded == old(sched.exploded) && sched.rrCursor == old(sched.rrCursor)
      ensures old(current).Some? ==>
        var t1 := Finish(old(table), old(current).value);
        var (pick, cursor) := Scheduler.Select(t1, draw, old(sched.rrCursor));
        && current == pick
        && sched.rrCursor == cursor
        && sched.exploded == (old(sched.exploded) || Scheduler.Missed(t1, now))
        && table == (if pick.Some? then SetState(t1, pick.value, Running) else t1)
      ensures sched.runQueue == old(sched.runQueue)
    {
      if current.None? {
        return;
      }
      var cur := current.value;
      var waiter := table[cur].waiter;
      table := table[cur := table[cur].(state := Finished, waiter := None)];
      if waiter.Some? && waiter.value < |table| {
        table := table[waiter.value := table[waiter.value].(state := Ready)];
      }
      assert table == Finish(old(table), cur);
      FinishKeeps(old(table), cur);
      var next := Scheduler.Next(sched, table, now, draw);
      if next.Some? {
        SetStateKeeps(table, next.value, Running, None);
        if next.value < |table| {
          table := table[next.value := table[next.value].(state := Running)];
        }
        current := next;
      } else {
        current := None;
      }
    }

    /**
     * my_thread_yield_: when the scheduler names another thread, the
     * current one becomes Ready and the pick Running and current.
     */
    method Yield(now: nat, draw: nat)
      requires Valid()
      requires current.Some? ==> Scheduler.DrawFits(table, draw)
      modifies this, sched`rrCursor, sched`exploded
      ensures Valid()
      ensures old(RunningIsCurrent()) ==> RunningIsCurrent()
      ensures YieldEffect(now, draw)
    {
      if current.None? {
        return;
      }
      var cur := current.value;
      var next := Scheduler.Next(sched, table, now, draw);
      if next.None? {
        return;
      }
      if next.value == cur {
        return;
      }
      if cur < |table| {
        table := table[cur := table[cur].(state := Ready)];
      }
      if next.value < |table| {
        table := table[next.value := table[next.value].(state := Running)];
      }
      current := next;
    }

    /** The whole effect of one yield, shared by `Yield` and `JoinPoll`. */
    twostate predicate YieldEffect(now: nat, draw: nat)
      reads this, sched
    {
      && sched.runQueue == old(sched.runQueue)
      && (old(current).None? ==>
            table == old(table) && current == None
            && sched.exploded == old(sched.exploded) && sched.rrCursor == old(sched.rrCursor))
      && (old(current).Some? ==>
            var cur := old(current).value;
            var (pick, cursor) := Scheduler.Select(old(table), draw, old(sched.rrCursor));
            && sched.rrCursor == cursor
            && sched.exploded == (old(sched.exploded) || Scheduler.Missed(old(table), now))
            && (pick.None? || pick == Some(cur) ==> table == old(table) && current == old(current))
            && (pick.Some? && pick != Some(cur) ==>
                  current == pick
                  && table == SetState(SetState(old(table), cur, Ready), pick.value, Running)))
    }

    /**
     * my_thread_join up to its polling loop: an unknown target is an error,
     * a Finished target is done at once, no current thread is an error;
     * otherwise the caller is recorded as the target's waiter and Blocked.
     */
    method Join(target: nat) returns (r: Result<JoinStatus, ThreadError>)
      requires Valid()
      modifies this
      ensures Valid()
      ensures old(RunningIsCurrent()) ==> RunningIsCurrent()
      ensures current == old(current)
      ensures target >= old(|table|) ==> r == Err(ThreadNotFound) && table == old(table)
      ensures target < old(|table|) && old(table[target].state) == Finished ==>
        r == Ok(Done) && table == old(table)
      ensures target < old(|table|) && old(table[target].state) != Finished && old(current).None? ==>
        r == Err(NoCurrentThread) && table == old(table)
      ensures target < old(|table|) && old(table[target].state) != Finished && old(current).Some? ==>
        var me := old(current).value;
        var t1 := old(table)[target := old(table)[target].(waiter := Some(me))];
        r == Ok(Waiting) && table == SetState(t1, me, Blocked)
    {
      if target >= |table| {
        return Err(ThreadNotFound);
      }
      if table[target].state == Finished {
        return Ok(Done);
      }
      if current.None? {
        return Err(NoCurrentThread);
      }
      var me := current.value;
      table := table[target := table[target].(waiter := Some(me))];
      if me < |table| {
        table := table[me := table[me].(state := Blocked)];
      }
      r := Ok(Waiting);
    }

    /**
     * One turn of join's polling loop: done when the target is Finished,
     * otherwise one yield. Join returns Ok exactly when a turn is done.
     */
    method JoinPoll(target: nat, now: nat, draw: nat) returns (done: bool)
      requires Valid() && target < |table|
      requires current.Some? ==> Scheduler.DrawFits(table, draw)
      modifies this, sched`rrCursor, sched`exploded
      ensures Valid()
      ensures old(RunningIsCurrent()) ==> RunningIsCurrent()
      ensures done <==> old(table[target].state) == Finished
      ensures done ==>
        table == old(table) && current == old(current)
        && sched.rrCursor == old(sched.rrCursor) && sched.exploded == old(sched.exploded)
      ensures !done ==> YieldEffect(now, draw)
    {
      if table[target].state == Finished {
        return true;
      }
      Yield(now, draw);
      done := false;
    }

    /** my_thread_detach: marks one record detached. */
    method Detach(tid: nat) returns (r: Result<(), ThreadError>)
      requires Valid()
      modifies this
      ensures Valid()
      ensures old(RunningIsCurrent()) ==> RunningIsCurrent()
      ensures current == old(current)
      ensures tid >= old(|table|) ==> r == Err(ThreadNotFound) && table == old(table)
      ensures tid < old(|table|) ==> r == Ok(()) && table == old(table)[tid := old(table)[tid].(detached := true)]
    {
      if tid >= |table| {
        return Err(ThreadNotFound);
      }
      table := table[tid := table[tid].(detached := true)];
      r := Ok(());
    }

    /** my_thread_chsched: changes one record's scheduling policy. */
    method ChangeScheduler(tid: nat, policy: SchedulerType) returns (r: Result<(), ThreadError>)
      requires Valid()
      modifies this
      ensures Valid()
      ensures old(RunningIsCurrent()) ==> RunningIsCurrent()
      ensures current == old(current)
      ensures tid >= old(|table|) ==> r == Err(ThreadNotFound) && table == old(table)
      ensures tid < old(|table|) ==> r == Ok(()) && table == old(table)[tid := old(table)[tid].(policy := policy)]
    {
      if tid >= |table| {
        return Err(ThreadNotFound);
      }
      table := table[tid := table[tid].(policy := policy)];
      r := Ok(());
    }
  }
}
