/**
 * The cooperative mutex (src/mypthreads/mutex.rs): a lock flag and an
 * owner. The atomic flag and the guard around the owner become plain
 * fields of a sequential object.
 */
module CoopMutex {
  import opened Wrappers
  import Threads
  import Scheduler

  datatype MutexError = NotOwner

  class MyMutex {
    var locked: bool
    var owner: Option<nat>

    /** The flag is set exactly when an owner is recorded. */
    ghost predicate Valid()
      reads this
    {
      locked <==> owner.Some?
    }

    /** MyMutex::new: unlocked, no owner. */
    constructor ()
      ensures !locked && owner == None && Valid()
    {
      locked := false;
      owner := None;
    }

    /**
     * AtomicBool::swap(true): sets the flag and returns its previous value.
     * It is the atomic step inside lock and try_lock, which then record
     * the owner; on its own it does not keep Valid.
     */
    method Swap() returns (was: bool)
      modifies this`locked
      ensures locked && was == old(locked)
    {
      was := locked;
      locked := true;
    }

    /**
     * One turn of `lock`'s retry loop: when the swap finds the flag clear
     * the caller owns the mutex and the loop ends; otherwise the flag and
     * owner are untouched and the turn yields through the registry, after
     * which the caller tries again.
     */
    method Lock(tid: nat, reg: Threads.Registry, now: nat, draw: nat) returns (acquired: bool)
      requires reg.Valid()
      requires reg.current.Some? ==> Scheduler.DrawFits(reg.table, draw)
      modifies this, reg, reg.sched`rrCursor, reg.sched`exploded
      ensures old(Valid()) ==> Valid()
      ensures reg.Valid()
      ensures acquired <==> !old(locked)
      ensures acquired ==> locked && owner == Some(tid)
      ensures acquired ==>
        reg.table == old(reg.table) && reg.current == old(reg.current)
        && reg.sched.rrCursor == old(reg.sched.rrCursor) && reg.sched.exploded == old(reg.sched.exploded)
      ensures !acquired ==> locked == old(locked) && owner == old(owner)
      ensures !acquired ==> reg.YieldEffect(now, draw)
    {
      var busy := Swap();
      if busy {
        reg.Yield(now, draw);
        return false;
      }
      owner := Some(tid);
      acquired := true;
    }

    /** Releases the mutex only for its recorded owner. */
    method Unlock(tid: nat) returns (r: Result<(), MutexError>)
      modifies this
      ensures old(Valid()) ==> Valid()
      ensures old(owner) == Some(tid) ==> r == Ok(()) && !locked && owner == None
      ensures old(owner) != Some(tid) ==>
        r == Err(NotOwner) && locked == old(locked) && owner == old(owner)
    {
      match owner
      case Some(id) =>
        if id == tid {
          owner := None;
          locked := false;
          return Ok(());
        }
        return Err(NotOwner);
      case None =>
        return Err(NotOwner);
    }

    /** Acquires a free mutex for `tid`; on a held one returns false and changes nothing. */
    method TryLock(tid: nat) returns (acquired: bool)
      modifies this
      ensures old(Valid()) ==> Valid()
      ensures acquired <==> !old(locked)
      ensures acquired ==> locked && owner == Some(tid)
      ensures !acquired ==> locked == old(locked) && owner == old(owner)
    {
      var was := Swap();
      if !was {
        owner := Some(tid);
        return true;
      }
      acquired := false;
    }

    /** Forced reset: unlocked with no owner whatever the previous state. */
    method Destroy()
      modifies this
      ensures !locked && owner == None && Valid()
    {
      locked := false;
      owner := None;
    }
  }

  /** my_mutex_init. */
  method MutexInit() returns (m: MyMutex)
    ensures fresh(m) && !m.locked && m.owner == None
  {
    m := new MyMutex();
  }

  /** my_mutex_destroy: forced reset. */
  method MutexDestroy(m: MyMutex)
    modifies m
    ensures !m.locked && m.owner == None
  {
    m.Destroy();
  }

  /** my_mutex_lock: one turn of the retry loop, as Lock. */
  method MutexLock(m: MyMutex, tid: nat, reg: Threads.Registry, now: nat, draw: nat) returns (acquired: bool)
    requires reg.Valid()
    requires reg.current.Some? ==> Scheduler.DrawFits(reg.table, draw)
    modifies m, reg, reg.sched`rrCursor, reg.sched`exploded
    ensures reg.Valid()
    ensures acquired <==> !old(m.locked)
    ensures acquired ==> m.locked && m.owner == Some(tid)
    ensures acquired ==>
      reg.table == old(reg.table) && reg.current == old(reg.current)
      && reg.sched.rrCursor == old(reg.sched.rrCursor) && reg.sched.exploded == old(reg.sched.exploded)
    ensures !acquired ==> m.locked == old(m.locked) && m.owner == old(m.owner)
    ensures !acquired ==> reg.YieldEffect(now, draw)
  {
    acquired := m.Lock(tid, reg, now, draw);
  }

  /** my_mutex_unlock. */
  method MutexUnlock(m: MyMutex, tid: nat) returns (r: Result<(), MutexError>)
    modifies m
    ensures old(m.owner) == Some(tid) ==> r == Ok(()) && !m.locked && m.owner == None
    ensures old(m.owner) != Some(tid) ==>
      r == Err(NotOwner) && m.locked == old(m.locked) && m.owner == old(m.owner)
  {
    r := m.Unlock(tid);
  }

  /** my_mutex_trylock. */
  method MutexTryLock(m: MyMutex, tid: nat) returns (acquired: bool)
    modifies m
    ensures acquired <==> !old(m.locked)
    ensures acquired ==> m.locked && m.owner == Some(tid)
    ensures !acquired ==> m.locked == old(m.locked) && m.owner == old(m.owner)
  {
    acquired := m.TryLock(tid);
  }

  /**
   * A client of the mutex contracts: a second try_lock fails and keeps the
   * owner, a non-owner cannot unlock, and destroying twice leaves the
   * mutex free both times.
   */
  method Scenario(a: nat, b: nat)
    requires a != b
  {
    var m := MutexInit();
    var ok := m.TryLock(a);
    assert ok && m.owner == Some(a);
    ok := m.TryLock(b);
    assert !ok && m.locked && m.owner == Some(a);
    var r := m.Unlock(b);
    assert r == Err(NotOwner) && m.locked && m.owner == Some(a);
    r := m.Unlock(a);
    assert r == Ok(()) && !m.locked;
    MutexDestroy(m);
    MutexDestroy(m);
    assert !m.locked && m.owner == None;
  }
}
