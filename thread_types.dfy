/**
 * The records of the thread library (src/mypthreads/thread.rs): states,
 * scheduling policies, the thread control block and the table capacity.
 * They sit in their own module because both the lifecycle operations and
 * the scheduler read them.
 */
module ThreadTypes {
  import opened Wrappers

  /** Capacity of the thread table. */
  const MAX_THREADS: nat := 64

  datatype ThreadState = Ready | Running | Blocked | Finished

  datatype SchedulerType = RoundRobin | Lottery | RealTime

  /**
   * One thread control block. `tickets` and `deadline` are read by the
   * scheduler; the thread body is opaque and not part of the record.
   */
  datatype TCB = TCB(
    id: nat,
    state: ThreadState,
    waiter: Option<nat>,
    policy: SchedulerType,
    detached: bool,
    tickets: nat,
    deadline: Option<nat>)

  /** The block a successful create appends: Ready, no waiter, not detached. */
  function NewTCB(id: nat, policy: SchedulerType): TCB
  {
    TCB(id, Ready, None, policy, false, 1, None)
  }

  /** Errors of the lifecycle operations. */
  datatype ThreadError = MaxThreadsReached | ThreadNotFound | NoCurrentThread
}
