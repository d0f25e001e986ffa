/**
 * The scheduler's shared cells (src/scheduler/util.rs): the run queue,
 * the round-robin cursor and the sticky explosion flag. The host-level
 * locks and the atomic around them become plain fields of one object;
 * the process clock is not modelled (callers pass `now`).
 */
module SchedUtil {

  class SchedulerState {
    /** Every id ever registered, in registration order. */
    var runQueue: seq<nat>
    /** Index into the round-robin candidates seen at the last pick. */
    var rrCursor: nat
    /** Set once some real-time deadline has been missed; never cleared. */
    var exploded: bool

    constructor ()
      ensures runQueue == [] && rrCursor == 0 && !exploded
    {
      runQueue := [];
      rrCursor := 0;
      exploded := false;
    }

    /** Appends `tid` to the run queue. */
    method PushRunQueue(tid: nat)
      modifies this`runQueue
      ensures runQueue == old(runQueue) + [tid]
      ensures |runQueue| == |old(runQueue)| + 1 && runQueue[..|old(runQueue)|] == old(runQueue)
    {
      runQueue := runQueue + [tid];
    }

    /** Raises the explosion flag. */
    method MarkExplosion()
      modifies this`exploded
      ensures exploded
    {
      exploded := true;
    }

    /** Reads the explosion flag. */
    method Exploded() returns (b: bool)
      ensures b == exploded
    {
      b := exploded;
    }
  }
}
