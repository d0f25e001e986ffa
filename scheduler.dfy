/**
 * The tiered scheduler (src/scheduler/mod.rs): a deadline sweep, a
 * snapshot of the Ready threads split into three candidate lists, then
 * real-time, lottery and round-robin in strict priority.
 */
module Scheduler {
  import opened Wrappers
  import opened ThreadTypes
  import opened SchedUtil
  import RealTime
  import Lottery
  import RoundRobin

  /** scheduler_add: registers a new thread id in the run queue. */
  method Add(st: SchedulerState, tid: nat)
    modifies st`runQueue
    ensures st.runQueue == old(st.runQueue) + [tid]
  {
    st.PushRunQueue(tid);
  }

  /** plant_exploded: reads the sticky flag. */
  method PlantExploded(st: SchedulerState) returns (b: bool)
    ensures b == st.exploded
  {
    b := st.Exploded();
  }

  /** Some live real-time record has a deadline at or before `now`. */
  predicate Missed(table: seq<TCB>, now: nat)
  {
    exists i :: 0 <= i < |table| && MissedAt(table[i], now)
  }

  predicate MissedAt(t: TCB, now: nat)
  {
    t.state != Finished && t.policy == SchedulerType.RealTime && t.deadline.Some? && t.deadline.value <= now
  }

  /** sweep_deadlines_and_flag: raises the flag on a missed deadline. */
  method SweepDeadlines(st: SchedulerState, table: seq<TCB>, now: nat)
    modifies st`exploded
    ensures st.exploded == (old(st.exploded) || Missed(table, now))
  {
    var miss := Missed(table, now);
    if miss {
      st.MarkExplosion();
    }
  }

  /** A stored weight of 0 is entered as 1. */
  function Weight(t: TCB): nat
  {
    if t.tickets == 0 then 1 else t.tickets
  }

  // The three candidate lists of the snapshot, built over a table prefix
  // in index order.

  /** Goes to the real-time list: a Ready real-time thread with a deadline. */
  predicate RtEligible(t: TCB)
  {
    t.state == Ready && t.policy == SchedulerType.RealTime && t.deadline.Some?
  }

  /** Goes to the lottery list: a Ready lottery thread. */
  predicate LotEligible(t: TCB)
  {
    t.state == Ready && t.policy == SchedulerType.Lottery
  }

  function RtCands(table: seq<TCB>): seq<RealTime.RtEntry>
  {
    if table == [] then []
    else
      var n := |table| - 1;
      var t := table[n];
      RtCands(table[..n]) + (if RtEligible(t) then [RealTime.RtEntry(n, t.deadline.value)] else [])
  }

  function LotCands(table: seq<TCB>): seq<Lottery.LotEntry>
  {
    if table == [] then []
    else
      var n := |table| - 1;
      var t := table[n];
      LotCands(table[..n]) + (if LotEligible(t) then [Lottery.LotEntry(n, Weight(t))] else [])
  }

  function RrCands(table: seq<TCB>): seq<nat>
  {
    if table == [] then []
    else
      var n := |table| - 1;
      var t := table[n];
      RrCands(table[..n]) + (if RrEligible(t) then [n] else [])
  }

  /** Goes to the round-robin list: a Ready round-robin thread, or a Ready real-time one without deadline. */
  predicate RrEligible(t: TCB)
  {
    t.state == Ready && (t.policy == SchedulerType.RoundRobin || (t.policy == SchedulerType.RealTime && t.deadline.None?))
  }

  /**
   * Membership in the candidate lists: exactly the Ready threads of the
   * matching policy, real-time ones with their deadline, lottery ones with
   * their coerced weight, and ids strictly increasing in each list.
   */
  lemma {:induction false} CandidatesFacts(table: seq<TCB>)
    ensures forall k :: 0 <= k < |RtCands(table)| ==>
      var e := RtCands(table)[k];
      e.tid < |table| && table[e.tid].state == Ready && table[e.tid].policy == SchedulerType.RealTime
        && table[e.tid].deadline == Some(e.deadline)
    ensures forall k :: 0 <= k < |LotCands(table)| ==>
      var e := LotCands(table)[k];
      e.tid < |table| && table[e.tid].state == Ready && table[e.tid].policy == SchedulerType.Lottery
        && e.tickets == Weight(table[e.tid]) && e.tickets >= 1
    ensures forall k :: 0 <= k < |RrCands(table)| ==>
      RrCands(table)[k] < |table| && RrEligible(table[RrCands(table)[k]])
    ensures forall i :: 0 <= i < |table| && RtEligible(table[i]) ==>
      RealTime.RtEntry(i, table[i].deadline.value) in RtCands(table)
    ensures forall i :: 0 <= i < |table| && LotEligible(table[i]) ==>
      Lottery.LotEntry(i, Weight(table[i])) in LotCands(table)
    ensures forall i :: 0 <= i < |table| && RrEligible(table[i]) ==> i in RrCands(table)
    ensures forall j, k :: 0 <= j < k < |RtCands(table)| ==> RtCands(table)[j].tid < RtCands(table)[k].tid
    ensures forall j, k :: 0 <= j < k < |LotCands(table)| ==> LotCands(table)[j].tid < LotCands(table)[k].tid
    ensures forall j, k :: 0 <= j < k < |RrCands(table)| ==> RrCands(table)[j] < RrCands(table)[k]
  {
    if table != [] {
      var n := |table| - 1;
      var pre := table[..n];
      CandidatesFacts(pre);
      assert forall i :: 0 <= i < n ==> pre[i] == table[i];
    }
  }

  /** The total weight of the lottery list is positive exactly when it is non-empty. */
  lemma {:induction false} LotTotalPositive(lot: seq<Lottery.LotEntry>, n: nat)
    requires n <= |lot|
    requires forall k :: 0 <= k < |lot| ==> lot[k].tickets >= 1
    ensures Lottery.Prefix(lot, n) >= n
  {
    if n > 0 {
      LotTotalPositive(lot, n - 1);
    }
  }

  /** The snapshot loop of scheduler_next. */
  method Classify(table: seq<TCB>)
    returns (rt: seq<RealTime.RtEntry>, lot: seq<Lottery.LotEntry>, rr: seq<nat>)
    ensures rt == RtCands(table) && lot == LotCands(table) && rr == RrCands(table)
  {
    rt, lot, rr := [], [], [];
    var idx := 0;
    while idx < |table|
      invariant 0 <= idx <= |table|
      invariant rt == RtCands(table[..idx])
      invariant lot == LotCands(table[..idx])
      invariant rr == RrCands(table[..idx])
    {
      assert table[..idx + 1][..idx] == table[..idx];
      var t := table[idx];
      if t.state != Ready {
        idx := idx + 1;
        continue;
      }
      if t.policy == SchedulerType.RealTime {
        if t.deadline.Some? {
          rt := rt + [RealTime.RtEntry(idx, t.deadline.value)];
        } else {
          rr := rr + [idx];
        }
      } else if t.policy == SchedulerType.Lottery {
        var tickets := if t.tickets == 0 then 1 else t.tickets;
        lot := lot + [Lottery.LotEntry(idx, tickets)];
      } else {
        // the remaining policy, SchedulerType.RoundRobin
        rr := rr + [idx];
      }
      idx := idx + 1;
    }
    assert table[..idx] == table;
  }

  /** The draws the lottery tier accepts on this table. */
  predicate DrawFits(table: seq<TCB>, draw: nat)
  {
    Lottery.DrawFits(LotCands(table), draw)
  }

  /** The pick of scheduler_next and the round-robin cursor it leaves. */
  function Select(table: seq<TCB>, draw: nat, cursor: nat): (Option<nat>, nat)
  {
    match RealTime.Choice(RtCands(table))
    case Some(tid) => (Some(tid), cursor)
    case None =>
      match Lottery.Choice(LotCands(table), draw)
      case Some(tid) => (Some(tid), cursor)
      case None => RoundRobin.Choice(RrCands(table), cursor)
  }

  /** Any id the scheduler returns was Ready in the snapshot. */
  lemma SelectIsReady(table: seq<TCB>, draw: nat, cursor: nat)
    ensures Select(table, draw, cursor).0.Some? ==>
      Select(table, draw, cursor).0.value < |table| && table[Select(table, draw, cursor).0.value].state == Ready
  {
    CandidatesFacts(table);
    var rt, lot, rr := RtCands(table), LotCands(table), RrCands(table);
    if rt != [] {
      RealTime.ChoiceIsEarliestDeadline(rt);
    } else if Lottery.Choice(lot, draw).Some? {
      Lottery.ScanInList(lot, draw, 0);
    } else {
      RoundRobin.ChoiceFacts(rr, cursor);
    }
  }

  /**
   * Strict tier order: real-time whenever it has candidates, lottery only
   * when real-time has none, round-robin only when both are empty, and
   * nothing when all three are empty. Only the round-robin tier moves the
   * cursor.
   */
  lemma TierOrder(table: seq<TCB>, draw: nat, cursor: nat)
    requires DrawFits(table, draw)
    ensures RtCands(table) != [] ==>
      Select(table, draw, cursor) == (RealTime.Choice(RtCands(table)), cursor)
      && Select(table, draw, cursor).0.Some?
    ensures RtCands(table) == [] && LotCands(table) != [] ==>
      Select(table, draw, cursor) == (Lottery.Choice(LotCands(table), draw), cursor)
      && Select(table, draw, cursor).0.Some?
    ensures RtCands(table) == [] && LotCands(table) == [] ==>
      Select(table, draw, cursor) == RoundRobin.Choice(RrCands(table), cursor)
    ensures Select(table, draw, cursor).0.None? <==>
      RtCands(table) == [] && LotCands(table) == [] && RrCands(table) == []
  {
    var rt, lot, rr := RtCands(table), LotCands(table), RrCands(table);
    RealTime.ChoiceIsEarliestDeadline(rt);
    CandidatesFacts(table);
    LotTotalPositive(lot, |lot|);
    Lottery.ChoiceIsOwner(lot, draw);
  }

  /** A Ready real-time thread without a deadline is a round-robin candidate for this call, and not a real-time one. */
  lemma RealTimeWithoutDeadlineIsRoundRobin(table: seq<TCB>, i: nat)
    requires i < |table| && table[i].state == Ready && table[i].policy == SchedulerType.RealTime
    requires table[i].deadline.None?
    ensures i in RrCands(table)
    ensures forall k :: 0 <= k < |RtCands(table)| ==> RtCands(table)[k].tid != i
  {
    CandidatesFacts(table);
  }

  /**
   * Two Ready real-time threads with deadlines and nothing else Ready:
   * the earlier deadline wins, and on a tie the one created first.
   */
  lemma TwoRealTimeThreads(a: TCB, b: TCB, draw: nat, cursor: nat)
    requires RtEligible(a) && RtEligible(b)
    ensures a.deadline.value <= b.deadline.value ==> Select([a, b], draw, cursor).0 == Some(0)
    ensures a.deadline.value > b.deadline.value ==> Select([a, b], draw, cursor).0 == Some(1)
  {
    var table := [a, b];
    assert table[..1] == [a];
    assert [a][..0] == [];
    assert RtCands([a]) == [RealTime.RtEntry(0, a.deadline.value)];
    var rt := RtCands(table);
    assert rt == [RealTime.RtEntry(0, a.deadline.value), RealTime.RtEntry(1, b.deadline.value)];
    if a.deadline.value <= b.deadline.value {
      RealTime.SortHeadIsFirstMinimum(rt, 0);
    } else {
      RealTime.SortHeadIsFirstMinimum(rt, 1);
    }
  }

  /** scheduler_next: sweep, snapshot, then the three tiers in order. */
  method Next(st: SchedulerState, table: seq<TCB>, now: nat, draw: nat) returns (r: Option<nat>)
    requires DrawFits(table, draw)
    modifies st`rrCursor, st`exploded
    ensures (r, st.rrCursor) == Select(table, draw, old(st.rrCursor))
    ensures st.exploded == (old(st.exploded) || Missed(table, now))
    ensures r.Some? ==> r.value < |table| && table[r.value].state == Ready
  {
    SweepDeadlines(st, table, now);
    var rtReady, lotReady, rrReady := Classify(table);
    var a := new RealTime.RtEntry[|rtReady|](i requires 0 <= i < |rtReady| => rtReady[i]);
    assert a[..] == rtReady;
    SelectIsReady(table, draw, st.rrCursor);
    var tid := RealTime.Pick(a);
    if tid.Some? {
      return tid;
    }
    tid := Lottery.Pick(lotReady, draw);
    if tid.Some? {
      return tid;
    }
    r := RoundRobin.Pick(rrReady, st);
  }
}
