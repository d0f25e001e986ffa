/**
 * The round-robin tier (src/scheduler/rr.rs): a persistent cursor over
 * whatever candidate list the current call sees.
 */
module RoundRobin {
  import opened Wrappers
  import opened SchedUtil

  /** The cursor `pick` actually reads: reset to 0 once out of range. */
  function Effective(rr: seq<nat>, cursor: nat): nat
  {
    if cursor >= |rr| then 0 else cursor
  }

  /** What `pick` returns and where it leaves the cursor. */
  function Choice(rr: seq<nat>, cursor: nat): (Option<nat>, nat)
  {
    if rr == [] then (None, cursor)
    else
      var c := Effective(rr, cursor);
      (Some(rr[c]), (c + 1) % |rr|)
  }

  /** The picks of n calls in a row on an unchanged list. */
  function Picks(rr: seq<nat>, cursor: nat, n: nat): seq<Option<nat>>
    decreases n
  {
    if n == 0 then []
    else
      var (p, c) := Choice(rr, cursor);
      [p] + Picks(rr, c, n - 1)
  }

  /** One call: the pick is a member, and the cursor stays in range. */
  lemma ChoiceFacts(rr: seq<nat>, cursor: nat)
    ensures rr == [] ==> Choice(rr, cursor) == (None, cursor)
    ensures rr != [] && cursor >= |rr| ==> Choice(rr, cursor).0 == Some(rr[0])
    ensures rr != [] ==>
      && Choice(rr, cursor).1 < |rr|
      && Choice(rr, cursor).0 == Some(rr[Effective(rr, cursor)])
      && Choice(rr, cursor).1 == (Effective(rr, cursor) + 1) % |rr|
  {
  }

  /** x reduced modulo n by repeated subtraction. */
  function Wrap(x: nat, n: nat): (r: nat)
    requires n > 0
    ensures r < n
  {
    if x < n then x else Wrap(x - n, n)
  }

  lemma AdvanceCursor(c: nat, n: nat)
    requires c < n
    ensures (c + 1) % n == if c + 1 == n then 0 else c + 1
  {
    if c + 1 == n {
      assert (c + 1) % n == n % n;
    }
  }

  /**
   * Calls in a row from an in-range cursor c return the list's elements
   * in order starting at c, cycling at the end.
   */
  lemma {:induction false} PicksCycle(rr: seq<nat>, cursor: nat, n: nat)
    requires cursor < |rr|
    ensures |Picks(rr, cursor, n)| == n
    ensures forall m :: 0 <= m < n ==> Picks(rr, cursor, n)[m] == Some(rr[Wrap(cursor + m, |rr|)])
    decreases n
  {
    if n > 0 {
      AdvanceCursor(cursor, |rr|);
      var c := (cursor + 1) % |rr|;
      PicksCycle(rr, c, n - 1);
      var ps := Picks(rr, cursor, n);
      assert ps == [Some(rr[cursor])] + Picks(rr, c, n - 1);
      forall m | 0 <= m < n ensures ps[m] == Some(rr[Wrap(cursor + m, |rr|)]) {
        if m > 0 {
          assert ps[m] == Picks(rr, c, n - 1)[m - 1];
          assert Wrap(c + (m - 1), |rr|) == Wrap(cursor + m, |rr|);
        }
      }
    }
  }

  /** From a fresh cursor, three elements t1, t2, t3 come out as t1, t2, t3, t1. */
  lemma FourPicksOfThree(t1: nat, t2: nat, t3: nat)
    ensures Picks([t1, t2, t3], 0, 4) == [Some(t1), Some(t2), Some(t3), Some(t1)]
  {
    PicksCycle([t1, t2, t3], 0, 4);
  }

  /** rr::pick on the shared cursor. */
  method Pick(rr: seq<nat>, st: SchedulerState) returns (r: Option<nat>)
    modifies st`rrCursor
    ensures (r, st.rrCursor) == Choice(rr, old(st.rrCursor))
  {
    if rr == [] {
      return None;
    }
    if st.rrCursor >= |rr| {
      st.rrCursor := 0;
    }
    var chosen := rr[st.rrCursor];
    st.rrCursor := (st.rrCursor + 1) % |rr|;
    r := Some(chosen);
  }
}
