/**
 * The lottery tier (src/scheduler/lottery.rs): a weighted draw over the
 * candidates' tickets. The random draw is a parameter: the caller passes
 * the value `gen_range(0..total)` would have produced.
 */
module Lottery {
  import opened Wrappers

  /** A Ready lottery thread: its table index and its ticket weight. */
  datatype LotEntry = LotEntry(tid: nat, tickets: nat)

  /** Sum of the tickets of the first i entries. */
  function Prefix(lot: seq<LotEntry>, i: nat): nat
    requires i <= |lot|
  {
    if i == 0 then 0 else Prefix(lot, i - 1) + lot[i - 1].tickets
  }

  function Total(lot: seq<LotEntry>): nat
  {
    Prefix(lot, |lot|)
  }

  /** The draws `pick` accepts: any value in [0, total) once total is positive. */
  predicate DrawFits(lot: seq<LotEntry>, draw: nat)
  {
    Total(lot) > 0 ==> draw < Total(lot)
  }

  /** Scans from entry i on for the first whose running sum exceeds `draw`. */
  function ScanFrom(lot: seq<LotEntry>, draw: nat, i: nat): Option<nat>
    requires i <= |lot|
    decreases |lot| - i
  {
    if i == |lot| then None
    else if draw < Prefix(lot, i + 1) then Some(lot[i].tid)
    else ScanFrom(lot, draw, i + 1)
  }

  /** What `pick` returns for a candidate list and a draw. */
  function Choice(lot: seq<LotEntry>, draw: nat): Option<nat>
  {
    if |lot| == 0 || Total(lot) == 0 then None else ScanFrom(lot, draw, 0)
  }

  /** Entry i owns the draws in [Prefix(i), Prefix(i + 1)). */
  predicate Owns(lot: seq<LotEntry>, i: nat, draw: nat)
    requires i < |lot|
  {
    Prefix(lot, i) <= draw < Prefix(lot, i + 1)
  }

  lemma {:induction false} PrefixMonotone(lot: seq<LotEntry>, i: nat, j: nat)
    requires i <= j <= |lot|
    ensures Prefix(lot, i) <= Prefix(lot, j)
    decreases j - i
  {
    if i < j {
      PrefixMonotone(lot, i, j - 1);
    }
  }

  /** Every draw below the total is owned by exactly one entry. */
  lemma {:induction false} OwnerExists(lot: seq<LotEntry>, draw: nat, n: nat)
    requires n <= |lot| && draw < Prefix(lot, n)
    ensures exists i :: 0 <= i < n && Owns(lot, i, draw)
  {
    if draw >= Prefix(lot, n - 1) {
      assert Owns(lot, n - 1, draw);
    } else {
      OwnerExists(lot, draw, n - 1);
    }
  }

  lemma OwnerUnique(lot: seq<LotEntry>, draw: nat, i: nat, j: nat)
    requires i < |lot| && j < |lot|
    requires Owns(lot, i, draw) && Owns(lot, j, draw)
    ensures i == j
  {
    if i < j {
      PrefixMonotone(lot, i + 1, j);
    } else if j < i {
      PrefixMonotone(lot, j + 1, i);
    }
  }

  /** A scan that returns an id returns that of an entry at or after its start. */
  lemma {:induction false} ScanInList(lot: seq<LotEntry>, draw: nat, i: nat)
    requires i <= |lot|
    ensures ScanFrom(lot, draw, i).Some? ==>
      exists k :: i <= k < |lot| && ScanFrom(lot, draw, i) == Some(lot[k].tid)
    decreases |lot| - i
  {
    if i < |lot| && draw >= Prefix(lot, i + 1) {
      ScanInList(lot, draw, i + 1);
    }
  }

  /** The scan stops at the owner of the draw. */
  lemma {:induction false} ScanFindsOwner(lot: seq<LotEntry>, draw: nat, j: nat, i: nat)
    requires j <= i < |lot|
    requires Owns(lot, i, draw)
    ensures ScanFrom(lot, draw, j) == Some(lot[i].tid)
    decreases i - j
  {
    if j < i {
      PrefixMonotone(lot, j + 1, i);
      ScanFindsOwner(lot, draw, j + 1, i);
    }
  }

  /**
   * With a positive total and a fitting draw the lottery always names an
   * entry: the one that owns the draw. So the trailing None of `pick` is
   * unreachable.
   */
  lemma ChoiceIsOwner(lot: seq<LotEntry>, draw: nat)
    requires DrawFits(lot, draw)
    ensures Choice(lot, draw).Some? <==> Total(lot) > 0
    ensures Total(lot) > 0 ==>
      exists i :: 0 <= i < |lot| && Owns(lot, i, draw) && Choice(lot, draw) == Some(lot[i].tid)
  {
    if Total(lot) > 0 {
      OwnerExists(lot, draw, |lot|);
      var i :| 0 <= i < |lot| && Owns(lot, i, draw);
      ScanFindsOwner(lot, draw, 0, i);
    }
  }

  /** The naturals in [lo, hi). */
  function Interval(lo: nat, hi: nat): set<nat>
    decreases hi - lo
  {
    if lo >= hi then {} else {lo} + Interval(lo + 1, hi)
  }

  lemma {:induction false} IntervalFacts(lo: nat, hi: nat)
    requires lo <= hi
    ensures forall d :: d in Interval(lo, hi) <==> lo <= d < hi
    ensures |Interval(lo, hi)| == hi - lo
    decreases hi - lo
  {
    if lo < hi {
      IntervalFacts(lo + 1, hi);
      assert lo !in Interval(lo + 1, hi);
    }
  }

  /** The draws entry i wins. */
  function WinningDraws(lot: seq<LotEntry>, i: nat): set<nat>
    requires i < |lot|
  {
    Interval(Prefix(lot, i), Prefix(lot, i + 1))
  }

  /**
   * Entry i wins exactly as many of the `total` equally likely draws as it
   * holds tickets, namely those it owns, so selection is proportional to
   * tickets.
   */
  lemma WinsInProportion(lot: seq<LotEntry>, i: nat)
    requires i < |lot|
    ensures |WinningDraws(lot, i)| == lot[i].tickets
    ensures forall d: nat :: d in WinningDraws(lot, i) <==> d < Total(lot) && Owns(lot, i, d)
    ensures forall d :: d in WinningDraws(lot, i) ==> Choice(lot, d) == Some(lot[i].tid)
  {
    PrefixMonotone(lot, i + 1, |lot|);
    IntervalFacts(Prefix(lot, i), Prefix(lot, i + 1));
    forall d | d in WinningDraws(lot, i) ensures Choice(lot, d) == Some(lot[i].tid) {
      ScanFindsOwner(lot, d, 0, i);
    }
  }

  /** Weights 1 and 5: of the six draws the second entry wins five. */
  lemma OneAgainstFive(a: nat, b: nat)
    ensures |WinningDraws([LotEntry(a, 1), LotEntry(b, 5)], 0)| == 1
    ensures |WinningDraws([LotEntry(a, 1), LotEntry(b, 5)], 1)| == 5
    ensures Total([LotEntry(a, 1), LotEntry(b, 5)]) == 6
  {
    WinsInProportion([LotEntry(a, 1), LotEntry(b, 5)], 0);
    WinsInProportion([LotEntry(a, 1), LotEntry(b, 5)], 1);
  }

  /** lottery::pick: sum the tickets, then scan with a running sum. */
  method Pick(lot: seq<LotEntry>, draw: nat) returns (r: Option<nat>)
    requires DrawFits(lot, draw)
    ensures |lot| == 0 || Total(lot) == 0 ==> r == None
    ensures Total(lot) > 0 ==>
      exists i :: 0 <= i < |lot| && Owns(lot, i, draw) && r == Some(lot[i].tid)
    ensures r == Choice(lot, draw)
  {
    if |lot| == 0 {
      return None;
    }
    var total := 0;
    var k := 0;
    while k < |lot|
      invariant 0 <= k <= |lot|
      invariant total == Prefix(lot, k)
    {
      total := total + lot[k].tickets;
      k := k + 1;
    }
    if total == 0 {
      return None;
    }
    ChoiceIsOwner(lot, draw);
    var acc := 0;
    var i := 0;
    while i < |lot|
      invariant 0 <= i <= |lot|
      invariant acc == Prefix(lot, i) <= draw
      invariant ScanFrom(lot, draw, i) == ScanFrom(lot, draw, 0)
    {
      acc := acc + lot[i].tickets;
      if draw < acc {
        return Some(lot[i].tid);
      }
      i := i + 1;
    }
    r := None;
  }
}
