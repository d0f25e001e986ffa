/**
 * The real-time tier (src/scheduler/rt.rs): sort the candidates by
 * deadline with a stable sort, then take the first.
 */
module RealTime {
  import opened Wrappers

  /** A Ready real-time thread with a deadline: its table index and deadline. */
  datatype RtEntry = RtEntry(tid: nat, deadline: nat)

  predicate SortedByDeadline(s: seq<RtEntry>)
  {
    forall i, j :: 0 <= i < j < |s| ==> s[i].deadline <= s[j].deadline
  }

  /** Puts `x` before the first entry whose deadline is not smaller. */
  function Insert(x: RtEntry, s: seq<RtEntry>): seq<RtEntry>
  {
    if s == [] || x.deadline <= s[0].deadline then [x] + s
    else [s[0]] + Insert(x, s[1..])
  }

  /** Stable sort by deadline, as `sort_by_key` computes it. */
  function SortByDeadline(s: seq<RtEntry>): seq<RtEntry>
  {
    if s == [] then [] else Insert(s[0], SortByDeadline(s[1..]))
  }

  /** What `pick` returns for a candidate list. */
  function Choice(rt: seq<RtEntry>): Option<nat>
  {
    if rt == [] then None else Some(SortByDeadline(rt)[0].tid)
  }

  lemma {:induction false} InsertPermutes(x: RtEntry, s: seq<RtEntry>)
    ensures multiset(Insert(x, s)) == multiset(s) + multiset{x}
    ensures |Insert(x, s)| == |s| + 1
  {
    if s != [] && x.deadline > s[0].deadline {
      InsertPermutes(x, s[1..]);
      assert s == [s[0]] + s[1..];
    }
  }

  lemma ConsSorted(h: RtEntry, r: seq<RtEntry>)
    requires SortedByDeadline(r)
    requires forall k :: 0 <= k < |r| ==> h.deadline <= r[k].deadline
    ensures SortedByDeadline([h] + r)
  {
  }

  lemma {:induction false} InsertSorted(x: RtEntry, s: seq<RtEntry>)
    requires SortedByDeadline(s)
    ensures SortedByDeadline(Insert(x, s))
  {
    if s == [] || x.deadline <= s[0].deadline {
      ConsSorted(x, s);
    } else {
      var r := Insert(x, s[1..]);
      InsertSorted(x, s[1..]);
      InsertPermutes(x, s[1..]);
      forall k | 0 <= k < |r| ensures s[0].deadline <= r[k].deadline {
        assert r[k] in multiset(r);
        if r[k] != x {
          assert r[k] in multiset(s[1..]);
          var m :| 0 <= m < |s[1..]| && s[1..][m] == r[k];
          assert s[m + 1] == r[k];
        }
      }
      ConsSorted(s[0], r);
    }
  }

  /** The sort yields an ascending permutation of its input. */
  lemma {:induction false} SortProperties(s: seq<RtEntry>)
    ensures SortedByDeadline(SortByDeadline(s))
    ensures multiset(SortByDeadline(s)) == multiset(s)
    ensures |SortByDeadline(s)| == |s|
  {
    if s != [] {
      SortProperties(s[1..]);
      InsertSorted(s[0], SortByDeadline(s[1..]));
      InsertPermutes(s[0], SortByDeadline(s[1..]));
      assert s == [s[0]] + s[1..];
    }
  }

  /**
   * Stability at the head: the first entry of the sorted list is the
   * earliest entry of the input among those with the least deadline.
   */
  lemma {:induction false} SortHeadIsFirstMinimum(s: seq<RtEntry>, i: nat)
    requires i < |s|
    requires forall j :: 0 <= j < |s| ==> s[i].deadline <= s[j].deadline
    requires forall j :: 0 <= j < i ==> s[i].deadline < s[j].deadline
    ensures SortByDeadline(s) != [] && SortByDeadline(s)[0] == s[i]
  {
    var t := SortByDeadline(s[1..]);
    SortProperties(s[1..]);
    if i == 0 {
      if t != [] {
        assert t[0] in multiset(s[1..]);
        var k :| 0 <= k < |s[1..]| && s[1..][k] == t[0];
        assert s[k + 1] == t[0];
      }
    } else {
      SortHeadIsFirstMinimum(s[1..], i - 1);
    }
  }

  /** The chosen id has the least deadline and is the first such entry. */
  lemma ChoiceIsEarliestDeadline(rt: seq<RtEntry>)
    ensures rt == [] <==> Choice(rt) == None
    ensures rt != [] ==>
      exists i :: 0 <= i < |rt| && Choice(rt) == Some(rt[i].tid)
        && (forall j :: 0 <= j < |rt| ==> rt[i].deadline <= rt[j].deadline)
        && (forall j :: 0 <= j < i ==> rt[i].deadline < rt[j].deadline)
  {
    if rt != [] {
      var i := FirstMinimum(rt);
      SortHeadIsFirstMinimum(rt, i);
    }
  }

  /** Index of the first entry with the least deadline. */
  function FirstMinimum(s: seq<RtEntry>): (i: nat)
    requires s != []
    ensures i < |s|
    ensures forall j :: 0 <= j < |s| ==> s[i].deadline <= s[j].deadline
    ensures forall j :: 0 <= j < i ==> s[i].deadline < s[j].deadline
  {
    if |s| == 1 then 0
    else
      var k := FirstMinimum(s[1..]) + 1;
      if s[0].deadline <= s[k].deadline then 0 else k
  }

  /**
   * The suffix step of the in-place sort: when the first m entries of `t`
   * have smaller deadlines than `x` and the next one (if any) does not,
   * inserting `x` places it at position m.
   */
  lemma {:induction false} InsertAt(x: RtEntry, t: seq<RtEntry>, m: nat)
    requires m <= |t|
    requires forall k :: 0 <= k < m ==> t[k].deadline < x.deadline
    requires m < |t| ==> x.deadline <= t[m].deadline
    ensures Insert(x, t) == t[..m] + [x] + t[m..]
  {
    if m > 0 {
      InsertAt(x, t[1..], m - 1);
      assert t[1..][..m - 1] == t[1..m];
      assert t[1..][m - 1..] == t[m..];
      assert t[..m] == [t[0]] + t[1..m];
    }
  }

  /**
   * One pass of the in-place sort: moves a[i] rightwards past the entries
   * with smaller deadlines that follow it.
   */
  method InsertInPlace(a: array<RtEntry>, i: nat)
    requires i < a.Length
    modifies a
    ensures a[..i] == old(a[..i])
    ensures a[i..] == Insert(old(a[i]), old(a[i + 1..]))
  {
    var x := a[i];
    ghost var t := a[i + 1..];
    var j := i;
    while j + 1 < a.Length && a[j + 1].deadline < x.deadline
      invariant i <= j < a.Length
      invariant a[..i] == old(a[..i])
      invariant a[i..j] == t[..j - i]
      invariant a[j + 1..] == t[j - i..]
      invariant forall k :: 0 <= k < j - i ==> t[k].deadline < x.deadline
    {
      assert a[j + 1] == t[j - i];
      a[j] := a[j + 1];
      j := j + 1;
    }
    a[j] := x;
    InsertAt(x, t, j - i);
    assert a[i..] == a[i..j] + [x] + a[j + 1..];
  }

  /** `sort_by_key` on the candidate vector: sorts it in place by deadline. */
  method SortByKey(a: array<RtEntry>)
    modifies a
    ensures a[..] == SortByDeadline(old(a[..]))
  {
    ghost var orig := a[..];
    var i := a.Length;
    assert a[i..] == [];
    while i > 0
      invariant 0 <= i <= a.Length
      invariant a[..i] == orig[..i]
      invariant a[i..] == SortByDeadline(orig[i..])
    {
      i := i - 1;
      assert orig[i..] == [orig[i]] + orig[i + 1..];
      assert a[i] == orig[i];
      InsertInPlace(a, i);
    }
    assert a[..] == a[0..];
    assert orig == orig[0..];
  }

  /** rt::pick: None for no candidates, otherwise sort and take the head. */
  method Pick(a: array<RtEntry>) returns (r: Option<nat>)
    modifies a
    ensures a.Length == 0 ==> r == None && a[..] == old(a[..])
    ensures a.Length > 0 ==> a[..] == SortByDeadline(old(a[..])) && r == Some(a[0].tid)
    ensures r == Choice(old(a[..]))
  {
    if a.Length == 0 {
      return None;
    }
    SortByKey(a);
    r := Some(a[0].tid);
  }
}
