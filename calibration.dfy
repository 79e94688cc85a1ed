/** The arithmetic of Pool.calibrate: the (calls, size) pairs taken from the
    counters, their order by calls (callSizes' Less and Swap, sorted as
    sort.Sort sorts four elements), and the running-sum walk that picks the
    largest size worth keeping. */
module Calibration {
  import opened SizeClasses

  /** callSize: how many Put calls a class saw, and the class's anchor. */
  datatype CallSize = CallSize(calls: nat, size: nat)

  /** The pairs calibrate builds from a snapshot of the counters, in class
      order: (calls[i], minSize << i). */
  function Snapshot(counts: seq<nat>): (a: seq<CallSize>)
    ensures |a| == |counts|
    ensures forall i :: 0 <= i < |a| ==> a[i] == CallSize(counts[i], Anchor(i))
  {
    seq(|counts|, i requires 0 <= i < |counts| => CallSize(counts[i], Anchor(i)))
  }

  /** Sorted as callSizes.Less orders them: by calls, largest first. */
  predicate ByCallsDescending(a: seq<CallSize>)
  {
    forall i, j :: 0 <= i < j < |a| ==> a[i].calls >= a[j].calls
  }

  /** A possible outcome of sort.Sort on the snapshot of `counts`: the same
      pairs, by calls, largest first (ties in any order). */
  predicate IsRanking(counts: seq<nat>, a: seq<CallSize>)
  {
    |a| == |counts| && multiset(a) == multiset(Snapshot(counts)) && ByCallsDescending(a)
  }

  /** The sum of the counters. */
  function Sum(counts: seq<nat>): (s: nat)
    ensures forall i :: 0 <= i < |counts| ==> counts[i] <= s
  {
    if counts == [] then 0 else Sum(counts[..|counts| - 1]) + counts[|counts| - 1]
  }

  /** The calls of a run of pairs, added up. */
  function Total(a: seq<CallSize>): (s: nat)
    ensures forall i :: 0 <= i < |a| ==> a[i].calls <= s
  {
    if a == [] then 0 else Total(a[..|a| - 1]) + a[|a| - 1].calls
  }

  /** The largest size among the pairs (0 for none). */
  function Largest(a: seq<CallSize>): (m: nat)
    ensures forall i :: 0 <= i < |a| ==> a[i].size <= m
    ensures a != [] ==> exists i :: 0 <= i < |a| && a[i].size == m
  {
    if a == [] then 0
    else
      var m0 := Largest(a[..|a| - 1]);
      if a[|a| - 1].size > m0 then a[|a| - 1].size else m0
  }

  /** uint64(float64(callsSum) * maxPercentile), computed exactly as
      callsSum * 95 / 100. */
  function MaxSum(callsSum: nat): (m: nat)
    ensures m <= callsSum
    ensures m * PercentileDenominator <= callsSum * PercentileNumerator < (m + 1) * PercentileDenominator
  {
    callsSum * PercentileNumerator / PercentileDenominator
  }

  /** How many pairs, from the first, the running-sum walk takes: pair i is
      taken when the calls of the pairs before it do not exceed maxSum. */
  function Entered(a: seq<CallSize>, maxSum: nat): (k: nat)
    ensures k <= |a|
    ensures forall j :: 0 <= j < k ==> Total(a[..j]) <= maxSum
    ensures k < |a| ==> Total(a[..k]) > maxSum
  {
    EnteredFrom(a, maxSum, 0)
  }

  /** The walk resumed at pair i, all pairs before it having been taken. */
  function EnteredFrom(a: seq<CallSize>, maxSum: nat, i: nat): (k: nat)
    requires i <= |a|
    requires forall j :: 0 <= j < i ==> Total(a[..j]) <= maxSum
    ensures i <= k <= |a|
    ensures forall j :: 0 <= j < k ==> Total(a[..j]) <= maxSum
    ensures k < |a| ==> Total(a[..k]) > maxSum
    decreases |a| - i
  {
    if i == |a| || Total(a[..i]) > maxSum then i else EnteredFrom(a, maxSum, i + 1)
  }

  /** The maxSize calibrate derives from a ranking: the largest anchor among
      the pairs the walk takes. */
  function RetainedMax(a: seq<CallSize>, maxSum: nat): (m: nat)
    ensures forall i :: 0 <= i < Entered(a, maxSum) ==> a[i].size <= m
    ensures Entered(a, maxSum) > 0 ==> exists i :: 0 <= i < Entered(a, maxSum) && a[i].size == m
  {
    var k := Entered(a, maxSum);
    assert forall i :: 0 <= i < k ==> a[..k][i] == a[i];
    Largest(a[..k])
  }

  /** What a completed calibrate leaves in defaultSize and maxSize for the
      counter snapshot `counts`: the first size of some ranking, and the
      largest size the running-sum walk over that ranking takes. */
  ghost predicate Calibrated(counts: seq<nat>, defaultSize: nat, maxSize: nat)
  {
    |counts| == Steps &&
    exists a: seq<CallSize> :: IsRanking(counts, a) &&
      defaultSize == a[0].size && maxSize == RetainedMax(a, MaxSum(Sum(counts)))
  }

  /** callSizes.Less: pair i has more calls than pair j. */
  predicate Less(a: seq<CallSize>, i: nat, j: nat): (r: bool)
    requires i < |a| && j < |a|
    ensures r <==> a[j].calls < a[i].calls
  {
    a[i].calls > a[j].calls
  }

  /** Less is the strict weak ordering sort.Sort needs: irreflexive,
      transitive, and two pairs are incomparable exactly when their calls are
      equal, which makes incomparability transitive too. */
  lemma LessStrictWeakOrder(a: seq<CallSize>)
    ensures forall i :: 0 <= i < |a| ==> !Less(a, i, i)
    ensures forall i, j, k ::
      (0 <= i < |a| && 0 <= j < |a| && 0 <= k < |a| && Less(a, i, j) && Less(a, j, k)) ==>
      Less(a, i, k)
    ensures forall i, j :: 0 <= i < |a| && 0 <= j < |a| ==>
      (!Less(a, i, j) && !Less(a, j, i) <==> a[i].calls == a[j].calls)
    ensures forall i, j, k ::
      (0 <= i < |a| && 0 <= j < |a| && 0 <= k < |a| &&
       !Less(a, i, j) && !Less(a, j, i) && !Less(a, j, k) && !Less(a, k, j)) ==>
      !Less(a, i, k) && !Less(a, k, i)
  {
  }

  /** callSizes.Swap: exchanges pairs i and j. */
  method Swap(a: array<CallSize>, i: nat, j: nat)
    requires i < a.Length && j < a.Length
    modifies a
    ensures a[..] == old(a[..])[i := old(a[j])][j := old(a[i])]
    ensures multiset(a[..]) == old(multiset(a[..]))
  {
    a[i], a[j] := a[j], a[i];
  }

  /** sort.Sort(a) on a callSizes this short: an insertion sort that moves
      each pair down while Less(j, j-1) holds. */
  method SortByCalls(a: array<CallSize>)
    modifies a
    ensures ByCallsDescending(a[..])
    ensures multiset(a[..]) == old(multiset(a[..]))
  {
    if a.Length < 2 {
      return;
    }
    for i := 1 to a.Length
      invariant ByCallsDescending(a[..i])
      invariant multiset(a[..]) == old(multiset(a[..]))
    {
      InsertDown(a, i);
    }
    assert a[..] == a[..a.Length];
  }

  /** One pass of the insertion sort: a[..i] is already ordered; pair i moves
      down past every pair with fewer calls. */
  method InsertDown(a: array<CallSize>, i: nat)
    requires i < a.Length && ByCallsDescending(a[..i])
    modifies a
    ensures ByCallsDescending(a[..i + 1])
    ensures multiset(a[..]) == old(multiset(a[..]))
  {
    var j := i;
    while j > 0 && Less(a[..], j, j - 1)
      invariant j <= i
      invariant forall x, y :: 0 <= x < y <= i && y != j ==> a[x].calls >= a[y].calls
      invariant 0 < j < i ==> a[j - 1].calls >= a[j + 1].calls
      invariant multiset(a[..]) == old(multiset(a[..]))
    {
      Swap(a, j, j - 1);
      j := j - 1;
    }
  }

  /** The walk of calibrate over the sorted pairs: starting from the first
      size, it takes pairs while the calls taken so far do not exceed maxSum,
      raising maxSize to every size it takes. */
  method RetainSizes(a: array<CallSize>, maxSum: nat) returns (maxSize: nat)
    requires a.Length == Steps
    ensures maxSize == RetainedMax(a[..], maxSum)
  {
    maxSize := a[0].size;
    var callsSum := 0;
    ghost var k := Entered(a[..], maxSum);
    var i := 0;
    while i < Steps
      invariant i <= k
      invariant callsSum == Total(a[..i])
      invariant maxSize == Largest(a[..if i == 0 then 1 else i])
    {
      if callsSum > maxSum {
        break;
      }
      assert a[..i + 1][..i] == a[..i];
      callsSum := callsSum + a[i].calls;
      if a[i].size > maxSize {
        maxSize := a[i].size;
      }
      i := i + 1;
    }
    assert a[..] == a[..Steps];
  }

  /** Every pair of a ranking is the pair of some class: its calls are that
      class's counter and its size that class's anchor. */
  lemma RankingPairs(counts: seq<nat>, a: seq<CallSize>, k: nat)
    requires IsRanking(counts, a) && k < |a|
    ensures exists i :: 0 <= i < |counts| && a[k] == CallSize(counts[i], Anchor(i))
  {
    assert a[k] in multiset(a);
    assert a[k] in multiset(Snapshot(counts));
    var i :| 0 <= i < |counts| && Snapshot(counts)[i] == a[k];
  }

  /** The first pair of a ranking belongs to a class whose counter is
      maximal. */
  lemma RankingHead(counts: seq<nat>, a: seq<CallSize>)
    requires IsRanking(counts, a) && |counts| > 0
    ensures exists i :: 0 <= i < |counts| && a[0] == CallSize(counts[i], Anchor(i)) &&
                        forall j :: 0 <= j < |counts| ==> counts[j] <= counts[i]
  {
    RankingPairs(counts, a, 0);
    var i :| 0 <= i < |counts| && a[0] == CallSize(counts[i], Anchor(i));
    forall j | 0 <= j < |counts|
      ensures counts[j] <= counts[i]
    {
      assert Snapshot(counts)[j] in multiset(Snapshot(counts));
      assert Snapshot(counts)[j] in multiset(a);
      var k :| 0 <= k < |a| && a[k] == Snapshot(counts)[j];
    }
  }

  /** What a completed calibrate decides: defaultSize is the anchor of a class
      whose counter is maximal; maxSize is an anchor too, and never below
      defaultSize, because the walk always takes the first pair. */
  lemma CalibratedSizes(counts: seq<nat>, defaultSize: nat, maxSize: nat)
    requires Calibrated(counts, defaultSize, maxSize)
    ensures exists i :: 0 <= i < Steps && defaultSize == Anchor(i) &&
                        forall j :: 0 <= j < Steps ==> counts[j] <= counts[i]
    ensures IsAnchor(maxSize) && IsAnchor(defaultSize)
    ensures defaultSize <= maxSize
  {
    var a: seq<CallSize> :| IsRanking(counts, a) &&
      defaultSize == a[0].size && maxSize == RetainedMax(a, MaxSum(Sum(counts)));
    RankingHead(counts, a);
    var maxSum := MaxSum(Sum(counts));
    var k := Entered(a, maxSum);
    assert a[..0] == [];
    assert 0 < k;
    var p :| 0 <= p < k && a[..k][p].size == maxSize;
    RankingPairs(counts, a, p);
  }

  /** The classes the walk takes account for at least maxSum of the calls,
      i.e. (up to rounding) at least 95% of all Put calls of the snapshot. */
  lemma RetainedCoverage(counts: seq<nat>, a: seq<CallSize>)
    requires IsRanking(counts, a)
    ensures Total(a[..Entered(a, MaxSum(Sum(counts)))]) >= MaxSum(Sum(counts))
  {
    var k := Entered(a, MaxSum(Sum(counts)));
    if k == |a| {
      assert a[..k] == a;
      TotalPermutation(a, Snapshot(counts));
      TotalSnapshot(counts);
    }
  }

  /** Reordering pairs does not change their total. */
  lemma {:induction false} TotalPermutation(a: seq<CallSize>, b: seq<CallSize>)
    requires multiset(a) == multiset(b)
    ensures Total(a) == Total(b)
    decreases |a|
  {
    if a != [] {
      var n := |a| - 1;
      assert a[n] in multiset(b);
      var p :| 0 <= p < |b| && b[p] == a[n];
      var rest := b[..p] + b[p + 1..];
      DropMatching(a, b, p);
      TotalPermutation(a[..n], rest);
      TotalRemoveAt(b, p);
    }
  }

  /** Removing the last pair of a and a matching pair of b keeps two
      reorderings of each other. */
  lemma DropMatching(a: seq<CallSize>, b: seq<CallSize>, p: nat)
    requires multiset(a) == multiset(b) && a != [] && p < |b| && b[p] == a[|a| - 1]
    ensures multiset(a[..|a| - 1]) == multiset(b[..p] + b[p + 1..])
  {
    var n := |a| - 1;
    assert a == a[..n] + [a[n]];
    assert b == b[..p] + [b[p]] + b[p + 1..];
    calc {
      multiset(a[..n]) + multiset{a[n]};
      multiset(a);
      multiset(b);
      multiset(b[..p]) + multiset{b[p]} + multiset(b[p + 1..]);
      multiset(b[..p] + b[p + 1..]) + multiset{a[n]};
    }
    assert multiset(a[..n]) == multiset(a[..n]) + multiset{a[n]} - multiset{a[n]};
  }

  /** The total of b is the total without pair p, plus pair p. */
  lemma TotalRemoveAt(b: seq<CallSize>, p: nat)
    requires p < |b|
    ensures Total(b) == Total(b[..p] + b[p + 1..]) + b[p].calls
  {
    var pre, post := b[..p + 1], b[p + 1..];
    assert b == pre + post;
    assert pre[..p] == b[..p];
    TotalConcat(pre, post);
    TotalConcat(b[..p], post);
  }

  /** The total of a concatenation is the sum of the totals. */
  lemma {:induction false} TotalConcat(s: seq<CallSize>, t: seq<CallSize>)
    ensures Total(s + t) == Total(s) + Total(t)
    decreases |t|
  {
    if t == [] {
      assert s + t == s;
    } else {
      var n := |t| - 1;
      assert (s + t)[..|s + t| - 1] == s + t[..n];
      TotalConcat(s, t[..n]);
    }
  }

  /** The pairs built from the counters carry their sum. */
  lemma {:induction false} TotalSnapshot(counts: seq<nat>)
    ensures Total(Snapshot(counts)) == Sum(counts)
    decreases |counts|
  {
    if counts != [] {
      var n := |counts| - 1;
      assert Snapshot(counts)[..n] == Snapshot(counts[..n]);
      TotalSnapshot(counts[..n]);
    }
  }

  /** The class that carries the running sum past maxSum is still taken:
      counters 90, 10, 0, 0 (total 100, maxSum 95) keep 64 and 128, while
      96, 4, 0, 0 stop after 64. */
  lemma CrossingClassTaken()
    ensures RetainedMax([CallSize(90, 64), CallSize(10, 128), CallSize(0, 256), CallSize(0, 512)], MaxSum(100)) == 128
    ensures RetainedMax([CallSize(96, 64), CallSize(4, 128), CallSize(0, 256), CallSize(0, 512)], MaxSum(100)) == 64
  {
    var a := [CallSize(90, 64), CallSize(10, 128), CallSize(0, 256), CallSize(0, 512)];
    var b := [CallSize(96, 64), CallSize(4, 128), CallSize(0, 256), CallSize(0, 512)];
    assert MaxSum(100) == 95;
    assert a[..0] == [] && a[..1] == [a[0]] && a[..2] == [a[0], a[1]];
    assert a[..2][..1] == a[..1] && a[..1][..0] == a[..0];
    assert Total(a[..1]) == 90 && Total(a[..2]) == 100;
    assert Entered(a, 95) == 2;
    assert b[..0] == [] && b[..1] == [b[0]];
    assert b[..1][..0] == b[..0] && Total(b[..1]) == 96;
    assert Entered(b, 95) == 1;
  }

  /** A sorted reordering of the snapshot, walked with the 95% cutoff, gives
      a calibrated outcome. */
  lemma SortedSnapshotCalibrated(counts: seq<nat>, a: seq<CallSize>, maxSize: nat)
    requires |counts| == Steps && |a| == Steps
    requires multiset(a) == multiset(Snapshot(counts)) && ByCallsDescending(a)
    requires maxSize == RetainedMax(a, MaxSum(Sum(counts)))
    ensures Calibrated(counts, a[0].size, maxSize)
    ensures IsAnchor(a[0].size) && IsAnchor(maxSize) && a[0].size <= maxSize
  {
    assert IsRanking(counts, a);
    CalibratedSizes(counts, a[0].size, maxSize);
  }
}
