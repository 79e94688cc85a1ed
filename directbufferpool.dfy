/** Pool: a cache of DirectBuffers that counts, per size class, the lengths
    of the buffers put back, and recalibrates from those counts the capacity
    new buffers get (defaultSize) and the largest capacity it keeps
    (maxSize). The atomics of the Go code are plain field reads and writes
    here, one call at a time. */
module DirectBufferPool {
  import opened DirectBuffers
  import opened SizeClasses
  import opened Calibration

  /** Either no calibration has happened yet (both 0), or both sizes are
      anchors and the default is not above the maximum. */
  ghost predicate SizesConsistent(defaultSize: nat, maxSize: nat)
  {
    (defaultSize == 0 && maxSize == 0) ||
    (IsAnchor(defaultSize) && IsAnchor(maxSize) && defaultSize <= maxSize)
  }

  class Pool {
    /** calls[i]: Put calls since the last calibration whose buffer length fell in class i. */
    var calls: array<nat>
    /** 1 while a calibration runs, 0 otherwise. */
    var calibrating: nat
    /** The capacity Get gives a fresh buffer; 0 before the first calibration. */
    var defaultSize: nat
    /** The largest capacity Put keeps; 0 (keep everything) before the first calibration. */
    var maxSize: nat
    /** The buffers held by the underlying sync.Pool. */
    var cache: seq<DirectBuffer>

    /** Four counters, none above the threshold while no calibration runs, and
        either no calibration yet or two anchors with defaultSize <= maxSize. */
    ghost predicate Valid()
      reads this, calls
    {
      calls.Length == Steps &&
      (calibrating == 0 ==> forall i :: 0 <= i < Steps ==> calls[i] <= CalibrateCallsThreshold) &&
      SizesConsistent(defaultSize, maxSize)
    }

    /** The zero Pool: no counts, no calibration yet, nothing cached. */
    constructor ()
      ensures Valid() && fresh(calls)
      ensures calls[..] == [0, 0, 0, 0] && calibrating == 0
      ensures defaultSize == 0 && maxSize == 0 && cache == []
    {
      calls := new nat[Steps](_ => 0);
      calibrating := 0;
      defaultSize := 0;
      maxSize := 0;
      cache := [];
    }

    /** p.Get(): a cached buffer if there is one, otherwise a fresh buffer of
        length 0 and capacity defaultSize. */
    method Get() returns (b: DirectBuffer)
      requires Valid()
      modifies this
      ensures Valid()
      ensures calls == old(calls) && calibrating == old(calibrating)
      ensures defaultSize == old(defaultSize) && maxSize == old(maxSize)
      ensures old(cache) != [] ==>
        b == old(cache)[|old(cache)| - 1] && cache == old(cache)[..|old(cache)| - 1]
      ensures old(cache) == [] ==>
        fresh(b) && b.Valid() && b.len == 0 && b.Cap() == defaultSize && cache == []
    {
      if cache != [] {
        b := cache[|cache| - 1];
        cache := cache[..|cache| - 1];
      } else {
        b := new DirectBuffer.Make(defaultSize);
      }
    }

    /** p.Put(b): counts b in the class of its length, recalibrates when that
        counter goes above the threshold, then keeps b (reset to a nil slice)
        unless maxSize is set and b's capacity is above it. */
    method Put(b: DirectBuffer)
      requires Valid() && b.Valid()
      modifies this, calls, b
      ensures Valid() && calls == old(calls) && calibrating == old(calibrating)
      ensures Counted(old(calls[..]), old(calibrating), ClassIndex(old(b.len)), old(defaultSize), old(maxSize))
      ensures maxSize == 0 || old(b.Cap()) <= maxSize ==>
        b.data == null && b.len == 0 && cache == old(cache) + [b]
      ensures !(maxSize == 0 || old(b.Cap()) <= maxSize) ==>
        b.data == old(b.data) && b.len == old(b.len) && cache == old(cache)
    {
      var idx := Index(b.len);
      Count(idx);
      if maxSize == 0 || b.Cap() <= maxSize {
        b.Reset();
        cache := cache + [b];
      }
    }

    /** The new counters and sizes after one Put in class idx, from the old
        counters, gate and sizes: the counter goes up by one; if that takes it
        above the threshold and no calibration runs, calibration empties all
        counters and recomputes the sizes from the raised counts. */
    ghost predicate Counted(counts: seq<nat>, gate: nat, idx: nat, oldDefault: nat, oldMax: nat)
      requires |counts| == Steps && idx < Steps
      reads this, calls
    {
      var bumped := counts[idx := counts[idx] + 1];
      if bumped[idx] > CalibrateCallsThreshold && gate == 0 then
        calls[..] == [0, 0, 0, 0] && Calibrated(bumped, defaultSize, maxSize)
      else
        calls[..] == bumped && defaultSize == oldDefault && maxSize == oldMax
    }

    /** The counting half of Put: atomic.AddUint64(&p.calls[idx], 1), then
        calibrate when the result is above the threshold. */
    method Count(idx: nat)
      requires Valid() && idx < Steps
      modifies this, calls
      ensures Valid() && calls == old(calls) && calibrating == old(calibrating) && cache == old(cache)
      ensures Counted(old(calls[..]), old(calibrating), idx, old(defaultSize), old(maxSize))
    {
      calls[idx] := calls[idx] + 1;
      if calls[idx] > CalibrateCallsThreshold {
        Calibrate();
      }
    }

    /** p.calibrate(): unless a calibration is already running, takes every
        counter (leaving it 0), ranks the classes by calls, and stores the most
        called class's anchor as defaultSize and the largest anchor the
        running-sum walk takes as maxSize. */
    method Calibrate()
      requires calls.Length == Steps
      requires SizesConsistent(defaultSize, maxSize)
      modifies this, calls
      ensures calls == old(calls) && cache == old(cache) && calibrating == old(calibrating)
      ensures old(calibrating) != 0 ==>
        calls[..] == old(calls[..]) && defaultSize == old(defaultSize) && maxSize == old(maxSize)
      ensures old(calibrating) == 0 ==>
        calls[..] == [0, 0, 0, 0] && Calibrated(old(calls[..]), defaultSize, maxSize)
      ensures SizesConsistent(defaultSize, maxSize)
    {
      if calibrating != 0 {
        return;
      }
      calibrating := 1;
      ghost var counts := calls[..];
      var a, callsSum := TakeCounts(calls);
      defaultSize, maxSize := RankSizes(a, callsSum, counts);
      calibrating := 0;
    }
  }

  /** The first loop of calibrate: swaps every counter for 0 and collects the
      pairs (calls[i], minSize << i) and the sum of the calls. */
  method TakeCounts(calls: array<nat>) returns (a: array<CallSize>, callsSum: nat)
    requires calls.Length == Steps
    modifies calls
    ensures fresh(a) && a[..] == Snapshot(old(calls[..])) && callsSum == Sum(old(calls[..]))
    ensures calls[..] == [0, 0, 0, 0]
  {
    ghost var counts := calls[..];
    a := new CallSize[Steps];
    callsSum := 0;
    for i := 0 to Steps
      invariant forall j :: 0 <= j < i ==> calls[j] == 0
      invariant calls[i..] == counts[i..]
      invariant forall j :: 0 <= j < i ==> a[j] == CallSize(counts[j], Anchor(j))
      invariant callsSum == Sum(counts[..i])
    {
      var c := calls[i];
      calls[i] := 0;
      assert counts[..i + 1][..i] == counts[..i];
      callsSum := callsSum + c;
      a[i] := CallSize(c, Anchor(i));
    }
    assert counts[..Steps] == counts;
  }

  /** The rest of calibrate: sorts the pairs by calls and derives defaultSize
      (the first size) and maxSize (the running-sum walk). */
  method RankSizes(a: array<CallSize>, callsSum: nat, ghost counts: seq<nat>) returns (defaultSize: nat, maxSize: nat)
    requires |counts| == Steps && a[..] == Snapshot(counts) && callsSum == Sum(counts)
    modifies a
    ensures Calibrated(counts, defaultSize, maxSize) && SizesConsistent(defaultSize, maxSize)
  {
    SortByCalls(a);
    defaultSize := a[0].size;
    maxSize := RetainSizes(a, MaxSum(callsSum));
    SortedSnapshotCalibrated(counts, a[..], maxSize);
  }
}
