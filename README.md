# directbuffer in Dafny

A model of the two halves of the Go package `core`:

- `DirectBuffer` (core/directbuffer.go) is a byte slice that can be filled from
  an `io.Reader`. `ReadFrom` starts a store of 64 bytes when the slice has no
  capacity and doubles the store, copying the bytes already held, each time the
  tail fills. It gives up with "DirectBuffer too large" once the doubled
  capacity would pass `MaxBufferSize` (10 MiB). EOF ends the fill successfully.
  The count it returns is the bytes added by this call, not the total length.
  `Write` appends without any ceiling. `Len` is nil-safe, `Bytes` returns the
  slice, and `Reset` makes it nil.
- `Pool` (core/directbufferpool.go) is a cache of `DirectBuffer`s that keeps a
  histogram of four size classes, with anchors 64, 128, 256 and 512.
  - `Put` counts each returned buffer in the class of its length.
  - When a counter passes 42000, Put calls `calibrate`. That call empties the
    counters, ranks the classes by calls, and picks two sizes. `defaultSize`
    is the anchor of the most used class. `maxSize` is the largest anchor met
    while walking the ranking until the running sum of calls exceeds 95% of
    the total.
  - `Put` keeps a buffer only while `maxSize` is unset or the buffer's
    capacity fits under it.
  - `Get` hands back a cached buffer, or a fresh one with capacity
    `defaultSize`.

Files:

- `powers.dfy`: module `Powers`, which defines powers of two.
- `readfrom_spec.dfy`: module `ReadFromSpec`. It states what `ReadFrom`
  computes, as a function `Loop` over the bytes held, the capacity, and the
  reader's remaining responses. The lemmas give the contract callers rely on.
- `directbuffer.dfy`: module `DirectBuffers`.
  - The `DirectBuffer` class has a nullable backing array `data` (null is the
    nil slice) and a length `len`. Its capacity is `data.Length`.
  - `ReadFrom` runs the loop in place on arrays and is proved equal to
    `ReadFromSpec.ReadFrom`.
  - The `io.Reader` is a `Reader` object that answers each `Read` with the
    next response of a finite script. Each response is a chunk plus nil, EOF
    or an error.
- `sizeclass.dfy`: module `SizeClasses`. It holds the constants, the anchors,
  the spec function `ClassIndex`, and the loop `Index` that mirrors `index`.
- `calibration.dfy`: module `Calibration`.
  - `callSize`, `Less`/`Swap` and the sort of four pairs.
  - The running-sum walk.
  - The predicate `Calibrated`, which says what a completed calibration leaves
    behind, and lemmas on it.
- `directbufferpool.dfy`: module `DirectBufferPool`. The `Pool` class has the
  fields `calls`, `calibrating`, `defaultSize` and `maxSize`, plus a sequence
  `cache` that stands for the `sync.Pool`.

How the Go text is read:

- The code uses the length of the buffer to pick its class
  (core/directbufferpool.go:53). Whether to keep it depends on its capacity
  (core/directbufferpool.go:62). The model does the same.
- On the "too large" path `db.data` is not assigned. Only core/directbuffer.go:55
  assigns it. So the bytes read during that call are counted in the result
  but do not end up in the buffer. The model keeps this.
- The walk in calibrate tests the running sum before adding a class. So the
  class that carries the sum past 95% is still taken
  (`Calibration.CrossingClassTaken`).
- `ReadFrom` as written does not compile: it redeclares the named result `n`
  and adds an `int` to an `int64`. The model reads it as the evident integer
  loop.
- Go's `>>` on a signed int is an arithmetic shift, which is floor division by
  a power of two. So `index(0)` shifts -1 to -1 and skips the loop. Dafny's
  `/` with a positive divisor is also floor division, and the model uses it.
- Each atomic operation is a plain field read or write. Calls are taken one
  at a time. The `calibrating` gate is a field: it is 0 before and after a
  calibration, and a calibration that finds it nonzero does nothing.

## Model

| member | source | states |
|---|---|---|
| DirectBuffers.DirectBuffer.ReadFrom | core/directbuffer.go:29-63 | the count is the bytes delivered in this call, the error is `ReadFromSpec.ReadFrom`'s, and the reader has consumed exactly the responses that run read; on "too large" the buffer is left exactly as it was, otherwise it holds the run's bytes in a store of the run's capacity |
| DirectBuffers.ReadLoop | core/directbuffer.go:41-62 | the loop on its locals equals `ReadFromSpec.Loop` from the starting bytes: same counter, error, bytes and capacity; the first `nStart` bytes of the original store are untouched; `nStart <= n <= cap` |
| DirectBuffers.Turn | core/directbuffer.go:42-61 | one iteration: either stops with the result `Loop` gives, or hands over state for which `Loop` gives the same result one Read later; the reader's script loses exactly the responses read; the first `keep` bytes held are never overwritten |
| DirectBuffers.GrowIfFull | core/directbuffer.go:42-50 | refuses exactly when the store is full and its double passes `MaxBufferSize`; otherwise keeps the store, or doubles it when full, with the held bytes copied |
| DirectBuffers.DirectBuffer.Write | core/directbuffer.go:88-91 | the bytes become the old bytes followed by `p`, the count is `len(p)` with no error, there is no ceiling; the store is reused when `p` fits, replaced by a fresh one otherwise |
| DirectBuffers.DirectBuffer.Reset | core/directbuffer.go:23-26 | the slice becomes nil: no bytes, length 0, capacity 0 |
| DirectBuffers.DirectBuffer.Bytes | core/directbuffer.go:84-86 | the slice's bytes: exactly `len` of them, within the capacity |
| DirectBuffers.Len | core/directbuffer.go:65-70 | 0 for a nil buffer, otherwise the number of bytes `Bytes` returns |
| DirectBuffers.AppendCapacity | core/directbuffer.go:89 | the capacity after append is at least the old capacity and the needed length, and stays the old one exactly when the bytes fit |
| DirectBuffers.DirectBuffer.Make | core/directbufferpool.go:43-46 | a buffer with no bytes and the requested capacity |
| ReadFromSpec.Loop | core/directbuffer.go:41-62 | the loop as a function, one turn per Read call; its own contract only bounds the Read calls by the reader's responses, and the properties of the loop are stated by `LoopBytes`, `LoopStops` and `LoopCapacity` |
| ReadFromSpec.LoopBytes | core/directbuffer.go:47-53 | the loop's bytes are the starting bytes followed by the chunks of the Read calls it made, in order, and the counter is their number |
| ReadFromSpec.LoopStops | core/directbuffer.go:42-61 | "too large" comes only after all-nil reads with a full store whose double passes the ceiling; otherwise the last Read is the first non-nil answer and decides the error |
| ReadFromSpec.LoopCapacity | core/directbuffer.go:42-50 | the capacity is the starting one times 2^growths, always holds the bytes, and after any growth is at most `MaxBufferSize` and at most twice the bytes held |
| ReadFromSpec.ReadFrom | core/directbuffer.go:29-40 | the loop started on the buffer's bytes, with the buffer's capacity, or 64 when it has none, and no Read calls or growths yet; it never makes more Read calls than the reader has answers |
| ReadFromSpec.ReadFromAppends | core/directbuffer.go:29-63 | the returned count is the bytes delivered in this call and never negative; unless too large, the buffer is the old contents plus those bytes and the capacity is 64 (or the old capacity) times a power of two, never grown past 10 MiB |
| ReadFromSpec.ReadFromStops | core/directbuffer.go:42-61 | EOF gives no error, another reader error is returned verbatim, and "too large" happens only while every Read answered nil |
| ReadFromSpec.EndlessReaderOverflows | core/directbuffer.go:42-45 | a reader that never answers EOF or an error ends in "too large" with a capacity whose double passes 10 MiB, and the count is all bytes delivered |
| ReadFromSpec.HundredBytesThenEof | core/directbuffer.go:35-58 | 64 bytes then 36 bytes with EOF on an empty buffer: 100 bytes, no error, the 64-byte store doubled once to 128 |
| SizeClasses.ClassIndex | core/directbufferpool.go:129-141 | the class is in 0..3, every smaller class's anchor is below n, and n fits its own anchor unless it is class 3 |
| SizeClasses.Index | core/directbufferpool.go:129-141 | the decrement, shift and halving loop with its clamp computes `ClassIndex` for every int |
| SizeClasses.ClassIndexUnique | core/directbufferpool.go:129-141 | `ClassIndex(n)` is the only class with every smaller anchor below n and n within its own anchor (or the last class) |
| SizeClasses.ClassIndexMonotone | core/directbufferpool.go:129-141 | a longer buffer never gets a smaller class |
| SizeClasses.ClassIndexAgainstAnchor | core/directbufferpool.go:129-141 | a length up to anchor i has class at most i; a length above it (below the last class) has a class above i |
| SizeClasses.ClassIndexEdges | core/directbufferpool.go:129-141 | 0, 1 and 64 map to 0; 65 and 128 to 1; 129 and 256 to 2; 257, 512, 513 and 1 MiB to 3 |
| Calibration.Snapshot | core/directbufferpool.go:75-82 | pair i is (counter i, `minSize << i`) |
| Calibration.MaxSum | core/directbufferpool.go:91 | the cutoff is the floor of 95% of the total calls, so at most the total |
| Calibration.Entered | core/directbufferpool.go:93-97 | the walk takes pair i exactly while the calls of the pairs before it are at most the cutoff, and stops at the first pair where they exceed it |
| Calibration.RetainedMax | core/directbufferpool.go:87-102 | no pair the walk takes has a size above the result, and when the walk takes any pair, one of them has exactly that size |
| Calibration.LessStrictWeakOrder | core/directbufferpool.go:121-123 | `Less` is a strict weak ordering, as `sort.Sort` requires: never `Less(i, i)`, transitive, and two pairs are incomparable exactly when their calls are equal, so incomparability is transitive |
| Calibration.Swap | core/directbufferpool.go:125-127 | exchanges two pairs, so the multiset of pairs is unchanged |
| Calibration.SortByCalls | core/directbufferpool.go:84 | sorts in place by calls, largest first, as a permutation of the pairs |
| Calibration.InsertDown | core/directbufferpool.go:121-127 | one insertion step: the sorted prefix grows by one pair and the multiset of pairs is unchanged |
| Calibration.RetainSizes | core/directbufferpool.go:87-102 | the walk's loop, with its break before the addition, returns `RetainedMax` of the ranking |
| Calibration.RankingPairs | core/directbufferpool.go:75-84 | each pair of a sorted snapshot is (counter i, anchor i) for some class i |
| Calibration.RankingHead | core/directbufferpool.go:84-87 | the first pair of a sorted snapshot belongs to a class whose counter is maximal |
| Calibration.Calibrated | core/directbufferpool.go:75-105 | what a finished calibrate leaves: `defaultSize` is the first size of some ranking (a permutation of the snapshot pairs sorted by calls, largest first) and `maxSize` is the largest size the walk over that ranking takes with the 95% cutoff; ties between equal counters may give any of their orders |
| Calibration.CalibratedSizes | core/directbufferpool.go:75-105 | after calibration `defaultSize` is the anchor of a class whose counter is maximal, and `maxSize` is an anchor no smaller than `defaultSize` |
| Calibration.RetainedCoverage | core/directbufferpool.go:91-102 | the classes the walk takes carry at least the cutoff, i.e. 95% of the snapshot's calls |
| Calibration.CrossingClassTaken | core/directbufferpool.go:93-102 | with counts 90/10/0/0 the walk keeps 128 (the class crossing 95% is taken); with 96/4/0/0 it stops after 64 |
| Calibration.SortedSnapshotCalibrated | core/directbufferpool.go:84-105 | a sorted snapshot walked with the 95% cutoff satisfies `Calibrated`, with two anchors in order |
| DirectBufferPool.Pool.constructor | core/directbufferpool.go:20-28 | the zero Pool: counters 0, no calibration running, both sizes 0, nothing cached |
| DirectBufferPool.Pool.Get | core/directbufferpool.go:34-47 | returns a cached buffer when there is one; otherwise a fresh buffer of length 0 and capacity `defaultSize`; counters and sizes unchanged |
| DirectBufferPool.Pool.Put | core/directbufferpool.go:52-66 | counts the buffer in `ClassIndex` of its length (as `Count` states); keeps it, reset to nil, exactly when `maxSize` is 0 or its capacity is at most `maxSize`, and otherwise leaves it and the cache untouched; the pool stays valid |
| DirectBufferPool.Pool.Count | core/directbufferpool.go:53-59 | the class's counter goes up by exactly 1 and the others stay; when that takes it past 42000 and no calibration runs, all counters end at 0 and the sizes are `Calibrated` from the raised counts |
| DirectBufferPool.Pool.Calibrate | core/directbufferpool.go:68-108 | changes nothing while a calibration runs; otherwise every counter ends at 0, the gate is back at 0, and the sizes are `Calibrated` from the counters taken |
| DirectBufferPool.TakeCounts | core/directbufferpool.go:73-82 | swaps every counter for 0 and returns the snapshot pairs and the sum of the calls |
| DirectBufferPool.RankSizes | core/directbufferpool.go:84-102 | sorts the snapshot and returns sizes that are `Calibrated` and consistent (two anchors, default at most max) |

## Left out

- `sync.Pool` is a sequence `cache`. `Put` appends to it, and `Get` takes the last element. The real pool may return any cached object or none, and may drop objects at garbage collection.
- Atomics, the CAS on `calibrating`, and concurrent callers are left out. Calls are taken one at a time, so the claim that exactly one concurrent caller calibrates is not modelled.
- Calibration.MaxSum: `uint64(float64(callsSum) * 0.95)` is replaced by the exact integer `callsSum * 95 / 100`. The two can differ by rounding for very large sums.
- DirectBuffers.AppendCapacity: the capacity rule is stated weaker than Go's `append`. The model grows to the larger of twice the old capacity and the needed length. The Go runtime also rounds up to allocation size classes and grows more slowly above 256 elements.
- DirectBuffers.DirectBuffer.Write: its capacity after a growing append is `AppendCapacity`'s, which is weaker than the Go runtime's exact growth rule (see the line above).
- `uint64` counters, and `int64`/`int` lengths, are unbounded integers. Counters stay at most 42001. `ReadFrom` never grows a store past 10 MiB, but `Write` has no ceiling, so a buffer may hold more than that. Lengths are bounded by capacities far below 2^63, so wrap-around is not modelled.
- `bytePool`, `NewDirectBuffer`, and the `bytePool.Put` inside `Reset` are not modelled: `bytePool` is not defined in the modelled files. `Reset` only sets the slice to nil.
- `String()` (fmt formatting) and `WriteTo` (a plain `io.Writer` pass-through) are not modelled.
- The unused constants `maxBitSize` and `maxSIze` are not modelled. Neither are the global `defaultPool` and the package-level `Get`/`Put` wrappers, which only forward.
- The reader is given to `ReadFrom` as a finite script that fits the offered tail (`Admissible`). A reader that returns more bytes than offered, or that never ends while never filling the buffer, is outside the model.
- `Bytes()` returns a sequence value. The aliasing between the returned slice and the buffer is not modelled.
- Six helper methods split longer Go functions so that each proof stays small:
  - `ReadLoop`, `Turn` and `GrowIfFull` split the loop of `ReadFrom`.
  - `Count`, `TakeCounts` and `RankSizes` split `Put` and `calibrate`.
