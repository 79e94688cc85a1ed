/** What DirectBuffer.ReadFrom computes, stated on values.

    The io.Reader it drains is a finite script of responses: each response is
    the chunk of bytes one Read call delivers into the free tail it is offered,
    together with the status that call returns (nil, io.EOF or another error).
    `Loop` follows the body of ReadFrom's `for` loop one Read at a time; the
    lemmas below say what that loop promises its caller. */
module ReadFromSpec {
  import opened Powers

  newtype byte = x: int | 0 <= x < 256

  /** The hard ceiling on the capacity ReadFrom may grow a buffer to (10 MiB). */
  const MaxBufferSize: nat := 10 * 1024 * 1024

  /** The capacity ReadFrom allocates when the buffer has none. */
  const InitialCapacity: nat := 64

  /** What one Read call returns besides its byte count. */
  datatype Status = Ok | Eof | Failed(reason: string)

  /** One Read call: the bytes written at the start of the offered tail, and the status. */
  datatype Response = Response(chunk: seq<byte>, status: Status)

  /** The error ReadFrom returns: nil, "DirectBuffer too large", or the reader's own error. */
  datatype Error = NoError | TooLarge | ReadFailed(reason: string)

  /** The outcome of ReadFrom's loop.
      n: the final value of the byte counter (old length plus bytes delivered);
      got: the bytes the working slice holds (stored into db.data unless err is TooLarge);
      nMax: the capacity of the working slice (before the refused doubling, for TooLarge);
      readCalls, growths: how many Read calls and how many reallocations happened. */
  datatype Run = Run(n: nat, err: Error, got: seq<byte>, nMax: nat, readCalls: nat, growths: nat)

  /** The capacity the loop starts with: 64 when the buffer has none. */
  function StartCapacity(cap: nat): (c: nat)
    ensures c > 0
  {
    if cap == 0 then InitialCapacity else cap
  }

  /** The capacity after the growth test at the head of the loop: doubled when full. */
  function Grown(n: nat, nMax: nat): (room: nat)
    ensures nMax <= room
  {
    if n == nMax then 2 * nMax else nMax
  }

  /** The error ReadFrom reports for the status that ended the loop. */
  function ErrorOf(s: Status): (e: Error)
    ensures e != TooLarge
  {
    match s
    case Failed(m) => ReadFailed(m)
    case _ => NoError
  }

  /** All bytes delivered by a sequence of Read calls, in order. */
  function Delivered(script: seq<Response>): (r: seq<byte>)
  {
    if script == [] then [] else script[0].chunk + Delivered(script[1..])
  }

  /** The reader behaves as an io.Reader must for this buffer: every chunk fits
      the tail it is offered, and the script does not run out before a call
      that ends the loop (EOF, an error, or the refused doubling). */
  predicate Admissible(n: nat, nMax: nat, script: seq<Response>)
    decreases |script|
  {
    var room := Grown(n, nMax);
    (n == nMax && room > MaxBufferSize) ||
    (|script| > 0 && n + |script[0].chunk| <= room &&
     (script[0].status == Ok ==> Admissible(n + |script[0].chunk|, room, script[1..])))
  }

  /** ReadFrom's loop entered with the working slice holding `got` in a store of
      capacity `nMax`, after `readCalls` Read calls and `growths` reallocations. */
  function Loop(got: seq<byte>, nMax: nat, script: seq<Response>, readCalls: nat, growths: nat): (r: Run)
    requires Admissible(|got|, nMax, script)
    ensures readCalls <= r.readCalls <= readCalls + |script|
    decreases |script|
  {
    var room := Grown(|got|, nMax);
    var grew := if |got| == nMax then 1 else 0;
    if |got| == nMax && room > MaxBufferSize then
      Run(|got|, TooLarge, got, nMax, readCalls, growths)
    else
      var got' := got + script[0].chunk;
      if script[0].status == Ok then
        Loop(got', room, script[1..], readCalls + 1, growths + grew)
      else
        Run(|got'|, ErrorOf(script[0].status), got', room, readCalls + 1, growths + grew)
  }

  /** DirectBuffer.ReadFrom on a buffer holding `data` with capacity `cap`. */
  function ReadFrom(data: seq<byte>, cap: nat, script: seq<Response>): (r: Run)
    requires |data| <= cap && Admissible(|data|, StartCapacity(cap), script)
    ensures r.readCalls <= |script|
  {
    Loop(data, StartCapacity(cap), script, 0, 0)
  }

  /** One turn of ReadFrom's loop that does not stop at the growth test: the
      next chunk fits the tail, and the loop either goes on or ends with it. */
  lemma LoopStep(got: seq<byte>, nMax: nat, script: seq<Response>, readCalls: nat, growths: nat)
    requires Admissible(|got|, nMax, script)
    requires !(|got| == nMax && Grown(|got|, nMax) > MaxBufferSize)
    ensures var room := Grown(|got|, nMax);
      var grew := if |got| == nMax then 1 else 0;
      var got' := got + script[0].chunk;
      |script| > 0 && |got'| <= room &&
      (script[0].status == Ok ==>
         Admissible(|got| + |script[0].chunk|, room, script[1..]) &&
         Loop(got, nMax, script, readCalls, growths) == Loop(got', room, script[1..], readCalls + 1, growths + grew)) &&
      (script[0].status != Ok ==>
         Loop(got, nMax, script, readCalls, growths) ==
         Run(|got'|, ErrorOf(script[0].status), got', room, readCalls + 1, growths + grew))
  {
  }

  /** Every one of the first k Read calls answered Ok. */
  predicate AllOk(script: seq<Response>, k: nat)
    requires k <= |script|
  {
    forall j :: 0 <= j < k ==> script[j].status == Ok
  }

  /** What the loop returns holds exactly the bytes of the Read calls it made,
      appended in order after the bytes it started with. */
  lemma {:induction false} LoopBytes(got: seq<byte>, nMax: nat, script: seq<Response>, readCalls: nat, growths: nat)
    requires Admissible(|got|, nMax, script)
    ensures var r := Loop(got, nMax, script, readCalls, growths);
      readCalls <= r.readCalls <= readCalls + |script| &&
      r.got == got + Delivered(script[..r.readCalls - readCalls]) && r.n == |r.got|
    decreases |script|
  {
    var room := Grown(|got|, nMax);
    var grew := if |got| == nMax then 1 else 0;
    if |got| == nMax && room > MaxBufferSize {
      assert script[..0] == [];
    } else {
      var got' := got + script[0].chunk;
      if script[0].status == Ok {
        LoopBytes(got', room, script[1..], readCalls + 1, growths + grew);
        var r := Loop(got', room, script[1..], readCalls + 1, growths + grew);
        var k := r.readCalls - readCalls;
        assert script[..k][1..] == script[1..][..k - 1];
        calc {
          r.got;
          got' + Delivered(script[1..][..k - 1]);
          got + (script[0].chunk + Delivered(script[..k][1..]));
          got + Delivered(script[..k]);
        }
      } else {
        assert script[..1][1..] == [];
      }
    }
  }

  /** Why the loop stopped: every Read call before the last one answered Ok;
      the call that ended the loop decides the error; the refused doubling
      leaves a full store whose double exceeds the ceiling. */
  lemma {:induction false} LoopStops(got: seq<byte>, nMax: nat, script: seq<Response>, readCalls: nat, growths: nat)
    requires Admissible(|got|, nMax, script)
    ensures var r := Loop(got, nMax, script, readCalls, growths);
      var k := r.readCalls - readCalls;
      readCalls <= r.readCalls && k <= |script| &&
      (r.err == TooLarge ==> AllOk(script, k) && |r.got| == r.nMax && 2 * r.nMax > MaxBufferSize) &&
      (r.err != TooLarge ==>
         0 < k && AllOk(script, k - 1) &&
         script[k - 1].status != Ok && r.err == ErrorOf(script[k - 1].status))
    decreases |script|
  {
    var room := Grown(|got|, nMax);
    var grew := if |got| == nMax then 1 else 0;
    if |got| == nMax && room > MaxBufferSize {
    } else if script[0].status == Ok {
      var got' := got + script[0].chunk;
      LoopStops(got', room, script[1..], readCalls + 1, growths + grew);
      var r := Loop(got', room, script[1..], readCalls + 1, growths + grew);
      var k := r.readCalls - readCalls;
      assert forall j :: 1 <= j < k ==> script[j] == script[1..][j - 1];
    }
  }

  /** The capacity rule: the store only ever doubles; it doubles only when full,
      so after a growth it is at most twice what it holds; no growth produces a
      capacity above MaxBufferSize; and the bytes always fit. */
  lemma {:induction false} LoopCapacity(got: seq<byte>, nMax: nat, script: seq<Response>, readCalls: nat, growths: nat)
    requires |got| <= nMax && Admissible(|got|, nMax, script)
    ensures var r := Loop(got, nMax, script, readCalls, growths);
      growths <= r.growths && r.nMax == nMax * Pow2(r.growths - growths) &&
      |got| <= |r.got| <= r.nMax &&
      (r.growths > growths ==> r.nMax <= MaxBufferSize && r.nMax <= 2 * |r.got|)
    decreases |script|
  {
    var room := Grown(|got|, nMax);
    var grew := if |got| == nMax then 1 else 0;
    if |got| == nMax && room > MaxBufferSize {
    } else {
      var got' := got + script[0].chunk;
      if script[0].status == Ok {
        LoopCapacity(got', room, script[1..], readCalls + 1, growths + grew);
        var r := Loop(got', room, script[1..], readCalls + 1, growths + grew);
        var d := r.growths - (growths + grew);
        if grew == 1 {
          DoubledPow2(nMax, d);
        }
      }
    }
  }

  /** ReadFrom's contract for its caller: the count it returns is the number of
      bytes delivered during this call (never negative); unless the buffer got
      too large, the buffer becomes its old contents followed by those bytes,
      its capacity is the starting capacity (64 for an empty store) times a
      power of two, never grown past MaxBufferSize. */
  lemma ReadFromAppends(data: seq<byte>, cap: nat, script: seq<Response>)
    requires |data| <= cap && Admissible(|data|, StartCapacity(cap), script)
    ensures var r := ReadFrom(data, cap, script);
      r.readCalls <= |script| && |data| <= r.n &&
      r.n - |data| == |Delivered(script[..r.readCalls])| &&
      (r.err != TooLarge ==>
         r.got == data + Delivered(script[..r.readCalls]) &&
         r.nMax == StartCapacity(cap) * Pow2(r.growths) &&
         (r.growths > 0 ==> r.nMax <= MaxBufferSize))
  {
    LoopBytes(data, StartCapacity(cap), script, 0, 0);
    LoopCapacity(data, StartCapacity(cap), script, 0, 0);
  }

  /** How ReadFrom ends: with "DirectBuffer too large" only when every Read
      so far answered nil and the full store cannot double within the ceiling;
      otherwise at the first Read that answered EOF or an error, reporting nil
      for EOF and the reader's own error otherwise. */
  lemma ReadFromStops(data: seq<byte>, cap: nat, script: seq<Response>)
    requires |data| <= cap && Admissible(|data|, StartCapacity(cap), script)
    ensures var r := ReadFrom(data, cap, script);
      r.readCalls <= |script| &&
      (r.err == TooLarge ==>
         AllOk(script, r.readCalls) && r.n == r.nMax && 2 * r.nMax > MaxBufferSize) &&
      (r.err != TooLarge ==>
         0 < r.readCalls && AllOk(script, r.readCalls - 1) &&
         script[r.readCalls - 1].status != Ok && r.err == ErrorOf(script[r.readCalls - 1].status))
  {
    LoopBytes(data, StartCapacity(cap), script, 0, 0);
    LoopStops(data, StartCapacity(cap), script, 0, 0);
  }

  /** A reader that never reports EOF or an error makes ReadFrom fail with
      "DirectBuffer too large" once the doubled capacity would pass the ceiling;
      the count it returns is all the bytes delivered. */
  lemma EndlessReaderOverflows(data: seq<byte>, cap: nat, script: seq<Response>)
    requires |data| <= cap && Admissible(|data|, StartCapacity(cap), script)
    requires forall j :: 0 <= j < |script| ==> script[j].status == Ok
    ensures var r := ReadFrom(data, cap, script);
      r.err == TooLarge && 2 * r.nMax > MaxBufferSize && r.readCalls <= |script| &&
      r.n - |data| == |Delivered(script[..r.readCalls])|
  {
    LoopBytes(data, StartCapacity(cap), script, 0, 0);
    LoopStops(data, StartCapacity(cap), script, 0, 0);
  }

  /** 100 bytes followed by EOF on an empty buffer: length 100, no error, and
      the 64-byte store doubled once to 128. */
  lemma HundredBytesThenEof(a: seq<byte>, b: seq<byte>)
    requires |a| == 64 && |b| == 36
    ensures var r := ReadFrom([], 0, [Response(a, Ok), Response(b, Eof)]);
      r.err == NoError && r.n == 100 && r.got == a + b && r.nMax == 128 && r.growths == 1
  {
    var script := [Response(a, Ok), Response(b, Eof)];
    assert script[1..] == [Response(b, Eof)];
    assert Admissible(64, 64, script[1..]);
    assert Admissible(0, 64, script);
    assert [] + a == a;
    assert ReadFrom([], 0, script) == Loop([], 64, script, 0, 0);
    assert Loop([], 64, script, 0, 0) == Loop(a, 64, script[1..], 1, 0);
    assert Loop(a, 64, script[1..], 1, 0) == Run(100, NoError, a + b, 128, 2, 1);
  }
}
