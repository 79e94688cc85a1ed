/** DirectBuffer: a growable byte slice with a ceiling on how far ReadFrom
    grows it, and the io.Reader it is filled from. */
module DirectBuffers {
  import opened ReadFromSpec

  /** An io.Reader that answers each Read call with the next response of a
      finite script. */
  class Reader {
    var script: seq<Response>

    constructor (script: seq<Response>)
      ensures this.script == script
    {
      this.script := script;
    }

    /** r.Read(p[off:]): writes the next chunk at the start of the offered tail
        and returns its length and status; the chunk must fit the tail. */
    method Read(p: array<byte>, off: nat, ghost held: seq<byte>) returns (nn: nat, status: Status)
      requires script != [] && off + |script[0].chunk| <= p.Length && p[..off] == held
      modifies this, p
      ensures nn == |old(script[0].chunk)| && status == old(script[0].status)
      ensures script == old(script[1..])
      ensures p[..off + nn] == held + old(script[0].chunk)
      ensures forall k :: 0 <= k <= off ==> p[..k] == old(p[..k])
      ensures p[off + nn..] == old(p[off + nn..])
    {
      var chunk := script[0].chunk;
      nn, status := |chunk|, script[0].status;
      script := script[1..];
      forall i | off <= i < off + nn {
        p[i] := chunk[i - off];
      }
    }
  }

  /** A byte slice: `data` is its backing array (null for a nil slice), `len`
      its length; its capacity is the length of the backing array. */
  class DirectBuffer {
    var data: array?<byte>
    var len: nat

    ghost predicate Valid()
      reads this
    {
      if data == null then len == 0 else len <= data.Length
    }

    /** cap(db.data). */
    function Cap(): (c: nat)
      reads this
      ensures data != null ==> c == data.Length
    {
      if data == null then 0 else data.Length
    }

    /** &DirectBuffer{data: make([]byte, 0, capacity)} */
    constructor Make(capacity: nat)
      ensures Valid() && fresh(data) && data != null
      ensures len == 0 && Cap() == capacity && Bytes() == []
    {
      data := new byte[capacity];
      len := 0;
    }

    /** db.Bytes(): the valid bytes of the slice. */
    function Bytes(): (r: seq<byte>)
      requires Valid()
      reads this, data
      ensures |r| == len <= Cap()
    {
      if data == null then [] else data[..len]
    }

    /** db.Reset(): the slice becomes nil. */
    method Reset()
      modifies this
      ensures Valid() && data == null && len == 0
      ensures Bytes() == [] && Len(this) == 0 && Cap() == 0
    {
      data := null;
      len := 0;
    }

    /** db.Write(p): appends p in place when it fits the capacity, otherwise
        into a new backing array; there is no ceiling on this path. */
    method Write(p: seq<byte>) returns (n: nat, err: Error)
      requires Valid()
      modifies this, data
      ensures Valid() && n == |p| && err == NoError
      ensures Bytes() == old(Bytes()) + p
      ensures Cap() == AppendCapacity(old(Cap()), old(len) + |p|)
      ensures old(len) + |p| <= old(Cap()) ==> data == old(data)
      ensures old(len) + |p| > old(Cap()) ==> fresh(data)
    {
      var needed := len + |p|;
      n, err := |p|, NoError;
      if needed > Cap() {
        var grown := new byte[AppendCapacity(Cap(), needed)];
        if data != null {
          forall i | 0 <= i < len {
            grown[i] := data[i];
          }
        }
        data := grown;
      }
      var store := data;
      if store != null {
        forall i | len <= i < needed {
          store[i] := p[i - len];
        }
      }
      assert store != null ==> store[..needed] == old(Bytes()) + p;
      len := needed;
    }

    /** db.ReadFrom(r): reads into the free tail until the reader reports EOF or
        an error, doubling the backing array (starting from 64) whenever it is
        full, and giving up with TooLarge once the doubled capacity would pass
        MaxBufferSize. Returns the number of bytes read in this call; db.data is
        only replaced when the loop ends with EOF or a reader error. */
    method ReadFrom(r: Reader) returns (n: int, err: Error)
      requires Valid() && Admissible(len, StartCapacity(Cap()), r.script)
      modifies this, data, r
      ensures Valid()
      ensures var run := ReadFromSpec.ReadFrom(old(Bytes()), old(Cap()), old(r.script));
        n == run.n - old(len) && err == run.err &&
        r.script == old(r.script)[run.readCalls..] &&
        if err == TooLarge then
          data == old(data) && len == old(len) && Bytes() == old(Bytes())
        else
          Bytes() == run.got && Cap() == run.nMax
    {
      var p: array<byte>;
      var nStart := len;
      if Cap() == 0 {
        p := new byte[InitialCapacity];
      } else {
        p := data;
      }
      assert p[..nStart] == old(Bytes());
      var q, m;
      q, m, err := ReadLoop(p, nStart, r);
      if err != TooLarge {
        data, len := q, m;
      }
      n := m - nStart;
    }
  }

  /** The loop is still going: from the working slice `got` in a store of
      capacity nMax, with `script` left to read, it runs to `run`. */
  ghost predicate Pending(got: seq<byte>, nMax: nat, script: seq<Response>, calls: nat, growths: nat, run: Run)
  {
    Admissible(|got|, nMax, script) && Loop(got, nMax, script, calls, growths) == run
  }

  /** The loop has stopped where `run` says: n bytes, error err, after `calls`
      Read calls, and (unless the doubling was refused) the slice and capacity. */
  ghost predicate Ended(run: Run, n: nat, err: Error, calls: nat, got: seq<byte>, nMax: nat)
  {
    run.n == n && run.err == err && run.readCalls == calls &&
    (err != TooLarge ==> run.got == got && run.nMax == nMax)
  }

  /** The `for` loop of DirectBuffer.ReadFrom on its locals: the working slice
      holds n valid bytes of the store p, whose length is nMax. The result is
      the final store and byte counter; the first nStart bytes of the original
      store are left as they were. */
  method ReadLoop(p0: array<byte>, nStart: nat, r: Reader) returns (p: array<byte>, n: nat, err: Error)
    requires nStart <= p0.Length && Admissible(nStart, p0.Length, r.script)
    modifies p0, r
    ensures var run := Loop(old(p0[..nStart]), p0.Length, old(r.script), 0, 0);
      n == run.n && err == run.err && r.script == old(r.script)[run.readCalls..] &&
      p0[..nStart] == old(p0[..nStart]) && nStart <= n <= p.Length &&
      (err != TooLarge ==> p[..n] == run.got && p.Length == run.nMax)
  {
    ghost var before := p0[..nStart];
    ghost var run := Loop(before, p0.Length, r.script, 0, 0);
    ghost var script0 := r.script;
    p := p0;
    n := nStart;
    ghost var consumed, grown := 0, 0;
    ghost var got := before;
    var done := false;
    err := NoError;
    while !done
      invariant consumed <= |script0| && r.script == script0[consumed..]
      invariant p == p0 || fresh(p)
      invariant p0[..nStart] == before
      invariant nStart <= n == |got| <= p.Length && p[..n] == got
      invariant !done ==> Pending(got, p.Length, r.script, consumed, grown, run)
      invariant done ==> Ended(run, n, err, consumed, got, p.Length)
      decreases !done, |r.script|
    {
      p, n, err, done, got, consumed, grown := Turn(p, n, r, got, consumed, grown, script0, nStart);
    }
  }

  /** One turn of ReadFrom's loop: the growth test, then one Read into the free
      tail. `done` says the loop ends here, with `err` its result. The bytes
      already held are never overwritten: the first `keep` stay as they were.
      `script0` is the whole script, of which `calls` responses are read. */
  method Turn(p: array<byte>, n: nat, r: Reader, ghost got: seq<byte>, ghost calls: nat, ghost growths: nat,
              ghost script0: seq<Response>, ghost keep: nat)
    returns (q: array<byte>, m: nat, err: Error, done: bool, ghost got': seq<byte>, ghost calls': nat, ghost growths': nat)
    requires n == |got| <= p.Length && p[..n] == got && Admissible(n, p.Length, r.script)
    requires calls <= |script0| && r.script == script0[calls..] && keep <= n
    modifies p, r
    ensures q == p || fresh(q)
    ensures p[..keep] == old(p[..keep])
    ensures n <= m == |got'| <= q.Length && q[..m] == got'
    ensures calls <= calls' <= |script0| && r.script == script0[calls'..]
    ensures !done ==>
      calls' == calls + 1 &&
      Pending(got', q.Length, r.script, calls', growths', Loop(got, p.Length, old(r.script), calls, growths))
    ensures done ==> Ended(Loop(got, p.Length, old(r.script), calls, growths), m, err, calls', got', q.Length)
  {
    var tooLarge;
    q, tooLarge := GrowIfFull(p, n);
    if tooLarge {
      return q, n, TooLarge, true, got, calls, growths;
    }
    growths' := if n == p.Length then growths + 1 else growths;
    LoopStep(got, p.Length, r.script, calls, growths);
    ghost var s0 := r.script;
    var nn, status := r.Read(q, n, got);
    m := n + nn;
    got' := got + s0[0].chunk;
    calls' := calls + 1;
    done := status != Ok;
    err := ErrorOf(status);
  }

  /** The growth test at the head of ReadFrom's loop: when the n valid bytes
      fill the store, its capacity doubles (bNew := make([]byte, nMax);
      copy(bNew, p)), unless the doubled capacity passes MaxBufferSize. */
  method GrowIfFull(p: array<byte>, n: nat) returns (q: array<byte>, tooLarge: bool)
    requires n <= p.Length
    ensures tooLarge <==> n == p.Length && Grown(n, p.Length) > MaxBufferSize
    ensures n <= q.Length && q[..n] == p[..n] && (!tooLarge ==> q.Length == Grown(n, p.Length))
    ensures q == p || fresh(q)
    ensures n < p.Length ==> q == p
  {
    q, tooLarge := p, false;
    if n == p.Length {
      var nMax := p.Length * 2;
      if nMax > MaxBufferSize {
        return p, true;
      }
      q := new byte[nMax];
      forall i | 0 <= i < p.Length {
        q[i] := p[i];
      }
    }
  }

  /** db.Len(): nil-safe; the length of the slice. */
  function Len(db: DirectBuffer?): (r: nat)
    reads db, if db == null then {} else {db.data}
    ensures db == null ==> r == 0
    ensures db != null && db.Valid() ==> r == |db.Bytes()|
  {
    if db == null then 0 else db.len
  }

  /** The capacity append gives a slice of capacity oldCap that must hold
      `needed` bytes: unchanged when they fit, otherwise doubled, or exactly
      `needed` when doubling is not enough. */
  function AppendCapacity(oldCap: nat, needed: nat): (c: nat)
    ensures needed <= c && oldCap <= c
    ensures c == oldCap <==> needed <= oldCap
  {
    if needed <= oldCap then oldCap
    else if needed > 2 * oldCap then needed
    else 2 * oldCap
  }
}
