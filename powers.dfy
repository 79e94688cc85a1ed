/** Powers of two, shared by the capacity doubling of ReadFrom and by the
    size-class anchors of the pool (`minSize << i`). */
module Powers {

  function Pow2(k: nat): (r: nat)
    ensures r >= 1
  {
    if k == 0 then 1 else 2 * Pow2(k - 1)
  }

  /** Doubling c and then scaling by 2^d is scaling c by 2^(d+1). */
  lemma DoubledPow2(c: nat, d: nat)
    ensures (2 * c) * Pow2(d) == c * Pow2(d + 1)
  {
    assert Pow2(d + 1) == 2 * Pow2(d);
  }
}
