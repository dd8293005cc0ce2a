/** Powers of two, and shifts of unbounded naturals. */
module Powers {

  function Pow2(k: nat): (p: nat)
    ensures p > 0
  {
    if k == 0 then 1 else 2 * Pow2(k - 1)
  }

  lemma {:induction false} Pow2Monotone(a: nat, b: nat)
    requires a <= b
    ensures Pow2(a) <= Pow2(b)
  {
    if a < b {
      Pow2Monotone(a, b - 1);
    }
  }

  lemma {:induction false} Pow2Add(a: nat, b: nat)
    ensures Pow2(a + b) == Pow2(a) * Pow2(b)
  {
    if a > 0 {
      Pow2Add(a - 1, b);
      assert Pow2(a + b) == 2 * Pow2(a - 1 + b);
    }
  }

  lemma Pow2Of32()
    ensures Pow2(32) == 0x1_0000_0000
  {
    assert Pow2(8) == 0x100;
    Pow2Add(8, 8);
    Pow2Add(16, 16);
  }

  /** v >> n */
  function ShiftRight(v: nat, n: nat): nat
  {
    if n == 0 then v else ShiftRight(v / 2, n - 1)
  }

  /** v << n, without overflow */
  function ShiftLeft(v: nat, n: nat): nat
  {
    if n == 0 then v else 2 * ShiftLeft(v, n - 1)
  }

  /** Shifting right undoes shifting left, as an order equivalence: v >> n >= a exactly if v >= a << n. */
  lemma {:induction false} ShiftGalois(v: nat, n: nat, a: nat)
    ensures ShiftRight(v, n) >= a <==> v >= ShiftLeft(a, n)
  {
    if n > 0 {
      ShiftGalois(v / 2, n - 1, a);
    }
  }

  lemma {:induction false} ShiftLeftPow2(k: nat, n: nat)
    ensures ShiftLeft(Pow2(k), n) == Pow2(k + n)
  {
    if n > 0 {
      ShiftLeftPow2(k, n - 1);
    }
  }

  lemma AtLeastPow2(v: nat, n: nat)
    ensures ShiftRight(v, n) > 0 <==> v >= Pow2(n)
  {
    ShiftGalois(v, n, 1);
    ShiftLeftPow2(0, n);
  }
}
