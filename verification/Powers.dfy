/** Powers of two, and division by them. */
module Powers {

  function Pow2(n: nat): (p: nat)
    ensures p > 0
  {
    if n == 0 then 1 else 2 * Pow2(n - 1)
  }

  lemma {:induction false} Pow2Adds(a: nat, b: nat)
    ensures Pow2(a) * Pow2(b) == Pow2(a + b)
  {
    if a > 0 {
      Pow2Adds(a - 1, b);
    }
  }

  lemma {:induction false} Pow2Grows(a: nat, b: nat)
    requires a <= b
    ensures Pow2(a) <= Pow2(b)
    decreases b
  {
    if a < b {
      Pow2Grows(a, b - 1);
    }
  }

  lemma MulOrder(a: nat, b: nat, c: nat)
    requires a < b
    ensures a * c + c <= b * c
  {
    var d: nat := b - a - 1;
    assert b * c == a * c + c + d * c;
  }

  lemma DivIs(a: nat, w: nat, q: nat)
    requires w > 0 && q * w <= a < q * w + w
    ensures a / w == q
  {
    var d := a / w;
    assert a == d * w + a % w;
    if d < q {
      MulOrder(d, q, w);
    }
    if q < d {
      MulOrder(q, d, w);
    }
  }
}
