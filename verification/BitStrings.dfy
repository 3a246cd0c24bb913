/** Numbers as strings of bits. */
module BitStrings {
  import opened Powers

  function Bit(b: bool): nat {
    if b then 1 else 0
  }

  // v >> k
  function Shr(v: nat, k: nat): nat {
    if k == 0 then v else Shr(v / 2, k - 1)
  }

  // The n low bits of v, the lowest first.
  function Low(v: nat, n: nat): (w: seq<bool>)
    ensures |w| == n
  {
    if n == 0 then [] else [v % 2 == 1] + Low(v / 2, n - 1)
  }

  // The number whose bits are w, the lowest first.
  function Val(w: seq<bool>): nat {
    if w == [] then 0 else Bit(w[0]) + 2 * Val(w[1..])
  }

  // The l low bits of c, the highest first.
  function Word(c: nat, l: nat): (w: seq<bool>)
    ensures |w| == l
  {
    if l == 0 then [] else Word(c / 2, l - 1) + [c % 2 == 1]
  }

  // The number whose bits are w, the highest first.
  function Num(w: seq<bool>): nat {
    if w == [] then 0 else 2 * Num(w[..|w| - 1]) + Bit(w[|w| - 1])
  }

  lemma {:induction false} LowAt(v: nat, n: nat, k: nat)
    requires k < n
    ensures Low(v, n)[k] == (Shr(v, k) % 2 == 1)
  {
    if k > 0 {
      LowAt(v / 2, n - 1, k - 1);
    }
  }

  lemma {:induction false} ShrStep(v: nat, k: nat)
    ensures Shr(v, k) / 2 == Shr(v, k + 1)
  {
    if k > 0 {
      ShrStep(v / 2, k - 1);
    }
  }

  lemma {:induction false} LowPrefix(v: nat, n: nat, k: nat)
    requires k <= n
    ensures Low(v, n)[..k] == Low(v, k)
  {
    if k > 0 {
      LowPrefix(v / 2, n - 1, k - 1);
      assert Low(v, n)[..k] == [v % 2 == 1] + Low(v / 2, n - 1)[..k - 1];
    }
  }

  lemma {:induction false} LowOfVal(w: seq<bool>)
    ensures Low(Val(w), |w|) == w && Val(w) < Pow2(|w|)
  {
    if w != [] {
      LowOfVal(w[1..]);
      assert Val(w) / 2 == Val(w[1..]) && (Val(w) % 2 == 1) == w[0];
      assert w == [w[0]] + w[1..];
    }
  }

  lemma {:induction false} LowOfMod(v: nat, n: nat)
    ensures Low(v % Pow2(n), n) == Low(v, n)
  {
    if n > 0 {
      var m := Pow2(n - 1);
      assert v % (2 * m) / 2 == v / 2 % m && v % (2 * m) % 2 == v % 2 by {
        ModHalf(v, m);
      }
      LowOfMod(v / 2, n - 1);
    }
  }

  lemma ModHalf(v: nat, m: nat)
    requires m > 0
    ensures v % (2 * m) / 2 == v / 2 % m && v % (2 * m) % 2 == v % 2
  {
    var h, b := v / 2, v % 2;
    var q, r := h / m, h % m;
    assert h == q * m + r;
    assert v == q * (2 * m) + (2 * r + b);
    DivIs(v, 2 * m, q);
  }

  // Numbers with the same l low bits are 2^l apart.
  lemma {:induction false} LowApart(i: nat, j: nat, l: nat)
    requires Low(i, l) == Low(j, l) && i < j
    ensures i + Pow2(l) <= j
  {
    if l > 0 {
      var a, b := Low(i, l), Low(j, l);
      assert a[0] == b[0] && a[1..] == b[1..];
      assert a[1..] == Low(i / 2, l - 1) && b[1..] == Low(j / 2, l - 1);
      LowApart(i / 2, j / 2, l - 1);
    }
  }

  lemma {:induction false} LowPeriod(i: nat, l: nat)
    ensures Low(i + Pow2(l), l) == Low(i, l)
  {
    if l > 0 {
      assert (i + Pow2(l)) / 2 == i / 2 + Pow2(l - 1) && (i + Pow2(l)) % 2 == i % 2;
      LowPeriod(i / 2, l - 1);
    }
  }

  lemma {:induction false} WordOfNum(w: seq<bool>)
    ensures Word(Num(w), |w|) == w
  {
    if w != [] {
      var n := |w| - 1;
      WordOfNum(w[..n]);
      assert Num(w) / 2 == Num(w[..n]) && (Num(w) % 2 == 1) == w[n];
      assert w == w[..n] + [w[n]];
    }
  }

  lemma {:induction false} NumBound(w: seq<bool>)
    ensures Num(w) < Pow2(|w|)
  {
    if w != [] {
      NumBound(w[..|w| - 1]);
    }
  }

  lemma {:induction false} NumOfWord(c: nat, l: nat)
    requires c < Pow2(l)
    ensures Num(Word(c, l)) == c
  {
    if l > 0 {
      assert Pow2(l) == 2 * Pow2(l - 1);
      hide Pow2;
      NumOfWord(c / 2, l - 1);
      var w := Word(c, l);
      assert w == Word(c / 2, l - 1) + [c % 2 == 1];
      hide Word;
      assert w[..l - 1] == Word(c / 2, l - 1) && w[l - 1] == (c % 2 == 1);
    }
  }

  lemma {:induction false} WordPrefix(c: nat, l: nat, k: nat)
    requires k <= l
    ensures Word(c, l)[..k] == Word(Shr(c, l - k), k)
    decreases l
  {
    if k < l {
      assert Word(c, l)[..k] == Word(c / 2, l - 1)[..k];
      WordPrefix(c / 2, l - 1, k);
    }
  }

  lemma {:induction false} ShrBound(c: nat, l: nat, k: nat)
    requires k <= l && c < Pow2(l)
    ensures Shr(c, l - k) < Pow2(k)
    decreases l
  {
    if k < l {
      ShrBound(c / 2, l - 1, k);
    }
  }

  // ------------------------------------------------------------------
  // Bit buffers
  // ------------------------------------------------------------------

  // The bits of bytes, each byte from its lowest bit.
  function BitsOf(bytes: seq<nat>): (s: seq<bool>)
    ensures |s| == 8 * |bytes|
  {
    if bytes == [] then [] else Low(bytes[0], 8) + BitsOf(bytes[1..])
  }

  lemma {:induction false} BitsOfAppend(a: seq<nat>, b: seq<nat>)
    ensures BitsOf(a + b) == BitsOf(a) + BitsOf(b)
  {
    hide Low;
    if a == [] {
      assert a + b == b;
    } else {
      BitsOfAppend(a[1..], b);
      assert (a + b)[0] == a[0] && (a + b)[1..] == a[1..] + b;
      assert Low(a[0], 8) + (BitsOf(a[1..]) + BitsOf(b)) == (Low(a[0], 8) + BitsOf(a[1..])) + BitsOf(b);
    }
  }

  // buf | (c << n), when buf has n bits.
  lemma {:induction false} LowJoin(buf: nat, n: nat, c: nat, k: nat)
    requires buf < Pow2(n)
    ensures Low(buf + c * Pow2(n), n + k) == Low(buf, n) + Low(c, k)
  {
    if n == 0 {
      assert c * Pow2(0) == c;
    } else {
      var v := buf + c * Pow2(n);
      assert c * Pow2(n) == 2 * (c * Pow2(n - 1));
      assert v / 2 == buf / 2 + c * Pow2(n - 1) && v % 2 == buf % 2;
      LowJoin(buf / 2, n - 1, c, k);
      assert Low(v, n + k) == [v % 2 == 1] + (Low(buf / 2, n - 1) + Low(c, k));
    }
  }

  lemma JoinBound(buf: nat, n: nat, c: nat, k: nat)
    requires buf < Pow2(n) && c < Pow2(k)
    ensures buf + c * Pow2(n) < Pow2(n + k)
  {
    MulOrder(c, Pow2(k), Pow2(n));
    Pow2Adds(k, n);
  }

  lemma {:induction false} LowShift(v: nat, n: nat, k: nat)
    requires k <= n
    ensures Low(Shr(v, k), n - k) == Low(v, n)[k..]
  {
    if k > 0 {
      LowShift(v / 2, n - 1, k - 1);
      assert Low(v, n)[k..] == Low(v / 2, n - 1)[k - 1..];
    }
  }
}
