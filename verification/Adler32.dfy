/** The inflater's Adler-32 (deps/miniz/tinfl.c): the sums of section 2.2 of RFC 1950, with the
    division put off for up to 5552 bytes, over output that comes in pieces. */
module Adler32 {

  const MODULUS: nat := 65521
  const BLOCK: nat := 5552
  const U32: nat := 0x1_0000_0000

  ghost predicate Bytes(d: seq<nat>) {
    forall i :: 0 <= i < |d| ==> d[i] < 256
  }

  // The sum of the bytes, from s1 on.
  function Sum1(s1: nat, d: seq<nat>): nat {
    if d == [] then s1 else Sum1(s1, d[..|d| - 1]) + d[|d| - 1]
  }

  // The sum of the values that the first sum takes, from s2 on.
  function Sum2(s1: nat, s2: nat, d: seq<nat>): nat {
    if d == [] then s2 else Sum2(s1, s2, d[..|d| - 1]) + Sum1(s1, d)
  }

  /** The checksum of a message. */
  function Adler(d: seq<nat>): nat {
    Sum2(1, 0, d) % 65521 * 0x1_0000 + Sum1(1, d) % 65521
  }

  // ------------------------------------------------------------------

  lemma {:induction false} SumsSplit(s1: nat, s2: nat, a: seq<nat>, b: seq<nat>)
    ensures Sum1(s1, a + b) == Sum1(Sum1(s1, a), b)
    ensures Sum2(s1, s2, a + b) == Sum2(Sum1(s1, a), Sum2(s1, s2, a), b)
  {
    if b == [] {
      assert a + b == a;
    } else {
      var n := |b| - 1;
      assert (a + b)[..|a + b| - 1] == a + b[..n];
      SumsSplit(s1, s2, a, b[..n]);
    }
  }

  lemma ModAdd(a: nat, b: nat, c: nat)
    requires a % MODULUS == b % MODULUS
    ensures (a + c) % MODULUS == (b + c) % MODULUS
  {
  }

  // Starting values may be reduced first.
  lemma {:induction false} SumsMod(s1: nat, t1: nat, s2: nat, t2: nat, d: seq<nat>)
    requires s1 % MODULUS == t1 % MODULUS && s2 % MODULUS == t2 % MODULUS
    ensures Sum1(s1, d) % MODULUS == Sum1(t1, d) % MODULUS
    ensures Sum2(s1, s2, d) % MODULUS == Sum2(t1, t2, d) % MODULUS
  {
    if d != [] {
      var p, b := d[..|d| - 1], d[|d| - 1];
      SumsMod(s1, t1, s2, t2, p);
      ModAdd(Sum1(s1, p), Sum1(t1, p), b);
      ModAdd(Sum2(s1, s2, p), Sum2(t1, t2, p), Sum1(s1, d));
      ModAdd(Sum1(s1, d), Sum1(t1, d), Sum2(t1, t2, p));
    }
  }

  // How large the sums get without division.
  lemma {:induction false} SumsBound(s1: nat, s2: nat, d: seq<nat>)
    requires Bytes(d)
    ensures Sum1(s1, d) <= s1 + 255 * |d|
    ensures Sum2(s1, s2, d) <= s2 + |d| * s1 + 255 * Triangle(|d|)
  {
    if d != [] {
      SumsBound(s1, s2, d[..|d| - 1]);
      assert |d| * s1 == (|d| - 1) * s1 + s1;
    }
  }

  function Triangle(n: nat): nat {
    if n == 0 then 0 else Triangle(n - 1) + n
  }

  lemma {:induction false} TriangleIs(n: nat)
    ensures 2 * Triangle(n) == n * (n + 1)
  {
    if n > 0 {
      TriangleIs(n - 1);
    }
  }

  lemma {:induction false} TriangleGrows(m: nat, n: nat)
    requires m <= n
    ensures Triangle(m) <= Triangle(n)
    decreases n
  {
    if m < n {
      TriangleGrows(m, n - 1);
    }
  }

  /** In a block of at most 5552 bytes neither sum passes 32 bits. */
  lemma NoOverflow(s1: nat, s2: nat, d: seq<nat>)
    requires Bytes(d) && |d| <= BLOCK && s1 < MODULUS && s2 < MODULUS
    ensures Sum1(s1, d) < U32 && Sum2(s1, s2, d) < U32
  {
    SumsBound(s1, s2, d);
    TriangleIs(BLOCK);
    TriangleGrows(|d|, BLOCK);
    Times(|d|, s1);
  }

  lemma Times(n: nat, s: nat)
    requires n <= BLOCK && s < MODULUS
    ensures n * s <= BLOCK * (MODULUS - 1)
  {
    Mono(s, MODULUS - 1, n);
    Mono(n, BLOCK, MODULUS - 1);
  }

  lemma Mono(a: nat, b: nat, c: nat)
    requires a <= b
    ensures c * a == a * c <= b * c
  {
    var d: nat := b - a;
    assert b * c == a * c + d * c;
  }

  // ------------------------------------------------------------------

  // The sums of the first k bytes of a block.
  ghost predicate Summed(d: seq<nat>, k: nat, s1: nat, s2: nat, t1: nat, t2: nat) {
    k <= |d| && t1 == Sum1(s1, d[..k]) && t2 == Sum2(s1, s2, d[..k])
  }

  lemma NextByte(d: seq<nat>, k: nat, s1: nat, s2: nat, t1: nat, t2: nat)
    requires Summed(d, k, s1, s2, t1, t2) && k < |d|
    ensures Summed(d, k + 1, s1, s2, t1 + d[k], t2 + t1 + d[k])
  {
    assert d[..k + 1][..k] == d[..k];
  }

  // Two bytes of the unrolled loop
  lemma NextTwo(d: seq<nat>, k: nat, s1: nat, s2: nat, t1: nat, t2: nat)
    requires Summed(d, k, s1, s2, t1, t2) && k + 2 <= |d|
    ensures Summed(d, k + 2, s1, s2, t1 + d[k] + d[k + 1], t2 + (t1 + d[k]) + (t1 + d[k] + d[k + 1]))
  {
    NextByte(d, k, s1, s2, t1, t2);
    NextByte(d, k + 1, s1, s2, t1 + d[k], t2 + t1 + d[k]);
  }

  // One block: eight bytes at a time, then one at a time.
  method SumBlock(d: seq<nat>, a1: nat, a2: nat) returns (s1: nat, s2: nat)
    requires Bytes(d) && |d| <= BLOCK && a1 < MODULUS && a2 < MODULUS
    ensures s1 == Sum1(a1, d) < U32 && s2 == Sum2(a1, a2, d) < U32
  {
    s1, s2 := a1, a2;
    var i := 0;
    while i + 7 < |d|
      invariant Summed(d, i, a1, a2, s1, s2)
    {
      hide Summed;
      NextTwo(d, i, a1, a2, s1, s2);
      s1 := s1 + d[i]; s2 := s2 + s1; s1 := s1 + d[i + 1]; s2 := s2 + s1;
      NextTwo(d, i + 2, a1, a2, s1, s2);
      s1 := s1 + d[i + 2]; s2 := s2 + s1; s1 := s1 + d[i + 3]; s2 := s2 + s1;
      NextTwo(d, i + 4, a1, a2, s1, s2);
      s1 := s1 + d[i + 4]; s2 := s2 + s1; s1 := s1 + d[i + 5]; s2 := s2 + s1;
      NextTwo(d, i + 6, a1, a2, s1, s2);
      s1 := s1 + d[i + 6]; s2 := s2 + s1; s1 := s1 + d[i + 7]; s2 := s2 + s1;
      i := i + 8;
    }
    while i < |d|
      invariant Summed(d, i, a1, a2, s1, s2)
    {
      NextByte(d, i, a1, a2, s1, s2);
      s1 := s1 + d[i];
      s2 := s2 + s1;
      i := i + 1;
    }
    assert d[..i] == d;
    NoOverflow(a1, a2, d);
  }

  // s1 and s2 are the reduced sums of a message.
  ghost predicate Sums(m: seq<nat>, s1: nat, s2: nat) {
    s1 == Sum1(1, m) % MODULUS && s2 == Sum2(1, 0, m) % MODULUS
  }

  lemma BlockSums(m: seq<nat>, d: seq<nat>, s1: nat, s2: nat)
    requires Sums(m, s1, s2)
    ensures Sums(m + d, Sum1(s1, d) % MODULUS, Sum2(s1, s2, d) % MODULUS)
  {
    SumsSplit(1, 0, m, d);
    SumsMod(Sum1(1, m), s1, Sum2(1, 0, m), s2, d);
  }

  /** The loop over the output of one call carries the checksum of all the output before it on to
      that of all the output so far. */
  method Update(adler: nat, data: seq<nat>, ghost before: seq<nat>) returns (r: nat)
    requires adler == Adler(before) && Bytes(data)
    ensures r == Adler(before + data) < U32
  {
    var s1: nat, s2: nat := adler % 0x1_0000, adler / 0x1_0000;
    var p: nat, len: nat := 0, |data|;
    var block: nat := len % BLOCK;
    assert before + data[..0] == before;
    while len > 0
      invariant p + len == |data| && (len > 0 ==> block <= len && block <= BLOCK && (len - block) % BLOCK == 0)
      invariant s1 < MODULUS && s2 < MODULUS && Sums(before + data[..p], s1, s2)
      decreases len, BLOCK - block
    {
      var d := data[p..p + block];
      BlockSums(before + data[..p], d, s1, s2);
      assert before + data[..p] + d == before + data[..p + block];
      hide Sums;
      s1, s2 := SumBlock(d, s1, s2);
      s1, s2 := s1 % MODULUS, s2 % MODULUS;
      p, len, block := p + block, len - block, BLOCK;
    }
    assert data[..p] == data;
    r := s2 * 0x1_0000 + s1;
  }
}
