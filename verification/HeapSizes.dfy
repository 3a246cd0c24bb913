/** Sizes and bin indices of the kernel heap, for the configuration the kernel compiles
    (src/kernel/dlmalloc.cc, __runtime_js__): 8-byte words, 32-byte alignment, no footers. */
module HeapSizes {
  import opened Powers

  type Addr = nat

  const WORD: nat := 0x1_0000_0000_0000_0000
  const ALIGNMENT: nat := 32
  const MIN_CHUNK_SIZE: nat := 32
  const CHUNK_OVERHEAD: nat := 8
  const MEM_OFFSET: nat := 16            // chunk2mem adds two words
  const MIN_REQUEST: nat := 23
  const MAX_REQUEST: nat := WORD - 128
  const MAX_SMALL_REQUEST: nat := 216
  const MIN_LARGE_SIZE: nat := 256
  const TOP_FOOT_SIZE: nat := 112
  const MSTATE_SIZE: nat := 960          // pad_request(sizeof(struct malloc_state))
  const NSMALLBINS: nat := 32
  const NTREEBINS: nat := 32

  // Chunks are smaller than this: the bin index of a size keeps only 32 bits of size >> 8.
  const MAX_CHUNK: nat := 0x100_0000_0000

  // pad_request: add the overhead and round up to the alignment, in a word.
  function PadRequest(bytes: nat): (nb: nat)
    ensures nb % ALIGNMENT == 0
    ensures bytes + CHUNK_OVERHEAD + ALIGNMENT <= WORD ==> bytes + CHUNK_OVERHEAD <= nb < bytes + CHUNK_OVERHEAD + ALIGNMENT
  {
    (bytes + CHUNK_OVERHEAD + (ALIGNMENT - 1)) % WORD / ALIGNMENT * ALIGNMENT
  }

  // request2size
  function RequestToSize(bytes: nat): (nb: nat)
    ensures bytes + 64 <= WORD ==> nb == Need(bytes)
  {
    if bytes < MIN_REQUEST then MIN_CHUNK_SIZE else PadRequest(bytes)
  }

  // A chunk of n bytes is one the heap can have, and has room for that many bytes of the user and a head word.
  predicate Holds(n: nat, bytes: nat) {
    n % 32 == 0 && n >= 32 && n >= bytes + 8
  }

  /** The chunk size that serves a request: the least that holds it. */
  function Need(bytes: nat): (nb: nat)
    ensures Holds(nb, bytes) && forall n: nat :: Holds(n, bytes) ==> nb <= n
  {
    if bytes <= 24 then 32 else bytes + 8 + (24 - bytes) % 32
  }

  // align_offset
  function AlignOffset(a: Addr): nat {
    if a % ALIGNMENT == 0 then 0 else ALIGNMENT - a % ALIGNMENT
  }

  predicate IsSmall(size: nat) {
    size / 8 < NSMALLBINS
  }

  function SmallIndex(size: nat): nat {
    size / 8
  }

  // The index of the highest set bit: 31 - __builtin_clz(x).
  function HighBit(x: nat): nat
    requires x > 0
  {
    if x < 2 then 0 else 1 + HighBit(x / 2)
  }

  // compute_tree_index
  function TreeIndex(size: nat): (i: nat)
    ensures i < NTREEBINS
  {
    var x := size / 256 % 0x1_0000_0000;
    if x == 0 then 0
    else if x > 0xFFFF then NTREEBINS - 1
    else HighBitBound(x, 16); IndexFor(size, HighBit(x))
  }

  // Two bins per power of two: the bit below the highest one tells them apart.
  function IndexFor(size: nat, k: nat): (i: nat)
    ensures i <= 2 * k + 1
  {
    2 * k + size / Pow2(k + 7) % 2
  }

  lemma {:induction false} HighBitBound(x: nat, n: nat)
    requires 0 < x < Pow2(n) || (n == 16 && 0 < x <= 0xFFFF)
    ensures HighBit(x) < n
    decreases n
  {
    if n == 16 {
      Pow2Of16();
    }
    if x >= 2 {
      HighBitBound(x / 2, n - 1);
    }
  }

  lemma Pow2Of16()
    ensures Pow2(16) == 0x1_0000
  {
    assert Pow2(4) == 16;
    assert Pow2(8) == 16 * Pow2(4);
    assert Pow2(12) == 16 * Pow2(8);
    assert Pow2(16) == 16 * Pow2(12);
  }

  // leftshift_for_tree_index, as the factor it multiplies by.
  function LeftShift(i: nat): nat
    requires i < NTREEBINS
  {
    if i == NTREEBINS - 1 then 1 else Pow2(57 - i / 2)
  }

  // minsize_for_tree_index: the least size in bin i.
  function MinSize(i: nat): nat {
    (2 + i % 2) * Pow2(i / 2 + 7)
  }

  // The range of sizes that the trie of bin i splits in halves.
  function BinLow(i: nat): nat {
    if i == NTREEBINS - 1 then 0 else MinSize(i)
  }

  function BinWidth(i: nat): nat {
    if i == NTREEBINS - 1 then WORD else Pow2(i / 2 + 7)
  }

  // ------------------------------------------------------------------

  lemma {:induction false} HighBitIs(x: nat)
    requires x > 0
    ensures Pow2(HighBit(x)) <= x < Pow2(HighBit(x) + 1)
  {
    if x >= 2 {
      HighBitIs(x / 2);
    }
  }

  lemma MinSizeStep(i: nat)
    ensures MinSize(i + 1) == MinSize(i) + Pow2(i / 2 + 7)
  {
    if i % 2 == 1 {
      assert (i + 1) / 2 == i / 2 + 1;
      assert Pow2(i / 2 + 8) == 2 * Pow2(i / 2 + 7);
    }
  }

  lemma {:induction false} MinSizeGrows(i: nat, j: nat)
    requires i <= j
    ensures MinSize(i) <= MinSize(j)
    decreases j
  {
    if i < j {
      MinSizeGrows(i, j - 1);
      MinSizeStep(j - 1);
    }
  }

  lemma Pow2Constants()
    ensures Pow2(7) == 128 && Pow2(8) == 256 && Pow2(16) == 0x1_0000 && Pow2(22) == 0x40_0000
    ensures Pow2(64) == WORD
  {
    Pow2Adds(4, 4);
    Pow2Adds(8, 8);
    Pow2Adds(16, 16);
    Pow2Adds(32, 32);
    Pow2Adds(6, 16);
  }

  lemma Octave(k: nat)
    ensures Pow2(k) * 256 == 2 * Pow2(k + 7)
    ensures MinSize(2 * k) == 2 * Pow2(k + 7) && MinSize(2 * k + 1) == 3 * Pow2(k + 7) && MinSize(2 * k + 2) == 4 * Pow2(k + 7)
  {
    Pow2Constants();
    Pow2Adds(k, 8);
    assert Pow2(k + 8) == 2 * Pow2(k + 7);
    assert 2 * k / 2 == k && (2 * k + 1) / 2 == k && (2 * k + 2) / 2 == k + 1;
  }

  // The bin of a size, from the highest bit of size >> 8 and the bit below it.
  lemma IndexFromBits(size: nat, k: nat)
    requires Pow2(k) <= size / 256 < Pow2(k + 1)
    ensures MinSize(IndexFor(size, k)) <= size < MinSize(IndexFor(size, k) + 1)
  {
    Octave(k);
    assert Pow2(k + 1) == 2 * Pow2(k);
    IndexInOctave(size, k, Pow2(k + 7));
  }

  lemma IndexInOctave(size: nat, k: nat, w: nat)
    requires w == Pow2(k + 7) && 2 * w <= size < 4 * w
    ensures IndexFor(size, k) == if size < 3 * w then 2 * k else 2 * k + 1
  {
    DivIs(size, w, if size < 3 * w then 2 else 3);
  }

  lemma TreeIndexIs(size: nat)
    requires MIN_LARGE_SIZE <= size < MAX_CHUNK
    ensures size / 256 > 0
    ensures TreeIndex(size) == if size / 256 > 0xFFFF then NTREEBINS - 1 else IndexFor(size, HighBit(size / 256))
  {
    assert size / 256 % 0x1_0000_0000 == size / 256;
  }

  lemma InRange(size: nat, i: nat)
    requires i < NTREEBINS && MinSize(i) <= size && (i < NTREEBINS - 1 ==> size < MinSize(i + 1)) && size < WORD
    ensures BinLow(i) <= size < BinLow(i) + BinWidth(i)
  {
    MinSizeStep(i);
  }

  /** The tree bin of a chunk holds exactly its range of sizes. */
  lemma IndexInRange(size: nat)
    requires MIN_LARGE_SIZE <= size < MAX_CHUNK
    ensures MinSize(TreeIndex(size)) <= size
    ensures TreeIndex(size) < NTREEBINS - 1 ==> size < MinSize(TreeIndex(size) + 1)
    ensures BinLow(TreeIndex(size)) <= size < BinLow(TreeIndex(size)) + BinWidth(TreeIndex(size))
  {
    TreeIndexIs(size);
    if size / 256 > 0xFFFF {
      LastBin();
    } else {
      IndexBelowLast(size, size / 256);
    }
    InRange(size, TreeIndex(size));
  }

  lemma IndexBelowLast(size: nat, x: nat)
    requires x == size / 256 && 0 < x <= 0xFFFF
    ensures var i := IndexFor(size, HighBit(x)); i < NTREEBINS && MinSize(i) <= size < MinSize(i + 1)
  {
    hide HighBit, Pow2, IndexFor, MinSize;
    HighBitIs(x);
    HighBitBound(x, 16);
    IndexFromBits(size, HighBit(x));
  }

  lemma LastBin()
    ensures MinSize(31) == 3 * 0x40_0000
  {
    Pow2Constants();
    assert 31 / 2 == 15 && 31 % 2 == 1;
  }

  /** Sizes in a lower bin are smaller. */
  lemma IndexOrders(a: nat, b: nat)
    requires MIN_LARGE_SIZE <= a < MAX_CHUNK && MIN_LARGE_SIZE <= b < MAX_CHUNK
    requires TreeIndex(a) < TreeIndex(b)
    ensures a < b
  {
    IndexInRange(a);
    IndexInRange(b);
    BinsAreOrdered(a, b, TreeIndex(a), TreeIndex(b));
  }

  lemma BinsAreOrdered(a: nat, b: nat, i: nat, j: nat)
    requires a < MinSize(i + 1) && MinSize(j) <= b && i < j
    ensures a < b
  {
    MinSizeGrows(i + 1, j);
  }

  // What the trie lemmas need to know of the range and the shift of a bin.
  lemma BinShift(i: nat)
    requires i < NTREEBINS
    ensures BinWidth(i) * LeftShift(i) == WORD
    ensures BinLow(i) * LeftShift(i) == (if i == NTREEBINS - 1 then 0 else 2 + i % 2) * WORD
    ensures BinLow(i) + BinWidth(i) <= WORD
  {
    if i < NTREEBINS - 1 {
      var w, c := BinWidth(i), LeftShift(i);
      assert w * c == WORD by {
        Pow2Constants();
        Pow2Adds(i / 2 + 7, 57 - i / 2);
      }
      Times23(w, c, i % 2);
      assert w <= 0x40_0000 by {
        Pow2Constants();
        Pow2Grows(i / 2 + 7, 22);
      }
    }
  }

  lemma Times23(w: nat, c: nat, b: nat)
    requires b < 2 && w * c == WORD
    ensures ((2 + b) * w) * c == (2 + b) * WORD
  {
    if b == 0 {
      assert (2 * w) * c == 2 * (w * c);
    } else {
      assert (3 * w) * c == 3 * (w * c);
    }
  }

  predicate IsPowerOf2(n: nat) {
    n == 1 || (n > 1 && n % 2 == 0 && IsPowerOf2(n / 2))
  }

  lemma {:induction false} Pow2IsPower(n: nat)
    ensures IsPowerOf2(Pow2(n))
  {
    if n > 0 {
      Pow2IsPower(n - 1);
    }
  }

  // ------------------------------------------------------------------
  // Alignment
  // ------------------------------------------------------------------

  // (a + alignment - 1) & -alignment
  function RoundUp(a: nat, alignment: nat): (r: nat)
    requires alignment > 0
    ensures a <= r
  {
    DivRest(a + alignment - 1, alignment);
    (a + alignment - 1) / alignment * alignment
  }

  lemma DivRest(a: nat, m: nat)
    requires m > 0
    ensures a - m < a / m * m <= a
  {
    assert a == a / m * m + a % m;
  }

  lemma RoundUpValue(a: nat, m: nat)
    requires m > 0 && a % m != 0
    ensures RoundUp(a, m) == (a / m + 1) * m == a + (m - a % m)
  {
    var q := a / m;
    assert (q + 1) * m == q * m + m;
    assert a == q * m + a % m;
    DivIs(a + m - 1, m, q + 1);
  }

  lemma MultipleOf32(k: nat, c: nat)
    ensures k * (32 * c) % 32 == 0
    ensures forall m :: m % 32 == 0 && m / 32 == c ==> k * m % 32 == 0
  {
    assert k * (32 * c) == 32 * (k * c);
  }

  lemma RoundUpIs(a: nat, alignment: nat)
    requires alignment > 0 && alignment % 32 == 0 && a % 32 == 0 && a % alignment != 0
    ensures RoundUp(a, alignment) % alignment == 0 && RoundUp(a, alignment) % 32 == 0
    ensures a + 32 <= RoundUp(a, alignment) < a + alignment && (RoundUp(a, alignment) - a) % 32 == 0
  {
    RoundUpValue(a, alignment);
    ModOfMultiple(a / alignment + 1, alignment);
    MultipleOf32(a / alignment + 1, alignment / 32);
    NextMultiple(a, a % alignment, alignment, RoundUp(a, alignment));
  }

  lemma NextMultiple(a: nat, rest: nat, alignment: nat, up: nat)
    requires 0 < rest < alignment && up == a + (alignment - rest) && a % 32 == 0 && up % 32 == 0
    ensures a + 32 <= up < a + alignment && (up - a) % 32 == 0
  {
  }

  lemma ModOfMultiple(k: nat, m: nat)
    requires m > 0
    ensures k * m % m == 0
  {
    DivIs(k * m, m, k);
    assert k * m == k * m / m * m + k * m % m;
  }

  lemma {:induction false} PowersApart(a: nat, b: nat)
    requires IsPowerOf2(a) && IsPowerOf2(b) && a < b
    ensures 2 * a <= b
  {
    if a > 1 {
      PowersApart(a / 2, b / 2);
    }
  }

  lemma {:induction false} PowersDivide(a: nat)
    requires IsPowerOf2(a) && a >= 32
    ensures a % 32 == 0
  {
    if a > 32 {
      assert IsPowerOf2(32);
      PowersApart(32, a);
      PowersDivide(a / 2);
    }
  }

  // a is the least power of two that is at least alignment and at least 32.
  ghost predicate RoundsTo(alignment: nat, a: nat) {
    IsPowerOf2(a) && a >= 32 && alignment <= a && (a == 32 || a < 2 * alignment)
  }

  // internal_memalign makes the alignment a power of two, at least the least chunk size.
  method RoundAlignment(alignment: nat) returns (a: nat)
    requires alignment <= WORD / 2
    ensures RoundsTo(alignment, a) && a <= WORD / 2 && a % 32 == 0
  {
    hide IsPowerOf2;
    a := if alignment < MIN_CHUNK_SIZE then MIN_CHUNK_SIZE else alignment;
    if !IsPowerOf2(a) {
      a := ALIGNMENT * 2;
      PowerOf64();
      while a < alignment
        invariant IsPowerOf2(a) && a >= 64 && (a == 64 || a < 2 * alignment)
        invariant a <= WORD / 2
        decreases alignment - a
      {
        DoubleFits(a);
        a := 2 * a;
      }
    }
    PowersDivide(a);
  }

  lemma PowerOf64()
    ensures IsPowerOf2(32) && IsPowerOf2(64)
  {
    assert IsPowerOf2(8);
  }

  lemma DoubleFits(a: nat)
    requires IsPowerOf2(a) && a < WORD / 2
    ensures 2 * a <= WORD / 2 && IsPowerOf2(2 * a)
  {
    assert 2 * a / 2 == a;
    Pow2Constants();
    Pow2IsPower(63);
    assert Pow2(64) == 2 * Pow2(63);
    PowersApart(a, Pow2(63));
  }

  // a after k rounds of the loop in internal_memalign, in a 64-bit word.
  function Doubling(k: nat): nat {
    if k == 0 then 64 else 2 * Doubling(k - 1) % WORD
  }

  /** It never passes 2^63: for an alignment above that, the loop does not end. */
  lemma {:induction false} NeverReaches(k: nat)
    ensures Doubling(k) <= WORD / 2 && (Doubling(k) == 0 || IsPowerOf2(Doubling(k)))
  {
    hide IsPowerOf2;
    if k == 0 {
      PowerOf64();
    } else {
      NeverReaches(k - 1);
      var a := Doubling(k - 1);
      if 0 < a < WORD / 2 {
        DoubleFits(a);
        assert 2 * a % WORD == 2 * a;
      }
    }
  }

  // The size of top in a new mspace, in a 64-bit word.
  function TopSize(base: Addr, capacity: nat): nat {
    (capacity - AlignOffset(base + MEM_OFFSET) - MSTATE_SIZE - TOP_FOOT_SIZE) % WORD
  }

  /** The capacities that create_mspace_with_base accepts give a top that is not empty and inside the
      segment exactly when they also cover the bytes that are skipped to align the base. */
  lemma TopInside(base: Addr, capacity: nat)
    requires MSTATE_SIZE + TOP_FOOT_SIZE < capacity < WORD - (MSTATE_SIZE + TOP_FOOT_SIZE + 0x20_0000)
    ensures 0 < TopSize(base, capacity) <= capacity <==> capacity > AlignOffset(base + MEM_OFFSET) + MSTATE_SIZE + TOP_FOOT_SIZE
  {
    var d := capacity - AlignOffset(base + MEM_OFFSET) - MSTATE_SIZE - TOP_FOOT_SIZE;
    assert -32 < d < WORD;
    assert TopSize(base, capacity) == if d >= 0 then d else d + WORD;
  }

  lemma TopBits(base: Addr, capacity: nat)
    requires AlignOffset(base + MEM_OFFSET) + MSTATE_SIZE + TOP_FOOT_SIZE < capacity < WORD
    ensures TopSize(base, capacity) == capacity - AlignOffset(base + MEM_OFFSET) - MSTATE_SIZE - TOP_FOOT_SIZE
    ensures TopSize(base, capacity) % 4 == (base + capacity) % 4
  {
    hide AlignOffset;
    var size := capacity - AlignOffset(base + MEM_OFFSET) - MSTATE_SIZE - TOP_FOOT_SIZE;
    SmallWord(size);
    var k := AlignedAt(base + MEM_OFFSET);
    SameLowBits(size, base + capacity, 8 * k + 264);
  }

  lemma SmallWord(size: nat)
    requires size < WORD
    ensures size % WORD == size
  {
  }

  lemma AlignedAt(a: Addr) returns (k: nat)
    ensures a + AlignOffset(a) == 32 * k
  {
    k := if a % ALIGNMENT == 0 then a / ALIGNMENT else a / ALIGNMENT + 1;
    assert a == 32 * (a / 32) + a % 32;
  }

  lemma SameLowBits(a: nat, b: nat, k: int)
    requires b == a + 4 * k
    ensures a % 4 == b % 4
  {
  }

  /** A segment of 1080 bytes at 4096 is accepted, and top would begin behind its end. */
  lemma TopOutside()
    ensures MSTATE_SIZE + TOP_FOOT_SIZE < 1080 && !(0 < TopSize(4096, 1080) <= 1080)
  {
    assert AlignOffset(4096 + MEM_OFFSET) == 16;
    TopInside(4096, 1080);
  }
}
