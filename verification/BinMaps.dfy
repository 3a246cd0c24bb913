/** The bin maps of the kernel heap (src/kernel/dlmalloc.cc): a word with one bit for each bin, and the tricks
    on words that find the next bin that is not empty. HeapBins has the maps as sets. */
module BinMaps {

  type Index = i: bv32 | i < 32         // bindex_t

  function At(i: nat): Index
    requires i < 32
  {
    i as bv32
  }

  lemma AtIs(i: nat)
    requires i < 32
    ensures At(i) as nat == i
  {
    match i
    case 0 => case 1 => case 2 => case 3 => case 4 => case 5 => case 6 => case 7 =>
    case 8 => case 9 => case 10 => case 11 => case 12 => case 13 => case 14 => case 15 =>
    case 16 => case 17 => case 18 => case 19 => case 20 => case 21 => case 22 => case 23 =>
    case 24 => case 25 => case 26 => case 27 => case 28 => case 29 => case 30 => case 31 =>
    case _ =>
  }

  lemma AtOther(i: nat, j: nat)
    requires i < 32 && j < 32 && At(i) == At(j)
    ensures i == j
  {
    hide At;
    AtIs(i);
    AtIs(j);
  }

  // idx2bit
  function Bit(i: Index): bv32 {
    (1 as bv32) << i
  }

  function LeastBit(x: bv32): bv32 {
    x & (-x)
  }

  function LeftBits(x: bv32): bv32 {
    (x << 1) | (-(x << 1))
  }

  predicate Marked(w: bv32, i: Index) {
    w & Bit(i) != 0
  }

  // The bins that a map marks.
  ghost function BinsOf(w: bv32): iset<Index> {
    iset i: Index | Marked(w, i)
  }

  // ------------------------------------------------------------------
  // Bit by bit
  // ------------------------------------------------------------------

  lemma MarkSame(w: bv32, i: Index)
    ensures Marked(w | Bit(i), i)
  {
  }

  lemma MarkOther(w: bv32, i: Index, j: Index)
    requires i != j
    ensures Marked(w | Bit(i), j) <==> Marked(w, j)
  {
  }

  lemma ClearSame(w: bv32, i: Index)
    ensures !Marked(w & !Bit(i), i)
  {
  }

  lemma ClearOther(w: bv32, i: Index, j: Index)
    requires i != j
    ensures Marked(w & !Bit(i), j) <==> Marked(w, j)
  {
  }

  lemma LeastAt(x: bv32, i: Index, j: Index)
    requires Marked(LeastBit(x), i)
    ensures Marked(x, i) && (j < i ==> !Marked(x, j))
  {
  }

  lemma LeftAt(idx: Index, w: bv32, j: Index)
    ensures Marked(LeftBits(Bit(idx)) & w, j) <==> Marked(w, j) && j > idx
  {
  }

  lemma NotZero(x: bv32, i: Index)
    requires Marked(x, i)
    ensures x != 0 && LeastBit(x) != 0
  {
  }

  lemma LeastNotZero(x: bv32)
    requires x != 0
    ensures LeastBit(x) != 0
  {
  }

  /** mark_smallmap and mark_treemap add a bin, clear_smallmap and clear_treemap take it away. */
  lemma MarkAndClear(w: bv32, i: Index)
    ensures BinsOf(w | Bit(i)) == BinsOf(w) + iset{i}
    ensures BinsOf(w & !Bit(i)) == BinsOf(w) - iset{i}
  {
    hide Bit, Marked;
    forall j: Index
      ensures Marked(w | Bit(i), j) <==> Marked(w, j) || j == i
      ensures Marked(w & !Bit(i), j) <==> Marked(w, j) && j != i
    {
      MarkAt(w, i, j);
    }
  }

  lemma MarkAt(w: bv32, i: Index, j: Index)
    ensures Marked(w | Bit(i), j) <==> Marked(w, j) || j == i
    ensures Marked(w & !Bit(i), j) <==> Marked(w, j) && j != i
  {
    hide Bit, Marked;
    if i == j {
      MarkSame(w, i);
      ClearSame(w, i);
    } else {
      MarkOther(w, i, j);
      ClearOther(w, i, j);
    }
  }

  lemma AllClear(x: bv32)
    requires forall j: Index :: !Marked(x, j)
    ensures x == 0
  {
    assert !Marked(x, 0) && !Marked(x, 1) && !Marked(x, 2) && !Marked(x, 3) && !Marked(x, 4) && !Marked(x, 5) && !Marked(x, 6) && !Marked(x, 7);
    assert !Marked(x, 8) && !Marked(x, 9) && !Marked(x, 10) && !Marked(x, 11) && !Marked(x, 12) && !Marked(x, 13) && !Marked(x, 14) && !Marked(x, 15);
    assert !Marked(x, 16) && !Marked(x, 17) && !Marked(x, 18) && !Marked(x, 19) && !Marked(x, 20) && !Marked(x, 21) && !Marked(x, 22) && !Marked(x, 23);
    assert !Marked(x, 24) && !Marked(x, 25) && !Marked(x, 26) && !Marked(x, 27) && !Marked(x, 28) && !Marked(x, 29) && !Marked(x, 30) && !Marked(x, 31);
  }

  // ------------------------------------------------------------------
  // The next bin
  // ------------------------------------------------------------------

  // compute_bit2idx of a word that is not 0: how many zeros it ends in.
  method TrailingZeros(x: bv32) returns (i: Index)
    requires x != 0
    ensures Marked(x, i) && forall j: Index :: j < i ==> !Marked(x, j)
  {
    hide Bit, Marked;
    i := 0;
    while !Marked(x, i)
      invariant forall j: Index :: j < i ==> !Marked(x, j)
      decreases 31 - i
    {
      if i == 31 {
        AllClear(x);
        assert false;
      }
      i := i + 1;
    }
  }

  /** The least bin that a map marks, found by its least bit. */
  method FirstBin(w: bv32) returns (i: Index)
    requires w != 0
    ensures i in BinsOf(w) && forall j: Index :: j in BinsOf(w) ==> i <= j
  {
    hide Bit, Marked, LeastBit;
    LeastNotZero(w);
    i := TrailingZeros(LeastBit(w));
    forall j: Index | j in BinsOf(w) ensures i <= j {
      LeastAt(w, i, j);
    }
    LeastAt(w, i, i);
  }

  /** The least bin above idx that a map marks, if there is one: left_bits, least_bit and compute_bit2idx. */
  method NextBin(w: bv32, idx: Index) returns (found: bool, i: Index)
    ensures found <==> exists j: Index :: j in BinsOf(w) && j > idx
    ensures found ==> i in BinsOf(w) && i > idx && forall j: Index :: j in BinsOf(w) && j > idx ==> i <= j
  {
    hide Bit, Marked, LeftBits;
    var left := LeftBits(Bit(idx)) & w;
    forall j: Index ensures j in BinsOf(left) <==> j in BinsOf(w) && j > idx {
      LeftAt(idx, w, j);
    }
    i, found := 0, left != 0;
    if found {
      i := FirstBin(left);
    } else {
      forall j: Index ensures j !in BinsOf(left) {
        if j in BinsOf(left) {
          NotZero(left, j);
        }
      }
    }
  }

  // ------------------------------------------------------------------
  // Maps as sets of numbers
  // ------------------------------------------------------------------

  ghost predicate MapIs(w: bv32, s: set<nat>) {
    forall i: nat :: i < 32 ==> (Marked(w, At(i)) <==> i in s)
  }

  lemma NoBins()
    ensures MapIs(0, {})
  {
  }

  function Mark(w: bv32, i: nat): bv32
    requires i < 32
  {
    w | Bit(At(i))
  }

  function Clear(w: bv32, i: nat): bv32
    requires i < 32
  {
    w & !Bit(At(i))
  }

  lemma MarkIs(w: bv32, i: nat, at: Index)
    requires i < 32 && at == At(i)
    ensures Mark(w, i) == w | Bit(at) && Clear(w, i) == w & !Bit(at)
  {
    hide At, Bit;
  }

  lemma MarkedAt(w: bv32, i: nat, j: nat)
    requires i < 32 && j < 32
    ensures Marked(Mark(w, i), At(j)) <==> Marked(w, At(j)) || j == i
    ensures Marked(Clear(w, i), At(j)) <==> Marked(w, At(j)) && j != i
  {
    hide Bit, Marked, At, Mark, Clear;
    var at, to := At(i), At(j);
    if at == to {
      AtOther(i, j);
    }
    MarkIs(w, i, at);
    MarkAt(w, at, to);
  }

  lemma MapMarked(w: bv32, s: set<nat>, i: nat)
    requires MapIs(w, s) && i < 32
    ensures MapIs(Mark(w, i), s + {i})
  {
    hide Mark, Clear, Marked, At;
    forall j: nat | j < 32 ensures Marked(Mark(w, i), At(j)) <==> j in s + {i} {
      MarkedAt(w, i, j);
    }
  }

  lemma MapCleared(w: bv32, s: set<nat>, i: nat)
    requires MapIs(w, s) && i < 32
    ensures MapIs(Clear(w, i), s - {i})
  {
    hide Mark, Clear, Marked, At;
    forall j: nat | j < 32 ensures Marked(Clear(w, i), At(j)) <==> j in s - {i} {
      MarkedAt(w, i, j);
    }
  }
}
