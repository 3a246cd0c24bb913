/** Searching the bins of the kernel heap (src/kernel/dlmalloc.cc): tmalloc_large, tmalloc_small and
    the small bins. */
module HeapSearch {
  import opened HeapSizes
  import opened TreeBin
  import opened HeapBins

  // The least bit of a map at i or above, 32 for none: least_bit of what left_bits leaves.
  function LeastFrom(m: set<nat>, i: nat): (j: nat)
    requires i <= 32
    ensures i <= j <= 32 && (j < 32 ==> j in m)
    ensures forall k :: i <= k < j ==> k !in m
    decreases 32 - i
  {
    if i == 32 || i in m then i else LeastFrom(m, i + 1)
  }

  // No chunk in the tree bins fits nb and is smaller than size.
  ghost predicate NoneSmaller(b: Bins, nb: nat, size: nat)
    requires |b.treebins| == NTREEBINS
  {
    forall j, s: nat {:trigger Sized(b.treebins[j], s)} ::
      0 <= j < NTREEBINS && Sized(b.treebins[j], s) && s >= nb ==> s >= size
  }

  // The node v (Empty for none) is the best fit in the tree bins.
  ghost predicate BestNode(b: Bins, nb: nat, v: Trie, rsize: nat)
    requires |b.treebins| == NTREEBINS
  {
    && (v.Node? ==>
        && v.ring != [] && v.size == nb + rsize && MIN_LARGE_SIZE <= v.size < MAX_CHUNK
        && In(b.treebins[TreeIndex(v.size)], v.ring[0], v.size))
    && NoneSmaller(b, nb, if v.Node? then v.size else WORD)
  }

  // Every size in bin i that fits is at least size; bins above come after.
  lemma BestInBin(b: Bins, nb: nat, i: nat, v: Trie, rsize: nat)
    requires TreesOk(b) && i < NTREEBINS && NoneBetter(b.treebins[i], nb, rsize) && b.treebins[i].Node?
    requires forall j :: 0 <= j < i ==> NoneFits(b.treebins[j], nb)
    requires v.Node? && v.ring != [] && v.size == nb + rsize && In(b.treebins[i], v.ring[0], v.size)
    ensures BestNode(b, nb, v, rsize)
  {
    assert TreeBinOk(b.treebins[i], i);
    InIsSized(b.treebins[i], v.ring[0], v.size);
    forall j, s: nat {:trigger Sized(b.treebins[j], s)} | 0 <= j < NTREEBINS && Sized(b.treebins[j], s) && s >= nb
      ensures s >= v.size
    {
      assert TreeBinOk(b.treebins[j], j);
      if j > i {
        IndexOrders(v.size, s);
      }
    }
  }

  // Bins below the one for nb hold only smaller chunks, and bins above only larger ones.
  lemma BinsBelow(b: Bins, nb: nat, i: nat)
    requires TreesOk(b) && i < NTREEBINS && MIN_LARGE_SIZE <= nb && TreeIndex(nb) == i && nb < MAX_CHUNK
    ensures forall j :: 0 <= j < i ==> NoneFits(b.treebins[j], nb)
    ensures forall j :: i < j < NTREEBINS ==> AllFit(b.treebins[j], nb)
  {
    forall j | 0 <= j < i ensures NoneFits(b.treebins[j], nb) {
      assert TreeBinOk(b.treebins[j], j);
      forall s: nat | Sized(b.treebins[j], s) ensures s < nb {
        IndexOrders(s, nb);
      }
    }
    forall j | i < j < NTREEBINS ensures AllFit(b.treebins[j], nb) {
      assert TreeBinOk(b.treebins[j], j);
      forall s: nat | Sized(b.treebins[j], s) ensures s >= nb {
        IndexOrders(nb, s);
      }
    }
  }

  lemma TooLarge(b: Bins, nb: nat, i: nat)
    requires TreesOk(b) && i < NTREEBINS && nb >= MAX_CHUNK
    ensures NoneFits(b.treebins[i], nb)
  {
    assert TreeBinOk(b.treebins[i], i);
  }

  lemma NoneFit(b: Bins, nb: nat)
    requires TreesOk(b) && forall j :: 0 <= j < NTREEBINS ==> NoneFits(b.treebins[j], nb)
    ensures BestNode(b, nb, Empty, WORD)
  {
  }

  // What the two loops have seen of a bin adds up.
  lemma Combine(root: Trie, t: Trie, nb: nat, rsize1: nat, rsize: nat)
    requires forall s: nat :: Sized(root, s) && s >= nb ==>
      s - nb >= rsize1 || (t.Node? && (Sized(t, s) || s > t.size))
    requires rsize <= rsize1 && NoneBetter(t, nb, rsize) && (rsize1 == 0 || AllFit(t, nb))
    ensures NoneBetter(root, nb, rsize)
  {
    if t.Node? {
      assert Sized(t, t.size);
    }
  }

  /** tmalloc_large: the best fit in the tree bins for a large request. */
  method FindLarge(b: Bins, nb: nat) returns (v: Trie, rsize: nat)
    requires TreesOk(b) && MIN_LARGE_SIZE <= nb < WORD
    ensures BestNode(b, nb, v, rsize)
  {
    var idx := TreeIndex(nb);
    ghost var steered := nb < MAX_CHUNK;
    v, rsize := Empty, WORD - nb;
    var t := b.treebins[idx];
    assert TreeBinOk(t, idx);
    ghost var root, tlo: nat, twidth: nat := t, BinLow(idx), BinWidth(idx);
    BinShift(idx);
    if steered {
      RegisterSteers(nb);
      BinsBelow(b, nb, idx);
    } else {
      TooLarge(b, nb, idx);
    }
    if t.Node? {
      t, v, rsize, tlo, twidth := SearchPath(t, nb, Register(nb, idx), BinLow(idx), BinWidth(idx), LeftShift(idx), steered);
    }
    ghost var rsize1 := rsize;
    if t.Empty? && v.Empty? {
      v, rsize := FindAbove(b, nb, idx);
    } else {
      v, rsize := SearchLeftmost(t, nb, v, rsize, tlo, twidth);
      if steered {
        Combine(root, t, nb, rsize1, rsize);
        FoundInBin(b, nb, idx, t, v, rsize);
      } else {
        NotFound(b, nb, idx, v, rsize);
      }
    }
  }

  lemma FoundInBin(b: Bins, nb: nat, i: nat, t: Trie, v: Trie, rsize: nat)
    requires TreesOk(b) && i < NTREEBINS && b.treebins[i].Node? && nb < WORD
    requires forall j :: 0 <= j < i ==> NoneFits(b.treebins[j], nb)
    requires Candidate(v, rsize, nb) && NoneBetter(b.treebins[i], nb, rsize) && Within(t, b.treebins[i])
    requires v.Node? ==> In(b.treebins[i], v.ring[0], v.size)
    requires v.Empty? ==> t.Node? && AllFit(t, nb)
    ensures BestNode(b, nb, v, rsize)
  {
    assert TreeBinOk(b.treebins[i], i);
    assert t.Node? ==> Sized(t, t.size) && Sized(b.treebins[i], t.size);
    if v.Node? {
      BestInBin(b, nb, i, v, rsize);
    }
  }

  lemma NotFound(b: Bins, nb: nat, i: nat, v: Trie, rsize: nat)
    requires TreesOk(b) && i < NTREEBINS && nb >= MAX_CHUNK && Candidate(v, rsize, nb)
    requires v.Node? ==> In(b.treebins[i], v.ring[0], v.size)
    ensures v.Empty? && BestNode(b, nb, v, rsize)
  {
    if v.Node? {
      TooLarge(b, nb, i);
      InIsSized(b.treebins[i], v.ring[0], v.size);
    }
    forall j | 0 <= j < NTREEBINS ensures NoneFits(b.treebins[j], nb) {
      TooLarge(b, nb, j);
    }
  }

  // The search goes on in the next bin that is not empty.
  method FindAbove(b: Bins, nb: nat, idx: nat) returns (v: Trie, rsize: nat)
    requires TreesOk(b) && MIN_LARGE_SIZE <= nb < WORD && idx < NTREEBINS
    requires nb < MAX_CHUNK ==> TreeIndex(nb) == idx && NoneFits(b.treebins[idx], nb)
    ensures BestNode(b, nb, v, rsize)
  {
    v, rsize := Empty, WORD - nb;
    var i := LeastFrom(b.treemap, idx + 1);
    if nb < MAX_CHUNK {
      BinsBelow(b, nb, idx);
    }
    if i < NTREEBINS {
      var t := b.treebins[i];
      assert TreeBinOk(t, i);
      BinShift(i);
      if nb >= MAX_CHUNK {
        TooLarge(b, nb, i);
      }
      v, rsize := SearchLeftmost(t, nb, v, rsize, BinLow(i), BinWidth(i));
      if nb >= MAX_CHUNK {
        NotFound(b, nb, i, v, rsize);
      } else {
        forall j | 0 <= j < i ensures NoneFits(b.treebins[j], nb) {
          assert j > idx ==> j !in b.treemap;
        }
        FoundInBin(b, nb, i, t, v, rsize);
      }
    } else if nb >= MAX_CHUNK {
      NotFound(b, nb, idx, v, rsize);
    } else {
      assert forall j :: idx < j < NTREEBINS ==> j !in b.treemap;
      NoneFit(b, nb);
    }
  }

  /** tmalloc_small: the least chunk in the tree bins. */
  method FindLeast(b: Bins, nb: nat) returns (v: Trie, rsize: nat)
    requires TreesOk(b) && nb < MIN_LARGE_SIZE && b.treemap != {}
    ensures v.Node? && BestNode(b, nb, v, rsize)
  {
    var i := LeastFrom(b.treemap, 0);
    if i == 32 {
      ghost var k :| k in b.treemap;
      assert false;
    }
    var t := b.treebins[i];
    assert TreeBinOk(t, i);
    BinShift(i);
    assert Sized(t, t.size) && In(t, t.ring[0], t.size);
    // The loop starts from the root; LeftmostChild steps down.
    v, rsize := t, t.size - nb;
    v, rsize := SearchLeftmost(t, nb, v, rsize, BinLow(i), BinWidth(i));
    forall j | 0 <= j < i ensures NoneFits(b.treebins[j], nb) {
      assert j !in b.treemap;
    }
    BestInBin(b, nb, i, v, rsize);
  }
}
