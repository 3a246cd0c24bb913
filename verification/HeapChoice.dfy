/** Which chunk a request is served from (mspace_malloc in src/kernel/dlmalloc.cc). */
module HeapChoice {
  import opened HeapSizes
  import opened TreeBin
  import opened HeapBins
  import opened HeapSpace
  import opened HeapState
  import opened HeapSearch

  // A binned chunk that can hold nb.
  ghost predicate FitsBinned(h: State, a: Addr, nb: nat) {
    a in Free(h.sp) && a != h.dv && Free(h.sp)[a] >= nb
  }

  ghost predicate LeastBinned(h: State, p: Addr, nb: nat) {
    FitsBinned(h, p, nb) && forall a :: FitsBinned(h, a, nb) ==> Free(h.sp)[p] <= Free(h.sp)[a]
  }

  ghost predicate NoneBinned(h: State, nb: nat) {
    forall a :: !FitsBinned(h, a, nb)
  }

  // A small request takes a binned chunk of its very size, else dv, else the least binned chunk,
  // else top.
  ghost predicate SmallChoice(h: State, p: Addr, nb: nat) {
    || (LeastBinned(h, p, nb) && (Free(h.sp)[p] == nb || h.dvsize < nb))
    || (p == h.dv && nb <= h.dvsize && forall a :: FitsBinned(h, a, nb) ==> Free(h.sp)[a] != nb)
    || (p == h.sp.top && nb < h.topsize && h.dvsize < nb && NoneBinned(h, nb))
  }

  // A large request takes the least free chunk that fits, dv among equals, else top.
  ghost predicate BestFit(h: State, p: Addr, nb: nat) {
    || (p in Free(h.sp) && Free(h.sp)[p] >= nb &&
        forall a :: a in Free(h.sp) && Free(h.sp)[a] >= nb ==>
          Free(h.sp)[p] < Free(h.sp)[a] || (Free(h.sp)[p] == Free(h.sp)[a] && (a == h.dv ==> p == h.dv)))
    || (p == h.sp.top && nb < h.topsize && forall a :: a in Free(h.sp) ==> Free(h.sp)[a] < nb)
  }

  // ------------------------------------------------------------------

  lemma BinnedIsFree(h: State, p: Addr, s: nat)
    requires Valid(h) && Binned(h.bins, p, s)
    ensures IsFree(h.sp, p) && p != h.dv && h.sp.head[p].size == s && Free(h.sp)[p] == s && p in Free(h.sp)
  {
  }

  lemma FitIsBinned(h: State, a: Addr, nb: nat)
    requires Valid(h) && FitsBinned(h, a, nb)
    ensures Binned(h.bins, a, Free(h.sp)[a]) && 32 <= Free(h.sp)[a] < MAX_CHUNK && Free(h.sp)[a] % 32 == 0
    ensures !IsSmall(Free(h.sp)[a]) ==> TreeIndex(Free(h.sp)[a]) < NTREEBINS && Sized(h.bins.treebins[TreeIndex(Free(h.sp)[a])], Free(h.sp)[a])
  {
    var s := Free(h.sp)[a];
    assert IsFree(h.sp, a);
    FreeChunk(h, a);
    assert Binned(h.bins, a, s);
    if !IsSmall(s) {
      InIsSized(h.bins.treebins[TreeIndex(s)], a, s);
    }
  }

  // The best node of the tree bins is the least binned chunk, when the small bins have none.
  lemma BestNodeIsLeast(h: State, nb: nat, v: Trie, rsize: nat)
    requires Valid(h) && BestNode(h.bins, nb, v, rsize)
    requires forall a :: FitsBinned(h, a, nb) ==> !IsSmall(Free(h.sp)[a])
    ensures v.Node? ==>
      && LeastBinned(h, v.ring[0], nb) && IsFree(h.sp, v.ring[0]) && v.ring[0] != h.dv
      && h.sp.head[v.ring[0]].size == v.size
    ensures v.Empty? ==> NoneBinned(h, nb)
  {
    if v.Node? {
      assert Binned(h.bins, v.ring[0], v.size);
      BinnedIsFree(h, v.ring[0], v.size);
    }
    forall a | FitsBinned(h, a, nb) ensures v.Node? && v.size <= Free(h.sp)[a] {
      FitIsBinned(h, a, nb);
    }
  }

  lemma LargeFitsAreLarge(h: State, nb: nat)
    requires Valid(h) && nb >= MIN_LARGE_SIZE
    ensures forall a :: FitsBinned(h, a, nb) ==> !IsSmall(Free(h.sp)[a])
  {
  }

  // The first chunk of the least small bin at idx or above.
  lemma FirstOfSmallBin(h: State, nb: nat, i: nat)
    requires Valid(h) && nb % 32 == 0 && nb < MIN_LARGE_SIZE && i == LeastFrom(h.bins.smallmap, SmallIndex(nb))
    ensures |h.bins.smallbins| == NSMALLBINS
    ensures i < NSMALLBINS ==>
      && h.bins.smallbins[i] != [] && i % 4 == 0
      && LeastBinned(h, h.bins.smallbins[i][0], nb) && Free(h.sp)[h.bins.smallbins[i][0]] == 8 * i
      && IsFree(h.sp, h.bins.smallbins[i][0]) && h.bins.smallbins[i][0] != h.dv
      && h.sp.head[h.bins.smallbins[i][0]].size == 8 * i
    ensures i == NSMALLBINS ==> forall a :: FitsBinned(h, a, nb) ==> !IsSmall(Free(h.sp)[a])
  {
    forall a | FitsBinned(h, a, nb) && IsSmall(Free(h.sp)[a]) ensures i < NSMALLBINS && Free(h.sp)[a] >= 8 * i {
      SmallFit(h, nb, i, a);
    }
    if i < NSMALLBINS {
      FirstIsBinned(h, i);
    }
  }

  lemma FirstIsBinned(h: State, i: nat)
    requires Valid(h) && i in h.bins.smallmap
    ensures i < NSMALLBINS && h.bins.smallbins[i] != [] && i % 4 == 0
    ensures var p := h.bins.smallbins[i][0]; IsFree(h.sp, p) && p != h.dv && p in Free(h.sp)
    ensures h.sp.head[h.bins.smallbins[i][0]].size == 8 * i && Free(h.sp)[h.bins.smallbins[i][0]] == 8 * i
  {
    assert SmallOk(h.bins);
    var p := h.bins.smallbins[i][0];
    assert p in h.bins.smallbins[i] && SmallIndex(8 * i) == i;
    assert Binned(h.bins, p, 8 * i);
    BinnedIsFree(h, p, 8 * i);
    FreeChunk(h, p);
  }

  lemma SmallFit(h: State, nb: nat, i: nat, a: Addr)
    requires Valid(h) && nb % 32 == 0 && nb < MIN_LARGE_SIZE && i == LeastFrom(h.bins.smallmap, SmallIndex(nb))
    requires FitsBinned(h, a, nb) && IsSmall(Free(h.sp)[a])
    ensures i < NSMALLBINS && Free(h.sp)[a] >= 8 * i
  {
    FitIsBinned(h, a, nb);
    var s := Free(h.sp)[a];
    assert s / 8 >= nb / 8 && s / 8 in h.bins.smallmap;
  }

  // With an exact fit in the small bins, or no fit there at all, dv and top come next.
  lemma NoExactFit(h: State, nb: nat, i: nat)
    requires Valid(h) && nb % 32 == 0 && nb < MIN_LARGE_SIZE && i == LeastFrom(h.bins.smallmap, SmallIndex(nb))
    requires i != SmallIndex(nb)
    ensures forall a :: FitsBinned(h, a, nb) ==> Free(h.sp)[a] != nb
  {
    FirstOfSmallBin(h, nb, i);
  }

  lemma NothingFits(h: State, nb: nat)
    requires Valid(h) && NoneBinned(h, nb) && h.dvsize < nb
    ensures forall a :: a in Free(h.sp) ==> Free(h.sp)[a] < nb
  {
    forall a | a in Free(h.sp) ensures Free(h.sp)[a] < nb {
      assert !FitsBinned(h, a, nb);
      assert IsFree(h.sp, a);
      FreeChunk(h, a);
    }
  }

  // A chunk that is chosen fits, is not in use, and is properly aligned.
  lemma ChoiceIsNew(h: State, p: Addr, bytes: nat)
    requires Valid(h) && Choice(h, p, bytes)
    ensures p !in Live(h.sp) && p >= 16 && p % 32 == 16 && !Exhausted(h, Need(bytes))
  {
    DvSize(h);
    TopIsLast(h, Need(bytes));
    if p != h.sp.top {
      assert IsFree(h.sp, p);
      FreeChunk(h, p);
    }
  }

  // The request was served by a chunk of just the needed size that was not in use before.
  ghost predicate Served(h: State, h': State, mem: Addr, bytes: nat) {
    && mem >= MEM_OFFSET && mem % 32 == 0 && Choice(h, mem - MEM_OFFSET, bytes)
    && mem - MEM_OFFSET !in Live(h.sp)
    && Live(h'.sp) == Live(h.sp)[mem - MEM_OFFSET := Need(bytes)]
    && Owns(h', mem, bytes)
  }

  ghost predicate Choice(h: State, p: Addr, bytes: nat) {
    if bytes <= MAX_SMALL_REQUEST then SmallChoice(h, p, Need(bytes)) else BestFit(h, p, Need(bytes))
  }

  lemma EmptyTrees(h: State, nb: nat)
    requires Valid(h) && h.bins.treemap == {} && forall a :: FitsBinned(h, a, nb) ==> !IsSmall(Free(h.sp)[a])
    ensures NoneBinned(h, nb)
  {
    forall a ensures !FitsBinned(h, a, nb) {
      if FitsBinned(h, a, nb) {
        FitIsBinned(h, a, nb);
      }
    }
  }

  // The comparison of the best node with dv, as unsigned remainders.
  lemma LargeChoice(h: State, nb: nat, v: Trie, rsize: nat)
    requires Valid(h) && BestNode(h.bins, nb, v, rsize) && 0 < nb < WORD
    requires if v.Node? then LeastBinned(h, v.ring[0], nb) && Free(h.sp)[v.ring[0]] == v.size else NoneBinned(h, nb)
    ensures v.Node? && rsize < Sub64(h.dvsize, nb) ==> BestFit(h, v.ring[0], nb)
    ensures !(v.Node? && rsize < Sub64(h.dvsize, nb)) && h.dvsize >= nb ==> BestFit(h, h.dv, nb)
    ensures !(v.Node? && rsize < Sub64(h.dvsize, nb)) && h.dvsize < nb ==> NoneBinned(h, nb)
  {
    DvSize(h);
    NullIsNotFree(h);
    if v.Node? {
      Remainder(h.dvsize, nb, rsize + 1);
    }
    assert h.dvsize >= nb ==> h.dv in Free(h.sp) && Free(h.sp)[h.dv] == h.dvsize;
    forall a | a in Free(h.sp) && Free(h.sp)[a] >= nb
      ensures a == h.dv || (v.Node? && FitsBinned(h, a, nb) && v.size <= Free(h.sp)[a])
    {
      assert a != h.dv ==> FitsBinned(h, a, nb);
    }
  }

  // No chunk is as large as that.
  lemma TooBig(h: State, nb: nat)
    requires Valid(h) && nb >= MAX_CHUNK
    ensures NoneBinned(h, nb) && h.dvsize < nb && h.topsize <= nb && Exhausted(h, nb)
  {
    DvSize(h);
    FreeAddrs(h);
    FirstIsLive(h);
    ChunkBounds(h, h.sp.first);
  }

  // The bins have no chunk that goes before dv and top.
  ghost predicate LeftToRest(h: State, bytes: nat) {
    var nb := Need(bytes);
    && (bytes <= MAX_SMALL_REQUEST ==> forall a :: FitsBinned(h, a, nb) ==> Free(h.sp)[a] != nb)
    && (bytes > MAX_SMALL_REQUEST && h.dvsize >= nb ==> BestFit(h, h.dv, nb))
    && (h.dvsize < nb ==> NoneBinned(h, nb))
  }

  // What the end of mspace_malloc chooses when the bins have nothing to give.
  lemma RestChoice(h: State, p: Addr, bytes: nat)
    requires Valid(h) && LeftToRest(h, bytes)
    requires p == if h.dvsize >= Need(bytes) then h.dv else if h.topsize > Need(bytes) then h.sp.top else 0
    ensures p != 0 ==> Choice(h, p, bytes)
    ensures p == 0 ==> Exhausted(h, Need(bytes))
  {
    DvSize(h);
    NullIsNotFree(h);
    if h.dvsize < Need(bytes) {
      NothingFits(h, Need(bytes));
      TopIsLast(h, Need(bytes));
    } else {
      FreeChunk(h, h.dv);
    }
  }

  // A block is as large as was asked for.
  lemma BlockOwns(h: State, p: Addr, bytes: nat)
    requires Valid(h) && p in Live(h.sp) && Live(h.sp)[p] == Need(bytes)
    ensures Owns(h, p + MEM_OFFSET, bytes)
  {
    LiveOwns(h, p, bytes);
  }

  lemma RoomBound(h: State, p: Addr)
    requires Valid(h) && p in Live(h.sp)
    ensures Room(h, p) < MAX_CHUNK
  {
    Behind(h, p);
    ChunkBounds(h, p);
    assert ChunkOk(h.sp, p);
    if End(h.sp, p) != h.sp.top {
      ChunkBounds(h, End(h.sp, p));
    }
  }

  // What a realloc of a block gives: the same place with its new size, or a new place and the old
  // one gone, or null.
  ghost predicate Moved(h: State, h': State, oldmem: Addr, mem: Addr, bytes: nat)
    requires Valid(h) && oldmem >= MEM_OFFSET && oldmem - MEM_OFFSET in Live(h.sp)
  {
    var p, nb := oldmem - MEM_OFFSET, Need(bytes);
    && (mem == oldmem <==> nb <= Room(h, p))
    && (mem == 0 <==> nb > Room(h, p) && Exhausted(h, nb))
    && (mem != 0 && mem != oldmem ==> mem >= MEM_OFFSET && mem - MEM_OFFSET !in Live(h.sp) && mem % 32 == 0)
    && (mem != 0 ==> mem >= MEM_OFFSET && Live(h'.sp) == (Live(h.sp) - {p})[mem - MEM_OFFSET := nb] && Owns(h', mem, bytes))
  }

  // What internal_memalign asks internal_malloc for.
  function AlignedRequest(bytes: nat, alignment: nat): nat {
    (RequestToSize(bytes) + alignment + MIN_CHUNK_SIZE - CHUNK_OVERHEAD) % WORD
  }

  // A chunk that has an aligned place for the request wherever it lies: a least chunk may have to go in front.
  function AlignedNeed(bytes: nat, alignment: nat): nat {
    Need(Need(bytes) + alignment + 24)
  }

  lemma AlignedRequestFits(bytes: nat, a: nat)
    requires 32 <= a && bytes < MAX_REQUEST - a
    ensures AlignedRequest(bytes, a) < WORD && Need(bytes) == RequestToSize(bytes)
    ensures Need(AlignedRequest(bytes, a)) == AlignedNeed(bytes, a) >= Need(bytes) + a + 32
  {
  }

  // What internal_memalign refuses at once could not be had.
  lemma AlignedTooBig(h: State, bytes: nat, a: nat)
    requires Valid(h) && bytes >= MAX_REQUEST - a
    ensures Exhausted(h, AlignedNeed(bytes, a))
  {
    TooBig(h, AlignedNeed(bytes, a));
  }
}
