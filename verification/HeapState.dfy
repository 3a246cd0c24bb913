/** The state of the kernel heap and its invariant: layout, bins, designated victim and top
    together (the checks of do_check_malloc_state in src/kernel/dlmalloc.cc). */
module HeapState {
  import opened HeapSizes
  import opened TreeBin
  import opened HeapBins
  import opened HeapSpace

  datatype State = State(sp: Space, bins: Bins, dv: Addr, dvsize: nat, topsize: nat, limit: nat)

  // A free chunk is in the bin for its size, and in no other, unless it is dv; nothing else is
  // in a bin.
  ghost predicate Linked(b: Bins, free: map<Addr, nat>, dv: Addr) {
    && BinsOk(b)
    && (forall a, s :: Binned(b, a, s) <==> a in free && free[a] == s && a != dv)
  }

  ghost predicate DvOk(free: map<Addr, nat>, dv: Addr, dvsize: nat) {
    if dvsize == 0 then dv == 0 else dv in free && free[dv] == dvsize
  }

  ghost predicate TopSizeOk(h: State) {
    && h.sp.top in h.sp.head && h.sp.head[h.sp.top].size == h.topsize
    && h.topsize > 0 && h.sp.top + h.topsize == h.limit
    && h.limit < WORD && h.limit < h.sp.first + MAX_CHUNK
    // the size of top leaves its CINUSE bit alone
    && h.limit % 4 < 2
  }

  ghost predicate Valid(h: State) {
    SpaceOk(h.sp) && Linked(h.bins, Free(h.sp), h.dv) && DvOk(Free(h.sp), h.dv, h.dvsize) && TopSizeOk(h)
  }

  lemma ChunkBounds(h: State, a: Addr)
    requires Valid(h) && a in h.sp.starts
    ensures a in h.sp.head && a >= 16 && a % 32 == 16 && h.sp.first <= a
    ensures 32 <= h.sp.head[a].size < MAX_CHUNK && h.sp.head[a].size % 32 == 0 && End(h.sp, a) <= h.sp.top
  {
    assert ChunkOk(h.sp, a);
  }

  // ------------------------------------------------------------------
  // How the bins follow the free chunks
  // ------------------------------------------------------------------

  lemma UnlinkLink(b: Bins, free: map<Addr, nat>, dv: Addr, p: Addr)
    requires Linked(b, free, dv) && p in free && p != dv && 0 < free[p] < MAX_CHUNK
    ensures IsSmall(free[p]) ==> p in b.smallbins[SmallIndex(free[p])]
    ensures Linked(UnlinkChunk(b, p, free[p]), free - {p}, dv)
  {
    assert Binned(b, p, free[p]);
    UnlinkChunkOk(b, p, free[p]);
  }

  lemma NowhereBinned(b: Bins, free: map<Addr, nat>, dv: Addr, p: Addr)
    requires Linked(b, free, dv) && p !in free
    ensures BinsOk(b) && forall s: nat :: !Binned(b, p, s)
  {
  }

  lemma InsertLink(b: Bins, free: map<Addr, nat>, dv: Addr, p: Addr, s: nat)
    requires Linked(b, free, dv) && p !in free && p != dv && 0 < s < MAX_CHUNK && s % 32 == 0
    ensures Linked(InsertChunk(b, p, s), free[p := s], dv)
  {
    assert !Binned(b, p, s);
    InsertChunkOk(b, p, s);
  }

  // dv is not in a bin, so it can go and come without the bins.
  lemma DropDv(b: Bins, free: map<Addr, nat>, dv: Addr)
    requires Linked(b, free, dv) && 0 !in free
    ensures Linked(b, free - {dv}, 0)
  {
  }

  lemma WithoutDv(b: Bins, free: map<Addr, nat>, dv: Addr, dvsize: nat)
    requires Linked(b, free, dv) && DvOk(free, dv, dvsize) && dvsize != 0 && 0 !in free
    ensures Linked(b, free - {dv}, 0) && (free - {dv})[dv := dvsize] == free && dv != 0
  {
  }

  lemma NewDv(b: Bins, free: map<Addr, nat>, dv: Addr, s: nat)
    requires Linked(b, free, 0) && 0 !in free && dv !in free
    ensures Linked(b, free[dv := s], dv)
  {
  }

  // ------------------------------------------------------------------
  // What the user sees
  // ------------------------------------------------------------------

  /** Two live blocks never overlap. */
  lemma LiveDisjoint(h: State, a: Addr, b: Addr)
    requires Valid(h) && a in Live(h.sp) && b in Live(h.sp) && a != b
    ensures a + Live(h.sp)[a] <= b || b + Live(h.sp)[b] <= a
  {
    assert Apart(h.sp, a, b);
  }

  // The byte x belongs to the user of the block in chunk a: it is in no head word, in no other chunk (the bytes
  // of a chunk reach to the head word of the next one), and not in top.
  ghost predicate UsersByte(h: State, a: Addr, x: Addr) {
    && x < h.sp.top + 8
    && forall c :: c in h.sp.starts && c in h.sp.head ==>
      && !(c + 8 <= x < c + 16)
      && (c != a ==> !(c + 16 <= x < c + h.sp.head[c].size + 8))
  }

  ghost predicate Owns(h: State, mem: Addr, bytes: nat) {
    mem >= 16 && var a := mem - 16; forall x :: mem <= x < mem + bytes ==> UsersByte(h, a, x)
  }

  /** A chunk in use has room for all bytes but those of one word. */
  lemma LiveOwns(h: State, a: Addr, bytes: nat)
    requires Valid(h) && a in Live(h.sp) && bytes + 8 <= Live(h.sp)[a]
    ensures Owns(h, a + 16, bytes)
  {
    assert ChunkOk(h.sp, a);
    forall x | a + 16 <= x < a + 16 + bytes ensures UsersByte(h, a, x) {
      forall c | c in h.sp.starts && c in h.sp.head
        ensures !(c + 8 <= x < c + 16) && (c != a ==> !(c + 16 <= x < c + h.sp.head[c].size + 8))
      {
        assert Apart(h.sp, a, c) && ChunkOk(h.sp, c);
      }
    }
  }

  // No free chunk, and not top either, can give a chunk of size nb.
  ghost predicate Exhausted(h: State, nb: nat) {
    (forall a :: a in Free(h.sp) ==> Free(h.sp)[a] < nb) && h.topsize <= nb
  }

  // ------------------------------------------------------------------
  // Allocation steps, given what the bins have become
  // ------------------------------------------------------------------

  // What holds of a free chunk.
  lemma FreeChunk(h: State, p: Addr)
    requires Valid(h) && IsFree(h.sp, p)
    ensures p in Free(h.sp) && Free(h.sp)[p] == h.sp.head[p].size
    ensures p >= 16 && p % 32 == 16 && 32 <= h.sp.head[p].size < MAX_CHUNK && h.sp.head[p].size % 32 == 0
    ensures End(h.sp, p) in h.sp.head && End(h.sp, p) in h.sp.starts && End(h.sp, p) != h.sp.top && p != h.sp.top
    ensures p == h.dv ==> h.dvsize == h.sp.head[p].size
  {
    ChunkBounds(h, p);
    assert ChunkOk(h.sp, p);
  }

  lemma FreeAddrs(h: State)
    requires Valid(h)
    ensures 0 !in Free(h.sp)
    ensures forall a :: a in Free(h.sp) ==> IsFree(h.sp, a) && 32 <= Free(h.sp)[a] < MAX_CHUNK && Free(h.sp)[a] % 32 == 0
  {
    forall a | a in Free(h.sp)
      ensures a > 0 && IsFree(h.sp, a) && 32 <= Free(h.sp)[a] < MAX_CHUNK && Free(h.sp)[a] % 32 == 0
    {
      ChunkBounds(h, a);
    }
  }

  lemma BinsOf(h: State)
    requires Valid(h)
    ensures BinsOk(h.bins) && Linked(h.bins, Free(h.sp), h.dv) && DvOk(Free(h.sp), h.dv, h.dvsize)
  {
  }

  lemma NullIsNotFree(h: State)
    requires Valid(h)
    ensures 0 !in Free(h.sp)
  {
    FreeAddrs(h);
  }

  lemma DvSize(h: State)
    requires Valid(h)
    ensures h.dvsize < MAX_CHUNK && h.dvsize % 32 == 0
    ensures h.dvsize != 0 ==> IsFree(h.sp, h.dv) && h.sp.head[h.dv].size == h.dvsize && h.dv % 32 == 16
    ensures h.dvsize == 0 ==> h.dv == 0
  {
    if h.dvsize != 0 {
      FreeChunk(h, h.dv);
    }
  }

  // The same top.
  lemma SameTop(h: State, h': State)
    requires TopSizeOk(h) && h'.sp.top == h.sp.top && h'.topsize == h.topsize && h'.limit == h.limit
    requires h'.sp.first == h.sp.first && h.sp.top in h'.sp.head && h'.sp.head[h.sp.top].size == h.topsize
    ensures TopSizeOk(h')
  {
  }

  // A binned chunk is taken whole.
  lemma TakeBinnedOk(h: State, p: Addr, b: Bins)
    requires Valid(h) && IsFree(h.sp, p) && p != h.dv && Linked(b, Free(h.sp) - {p}, h.dv)
    ensures End(h.sp, p) in h.sp.head
    ensures Valid(h.(sp := TakeWhole(h.sp, p), bins := b))
    ensures Live(TakeWhole(h.sp, p)) == Live(h.sp)[p := h.sp.head[p].size]
  {
    FreeChunk(h, p);
    TakeWholeOk(h.sp, p);
    TakeWholeMaps(h.sp, p);
    SameTop(h, h.(sp := TakeWhole(h.sp, p), bins := b));
  }

  // The front of a binned chunk is taken, and the remainder becomes dv; the old dv was binned.
  lemma TakeForDvOk(h: State, p: Addr, nb: nat, b: Bins)
    requires Valid(h) && IsFree(h.sp, p) && p != h.dv && Linked(b, Free(h.sp) - {p}, 0)
    requires nb % 32 == 0 && nb >= 32 && nb + MIN_CHUNK_SIZE <= h.sp.head[p].size
    ensures var rsize := h.sp.head[p].size - nb;
      Valid(h.(sp := TakeSplit(h.sp, p, nb), bins := b, dv := p + nb, dvsize := rsize))
    ensures Live(TakeSplit(h.sp, p, nb)) == Live(h.sp)[p := nb]
  {
    var rsize := h.sp.head[p].size - nb;
    FreeChunk(h, p);
    FreeAddrs(h);
    TakeSplitOk(h.sp, p, nb);
    TakeSplitMaps(h.sp, p, nb);
    NewDv(b, Free(h.sp) - {p}, p + nb, rsize);
    SameTop(h, h.(sp := TakeSplit(h.sp, p, nb), bins := b, dv := p + nb, dvsize := rsize));
  }

  // No chunk begins inside another.
  lemma NotInside(h: State, p: Addr, nb: nat)
    requires Valid(h) && p in h.sp.starts && p in h.sp.head && 0 < nb < h.sp.head[p].size
    ensures p + nb !in h.sp.starts && p + nb !in Free(h.sp) && p + nb != h.dv
  {
    assert p + nb in h.sp.starts ==> Apart(h.sp, p, p + nb);
    DvSize(h);
  }

  // The front of a binned chunk is taken, and the remainder is binned.
  lemma TakeForBinOk(h: State, p: Addr, nb: nat, b: Bins)
    requires Valid(h) && IsFree(h.sp, p) && p != h.dv
    requires nb % 32 == 0 && nb >= 32 && nb + MIN_CHUNK_SIZE <= h.sp.head[p].size
    requires Linked(b, (Free(h.sp) - {p})[p + nb := h.sp.head[p].size - nb], h.dv)
    ensures Valid(h.(sp := TakeSplit(h.sp, p, nb), bins := b))
    ensures Live(TakeSplit(h.sp, p, nb)) == Live(h.sp)[p := nb]
  {
    FreeChunk(h, p);
    DvSize(h);
    TakeSplitOk(h.sp, p, nb);
    TakeSplitMaps(h.sp, p, nb);
    SameTop(h, h.(sp := TakeSplit(h.sp, p, nb), bins := b));
  }

  lemma SplitDvOk(h: State, nb: nat)
    requires Valid(h) && nb % 32 == 0 && 32 <= nb && nb + MIN_CHUNK_SIZE <= h.dvsize
    ensures IsFree(h.sp, h.dv) && h.sp.head[h.dv].size == h.dvsize
    ensures Valid(h.(sp := TakeSplit(h.sp, h.dv, nb), dv := h.dv + nb, dvsize := h.dvsize - nb))
    ensures Live(TakeSplit(h.sp, h.dv, nb)) == Live(h.sp)[h.dv := nb]
  {
    DvSize(h);
    FreeChunk(h, h.dv);
    FreeAddrs(h);
    DropDv(h.bins, Free(h.sp), h.dv);
    TakeSplitOk(h.sp, h.dv, nb);
    TakeSplitMaps(h.sp, h.dv, nb);
    NewDv(h.bins, Free(h.sp) - {h.dv}, h.dv + nb, h.dvsize - nb);
    SameTop(h, h.(sp := TakeSplit(h.sp, h.dv, nb), dv := h.dv + nb, dvsize := h.dvsize - nb));
  }

  lemma ExhaustDvOk(h: State)
    requires Valid(h) && h.dvsize > 0
    ensures IsFree(h.sp, h.dv) && End(h.sp, h.dv) in h.sp.head && h.sp.head[h.dv].size == h.dvsize
    ensures Valid(h.(sp := TakeWhole(h.sp, h.dv), dv := 0, dvsize := 0))
    ensures Live(TakeWhole(h.sp, h.dv)) == Live(h.sp)[h.dv := h.dvsize]
  {
    DvSize(h);
    FreeChunk(h, h.dv);
    FreeAddrs(h);
    DropDv(h.bins, Free(h.sp), h.dv);
    TakeWholeOk(h.sp, h.dv);
    TakeWholeMaps(h.sp, h.dv);
    SameTop(h, h.(sp := TakeWhole(h.sp, h.dv), dv := 0, dvsize := 0));
  }

  lemma TopIsLast(h: State, nb: nat)
    requires Valid(h) && nb > 0
    ensures h.sp.top + nb !in h.sp.starts && h.sp.top >= 16 && h.sp.top % 32 == 16
  {
    assert h.sp.top + nb in h.sp.starts ==> ChunkOk(h.sp, h.sp.top + nb);
  }

  lemma SplitTopOk(h: State, nb: nat)
    requires Valid(h) && nb % 32 == 0 && 32 <= nb < h.topsize
    ensures Valid(h.(sp := TakeTop(h.sp, nb, h.topsize - nb), topsize := h.topsize - nb))
    ensures Live(TakeTop(h.sp, nb, h.topsize - nb)) == Live(h.sp)[h.sp.top := nb]
  {
    TopIsLast(h, nb);
    HeapSpace.TakeTopOk(h.sp, nb, h.topsize - nb);
    TakeTopMaps(h.sp, nb, h.topsize - nb);
  }

  // ------------------------------------------------------------------
  // Release steps
  // ------------------------------------------------------------------

  // The free chunk that p makes with its free neighbours: from q to n.
  lemma Neighbours(h: State, p: Addr)
    requires Valid(h) && IsLive(h.sp, p) && p != h.sp.first
    ensures ChunkOk(h.sp, p)
    ensures !h.sp.head[p].pinuse ==> p in h.sp.foot && h.sp.foot[p] <= p
    ensures End(h.sp, p) in h.sp.head
    ensures h.sp.head[End(h.sp, p)].pinuse
    ensures End(h.sp, p) != h.sp.top ==>
      && Merges(h.sp, p, Front(h.sp, p), End(h.sp, p), Back(h.sp, p))
      && (!h.sp.head[End(h.sp, p)].cinuse ==> IsFree(h.sp, End(h.sp, p)))
    ensures End(h.sp, p) == h.sp.top ==> MergesTop(h.sp, p, Front(h.sp, p)) && !h.sp.head[End(h.sp, p)].cinuse
    ensures Front(h.sp, p) != h.sp.first
    ensures Front(h.sp, p) != p ==> IsFree(h.sp, Front(h.sp, p)) && h.sp.head[Front(h.sp, p)].size == h.sp.foot[p]
  {
    assert ChunkOk(h.sp, p);
    var q, e := Front(h.sp, p), End(h.sp, p);
    assert ChunkOk(h.sp, q);
    if e != h.sp.top {
      assert ChunkOk(h.sp, e);
    }
  }

  function Front(sp: Space, p: Addr): Addr
    requires p in sp.head && (!sp.head[p].pinuse ==> p in sp.foot && sp.foot[p] <= p)
  {
    if sp.head[p].pinuse then p else p - sp.foot[p]
  }

  function Back(sp: Space, p: Addr): Addr
    requires p in sp.head && End(sp, p) in sp.head
  {
    if sp.head[End(sp, p)].cinuse then End(sp, p) else End(sp, End(sp, p))
  }

  // The free chunks after p has joined its neighbours.
  function Joined(free: map<Addr, nat>, q: Addr, e: Addr, n: Addr): map<Addr, nat>
    requires q <= n
  {
    (free - {q} - (if n == e then {} else {e}))[q := n - q]
  }

  lemma JoinOk(h: State, p: Addr, q: Addr, e: Addr, n: Addr, b: Bins, dv: Addr, dvsize: nat)
    requires Valid(h) && Merges(h.sp, p, q, e, n) && q != h.sp.first
    requires Linked(b, Joined(Free(h.sp), q, e, n), dv) && DvOk(Joined(Free(h.sp), q, e, n), dv, dvsize)
    ensures Valid(h.(sp := Coalesce(h.sp, p, q, e, n), bins := b, dv := dv, dvsize := dvsize))
    ensures Live(Coalesce(h.sp, p, q, e, n)) == Live(h.sp) - {p}
  {
    HeapSpace.CoalesceOk(h.sp, p, q, e, n);
    CoalesceMaps(h.sp, p, q, e, n);
    SameTop(h, h.(sp := Coalesce(h.sp, p, q, e, n), bins := b, dv := dv, dvsize := dvsize));
  }

  lemma JoinTopOk(h: State, p: Addr, q: Addr, b: Bins, dv: Addr, dvsize: nat)
    requires Valid(h) && MergesTop(h.sp, p, q) && q != h.sp.first && p != h.sp.first
    requires Linked(b, Free(h.sp) - {q}, dv) && DvOk(Free(h.sp) - {q}, dv, dvsize)
    ensures var size := h.topsize + (h.sp.top - q);
      Valid(h.(sp := MergeTop(h.sp, p, q, size), bins := b, dv := dv, dvsize := dvsize, topsize := size))
    ensures Live(MergeTop(h.sp, p, q, h.topsize + (h.sp.top - q))) == Live(h.sp) - {p}
  {
    var size := h.topsize + (h.sp.top - q);
    HeapSpace.MergeTopOk(h.sp, p, q, size);
    MergeTopMaps(h.sp, p, q, size);
  }

  // p is about to join the free chunk q in front of it (or is q itself): q has left the bins, or
  // is dv.
  ghost predicate Detached(h: State, b: Bins, p: Addr, q: Addr) {
    && Valid(h) && IsLive(h.sp, p) && p != h.sp.first && ChunkOk(h.sp, p) && q == Front(h.sp, p)
    && Linked(b, Free(h.sp) - {q}, Spared(h, q))
  }

  // dv, unless it is q.
  function Spared(h: State, q: Addr): Addr {
    if q == h.dv then 0 else h.dv
  }

  function SparedSize(h: State, q: Addr): nat {
    if q == h.dv then 0 else h.dvsize
  }

  lemma DetachSelf(h: State, p: Addr)
    requires Valid(h) && IsLive(h.sp, p) && p != h.sp.first && h.sp.head[p].pinuse
    ensures Detached(h, h.bins, p, p) && p != h.dv
  {
    assert ChunkOk(h.sp, p);
    DvSize(h);
    assert Free(h.sp) - {p} == Free(h.sp);
  }

  lemma DetachDv(h: State, p: Addr)
    requires Valid(h) && IsLive(h.sp, p) && p != h.sp.first && ChunkOk(h.sp, p) && Front(h.sp, p) == h.dv && !h.sp.head[p].pinuse
    ensures Detached(h, h.bins, p, h.dv)
  {
    NullIsNotFree(h);
    DropDv(h.bins, Free(h.sp), h.dv);
  }

  lemma SparedOk(h: State, b: Bins, p: Addr, q: Addr)
    requires Detached(h, b, p, q)
    ensures DvOk(Free(h.sp) - {q}, Spared(h, q), SparedSize(h, q))
    ensures 0 !in Free(h.sp) && q > 0
  {
    NullIsNotFree(h);
    Neighbours(h, p);
  }

  // The new free chunk is dv if either neighbour was, and otherwise to be binned.
  lemma JoinAsDv(h: State, b: Bins, p: Addr, q: Addr, e: Addr, n: Addr)
    requires Detached(h, b, p, q) && Merges(h.sp, p, q, e, n)
    requires Linked(b, Free(h.sp) - {q} - (if n == e then {} else {e}), 0)
    ensures Linked(b, Joined(Free(h.sp), q, e, n), q) && DvOk(Joined(Free(h.sp), q, e, n), q, n - q)
  {
    SparedOk(h, b, p, q);
    NewDv(b, Free(h.sp) - {q} - (if n == e then {} else {e}), q, n - q);
  }

  // The size of the new chunk fits a bin, and dv stays what it is.
  lemma JoinForBin(h: State, b: Bins, p: Addr, q: Addr, e: Addr, n: Addr)
    requires Detached(h, b, p, q) && Merges(h.sp, p, q, e, n) && q != h.dv && (n != e ==> e != h.dv)
    ensures 0 < n - q < MAX_CHUNK && (n - q) % 32 == 0 && q % 32 == 16
    ensures DvOk(Joined(Free(h.sp), q, e, n), h.dv, h.dvsize)
  {
    JoinedSize(h, p, q, e, n);
    SparedOk(h, b, p, q);
    hide Valid, Merges, Linked, MAX_CHUNK;
  }

  lemma JoinedSize(h: State, p: Addr, q: Addr, e: Addr, n: Addr)
    requires Valid(h) && Merges(h.sp, p, q, e, n)
    ensures 0 < n - q < MAX_CHUNK && (n - q) % 32 == 0 && q % 32 == 16
  {
    ChunkBounds(h, q);
    ChunkBounds(h, p);
    ChunkBounds(h, e);
    ChunkBounds(h, n);
    hide Valid;
    SameResidue(q, n);
  }

  lemma SameResidue(a: nat, b: nat)
    requires a % 32 == b % 32 == 16 && a <= b
    ensures (b - a) % 32 == 0
  {
  }

  lemma DvBehind(h: State, b: Bins, p: Addr, q: Addr, e: Addr)
    requires Detached(h, b, p, q) && e == End(h.sp, p) && e != h.sp.top && e == h.dv
    ensures var n := e + h.dvsize;
      && n in h.sp.head && !h.sp.head[n].pinuse && Merges(h.sp, p, q, e, n) && q != h.sp.first
      && Linked(b, Joined(Free(h.sp), q, e, n), q) && DvOk(Joined(Free(h.sp), q, e, n), q, n - q)
  {
    Neighbours(h, p);
    ChunkBounds(h, e);
    DvSize(h);
    SparedOk(h, b, p, q);
    assert ChunkOk(h.sp, e);
    DropDv(b, Free(h.sp) - {q}, h.dv);
    JoinAsDv(h, b, p, q, e, e + h.dvsize);
  }

  lemma FreeBehind(h: State, b: Bins, p: Addr, q: Addr, e: Addr)
    requires Detached(h, b, p, q) && e == End(h.sp, p) && e != h.sp.top && e != h.dv && e in h.sp.head && !h.sp.head[e].cinuse
    ensures var f, n := Free(h.sp) - {q}, End(h.sp, e);
      && n in h.sp.head && !h.sp.head[n].pinuse && Merges(h.sp, p, q, e, n) && q != h.sp.first && e < n
      && e in f && f[e] == h.sp.head[e].size && e != Spared(h, q) && 0 < h.sp.head[e].size < MAX_CHUNK
  {
    Neighbours(h, p);
    ChunkBounds(h, e);
    assert ChunkOk(h.sp, e);
    SparedOk(h, b, p, q);
    FreeAddrs(h);
  }

  lemma UsedBehind(h: State, b: Bins, p: Addr, q: Addr, e: Addr)
    requires Detached(h, b, p, q) && e == End(h.sp, p) && e in h.sp.head && h.sp.head[e].cinuse
    ensures Merges(h.sp, p, q, e, e) && q != h.sp.first && q != e
  {
    Neighbours(h, p);
  }

  // The whole of a joined chunk becomes the new dv, because q was dv.
  lemma JoinedDv(h: State, p: Addr, q: Addr, e: Addr, n: Addr, b: Bins)
    requires Valid(h) && Merges(h.sp, p, q, e, n) && q != h.sp.first && q == h.dv
    requires Linked(b, Free(h.sp) - {q} - (if n == e then {} else {e}), 0)
    ensures Valid(h.(sp := Coalesce(h.sp, p, q, e, n), bins := b, dvsize := n - q))
    ensures Live(Coalesce(h.sp, p, q, e, n)) == Live(h.sp) - {p}
  {
    NullIsNotFree(h);
    NewDv(b, Free(h.sp) - {q} - (if n == e then {} else {e}), q, n - q);
    JoinOk(h, p, q, e, n, b, q, n - q);
  }

  lemma JoinedBinned(h: State, p: Addr, q: Addr, e: Addr, n: Addr, b: Bins)
    requires Valid(h) && Merges(h.sp, p, q, e, n) && q != h.sp.first
    requires Linked(b, Joined(Free(h.sp), q, e, n), h.dv) && DvOk(Joined(Free(h.sp), q, e, n), h.dv, h.dvsize)
    ensures Valid(h.(sp := Coalesce(h.sp, p, q, e, n), bins := b))
    ensures Live(Coalesce(h.sp, p, q, e, n)) == Live(h.sp) - {p}
  {
    JoinOk(h, p, q, e, n, b, h.dv, h.dvsize);
  }

  lemma JoinForNext(h: State, b: Bins, p: Addr, q: Addr, e: Addr, n: Addr)
    requires Detached(h, b, p, q) && Merges(h.sp, p, q, e, n) && e != h.dv
    ensures q != h.dv ==> 0 < n - q < MAX_CHUNK && (n - q) % 32 == 0 && q % 32 == 16
    ensures q != h.dv ==> DvOk(Joined(Free(h.sp), q, e, n), h.dv, h.dvsize)
    ensures q !in Free(h.sp) - {q} - {e}
  {
    if q != h.dv {
      JoinForBin(h, b, p, q, e, n);
    }
  }

  // ------------------------------------------------------------------
  // Reallocation steps
  // ------------------------------------------------------------------

  lemma CutLiveOk(h: State, p: Addr, nb: nat)
    requires Valid(h) && IsLive(h.sp, p) && nb % 32 == 0 && nb >= 32 && nb + 32 <= h.sp.head[p].size
    ensures p + nb !in h.sp.starts && p + nb > h.sp.first
    ensures Valid(h.(sp := SplitLive(h.sp, p, nb)))
    ensures Live(SplitLive(h.sp, p, nb)) == Live(h.sp)[p := nb][p + nb := h.sp.head[p].size - nb]
  {
    ChunkBounds(h, p);
    SplitLiveOk(h.sp, p, nb);
    SplitLiveMaps(h.sp, p, nb);
    SameTop(h, h.(sp := SplitLive(h.sp, p, nb)));
  }

  lemma GrowIntoTopOk(h: State, p: Addr, nb: nat)
    requires Valid(h) && IsLive(h.sp, p) && End(h.sp, p) == h.sp.top && nb % 32 == 0
    requires h.sp.head[p].size < nb < h.sp.head[p].size + h.topsize
    ensures var size := h.sp.head[p].size + h.topsize - nb;
      Valid(h.(sp := MoveTop(h.sp, p, nb, size), topsize := size))
    ensures Live(MoveTop(h.sp, p, nb, h.sp.head[p].size + h.topsize - nb)) == Live(h.sp)[p := nb]
  {
    var size := h.sp.head[p].size + h.topsize - nb;
    TopIsLast(h, nb - h.sp.head[p].size);
    MoveTopOk(h.sp, p, nb, size);
    MoveTopMaps(h.sp, p, nb, size);
  }

  // What is behind a chunk in use that is not followed by top.
  lemma Behind(h: State, p: Addr)
    requires Valid(h) && IsLive(h.sp, p)
    ensures End(h.sp, p) in h.sp.head && h.sp.head[p].size % 32 == 0 && h.topsize > 0
    ensures End(h.sp, p) != h.sp.top && !h.sp.head[End(h.sp, p)].cinuse ==>
      && IsFree(h.sp, End(h.sp, p)) && End(h.sp, End(h.sp, p)) in h.sp.head
      && Absorbs(h.sp, p, End(h.sp, p), End(h.sp, End(h.sp, p)))
    ensures End(h.sp, p) == h.dv ==> End(h.sp, p) != h.sp.top && IsFree(h.sp, h.dv) && h.sp.head[h.dv].size == h.dvsize
  {
    ChunkBounds(h, p);
    assert ChunkOk(h.sp, p);
    var x := End(h.sp, p);
    DvSize(h);
    if x != h.sp.top && !h.sp.head[x].cinuse {
      FreeChunk(h, x);
      assert ChunkOk(h.sp, x);
    } else if x == h.dv {
      FreeChunk(h, h.dv);
    }
  }

  lemma GrowIntoNextOk(h: State, p: Addr, x: Addr, n: Addr, b: Bins, dv: Addr, dvsize: nat)
    requires Valid(h) && Absorbs(h.sp, p, x, n)
    requires Linked(b, Free(h.sp) - {x}, dv) && DvOk(Free(h.sp) - {x}, dv, dvsize)
    ensures Valid(h.(sp := Absorb(h.sp, p, x, n), bins := b, dv := dv, dvsize := dvsize))
    ensures Live(Absorb(h.sp, p, x, n)) == Live(h.sp)[p := n - p]
  {
    AbsorbOk(h.sp, p, x, n);
    AbsorbMaps(h.sp, p, x, n);
    SameTop(h, h.(sp := Absorb(h.sp, p, x, n), bins := b, dv := dv, dvsize := dvsize));
  }

  lemma ShiftDvOk(h: State, p: Addr, n: Addr, r: Addr)
    requires Valid(h) && Absorbs(h.sp, p, h.dv, n) && h.dv < r < n && (r - p) % 32 == 0
    ensures Valid(h.(sp := Shift(h.sp, p, h.dv, n, r), dv := r, dvsize := n - r))
    ensures Live(Shift(h.sp, p, h.dv, n, r)) == Live(h.sp)[p := r - p]
  {
    ShiftOk(h.sp, p, h.dv, n, r);
    ShiftMaps(h.sp, p, h.dv, n, r);
    NullIsNotFree(h);
    DropDv(h.bins, Free(h.sp), h.dv);
    NewDv(h.bins, Free(h.sp) - {h.dv}, r, n - r);
    SameTop(h, h.(sp := Shift(h.sp, p, h.dv, n, r), dv := r, dvsize := n - r));
  }

  lemma ExhaustDvInto(h: State, p: Addr, n: Addr)
    requires Valid(h) && Absorbs(h.sp, p, h.dv, n)
    ensures Valid(h.(sp := Absorb(h.sp, p, h.dv, n), dv := 0, dvsize := 0))
    ensures Live(Absorb(h.sp, p, h.dv, n)) == Live(h.sp)[p := n - p]
  {
    NullIsNotFree(h);
    DropDv(h.bins, Free(h.sp), h.dv);
    GrowIntoNextOk(h, p, h.dv, n, h.bins, 0, 0);
  }

  lemma NotLive(h: State, p: Addr)
    requires p !in h.sp.starts
    ensures p !in Live(h.sp)
  {
  }

  // How far a chunk in use can grow where it is.
  ghost function Room(h: State, p: Addr): nat
    requires Valid(h) && IsLive(h.sp, p)
  {
    Behind(h, p);
    var x, size := End(h.sp, p), h.sp.head[p].size;
    if x == h.sp.top then size + h.topsize - 1
    else if h.sp.head[x].cinuse then size
    else size + h.sp.head[x].size
  }

  lemma FirstIsLive(h: State)
    requires Valid(h)
    ensures h.sp.first in Live(h.sp)
  {
  }

  // ------------------------------------------------------------------
  // The initial state
  // ------------------------------------------------------------------

  lemma NoBins(b: Bins)
    requires b.smallmap == {} && b.treemap == {} && |b.smallbins| == NSMALLBINS
    requires |b.treebins| == NTREEBINS && forall i :: 0 <= i < NTREEBINS ==> b.treebins[i] == Empty
    ensures Linked(b, map[], 0)
  {
    forall i | 0 <= i < NTREEBINS ensures TreeBinOk(b.treebins[i], i) {
      assert !b.treebins[i].Node?;
    }
    forall a, s ensures !Binned(b, a, s) {
      assert !IsSmall(s) ==> b.treebins[TreeIndex(s)] == Empty;
    }
  }

  lemma InitOk(h: State)
    requires h.sp.first % 32 == 16 && h.sp.top == h.sp.first + MSTATE_SIZE && h.sp.starts == {h.sp.first}
    requires h.sp.head == map[h.sp.first := Tag(MSTATE_SIZE, true, true), h.sp.top := Tag(h.topsize, false, true)]
    requires h.topsize > 0 && h.sp.top + h.topsize == h.limit < WORD && h.limit < h.sp.first + MAX_CHUNK && h.limit % 4 < 2
    requires h.dv == 0 && h.dvsize == 0 && h.bins.smallmap == {} && h.bins.treemap == {} && |h.bins.smallbins| == NSMALLBINS
    requires |h.bins.treebins| == NTREEBINS && forall i :: 0 <= i < NTREEBINS ==> h.bins.treebins[i] == Empty
    ensures Valid(h) && Live(h.sp) == map[h.sp.first := MSTATE_SIZE] && Owns(h, h.sp.first + 16, 936)
  {
    hide Owns;
    NoBins(h.bins);
    assert HeapSpace.Free(h.sp) == map[];
    assert ChunkOk(h.sp, h.sp.first);
    LiveOwns(h, h.sp.first, 936);
  }

  // ------------------------------------------------------------------
  // The chunks tile the segment
  // ------------------------------------------------------------------

  /** Every byte between the first chunk and top belongs to exactly one chunk. */
  lemma {:induction false} Tiling(h: State, x: Addr, a: Addr) returns (c: Addr)
    requires Valid(h) && a in h.sp.starts && a <= x < h.sp.top
    ensures c in h.sp.starts && c in h.sp.head && c <= x < End(h.sp, c)
    ensures forall d :: d in h.sp.starts && d in h.sp.head && d <= x < End(h.sp, d) ==> d == c
    decreases h.sp.top - a
  {
    ChunkBounds(h, a);
    assert ChunkOk(h.sp, a);
    if x < End(h.sp, a) {
      c := a;
      forall d | d in h.sp.starts && d in h.sp.head && d <= x < End(h.sp, d) ensures d == c {
        assert Apart(h.sp, c, d);
      }
    } else {
      c := Tiling(h, x, End(h.sp, a));
    }
  }
}
