/** The boundary-tag layout of the kernel heap's segment (src/kernel/dlmalloc.cc): head words,
    prev_foot words, and where chunks start. */
module HeapSpace {
  import opened HeapSizes

  // A head word: the size with the two bits that say whether this chunk and the one before it
  // are in use.
  datatype Tag = Tag(size: nat, cinuse: bool, pinuse: bool)

  // head and foot are memory: foot[a] is the prev_foot word of a chunk at a. Words that belong to
  // no chunk may be left over from chunks that were merged. starts is where the chunks begin, all
  // but top.
  datatype Space = Space(head: map<Addr, Tag>, foot: map<Addr, nat>, starts: set<Addr>, first: Addr, top: Addr)

  function End(sp: Space, a: Addr): Addr
    requires a in sp.head
  {
    a + sp.head[a].size
  }

  // A chunk and its tags agree with its neighbours: sizes lead from chunk to chunk up to top, the
  // pinuse bit of the next chunk is this one's cinuse bit, a free chunk has its size in its foot,
  // has a chunk in use before it and one behind it, and a clear pinuse bit leads back to the free
  // chunk in front.
  ghost predicate ChunkOk(sp: Space, a: Addr) {
    && a in sp.head && sp.first <= a
    && a % 32 == 16 && sp.head[a].size % 32 == 0 && sp.head[a].size >= 32
    && End(sp, a) <= sp.top && End(sp, a) in sp.head && (End(sp, a) in sp.starts || End(sp, a) == sp.top)
    && sp.head[End(sp, a)].pinuse == sp.head[a].cinuse
    && (!sp.head[a].cinuse ==>
        && sp.head[a].pinuse && End(sp, a) in sp.starts && sp.head[End(sp, a)].cinuse
        && End(sp, a) in sp.foot && sp.foot[End(sp, a)] == sp.head[a].size)
    && (!sp.head[a].pinuse ==>
        && a in sp.foot && sp.foot[a] <= a && (a - sp.foot[a]) in sp.starts && (a - sp.foot[a]) in sp.head
        && sp.head[a - sp.foot[a]].size == sp.foot[a] && !sp.head[a - sp.foot[a]].cinuse)
  }

  ghost predicate TopOk(sp: Space) {
    && sp.top in sp.head && sp.top !in sp.starts && sp.top % 32 == 16
    && sp.head[sp.top].pinuse && !sp.head[sp.top].cinuse
  }

  predicate IsFree(sp: Space, a: Addr) {
    a in sp.starts && a in sp.head && !sp.head[a].cinuse
  }

  predicate IsLive(sp: Space, a: Addr) {
    a in sp.starts && a in sp.head && sp.head[a].cinuse
  }

  // Two different chunks do not overlap.
  ghost predicate Apart(sp: Space, a: Addr, b: Addr) {
    a in sp.head && b in sp.head && (a < b ==> End(sp, a) <= b) && (b < a ==> End(sp, b) <= a)
  }

  ghost predicate FirstOk(sp: Space) {
    IsLive(sp, sp.first) && sp.head[sp.first].pinuse
  }

  // (The quantifiers are only instantiated on demand: a chunk leads to the next one without end.)
  ghost predicate SpaceOk(sp: Space) {
    && sp.starts <= sp.head.Keys
    && (forall a {:trigger ChunkOk(sp, a)} :: a in sp.starts ==> ChunkOk(sp, a))
    && (forall a, b {:trigger Apart(sp, a, b)} :: a in sp.starts && b in sp.starts ==> Apart(sp, a, b))
    && TopOk(sp) && FirstOk(sp)
  }

  // What the invariant says of chunk p, and of chunk a and the free chunk in front of a.
  ghost predicate Pair(sp: Space, p: Addr, a: Addr) {
    && p in sp.starts && a in sp.starts && ChunkOk(sp, p) && ChunkOk(sp, a) && Apart(sp, p, a) && TopOk(sp)
    && (!sp.head[a].pinuse ==> Apart(sp, p, a - sp.foot[a]))
  }

  // The sizes of two chunks are what they were.
  lemma ApartSame(sp: Space, sp': Space, a: Addr, b: Addr)
    requires Apart(sp, a, b) && a in sp'.head && b in sp'.head
    requires sp'.head[a].size == sp.head[a].size && sp'.head[b].size == sp.head[b].size
    ensures Apart(sp', a, b)
  {
  }

  // A chunk a other than p and r was there with the same size; no chunk overlaps p or r.
  ghost predicate Fits(sp: Space, sp': Space, p: Addr, r: Addr, a: Addr) {
    && a in sp.starts && a in sp.head && a in sp'.head && ChunkOk(sp', a) && Apart(sp', a, r)
    && (a != p ==> sp'.head[a].size == sp.head[a].size && Apart(sp', a, p))
  }

  lemma FitsApart(sp: Space, sp': Space, p: Addr, r: Addr, a: Addr, b: Addr)
    requires a != r ==> Fits(sp, sp', p, r, a)
    requires b != r ==> Fits(sp, sp', p, r, b)
    requires r in sp'.head && (a in sp.starts && b in sp.starts ==> Apart(sp, a, b))
    ensures Apart(sp', a, b)
  {
    if a != p && b != p && a != r && b != r {
      ApartSame(sp, sp', a, b);
    }
  }

  // The invariant after a change that affects only the sizes of p and r (which may be p).
  lemma Assemble(sp: Space, sp': Space, p: Addr, r: Addr)
    requires SpaceOk(sp) && sp'.starts <= sp'.head.Keys && TopOk(sp') && FirstOk(sp')
    requires r in sp'.head && (r in sp'.starts ==> ChunkOk(sp', r))
    requires forall a {:trigger Fits(sp, sp', p, r, a)} :: a in sp'.starts && a != r ==> Fits(sp, sp', p, r, a)
    ensures SpaceOk(sp')
  {
    forall a {:trigger ChunkOk(sp', a)} | a in sp'.starts ensures ChunkOk(sp', a) {
      assert a != r ==> Fits(sp, sp', p, r, a);
    }
    forall a, b {:trigger Apart(sp', a, b)} | a in sp'.starts && b in sp'.starts ensures Apart(sp', a, b) {
      assert a != r ==> Fits(sp, sp', p, r, a);
      assert b != r ==> Fits(sp, sp', p, r, b);
      assert a in sp.starts && b in sp.starts ==> Apart(sp, a, b);
      FitsApart(sp, sp', p, r, a, b);
    }
  }

  lemma PairOf(sp: Space, a: Addr, b: Addr)
    requires SpaceOk(sp) && a in sp.starts && b in sp.starts
    ensures Pair(sp, a, b)
  {
  }

  // ------------------------------------------------------------------
  // Allocation
  // ------------------------------------------------------------------

  // set_inuse_and_pinuse on a free chunk
  function TakeWhole(sp: Space, p: Addr): Space
    requires p in sp.head && End(sp, p) in sp.head
  {
    var e := End(sp, p);
    sp.(head := sp.head[p := Tag(sp.head[p].size, true, true)][e := sp.head[e].(pinuse := true)])
  }

  lemma TakeWholeAt(sp: Space, p: Addr, a: Addr)
    requires Pair(sp, p, a) && IsFree(sp, p)
    ensures ChunkOk(TakeWhole(sp, p), a) && TopOk(TakeWhole(sp, p))
    ensures TakeWhole(sp, p).head[a].size == sp.head[a].size
    ensures a == sp.first && FirstOk(sp) ==> FirstOk(TakeWhole(sp, p))
  {
    var e := End(sp, p);
    if a != p && a != e {
      assert End(sp, a) != e;
    }
  }

  lemma TakeWholeOk(sp: Space, p: Addr)
    requires SpaceOk(sp) && IsFree(sp, p)
    ensures ChunkOk(sp, p) && SpaceOk(TakeWhole(sp, p))
  {
    PairOf(sp, p, sp.first);
    TakeWholeAt(sp, p, sp.first);
    PairOf(sp, p, p);
    TakeWholeAt(sp, p, p);
    var sp' := TakeWhole(sp, p);
    forall a {:trigger Fits(sp, sp', p, p, a)} | a in sp'.starts && a != p ensures Fits(sp, sp', p, p, a) {
      PairOf(sp, p, a);
      TakeWholeAt(sp, p, a);
      ApartSame(sp, sp', a, p);
    }
    Assemble(sp, sp', p, p);
  }

  // A free chunk becomes one in use of size nb and a free remainder.
  function TakeSplit(sp: Space, p: Addr, nb: nat): Space
    requires p in sp.head && nb <= sp.head[p].size
  {
    var r, rsize := p + nb, sp.head[p].size - nb;
    sp.(head := sp.head[p := Tag(nb, true, true)][r := Tag(rsize, false, true)],
        foot := sp.foot[r + rsize := rsize],
        starts := sp.starts + {r})
  }

  lemma TakeSplitAt(sp: Space, p: Addr, nb: nat, a: Addr)
    requires Pair(sp, p, a) && IsFree(sp, p)
    requires nb % 32 == 0 && nb >= 32 && nb + 32 <= sp.head[p].size
    ensures a != p + nb && ChunkOk(TakeSplit(sp, p, nb), a)
    ensures Apart(TakeSplit(sp, p, nb), a, p + nb)
    ensures a != p ==> TakeSplit(sp, p, nb).head[a].size == sp.head[a].size && Apart(TakeSplit(sp, p, nb), a, p)
    ensures a == sp.first && FirstOk(sp) ==> FirstOk(TakeSplit(sp, p, nb))
  {
  }

  lemma TakeSplitNew(sp: Space, p: Addr, nb: nat)
    requires Pair(sp, p, p) && IsFree(sp, p)
    requires nb % 32 == 0 && nb >= 32 && nb + 32 <= sp.head[p].size
    ensures ChunkOk(TakeSplit(sp, p, nb), p + nb) && TopOk(TakeSplit(sp, p, nb))
  {
  }

  lemma TakeSplitOk(sp: Space, p: Addr, nb: nat)
    requires SpaceOk(sp) && IsFree(sp, p)
    requires nb % 32 == 0 && nb >= 32 && nb + 32 <= sp.head[p].size
    ensures p + nb !in sp.starts && p + nb != sp.top && SpaceOk(TakeSplit(sp, p, nb))
  {
    var sp', r := TakeSplit(sp, p, nb), p + nb;
    PairOf(sp, p, p);
    TakeSplitNew(sp, p, nb);
    PairOf(sp, p, sp.first);
    TakeSplitAt(sp, p, nb, sp.first);
    if r in sp.starts {
      PairOf(sp, p, r);
      TakeSplitAt(sp, p, nb, r);
    }
    forall a {:trigger Fits(sp, sp', p, r, a)} | a in sp'.starts && a != r ensures Fits(sp, sp', p, r, a) {
      PairOf(sp, p, a);
      TakeSplitAt(sp, p, nb, a);
    }
    Assemble(sp, sp', p, r);
  }

  // The front of top becomes a chunk in use.
  function TakeTop(sp: Space, nb: nat, rsize: nat): Space {
    var p, r := sp.top, sp.top + nb;
    sp.(head := sp.head[r := Tag(rsize, false, true)][p := Tag(nb, true, true)],
        starts := sp.starts + {p}, top := r)
  }

  lemma TakeTopAt(sp: Space, nb: nat, rsize: nat, a: Addr)
    requires Pair(sp, a, a) && nb % 32 == 0 && nb >= 32
    ensures ChunkOk(TakeTop(sp, nb, rsize), a) && Apart(TakeTop(sp, nb, rsize), a, sp.top)
    ensures TakeTop(sp, nb, rsize).head[a].size == sp.head[a].size
    ensures a == sp.first && FirstOk(sp) ==> FirstOk(TakeTop(sp, nb, rsize))
    ensures TopOk(TakeTop(sp, nb, rsize)) <== (sp.top + nb !in sp.starts)
    ensures a < sp.top
  {
  }

  lemma TakeTopNew(sp: Space, nb: nat, rsize: nat)
    requires TopOk(sp) && nb % 32 == 0 && nb >= 32 && sp.first <= sp.top && sp.top + nb !in sp.starts
    ensures ChunkOk(TakeTop(sp, nb, rsize), sp.top) && TopOk(TakeTop(sp, nb, rsize))
  {
  }

  lemma TakeTopOk(sp: Space, nb: nat, rsize: nat)
    requires SpaceOk(sp) && nb % 32 == 0 && nb >= 32
    ensures SpaceOk(TakeTop(sp, nb, rsize))
  {
    var sp', p := TakeTop(sp, nb, rsize), sp.top;
    PairOf(sp, sp.first, sp.first);
    TakeTopAt(sp, nb, rsize, sp.first);
    if p + nb in sp.starts {
      PairOf(sp, p + nb, p + nb);
    }
    TakeTopNew(sp, nb, rsize);
    forall a {:trigger Fits(sp, sp', p, p, a)} | a in sp'.starts && a != p ensures Fits(sp, sp', p, p, a) {
      PairOf(sp, a, a);
      TakeTopAt(sp, nb, rsize, a);
    }
    Assemble(sp, sp', p, p);
  }

  // ------------------------------------------------------------------
  // Release
  // ------------------------------------------------------------------

  // p and its free neighbours become one free chunk, from q to n; e is where p ends.
  function Coalesce(sp: Space, p: Addr, q: Addr, e: Addr, n: Addr): Space
    requires n in sp.head && q <= n
  {
    sp.(head := sp.head[n := sp.head[n].(pinuse := false)][q := Tag(n - q, false, true)],
        foot := sp.foot[n := n - q],
        starts := sp.starts - {p, e} + {q, n})
  }

  // q is p or the free chunk in front of it, n is e or the end of the free chunk there.
  ghost predicate Merges(sp: Space, p: Addr, q: Addr, e: Addr, n: Addr) {
    && IsLive(sp, p) && e == End(sp, p) && e in sp.starts && e in sp.head
    && q in sp.starts && q in sp.head && n in sp.starts && n in sp.head
    && (if sp.head[p].pinuse then q == p else IsFree(sp, q) && End(sp, q) == p)
    && (if sp.head[e].cinuse then n == e else n == End(sp, e))
    && sp.head[q].pinuse && sp.head[n].cinuse && q <= p < e <= n
  }

  lemma CoalesceOther(sp: Space, p: Addr, q: Addr, e: Addr, n: Addr, a: Addr)
    requires Merges(sp, p, q, e, n) && Pair(sp, p, a) && Pair(sp, q, a) && Pair(sp, e, a) && Pair(sp, n, a)
    requires a != q && a != p && a != e && a != n
    ensures ChunkOk(Coalesce(sp, p, q, e, n), a) && Apart(Coalesce(sp, p, q, e, n), a, q)
    ensures Coalesce(sp, p, q, e, n).head[a].size == sp.head[a].size
    ensures a == sp.first && FirstOk(sp) ==> FirstOk(Coalesce(sp, p, q, e, n))
  {
    assert a < q || a > n;
    assert End(sp, a) <= q || End(sp, a) > n;
  }

  lemma CoalesceSelf(sp: Space, p: Addr, q: Addr, e: Addr, n: Addr)
    requires Merges(sp, p, q, e, n) && Pair(sp, p, q) && Pair(sp, q, n) && Pair(sp, e, n)
    ensures ChunkOk(Coalesce(sp, p, q, e, n), q)
  {
    assert (n - q) % 32 == 0 && n - q >= 32;
  }

  lemma CoalesceNext(sp: Space, p: Addr, q: Addr, e: Addr, n: Addr)
    requires Merges(sp, p, q, e, n) && Pair(sp, p, n) && Pair(sp, q, n) && Pair(sp, e, n)
    ensures ChunkOk(Coalesce(sp, p, q, e, n), n)
    ensures Apart(Coalesce(sp, p, q, e, n), n, q) && TopOk(Coalesce(sp, p, q, e, n))
    ensures Coalesce(sp, p, q, e, n).head[n].size == sp.head[n].size
  {
  }

  lemma CoalesceAt(sp: Space, p: Addr, q: Addr, e: Addr, n: Addr, a: Addr)
    requires SpaceOk(sp) && Merges(sp, p, q, e, n) && a in Coalesce(sp, p, q, e, n).starts
    ensures ChunkOk(Coalesce(sp, p, q, e, n), a)
    ensures a != q ==>
      && a in sp.starts && Apart(Coalesce(sp, p, q, e, n), a, q)
      && Coalesce(sp, p, q, e, n).head[a].size == sp.head[a].size
  {
    if a == q {
      PairOf(sp, p, q);
      PairOf(sp, q, n);
      PairOf(sp, e, n);
      CoalesceSelf(sp, p, q, e, n);
    } else if a == n {
      PairOf(sp, p, n);
      PairOf(sp, q, n);
      PairOf(sp, e, n);
      CoalesceNext(sp, p, q, e, n);
    } else {
      PairOf(sp, p, a);
      PairOf(sp, q, a);
      PairOf(sp, e, a);
      PairOf(sp, n, a);
      CoalesceOther(sp, p, q, e, n, a);
    }
  }

  lemma CoalesceOk(sp: Space, p: Addr, q: Addr, e: Addr, n: Addr)
    requires SpaceOk(sp) && Merges(sp, p, q, e, n) && q != sp.first
    ensures SpaceOk(Coalesce(sp, p, q, e, n))
  {
    var sp' := Coalesce(sp, p, q, e, n);
    CoalesceAt(sp, p, q, e, n, q);
    CoalesceEnds(sp, p, q, e, n);
    forall a {:trigger Fits(sp, sp', q, q, a)} | a in sp'.starts && a != q ensures Fits(sp, sp', q, q, a) {
      CoalesceAt(sp, p, q, e, n, a);
    }
    Assemble(sp, sp', q, q);
  }

  lemma CoalesceEnds(sp: Space, p: Addr, q: Addr, e: Addr, n: Addr)
    requires SpaceOk(sp) && Merges(sp, p, q, e, n) && q != sp.first
    ensures FirstOk(Coalesce(sp, p, q, e, n)) && TopOk(Coalesce(sp, p, q, e, n))
  {
    assert ChunkOk(sp, q) && ChunkOk(sp, n);
  }

  // p and the free chunk in front of it join top.
  function MergeTop(sp: Space, p: Addr, q: Addr, size: nat): Space {
    sp.(head := sp.head[q := Tag(size, false, true)], starts := sp.starts - {p, q}, top := q)
  }

  ghost predicate MergesTop(sp: Space, p: Addr, q: Addr) {
    && IsLive(sp, p) && End(sp, p) == sp.top && q in sp.starts && q in sp.head
    && (if sp.head[p].pinuse then q == p else IsFree(sp, q) && End(sp, q) == p)
    && sp.head[q].pinuse && q <= p
  }

  lemma MergeTopAt(sp: Space, p: Addr, q: Addr, size: nat, a: Addr)
    requires MergesTop(sp, p, q) && Pair(sp, p, a) && Pair(sp, q, a) && a != p && a != q
    ensures ChunkOk(MergeTop(sp, p, q, size), a) && Apart(MergeTop(sp, p, q, size), a, q)
    ensures MergeTop(sp, p, q, size).head[a].size == sp.head[a].size
    ensures a == sp.first && FirstOk(sp) ==> FirstOk(MergeTop(sp, p, q, size))
  {
    assert a < q;
  }

  lemma MergeTopOk(sp: Space, p: Addr, q: Addr, size: nat)
    requires SpaceOk(sp) && MergesTop(sp, p, q) && q != sp.first && p != sp.first
    ensures SpaceOk(MergeTop(sp, p, q, size))
  {
    var sp' := MergeTop(sp, p, q, size);
    assert ChunkOk(sp, q);
    PairOf(sp, p, sp.first);
    PairOf(sp, q, sp.first);
    MergeTopAt(sp, p, q, size, sp.first);
    forall a {:trigger Fits(sp, sp', q, q, a)} | a in sp'.starts && a != q ensures Fits(sp, sp', q, q, a) {
      PairOf(sp, p, a);
      PairOf(sp, q, a);
      MergeTopAt(sp, p, q, size, a);
    }
    Assemble(sp, sp', q, q);
  }

  // ------------------------------------------------------------------
  // Reallocation
  // ------------------------------------------------------------------

  // A chunk in use becomes two: set_inuse on each.
  function SplitLive(sp: Space, p: Addr, nb: nat): Space
    requires p in sp.head && nb <= sp.head[p].size
  {
    var r := p + nb;
    sp.(head := sp.head[p := sp.head[p].(size := nb)][r := Tag(sp.head[p].size - nb, true, true)],
        starts := sp.starts + {r})
  }

  lemma SplitLiveAt(sp: Space, p: Addr, nb: nat, a: Addr)
    requires Pair(sp, p, a) && IsLive(sp, p)
    requires nb % 32 == 0 && nb >= 32 && nb + 32 <= sp.head[p].size
    ensures a != p + nb && ChunkOk(SplitLive(sp, p, nb), a)
    ensures Apart(SplitLive(sp, p, nb), a, p + nb)
    ensures a != p ==> SplitLive(sp, p, nb).head[a].size == sp.head[a].size && Apart(SplitLive(sp, p, nb), a, p)
    ensures a == sp.first && FirstOk(sp) ==> FirstOk(SplitLive(sp, p, nb))
  {
  }

  lemma SplitLiveNew(sp: Space, p: Addr, nb: nat)
    requires Pair(sp, p, p) && IsLive(sp, p)
    requires nb % 32 == 0 && nb >= 32 && nb + 32 <= sp.head[p].size
    ensures ChunkOk(SplitLive(sp, p, nb), p + nb) && TopOk(SplitLive(sp, p, nb))
  {
  }

  lemma SplitLiveOk(sp: Space, p: Addr, nb: nat)
    requires SpaceOk(sp) && IsLive(sp, p)
    requires nb % 32 == 0 && nb >= 32 && nb + 32 <= sp.head[p].size
    ensures p + nb !in sp.starts && p + nb != sp.top && SpaceOk(SplitLive(sp, p, nb))
  {
    var sp', r := SplitLive(sp, p, nb), p + nb;
    PairOf(sp, p, p);
    SplitLiveNew(sp, p, nb);
    PairOf(sp, p, sp.first);
    SplitLiveAt(sp, p, nb, sp.first);
    if r in sp.starts {
      PairOf(sp, p, r);
      SplitLiveAt(sp, p, nb, r);
    }
    forall a {:trigger Fits(sp, sp', p, r, a)} | a in sp'.starts && a != r ensures Fits(sp, sp', p, r, a) {
      PairOf(sp, p, a);
      SplitLiveAt(sp, p, nb, a);
    }
    Assemble(sp, sp', p, r);
  }

  // A chunk in use in front of top grows into it (or gives some of itself to it).
  function MoveTop(sp: Space, p: Addr, nb: nat, rsize: nat): Space
    requires p in sp.head
  {
    var r := p + nb;
    sp.(head := sp.head[p := sp.head[p].(size := nb)][r := Tag(rsize, false, true)], top := r)
  }

  lemma MoveTopAt(sp: Space, p: Addr, nb: nat, rsize: nat, a: Addr)
    requires Pair(sp, p, a) && IsLive(sp, p) && End(sp, p) == sp.top && nb % 32 == 0 && nb > sp.head[p].size
    ensures ChunkOk(MoveTop(sp, p, nb, rsize), a) && Apart(MoveTop(sp, p, nb, rsize), a, p)
    ensures a != p ==> MoveTop(sp, p, nb, rsize).head[a].size == sp.head[a].size
    ensures a == sp.first && FirstOk(sp) ==> FirstOk(MoveTop(sp, p, nb, rsize))
    ensures a != p + nb
  {
    assert a <= p;
  }

  lemma MoveTopOk(sp: Space, p: Addr, nb: nat, rsize: nat)
    requires SpaceOk(sp) && IsLive(sp, p) && End(sp, p) == sp.top && nb % 32 == 0 && nb > sp.head[p].size
    ensures SpaceOk(MoveTop(sp, p, nb, rsize))
  {
    var sp' := MoveTop(sp, p, nb, rsize);
    PairOf(sp, p, sp.first);
    MoveTopAt(sp, p, nb, rsize, sp.first);
    PairOf(sp, p, p);
    MoveTopAt(sp, p, nb, rsize, p);
    if p + nb in sp.starts {
      PairOf(sp, p, p + nb);
    }
    MoveTopNew(sp, p, nb, rsize);
    forall a {:trigger Fits(sp, sp', p, p, a)} | a in sp'.starts && a != p ensures Fits(sp, sp', p, p, a) {
      PairOf(sp, p, a);
      MoveTopAt(sp, p, nb, rsize, a);
    }
    Assemble(sp, sp', p, p);
  }

  lemma MoveTopNew(sp: Space, p: Addr, nb: nat, rsize: nat)
    requires ChunkOk(sp, p) && nb % 32 == 0 && p + nb !in sp.starts
    ensures TopOk(MoveTop(sp, p, nb, rsize))
  {
  }

  // A chunk in use absorbs the free chunk x behind it, up to n.
  function Absorb(sp: Space, p: Addr, x: Addr, n: Addr): Space
    requires p in sp.head && n in sp.head && p <= n
  {
    sp.(head := sp.head[p := sp.head[p].(size := n - p)][n := sp.head[n].(pinuse := true)],
        starts := sp.starts - {x})
  }

  ghost predicate Absorbs(sp: Space, p: Addr, x: Addr, n: Addr) {
    && IsLive(sp, p) && IsFree(sp, x) && End(sp, p) == x && End(sp, x) == n
    && n in sp.starts && n in sp.head && sp.head[n].cinuse && p < x < n
  }

  lemma AbsorbAt(sp: Space, p: Addr, x: Addr, n: Addr, a: Addr)
    requires Absorbs(sp, p, x, n) && Pair(sp, p, a) && Pair(sp, x, a) && Pair(sp, n, a) && a != x
    ensures ChunkOk(Absorb(sp, p, x, n), a) && Apart(Absorb(sp, p, x, n), a, p)
    ensures a != p ==> Absorb(sp, p, x, n).head[a].size == sp.head[a].size
    ensures a == sp.first && FirstOk(sp) ==> FirstOk(Absorb(sp, p, x, n))
    ensures TopOk(Absorb(sp, p, x, n))
  {
  }

  lemma AbsorbOk(sp: Space, p: Addr, x: Addr, n: Addr)
    requires SpaceOk(sp) && Absorbs(sp, p, x, n)
    ensures SpaceOk(Absorb(sp, p, x, n))
  {
    var sp' := Absorb(sp, p, x, n);
    AbsorbEach(sp, p, x, n, sp.first);
    AbsorbEach(sp, p, x, n, p);
    forall a {:trigger Fits(sp, sp', p, p, a)} | a in sp'.starts && a != p ensures Fits(sp, sp', p, p, a) {
      AbsorbEach(sp, p, x, n, a);
    }
    Assemble(sp, sp', p, p);
  }

  lemma AbsorbEach(sp: Space, p: Addr, x: Addr, n: Addr, a: Addr)
    requires SpaceOk(sp) && Absorbs(sp, p, x, n) && a in sp.starts && a != x
    ensures ChunkOk(Absorb(sp, p, x, n), a) && Apart(Absorb(sp, p, x, n), a, p)
    ensures a != p ==> Absorb(sp, p, x, n).head[a].size == sp.head[a].size
    ensures a == sp.first ==> FirstOk(Absorb(sp, p, x, n))
    ensures TopOk(Absorb(sp, p, x, n))
  {
    PairOf(sp, p, a);
    PairOf(sp, x, a);
    PairOf(sp, n, a);
    AbsorbAt(sp, p, x, n, a);
  }

  // A chunk in use takes the front of the free chunk x behind it, and leaves the rest free at r.
  function Shift(sp: Space, p: Addr, x: Addr, n: Addr, r: Addr): Space
    requires p in sp.head && p <= r <= n
  {
    sp.(head := sp.head[p := sp.head[p].(size := r - p)][r := Tag(n - r, false, true)],
        foot := sp.foot[n := n - r],
        starts := sp.starts - {x} + {r})
  }

  lemma ShiftAt(sp: Space, p: Addr, x: Addr, n: Addr, r: Addr, a: Addr)
    requires Absorbs(sp, p, x, n) && Pair(sp, p, a) && Pair(sp, x, a) && Pair(sp, n, a) && a != x
    requires x < r < n && (r - p) % 32 == 0
    ensures a != r && ChunkOk(Shift(sp, p, x, n, r), a)
    ensures Apart(Shift(sp, p, x, n, r), a, r)
    ensures a != p ==> Shift(sp, p, x, n, r).head[a].size == sp.head[a].size && Apart(Shift(sp, p, x, n, r), a, p)
    ensures a == sp.first && FirstOk(sp) ==> FirstOk(Shift(sp, p, x, n, r))
  {
  }

  lemma ShiftEach(sp: Space, p: Addr, x: Addr, n: Addr, r: Addr, a: Addr)
    requires SpaceOk(sp) && Absorbs(sp, p, x, n) && a in sp.starts && a != x
    requires x < r < n && (r - p) % 32 == 0
    ensures a != r && ChunkOk(Shift(sp, p, x, n, r), a)
    ensures Apart(Shift(sp, p, x, n, r), a, r)
    ensures a != p ==> Shift(sp, p, x, n, r).head[a].size == sp.head[a].size && Apart(Shift(sp, p, x, n, r), a, p)
    ensures a == sp.first ==> FirstOk(Shift(sp, p, x, n, r))
  {
    PairOf(sp, p, a);
    PairOf(sp, x, a);
    PairOf(sp, n, a);
    ShiftAt(sp, p, x, n, r, a);
  }

  lemma ShiftNew(sp: Space, p: Addr, x: Addr, n: Addr, r: Addr)
    requires Absorbs(sp, p, x, n) && Pair(sp, p, x) && Pair(sp, x, n)
    requires x < r < n && (r - p) % 32 == 0
    ensures ChunkOk(Shift(sp, p, x, n, r), r) && TopOk(Shift(sp, p, x, n, r))
  {
    assert r % 32 == 16 && (n - r) % 32 == 0 && n - r >= 32;
  }

  lemma ShiftOk(sp: Space, p: Addr, x: Addr, n: Addr, r: Addr)
    requires SpaceOk(sp) && Absorbs(sp, p, x, n) && x < r < n && (r - p) % 32 == 0
    ensures r !in sp.starts && SpaceOk(Shift(sp, p, x, n, r))
  {
    var sp' := Shift(sp, p, x, n, r);
    PairOf(sp, p, x);
    PairOf(sp, x, n);
    ShiftNew(sp, p, x, n, r);
    ShiftEach(sp, p, x, n, r, sp.first);
    if r in sp.starts {
      ShiftEach(sp, p, x, n, r, r);
    }
    forall a {:trigger Fits(sp, sp', p, r, a)} | a in sp'.starts && a != r ensures Fits(sp, sp', p, r, a) {
      ShiftEach(sp, p, x, n, r, a);
    }
    Assemble(sp, sp', p, r);
  }

  // ------------------------------------------------------------------
  // Which chunks are in use and which are free
  // ------------------------------------------------------------------

  function Live(sp: Space): map<Addr, nat> {
    map a | a in sp.starts && a in sp.head && sp.head[a].cinuse :: sp.head[a].size
  }

  function Free(sp: Space): map<Addr, nat> {
    map a | a in sp.starts && a in sp.head && !sp.head[a].cinuse :: sp.head[a].size
  }

  lemma TakeWholeMaps(sp: Space, p: Addr)
    requires SpaceOk(sp) && IsFree(sp, p) && ChunkOk(sp, p)
    ensures Live(TakeWhole(sp, p)) == Live(sp)[p := sp.head[p].size]
    ensures Free(TakeWhole(sp, p)) == Free(sp) - {p}
  {
  }

  lemma TakeSplitMaps(sp: Space, p: Addr, nb: nat)
    requires IsFree(sp, p) && nb <= sp.head[p].size && p + nb !in sp.starts
    ensures Live(TakeSplit(sp, p, nb)) == Live(sp)[p := nb]
    ensures Free(TakeSplit(sp, p, nb)) == (Free(sp) - {p})[p + nb := sp.head[p].size - nb]
  {
  }

  lemma TakeTopMaps(sp: Space, nb: nat, rsize: nat)
    requires TopOk(sp) && sp.top + nb !in sp.starts
    ensures Live(TakeTop(sp, nb, rsize)) == Live(sp)[sp.top := nb]
    ensures Free(TakeTop(sp, nb, rsize)) == Free(sp)
  {
  }

  lemma CoalesceMaps(sp: Space, p: Addr, q: Addr, e: Addr, n: Addr)
    requires Merges(sp, p, q, e, n)
    ensures Live(Coalesce(sp, p, q, e, n)) == Live(sp) - {p}
    ensures Free(Coalesce(sp, p, q, e, n)) == (Free(sp) - {q} - (if n == e then {} else {e}))[q := n - q]
  {
  }

  lemma MergeTopMaps(sp: Space, p: Addr, q: Addr, size: nat)
    requires MergesTop(sp, p, q)
    ensures Live(MergeTop(sp, p, q, size)) == Live(sp) - {p}
    ensures Free(MergeTop(sp, p, q, size)) == Free(sp) - {q}
  {
  }

  lemma SplitLiveMaps(sp: Space, p: Addr, nb: nat)
    requires IsLive(sp, p) && nb <= sp.head[p].size && p + nb !in sp.starts
    ensures Live(SplitLive(sp, p, nb)) == Live(sp)[p := nb][p + nb := sp.head[p].size - nb]
    ensures Free(SplitLive(sp, p, nb)) == Free(sp)
  {
  }

  lemma MoveTopMaps(sp: Space, p: Addr, nb: nat, rsize: nat)
    requires IsLive(sp, p) && p + nb !in sp.starts
    ensures Live(MoveTop(sp, p, nb, rsize)) == Live(sp)[p := nb]
    ensures Free(MoveTop(sp, p, nb, rsize)) == Free(sp)
  {
  }

  lemma AbsorbMaps(sp: Space, p: Addr, x: Addr, n: Addr)
    requires Absorbs(sp, p, x, n)
    ensures Live(Absorb(sp, p, x, n)) == Live(sp)[p := n - p]
    ensures Free(Absorb(sp, p, x, n)) == Free(sp) - {x}
  {
  }

  lemma ShiftMaps(sp: Space, p: Addr, x: Addr, n: Addr, r: Addr)
    requires Absorbs(sp, p, x, n) && p <= r <= n && r !in sp.starts
    ensures Live(Shift(sp, p, x, n, r)) == Live(sp)[p := r - p]
    ensures Free(Shift(sp, p, x, n, r)) == (Free(sp) - {x})[r := n - r]
  {
  }
}
