/** The bins of the kernel heap in memory (src/kernel/dlmalloc.cc): the maps are words, and all bins share the
    memory that their chunks lie in. The links make the bins that HeapBins has as values. */
module LinkedBins {
  import opened HeapSizes
  import opened TreeBin
  import opened HeapBins
  import opened TreeLinks
  import S = SmallLinks
  import M = BinMaps

  const BINS: nat := NTREEBINS + NSMALLBINS

  datatype Words = Words(base: Addr, mem: Mem, roots: seq<Addr>, smallmap: bv32, treemap: bv32)

  ghost predicate Shaped(b: Bins) {
    |b.smallbins| == NSMALLBINS && |b.treebins| == NTREEBINS
  }

  // smallbin_at: the bin as the chunk whose links are its own.
  function Header(base: Addr, i: nat): Addr {
    base + 16 * i
  }

  // The chunks of a small bin.
  function List(b: Bins, i: nat): seq<Addr>
    requires i < |b.smallbins|
  {
    if i in b.smallmap then b.smallbins[i] else []
  }

  // The chunks that the links of a bin go through; the tree bins come first.
  ghost function Cells(b: Bins, base: Addr, n: nat): set<Addr>
    requires Shaped(b) && n < BINS
  {
    if n < NTREEBINS then Foot(b.treebins[n])
    else Members([Header(base, n - NTREEBINS)] + List(b, n - NTREEBINS))
  }

  // The links of an empty small bin mean nothing: the last chunk leaves them behind.
  ghost predicate ListIs(m: Mem, bin: Addr, chunks: seq<Addr>) {
    bin in m && (chunks != [] ==> S.IsRing(m, [bin] + chunks))
  }

  ghost predicate BinIs(w: Words, b: Bins, n: nat)
    requires Shaped(b) && n < BINS && |w.roots| == NTREEBINS
  {
    if n < NTREEBINS then Rep(w.mem, w.roots[n], Bin, b.treebins[n]) && Apart(b.treebins[n])
    else ListIs(w.mem, Header(w.base, n - NTREEBINS), List(b, n - NTREEBINS))
  }

  // No chunk is in two bins.
  ghost predicate Separate(b: Bins, base: Addr)
    requires Shaped(b)
  {
    forall n: nat, k: nat :: n < BINS && k < BINS && n != k ==> Cells(b, base, n) !! Cells(b, base, k)
  }

  ghost predicate Represents(w: Words, b: Bins) {
    && Shaped(b) && |w.roots| == NTREEBINS && w.base % 16 == 8
    && (forall n: nat :: n < BINS ==> BinIs(w, b, n))
    && Separate(b, w.base) && M.MapIs(w.smallmap, b.smallmap) && M.MapIs(w.treemap, b.treemap)
  }

  // ------------------------------------------------------------------
  // One bin changes
  // ------------------------------------------------------------------

  lemma RingMember(ring: seq<Addr>, x: Addr)
    ensures x in Members(ring) <==> x in ring
  {
  }

  lemma ListFrame(m: Mem, m': Mem, bin: Addr, chunks: seq<Addr>)
    requires ListIs(m, bin, chunks) && Agree(m, m', Members([bin] + chunks))
    ensures ListIs(m', bin, chunks)
  {
    var ring := [bin] + chunks;
    RingMember(ring, ring[0]);
    if chunks != [] {
      forall i {:trigger S.Linked(m', ring, i)} | 0 <= i < |ring| ensures S.Linked(m', ring, i) {
        assert S.Linked(m, ring, i);
        IsMember(ring, i);
      }
    }
  }

  // The bins other than n are the same.
  ghost predicate OthersSame(b: Bins, b': Bins, n: nat)
    requires Shaped(b) && Shaped(b')
  {
    && (forall i: nat {:trigger b.treebins[i]} {:trigger b'.treebins[i]} :: i < NTREEBINS && i != n ==> b'.treebins[i] == b.treebins[i])
    && (forall i: nat {:trigger List(b, i)} {:trigger List(b', i)} :: i < NSMALLBINS && NTREEBINS + i != n ==> List(b', i) == List(b, i))
  }

  lemma BinFrame(w: Words, w': Words, b: Bins, b': Bins, n: nat, k: nat)
    requires Shaped(b) && Shaped(b') && OthersSame(b, b', n) && n < BINS && k < BINS && k != n
    requires |w.roots| == |w'.roots| == NTREEBINS && w'.base == w.base && (k < NTREEBINS ==> w'.roots[k] == w.roots[k])
    requires BinIs(w, b, k) && Agree(w.mem, w'.mem, Cells(b, w.base, k))
    ensures BinIs(w', b', k) && Cells(b', w.base, k) == Cells(b, w.base, k)
  {
    if k < NTREEBINS {
      Frame(w.mem, w'.mem, w.roots[k], Bin, b.treebins[k]);
    } else {
      var i: nat := k - NTREEBINS;
      assert List(b', i) == List(b, i);
      ListFrame(w.mem, w'.mem, Header(w.base, i), List(b, i));
    }
  }

  /** If one bin has become another one, of the same chunks and a new one at most, and the memory of the other bins
      has not changed, then all bins are as they should be. */
  lemma OneBin(w: Words, w': Words, b: Bins, b': Bins, n: nat, added: set<Addr>)
    requires Represents(w, b) && Shaped(b') && OthersSame(b, b', n) && n < BINS
    requires |w'.roots| == NTREEBINS && w'.base == w.base && (forall i: nat :: i < NTREEBINS && i != n ==> w'.roots[i] == w.roots[i])
    requires BinIs(w', b', n) && Cells(b', w.base, n) <= Cells(b, w.base, n) + added
    requires forall k: nat :: k < BINS ==> Cells(b, w.base, k) !! added
    requires SameOutside(w.mem, w'.mem, Cells(b, w.base, n) + added)
    requires M.MapIs(w'.smallmap, b'.smallmap) && M.MapIs(w'.treemap, b'.treemap)
    ensures Represents(w', b')
  {
    hide Cells, BinIs, List, M.MapIs, OthersSame;
    forall k: nat | k < BINS && k != n ensures BinIs(w', b', k) && Cells(b', w.base, k) == Cells(b, w.base, k) {
      assert BinIs(w, b, k) && Cells(b, w.base, k) !! Cells(b, w.base, n) && Cells(b, w.base, k) !! added;
      assert Agree(w.mem, w'.mem, Cells(b, w.base, k));
      BinFrame(w, w', b, b', n, k);
    }
    forall i: nat, k: nat | i < BINS && k < BINS && i != k ensures Cells(b', w.base, i) !! Cells(b', w.base, k) {
      assert Cells(b, w.base, i) !! Cells(b, w.base, k);
    }
  }


  // ------------------------------------------------------------------
  // The links of a small bin
  // ------------------------------------------------------------------

  // insert_small_chunk, on links.
  function ChunkIn(m: Mem, bin: Addr, f: Addr, p: Addr): Mem
    requires bin in m && f in m
  {
    S.SetLinks(S.SetBk(S.SetFd(m, bin, p), f, p), p, f, bin)
  }

  lemma ListGrows(m: Mem, bin: Addr, chunks: seq<Addr>, p: Addr)
    requires ListIs(m, bin, chunks) && p != bin && p !in chunks
    ensures chunks != [] ==> m[bin].fd in m && m[bin].fd in Members([bin] + chunks)
    ensures bin in Members([bin] + chunks)
    ensures ListIs(ChunkIn(m, bin, if chunks == [] then bin else m[bin].fd, p), bin, [p] + chunks)
    ensures Members([bin] + ([p] + chunks)) == Members([bin] + chunks) + {p}
  {
    var ring := [bin] + chunks;
    IsMember(ring, 0);
    OneMember(p);
    MembersSplit([bin], chunks);
    MembersSplit([bin], [p] + chunks);
    MembersSplit([p], chunks);
    if chunks == [] {
      S.TwoRing(m, bin, p);
    } else {
      assert S.Linked(m, ring, 0) && S.Linked(m, ring, 1);
      IsMember(ring, 1);
      S.RingGrown(m, ring, p);
      assert [bin, p] + ring[1..] == [bin] + ([p] + chunks);
    }
  }

  // unlink_small_chunk, on links.
  function ChunkOut(m: Mem, f: Addr, r: Addr): Mem
    requires f in m && r in m
  {
    if f == r then m else S.SetFd(S.SetBk(m, f, r), r, f)
  }

  lemma ListShrinks(m: Mem, bin: Addr, chunks: seq<Addr>, i: nat)
    requires ListIs(m, bin, chunks) && i < |chunks|
    ensures var p, ring := chunks[i], [bin] + chunks;
      && p in m && m[p].fd in m && m[p].bk in m && m[p].fd in Members(ring) && m[p].bk in Members(ring)
      && (m[p].fd == m[p].bk <==> |chunks| == 1) && (i == 0 ==> m[p].bk == bin)
      && ListIs(ChunkOut(m, m[p].fd, m[p].bk), bin, chunks[..i] + chunks[i + 1..])
      && Members([bin] + (chunks[..i] + chunks[i + 1..])) <= Members(ring)
  {
    var p, ring := chunks[i], [bin] + chunks;
    assert S.Linked(m, ring, i + 1);
    assert S.Linked(m, ring, TreeLinks.Next(i + 1, |ring|)) && S.Linked(m, ring, TreeLinks.Prev(i + 1, |ring|));
    IsMember(ring, TreeLinks.Next(i + 1, |ring|));
    IsMember(ring, TreeLinks.Prev(i + 1, |ring|));
    S.RingCut(m, ring, i + 1);
    assert ring[..i + 1] + ring[i + 2..] == [bin] + (chunks[..i] + chunks[i + 1..]);
    if m[p].fd == m[p].bk {
      S.SameNeighbours(chunks, bin, i);
    }
  }

  // ------------------------------------------------------------------
  // The bins of a malloc_state
  // ------------------------------------------------------------------

  // A chunk that is in no bin.
  ghost predicate Unbinned(b: Bins, base: Addr, p: Addr)
    requires Shaped(b)
  {
    p != 0 && forall n: nat :: n < BINS ==> p !in Cells(b, base, n)
  }

  lemma SmallAt(w: Words, b: Bins, i: nat)
    requires Represents(w, b) && SmallOk(b) && i < NSMALLBINS
    ensures ListIs(w.mem, Header(w.base, i), List(b, i)) && (M.Marked(w.smallmap, M.At(i)) <==> List(b, i) != [])
    ensures Cells(b, w.base, NTREEBINS + i) == Members([Header(w.base, i)] + List(b, i))
  {
    hide M.Marked, M.At;
    assert BinIs(w, b, NTREEBINS + i);
    assert i in b.smallmap ==> Ring(b.smallbins[i]);
  }

  lemma TreeAt(w: Words, b: Bins, i: nat)
    requires Represents(w, b) && TreesOk(b) && i < NTREEBINS
    ensures |w.roots| == NTREEBINS && Shaped(b) && Rep(w.mem, w.roots[i], Bin, b.treebins[i]) && Apart(b.treebins[i])
    ensures M.Marked(w.treemap, M.At(i)) <==> b.treebins[i].Node?
    ensures Cells(b, w.base, i) == Foot(b.treebins[i])
  {
    hide M.Marked, M.At, Rep, Apart;
    assert BinIs(w, b, i);
  }

  // The words after insert_small_chunk.
  lemma SmallGrown(w: Words, w': Words, b: Bins, p: Addr, s: nat)
    requires Represents(w, b) && SmallOk(b) && IsSmall(s) && Unbinned(b, w.base, p)
    requires var i, bin := SmallIndex(s), Header(w.base, SmallIndex(s));
      && w' == w.(mem := w'.mem, smallmap := if List(b, i) == [] then M.Mark(w.smallmap, i) else w.smallmap)
      && ListIs(w'.mem, bin, [p] + List(b, i)) && Members([bin] + ([p] + List(b, i))) == Members([bin] + List(b, i)) + {p}
      && SameOutside(w.mem, w'.mem, Members([bin] + List(b, i)) + {p})
    ensures Represents(w', InsertSmall(b, p, s))
  {
    hide M.Marked, M.At, M.Mark, Rep, Members, Foot;
    var i, b' := SmallIndex(s), InsertSmall(b, p, s);
    SmallAt(w, b, i);
    assert List(b', i) == [p] + List(b, i);
    M.MapMarked(w.smallmap, b.smallmap, i);
    assert i in b.smallmap ==> b.smallmap + {i} == b.smallmap;
    assert OthersSame(b, b', NTREEBINS + i);
    hide Cells, Represents, M.MapIs;
    OneBin(w, w', b, b', NTREEBINS + i, {p});
  }

  // The words after unlink_small_chunk.
  lemma SmallShrunk(w: Words, w': Words, b: Bins, p: Addr, s: nat)
    requires Represents(w, b) && SmallOk(b) && IsSmall(s) && SmallIndex(s) in b.smallmap && p in b.smallbins[SmallIndex(s)]
    requires var i, bin := SmallIndex(s), Header(w.base, SmallIndex(s)); var k := IndexOf(List(b, i), p);
      var rest := List(b, i)[..k] + List(b, i)[k + 1..];
      && w' == w.(mem := w'.mem, smallmap := if |List(b, i)| == 1 then M.Clear(w.smallmap, i) else w.smallmap)
      && ListIs(w'.mem, bin, rest) && Members([bin] + rest) <= Members([bin] + List(b, i))
      && SameOutside(w.mem, w'.mem, Members([bin] + List(b, i)))
    ensures Represents(w', UnlinkSmall(b, p, s))
  {
    hide M.Marked, M.At, M.Clear, Rep, Members, Foot;
    var i, b', list := SmallIndex(s), UnlinkSmall(b, p, s), List(b, SmallIndex(s));
    SmallAt(w, b, i);
    assert List(b', i) == list[..IndexOf(list, p)] + list[IndexOf(list, p) + 1..];
    M.MapCleared(w.smallmap, b.smallmap, i);
    assert OthersSame(b, b', NTREEBINS + i);
    assert Members([Header(w.base, i)] + list) + {} == Members([Header(w.base, i)] + list);
    hide Cells, Represents, M.MapIs;
    OneBin(w, w', b, b', NTREEBINS + i, {});
  }

  // The words after insert_large_chunk.
  lemma TreeGrown(w: Words, w': Words, b: Bins, p: Addr, s: nat)
    requires Represents(w, b) && TreesOk(b) && TreeIndex(s) < NTREEBINS && Unbinned(b, w.base, p)
    requires var i := TreeIndex(s); var t := Insert(b.treebins[i], p, s, Register(s, i));
      && w' == w.(mem := w'.mem, roots := w'.roots, treemap := if b.treebins[i].Empty? then M.Mark(w.treemap, i) else w.treemap)
      && |w'.roots| == NTREEBINS && (forall j: nat :: j < NTREEBINS && j != i ==> w'.roots[j] == w.roots[j])
      && Rep(w'.mem, w'.roots[i], Bin, t) && Apart(t)
      && Foot(t) == Foot(b.treebins[i]) + {p} && SameOutside(w.mem, w'.mem, Foot(b.treebins[i]) + {p})
    ensures Represents(w', InsertLarge(b, p, s))
  {
    hide M.Marked, M.At, M.Mark, Rep, Apart, Members, Foot;
    var i, b' := TreeIndex(s), InsertLarge(b, p, s);
    TreeAt(w, b, i);
    M.MapMarked(w.treemap, b.treemap, i);
    assert i in b.treemap ==> b.treemap + {i} == b.treemap;
    assert OthersSame(b, b', i);
    hide Cells, Represents, M.MapIs;
    OneBin(w, w', b, b', i, {p});
  }

  // The words after unlink_large_chunk.
  lemma TreeShrunk(w: Words, w': Words, b: Bins, p: Addr, s: nat)
    requires Represents(w, b) && TreesOk(b) && TreeIndex(s) < NTREEBINS
    requires var i := TreeIndex(s); var t := Unlink(b.treebins[i], p, s, Register(s, i));
      && w' == w.(mem := w'.mem, roots := w'.roots, treemap := if t.Empty? then M.Clear(w.treemap, i) else w.treemap)
      && |w'.roots| == NTREEBINS && (forall j: nat :: j < NTREEBINS && j != i ==> w'.roots[j] == w.roots[j])
      && Rep(w'.mem, w'.roots[i], Bin, t) && Apart(t)
      && Foot(t) == Foot(b.treebins[i]) - {p} && SameOutside(w.mem, w'.mem, Foot(b.treebins[i]))
    ensures Represents(w', UnlinkLarge(b, p, s))
  {
    hide M.Marked, M.At, M.Clear, Rep, Apart, Members, Foot;
    var i, b' := TreeIndex(s), UnlinkLarge(b, p, s);
    TreeAt(w, b, i);
    M.MapCleared(w.treemap, b.treemap, i);
    assert OthersSame(b, b', i);
    assert Foot(b.treebins[i]) + {} == Foot(b.treebins[i]);
    hide Cells, Represents, M.MapIs;
    OneBin(w, w', b, b', i, {});
  }

  class Links {
    const base: Addr                    // smallbin_at(M, 0)
    var mem: Mem
    var roots: seq<Addr>                // treebins
    var smallmap: bv32
    var treemap: bv32

    function Now(): Words
      reads this
    {
      Words(base, mem, roots, smallmap, treemap)
    }

    // The links and the map words make these bins.
    ghost predicate Is(b: Bins)
      reads this
    {
      Represents(Now(), b)
    }

    // init_bins: a small bin links to itself.
    constructor (base: Addr)
      requires base % 16 == 8
      ensures Is(NoChunks()) && this.base == base
    {
      this.base := base;
      mem := map a: Addr | a in Headers(base) :: TreeChunk(0, a, a, 0, 0, Null);
      roots := seq(NTREEBINS, _ => 0);
      smallmap, treemap := 0, 0;
      new;
      NothingBinned(Now());
    }

    /** insert_chunk: the links make the bins with the chunk inserted. */
    method InsertChunk(p: Addr, s: nat, ghost b: Bins)
      requires Is(b) && BinsOk(b) && 0 < s < MAX_CHUNK && Unbinned(b, base, p)
      modifies `mem, `roots, `smallmap, `treemap
      ensures Is(HeapBins.InsertChunk(b, p, s))
    {
      hide Represents, BinsOk, SameOutside;
      ghost var w := Now();
      BothOk(b);
      if IsSmall(s) {
        var i := SmallIndex(s);
        SmallAt(w, b, i);
        NotInSmall(b, base, i, p);
        InsertSmall(i, p, List(b, i));
        SmallGrown(w, Now(), b, p, s);
      } else {
        InsertTree(p, s, b);
      }
    }

    method InsertTree(p: Addr, s: nat, ghost b: Bins)
      requires Is(b) && TreesOk(b) && MIN_LARGE_SIZE <= s < MAX_CHUNK && Unbinned(b, base, p)
      modifies `mem, `roots, `treemap
      ensures Is(HeapBins.InsertLarge(b, p, s))
    {
      hide Represents, M.Marked, M.At, M.Mark, Rep, Apart, Members, Foot, TreesOk, SameOutside, Steers, Register, TreeIndex;
      ghost var w := Now();
      RegisterSteers(s);
      var i := TreeIndex(s);
      TreeAt(w, b, i);
      assert p !in Cells(b, base, i);
      InsertLarge(i, p, s, Register(s, i), b.treebins[i]);
      TreeGrown(w, Now(), b, p, s);
    }

    /** unlink_chunk: the links make the bins with the chunk unlinked. */
    method UnlinkChunk(p: Addr, s: nat, ghost b: Bins)
      requires Is(b) && BinsOk(b) && 0 < s < MAX_CHUNK && Binned(b, p, s)
      modifies `mem, `roots, `smallmap, `treemap
      ensures Is(HeapBins.UnlinkChunk(b, p, s))
    {
      hide Represents, BinsOk, SameOutside;
      ghost var w := Now();
      BothOk(b);
      if IsSmall(s) {
        var i := SmallIndex(s);
        SmallAt(w, b, i);
        UnlinkSmall(i, p, List(b, i), IndexOf(List(b, i), p));
        SmallShrunk(w, Now(), b, p, s);
      } else {
        UnlinkTree(p, s, b);
      }
    }

    method UnlinkTree(p: Addr, s: nat, ghost b: Bins)
      requires Is(b) && TreesOk(b) && MIN_LARGE_SIZE <= s < MAX_CHUNK && In(b.treebins[TreeIndex(s)], p, s)
      modifies `mem, `roots, `treemap
      ensures Is(HeapBins.UnlinkLarge(b, p, s))
    {
      hide Represents, M.Marked, M.At, M.Clear, Rep, Apart, Members, Foot, SameOutside, Steers, Register, TreeIndex, InOrder;
      ghost var w := Now();
      RegisterSteers(s);
      var i := TreeIndex(s);
      TreeAt(w, b, i);
      assert TreeBinOk(b.treebins[i], i);
      UnlinkLarge(i, p, b.treebins[i], s, Register(s, i), BinLow(i), BinWidth(i), LeftShift(i));
      TreeShrunk(w, Now(), b, p, s);
    }

    // insert_small_chunk: the chunk is the first of its bin, and the bit is set.
    method InsertSmall(i: nat, p: Addr, ghost chunks: seq<Addr>)
      requires i < NSMALLBINS && ListIs(mem, Header(base, i), chunks) && p != Header(base, i) && p !in chunks
      requires M.Marked(smallmap, M.At(i)) <==> chunks != []
      modifies `mem, `smallmap
      ensures ListIs(mem, Header(base, i), [p] + chunks)
      ensures Members([Header(base, i)] + ([p] + chunks)) == Members([Header(base, i)] + chunks) + {p}
      ensures SameOutside(old(mem), mem, Members([Header(base, i)] + chunks) + {p})
      ensures smallmap == if chunks == [] then M.Mark(old(smallmap), i) else old(smallmap)
    {
      hide ListIs, Members, M.Marked, M.At, M.Mark;
      var bin := Header(base, i);
      ListGrows(mem, bin, chunks, p);
      HeaderThere(mem, bin, chunks);
      var f := bin;
      if !M.Marked(smallmap, M.At(i)) {
        smallmap := M.Mark(smallmap, i);
      } else {
        f := mem[bin].fd;
      }
      mem := S.SetFd(mem, bin, p);
      mem := S.SetBk(mem, f, p);
      mem := S.SetLinks(mem, p, f, bin);
    }

    // unlink_small_chunk: exactly that chunk is gone, and the bit is cleared with the last one.
    method UnlinkSmall(i: nat, p: Addr, ghost chunks: seq<Addr>, ghost k: nat)
      requires i < NSMALLBINS && ListIs(mem, Header(base, i), chunks) && k < |chunks| && chunks[k] == p
      modifies `mem, `smallmap
      ensures ListIs(mem, Header(base, i), chunks[..k] + chunks[k + 1..])
      ensures Members([Header(base, i)] + (chunks[..k] + chunks[k + 1..])) <= Members([Header(base, i)] + chunks)
      ensures SameOutside(old(mem), mem, Members([Header(base, i)] + chunks))
      ensures smallmap == if |chunks| == 1 then M.Clear(old(smallmap), i) else old(smallmap)
    {
      hide ListIs, Members, M.Clear;
      ListShrinks(mem, Header(base, i), chunks, k);
      var f, b := mem[p].fd, mem[p].bk;
      if b == f {
        smallmap := M.Clear(smallmap, i);
      } else {
        mem := S.SetBk(mem, f, b);
        mem := S.SetFd(mem, b, f);
      }
    }

    /** unlink_first_small_chunk: the same for the first chunk of a bin, whose other neighbour is the bin. */
    method UnlinkFirst(i: nat, p: Addr, ghost chunks: seq<Addr>)
      requires i < NSMALLBINS && ListIs(mem, Header(base, i), chunks) && chunks != [] && p == chunks[0]
      modifies `mem, `smallmap
      ensures ListIs(mem, Header(base, i), chunks[1..])
      ensures Members([Header(base, i)] + chunks[1..]) <= Members([Header(base, i)] + chunks)
      ensures SameOutside(old(mem), mem, Members([Header(base, i)] + chunks))
      ensures smallmap == if |chunks| == 1 then M.Clear(old(smallmap), i) else old(smallmap)
    {
      hide ListIs, Members, M.Clear;
      var bin := Header(base, i);
      ListShrinks(mem, bin, chunks, 0);
      assert chunks[..0] + chunks[1..] == chunks[1..];
      var f := mem[p].fd;
      if bin == f {
        smallmap := M.Clear(smallmap, i);
      } else {
        mem := S.SetBk(mem, f, bin);
        mem := S.SetFd(mem, bin, f);
      }
    }

    /** insert_large_chunk: the links make the trie with the chunk inserted. */
    method InsertLarge(i: nat, x: Addr, size: nat, k0: nat, ghost t: Trie)
      requires i < NTREEBINS == |roots| && Rep(mem, roots[i], Bin, t) && Apart(t) && x !in Foot(t) && x != 0
      requires M.Marked(treemap, M.At(i)) <==> t.Node?
      modifies `mem, `roots, `treemap
      ensures |roots| == NTREEBINS && (forall j: nat :: j < NTREEBINS && j != i ==> roots[j] == old(roots)[j])
      ensures Rep(mem, roots[i], Bin, Insert(t, x, size, k0)) && Apart(Insert(t, x, size, k0))
      ensures Foot(Insert(t, x, size, k0)) == Foot(t) + {x} && SameOutside(old(mem), mem, Foot(t) + {x})
      ensures treemap == if t.Empty? then M.Mark(old(treemap), i) else old(treemap)
    {
      hide Rep, Apart, Members, Foot, M.Marked, M.At, M.Mark;
      InsertApart(t, x, size, k0);
      ghost var root := roots[i];
      RootThere(mem, root, Bin, t);
      if !M.Marked(treemap, M.At(i)) {
        treemap := M.Mark(treemap, i);
        roots := roots[i := x];
        mem := mem[x := TreeChunk(size, x, x, 0, 0, Bin)];
        FirstChunk(mem, x, size, k0);
        return;
      }
      var b: Addr, k: nat := roots[i], k0;
      ghost var s := t;
      PlugRoot(t, Insert(t, x, size, k0));
      while mem[b].size != size
        invariant mem == old(mem) && roots == old(roots) && treemap == old(treemap)
        invariant IsBase(t, b) && s == Subtree(t, b) && b in mem && Rep(mem, b, mem[b].parent, s) && s.size == mem[b].size
        invariant Plug(t, b, Insert(s, x, size, k)) == Insert(t, x, size, k0)
        decreases s
      {
        InsertDown(t, b, x, size, k);
        Child(mem, b, mem[b].parent, s, SignBit(k));
        var c := if SignBit(k) then mem[b].right else mem[b].left;
        if c == 0 {
          SubtreeApart(t, b);
          BaseInFoot(t, b);
          ghost var m := mem;
          mem := mem[b := if SignBit(k) then mem[b].(right := x) else mem[b].(left := x)];
          mem := mem[x := TreeChunk(size, x, x, 0, 0, Chunk(b))];
          AttachLeaf(m, mem, b, m[b].parent, s, x, size, SignBit(k));
          RootThere(m, b, m[b].parent, s);
          Inside(m, mem, root, Bin, t, b, Insert(s, x, size, k));
          return;
        }
        b, k := c, Shl1(k);
        s := Subtree(t, b);
      }
      SubtreeApart(t, b);
      BaseInFoot(t, b);
      AttachRing(mem, b, mem[b].parent, s, x);
      ghost var m := mem;
      var f := mem[b].fd;
      mem := mem[b := mem[b].(fd := x)];
      mem := mem[f := mem[f].(bk := x)];
      mem := mem[x := TreeChunk(size, f, b, 0, 0, Null)];
      assert mem == Spliced(m, b, x, size);
      RingOutside(m, b, m[b].parent, s, x);
      Inside(m, mem, root, Bin, t, b, Insert(s, x, size, k));
    }

    // The rightmost leaf below x leaves its parent; 0 when there is nothing below x.
    method TakeLeaf(x: Addr, ghost par: Link, ghost s: Trie) returns (r: Addr)
      requires s.Node? && Rep(mem, x, par, s) && Apart(s) && s.ring == [x] && x in mem
      modifies `mem
      ensures r == 0 <==> s.right.Empty? && s.left.Empty?
      ensures r == 0 ==> mem == old(mem)
      ensures r != 0 ==>
        var c := if s.right.Node? then s.right else s.left;
        && c.ring != [] && RightmostLeaf(c).ring != [] && r == RightmostLeaf(c).ring[0]
        && var (o, side) := LeafSlot(c, x, s.right.Node?); o in old(mem) && mem == SetChild(old(mem), o, side, 0)
    {
      hide Rep, Apart, Members, Foot;
      Child(mem, x, par, s, true);
      Child(mem, x, par, s, false);
      var rp, side := x, mem[x].right != 0;
      r := if side then mem[x].right else mem[x].left;
      if r == 0 {
        return;
      }
      ghost var c := if s.right.Node? then s.right else s.left;
      ghost var cur := c;
      Child(mem, r, Chunk(x), cur, true);
      Child(mem, r, Chunk(x), cur, false);
      while mem[r].right != 0 || mem[r].left != 0
        invariant mem == old(mem) && rp in mem && cur.Node? && r in mem && Rep(mem, r, Chunk(rp), cur) && cur.ring != [] && cur.ring[0] == r
        invariant (mem[r].right != 0 <==> cur.right.Node?) && (mem[r].left != 0 <==> cur.left.Node?)
        invariant RightmostLeaf(cur) == RightmostLeaf(c) && LeafSlot(cur, rp, side) == LeafSlot(c, x, s.right.Node?)
        decreases cur
      {
        Child(mem, r, Chunk(rp), cur, true);
        Child(mem, r, Chunk(rp), cur, false);
        if mem[r].right != 0 {
          rp, side, r := r, true, mem[r].right;
          cur := cur.right;
        } else {
          rp, side, r := r, false, mem[r].left;
          cur := cur.left;
        }
        Child(mem, r, Chunk(rp), cur, true);
        Child(mem, r, Chunk(rp), cur, false);
      }
      RootThere(mem, r, Chunk(rp), cur);
      mem := SetChild(mem, rp, side, 0);
    }

    // r takes the place of x under its parent, and what x has below it.
    method TakePlace(i: nat, x: Addr, r: Addr, xp: Link)
      requires i < NTREEBINS == |roots| && x in mem && (xp.Chunk? ==> xp.a in mem) && xp != Null && (xp == Bin <==> x == roots[i])
      requires r != 0 ==> CanMove(Relink(mem, xp, x, r), x, r)
      modifies `mem, `roots, `treemap
      ensures roots == if xp == Bin then old(roots)[i := r] else old(roots)
      ensures treemap == if xp == Bin && r == 0 then M.Clear(old(treemap), i) else old(treemap)
      ensures mem == var m := Relink(old(mem), xp, x, r); if r == 0 then m else Moved(m, x, r, xp)
    {
      hide M.Clear;
      if x == roots[i] {
        roots := roots[i := r];
        if r == 0 {
          treemap := M.Clear(treemap, i);
        }
      } else if mem[xp.a].left == x {
        mem := mem[xp.a := mem[xp.a].(left := r)];
      } else {
        mem := mem[xp.a := mem[xp.a].(right := r)];
      }
      if r != 0 {
        var c0, c1 := mem[x].left, mem[x].right;
        mem := mem[r := mem[r].(parent := xp)];
        if c0 != 0 {
          mem := mem[r := mem[r].(left := c0)];
          mem := mem[c0 := mem[c0].(parent := Chunk(r))];
        }
        if c1 != 0 {
          mem := mem[r := mem[r].(right := c1)];
          mem := mem[c1 := mem[c1].(parent := Chunk(r))];
        }
      }
    }

    /** unlink_large_chunk: the links make the trie with the chunk unlinked. */
    method UnlinkLarge(i: nat, x: Addr, ghost t: Trie, ghost size: nat, ghost k: nat, ghost lo: nat, ghost width: nat, ghost scale: nat)
      requires i < NTREEBINS == |roots| && Rep(mem, roots[i], Bin, t) && Apart(t) && In(t, x, size)
      requires InOrder(t, lo, width) && Steers(k, size, lo, width, scale) && IsPowerOf2(width)
      modifies `mem, `roots, `treemap
      ensures |roots| == NTREEBINS && (forall j: nat :: j < NTREEBINS && j != i ==> roots[j] == old(roots)[j])
      ensures Rep(mem, roots[i], Bin, Unlink(t, x, size, k)) && Apart(Unlink(t, x, size, k))
      ensures Foot(Unlink(t, x, size, k)) == Foot(t) - {x} && SameOutside(old(mem), mem, Foot(t))
      ensures treemap == if Unlink(t, x, size, k).Empty? then M.Clear(old(treemap), i) else old(treemap)
    {
      hide M.Clear, Rep, Apart, Members, Foot, Moved, InOrder, Steers, IsPowerOf2, RightmostLeaf, SameOutside;
      ghost var b := Locate(t, x, size, k, lo, width, scale);
      ghost var m, s, root := mem, Subtree(t, b), roots[i];
      UnlinkSides(m, root, t, b, x);
      ParentInside(m, root, t, b);
      var xp := mem[x].parent;
      var r: Addr;
      if mem[x].bk != x {
        var f := mem[x].fd;
        r := mem[x].bk;
        mem := mem[f := mem[f].(bk := r)];
        mem := mem[r := mem[r].(fd := f)];
        assert mem == Bypassed(m, x);
        if x == b {
          FirstCase(m, xp, s, x);
        }
      } else {
        r := TakeLeaf(x, xp, s);
        if r != 0 {
          LeafCase(m, xp, s, x, s.right.Node?);
        } else {
          NothingThere(m, xp);
        }
      }
      if xp == Null {
        RingCase(m, b, m[b].parent, s, x);
        Outside(m, mem, mem, Null, x, r, Foot(s), Foot(t));
        Inside(m, mem, root, Bin, t, b, Without(s, x));
        RootThere(mem, root, Bin, Unlink(t, x, size, k));
        return;
      }
      ghost var m1 := mem;
      ghost var moved := if r == 0 then m1 else Moved(m1, x, r, xp);
      Outside(m, m1, moved, xp, x, r, Foot(s), Foot(t));
      Placed(m, moved, root, t, x, r, Without(s, x));
      if r != 0 {
        RelinkFirst(m1, xp, x, r, Foot(s));
      }
      TakePlace(i, x, r, xp);
      RootThere(mem, roots[i], Bin, Unlink(t, x, size, k));
    }
  }

  lemma ParentInside(m: Mem, a: Addr, t: Trie, b: Addr)
    requires Rep(m, a, Bin, t) && IsBase(t, b) && Apart(t)
    ensures Foot(Subtree(t, b)) <= Foot(t) && b in m && (m[b].parent.Chunk? ==> m[b].parent.a in Foot(t)) && a != 0
  {
    hide Members;
    ParentOf(m, a, Bin, t, b);
    BaseInFoot(t, b);
    RootThere(m, a, Bin, t);
  }

  // What the unlinking of a chunk leaves alone.
  lemma Outside(m: Mem, m1: Mem, moved: Mem, xp: Link, x: Addr, r: Addr, foot: set<Addr>, all: set<Addr>)
    requires m1 == m || SameOutside(m, m1, foot)
    requires moved == m1 || SameOutside(m1, moved, foot)
    requires foot <= all && (xp.Chunk? ==> xp.a in all && xp.a in m && xp.a !in foot)
    ensures SameOutside(m, moved, foot) && (xp.Chunk? ==> xp.a in moved) && SameOutside(m, Relink(moved, xp, x, r), all)
    ensures forall y :: y in all && y in m && y !in foot ==> y in moved && moved[y] == m[y]
  {
  }

  function Headers(base: Addr): set<Addr> {
    set i | 0 <= i < NSMALLBINS :: Header(base, i)
  }

  function NoChunks(): Bins {
    Bins({}, seq(NSMALLBINS, _ => []), {}, seq(NTREEBINS, _ => Empty))
  }

  lemma NothingBinned(w: Words)
    requires w.base % 16 == 8 && w.roots == seq(NTREEBINS, _ => 0) && w.smallmap == 0 && w.treemap == 0
    requires forall i: nat :: i < NSMALLBINS ==> Header(w.base, i) in w.mem
    ensures Represents(w, NoChunks())
  {
    var b := NoChunks();
    M.NoBins();
    forall i: nat | i < NSMALLBINS ensures Cells(b, w.base, NTREEBINS + i) == {Header(w.base, i)} {
      assert [Header(w.base, i)] + List(b, i) == [Header(w.base, i)];
      OneMember(Header(w.base, i));
    }
    forall n: nat | n < BINS ensures BinIs(w, b, n) && Cells(b, w.base, n) == if n < NTREEBINS then {} else {Header(w.base, n - NTREEBINS)} {
      if n >= NTREEBINS {
        var i: nat := n - NTREEBINS;
        assert NTREEBINS + i == n;
      }
    }
  }

  lemma BaseIs(w: Words, b: Bins)
    requires Represents(w, b)
    ensures w.base % 16 == 8
  {
  }

  lemma NoneThere()
    ensures var b := NoChunks(); Shaped(b) && b.smallmap == {} && b.treemap == {} && forall i :: 0 <= i < NTREEBINS ==> b.treebins[i] == Empty
  {
  }

  lemma BothOk(b: Bins)
    requires BinsOk(b)
    ensures SmallOk(b) && TreesOk(b) && Shaped(b)
  {
  }

  lemma {:induction false} FootIn(t: Trie, p: Addr) returns (s: nat)
    requires p in Foot(t)
    ensures In(t, p, s) && Sized(t, s)
  {
    if p in t.ring {
      s := t.size;
    } else if p in Foot(t.left) {
      s := FootIn(t.left, p);
    } else {
      RingMember(t.ring, p);
      s := FootIn(t.right, p);
    }
  }

  /** A chunk that is in no bin for any size is on no link. (A chunk is at 16 modulo 32, so it is not a bin.) */
  lemma NowhereLinked(b: Bins, base: Addr, p: Addr)
    requires BinsOk(b) && (forall s: nat :: !Binned(b, p, s)) && base % 16 == 8 && p % 16 == 0 && p != 0
    ensures Unbinned(b, base, p)
  {
    forall n: nat | n < BINS ensures p !in Cells(b, base, n) {
      if n < NTREEBINS {
        NotInTree(b, n, p);
      } else {
        NotInList(b, base, n - NTREEBINS, p);
      }
    }
  }

  lemma NotInTree(b: Bins, i: nat, p: Addr)
    requires BinsOk(b) && i < NTREEBINS && forall s: nat :: !Binned(b, p, s)
    ensures p !in Foot(b.treebins[i])
  {
    assert TreeBinOk(b.treebins[i], i);
    if p in Foot(b.treebins[i]) {
      var s := FootIn(b.treebins[i], p);
      assert Binned(b, p, s);
    }
  }

  lemma NotInList(b: Bins, base: Addr, i: nat, p: Addr)
    requires BinsOk(b) && i < NSMALLBINS && !Binned(b, p, 8 * i) && base % 16 == 8 && p % 16 == 0
    ensures p !in Members([Header(base, i)] + List(b, i))
  {
    hide TreesOk, Members;
    RingMember([Header(base, i)] + List(b, i), p);
    assert Header(base, i) % 16 == 8;
  }

  lemma NotInSmall(b: Bins, base: Addr, i: nat, p: Addr)
    requires Shaped(b) && i < NSMALLBINS && Unbinned(b, base, p)
    ensures p != Header(base, i) && p !in List(b, i)
  {
    var ring := [Header(base, i)] + List(b, i);
    assert p !in Cells(b, base, NTREEBINS + i);
    RingMember(ring, p);
    assert ring[0] == Header(base, i) && forall k :: 0 <= k < |List(b, i)| ==> List(b, i)[k] == ring[k + 1];
  }

  lemma HeaderThere(m: Mem, bin: Addr, chunks: seq<Addr>)
    requires ListIs(m, bin, chunks)
    ensures bin in m
  {
  }


  // ------------------------------------------------------------------
  // What the debug traversal asserts of the links
  // ------------------------------------------------------------------

  // The chunk u stands between its neighbours.
  ghost predicate Doubly(m: Mem, u: Addr) {
    && u in m && m[u].fd in m && m[m[u].fd].bk == u
    && m[u].bk in m && m[m[u].bk].fd == u
  }

  ghost predicate ChildAsserts(m: Mem, u: Addr, c: Addr)
  {
    c != 0 ==> c in m && c != u && m[c].parent == Chunk(u)
  }

  // do_check_tree on the chunk u of the tree whose root is a.
  ghost predicate TreeAsserts(m: Mem, a: Addr, par: Link, u: Addr) {
    && Doubly(m, u)
    && (m[u].parent == Null ==> m[u].left == 0 && m[u].right == 0)
    && (m[u].parent != Null ==>
      && m[u].parent != Chunk(u) && ChildAsserts(m, u, m[u].left) && ChildAsserts(m, u, m[u].right)
      && (m[u].left != 0 && m[u].right != 0 ==> m[m[u].left].size < m[m[u].right].size)
      && (if u == a then m[u].parent == par
          else m[u].parent.Chunk? && m[u].parent.a in m && (m[m[u].parent.a].left == u || m[m[u].parent.a].right == u)))
  }

  lemma RingAsserts(m: Mem, ring: seq<Addr>, size: nat, k: nat)
    requires RingLinks(m, ring, size) && Ring(ring) && k < |ring|
    ensures Doubly(m, ring[k]) && m[ring[k]].size == size
    ensures k > 0 ==> m[ring[k]].parent == Null && m[ring[k]].left == 0 && m[ring[k]].right == 0
  {
    assert Linked(m, ring, k, size);
    assert Linked(m, ring, TreeLinks.Next(k, |ring|), size) && Linked(m, ring, TreeLinks.Prev(k, |ring|), size);
  }

  // The chunk that is in the tree.
  lemma RootAsserts(m: Mem, a: Addr, par: Link, t: Trie, lo: nat, width: nat)
    requires t.Node? && Rep(m, a, par, t) && Apart(t) && InOrder(t, lo, width) && par != Null && par != Chunk(a)
    ensures TreeAsserts(m, a, par, a)
  {
    hide RingLinks, Members, Doubly;
    FirstMember(m, t.ring, t.size);
    RingAsserts(m, t.ring, t.size, 0);
    Child(m, a, par, t, true);
    Child(m, a, par, t, false);
    RootOf(m, m[a].left, Chunk(a), t.left);
    RootOf(m, m[a].right, Chunk(a), t.right);
  }

  /** Every chunk of a tree passes what do_check_tree asserts of its links, and has a size of the tree. */
  lemma {:induction false} TreePasses(m: Mem, a: Addr, par: Link, t: Trie, lo: nat, width: nat, u: Addr)
    requires Rep(m, a, par, t) && Apart(t) && InOrder(t, lo, width) && u in Foot(t) && par != Null && par != Chunk(a)
    ensures TreeAsserts(m, a, par, u) && In(t, u, m[u].size) && Sized(t, m[u].size)
    decreases t
  {
    hide RingLinks, Doubly, Members;
    FirstMember(m, t.ring, t.size);
    RingMember(t.ring, u);
    RootAsserts(m, a, par, t, lo, width);
    if u in t.ring {
      var k := IndexOf(t.ring, u);
      RingAsserts(m, t.ring, t.size, k);
    } else if u in Foot(t.left) {
      ChildPasses(m, a, par, t, false);
      TreePasses(m, m[a].left, Chunk(a), t.left, lo, width / 2, u);
    } else {
      ChildPasses(m, a, par, t, true);
      TreePasses(m, m[a].right, Chunk(a), t.right, lo + width / 2, width / 2, u);
    }
  }

  lemma ChildPasses(m: Mem, a: Addr, par: Link, t: Trie, right: bool)
    requires t.Node? && a in m && Rep(m, a, par, t) && Apart(t)
    ensures var c, s := if right then m[a].right else m[a].left, if right then t.right else t.left;
      Rep(m, c, Chunk(a), s) && (s.Node? ==> c != a && c != 0) && a !in Foot(s) && Apart(s)
  {
    hide RingLinks, Members;
    FirstMember(m, t.ring, t.size);
    var c, s := if right then m[a].right else m[a].left, if right then t.right else t.left;
    RootOf(m, c, Chunk(a), s);
    Child(m, a, par, t, right);
  }


  /** do_check_treebin: the bit is set exactly when the bin has a root, and every chunk passes. */
  lemma TreeBinPasses(w: Words, b: Bins, i: nat)
    requires Represents(w, b) && BinsOk(b) && i < NTREEBINS
    ensures |w.roots| == NTREEBINS && (M.Marked(w.treemap, M.At(i)) <==> w.roots[i] != 0)
    ensures forall u :: u in Foot(b.treebins[i]) ==>
      && TreeAsserts(w.mem, w.roots[i], Bin, u) && In(b.treebins[i], u, w.mem[u].size)
      && MIN_LARGE_SIZE <= w.mem[u].size && TreeIndex(w.mem[u].size) == i
  {
    hide Represents, M.Marked, M.At, Rep, Apart, Foot, InOrder, TreeAsserts;
    TreeAt(w, b, i);
    RootThere(w.mem, w.roots[i], Bin, b.treebins[i]);
    assert TreeBinOk(b.treebins[i], i);
    forall u | u in Foot(b.treebins[i])
      ensures u in w.mem && TreeAsserts(w.mem, w.roots[i], Bin, u) && In(b.treebins[i], u, w.mem[u].size)
      ensures MIN_LARGE_SIZE <= w.mem[u].size && TreeIndex(w.mem[u].size) == i
    {
      TreePasses(w.mem, w.roots[i], Bin, b.treebins[i], BinLow(i), BinWidth(i), u);
      PassesThere(w.mem, w.roots[i], Bin, u);
    }
  }

  lemma PassesThere(m: Mem, a: Addr, par: Link, u: Addr)
    requires TreeAsserts(m, a, par, u)
    ensures u in m
  {
  }

  /** do_check_smallbin: a bin that links to itself is empty, and in one that is not, each chunk is between its neighbours. */
  lemma SmallBinPasses(w: Words, b: Bins, i: nat)
    requires Represents(w, b) && BinsOk(b) && i < NSMALLBINS
    ensures Header(w.base, i) in w.mem
    ensures M.Marked(w.smallmap, M.At(i)) ==>
      && w.mem[Header(w.base, i)].bk != Header(w.base, i) && Doubly(w.mem, Header(w.base, i))
      && forall k: nat :: k < |List(b, i)| ==> Doubly(w.mem, List(b, i)[k])
  {
    hide Represents, M.Marked, M.At;
    SmallAt(w, b, i);
    var ring := [Header(w.base, i)] + List(b, i);
    if List(b, i) != [] {
      forall k: nat | k < |ring| ensures Doubly(w.mem, ring[k]) && w.mem[ring[k]].bk == ring[TreeLinks.Prev(k, |ring|)] {
        assert S.Linked(w.mem, ring, k);
        assert S.Linked(w.mem, ring, TreeLinks.Next(k, |ring|)) && S.Linked(w.mem, ring, TreeLinks.Prev(k, |ring|));
      }
      assert Doubly(w.mem, ring[0]);
      forall k: nat | k < |List(b, i)| ensures Doubly(w.mem, List(b, i)[k]) {
        assert List(b, i)[k] == ring[k + 1];
      }
    }
  }
}
