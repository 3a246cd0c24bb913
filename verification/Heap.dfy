/** The kernel heap's mspace (src/kernel/dlmalloc.cc): malloc, free, realloc and memalign on one
    segment that neither grows nor shrinks. */
module Heap {
  import opened HeapSizes
  import opened TreeBin
  import opened HeapBins
  import opened HeapSpace
  import opened HeapState
  import opened HeapSearch
  import opened HeapChoice
  import LinkedBins

  // smallbin_at(M, 0), as an offset from the first chunk.
  const SMALLBINS_OFFSET: nat := MEM_OFFSET + 72

  lemma FirstAligned(base: Addr)
    ensures var msp := base + AlignOffset(base + MEM_OFFSET); msp % 32 == 16 && (msp + SMALLBINS_OFFSET) % 16 == 8
  {
  }

  class MSpace {
    // The words of the segment.
    var head: map<Addr, Tag>
    var foot: map<Addr, nat>
    // malloc_state
    var smallmap: set<nat>
    var treemap: set<nat>
    var dvsize: nat
    var topsize: nat
    var dv: Addr                        // 0 for null
    var top: Addr
    var smallbins: seq<seq<Addr>>
    var treebins: seq<Trie>
    // The links and the map words of the bins, as they are in memory.
    const links: LinkedBins.Links
    // The first chunk (it holds the malloc_state itself), and where the top chunk ends.
    const first: Addr
    const limit: nat
    // Where the chunks begin, all but top.
    ghost var starts: set<Addr>

    function TheBins(): Bins
      reads this
    {
      Bins(smallmap, smallbins, treemap, treebins)
    }

    ghost function Sp(): Space
      reads this
    {
      Space(head, foot, starts, first, top)
    }

    ghost function Now(): State
      reads this
    {
      State(Sp(), TheBins(), dv, dvsize, topsize, limit)
    }

    // The chunks in use, with their sizes.
    ghost function LiveChunks(): map<Addr, nat>
      reads this
    {
      Live(Sp())
    }

    // The links in memory make the bins.
    ghost predicate LinksOk()
      reads this, links
    {
      links.base == first + SMALLBINS_OFFSET && links.Is(TheBins())
    }

    ghost predicate Valid()
      reads this, links
    {
      HeapState.Valid(Now()) && LinksOk()
    }

    // ----------------------------------------------------------------
    // Bins
    // ----------------------------------------------------------------

    // insert_chunk
    method InsertChunk(p: Addr, s: nat)
      requires LinksOk() && BinsOk(TheBins()) && 0 < s < MAX_CHUNK && LinkedBins.Unbinned(TheBins(), links.base, p)
      modifies `smallmap, `smallbins, `treemap, `treebins, links
      ensures LinksOk() && TheBins() == HeapBins.InsertChunk(old(TheBins()), p, s)
    {
      hide LinkedBins.Represents;
      links.InsertChunk(p, s, TheBins());
      if IsSmall(s) {
        var i := SmallIndex(s);
        if i !in smallmap {
          smallmap := smallmap + {i};
          smallbins := smallbins[i := [p]];
        } else {
          assert smallmap + {i} == smallmap;
          smallbins := smallbins[i := [p] + smallbins[i]];
        }
      } else {
        var i := TreeIndex(s);
        treemap := treemap + {i};
        treebins := treebins[i := Insert(treebins[i], p, s, Register(s, i))];
      }
    }

    // unlink_chunk
    method UnlinkChunk(p: Addr, s: nat)
      requires LinksOk() && BinsOk(TheBins()) && 0 < s < MAX_CHUNK && Binned(TheBins(), p, s)
      modifies `smallmap, `smallbins, `treemap, `treebins, links
      ensures LinksOk() && TheBins() == HeapBins.UnlinkChunk(old(TheBins()), p, s)
    {
      hide LinkedBins.Represents;
      links.UnlinkChunk(p, s, TheBins());
      if IsSmall(s) {
        var i := SmallIndex(s);
        var list := smallbins[i];
        if |list| == 1 {
          smallmap := smallmap - {i};
        } else {
          var k := IndexOf(list, p);
          smallbins := smallbins[i := list[..k] + list[k + 1..]];
        }
      } else {
        var i := TreeIndex(s);
        var t := Unlink(treebins[i], p, s, Register(s, i));
        treebins := treebins[i := t];
        if t.Empty? {
          treemap := treemap - {i};
        }
      }
    }

    // The same, by what they do to the set of binned chunks.
    method Bin(p: Addr, s: nat, ghost free: map<Addr, nat>, ghost d: Addr)
      requires Linked(TheBins(), free, d) && p !in free && p != d && 0 < s < MAX_CHUNK && s % 32 == 0
      requires LinksOk() && p % 32 == 16
      modifies `smallmap, `smallbins, `treemap, `treebins, links
      ensures LinksOk() && Linked(TheBins(), free[p := s], d)
    {
      hide LinkedBins.Represents, Linked, BinsOk;
      InsertLink(TheBins(), free, d, p, s);
      NowhereBinned(TheBins(), free, d, p);
      LinkedBins.BaseIs(links.Now(), TheBins());
      LinkedBins.NowhereLinked(TheBins(), links.base, p);
      InsertChunk(p, s);
    }

    method Unbin(p: Addr, s: nat, ghost free: map<Addr, nat>, ghost d: Addr)
      requires Linked(TheBins(), free, d) && p in free && p != d && s == free[p] && 0 < s < MAX_CHUNK && LinksOk()
      modifies `smallmap, `smallbins, `treemap, `treebins, links
      ensures LinksOk() && Linked(TheBins(), free - {p}, d)
    {
      hide LinkedBins.Represents;
      UnlinkLink(TheBins(), free, d, p);
      UnlinkChunk(p, s);
    }

    // replace_dv: the old dv, which is small, goes into its bin.
    method ReplaceDv(p: Addr, s: nat, ghost free: map<Addr, nat>)
      requires Linked(TheBins(), free, dv) && DvOk(free, dv, dvsize) && 0 !in free
      requires IsSmall(dvsize) && dvsize % 32 == 0 && LinksOk() && (dvsize != 0 ==> dv % 32 == 16)
      modifies `smallmap, `smallbins, `treemap, `treebins, links, `dv, `dvsize
      ensures LinksOk() && dv == p && dvsize == s && Linked(TheBins(), free, 0)
    {
      hide LinkedBins.Represents;
      if dvsize != 0 {
        WithoutDv(TheBins(), free, dv, dvsize);
        Bin(dv, dvsize, free - {dv}, 0);
      }
      dvsize := s;
      dv := p;
    }

    // ----------------------------------------------------------------
    // Allocation
    // ----------------------------------------------------------------

    // set_size_and_pinuse_of_inuse_chunk on the front, set_size_and_pinuse_of_free_chunk on the rest.
    method CutFree(p: Addr, nb: nat, size: nat)
      requires p in head && size == head[p].size && nb <= size
      modifies `head, `foot, `starts
      ensures Sp() == TakeSplit(old(Sp()), p, nb)
    {
      var r, rsize := p + nb, size - nb;
      head := head[p := Tag(nb, true, true)][r := Tag(rsize, false, true)];
      foot := foot[r + rsize := rsize];
      starts := starts + {r};
    }

    // Takes a binned chunk whole: unlink_chunk, then set_inuse_and_pinuse.
    method TakeBinned(p: Addr, size: nat)
      requires Valid() && IsFree(Sp(), p) && p != dv && size == head[p].size
      modifies this, links
      ensures Valid() && LiveChunks() == old(LiveChunks())[p := size]
    {
      hide LinkedBins.Represents;
      ghost var h := Now();
      FreeChunk(h, p);
      Unbin(p, size, HeapSpace.Free(h.sp), dv);
      TakeBinnedOk(h, p, TheBins());
      head := head[p := Tag(size, true, true)][p + size := head[p + size].(pinuse := true)];
      assert Now() == h.(sp := TakeWhole(h.sp, p), bins := TheBins());
    }

    // Takes the front of a binned chunk; the remainder becomes dv, and the old dv is binned.
    method TakeForDv(p: Addr, size: nat, nb: nat)
      requires Valid() && IsFree(Sp(), p) && p != dv && size == head[p].size && IsSmall(dvsize)
      requires nb % 32 == 0 && nb >= 32 && nb + MIN_CHUNK_SIZE <= size
      modifies this, links
      ensures Valid() && LiveChunks() == old(LiveChunks())[p := nb]
    {
      hide HeapState.Valid, Linked, Live, LinkedBins.Represents;
      ghost var h := Now();
      BinsOf(h);
      FreeChunk(h, p);
      NullIsNotFree(h);
      DvSize(h);
      Unbin(p, size, HeapSpace.Free(h.sp), dv);
      var r, rsize := p + nb, size - nb;
      ReplaceDv(r, rsize, HeapSpace.Free(h.sp) - {p});
      CutFree(p, nb, size);
      TakeForDvOk(h, p, nb, TheBins());
      assert Now() == h.(sp := TakeSplit(h.sp, p, nb), bins := TheBins(), dv := r, dvsize := rsize);
    }

    // Takes the front of a binned chunk; the remainder is binned.
    method TakeForBin(p: Addr, size: nat, nb: nat)
      requires Valid() && IsFree(Sp(), p) && p != dv && size == head[p].size
      requires nb % 32 == 0 && nb >= 32 && nb + MIN_CHUNK_SIZE <= size
      modifies this, links
      ensures Valid() && LiveChunks() == old(LiveChunks())[p := nb]
    {
      hide HeapState.Valid, Linked, Live, LinkedBins.Represents;
      ghost var h := Now();
      BinsOf(h);
      FreeChunk(h, p);
      DvSize(h);
      NotInside(h, p, nb);
      Unbin(p, size, HeapSpace.Free(h.sp), dv);
      var r, rsize := p + nb, size - nb;
      CutFree(p, nb, size);
      Bin(r, rsize, HeapSpace.Free(h.sp) - {p}, dv);
      TakeForBinOk(h, p, nb, TheBins());
      assert Now() == h.(sp := TakeSplit(h.sp, p, nb), bins := TheBins());
    }

    method SplitDv(nb: nat) returns (p: Addr)
      requires Valid() && nb % 32 == 0 && 32 <= nb && nb + MIN_CHUNK_SIZE <= dvsize
      modifies this, links
      ensures Valid() && p == old(dv) && LiveChunks() == old(LiveChunks())[p := nb]
    {
      hide LinkedBins.Represents;
      ghost var h := Now();
      SplitDvOk(h, nb);
      var rsize := dvsize - nb;
      p := dv;
      var r := p + nb;
      CutFree(p, nb, dvsize);
      dv := r;
      dvsize := rsize;
      assert Now() == h.(sp := TakeSplit(h.sp, h.dv, nb), dv := r, dvsize := rsize);
    }

    method ExhaustDv() returns (p: Addr)
      requires Valid() && dvsize > 0
      modifies this, links
      ensures Valid() && p == old(dv) && LiveChunks() == old(LiveChunks())[p := old(dvsize)]
    {
      hide LinkedBins.Represents;
      ghost var h := Now();
      ExhaustDvOk(h);
      p := dv;
      var dvs := dvsize;
      dvsize := 0;
      dv := 0;
      head := head[p := Tag(dvs, true, true)][p + dvs := head[p + dvs].(pinuse := true)];
      assert Now() == h.(sp := TakeWhole(h.sp, h.dv), dv := 0, dvsize := 0);
    }

    method SplitTop(nb: nat) returns (p: Addr)
      requires Valid() && nb % 32 == 0 && 32 <= nb < topsize
      modifies this, links
      ensures Valid() && p == old(top) && LiveChunks() == old(LiveChunks())[p := nb]
    {
      hide HeapState.Valid, Live, LinkedBins.Represents;
      ghost var h := Now();
      SplitTopOk(h, nb);
      topsize := topsize - nb;
      var rsize := topsize;
      p := top;
      var r := p + nb;
      top := r;
      head := head[r := Tag(rsize, false, true)];
      head := head[p := Tag(nb, true, true)];
      starts := starts + {p};
      assert Now() == h.(sp := TakeTop(h.sp, nb, rsize), topsize := rsize);
    }

    // Takes a chunk of size nb out of a binned chunk that fits.
    method TakeLarge(p: Addr, size: nat, nb: nat)
      requires Valid() && IsFree(Sp(), p) && p != dv && size == head[p].size && nb % 32 == 0 && 32 <= nb <= size
      modifies this, links
      ensures Valid() && LiveChunks() == old(LiveChunks())[p := nb]
    {
      hide LinkedBins.Represents;
      FreeChunk(Now(), p);
      if size - nb < MIN_CHUNK_SIZE {
        TakeBinned(p, size);
      } else {
        TakeForBin(p, size, nb);
      }
    }

    method TakeSmall(p: Addr, size: nat, nb: nat)
      requires Valid() && IsFree(Sp(), p) && p != dv && size == head[p].size && IsSmall(dvsize) && nb % 32 == 0 && 32 <= nb <= size
      modifies this, links
      ensures Valid() && LiveChunks() == old(LiveChunks())[p := nb]
    {
      hide LinkedBins.Represents;
      FreeChunk(Now(), p);
      if size - nb < MIN_CHUNK_SIZE {
        TakeBinned(p, size);
      } else {
        TakeForDv(p, size, nb);
      }
    }

    // The part of mspace_malloc that looks for a small chunk in the bins; 0 sends it to dv and top.
    method MallocSmall(nb: nat) returns (p: Addr)
      requires Valid() && nb % 32 == 0 && 32 <= nb < MIN_LARGE_SIZE
      modifies this, links
      ensures Valid()
      ensures p == 0 ==> Now() == old(Now()) && (forall a :: FitsBinned(Now(), a, nb) ==> HeapSpace.Free(Now().sp)[a] != nb)
      ensures p == 0 && dvsize < nb ==> NoneBinned(Now(), nb)
      ensures p != 0 ==> SmallChoice(old(Now()), p, nb) && LiveChunks() == old(LiveChunks())[p := nb]
    {
      hide HeapState.Valid, FitsBinned, LeastBinned, LinkedBins.Represents;
      p := 0;
      var idx := SmallIndex(nb);
      ghost var h := Now();
      BinsOf(h);
      if idx in smallmap || idx + 1 in smallmap {
        var i := if idx in smallmap then idx else idx + 1;
        FirstOfSmallBin(h, nb, i);
        p := smallbins[i][0];
        FreeChunk(h, p);
        TakeBinned(p, 8 * i);
      } else {
        NoExactFit(h, nb, LeastFrom(smallmap, idx));
        if nb > dvsize {
          p := MallocSmallSplit(nb);
        }
      }
    }

    // No chunk fits exactly and dv is too small: the least binned chunk that fits.
    method MallocSmallSplit(nb: nat) returns (p: Addr)
      requires Valid() && nb % 32 == 0 && 32 <= nb < MIN_LARGE_SIZE && nb > dvsize && SmallIndex(nb) !in smallmap
      modifies this, links
      ensures Valid()
      ensures p == 0 ==> Now() == old(Now()) && NoneBinned(Now(), nb)
      ensures p != 0 ==> SmallChoice(old(Now()), p, nb) && LiveChunks() == old(LiveChunks())[p := nb]
    {
      hide HeapState.Valid, FitsBinned, LeastBinned, LinkedBins.Represents;
      p := 0;
      ghost var h := Now();
      BinsOf(h);
      var i := LeastFrom(smallmap, SmallIndex(nb) + 1);
      FirstOfSmallBin(h, nb, i);
      if i < NSMALLBINS {
        p := smallbins[i][0];
        FreeChunk(h, p);
        TakeSmall(p, 8 * i, nb);
      } else if treemap != {} {
        var v, rsize := FindLeast(TheBins(), nb);
        BestNodeIsLeast(h, nb, v, rsize);
        p := v.ring[0];
        FreeChunk(h, p);
        TakeSmall(p, v.size, nb);
      } else {
        EmptyTrees(h, nb);
      }
    }

    // tmalloc_large; 0 sends mspace_malloc to dv and top.
    method MallocLarge(nb: nat) returns (p: Addr)
      requires Valid() && nb % 32 == 0 && MIN_LARGE_SIZE <= nb < WORD
      modifies this, links
      ensures Valid()
      ensures p == 0 ==> Now() == old(Now())
      ensures p == 0 && dvsize < nb ==> NoneBinned(Now(), nb)
      ensures p == 0 && dvsize >= nb ==> BestFit(Now(), dv, nb)
      ensures p != 0 ==> BestFit(old(Now()), p, nb) && LiveChunks() == old(LiveChunks())[p := nb]
    {
      hide LinkedBins.Represents;
      p := 0;
      ghost var h := Now();
      LargeFitsAreLarge(h, nb);
      DvSize(h);
      var v, rsize := FindLarge(TheBins(), nb);
      BestNodeIsLeast(h, nb, v, rsize);
      LargeChoice(h, nb, v, rsize);
      if v.Node? && rsize < Sub64(dvsize, nb) {
        p := v.ring[0];
        FreeChunk(h, p);
        TakeLarge(p, v.size, nb);
      }
    }

    // The last part of mspace_malloc: dv, then top, then failure (sys_alloc has nowhere to go).
    method MallocRest(nb: nat) returns (p: Addr)
      requires Valid() && nb >= 32 && (nb % 32 == 0 || nb == WORD - 1)
      modifies this, links
      ensures Valid()
      ensures p == if old(dvsize) >= nb then old(dv) else if old(topsize) > nb then old(top) else 0
      ensures p == 0 ==> Now() == old(Now())
      ensures p != 0 ==> LiveChunks() == old(LiveChunks())[p := nb]
    {
      hide LinkedBins.Represents;
      DvSize(Now());
      TopIsLast(Now(), nb);
      if nb <= dvsize {
        FreeChunk(Now(), dv);
        if dvsize - nb >= MIN_CHUNK_SIZE {
          p := SplitDv(nb);
        } else {
          p := ExhaustDv();
        }
      } else if nb < topsize {
        p := SplitTop(nb);
      } else {
        p := 0;
      }
    }

    // The part of mspace_malloc that looks in the bins.
    method MallocBinned(bytes: nat) returns (nb: nat, p: Addr)
      requires Valid() && bytes < WORD
      modifies this, links
      ensures Valid() && (nb == Need(bytes) || (p == 0 && nb == WORD - 1 && Need(bytes) >= MAX_CHUNK))
      ensures p == 0 ==> Now() == old(Now()) && LeftToRest(Now(), bytes)
      ensures p != 0 ==> Choice(old(Now()), p, bytes) && LiveChunks() == old(LiveChunks())[p := nb]
    {
      hide LinkedBins.Represents;
      nb, p := WORD - 1, 0;
      if bytes <= MAX_SMALL_REQUEST {
        nb := if bytes < MIN_REQUEST then MIN_CHUNK_SIZE else PadRequest(bytes);
        p := MallocSmall(nb);
      } else if bytes < MAX_REQUEST {
        nb := PadRequest(bytes);
        p := MallocLarge(nb);
      } else {
        TooBig(Now(), Need(bytes));
      }
    }

    /** mspace_malloc: fails exactly when no free chunk and not top can serve the request, and then
        changes nothing; otherwise a chunk of just the needed size is in use that was not before. */
    method Malloc(bytes: nat) returns (mem: Addr)
      requires Valid() && bytes < WORD
      modifies this, links
      ensures Valid()
      ensures mem == 0 <==> Exhausted(old(Now()), Need(bytes))
      ensures mem == 0 ==> Now() == old(Now())
      ensures mem != 0 ==> Served(old(Now()), Now(), mem, bytes)
    {
      hide HeapState.Valid, Choice, Exhausted, LeftToRest, LinkedBins.Represents;
      ghost var h := Now();
      var nb, p := MallocBinned(bytes);
      if p == 0 {
        if nb != Need(bytes) {
          TooBig(h, nb);
          TooBig(h, Need(bytes));
        }
        p := MallocRest(nb);
        RestChoice(h, p, bytes);
        if p == 0 {
          return 0;
        }
      }
      ChoiceIsNew(h, p, bytes);
      BlockOwns(Now(), p, bytes);
      mem := p + MEM_OFFSET;
    }

    // ----------------------------------------------------------------
    // Release
    // ----------------------------------------------------------------

    // set_free_with_pinuse on the chunk from q to e, where p ends.
    method SetFree(p: Addr, q: Addr, e: Addr)
      requires e in head && q <= e
      modifies `head, `foot, `starts
      ensures Sp() == Coalesce(old(Sp()), p, q, e, e)
    {
      head := head[e := head[e].(pinuse := false)];
      head := head[q := Tag(e - q, false, true)];
      foot := foot[e := e - q];
      starts := starts - {p, e} + {q, e};
    }

    // set_size_and_pinuse_of_free_chunk on the chunk from q to n, where the free chunk e ended.
    method SetSize(p: Addr, q: Addr, e: Addr, n: Addr)
      requires n in head && q <= n && !head[n].pinuse
      modifies `head, `foot, `starts
      ensures Sp() == Coalesce(old(Sp()), p, q, e, n)
    {
      assert head[n := head[n].(pinuse := false)] == head;
      head := head[q := Tag(n - q, false, true)];
      foot := foot[n := n - q];
      starts := starts - {p, e} + {q, n};
    }

    // The chunk from q on joins top.
    method JoinTop(p: Addr, q: Addr, psize: nat, ghost h: State)
      requires Detached(h, TheBins(), p, q) && Now() == h.(bins := TheBins()) && LinksOk()
      requires p + head[p].size == top && psize == top - q
      modifies this, links
      ensures Valid() && LiveChunks() == Live(h.sp) - {p}
    {
      hide HeapState.Valid, Linked, Live, LinkedBins.Represents;
      Neighbours(h, p);
      SparedOk(h, TheBins(), p, q);
      JoinTopOk(h, p, q, TheBins(), Spared(h, q), SparedSize(h, q));
      topsize := topsize + psize;
      top := q;
      head := head[q := Tag(topsize, false, true)];
      starts := starts - {p, q};
      if q == dv {
        dv := 0;
        dvsize := 0;
      }
      assert Now() == h.(sp := MergeTop(h.sp, p, q, topsize), bins := TheBins(), dv := Spared(h, q), dvsize := SparedSize(h, q), topsize := topsize);
    }

    // The chunk from q on joins dv behind it.
    method JoinDv(p: Addr, q: Addr, e: Addr, psize: nat, ghost h: State)
      requires Detached(h, TheBins(), p, q) && Now() == h.(bins := TheBins()) && LinksOk()
      requires p + head[p].size == e && e != top && e == dv && psize == e - q
      modifies this, links
      ensures Valid() && LiveChunks() == Live(h.sp) - {p}
    {
      hide HeapState.Valid, Linked, Live, LinkedBins.Represents;
      Neighbours(h, p);
      DvBehind(h, TheBins(), p, q, e);
      ghost var n := e + dvsize;
      JoinOk(h, p, q, e, n, TheBins(), q, n - q);
      dvsize := dvsize + psize;
      dv := q;
      SetSize(p, q, e, q + dvsize);
      assert Now() == h.(sp := Coalesce(h.sp, p, q, e, n), bins := TheBins(), dv := q, dvsize := n - q);
    }

    // The chunk from q on joins the binned chunk e behind it.
    method JoinNext(p: Addr, q: Addr, e: Addr, psize: nat, ghost h: State)
      requires Detached(h, TheBins(), p, q) && Now() == h.(bins := TheBins()) && LinksOk()
      requires p + head[p].size == e && e != top && e != dv && e in head && !head[e].cinuse && psize == e - q
      modifies this, links
      ensures Valid() && LiveChunks() == Live(h.sp) - {p}
    {
      hide HeapState.Valid, Linked, Live, Merges, LinkedBins.Represents;
      FreeBehind(h, TheBins(), p, q, e);
      ghost var n, f := End(h.sp, e), HeapSpace.Free(h.sp) - {q};
      JoinForNext(h, TheBins(), p, q, e, n);
      var nsize := head[e].size;
      var size := psize + nsize;
      Unbin(e, nsize, f, Spared(h, q));
      SetSize(p, q, e, q + size);
      if q == dv {
        dvsize := size;
        JoinedDv(h, p, q, e, n, TheBins());
        assert Now() == h.(sp := Coalesce(h.sp, p, q, e, n), bins := TheBins(), dvsize := n - q);
      } else {
        Bin(q, size, f - {e}, dv);
        JoinedBinned(h, p, q, e, n, TheBins());
        assert Now() == h.(sp := Coalesce(h.sp, p, q, e, n), bins := TheBins());
      }
    }

    // The chunk from q to e is free, and e is in use.
    method JoinNone(p: Addr, q: Addr, e: Addr, psize: nat, ghost h: State)
      requires Detached(h, TheBins(), p, q) && Now() == h.(bins := TheBins()) && LinksOk()
      requires p + head[p].size == e && e in head && head[e].cinuse && psize == e - q
      modifies this, links
      ensures Valid() && LiveChunks() == Live(h.sp) - {p}
    {
      hide HeapState.Valid, Linked, Live, Merges, LinkedBins.Represents;
      UsedBehind(h, TheBins(), p, q, e);
      ghost var f := HeapSpace.Free(h.sp) - {q};
      SetFree(p, q, e);
      assert f - {} == f;
      if q == dv {
        dvsize := psize;
        JoinedDv(h, p, q, e, e, TheBins());
        assert Now() == h.(sp := Coalesce(h.sp, p, q, e, e), bins := TheBins(), dvsize := e - q);
      } else {
        JoinForBin(h, TheBins(), p, q, e, e);
        Bin(q, psize, f, dv);
        JoinedBinned(h, p, q, e, e, TheBins());
        assert Now() == h.(sp := Coalesce(h.sp, p, q, e, e), bins := TheBins());
      }
    }

    // dispose_chunk, and mspace_free on a chunk.
    method Dispose(p: Addr)
      requires Valid() && p in LiveChunks() && p != first
      modifies this, links
      ensures Valid() && LiveChunks() == old(LiveChunks()) - {p}
    {
      hide HeapState.Valid, Linked, LinkedBins.Represents;
      ghost var h := Now();
      Neighbours(h, p);
      var next := p + head[p].size;
      var q := p;
      if head[p].pinuse {
        DetachSelf(h, p);
      } else {
        var prevsize := foot[p];
        q := p - prevsize;
        FreeChunk(h, q);
        if q != dv {
          BinsOf(h);
          Unbin(q, prevsize, HeapSpace.Free(h.sp), dv);
        } else {
          DetachDv(h, p);
        }
      }
      var psize := next - q;
      if !head[next].cinuse {
        if next == top {
          JoinTop(p, q, psize, h);
        } else if next == dv {
          JoinDv(p, q, next, psize, h);
        } else {
          JoinNext(p, q, next, psize, h);
        }
      } else {
        JoinNone(p, q, next, psize, h);
      }
    }

    /** mspace_free: exactly that block is gone. */
    method Free(mem: Addr)
      requires Valid() && (mem != 0 ==> MEM_OFFSET <= mem && mem - MEM_OFFSET in LiveChunks() && mem - MEM_OFFSET != first)
      modifies this, links
      ensures Valid()
      ensures mem == 0 ==> Now() == old(Now())
      ensures mem != 0 ==> LiveChunks() == old(LiveChunks()) - {mem - MEM_OFFSET}
    {
      hide LinkedBins.Represents;
      if mem != 0 {
        Dispose(mem - MEM_OFFSET);
      }
    }

    // ----------------------------------------------------------------
    // Reallocation
    // ----------------------------------------------------------------

    // set_inuse on the two parts of a chunk in use.
    method CutLive(p: Addr, nb: nat)
      requires Valid() && IsLive(Sp(), p) && nb % 32 == 0 && nb >= 32 && nb + 32 <= head[p].size
      modifies this, links
      ensures Valid() && p + nb > first && p + nb !in old(LiveChunks())
      ensures LiveChunks() == old(LiveChunks())[p := nb][p + nb := old(head[p].size) - nb]
    {
      hide HeapState.Valid, Live, LinkedBins.Represents;
      ghost var h := Now();
      CutLiveOk(h, p, nb);
      NotLive(h, p + nb);
      var r, rsize := p + nb, head[p].size - nb;
      head := head[p := head[p].(size := nb)][r := Tag(rsize, true, true)];
      starts := starts + {r};
      assert Now() == h.(sp := SplitLive(h.sp, p, nb));
    }

    // The front of a chunk in use stays, and the rest is given back.
    method GiveBackTail(p: Addr, nb: nat)
      requires Valid() && p in LiveChunks() && nb % 32 == 0 && nb >= 32 && nb + 32 <= head[p].size
      modifies this, links
      ensures Valid() && LiveChunks() == old(LiveChunks())[p := nb]
    {
      hide HeapState.Valid, LinkedBins.Represents;
      CutLive(p, nb);
      Dispose(p + nb);
    }

    method GrowIntoTop(p: Addr, nb: nat)
      requires Valid() && IsLive(Sp(), p) && p + head[p].size == top && nb % 32 == 0
      requires head[p].size < nb < head[p].size + topsize
      modifies this, links
      ensures Valid() && LiveChunks() == old(LiveChunks())[p := nb]
    {
      hide HeapState.Valid, Live, LinkedBins.Represents;
      ghost var h := Now();
      GrowIntoTopOk(h, p, nb);
      var newtopsize := head[p].size + topsize - nb;
      var newtop := p + nb;
      head := head[p := head[p].(size := nb)][newtop := Tag(newtopsize, false, true)];
      top := newtop;
      topsize := newtopsize;
      assert Now() == h.(sp := MoveTop(h.sp, p, nb, newtopsize), topsize := newtopsize);
    }

    method SplitDvBehind(p: Addr, nb: nat)
      requires Valid() && IsLive(Sp(), p) && p + head[p].size == dv && nb % 32 == 0
      requires head[p].size < nb && nb + MIN_CHUNK_SIZE <= head[p].size + dvsize
      modifies this, links
      ensures Valid() && LiveChunks() == old(LiveChunks())[p := nb]
    {
      hide HeapState.Valid, Live, LinkedBins.Represents;
      ghost var h := Now();
      Behind(h, p);
      var dsize := head[p].size + dvsize - nb;
      var r, n := p + nb, dv + dvsize;
      ShiftDvOk(h, p, n, r);
      head := head[p := head[p].(size := nb)][r := Tag(dsize, false, true)];
      foot := foot[n := dsize];
      starts := starts - {dv} + {r};
      dvsize := dsize;
      dv := r;
      assert Now() == h.(sp := Shift(h.sp, p, h.dv, n, r), dv := r, dvsize := dsize);
    }

    method TakeDvBehind(p: Addr)
      requires Valid() && IsLive(Sp(), p) && p + head[p].size == dv
      modifies this, links
      ensures Valid() && LiveChunks() == old(LiveChunks())[p := old(head[p].size + dvsize)]
    {
      hide HeapState.Valid, Live, LinkedBins.Represents;
      ghost var h := Now();
      Behind(h, p);
      var n := dv + dvsize;
      ExhaustDvInto(h, p, n);
      head := head[p := head[p].(size := n - p)][n := head[n].(pinuse := true)];
      starts := starts - {dv};
      dvsize := 0;
      dv := 0;
      assert Now() == h.(sp := Absorb(h.sp, p, h.dv, n), dv := 0, dvsize := 0);
    }

    // A chunk in use takes all of the binned chunk behind it.
    method TakeNext(p: Addr, x: Addr)
      requires Valid() && IsLive(Sp(), p) && p + head[p].size == x && x != top && x != dv && x in head && !head[x].cinuse
      modifies this, links
      ensures Valid() && LiveChunks() == old(LiveChunks())[p := old(head[p].size + head[x].size)]
    {
      hide HeapState.Valid, Live, Linked, LinkedBins.Represents;
      ghost var h := Now();
      Behind(h, p);
      FreeChunk(h, x);
      BinsOf(h);
      var n := x + head[x].size;
      Unbin(x, head[x].size, HeapSpace.Free(h.sp), dv);
      GrowIntoNextOk(h, p, x, n, TheBins(), dv, dvsize);
      head := head[p := head[p].(size := n - p)][n := head[n].(pinuse := true)];
      starts := starts - {x};
      assert Now() == h.(sp := Absorb(h.sp, p, x, n), bins := TheBins());
    }

    // try_realloc_chunk: succeeds exactly when there is room behind the chunk.
    method TryRealloc(p: Addr, nb: nat) returns (ok: bool)
      requires Valid() && p in LiveChunks() && nb % 32 == 0 && nb >= 32
      modifies this, links
      ensures Valid() && ok == (nb <= old(Room(Now(), p)))
      ensures ok ==> LiveChunks() == old(LiveChunks())[p := nb]
      ensures !ok ==> Now() == old(Now())
    {
      hide HeapState.Valid, LinkedBins.Represents;
      ghost var h := Now();
      Behind(h, p);
      var oldsize := head[p].size;
      var next := p + oldsize;
      ok := false;
      if oldsize >= nb {
        if oldsize - nb >= MIN_CHUNK_SIZE {
          GiveBackTail(p, nb);
        } else {
          assert LiveChunks() == LiveChunks()[p := nb];
        }
        ok := true;
      } else if next == top {
        if oldsize + topsize > nb {
          GrowIntoTop(p, nb);
          ok := true;
        }
      } else if next == dv {
        if oldsize + dvsize >= nb {
          FreeChunk(h, dv);
          if oldsize + dvsize - nb >= MIN_CHUNK_SIZE {
            SplitDvBehind(p, nb);
          } else {
            TakeDvBehind(p);
          }
          ok := true;
        }
      } else if !head[next].cinuse {
        var nextsize := head[next].size;
        if oldsize + nextsize >= nb {
          FreeChunk(h, next);
          TakeNext(p, next);
          if oldsize + nextsize - nb >= MIN_CHUNK_SIZE {
            GiveBackTail(p, nb);
          }
          ok := true;
        }
      }
    }

    /** mspace_realloc: the block keeps its place exactly when there is room, otherwise another one
        takes over, and nothing changes on failure. */
    method Realloc(oldmem: Addr, bytes: nat) returns (mem: Addr)
      requires Valid() && bytes < WORD
      requires oldmem != 0 ==> MEM_OFFSET <= oldmem && oldmem - MEM_OFFSET in LiveChunks() && oldmem - MEM_OFFSET != first
      modifies this, links
      ensures Valid()
      ensures mem == 0 ==> Now() == old(Now())
      ensures oldmem == 0 ==>
        && (mem == 0 <==> Exhausted(old(Now()), Need(bytes)))
        && (mem != 0 ==> Served(old(Now()), Now(), mem, bytes))
      ensures oldmem != 0 ==> Moved(old(Now()), Now(), oldmem, mem, bytes)
    {
      hide HeapState.Valid, Room, Choice, Exhausted, LinkedBins.Represents;
      if oldmem == 0 {
        mem := Malloc(bytes);
      } else if bytes >= MAX_REQUEST {
        mem := 0;
        TooBig(Now(), Need(bytes));
        RoomBound(Now(), oldmem - MEM_OFFSET);
      } else {
        var nb := RequestToSize(bytes);
        var oldp := oldmem - MEM_OFFSET;
        var ok := TryRealloc(oldp, nb);
        if ok {
          mem := oldmem;
          BlockOwns(Now(), oldp, bytes);
        } else {
          mem := Malloc(bytes);
          if mem != 0 {
            Free(oldmem);
            BlockOwns(Now(), mem - MEM_OFFSET, bytes);
          }
        }
      }
    }

    // The rear of a chunk in use stays, and the front is given back.
    method GiveBackFront(p: Addr, pos: Addr)
      requires Valid() && p in LiveChunks() && p != first && p < pos && (pos - p) % 32 == 0 && pos - p + 32 <= head[p].size
      modifies this, links
      ensures Valid() && pos !in old(LiveChunks()) && pos != first
      ensures LiveChunks() == (old(LiveChunks()) - {p})[pos := old(head[p].size) - (pos - p)]
    {
      hide HeapState.Valid, LinkedBins.Represents;
      CutLive(p, pos - p);
      Dispose(p);
    }

    // The first aligned place in a chunk that leaves room for a chunk in front of it.
    method AlignedSpot(p: Addr, mem: Addr, alignment: nat) returns (pos: Addr)
      requires mem == p + MEM_OFFSET && mem % 32 == 0 && alignment >= 32 && alignment % 32 == 0 && mem % alignment != 0
      ensures (pos + MEM_OFFSET) % alignment == 0 && p + 32 <= pos < p + alignment && (pos - p) % 32 == 0
    {
      hide RoundUp;
      var up := RoundUp(mem, alignment);
      var br := up - MEM_OFFSET;
      pos := if br - p >= MIN_CHUNK_SIZE then br else br + alignment;
      RoundUpIs(mem, alignment);
      assert pos + MEM_OFFSET == up && pos - p == up - mem;
    }

    // internal_memalign, once it has a chunk that is large enough: give back what is in front of
    // the aligned address, and what is behind.
    method Align(mem: Addr, alignment: nat, nb: nat) returns (r: Addr)
      requires Valid() && MEM_OFFSET <= mem && mem - MEM_OFFSET in LiveChunks() && mem - MEM_OFFSET != first && mem % 32 == 0
      requires alignment >= 32 && alignment % 32 == 0 && nb % 32 == 0 && nb >= 32
      requires LiveChunks()[mem - MEM_OFFSET] >= nb + alignment + 32
      modifies this, links
      ensures Valid() && mem <= r < mem + alignment && r % alignment == 0
      ensures r == mem || r - MEM_OFFSET !in old(LiveChunks())
      ensures LiveChunks() == (old(LiveChunks()) - {mem - MEM_OFFSET})[r - MEM_OFFSET := nb]
    {
      hide HeapState.Valid, LinkedBins.Represents;
      ghost var live := LiveChunks();
      var p := mem - MEM_OFFSET;
      r := mem;
      if mem % alignment != 0 {
        var pos := AlignedSpot(p, mem, alignment);
        GiveBackFront(p, pos);
        p := pos;
        r := p + MEM_OFFSET;
      }
      assert p in LiveChunks() && head[p].size == LiveChunks()[p] >= nb + 64;
      GiveBackRest(p, nb);
    }

    // Give back spare room at the end.
    method GiveBackRest(p: Addr, nb: nat)
      requires Valid() && p in LiveChunks() && nb % 32 == 0 && nb >= 32 && head[p].size >= nb + 64
      modifies this, links
      ensures Valid() && LiveChunks() == old(LiveChunks())[p := nb]
    {
      hide LinkedBins.Represents;
      var size := head[p].size;
      if size > nb + MIN_CHUNK_SIZE {
        GiveBackTail(p, nb);
      }
    }

    /** internal_memalign: a block at a multiple of the alignment (rounded up to a power of two, a),
        or null exactly when a chunk that is sure to hold one cannot be had. */
    method InternalMemalign(alignment: nat, bytes: nat) returns (mem: Addr, ghost a: nat)
      requires Valid() && bytes < WORD && alignment <= WORD / 2
      modifies this, links
      ensures Valid() && RoundsTo(alignment, a)
      ensures mem == 0 <==> Exhausted(old(Now()), AlignedNeed(bytes, a))
      ensures mem == 0 ==> Now() == old(Now())
      ensures mem != 0 ==>
        && mem >= MEM_OFFSET && mem % a == 0 && mem - MEM_OFFSET !in old(LiveChunks())
        && LiveChunks() == old(LiveChunks())[mem - MEM_OFFSET := Need(bytes)] && Owns(Now(), mem, bytes)
    {
      hide HeapState.Valid, Exhausted, Choice, LinkedBins.Represents;
      var rounded := RoundAlignment(alignment);
      a := rounded;
      if bytes >= MAX_REQUEST - rounded {
        AlignedTooBig(Now(), bytes, rounded);
        return 0, a;
      }
      var nb := RequestToSize(bytes);
      AlignedRequestFits(bytes, rounded);
      ghost var h := Now();
      mem := Malloc(AlignedRequest(bytes, rounded));
      if mem != 0 {
        FirstIsLive(h);
        mem := Align(mem, rounded, nb);
        BlockOwns(Now(), mem - MEM_OFFSET, bytes);
      }
    }

    /** mspace_memalign: every block is aligned to 32 bytes, so that a lesser alignment takes no more. */
    method Memalign(alignment: nat, bytes: nat) returns (mem: Addr, ghost a: nat)
      requires Valid() && bytes < WORD && alignment <= WORD / 2
      modifies this, links
      ensures Valid() && RoundsTo(alignment, a)
      ensures alignment <= 32 ==> (mem == 0 <==> Exhausted(old(Now()), Need(bytes)))
      ensures alignment > 32 ==>
        (mem == 0 <==> Exhausted(old(Now()), AlignedNeed(bytes, a)))
      ensures mem == 0 ==> Now() == old(Now())
      ensures mem != 0 ==>
        && mem >= MEM_OFFSET && mem % a == 0 && mem - MEM_OFFSET !in old(LiveChunks())
        && LiveChunks() == old(LiveChunks())[mem - MEM_OFFSET := Need(bytes)] && Owns(Now(), mem, bytes)
    {
      hide HeapState.Valid, Exhausted, Choice, LinkedBins.Represents;
      if alignment <= 32 {
        a := RoundAlignment(alignment);
        mem := Malloc(bytes);
      } else {
        mem, a := InternalMemalign(alignment, bytes);
      }
    }

    /** init_user_mstate: the malloc_state takes the first chunk, and the rest is top. (What
        create_mspace_with_base asks of capacity leaves the bytes skipped for alignment and the flag
        bits of top out of account: see HeapSizes.TopInside and HeadWords.TopReadsBack.) */
    constructor (base: Addr, capacity: nat)
      requires base + capacity < WORD && capacity < MAX_CHUNK
      requires capacity > AlignOffset(base + MEM_OFFSET) + MSTATE_SIZE + TOP_FOOT_SIZE && (base + capacity) % 4 < 2
      ensures Valid() && first == base + AlignOffset(base + MEM_OFFSET)
      ensures LiveChunks() == map[first := 960] && Owns(Now(), first + 16, 936)
      ensures first + 960 + topsize + 112 == base + capacity
    {
      hide HeapState.Valid, Live, LinkedBins.Represents, LinkedBins.NoChunks, AlignOffset, Owns;
      FirstAligned(base);
      var msp := base + AlignOffset(base + MEM_OFFSET);
      var mn := msp + MSTATE_SIZE;
      var tsize := base + capacity - mn - TOP_FOOT_SIZE;
      first, limit := msp, mn + tsize;
      links := new LinkedBins.Links(msp + SMALLBINS_OFFSET);
      head := map[msp := Tag(MSTATE_SIZE, true, true), mn := Tag(tsize, false, true)];
      foot := map[];
      starts := {msp};
      smallmap, treemap, dvsize, dv, top, topsize := {}, {}, 0, 0, mn, tsize;
      smallbins, treebins := LinkedBins.NoChunks().smallbins, LinkedBins.NoChunks().treebins;
      LinkedBins.NoneThere();
      new;
      InitOk(Now());
    }
  }
}
