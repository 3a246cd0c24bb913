/** The bins of the kernel heap (src/kernel/dlmalloc.cc): small bins, tree bins and their maps.
    The doubly linked list of a small bin is the sequence that its fd links make; a map is the set
    of the indices whose bit is set. */
module HeapBins {
  import opened HeapSizes
  import opened TreeBin

  datatype Bins = Bins(smallmap: set<nat>, smallbins: seq<seq<Addr>>, treemap: set<nat>, treebins: seq<Trie>)

  ghost predicate SmallOk(b: Bins) {
    && |b.smallbins| == NSMALLBINS
    && (forall i :: i in b.smallmap ==> i < NSMALLBINS && Ring(b.smallbins[i]))
  }

  ghost predicate TreeBinOk(t: Trie, i: nat) {
    && i < NTREEBINS && InOrder(t, BinLow(i), BinWidth(i))
    && (forall s: nat :: Sized(t, s) ==> MIN_LARGE_SIZE <= s < MAX_CHUNK && TreeIndex(s) == i)
  }

  ghost predicate TreesOk(b: Bins) {
    && |b.treebins| == NTREEBINS
    && (forall i :: 0 <= i < NTREEBINS ==> TreeBinOk(b.treebins[i], i) && (i in b.treemap <==> b.treebins[i].Node?))
    && (forall i :: i in b.treemap ==> i < NTREEBINS)
  }

  ghost predicate BinsOk(b: Bins) {
    SmallOk(b) && TreesOk(b)
  }

  // Chunk a is in the bin for size s. (A small bin whose bit is clear is empty, whatever its
  // links say.)
  ghost predicate Binned(b: Bins, a: Addr, s: nat)
    requires |b.smallbins| == NSMALLBINS && |b.treebins| == NTREEBINS
  {
    if IsSmall(s) then s % 8 == 0 && SmallIndex(s) in b.smallmap && a in b.smallbins[SmallIndex(s)]
    else In(b.treebins[TreeIndex(s)], a, s)
  }

  // ------------------------------------------------------------------
  // Small bins
  // ------------------------------------------------------------------

  // insert_small_chunk: at the front.
  function InsertSmall(b: Bins, p: Addr, s: nat): Bins
    requires |b.smallbins| == NSMALLBINS && IsSmall(s)
  {
    var i := SmallIndex(s);
    b.(smallmap := b.smallmap + {i},
       smallbins := b.smallbins[i := if i in b.smallmap then [p] + b.smallbins[i] else [p]])
  }

  // unlink_small_chunk and unlink_first_small_chunk: the last chunk of a bin leaves its links
  // behind and clears the bit.
  function UnlinkSmall(b: Bins, p: Addr, s: nat): Bins
    requires |b.smallbins| == NSMALLBINS && IsSmall(s) && p in b.smallbins[SmallIndex(s)]
  {
    var i := SmallIndex(s);
    var list := b.smallbins[i];
    if |list| == 1 then b.(smallmap := b.smallmap - {i})
    else var k := IndexOf(list, p); b.(smallbins := b.smallbins[i := list[..k] + list[k + 1..]])
  }

  lemma InsertSmallOk(b: Bins, p: Addr, s: nat)
    requires BinsOk(b) && IsSmall(s) && s % 8 == 0 && !Binned(b, p, s)
    ensures BinsOk(InsertSmall(b, p, s))
    ensures forall a, t :: Binned(InsertSmall(b, p, s), a, t) <==> Binned(b, a, t) || (a == p && t == s)
  {
    var b', i := InsertSmall(b, p, s), SmallIndex(s);
    var list := b.smallbins[i];
    if i in b.smallmap {
      assert p !in list;
      RingGrows(list, p);
    }
    assert forall a :: a in b'.smallbins[i] <==> a == p || (i in b.smallmap && a in list);
    forall a, t
      ensures Binned(b', a, t) <==> Binned(b, a, t) || (a == p && t == s)
    {
      if IsSmall(t) && t % 8 == 0 && SmallIndex(t) == i {
        assert t == s;
      }
    }
  }

  lemma RingGrows(ring: seq<Addr>, x: Addr)
    requires Ring(ring) && x !in ring
    ensures Ring([x] + ring)
  {
    var more := [x] + ring;
    forall i, j | 0 <= i < j < |more| ensures more[i] != more[j] {
      assert more[j] == ring[j - 1] && ring[j - 1] in ring;
      if i > 0 {
        assert more[i] == ring[i - 1];
      }
    }
  }

  lemma UnlinkSmallOk(b: Bins, p: Addr, s: nat)
    requires BinsOk(b) && IsSmall(s) && Binned(b, p, s)
    ensures BinsOk(UnlinkSmall(b, p, s))
    ensures forall a, t :: Binned(UnlinkSmall(b, p, s), a, t) <==> Binned(b, a, t) && !(a == p && t == s)
  {
    var b', i := UnlinkSmall(b, p, s), SmallIndex(s);
    var list := b.smallbins[i];
    if |list| > 1 {
      CutRing(list, IndexOf(list, p));
      assert b'.smallbins[i] == list[..IndexOf(list, p)] + list[IndexOf(list, p) + 1..];
    } else {
      assert list == [p];
    }
    forall a, t
      ensures Binned(b', a, t) <==> Binned(b, a, t) && !(a == p && t == s)
    {
      if IsSmall(t) && t % 8 == 0 && SmallIndex(t) == i {
        assert t == s;
      }
    }
  }

  // ------------------------------------------------------------------
  // Tree bins
  // ------------------------------------------------------------------

  // The shift register that steers down a tree bin: size << leftshift_for_tree_index.
  function Register(size: nat, i: nat): nat
    requires i < NTREEBINS
  {
    size * LeftShift(i) % WORD
  }

  lemma RegisterSteers(size: nat)
    requires MIN_LARGE_SIZE <= size < MAX_CHUNK
    ensures var i := TreeIndex(size);
      && i < NTREEBINS && IsPowerOf2(BinWidth(i)) && BinLow(i) + BinWidth(i) <= WORD
      && Steers(Register(size, i), size, BinLow(i), BinWidth(i), LeftShift(i))
  {
    var i := TreeIndex(size);
    IndexInRange(size);
    BinShift(i);
    SteersAtRoot(size, BinLow(i), BinWidth(i), LeftShift(i), if i == NTREEBINS - 1 then 0 else 2 + i % 2);
    WidthIsPower(i);
  }

  lemma WidthIsPower(i: nat)
    ensures IsPowerOf2(BinWidth(i))
  {
    Pow2Constants();
    Pow2IsPower(64);
    Pow2IsPower(i / 2 + 7);
  }

  // insert_large_chunk
  function InsertLarge(b: Bins, p: Addr, s: nat): Bins
    requires |b.treebins| == NTREEBINS
  {
    var i := TreeIndex(s);
    b.(treemap := b.treemap + {i}, treebins := b.treebins[i := Insert(b.treebins[i], p, s, Register(s, i))])
  }

  // unlink_large_chunk
  function UnlinkLarge(b: Bins, p: Addr, s: nat): Bins
    requires |b.treebins| == NTREEBINS
  {
    var i := TreeIndex(s);
    var t := Unlink(b.treebins[i], p, s, Register(s, i));
    b.(treemap := if t.Empty? then b.treemap - {i} else b.treemap, treebins := b.treebins[i := t])
  }

  lemma InsertLargeOk(b: Bins, p: Addr, s: nat)
    requires BinsOk(b) && MIN_LARGE_SIZE <= s < MAX_CHUNK && !Binned(b, p, s)
    ensures BinsOk(InsertLarge(b, p, s))
    ensures forall a, t :: Binned(InsertLarge(b, p, s), a, t) <==> Binned(b, a, t) || (a == p && t == s)
  {
    RegisterSteers(s);
    var b', i := InsertLarge(b, p, s), TreeIndex(s);
    assert TreeBinOk(b.treebins[i], i);
    InsertOk(b.treebins[i], p, s, Register(s, i), BinLow(i), BinWidth(i), LeftShift(i));
    assert TreeBinOk(b'.treebins[i], i);
  }

  lemma UnlinkLargeOk(b: Bins, p: Addr, s: nat)
    requires BinsOk(b) && MIN_LARGE_SIZE <= s < MAX_CHUNK && Binned(b, p, s)
    ensures BinsOk(UnlinkLarge(b, p, s))
    ensures forall a, t :: Binned(UnlinkLarge(b, p, s), a, t) <==> Binned(b, a, t) && !(a == p && t == s)
  {
    RegisterSteers(s);
    var b', i := UnlinkLarge(b, p, s), TreeIndex(s);
    assert TreeBinOk(b.treebins[i], i);
    UnlinkOk(b.treebins[i], p, s, Register(s, i), BinLow(i), BinWidth(i), LeftShift(i));
    assert TreeBinOk(b'.treebins[i], i);
  }

  // insert_chunk and unlink_chunk
  function InsertChunk(b: Bins, p: Addr, s: nat): Bins
    requires |b.smallbins| == NSMALLBINS && |b.treebins| == NTREEBINS
  {
    if IsSmall(s) then InsertSmall(b, p, s) else InsertLarge(b, p, s)
  }

  function UnlinkChunk(b: Bins, p: Addr, s: nat): Bins
    requires |b.smallbins| == NSMALLBINS && |b.treebins| == NTREEBINS
    requires IsSmall(s) ==> p in b.smallbins[SmallIndex(s)]
  {
    if IsSmall(s) then UnlinkSmall(b, p, s) else UnlinkLarge(b, p, s)
  }

  lemma InsertChunkOk(b: Bins, p: Addr, s: nat)
    requires BinsOk(b) && 0 < s < MAX_CHUNK && s % 8 == 0 && !Binned(b, p, s)
    ensures BinsOk(InsertChunk(b, p, s))
    ensures forall a, t :: Binned(InsertChunk(b, p, s), a, t) <==> Binned(b, a, t) || (a == p && t == s)
  {
    if IsSmall(s) {
      InsertSmallOk(b, p, s);
    } else {
      InsertLargeOk(b, p, s);
    }
  }

  lemma UnlinkChunkOk(b: Bins, p: Addr, s: nat)
    requires BinsOk(b) && 0 < s < MAX_CHUNK && Binned(b, p, s)
    ensures BinsOk(UnlinkChunk(b, p, s))
    ensures forall a, t :: Binned(UnlinkChunk(b, p, s), a, t) <==> Binned(b, a, t) && !(a == p && t == s)
  {
    if IsSmall(s) {
      UnlinkSmallOk(b, p, s);
    } else {
      UnlinkLargeOk(b, p, s);
    }
  }
}
