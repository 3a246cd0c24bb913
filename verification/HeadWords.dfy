/** The head words of chunks as they are in memory (src/kernel/dlmalloc.cc): the flags of a chunk share a word
    with its size. */
module HeadWords {
  import opened HeapSizes
  import opened HeapSpace
  import opened HeapState

  // The word itself: size | CINUSE_BIT | PINUSE_BIT. No bits are set aside for the flags.
  function WordOf(t: Tag): nat {
    var w := if t.pinuse && t.size % 2 == 0 then t.size + 1 else t.size;
    if t.cinuse && w / 2 % 2 == 0 then w + 2 else w
  }

  // chunksize: head & ~FLAG_BITS
  function SizeIn(w: nat): nat {
    w - w % 8
  }

  // What do_check_top_chunk takes for the size of top: head & ~INUSE_BITS
  function TopSizeIn(w: nat): nat {
    w - w % 4
  }

  predicate CinuseIn(w: nat) {
    w / 2 % 2 == 1
  }

  predicate PinuseIn(w: nat) {
    w % 2 == 1
  }

  /** A tag can be read back from its word exactly when the three flag bits of the size are clear; for the size of
      top, as it is checked, two are enough. */
  lemma TagReadsBack(t: Tag)
    ensures Tag(SizeIn(WordOf(t)), CinuseIn(WordOf(t)), PinuseIn(WordOf(t))) == t <==> t.size % 8 == 0
    ensures SizeIn(WordOf(t)) == t.size <==> t.size % 8 == 0
    ensures TopSizeIn(WordOf(t)) == t.size <==> t.size % 4 == 0
    ensures t.pinuse && !t.cinuse ==> PinuseIn(WordOf(t)) && (CinuseIn(WordOf(t)) <==> t.size % 4 >= 2)
  {
    hide WordOf;
    var c := WordIs(t);
    var k, r := t.size / 8, t.size % 8;
    LowBits(k, r);
    LowBits(k, c);
    assert r in {0, 1, 2, 3, 4, 5, 6, 7};
  }

  // The flags change only the lowest three bits.
  lemma WordIs(t: Tag) returns (c: nat)
    ensures c < 8 && WordOf(t) == 8 * (t.size / 8) + c
    ensures var r := t.size % 8;
      c - c % 4 == r - r % 4 && (c % 2 == 1 <==> t.pinuse || r % 2 == 1) && (c / 2 % 2 == 1 <==> t.cinuse || r / 2 % 2 == 1)
  {
    var k, r := t.size / 8, t.size % 8;
    LowBits(k, r);
    var b := if t.pinuse && r % 2 == 0 then r + 1 else r;
    LowBits(k, b);
    c := if t.cinuse && b / 2 % 2 == 0 then b + 2 else b;
    assert WordOf(t) == 8 * k + c;
    hide WordOf;
    ThreeBits(r, b, c, t.cinuse, t.pinuse);
  }

  lemma ThreeBits(r: nat, b: nat, c: nat, cinuse: bool, pinuse: bool)
    requires r < 8 && b == (if pinuse && r % 2 == 0 then r + 1 else r) && c == if cinuse && b / 2 % 2 == 0 then b + 2 else b
    ensures c < 8 && c - c % 4 == r - r % 4 && (c % 2 == 1 <==> pinuse || r % 2 == 1) && (c / 2 % 2 == 1 <==> cinuse || r / 2 % 2 == 1)
  {
    assert r in {0, 1, 2, 3, 4, 5, 6, 7};
  }

  lemma LowBits(k: nat, b: nat)
    requires b < 8
    ensures (8 * k + b) % 8 == b && (8 * k + b) % 4 == b % 4 && (8 * k + b) % 2 == b % 2 && (8 * k + b) / 2 % 2 == b / 2 % 2
  {
    Parts(8 * k + b, k, b, 8);
    Parts(8 * k + b, 2 * k + b / 4, b % 4, 4);
    Parts(8 * k + b, 4 * k + b / 2, b % 2, 2);
    Parts(4 * k + b / 2, 2 * k + b / 4, b / 2 % 2, 2);
  }

  lemma Parts32(x: nat)
    requires x % 32 == 0
    ensures x % 8 == 0
  {
  }

  lemma Parts(x: nat, q: nat, r: nat, n: nat)
    requires n in {2, 4, 8} && r < n && x == n * q + r
    ensures x / n == q && x % n == r
  {
  }

  /** In a valid heap the flags in the head word of every chunk, and of top, say what they should, and so
      does the size of every chunk. */
  lemma HeadsReadBack(h: State, a: Addr)
    requires Valid(h) && (a in h.sp.starts || a == h.sp.top)
    ensures a in h.sp.head && CinuseIn(WordOf(h.sp.head[a])) == h.sp.head[a].cinuse && PinuseIn(WordOf(h.sp.head[a])) == h.sp.head[a].pinuse
    ensures a in h.sp.starts ==> SizeIn(WordOf(h.sp.head[a])) == h.sp.head[a].size
  {
    hide Valid, WordOf, SizeIn, TopSizeIn, CinuseIn, PinuseIn;
    if a in h.sp.starts {
      ChunkBounds(h, a);
      Parts32(h.sp.head[a].size);
    } else {
      TopIsAligned(h);
    }
    TagReadsBack(h.sp.head[a]);
  }

  lemma TopIsAligned(h: State)
    requires Valid(h)
    ensures h.sp.top % 32 == 16 && h.sp.top in h.sp.head && !h.sp.head[h.sp.top].cinuse && h.sp.head[h.sp.top].pinuse
    ensures h.sp.head[h.sp.top].size % 4 == h.limit % 4 < 2
  {
  }

  /** In a new mspace top reads as not in use exactly when the segment ends at 0 or 1 modulo 4, and has the
      size that the checker compares exactly when it ends at 0. */
  lemma TopReadsBack(base: Addr, capacity: nat)
    requires AlignOffset(base + MEM_OFFSET) + MSTATE_SIZE + TOP_FOOT_SIZE < capacity < WORD
    ensures var w := WordOf(Tag(TopSize(base, capacity), false, true));
      (CinuseIn(w) <==> (base + capacity) % 4 >= 2) && (TopSizeIn(w) == TopSize(base, capacity) <==> (base + capacity) % 4 == 0)
  {
    hide WordOf, SizeIn, TopSizeIn, CinuseIn, PinuseIn;
    var size := TopSize(base, capacity);
    TopBits(base, capacity);
    TagReadsBack(Tag(size, false, true));
  }

  /** A segment of 4098 bytes at 4096 is accepted, and its top reads as a chunk in use: the first test of
      mspace_free and dispose_chunk on the chunk behind sends a block in front of it to a bin and not to top. */
  lemma TopReadsInUse()
    ensures MSTATE_SIZE + TOP_FOOT_SIZE < 4098 && 0 < TopSize(4096, 4098) <= 4098
    ensures CinuseIn(WordOf(Tag(TopSize(4096, 4098), false, true)))
  {
    hide WordOf, SizeIn, TopSizeIn, CinuseIn, PinuseIn;
    assert AlignOffset(4096 + MEM_OFFSET) == 16;
    TopReadsBack(4096, 4098);
    TopInside(4096, 4098);
  }
}
