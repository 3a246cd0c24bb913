/** Whole compressed streams (section 3.2.3 of RFC 1951; deps/miniz/tinfl.c): block after block, stored, with the
    fixed codes or with codes of its own, until the one marked as the last. */
module Deflate {
  import opened Powers
  import opened BitStrings
  import opened CanonicalCode
  import opened HuffmanTable
  import opened BitReader
  import opened Tokens
  import BlockHeader
  import CodeLengths
  import Inflater

  // ------------------------------------------------------------------
  // The fixed codes
  // ------------------------------------------------------------------

  function Times(v: nat, n: nat): seq<nat> {
    seq(n, _ => v)
  }

  // Section 3.2.6 of RFC 1951.
  function FixedLits(): (s: seq<nat>)
    ensures |s| == 288
  {
    Times(8, 144) + (Times(9, 112) + (Times(7, 24) + Times(8, 8)))
  }

  function FixedDists(): (s: seq<nat>)
    ensures |s| == 32
  {
    Times(5, 32)
  }

  lemma {:induction false} CountTimes(v: nat, n: nat, l: nat, k: nat)
    requires k <= n
    ensures CountBelow(Times(v, n), l, k) == if v == l then k else 0
  {
    if k > 0 {
      CountTimes(v, n, l, k - 1);
    }
  }

  lemma {:induction false} CountAppend(a: seq<nat>, b: seq<nat>, l: nat, k: nat)
    requires k <= |b|
    ensures CountBelow(a + b, l, |a| + k) == Count(a, l) + CountBelow(b, l, k)
  {
    if k == 0 {
      CountFront(a, b, l, |a|);
    } else {
      CountAppend(a, b, l, k - 1);
      assert (a + b)[|a| + k - 1] == b[k - 1];
    }
  }

  lemma {:induction false} CountFront(a: seq<nat>, b: seq<nat>, l: nat, k: nat)
    requires k <= |a|
    ensures CountBelow(a + b, l, k) == CountBelow(a, l, k)
  {
    if k > 0 {
      CountFront(a, b, l, k - 1);
    }
  }

  lemma FixedCounts(l: nat)
    ensures Count(FixedLits(), l) == (if l == 7 then 24 else if l == 8 then 152 else if l == 9 then 112 else 0)
    ensures Count(FixedDists(), l) == if l == 5 then 32 else 0
  {
    hide CountBelow;
    var a, b, c, d := Times(8, 144), Times(9, 112), Times(7, 24), Times(8, 8);
    CountTimes(8, 144, l, 144);
    CountTimes(9, 112, l, 112);
    CountTimes(7, 24, l, 24);
    CountTimes(8, 8, l, 8);
    CountTimes(5, 32, l, 32);
    CountAppend(c, d, l, |d|);
    CountAppend(b, c + d, l, |c + d|);
    CountAppend(a, b + (c + d), l, |b + (c + d)|);
  }

  // The first code of each length, from length a on.
  lemma {:induction false} FirstDoubles(lens: seq<nat>, a: nat, l: nat)
    requires 1 <= a <= l && forall k :: a <= k < l ==> Count(lens, k) == 0
    ensures First(lens, l) == First(lens, a) * Pow2(l - a)
    decreases l
  {
    hide Count;
    if a < l {
      FirstDoubles(lens, a, l - 1);
      assert First(lens, l) == 2 * (First(lens, l - 1) + Count(lens, l - 1));
      assert Pow2(l - a) == 2 * Pow2(l - 1 - a);
      DoubleTimes(First(lens, a), Pow2(l - 1 - a));
    }
  }

  lemma DoubleTimes(a: nat, b: nat)
    ensures 2 * (a * b) == a * (2 * b)
  {
  }

  lemma SmallPowers()
    ensures Pow2(6) == 64 && Pow2(10) == 1024
  {
    assert Pow2(3) == 8;
  }

  /** The fixed codes leave no bit string without a code. */
  lemma FixedComplete()
    ensures CodesOk(Codes(FixedLits(), FixedDists()))
  {
    hide Count, FixedLits, FixedDists, First, Pow2;
    var a, b := FixedLits(), FixedDists();
    FixedFit();
    forall l: nat
      ensures Count(a, l) == (if l == 7 then 24 else if l == 8 then 152 else if l == 9 then 112 else 0)
      ensures Count(b, l) == if l == 5 then 32 else 0
    {
      FixedCounts(l);
    }
    SmallPowers();
    FirstIsZero(a);
    FirstIsZero(b);
    FirstDoubles(a, 1, 7);
    FirstStep(a, 7);
    FirstStep(a, 8);
    FirstStep(a, 9);
    FirstDoubles(a, 10, 16);
    FirstDoubles(b, 1, 5);
    FirstStep(b, 5);
    FirstDoubles(b, 6, 16);
  }

  lemma FixedFit()
    ensures Lengths(FixedLits()) && Lengths(FixedDists())
  {
  }

  // ------------------------------------------------------------------
  // What a stream means
  // ------------------------------------------------------------------

  // A block by what its bits are made of, after the three that say which kind it is.
  datatype Blk =
    | Stored(pad: seq<bool>, data: seq<nat>)
    | Fixed(toks: seq<Token>, bits: seq<bool>)
    | Dynamic(header: seq<bool>, items: seq<CodeLengths.Item>, toks: seq<Token>, bits: seq<bool>)

  function TypeBits(b: Blk): (s: seq<bool>)
    ensures |s| == 2
  {
    [b.Fixed?, b.Dynamic?]
  }

  // LEN and NLEN, each from its low byte.
  function LenBytes(n: nat): seq<nat> {
    [n % 256, n / 256 % 256, (65535 - n % 65536) % 256, (65535 - n % 65536) / 256]
  }

  ghost predicate HeaderOk(h: seq<bool>) {
    |h| >= 14 && BlockHeader.Size(h, 2) <= 19 && |h| == 14 + 3 * BlockHeader.Size(h, 2)
  }

  ghost function CodeLens(h: seq<bool>): seq<nat>
    requires HeaderOk(h)
  {
    BlockHeader.LengthsOf(h, BlockHeader.Size(h, 2))
  }

  ghost predicate ItemsOk(h: seq<bool>, items: seq<CodeLengths.Item>) {
    HeaderOk(h) && CodeLengths.Whole(CodeLens(h), items, BlockHeader.Size(h, 0) + BlockHeader.Size(h, 1))
  }

  // The two codes of a dynamic block.
  ghost function DynamicCodes(h: seq<bool>, items: seq<CodeLengths.Item>): Codes
    requires ItemsOk(h, items)
  {
    var n, lens := BlockHeader.Size(h, 0), CodeLengths.Expanded(items);
    Codes(lens[..n], lens[n..])
  }

  ghost predicate TokensOk(pre: seq<nat>, c: Codes, toks: seq<Token>, bits: seq<bool>) {
    CodesOk(c) && AllCoded(c, toks, bits) && InReach(pre, toks) && toks != [] && toks[|toks| - 1] == EndOfBlock
  }

  // The data of a stored block begin at a byte of the input, so that what follows is bytes.
  ghost predicate BlkOk(pre: seq<nat>, b: Blk, after: seq<bool>) {
    match b
    case Stored(pad, data) => |pad| < 8 && |data| < 65536 && Bytes(data) && |after| % 8 == 0
    case Fixed(toks, bits) => TokensOk(pre, Codes(FixedLits(), FixedDists()), toks, bits)
    case Dynamic(header, items, toks, bits) => ItemsOk(header, items) && TokensOk(pre, DynamicCodes(header, items), toks, bits)
  }

  ghost function BlkBits(b: Blk): seq<bool>
    requires b.Dynamic? ==> ItemsOk(b.header, b.items)
  {
    match b
    case Stored(pad, data) => pad + BitsOf(LenBytes(|data|) + data)
    case Fixed(_, bits) => bits
    case Dynamic(header, items, _, bits) => header + (CodeLengths.AllBits(CodeLens(header), items) + bits)
  }

  ghost function After(pre: seq<nat>, b: Blk): seq<nat> {
    if b.Stored? then pre + b.data else Output(pre, b.toks)
  }

  // The stream s begins with the block b and goes on with s'.
  ghost predicate Heads(pre: seq<nat>, b: Blk, last: bool, s: seq<bool>, s': seq<bool>) {
    BlkOk(pre, b, s') && s == [last] + TypeBits(b) + (BlkBits(b) + s')
  }

  // The stream s is the blocks, the last of them marked, and then rest.
  ghost predicate StreamOk(pre: seq<nat>, blks: seq<Blk>, s: seq<bool>, rest: seq<bool>)
    decreases |blks|
  {
    && blks != []
    && exists s' :: Heads(pre, blks[0], |blks| == 1, s, s') && (if |blks| == 1 then rest == s' else StreamOk(After(pre, blks[0]), blks[1..], s', rest))
  }

  // What the blocks stand for.
  ghost function Inflated(pre: seq<nat>, blks: seq<Blk>): seq<nat>
    decreases |blks|
  {
    if blks == [] then pre else Inflated(After(pre, blks[0]), blks[1..])
  }

  lemma AfterGrows(pre: seq<nat>, b: Blk)
    ensures |pre| <= |After(pre, b)|
  {
    if !b.Stored? {
      OutputPrefix(pre, b.toks, 0);
      assert b.toks[..0] == [];
    }
  }

  lemma {:induction false} InflatedGrows(pre: seq<nat>, blks: seq<Blk>)
    ensures |pre| <= |Inflated(pre, blks)|
    decreases |blks|
  {
    if blks != [] {
      AfterGrows(pre, blks[0]);
      InflatedGrows(After(pre, blks[0]), blks[1..]);
    }
  }

  // ------------------------------------------------------------------
  // Stored blocks
  // ------------------------------------------------------------------

  lemma StreamLength(r: Reader)
    ensures r.num_bits % 8 == |r.Stream()| % 8
  {
    assert |r.Stream()| == r.num_bits + 8 * |r.input|;
  }

  lemma FirstBits(c: nat, more: seq<nat>, after: seq<bool>)
    requires c < 256
    ensures var s := BitsOf([c] + more) + after; |s| >= 8 && s[..8] == Low(c, 8) && s[8..] == BitsOf(more) + after
  {
    hide Low;
    assert ([c] + more)[1..] == more && ([c] + more)[0] == c;
    assert BitsOf([c] + more) == Low(c, 8) + BitsOf(more);
  }

  lemma ByteValue(c: nat)
    requires c < 256
    ensures Val(Low(c, 8)) == c
  {
    ValOfLow(c, 8);
    assert Pow2(4) == 16;
  }

  // One byte of the input, from the bit buffer or directly.
  method ReadByte(r: Reader, ghost c: nat, ghost more: seq<nat>, ghost after: seq<bool>) returns (b: nat)
    requires r.Valid() && c < 256 && r.Stream() == BitsOf([c] + more) + after
    modifies r
    ensures r.Valid() && b == c && r.Stream() == BitsOf(more) + after
  {
    hide Low, Val, BitsOf, Pow2;
    FirstBits(c, more, after);
    ByteValue(c);
    var ok;
    ok, b := r.GetBits(8);
  }

  lemma LenBytesAre(n: nat)
    requires n < 65536
    ensures var s := LenBytes(n);
      && s == [s[0]] + ([s[1]] + ([s[2]] + ([s[3]] + []))) && s[0] < 256 && s[1] < 256 && s[2] < 256 && s[3] < 256
      && s[0] + 256 * s[1] == n == 65535 - (s[2] + 256 * s[3])
  {
  }

  // 0xFFFF ^ x
  function Complement(x: nat): nat
    requires x < 65536
  {
    65535 - x
  }

  /** LEN and NLEN: they are accepted if and only if one is the complement of the other, that is, if some length is
      written so. */
  method ReadLength(r: Reader, ghost h: seq<nat>, ghost more: seq<nat>, ghost after: seq<bool>) returns (ok: bool, counter: nat)
    requires r.Valid() && |h| == 4 && Bytes(h) && r.Stream() == BitsOf(h + more) + after
    modifies r
    ensures r.Valid() && r.Stream() == BitsOf(more) + after && counter < 65536
    ensures ok <==> h == LenBytes(counter)
    ensures ok <==> exists n: nat :: n < 65536 && h == LenBytes(n)
  {
    hide Low, Val, BitsOf, Pow2, LenBytes;
    assert h + more == [h[0]] + ([h[1]] + ([h[2]] + ([h[3]] + more)));
    var b0 := ReadByte(r, h[0], [h[1]] + ([h[2]] + ([h[3]] + more)), after);
    var b1 := ReadByte(r, h[1], [h[2]] + ([h[3]] + more), after);
    var b2 := ReadByte(r, h[2], [h[3]] + more, after);
    var b3 := ReadByte(r, h[3], more, after);
    counter := b0 + 256 * b1;
    ok := counter == Complement(b2 + 256 * b3);
    IsLength(h, counter, ok);
  }

  lemma IsLength(h: seq<nat>, counter: nat, ok: bool)
    requires |h| == 4 && Bytes(h) && counter == h[0] + 256 * h[1] && ok == (counter == Complement(h[2] + 256 * h[3]))
    ensures ok <==> h == LenBytes(counter)
    ensures ok <==> exists n: nat :: n < 65536 && h == LenBytes(n)
  {
    LenBytesAre(counter);
    forall n: nat | n < 65536 && h == LenBytes(n) ensures n == counter {
      LenBytesAre(n);
    }
    if ok {
      FourBytes(h, LenBytes(counter));
    }
  }

  lemma FourBytes(a: seq<nat>, b: seq<nat>)
    requires |a| == |b| == 4 && Bytes(a) && Bytes(b)
    requires a[0] + 256 * a[1] == b[0] + 256 * b[1] && a[2] + 256 * a[3] == b[2] + 256 * b[3]
    ensures a == b
  {
  }

  method CopyStored(r: Reader, buf: array<nat>, start: nat, counter0: nat, ghost data: seq<nat>, ghost after: seq<bool>) returns (end: nat)
    requires r.Valid() && r.Stream() == BitsOf(data) + after && counter0 == |data| && Bytes(data) && start + |data| <= buf.Length
    modifies r, buf
    ensures r.Valid() && r.Stream() == after && end == start + |data| && buf[..end] == old(buf[..start]) + data
  {
    hide Low, Val, BitsOf, Pow2;
    var counter := counter0;
    end := start;
    while counter > 0
      invariant 0 <= counter <= |data| && end == start + (|data| - counter) && r.Valid()
      invariant r.Stream() == BitsOf(data[|data| - counter..]) + after
      invariant buf[..end] == old(buf[..start]) + data[..|data| - counter]
    {
      ghost var i := |data| - counter;
      assert data[i..] == [data[i]] + data[i + 1..];
      var c := ReadByte(r, data[i], data[i + 1..], after);
      buf[end] := c;
      assert data[..i + 1] == data[..i] + [data[i]];
      end, counter := end + 1, counter - 1;
    }
    assert data[|data|..] == [] && data[..|data|] == data;
    NoBits(after);
  }

  /** A stored block: its data are put out. */
  method InflateStored(r: Reader, buf: array<nat>, start: nat, ghost pad: seq<bool>, ghost data: seq<nat>, ghost after: seq<bool>) returns (end: nat)
    requires r.Valid() && r.Stream() == pad + BitsOf(LenBytes(|data|) + data) + after
    requires |pad| < 8 && |data| < 65536 && Bytes(data) && |after| % 8 == 0 && start + |data| <= buf.Length
    modifies r, buf
    ensures r.Valid() && r.Stream() == after && end == start + |data| && buf[..end] == old(buf[..start]) + data
  {
    hide Low, Val, BitsOf, Pow2, LenBytes;
    ghost var n := LenBytes(|data|);
    StreamLength(r);
    BitsLength(n + data);
    PadLength(pad, BitsOf(n + data), after, |n + data|);
    r.Drop(r.num_bits % 8);
    LenBytesAre(|data|);
    var ok, counter := ReadLength(r, n, data, after);
    LenOnce(|data|, counter);
    end := CopyStored(r, buf, start, counter, data, after);
  }

  lemma BitsLength(bytes: seq<nat>)
    ensures |BitsOf(bytes)| == 8 * |bytes|
  {
  }

  lemma NoBits(after: seq<bool>)
    ensures BitsOf([]) + after == after
  {
  }

  lemma PadLength(pad: seq<bool>, w: seq<bool>, after: seq<bool>, n: nat)
    requires |pad| < 8 && |w| == 8 * n && |after| % 8 == 0
    ensures |pad + w + after| % 8 == |pad| && (pad + w + after)[|pad|..] == w + after
  {
    var k := n + |after| / 8;
    assert |pad + w + after| == 8 * k + |pad|;
  }

  // ------------------------------------------------------------------
  // Blocks with codes
  // ------------------------------------------------------------------

  // The tables of a code.
  method MakeTable(lens: seq<nat>) returns (look: seq<int>, tree: seq<int>)
    requires Lengths(lens) && Complete(lens) && |lens| <= MAX_SYMBOLS
    ensures Decodes(lens, look, tree)
  {
    hide Complete, Decodes, First;
    var next, accepted := CountLengths(lens);
    assert accepted;                    // the test of the source
    var lookup, nodes := new int[FAST_SIZE], new int[TREE_SIZE];
    BuildTable(lens, next, lookup, nodes);
    look, tree := lookup[..], nodes[..];
  }

  /** A block of tokens in two complete codes: what they stand for is put out. */
  method InflateCoded(r: Reader, buf: array<nat>, start: nat, lits: seq<nat>, dists: seq<nat>, ghost toks: seq<Token>, ghost bits: seq<bool>, ghost after: seq<bool>)
    returns (end: nat)
    requires r.Valid() && start <= buf.Length && r.Stream() == bits + after && |lits| <= MAX_SYMBOLS && |dists| <= MAX_SYMBOLS
    requires TokensOk(buf[..start], Codes(lits, dists), toks, bits) && |Output(buf[..start], toks)| <= buf.Length
    modifies r, buf
    ensures r.Valid() && r.Stream() == after && end <= buf.Length && buf[..end] == Output(old(buf[..start]), toks)
  {
    hide Low, Val, BitsOf, Decodes, Complete, AllCoded, InReach, Output, Inflater.Reading, Inflater.HandOk;
    ghost var codes, pre := Codes(lits, dists), buf[..start];
    var look0, tree0 := MakeTable(lits);
    var look1, tree1 := MakeTable(dists);
    var b := new Inflater.Block(r, look0, tree0, look1, tree1, buf, start, codes);
    assert Inflater.WholeBlock(pre, codes, toks, bits, b.fed);
    assert b.fed[|bits|..] == after;
    var done := Inflater.InflateBlock(b, toks, bits);
    end := b.cur;
  }

  // What a header says does not depend on what comes after it.
  lemma HeaderOnly(h: seq<bool>, more: seq<bool>)
    requires HeaderOk(h)
    ensures |h + more| >= 14 && forall i :: 0 <= i < 3 ==> BlockHeader.Size(h + more, i) == BlockHeader.Size(h, i)
    ensures BlockHeader.LengthsOf(h + more, BlockHeader.Size(h, 2)) == CodeLens(h)
  {
    forall i | 0 <= i < 3 ensures BlockHeader.Size(h + more, i) == BlockHeader.Size(h, i) {
      assert (h + more)[5 * i..5 * i + BlockHeader.SizeBits(i)] == h[5 * i..5 * i + BlockHeader.SizeBits(i)];
    }
    BlockHeader.LengthsStay(h, more, BlockHeader.Size(h, 2));
  }

  // The header of a dynamic block.
  method ReadHeader(r: Reader, ghost h: seq<bool>, ghost more: seq<bool>) returns (lits: nat, dists: nat, lens: seq<nat>)
    requires r.Valid() && HeaderOk(h) && r.Stream() == h + more
    modifies r
    ensures r.Valid() && r.Stream() == more && lits == BlockHeader.Size(h, 0) && dists == BlockHeader.Size(h, 1) && lens == CodeLens(h)
  {
    hide Low, Val, BitsOf, BlockHeader.LengthsOf;
    HeaderOnly(h, more);
    var header := new BlockHeader.Header(r);
    var ok := header.Run();
    assert ok;
    lits, dists, lens := header.sizes[0], header.sizes[1], header.code_size[..];
    assert (h + more)[|h|..] == more;
  }

  // The code lengths of a dynamic block.
  method ReadLengths(r: Reader, lits: nat, dists: nat, lens: seq<nat>, ghost items: seq<CodeLengths.Item>, ghost more: seq<bool>)
    returns (first: seq<nat>, second: seq<nat>)
    requires r.Valid() && 257 <= lits <= 288 && 1 <= dists <= 32 && CodeLengths.Whole(lens, items, lits + dists)
    requires r.Stream() == CodeLengths.AllBits(lens, items) + more
    modifies r
    ensures r.Valid() && r.Stream() == more && first + second == CodeLengths.Expanded(items) && |first| == lits && |second| == dists
  {
    hide Low, Val, BitsOf, Decodes, Complete, CodeLengths.Reading, CodeLengths.Expanded, CodeLengths.AllBits, CodeLengths.Legal;
    var look, tree := MakeTable(lens);
    var len_codes := new nat[CodeLengths.ROOM];
    var e := new CodeLengths.Expander(r, look, tree, lits, dists, len_codes, lens);
    var waits := e.Run();
    CodeLengths.NotFooled(lens, e.fed, e.items, e.part, r.Stream(), e.total, e.phase, e.dist, items, more);
    first, second := e.Split(lits);
  }

  /** A dynamic block, from the first bit of its header on. */
  method InflateDynamic(r: Reader, buf: array<nat>, start: nat, ghost b: Blk, ghost after: seq<bool>) returns (end: nat)
    requires r.Valid() && start <= buf.Length && b.Dynamic? && BlkOk(buf[..start], b, after) && r.Stream() == BlkBits(b) + after
    requires |After(buf[..start], b)| <= buf.Length
    modifies r, buf
    ensures r.Valid() && r.Stream() == after && end <= buf.Length && buf[..end] == After(old(buf[..start]), b)
  {
    hide Low, Val, BitsOf, Output, AllCoded, InReach, CodesOk, HeaderOk, CodeLens, CodeLengths.Whole, CodeLengths.AllBits, CodeLengths.Expanded;
    SymbolsFit(b.header, b.items);
    ghost var h, w := b.header, CodeLengths.AllBits(CodeLens(b.header), b.items);
    assert h + (w + b.bits) + after == h + (w + (b.bits + after));
    HeaderSizes(h);
    var lits, dists, lens := ReadHeader(r, h, w + (b.bits + after));
    var first, second := ReadLengths(r, lits, dists, lens, b.items, b.bits + after);
    assert DynamicCodes(h, b.items) == Codes(first, second);
    end := InflateCoded(r, buf, start, first, second, b.toks, b.bits, after);
  }

  lemma HeaderSizes(h: seq<bool>)
    requires HeaderOk(h)
    ensures 257 <= BlockHeader.Size(h, 0) <= 288 && 1 <= BlockHeader.Size(h, 1) <= 32
  {
    BlockHeader.SizeRange(h, 0);
    BlockHeader.SizeRange(h, 1);
  }

  lemma SymbolsFit(h: seq<bool>, items: seq<CodeLengths.Item>)
    requires ItemsOk(h, items)
    ensures forall i :: 0 <= i < |items| ==> items[i].sym < |CodeLens(h)|
  {
  }

  // ------------------------------------------------------------------
  // The stream
  // ------------------------------------------------------------------

  // The fixed codes, as the source sets them up.
  method FixedLengths() returns (lits: seq<nat>, dists: seq<nat>)
    ensures lits == FixedLits() && dists == FixedDists()
  {
    var p := new nat[288];
    var i := 0;
    while i <= 143
      invariant 0 <= i <= 144 && forall k :: 0 <= k < i ==> p[k] == 8
    {
      p[i], i := 8, i + 1;
    }
    while i <= 255
      invariant 144 <= i <= 256 && (forall k :: 0 <= k < 144 ==> p[k] == 8) && forall k :: 144 <= k < i ==> p[k] == 9
    {
      p[i], i := 9, i + 1;
    }
    while i <= 279
      invariant 256 <= i <= 280 && (forall k :: 0 <= k < 144 ==> p[k] == 8) && (forall k :: 144 <= k < 256 ==> p[k] == 9)
      invariant forall k :: 256 <= k < i ==> p[k] == 7
    {
      p[i], i := 7, i + 1;
    }
    while i <= 287
      invariant 280 <= i <= 288 && (forall k :: 0 <= k < 144 ==> p[k] == 8) && (forall k :: 144 <= k < 256 ==> p[k] == 9)
      invariant (forall k :: 256 <= k < 280 ==> p[k] == 7) && forall k :: 280 <= k < i ==> p[k] == 8
    {
      p[i], i := 8, i + 1;
    }
    lits, dists := p[..], seq(32, _ => 5);
    assert lits == FixedLits();
  }

  // The three bits at the begin of a block, as a number.
  lemma KindBits(last: bool, b: Blk)
    ensures Val([last] + TypeBits(b)) == (if last then 1 else 0) + 2 * (if b.Stored? then 0 else if b.Fixed? then 1 else 2)
  {
    var s := [last] + TypeBits(b);
    assert s[1..] == TypeBits(b) && TypeBits(b)[1..] == [b.Dynamic?] && [b.Dynamic?][1..] == [];
    assert Val([b.Dynamic?]) == Bit(b.Dynamic?) + 2 * Val([]);
    assert Val(TypeBits(b)) == Bit(b.Fixed?) + 2 * Val([b.Dynamic?]);
    assert Val(s) == Bit(last) + 2 * Val(TypeBits(b));
  }

  // One block after the bits that say its kind.
  method InflateBody(r: Reader, buf: array<nat>, start: nat, kind: nat, ghost b: Blk, ghost after: seq<bool>) returns (end: nat)
    requires r.Valid() && start <= buf.Length && BlkOk(buf[..start], b, after) && r.Stream() == BlkBits(b) + after
    requires kind == (if b.Stored? then 0 else if b.Fixed? then 1 else 2) && |After(buf[..start], b)| <= buf.Length
    modifies r, buf
    ensures r.Valid() && r.Stream() == after && end <= buf.Length && buf[..end] == After(old(buf[..start]), b)
  {
    hide Low, Val, BitsOf, Output, TokensOk, ItemsOk, LenBytes, FixedLits, FixedDists, DynamicCodes;
    if kind == 0 {
      end := InflateStored(r, buf, start, b.pad, b.data, after);
    } else if kind == 1 {
      var lits, dists := FixedLengths();
      end := InflateCoded(r, buf, start, lits, dists, b.toks, b.bits, after);
    } else {
      end := InflateDynamic(r, buf, start, b, after);
    }
  }

  // The first block of a stream, and the rest.
  lemma FirstBlock(pre: seq<nat>, blks: seq<Blk>, s: seq<bool>, rest: seq<bool>) returns (s': seq<bool>)
    requires StreamOk(pre, blks, s, rest)
    ensures blks != [] && Heads(pre, blks[0], |blks| == 1, s, s')
    ensures if |blks| == 1 then rest == s' else StreamOk(After(pre, blks[0]), blks[1..], s', rest)
    ensures |After(pre, blks[0])| <= |Inflated(pre, blks)| && Inflated(pre, blks) == Inflated(After(pre, blks[0]), blks[1..])
  {
    hide Heads, After;
    s' :| Heads(pre, blks[0], |blks| == 1, s, s') && (if |blks| == 1 then rest == s' else StreamOk(After(pre, blks[0]), blks[1..], s', rest));
    InflatedGrows(After(pre, blks[0]), blks[1..]);
  }

  /** One block of a stream. */
  method InflateNext(r: Reader, buf: array<nat>, start: nat, ghost b: Blk, ghost last: bool, ghost after: seq<bool>) returns (final: bool, end: nat)
    requires r.Valid() && start <= buf.Length && Heads(buf[..start], b, last, r.Stream(), after) && |After(buf[..start], b)| <= buf.Length
    modifies r, buf
    ensures r.Valid() && r.Stream() == after && final == last && end <= buf.Length && buf[..end] == After(old(buf[..start]), b)
  {
    hide Low, Val, BitsOf, TokensOk, ItemsOk, BlkBits, After;
    ghost var head := [last] + TypeBits(b);
    KindBits(last, b);
    KindSplits(head, BlkBits(b) + after);
    var ok, bits := r.GetBits(3);
    final := bits % 2 == 1;
    end := InflateBody(r, buf, start, bits / 2, b, after);
  }

  lemma KindSplits(head: seq<bool>, tail: seq<bool>)
    requires |head| == 3
    ensures |head + tail| >= 3 && (head + tail)[..3] == head && (head + tail)[3..] == tail
  {
  }

  /** The inflater on a whole stream, with all of the input at hand and room for the output: it puts out exactly
      what the blocks stand for, and leaves what comes after the last one. */
  method InflateStream(r: Reader, buf: array<nat>, ghost blks: seq<Blk>, ghost rest: seq<bool>) returns (end: nat)
    requires r.Valid() && StreamOk([], blks, r.Stream(), rest) && |Inflated([], blks)| <= buf.Length
    modifies r, buf
    ensures r.Valid() && r.Stream() == rest && end <= buf.Length && buf[..end] == Inflated([], blks)
  {
    hide Low, Val, BitsOf, StreamOk, Inflated, Heads, After;
    ghost var left := blks;
    var final := false;
    end := 0;
    assert buf[..0] == [];
    while !final
      invariant r.Valid() && end <= buf.Length
      invariant !final ==> StreamOk(buf[..end], left, r.Stream(), rest) && Inflated(buf[..end], left) == Inflated([], blks)
      invariant final ==> r.Stream() == rest && buf[..end] == Inflated([], blks)
      decreases |left| + (if final then 0 else 1)
    {
      ghost var after := FirstBlock(buf[..end], left, r.Stream(), rest);
      final, end := InflateNext(r, buf, end, left[0], |left| == 1, after);
      NothingLeft(buf[..end], left);
      left := left[1..];
    }
  }

  lemma NothingLeft(pre: seq<nat>, blks: seq<Blk>)
    requires |blks| >= 1
    ensures |blks| == 1 ==> Inflated(pre, blks[1..]) == pre
  {
  }

  // ------------------------------------------------------------------
  // One meaning
  // ------------------------------------------------------------------

  lemma SameToks(pre: seq<nat>, c: Codes, a: seq<Token>, p: seq<bool>, b: seq<Token>, q: seq<bool>, s: seq<bool>)
    requires TokensOk(pre, c, a, p) && TokensOk(pre, c, b, q) && p <= s && q <= s
    ensures a == b && p == q
  {
    hide CodesOk, AllCoded, InReach;
    if |a| <= |b| {
      OneReading(c, a, b, p, q, s);
      Inflater.EndIsLast(pre, a, b);
    } else {
      OneReading(c, b, a, q, p, s);
      Inflater.EndIsLast(pre, b, a);
    }
    SameTokens(c, a, b, p, q, s);
  }

  lemma SameHeader(h: seq<bool>, k: seq<bool>, s: seq<bool>)
    requires HeaderOk(h) && HeaderOk(k) && h <= s && k <= s
    ensures h == k
  {
    HeaderOnly(h, s[|h|..]);
    HeaderOnly(k, s[|k|..]);
    assert h + s[|h|..] == s && k + s[|k|..] == s;
  }

  lemma SameItems(h: seq<bool>, a: seq<CodeLengths.Item>, b: seq<CodeLengths.Item>, s: seq<bool>)
    requires ItemsOk(h, a) && ItemsOk(h, b)
    requires CodeLengths.AllBits(CodeLens(h), a) <= s && CodeLengths.AllBits(CodeLens(h), b) <= s
    ensures a == b
  {
    hide Complete, CodeLengths.Legal, CodeLengths.Expanded, CodeLengths.AllBits, CodeLens;
    var lens, total := CodeLens(h), BlockHeader.Size(h, 0) + BlockHeader.Size(h, 1);
    if |a| <= |b| {
      CodeLengths.OneReading(lens, a, b, total, s);
      CodeLengths.CompleteIsLast(lens, a, b, total);
    } else {
      CodeLengths.OneReading(lens, b, a, total, s);
      CodeLengths.CompleteIsLast(lens, b, a, total);
    }
  }

  lemma SameDynamic(pre: seq<nat>, a: Blk, b: Blk, s: seq<bool>, p: seq<bool>, q: seq<bool>)
    requires a.Dynamic? && b.Dynamic? && BlkOk(pre, a, p) && BlkOk(pre, b, q) && s == BlkBits(a) + p == BlkBits(b) + q
    ensures a == b && p == q
  {
    hide HeaderOk, CodeLens, TokensOk, CodeLengths.Whole, CodeLengths.AllBits, DynamicCodes;
    SymbolsFit(a.header, a.items);
    SymbolsFit(b.header, b.items);
    var w, v := CodeLengths.AllBits(CodeLens(a.header), a.items), CodeLengths.AllBits(CodeLens(b.header), b.items);
    Regroup(a.header, w, a.bits, p);
    Regroup(b.header, v, b.bits, q);
    SameHeader(a.header, b.header, s);
    SameRest(a.header, w + (a.bits + p), v + (b.bits + q));
    SameItems(a.header, a.items, b.items, w + (a.bits + p));
    SameRest(w, a.bits + p, b.bits + q);
    SameToks(pre, DynamicCodes(a.header, a.items), a.toks, a.bits, b.toks, b.bits, a.bits + p);
    SameRest(a.bits, p, q);
  }

  lemma Regroup(h: seq<bool>, w: seq<bool>, x: seq<bool>, p: seq<bool>)
    ensures h + (w + x) + p == h + (w + (x + p)) && h <= h + (w + x) + p && w <= w + (x + p)
  {
  }

  lemma SameRest(h: seq<bool>, x: seq<bool>, y: seq<bool>)
    requires h + x == h + y
    ensures x == y
  {
    assert x == (h + x)[|h|..] && y == (h + y)[|h|..];
  }

  lemma SameStored(a: Blk, b: Blk, s: seq<bool>, p: seq<bool>, q: seq<bool>)
    requires a.Stored? && b.Stored? && BlkOk([], a, p) && BlkOk([], b, q) && s == BlkBits(a) + p == BlkBits(b) + q
    ensures a.data == b.data && p == q
  {
    hide BitsOf, LenBytes;
    var x, y := LenBytes(|a.data|) + a.data, LenBytes(|b.data|) + b.data;
    BitsLength(x);
    BitsLength(y);
    PadLength(a.pad, BitsOf(x), p, |x|);
    PadLength(b.pad, BitsOf(y), q, |y|);
    assert BitsOf(x) + p == BitsOf(y) + q;
    SameBytes(a.data, b.data, p, q);
  }

  lemma {:induction false} BytesOnce(x: seq<nat>, y: seq<nat>, p: seq<bool>, q: seq<bool>)
    requires BitsOf(x) + p == BitsOf(y) + q && |x| <= |y| && Bytes(x) && Bytes(y)
    ensures x <= y && p == BitsOf(y[|x|..]) + q
    decreases |x|
  {
    if x == [] {
      hide BitsOf;
      assert y[0..] == y;
      NoBits(p);
    } else {
      hide BitsOf, Low;
      var s := BitsOf(x) + p;
      assert x == [x[0]] + x[1..] && y == [y[0]] + y[1..];
      FirstBits(x[0], x[1..], p);
      FirstBits(y[0], y[1..], q);
      ByteValue(x[0]);
      ByteValue(y[0]);
      BytesOnce(x[1..], y[1..], p, q);
      assert y[1..][|x| - 1..] == y[|x|..];
    }
  }

  lemma LenOnce(a: nat, b: nat)
    requires a < 65536 && b < 65536 && LenBytes(a) == LenBytes(b)
    ensures a == b
  {
    LenBytesAre(a);
    LenBytesAre(b);
  }

  lemma SameBytes(a: seq<nat>, b: seq<nat>, p: seq<bool>, q: seq<bool>)
    requires |a| < 65536 && |b| < 65536 && Bytes(a) && Bytes(b)
    requires BitsOf(LenBytes(|a|) + a) + p == BitsOf(LenBytes(|b|) + b) + q
    ensures a == b && p == q
  {
    hide BitsOf, LenBytes;
    LenBytesAre(|a|);
    LenBytesAre(|b|);
    var x, y := LenBytes(|a|) + a, LenBytes(|b|) + b;
    if |a| <= |b| {
      BytesOnce(x, y, p, q);
    } else {
      BytesOnce(y, x, q, p);
    }
    assert x[0] == LenBytes(|a|)[0] && x[1] == LenBytes(|a|)[1] && y[0] == LenBytes(|b|)[0] && y[1] == LenBytes(|b|)[1];
    assert |a| == |b|;
    assert y[|x|..] == [] && x[|y|..] == [];
    NoBits(p);
    NoBits(q);
    assert a == x[4..] && b == y[4..];
  }

  lemma HeadsOnce(pre: seq<nat>, a: Blk, la: bool, p: seq<bool>, b: Blk, lb: bool, q: seq<bool>, s: seq<bool>)
    requires Heads(pre, a, la, s, p) && Heads(pre, b, lb, s, q)
    ensures la == lb && p == q && After(pre, a) == After(pre, b)
  {
    hide TokensOk, ItemsOk, BitsOf, LenBytes, DynamicCodes, FixedLits, FixedDists, Output;
    var ha, hb := [la] + TypeBits(a), [lb] + TypeBits(b);
    KindSplits(ha, BlkBits(a) + p);
    KindSplits(hb, BlkBits(b) + q);
    assert ha[0] == hb[0] && ha[1] == hb[1] && ha[2] == hb[2];
    var t := s[3..];
    if a.Stored? {
      SameStored(a, b, t, p, q);
    } else if a.Fixed? {
      SameToks(pre, Codes(FixedLits(), FixedDists()), a.toks, a.bits, b.toks, b.bits, t);
      assert t[|a.bits|..] == p && t[|b.bits|..] == q;
    } else {
      SameDynamic(pre, a, b, t, p, q);
    }
  }

  /** A stream stands for one output: two ways to see it as blocks give the same, and the same rest. */
  lemma {:induction false} OneMeaning(pre: seq<nat>, a: seq<Blk>, b: seq<Blk>, s: seq<bool>, p: seq<bool>, q: seq<bool>)
    requires StreamOk(pre, a, s, p) && StreamOk(pre, b, s, q)
    ensures Inflated(pre, a) == Inflated(pre, b) && p == q
    decreases |a|
  {
    hide Heads, After;
    var x := FirstBlock(pre, a, s, p);
    var y := FirstBlock(pre, b, s, q);
    HeadsOnce(pre, a[0], |a| == 1, x, b[0], |b| == 1, y, s);
    if |a| > 1 {
      OneMeaning(After(pre, a[0]), a[1..], b[1..], x, p, q);
    } else {
      NothingLeft(After(pre, a[0]), a);
      NothingLeft(After(pre, b[0]), b);
    }
  }
}
