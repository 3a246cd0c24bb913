/** The tree bins of the kernel heap (src/kernel/dlmalloc.cc): bitwise tries keyed on chunk size.
    A trie is kept as a value: a node has the chunks of one size (the ring that the fd links make,
    starting at the chunk that is in the tree) and two children. */
module TreeBin {
  import opened Powers
  import opened HeapSizes

  datatype Trie = Empty | Node(size: nat, ring: seq<Addr>, left: Trie, right: Trie)

  const SIGN: nat := 0x8000_0000_0000_0000

  // The sign bit of a 64-bit register, and its shift left by one.
  predicate SignBit(k: nat) {
    k / SIGN % 2 == 1
  }

  function Shl1(k: nat): nat {
    2 * k % WORD
  }

  // leftmost_child
  function LeftmostChild(t: Trie): Trie
    requires t.Node?
  {
    if t.left.Node? then t.left else t.right
  }

  // ------------------------------------------------------------------
  // The trie invariant
  // ------------------------------------------------------------------

  ghost predicate In(t: Trie, x: Addr, size: nat) {
    t.Node? && ((t.size == size && x in t.ring) || In(t.left, x, size) || In(t.right, x, size))
  }

  ghost predicate Sized(t: Trie, size: nat) {
    t.Node? && (t.size == size || Sized(t.left, size) || Sized(t.right, size))
  }

  ghost predicate Ring(ring: seq<Addr>) {
    ring != [] && forall i, j :: 0 <= i < j < |ring| ==> ring[i] != ring[j]
  }

  // Every size of the trie lies in the width-sized range from lo, the left subtree has the lower
  // half of that range and the right subtree the upper half.
  ghost predicate InOrder(t: Trie, lo: nat, width: nat) {
    t.Node? ==>
      && lo <= t.size < lo + width && Ring(t.ring)
      && InOrder(t.left, lo, width / 2) && InOrder(t.right, lo + width / 2, width / 2)
      && !Sized(t.left, t.size) && !Sized(t.right, t.size)
  }

  // What the shift register holds: the place of size in the range, scaled to 64 bits.
  ghost predicate Steers(k: nat, size: nat, lo: nat, width: nat, scale: nat) {
    lo <= size < lo + width && width * scale == WORD && k == (size - lo) * scale
  }

  lemma Distribute(a: nat, b: nat, c: nat)
    ensures (a + b) * c == a * c + b * c
  {
  }

  lemma DoubleScale(a: nat, c: nat)
    ensures a * (2 * c) == 2 * (a * c)
  {
  }

  // Half of the width is the sign bit, at the same scale and at twice the scale the whole word.
  lemma Halve(half: nat, scale: nat)
    requires (half + half) * scale == WORD
    ensures half * scale == SIGN && half * (2 * scale) == WORD
  {
    Distribute(half, half, scale);
    DoubleScale(half, scale);
  }

  lemma ShiftRegister(k: nat)
    requires k < WORD
    ensures SignBit(k) <==> k >= SIGN
    ensures Shl1(k) == if k < SIGN then 2 * k else 2 * k - WORD
  {
  }

  lemma LowerHalf(r: nat, half: nat, scale: nat)
    requires r < half && half * scale == SIGN
    ensures r * scale < SIGN && r * (2 * scale) == 2 * (r * scale)
  {
    MulOrder(r, half, scale);
    DoubleScale(r, scale);
    assert scale > 0;
  }

  lemma UpperHalf(r: nat, half: nat, scale: nat)
    requires half <= r < half + half && half * scale == SIGN
    ensures SIGN <= r * scale < WORD && (r - half) * (2 * scale) == 2 * (r * scale) - WORD
  {
    var d := r - half;
    Distribute(half, d, scale);
    LowerHalf(d, half, scale);
  }

  // The sign bit of the register picks the half of the range that size is in, and shifting it
  // left prepares it for that half.
  lemma SteersDown(k: nat, size: nat, lo: nat, width: nat, scale: nat)
    requires Steers(k, size, lo, width, scale) && width % 2 == 0
    ensures SignBit(k) <==> size >= lo + width / 2
    ensures !SignBit(k) ==> Steers(Shl1(k), size, lo, width / 2, 2 * scale)
    ensures SignBit(k) ==> Steers(Shl1(k), size, lo + width / 2, width / 2, 2 * scale)
  {
    var half, r := width / 2, size - lo;
    assert width == half + half;
    Halve(half, scale);
    if r < half {
      LowerHalf(r, half, scale);
    } else {
      UpperHalf(r, half, scale);
    }
    ShiftRegister(k);
  }

  // The register as insert_large_chunk and tmalloc_large set it up, size << leftshift, holds the
  // place of size in the range of its bin.
  lemma SteersAtRoot(size: nat, lo: nat, width: nat, scale: nat, laps: nat)
    requires lo <= size < lo + width && width * scale == WORD && lo * scale == laps * WORD
    ensures Steers(size * scale % WORD, size, lo, width, scale)
  {
    var r := size - lo;
    assert scale > 0;
    MulOrder(r, width, scale);
    assert size * scale == lo * scale + r * scale by {
      assert size == lo + r;
    }
    Wraps(laps, r * scale);
  }

  lemma Wraps(laps: nat, rest: nat)
    requires rest < WORD
    ensures (laps * WORD + rest) % WORD == rest
  {
  }

  // ------------------------------------------------------------------
  // insert_large_chunk
  // ------------------------------------------------------------------

  function Insert(t: Trie, x: Addr, size: nat, k: nat): Trie {
    match t
    case Empty => Node(size, [x], Empty, Empty)
    case Node(s, ring, left, right) =>
      if s == size then Node(s, if ring == [] then [x] else [ring[0], x] + ring[1..], left, right)
      else if SignBit(k) then Node(s, ring, left, Insert(right, x, size, Shl1(k)))
      else Node(s, ring, Insert(left, x, size, Shl1(k)), right)
  }

  lemma {:induction false} SizedInRange(t: Trie, lo: nat, width: nat, size: nat)
    requires InOrder(t, lo, width) && Sized(t, size)
    ensures lo <= size < lo + width
  {
    if t.size != size {
      if Sized(t.left, size) {
        SizedInRange(t.left, lo, width / 2, size);
      } else {
        SizedInRange(t.right, lo + width / 2, width / 2, size);
      }
    }
  }

  lemma {:induction false} InIsSized(t: Trie, x: Addr, size: nat)
    requires In(t, x, size)
    ensures Sized(t, size)
  {
    if !(t.size == size && x in t.ring) {
      if In(t.left, x, size) {
        InIsSized(t.left, x, size);
      } else {
        InIsSized(t.right, x, size);
      }
    }
  }

  /** Inserting a chunk keeps the trie in order and adds exactly that chunk. */
  lemma {:induction false} InsertOk(t: Trie, x: Addr, size: nat, k: nat, lo: nat, width: nat, scale: nat)
    requires InOrder(t, lo, width) && Steers(k, size, lo, width, scale) && IsPowerOf2(width)
    requires !In(t, x, size)
    ensures InOrder(Insert(t, x, size, k), lo, width)
    ensures forall y, s :: In(Insert(t, x, size, k), y, s) <==> In(t, y, s) || (y == x && s == size)
    ensures forall s :: Sized(Insert(t, x, size, k), s) <==> Sized(t, s) || s == size
  {
    if t.Node? && t.size != size {
      if width == 1 {
        assert false;
      }
      SteersDown(k, size, lo, width, scale);
      if SignBit(k) {
        InsertOk(t.right, x, size, Shl1(k), lo + width / 2, width / 2, 2 * scale);
      } else {
        InsertOk(t.left, x, size, Shl1(k), lo, width / 2, 2 * scale);
      }
    } else if t.Node? {
      var ring := t.ring;
      assert ring == [ring[0]] + ring[1..];
      var more := [ring[0], x] + ring[1..];
      forall y ensures y in more <==> y in ring || y == x {}
    }
  }


  // ------------------------------------------------------------------
  // unlink_large_chunk
  // ------------------------------------------------------------------

  // The ring without x; when x is the chunk in the tree, its bk takes its place.
  function UnlinkRing(ring: seq<Addr>, x: Addr): seq<Addr>
    requires x in ring && |ring| > 1
  {
    if ring[0] == x then [ring[|ring| - 1]] + ring[1..|ring| - 1]
    else var i := IndexOf(ring, x); ring[..i] + ring[i + 1..]
  }

  function IndexOf(ring: seq<Addr>, x: Addr): (i: nat)
    requires x in ring
    ensures i < |ring| && ring[i] == x
  {
    if ring[0] == x then 0 else 1 + IndexOf(ring[1..], x)
  }

  // The descendant reached by following child[1], or child[0] where there is none, down to a
  // leaf; and the trie without it.
  function RightmostLeaf(t: Trie): (leaf: Trie)
    requires t.Node?
    ensures leaf.Node?
  {
    if t.right.Node? then RightmostLeaf(t.right) else if t.left.Node? then RightmostLeaf(t.left) else t
  }

  function DropRightmost(t: Trie): Trie
    requires t.Node?
  {
    if t.right.Node? then t.(right := DropRightmost(t.right))
    else if t.left.Node? then t.(left := DropRightmost(t.left))
    else Empty
  }

  // The subtree of a node after its last chunk is gone.
  function Replace(t: Trie): Trie
    requires t.Node?
  {
    if t.right.Node? then
      var leaf := RightmostLeaf(t.right);
      Node(leaf.size, leaf.ring, t.left, DropRightmost(t.right))
    else if t.left.Node? then
      var leaf := RightmostLeaf(t.left);
      Node(leaf.size, leaf.ring, DropRightmost(t.left), t.right)
    else Empty
  }

  function Unlink(t: Trie, x: Addr, size: nat, k: nat): Trie {
    match t
    case Empty => Empty
    case Node(s, ring, left, right) =>
      if s == size then
        if x !in ring then t
        else if |ring| > 1 then Node(s, UnlinkRing(ring, x), left, right)
        else Replace(t)
      else if SignBit(k) then Node(s, ring, left, Unlink(right, x, size, Shl1(k)))
      else Node(s, ring, Unlink(left, x, size, Shl1(k)), right)
  }

  lemma UnlinkRingIs(ring: seq<Addr>, x: Addr)
    requires Ring(ring) && x in ring && |ring| > 1
    ensures Ring(UnlinkRing(ring, x))
    ensures forall y :: y in UnlinkRing(ring, x) <==> y in ring && y != x
  {
    var n := |ring|;
    if ring[0] == x {
      assert ring == [x] + ring[1..n - 1] + [ring[n - 1]];
    } else {
      CutRing(ring, IndexOf(ring, x));
    }
  }

  lemma CutRing(ring: seq<Addr>, i: nat)
    requires Ring(ring) && i < |ring| && |ring| > 1
    ensures var cut := ring[..i] + ring[i + 1..];
      Ring(cut) && forall y :: y in cut <==> y in ring && y != ring[i]
  {
    var cut := ring[..i] + ring[i + 1..];
    assert ring == ring[..i] + [ring[i]] + ring[i + 1..];
    forall a, b | 0 <= a < b < |cut| ensures cut[a] != cut[b] {
      assert cut[a] == ring[if a < i then a else a + 1];
      assert cut[b] == ring[if b < i then b else b + 1];
    }
  }

  // Taking the rightmost leaf out leaves the rest of the trie in order.
  lemma {:induction false} RightmostOk(t: Trie, lo: nat, width: nat)
    requires t.Node? && InOrder(t, lo, width)
    ensures var leaf := RightmostLeaf(t);
      leaf.Node? && lo <= leaf.size < lo + width && Ring(leaf.ring) && !Sized(DropRightmost(t), leaf.size)
    ensures InOrder(DropRightmost(t), lo, width)
    ensures forall y, s :: In(t, y, s) <==>
      In(DropRightmost(t), y, s) || (s == RightmostLeaf(t).size && y in RightmostLeaf(t).ring)
    ensures forall s :: Sized(t, s) <==> Sized(DropRightmost(t), s) || s == RightmostLeaf(t).size
  {
    if t.right.Node? {
      RightmostOk(t.right, lo + width / 2, width / 2);
      var size := RightmostLeaf(t).size;
      if Sized(t.left, size) {
        SizedInRange(t.left, lo, width / 2, size);
      }
    } else if t.left.Node? {
      RightmostOk(t.left, lo, width / 2);
    }
  }

  lemma ReplaceOk(t: Trie, lo: nat, width: nat)
    requires t.Node? && InOrder(t, lo, width)
    ensures InOrder(Replace(t), lo, width)
    ensures forall y, s :: In(Replace(t), y, s) <==> In(t.left, y, s) || In(t.right, y, s)
    ensures forall s :: Sized(Replace(t), s) <==> Sized(t.left, s) || Sized(t.right, s)
  {
    if t.right.Node? {
      RightmostOk(t.right, lo + width / 2, width / 2);
      var size := RightmostLeaf(t.right).size;
      if Sized(t.left, size) {
        SizedInRange(t.left, lo, width / 2, size);
      }
    } else if t.left.Node? {
      RightmostOk(t.left, lo, width / 2);
    }
  }

  lemma SizesMissing(t: Trie, size: nat)
    requires t.Node? && !Sized(t.left, size) && !Sized(t.right, size)
    ensures forall y :: !In(t.left, y, size) && !In(t.right, y, size)
  {
    forall y ensures !In(t.left, y, size) && !In(t.right, y, size) {
      if In(t.left, y, size) {
        InIsSized(t.left, y, size);
      }
      if In(t.right, y, size) {
        InIsSized(t.right, y, size);
      }
    }
  }

  // A size on one side of the range is not on the other.
  lemma OnItsSide(t: Trie, x: Addr, size: nat, lo: nat, width: nat)
    requires t.Node? && InOrder(t, lo, width) && In(t, x, size) && t.size != size
    ensures size >= lo + width / 2 ==> In(t.right, x, size)
    ensures size < lo + width / 2 ==> In(t.left, x, size)
  {
    if In(t.left, x, size) {
      InIsSized(t.left, x, size);
      SizedInRange(t.left, lo, width / 2, size);
    } else {
      InIsSized(t.right, x, size);
      SizedInRange(t.right, lo + width / 2, width / 2, size);
    }
  }

  lemma Elsewhere(t: Trie, x: Addr, size: nat, lo: nat, width: nat)
    requires t.Node? && InOrder(t, lo, width) && t.size != size
    ensures size >= lo + width / 2 ==> !In(t.left, x, size)
    ensures size < lo + width / 2 ==> !In(t.right, x, size)
  {
    if In(t.left, x, size) {
      InIsSized(t.left, x, size);
      SizedInRange(t.left, lo, width / 2, size);
    }
    if In(t.right, x, size) {
      InIsSized(t.right, x, size);
      SizedInRange(t.right, lo + width / 2, width / 2, size);
    }
  }

  /** Unlinking a chunk of the trie keeps the trie in order and removes exactly that chunk,
      whether it leaves through its ring or its node is replaced by the rightmost leaf below it. */
  lemma {:induction false} UnlinkOk(t: Trie, x: Addr, size: nat, k: nat, lo: nat, width: nat, scale: nat)
    requires InOrder(t, lo, width) && Steers(k, size, lo, width, scale) && IsPowerOf2(width)
    requires In(t, x, size)
    ensures InOrder(Unlink(t, x, size, k), lo, width)
    ensures forall y, s :: In(Unlink(t, x, size, k), y, s) <==> In(t, y, s) && !(y == x && s == size)
    ensures forall s :: Sized(Unlink(t, x, size, k), s) ==> Sized(t, s)
  {
    if t.size == size {
      SizesMissing(t, size);
      if |t.ring| > 1 {
        UnlinkRingIs(t.ring, x);
      } else {
        ReplaceOk(t, lo, width);
      }
    } else {
      assert width != 1;
      OnItsSide(t, x, size, lo, width);
      SteersDown(k, size, lo, width, scale);
      Elsewhere(t, x, size, lo, width);
      if SignBit(k) {
        UnlinkOk(t.right, x, size, Shl1(k), lo + width / 2, width / 2, 2 * scale);
      } else {
        UnlinkOk(t.left, x, size, Shl1(k), lo, width / 2, 2 * scale);
      }
    }
  }

  // ------------------------------------------------------------------
  // Best fit
  // ------------------------------------------------------------------

  // Unsigned 64-bit subtraction, as in chunksize(t) - nb.
  function Sub64(a: nat, b: nat): nat {
    (a - b) % WORD
  }

  ghost predicate AllFit(t: Trie, nb: nat) {
    forall s: nat :: Sized(t, s) ==> s >= nb
  }

  ghost predicate NoneFits(t: Trie, nb: nat) {
    forall s: nat :: Sized(t, s) ==> s < nb
  }

  // The best node so far (Empty for null) and what it leaves over.
  ghost predicate Candidate(v: Trie, rsize: nat, nb: nat) {
    if v.Node? then v.ring != [] && v.size == nb + rsize else rsize == WORD - nb
  }

  // No size of t that fits leaves over less than rsize.
  ghost predicate NoneBetter(t: Trie, nb: nat, rsize: nat) {
    forall s: nat :: Sized(t, s) && s >= nb ==> s - nb >= rsize
  }

  // The comparison trem < rsize sees a chunk that is too small as a huge remainder.
  lemma Remainder(size: nat, nb: nat, rsize: nat)
    requires size < WORD && nb < WORD && rsize <= WORD - nb
    ensures Sub64(size, nb) < rsize <==> nb <= size < nb + rsize
    ensures size >= nb ==> Sub64(size, nb) == size - nb
  {
  }

  // Going to the leftmost child skips only sizes above that child's.
  lemma SkippedAreLarger(t: Trie, lo: nat, width: nat, s: nat)
    requires t.Node? && InOrder(t, lo, width) && Sized(t, s) && s != t.size
    ensures LeftmostChild(t).Node?
    ensures Sized(LeftmostChild(t), s) || s > LeftmostChild(t).size
  {
    if t.left.Node? && Sized(t.right, s) {
      SizedInRange(t.right, lo + width / 2, width / 2, s);
      SizedInRange(t.left, lo, width / 2, t.left.size);
    }
  }

  lemma SizesBounded(t: Trie, lo: nat, width: nat)
    requires InOrder(t, lo, width)
    ensures forall s: nat :: Sized(t, s) ==> s < lo + width
  {
    forall s: nat | Sized(t, s) ensures s < lo + width {
      SizedInRange(t, lo, width, s);
    }
  }

  /** The second loop of tmalloc_large, and the loop of tmalloc_small: the least chunk of a trie
      lies on the path of leftmost children. */
  method SearchLeftmost(root: Trie, nb: nat, v0: Trie, rsize0: nat, ghost lo: nat, ghost width: nat)
    returns (v: Trie, rsize: nat)
    requires InOrder(root, lo, width) && lo + width <= WORD && nb < WORD
    requires Candidate(v0, rsize0, nb) && rsize0 <= WORD - nb
    requires rsize0 == 0 || AllFit(root, nb) || NoneFits(root, nb)
    ensures Candidate(v, rsize, nb) && rsize <= rsize0 && NoneBetter(root, nb, rsize)
    ensures (v == v0 && rsize == rsize0) || (v.Node? && In(root, v.ring[0], v.size))
  {
    v, rsize := v0, rsize0;
    var t := root;
    ghost var l: nat, w: nat := lo, width;
    while t.Node?
      invariant InOrder(t, l, w) && l + w <= WORD
      invariant Candidate(v, rsize, nb) && rsize <= rsize0
      invariant (v == v0 && rsize == rsize0) || (v.Node? && In(root, v.ring[0], v.size))
      invariant forall y, s :: In(t, y, s) ==> In(root, y, s)
      invariant forall s: nat :: Sized(t, s) ==> Sized(root, s)
      invariant forall s: nat :: Sized(root, s) && s >= nb ==>
        s - nb >= rsize || (t.Node? && (Sized(t, s) || s > t.size))
      decreases t
    {
      var trem := Sub64(t.size, nb);
      Remainder(t.size, nb, rsize);
      assert Sized(t, t.size) && t.ring[0] in t.ring && In(t, t.ring[0], t.size);
      if trem < rsize {
        rsize := trem;
        v := t;
      }
      forall s: nat | Sized(root, s) && s >= nb && s - nb < rsize
        ensures LeftmostChild(t).Node? && (Sized(LeftmostChild(t), s) || s > LeftmostChild(t).size)
      {
        SkippedAreLarger(t, l, w, s);
      }
      l, w := if t.left.Node? then l else l + w / 2, w / 2;
      t := LeftmostChild(t);
    }
  }

  function Next(t: Trie, up: bool): Trie
    requires t.Node?
  {
    if up then t.right else t.left
  }

  function Untaken(t: Trie, up: bool, rst: Trie): Trie
    requires t.Node?
  {
    if !up && t.right.Node? then t.right else rst
  }

  // Where a size that fits can still be: on the path, or in the deepest right subtree not taken
  // (or above it, and then that subtree has better ones).
  ghost predicate PathCovers(t: Trie, rst: Trie, s: nat) {
    Sized(t, s) || (rst.Node? && (Sized(rst, s) || s > rst.size))
  }

  lemma PathStep(t: Trie, lo: nat, width: nat, nb: nat, rst: Trie, rlo: nat, rwidth: nat, s: nat)
    requires t.Node? && InOrder(t, lo, width) && InOrder(rst, rlo, rwidth) && (rst.Node? ==> rlo >= lo + width)
    requires s >= nb && s != t.size && PathCovers(t, rst, s)
    ensures var up := nb >= lo + width / 2; PathCovers(Next(t, up), Untaken(t, up, rst), s)
  {
    SplitRange(t, lo, width, nb);
    if Sized(t, s) {
      assert Sized(t.left, s) || Sized(t.right, s);
    } else {
      SizedInRange(rst, rlo, rwidth, rst.size);
      if Sized(rst, s) {
        SizedInRange(rst, rlo, rwidth, s);
      }
      if t.right.Node? {
        SizedInRange(t.right, lo + width / 2, width / 2, t.right.size);
      }
    }
  }

  ghost predicate Within(t: Trie, root: Trie) {
    && (forall y, s :: In(t, y, s) ==> In(root, y, s))
    && (forall s: nat :: Sized(t, s) ==> Sized(root, s))
  }

  // The two subtrees that the first loop of tmalloc_large still has in hand.
  datatype Hunt = Hunt(t: Trie, lo: nat, width: nat, rst: Trie, rlo: nat, rwidth: nat)

  ghost predicate HuntOk(h: Hunt, root: Trie, nb: nat, steered: bool) {
    && InOrder(h.t, h.lo, h.width) && h.lo + h.width <= WORD && Within(h.t, root)
    && InOrder(h.rst, h.rlo, h.rwidth) && h.rlo + h.rwidth <= WORD && Within(h.rst, root)
    && (h.rst.Node? ==> h.rlo >= h.lo + h.width)
    && (if steered then AllFit(h.rst, nb) else NoneFits(root, nb))
  }

  function HuntDown(h: Hunt, up: bool): Hunt
    requires h.t.Node?
  {
    var half := h.width / 2;
    Hunt(Next(h.t, up), if up then h.lo + half else h.lo, half, Untaken(h.t, up, h.rst),
         if !up && h.t.right.Node? then h.lo + half else h.rlo, if !up && h.t.right.Node? then half else h.rwidth)
  }

  lemma HuntDownOk(h: Hunt, root: Trie, nb: nat, steered: bool, up: bool)
    requires h.t.Node? && HuntOk(h, root, nb, steered)
    requires steered ==> (up <==> nb >= h.lo + h.width / 2)
    ensures HuntOk(HuntDown(h, up), root, nb, steered)
    ensures h.t.right.Node? && h.t.right != Next(h.t, up) <==> h.t.right.Node? && !up
  {
    SplitRange(h.t, h.lo, h.width, nb);
    assert Within(h.t.left, h.t) && Within(h.t.right, h.t);
  }

  // Every size of the bin that fits leaves over at least rsize or is still ahead.
  ghost predicate Ahead(root: Trie, nb: nat, rsize: nat, h: Hunt) {
    forall s: nat :: Sized(root, s) && s >= nb ==> s - nb >= rsize || PathCovers(h.t, h.rst, s)
  }

  lemma AheadDown(h: Hunt, root: Trie, nb: nat, rsize: nat, steered: bool, up: bool)
    requires h.t.Node? && HuntOk(h, root, nb, steered) && Ahead(root, nb, rsize, h)
    requires steered ==> (up <==> nb >= h.lo + h.width / 2)
    requires h.t.size >= nb ==> h.t.size - nb >= rsize
    ensures Ahead(root, nb, rsize, HuntDown(h, up))
  {
    if steered {
      forall s: nat | Sized(root, s) && s >= nb && s - nb < rsize
        ensures PathCovers(Next(h.t, up), Untaken(h.t, up, h.rst), s)
      {
        PathStep(h.t, h.lo, h.width, nb, h.rst, h.rlo, h.rwidth, s);
      }
    }
  }

  // One turn of the first loop of tmalloc_large.
  lemma Descend(h: Hunt, root: Trie, nb: nat, rsize: nat, steered: bool, sizebits: nat, c: nat)
    requires h.t.Node? && HuntOk(h, root, nb, steered) && Ahead(root, nb, rsize, h)
    requires steered ==> Steers(sizebits, nb, h.lo, h.width, c) && IsPowerOf2(h.width) && h.t.size != nb
    requires h.t.size >= nb ==> h.t.size - nb >= rsize
    ensures var h' := HuntDown(h, SignBit(sizebits));
      && HuntOk(h', root, nb, steered) && Ahead(root, nb, rsize, h')
      && (steered ==> Steers(Shl1(sizebits), nb, h'.lo, h'.width, 2 * c) && IsPowerOf2(h'.width))
      && (h.t.right.Node? && h.t.right != h'.t <==> h.t.right.Node? && !SignBit(sizebits))
  {
    if steered {
      assert h.width != 1;
      SteersDown(sizebits, nb, h.lo, h.width, c);
    }
    HuntDownOk(h, root, nb, steered, SignBit(sizebits));
    AheadDown(h, root, nb, rsize, steered, SignBit(sizebits));
  }

  lemma NoneFitsWithin(t: Trie, root: Trie, nb: nat)
    requires Within(t, root) && NoneFits(root, nb)
    ensures NoneFits(t, nb)
  {
  }

  /** The first loop of tmalloc_large: down the path of the bits of nb, remembering the deepest
      right subtree not taken. Afterwards every chunk of the bin that fits is the candidate, is
      larger, or is in the subtree t that remains to be searched. A request so large that its bin
      index is computed from truncated bits fits no chunk, and then the path does not matter. */
  method SearchPath(root: Trie, nb: nat, register: nat,
                    ghost lo: nat, ghost width: nat, ghost scale: nat, ghost steered: bool)
    returns (t: Trie, v: Trie, rsize: nat, ghost tlo: nat, ghost twidth: nat)
    requires root.Node? && InOrder(root, lo, width) && lo + width <= WORD && nb < WORD
    requires if steered then Steers(register, nb, lo, width, scale) && IsPowerOf2(width) else NoneFits(root, nb)
    ensures Candidate(v, rsize, nb) && rsize <= WORD - nb
    ensures v.Node? ==> In(root, v.ring[0], v.size)
    ensures InOrder(t, tlo, twidth) && tlo + twidth <= WORD && Within(t, root)
    ensures if steered then rsize == 0 || AllFit(t, nb) else NoneFits(t, nb)
    ensures forall s: nat :: Sized(root, s) && s >= nb ==>
      s - nb >= rsize || (t.Node? && (Sized(t, s) || s > t.size))
  {
    v, rsize := Empty, WORD - nb;
    t := root;
    var rst := Empty;
    var sizebits := register;
    ghost var h, c := Hunt(root, lo, width, Empty, 0, 0), scale;
    while true
      invariant h.t == t && h.rst == rst && t.Node?
      invariant HuntOk(h, root, nb, steered) && Ahead(root, nb, rsize, h)
      invariant steered ==> Steers(sizebits, nb, h.lo, h.width, c) && IsPowerOf2(h.width)
      invariant Candidate(v, rsize, nb) && 0 < rsize <= WORD - nb
      invariant v.Node? ==> In(root, v.ring[0], v.size)
      decreases t
    {
      var trem := Sub64(t.size, nb);
      Remainder(t.size, nb, rsize);
      assert In(t, t.ring[0], t.size);
      if trem < rsize {
        v := t;
        rsize := trem;
        if rsize == 0 {
          tlo, twidth := h.lo, h.width;
          if !steered {
            NoneFitsWithin(t, root, nb);
          }
          return;
        }
      }
      Descend(h, root, nb, rsize, steered, sizebits, c);
      h := HuntDown(h, SignBit(sizebits));
      var rt := t.right;
      t := Next(t, SignBit(sizebits));
      if rt.Node? && rt != t {
        rst := rt;
      }
      if t.Empty? {
        t, tlo, twidth := rst, h.rlo, h.rwidth;
        if !steered {
          NoneFitsWithin(t, root, nb);
        }
        return;
      }
      c := 2 * c;
      sizebits := Shl1(sizebits);
    }
  }

  // Which side of a node the sizes that fit are on.
  lemma SplitRange(t: Trie, lo: nat, width: nat, nb: nat)
    requires t.Node? && InOrder(t, lo, width)
    ensures nb >= lo + width / 2 ==> NoneFits(t.left, nb)
    ensures nb < lo + width / 2 ==> AllFit(t.right, nb)
    ensures forall s: nat :: Sized(t.right, s) ==> lo + width / 2 <= s < lo + width
    ensures forall s: nat :: Sized(t.left, s) ==> s < lo + width / 2
    ensures t.right.Node? ==> t.right != t.left
  {
    forall s: nat ensures Sized(t.right, s) ==> lo + width / 2 <= s < lo + width {
      if Sized(t.right, s) {
        SizedInRange(t.right, lo + width / 2, width / 2, s);
      }
    }
    SizesBounded(t.left, lo, width / 2);
    if t.right.Node? {
      assert Sized(t.right, t.right.size);
    }
  }
}
