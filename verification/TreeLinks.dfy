/** A tree bin of the kernel heap in memory (src/kernel/dlmalloc.cc): the fd, bk, child and parent links of its
    chunks, as insert_large_chunk and unlink_large_chunk change them. They make the trie that
    TreeBin has as a value. */
module TreeLinks {
  import opened HeapSizes
  import opened TreeBin

  // The parent of a chunk: none for a chunk that is only in a ring, another chunk, or the bin itself.
  datatype Link = Null | Chunk(a: Addr) | Bin

  // The words of a chunk that the bin uses; 0 for a child that is not there.
  datatype TreeChunk = TreeChunk(size: nat, fd: Addr, bk: Addr, left: Addr, right: Addr, parent: Link)

  type Mem = map<Addr, TreeChunk>

  // ------------------------------------------------------------------
  // The trie that memory makes
  // ------------------------------------------------------------------

  function Next(i: nat, n: nat): nat {
    if i + 1 < n then i + 1 else 0
  }

  function Prev(i: nat, n: nat): nat
    requires i < n
  {
    if i > 0 then i - 1 else n - 1
  }

  ghost predicate Linked(m: Mem, ring: seq<Addr>, i: nat, size: nat)
    requires i < |ring|
  {
    && ring[i] in m && ring[i] != 0 && m[ring[i]].size == size
    && m[ring[i]].fd == ring[Next(i, |ring|)] && m[ring[i]].bk == ring[Prev(i, |ring|)]
    && (i > 0 ==> m[ring[i]].parent == Null && m[ring[i]].left == 0 && m[ring[i]].right == 0)
  }

  // The chunks of one size are in a ring, and only the first is in the tree.
  ghost predicate RingLinks(m: Mem, ring: seq<Addr>, size: nat) {
    ring != [] && forall i {:trigger Linked(m, ring, i, size)} :: 0 <= i < |ring| ==> Linked(m, ring, i, size)
  }

  // The links from the chunk a, whose parent is par, make the trie t.
  ghost predicate Rep(m: Mem, a: Addr, par: Link, t: Trie)
    decreases t
  {
    match t
    case Empty => a == 0
    case Node(size, ring, left, right) =>
      && RingLinks(m, ring, size) && a == ring[0] && a in m && m[a].parent == par
      && Rep(m, m[a].left, Chunk(a), left) && Rep(m, m[a].right, Chunk(a), right)
  }

  ghost function Members(ring: seq<Addr>): set<Addr> {
    set i | 0 <= i < |ring| :: ring[i]
  }

  ghost function Foot(t: Trie): set<Addr> {
    if t.Empty? then {} else Members(t.ring) + Foot(t.left) + Foot(t.right)
  }

  // No chunk is in the trie twice.
  ghost predicate Apart(t: Trie) {
    t.Node? ==>
      && Ring(t.ring) && Apart(t.left) && Apart(t.right)
      && Members(t.ring) !! Foot(t.left) && Members(t.ring) !! Foot(t.right) && Foot(t.left) !! Foot(t.right)
  }

  ghost predicate Agree(m: Mem, m': Mem, s: set<Addr>) {
    forall a :: a in s && a in m ==> a in m' && m'[a] == m[a]
  }

  lemma RingFrame(m: Mem, m': Mem, ring: seq<Addr>, size: nat)
    requires RingLinks(m, ring, size) && Agree(m, m', Members(ring))
    ensures RingLinks(m', ring, size)
  {
    forall i {:trigger Linked(m', ring, i, size)} | 0 <= i < |ring| ensures Linked(m', ring, i, size) {
      assert Linked(m, ring, i, size) && ring[i] in Members(ring);
    }
  }

  // What is elsewhere does not matter.
  lemma {:induction false} Frame(m: Mem, m': Mem, a: Addr, par: Link, t: Trie)
    requires Rep(m, a, par, t) && Agree(m, m', Foot(t))
    ensures Rep(m', a, par, t)
    decreases t
  {
    hide RingLinks, Members;
    if t.Node? {
      FirstMember(m, t.ring, t.size);
      RingFrame(m, m', t.ring, t.size);
      Frame(m, m', m[a].left, Chunk(a), t.left);
      Frame(m, m', m[a].right, Chunk(a), t.right);
    }
  }

  lemma FirstMember(m: Mem, ring: seq<Addr>, size: nat)
    requires RingLinks(m, ring, size)
    ensures ring != [] && ring[0] in Members(ring) && ring[0] in m && ring[0] != 0
  {
    assert Linked(m, ring, 0, size);
  }

  // The same trie under another parent.
  lemma Reparent(m: Mem, m': Mem, a: Addr, par: Link, par': Link, t: Trie)
    requires t.Node? && Rep(m, a, par, t) && Apart(t) && Agree(m, m', Foot(t) - {a}) && a in m' && m'[a] == m[a].(parent := par')
    ensures Rep(m', a, par', t)
  {
    FirstMember(m, t.ring, t.size);
    forall i {:trigger Linked(m', t.ring, i, t.size)} | 0 <= i < |t.ring| ensures Linked(m', t.ring, i, t.size) {
      assert Linked(m, t.ring, i, t.size) && t.ring[i] in Members(t.ring);
    }
    hide RingLinks, Members;
    Frame(m, m', m[a].left, Chunk(a), t.left);
    Frame(m, m', m[a].right, Chunk(a), t.right);
  }

  // ------------------------------------------------------------------
  // One subtree in place of another
  // ------------------------------------------------------------------

  // The chunk b is in the tree, as the first of its ring.
  ghost predicate IsBase(t: Trie, b: Addr) {
    t.Node? && ((t.ring != [] && t.ring[0] == b) || IsBase(t.left, b) || IsBase(t.right, b))
  }

  ghost function Subtree(t: Trie, b: Addr): (s: Trie)
    requires IsBase(t, b)
    ensures s.Node? && s.ring != [] && s.ring[0] == b
  {
    if t.ring != [] && t.ring[0] == b then t else if IsBase(t.left, b) then Subtree(t.left, b) else Subtree(t.right, b)
  }

  ghost function Plug(t: Trie, b: Addr, s: Trie): Trie
    requires IsBase(t, b)
  {
    if t.ring != [] && t.ring[0] == b then s
    else if IsBase(t.left, b) then t.(left := Plug(t.left, b, s))
    else t.(right := Plug(t.right, b, s))
  }

  lemma {:induction false} BaseInFoot(t: Trie, b: Addr)
    requires IsBase(t, b)
    ensures b in Foot(t) && Foot(Subtree(t, b)) <= Foot(t)
  {
    if !(t.ring != [] && t.ring[0] == b) {
      if IsBase(t.left, b) {
        BaseInFoot(t.left, b);
      } else {
        BaseInFoot(t.right, b);
      }
    }
  }

  // The chunk b, unless it is the root, is a child of its parent, which is above it.
  lemma {:induction false} ParentOf(m: Mem, a: Addr, par: Link, t: Trie, b: Addr)
    requires Rep(m, a, par, t) && IsBase(t, b) && Apart(t)
    ensures b in m && Rep(m, b, m[b].parent, Subtree(t, b)) && (a == b ==> t == Subtree(t, b) && m[b].parent == par)
    ensures a != b ==> m[b].parent.Chunk? && m[b].parent.a in Foot(t) - Foot(Subtree(t, b)) && m[b].parent.a in m
    ensures a != b ==> m[m[b].parent.a].left == b || m[m[b].parent.a].right == b
    decreases t
  {
    hide RingLinks;
    FirstMember(m, t.ring, t.size);
    if a != b {
      var left := IsBase(t.left, b);
      var s := if left then t.left else t.right;
      var c := if left then m[a].left else m[a].right;
      BaseInFoot(s, b);
      ParentOf(m, c, Chunk(a), s, b);
      assert a in Members(t.ring);
    }
  }

  function Relinked(c: TreeChunk, isParent: bool, b: Addr, r: Addr): TreeChunk {
    if !isParent then c else if c.left == b then c.(left := r) else c.(right := r)
  }

  // What a change at the subtree of b is to leave alone: every other chunk of the trie but for the link to b.
  ghost predicate Swapped(m: Mem, m': Mem, b: Addr, r: Addr, all: set<Addr>, foot: set<Addr>)
    requires b in m
  {
    forall x :: x in all && x in m && x !in foot ==> x in m' && m'[x] == Relinked(m[x], m[b].parent == Chunk(x), b, r)
  }

  /** If the subtree of b has become the subtree s' of r, under the same parent, and nothing else has changed
      but the link to it, then the whole trie has s' in its place. */
  lemma {:induction false} Substitute(m: Mem, m': Mem, a: Addr, par: Link, t: Trie, b: Addr, r: Addr, s': Trie, all: set<Addr>)
    requires Rep(m, a, par, t) && Apart(t) && IsBase(t, b) && b in m && !(par.Chunk? && par.a in Foot(t))
    requires Swapped(m, m', b, r, all, Foot(Subtree(t, b))) && Foot(t) <= all && Rep(m', r, m[b].parent, s')
    ensures Rep(m', if a == b then r else a, par, Plug(t, b, s'))
    decreases t
  {
    hide RingLinks, Members, Foot, Swapped;
    ParentOf(m, a, par, t, b);
    if a != b {
      var left := IsBase(t.left, b);
      var s, o := if left then t.left else t.right, if left then t.right else t.left;
      var c, d := if left then m[a].left else m[a].right, if left then m[a].right else m[a].left;
      Levels(m, a, par, t, b);
      BaseInFoot(s, b);
      ParentOf(m, c, Chunk(a), s, b);
      Substitute(m, m', c, Chunk(a), s, b, r, s', all);
      OtherSide(m, m', d, Chunk(a), o, b, r, all, Foot(Subtree(t, b)));
      RingSwapped(m, m', t.ring, t.size, b, r, all, Foot(Subtree(t, b)));
      RootOf(m, d, Chunk(a), o);
      AtParent(m, m', a, b, r, all, Foot(Subtree(t, b)));
    }
  }

  // What is where, one level down on the way to b.
  lemma Levels(m: Mem, a: Addr, par: Link, t: Trie, b: Addr)
    requires Rep(m, a, par, t) && Apart(t) && IsBase(t, b) && b in m && a != b
    ensures var left := IsBase(t.left, b);
      var s, o := if left then t.left else t.right, if left then t.right else t.left;
      var c, d := if left then m[a].left else m[a].right, if left then m[a].right else m[a].left;
      && IsBase(s, b) && Subtree(t, b) == Subtree(s, b) && Foot(Subtree(s, b)) <= Foot(s) && b in Foot(s) && b != 0
      && a in Members(t.ring) && a == t.ring[0] && a !in Foot(s) && a !in Foot(o) && Foot(s) !! Foot(o) && Members(t.ring) !! Foot(s)
      && (c == b ==> m[b].parent == Chunk(a)) && (c != b ==> m[b].parent.Chunk? && m[b].parent.a in Foot(s))
      && d != b && Foot(s) <= Foot(t) && Foot(o) <= Foot(t) && Members(t.ring) <= Foot(t)
  {
    hide RingLinks;
    FirstMember(m, t.ring, t.size);
    var left := IsBase(t.left, b);
    var s, o := if left then t.left else t.right, if left then t.right else t.left;
    var c, d := if left then m[a].left else m[a].right, if left then m[a].right else m[a].left;
    BaseInFoot(s, b);
    ParentOf(m, c, Chunk(a), s, b);
    RootOf(m, d, Chunk(a), o);
    FirstMember(m, Subtree(s, b).ring, Subtree(s, b).size);
  }

  lemma OtherSide(m: Mem, m': Mem, d: Addr, par: Link, o: Trie, b: Addr, r: Addr, all: set<Addr>, foot: set<Addr>)
    requires Rep(m, d, par, o) && b in m && Swapped(m, m', b, r, all, foot) && Foot(o) !! foot && Foot(o) <= all
    requires m[b].parent.Chunk? ==> m[b].parent.a !in Foot(o)
    ensures Rep(m', d, par, o)
  {
    hide Foot, Rep;
    Frame(m, m', d, par, o);
  }

  lemma AtParent(m: Mem, m': Mem, a: Addr, b: Addr, r: Addr, all: set<Addr>, foot: set<Addr>)
    requires b in m && Swapped(m, m', b, r, all, foot) && a in m && a in all && a !in foot
    ensures a in m' && m'[a] == Relinked(m[a], m[b].parent == Chunk(a), b, r)
  {
  }

  lemma RootOf(m: Mem, a: Addr, par: Link, t: Trie)
    requires Rep(m, a, par, t)
    ensures a == 0 || a in Foot(t)
  {
    if t.Node? {
      FirstMember(m, t.ring, t.size);
    }
  }

  lemma RingSwapped(m: Mem, m': Mem, ring: seq<Addr>, size: nat, b: Addr, r: Addr, all: set<Addr>, foot: set<Addr>)
    requires RingLinks(m, ring, size) && Ring(ring) && Members(ring) !! foot && Members(ring) <= all
    requires b in m && b != 0 && Swapped(m, m', b, r, all, foot)
    requires m[b].parent.Chunk? ==> m[b].parent.a !in Members(ring) || (m[b].parent.a == ring[0])
    ensures RingLinks(m', ring, size)
  {
    forall i {:trigger Linked(m', ring, i, size)} | 0 <= i < |ring| ensures Linked(m', ring, i, size) {
      assert Linked(m, ring, i, size) && ring[i] in Members(ring);
      assert Linked(m, ring, 0, size);
    }
  }

  // A change inside the subtree of b that leaves b where it is.
  lemma Inside(m: Mem, m': Mem, a: Addr, par: Link, t: Trie, b: Addr, s': Trie)
    requires Rep(m, a, par, t) && Apart(t) && IsBase(t, b) && b in m && !(par.Chunk? && par.a in Foot(t))
    requires forall x :: x in Foot(t) && x in m && x !in Foot(Subtree(t, b)) ==> x in m' && m'[x] == m[x]
    requires Rep(m', b, m[b].parent, s')
    ensures Rep(m', a, par, Plug(t, b, s'))
  {
    hide RingLinks, Members, Rep, Apart;
    ParentOf(m, a, par, t, b);
    if a != b {
      Substitute(m, m', a, par, t, b, b, s', Foot(t));
    } else {
      RootIsFirst(m, a, par, t);
    }
  }

  lemma RootIsFirst(m: Mem, a: Addr, par: Link, t: Trie)
    requires t.Node? && Rep(m, a, par, t)
    ensures t.ring != [] && t.ring[0] == a
  {
  }

  lemma {:induction false} Compose(t: Trie, b: Addr, c: Addr, s': Trie)
    requires Apart(t) && IsBase(t, b) && IsBase(Subtree(t, b), c)
    ensures IsBase(t, c) && Subtree(t, c) == Subtree(Subtree(t, b), c)
    ensures Plug(t, b, Plug(Subtree(t, b), c, s')) == Plug(t, c, s')
  {
    if !(t.ring != [] && t.ring[0] == b) {
      var s := if IsBase(t.left, b) then t.left else t.right;
      Compose(s, b, c, s');
      BaseInFoot(s, c);
      assert t.ring != [] ==> t.ring[0] in Members(t.ring);
      if !IsBase(t.left, b) && IsBase(t.left, c) {
        BaseInFoot(t.left, c);
        assert false;
      }
    }
  }

  lemma {:induction false} PlugSelf(t: Trie, b: Addr)
    requires IsBase(t, b)
    ensures Plug(t, b, Subtree(t, b)) == t
  {
    if !(t.ring != [] && t.ring[0] == b) {
      PlugSelf(if IsBase(t.left, b) then t.left else t.right, b);
    }
  }

  // ------------------------------------------------------------------
  // insert_large_chunk
  // ------------------------------------------------------------------

  lemma SingleRing(m: Mem, x: Addr, c: TreeChunk)
    requires x != 0 && c.fd == x && c.bk == x && x in m && m[x] == c
    ensures RingLinks(m, [x], c.size) && Members([x]) == {x}
  {
    assert Linked(m, [x], 0, c.size);
  }

  // A new leaf on one side of the chunk b.
  lemma AttachLeaf(m: Mem, m': Mem, b: Addr, par: Link, t: Trie, x: Addr, size: nat, right: bool)
    requires t.Node? && Rep(m, b, par, t) && Apart(t) && x !in Foot(t) && x != 0
    requires if right then t.right.Empty? else t.left.Empty?
    requires b in m && m' == m[b := if right then m[b].(right := x) else m[b].(left := x)][x := TreeChunk(size, x, x, 0, 0, Chunk(b))]
    ensures Rep(m', b, par, if right then t.(right := Node(size, [x], Empty, Empty)) else t.(left := Node(size, [x], Empty, Empty)))
  {
    hide Members;
    FirstMember(m, t.ring, t.size);
    SingleRing(m', x, TreeChunk(size, x, x, 0, 0, Chunk(b)));
    assert Rep(m', x, Chunk(b), Node(size, [x], Empty, Empty));
    Frame(m, m', if right then m[b].left else m[b].right, Chunk(b), if right then t.left else t.right);
    forall i {:trigger Linked(m', t.ring, i, t.size)} | 0 <= i < |t.ring| ensures Linked(m', t.ring, i, t.size) {
      assert Linked(m, t.ring, i, t.size);
      IsMember(t.ring, i);
    }
  }

  lemma IsMember(ring: seq<Addr>, i: nat)
    requires i < |ring|
    ensures ring[i] in Members(ring)
  {
  }

  function Spliced(m: Mem, b: Addr, x: Addr, size: nat): Mem
    requires b in m && m[b].fd in m
  {
    var f := m[b].fd;
    var m1 := m[b := m[b].(fd := x)];
    m1[f := m1[f].(bk := x)][x := TreeChunk(size, f, b, 0, 0, Null)]
  }

  // One more chunk in the ring of b.
  lemma AttachRing(m: Mem, b: Addr, par: Link, t: Trie, x: Addr)
    requires t.Node? && Rep(m, b, par, t) && Apart(t) && x !in Foot(t) && x != 0
    ensures b in m && m[b].fd in m && Rep(Spliced(m, b, x, t.size), b, par, t.(ring := [t.ring[0], x] + t.ring[1..]))
  {
    hide Members;
    FirstMember(m, t.ring, t.size);
    assert Linked(m, t.ring, 0, t.size) && Linked(m, t.ring, Next(0, |t.ring|), t.size);
    IsMember(t.ring, Next(0, |t.ring|));
    var m' := Spliced(m, b, x, t.size);
    var ring := [t.ring[0], x] + t.ring[1..];
    forall i {:trigger Linked(m', ring, i, t.size)} | 0 <= i < |ring| ensures Linked(m', ring, i, t.size) {
      RingGrown(m, t.ring, t.size, x, i);
    }
    Frame(m, m', m[b].left, Chunk(b), t.left);
    Frame(m, m', m[b].right, Chunk(b), t.right);
  }

  lemma RingGrown(m: Mem, ring: seq<Addr>, size: nat, x: Addr, i: nat)
    requires RingLinks(m, ring, size) && Ring(ring) && x !in Members(ring) && x != 0 && i <= |ring|
    ensures ring[0] in m && m[ring[0]].fd in m && Linked(Spliced(m, ring[0], x, size), [ring[0], x] + ring[1..], i, size)
  {
    var n, more := |ring|, [ring[0], x] + ring[1..];
    assert Linked(m, ring, 0, size) && Linked(m, ring, Next(0, n), size);
    if i != 1 {
      var j := if i == 0 then 0 else i - 1;
      assert Linked(m, ring, j, size) && more[i] == ring[j];
      IsMember(ring, j);
    }
  }

  lemma {:induction false} InsertApart(t: Trie, x: Addr, size: nat, k: nat)
    requires Apart(t) && x !in Foot(t)
    ensures Apart(Insert(t, x, size, k)) && Foot(Insert(t, x, size, k)) == Foot(t) + {x}
  {
    if t.Empty? {
      OneMember(x);
    } else if t.size == size {
      GrownRing(t.ring, x);
    } else if SignBit(k) {
      InsertApart(t.right, x, size, Shl1(k));
    } else {
      InsertApart(t.left, x, size, Shl1(k));
    }
  }

  lemma OneMember(x: Addr)
    ensures Members([x]) == {x}
  {
    assert [x][0] == x;
  }

  lemma MembersSplit(a: seq<Addr>, b: seq<Addr>)
    ensures Members(a + b) == Members(a) + Members(b)
  {
    forall i | 0 <= i < |a| ensures a[i] in Members(a + b) {
      assert (a + b)[i] == a[i];
    }
    forall i | 0 <= i < |b| ensures b[i] in Members(a + b) {
      assert (a + b)[|a| + i] == b[i];
    }
    forall i | 0 <= i < |a + b| ensures (a + b)[i] in Members(a) + Members(b) {
      if i < |a| {
        IsMember(a, i);
      } else {
        IsMember(b, i - |a|);
      }
    }
  }

  lemma GrownRing(ring: seq<Addr>, x: Addr)
    requires Ring(ring) && x !in Members(ring)
    ensures Ring([ring[0], x] + ring[1..]) && Members([ring[0], x] + ring[1..]) == Members(ring) + {x}
  {
    hide Members;
    var more := [ring[0], x] + ring[1..];
    MembersSplit([ring[0], x], ring[1..]);
    MembersSplit([ring[0]], [x]);
    MembersSplit([ring[0]], ring[1..]);
    OneMember(x);
    assert [ring[0]] + [x] == [ring[0], x] && [ring[0]] + ring[1..] == ring;
    forall i, j | 0 <= i < j < |more| ensures more[i] != more[j] {
      var p, q := if i == 0 then 0 else i - 1, j - 1;
      IsMember(ring, p);
      IsMember(ring, q);
    }
  }

  // One step down the path of an insertion.
  lemma InsertDown(t: Trie, b: Addr, x: Addr, size: nat, k: nat)
    requires Apart(t) && IsBase(t, b) && Subtree(t, b).size != size
    ensures var s := Subtree(t, b); var c := if SignBit(k) then s.right else s.left;
      c.Node? ==>
        && c.ring != [] && IsBase(t, c.ring[0]) && Subtree(t, c.ring[0]) == c
        && Plug(t, c.ring[0], Insert(c, x, size, Shl1(k))) == Plug(t, b, Insert(s, x, size, k))
  {
    var s := Subtree(t, b);
    var c := if SignBit(k) then s.right else s.left;
    SubtreeApart(t, b);
    if c.Node? {
      var r := c.ring[0];
      assert s.ring[0] in Members(s.ring) && r in Members(c.ring);
      if SignBit(k) && IsBase(s.left, r) {
        BaseInFoot(s.left, r);
        assert false;
      }
      Compose(t, b, r, Insert(c, x, size, Shl1(k)));
    }
  }

  lemma {:induction false} SubtreeApart(t: Trie, b: Addr)
    requires Apart(t) && IsBase(t, b)
    ensures Apart(Subtree(t, b))
  {
    if !(t.ring != [] && t.ring[0] == b) {
      SubtreeApart(if IsBase(t.left, b) then t.left else t.right, b);
    }
  }

  // ------------------------------------------------------------------
  // unlink_large_chunk
  // ------------------------------------------------------------------

  // What becomes of the node that has x.
  function Without(s: Trie, x: Addr): Trie
    requires s.Node? && x in s.ring
  {
    if |s.ring| > 1 then s.(ring := UnlinkRing(s.ring, x)) else Replace(s)
  }

  // The node that has x is where Unlink looks for it.
  lemma {:induction false} Locate(t: Trie, x: Addr, size: nat, k: nat, lo: nat, width: nat, scale: nat) returns (b: Addr)
    requires Apart(t) && InOrder(t, lo, width) && Steers(k, size, lo, width, scale) && IsPowerOf2(width) && In(t, x, size)
    ensures IsBase(t, b) && x in Subtree(t, b).ring && Unlink(t, x, size, k) == Plug(t, b, Without(Subtree(t, b), x))
    decreases t
  {
    hide Members;
    if t.size == size {
      SizesMissing(t, size);
      b := t.ring[0];
    } else {
      assert width != 1;
      OnItsSide(t, x, size, lo, width);
      SteersDown(k, size, lo, width, scale);
      if SignBit(k) {
        b := Locate(t.right, x, size, Shl1(k), lo + width / 2, width / 2, 2 * scale);
        BaseInFoot(t.right, b);
        if IsBase(t.left, b) {
          BaseInFoot(t.left, b);
          assert false;
        }
      } else {
        b := Locate(t.left, x, size, Shl1(k), lo, width / 2, 2 * scale);
        BaseInFoot(t.left, b);
      }
      IsMember(t.ring, 0);
    }
  }

  lemma {:induction false} PlugApart(t: Trie, b: Addr, s': Trie)
    requires Apart(t) && IsBase(t, b) && Apart(s') && Foot(s') <= Foot(Subtree(t, b))
    ensures Apart(Plug(t, b, s')) && Foot(Plug(t, b, s')) == Foot(t) - Foot(Subtree(t, b)) + Foot(s')
  {
    hide Members;
    if !(t.ring != [] && t.ring[0] == b) {
      var s := if IsBase(t.left, b) then t.left else t.right;
      PlugApart(s, b, s');
      BaseInFoot(s, b);
    }
  }

  // --- a chunk of a ring with others ---

  function Bypassed(m: Mem, x: Addr): Mem
    requires x in m && m[x].fd in m && m[x].bk in m
  {
    var f, r := m[x].fd, m[x].bk;
    var m1 := m[f := m[f].(bk := r)];
    m1[r := m1[r].(fd := f)]
  }

  lemma Neighbours(m: Mem, ring: seq<Addr>, size: nat, i: nat)
    requires RingLinks(m, ring, size) && i < |ring|
    ensures ring[i] in m && m[ring[i]].fd in m && m[ring[i]].bk in m
    ensures m[ring[i]].fd in Members(ring) && m[ring[i]].bk in Members(ring)
    ensures m[ring[i]].fd == ring[Next(i, |ring|)] && m[ring[i]].bk == ring[Prev(i, |ring|)]
  {
    assert Linked(m, ring, i, size) && Linked(m, ring, Next(i, |ring|), size) && Linked(m, ring, Prev(i, |ring|), size);
    IsMember(ring, Next(i, |ring|));
    IsMember(ring, Prev(i, |ring|));
  }

  // The ring closes without one that is not the first.
  lemma RingCut(m: Mem, ring: seq<Addr>, size: nat, i: nat)
    requires RingLinks(m, ring, size) && Ring(ring) && 0 < i < |ring|
    ensures ring[i] in m && m[ring[i]].fd in m && m[ring[i]].bk in m
    ensures RingLinks(Bypassed(m, ring[i]), ring[..i] + ring[i + 1..], size)
  {
    Neighbours(m, ring, size, i);
    var m', cut := Bypassed(m, ring[i]), ring[..i] + ring[i + 1..];
    forall j {:trigger Linked(m', cut, j, size)} | 0 <= j < |cut| ensures Linked(m', cut, j, size) {
      var p := if j < i then j else j + 1;
      assert Linked(m, ring, p, size) && cut[j] == ring[p];
      assert cut[Next(j, |cut|)] == ring[if Next(p, |ring|) == i then Next(i, |ring|) else Next(p, |ring|)];
      assert cut[Prev(j, |cut|)] == ring[if Prev(p, |ring|) == i then Prev(i, |ring|) else Prev(p, |ring|)];
    }
  }

  // The last becomes the first, when the first goes; it has still to be put into the tree.
  lemma RingRotated(m: Mem, ring: seq<Addr>, size: nat)
    requires RingLinks(m, ring, size) && Ring(ring) && |ring| > 1
    ensures ring[0] in m && m[ring[0]].fd in m && m[ring[0]].bk in m && m[ring[0]].bk == ring[|ring| - 1]
    ensures var m' := Bypassed(m, ring[0]); var r := ring[|ring| - 1];
      RingLinks(m', [r] + ring[1..|ring| - 1], size) && r in m' && m'[r].left == 0 && m'[r].right == 0
  {
    Neighbours(m, ring, size, 0);
    var n := |ring|;
    var m', cut := Bypassed(m, ring[0]), [ring[n - 1]] + ring[1..n - 1];
    assert Linked(m, ring, n - 1, size);
    forall j {:trigger Linked(m', cut, j, size)} | 0 <= j < |cut| ensures Linked(m', cut, j, size) {
      var p := if j == 0 then n - 1 else j;
      assert Linked(m, ring, p, size) && cut[j] == ring[p];
      assert cut[Next(j, |cut|)] == ring[if Next(p, n) == 0 then Next(0, n) else Next(p, n)];
      assert cut[Prev(j, |cut|)] == ring[if Prev(p, n) == 0 then Prev(0, n) else Prev(p, n)];
    }
  }

  // --- the rightmost leaf ---

  function ChildOf(c: TreeChunk, right: bool): Addr {
    if right then c.right else c.left
  }

  function SetChild(m: Mem, p: Addr, right: bool, a: Addr): Mem
    requires p in m
  {
    m[p := if right then m[p].(right := a) else m[p].(left := a)]
  }

  // The child word that leads to the rightmost leaf of t, which itself is the child of p on one side.
  function LeafSlot(t: Trie, p: Addr, right: bool): (Addr, bool)
    requires t.Node? && t.ring != []
  {
    if t.right.Node? && t.right.ring != [] then LeafSlot(t.right, t.ring[0], true)
    else if t.left.Node? && t.left.ring != [] then LeafSlot(t.left, t.ring[0], false)
    else (p, right)
  }

  /** Clearing that word takes the rightmost leaf out. */
  lemma {:induction false} DropLeaf(m: Mem, a: Addr, p: Addr, right: bool, t: Trie)
    requires t.Node? && Rep(m, a, Chunk(p), t) && Apart(t) && p in m && p !in Foot(t) && ChildOf(m[p], right) == a
    ensures var (o, side) := LeafSlot(t, p, right);
      && o in m && (o == p || o in Foot(t)) && (o == p ==> side == right)
      && var m' := SetChild(m, o, side, 0); var leaf := RightmostLeaf(t);
      && Rep(m', ChildOf(m'[p], right), Chunk(p), DropRightmost(t))
      && RingLinks(m', leaf.ring, leaf.size) && Ring(leaf.ring) && leaf.ring[0] in m' && m'[leaf.ring[0]].left == 0 && m'[leaf.ring[0]].right == 0
      && Apart(DropRightmost(t)) && Members(leaf.ring) !! Foot(DropRightmost(t))
      && Foot(t) == Foot(DropRightmost(t)) + Members(leaf.ring)
    decreases t
  {
    hide Members, RingLinks;
    FirstMember(m, t.ring, t.size);
    var (o, side) := LeafSlot(t, p, right);
    RootThere(m, m[a].right, Chunk(a), t.right);
    RootThere(m, m[a].left, Chunk(a), t.left);
    if t.right.Node? {
      DropLeaf(m, m[a].right, a, true, t.right);
      var m' := SetChild(m, o, side, 0);
      Frame(m, m', m[a].left, Chunk(a), t.left);
      ChildCleared(m, m', t.ring, t.size, o, side);
    } else if t.left.Node? {
      DropLeaf(m, m[a].left, a, false, t.left);
      var m' := SetChild(m, o, side, 0);
      ChildCleared(m, m', t.ring, t.size, o, side);
    } else {
      var m' := SetChild(m, o, side, 0);
      RingFrame(m, m', t.ring, t.size);
    }
  }

  lemma ChildCleared(m: Mem, m': Mem, ring: seq<Addr>, size: nat, o: Addr, side: bool)
    requires RingLinks(m, ring, size) && Ring(ring) && o in m && m' == SetChild(m, o, side, 0)
    ensures RingLinks(m', ring, size)
  {
    forall i {:trigger Linked(m', ring, i, size)} | 0 <= i < |ring| ensures Linked(m', ring, i, size) {
      assert Linked(m, ring, i, size);
    }
  }

  // --- a chunk takes the place of another ---

  function MoveChild(m: Mem, c: Addr, r: Addr, right: bool): Mem
    requires r in m && (c != 0 ==> c in m)
  {
    if c == 0 then m else var m1 := SetChild(m, r, right, c); m1[c := m1[c].(parent := Chunk(r))]
  }

  function Moved(m: Mem, x: Addr, r: Addr, xp: Link): Mem
    requires x in m && r in m && (m[x].left != 0 ==> m[x].left in m) && (m[x].right != 0 ==> m[x].right in m) && x != r
  {
    var m1 := m[r := m[r].(parent := xp)];
    MoveChild(MoveChild(m1, m[x].left, r, false), m[x].right, r, true)
  }

  // What x has below it is below r, which was below nothing.
  lemma MoveOk(m: Mem, x: Addr, r: Addr, xp: Link, size: nat, ring: seq<Addr>, left: Trie, right: Trie)
    requires x in m && RingLinks(m, ring, size) && Ring(ring) && r == ring[0] && r in m && m[r].left == 0 && m[r].right == 0
    requires Rep(m, m[x].left, Chunk(x), left) && Rep(m, m[x].right, Chunk(x), right) && Apart(left) && Apart(right)
    requires Members(ring) !! Foot(left) && Members(ring) !! Foot(right) && Foot(left) !! Foot(right)
    requires x !in Members(ring) && x !in Foot(left) && x !in Foot(right)
    ensures x != r && (m[x].left != 0 ==> m[x].left in m) && (m[x].right != 0 ==> m[x].right in m)
    ensures Rep(Moved(m, x, r, xp), r, xp, Node(size, ring, left, right))
    ensures forall y :: y in m && y !in Members(ring) && y !in Foot(left) && y !in Foot(right) ==>
      y in Moved(m, x, r, xp) && Moved(m, x, r, xp)[y] == m[y]
  {
    hide Members;
    FirstMember(m, ring, size);
    var c0, c1 := m[x].left, m[x].right;
    RootThere(m, c0, Chunk(x), left);
    RootThere(m, c1, Chunk(x), right);
    var m' := Moved(m, x, r, xp);
    assert m'[r] == m[r].(parent := xp, left := c0, right := c1);
    if left.Node? {
      Reparent(m, m', c0, Chunk(x), Chunk(r), left);
    }
    if right.Node? {
      Reparent(m, m', c1, Chunk(x), Chunk(r), right);
    }
    forall i {:trigger Linked(m', ring, i, size)} | 0 <= i < |ring| ensures Linked(m', ring, i, size) {
      assert Linked(m, ring, i, size);
      IsMember(ring, i);
    }
  }

  // --- the three ways ---

  lemma RingCase(m: Mem, b: Addr, par: Link, s: Trie, x: Addr)
    requires s.Node? && Rep(m, b, par, s) && Apart(s) && x in s.ring && x != b
    ensures x in m && m[x].fd in m && m[x].bk in m && m[x].bk != x && m[x].parent == Null
    ensures Rep(Bypassed(m, x), b, par, Without(s, x)) && SameOutside(m, Bypassed(m, x), Foot(s))
  {
    hide Members;
    var i := IndexOf(s.ring, x);
    var m' := BypassedIs(m, s.ring, s.size, i);
    FirstMember(m, s.ring, s.size);
    Frame(m, m', m[b].left, Chunk(b), s.left);
    Frame(m, m', m[b].right, Chunk(b), s.right);
    assert Linked(m, s.ring, i, s.size);
  }

  ghost predicate SameOutside(m: Mem, m': Mem, foot: set<Addr>) {
    forall y :: y in m && y !in foot ==> y in m' && m'[y] == m[y]
  }

  // What a chunk that is not the first leaves behind.
  lemma BypassedIs(m: Mem, ring: seq<Addr>, size: nat, i: nat) returns (m': Mem)
    requires RingLinks(m, ring, size) && Ring(ring) && 0 < i < |ring|
    ensures ring[i] in m && m[ring[i]].fd in m && m[ring[i]].bk in m && m[ring[i]].bk != ring[i] && m' == Bypassed(m, ring[i])
    ensures RingLinks(m', ring[..i] + ring[i + 1..], size) && SameOutside(m, m', Members(ring))
    ensures ring[0] in m && ring[0] in m' && m'[ring[0]] == m[ring[0]].(fd := m'[ring[0]].fd, bk := m'[ring[0]].bk)
  {
    Neighbours(m, ring, size, i);
    RingCut(m, ring, size, i);
    m' := Bypassed(m, ring[i]);
    assert Linked(m, ring, 0, size);
  }

  lemma FirstCase(m: Mem, par: Link, s: Trie, x: Addr)
    requires s.Node? && Rep(m, x, par, s) && Apart(s) && |s.ring| > 1
    ensures x in m && m[x].fd in m && m[x].bk in m && m[x].bk != x
    ensures var m1, r := Bypassed(m, x), m[x].bk;
      && CanMove(m1, x, r) && r in Foot(s) && r != 0 && Rep(Moved(m1, x, r, par), r, par, Without(s, x))
      && SameOutside(m, m1, Foot(s)) && SameOutside(m1, Moved(m1, x, r, par), Foot(s))
      && ChildrenIn(m1, x, Foot(s))
  {
    hide Members, RingLinks, Ring, Moved;
    ChildrenInFoot(m, x, par, s);
    var n := |s.ring|;
    var r, ring := s.ring[n - 1], [s.ring[n - 1]] + s.ring[1..n - 1];
    FirstMember(m, s.ring, s.size);
    Neighbours(m, s.ring, s.size, 0);
    RingRotated(m, s.ring, s.size);
    UnlinkRingIs(s.ring, x);
    RingMembers(s.ring, x);
    var m1 := Bypassed(m, x);
    IsMember(s.ring, n - 1);
    FirstMember(m1, ring, s.size);
    FirstKept(m, s.ring, s.size);
    Frame(m, m1, m[x].left, Chunk(x), s.left);
    Frame(m, m1, m[x].right, Chunk(x), s.right);
    MoveOk(m1, x, r, par, s.size, ring, s.left, s.right);
  }

  // The first of a ring keeps its children when it is bypassed.
  lemma FirstKept(m: Mem, ring: seq<Addr>, size: nat)
    requires RingLinks(m, ring, size) && Ring(ring) && |ring| > 1
    ensures ring[0] in m && m[ring[0]].fd in m && m[ring[0]].bk in m && Bypassed(m, ring[0])[ring[0]] == m[ring[0]]
  {
    Neighbours(m, ring, size, 0);
    assert ring[Next(0, |ring|)] != ring[0] && ring[Prev(0, |ring|)] != ring[0];
  }

  lemma RingMembers(ring: seq<Addr>, x: Addr)
    requires Ring(ring) && x in ring && |ring| > 1
    ensures Ring(UnlinkRing(ring, x)) && Members(UnlinkRing(ring, x)) == Members(ring) - {x}
  {
    UnlinkRingIs(ring, x);
    forall y ensures y in Members(ring) <==> y in ring {}
    forall y ensures y in Members(UnlinkRing(ring, x)) <==> y in UnlinkRing(ring, x) {}
  }

  ghost predicate ChildrenIn(m: Mem, x: Addr, foot: set<Addr>) {
    x in m && x in foot && (m[x].left != 0 ==> m[x].left in foot) && (m[x].right != 0 ==> m[x].right in foot)
  }

  predicate CanMove(m: Mem, x: Addr, r: Addr) {
    x in m && r in m && x != r && (m[x].left != 0 ==> m[x].left in m) && (m[x].right != 0 ==> m[x].right in m)
  }

  lemma LeafCase(m: Mem, par: Link, s: Trie, x: Addr, right: bool)
    requires s.Node? && Rep(m, x, par, s) && Apart(s) && s.ring == [x] && x in m
    requires if right then s.right.Node? else s.right.Empty? && s.left.Node?
    requires var c := if right then s.right else s.left; c.ring != []
    ensures var c := if right then s.right else s.left;
      var (o, side) := LeafSlot(c, x, right); var r := RightmostLeaf(c).ring;
      && r != [] && o in m && o in Foot(s) && var m1 := SetChild(m, o, side, 0);
      && CanMove(m1, x, r[0]) && r[0] in Foot(s) && r[0] != 0 && Rep(Moved(m1, x, r[0], par), r[0], par, Replace(s))
      && SameOutside(m, m1, Foot(s)) && SameOutside(m1, Moved(m1, x, r[0], par), Foot(s)) && ChildrenIn(m1, x, Foot(s))
  {
    hide Members, RingLinks, Ring, Moved, Rep, Apart, Foot;
    ChildrenInFoot(m, x, par, s);
    LeafParts(m, x, par, s, right);
    var c, d := if right then s.right else s.left, if right then s.left else s.right;
    var a, e := ChildOf(m[x], right), ChildOf(m[x], !right);
    DropLeaf(m, a, x, right, c);
    var (o, side) := LeafSlot(c, x, right);
    var m1, leaf := SetChild(m, o, side, 0), RightmostLeaf(c);
    Frame(m, m1, e, Chunk(x), d);
    FirstMember(m1, leaf.ring, leaf.size);
    MoveOk(m1, x, leaf.ring[0], par, leaf.size, leaf.ring, if right then s.left else DropRightmost(c), if right then DropRightmost(c) else s.right);
  }

  lemma LeafParts(m: Mem, x: Addr, par: Link, s: Trie, right: bool)
    requires s.Node? && Rep(m, x, par, s) && Apart(s) && s.ring == [x] && x in m
    ensures var c, d := if right then s.right else s.left, if right then s.left else s.right;
      && Rep(m, ChildOf(m[x], right), Chunk(x), c) && Rep(m, ChildOf(m[x], !right), Chunk(x), d) && Apart(c) && Apart(d)
      && x !in Foot(c) && x !in Foot(d) && Foot(c) !! Foot(d) && Foot(c) <= Foot(s) && Foot(d) <= Foot(s) && x in Foot(s)
  {
    hide Members, RingLinks;
    OneMember(x);
  }

  // The parent of x has r for a child instead.
  function Relink(m: Mem, xp: Link, x: Addr, r: Addr): Mem
    requires xp.Chunk? ==> xp.a in m
  {
    if xp.Chunk? then m[xp.a := Relinked(m[xp.a], true, x, r)] else m
  }

  /** A new subtree in the place of that of x, once the link to it is set. */
  lemma Placed(m: Mem, m1: Mem, a: Addr, t: Trie, x: Addr, r: Addr, s': Trie)
    requires Rep(m, a, Bin, t) && Apart(t) && IsBase(t, x) && x in m && SameOutside(m, m1, Foot(Subtree(t, x)))
    requires Rep(m1, r, m[x].parent, s') && Foot(s') <= Foot(Subtree(t, x))
    ensures m[x].parent.Chunk? ==> m[x].parent.a in m1 && m[x].parent.a !in Foot(Subtree(t, x))
    ensures m[x].parent == Bin <==> a == x
    ensures m[x].parent != Null && Rep(Relink(m1, m[x].parent, x, r), if a == x then r else a, Bin, Plug(t, x, s'))
  {
    hide Members, RingLinks, Rep, Apart, Foot;
    ParentOf(m, a, Bin, t, x);
    if a == x {
      PlugAtRoot(m, a, t, s');
    } else {
      var m' := Relink(m1, m[x].parent, x, r);
      OutsideFrame(m1, m', r, m[x].parent, s', m[x].parent.a);
      Substitute(m, m', a, Bin, t, x, r, s', Foot(t));
    }
  }

  lemma PlugAtRoot(m: Mem, a: Addr, t: Trie, s': Trie)
    requires Rep(m, a, Bin, t) && t.Node?
    ensures IsBase(t, a) && Plug(t, a, s') == s'
  {
  }

  lemma OutsideFrame(m: Mem, m': Mem, r: Addr, par: Link, s: Trie, p: Addr)
    requires Rep(m, r, par, s) && p !in Foot(s) && forall y :: y in m && y != p ==> y in m' && m'[y] == m[y]
    ensures Rep(m', r, par, s)
  {
    Frame(m, m', r, par, s);
  }

  // The link to x can be set before or after.
  lemma RelinkFirst(m: Mem, xp: Link, x: Addr, r: Addr, foot: set<Addr>)
    requires CanMove(m, x, r) && (xp.Chunk? ==> xp.a in m && xp.a !in foot) && r in foot && ChildrenIn(m, x, foot)
    ensures CanMove(Relink(m, xp, x, r), x, r) && (xp.Chunk? ==> xp.a in Moved(m, x, r, xp))
    ensures Moved(Relink(m, xp, x, r), x, r, xp) == Relink(Moved(m, x, r, xp), xp, x, r)
  {
    if xp.Chunk? {
      var p := xp.a;
      var a, b := Moved(Relink(m, xp, x, r), x, r, xp), Relink(Moved(m, x, r, xp), xp, x, r);
      assert a.Keys == b.Keys;
      forall y | y in a ensures a[y] == b[y] {}
    }
  }

  // What is below a chunk is in its subtree.
  lemma ChildrenInFoot(m: Mem, x: Addr, par: Link, s: Trie)
    requires s.Node? && Rep(m, x, par, s)
    ensures ChildrenIn(m, x, Foot(s))
  {
    FirstMember(m, s.ring, s.size);
    RootThere(m, m[x].left, Chunk(x), s.left);
    RootThere(m, m[x].right, Chunk(x), s.right);
  }

  lemma {:induction false} DropApart(t: Trie)
    requires t.Node? && Apart(t)
    ensures var leaf := RightmostLeaf(t);
      && Apart(DropRightmost(t)) && Ring(leaf.ring) && Members(leaf.ring) !! Foot(DropRightmost(t))
      && Foot(t) == Foot(DropRightmost(t)) + Members(leaf.ring)
  {
    hide Members;
    if t.right.Node? {
      DropApart(t.right);
    } else if t.left.Node? {
      DropApart(t.left);
    }
  }

  lemma WithoutApart(s: Trie, x: Addr)
    requires s.Node? && Apart(s) && x in s.ring
    ensures Apart(Without(s, x)) && Foot(Without(s, x)) == Foot(s) - {x}
  {
    if |s.ring| > 1 {
      RingMembers(s.ring, x);
      assert x in Members(s.ring);
    } else {
      assert s.ring == [x];
      OneMember(x);
      if s.right.Node? {
        DropApart(s.right);
      } else if s.left.Node? {
        DropApart(s.left);
      }
    }
  }

  lemma RootThere(m: Mem, a: Addr, par: Link, t: Trie)
    requires Rep(m, a, par, t)
    ensures a == 0 <==> t.Empty?
    ensures t.Node? ==> IsBase(t, a) && Subtree(t, a) == t && a in m && m[a].size == t.size && m[a].parent == par && a in Foot(t)
  {
    if t.Node? {
      FirstMember(m, t.ring, t.size);
      assert Linked(m, t.ring, 0, t.size);
    }
  }

  lemma FirstChunk(m: Mem, x: Addr, size: nat, k: nat)
    requires x in m && m[x] == TreeChunk(size, x, x, 0, 0, Bin) && x != 0
    ensures Rep(m, x, Bin, Insert(Empty, x, size, k))
  {
    SingleRing(m, x, m[x]);
  }

  lemma PlugRoot(t: Trie, s: Trie)
    requires t.Node? && t.ring != []
    ensures IsBase(t, t.ring[0]) && Plug(t, t.ring[0], s) == s
  {
  }

  // A child of a chunk in memory is that of its node.
  lemma Child(m: Mem, b: Addr, par: Link, s: Trie, right: bool)
    requires s.Node? && b in m && Rep(m, b, par, s)
    ensures var c, child := if right then m[b].right else m[b].left, if right then s.right else s.left;
      && Rep(m, c, Chunk(b), child) && (c == 0 <==> child.Empty?)
      && (child.Node? ==> child.ring != [] && child.ring[0] == c && c in m && m[c].size == child.size && m[c].parent == Chunk(b))
  {
    var c, child := if right then m[b].right else m[b].left, if right then s.right else s.left;
    RootThere(m, c, Chunk(b), child);
  }

  lemma RingOutside(m: Mem, b: Addr, par: Link, s: Trie, x: Addr)
    requires s.Node? && b in m && Rep(m, b, par, s) && m[b].fd in m
    ensures forall y :: y in m && y !in Foot(s) && y != x ==> y in Spliced(m, b, x, s.size) && Spliced(m, b, x, s.size)[y] == m[y]
  {
    assert Linked(m, s.ring, 0, s.size) && Linked(m, s.ring, Next(0, |s.ring|), s.size);
    IsMember(s.ring, 0);
    IsMember(s.ring, Next(0, |s.ring|));
  }

  // Where the chunk x stands in its ring and in the tree.
  lemma UnlinkSides(m: Mem, a: Addr, t: Trie, b: Addr, x: Addr)
    requires Rep(m, a, Bin, t) && Apart(t) && IsBase(t, b) && x in Subtree(t, b).ring
    ensures var s := Subtree(t, b);
      && b in m && Rep(m, b, m[b].parent, s) && Apart(s) && x in m && m[x].fd in m && m[x].bk in m
      && (x != b ==> |s.ring| > 1 && m[x].bk != x) && (x == b ==> (m[x].bk != x <==> |s.ring| > 1))
      && (x == b && |s.ring| == 1 ==> s.ring == [x]) && (m[x].parent == Null <==> x != b)
      && Apart(Plug(t, b, Without(s, x))) && Foot(Plug(t, b, Without(s, x))) == Foot(t) - {x}
      && Foot(Without(s, x)) <= Foot(s) && Apart(t) && x in Foot(s)
      && (m[b].parent.Chunk? ==> m[b].parent.a in m && m[b].parent.a !in Foot(s))
  {
    hide Members, RingLinks;
    ParentOf(m, a, Bin, t, b);
    SubtreeApart(t, b);
    var s := Subtree(t, b);
    WithoutApart(s, x);
    PlugApart(t, b, Without(s, x));
    BaseInFoot(t, b);
    var i := IndexOf(s.ring, x);
    Neighbours(m, s.ring, s.size, i);
    IsMember(s.ring, i);
    assert |s.ring| > 1 ==> s.ring[Prev(i, |s.ring|)] != x;
    ParentNull(m, s.ring, s.size, i);
  }

  lemma NothingThere(m: Mem, par: Link)
    ensures Rep(m, 0, par, Empty)
  {
  }

  lemma ParentNull(m: Mem, ring: seq<Addr>, size: nat, i: nat)
    requires RingLinks(m, ring, size) && 0 <= i < |ring|
    ensures i > 0 ==> ring[i] in m && m[ring[i]].parent == Null
  {
    assert Linked(m, ring, i, size);
  }
}
