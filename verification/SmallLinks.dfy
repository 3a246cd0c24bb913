/** A small bin of the kernel heap in memory (src/kernel/dlmalloc.cc): a ring of fd and bk links through the bin
    itself, as insert_small_chunk, unlink_small_chunk and unlink_first_small_chunk change it (in LinkedBins). */
module SmallLinks {
  import opened HeapSizes
  import T = TreeLinks

  type Mem = T.Mem

  ghost predicate Linked(m: Mem, ring: seq<Addr>, i: nat)
    requires i < |ring|
  {
    ring[i] in m && m[ring[i]].fd == ring[T.Next(i, |ring|)] && m[ring[i]].bk == ring[T.Prev(i, |ring|)]
  }

  ghost predicate IsRing(m: Mem, ring: seq<Addr>) {
    && (forall i, j :: 0 <= i < j < |ring| ==> ring[i] != ring[j])
    && forall i {:trigger Linked(m, ring, i)} :: 0 <= i < |ring| ==> Linked(m, ring, i)
  }

  function SetFd(m: Mem, a: Addr, v: Addr): Mem
    requires a in m
  {
    m[a := m[a].(fd := v)]
  }

  function SetBk(m: Mem, a: Addr, v: Addr): Mem
    requires a in m
  {
    m[a := m[a].(bk := v)]
  }

  // The links of a chunk that is not in the ring yet.
  function SetLinks(m: Mem, a: Addr, fd: Addr, bk: Addr): Mem {
    m[a := (if a in m then m[a] else T.TreeChunk(0, 0, 0, 0, 0, T.Null)).(fd := fd, bk := bk)]
  }

  // A chunk comes in behind the first.
  lemma RingGrown(m: Mem, ring: seq<Addr>, x: Addr)
    requires IsRing(m, ring) && ring != [] && x !in ring
    ensures ring[0] in m && m[ring[0]].fd in m
    ensures var b, f := ring[0], m[ring[0]].fd;
      IsRing(SetLinks(SetBk(SetFd(m, b, x), f, x), x, f, b), [b, x] + ring[1..])
  {
    var n := |ring|;
    assert Linked(m, ring, 0) && Linked(m, ring, T.Next(0, n));
    var b, f, more := ring[0], m[ring[0]].fd, [ring[0], x] + ring[1..];
    var m' := SetLinks(SetBk(SetFd(m, b, x), f, x), x, f, b);
    forall i, j | 0 <= i < j < |more| ensures more[i] != more[j] {
      assert ring[if i == 0 then 0 else i - 1] in ring && ring[j - 1] in ring;
    }
    forall i {:trigger Linked(m', more, i)} | 0 <= i < |more| ensures Linked(m', more, i) {
      if i != 1 {
        var p := if i == 0 then 0 else i - 1;
        assert Linked(m, ring, p) && more[i] == ring[p] && ring[p] in ring;
      }
    }
  }

  // A chunk leaves.
  lemma RingCut(m: Mem, ring: seq<Addr>, i: nat)
    requires IsRing(m, ring) && 0 < i < |ring|
    ensures ring[i] in m && m[ring[i]].fd in m && m[ring[i]].bk in m
    ensures var f, r := m[ring[i]].fd, m[ring[i]].bk;
      IsRing(SetFd(SetBk(m, f, r), r, f), ring[..i] + ring[i + 1..])
  {
    var n := |ring|;
    assert Linked(m, ring, i) && Linked(m, ring, T.Next(i, n)) && Linked(m, ring, T.Prev(i, n));
    var f, r, cut := m[ring[i]].fd, m[ring[i]].bk, ring[..i] + ring[i + 1..];
    var m' := SetFd(SetBk(m, f, r), r, f);
    forall j {:trigger Linked(m', cut, j)} | 0 <= j < |cut| ensures Linked(m', cut, j) {
      var p := if j < i then j else j + 1;
      assert Linked(m, ring, p);
      CutLinked(m, ring, i, j, p);
    }
  }

  lemma CutLinked(m: Mem, ring: seq<Addr>, i: nat, j: nat, p: nat)
    requires (forall a, b :: 0 <= a < b < |ring| ==> ring[a] != ring[b]) && 0 < i < |ring| && j < |ring| - 1 && p == if j < i then j else j + 1
    requires Linked(m, ring, i) && Linked(m, ring, p) && m[ring[i]].fd in m && m[ring[i]].bk in m
    ensures var f, r := m[ring[i]].fd, m[ring[i]].bk; Linked(SetFd(SetBk(m, f, r), r, f), ring[..i] + ring[i + 1..], j)
  {
    var n, cut := |ring|, ring[..i] + ring[i + 1..];
    assert cut[j] == ring[p];
    assert cut[T.Next(j, |cut|)] == ring[if T.Next(p, n) == i then T.Next(i, n) else T.Next(p, n)];
    assert cut[T.Prev(j, |cut|)] == ring[if T.Prev(p, n) == i then T.Prev(i, n) else T.Prev(p, n)];
  }

  // Whatever the bin links to.
  lemma TwoRing(m: Mem, bin: Addr, p: Addr)
    requires bin in m && p != bin
    ensures [bin] + ([p] + []) == [bin, p] && IsRing(SetLinks(SetBk(SetFd(m, bin, p), bin, p), p, bin, bin), [bin, p])
  {
    var m' := SetLinks(SetBk(SetFd(m, bin, p), bin, p), p, bin, bin);
    assert Linked(m', [bin, p], 0) && Linked(m', [bin, p], 1);
  }

  // A chunk with one neighbour is alone in the bin.
  lemma SameNeighbours(chunks: seq<Addr>, bin: Addr, i: nat)
    requires i < |chunks| && var ring := [bin] + chunks;
      (forall a, b :: 0 <= a < b < |ring| ==> ring[a] != ring[b]) && ring[T.Next(i + 1, |ring|)] == ring[T.Prev(i + 1, |ring|)]
    ensures |chunks| == 1
  {
  }
}
