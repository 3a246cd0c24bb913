/** The elements in the blocks of an implicit producer (deps/concurrentqueue/concurrentqueue.h), on top of
    the run of its block index: the enqueuer builds element number i in a cell of its tail block, and a
    dequeuer takes the element from the cell that the index led it to. */
module BlockCells {
  import opened Places
  import opened BlockIndex

  // A cell of a block; cells maps each one that holds an element to the number of the element.
  type Cell = (Block, nat)

  datatype Queue = Queue(core: State, tailBlock: Block, cells: map<Cell, nat>)

  ghost predicate Follows(q: Queue, a: Action, q': Queue) {
    && WellFormed(q.core) && Enabled(q.core, a) && q'.core == Do(q.core, a)
    && q'.tailBlock == (if a.Enqueue? && q.core.enq.StoreValue? then q.core.enq.block else q.tailBlock)
    && q'.cells == CellsAfter(q, a)
  }

  // The element is built before tailIndex is published; it is moved out and destroyed before it is counted.
  function CellsAfter(q: Queue, a: Action): map<Cell, nat>
    requires Enabled(q.core, a)
  {
    if a.Enqueue? && q.core.enq.Publish? then q.cells[(q.tailBlock, q.core.tail % BLOCK) := q.core.tail]
    else if a.Advance? && q.core.pc[a.t].HaveBlock? then
      var pc := q.core.pc[a.t];
      q.cells - {(pc.block, pc.i % BLOCK)}
    else q.cells
  }

  ghost predicate Begins(q: Queue) {
    Initial(q.core) && q.cells == map[]
  }

  ghost predicate IsRun(states: seq<Queue>, actions: seq<Action>) {
    && |states| == |actions| + 1 && Begins(states[0])
    && forall i :: 0 <= i < |actions| ==> Follows(states[i], actions[i], states[i + 1])
  }

  // ------------------------------------------------------------------
  // The invariant
  // ------------------------------------------------------------------

  ghost predicate InCell(g: Ghost, i: nat, c: Cell) {
    i / BLOCK in g.home && c == (g.home[i / BLOCK], i % BLOCK)
  }

  // Element i is in its cell.
  ghost predicate Present(q: Queue, g: Ghost, i: nat) {
    i / BLOCK in g.home && var c := (g.home[i / BLOCK], i % BLOCK); c in q.cells && q.cells[c] == i
  }

  ghost predicate CellOk(q: Queue, g: Ghost, c: Cell)
    requires c in q.cells
  {
    q.cells[c] < q.core.tail && q.cells[c] !in g.done && InCell(g, q.cells[c], c)
  }

  // The cells hold exactly the elements that are published and not consumed.
  ghost predicate CellsOk(q: Queue, g: Ghost) {
    && (forall i: nat {:trigger Present(q, g, i)} :: i < q.core.tail && i !in g.done ==> Present(q, g, i))
    && (forall c {:trigger CellOk(q, g, c)} :: c in q.cells ==> CellOk(q, g, c))
  }

  ghost predicate TailOk(q: Queue, g: Ghost) {
    var s := q.core;
    s.tail % BLOCK != 0 || s.enq.Publish? ==> s.tail / BLOCK in g.home && g.home[s.tail / BLOCK] == q.tailBlock
  }

  // Somebody releases block b.
  ghost predicate Clearing(s: State, t: Thread, b: nat) {
    t in s.pc && s.pc[t].Clear? && s.pc[t].i / BLOCK == b
  }

  ghost predicate Releasing(s: State, g: Ghost, b: nat) {
    Unreleased(s, g, b) && |DoneIn(g, b)| == BLOCK ==> exists t :: Clearing(s, t, b)
  }

  // Who has the block object x.
  ghost predicate IsHome(s: State, g: Ghost, b: nat, x: Block) {
    Unreleased(s, g, b) && b in g.home && g.home[b] == x
  }

  ghost predicate Freeing(s: State, t: Thread, x: Block) {
    t in s.pc && s.pc[t].Free? && s.pc[t].block == x
  }

  ghost predicate WithEnqueuer(s: State, g: Ghost, x: Block) {
    || (s.enq.StoreValue? && s.enq.block == x)
    || (s.enq.Publish? && s.tail % BLOCK == 0 && Blocks(s.tail) in g.home && g.home[Blocks(s.tail)] == x)
  }

  ghost predicate HasOwner(s: State, g: Ghost, x: Block) {
    (exists b: nat :: IsHome(s, g, b, x)) || (exists t :: Freeing(s, t, x)) || WithEnqueuer(s, g, x)
  }

  ghost predicate Ledger(s: State, g: Ghost) {
    && (forall b: nat {:trigger Releasing(s, g, b)} :: Releasing(s, g, b))
    && (forall x {:trigger HasOwner(s, g, x)} :: x in s.owned ==> HasOwner(s, g, x))
  }

  // A block that is being returned is empty.
  ghost predicate Spent(q: Queue, t: Thread)
    requires t in q.core.pc
  {
    q.core.pc[t].Clear? || q.core.pc[t].Free? ==>
      var b := q.core.pc[t].block;
      b in q.core.counter && q.core.counter[b] == BLOCK
  }

  // There are less than 2^63 elements, and room for those of the block that has been begun.
  predicate Bounded(s: State) {
    if s.enq.Ready? && s.tail % BLOCK == 0 then s.tail - s.head < HALF else s.tail / BLOCK * BLOCK + BLOCK - s.head < HALF
  }

  ghost predicate AllInv(q: Queue, g: Ghost) {
    Inv(q.core, g) && Bounded(q.core) && CellsOk(q, g) && TailOk(q, g) && Ledger(q.core, g) && forall t {:trigger Spent(q, t)} :: t in q.core.pc ==> Spent(q, t)
  }


  // ------------------------------------------------------------------
  // What the invariant of the index says
  // ------------------------------------------------------------------

  lemma NotDone(s: State, g: Ghost, i: nat)
    requires Accounted(s, g) && i < s.tail && i !in g.done
    ensures Unreleased(s, g, i / BLOCK)
  {
    BlockOfIndex(i, s.tail);
  }

  lemma HomesApart(s: State, g: Ghost, b: nat, c: nat)
    requires Inv(s, g) && Unreleased(s, g, b) && Unreleased(s, g, c) && b != c
    ensures b in g.home && c in g.home && g.home[b] != g.home[c]
  {
    hide Rings, EnqOk, Accounted, Readers;
    assert BlockOk(s, g, b) && BlockOk(s, g, c) && HomesDiffer(s, g, b, c);
  }

  // A dequeuer has the block of its index.
  lemma HasBlock(s: State, g: Ghost, t: Thread)
    requires Inv(s, g) && t in s.pc && s.pc[t].HaveBlock?
    ensures var pc := s.pc[t]; var b := pc.i / BLOCK;
      && pc.i < s.tail && pc.i !in g.done && Unreleased(s, g, b) && b in g.home && pc.block == g.home[b]
      && pc.block in s.counter && s.counter[pc.block] == |DoneIn(g, b)|
  {
    hide Rings, EnqOk;
    assert ThreadOk(s, g, t);
    HeldIsUnreleased(s, g, s.pc[t].i);
    assert BlockOk(s, g, s.pc[t].i / BLOCK);
  }

  // A dequeuer clears the block of its index, which is consumed.
  lemma ClearsBlock(s: State, g: Ghost, t: Thread)
    requires Inv(s, g) && t in s.pc && s.pc[t].Clear?
    ensures var pc := s.pc[t]; var b := pc.i / BLOCK;
      && Unreleased(s, g, b) && b in g.home && pc.block == g.home[b] && |DoneIn(g, b)| == BLOCK
      && pc.block in s.counter && s.counter[pc.block] == BLOCK && pc.block in s.owned
  {
    hide Rings, EnqOk, Accounted;
    assert ThreadOk(s, g, t);
    assert BlockOk(s, g, s.pc[t].i / BLOCK);
  }

  // A block that a dequeuer frees is the block of no index.
  lemma FreesBlock(s: State, g: Ghost, t: Thread)
    requires Inv(s, g) && t in s.pc && s.pc[t].Free?
    ensures s.pc[t].block in s.owned
    ensures forall b: nat :: Unreleased(s, g, b) && b in g.home ==> g.home[b] != s.pc[t].block
  {
    hide Rings, EnqOk, Accounted, Stored;
    assert ThreadOk(s, g, t);
  }

  // ------------------------------------------------------------------
  // The cells
  // ------------------------------------------------------------------

  // What a step does to the tail, the enqueuer and the blocks.
  lemma Frame(s: State, a: Action)
    requires WellFormed(s) && Enabled(s, a)
    ensures var s' := Do(s, a);
      && s'.tail == (if a.Enqueue? && s.enq.Publish? then s.tail + 1 else s.tail)
      && (!a.Enqueue? ==> s'.enq == s.enq) && (a.Enqueue? ==> s'.pc == s.pc)
  {
  }

  lemma CellsStay(q: Queue, g: Ghost, a: Action, q': Queue, g': Ghost)
    requires Inv(q.core, g) && CellsOk(q, g) && Follows(q, a, q') && Records(q.core, g, a, g')
    requires !(a.Enqueue? && q.core.enq.Publish?) && !(a.Advance? && q.core.pc[a.t].HaveBlock?)
    ensures CellsOk(q', g')
  {
    hide Inv, WellFormed, Do;
    Frame(q.core, a);
    forall i: nat ensures i < q.core.tail ==> i / BLOCK < Blocks(q.core.tail) {
      if i < q.core.tail {
        BlockOfIndex(i, q.core.tail);
      }
    }
    forall i: nat {:trigger Present(q', g', i)} | i < q'.core.tail && i !in g'.done ensures Present(q', g', i) {
      assert Present(q, g, i);
    }
    forall c {:trigger CellOk(q', g', c)} | c in q'.cells ensures CellOk(q', g', c) {
      assert CellOk(q, g, c);
    }
  }

  // The cell that the enqueuer is about to fill is nobody else's.
  lemma NextCell(q: Queue, g: Ghost, i: nat)
    requires Inv(q.core, g) && TailOk(q, g) && q.core.enq.Publish? && i < q.core.tail && i !in g.done && i / BLOCK in g.home
    ensures (g.home[i / BLOCK], i % BLOCK) != (q.tailBlock, q.core.tail % BLOCK)
  {
    var s := q.core;
    var b, n := i / BLOCK, s.tail / BLOCK;
    NotDone(s, g, i);
    if b == n {
      assert i == b * BLOCK + i % BLOCK && s.tail == n * BLOCK + s.tail % BLOCK;
    } else if s.tail % BLOCK == 0 {
      BlocksAtEnd(s.tail);
      hide Rings, Stored, Readers, Accounted;
      assert Fresh(s, g, g.home[n]);
    } else {
      BlocksInside(s.tail);
      BlockOfIndex(s.tail, s.tail + 1);
      assert Unreleased(s, g, n) by {
        assert s.tail !in g.done;
      }
      hide Inv;
      HomesApart(s, g, b, n);
    }
  }

  lemma CellFilled(q: Queue, g: Ghost, a: Action, q': Queue, g': Ghost)
    requires Inv(q.core, g) && CellsOk(q, g) && TailOk(q, g) && Follows(q, a, q') && Records(q.core, g, a, g')
    requires a.Enqueue? && q.core.enq.Publish?
    ensures CellsOk(q', g')
    ensures (q.tailBlock, q.core.tail % BLOCK) !in q.cells
  {
    var s := q.core;
    assert s.tail !in g.done;
    hide Inv, WellFormed, Do;
    Frame(s, a);
    var cell := (q.tailBlock, s.tail % BLOCK);
    if cell in q.cells {
      assert CellOk(q, g, cell);
      NextCell(q, g, q.cells[cell]);
      assert false;
    }
    forall i: nat {:trigger Present(q', g', i)} | i < q'.core.tail && i !in g'.done ensures Present(q', g', i) {
      if i < s.tail {
        assert Present(q, g, i);
        NextCell(q, g, i);
      }
    }
    forall c {:trigger CellOk(q', g', c)} | c in q'.cells ensures CellOk(q', g', c) {
      if c != cell {
        assert CellOk(q, g, c);
      }
    }
  }

  lemma CellEmptied(q: Queue, g: Ghost, a: Action, q': Queue, g': Ghost)
    requires Inv(q.core, g) && CellsOk(q, g) && Follows(q, a, q') && Records(q.core, g, a, g')
    requires a.Advance? && q.core.pc[a.t].HaveBlock?
    ensures CellsOk(q', g')
  {
    hide Inv, WellFormed, Do;
    Frame(q.core, a);
    HasBlock(q.core, g, a.t);
    var pc := q.core.pc[a.t];
    assert Present(q, g, pc.i);
    forall i: nat {:trigger Present(q', g', i)} | i < q'.core.tail && i !in g'.done ensures Present(q', g', i) {
      assert Present(q, g, i);
    }
    forall c {:trigger CellOk(q', g', c)} | c in q'.cells ensures CellOk(q', g', c) {
      assert CellOk(q, g, c);
    }
  }

  lemma TailKept(q: Queue, g: Ghost, a: Action, q': Queue, g': Ghost)
    requires TailOk(q, g) && EnqAtEnd(q.core) && Follows(q, a, q') && Records(q.core, g, a, g')
    ensures TailOk(q', g')
  {
    hide WellFormed, DeqStep;
    var s, s' := q.core, q'.core;
    if a.Enqueue? && s.enq.Publish? && s'.tail % BLOCK != 0 {
      assert s'.tail / BLOCK == s.tail / BLOCK;
    } else if a.Enqueue? && s.enq.StoreValue? {
      BlocksAtEnd(s.tail);
    } else if !a.Enqueue? {
      Frame(s, a);
    }
  }

  ghost predicate EnqAtEnd(s: State) {
    AtBlockEnd(s.enq) ==> s.tail % BLOCK == 0
  }

  // ------------------------------------------------------------------
  // Who has each block
  // ------------------------------------------------------------------

  lemma SameDone(g: Ghost, g': Ghost, b: nat)
    requires g'.done == g.done
    ensures DoneIn(g', b) == DoneIn(g, b)
  {
  }

  // A step of the enqueuer can only add a block that has nothing consumed.
  lemma EnqReleasing(s: State, g: Ghost, a: Action, g': Ghost, b: nat)
    requires Inv(s, g) && WellFormed(s) && Enabled(s, a) && a.Enqueue? && Records(s, g, a, g') && Releasing(s, g, b)
    ensures Releasing(Do(s, a), g', b)
  {
    hide WellFormed, Do, DoneIn, Rings, Stored, EnqOk, Readers;
    Frame(s, a);
    SameDone(g, g', b);
    var s' := Do(s, a);
    if s.enq.Publish? && s.tail % BLOCK == 0 {
      NewlyUnreleased(s, g, s');
    } else if s.enq.Publish? {
      BlocksInside(s.tail);
    }
    if Unreleased(s', g', b) && |DoneIn(g', b)| == BLOCK {
      assert Unreleased(s, g, b);
      var t :| Clearing(s, t, b);
      assert Clearing(s', t, b);
    }
  }

  lemma DeqReleasing(s: State, g: Ghost, a: Action, g': Ghost, b: nat)
    requires Inv(s, g) && WellFormed(s) && Enabled(s, a) && !a.Enqueue? && Records(s, g, a, g') && Releasing(s, g, b)
    ensures Releasing(Do(s, a), g', b)
  {
    hide WellFormed, DoneIn, Inv, Offset;
    var s' := Do(s, a);
    if a.Advance? && s.pc[a.t].HaveBlock? {
      HasBlock(s, g, a.t);
      var i := s.pc[a.t].i;
      MoreDone(g, g', i, b);
      if b == i / BLOCK && |DoneIn(g', b)| == BLOCK {
        assert Clearing(s', a.t, b);
      }
    } else {
      SameDone(g, g', b);
    }
    if Unreleased(s, g, b) && |DoneIn(g, b)| == BLOCK {
      var t :| Clearing(s, t, b);
      assert t == a.t || Clearing(s', t, b);
    }
  }

  lemma MoreDone(g: Ghost, g': Ghost, i: nat, b: nat)
    requires i !in g.done && g'.done == g.done + {i}
    ensures |DoneIn(g', b)| == |DoneIn(g, b)| + (if b == i / BLOCK then 1 else 0)
  {
    hide DoneIn;
    var m := g.(done := g.done + {i});
    DoneMore(g, m, i);
    SameDone(m, g', b);
  }

  // What a step of the enqueuer does to the blocks that are out.
  lemma EnqBlocks(s: State, a: Action, x: Block)
    requires WellFormed(s) && Enabled(s, a) && a.Enqueue?
    ensures var s' := Do(s, a);
      && (x in s'.owned && x !in s.owned ==> s'.enq.StoreValue? && s'.enq.block == x)
      && (s.enq.StoreValue? ==> s'.enq.Publish? && s'.tail == s.tail)
  {
    hide WellFormed;
  }

  lemma EnqOwner(s: State, g: Ghost, a: Action, g': Ghost, x: Block)
    requires Inv(s, g) && WellFormed(s) && Enabled(s, a) && a.Enqueue? && Records(s, g, a, g')
    requires x in Do(s, a).owned && (x in s.owned ==> HasOwner(s, g, x))
    ensures HasOwner(Do(s, a), g', x)
  {
    hide WellFormed, Do, Rings, Stored, Readers, DoneIn;
    var s' := Do(s, a);
    AtEnd(s, g);
    Frame(s, a);
    EnqBlocks(s, a, x);
    if s.enq.Publish? && s.tail % BLOCK == 0 {
      NewlyUnreleased(s, g, s');
    } else if s.enq.Publish? {
      BlocksInside(s.tail);
    }
    hide Inv;
    if x !in s.owned {
      assert WithEnqueuer(s', g', x);
    } else if t :| Freeing(s, t, x) {
      assert Freeing(s', t, x);
    } else if b: nat :| IsHome(s, g, b, x) {
      assert IsHome(s', g', b, x);
    } else if s.enq.Publish? {
      assert IsHome(s', g', Blocks(s.tail), x);
    } else {
      assert WithEnqueuer(s', g', x);
    }
  }

  lemma DeqOwner(s: State, g: Ghost, a: Action, g': Ghost, x: Block)
    requires Inv(s, g) && WellFormed(s) && Enabled(s, a) && !a.Enqueue? && Records(s, g, a, g')
    requires x in Do(s, a).owned && HasOwner(s, g, x)
    ensures HasOwner(Do(s, a), g', x)
  {
    hide WellFormed, Inv, Offset;
    var s' := Do(s, a);
    if t :| Freeing(s, t, x) {
      assert t != a.t;
      assert Freeing(s', t, x);
    } else if b: nat :| IsHome(s, g, b, x) {
      if a.Advance? && s.pc[a.t].Clear? && s.pc[a.t].i / BLOCK == b {
        ClearsBlock(s, g, a.t);
        assert Freeing(s', a.t, x);
      } else {
        assert IsHome(s', g', b, x);
      }
    } else {
      assert WithEnqueuer(s', g', x);
    }
  }

  lemma LedgerKept(s: State, g: Ghost, a: Action, g': Ghost)
    requires Inv(s, g) && Ledger(s, g) && WellFormed(s) && Enabled(s, a) && Records(s, g, a, g')
    ensures Ledger(Do(s, a), g')
  {
    hide WellFormed, Inv, Do, Releasing, HasOwner, Records;
    var s' := Do(s, a);
    forall b: nat {:trigger Releasing(s', g', b)} ensures Releasing(s', g', b) {
      assert Releasing(s, g, b);
      if a.Enqueue? {
        EnqReleasing(s, g, a, g', b);
      } else {
        DeqReleasing(s, g, a, g', b);
      }
    }
    forall x {:trigger HasOwner(s', g', x)} | x in s'.owned ensures HasOwner(s', g', x) {
      if a.Enqueue? {
        assert x in s.owned ==> HasOwner(s, g, x);
        EnqOwner(s, g, a, g', x);
      } else {
        OwnedShrinks(s, a);
        assert HasOwner(s, g, x);
        DeqOwner(s, g, a, g', x);
      }
    }
  }

  lemma OwnedShrinks(s: State, a: Action)
    requires WellFormed(s) && Enabled(s, a) && !a.Enqueue?
    ensures Do(s, a).owned <= s.owned
  {
  }

  lemma SpentKept(q: Queue, g: Ghost, a: Action, q': Queue, t: Thread)
    requires Inv(q.core, g) && Follows(q, a, q') && t in q.core.pc && Spent(q, t)
    ensures t in q'.core.pc && Spent(q', t)
  {
    hide WellFormed, Inv, Offset;
    var s, s' := q.core, q'.core;
    if s.pc[t].Clear? {
      ClearsBlock(s, g, t);
    } else if s.pc[t].Free? {
      FreesBlock(s, g, t);
    }
    if a.Advance? && s.pc[a.t].HaveBlock? {
      HasBlock(s, g, a.t);
      if s.pc[t].Clear? {
        OthersBlock(s, g, t, a.t);
      }
    }
  }

  // A block that is being cleared is not the block of an index that is not consumed.
  lemma OthersBlock(s: State, g: Ghost, t: Thread, u: Thread)
    requires Inv(s, g) && t in s.pc && s.pc[t].Clear? && u in s.pc && s.pc[u].HaveBlock?
    ensures s.pc[u].block != s.pc[t].block
  {
    hide Inv, DoneIn;
    ClearsBlock(s, g, t);
    HasBlock(s, g, u);
    DoneBound(g, s.pc[t].i / BLOCK);
    var b, c := s.pc[t].i / BLOCK, s.pc[u].i / BLOCK;
    assert b != c;
    HomesApart(s, g, b, c);
  }

  // ------------------------------------------------------------------
  // Every run
  // ------------------------------------------------------------------

  lemma CellsKept(q: Queue, g: Ghost, a: Action, q': Queue, g': Ghost)
    requires Inv(q.core, g) && CellsOk(q, g) && TailOk(q, g) && Follows(q, a, q') && Records(q.core, g, a, g')
    ensures CellsOk(q', g')
  {
    hide Inv, WellFormed, Do, CellsOk, TailOk, Records;
    if a.Enqueue? && q.core.enq.Publish? {
      CellFilled(q, g, a, q', g');
    } else if a.Advance? && q.core.pc[a.t].HaveBlock? {
      CellEmptied(q, g, a, q', g');
    } else {
      CellsStay(q, g, a, q', g');
    }
  }

  lemma AtEnd(s: State, g: Ghost)
    requires Inv(s, g)
    ensures EnqAtEnd(s)
  {
    hide Rings, Stored, Readers, Accounted;
  }

  lemma SameThreads(s: State, a: Action)
    requires WellFormed(s) && Enabled(s, a)
    ensures Do(s, a).pc.Keys == s.pc.Keys
  {
    hide Offset;
  }

  lemma BoundedKept(s: State, a: Action)
    requires WellFormed(s) && Enabled(s, a) && Bounded(s) && EnqAtEnd(s) && s.head <= s.tail
    ensures Bounded(Do(s, a))
  {
    hide WellFormed, Offset;
    var s' := Do(s, a);
    HeadMoves(s, a);
    if a.Enqueue? && s.enq.Publish? {
      assert s'.tail % BLOCK != 0 ==> s'.tail / BLOCK == s.tail / BLOCK;
      assert s'.tail % BLOCK == 0 ==> s'.tail == s.tail / BLOCK * BLOCK + BLOCK;
    } else if a.Enqueue? && s.enq.Ready? && s'.enq.CheckSlot? {
      RoomLeft(s.head, s.tail);
    } else {
      Frame(s, a);
      assert s.tail % BLOCK == 0 ==> s.tail / BLOCK * BLOCK == s.tail;
    }
  }

  lemma HeadMoves(s: State, a: Action)
    requires WellFormed(s) && Enabled(s, a)
    ensures s.head <= Do(s, a).head
  {
    hide Offset;
  }

  // The test at the begin of a block, on numbers.
  lemma RoomLeft(head: nat, tail: nat)
    requires tail % BLOCK == 0 && head <= tail && tail - head < HALF && CircularLess(head, tail + BLOCK)
    ensures tail / BLOCK * BLOCK + BLOCK - head < HALF
  {
    var d := tail + BLOCK - head;
    assert (head - (tail + BLOCK)) % WORD == WORD - d;
  }

  lemma HeadBelowTail(s: State, g: Ghost)
    requires Inv(s, g)
    ensures s.head <= s.tail
  {
    hide Rings, Stored, EnqOk, Readers;
  }

  lemma AllKept(q: Queue, g: Ghost, a: Action, q': Queue) returns (g': Ghost)
    requires AllInv(q, g) && Follows(q, a, q')
    ensures AllInv(q', g') && Records(q.core, g, a, g')
  {
    hide Inv, WellFormed, Do, CellsOk, TailOk, Records, Ledger, Spent, EnqAtEnd, Bounded;
    g' := KeepsInv(q.core, g, a);
    AtEnd(q.core, g);
    CellsKept(q, g, a, q', g');
    TailKept(q, g, a, q', g');
    LedgerKept(q.core, g, a, g');
    SameThreads(q.core, a);
    HeadBelowTail(q.core, g);
    BoundedKept(q.core, a);
    forall t {:trigger Spent(q', t)} | t in q'.core.pc ensures Spent(q', t) {
      assert t in q'.core.pc.Keys;
      SpentKept(q, g, a, q', t);
    }
  }

  lemma BeginsOk(q: Queue)
    requires Begins(q)
    ensures AllInv(q, FirstGhost())
  {
    hide Inv;
    InitialInv(q.core);
  }

  lemma {:induction false} RunKeepsInv(states: seq<Queue>, actions: seq<Action>, n: nat) returns (g: Ghost)
    requires IsRun(states, actions) && n < |states|
    ensures AllInv(states[n], g)
    decreases n
  {
    hide AllInv, Follows, Begins;
    if n == 0 {
      BeginsOk(states[0]);
      g := FirstGhost();
    } else {
      var before := RunKeepsInv(states, actions, n - 1);
      assert Follows(states[n - 1], actions[n - 1], states[n]);
      g := AllKept(states[n - 1], before, actions[n - 1], states[n]);
    }
  }

  // What the source asserts where the enqueuer and the dequeuers stand: tailIndex is not below headIndex, a
  // slot of a new index has no key, and a block has an element that is not counted when one is consumed.
  ghost predicate Asserts(s: State) {
    && (forall t :: t in s.pc ==> !s.pc[t].Broken?)
    && (s.enq.Ready? && s.tail % BLOCK == 0 ==> !CircularLess(s.tail, s.head))
    && (forall t :: t in s.pc && s.pc[t].HaveBlock? ==> s.pc[t].block in s.counter && s.counter[s.pc[t].block] < BLOCK)
  }

  lemma AssertsHold(s: State, g: Ghost)
    requires Inv(s, g) && Bounded(s)
    ensures Asserts(s)
  {
    hide Inv, DoneIn;
    HeadBelowTail(s, g);
    assert s.tail - s.head < HALF ==> !CircularLess(s.tail, s.head);
    forall t | t in s.pc && s.pc[t].HaveBlock? ensures s.pc[t].block in s.counter && s.counter[s.pc[t].block] < BLOCK {
      HasBlock(s, g, t);
      DoneBound(g, s.pc[t].i / BLOCK);
    }
    forall t | t in s.pc ensures !s.pc[t].Broken? {
      NotBroken(s, g, t);
    }
  }

  /** The slot that the enqueuer uses right after new_block_index has no key. */
  lemma NewSlotIsInvalid(s: State, block: Block)
    requires WellFormed(s) && Enabled(s, Enqueue(true, block)) && s.enq.NewIndex?
    ensures var s' := Do(s, Enqueue(true, block));
      s'.enq.StoreKey? && s'.headers != [] && var h := Cur(s');
      h.capacity > 0 && NewTail(h) < |h.index| && h.index[NewTail(h)] < |s'.entries| && s'.entries[h.index[NewTail(h)]].key.None?
  {
    assert HeaderShape(s, Cur(s));
    var c, d := Cur(s).capacity, Doubled(Cur(s), |s.entries|);
    PlaceInside(c, 2 * c);
    hide Place;
    assert NewTail(d) == c && d.index[c] == New(|s.entries|, 0);
  }

  /** In every state of every run: no assertion has failed; a dequeuer that has found a block finds in it
      the very element whose index it claimed; the cell that the enqueuer fills is empty; a block that is
      being returned has been consumed to the last cell, is still out, and is returned by nobody else. */
  lemma Safety(states: seq<Queue>, actions: seq<Action>, n: nat)
    requires IsRun(states, actions) && n < |states|
    ensures var q := states[n]; var s := q.core;
      && Asserts(s)
      && (forall t :: t in s.pc && s.pc[t].HaveBlock? ==>
          var c := (s.pc[t].block, s.pc[t].i % BLOCK); c in q.cells && q.cells[c] == s.pc[t].i)
      && (s.enq.Publish? ==> (q.tailBlock, s.tail % BLOCK) !in q.cells)
      && (forall t :: t in s.pc && Returns(s.pc[t]) ==> Exhausted(q, s.pc[t].block) && s.pc[t].block in s.owned)
      && (forall t, u :: t in s.pc && u in s.pc && Returns(s.pc[t]) && Returns(s.pc[u]) && s.pc[t].block == s.pc[u].block ==> t == u)
  {
    hide AllInv, IsRun, Exhausted, Asserts;
    var q := states[n];
    var s := q.core;
    var g := RunKeepsInv(states, actions, n);
    Parts(q, g);
    hide Inv;
    AssertsHold(s, g);
    forall t | t in s.pc && s.pc[t].HaveBlock?
      ensures var c := (s.pc[t].block, s.pc[t].i % BLOCK); c in q.cells && q.cells[c] == s.pc[t].i
    {
      HasBlock(s, g, t);
      assert Present(q, g, s.pc[t].i);
    }
    if s.enq.Publish? {
      NextEmpty(q, g);
    }
    forall t | t in s.pc && Returns(s.pc[t]) ensures Exhausted(q, s.pc[t].block) && s.pc[t].block in s.owned {
      assert Spent(q, t);
      IsExhausted(q, g, t);
    }
    forall t, u | t in s.pc && u in s.pc && Returns(s.pc[t]) && Returns(s.pc[u]) && s.pc[t].block == s.pc[u].block ensures t == u {
      OneReturns(s, g, t, u);
    }
  }

  lemma Parts(q: Queue, g: Ghost)
    requires AllInv(q, g)
    ensures Inv(q.core, g) && Bounded(q.core) && CellsOk(q, g) && TailOk(q, g) && Ledger(q.core, g)
    ensures forall t {:trigger Spent(q, t)} :: t in q.core.pc ==> Spent(q, t)
  {
  }

  predicate Returns(pc: Pc) {
    pc.Clear? || pc.Free?
  }

  // All the elements of a block were consumed.
  ghost predicate Exhausted(q: Queue, b: Block) {
    && b in q.core.counter && q.core.counter[b] == BLOCK
    && forall k: nat :: (b, k) !in q.cells
  }

  lemma NextEmpty(q: Queue, g: Ghost)
    requires Inv(q.core, g) && CellsOk(q, g) && TailOk(q, g) && q.core.enq.Publish?
    ensures (q.tailBlock, q.core.tail % BLOCK) !in q.cells
  {
    hide Inv;
    var cell := (q.tailBlock, q.core.tail % BLOCK);
    if cell in q.cells {
      assert CellOk(q, g, cell);
      NextCell(q, g, q.cells[cell]);
    }
  }

  lemma IsExhausted(q: Queue, g: Ghost, t: Thread)
    requires Inv(q.core, g) && CellsOk(q, g) && t in q.core.pc && Returns(q.core.pc[t]) && Spent(q, t)
    ensures Exhausted(q, q.core.pc[t].block) && q.core.pc[t].block in q.core.owned
  {
    hide DoneIn, Rings, Stored, EnqOk, Readers;
    var s, b := q.core, q.core.pc[t].block;
    if s.pc[t].Clear? {
      ClearsBlock(s, g, t);
      DoneBound(g, s.pc[t].i / BLOCK);
    } else {
      FreesBlock(s, g, t);
    }
    forall k: nat ensures (b, k) !in q.cells {
      if (b, k) in q.cells {
        assert CellOk(q, g, (b, k));
        var i := q.cells[(b, k)];
        NotDone(s, g, i);
        if s.pc[t].Clear? {
          assert i / BLOCK != s.pc[t].i / BLOCK;
          HomesApart(s, g, i / BLOCK, s.pc[t].i / BLOCK);
        }
      }
    }
  }

  lemma OneReturns(s: State, g: Ghost, t: Thread, u: Thread)
    requires Inv(s, g) && t in s.pc && u in s.pc && Returns(s.pc[t]) && Returns(s.pc[u]) && s.pc[t].block == s.pc[u].block
    ensures t == u
  {
    hide DoneIn, Rings, Stored, EnqOk, Accounted;
    assert PairOk(s, t, u);
    hide Readers, PairOk;
    if s.pc[t].Clear? {
      ClearsBlock(s, g, t);
    } else {
      FreesBlock(s, g, t);
    }
    if s.pc[u].Clear? {
      ClearsBlock(s, g, u);
    } else {
      FreesBlock(s, g, u);
    }
    if s.pc[t].Clear? && s.pc[u].Clear? && s.pc[t].i / BLOCK != s.pc[u].i / BLOCK {
      HomesApart(s, g, s.pc[t].i / BLOCK, s.pc[u].i / BLOCK);
    }
  }

  /** No block is lost: when no enqueue or dequeue is under way, every block that is not on the free list
      still has a cell that was not consumed. */
  lemma Quiescent(states: seq<Queue>, actions: seq<Action>, n: nat)
    requires IsRun(states, actions) && n < |states| && states[n].core.enq.Ready?
    requires forall t :: t in states[n].core.pc ==> states[n].core.pc[t].Idle?
    ensures var s := states[n].core; forall x :: x in s.owned ==> x in s.counter && s.counter[x] < BLOCK
  {
    hide AllInv, IsRun;
    var q := states[n];
    var s := q.core;
    var g := RunKeepsInv(states, actions, n);
    Parts(q, g);
    hide Rings, EnqOk, Accounted, Readers, DoneIn;
    forall x | x in s.owned ensures x in s.counter && s.counter[x] < BLOCK {
      assert HasOwner(s, g, x);
      var b: nat :| IsHome(s, g, b, x);
      assert Releasing(s, g, b) && BlockOk(s, g, b);
      DoneBound(g, b);
    }
  }

  /** Every action that is enabled at the end of a run can follow it. */
  lemma GoesOn(states: seq<Queue>, actions: seq<Action>, a: Action) returns (next: Queue)
    requires IsRun(states, actions) && Enabled(states[|actions|].core, a)
    ensures IsRun(states + [next], actions + [a])
  {
    hide AllInv, Inv, WellFormed, Do;
    var q := states[|actions|];
    var g := RunKeepsInv(states, actions, |actions|);
    Parts(q, g);
    InvIsWellFormed(q.core, g);
    next := Queue(Do(q.core, a), if a.Enqueue? && q.core.enq.StoreValue? then q.core.enq.block else q.tailBlock, CellsAfter(q, a));
    var longer, more := states + [next], actions + [a];
    forall i | 0 <= i < |more| ensures Follows(longer[i], more[i], longer[i + 1]) {
      assert i < |actions| ==> Follows(states[i], actions[i], states[i + 1]);
    }
  }


  // ------------------------------------------------------------------
  // When an enqueue fails
  // ------------------------------------------------------------------

  // How many steps of an enqueue are left at most, where it stands.
  function StepsLeft(enq: Enq): nat {
    match enq
    case Ready => 8
    case CheckSlot => 7
    case NewIndex => 6
    case StoreKey => 5
    case StoreTail => 4
    case Requisition => 3
    case StoreValue(_) => 2
    case Publish => 1
    case Rewind => 2
    case ClearSlot(_) => 1
  }

  // The slot behind the tail of the index has a key, and a block that has not been returned.
  ghost predicate NextTaken(s: State)
    requires WellFormed(s)
  {
    var e := s.entries[Cur(s).index[NewTail(Cur(s))]];
    e.key.Some? && e.value.Some?
  }

  // A call ends without having published its element.
  predicate GivesUp(s: State, s': State) {
    s'.enq.Ready? && s'.tail == s.tail
  }

  lemma EnqGoes(s: State, ok: bool, block: Block)
    requires WellFormed(s) && Enabled(s, Enqueue(ok, block))
    ensures var s' := Do(s, Enqueue(ok, block));
      && (GivesUp(s, s') <==> (s.enq.Ready? && s'.enq.Ready?) || (s.enq.NewIndex? && !ok) || s.enq.ClearSlot?)
      && (!GivesUp(s, s') && !s.enq.Publish? ==> s'.tail == s.tail && StepsLeft(s'.enq) < StepsLeft(s.enq))
      && (s.enq.Publish? ==> s'.tail == s.tail + 1 && s'.enq.Ready?)
      && (s'.enq.Rewind? ==> s.enq.Requisition? && !ok) && (s'.enq.ClearSlot? ==> s.enq.Rewind?)
      && (s'.enq.NewIndex? <==> s.enq.CheckSlot? && NextTaken(s))
  {
    Frame(s, Enqueue(ok, block));
    hide WellFormed;
  }

  /** An enqueue publishes its element after at most eight steps, or gives up: when it begins a block and the queue would
      come to hold 2^63 elements, when a new index cannot be had, or after it has taken back the tail, for want of a block. It asks for a new index
      if and only if the next slot is taken. */
  lemma EnqueueEnds(states: seq<Queue>, actions: seq<Action>, n: nat)
    requires IsRun(states, actions) && n < |actions| && actions[n].Enqueue?
    ensures var s, s' := states[n].core, states[n + 1].core;
      && (GivesUp(s, s') <==>
          || (s.enq.Ready? && s.tail % 32 == 0 && s.tail + 32 - s.head >= 0x8000_0000_0000_0000)
          || (s.enq.NewIndex? && !actions[n].ok) || s.enq.ClearSlot?)
      && (!GivesUp(s, s') ==> (s'.tail == s.tail + 1 && s'.enq.Ready?) || (s'.tail == s.tail && StepsLeft(s'.enq) < StepsLeft(s.enq)))
      && (s'.enq.Rewind? ==> s.enq.Requisition? && !actions[n].ok) && (s'.enq.ClearSlot? ==> s.enq.Rewind?)
      && WellFormed(s) && (s'.enq.NewIndex? <==> s.enq.CheckSlot? && NextTaken(s))
  {
    var s, a := states[n].core, actions[n];
    var g := RunKeepsInv(states, actions, n);
    Parts(states[n], g);
    HeadBelowTail(s, g);
    assert Follows(states[n], a, states[n + 1]);
    hide Inv, AllInv, IsRun;
    EnqGoes(s, a.ok, a.block);
    if s.enq.Ready? && s.tail % BLOCK == 0 {
      RoomExact(s.head, s.tail);
    }
  }

  lemma RoomExact(head: nat, tail: nat)
    requires head <= tail && tail - head < HALF
    ensures CircularLess(head, tail + BLOCK) <==> tail + BLOCK - head < HALF
  {
    var d := tail + BLOCK - head;
    assert (head - (tail + BLOCK)) % WORD == WORD - d;
  }

  /** So when no allocation fails, only a queue that is full to 2^63 elements refuses one. */
  lemma {:induction false} NeverTakenBack(states: seq<Queue>, actions: seq<Action>, n: nat)
    requires IsRun(states, actions) && n < |states| && forall i :: 0 <= i < |actions| && actions[i].Enqueue? ==> actions[i].ok
    ensures !states[n].core.enq.Rewind? && !states[n].core.enq.ClearSlot?
    decreases n
  {
    if n > 0 {
      NeverTakenBack(states, actions, n - 1);
      var a := actions[n - 1];
      assert Follows(states[n - 1], a, states[n]);
      if a.Enqueue? {
        EnqGoes(states[n - 1].core, a.ok, a.block);
      } else {
        EnqStays(states[n - 1].core, a);
      }
    }
  }

  lemma EnqStays(s: State, a: Action)
    requires WellFormed(s) && Enabled(s, a) && !a.Enqueue?
    ensures Do(s, a).enq == s.enq
  {
    hide WellFormed, Offset;
  }
}
