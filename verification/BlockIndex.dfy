/** The block index of an implicit producer (deps/concurrentqueue/concurrentqueue.h): a ring of entries
    that leads from an index to the block that stores it, which the one enqueuer extends, rewinds and
    doubles while any number of dequeuers read it and release blocks. One atomic access per step, every
    interleaving. Indices are claimed one at a time (DequeueClaims shows that each is claimed once).

    Indices live in 64-bit words. The state keeps the true number; the subtraction of two of them sees
    it modulo 2^64. */
module BlockIndex {
  import opened Places
  import opened Powers

  type Thread = nat
  type Block = nat                      // a block object
  type EntryId = nat

  datatype Option<T> = None | Some(value: T)

  const BLOCK: nat := 32                // BLOCK_SIZE
  const WORD: nat := 0x1_0000_0000_0000_0000
  const HALF: nat := 0x8000_0000_0000_0000
  const LAPS: nat := 0x800_0000_0000_0000   // blocks in the span of a word: 2^59

  // key is None for INVALID_BLOCK_BASE.
  datatype Entry = Entry(key: Option<nat>, value: Option<Block>)
  datatype Header = Header(capacity: nat, tail: nat, index: seq<EntryId>)

  // Where the enqueuer stands.
  datatype Enq =
    | Ready
    | CheckSlot
    | NewIndex
    | StoreKey
    | StoreTail
    | Requisition
    | Rewind
    | ClearSlot(e: EntryId)
    | StoreValue(block: Block)
    | Publish

  // Where a dequeuer of index i stands.
  datatype Pc =
    | Idle
    | Claimed(i: nat)
    | HaveHeader(i: nat, h: nat)
    | HaveTail(i: nat, h: nat, pos: nat)
    | HaveKey(i: nat, h: nat, pos: nat, base: nat)
    | HaveBlock(i: nat, e: EntryId, block: Block)
    | Clear(i: nat, e: EntryId, block: Block)
    | Free(i: nat, block: Block)
    | Broken                            // an assertion of the source has failed

  datatype State = State(
    headers: seq<Header>,               // blockIndex points to the last one
    entries: seq<Entry>,
    tail: nat, head: nat,
    counter: map<Block, nat>,           // elementsCompletelyDequeued
    owned: set<Block>,                  // not on the free list
    enq: Enq,
    pc: map<Thread, Pc>)

  datatype Action =
    | Enqueue(ok: bool, block: Block)   // ok: an allocation succeeds; block: what it gives
    | Claim(t: Thread)
    | Advance(t: Thread)

  // circular_less_than on the words of two indices.
  predicate CircularLess(a: int, b: int) {
    (a - b) % WORD > HALF
  }

  // ------------------------------------------------------------------
  // The offset of a block from the tail
  // ------------------------------------------------------------------

  // get_block_index_index_for_index: how many blocks index i is from the block that begins at base. The
  // difference is cast to a signed word, but the divisor is unsigned, and so is the division.
  function Offset(i: nat, base: nat): nat {
    (i / BLOCK * BLOCK - base) % WORD / BLOCK
  }

  // The capacity of an index: a power of two that a word can count in blocks.
  ghost predicate Spans(c: nat) {
    exists k: nat {:trigger Pow2(k)} :: k <= 59 && c == Pow2(k)
  }

  lemma Pow2Of59()
    ensures Pow2(59) == LAPS
  {
    hide Pow2;
    Pow2Of8();
    Pow2Adds(8, 8);
    Pow2Adds(16, 16);
    Pow2Adds(32, 16);
    Pow2Adds(48, 8);
    Pow2Adds(56, 3);
  }

  lemma Pow2Of8()
    ensures Pow2(3) == 8 && Pow2(8) == 256
  {
    assert Pow2(4) == 16;
  }

  lemma SpansLaps(c: nat) returns (m: nat)
    requires Spans(c)
    ensures LAPS == m * c && c > 0
  {
    var k: nat :| k <= 59 && c == Pow2(k);
    Pow2Adds(59 - k, k);
    Pow2Of59();
    m := Pow2(59 - k);
  }

  lemma SpansDouble(c: nat)
    requires Spans(c) && 2 * c <= LAPS
    ensures Spans(2 * c)
  {
    var k: nat :| k <= 59 && c == Pow2(k);
    Pow2Of59();
    assert 2 * c == Pow2(k + 1);
  }

  // The offset is the true one modulo LAPS.
  lemma OffsetIs(i: nat, v: nat)
    ensures Offset(i, v * BLOCK) == (i / BLOCK - v) % LAPS
  {
    var d := i / BLOCK - v;
    var q, r := d / LAPS, d % LAPS;
    assert i / BLOCK * BLOCK - v * BLOCK == d * BLOCK;
    assert d * BLOCK == q * WORD + r * BLOCK;
    PlaceIs(d * BLOCK, WORD, q, r * BLOCK);
  }

  /** However often the words have wrapped, and although a block before the base has an offset near 2^59
      and not a negative one, the masked sum is the place that the true numbers give. */
  lemma OffsetLeads(pos: nat, i: nat, v: nat, c: nat)
    requires Spans(c)
    ensures Place(pos + Offset(i, v * BLOCK), c) == Place(pos + (i / BLOCK - v), c)
  {
    hide Offset, Spans;
    OffsetIs(i, v);
    var m := SpansLaps(c);
    var d := i / BLOCK - v;
    var q := d / LAPS;
    var x := pos + d;
    assert pos + Offset(i, v * BLOCK) == x - q * LAPS;
    assert q * LAPS == (q * m) * c;
    assert x == x / c * c + x % c;
    assert x - q * LAPS == (x / c - q * m) * c + x % c by {
      assert (x / c - q * m) * c == x / c * c - (q * m) * c;
    }
    PlaceIs(x - q * LAPS, c, x / c - q * m, x % c);
  }

  /** For a block less than 2^59 before the base, that is so exactly when the capacity divides 2^59: it is
      the power of two that makes up for the lost sign. */
  lemma OffsetNeedsPower(pos: nat, i: nat, v: nat, c: nat)
    requires c > 0 && i / BLOCK < v <= i / BLOCK + LAPS
    ensures Place(pos + Offset(i, v * BLOCK), c) == Place(pos + (i / BLOCK - v), c) <==> LAPS % c == 0
  {
    hide Offset;
    OffsetIs(i, v);
    var x := pos + (i / BLOCK - v);
    PlaceIs(i / BLOCK - v, LAPS, -1, LAPS + (i / BLOCK - v));
    assert pos + Offset(i, v * BLOCK) == x + LAPS;
    assert LAPS == LAPS / c * c + LAPS % c;
    assert x == x / c * c + x % c;
    if LAPS % c == 0 {
      assert (x / c + LAPS / c) * c == x / c * c + LAPS / c * c;
      PlaceIs(x + LAPS, c, x / c + LAPS / c, x % c);
    } else if Place(x + LAPS, c) == Place(x, c) {
      var q := PlaceLaps(x + LAPS, x, c);
      PlaceIs(LAPS, c, q, 0);
    }
  }

  // ------------------------------------------------------------------
  // Steps
  // ------------------------------------------------------------------

  function Cur(s: State): Header
    requires s.headers != []
  {
    s.headers[|s.headers| - 1]
  }

  function SetCur(s: State, h: Header): State
    requires s.headers != []
  {
    s.(headers := s.headers[|s.headers| - 1 := h])
  }

  function NewTail(h: Header): nat
    requires h.capacity > 0
  {
    Place(h.tail + 1, h.capacity)
  }

  ghost predicate HeaderShape(s: State, h: Header) {
    h.capacity > 0 && |h.index| == h.capacity && h.tail < h.capacity && forall p :: 0 <= p < |h.index| ==> h.index[p] < |s.entries|
  }

  ghost predicate WellFormed(s: State) {
    && s.headers != [] && (forall h :: 0 <= h < |s.headers| ==> HeaderShape(s, s.headers[h]))
    && (s.enq.ClearSlot? ==> s.enq.e < |s.entries|)
    && (forall t :: t in s.pc ==> PcShape(s, s.pc[t]))
  }

  predicate PcShape(s: State, pc: Pc) {
    match pc
    case HaveHeader(_, h) => h < |s.headers|
    case HaveTail(_, h, pos) => h < |s.headers| && pos < s.headers[h].capacity
    case HaveKey(_, h, pos, _) => h < |s.headers| && pos < s.headers[h].capacity
    case HaveBlock(_, e, b) => e < |s.entries| && b in s.counter
    case Clear(_, e, _) => e < |s.entries|
    case _ => true
  }

  function New(first: EntryId, k: nat): EntryId {
    first + k
  }

  // The ring of the next index: the old one, oldest entry first, then as many new ones.
  function Doubled(prev: Header, first: EntryId): Header
    requires prev.capacity > 0 && |prev.index| == prev.capacity
  {
    var c := prev.capacity;
    Header(2 * c, c - 1,
           seq<EntryId>(c, k requires 0 <= k < c => prev.index[Place(prev.tail + 1 + k, c)])
           + seq<EntryId>(c, k requires 0 <= k < c => New(first, k)))
  }

  predicate Enabled(s: State, a: Action) {
    match a
    case Enqueue(ok, block) =>
      && (s.enq.Requisition? && ok ==> block !in s.owned)
      // there is no memory for more than 2^59 entries
      && (s.enq.NewIndex? && ok ==> s.headers != [] && 2 * Cur(s).capacity <= LAPS)
    case Claim(t) => t in s.pc && s.pc[t].Idle? && s.head < s.tail
    case Advance(t) => t in s.pc && !s.pc[t].Idle?
  }

  function EnqStep(s: State, ok: bool, block: Block): State
    requires WellFormed(s)
  {
    var h := Cur(s);
    match s.enq
    case Ready => s.(enq := if s.tail % BLOCK != 0 then Publish else if CircularLess(s.head, s.tail + BLOCK) then CheckSlot else Ready)
    case CheckSlot =>
      var e := s.entries[h.index[NewTail(h)]];
      s.(enq := if e.key.None? || e.value.None? then StoreKey else NewIndex)
    case NewIndex =>
      if !ok then s.(enq := Ready)
      else s.(headers := s.headers + [Doubled(h, |s.entries|)],
              entries := s.entries + seq(h.capacity, _ => Entry(None, None)), enq := StoreKey)
    case StoreKey =>
      var e := h.index[NewTail(h)];
      s.(entries := s.entries[e := s.entries[e].(key := Some(s.tail))], enq := StoreTail)
    case StoreTail => SetCur(s, h.(tail := NewTail(h))).(enq := Requisition)
    case Requisition =>
      if ok then s.(owned := s.owned + {block}, counter := s.counter[block := 0], enq := StoreValue(block))
      else s.(enq := Rewind)
    case Rewind => SetCur(s, h.(tail := Place(h.tail - 1, h.capacity))).(enq := ClearSlot(h.index[h.tail]))
    case ClearSlot(e) => s.(entries := s.entries[e := s.entries[e].(value := None)], enq := Ready)
    case StoreValue(b) =>
      var e := h.index[h.tail];
      s.(entries := s.entries[e := s.entries[e].(value := Some(b))], enq := Publish)
    case Publish => s.(tail := s.tail + 1, enq := Ready)
  }

  function DeqStep(s: State, t: Thread): State
    requires WellFormed(s) && t in s.pc
  {
    match s.pc[t]
    case Idle => s
    case Broken => s
    case Claimed(i) => s.(pc := s.pc[t := HaveHeader(i, |s.headers| - 1)])
    case HaveHeader(i, h) => s.(pc := s.pc[t := HaveTail(i, h, s.headers[h].tail)])
    case HaveTail(i, h, pos) =>
      var key := s.entries[s.headers[h].index[pos]].key;
      s.(pc := s.pc[t := if key.Some? then HaveKey(i, h, pos, key.value) else Broken])
    case HaveKey(i, h, pos, base) =>
      var e := s.headers[h].index[Place(pos + Offset(i, base), s.headers[h].capacity)];
      var value := s.entries[e].value;
      s.(pc := s.pc[t := if value.Some? && value.value in s.counter then HaveBlock(i, e, value.value) else Broken])
    case HaveBlock(i, e, b) =>
      s.(counter := s.counter[b := s.counter[b] + 1],
         pc := s.pc[t := if s.counter[b] + 1 == BLOCK then Clear(i, e, b) else Idle])
    case Clear(i, e, b) => s.(entries := s.entries[e := s.entries[e].(value := None)], pc := s.pc[t := Free(i, b)])
    case Free(i, b) => s.(owned := s.owned - {b}, pc := s.pc[t := Idle])
  }

  function Do(s: State, a: Action): State
    requires WellFormed(s) && Enabled(s, a)
  {
    match a
    case Enqueue(ok, block) => EnqStep(s, ok, block)
    case Claim(t) => s.(head := s.head + 1, pc := s.pc[t := Claimed(s.head)])
    case Advance(t) => DeqStep(s, t)
  }

  // ------------------------------------------------------------------
  // The invariant
  // ------------------------------------------------------------------

  // phase and at give, for each index, the place of block 0 in its ring and the number of the block
  // at its tail; home is the block object of each block number; released and done are the blocks that
  // were released and the indices that were consumed; seen is the block number at the tail position
  // that a dequeuer has loaded.
  datatype Ghost = Ghost(
    phase: seq<int>, at: seq<int>, home: map<nat, Block>, released: set<nat>, done: set<nat>, seen: map<Thread, nat>)

  // How many blocks have elements that are published.
  function Blocks(tail: nat): nat {
    (tail + BLOCK - 1) / BLOCK
  }

  // The place of block c in ring h, and its entry.
  function Pos(s: State, g: Ghost, h: nat, c: int): nat
    requires h < |s.headers| && h < |g.phase| && s.headers[h].capacity > 0
  {
    Place(g.phase[h] + c, s.headers[h].capacity)
  }

  ghost predicate Shapes(s: State, g: Ghost) {
    && s.headers != [] && |g.phase| == |g.at| == |s.headers|
    && forall h :: 0 <= h < |s.headers| ==> HeaderShape(s, s.headers[h])
  }

  function Ent(s: State, g: Ghost, h: nat, c: int): EntryId
    requires h < |s.headers| && h < |g.phase| && s.headers[h].capacity > 0 && |s.headers[h].index| == s.headers[h].capacity
  {
    s.headers[h].index[Pos(s, g, h, c)]
  }

  ghost function Last(s: State): nat
    requires s.headers != []
  {
    |s.headers| - 1
  }

  ghost predicate Unreleased(s: State, g: Ghost, b: nat) {
    b < Blocks(s.tail) && b !in g.released
  }

  ghost predicate HeaderOk(s: State, g: Ghost, h: nat)
    requires Shapes(s, g) && h < |s.headers|
  {
    && (forall p, q :: 0 <= p < q < |s.headers[h].index| ==> s.headers[h].index[p] != s.headers[h].index[q])
    && s.headers[h].tail == Pos(s, g, h, g.at[h]) && -1 <= g.at[h] <= g.at[Last(s)]
    && (h < Last(s) ==> g.at[h] < Blocks(s.tail))
    && Spans(s.headers[h].capacity)
  }

  // Between a block that is not released and the tail of an index, every entry has its block's key, and
  // it is the same entry in every index.
  ghost predicate KeyOk(s: State, g: Ghost, h: nat, b: nat, c: nat)
    requires Shapes(s, g) && h < |s.headers|
  {
    Unreleased(s, g, b) && b <= c <= g.at[h] ==>
      && g.at[h] - b < s.headers[h].capacity
      && s.entries[Ent(s, g, h, c)].key == Some(c * BLOCK) && Ent(s, g, h, c) == Ent(s, g, Last(s), c)
  }

  ghost function DoneIn(g: Ghost, b: nat): set<nat> {
    set i | i in g.done && i / BLOCK == b
  }

  ghost predicate BlockOk(s: State, g: Ghost, b: nat)
    requires Shapes(s, g)
  {
    Unreleased(s, g, b) ==>
      && b in g.home && g.home[b] in s.owned && b <= g.at[Last(s)]
      && s.entries[Ent(s, g, Last(s), b)].value == Some(g.home[b])
      && g.home[b] in s.counter && s.counter[g.home[b]] == |DoneIn(g, b)|
  }

  ghost predicate HomesDiffer(s: State, g: Ghost, b: nat, c: nat) {
    Unreleased(s, g, b) && Unreleased(s, g, c) && b != c && b in g.home && c in g.home ==> g.home[b] != g.home[c]
  }

  // The slot for the next block can be used.
  ghost predicate SlotFree(s: State, g: Ghost)
    requires Shapes(s, g)
  {
    && s.entries[Ent(s, g, Last(s), Blocks(s.tail))].value.None?
    && forall b :: Unreleased(s, g, b) ==> Blocks(s.tail) - b < Cur(s).capacity
  }

  predicate AtBlockEnd(enq: Enq) {
    !enq.Ready? && !enq.Publish?
  }

  // The number of the block at the tail of the newest index, by where the enqueuer stands.
  ghost predicate EnqOk(s: State, g: Ghost)
    requires Shapes(s, g)
  {
    var n, at := Blocks(s.tail), g.at[Last(s)];
    && (AtBlockEnd(s.enq) ==> s.tail % BLOCK == 0)
    && (if s.enq.Requisition? || s.enq.Rewind? || s.enq.StoreValue? || (s.enq.Publish? && s.tail % BLOCK == 0) then at == n else at == n - 1)
    && (s.enq.StoreKey? || s.enq.StoreTail? || s.enq.Requisition? || s.enq.Rewind? || s.enq.StoreValue? ==> SlotFree(s, g))
    && (s.enq.StoreTail? || s.enq.Requisition? || s.enq.Rewind? || s.enq.StoreValue? || (s.enq.Publish? && s.tail % BLOCK == 0) ==>
        s.entries[Ent(s, g, Last(s), n)].key == Some(s.tail))
    && (s.enq.ClearSlot? ==> s.enq.e == Ent(s, g, Last(s), n) && SlotFree(s, g))
    && (s.enq.StoreValue? ==> Fresh(s, g, s.enq.block))
    && (s.enq.Publish? && s.tail % BLOCK == 0 ==>
        && (forall b :: Unreleased(s, g, b) ==> n - b < Cur(s).capacity)
        && n in g.home && Fresh(s, g, g.home[n]) && s.entries[Ent(s, g, Last(s), n)].value == Some(g.home[n]))
  }

  // A block object that is the enqueuer's alone.
  ghost predicate Fresh(s: State, g: Ghost, block: Block) {
    && block in s.owned && block in s.counter && s.counter[block] == 0
    && (forall b :: Unreleased(s, g, b) && b in g.home ==> g.home[b] != block)
    && (forall t :: t in s.pc && s.pc[t].Free? ==> s.pc[t].block != block)
  }

  // The index that a dequeuer has claimed and not consumed yet.
  predicate Holds(pc: Pc, i: nat) {
    (pc.Claimed? || pc.HaveHeader? || pc.HaveTail? || pc.HaveKey? || pc.HaveBlock?) && pc.i == i
  }

  // A tail position stands for the block number that was seen there, and its key too.
  ghost predicate SeenOk(s: State, g: Ghost, t: Thread, b: nat, h: nat, pos: nat)
    requires Shapes(s, g)
  {
    && h < |s.headers| && t in g.seen && b <= g.seen[t] && g.seen[t] - b < s.headers[h].capacity
    && b <= g.at[h] && pos == Pos(s, g, h, g.seen[t])
  }

  // The block that was seen at the tail has been taken back, and will be inserted in the same slot.
  ghost predicate Rewound(s: State, g: Ghost, t: Thread, h: nat)
    requires Shapes(s, g) && h < |s.headers| && t in g.seen
  {
    && h == Last(s) && g.seen[t] == g.at[h] + 1 && g.seen[t] == Blocks(s.tail)
    && s.entries[Ent(s, g, h, g.seen[t])].value.None? && !s.enq.NewIndex?
  }

  ghost predicate KeySeen(s: State, g: Ghost, t: Thread, h: nat)
    requires Shapes(s, g) && h < |s.headers| && t in g.seen
  {
    && s.entries[Ent(s, g, h, g.seen[t])].key == Some(g.seen[t] * BLOCK)
    && (g.seen[t] <= g.at[h] || Rewound(s, g, t, h))
  }

  ghost predicate ThreadOk(s: State, g: Ghost, t: Thread)
    requires Shapes(s, g) && t in s.pc
  {
    match s.pc[t]
    case Idle => true
    case Broken => false
    case Claimed(i) => i < s.head && i !in g.done
    case HaveHeader(i, h) => i < s.head && i !in g.done && h < |s.headers| && i / BLOCK <= g.at[h]
    case HaveTail(i, h, pos) => i < s.head && i !in g.done && SeenOk(s, g, t, i / BLOCK, h, pos) && KeySeen(s, g, t, h)
    case HaveKey(i, h, pos, base) => i < s.head && i !in g.done && SeenOk(s, g, t, i / BLOCK, h, pos) && base == g.seen[t] * BLOCK
    case HaveBlock(i, e, b) => i < s.head && i !in g.done && Held(s, g, i / BLOCK, e, b)
    case Clear(i, e, b) => i in g.done && Unreleased(s, g, i / BLOCK) && Held(s, g, i / BLOCK, e, b) && |DoneIn(g, i / BLOCK)| == BLOCK
    case Free(i, b) => b in s.owned && forall c :: Unreleased(s, g, c) && c in g.home ==> g.home[c] != b
  }

  ghost predicate Held(s: State, g: Ghost, b: nat, e: EntryId, block: Block)
    requires Shapes(s, g)
  {
    e == Ent(s, g, Last(s), b) && b in g.home && block == g.home[b]
  }

  // Two dequeuers have different indices, and only one of them releases a block.
  ghost predicate PairOk(s: State, t: Thread, u: Thread)
    requires t in s.pc && u in s.pc
  {
    && (forall i :: Holds(s.pc[t], i) && Holds(s.pc[u], i) ==> t == u)
    && (s.pc[t].Clear? && s.pc[u].Clear? && s.pc[t].i / BLOCK == s.pc[u].i / BLOCK ==> t == u)
    && (s.pc[t].Free? && s.pc[u].Free? && s.pc[t].block == s.pc[u].block ==> t == u)
  }

  // Only claimed indices are consumed; a released block is consumed.
  ghost predicate Accounted(s: State, g: Ghost) {
    && s.head <= s.tail
    && (forall i :: i in g.done ==> i < s.head)
    && (forall b, i :: b in g.released && i / BLOCK == b && 0 <= i ==> i in g.done)
  }

  // An entry without a key has no block.
  ghost predicate Sound(s: State) {
    forall e :: 0 <= e < |s.entries| && s.entries[e].key.None? ==> s.entries[e].value.None?
  }

  ghost predicate Rings(s: State, g: Ghost) {
    && Shapes(s, g) && Sound(s)
    && (forall h {:trigger HeaderOk(s, g, h)} :: 0 <= h < |s.headers| ==> HeaderOk(s, g, h))
    && (forall h, b, c {:trigger KeyOk(s, g, h, b, c)} :: 0 <= h < |s.headers| && 0 <= b && 0 <= c ==> KeyOk(s, g, h, b, c))
  }

  ghost predicate Stored(s: State, g: Ghost)
    requires Shapes(s, g)
  {
    && (forall b {:trigger BlockOk(s, g, b)} :: 0 <= b ==> BlockOk(s, g, b))
    && (forall b, c {:trigger HomesDiffer(s, g, b, c)} :: 0 <= b && 0 <= c ==> HomesDiffer(s, g, b, c))
  }

  ghost predicate Readers(s: State, g: Ghost)
    requires Shapes(s, g)
  {
    && (forall t {:trigger ThreadOk(s, g, t)} :: t in s.pc ==> ThreadOk(s, g, t))
    && (forall t, u {:trigger PairOk(s, t, u)} :: t in s.pc && u in s.pc ==> PairOk(s, t, u))
  }

  ghost predicate Inv(s: State, g: Ghost) {
    Shapes(s, g) && Rings(s, g) && Stored(s, g) && EnqOk(s, g) && Accounted(s, g) && Readers(s, g)
  }

  // ------------------------------------------------------------------
  // Small facts
  // ------------------------------------------------------------------

  // Blocks that are less than a lap apart have different entries.
  lemma EntDiffer(s: State, g: Ghost, h: nat, a: int, c: int)
    requires Shapes(s, g) && h < |s.headers| && HeaderOk(s, g, h) && a < c < a + s.headers[h].capacity
    ensures Ent(s, g, h, a) != Ent(s, g, h, c)
  {
    hide Place;
    PlacesDiffer(g.phase[h] + a, g.phase[h] + c, s.headers[h].capacity);
    var p, q := Pos(s, g, h, a), Pos(s, g, h, c);
    assert p < q || q < p;
  }

  lemma OneLap(s: State, g: Ghost, h: nat, c: int)
    requires Shapes(s, g) && h < |s.headers|
    ensures Ent(s, g, h, c + s.headers[h].capacity) == Ent(s, g, h, c)
  {
    var n, p := s.headers[h].capacity, g.phase[h] + c;
    assert p == p / n * n + p % n;
    assert p + n == (p / n + 1) * n + p % n;
    PlaceIs(p + n, n, p / n + 1, p % n);
  }

  // The slot that the enqueuer looks at is that of the next block number.
  lemma NextSlot(s: State, g: Ghost)
    requires Shapes(s, g) && HeaderOk(s, g, Last(s))
    ensures NewTail(Cur(s)) == Pos(s, g, Last(s), g.at[Last(s)] + 1)
  {
    hide Place;
    var h, n := Last(s), Cur(s).capacity;
    PlaceInside(Cur(s).tail, n);
    PlacesMove(Cur(s).tail, g.phase[h] + g.at[h], 1, n);
  }

  lemma PreviousSlot(s: State, g: Ghost)
    requires Shapes(s, g) && HeaderOk(s, g, Last(s))
    ensures Place(Cur(s).tail - 1, Cur(s).capacity) == Pos(s, g, Last(s), g.at[Last(s)] - 1)
  {
    hide Place;
    var h, n := Last(s), Cur(s).capacity;
    PlaceInside(Cur(s).tail, n);
    PlacesMove(Cur(s).tail, g.phase[h] + g.at[h], -1, n);
  }

  // An index that is not consumed is in a block that is not released.
  lemma HeldIsUnreleased(s: State, g: Ghost, i: nat)
    requires Accounted(s, g) && i < s.head && i !in g.done
    ensures Unreleased(s, g, i / BLOCK)
  {
    BlockOfIndex(i, s.tail);
  }

  lemma BlockOfIndex(i: nat, tail: nat)
    requires i < tail
    ensures i / BLOCK < Blocks(tail)
  {
  }

  lemma BlocksAtEnd(tail: nat)
    requires tail % BLOCK == 0
    ensures Blocks(tail) * BLOCK == tail && Blocks(tail + 1) == Blocks(tail) + 1
  {
  }

  lemma BlocksInside(tail: nat)
    requires tail % BLOCK != 0
    ensures Blocks(tail + 1) == Blocks(tail)
  {
  }

  // ------------------------------------------------------------------
  // Steps that leave the index alone
  // ------------------------------------------------------------------

  lemma RingsSame(s: State, s': State, g: Ghost)
    requires Rings(s, g) && s'.headers == s.headers && s'.entries == s.entries && s'.tail == s.tail
    ensures Rings(s', g)
  {
    forall h | 0 <= h < |s'.headers| ensures HeaderShape(s', s'.headers[h]) {
      assert HeaderShape(s, s.headers[h]);
    }
    forall h {:trigger HeaderOk(s', g, h)} | 0 <= h < |s'.headers| ensures HeaderOk(s', g, h) {
      assert HeaderOk(s, g, h);
    }
    forall h, b, c {:trigger KeyOk(s', g, h, b, c)} | 0 <= h < |s'.headers| && 0 <= b && 0 <= c ensures KeyOk(s', g, h, b, c) {
      assert KeyOk(s, g, h, b, c);
    }
  }

  lemma StoredSame(s: State, s': State, g: Ghost)
    requires Rings(s, g) && Rings(s', g) && Stored(s, g) && s'.headers == s.headers && s'.entries == s.entries && s'.tail == s.tail
    requires s'.counter == s.counter && s.owned == s'.owned
    ensures Stored(s', g)
  {
    forall b {:trigger BlockOk(s', g, b)} | 0 <= b ensures BlockOk(s', g, b) {
      assert BlockOk(s, g, b);
    }
    forall b, c {:trigger HomesDiffer(s', g, b, c)} | 0 <= b && 0 <= c ensures HomesDiffer(s', g, b, c) {
      assert HomesDiffer(s, g, b, c);
    }
  }

  // The enqueuer goes from one place to the next.
  lemma EnqMoves(s: State, g: Ghost, s': State)
    requires Inv(s, g) && s' == s.(enq := s'.enq) && Shapes(s', g) && EnqOk(s', g)
    requires s'.enq.NewIndex? ==> s.entries[Ent(s, g, Last(s), Blocks(s.tail))].value.Some?
    ensures Inv(s', g)
  {
    hide EnqOk;
    RingsSame(s, s', g);
    StoredSame(s, s', g);
    forall t {:trigger ThreadOk(s', g, t)} | t in s'.pc ensures ThreadOk(s', g, t) {
      assert ThreadOk(s, g, t);
    }
    forall t, u {:trigger PairOk(s', t, u)} | t in s'.pc && u in s'.pc ensures PairOk(s', t, u) {
      assert PairOk(s, t, u);
    }
  }

  lemma InvIsWellFormed(s: State, g: Ghost)
    requires Inv(s, g)
    ensures WellFormed(s)
  {
    forall t | t in s.pc ensures PcShape(s, s.pc[t]) {
      assert ThreadOk(s, g, t);
      if s.pc[t].HaveBlock? {
        HeldIsUnreleased(s, g, s.pc[t].i);
        assert BlockOk(s, g, s.pc[t].i / BLOCK);
      }
    }
  }

  lemma BeginStep(s: State, g: Ghost, ok: bool, block: Block)
    requires Inv(s, g) && WellFormed(s) && s.enq.Ready?
    ensures Inv(EnqStep(s, ok, block), g)
  {
    var s' := EnqStep(s, ok, block);
    assert Shapes(s', g);
    EnqMoves(s, g, s');
  }

  // A slot that is invalid or empty belongs to no block that is still there.
  lemma CheckStep(s: State, g: Ghost, ok: bool, block: Block)
    requires Inv(s, g) && WellFormed(s) && s.enq.CheckSlot?
    ensures Inv(EnqStep(s, ok, block), g)
  {
    hide Rings, Stored, Readers, Accounted, EnqOk, HeaderOk, Ent, KeyOk;
    var s' := EnqStep(s, ok, block);
    assert s' == s.(enq := s'.enq);
    CheckResult(s, g, ok, block);
    EnqMoves(s, g, s');
  }

  lemma CheckResult(s: State, g: Ghost, ok: bool, block: Block)
    requires Rings(s, g) && Stored(s, g) && EnqOk(s, g) && WellFormed(s) && s.enq.CheckSlot?
    ensures Shapes(EnqStep(s, ok, block), g) && EnqOk(EnqStep(s, ok, block), g)
    ensures EnqStep(s, ok, block).enq.NewIndex? ==> s.entries[Ent(s, g, Last(s), Blocks(s.tail))].value.Some?
  {
    hide KeyOk, BlockOk;
    var s', h := EnqStep(s, ok, block), Last(s);
    assert HeaderOk(s, g, h);
    NextSlot(s, g);
    assert Shapes(s', g);
    if s'.enq.StoreKey? {
      SlotIsFree(s, g);
      forall b: nat | Unreleased(s', g, b) ensures Blocks(s'.tail) - b < Cur(s').capacity {
        assert Unreleased(s, g, b);
      }
    }
  }

  lemma SlotIsFree(s: State, g: Ghost)
    requires Rings(s, g) && Stored(s, g) && g.at[Last(s)] == Blocks(s.tail) - 1
    requires var e := s.entries[Ent(s, g, Last(s), Blocks(s.tail))]; e.key.None? || e.value.None?
    ensures forall b: nat :: Unreleased(s, g, b) ==> Blocks(s.tail) - b < Cur(s).capacity
  {
    hide HeaderOk, Ent;
    var h, n := Last(s), Blocks(s.tail);
    forall b: nat | Unreleased(s, g, b) ensures n - b < Cur(s).capacity {
      assert KeyOk(s, g, h, b, b) && BlockOk(s, g, b);
      if n - b == Cur(s).capacity {
        OneLap(s, g, h, b);
      }
    }
  }

  // ------------------------------------------------------------------
  // The enqueuer writes into the slot of the next block
  // ------------------------------------------------------------------

  // That slot is not the entry of any block between one that is still there and the tail.
  lemma SlotIsOther(s: State, g: Ghost, h: nat, b: nat, c: nat)
    requires Rings(s, g) && h < |s.headers| && Unreleased(s, g, b) && b <= c <= g.at[h] && c < Blocks(s.tail)
    requires Blocks(s.tail) - b < Cur(s).capacity
    ensures Ent(s, g, h, c) != Ent(s, g, Last(s), Blocks(s.tail))
  {
    hide Ent;
    assert KeyOk(s, g, h, b, c) && HeaderOk(s, g, Last(s));
    EntDiffer(s, g, Last(s), c, Blocks(s.tail));
  }

  // Only the entry of the next block changes, and the tails do not.
  ghost predicate SlotWritten(s: State, g: Ghost, s': State)
    requires Shapes(s, g)
  {
    && s'.headers == s.headers && |s'.entries| == |s.entries| && s'.tail == s.tail && s'.pc == s.pc && s'.head == s.head
    && (forall e :: 0 <= e < |s.entries| && e != Ent(s, g, Last(s), Blocks(s.tail)) ==> s'.entries[e] == s.entries[e])
    && (forall b: nat :: Unreleased(s, g, b) ==> Blocks(s.tail) - b < Cur(s).capacity)
    && Sound(s') && !s'.enq.NewIndex?
  }

  lemma SlotKeepsRings(s: State, g: Ghost, s': State)
    requires Rings(s, g) && SlotWritten(s, g, s')
    requires g.at[Last(s)] == Blocks(s.tail) - 1 ||
      (g.at[Last(s)] == Blocks(s.tail) && s'.entries[Ent(s, g, Last(s), Blocks(s.tail))].key == Some(Blocks(s.tail) * BLOCK))
    ensures Rings(s', g)
  {
    hide Ent, Unreleased;
    forall h | 0 <= h < |s'.headers| ensures HeaderShape(s', s'.headers[h]) {
      assert HeaderShape(s, s.headers[h]);
    }
    forall h {:trigger HeaderOk(s', g, h)} | 0 <= h < |s'.headers| ensures HeaderOk(s', g, h) {
      assert HeaderOk(s, g, h);
    }
    forall h, b, c {:trigger KeyOk(s', g, h, b, c)} | 0 <= h < |s'.headers| && 0 <= b && 0 <= c ensures KeyOk(s', g, h, b, c) {
      SlotKeepsKey(s, g, s', h, b, c);
    }
  }

  lemma SlotKeepsKey(s: State, g: Ghost, s': State, h: nat, b: nat, c: nat)
    requires Rings(s, g) && SlotWritten(s, g, s') && h < |s.headers| && Shapes(s', g)
    requires g.at[Last(s)] == Blocks(s.tail) - 1 ||
      (g.at[Last(s)] == Blocks(s.tail) && s'.entries[Ent(s, g, Last(s), Blocks(s.tail))].key == Some(Blocks(s.tail) * BLOCK))
    ensures KeyOk(s', g, h, b, c)
  {
    hide Ent, Sound;
    assert KeyOk(s, g, h, b, c) && HeaderOk(s, g, h);
    if Unreleased(s', g, b) && b <= c <= g.at[h] {
      assert Unreleased(s, g, b);
      SameEnt(s, g, s', h, c);
      SameEnt(s, g, s', Last(s), c);
      EntInside(s, g, h, c);
      if c < Blocks(s.tail) {
        SlotIsOther(s, g, h, b, c);
      }
    }
  }

  lemma SlotKeepsStored(s: State, g: Ghost, s': State)
    requires Rings(s, g) && Shapes(s', g) && SlotWritten(s, g, s') && Stored(s, g)
    requires forall b: nat :: Unreleased(s, g, b) && b in g.home ==>
      (g.home[b] in s.counter ==> g.home[b] in s'.counter && s'.counter[g.home[b]] == s.counter[g.home[b]]) &&
      (g.home[b] in s.owned ==> g.home[b] in s'.owned)
    ensures Stored(s', g)
  {
    forall b {:trigger BlockOk(s', g, b)} | 0 <= b ensures BlockOk(s', g, b) {
      SlotKeepsBlock(s, g, s', b);
    }
    forall b, c {:trigger HomesDiffer(s', g, b, c)} | 0 <= b && 0 <= c ensures HomesDiffer(s', g, b, c) {
      assert HomesDiffer(s, g, b, c);
    }
  }

  lemma SlotKeepsBlock(s: State, g: Ghost, s': State, b: nat)
    requires Rings(s, g) && Shapes(s', g) && SlotWritten(s, g, s') && BlockOk(s, g, b)
    requires Unreleased(s, g, b) && b in g.home ==>
      (g.home[b] in s.counter ==> g.home[b] in s'.counter && s'.counter[g.home[b]] == s.counter[g.home[b]]) &&
      (g.home[b] in s.owned ==> g.home[b] in s'.owned)
    ensures BlockOk(s', g, b)
  {
    if Unreleased(s', g, b) {
      assert Unreleased(s, g, b);
      SlotIsOther(s, g, Last(s), b, b);
    }
  }

  // A dequeuer's facts when the slot is written: its key keeps the block number that was seen.
  lemma SlotKeepsThread(s: State, g: Ghost, s': State, t: Thread)
    requires Rings(s, g) && Shapes(s', g) && SlotWritten(s, g, s') && Accounted(s, g) && t in s.pc && ThreadOk(s, g, t)
    requires var e := Ent(s, g, Last(s), Blocks(s.tail));
      && (s'.entries[e].key == s.entries[e].key || s'.entries[e].key == Some(Blocks(s.tail) * BLOCK))
      && (s'.entries[e].value == s.entries[e].value || s'.entries[e].value.None? || g.at[Last(s)] == Blocks(s.tail))
    requires (s.pc[t].Free? ==> s.pc[t].block in s'.owned) && g.at[Last(s)] <= Blocks(s.tail)
    ensures ThreadOk(s', g, t)
  {
    hide Rings, Accounted, KeySeen;
    if s.pc[t].HaveTail? {
      SlotKeepsSeen(s, g, s', t, s.pc[t].i, s.pc[t].h);
    }
  }

  lemma SlotKeepsSeen(s: State, g: Ghost, s': State, t: Thread, i: nat, h: nat)
    requires Rings(s, g) && Shapes(s', g) && SlotWritten(s, g, s') && Accounted(s, g)
    requires i < s.head && i !in g.done && h < |s.headers| && t in g.seen && i / BLOCK <= g.seen[t] && KeySeen(s, g, t, h)
    requires g.at[Last(s)] <= Blocks(s.tail)
    requires var e := Ent(s, g, Last(s), Blocks(s.tail));
      && (s'.entries[e].key == s.entries[e].key || s'.entries[e].key == Some(Blocks(s.tail) * BLOCK))
      && (s'.entries[e].value == s.entries[e].value || s'.entries[e].value.None? || g.at[Last(s)] == Blocks(s.tail))
    ensures KeySeen(s', g, t, h)
  {
    hide Ent, Sound;
    HeldIsUnreleased(s, g, i);
    var b, v := i / BLOCK, g.seen[t];
    assert KeyOk(s, g, h, b, v) && HeaderOk(s, g, h);
    SameEnt(s, g, s', h, v);
    SameEnt(s, g, s', Last(s), Blocks(s.tail));
    if v <= g.at[h] && v < Blocks(s.tail) {
      SlotIsOther(s, g, h, b, v);
      assert Ent(s, g, h, v) < |s.entries| by {
        EntInside(s, g, h, v);
      }
    } else {
      assert h == Last(s) && v == Blocks(s.tail);
    }
  }

  lemma EntInside(s: State, g: Ghost, h: nat, c: int)
    requires Shapes(s, g) && h < |s.headers|
    ensures Ent(s, g, h, c) < |s.entries|
  {
    assert HeaderShape(s, s.headers[h]);
  }

  lemma SameEnt(s: State, g: Ghost, s': State, h: nat, c: int)
    requires Shapes(s, g) && Shapes(s', g) && s'.headers == s.headers && h < |s.headers|
    ensures Ent(s', g, h, c) == Ent(s, g, h, c)
  {
  }

  // All that a write into the slot leaves as it was.
  lemma SlotStep(s: State, g: Ghost, s': State)
    requires Inv(s, g) && Shapes(s', g) && SlotWritten(s, g, s') && EnqOk(s', g) && s'.counter == s.counter && s'.owned == s.owned
    requires var e := Ent(s, g, Last(s), Blocks(s.tail));
      && (s'.entries[e].key == s.entries[e].key || s'.entries[e].key == Some(Blocks(s.tail) * BLOCK))
      && (s'.entries[e].value == s.entries[e].value || s'.entries[e].value.None? || g.at[Last(s)] == Blocks(s.tail))
      && (g.at[Last(s)] == Blocks(s.tail) - 1 || (g.at[Last(s)] == Blocks(s.tail) && s'.entries[e].key == Some(Blocks(s.tail) * BLOCK)))
    ensures Inv(s', g)
  {
    SlotKeepsRings(s, g, s');
    SlotKeepsStored(s, g, s');
    hide Rings, Stored, EnqOk, Accounted, Ent;
    assert Accounted(s', g) by {
      SameAccounts(s, g, s');
    }
    forall t {:trigger ThreadOk(s', g, t)} | t in s'.pc ensures ThreadOk(s', g, t) {
      assert ThreadOk(s, g, t);
      FreeIsOwned(s, g, t);
      SlotKeepsThread(s, g, s', t);
    }
    forall t, u {:trigger PairOk(s', t, u)} | t in s'.pc && u in s'.pc ensures PairOk(s', t, u) {
      assert PairOk(s, t, u);
    }
  }

  lemma FreeIsOwned(s: State, g: Ghost, t: Thread)
    requires Shapes(s, g) && t in s.pc && ThreadOk(s, g, t)
    ensures s.pc[t].Free? ==> s.pc[t].block in s.owned
  {
  }

  lemma SameAccounts(s: State, g: Ghost, s': State)
    requires Accounted(s, g) && s'.head == s.head && s'.tail == s.tail
    ensures Accounted(s', g)
  {
  }

  lemma StoreKeyStep(s: State, g: Ghost, ok: bool, block: Block)
    requires Inv(s, g) && WellFormed(s) && s.enq.StoreKey?
    ensures Inv(EnqStep(s, ok, block), g)
  {
    hide Stored, Readers, Accounted;
    var s' := EnqStep(s, ok, block);
    StoreKeyResult(s, g, ok, block);
    hide EnqOk, Rings, Ent;
    SlotStep(s, g, s');
  }

  lemma StoreKeyResult(s: State, g: Ghost, ok: bool, block: Block)
    requires Rings(s, g) && EnqOk(s, g) && WellFormed(s) && s.enq.StoreKey?
    ensures var s', e := EnqStep(s, ok, block), Ent(s, g, Last(s), Blocks(s.tail));
      && Shapes(s', g) && SlotWritten(s, g, s') && EnqOk(s', g) && s'.counter == s.counter && s'.owned == s.owned
      && s'.entries[e].key == Some(Blocks(s.tail) * BLOCK) && s'.entries[e].value == s.entries[e].value
      && g.at[Last(s)] == Blocks(s.tail) - 1
  {
    hide KeyOk, Place;
    var s', h := EnqStep(s, ok, block), Last(s);
    assert HeaderOk(s, g, h);
    NextSlot(s, g);
    BlocksAtEnd(s.tail);
    assert Shapes(s', g) by {
      forall k | 0 <= k < |s'.headers| ensures HeaderShape(s', s'.headers[k]) {
        assert HeaderShape(s, s.headers[k]);
      }
    }
    forall b: nat | Unreleased(s', g, b) ensures Blocks(s'.tail) - b < Cur(s').capacity {
      assert Unreleased(s, g, b);
    }
  }

  lemma ClearSlotStep(s: State, g: Ghost, ok: bool, block: Block)
    requires Inv(s, g) && WellFormed(s) && s.enq.ClearSlot?
    ensures Inv(EnqStep(s, ok, block), g)
  {
    hide Stored, Readers, Accounted;
    var s' := EnqStep(s, ok, block);
    ClearSlotResult(s, g, ok, block);
    hide EnqOk, Rings, Ent;
    SlotStep(s, g, s');
  }

  lemma ClearSlotResult(s: State, g: Ghost, ok: bool, block: Block)
    requires Rings(s, g) && EnqOk(s, g) && WellFormed(s) && s.enq.ClearSlot?
    ensures var s', e := EnqStep(s, ok, block), Ent(s, g, Last(s), Blocks(s.tail));
      && Shapes(s', g) && SlotWritten(s, g, s') && EnqOk(s', g) && s'.counter == s.counter && s'.owned == s.owned
      && s'.entries[e].key == s.entries[e].key && s'.entries[e].value.None?
      && g.at[Last(s)] == Blocks(s.tail) - 1
  {
    hide KeyOk, Place;
    var s' := EnqStep(s, ok, block);
    assert Shapes(s', g) by {
      forall k | 0 <= k < |s'.headers| ensures HeaderShape(s', s'.headers[k]) {
        assert HeaderShape(s, s.headers[k]);
      }
    }
  }

  // The enqueuer notes which block object is to be the next block.
  lemma HomeNext(s: State, g: Ghost, g': Ghost, block: Block)
    requires Inv(s, g) && s.enq.StoreValue? && g' == g.(home := g.home[Blocks(s.tail) := block])
    ensures Inv(s, g')
  {
    HomeNextRings(s, g, g', block);
    HomeNextReaders(s, g, g', block);
    hide Rings, Readers;
    assert forall b: nat :: Unreleased(s, g', b) <==> Unreleased(s, g, b);
    forall b {:trigger BlockOk(s, g', b)} | 0 <= b ensures BlockOk(s, g', b) {
      assert BlockOk(s, g, b) && DoneIn(g', b) == DoneIn(g, b);
    }
    forall b, c {:trigger HomesDiffer(s, g', b, c)} | 0 <= b && 0 <= c ensures HomesDiffer(s, g', b, c) {
      assert HomesDiffer(s, g, b, c);
    }
  }

  lemma HomeNextRings(s: State, g: Ghost, g': Ghost, block: Block)
    requires Rings(s, g) && g' == g.(home := g.home[Blocks(s.tail) := block])
    ensures Rings(s, g')
  {
    assert Shapes(s, g');
    forall h {:trigger HeaderOk(s, g', h)} | 0 <= h < |s.headers| ensures HeaderOk(s, g', h) {
      assert HeaderOk(s, g, h);
    }
    forall h, b, c {:trigger KeyOk(s, g', h, b, c)} | 0 <= h < |s.headers| && 0 <= b && 0 <= c ensures KeyOk(s, g', h, b, c) {
      assert KeyOk(s, g, h, b, c);
    }
  }

  lemma HomeNextReaders(s: State, g: Ghost, g': Ghost, block: Block)
    requires Shapes(s, g) && Accounted(s, g) && Readers(s, g) && g' == g.(home := g.home[Blocks(s.tail) := block])
    ensures Shapes(s, g') && Readers(s, g')
  {
    forall t {:trigger ThreadOk(s, g', t)} | t in s.pc ensures ThreadOk(s, g', t) {
      assert ThreadOk(s, g, t);
      if s.pc[t].HaveBlock? {
        HeldIsUnreleased(s, g, s.pc[t].i);
      }
      assert s.pc[t].Clear? ==> DoneIn(g', s.pc[t].i / BLOCK) == DoneIn(g, s.pc[t].i / BLOCK);
    }
  }

  lemma StoreValueStep(s: State, g: Ghost, ok: bool, block: Block) returns (g': Ghost)
    requires Inv(s, g) && WellFormed(s) && s.enq.StoreValue?
    ensures Inv(EnqStep(s, ok, block), g')
    ensures g'.home == g.home[Blocks(s.tail) := s.enq.block] && g'.done == g.done && g'.released == g.released
  {
    hide Rings, Stored, Readers, Accounted, EnqOk;
    g' := g.(home := g.home[Blocks(s.tail) := s.enq.block]);
    HomeNext(s, g, g', s.enq.block);
    StoreValueResult(s, g', ok, block);
    hide Ent;
    SlotStep(s, g', EnqStep(s, ok, block));
  }

  lemma StoreValueResult(s: State, g: Ghost, ok: bool, block: Block)
    requires Rings(s, g) && EnqOk(s, g) && WellFormed(s) && s.enq.StoreValue? && Blocks(s.tail) in g.home && g.home[Blocks(s.tail)] == s.enq.block
    ensures var s', e := EnqStep(s, ok, block), Ent(s, g, Last(s), Blocks(s.tail));
      && Shapes(s', g) && SlotWritten(s, g, s') && EnqOk(s', g) && s'.counter == s.counter && s'.owned == s.owned
      && s'.entries[e].key == Some(Blocks(s.tail) * BLOCK) && g.at[Last(s)] == Blocks(s.tail)
  {
    hide KeyOk, Place;
    var s', h := EnqStep(s, ok, block), Last(s);
    assert HeaderOk(s, g, h);
    BlocksAtEnd(s.tail);
    assert Shapes(s', g) by {
      forall k | 0 <= k < |s'.headers| ensures HeaderShape(s', s'.headers[k]) {
        assert HeaderShape(s, s.headers[k]);
      }
    }
    forall b: nat | Unreleased(s', g, b) ensures Blocks(s'.tail) - b < Cur(s').capacity {
      assert Unreleased(s, g, b);
    }
  }

  // A block object comes from the free list, or from memory.
  lemma RequisitionStep(s: State, g: Ghost, ok: bool, block: Block)
    requires Inv(s, g) && WellFormed(s) && s.enq.Requisition? && (ok ==> block !in s.owned)
    ensures Inv(EnqStep(s, ok, block), g)
  {
    var s' := EnqStep(s, ok, block);
    SlotFreeSame(s, s', g);
    if !ok {
      assert Shapes(s', g);
      hide Rings, Stored, Readers, Accounted;
      EnqMoves(s, g, s');
    } else {
      RingsSame(s, s', g);
      forall b {:trigger BlockOk(s', g, b)} | 0 <= b ensures BlockOk(s', g, b) {
        assert BlockOk(s, g, b);
      }
      forall b, c {:trigger HomesDiffer(s', g, b, c)} | 0 <= b && 0 <= c ensures HomesDiffer(s', g, b, c) {
        assert HomesDiffer(s, g, b, c);
      }
      hide Rings, Stored, Accounted;
      forall t {:trigger ThreadOk(s', g, t)} | t in s'.pc ensures ThreadOk(s', g, t) {
        assert ThreadOk(s, g, t);
      }
      forall t, u {:trigger PairOk(s', t, u)} | t in s'.pc && u in s'.pc ensures PairOk(s', t, u) {
        assert PairOk(s, t, u);
      }
      RequisitionFresh(s, g, s', block);
    }
  }

  lemma RequisitionFresh(s: State, g: Ghost, s': State, block: Block)
    requires Inv(s, g) && s.enq.Requisition? && block !in s.owned && Shapes(s', g)
    requires s' == s.(owned := s.owned + {block}, counter := s.counter[block := 0], enq := StoreValue(block))
    ensures EnqOk(s', g) && Accounted(s', g)
  {
    forall b: nat | Unreleased(s', g, b) && b in g.home ensures g.home[b] != block {
      assert BlockOk(s, g, b);
    }
    forall t | t in s'.pc && s'.pc[t].Free? ensures s'.pc[t].block != block {
      assert ThreadOk(s, g, t);
    }
    assert Fresh(s', g, block);
    SlotFreeSame(s, s', g);
  }

  lemma SlotFreeSame(s: State, s': State, g: Ghost)
    requires Shapes(s, g) && s'.headers == s.headers && s'.entries == s.entries && s'.tail == s.tail && SlotFree(s, g)
    ensures Shapes(s', g) && SlotFree(s', g)
  {
    assert Shapes(s', g) by {
      forall k | 0 <= k < |s'.headers| ensures HeaderShape(s', s'.headers[k]) {
        assert HeaderShape(s, s.headers[k]);
      }
    }
    forall b: nat | Unreleased(s', g, b) ensures Blocks(s'.tail) - b < Cur(s').capacity {
      assert Unreleased(s, g, b);
    }
  }

  // ------------------------------------------------------------------
  // The tail of the newest index moves by one block
  // ------------------------------------------------------------------

  ghost predicate TailMoved(s: State, g: Ghost, s': State, g': Ghost)
    requires Shapes(s, g)
  {
    var l := Last(s);
    && |s'.headers| == |s.headers| && |g'.at| == |g.at| && g' == g.(at := g.at[l := g'.at[l]])
    && (forall h :: 0 <= h < |s.headers| ==> s'.headers[h].capacity == s.headers[h].capacity && s'.headers[h].index == s.headers[h].index)
    && (forall h :: 0 <= h < l ==> s'.headers[h] == s.headers[h])
    && s'.headers[l].tail == Pos(s, g, l, g'.at[l])
    && s' == s.(headers := s'.headers, enq := s'.enq) && !s'.enq.NewIndex?
  }

  lemma MovedShapes(s: State, g: Ghost, s': State, g': Ghost)
    requires Shapes(s, g) && TailMoved(s, g, s', g')
    ensures Shapes(s', g') && Last(s') == Last(s)
    ensures forall h, c :: 0 <= h < |s.headers| ==> Pos(s', g', h, c) == Pos(s, g, h, c) && Ent(s', g', h, c) == Ent(s, g, h, c)
    ensures forall b: nat :: Unreleased(s', g', b) <==> Unreleased(s, g, b)
  {
    hide Place;
    forall h | 0 <= h < |s'.headers| ensures HeaderShape(s', s'.headers[h]) {
      assert HeaderShape(s, s.headers[h]);
    }
  }

  lemma MovedRings(s: State, g: Ghost, s': State, g': Ghost)
    requires Rings(s, g) && TailMoved(s, g, s', g')
    requires var l, n := Last(s), Blocks(s.tail);
      && n - 1 <= g'.at[l] <= n
      && (g'.at[l] == n && g.at[l] == n - 1 ==>
          && s.entries[Ent(s, g, l, n)].key == Some(n * BLOCK)
          && forall b: nat :: Unreleased(s, g, b) ==> n - b < s.headers[l].capacity)
      && g.at[l] >= n - 1
    ensures Rings(s', g')
  {
    hide Ent, Pos, Unreleased;
    MovedShapes(s, g, s', g');
    forall h {:trigger HeaderOk(s', g', h)} | 0 <= h < |s'.headers| ensures HeaderOk(s', g', h) {
      assert HeaderOk(s, g, h);
    }
    forall h, b, c {:trigger KeyOk(s', g', h, b, c)} | 0 <= h < |s'.headers| && 0 <= b && 0 <= c ensures KeyOk(s', g', h, b, c) {
      assert KeyOk(s, g, h, b, c);
    }
  }

  lemma MovedStored(s: State, g: Ghost, s': State, g': Ghost)
    requires Shapes(s, g) && Stored(s, g) && TailMoved(s, g, s', g') && Shapes(s', g') && g'.at[Last(s)] >= Blocks(s.tail) - 1
    ensures Stored(s', g')
  {
    hide Ent, Pos;
    MovedShapes(s, g, s', g');
    forall b {:trigger BlockOk(s', g', b)} | 0 <= b ensures BlockOk(s', g', b) {
      assert BlockOk(s, g, b) && DoneIn(g', b) == DoneIn(g, b);
    }
    forall b, c {:trigger HomesDiffer(s', g', b, c)} | 0 <= b && 0 <= c ensures HomesDiffer(s', g', b, c) {
      assert HomesDiffer(s, g, b, c);
    }
  }

  lemma MovedThread(s: State, g: Ghost, s': State, g': Ghost, t: Thread)
    requires Shapes(s, g) && TailMoved(s, g, s', g') && Shapes(s', g') && Accounted(s, g) && t in s.pc && ThreadOk(s, g, t)
    requires var l, n := Last(s), Blocks(s.tail);
      && n - 1 <= g'.at[l] <= n && n - 1 <= g.at[l] <= n
      && (g'.at[l] == n - 1 && g.at[l] == n ==> s.entries[Ent(s, g, l, n)].value.None?)
    ensures ThreadOk(s', g', t)
  {
    hide Ent, Pos;
    MovedShapes(s, g, s', g');
    var pc := s.pc[t];
    if Holds(pc, if pc.Idle? || pc.Broken? then 0 else pc.i) {
      HeldIsUnreleased(s, g, pc.i);
    }
    assert pc.Clear? ==> DoneIn(g', pc.i / BLOCK) == DoneIn(g, pc.i / BLOCK);
  }

  lemma TailStep(s: State, g: Ghost, s': State, g': Ghost)
    requires Inv(s, g) && TailMoved(s, g, s', g') && Shapes(s', g') && EnqOk(s', g')
    requires var l, n := Last(s), Blocks(s.tail);
      && n - 1 <= g'.at[l] <= n && n - 1 <= g.at[l] <= n
      && (g'.at[l] == n && g.at[l] == n - 1 ==>
          && s.entries[Ent(s, g, l, n)].key == Some(n * BLOCK)
          && forall b: nat :: Unreleased(s, g, b) ==> n - b < s.headers[l].capacity)
      && (g'.at[l] == n - 1 && g.at[l] == n ==> s.entries[Ent(s, g, l, n)].value.None?)
    ensures Inv(s', g')
  {
    hide EnqOk, Ent;
    MovedRings(s, g, s', g');
    MovedStored(s, g, s', g');
    hide Rings, Stored;
    forall t {:trigger ThreadOk(s', g', t)} | t in s'.pc ensures ThreadOk(s', g', t) {
      assert ThreadOk(s, g, t);
      MovedThread(s, g, s', g', t);
    }
    forall t, u {:trigger PairOk(s', t, u)} | t in s'.pc && u in s'.pc ensures PairOk(s', t, u) {
      assert PairOk(s, t, u);
    }
  }

  lemma StoreTailStep(s: State, g: Ghost, ok: bool, block: Block) returns (g': Ghost)
    requires Inv(s, g) && WellFormed(s) && s.enq.StoreTail?
    ensures Inv(EnqStep(s, ok, block), g')
    ensures g'.home == g.home && g'.done == g.done && g'.released == g.released
  {
    hide Rings, Stored, Readers, Accounted, EnqOk, Ent;
    var l := Last(s);
    g' := g.(at := g.at[l := g.at[l] + 1]);
    StoreTailResult(s, g, ok, block);
    TailStep(s, g, EnqStep(s, ok, block), g');
  }

  lemma StoreTailResult(s: State, g: Ghost, ok: bool, block: Block)
    requires Rings(s, g) && EnqOk(s, g) && WellFormed(s) && s.enq.StoreTail?
    ensures var l, n, s' := Last(s), Blocks(s.tail), EnqStep(s, ok, block);
      var g' := g.(at := g.at[l := g.at[l] + 1]);
      && TailMoved(s, g, s', g') && Shapes(s', g') && EnqOk(s', g') && g.at[l] == n - 1 && g'.at[l] == n
      && s.entries[Ent(s, g, l, n)].key == Some(n * BLOCK)
      && forall b: nat :: Unreleased(s, g, b) ==> n - b < s.headers[l].capacity
  {
    hide KeyOk, Place;
    var l, n, s' := Last(s), Blocks(s.tail), EnqStep(s, ok, block);
    var g' := g.(at := g.at[l := g.at[l] + 1]);
    assert HeaderOk(s, g, l);
    NextSlot(s, g);
    BlocksAtEnd(s.tail);
    assert TailMoved(s, g, s', g');
    MovedShapes(s, g, s', g');
    hide Ent, Pos;
    MovedSlotFree(s, g, s', g');
  }

  lemma MovedSlotFree(s: State, g: Ghost, s': State, g': Ghost)
    requires Shapes(s, g) && TailMoved(s, g, s', g') && SlotFree(s, g)
    ensures Shapes(s', g') && SlotFree(s', g')
  {
    hide Ent, Pos;
    MovedShapes(s, g, s', g');
    forall b: nat | Unreleased(s', g', b) ensures Blocks(s'.tail) - b < Cur(s').capacity {
      assert Unreleased(s, g, b);
    }
  }

  lemma RewindStep(s: State, g: Ghost, ok: bool, block: Block) returns (g': Ghost)
    requires Inv(s, g) && WellFormed(s) && s.enq.Rewind?
    ensures Inv(EnqStep(s, ok, block), g')
    ensures g'.home == g.home && g'.done == g.done && g'.released == g.released
  {
    hide Rings, Stored, Readers, Accounted, EnqOk, Ent;
    var l := Last(s);
    g' := g.(at := g.at[l := g.at[l] - 1]);
    RewindResult(s, g, ok, block);
    TailStep(s, g, EnqStep(s, ok, block), g');
  }

  lemma RewindResult(s: State, g: Ghost, ok: bool, block: Block)
    requires Rings(s, g) && EnqOk(s, g) && WellFormed(s) && s.enq.Rewind?
    ensures var l, n, s' := Last(s), Blocks(s.tail), EnqStep(s, ok, block);
      var g' := g.(at := g.at[l := g.at[l] - 1]);
      && TailMoved(s, g, s', g') && Shapes(s', g') && EnqOk(s', g') && g.at[l] == n && g'.at[l] == n - 1
      && s.entries[Ent(s, g, l, n)].value.None?
  {
    hide KeyOk, Place;
    var l, n, s' := Last(s), Blocks(s.tail), EnqStep(s, ok, block);
    var g' := g.(at := g.at[l := g.at[l] - 1]);
    assert HeaderOk(s, g, l);
    PreviousSlot(s, g);
    assert TailMoved(s, g, s', g');
    MovedShapes(s, g, s', g');
    MovedSlotFree(s, g, s', g');
  }

  // ------------------------------------------------------------------
  // An element is published
  // ------------------------------------------------------------------

  lemma PublishStep(s: State, g: Ghost, ok: bool, block: Block)
    requires Inv(s, g) && WellFormed(s) && s.enq.Publish?
    ensures Inv(EnqStep(s, ok, block), g)
  {
    var s' := EnqStep(s, ok, block);
    assert s' == s.(tail := s.tail + 1, enq := Ready);
    if s.tail % BLOCK == 0 {
      PublishBlock(s, g, s');
    } else {
      PublishInside(s, g, s');
    }
  }

  lemma PublishInside(s: State, g: Ghost, s': State)
    requires Inv(s, g) && s.enq.Publish? && s.tail % BLOCK != 0 && s' == s.(tail := s.tail + 1, enq := Ready)
    ensures Inv(s', g)
  {
    BlocksInside(s.tail);
    var m := s'.(tail := s.tail);
    assert Shapes(m, g);
    assert EnqOk(m, g);
    EnqMoves(s, g, m);
    hide EnqOk;
    SameBlocks(m, g, s');
  }

  // Nothing depends on the tail but through the number of blocks.
  lemma SameBlocks(s: State, g: Ghost, s': State)
    requires Inv(s, g) && s.enq.Ready? && s' == s.(tail := s'.tail) && Blocks(s'.tail) == Blocks(s.tail) && s'.tail >= s.tail
    ensures Inv(s', g)
  {
    assert forall b: nat :: Unreleased(s', g, b) <==> Unreleased(s, g, b);
    forall h | 0 <= h < |s'.headers| ensures HeaderShape(s', s'.headers[h]) {
      assert HeaderShape(s, s.headers[h]);
    }
    forall h {:trigger HeaderOk(s', g, h)} | 0 <= h < |s'.headers| ensures HeaderOk(s', g, h) {
      assert HeaderOk(s, g, h);
    }
    forall h, b, c {:trigger KeyOk(s', g, h, b, c)} | 0 <= h < |s'.headers| && 0 <= b && 0 <= c ensures KeyOk(s', g, h, b, c) {
      assert KeyOk(s, g, h, b, c);
    }
    forall b {:trigger BlockOk(s', g, b)} | 0 <= b ensures BlockOk(s', g, b) {
      assert BlockOk(s, g, b);
    }
    forall b, c {:trigger HomesDiffer(s', g, b, c)} | 0 <= b && 0 <= c ensures HomesDiffer(s', g, b, c) {
      assert HomesDiffer(s, g, b, c);
    }
    forall t {:trigger ThreadOk(s', g, t)} | t in s'.pc ensures ThreadOk(s', g, t) {
      assert ThreadOk(s, g, t);
    }
    forall t, u {:trigger PairOk(s', t, u)} | t in s'.pc && u in s'.pc ensures PairOk(s', t, u) {
      assert PairOk(s, t, u);
    }
  }

  // A new block has its first element.
  lemma PublishBlock(s: State, g: Ghost, s': State)
    requires Inv(s, g) && s.enq.Publish? && s.tail % BLOCK == 0 && s' == s.(tail := s.tail + 1, enq := Ready)
    ensures Inv(s', g)
  {
    NewlyUnreleased(s, g, s');
    PublishRings(s, g, s');
    PublishStored(s, g, s');
    PublishReaders(s, g, s');
    BlocksAtEnd(s.tail);
    hide Rings, Stored, Readers, Unreleased;
  }

  lemma NewlyUnreleased(s: State, g: Ghost, s': State)
    requires Accounted(s, g) && s.tail % BLOCK == 0 && s'.tail == s.tail + 1
    ensures Blocks(s'.tail) == Blocks(s.tail) + 1 && !Unreleased(s, g, Blocks(s.tail))
    ensures forall b: nat :: Unreleased(s', g, b) <==> Unreleased(s, g, b) || b == Blocks(s.tail)
    ensures DoneIn(g, Blocks(s.tail)) == {}
  {
    var n := Blocks(s.tail);
    BlocksAtEnd(s.tail);
    assert n !in g.released by {
      assert n * BLOCK / BLOCK == n && n * BLOCK !in g.done;
    }
    forall i ensures i !in DoneIn(g, n) {
      assert i in g.done ==> i < s.head;
    }
  }

  lemma PublishRings(s: State, g: Ghost, s': State)
    requires Inv(s, g) && s.enq.Publish? && s.tail % BLOCK == 0 && s' == s.(tail := s.tail + 1, enq := Ready)
    ensures Rings(s', g)
  {
    hide Readers, Stored, Ent;
    var n := Blocks(s.tail);
    NewlyUnreleased(s, g, s');
    BlocksAtEnd(s.tail);
    forall h | 0 <= h < |s'.headers| ensures HeaderShape(s', s'.headers[h]) {
      assert HeaderShape(s, s.headers[h]);
    }
    forall h {:trigger HeaderOk(s', g, h)} | 0 <= h < |s'.headers| ensures HeaderOk(s', g, h) {
      assert HeaderOk(s, g, h);
    }
    forall h, b, c {:trigger KeyOk(s', g, h, b, c)} | 0 <= h < |s'.headers| && 0 <= b && 0 <= c ensures KeyOk(s', g, h, b, c) {
      assert KeyOk(s, g, h, b, c) && HeaderOk(s, g, h);
      SameEnt(s, g, s', h, c);
      SameEnt(s, g, s', Last(s), c);
    }
  }

  lemma PublishStored(s: State, g: Ghost, s': State)
    requires Inv(s, g) && s.enq.Publish? && s.tail % BLOCK == 0 && s' == s.(tail := s.tail + 1, enq := Ready) && Shapes(s', g)
    ensures Stored(s', g)
  {
    hide Readers, Rings, Ent, DoneIn;
    NewlyUnreleased(s, g, s');
    forall b {:trigger BlockOk(s', g, b)} | 0 <= b ensures BlockOk(s', g, b) {
      assert BlockOk(s, g, b);
      SameEnt(s, g, s', Last(s), b);
    }
    forall b, c {:trigger HomesDiffer(s', g, b, c)} | 0 <= b && 0 <= c ensures HomesDiffer(s', g, b, c) {
      assert HomesDiffer(s, g, b, c);
    }
  }

  lemma PublishReaders(s: State, g: Ghost, s': State)
    requires Inv(s, g) && s.enq.Publish? && s.tail % BLOCK == 0 && s' == s.(tail := s.tail + 1, enq := Ready) && Shapes(s', g)
    ensures Readers(s', g)
  {
    hide Stored, Rings, DoneIn;
    NewlyUnreleased(s, g, s');
    forall t {:trigger ThreadOk(s', g, t)} | t in s'.pc ensures ThreadOk(s', g, t) {
      assert ThreadOk(s, g, t);
    }
    forall t, u {:trigger PairOk(s', t, u)} | t in s'.pc && u in s'.pc ensures PairOk(s', t, u) {
      assert PairOk(s, t, u);
    }
  }

  // ------------------------------------------------------------------
  // A new index of twice the capacity
  // ------------------------------------------------------------------

  // Where the blocks of the last lap are in the new ring.
  lemma DoubledPlace(h: Header, first: EntryId, phase: int, at: int, x: int)
    requires h.capacity > 0 && |h.index| == h.capacity && h.tail == Place(phase + at, h.capacity) && at - h.capacity < x <= at
    ensures var c := h.capacity;
      && Place(c - 1 - at + x, 2 * c) == c - 1 - at + x
      && Doubled(h, first).index[c - 1 - at + x] == h.index[Place(phase + x, c)]
  {
    hide Place;
    var c := h.capacity;
    var k := c - 1 - at + x;
    PlaceInside(k, 2 * c);
    PlaceInside(h.tail, c);
    PlacesMove(h.tail, phase + at, x - at, c);
    Lap(h.tail + x - at, c);
    assert h.tail + 1 + k == h.tail + x - at + c;
    assert Doubled(h, first).index[k] == h.index[Place(h.tail + 1 + k, c)];
  }

  lemma Lap(p: int, n: nat)
    requires n > 0
    ensures Place(p + n, n) == Place(p, n)
  {
    assert p == p / n * n + p % n;
    assert p + n == (p / n + 1) * n + p % n;
    PlaceIs(p + n, n, p / n + 1, p % n);
  }

  lemma DoubledDiffers(h: Header, first: EntryId)
    requires h.capacity > 0 && |h.index| == h.capacity && forall p :: 0 <= p < |h.index| ==> h.index[p] < first
    requires forall p, q :: 0 <= p < q < |h.index| ==> h.index[p] != h.index[q]
    ensures var d := Doubled(h, first);
      && |d.index| == d.capacity == 2 * h.capacity && d.tail < d.capacity
      && (forall p :: 0 <= p < |d.index| ==> d.index[p] < first + h.capacity)
      && (forall p, q :: 0 <= p < q < |d.index| ==> d.index[p] != d.index[q])
  {
    hide Place;
    var d, c := Doubled(h, first), h.capacity;
    forall p | 0 <= p < |d.index| ensures d.index[p] < first + c {
      if p < c {
        assert d.index[p] == h.index[Place(h.tail + 1 + p, c)];
      } else {
        assert d.index[p] == New(first, p - c);
      }
    }
    forall p, q | 0 <= p < q < |d.index| ensures d.index[p] != d.index[q] {
      if q < c {
        PlacesDiffer(h.tail + 1 + p, h.tail + 1 + q, c);
        var a, b := Place(h.tail + 1 + p, c), Place(h.tail + 1 + q, c);
        assert d.index[p] == h.index[a] && d.index[q] == h.index[b];
        assert a < b || b < a;
      } else if p >= c {
        assert d.index[p] == New(first, p - c) && d.index[q] == New(first, q - c);
      } else {
        assert d.index[p] == h.index[Place(h.tail + 1 + p, c)] && d.index[q] == New(first, q - c);
      }
    }
  }

  ghost function NewGhost(s: State, g: Ghost): Ghost
    requires Shapes(s, g)
  {
    var l := Last(s);
    g.(phase := g.phase + [Cur(s).capacity - 1 - g.at[l]], at := g.at + [g.at[l]])
  }

  ghost predicate IndexMade(s: State, g: Ghost, s': State) {
    && s.headers != []
    && s' == s.(headers := s.headers + [DoubledOrSame(Cur(s), |s.entries|)], entries := s'.entries, enq := StoreKey)
    && |s'.entries| == |s.entries| + Cur(s).capacity && s'.entries[..|s.entries|] == s.entries
    && forall e :: |s.entries| <= e < |s'.entries| ==> s'.entries[e] == Entry(None, None)
  }

  function DoubledOrSame(h: Header, first: EntryId): Header {
    if h.capacity > 0 && |h.index| == h.capacity then Doubled(h, first) else h
  }

  // The old indices are as they were, and the new one has the same entries for the last lap.
  lemma MadeShapes(s: State, g: Ghost, s': State)
    requires Rings(s, g) && IndexMade(s, g, s')
    ensures var g' := NewGhost(s, g);
      && Shapes(s', g') && Last(s') == |s.headers|
      && (forall h, x :: 0 <= h < |s.headers| ==> Pos(s', g', h, x) == Pos(s, g, h, x) && Ent(s', g', h, x) == Ent(s, g, h, x))
      && (forall h :: 0 <= h < |s.headers| ==> s'.headers[h] == s.headers[h] && g'.at[h] == g.at[h])
      && (forall b: nat :: Unreleased(s', g', b) <==> Unreleased(s, g, b))
      && g'.at[|s.headers|] == g.at[Last(s)] && s'.headers[|s.headers|].capacity == 2 * Cur(s).capacity
  {
    hide Place, KeyOk;
    var g' := NewGhost(s, g);
    assert HeaderOk(s, g, Last(s)) && HeaderShape(s, Cur(s));
    DoubledDiffers(Cur(s), |s.entries|);
    forall h | 0 <= h < |s'.headers| ensures HeaderShape(s', s'.headers[h]) {
      if h < |s.headers| {
        assert HeaderShape(s, s.headers[h]);
      }
    }
  }

  lemma MadeEnt(s: State, g: Ghost, s': State, x: int)
    requires Rings(s, g) && IndexMade(s, g, s') && Shapes(s', NewGhost(s, g)) && g.at[Last(s)] - Cur(s).capacity < x <= g.at[Last(s)]
    ensures Ent(s', NewGhost(s, g), |s.headers|, x) == Ent(s, g, Last(s), x)
  {
    hide Place, KeyOk;
    var c, g' := Cur(s).capacity, NewGhost(s, g);
    assert HeaderOk(s, g, Last(s)) && HeaderShape(s, Cur(s));
    DoubledPlace(Cur(s), |s.entries|, g.phase[Last(s)], g.at[Last(s)], x);
    assert s'.headers[|s.headers|] == Doubled(Cur(s), |s.entries|) && g'.phase[|s.headers|] == c - 1 - g.at[Last(s)];
    assert Pos(s', g', |s.headers|, x) == c - 1 - g.at[Last(s)] + x;
  }

  lemma MadeHeader(s: State, g: Ghost, s': State)
    requires Rings(s, g) && IndexMade(s, g, s') && Shapes(s', NewGhost(s, g)) && g.at[Last(s)] == Blocks(s.tail) - 1
    requires 2 * Cur(s).capacity <= LAPS
    ensures HeaderOk(s', NewGhost(s, g), |s.headers|)
    ensures Ent(s', NewGhost(s, g), |s.headers|, Blocks(s.tail)) == |s.entries|
  {
    hide Place, KeyOk;
    var c := Cur(s).capacity;
    assert HeaderOk(s, g, Last(s)) && HeaderShape(s, Cur(s));
    DoubledDiffers(Cur(s), |s.entries|);
    SpansDouble(c);
    PlaceInside(c - 1, 2 * c);
    PlaceInside(c, 2 * c);
    assert Doubled(Cur(s), |s.entries|).index[c] == New(|s.entries|, 0);
  }

  lemma MadeRings(s: State, g: Ghost, s': State)
    requires Rings(s, g) && IndexMade(s, g, s') && g.at[Last(s)] == Blocks(s.tail) - 1
    requires 2 * Cur(s).capacity <= LAPS
    ensures Rings(s', NewGhost(s, g))
  {
    hide Ent, Pos, Unreleased, IndexMade;
    var g' := NewGhost(s, g);
    MadeShapes(s, g, s');
    MadeHeader(s, g, s');
    MadeSound(s, g, s');
    forall h {:trigger HeaderOk(s', g', h)} | 0 <= h < |s'.headers| ensures HeaderOk(s', g', h) {
      if h < |s.headers| {
        assert HeaderOk(s, g, h);
        MadeOldHeader(s, g, s', h);
      }
    }
    forall h, b, c {:trigger KeyOk(s', g', h, b, c)} | 0 <= h < |s'.headers| && 0 <= b && 0 <= c ensures KeyOk(s', g', h, b, c) {
      MadeKey(s, g, s', h, b, c);
    }
  }

  lemma MadeSound(s: State, g: Ghost, s': State)
    requires Rings(s, g) && IndexMade(s, g, s')
    ensures Sound(s') && |s'.headers| == |s.headers| + 1 && s'.tail == s.tail
    ensures forall e :: 0 <= e < |s.entries| ==> e < |s'.entries| && s'.entries[e] == s.entries[e]
  {
    hide KeyOk, HeaderOk;
    forall e | 0 <= e < |s.entries| ensures e < |s'.entries| && s'.entries[e] == s.entries[e] {
      assert s'.entries[..|s.entries|][e] == s'.entries[e];
    }
  }

  lemma MadeOldHeader(s: State, g: Ghost, s': State, h: nat)
    requires Rings(s, g) && IndexMade(s, g, s') && g.at[Last(s)] == Blocks(s.tail) - 1 && Shapes(s', NewGhost(s, g))
    requires h < |s.headers| && HeaderOk(s, g, h)
    ensures HeaderOk(s', NewGhost(s, g), h)
  {
    hide Pos, KeyOk;
    MadeShapes(s, g, s');
  }

  lemma MadeKey(s: State, g: Ghost, s': State, h: nat, b: nat, c: nat)
    requires Rings(s, g) && IndexMade(s, g, s') && Shapes(s', NewGhost(s, g)) && h < |s'.headers|
    ensures KeyOk(s', NewGhost(s, g), h, b, c)
  {
    hide Ent, Pos, IndexMade;
    var g', l := NewGhost(s, g), Last(s);
    MadeShapes(s, g, s');
    MadeSound(s, g, s');
    var k := if h < |s.headers| then h else l;
    assert KeyOk(s, g, k, b, c) && KeyOk(s, g, l, b, c) && HeaderOk(s, g, k);
    if Unreleased(s', g', b) && b <= c <= g'.at[h] {
      EntInside(s, g, l, c);
      EntInside(s, g, k, c);
      MadeEnt(s, g, s', c);
    }
  }

  lemma MadeStored(s: State, g: Ghost, s': State)
    requires Rings(s, g) && Stored(s, g) && IndexMade(s, g, s') && Shapes(s', NewGhost(s, g))
    ensures Stored(s', NewGhost(s, g))
  {
    hide Ent, Pos;
    var g', l := NewGhost(s, g), Last(s);
    MadeShapes(s, g, s');
    MadeSound(s, g, s');
    forall b {:trigger BlockOk(s', g', b)} | 0 <= b ensures BlockOk(s', g', b) {
      assert BlockOk(s, g, b) && DoneIn(g', b) == DoneIn(g, b);
      if Unreleased(s, g, b) {
        assert KeyOk(s, g, l, b, b);
        EntInside(s, g, l, b);
        MadeEnt(s, g, s', b);
      }
    }
    forall b, c {:trigger HomesDiffer(s', g', b, c)} | 0 <= b && 0 <= c ensures HomesDiffer(s', g', b, c) {
      assert HomesDiffer(s, g, b, c);
    }
  }

  lemma MadeThread(s: State, g: Ghost, s': State, t: Thread)
    requires Rings(s, g) && Stored(s, g) && IndexMade(s, g, s') && Shapes(s', NewGhost(s, g)) && Accounted(s, g) && s.enq.NewIndex?
    requires t in s.pc && ThreadOk(s, g, t)
    ensures t in s'.pc && ThreadOk(s', NewGhost(s, g), t)
  {
    hide Ent, Pos, HeaderOk, Place;
    var g', l, pc := NewGhost(s, g), Last(s), s.pc[t];
    MadeShapes(s, g, s');
    MadeSound(s, g, s');
    if pc.HaveBlock? || pc.Clear? {
      var b := pc.i / BLOCK;
      if pc.HaveBlock? {
        HeldIsUnreleased(s, g, pc.i);
      }
      assert KeyOk(s, g, l, b, b) && BlockOk(s, g, b);
      MadeEnt(s, g, s', b);
      assert DoneIn(g', b) == DoneIn(g, b);
    } else if pc.HaveTail? {
      EntInside(s, g, pc.h, g.seen[t]);
    }
  }

  lemma NewIndexStep(s: State, g: Ghost, ok: bool, block: Block) returns (g': Ghost)
    requires Inv(s, g) && WellFormed(s) && s.enq.NewIndex? && (ok ==> 2 * Cur(s).capacity <= LAPS)
    ensures Inv(EnqStep(s, ok, block), g')
    ensures g'.home == g.home && g'.done == g.done && g'.released == g.released
  {
    var s' := EnqStep(s, ok, block);
    if !ok {
      assert Shapes(s', g);
      hide Rings, Stored, Readers, Accounted;
      EnqMoves(s, g, s');
      g' := g;
    } else {
      g' := NewGhost(s, g);
      assert IndexMade(s, g, s');
      NewIndexMade(s, g, s');
    }
  }

  lemma NewIndexMade(s: State, g: Ghost, s': State)
    requires Inv(s, g) && s.enq.NewIndex? && 2 * Cur(s).capacity <= LAPS && IndexMade(s, g, s')
    ensures Inv(s', NewGhost(s, g))
  {
    var g' := NewGhost(s, g);
    MadeShapes(s, g, s');
    MadeRings(s, g, s');
    MadeStored(s, g, s');
    MadeEnq(s, g, s');
    hide Rings, Stored, EnqOk;
    assert Accounted(s', g');
    forall t {:trigger ThreadOk(s', g', t)} | t in s'.pc ensures ThreadOk(s', g', t) {
      assert ThreadOk(s, g, t);
      MadeThread(s, g, s', t);
    }
    forall t, u {:trigger PairOk(s', t, u)} | t in s'.pc && u in s'.pc ensures PairOk(s', t, u) {
      assert PairOk(s, t, u);
    }
  }

  lemma MadeEnq(s: State, g: Ghost, s': State)
    requires Rings(s, g) && EnqOk(s, g) && s.enq.NewIndex? && 2 * Cur(s).capacity <= LAPS && IndexMade(s, g, s')
    requires Shapes(s', NewGhost(s, g))
    ensures EnqOk(s', NewGhost(s, g))
  {
    hide Pos, HeaderOk, Place;
    var g', l := NewGhost(s, g), Last(s);
    MadeShapes(s, g, s');
    MadeHeader(s, g, s');
    forall b: nat | Unreleased(s', g', b) ensures Blocks(s'.tail) - b < Cur(s').capacity {
      assert KeyOk(s, g, l, b, b);
    }
  }

  // ------------------------------------------------------------------
  // Dequeuers
  // ------------------------------------------------------------------

  // A dequeuer goes from one place to the next.
  ghost predicate ReaderMoved(s: State, g: Ghost, s': State, g': Ghost, t: Thread) {
    && t in s.pc && t in s'.pc && s' == s.(pc := s.pc[t := s'.pc[t]], head := s'.head) && s.head <= s'.head <= s'.tail
    && g' == g.(seen := g'.seen) && (forall u :: u != t && u in g.seen ==> u in g'.seen && g'.seen[u] == g.seen[u])
    && !s.pc[t].Free? && !s'.pc[t].Free? && !s.pc[t].Clear? && !s'.pc[t].Clear?
  }

  lemma ReaderStep(s: State, g: Ghost, s': State, g': Ghost, t: Thread)
    requires Inv(s, g) && ReaderMoved(s, g, s', g', t) && Shapes(s', g') && ThreadOk(s', g', t)
    requires forall i: nat :: Holds(s'.pc[t], i) ==> Holds(s.pc[t], i) || i >= s.head
    ensures Inv(s', g')
  {
    ReaderRest(s, g, s', g', t);
    forall u {:trigger ThreadOk(s', g', u)} | u in s'.pc ensures ThreadOk(s', g', u) {
      if u != t {
        assert ThreadOk(s, g, u);
        OtherReader(s, g, s', g', t, u);
      }
    }
    forall u, w {:trigger PairOk(s', u, w)} | u in s'.pc && w in s'.pc ensures PairOk(s', u, w) {
      assert PairOk(s, u, w);
      assert ThreadOk(s, g, u) && ThreadOk(s, g, w);
    }
  }

  lemma OtherReader(s: State, g: Ghost, s': State, g': Ghost, t: Thread, u: Thread)
    requires ReaderMoved(s, g, s', g', t) && Shapes(s, g) && Shapes(s', g') && u in s.pc && u != t && ThreadOk(s, g, u)
    ensures u in s'.pc && ThreadOk(s', g', u)
  {
    assert s.pc[u].Clear? ==> DoneIn(g', s.pc[u].i / BLOCK) == DoneIn(g, s.pc[u].i / BLOCK);
  }

  lemma ReaderRest(s: State, g: Ghost, s': State, g': Ghost, t: Thread)
    requires Inv(s, g) && ReaderMoved(s, g, s', g', t) && Shapes(s', g')
    ensures Rings(s', g') && Stored(s', g') && EnqOk(s', g') && Accounted(s', g')
  {
    hide Readers, Ent;
    RingsSame(s, s', g);
    assert Rings(s', g') by {
      SeenRings(s', g, g');
    }
    StoredSame(s, s', g);
    SeenStored(s', g, g');
    SeenEnq(s, g, s', g', t);
  }

  lemma SeenRings(s: State, g: Ghost, g': Ghost)
    requires Rings(s, g) && g' == g.(seen := g'.seen)
    ensures Rings(s, g')
  {
    assert Shapes(s, g');
    forall h {:trigger HeaderOk(s, g', h)} | 0 <= h < |s.headers| ensures HeaderOk(s, g', h) {
      assert HeaderOk(s, g, h);
    }
    forall h, b, c {:trigger KeyOk(s, g', h, b, c)} | 0 <= h < |s.headers| && 0 <= b && 0 <= c ensures KeyOk(s, g', h, b, c) {
      assert KeyOk(s, g, h, b, c);
    }
  }

  lemma SeenStored(s: State, g: Ghost, g': Ghost)
    requires Shapes(s, g) && Shapes(s, g') && Stored(s, g) && g' == g.(seen := g'.seen)
    ensures Stored(s, g')
  {
    forall b {:trigger BlockOk(s, g', b)} | 0 <= b ensures BlockOk(s, g', b) {
      assert BlockOk(s, g, b) && DoneIn(g', b) == DoneIn(g, b);
    }
    forall b, c {:trigger HomesDiffer(s, g', b, c)} | 0 <= b && 0 <= c ensures HomesDiffer(s, g', b, c) {
      assert HomesDiffer(s, g, b, c);
    }
  }

  lemma SeenEnq(s: State, g: Ghost, s': State, g': Ghost, t: Thread)
    requires Shapes(s, g) && Shapes(s', g') && EnqOk(s, g) && ReaderMoved(s, g, s', g', t)
    ensures EnqOk(s', g')
  {
    assert forall b: nat :: Unreleased(s', g', b) <==> Unreleased(s, g, b);
    assert Ent(s', g', Last(s), Blocks(s.tail)) == Ent(s, g, Last(s), Blocks(s.tail));
    assert SlotFree(s, g) ==> SlotFree(s', g');
    forall block | Fresh(s, g, block) ensures Fresh(s', g', block) {}
  }

  lemma ClaimStep(s: State, g: Ghost, t: Thread)
    requires Inv(s, g) && WellFormed(s) && Enabled(s, Claim(t))
    ensures Inv(Do(s, Claim(t)), g)
  {
    var s' := Do(s, Claim(t));
    assert Shapes(s', g) && ThreadOk(s', g, t);
    hide Inv;
    ReaderStep(s, g, s', g, t);
  }

  lemma HeaderStep(s: State, g: Ghost, t: Thread)
    requires Inv(s, g) && WellFormed(s) && t in s.pc && s.pc[t].Claimed?
    ensures Inv(DeqStep(s, t), g)
  {
    var s' := DeqStep(s, t);
    assert ThreadOk(s, g, t);
    BlockOfIndex(s.pc[t].i, s.tail);
    assert Shapes(s', g) && ThreadOk(s', g, t);
    hide Inv;
    ReaderStep(s, g, s', g, t);
  }

  lemma LoadTailStep(s: State, g: Ghost, t: Thread) returns (g': Ghost)
    requires Inv(s, g) && WellFormed(s) && t in s.pc && s.pc[t].HaveHeader?
    ensures Inv(DeqStep(s, t), g')
    ensures g'.home == g.home && g'.done == g.done && g'.released == g.released
  {
    var s', i, h := DeqStep(s, t), s.pc[t].i, s.pc[t].h;
    assert ThreadOk(s, g, t) && HeaderOk(s, g, h);
    HeldIsUnreleased(s, g, i);
    assert KeyOk(s, g, h, i / BLOCK, g.at[h]);
    g' := g.(seen := g.seen[t := g.at[h]]);
    assert Shapes(s', g') && ThreadOk(s', g', t);
    hide Inv;
    ReaderStep(s, g, s', g', t);
  }

  lemma LoadKeyStep(s: State, g: Ghost, t: Thread)
    requires Inv(s, g) && WellFormed(s) && t in s.pc && s.pc[t].HaveTail?
    ensures Inv(DeqStep(s, t), g)
  {
    var s' := DeqStep(s, t);
    assert ThreadOk(s, g, t);
    assert Shapes(s', g) && ThreadOk(s', g, t);
    hide Inv;
    ReaderStep(s, g, s', g, t);
  }

  /** Whatever has happened to the index since it was loaded, the offset from its tail leads to the block
      that stores the claimed index. */
  lemma Resolves(s: State, g: Ghost, t: Thread)
    requires Inv(s, g) && WellFormed(s) && t in s.pc && s.pc[t].HaveKey?
    ensures var pc := s.pc[t];
      var e := s.headers[pc.h].index[Place(pc.pos + Offset(pc.i, pc.base), s.headers[pc.h].capacity)];
      e == Ent(s, g, Last(s), pc.i / BLOCK) && pc.i / BLOCK in g.home && s.entries[e].value == Some(g.home[pc.i / BLOCK])
      && g.home[pc.i / BLOCK] in s.counter && s.entries[e].key == Some(pc.i / BLOCK * BLOCK)
  {
    hide Place, Offset, Spans;
    var HaveKey(i, h, pos, base) := s.pc[t];
    assert ThreadOk(s, g, t) && HeaderOk(s, g, h);
    var b, v, c := i / BLOCK, g.seen[t], s.headers[h].capacity;
    HeldIsUnreleased(s, g, i);
    assert KeyOk(s, g, h, b, b) && BlockOk(s, g, b);
    OffsetLeads(pos, i, v, c);
    PlaceInside(pos, c);
    PlacesMove(pos, g.phase[h] + v, b - v, c);
  }

  lemma LoadValueStep(s: State, g: Ghost, t: Thread)
    requires Inv(s, g) && WellFormed(s) && t in s.pc && s.pc[t].HaveKey?
    ensures Inv(DeqStep(s, t), g)
  {
    var s' := DeqStep(s, t);
    assert ThreadOk(s, g, t);
    Resolves(s, g, t);
    assert Shapes(s', g) && ThreadOk(s', g, t);
    hide Inv;
    ReaderStep(s, g, s', g, t);
  }

  // --- an element is consumed ---

  // The first n indices of block b.
  ghost function Indices(b: nat, n: nat): set<nat> {
    if n == 0 then {} else Indices(b, n - 1) + {b * BLOCK + n - 1}
  }

  lemma {:induction false} IndicesAre(b: nat, n: nat)
    ensures |Indices(b, n)| == n && forall i :: i in Indices(b, n) <==> b * BLOCK <= i < b * BLOCK + n
  {
    if n > 0 {
      IndicesAre(b, n - 1);
    }
  }

  lemma Subset(a: set<nat>, b: set<nat>)
    requires a <= b
    ensures |a| <= |b| && (|a| == |b| ==> a == b)
  {
    assert b == a + (b - a);
  }

  // A block is consumed exactly when all its indices are.
  lemma DoneBound(g: Ghost, b: nat)
    ensures |DoneIn(g, b)| <= BLOCK
    ensures |DoneIn(g, b)| == BLOCK ==> forall i: nat :: i / BLOCK == b ==> i in g.done
    ensures forall i: nat :: i / BLOCK == b && i !in g.done ==> |DoneIn(g, b)| < BLOCK
  {
    IndicesAre(b, BLOCK);
    var all := Indices(b, BLOCK);
    forall i: nat ensures i / BLOCK == b <==> i in all {}
    assert DoneIn(g, b) <= all;
    Subset(DoneIn(g, b), all);
    forall i: nat | i / BLOCK == b && i !in g.done ensures |DoneIn(g, b)| < BLOCK {
      assert i in all && i !in DoneIn(g, b);
    }
  }

  lemma DoneMore(g: Ghost, g': Ghost, i: nat)
    requires i !in g.done && g' == g.(done := g.done + {i})
    ensures |DoneIn(g', i / BLOCK)| == |DoneIn(g, i / BLOCK)| + 1
    ensures forall c: nat :: c != i / BLOCK ==> DoneIn(g', c) == DoneIn(g, c)
  {
    assert DoneIn(g', i / BLOCK) == DoneIn(g, i / BLOCK) + {i};
  }

  ghost predicate Consumes(s: State, g: Ghost, s': State, g': Ghost, t: Thread) {
    && t in s.pc && s.pc[t].HaveBlock? && s.pc[t].block in s.counter
    && t in s'.pc && s' == s.(counter := s.counter[s.pc[t].block := s.counter[s.pc[t].block] + 1], pc := s.pc[t := s'.pc[t]])
    && s'.pc[t] == (if s.counter[s.pc[t].block] + 1 == BLOCK then Clear(s.pc[t].i, s.pc[t].e, s.pc[t].block) else Idle)
    && g' == g.(done := g.done + {s.pc[t].i})
  }

  lemma DoneRings(s: State, g: Ghost, g': Ghost)
    requires Rings(s, g) && g' == g.(done := g'.done)
    ensures Rings(s, g')
  {
    assert Shapes(s, g');
    forall h {:trigger HeaderOk(s, g', h)} | 0 <= h < |s.headers| ensures HeaderOk(s, g', h) {
      assert HeaderOk(s, g, h);
    }
    forall h, b, c {:trigger KeyOk(s, g', h, b, c)} | 0 <= h < |s.headers| && 0 <= b && 0 <= c ensures KeyOk(s, g', h, b, c) {
      assert KeyOk(s, g, h, b, c);
    }
  }

  lemma ConsumeStored(s: State, g: Ghost, s': State, g': Ghost, t: Thread)
    requires Inv(s, g) && Consumes(s, g, s', g', t) && Shapes(s', g')
    ensures Stored(s', g') && EnqOk(s', g') && Accounted(s', g')
  {
    hide Rings, Ent, DoneIn;
    var i, blk := s.pc[t].i, s.pc[t].block;
    assert ThreadOk(s, g, t);
    HeldIsUnreleased(s, g, i);
    assert BlockOk(s, g, i / BLOCK);
    DoneMore(g, g', i);
    assert forall b: nat :: Unreleased(s', g', b) <==> Unreleased(s, g, b);
    forall b {:trigger BlockOk(s', g', b)} | 0 <= b ensures BlockOk(s', g', b) {
      assert BlockOk(s, g, b) && HomesDiffer(s, g, b, i / BLOCK);
      SameEntDone(s, g, s', g', b);
    }
    forall b, c {:trigger HomesDiffer(s', g', b, c)} | 0 <= b && 0 <= c ensures HomesDiffer(s', g', b, c) {
      assert HomesDiffer(s, g, b, c);
    }
    SameEntDone(s, g, s', g', Blocks(s.tail));
    assert SlotFree(s, g) ==> SlotFree(s', g');
    forall block | Fresh(s, g, block) ensures Fresh(s', g', block) {}
  }

  lemma SameEntDone(s: State, g: Ghost, s': State, g': Ghost, c: int)
    requires Shapes(s, g) && Shapes(s', g') && s'.headers == s.headers && g' == g.(done := g'.done)
    ensures Ent(s', g', Last(s), c) == Ent(s, g, Last(s), c)
  {
  }

  lemma ConsumeOther(s: State, g: Ghost, s': State, g': Ghost, t: Thread, u: Thread)
    requires Shapes(s, g) && Shapes(s', g') && Consumes(s, g, s', g', t) && ThreadOk(s, g, t) && BothOk(s, t, u)
    requires u in s.pc && u != t && ThreadOk(s, g, u)
    ensures u in s'.pc && ThreadOk(s', g', u) && (s.pc[u].Clear? ==> s.pc[u].i / BLOCK != s.pc[t].i / BLOCK)
  {
    hide DoneIn;
    var i := s.pc[t].i;
    DoneMore(g, g', i);
    DoneBound(g, i / BLOCK);
    assert Holds(s.pc[t], i);
  }

  ghost predicate BothOk(s: State, t: Thread, u: Thread) {
    t in s.pc && u in s.pc && PairOk(s, t, u)
  }

  lemma ConsumeStep(s: State, g: Ghost, t: Thread) returns (g': Ghost)
    requires Inv(s, g) && WellFormed(s) && t in s.pc && s.pc[t].HaveBlock?
    ensures Inv(DeqStep(s, t), g')
    ensures g'.home == g.home && g'.done == g.done + {s.pc[t].i} && g'.released == g.released
  {
    var s', i := DeqStep(s, t), s.pc[t].i;
    g' := g.(done := g.done + {i});
    assert ThreadOk(s, g, t);
    assert Consumes(s, g, s', g', t);
    RingsSame(s, s', g);
    DoneRings(s', g, g');
    ConsumeStored(s, g, s', g', t);
    ConsumeSelf(s, g, s', g', t);
    hide Rings, Stored, EnqOk, Accounted;
    forall u {:trigger ThreadOk(s', g', u)} | u in s'.pc ensures ThreadOk(s', g', u) {
      if u != t {
        assert ThreadOk(s, g, u) && PairOk(s, t, u);
        ConsumeOther(s, g, s', g', t, u);
      }
    }
    forall u, w {:trigger PairOk(s', u, w)} | u in s'.pc && w in s'.pc ensures PairOk(s', u, w) {
      assert PairOk(s, u, w) && ThreadOk(s, g, u) && ThreadOk(s, g, w) && PairOk(s, t, u) && PairOk(s, t, w);
      if u != t {
        ConsumeOther(s, g, s', g', t, u);
      }
      if w != t {
        ConsumeOther(s, g, s', g', t, w);
      }
    }
  }

  lemma ConsumeSelf(s: State, g: Ghost, s': State, g': Ghost, t: Thread)
    requires Inv(s, g) && Consumes(s, g, s', g', t) && Shapes(s', g')
    ensures ThreadOk(s', g', t)
  {
    hide Rings, DoneIn;
    var i := s.pc[t].i;
    assert ThreadOk(s, g, t);
    HeldIsUnreleased(s, g, i);
    assert BlockOk(s, g, i / BLOCK);
    DoneMore(g, g', i);
  }

  // --- a block is released ---

  ghost predicate Clears(s: State, g: Ghost, s': State, g': Ghost, t: Thread) {
    && t in s.pc && s.pc[t].Clear? && s.pc[t].e < |s.entries|
    && s' == s.(entries := s.entries[s.pc[t].e := s.entries[s.pc[t].e].(value := None)], pc := s.pc[t := Free(s.pc[t].i, s.pc[t].block)])
    && g' == g.(released := g.released + {s.pc[t].i / BLOCK})
  }

  lemma ClearShapes(s: State, g: Ghost, s': State, g': Ghost, t: Thread)
    requires Shapes(s, g) && Clears(s, g, s', g', t)
    ensures Shapes(s', g') && forall h, c :: 0 <= h < |s.headers| ==> Ent(s', g', h, c) == Ent(s, g, h, c)
    ensures forall b: nat :: Unreleased(s', g', b) <==> Unreleased(s, g, b) && b != s.pc[t].i / BLOCK
    ensures forall b: nat :: DoneIn(g', b) == DoneIn(g, b)
  {
    hide Place;
    forall h | 0 <= h < |s'.headers| ensures HeaderShape(s', s'.headers[h]) {
      assert HeaderShape(s, s.headers[h]);
    }
  }

  lemma ClearRings(s: State, g: Ghost, s': State, g': Ghost, t: Thread)
    requires Rings(s, g) && Clears(s, g, s', g', t)
    ensures Rings(s', g')
  {
    hide Ent, Unreleased;
    ClearShapes(s, g, s', g', t);
    forall h {:trigger HeaderOk(s', g', h)} | 0 <= h < |s'.headers| ensures HeaderOk(s', g', h) {
      assert HeaderOk(s, g, h);
    }
    forall h, b, c {:trigger KeyOk(s', g', h, b, c)} | 0 <= h < |s'.headers| && 0 <= b && 0 <= c ensures KeyOk(s', g', h, b, c) {
      assert KeyOk(s, g, h, b, c);
      EntInside(s, g, h, c);
    }
  }

  // The entries of two blocks that are still there are different.
  lemma UnreleasedDiffer(s: State, g: Ghost, b: nat, c: nat)
    requires Rings(s, g) && Unreleased(s, g, b) && Unreleased(s, g, c) && b != c && b <= g.at[Last(s)] && c <= g.at[Last(s)]
    ensures Ent(s, g, Last(s), b) != Ent(s, g, Last(s), c)
  {
    hide Ent;
    var l := Last(s);
    assert HeaderOk(s, g, l);
    if b < c {
      assert KeyOk(s, g, l, b, c);
      EntDiffer(s, g, l, b, c);
    } else {
      assert KeyOk(s, g, l, c, b);
      EntDiffer(s, g, l, c, b);
    }
  }

  lemma ClearStored(s: State, g: Ghost, s': State, g': Ghost, t: Thread)
    requires Inv(s, g) && Clears(s, g, s', g', t)
    ensures Shapes(s', g') && Stored(s', g')
  {
    hide Ent, DoneIn;
    ClearShapes(s, g, s', g', t);
    var x := s.pc[t].i / BLOCK;
    assert ThreadOk(s, g, t) && BlockOk(s, g, x);
    forall b {:trigger BlockOk(s', g', b)} | 0 <= b ensures BlockOk(s', g', b) {
      assert BlockOk(s, g, b);
      if Unreleased(s', g', b) {
        UnreleasedDiffer(s, g, b, x);
        EntInside(s, g, Last(s), b);
        assert DoneIn(g', b) == DoneIn(g, b);
      }
    }
    forall b, c {:trigger HomesDiffer(s', g', b, c)} | 0 <= b && 0 <= c ensures HomesDiffer(s', g', b, c) {
      assert HomesDiffer(s, g, b, c);
    }
  }

  lemma ClearEnq(s: State, g: Ghost, s': State, g': Ghost, t: Thread)
    requires Inv(s, g) && Clears(s, g, s', g', t) && Shapes(s', g')
    ensures EnqOk(s', g') && Accounted(s', g')
  {
    hide Ent, Rings, DoneIn, Stored;
    ClearShapes(s, g, s', g', t);
    var x, n := s.pc[t].i / BLOCK, Blocks(s.tail);
    assert ThreadOk(s, g, t);
    DoneBound(g, x);
    ClearSlotKept(s, g, s', t);
    forall block | Fresh(s, g, block) ensures Fresh(s', g', block) {}
    assert SlotFree(s, g) ==> SlotFree(s', g');
  }

  // The entry of the next block keeps its key, and its value if it has been stored.
  lemma ClearSlotKept(s: State, g: Ghost, s': State, t: Thread)
    requires Inv(s, g) && t in s.pc && s.pc[t].Clear? && s.pc[t].e < |s.entries|
    requires s'.entries == s.entries[s.pc[t].e := s.entries[s.pc[t].e].(value := None)]
    ensures var e := Ent(s, g, Last(s), Blocks(s.tail));
      && s'.entries[e].key == s.entries[e].key && (s.entries[e].value.None? ==> s'.entries[e].value.None?)
      && (s.enq.Publish? && s.tail % BLOCK == 0 ==> s'.entries[e] == s.entries[e])
  {
    hide Ent;
    var x, n := s.pc[t].i / BLOCK, Blocks(s.tail);
    assert ThreadOk(s, g, t) && HeaderOk(s, g, Last(s));
    EntInside(s, g, Last(s), n);
    if s.enq.Publish? && s.tail % BLOCK == 0 {
      EntDiffer(s, g, Last(s), x, n);
    }
  }

  lemma ClearOther(s: State, g: Ghost, s': State, g': Ghost, t: Thread, u: Thread)
    requires Inv(s, g) && Clears(s, g, s', g', t) && Shapes(s', g') && u in s.pc && u != t
    ensures u in s'.pc && ThreadOk(s', g', u)
  {
    hide Ent, Rings, DoneIn, Stored;
    ClearShapes(s, g, s', g', t);
    ClearPos(s, g, s', g', t);
    assert ThreadOk(s, g, u) && ThreadOk(s, g, t) && PairOk(s, t, u);
    if s.pc[u].HaveTail? {
      EntInside(s, g, s.pc[u].h, g.seen[u]);
    }
  }

  lemma ClearPos(s: State, g: Ghost, s': State, g': Ghost, t: Thread)
    requires Shapes(s, g) && Clears(s, g, s', g', t) && Shapes(s', g')
    ensures forall h, c :: 0 <= h < |s.headers| ==> Pos(s', g', h, c) == Pos(s, g, h, c)
  {
  }

  lemma ClearSelf(s: State, g: Ghost, s': State, g': Ghost, t: Thread)
    requires Inv(s, g) && Clears(s, g, s', g', t) && Shapes(s', g')
    ensures ThreadOk(s', g', t)
  {
    hide Ent, Rings, DoneIn;
    ClearShapes(s, g, s', g', t);
    var x := s.pc[t].i / BLOCK;
    assert ThreadOk(s, g, t) && BlockOk(s, g, x);
    forall c: nat | Unreleased(s', g', c) && c in g'.home ensures g'.home[c] != s.pc[t].block {
      assert HomesDiffer(s, g, x, c);
    }
  }

  lemma ClearStep(s: State, g: Ghost, t: Thread) returns (g': Ghost)
    requires Inv(s, g) && WellFormed(s) && t in s.pc && s.pc[t].Clear?
    ensures Inv(DeqStep(s, t), g')
    ensures g'.home == g.home && g'.done == g.done && g'.released == g.released + {s.pc[t].i / BLOCK}
  {
    var s' := DeqStep(s, t);
    g' := g.(released := g.released + {s.pc[t].i / BLOCK});
    assert Clears(s, g, s', g', t);
    ClearRings(s, g, s', g', t);
    ClearStored(s, g, s', g', t);
    ClearEnq(s, g, s', g', t);
    ClearSelf(s, g, s', g', t);
    hide Rings, Stored, EnqOk, Accounted;
    forall u {:trigger ThreadOk(s', g', u)} | u in s'.pc ensures ThreadOk(s', g', u) {
      if u != t {
        ClearOther(s, g, s', g', t, u);
      }
    }
    forall u, w {:trigger PairOk(s', u, w)} | u in s'.pc && w in s'.pc ensures PairOk(s', u, w) {
      assert PairOk(s, u, w) && ThreadOk(s, g, u) && ThreadOk(s, g, w) && ThreadOk(s, g, t);
    }
  }

  lemma FreeStep(s: State, g: Ghost, t: Thread)
    requires Inv(s, g) && WellFormed(s) && t in s.pc && s.pc[t].Free?
    ensures Inv(DeqStep(s, t), g)
  {
    var s', blk := DeqStep(s, t), s.pc[t].block;
    assert ThreadOk(s, g, t);
    RingsSame(s, s', g);
    forall b {:trigger BlockOk(s', g, b)} | 0 <= b ensures BlockOk(s', g, b) {
      assert BlockOk(s, g, b);
    }
    forall b, c {:trigger HomesDiffer(s', g, b, c)} | 0 <= b && 0 <= c ensures HomesDiffer(s', g, b, c) {
      assert HomesDiffer(s, g, b, c);
    }
    FreeEnq(s, g, s', t);
    hide Rings, Stored, EnqOk, Accounted;
    forall u {:trigger ThreadOk(s', g, u)} | u in s'.pc ensures ThreadOk(s', g, u) {
      assert ThreadOk(s, g, u) && PairOk(s, t, u);
    }
    forall u, w {:trigger PairOk(s', u, w)} | u in s'.pc && w in s'.pc ensures PairOk(s', u, w) {
      assert PairOk(s, u, w);
    }
  }

  lemma FreeEnq(s: State, g: Ghost, s': State, t: Thread)
    requires Shapes(s, g) && EnqOk(s, g) && Accounted(s, g) && t in s.pc && s.pc[t].Free? && Shapes(s', g)
    requires s' == s.(owned := s.owned - {s.pc[t].block}, pc := s.pc[t := Idle])
    ensures EnqOk(s', g) && Accounted(s', g)
  {
    hide Ent;
    assert forall b: nat :: Unreleased(s', g, b) <==> Unreleased(s, g, b);
    SameEnt(s, g, s', Last(s), Blocks(s.tail));
    forall block | Fresh(s, g, block) ensures Fresh(s', g, block) {}
    assert SlotFree(s, g) ==> SlotFree(s', g);
  }

  // ------------------------------------------------------------------
  // Every run
  // ------------------------------------------------------------------

  // What one step adds to the record.
  ghost predicate Records(s: State, g: Ghost, a: Action, g': Ghost)
    requires Enabled(s, a)
  {
    && g'.home == (if a.Enqueue? && s.enq.StoreValue? then g.home[Blocks(s.tail) := s.enq.block] else g.home)
    && g'.done == (if a.Advance? && s.pc[a.t].HaveBlock? then g.done + {s.pc[a.t].i} else g.done)
    && g'.released == (if a.Advance? && s.pc[a.t].Clear? then g.released + {s.pc[a.t].i / BLOCK} else g.released)
  }

  lemma EnqKeepsInv(s: State, g: Ghost, ok: bool, block: Block) returns (g': Ghost)
    requires Inv(s, g) && WellFormed(s) && Enabled(s, Enqueue(ok, block))
    ensures Inv(EnqStep(s, ok, block), g') && Records(s, g, Enqueue(ok, block), g')
  {
    hide Inv, WellFormed, EnqStep;
    g' := g;
    match s.enq
    case Ready => BeginStep(s, g, ok, block);
    case CheckSlot => CheckStep(s, g, ok, block);
    case NewIndex => g' := NewIndexStep(s, g, ok, block);
    case StoreKey => StoreKeyStep(s, g, ok, block);
    case StoreTail => g' := StoreTailStep(s, g, ok, block);
    case Requisition => RequisitionStep(s, g, ok, block);
    case Rewind => g' := RewindStep(s, g, ok, block);
    case ClearSlot(_) => ClearSlotStep(s, g, ok, block);
    case StoreValue(_) => g' := StoreValueStep(s, g, ok, block);
    case Publish => PublishStep(s, g, ok, block);
  }

  lemma NotBroken(s: State, g: Ghost, t: Thread)
    requires Inv(s, g) && t in s.pc
    ensures !s.pc[t].Broken?
  {
    hide Rings, Stored, EnqOk, Accounted;
    assert ThreadOk(s, g, t);
  }

  lemma DeqKeepsInv(s: State, g: Ghost, t: Thread) returns (g': Ghost)
    requires Inv(s, g) && WellFormed(s) && Enabled(s, Advance(t))
    ensures Inv(DeqStep(s, t), g') && Records(s, g, Advance(t), g')
  {
    hide Inv, WellFormed, DeqStep;
    g' := g;
    NotBroken(s, g, t);
    match s.pc[t]
    case Claimed(_) => HeaderStep(s, g, t);
    case HaveHeader(_, _) => g' := LoadTailStep(s, g, t);
    case HaveTail(_, _, _) => LoadKeyStep(s, g, t);
    case HaveKey(_, _, _, _) => LoadValueStep(s, g, t);
    case HaveBlock(_, _, _) => g' := ConsumeStep(s, g, t);
    case Clear(_, _, _) => g' := ClearStep(s, g, t);
    case Free(_, _) => FreeStep(s, g, t);
  }

  lemma KeepsInv(s: State, g: Ghost, a: Action) returns (g': Ghost)
    requires Inv(s, g) && WellFormed(s) && Enabled(s, a)
    ensures Inv(Do(s, a), g') && Records(s, g, a, g')
  {
    hide Inv, WellFormed, EnqStep, DeqStep;
    match a
    case Enqueue(ok, block) => g' := EnqKeepsInv(s, g, ok, block);
    case Claim(t) =>
      ClaimStep(s, g, t);
      g' := g;
    case Advance(t) => g' := DeqKeepsInv(s, g, t);
  }

  // One empty index of the first capacity, all threads idle.
  ghost predicate Initial(s: State) {
    && |s.headers| == 1 && Spans(Cur(s).capacity) && |Cur(s).index| == Cur(s).capacity && Cur(s).tail == Cur(s).capacity - 1
    && |s.entries| == Cur(s).capacity && (forall e :: 0 <= e < |s.entries| ==> s.entries[e] == Entry(None, None))
    && (forall p :: 0 <= p < |Cur(s).index| ==> Cur(s).index[p] == p)
    && s.tail == s.head == 0 && s.counter == map[] && s.owned == {} && s.enq.Ready?
    && forall t :: t in s.pc ==> s.pc[t].Idle?
  }

  ghost function FirstGhost(): Ghost {
    Ghost([0], [-1], map[], {}, {}, map[])
  }

  lemma InitialInv(s: State)
    requires Initial(s)
    ensures Inv(s, FirstGhost())
  {
    hide Place, Spans;
    var g, c := FirstGhost(), Cur(s).capacity;
    var m := SpansLaps(c);
    PlaceIs(-1, c, -1, c - 1);
    assert HeaderShape(s, s.headers[0]);
    assert Pos(s, g, 0, -1) == c - 1;
    assert HeaderOk(s, g, 0);
  }
}
