/** An implicit producer as a whole (deps/concurrentqueue/concurrentqueue.h): the counters that let a dequeuer
    claim an index, and the block index and cells that lead it to the element, in one system. One enqueuer
    and any number of threads that dequeue one element at a time, every interleaving. */
module QueueDelivery {
  import D = DequeueClaims
  import B = BlockIndex
  import C = BlockCells

  type Thread = nat

  // A thread got element e for the index i that it claimed.
  datatype Delivery = Delivery(t: Thread, i: nat, e: nat)

  // owner is who claimed each index; log is what was delivered, in order.
  datatype Queue = Queue(d: D.State, q: C.Queue, owner: map<nat, Thread>, log: seq<Delivery>)

  datatype Action =
    | Enqueue(ok: bool, block: B.Block) // a step of the enqueuer
    | Call(t: Thread)                   // dequeue begins
    | Ask(t: Thread)                    // an access to the counters, up to the claim
    | Take(t: Thread)                   // headIndex.fetch_add
    | Read(t: Thread)                   // an access to the index or the block

  predicate Enabled(s: Queue, a: Action) {
    match a
    case Enqueue(ok, block) => B.Enabled(s.q.core, B.Enqueue(ok, block))
    case Call(t) => t in s.d.pc && s.d.pc[t].Idle? && t in s.q.core.pc && s.q.core.pc[t].Idle?
    case Ask(t) => t in s.d.pc && !s.d.pc[t].Idle? && !s.d.pc[t].Claim?
    case Take(t) => t in s.d.pc && s.d.pc[t].Claim? && B.Enabled(s.q.core, B.Claim(t))
    case Read(t) => B.Enabled(s.q.core, B.Advance(t))
  }

  // The step of the counters, and that of the index and the cells.
  function Counters(s: Queue, a: Action): D.State
    requires Enabled(s, a)
  {
    match a
    case Enqueue(_, _) => if s.q.core.enq.Publish? then D.Do(s.d, D.Publish(1)) else s.d
    case Call(t) => D.Do(s.d, D.Call(t, 1))
    case Ask(t) => D.Do(s.d, D.Advance(t))
    case Take(t) => D.Do(s.d, D.Advance(t))
    case Read(_) => s.d
  }

  ghost predicate Cells(q: C.Queue, a: Action, q': C.Queue) {
    match a
    case Enqueue(ok, block) => C.Follows(q, B.Enqueue(ok, block), q')
    case Take(t) => C.Follows(q, B.Claim(t), q')
    case Read(t) => C.Follows(q, B.Advance(t), q')
    case _ => q' == q
  }

  // The element that a thread finds.
  function Found(q: C.Queue, t: Thread): nat
    requires t in q.core.pc && q.core.pc[t].HaveBlock?
  {
    var c := (q.core.pc[t].block, q.core.pc[t].i % B.BLOCK);
    if c in q.cells then q.cells[c] else 0
  }

  ghost predicate Follows(s: Queue, a: Action, s': Queue) {
    && Enabled(s, a) && s'.d == Counters(s, a) && Cells(s.q, a, s'.q)
    && s'.owner == (if a.Take? then s.owner[s.q.core.head := a.t] else s.owner)
    && s'.log == if a.Read? && s.q.core.pc[a.t].HaveBlock? then s.log + [Delivery(a.t, s.q.core.pc[a.t].i, Found(s.q, a.t))] else s.log
  }

  ghost predicate Begins(s: Queue) {
    D.Initial(s.d) && C.Begins(s.q) && s.d.pc.Keys == s.q.core.pc.Keys && s.owner == map[] && s.log == []
  }

  ghost predicate IsRun(states: seq<Queue>, actions: seq<Action>) {
    && |states| == |actions| + 1 && Begins(states[0])
    && forall i :: 0 <= i < |actions| ==> Follows(states[i], actions[i], states[i + 1])
  }

  // No call is let through by the wrap of the counts (see DequeueClaims).
  predicate Paced(s: Queue, a: Action) {
    a.Ask? && a.t in s.d.pc ==> D.Paced(s.d, s.d.pc[a.t])
  }

  ghost predicate IsPacedRun(states: seq<Queue>, actions: seq<Action>) {
    IsRun(states, actions) && forall i :: 0 <= i < |actions| ==> Paced(states[i], actions[i])
  }

  // ------------------------------------------------------------------
  // The invariant
  // ------------------------------------------------------------------

  // A call asks for one element.
  predicate Single(pc: D.Pc) {
    match pc
    case LoadTail(max) => max == 1
    case LoadOvercommit(max, _) => max == 1
    case LoadOptimistic(max, _, _) => max == 1
    case Reserve(desired, _) => desired == 1
    case ReloadTail(desired, _, _) => desired == 1
    case GiveBack(_, actual, surplus) => actual == 0 && surplus == 1
    case Claim(_, actual) => actual == 1
    case Idle => true
  }

  // A thread is with the counters or with the cells.
  ghost predicate Placed(s: Queue, t: Thread) {
    && t in s.d.pc && t in s.q.core.pc && Single(s.d.pc[t])
    && (!s.d.pc[t].Idle? ==> s.q.core.pc[t].Idle?)
  }

  ghost predicate Linked(s: Queue) {
    && s.d.tail == s.q.core.tail && s.d.head == s.q.core.head && s.d.pc.Keys == s.q.core.pc.Keys
    && forall t {:trigger Placed(s, t)} :: t in s.d.pc ==> Placed(s, t)
  }

  ghost predicate InFlight(s: Queue, i: nat) {
    i in s.owner && s.owner[i] in s.q.core.pc && B.Holds(s.q.core.pc[s.owner[i]], i)
  }

  // What was consumed was delivered, and the rest of what was claimed is with its owner.
  ghost predicate OwnedOk(s: Queue, g: B.Ghost, i: nat) {
    i < s.q.core.head ==> i in s.owner && (i in g.done || InFlight(s, i))
  }

  ghost predicate HolderOk(s: Queue, t: Thread)
    requires t in s.q.core.pc
  {
    forall i :: B.Holds(s.q.core.pc[t], i) ==> i in s.owner && s.owner[i] == t
  }

  ghost predicate LogOk(s: Queue, g: B.Ghost) {
    && (forall k :: 0 <= k < |s.log| ==> s.log[k].e == s.log[k].i && s.log[k].i in g.done && s.log[k].i in s.owner && s.owner[s.log[k].i] == s.log[k].t)
    && (forall j, k :: 0 <= j < k < |s.log| ==> s.log[j].i != s.log[k].i)
    && (forall i :: i in g.done ==> exists k :: 0 <= k < |s.log| && s.log[k].i == i)
  }

  ghost predicate Owners(s: Queue, g: B.Ghost) {
    && (forall i: nat {:trigger OwnedOk(s, g, i)} :: OwnedOk(s, g, i))
    && (forall t {:trigger HolderOk(s, t)} :: t in s.q.core.pc ==> HolderOk(s, t))
    && (forall i :: i in s.owner ==> i < s.q.core.head)
  }

  ghost predicate Inv(s: Queue, fates: seq<D.Fate>, g: B.Ghost) {
    D.Inv(s.d, fates) && C.AllInv(s.q, g) && Linked(s) && Owners(s, g) && LogOk(s, g)
  }

  // ------------------------------------------------------------------
  // The counters
  // ------------------------------------------------------------------

  lemma CountersKept(s: Queue, fates: seq<D.Fate>, a: Action) returns (fates': seq<D.Fate>)
    requires D.Inv(s.d, fates) && Enabled(s, a) && Paced(s, a)
    ensures D.Inv(Counters(s, a), fates')
  {
    hide D.Inv, D.Do;
    fates' := fates;
    match a
    case Enqueue(_, _) =>
      if s.q.core.enq.Publish? {
        fates' := D.KeepsInv(s.d, fates, D.Publish(1));
      }
    case Call(t) => fates' := D.KeepsInv(s.d, fates, D.Call(t, 1));
    case Ask(t) => fates' := D.KeepsInv(s.d, fates, D.Advance(t));
    case Take(t) => fates' := D.KeepsInv(s.d, fates, D.Advance(t));
    case Read(_) =>
  }

  // What a step of the counters does to the tail, the head and the thread.
  lemma CountersAre(s: Queue, a: Action)
    requires Enabled(s, a) && (forall t :: t in s.d.pc ==> Single(s.d.pc[t]))
    ensures var d := Counters(s, a);
      && d.pc.Keys == s.d.pc.Keys && (forall t :: t in d.pc ==> Single(d.pc[t]))
      && d.tail == s.d.tail + (if a.Enqueue? && s.q.core.enq.Publish? then 1 else 0)
      && d.head == s.d.head + (if a.Take? then 1 else 0)
      && (forall t :: t in s.d.pc && ((!a.Call? && !a.Ask? && !a.Take?) || t != a.t) ==> d.pc[t] == s.d.pc[t])
      && (a.Take? ==> d.pc[a.t].Idle?)
  {
    if a.Ask? {
      AskIsSingle(s.d, a.t);
    }
  }

  lemma AskIsSingle(d: D.State, t: Thread)
    requires t in d.pc && !d.pc[t].Idle? && !d.pc[t].Claim? && Single(d.pc[t])
    ensures var d' := D.Access(d, t);
      && d'.tail == d.tail && d'.head == d.head && t in d'.pc && Single(d'.pc[t]) && d'.pc == d.pc[t := d'.pc[t]]
  {
  }

  // A claim finds an element that is published.
  lemma CanTake(s: Queue, fates: seq<D.Fate>, g: B.Ghost, t: Thread)
    requires Inv(s, fates, g) && t in s.d.pc && s.d.pc[t].Claim?
    ensures B.Enabled(s.q.core, B.Claim(t))
  {
    hide C.AllInv, Owners, LogOk, D.Inv;
    assert Placed(s, t);
    ClaimBelowTail(s.d, fates, t);
  }

  lemma ClaimBelowTail(d: D.State, fates: seq<D.Fate>, t: Thread)
    requires D.Inv(d, fates) && t in d.pc && d.pc[t].Claim? && d.pc[t].actual == 1
    ensures d.head < d.tail
  {
    hide D.Inv, D.Covered;
    var after := D.KeepsInv(d, fates, D.Advance(t));
    var d' := D.Do(d, D.Advance(t));
    HeadWithin(d', after);
  }

  lemma HeadWithin(d: D.State, fates: seq<D.Fate>)
    requires D.Inv(d, fates)
    ensures d.head <= d.tail
  {
    D.SpentBelowTail(d, fates, |fates|);
  }

  // ------------------------------------------------------------------
  // The index and the cells
  // ------------------------------------------------------------------

  function CellAction(a: Action): B.Action
    requires !a.Call? && !a.Ask?
  {
    match a
    case Enqueue(ok, block) => B.Enqueue(ok, block)
    case Take(t) => B.Claim(t)
    case Read(t) => B.Advance(t)
  }

  // What a step does to the tail, the head and the threads.
  lemma CellsAre(q: C.Queue, a: Action, q': C.Queue)
    requires Cells(q, a, q') && !a.Call? && !a.Ask?
    ensures var s, s' := q.core, q'.core;
      && s'.tail == s.tail + (if a.Enqueue? && s.enq.Publish? then 1 else 0)
      && s'.head == s.head + (if a.Take? then 1 else 0) && s'.pc.Keys == s.pc.Keys
      && (a.Enqueue? ==> s'.pc == s.pc) && (!a.Enqueue? ==> a.t in s.pc && s'.pc == s.pc[a.t := s'.pc[a.t]])
      && (a.Take? ==> s'.pc[a.t] == B.Claimed(s.head)) && (a.Read? ==> !s.pc[a.t].Idle?)
  {
    hide B.Offset;
    C.Frame(q.core, CellAction(a));
    EnqHead(q.core, a);
  }

  lemma EnqHead(s: B.State, a: Action)
    requires B.WellFormed(s) && !a.Call? && !a.Ask? && B.Enabled(s, CellAction(a))
    ensures a.Enqueue? ==> B.Do(s, CellAction(a)).head == s.head
  {
    hide B.Offset;
  }

  // A thread holds its index until it consumes the element.
  lemma ReadHolds(s: B.State, t: Thread, i: nat)
    requires B.WellFormed(s) && B.Enabled(s, B.Advance(t))
    ensures var pc := B.Do(s, B.Advance(t)).pc;
      && t in pc && (B.Holds(pc[t], i) ==> B.Holds(s.pc[t], i))
      && (B.Holds(s.pc[t], i) && !s.pc[t].HaveBlock? && !pc[t].Broken? ==> B.Holds(pc[t], i))
      && (s.pc[t].HaveBlock? ==> !B.Holds(pc[t], i))
  {
    hide B.Offset;
  }

  // ------------------------------------------------------------------
  // Owners and deliveries
  // ------------------------------------------------------------------

  lemma LinkedKept(s: Queue, a: Action, s': Queue)
    requires Linked(s) && Follows(s, a, s')
    ensures Linked(s')
  {
    hide D.Do, C.Follows, B.Enabled;
    forall t | t in s.d.pc ensures Single(s.d.pc[t]) {
      assert Placed(s, t);
    }
    CountersAre(s, a);
    if !a.Call? && !a.Ask? {
      CellsAre(s.q, a, s'.q);
    }
    forall t {:trigger Placed(s', t)} | t in s'.d.pc ensures Placed(s', t) {
      assert Placed(s, t);
    }
  }

  lemma DoneIs(s: Queue, g: B.Ghost, a: Action, s': Queue) returns (g': B.Ghost)
    requires C.AllInv(s.q, g) && Follows(s, a, s')
    ensures C.AllInv(s'.q, g')
    ensures g'.done == if a.Read? && s.q.core.pc[a.t].HaveBlock? then g.done + {s.q.core.pc[a.t].i} else g.done
  {
    hide C.AllInv, D.Do, C.Follows;
    if a.Call? || a.Ask? {
      g' := g;
    } else {
      g' := C.AllKept(s.q, g, CellAction(a), s'.q);
    }
  }

  lemma FoundIs(q: C.Queue, g: B.Ghost, t: Thread)
    requires C.AllInv(q, g) && t in q.core.pc && q.core.pc[t].HaveBlock?
    ensures Found(q, t) == q.core.pc[t].i && q.core.pc[t].i !in g.done
  {
    C.Parts(q, g);
    hide B.Inv, C.AllInv;
    C.HasBlock(q.core, g, t);
    assert C.Present(q, g, q.core.pc[t].i);
  }

  lemma NotBroken(q: C.Queue, g: B.Ghost, t: Thread)
    requires C.AllInv(q, g) && t in q.core.pc
    ensures !q.core.pc[t].Broken?
  {
    C.Parts(q, g);
    hide B.Inv, C.AllInv;
    B.NotBroken(q.core, g, t);
  }

  lemma OwnedKept(s: Queue, g: B.Ghost, a: Action, s': Queue, g': B.Ghost, i: nat)
    requires C.AllInv(s'.q, g') && Owners(s, g) && Follows(s, a, s') && OwnedOk(s, g, i)
    requires g'.done == if a.Read? && s.q.core.pc[a.t].HaveBlock? then g.done + {s.q.core.pc[a.t].i} else g.done
    ensures OwnedOk(s', g', i)
  {
    hide C.AllInv, D.Do, Owners;
    if !a.Call? && !a.Ask? {
      CellsAre(s.q, a, s'.q);
      if a.Read? {
        ReadHolds(s.q.core, a.t, i);
        NotBroken(s'.q, g', a.t);
      }
    }
  }

  lemma HolderKept(s: Queue, g: B.Ghost, a: Action, s': Queue, t: Thread)
    requires Owners(s, g) && Follows(s, a, s') && t in s'.q.core.pc
    ensures HolderOk(s', t)
  {
    hide D.Do;
    if !a.Call? && !a.Ask? {
      CellsAre(s.q, a, s'.q);
    }
    assert HolderOk(s, t);
    forall i | B.Holds(s'.q.core.pc[t], i) ensures i in s'.owner && s'.owner[i] == t {
      if a.Read? && t == a.t {
        ReadHolds(s.q.core, t, i);
      }
    }
  }

  lemma OwnersKept(s: Queue, g: B.Ghost, a: Action, s': Queue, g': B.Ghost)
    requires C.AllInv(s'.q, g') && Owners(s, g) && Follows(s, a, s')
    requires g'.done == if a.Read? && s.q.core.pc[a.t].HaveBlock? then g.done + {s.q.core.pc[a.t].i} else g.done
    ensures Owners(s', g')
  {
    hide C.AllInv, OwnedOk, HolderOk, D.Do;
    forall i: nat {:trigger OwnedOk(s', g', i)} ensures OwnedOk(s', g', i) {
      assert OwnedOk(s, g, i);
      OwnedKept(s, g, a, s', g', i);
    }
    forall t {:trigger HolderOk(s', t)} | t in s'.q.core.pc ensures HolderOk(s', t) {
      HolderKept(s, g, a, s', t);
    }
    if !a.Call? && !a.Ask? {
      CellsAre(s.q, a, s'.q);
    }
  }

  lemma LogKept(s: Queue, g: B.Ghost, a: Action, s': Queue, g': B.Ghost)
    requires C.AllInv(s.q, g) && Owners(s, g) && LogOk(s, g) && Follows(s, a, s')
    requires g'.done == if a.Read? && s.q.core.pc[a.t].HaveBlock? then g.done + {s.q.core.pc[a.t].i} else g.done
    ensures LogOk(s', g')
  {
    hide C.AllInv, D.Do, Cells, OwnedOk;
    if a.Read? && s.q.core.pc[a.t].HaveBlock? {
      FoundIs(s.q, g, a.t);
      assert HolderOk(s, a.t) && B.Holds(s.q.core.pc[a.t], s.q.core.pc[a.t].i);
      LogMore(s, g, s', g', Delivery(a.t, s.q.core.pc[a.t].i, Found(s.q, a.t)));
    } else {
      LogSame(s, g, s', g');
    }
  }

  lemma LogSame(s: Queue, g: B.Ghost, s': Queue, g': B.Ghost)
    requires LogOk(s, g) && s'.log == s.log && g'.done == g.done
    requires forall i :: i in s.owner && i in g.done ==> i in s'.owner && s'.owner[i] == s.owner[i]
    ensures LogOk(s', g')
  {
  }

  lemma LogMore(s: Queue, g: B.Ghost, s': Queue, g': B.Ghost, x: Delivery)
    requires LogOk(s, g) && s'.log == s.log + [x] && g'.done == g.done + {x.i} && x.i !in g.done && x.e == x.i
    requires s'.owner == s.owner && x.i in s.owner && s.owner[x.i] == x.t
    ensures LogOk(s', g')
  {
    forall i | i in g'.done ensures exists k :: 0 <= k < |s'.log| && s'.log[k].i == i {
      if i == x.i {
        assert s'.log[|s.log|].i == i;
      } else {
        var k :| 0 <= k < |s.log| && s.log[k].i == i;
        assert s'.log[k].i == i;
      }
    }
  }

  /** Every step keeps the invariant. */
  lemma KeepsInv(s: Queue, fates: seq<D.Fate>, g: B.Ghost, a: Action, s': Queue) returns (fates': seq<D.Fate>, g': B.Ghost)
    requires Inv(s, fates, g) && Follows(s, a, s') && Paced(s, a)
    ensures Inv(s', fates', g')
  {
    fates' := CountersKept(s, fates, a);
    g' := DoneIs(s, g, a, s');
    LinkedKept(s, a, s');
    OwnersKept(s, g, a, s', g');
    hide D.Inv, C.AllInv, Linked, Owners, LogOk, Cells;
    LogKept(s, g, a, s', g');
  }

  // ------------------------------------------------------------------
  // Every run
  // ------------------------------------------------------------------

  lemma BeginsOk(s: Queue)
    requires Begins(s)
    ensures Inv(s, [], B.FirstGhost())
  {
    C.BeginsOk(s.q);
    hide C.AllInv;
  }

  lemma {:induction false} RunKeepsInv(states: seq<Queue>, actions: seq<Action>, n: nat) returns (fates: seq<D.Fate>, g: B.Ghost)
    requires IsPacedRun(states, actions) && n < |states|
    ensures Inv(states[n], fates, g)
    decreases n
  {
    hide Inv, Follows, Begins;
    if n == 0 {
      BeginsOk(states[0]);
      fates, g := [], B.FirstGhost();
    } else {
      var f, h := RunKeepsInv(states, actions, n - 1);
      assert Follows(states[n - 1], actions[n - 1], states[n]) && Paced(states[n - 1], actions[n - 1]);
      fates, g := KeepsInv(states[n - 1], f, h, actions[n - 1], states[n]);
    }
  }

  /** Nothing is delivered twice, and what is delivered is the element of the index that its thread claimed. */
  lemma DeliveredOnce(states: seq<Queue>, actions: seq<Action>, n: nat)
    requires IsPacedRun(states, actions) && n < |states|
    ensures var s := states[n];
      && (forall k :: 0 <= k < |s.log| ==> s.log[k].e == s.log[k].i && s.log[k].i in s.owner && s.owner[s.log[k].i] == s.log[k].t)
      && (forall j, k :: 0 <= j < k < |s.log| ==> s.log[j].i != s.log[k].i)
  {
    hide IsPacedRun, D.Inv, C.AllInv, Linked, Owners;
    var fates, g := RunKeepsInv(states, actions, n);
  }

  ghost predicate Delivered(s: Queue, i: nat) {
    exists k :: 0 <= k < |s.log| && s.log[k].i == i
  }

  // The element is in its cell.
  ghost predicate Waiting(s: Queue, i: nat) {
    exists c :: c in s.q.cells && s.q.cells[c] == i
  }

  /** And nothing is lost: an element that was published has been delivered, is with the thread that claimed it, or
      waits in the queue; with no call in flight, exactly those below headIndex have been delivered. */
  lemma NothingLost(states: seq<Queue>, actions: seq<Action>, n: nat, i: nat)
    requires IsPacedRun(states, actions) && n < |states| && i < states[n].q.core.tail
    ensures Delivered(states[n], i) <==> !Waiting(states[n], i)
    ensures Delivered(states[n], i) || InFlight(states[n], i) || i >= states[n].q.core.head
    ensures (forall t :: t in states[n].q.core.pc ==> states[n].q.core.pc[t].Idle?) ==> (Delivered(states[n], i) <==> i < states[n].q.core.head)
  {
    hide IsPacedRun, D.Inv, Linked;
    var s := states[n];
    var fates, g := RunKeepsInv(states, actions, n);
    DoneIsDelivered(s, g, i);
    C.Parts(s.q, g);
    hide C.AllInv, LogOk;
    CellsHold(s.q, g, i);
    assert OwnedOk(s, g, i);
    DoneBelowHead(s.q.core, g, i);
  }

  lemma DoneIsDelivered(s: Queue, g: B.Ghost, i: nat)
    requires LogOk(s, g)
    ensures i in g.done <==> Delivered(s, i)
  {
  }

  lemma CellsHold(q: C.Queue, g: B.Ghost, i: nat)
    requires C.CellsOk(q, g) && i < q.core.tail
    ensures i in g.done <==> !exists c :: c in q.cells && q.cells[c] == i
  {
    if i !in g.done {
      assert C.Present(q, g, i);
      var c: C.Cell := (g.home[i / B.BLOCK], i % B.BLOCK);
      assert c in q.cells && q.cells[c] == i;
    } else if c :| c in q.cells && q.cells[c] == i {
      assert C.CellOk(q, g, c);
    }
  }

  lemma DoneBelowHead(s: B.State, g: B.Ghost, i: nat)
    requires B.Inv(s, g)
    ensures i in g.done ==> i < s.head
  {
    hide B.Rings, B.Stored, B.EnqOk, B.Readers;
  }

  /** A thread that may claim can: every step of the counters and of the cells that is possible is part of a run. */
  lemma GoesOn(states: seq<Queue>, actions: seq<Action>, n: nat, t: Thread)
    requires IsPacedRun(states, actions) && n < |states| && t in states[n].d.pc && states[n].d.pc[t].Claim?
    ensures Enabled(states[n], Take(t))
  {
    hide IsPacedRun, Inv;
    var fates, g := RunKeepsInv(states, actions, n);
    CanTake(states[n], fates, g, t);
  }

  // The tickets of a thread are among those drawn.
  lemma PacedByTickets(s: Queue, fates: seq<D.Fate>, a: Action)
    requires D.Inv(s.d, fates) && Enabled(s, a) && s.d.optimistic <= D.HALF
    ensures Paced(s, a)
  {
    if a.Ask? && s.d.pc[a.t].ReloadTail? {
      assert D.ThreadOk(s.d, fates, s.d.pc[a.t]);
    }
  }

  /** A run that has drawn at most 2^63 tickets is paced. */
  lemma {:induction false} FewTickets(states: seq<Queue>, actions: seq<Action>)
    requires IsRun(states, actions) && forall i :: 0 <= i < |states| ==> states[i].d.optimistic <= D.HALF
    ensures IsPacedRun(states, actions)
    decreases |actions|
  {
    hide Follows, Begins, Paced, Inv;
    var n := |actions|;
    if n > 0 {
      var ss, aa := states[..n], actions[..n - 1];
      forall i | 0 <= i < |aa| ensures Follows(ss[i], aa[i], ss[i + 1]) {
        assert Follows(states[i], actions[i], states[i + 1]);
      }
      FewTickets(ss, aa);
      var fates, g := RunKeepsInv(ss, aa, n - 1);
      assert Follows(states[n - 1], actions[n - 1], states[n]);
      InvParts(ss[n - 1], fates, g, actions[n - 1], states[n]);
      PacedByTickets(states[n - 1], fates, actions[n - 1]);
      forall i | 0 <= i < n ensures Paced(states[i], actions[i]) {
        if i < n - 1 {
          assert Paced(ss[i], aa[i]);
        }
      }
    }
  }

  lemma InvParts(s: Queue, fates: seq<D.Fate>, g: B.Ghost, a: Action, s': Queue)
    requires Inv(s, fates, g) && Follows(s, a, s')
    ensures D.Inv(s.d, fates) && Enabled(s, a)
  {
  }


  // ------------------------------------------------------------------
  // When a dequeue fails, and when it does not
  // ------------------------------------------------------------------

  // What a step is to the counters.
  function CounterAction(s: Queue, a: Action): D.Action {
    match a
    case Enqueue(_, _) => D.Publish(if s.q.core.enq.Publish? then 1 else 0)
    case Call(t) => D.Call(t, 1)
    case Ask(t) => D.Advance(t)
    case Take(t) => D.Advance(t)
    case Read(_) => D.Publish(0)
  }

  ghost function CounterStates(states: seq<Queue>): (ds: seq<D.State>)
    ensures |ds| == |states| && forall i :: 0 <= i < |states| ==> ds[i] == states[i].d
  {
    seq(|states|, i requires 0 <= i < |states| => states[i].d)
  }

  ghost function CounterActions(states: seq<Queue>, actions: seq<Action>): (da: seq<D.Action>)
    requires |actions| <= |states|
    ensures |da| == |actions| && forall i :: 0 <= i < |actions| ==> da[i] == CounterAction(states[i], actions[i])
  {
    seq(|actions|, i requires 0 <= i < |actions| => CounterAction(states[i], actions[i]))
  }

  lemma CounterStep(s: Queue, a: Action, s': Queue)
    requires Follows(s, a, s')
    ensures D.Enabled(s.d, CounterAction(s, a)) && s'.d == D.Do(s.d, CounterAction(s, a))
    ensures Paced(s, a) ==> D.PacedStep(s.d, CounterAction(s, a))
  {
    hide Cells, D.Word;
  }

  // The counters of a run are a run of the counters.
  lemma Projects(states: seq<Queue>, actions: seq<Action>)
    requires IsRun(states, actions)
    ensures D.IsRun(CounterStates(states), CounterActions(states, actions))
    ensures IsPacedRun(states, actions) ==> D.IsPacedRun(CounterStates(states), CounterActions(states, actions))
  {
    var ds, da := CounterStates(states), CounterActions(states, actions);
    assert D.Initial(ds[0]) by {
      assert Begins(states[0]);
    }
    hide Begins, D.Initial, D.Do;
    forall i | 0 <= i < |da| ensures D.Enabled(ds[i], da[i]) && ds[i + 1] == D.Do(ds[i], da[i]) {
      assert Follows(states[i], actions[i], states[i + 1]);
      CounterStep(states[i], actions[i], states[i + 1]);
    }
    if IsPacedRun(states, actions) {
      forall i | 0 <= i < |da| ensures D.PacedStep(ds[i], da[i]) {
        assert Follows(states[i], actions[i], states[i + 1]) && Paced(states[i], actions[i]);
        CounterStep(states[i], actions[i], states[i + 1]);
      }
    }
  }

  // How many elements are left, modulo 2^64, by counts of these states.
  predicate NothingLeft(states: seq<Queue>, a: nat, b: nat, c: nat)
    requires a < |states| && b < |states| && c < |states|
  {
    var left := (states[a].d.tail - (states[c].d.optimistic - states[b].d.overcommit)) % 0x1_0000_0000_0000_0000;
    !(0 < left < 0x8000_0000_0000_0000)
  }

  /** A dequeue that takes no index has loaded counts by which nothing was left, for its first test or its second. */
  lemma DequeueFails(states: seq<Queue>, actions: seq<Action>, t: Thread, j: nat, i: nat) returns (a: nat, b: nat, c: nat)
    requires IsRun(states, actions) && j < i < |actions| && actions[j] == Call(t) && actions[i] != Take(t)
    requires forall m :: j < m <= i ==> t in states[m].d.pc && !states[m].d.pc[t].Idle?
    requires t in states[i + 1].d.pc && states[i + 1].d.pc[t].Idle?
    ensures (j < a < b < c <= i || j < b < c < a <= i) && NothingLeft(states, a, b, c)
  {
    hide IsRun, D.IsRun, Follows, IsPacedRun;
    FollowsIn(states, actions, i);
    FollowsIn(states, actions, j);
    Projects(states, actions);
    var ds, da := CounterStates(states), CounterActions(states, actions);
    AsksOn(states[i], actions[i], states[i + 1], t);
    a, b, c := D.TakesNothing(ds, da, t, 1, j, i);
  }

  lemma FollowsIn(states: seq<Queue>, actions: seq<Action>, n: nat)
    requires IsRun(states, actions) && n < |actions|
    ensures |states| == |actions| + 1 && Follows(states[n], actions[n], states[n + 1])
  {
  }

  lemma AsksOn(s: Queue, a: Action, s': Queue, t: Thread)
    requires Follows(s, a, s') && a != Take(t) && t in s.d.pc && !s.d.pc[t].Idle? && t in s'.d.pc && s'.d.pc[t].Idle?
    ensures !s.d.pc[t].Claim?
  {
    hide Cells;
  }

  // How many reads a thread is from its element.
  function Stage(pc: B.Pc): nat {
    match pc
    case Claimed(_) => 5
    case HaveHeader(_, _) => 4
    case HaveTail(_, _, _) => 3
    case HaveKey(_, _, _, _) => 2
    case HaveBlock(_, _, _) => 1
    case _ => 0
  }

  /** A thread that has claimed an index gets its element with its fifth read, whatever else happens. */
  lemma ReadGoesOn(states: seq<Queue>, actions: seq<Action>, n: nat, t: Thread)
    requires IsPacedRun(states, actions) && n < |actions| && actions[n] == Read(t)
    requires t in states[n].q.core.pc && Stage(states[n].q.core.pc[t]) > 0
    ensures var s, s' := states[n], states[n + 1]; var pc := s.q.core.pc[t];
      && t in s'.q.core.pc
      && (Stage(pc) > 1 ==> Stage(s'.q.core.pc[t]) == Stage(pc) - 1 && s'.q.core.pc[t].i == pc.i && s'.log == s.log)
      && (Stage(pc) == 1 ==> s'.log == s.log + [Delivery(t, pc.i, pc.i)])
  {
    hide IsPacedRun, Inv, Follows;
    RunLength(states, actions);
    var fates, g := RunKeepsInv(states, actions, n);
    var fates', g' := RunKeepsInv(states, actions, n + 1);
    FollowsAt(states, actions, n);
    CellsInv(states[n], fates, g);
    CellsInv(states[n + 1], fates', g');
    ReadEffect(states[n], g, states[n + 1], g', t);
  }

  lemma RunLength(states: seq<Queue>, actions: seq<Action>)
    requires IsPacedRun(states, actions)
    ensures |states| == |actions| + 1
  {
  }

  lemma CellsInv(s: Queue, fates: seq<D.Fate>, g: B.Ghost)
    requires Inv(s, fates, g)
    ensures C.AllInv(s.q, g)
  {
  }

  lemma ReadEffect(s: Queue, g: B.Ghost, s': Queue, g': B.Ghost, t: Thread)
    requires C.AllInv(s.q, g) && C.AllInv(s'.q, g') && Follows(s, Read(t), s')
    requires t in s.q.core.pc && Stage(s.q.core.pc[t]) > 0
    ensures var pc := s.q.core.pc[t];
      && t in s'.q.core.pc
      && (Stage(pc) > 1 ==> Stage(s'.q.core.pc[t]) == Stage(pc) - 1 && s'.q.core.pc[t].i == pc.i && s'.log == s.log)
      && (Stage(pc) == 1 ==> s'.log == s.log + [Delivery(t, pc.i, pc.i)])
  {
    hide Follows, C.AllInv, B.Do;
    ReadIs(s, t, s');
    if s.q.core.pc[t].HaveBlock? {
      FoundIs(s.q, g, t);
    } else {
      ReadStep(s.q.core, t);
      NotBroken(s'.q, g', t);
    }
  }

  lemma ReadIs(s: Queue, t: Thread, s': Queue)
    requires Follows(s, Read(t), s')
    ensures B.WellFormed(s.q.core) && B.Enabled(s.q.core, B.Advance(t)) && s'.q.core == B.Do(s.q.core, B.Advance(t)) && t in s'.q.core.pc
    ensures s'.log == if s.q.core.pc[t].HaveBlock? then s.log + [Delivery(t, s.q.core.pc[t].i, Found(s.q, t))] else s.log
  {
    CellsAre(s.q, Read(t), s'.q);
    hide B.Do;
  }

  lemma ReadStep(s: B.State, t: Thread)
    requires B.WellFormed(s) && B.Enabled(s, B.Advance(t)) && Stage(s.pc[t]) > 1
    ensures var pc := B.Do(s, B.Advance(t)).pc;
      t in pc && (pc[t].Broken? || (Stage(pc[t]) == Stage(s.pc[t]) - 1 && pc[t].i == s.pc[t].i))
  {
    hide B.Offset;
  }

  // From state n on, thread t calls dequeue and makes k accesses, and nobody else does anything.
  ghost predicate AloneDequeues(states: seq<Queue>, actions: seq<Action>, n: nat, t: Thread, k: nat) {
    && IsPacedRun(states, actions) && n + k < |actions| == |states| - 1 && actions[n] == Call(t)
    && (forall u :: u in states[n].d.pc ==> states[n].d.pc[u].Idle?)
    && forall m :: n < m <= n + k ==> (actions[m].Ask? || actions[m].Take? || actions[m].Read?) && actions[m].t == t
  }

  // Where it has come to.
  ghost predicate DequeueAt(s: Queue, s': Queue, t: Thread, k: nat) {
    if k < 6 then s'.q == s.q && s'.log == s.log && t in s'.d.pc && !s'.d.pc[t].Idle? && (s'.d.pc[t].Claim? <==> k == 5)
    else if k < 11 then
      && s'.log == s.log && t in s'.d.pc && s'.d.pc[t].Idle?
      && t in s'.q.core.pc && Stage(s'.q.core.pc[t]) == 11 - k && s'.q.core.pc[t].i == s.q.core.head
    else s'.log == s.log + [Delivery(t, s.q.core.head, s.q.core.head)]
  }


  lemma SomeWait(states: seq<Queue>, actions: seq<Action>, n: nat)
    requires IsPacedRun(states, actions) && n < |states| && states[n].q.core.head < states[n].q.core.tail
    ensures states[n].d.head == states[n].q.core.head && D.SomeLeft(D.Waiting(states[n].d))
  {
    hide IsPacedRun, D.Inv, Owners, LogOk;
    var s := states[n];
    var fates, g := RunKeepsInv(states, actions, n);
    C.Parts(s.q, g);
    hide C.AllInv, B.Inv;
    assert s.q.core.tail - s.q.core.head < B.HALF;
  }

  // The accesses up to the claim.
  lemma {:induction false} AloneAsks(states: seq<Queue>, actions: seq<Action>, n: nat, t: Thread, k: nat)
    requires AloneDequeues(states, actions, n, t, k) && states[n].q.core.head < states[n].q.core.tail && k <= 5
    ensures DequeueAt(states[n], states[n + 1 + k], t, k) && forall m :: n < m <= n + k ==> actions[m] == Ask(t)
    decreases k
  {
    hide IsPacedRun, Follows;
    FollowsAt(states, actions, n);
    CallIs(states[n], t, states[n + 1]);
    if k > 0 {
      AloneAsks(states, actions, n, t, k - 1);
      FollowsAt(states, actions, n + k);
      OnlyAsks(states[n + k], actions[n + k], states[n + k + 1], t);
    }
    CountersAlone(states, actions, n, t, k);
  }

  lemma CallIs(s: Queue, t: Thread, s': Queue)
    requires Follows(s, Call(t), s')
    ensures s'.q == s.q && s'.log == s.log && t in s.q.core.pc && s.q.core.pc[t].Idle?
  {
  }

  lemma OnlyAsks(s: Queue, a: Action, s': Queue, t: Thread)
    requires Follows(s, a, s') && (a.Ask? || a.Take? || a.Read?) && a.t == t && t in s.d.pc && !s.d.pc[t].Claim?
    requires t in s.q.core.pc ==> s.q.core.pc[t].Idle?
    ensures a == Ask(t) && s'.q == s.q && s'.log == s.log
  {
  }

  lemma FollowsAt(states: seq<Queue>, actions: seq<Action>, n: nat)
    requires IsPacedRun(states, actions) && n < |actions|
    ensures Follows(states[n], actions[n], states[n + 1])
  {
  }

  lemma CountersAlone(states: seq<Queue>, actions: seq<Action>, n: nat, t: Thread, k: nat)
    requires AloneDequeues(states, actions, n, t, k) && states[n].q.core.head < states[n].q.core.tail && k <= 5
    requires forall m :: n < m <= n + k ==> actions[m] == Ask(t)
    ensures t in states[n + 1 + k].d.pc && !states[n + 1 + k].d.pc[t].Idle? && (states[n + 1 + k].d.pc[t].Claim? <==> k == 5)
  {
    SomeWait(states, actions, n);
    Projects(states, actions);
    var ds, da := CounterStates(states), CounterActions(states, actions);
    hide IsRun, IsPacedRun, D.IsRun, D.IsPacedRun;
    D.AloneReaches(ds, da, n, t, 1, k);
  }

  /** Alone, a dequeue from a queue that is not empty goes on for eleven accesses, and with the last it delivers the element
      at headIndex. */
  lemma {:induction false} QuietDequeue(states: seq<Queue>, actions: seq<Action>, n: nat, t: Thread, k: nat)
    requires AloneDequeues(states, actions, n, t, k) && states[n].q.core.head < states[n].q.core.tail && k <= 11
    ensures DequeueAt(states[n], states[n + 1 + k], t, k)
    decreases k
  {
    hide IsPacedRun, Follows;
    if k <= 5 {
      AloneAsks(states, actions, n, t, k);
    } else {
      QuietDequeue(states, actions, n, t, k - 1);
      FollowsAt(states, actions, n + k);
      if k == 6 {
        AloneAsks(states, actions, n, t, 5);
        OnlyTakes(states, actions, n, t);
      } else {
        OnlyReads(states[n + k], actions[n + k], states[n + k + 1], t);
        ReadGoesOn(states, actions, n + k, t);
      }
    }
  }

  lemma OnlyTakes(states: seq<Queue>, actions: seq<Action>, n: nat, t: Thread)
    requires AloneDequeues(states, actions, n, t, 6) && states[n].q.core.head < states[n].q.core.tail
    requires DequeueAt(states[n], states[n + 6], t, 5)
    ensures DequeueAt(states[n], states[n + 7], t, 6)
  {
    FollowsAt(states, actions, n);
    FollowsAt(states, actions, n + 6);
    hide IsPacedRun;
    CallIs(states[n], t, states[n + 1]);
    var s, s' := states[n + 6], states[n + 7];
    assert actions[n + 6] == Take(t);
    CellsAre(s.q, Take(t), s'.q);
  }

  lemma OnlyReads(s: Queue, a: Action, s': Queue, t: Thread)
    requires Follows(s, a, s') && (a.Ask? || a.Take? || a.Read?) && a.t == t && t in s.d.pc && s.d.pc[t].Idle?
    ensures a == Read(t) && s'.d == s.d
  {
  }
}
