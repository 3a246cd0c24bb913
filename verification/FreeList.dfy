/** The reference-counted lock-free free list of the concurrent queue
    (deps/concurrentqueue/concurrentqueue.h, struct FreeList), as a transition
    system: each step of a thread is one atomic access, and any interleaving of
    any number of threads is a run. */
module FreeList {

  type Node = nat
  type Thread = nat

  datatype Option<+T> = None | Some(value: T)

  // The two parts of a freeListRefs word.
  const SHOULD_BE_ON_FREELIST: nat := 0x8000_0000
  const REFS_MODULUS: nat := 0x8000_0000
  const WORD: nat := 0x1_0000_0000

  // The reference count has 31 bits, and a node can carry one reference per thread and two more.
  const MAX_THREADS: nat := 0x7FFF_FFFE

  // What a thread does when add_knowing_refcount_is_zero returns: add() is over, or
  // try_get() goes on with the list head it saw last.
  datatype Continuation = Finish | Resume(seen: Option<Node>)

  // The next atomic access of a thread, with the local variables it still needs.
  datatype Pc =
    | Idle
    | AddFlag(n: Node)                                          // add: fetch_add of the bit
    | PutLoad(n: Node, k: Continuation)                         // load freeListHead
    | PutNext(n: Node, seen: Option<Node>, k: Continuation)     // store freeListNext
    | PutRefs(n: Node, seen: Option<Node>, k: Continuation)     // store 1 in freeListRefs
    | PutCas(n: Node, seen: Option<Node>, k: Continuation)      // CAS freeListHead
    | PutUndo(n: Node, seen: Option<Node>, k: Continuation)     // fetch_add(bit - 1)
    | GetLoad                                                   // try_get: load freeListHead
    | GetRefs(n: Node)                                          // load freeListRefs
    | GetInc(n: Node, word: nat)                                // CAS freeListRefs
    | GetNext(n: Node)                                          // load freeListNext
    | GetCas(n: Node, next: Option<Node>)                       // CAS freeListHead
    | GetTake(n: Node)                                          // fetch_add(-2), return the node
    | GetDrop(n: Node, seen: Option<Node>)                      // fetch_add(-1)

  // held: the nodes that clients own, that is, that no call of the free list is working on.
  datatype State = State(
    head: Option<Node>,
    refs: map<Node, nat>,
    next: map<Node, Option<Node>>,
    held: set<Node>,
    pc: map<Thread, Pc>)

  datatype Action =
    | Create(n: Node)                   // a client makes a node (fields zero and null)
    | CallAdd(t: Thread, n: Node)
    | CallTryGet(t: Thread)
    | Advance(t: Thread)

  ghost predicate Initial(s: State) {
    && s.head.None? && s.refs == map[] && s.next == map[] && s.held == {}
    && |s.pc| <= MAX_THREADS
    && forall t :: t in s.pc ==> s.pc[t].Idle?
  }

  // Clients only add nodes that they hold, and a thread makes one call at a time.
  predicate Enabled(s: State, a: Action) {
    match a
    case Create(n) => n !in s.refs
    case CallAdd(t, n) => t in s.pc && s.pc[t].Idle? && n in s.held
    case CallTryGet(t) => t in s.pc && s.pc[t].Idle?
    case Advance(t) => t in s.pc && !s.pc[t].Idle?
  }

  // Unsigned 32-bit addition, as fetch_add does it.
  function Add32(word: nat, delta: int): (r: nat) {
    (word + delta) % WORD
  }

  function Loop(seen: Option<Node>): Pc {
    if seen.None? then Idle else GetRefs(seen.value)
  }

  function Return(k: Continuation): Pc {
    match k
    case Finish => Idle
    case Resume(seen) => Loop(seen)
  }

  // The node whose fields the next access of the thread touches.
  predicate Touches(pc: Pc, n: Node) {
    !pc.Idle? && !pc.GetLoad? && pc.n == n
  }

  ghost predicate WellFormed(s: State) {
    && s.refs.Keys == s.next.Keys
    && s.held <= s.refs.Keys
    && forall t, n :: t in s.pc && Touches(s.pc[t], n) ==> n in s.refs
  }

  // One atomic access of thread t.
  function Access(s: State, t: Thread): State
    requires t in s.pc && !s.pc[t].Idle?
    requires forall n :: Touches(s.pc[t], n) ==> n in s.refs && n in s.next
  {
    match s.pc[t]
    case AddFlag(n) =>
      assert Touches(s.pc[t], n);
      s.(refs := s.refs[n := Add32(s.refs[n], SHOULD_BE_ON_FREELIST)],
         pc := s.pc[t := if s.refs[n] == 0 then PutLoad(n, Finish) else Idle])
    case PutLoad(n, k) =>
      s.(pc := s.pc[t := PutNext(n, s.head, k)])
    case PutNext(n, seen, k) =>
      s.(next := s.next[n := seen], pc := s.pc[t := PutRefs(n, seen, k)])
    case PutRefs(n, seen, k) =>
      s.(refs := s.refs[n := 1], pc := s.pc[t := PutCas(n, seen, k)])
    case PutCas(n, seen, k) =>
      if s.head == seen then
        s.(head := Some(n), pc := s.pc[t := Return(k)])
      else
        s.(pc := s.pc[t := PutUndo(n, s.head, k)])
    case PutUndo(n, seen, k) =>
      assert Touches(s.pc[t], n);
      s.(refs := s.refs[n := Add32(s.refs[n], SHOULD_BE_ON_FREELIST - 1)],
         pc := s.pc[t := if s.refs[n] == 1 then PutNext(n, seen, k) else Return(k)])
    case GetLoad =>
      s.(pc := s.pc[t := Loop(s.head)])
    case GetRefs(n) =>
      assert Touches(s.pc[t], n);
      s.(pc := s.pc[t := if s.refs[n] % REFS_MODULUS == 0 then GetLoad else GetInc(n, s.refs[n])])
    case GetInc(n, word) =>
      assert Touches(s.pc[t], n);
      if s.refs[n] == word then
        s.(refs := s.refs[n := Add32(word, 1)], pc := s.pc[t := GetNext(n)])
      else
        s.(pc := s.pc[t := GetLoad])
    case GetNext(n) =>
      assert Touches(s.pc[t], n);
      s.(pc := s.pc[t := GetCas(n, s.next[n])])
    case GetCas(n, next) =>
      if s.head == Some(n) then
        s.(head := next, pc := s.pc[t := GetTake(n)])
      else
        s.(pc := s.pc[t := GetDrop(n, s.head)])
    case GetTake(n) =>
      assert Touches(s.pc[t], n);
      s.(refs := s.refs[n := Add32(s.refs[n], -2)], held := s.held + {n}, pc := s.pc[t := Idle])
    case GetDrop(n, seen) =>
      assert Touches(s.pc[t], n);
      s.(refs := s.refs[n := Add32(s.refs[n], -1)],
         pc := s.pc[t := if s.refs[n] == SHOULD_BE_ON_FREELIST + 1 then PutLoad(n, Resume(seen)) else Loop(seen)])
  }

  function Do(s: State, a: Action): State
    requires Enabled(s, a)
    requires a.Advance? ==> forall n :: Touches(s.pc[a.t], n) ==> n in s.refs && n in s.next
  {
    match a
    case Create(n) => s.(refs := s.refs[n := 0], next := s.next[n := None], held := s.held + {n})
    case CallAdd(t, n) => s.(held := s.held - {n}, pc := s.pc[t := AddFlag(n)])
    case CallTryGet(t) => s.(pc := s.pc[t := GetLoad])
    case Advance(t) => Access(s, t)
  }

  // A run: consecutive states, each reached from the one before by an enabled action.
  ghost predicate IsRun(states: seq<State>, actions: seq<Action>) {
    && |states| == |actions| + 1
    && Initial(states[0])
    && forall i :: 0 <= i < |actions| ==> Follows(states[i], actions[i], states[i + 1])
  }

  ghost predicate Follows(s: State, a: Action, s': State) {
    WellFormed(s) && Enabled(s, a) && s' == Do(s, a)
  }

  // ------------------------------------------------------------------
  // The invariant
  // ------------------------------------------------------------------

  // Who answers for a node: a client, the list, the last thread to drop its reference
  // (an add that is pending), or the thread that is adding or taking it right now.
  datatype Owner = Client | Listed | Pending | Working(t: Thread)

  // users: for each node, the threads that count in its reference word.
  datatype Ghost = Ghost(list: seq<Node>, owner: map<Node, Owner>, users: map<Node, set<Thread>>)

  predicate Counted(pc: Pc, n: Node) {
    (pc.GetNext? || pc.GetCas? || pc.GetDrop?) && pc.n == n
  }

  predicate Owns(pc: Pc, n: Node) {
    (pc.AddFlag? || pc.PutLoad? || pc.PutNext? || pc.PutRefs? || pc.PutCas? || pc.PutUndo? || pc.GetTake?) && pc.n == n
  }

  // No thread may use a node whose link is being written.
  predicate Private(pc: Pc) {
    pc.PutLoad? || pc.PutNext? || pc.PutRefs?
  }

  // The part of a node's reference word that is not users.
  function Base(pc: map<Thread, Pc>, o: Owner): nat {
    match o
    case Client => 0
    case Listed => 1
    case Pending => SHOULD_BE_ON_FREELIST
    case Working(t) =>
      if t !in pc || pc[t].AddFlag? then 0
      else if Private(pc[t]) then SHOULD_BE_ON_FREELIST
      else if pc[t].GetTake? then 2 else 1
  }

  // The node at position i, or null past the end of the list.
  function At(list: seq<Node>, i: nat): Option<Node> {
    if i < |list| then Some(list[i]) else None
  }

  ghost predicate ListOk(s: State, g: Ghost) {
    && s.head == At(g.list, 0)
    && (forall i :: 0 <= i < |g.list| ==>
        && g.list[i] in s.next && g.list[i] in g.owner && g.owner[g.list[i]].Listed?
        && s.next[g.list[i]] == At(g.list, i + 1))
    && (forall i, j :: 0 <= i < j < |g.list| ==> g.list[i] != g.list[j])
  }

  // What holds of a node, given who answers for it.
  ghost predicate NodeOk(s: State, g: Ghost, n: Node)
    requires n in s.refs && n in g.owner && n in g.users
  {
    var o, users := g.owner[n], g.users[n];
    && s.refs[n] == Base(s.pc, o) + |users|
    && (n in s.held <==> o.Client?)
    && (n in g.list <==> o.Listed?)
    && (o.Pending? ==> users != {})
    && (o.Working? ==> o.t in s.pc && Owns(s.pc[o.t], n) && (Private(s.pc[o.t]) ==> users == {}))
    && (forall t :: t in users <==> t in s.pc && Counted(s.pc[t], n))
  }

  ghost predicate Known(s: State, n: Option<Node>) {
    n.Some? ==> n.value in s.refs
  }

  ghost predicate KnownAll(s: State, pc: Pc) {
    && (pc.PutNext? || pc.PutRefs? || pc.PutCas? || pc.PutUndo? || pc.GetDrop? ==> Known(s, pc.seen))
    && (pc.PutLoad? || pc.PutNext? || pc.PutRefs? || pc.PutCas? || pc.PutUndo? ==>
        pc.k.Resume? ==> Known(s, pc.k.seen))
  }

  ghost predicate ThreadOk(s: State, g: Ghost, t: Thread)
    requires t in s.pc
  {
    var pc := s.pc[t];
    && KnownAll(s, pc)
    && (!pc.Idle? && !pc.GetLoad? ==>
        && pc.n in s.refs && pc.n in s.next && pc.n in g.owner
        && (Owns(pc, pc.n) ==> g.owner[pc.n] == Working(t))
        && (pc.PutRefs? || pc.PutCas? ==> s.next[pc.n] == pc.seen)
        && (pc.GetCas? ==> s.next[pc.n] == pc.next)
        && (pc.GetInc? ==> pc.word % REFS_MODULUS != 0))
  }

  ghost predicate Domains(s: State, g: Ghost) {
    && s.refs.Keys == s.next.Keys == g.owner.Keys == g.users.Keys
    && s.held <= s.refs.Keys
    && |s.pc| <= MAX_THREADS
  }

  ghost predicate NodesOk(s: State, g: Ghost)
    requires Domains(s, g)
  {
    forall n :: n in s.refs ==> NodeOk(s, g, n)
  }

  ghost predicate ThreadsOk(s: State, g: Ghost) {
    forall t :: t in s.pc ==> ThreadOk(s, g, t)
  }

  ghost predicate Inv(s: State, g: Ghost) {
    Domains(s, g) && ListOk(s, g) && NodesOk(s, g) && ThreadsOk(s, g)
  }

  // ------------------------------------------------------------------
  // Every step keeps the invariant
  // ------------------------------------------------------------------

  lemma Subset<T>(a: set<T>, b: set<T>)
    requires a <= b
    ensures |a| <= |b|
  {
    assert b == a + (b - a);
  }

  // A word never overflows: a thread that is not yet a user leaves room for itself.
  lemma UsersBound(s: State, g: Ghost, n: Node, t: Thread)
    requires Inv(s, g) && n in s.refs && t in s.pc
    ensures |g.users[n]| <= |s.pc|
    ensures !Counted(s.pc[t], n) ==> |g.users[n]| < |s.pc|
  {
    assert NodeOk(s, g, n);
    Subset(g.users[n], s.pc.Keys);
    if !Counted(s.pc[t], n) {
      Subset(g.users[n] + {t}, s.pc.Keys);
    }
  }

  // The effect of one access of thread t on the one node n it touches.
  datatype Effect = Effect(head: Option<Node>, word: nat, next: Option<Node>, held: bool, pc: Pc,
                           list: seq<Node>, owner: Owner, users: set<Thread>)

  function Apply(s: State, t: Thread, n: Node, e: Effect): State {
    State(e.head, s.refs[n := e.word], s.next[n := e.next],
          if e.held then s.held + {n} else s.held - {n}, s.pc[t := e.pc])
  }

  function ApplyGhost(g: Ghost, n: Node, e: Effect): Ghost {
    Ghost(e.list, g.owner[n := e.owner], g.users[n := e.users])
  }

  // The effect leaves the other nodes and threads alone.
  ghost predicate Local(s: State, g: Ghost, t: Thread, n: Node, e: Effect) {
    && n in s.refs && n in s.next && n in g.owner && n in g.users && t in s.pc
    && (forall m :: m != n ==> (m in e.list <==> m in g.list))
    && (forall m :: m != n ==> !Owns(s.pc[t], m) && (Counted(e.pc, m) <==> Counted(s.pc[t], m)))
    && (e.owner == g.owner[n] || !g.owner[n].Working? || g.owner[n] == Working(t))
    && (e.next == s.next[n] || (g.users[n] == {} && g.owner[n] == Working(t)))
  }

  lemma KeepsDomains(s: State, g: Ghost, t: Thread, n: Node, e: Effect)
    requires Domains(s, g) && Local(s, g, t, n, e)
    ensures Domains(Apply(s, t, n, e), ApplyGhost(g, n, e))
  {
    var pc := s.pc[t := e.pc];
    assert pc.Keys == s.pc.Keys;
    assert |pc| == |pc.Keys| && |s.pc| == |s.pc.Keys|;
  }

  lemma KeepsNodes(s: State, g: Ghost, t: Thread, n: Node, e: Effect, s': State, g': Ghost)
    requires Domains(s, g) && NodesOk(s, g) && Local(s, g, t, n, e)
    requires s' == Apply(s, t, n, e) && g' == ApplyGhost(g, n, e)
    requires Domains(s', g') && NodeOk(s', g', n)
    ensures NodesOk(s', g')
  {
    forall m | m in s'.refs
      ensures NodeOk(s', g', m)
    {
      assert m in s.refs && NodeOk(s, g, m);
      if m != n {
        KeepsNode(s, g, t, n, e, s', g', m);
      }
    }
  }

  // A node that the step does not touch.
  lemma KeepsNode(s: State, g: Ghost, t: Thread, n: Node, e: Effect, s': State, g': Ghost, m: Node)
    requires Domains(s, g) && m in s.refs && NodeOk(s, g, m) && Local(s, g, t, n, e) && m != n
    requires s' == Apply(s, t, n, e) && g' == ApplyGhost(g, n, e) && Domains(s', g')
    ensures NodeOk(s', g', m)
  {
    var o := g.owner[m];
    assert g'.owner[m] == o && g'.users[m] == g.users[m] && s'.refs[m] == s.refs[m];
    assert o.Working? ==> o.t != t;
    assert Base(s'.pc, o) == Base(s.pc, o);
  }

  lemma KeepsThreads(s: State, g: Ghost, t: Thread, n: Node, e: Effect, s': State, g': Ghost)
    requires Domains(s, g) && Local(s, g, t, n, e) && NodeOk(s, g, n) && ThreadsOk(s, g)
    requires s' == Apply(s, t, n, e) && g' == ApplyGhost(g, n, e)
    requires ThreadOk(s', g', t)
    ensures ThreadsOk(s', g')
  {
    forall u | u in s'.pc
      ensures ThreadOk(s', g', u)
    {
      assert u in s.pc && ThreadOk(s, g, u);
    }
  }

  // The invariant after a local effect, from what it says of the node and the thread.
  lemma Assemble(s: State, g: Ghost, t: Thread, n: Node, e: Effect, s': State, g': Ghost)
    requires Inv(s, g) && Local(s, g, t, n, e)
    requires s' == Apply(s, t, n, e) && g' == ApplyGhost(g, n, e)
    requires ListOk(s', g') && NodeOk(s', g', n) && ThreadOk(s', g', t)
    ensures Inv(s', g')
  {
    assert NodeOk(s, g, n);
    KeepsDomains(s, g, t, n, e);
    KeepsNodes(s, g, t, n, e, s', g');
    KeepsThreads(s, g, t, n, e, s', g');
  }

  // Thread t is about to access node n, and what the invariant says of the two.
  ghost predicate Ready(s: State, g: Ghost, t: Thread, n: Node) {
    && Domains(s, g) && t in s.pc && Touches(s.pc[t], n) && n in s.refs
    && NodeOk(s, g, n) && ThreadOk(s, g, t)
    && (g.list != [] ==> Known(s, Some(g.list[0])))
    && s.head == At(g.list, 0)
    && |g.users[n]| <= |s.pc|
    && (!Counted(s.pc[t], n) ==> |g.users[n]| < |s.pc|)
  }

  lemma IsReady(s: State, g: Ghost, t: Thread, n: Node)
    requires Inv(s, g) && t in s.pc && Touches(s.pc[t], n)
    ensures Ready(s, g, t, n)
  {
    assert ThreadOk(s, g, t) && NodeOk(s, g, n);
    UsersBound(s, g, n, t);
  }

  // The effect of the next access of thread t on the node it touches.
  ghost function EffectOf(s: State, g: Ghost, t: Thread, n: Node): Effect
    requires Ready(s, g, t, n)
  {
    var s', o, us := Access(s, t), g.owner[n], g.users[n];
    var (list, owner, users) :=
      match s.pc[t]
      case AddFlag(_) => (g.list, if s.refs[n] == 0 then o else Pending, us)
      case PutCas(_, seen, _) => if s.head == seen then ([n] + g.list, Listed, us) else (g.list, o, us)
      case PutUndo(_, _, _) => (g.list, if s.refs[n] == 1 then o else Pending, us)
      case GetInc(_, word) => (g.list, o, if s.refs[n] == word then us + {t} else us)
      case GetCas(_, _) =>
        if s.head == Some(n) then (if g.list == [] then [] else g.list[1..], Working(t), us - {t}) else (g.list, o, us)
      case GetTake(_) => (g.list, Client, us)
      case GetDrop(_, _) =>
        (g.list, if s.refs[n] == SHOULD_BE_ON_FREELIST + 1 then Working(t) else o, us - {t})
      case _ => (g.list, o, us);
    Effect(s'.head, s'.refs[n], s'.next[n], n in s'.held, s'.pc[t], list, owner, users)
  }

  lemma AccessIsApply(s: State, g: Ghost, t: Thread, n: Node)
    requires Ready(s, g, t, n)
    ensures Access(s, t) == Apply(s, t, n, EffectOf(s, g, t, n))
  {
    var s', e := Access(s, t), EffectOf(s, g, t, n);
    assert s'.held == if e.held then s.held + {n} else s.held - {n};
    assert s'.refs == s.refs[n := e.word];
    assert s'.next == s.next[n := e.next];
    assert s'.pc == s.pc[t := e.pc];
  }

  ghost predicate Good(s: State, g: Ghost, t: Thread, n: Node, e: Effect)
    requires Ready(s, g, t, n)
  {
    var s', g' := Apply(s, t, n, e), ApplyGhost(g, n, e);
    Local(s, g, t, n, e) && NodeOk(s', g', n) && ThreadOk(s', g', t)
  }

  lemma PutIsGood(s: State, g: Ghost, t: Thread, n: Node)
    requires Ready(s, g, t, n)
    requires s.pc[t].AddFlag? || s.pc[t].PutLoad? || s.pc[t].PutNext? || s.pc[t].PutRefs?
    ensures Good(s, g, t, n, EffectOf(s, g, t, n))
  {
  }

  lemma PutCasIsGood(s: State, g: Ghost, t: Thread, n: Node)
    requires Ready(s, g, t, n) && s.pc[t].PutCas?
    ensures Good(s, g, t, n, EffectOf(s, g, t, n))
  {
  }

  lemma PutUndoIsGood(s: State, g: Ghost, t: Thread, n: Node)
    requires Ready(s, g, t, n) && s.pc[t].PutUndo?
    ensures Good(s, g, t, n, EffectOf(s, g, t, n))
  {
  }

  lemma GetRefsIsGood(s: State, g: Ghost, t: Thread, n: Node)
    requires Ready(s, g, t, n)
    requires s.pc[t].GetRefs? || s.pc[t].GetNext?
    ensures Good(s, g, t, n, EffectOf(s, g, t, n))
  {
  }

  lemma GetIncFails(s: State, g: Ghost, t: Thread, n: Node)
    requires Ready(s, g, t, n) && s.pc[t].GetInc? && s.refs[n] != s.pc[t].word
    ensures Good(s, g, t, n, EffectOf(s, g, t, n))
  {
  }

  // A count that was not zero when it was read and has the same word now: the thread joins.
  lemma GetIncSucceeds(s: State, g: Ghost, t: Thread, n: Node)
    requires Ready(s, g, t, n) && s.pc[t].GetInc? && s.refs[n] == s.pc[t].word
    ensures Good(s, g, t, n, EffectOf(s, g, t, n))
  {
    var e := EffectOf(s, g, t, n);
    assert e.word == s.refs[n] + 1 && e.users == g.users[n] + {t} && t !in g.users[n];
    var o := g.owner[n];
    assert o.Working? ==> o.t != t && !Private(s.pc[o.t]);
    assert Base(s.pc[t := e.pc], o) == Base(s.pc, o);
  }

  lemma GetCasIsGood(s: State, g: Ghost, t: Thread, n: Node)
    requires Ready(s, g, t, n) && s.pc[t].GetCas?
    requires forall i, j :: 0 <= i < j < |g.list| ==> g.list[i] != g.list[j]
    ensures Good(s, g, t, n, EffectOf(s, g, t, n))
  {
    if s.head == Some(n) {
      assert g.list == [n] + g.list[1..];
    }
  }

  lemma GetTakeIsGood(s: State, g: Ghost, t: Thread, n: Node)
    requires Ready(s, g, t, n) && s.pc[t].GetTake?
    ensures Good(s, g, t, n, EffectOf(s, g, t, n))
  {
  }

  lemma GetDropIsGood(s: State, g: Ghost, t: Thread, n: Node)
    requires Ready(s, g, t, n) && s.pc[t].GetDrop?
    ensures Good(s, g, t, n, EffectOf(s, g, t, n))
  {
  }

  // Accesses that leave the list alone, whether or not the node is on it.
  lemma SameList(s: State, g: Ghost, t: Thread, n: Node, e: Effect)
    requires ListOk(s, g) && t in s.pc && n in g.owner
    requires n in g.list <==> g.owner[n].Listed?
    requires e.list == g.list && e.head == s.head
    requires g.owner[n].Listed? ==> n in s.next && e.owner.Listed? && e.next == s.next[n]
    ensures ListOk(Apply(s, t, n, e), ApplyGhost(g, n, e))
  {
    forall i | 0 <= i < |g.list|
      ensures s.next[n := e.next][g.list[i]] == At(g.list, i + 1)
    {
      assert g.list[i] in g.list;
    }
  }

  // A successful CAS in add_knowing_refcount_is_zero pushes the node.
  lemma Push(s: State, g: Ghost, t: Thread, n: Node, e: Effect)
    requires ListOk(s, g) && n !in g.list
    requires e.list == [n] + g.list && e.head == Some(n) && e.owner.Listed? && e.next == s.head
    ensures ListOk(Apply(s, t, n, e), ApplyGhost(g, n, e))
  {
    var s', g' := Apply(s, t, n, e), ApplyGhost(g, n, e);
    forall i | 0 <= i < |g'.list|
      ensures && g'.list[i] in s'.next && g'.list[i] in g'.owner && g'.owner[g'.list[i]].Listed?
              && s'.next[g'.list[i]] == At(g'.list, i + 1)
    {
      if i > 0 {
        assert g'.list[i] == g.list[i - 1] && g.list[i - 1] in g.list;
      }
    }
  }

  // A successful CAS in try_get pops the node that the thread has counted: its link cannot have
  // changed since the thread read it, whatever happened to the head meanwhile (no ABA).
  lemma Pop(s: State, g: Ghost, t: Thread, n: Node, e: Effect)
    requires ListOk(s, g) && s.head == Some(n)
    requires e.list == g.list[1..] && e.head == s.next[n] == e.next
    ensures ListOk(Apply(s, t, n, e), ApplyGhost(g, n, e))
  {
    var s', g' := Apply(s, t, n, e), ApplyGhost(g, n, e);
    forall i | 0 <= i < |g'.list|
      ensures && g'.list[i] in s'.next && g'.list[i] in g'.owner && g'.owner[g'.list[i]].Listed?
              && s'.next[g'.list[i]] == At(g'.list, i + 1)
    {
      assert g'.list[i] == g.list[i + 1];
    }
  }

  lemma IsGood(s: State, g: Ghost, t: Thread, n: Node)
    requires ListOk(s, g) && Ready(s, g, t, n)
    ensures Good(s, g, t, n, EffectOf(s, g, t, n))
  {
    match s.pc[t]
    case AddFlag(_) => PutIsGood(s, g, t, n);
    case PutLoad(_, _) => PutIsGood(s, g, t, n);
    case PutNext(_, _, _) => PutIsGood(s, g, t, n);
    case PutRefs(_, _, _) => PutIsGood(s, g, t, n);
    case PutCas(_, _, _) => PutCasIsGood(s, g, t, n);
    case PutUndo(_, _, _) => PutUndoIsGood(s, g, t, n);
    case GetRefs(_) => GetRefsIsGood(s, g, t, n);
    case GetInc(_, word) =>
      if s.refs[n] == word {
        GetIncSucceeds(s, g, t, n);
      } else {
        GetIncFails(s, g, t, n);
      }
    case GetNext(_) => GetRefsIsGood(s, g, t, n);
    case GetCas(_, _) => GetCasIsGood(s, g, t, n);
    case GetTake(_) => GetTakeIsGood(s, g, t, n);
    case GetDrop(_, _) => GetDropIsGood(s, g, t, n);
    case _ =>
  }

  lemma ListKept(s: State, g: Ghost, t: Thread, n: Node)
    requires ListOk(s, g) && Ready(s, g, t, n)
    ensures var e := EffectOf(s, g, t, n); ListOk(Apply(s, t, n, e), ApplyGhost(g, n, e))
  {
    if s.pc[t].PutCas? && s.head == s.pc[t].seen {
      Push(s, g, t, n, EffectOf(s, g, t, n));
    } else if s.pc[t].GetCas? && s.head == Some(n) {
      Pop(s, g, t, n, EffectOf(s, g, t, n));
    } else {
      SameList(s, g, t, n, EffectOf(s, g, t, n));
    }
  }

  // The node a thread is about to access, if there is one.
  lemma AccessKeepsInv(s: State, g: Ghost, t: Thread) returns (g': Ghost)
    requires Inv(s, g) && t in s.pc && !s.pc[t].Idle? && !s.pc[t].GetLoad?
    ensures Inv(Access(s, t), g')
  {
    var n := s.pc[t].n;
    IsReady(s, g, t, n);
    var e := EffectOf(s, g, t, n);
    g' := ApplyGhost(g, n, e);
    AccessIsApply(s, g, t, n);
    IsGood(s, g, t, n);
    ListKept(s, g, t, n);
    Assemble(s, g, t, n, e, Access(s, t), g');
  }

  // A step that only moves the program counter of a thread that neither owns nor uses a node.
  predicate Free(pc: Pc) {
    pc.Idle? || pc.GetLoad? || pc.GetRefs?
  }

  lemma MoveKeepsNodes(s: State, g: Ghost, t: Thread, to: Pc, s': State)
    requires Domains(s, g) && NodesOk(s, g) && t in s.pc && Free(s.pc[t]) && Free(to)
    requires s' == s.(pc := s.pc[t := to])
    ensures Domains(s', g) && NodesOk(s', g)
  {
    assert s'.pc.Keys == s.pc.Keys;
    assert |s'.pc| == |s'.pc.Keys| && |s.pc| == |s.pc.Keys|;
    forall n | n in s'.refs
      ensures NodeOk(s', g, n)
    {
      assert NodeOk(s, g, n);
      MoveKeepsNode(s, g, t, to, s', n);
    }
  }

  lemma MoveKeepsNode(s: State, g: Ghost, t: Thread, to: Pc, s': State, n: Node)
    requires Domains(s, g) && n in s.refs && NodeOk(s, g, n) && t in s.pc && Free(s.pc[t]) && Free(to)
    requires s' == s.(pc := s.pc[t := to])
    ensures NodeOk(s', g, n)
  {
    var o := g.owner[n];
    assert o.Working? ==> o.t != t;
    assert Base(s'.pc, o) == Base(s.pc, o);
  }

  lemma MoveKeepsThreads(s: State, g: Ghost, t: Thread, to: Pc, s': State)
    requires Domains(s, g) && ThreadsOk(s, g) && t in s.pc && Free(to)
    requires to.GetRefs? ==> to.n in s.refs
    requires s' == s.(pc := s.pc[t := to])
    ensures ThreadsOk(s', g)
  {
    forall u | u in s'.pc
      ensures ThreadOk(s', g, u)
    {
      assert u in s.pc && ThreadOk(s, g, u);
    }
  }

  lemma MoveKeepsInv(s: State, g: Ghost, t: Thread, to: Pc, s': State)
    requires Inv(s, g) && t in s.pc && Free(s.pc[t]) && Free(to)
    requires to.GetRefs? ==> to.n in s.refs
    requires s' == s.(pc := s.pc[t := to])
    ensures Inv(s', g)
  {
    MoveKeepsNodes(s, g, t, to, s');
    MoveKeepsThreads(s, g, t, to, s');
  }

  // A client creates a node: no thread can know of it.
  lemma CreateKeepsInv(s: State, g: Ghost, n: Node) returns (g': Ghost)
    requires Inv(s, g) && n !in s.refs
    ensures Inv(Do(s, Create(n)), g')
  {
    var s' := Do(s, Create(n));
    g' := Ghost(g.list, g.owner[n := Client], g.users[n := {}]);
    forall t | t in s.pc
      ensures ThreadOk(s', g', t) && !Counted(s.pc[t], n)
    {
      assert ThreadOk(s, g, t);
    }
    forall m | m in s'.refs
      ensures NodeOk(s', g', m)
    {
      if m == n {
        assert n !in g.list;
      } else {
        assert NodeOk(s, g, m);
      }
    }
  }

  lemma CallAddIsGood(s: State, g: Ghost, t: Thread, n: Node, e: Effect)
    requires Domains(s, g) && Enabled(s, CallAdd(t, n)) && n in s.refs && NodeOk(s, g, n)
    requires e == Effect(s.head, s.refs[n], s.next[n], false, AddFlag(n), g.list, Working(t), g.users[n])
    ensures Local(s, g, t, n, e)
    ensures Do(s, CallAdd(t, n)) == Apply(s, t, n, e)
    ensures NodeOk(Apply(s, t, n, e), ApplyGhost(g, n, e), n)
    ensures ThreadOk(Apply(s, t, n, e), ApplyGhost(g, n, e), t)
  {
    assert s.refs == s.refs[n := s.refs[n]] && s.next == s.next[n := s.next[n]];
  }

  // A client hands one of its nodes to add().
  lemma CallAddKeepsInv(s: State, g: Ghost, t: Thread, n: Node) returns (g': Ghost)
    requires Inv(s, g) && Enabled(s, CallAdd(t, n))
    ensures Inv(Do(s, CallAdd(t, n)), g')
  {
    assert NodeOk(s, g, n);
    var e := Effect(s.head, s.refs[n], s.next[n], false, AddFlag(n), g.list, Working(t), g.users[n]);
    g' := ApplyGhost(g, n, e);
    CallAddIsGood(s, g, t, n, e);
    SameList(s, g, t, n, e);
    Assemble(s, g, t, n, e, Do(s, CallAdd(t, n)), g');
  }

  lemma KeepsInv(s: State, g: Ghost, a: Action) returns (g': Ghost)
    requires Inv(s, g) && Enabled(s, a)
    ensures WellFormed(s) && Inv(Do(s, a), g')
  {
    InvIsWellFormed(s, g);
    match a
    case Create(n) => g' := CreateKeepsInv(s, g, n);
    case CallAdd(t, n) => g' := CallAddKeepsInv(s, g, t, n);
    case CallTryGet(t) => MoveKeepsInv(s, g, t, GetLoad, Do(s, a)); g' := g;
    case Advance(t) =>
      if s.pc[t].GetLoad? {
        MoveKeepsInv(s, g, t, Loop(s.head), Do(s, a));
        g' := g;
      } else {
        g' := AccessKeepsInv(s, g, t);
      }
  }

  lemma InvIsWellFormed(s: State, g: Ghost)
    requires Inv(s, g)
    ensures WellFormed(s)
  {
    forall t, n | t in s.pc && Touches(s.pc[t], n)
      ensures n in s.refs
    {
      assert ThreadOk(s, g, t);
    }
  }

  // ------------------------------------------------------------------
  // Safety over whole runs
  // ------------------------------------------------------------------

  lemma InitialInv(s: State)
    requires Initial(s)
    ensures Inv(s, Ghost([], map[], map[]))
  {
  }

  lemma FollowsKeepsInv(s: State, g: Ghost, a: Action, s': State) returns (g': Ghost)
    requires Inv(s, g) && Follows(s, a, s')
    ensures Inv(s', g')
  {
    g' := KeepsInv(s, g, a);
  }

  lemma {:induction false} RunKeepsInv(states: seq<State>, actions: seq<Action>, i: nat) returns (g: Ghost)
    requires IsRun(states, actions) && i < |states|
    ensures Inv(states[i], g)
    decreases i
  {
    if i == 0 {
      InitialInv(states[0]);
      g := Ghost([], map[], map[]);
    } else {
      var before := RunKeepsInv(states, actions, i - 1);
      g := FollowsKeepsInv(states[i - 1], before, actions[i - 1], states[i]);
    }
  }

  // The list as it stands in memory: the links from the head, without a repeated node.
  ghost predicate IsList(s: State, list: seq<Node>) {
    && s.head == At(list, 0)
    && (forall i :: 0 <= i < |list| ==> list[i] in s.next && s.next[list[i]] == At(list, i + 1))
    && (forall i, j :: 0 <= i < j < |list| ==> list[i] != list[j])
  }

  predicate FlagSet(word: nat) {
    word / REFS_MODULUS % 2 == 1
  }

  ghost predicate BeingMoved(s: State, n: Node) {
    exists t :: t in s.pc && Owns(s.pc[t], n)
  }

  // The bit says that the node should be on the list, and no thread is putting it there.
  ghost predicate PendingAdd(s: State, n: Node) {
    n in s.refs && FlagSet(s.refs[n]) && !BeingMoved(s, n)
  }

  // Each node is in exactly one of four places, and one that is pending has a user left whose
  // fetch_add(-1) will find the bit and finish the add.
  ghost predicate ExactlyOnePlace(s: State, list: seq<Node>, n: Node) {
    && (n in s.held ==> n !in list && !PendingAdd(s, n) && !BeingMoved(s, n))
    && (n in list ==> !PendingAdd(s, n) && !BeingMoved(s, n))
    && (n in s.held || n in list || PendingAdd(s, n) || BeingMoved(s, n))
    && (PendingAdd(s, n) ==> exists t :: t in s.pc && Counted(s.pc[t], n))
  }

  ghost predicate Safe(s: State, list: seq<Node>) {
    && IsList(s, list)
    && (forall n :: n in s.refs ==> ExactlyOnePlace(s, list, n))
    // one thread at a time adds or takes a node
    && (forall t, u, n :: t in s.pc && u in s.pc && Owns(s.pc[t], n) && Owns(s.pc[u], n) ==> t == u)
    // the assertion in try_get: the node it took does not carry the bit
    && (forall t :: t in s.pc && s.pc[t].GetTake? ==> s.pc[t].n in s.refs && !FlagSet(s.refs[s.pc[t].n]))
    // a thread about to CAS the head away from a node knows the current link of that node
    && (forall t :: t in s.pc && s.pc[t].GetCas? ==> s.pc[t].n in s.next && s.next[s.pc[t].n] == s.pc[t].next)
  }

  // The bit of a word is set exactly when an add is pending or a thread has it in hand.
  lemma FlagOf(s: State, g: Ghost, n: Node)
    requires Domains(s, g) && n in s.refs && NodeOk(s, g, n)
    ensures FlagSet(s.refs[n]) <==> Base(s.pc, g.owner[n]) == SHOULD_BE_ON_FREELIST
  {
    Subset(g.users[n], s.pc.Keys);
    var o := g.owner[n];
    if o.Working? && s.pc[o.t].GetTake? {
      Subset(g.users[n] + {o.t}, s.pc.Keys);
    }
  }

  lemma OwnerIsUnique(s: State, g: Ghost, n: Node)
    requires ThreadsOk(s, g)
    ensures forall t :: t in s.pc && Owns(s.pc[t], n) ==> n in g.owner && g.owner[n] == Working(t)
  {
    forall t | t in s.pc && Owns(s.pc[t], n)
      ensures n in g.owner && g.owner[n] == Working(t)
    {
      assert ThreadOk(s, g, t);
    }
  }

  lemma PlaceOf(s: State, g: Ghost, n: Node)
    requires Domains(s, g) && n in s.refs && NodeOk(s, g, n) && ThreadsOk(s, g)
    ensures ExactlyOnePlace(s, g.list, n)
  {
    FlagOf(s, g, n);
    OwnerIsUnique(s, g, n);
    assert BeingMoved(s, n) <==> g.owner[n].Working?;
    if g.owner[n].Pending? {
      var t :| t in g.users[n];
      assert t in s.pc && Counted(s.pc[t], n);
    }
  }

  lemma ThreadsAreSafe(s: State, g: Ghost, t: Thread)
    requires Domains(s, g) && NodesOk(s, g) && ThreadsOk(s, g) && t in s.pc
    ensures s.pc[t].GetTake? ==> s.pc[t].n in s.refs && !FlagSet(s.refs[s.pc[t].n])
    ensures s.pc[t].GetCas? ==> s.pc[t].n in s.next && s.next[s.pc[t].n] == s.pc[t].next
  {
    assert ThreadOk(s, g, t);
    if s.pc[t].GetTake? {
      assert NodeOk(s, g, s.pc[t].n);
      FlagOf(s, g, s.pc[t].n);
    }
  }

  lemma InvIsSafe(s: State, g: Ghost)
    requires Inv(s, g)
    ensures Safe(s, g.list)
  {
    forall n | n in s.refs
      ensures ExactlyOnePlace(s, g.list, n)
    {
      assert NodeOk(s, g, n);
      PlaceOf(s, g, n);
    }
    forall t, u, n | t in s.pc && u in s.pc && Owns(s.pc[t], n) && Owns(s.pc[u], n)
      ensures t == u
    {
      OwnerIsUnique(s, g, n);
    }
    forall t | t in s.pc
      ensures s.pc[t].GetTake? ==> s.pc[t].n in s.refs && !FlagSet(s.refs[s.pc[t].n])
      ensures s.pc[t].GetCas? ==> s.pc[t].n in s.next && s.next[s.pc[t].n] == s.pc[t].next
    {
      ThreadsAreSafe(s, g, t);
    }
  }

  /** In every state of every run, the free list is safe. */
  lemma Safety(states: seq<State>, actions: seq<Action>, i: nat) returns (list: seq<Node>)
    requires IsRun(states, actions) && i < |states|
    ensures Safe(states[i], list)
  {
    var g := RunKeepsInv(states, actions, i);
    InvIsSafe(states[i], g);
    list := g.list;
  }

  /** A node that try_get hands out was in no client's hands, and is in no other thread's. */
  lemma HandsOutOnce(states: seq<State>, actions: seq<Action>, i: nat)
    requires IsRun(states, actions) && i < |actions|
    requires actions[i].Advance? && actions[i].t in states[i].pc && states[i].pc[actions[i].t].GetTake?
    ensures var n := states[i].pc[actions[i].t].n;
      && n !in states[i].held
      && states[i + 1].held == states[i].held + {n}
      && !BeingMoved(states[i + 1], n)
  {
    var s, t, s' := states[i], actions[i].t, states[i + 1];
    var n := s.pc[t].n;
    var list := Safety(states, actions, i);
    assert Follows(s, actions[i], s');
    assert Owns(s.pc[t], n) && BeingMoved(s, n);
    assert Touches(s.pc[t], n);
    assert ExactlyOnePlace(s, list, n);
  }

  lemma IdleNode(s: State, g: Ghost, n: Node)
    requires Domains(s, g) && n in s.refs && NodeOk(s, g, n)
    requires forall t :: t in s.pc ==> s.pc[t].Idle?
    ensures n in s.held <==> n !in g.list
    ensures s.refs[n] == if n in g.list then 1 else 0
  {
    assert g.users[n] == {};
  }

  /** Once every call has returned, no node is lost: the clients and the list have them all,
      and the reference words are back to 0 and 1. */
  lemma Quiescent(states: seq<State>, actions: seq<Action>, i: nat) returns (list: seq<Node>)
    requires IsRun(states, actions) && i < |states|
    requires forall t :: t in states[i].pc ==> states[i].pc[t].Idle?
    ensures IsList(states[i], list)
    ensures forall n :: n in states[i].refs ==>
      && (n in states[i].held <==> n !in list)
      && states[i].refs[n] == if n in list then 1 else 0
  {
    var s := states[i];
    var g := RunKeepsInv(states, actions, i);
    list := g.list;
    forall n | n in s.refs
      ensures (n in s.held <==> n !in list) && s.refs[n] == if n in list then 1 else 0
    {
      IdleNode(s, g, n);
    }
  }

  /** Every action that is enabled at the end of a run can follow it. */
  lemma GoesOn(states: seq<State>, actions: seq<Action>, a: Action)
    requires IsRun(states, actions) && Enabled(states[|actions|], a)
    ensures WellFormed(states[|actions|]) && IsRun(states + [Do(states[|actions|], a)], actions + [a])
  {
    hide Inv, WellFormed, Do;
    var g := RunKeepsInv(states, actions, |actions|);
    InvIsWellFormed(states[|actions|], g);
    var longer, more := states + [Do(states[|actions|], a)], actions + [a];
    forall i | 0 <= i < |more| ensures Follows(longer[i], more[i], longer[i + 1]) {
      assert i < |actions| ==> Follows(states[i], actions[i], states[i + 1]);
    }
  }


  // ------------------------------------------------------------------
  // When a call comes back without a node
  // ------------------------------------------------------------------

  predicate Puts(pc: Pc) {
    pc.PutLoad? || pc.PutNext? || pc.PutRefs? || pc.PutCas? || pc.PutUndo?
  }

  // Thread is in a call of try_get.
  predicate Getting(pc: Pc) {
    || pc.GetLoad? || pc.GetRefs? || pc.GetInc? || pc.GetNext? || pc.GetCas? || pc.GetTake? || pc.GetDrop?
    || (Puts(pc) && pc.k.Resume?)
  }

  // It goes on with a null head.
  predicate SawNull(pc: Pc) {
    (pc.GetDrop? && pc.seen.None?) || (Puts(pc) && pc.k.Resume? && pc.k.seen.None?)
  }

  // The action is an access of thread t, in try_get itself, that reads freeListHead.
  predicate ReadsHead(s: State, a: Action, t: Thread) {
    a == Advance(t) && t in s.pc && (s.pc[t].GetLoad? || s.pc[t].GetCas?)
  }

  lemma GettingStep(s: State, a: Action, s': State, t: Thread)
    requires Follows(s, a, s') && t in s.pc && Getting(s.pc[t])
    ensures t in s'.pc && (s'.pc[t].Idle? || Getting(s'.pc[t]))
    ensures SawNull(s'.pc[t]) ==> SawNull(s.pc[t]) || (ReadsHead(s, a, t) && s.head.None?)
    ensures s'.pc[t].Idle? ==> a == Advance(t) && (s.pc[t].GetTake? || SawNull(s.pc[t]) || (ReadsHead(s, a, t) && s.head.None?))
  {
    if a == Advance(t) {
      Stepped(s, t, s', if s.pc[t].GetLoad? then 0 else s.pc[t].n);
      hide Follows;
    } else {
      OthersStep(s, a, s', t);
      hide Follows;
    }
  }

  lemma OthersStep(s: State, a: Action, s': State, t: Thread)
    requires Follows(s, a, s') && t in s.pc && !s.pc[t].Idle? && a != Advance(t)
    ensures t in s'.pc && s'.pc[t] == s.pc[t]
  {
    if a.Advance? && !s.pc[a.t].GetLoad? {
      assert Touches(s.pc[a.t], s.pc[a.t].n);
    }
  }

  lemma {:induction false} NullWasSeen(states: seq<State>, actions: seq<Action>, t: Thread, j: nat, m: nat) returns (k: nat)
    requires IsRun(states, actions) && j < m < |states| && actions[j] == CallTryGet(t)
    requires forall i :: j < i <= m ==> t in states[i].pc && !states[i].pc[t].Idle?
    ensures Getting(states[m].pc[t])
    ensures SawNull(states[m].pc[t]) ==> j < k < m && ReadsHead(states[k], actions[k], t) && states[k].head.None?
    decreases m
  {
    assert Follows(states[m - 1], actions[m - 1], states[m]);
    k := m - 1;
    if m > j + 1 {
      var before := NullWasSeen(states, actions, t, j, m - 1);
      GettingStep(states[m - 1], actions[m - 1], states[m], t);
      if !(ReadsHead(states[m - 1], actions[m - 1], t) && states[m - 1].head.None?) {
        k := before;
      }
    }
  }

  /** try_get gives no node only after it has itself read a null freeListHead. */
  lemma EmptyHanded(states: seq<State>, actions: seq<Action>, t: Thread, j: nat, i: nat) returns (k: nat)
    requires IsRun(states, actions) && j < i < |actions| && actions[j] == CallTryGet(t)
    requires forall m :: j < m <= i ==> t in states[m].pc && !states[m].pc[t].Idle?
    requires t in states[i + 1].pc && states[i + 1].pc[t].Idle? && !states[i].pc[t].GetTake?
    ensures j < k <= i && ReadsHead(states[k], actions[k], t) && states[k].head.None?
  {
    k := NullWasSeen(states, actions, t, j, i);
    assert Follows(states[i], actions[i], states[i + 1]);
    GettingStep(states[i], actions[i], states[i + 1], t);
    if !SawNull(states[i].pc[t]) {
      k := i;
    }
  }

  // ------------------------------------------------------------------
  // A call that nobody disturbs
  // ------------------------------------------------------------------

  ghost predicate AllIdle(s: State) {
    forall t :: t in s.pc ==> s.pc[t].Idle?
  }

  // From state i on, thread t makes a call and n accesses, and no other thread does anything.
  ghost predicate Alone(states: seq<State>, actions: seq<Action>, i: nat, call: Action, t: Thread, n: nat) {
    && IsRun(states, actions) && i + n < |actions| == |states| - 1
    && actions[i] == call && forall k :: i < k <= i + n ==> actions[k] == Advance(t)
  }

  lemma {:induction false} SamePlace(s: State, a: seq<Node>, b: seq<Node>, i: nat)
    requires IsList(s, a) && IsList(s, b) && i <= |a|
    ensures At(a, i) == At(b, i) && i <= |b|
  {
    if i > 0 {
      SamePlace(s, a, b, i - 1);
      assert s.next[a[i - 1]] == At(a, i) && s.next[b[i - 1]] == At(b, i);
    }
  }

  // The links make one list.
  lemma OneList(s: State, a: seq<Node>, b: seq<Node>)
    requires IsList(s, a) && IsList(s, b)
    ensures a == b
  {
    SamePlace(s, a, b, |a|);
    SamePlace(s, b, a, |b|);
    forall i | 0 <= i < |a| ensures a[i] == b[i] {
      SamePlace(s, a, b, i);
    }
  }

  lemma Stepped(s: State, t: Thread, s': State, n: Node)
    requires Follows(s, Advance(t), s') && t in s.pc && (s.pc[t].GetLoad? || Touches(s.pc[t], n))
    ensures forall m :: Touches(s.pc[t], m) ==> m in s.refs && m in s.next
    ensures !s.pc[t].Idle? && s' == Access(s, t)
  {
  }

  // Where a try_get that finds node n has come to after k accesses.
  function GetAt(s: State, t: Thread, n: Node, k: nat): State
    requires n in s.refs && n in s.next && s.refs[n] > 0
  {
    if k == 0 then s.(pc := s.pc[t := GetLoad])
    else if k == 1 then s.(pc := s.pc[t := GetRefs(n)])
    else if k == 2 then s.(pc := s.pc[t := GetInc(n, s.refs[n])])
    else
      var s1 := s.(refs := s.refs[n := s.refs[n] + 1]);
      if k == 3 then s1.(pc := s.pc[t := GetNext(n)])
      else if k == 4 then s1.(pc := s.pc[t := GetCas(n, s.next[n])])
      else if k == 5 then s1.(head := s.next[n], pc := s.pc[t := GetTake(n)])
      else s.(head := s.next[n], refs := s.refs[n := s.refs[n] - 1], held := s.held + {n}, pc := s.pc[t := Idle])
  }

  lemma GetAtStep(s: State, t: Thread, n: Node, k: nat, s': State)
    requires s.head == Some(n) && n in s.next && n in s.refs && 0 < s.refs[n] < REFS_MODULUS - 1 && t in s.pc && k < 6
    requires Follows(GetAt(s, t, n, k), Advance(t), s')
    ensures s' == GetAt(s, t, n, k + 1)
  {
    Stepped(GetAt(s, t, n, k), t, s', n);
    hide Follows;
    if k < 3 {
      assert k == 2 ==> s'.refs == s.refs[n := s.refs[n] + 1];
    } else {
      TakeAtStep(s, t, n, k);
    }
  }

  lemma TakeAtStep(s: State, t: Thread, n: Node, k: nat)
    requires s.head == Some(n) && n in s.next && n in s.refs && 0 < s.refs[n] < REFS_MODULUS - 1 && t in s.pc && 3 <= k < 6
    ensures Access(GetAt(s, t, n, k), t) == GetAt(s, t, n, k + 1)
  {
    if k == 5 {
      assert Access(GetAt(s, t, n, k), t).refs == s.refs[n := s.refs[n] - 1];
    }
  }

  // Where an add of node n has come to after k accesses.
  function AddAt(s: State, t: Thread, n: Node, k: nat): State {
    var s1 := s.(held := s.held - {n});
    if k == 0 then s1.(pc := s.pc[t := AddFlag(n)])
    else
      var s2 := s1.(refs := s.refs[n := SHOULD_BE_ON_FREELIST]);
      if k == 1 then s2.(pc := s.pc[t := PutLoad(n, Finish)])
      else if k == 2 then s2.(pc := s.pc[t := PutNext(n, s.head, Finish)])
      else
        var s3 := s2.(next := s.next[n := s.head]);
        if k == 3 then s3.(pc := s.pc[t := PutRefs(n, s.head, Finish)])
        else if k == 4 then s3.(refs := s.refs[n := 1], pc := s.pc[t := PutCas(n, s.head, Finish)])
        else s3.(refs := s.refs[n := 1], head := Some(n), pc := s.pc[t := Idle])
  }

  lemma AddAtStep(s: State, t: Thread, n: Node, k: nat, s': State)
    requires n in s.next && n in s.refs && s.refs[n] == 0 && t in s.pc && k < 5
    requires Follows(AddAt(s, t, n, k), Advance(t), s')
    ensures s' == AddAt(s, t, n, k + 1)
  {
    Stepped(AddAt(s, t, n, k), t, s', n);
    hide Follows;
    assert k == 3 ==> s'.refs == s.refs[n := 1];
  }

  // With no call in flight the words of every node are known.
  lemma QuietNodes(states: seq<State>, actions: seq<Action>, i: nat, list: seq<Node>)
    requires IsRun(states, actions) && i < |states| && AllIdle(states[i]) && IsList(states[i], list)
    ensures var s := states[i]; forall n :: n in s.refs ==> n in s.next && (n in s.held <==> n !in list) && s.refs[n] == if n in list then 1 else 0
    ensures forall k :: 0 <= k < |list| ==> list[k] in states[i].refs
    ensures states[i].held <= states[i].refs.Keys
  {
    var g := RunKeepsInv(states, actions, i);
    OneList(states[i], g.list, list);
    forall n | n in states[i].refs ensures (n in states[i].held <==> n !in list) && states[i].refs[n] == if n in list then 1 else 0 {
      IdleNode(states[i], g, n);
    }
  }

  lemma FirstNode(states: seq<State>, actions: seq<Action>, i: nat, t: Thread, n: Node)
    requires IsRun(states, actions) && i < |states| && states[i].head == Some(n) && t in states[i].pc && states[i].pc[t].Idle?
    ensures var s := states[i]; n in s.next && n in s.refs && 0 < s.refs[n] < REFS_MODULUS - 1 && n !in s.held
  {
    var g := RunKeepsInv(states, actions, i);
    assert g.list[0] in g.list && NodeOk(states[i], g, n);
    UsersBound(states[i], g, n, t);
  }

  lemma CallsGet(states: seq<State>, actions: seq<Action>, i: nat, t: Thread)
    requires IsRun(states, actions) && i < |actions| && actions[i] == CallTryGet(t)
    ensures t in states[i].pc && states[i].pc[t].Idle? && states[i + 1] == states[i].(pc := states[i].pc[t := GetLoad])
  {
    assert Follows(states[i], actions[i], states[i + 1]);
  }

  lemma {:induction false} GetReaches(states: seq<State>, actions: seq<Action>, i: nat, t: Thread, n: Node, k: nat)
    requires Alone(states, actions, i, CallTryGet(t), t, k) && states[i].head == Some(n) && k <= 6
    ensures var s := states[i];
      && t in s.pc && s.pc[t].Idle? && n in s.next && n in s.refs && s.refs[n] > 0 && n !in s.held
      && states[i + 1 + k] == GetAt(s, t, n, k)
    decreases k
  {
    CallsGet(states, actions, i, t);
    hide IsRun, Follows, WellFormed;
    FirstNode(states, actions, i, t, n);
    if k > 0 {
      GetReaches(states, actions, i, t, n, k - 1);
      hide GetAt;
      FollowsAt(states, actions, i + k);
      GetAtStep(states[i], t, n, k - 1, states[i + 1 + k]);
    }
  }

  /** Whatever calls are in flight: if nobody else acts, try_get goes on for six accesses, and then it has taken the first
      node of the list. */
  lemma AloneGets(states: seq<State>, actions: seq<Action>, i: nat, t: Thread, n: Node, k: nat)
    requires Alone(states, actions, i, CallTryGet(t), t, k) && states[i].head == Some(n) && k <= 6
    ensures t in states[i + 1 + k].pc && (states[i + 1 + k].pc[t].Idle? <==> k == 6)
    ensures var s, s' := states[i], states[i + 1 + k];
      k == 6 ==> n in s.next && n !in s.held && s'.held == s.held + {n} && s'.head == s.next[n] && s'.next == s.next && s'.pc == s.pc
  {
    GetReaches(states, actions, i, t, n, k);
    hide IsRun;
    assert states[i].pc[t := Idle] == states[i].pc;
  }

  /** On an empty list it returns at once, and nothing has changed. */
  lemma AloneGetsNone(states: seq<State>, actions: seq<Action>, i: nat, t: Thread)
    requires Alone(states, actions, i, CallTryGet(t), t, 1) && states[i].head.None?
    ensures states[i + 2] == states[i]
  {
    assert Follows(states[i], actions[i], states[i + 1]);
    assert Follows(states[i + 1], actions[i + 1], states[i + 2]);
    assert states[i + 2].pc == states[i].pc;
  }

  lemma CallAddHeld(states: seq<State>, actions: seq<Action>, i: nat, t: Thread, n: Node)
    requires IsRun(states, actions) && i < |actions| && actions[i] == CallAdd(t, n)
    ensures n in states[i].held && t in states[i].pc && states[i + 1] == AddAt(states[i], t, n, 0)
  {
    assert Follows(states[i], actions[i], states[i + 1]);
  }

  lemma FollowsAt(states: seq<State>, actions: seq<Action>, i: nat)
    requires IsRun(states, actions) && i < |actions|
    ensures |states| == |actions| + 1 && Follows(states[i], actions[i], states[i + 1])
  {
  }

  lemma {:induction false} AddReaches(states: seq<State>, actions: seq<Action>, i: nat, t: Thread, n: Node, list: seq<Node>, k: nat)
    requires Alone(states, actions, i, CallAdd(t, n), t, k) && AllIdle(states[i]) && IsList(states[i], list) && k <= 5
    ensures t in states[i].pc && n in states[i].held && n !in list && states[i + 1 + k] == AddAt(states[i], t, n, k)
    decreases k
  {
    hide IsRun, Follows, AddAt, IsList, AllIdle, WellFormed;
    CallAddHeld(states, actions, i, t, n);
    QuietNodes(states, actions, i, list);
    if k > 0 {
      AddReaches(states, actions, i, t, n, list, k - 1);
      FollowsAt(states, actions, i + k);
      AddAtStep(states[i], t, n, k - 1, states[i + 1 + k]);
    }
  }

  /** With no other call in flight, add goes on for five accesses, and then the node is in front of the list. */
  lemma AloneAdds(states: seq<State>, actions: seq<Action>, i: nat, t: Thread, n: Node, list: seq<Node>, k: nat)
    requires Alone(states, actions, i, CallAdd(t, n), t, k) && AllIdle(states[i]) && IsList(states[i], list) && k <= 5
    ensures t in states[i + 1 + k].pc && (states[i + 1 + k].pc[t].Idle? <==> k == 5)
    ensures k == 5 ==> states[i + 1 + k].held == states[i].held - {n} && AllIdle(states[i + 1 + k]) && IsList(states[i + 1 + k], [n] + list)
  {
    AddReaches(states, actions, i, t, n, list, k);
    hide IsRun, IsList;
    if k == 5 {
      InFront(states[i], states[i + 6], n, list);
    }
  }

  lemma InFront(s: State, s': State, n: Node, list: seq<Node>)
    requires IsList(s, list) && n !in list && s'.head == Some(n) && s'.next == s.next[n := s.head]
    ensures IsList(s', [n] + list)
  {
    var more := [n] + list;
    forall k | 0 <= k < |more| ensures more[k] in s'.next && s'.next[more[k]] == At(more, k + 1) {
      if k > 0 {
        assert more[k] == list[k - 1] && list[k - 1] in list;
        assert At(more, k + 1) == At(list, k);
      }
    }
    forall a, b | 0 <= a < b < |more| ensures more[a] != more[b] {
      assert more[b] == list[b - 1] && list[b - 1] in list && (a > 0 ==> more[a] == list[a - 1]);
    }
  }
}
