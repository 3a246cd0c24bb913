/** The table of implicit producers by thread id (deps/concurrentqueue/concurrentqueue.h,
    get_or_add_implicit_producer): open addressing, tables that grow by a chain, and entries that move
    to the newest table when they are next looked up. One atomic access per step, any number of
    threads, allocations that may fail. Threads do not exit. */
module ProducerHash {
  import opened Places

  type Thread = nat                     // also its id, and its key
  type Producer = nat

  // A slot that is not in the map is empty. A key and its value, which only the thread of that key
  // reads, are written in one step.
  datatype Entry = Entry(key: Thread, value: Producer)
  datatype Table = Table(capacity: nat, entries: map<nat, Entry>)

  // main is the table that the thread took for the newest, n is its newCount, k counts the slots it
  // has passed.
  datatype Pc =
    | Idle
    | Look(main: nat, table: nat, k: nat)
    | MoveLoad(main: nat, p: Producer, k: nat)
    | MoveCas(main: nat, p: Producer, k: nat)
    | Join(main: nat)
    | Top(main: nat, n: nat)
    | Grow(n: nat)
    | Allocate(main: nat, n: nat)
    | Publish(main: nat, n: nat, capacity: nat)
    | Unlock(main: nat, n: nat)
    | Decide(main: nat, n: nat)
    | Create(main: nat, n: nat)
    | InsertLoad(main: nat, n: nat, p: Producer, k: nat)
    | InsertCas(main: nat, n: nat, p: Producer, k: nat)
    | Reload(n: nat)
    | Leave
    | LeaveLocked
    | Release

  datatype Option<T> = None | Some(value: T)

  // tables[i]'s prev is tables[i - 1], and implicitProducerHash is the last one.
  datatype State = State(
    tables: seq<Table>, count: int, lock: Option<Thread>,
    pc: map<Thread, Pc>,
    hash: Thread -> nat,
    made: nat,                          // producers made so far
    got: map<Thread, set<Producer>>)    // what the calls of a thread have returned, but for null

  datatype Action = Call(t: Thread) | Advance(t: Thread, ok: bool)   // ok: an allocation succeeds

  // A table's limit: three quarters of it.
  function Limit(capacity: nat): nat {
    capacity / 2 + capacity / 4
  }

  // The slot of the k-th probe.
  function Slot(s: State, t: Thread, i: nat, k: nat): nat
    requires i < |s.tables| && s.tables[i].capacity > 0
  {
    Place(s.hash(t) + k, s.tables[i].capacity)
  }

  // The capacity of the next table.
  function NextCapacity(capacity: nat, n: nat): nat
    requires capacity > 0
    decreases if n >= capacity then n - capacity + 1 else 0
  {
    if n < capacity then 2 * capacity else NextCapacity(2 * capacity, n)
  }

  predicate Enabled(s: State, a: Action) {
    match a
    case Call(t) => t in s.pc && s.pc[t].Idle? && s.tables != []
    case Advance(t, _) => t in s.pc && !s.pc[t].Idle?
  }

  // What a step may rely on.
  ghost predicate WellFormed(s: State) {
    && s.count >= 0 && s.tables != [] && (forall i :: 0 <= i < |s.tables| ==> s.tables[i].capacity > 0)
    && (forall t :: t in s.pc ==> t in s.got && MainOk(s, s.pc[t]))
  }

  predicate MainOk(s: State, pc: Pc) {
    match pc
    case Idle => true
    case Grow(_) => true
    case Reload(_) => true
    case Leave => true
    case LeaveLocked => true
    case Release => true
    case Look(main, table, _) => table <= main < |s.tables|
    case _ => pc.main < |s.tables|
  }

  function Go(s: State, t: Thread, pc: Pc): State {
    s.(pc := s.pc[t := pc])
  }

  function Return(s: State, t: Thread, p: Producer): State
    requires t in s.got
  {
    s.(pc := s.pc[t := Idle], got := s.got[t := s.got[t] + {p}])
  }

  // The key is written into an empty slot.
  function Put(s: State, i: nat, slot: nat, t: Thread, p: Producer): State
    requires i < |s.tables|
  {
    s.(tables := s.tables[i := s.tables[i].(entries := s.tables[i].entries[slot := Entry(t, p)])])
  }

  function Step(s: State, t: Thread, ok: bool): State
    requires WellFormed(s) && t in s.pc && !s.pc[t].Idle?
  {
    match s.pc[t]
    case Look(main, i, k) =>
      var table, slot := s.tables[i], Slot(s, t, i, k);
      if slot !in table.entries then Go(s, t, if i == 0 then Join(main) else Look(main, i - 1, 0))
      else if table.entries[slot].key != t then Go(s, t, Look(main, i, k + 1))
      else if i != main then Go(s, t, MoveLoad(main, table.entries[slot].value, 0))
      else Return(s, t, table.entries[slot].value)
    case MoveLoad(main, p, k) =>
      Go(s, t, if Slot(s, t, main, k) !in s.tables[main].entries then MoveCas(main, p, k) else MoveLoad(main, p, k + 1))
    case MoveCas(main, p, k) =>
      if Slot(s, t, main, k) !in s.tables[main].entries then Return(Put(s, main, Slot(s, t, main, k), t, p), t, p)
      else Go(s, t, MoveLoad(main, p, k + 1))
    case Join(main) => Go(s.(count := s.count + 1), t, Top(main, s.count + 1))
    case Top(main, n) =>
      if n >= s.tables[main].capacity / 2 && s.lock.None? then Go(s.(lock := Some(t)), t, Grow(n))
      else Go(s, t, Decide(main, n))
    case Grow(n) => Go(s, t, Allocate(|s.tables| - 1, n))
    case Allocate(main, n) =>
      Go(s, t, if ok then Publish(main, n, NextCapacity(s.tables[main].capacity, n)) else LeaveLocked)
    case Publish(main, n, capacity) =>
      Go(s.(tables := s.tables + [Table(capacity, map[])]), t, Unlock(|s.tables|, n))
    case Unlock(main, n) => Go(s.(lock := None), t, Decide(main, n))
    case Decide(main, n) => Go(s, t, if n < Limit(s.tables[main].capacity) then Create(main, n) else Reload(n))
    case Create(main, n) =>
      if ok then Go(s.(made := s.made + 1), t, InsertLoad(main, n, s.made, 0)) else Go(s, t, Leave)
    case InsertLoad(main, n, p, k) =>
      Go(s, t, if Slot(s, t, main, k) !in s.tables[main].entries then InsertCas(main, n, p, k) else InsertLoad(main, n, p, k + 1))
    case InsertCas(main, n, p, k) =>
      if Slot(s, t, main, k) !in s.tables[main].entries then Return(Put(s, main, Slot(s, t, main, k), t, p), t, p)
      else Go(s, t, InsertLoad(main, n, p, k + 1))
    case Reload(n) => Go(s, t, Top(|s.tables| - 1, n))
    case Leave => Go(s.(count := s.count - 1), t, Idle)
    case LeaveLocked => Go(s.(count := s.count - 1), t, Release)
    case Release => Go(s.(lock := None), t, Idle)
  }

  function Do(s: State, a: Action): State
    requires WellFormed(s) && Enabled(s, a)
  {
    match a
    case Call(t) => Go(s, t, Look(|s.tables| - 1, |s.tables| - 1, 0))
    case Advance(t, ok) => Step(s, t, ok)
  }

  ghost predicate Initial(s: State) {
    && |s.tables| == 1 && s.tables[0].capacity >= 4 && s.tables[0].entries == map[]
    && s.count == 0 && s.lock == None && s.made == 0 && s.got.Keys == s.pc.Keys
    && forall t :: t in s.pc ==> s.pc[t].Idle? && s.got[t] == {}
  }

  // ------------------------------------------------------------------
  // The invariant
  // ------------------------------------------------------------------

  // rank is the newCount of every thread that is counted; home is the producer of every thread that
  // has one.
  datatype Ghost = Ghost(rank: map<Thread, nat>, home: map<Thread, Producer>)

  // A thread between its fetch_adds, without a producer yet.
  predicate Joined(pc: Pc) {
    pc.Top? || pc.Grow? || pc.Allocate? || pc.Publish? || pc.Unlock? || pc.Decide? || pc.Create?
    || pc.InsertLoad? || pc.InsertCas? || pc.Reload? || pc.Leave? || pc.LeaveLocked?
  }

  predicate HasLock(pc: Pc) {
    pc.Grow? || pc.Allocate? || pc.Publish? || pc.Unlock? || pc.LeaveLocked? || pc.Release?
  }

  ghost function AtMost(rank: map<Thread, nat>, n: nat): set<Thread> {
    set t | t in rank && rank[t] <= n
  }

  // However threads come and go, at most n of those counted have a newCount of n or less.
  ghost predicate RankOk(rank: map<Thread, nat>, count: int) {
    |rank| == count && forall n: nat :: |AtMost(rank, n)| <= n
  }

  ghost predicate InTable(s: State, t: Thread, i: nat)
    requires i < |s.tables|
  {
    exists slot :: slot in s.tables[i].entries && s.tables[i].entries[slot].key == t
  }

  // The first k slots of t's probe sequence are taken.
  ghost predicate Path(s: State, t: Thread, i: nat, k: nat)
    requires i < |s.tables| && s.tables[i].capacity > 0
  {
    k <= s.tables[i].capacity && forall j: nat :: j < k ==> Slot(s, t, i, j) in s.tables[i].entries
  }

  // And not by t.
  ghost predicate Passed(s: State, t: Thread, i: nat, k: nat)
    requires i < |s.tables| && s.tables[i].capacity > 0
  {
    Path(s, t, i, k) && forall j: nat :: j < k ==> s.tables[i].entries[Slot(s, t, i, j)].key != t
  }

  ghost predicate EntryOk(s: State, g: Ghost, i: nat, slot: nat)
    requires i < |s.tables| && s.tables[i].capacity > 0 && slot in s.tables[i].entries
  {
    var table := s.tables[i];
    var t := table.entries[slot].key;
    && slot < table.capacity && t in g.home && g.home[t] == table.entries[slot].value
    && t in g.rank && g.rank[t] < Limit(table.capacity)
    && exists k: nat :: Path(s, t, i, k) && slot == Slot(s, t, i, k)
  }

  ghost predicate TableOk(s: State, g: Ghost, i: nat)
    requires i < |s.tables|
  {
    && s.tables[i].capacity >= 4 && (i > 0 ==> s.tables[i].capacity >= 2 * s.tables[i - 1].capacity)
    && (forall slot :: slot in s.tables[i].entries ==> EntryOk(s, g, i, slot))
    && (forall a, b :: a in s.tables[i].entries && b in s.tables[i].entries && s.tables[i].entries[a].key == s.tables[i].entries[b].key ==> a == b)
  }

  predicate Capacities(s: State) {
    forall i :: 0 <= i < |s.tables| ==> s.tables[i].capacity > 0
  }

  // What holds of t where it stands.
  ghost predicate PcOk(s: State, g: Ghost, t: Thread, pc: Pc)
    requires Capacities(s)
  {
    && MainOk(s, pc)
    && (match pc
        case Look(main, i, k) => Passed(s, t, i, k) && forall x :: i < x < |s.tables| ==> !InTable(s, t, x)
        case MoveLoad(main, p, k) => Mover(s, g, t, main, p) && Passed(s, t, main, k)
        case MoveCas(main, p, k) => Mover(s, g, t, main, p) && Passed(s, t, main, k)
        case Allocate(main, _) => main == |s.tables| - 1
        case Publish(main, n, capacity) => main == |s.tables| - 1 && n < capacity / 2 && capacity >= 2 * s.tables[main].capacity
        case InsertLoad(main, n, p, k) => n < Limit(s.tables[main].capacity) && Passed(s, t, main, k)
        case InsertCas(main, n, p, k) => n < Limit(s.tables[main].capacity) && Passed(s, t, main, k)
        case Create(main, n) => n < Limit(s.tables[main].capacity)
        case _ => true)
  }

  ghost predicate Mover(s: State, g: Ghost, t: Thread, main: nat, p: Producer)
    requires main < |s.tables|
  {
    t in g.home && p == g.home[t] && t in g.rank && g.rank[t] < Limit(s.tables[main].capacity) && !InTable(s, t, main)
  }

  predicate NewCount(pc: Pc, n: nat) {
    Joined(pc) && !pc.Leave? && !pc.LeaveLocked? ==> pc.n == n
  }

  // What holds of t when its program counter is pc, it is t's turn with that lock, and got is what
  // its calls have returned.
  ghost predicate StandOk(s: State, g: Ghost, t: Thread, pc: Pc, lock: Option<Thread>, got: set<Producer>)
    requires Capacities(s)
  {
    && PcOk(s, g, t, pc)
    && (Joined(pc) ==> t in g.rank && t !in g.home && NewCount(pc, g.rank[t]))
    && (pc.Join? || pc.Release? ==> t !in g.home)
    && (t in g.rank ==> Joined(pc) || t in g.home) && (t in g.home ==> t in g.rank)
    && (lock == Some(t) <==> HasLock(pc))
    && (t in g.home ==> exists i :: 0 <= i < |s.tables| && InTable(s, t, i))
    && got <= (if t in g.home then {g.home[t]} else {})
  }

  ghost predicate ThreadOk(s: State, g: Ghost, t: Thread)
    requires Capacities(s)
  {
    t in s.pc && t in s.got && StandOk(s, g, t, s.pc[t], s.lock, s.got[t])
  }

  ghost predicate Inv(s: State, g: Ghost) {
    && s.tables != [] && Capacities(s) && s.got.Keys == s.pc.Keys && g.rank.Keys <= s.pc.Keys
    && (s.lock.Some? ==> s.lock.value in s.pc)
    && RankOk(g.rank, s.count)
    && (forall i :: 0 <= i < |s.tables| ==> TableOk(s, g, i))
    && (forall t :: t in s.pc ==> ThreadOk(s, g, t))
  }

  // ------------------------------------------------------------------
  // Counting
  // ------------------------------------------------------------------

  lemma Subset<T>(a: set<T>, b: set<T>)
    requires a <= b
    ensures |a| <= |b|
  {
    assert b == a + (b - a);
  }

  lemma JoinRank(rank: map<Thread, nat>, count: nat, t: Thread)
    requires RankOk(rank, count) && t !in rank
    ensures RankOk(rank[t := count + 1], count + 1)
  {
    var rank' := rank[t := count + 1];
    assert rank'.Keys == rank.Keys + {t};
    assert |rank'| == |rank'.Keys| && |rank| == |rank.Keys|;
    forall n: nat ensures |AtMost(rank', n)| <= n {
      if n <= count {
        assert AtMost(rank', n) == AtMost(rank, n);
      } else {
        Subset(AtMost(rank', n), rank'.Keys);
      }
    }
  }

  lemma LeaveRank(rank: map<Thread, nat>, count: int, t: Thread)
    requires RankOk(rank, count) && t in rank
    ensures RankOk(rank - {t}, count - 1)
  {
    var rank' := rank - {t};
    assert rank.Keys == rank'.Keys + {t};
    assert |rank'| == |rank'.Keys| && |rank| == |rank.Keys|;
    forall n: nat ensures |AtMost(rank', n)| <= n {
      Subset(AtMost(rank', n), AtMost(rank, n));
    }
  }

  function KeyAt(s: State, t: Thread, i: nat, j: nat): Thread
    requires i < |s.tables| && s.tables[i].capacity > 0 && Slot(s, t, i, j) in s.tables[i].entries
  {
    s.tables[i].entries[Slot(s, t, i, j)].key
  }

  // Different slots of a path have different keys.
  lemma KeysDiffer(s: State, g: Ghost, t: Thread, i: nat, k: nat, a: nat, b: nat)
    requires i < |s.tables| && s.tables[i].capacity > 0 && TableOk(s, g, i) && Path(s, t, i, k) && a < b < k
    ensures KeyAt(s, t, i, a) != KeyAt(s, t, i, b)
  {
    hide EntryOk, Place;
    PlacesDiffer(s.hash(t) + a, s.hash(t) + b, s.tables[i].capacity);
    assert Slot(s, t, i, a) in s.tables[i].entries && Slot(s, t, i, b) in s.tables[i].entries;
  }

  lemma KeyIsRanked(s: State, g: Ghost, t: Thread, i: nat, k: nat, j: nat)
    requires i < |s.tables| && s.tables[i].capacity > 0 && TableOk(s, g, i) && Path(s, t, i, k) && j < k
    ensures Slot(s, t, i, j) in s.tables[i].entries && KeyAt(s, t, i, j) in AtMost(g.rank, Limit(s.tables[i].capacity) - 1)
  {
    assert EntryOk(s, g, i, Slot(s, t, i, j));
  }

  // The threads whose keys are on a path: as many as slots.
  lemma {:induction false} KeysOnPath(s: State, g: Ghost, t: Thread, i: nat, k: nat, n: nat) returns (ids: set<Thread>)
    requires i < |s.tables| && s.tables[i].capacity > 0 && TableOk(s, g, i) && Path(s, t, i, n) && k <= n
    ensures |ids| == k && ids <= AtMost(g.rank, Limit(s.tables[i].capacity) - 1)
    ensures forall x :: x in ids ==> exists j: nat :: j < k && Slot(s, t, i, j) in s.tables[i].entries && KeyAt(s, t, i, j) == x
    decreases k
  {
    hide EntryOk, TableOk, AtMost, Slot;
    if k == 0 {
      ids := {};
    } else {
      var rest := KeysOnPath(s, g, t, i, k - 1, n);
      KeyIsRanked(s, g, t, i, n, k - 1);
      var x := KeyAt(s, t, i, k - 1);
      if x in rest {
        var j: nat :| j < k - 1 && Slot(s, t, i, j) in s.tables[i].entries && KeyAt(s, t, i, j) == x;
        KeysDiffer(s, g, t, i, n, j, k - 1);
      }
      ids := rest + {x};
    }
  }

  /** A probe passes fewer slots than three quarters of the table. */
  lemma PathBound(s: State, g: Ghost, t: Thread, i: nat, k: nat)
    requires i < |s.tables| && s.tables[i].capacity > 0 && TableOk(s, g, i) && Path(s, t, i, k) && RankOk(g.rank, s.count)
    ensures k < Limit(s.tables[i].capacity) <= s.tables[i].capacity
  {
    var ids := KeysOnPath(s, g, t, i, k, k);
    Subset(ids, AtMost(g.rank, Limit(s.tables[i].capacity) - 1));
  }

  // ------------------------------------------------------------------
  // What a step of t leaves alone
  // ------------------------------------------------------------------

  // Tables only gain entries of t, and new ones are empty.
  ghost predicate TableGrew(a: Table, b: Table, t: Thread) {
    && a.capacity == b.capacity
    && (forall slot :: slot in a.entries ==> slot in b.entries && b.entries[slot] == a.entries[slot])
    && (forall slot :: slot in b.entries ==> slot in a.entries || b.entries[slot].key == t)
  }

  ghost predicate Grew(s: State, s': State, t: Thread) {
    && |s.tables| <= |s'.tables| && s'.hash == s.hash && Capacities(s) && Capacities(s')
    && (forall i :: 0 <= i < |s.tables| ==> TableGrew(s.tables[i], s'.tables[i], t))
    && (forall i :: |s.tables| <= i < |s'.tables| ==> s'.tables[i].entries == map[])
  }

  lemma InTableKept(s: State, s': State, t: Thread, u: Thread, i: nat)
    requires Grew(s, s', t) && u != t && i < |s'.tables|
    ensures i < |s.tables| ==> (InTable(s', u, i) <==> InTable(s, u, i))
    ensures i >= |s.tables| ==> !InTable(s', u, i)
  {
    if i < |s.tables| {
      assert TableGrew(s.tables[i], s'.tables[i], t);
    }
  }

  lemma PathKept(s: State, s': State, t: Thread, u: Thread, i: nat, k: nat)
    requires Grew(s, s', t) && i < |s.tables| && Path(s, u, i, k)
    ensures Path(s', u, i, k)
    ensures u != t && Passed(s, u, i, k) ==> Passed(s', u, i, k)
  {
    assert TableGrew(s.tables[i], s'.tables[i], t);
    forall j: nat | j < k
      ensures Slot(s', u, i, j) == Slot(s, u, i, j) && Slot(s', u, i, j) in s'.tables[i].entries
        && s'.tables[i].entries[Slot(s', u, i, j)] == s.tables[i].entries[Slot(s, u, i, j)]
    {
      assert Slot(s, u, i, j) in s.tables[i].entries;
    }
  }

  // The step changes what is known of t alone.
  ghost predicate Agrees(g: Ghost, g': Ghost, u: Thread) {
    && (u in g.rank <==> u in g'.rank) && (u in g.rank ==> g.rank[u] == g'.rank[u])
    && (u in g.home <==> u in g'.home) && (u in g.home ==> g.home[u] == g'.home[u])
  }

  ghost predicate LeavesAlone(s: State, g: Ghost, s': State, g': Ghost, t: Thread, u: Thread) {
    && u in s.pc && u in s'.pc && s'.pc[u] == s.pc[u] && u in s.got && u in s'.got && s'.got[u] == s.got[u]
    && Agrees(g, g', u) && (s'.lock == Some(u) <==> s.lock == Some(u))
    && (s.lock == Some(u) ==> |s'.tables| == |s.tables|)
  }

  lemma PcKept(s: State, g: Ghost, s': State, g': Ghost, t: Thread, u: Thread)
    requires Grew(s, s', t) && u != t && ThreadOk(s, g, u) && LeavesAlone(s, g, s', g', t, u)
    ensures PcOk(s', g', u, s.pc[u])
  {
    hide InTable, Passed, Path;
    var pc := s.pc[u];
    match pc
    case Look(main, i, k) =>
      PassedKept(s, s', t, u, i, k);
      forall x | i < x < |s'.tables| ensures !InTable(s', u, x) {
        InTableKept(s, s', t, u, x);
      }
    case MoveLoad(main, p, k) =>
      PassedKept(s, s', t, u, main, k);
      InTableKept(s, s', t, u, main);
    case MoveCas(main, p, k) =>
      PassedKept(s, s', t, u, main, k);
      InTableKept(s, s', t, u, main);
    case InsertLoad(main, _, _, k) => PassedKept(s, s', t, u, main, k);
    case InsertCas(main, _, _, k) => PassedKept(s, s', t, u, main, k);
    case _ =>
  }

  lemma PassedKept(s: State, s': State, t: Thread, u: Thread, i: nat, k: nat)
    requires Grew(s, s', t) && i < |s.tables| && Passed(s, u, i, k) && u != t
    ensures Passed(s', u, i, k) && s'.tables[i].capacity == s.tables[i].capacity
  {
    PathKept(s, s', t, u, i, k);
  }

  lemma ThreadKept(s: State, g: Ghost, s': State, g': Ghost, t: Thread, u: Thread)
    requires Grew(s, s', t) && u != t && ThreadOk(s, g, u) && LeavesAlone(s, g, s', g', t, u)
    ensures ThreadOk(s', g', u)
  {
    hide PcOk, InTable;
    PcKept(s, g, s', g', t, u);
    if u in g.home {
      var i :| 0 <= i < |s.tables| && InTable(s, u, i);
      InTableKept(s, s', t, u, i);
    }
  }

  // Tables are as good as they were when the ghost state only gains.
  ghost predicate Gains(g: Ghost, g': Ghost) {
    && (forall u :: u in g.home ==> u in g'.home && g'.home[u] == g.home[u])
    && (forall u :: u in g.home && u in g.rank ==> u in g'.rank && g'.rank[u] == g.rank[u])
  }

  lemma EntryKept(s: State, g: Ghost, s': State, g': Ghost, t: Thread, i: nat, slot: nat)
    requires Grew(s, s', t) && Gains(g, g') && i < |s.tables| && slot in s.tables[i].entries && EntryOk(s, g, i, slot)
    ensures slot in s'.tables[i].entries && EntryOk(s', g', i, slot)
  {
    hide Place;
    assert TableGrew(s.tables[i], s'.tables[i], t);
    var u := s.tables[i].entries[slot].key;
    var k: nat :| Path(s, u, i, k) && slot == Slot(s, u, i, k);
    PathKept(s, s', t, u, i, k);
    assert slot == Slot(s', u, i, k);
  }

  // A table without a new entry.
  lemma TableKept(s: State, g: Ghost, s': State, g': Ghost, t: Thread, i: nat)
    requires Grew(s, s', t) && Gains(g, g') && i < |s.tables| && TableOk(s, g, i) && s'.tables[i] == s.tables[i]
    ensures TableOk(s', g', i)
  {
    hide EntryOk;
    if i > 0 {
      assert TableGrew(s.tables[i - 1], s'.tables[i - 1], t);
    }
    forall slot | slot in s'.tables[i].entries ensures EntryOk(s', g', i, slot) {
      EntryKept(s, g, s', g', t, i, slot);
    }
  }

  // ------------------------------------------------------------------
  // One step
  // ------------------------------------------------------------------

  // The step is t's.
  ghost predicate OnlyT(s: State, g: Ghost, s': State, g': Ghost, t: Thread) {
    && t in s.pc && s'.pc.Keys == s.pc.Keys && s'.got.Keys == s.got.Keys
    && (forall u :: u in s.pc && u != t ==> LeavesAlone(s, g, s', g', t, u))
    && (s'.lock.Some? ==> s'.lock.value in s.pc)
    && g'.rank.Keys <= s.pc.Keys
  }

  lemma OthersAlone(s: State, g: Ghost, s': State, g': Ghost, t: Thread, pc: Pc, got: set<Producer>)
    requires s.got.Keys == s.pc.Keys && t in s.pc && s'.pc == s.pc[t := pc] && s'.got == s.got[t := got]
    requires s'.lock == s.lock || (s'.lock == None && s.lock == Some(t)) || (s'.lock == Some(t) && s.lock == None)
    requires |s'.tables| == |s.tables| || s.lock == Some(t)
    requires forall u :: u != t ==> Agrees(g, g', u)
    requires (s.lock.Some? ==> s.lock.value in s.pc) && g'.rank.Keys <= s.pc.Keys
    ensures OnlyT(s, g, s', g', t)
  {
    hide Agrees;
    forall u | u in s.pc && u != t ensures LeavesAlone(s, g, s', g', t, u) {}
  }

  lemma Assemble(s: State, g: Ghost, s': State, g': Ghost, t: Thread)
    requires Inv(s, g) && Grew(s, s', t) && Gains(g, g') && OnlyT(s, g, s', g', t)
    requires RankOk(g'.rank, s'.count) && ThreadOk(s', g', t)
    requires forall i :: 0 <= i < |s'.tables| && (i >= |s.tables| || s'.tables[i] != s.tables[i]) ==> TableOk(s', g', i)
    ensures Inv(s', g')
  {
    hide ThreadOk, TableOk, LeavesAlone, RankOk;
    forall i | 0 <= i < |s'.tables| ensures TableOk(s', g', i) {
      if i < |s.tables| && s'.tables[i] == s.tables[i] {
        TableKept(s, g, s', g', t, i);
      }
    }
    forall u | u in s'.pc ensures ThreadOk(s', g', u) {
      if u != t {
        ThreadKept(s, g, s', g', t, u);
      }
    }
  }

  lemma InvIsWellFormed(s: State, g: Ghost)
    requires Inv(s, g)
    ensures WellFormed(s)
  {
    forall t | t in s.pc ensures t in s.got && MainOk(s, s.pc[t]) {
      assert ThreadOk(s, g, t);
    }
  }

  // A probe that comes to an empty slot has shown that the key is not there.
  lemma NotHere(s: State, g: Ghost, t: Thread, i: nat, k: nat)
    requires i < |s.tables| && s.tables[i].capacity > 0 && TableOk(s, g, i) && Passed(s, t, i, k)
    requires Slot(s, t, i, k) !in s.tables[i].entries
    ensures !InTable(s, t, i)
  {
    hide Place;
  }

  lemma PassOne(s: State, g: Ghost, t: Thread, i: nat, k: nat)
    requires i < |s.tables| && s.tables[i].capacity > 0 && TableOk(s, g, i) && RankOk(g.rank, s.count) && Passed(s, t, i, k)
    requires Slot(s, t, i, k) in s.tables[i].entries && s.tables[i].entries[Slot(s, t, i, k)].key != t
    ensures Passed(s, t, i, k + 1)
  {
    PathBound(s, g, t, i, k);
  }

  // Later tables are larger.
  lemma {:induction false} LaterIsLarger(s: State, g: Ghost, i: nat, j: nat)
    requires Inv(s, g) && i <= j < |s.tables|
    ensures s.tables[i].capacity <= s.tables[j].capacity
    decreases j
  {
    if i < j {
      assert TableOk(s, g, j);
      LaterIsLarger(s, g, i, j - 1);
    }
  }

  lemma StandSame(s: State, s': State, g: Ghost, t: Thread, pc: Pc, lock: Option<Thread>, got: set<Producer>)
    requires Capacities(s) && s'.tables == s.tables && s'.hash == s.hash && StandOk(s, g, t, pc, lock, got)
    ensures Capacities(s') && StandOk(s', g, t, pc, lock, got)
  {
    hide PcOk, InTable;
    InTableSame(s, s', t);
    PcSame(s, s', g, t, pc);
  }

  lemma PcSame(s: State, s': State, g: Ghost, t: Thread, pc: Pc)
    requires Capacities(s) && s'.tables == s.tables && s'.hash == s.hash && PcOk(s, g, t, pc)
    ensures Capacities(s') && PcOk(s', g, t, pc)
  {
    hide Passed, InTable;
    InTableSame(s, s', t);
    match pc
    case Look(main, i, k) => SamePassed(s, s', t, i, k);
    case MoveLoad(main, p, k) => SamePassed(s, s', t, main, k);
    case MoveCas(main, p, k) => SamePassed(s, s', t, main, k);
    case InsertLoad(main, _, _, k) => SamePassed(s, s', t, main, k);
    case InsertCas(main, _, _, k) => SamePassed(s, s', t, main, k);
    case _ =>
  }

  lemma InTableSame(s: State, s': State, t: Thread)
    requires s'.tables == s.tables
    ensures forall i: nat :: i < |s.tables| ==> (InTable(s', t, i) <==> InTable(s, t, i))
  {
  }

  lemma SamePassed(s: State, s': State, t: Thread, i: nat, k: nat)
    requires Capacities(s) && s'.tables == s.tables && s'.hash == s.hash && i < |s.tables| && Passed(s, t, i, k)
    ensures Passed(s', t, i, k)
  {
    forall j: nat | j < k ensures Slot(s', t, i, j) == Slot(s, t, i, j) && Slot(s', t, i, j) in s'.tables[i].entries {
      assert Slot(s, t, i, j) in s.tables[i].entries;
    }
  }

  // A step that moves only t's program counter (and maybe the lock, or what t got).
  lemma Moves(s: State, g: Ghost, s': State, t: Thread, pc: Pc, lock: Option<Thread>, got: set<Producer>)
    requires Inv(s, g) && t in s.pc && StandOk(s, g, t, pc, lock, got)
    requires s'.tables == s.tables && s'.hash == s.hash && s'.count == s.count && s'.lock == lock
    requires s'.pc == s.pc[t := pc] && s'.got == s.got[t := got]
    requires lock == s.lock || (lock == None && s.lock == Some(t)) || (lock == Some(t) && s.lock == None)
    ensures Inv(s', g)
  {
    hide StandOk, TableOk, RankOk;
    StandSame(s, s', g, t, pc, lock, got);
    forall i | 0 <= i < |s.tables| ensures TableGrew(s.tables[i], s'.tables[i], t) {}
    forall u | u in s.pc && u != t ensures LeavesAlone(s, g, s', g, t, u) {
      assert ThreadOk(s, g, u);
    }
    assert s'.pc.Keys == s.pc.Keys && s'.got.Keys == s.got.Keys;
    Assemble(s, g, s', g, t);
  }

  lemma LookStep(s: State, g: Ghost, t: Thread, ok: bool)
    requires Inv(s, g) && t in s.pc && s.pc[t].Look? && WellFormed(s)
    ensures Inv(Step(s, t, ok), g)
  {
    hide TableOk, StandOk, RankOk;
    var Look(main, i, k) := s.pc[t];
    assert ThreadOk(s, g, t) && TableOk(s, g, i);
    LaterIsLarger(s, g, i, main);
    var pc, got := LookResult(s, g, t, main, i, k);
    hide Inv;
    Moves(s, g, Step(s, t, ok), t, pc, s.lock, got);
  }

  lemma LookResult(s: State, g: Ghost, t: Thread, main: nat, i: nat, k: nat) returns (pc: Pc, got: set<Producer>)
    requires Capacities(s) && WellFormed(s) && RankOk(g.rank, s.count) && t in s.pc && s.pc[t] == Look(main, i, k)
    requires ThreadOk(s, g, t) && i <= main < |s.tables| && TableOk(s, g, i) && s.tables[i].capacity <= s.tables[main].capacity
    ensures StandOk(s, g, t, pc, s.lock, got)
    ensures forall ok :: Step(s, t, ok) == s.(pc := s.pc[t := pc], got := s.got[t := got])
  {
    hide StandOk, TableOk, RankOk;
    var slot, table := Slot(s, t, i, k), s.tables[i];
    got := s.got[t];
    if slot !in table.entries {
      pc := if i == 0 then Join(main) else Look(main, i - 1, 0);
      LookEmpty(s, g, t, main, i, k);
    } else if table.entries[slot].key != t {
      pc := Look(main, i, k + 1);
      LookOn(s, g, t, main, i, k);
    } else {
      LookFound(s, g, t, main, i, k);
      if i != main {
        pc := MoveLoad(main, table.entries[slot].value, 0);
      } else {
        pc, got := Idle, got + {table.entries[slot].value};
      }
    }
    assert s.got == s.got[t := s.got[t]];
    forall ok ensures Step(s, t, ok) == s.(pc := s.pc[t := pc], got := s.got[t := got]) {}
  }

  lemma LookOn(s: State, g: Ghost, t: Thread, main: nat, i: nat, k: nat)
    requires Capacities(s) && RankOk(g.rank, s.count) && t in s.pc && s.pc[t] == Look(main, i, k) && ThreadOk(s, g, t) && i <= main < |s.tables|
    requires TableOk(s, g, i) && Slot(s, t, i, k) in s.tables[i].entries && s.tables[i].entries[Slot(s, t, i, k)].key != t
    ensures StandOk(s, g, t, Look(main, i, k + 1), s.lock, s.got[t])
  {
    hide InTable, TableOk, Slot, Passed, RankOk;
    PassOne(s, g, t, i, k);
  }

  lemma LookEmpty(s: State, g: Ghost, t: Thread, main: nat, i: nat, k: nat)
    requires Capacities(s) && t in s.pc && s.pc[t] == Look(main, i, k) && ThreadOk(s, g, t) && i <= main < |s.tables|
    requires TableOk(s, g, i) && Slot(s, t, i, k) !in s.tables[i].entries
    ensures StandOk(s, g, t, if i == 0 then Join(main) else Look(main, i - 1, 0), s.lock, s.got[t])
  {
    hide InTable, TableOk, Slot;
    NotHere(s, g, t, i, k);
    assert i > 0 ==> Passed(s, t, i - 1, 0);
  }

  lemma LookFound(s: State, g: Ghost, t: Thread, main: nat, i: nat, k: nat)
    requires Capacities(s) && t in s.pc && s.pc[t] == Look(main, i, k) && ThreadOk(s, g, t) && i <= main < |s.tables|
    requires TableOk(s, g, i) && s.tables[i].capacity <= s.tables[main].capacity
    requires Slot(s, t, i, k) in s.tables[i].entries && s.tables[i].entries[Slot(s, t, i, k)].key == t
    ensures var p := s.tables[i].entries[Slot(s, t, i, k)].value;
      && t in g.home && p == g.home[t] && StandOk(s, g, t, Idle, s.lock, s.got[t] + {p})
      && (i != main ==> StandOk(s, g, t, MoveLoad(main, p, 0), s.lock, s.got[t]))
  {
    hide InTable, TableOk, EntryOk, Slot;
    EntryFacts(s, g, i, Slot(s, t, i, k));
    assert Passed(s, t, main, 0);
  }

  lemma EntryFacts(s: State, g: Ghost, i: nat, slot: nat)
    requires i < |s.tables| && s.tables[i].capacity > 0 && TableOk(s, g, i) && slot in s.tables[i].entries
    ensures var e := s.tables[i].entries[slot];
      e.key in g.home && g.home[e.key] == e.value && e.key in g.rank && g.rank[e.key] < Limit(s.tables[i].capacity)
  {
    assert EntryOk(s, g, i, slot);
  }

  // The probe loops of migration and insertion, and failed swaps.
  lemma ProbeStep(s: State, g: Ghost, t: Thread, ok: bool)
    requires Inv(s, g) && WellFormed(s) && Probing(s, t)
    ensures Inv(Step(s, t, ok), g)
  {
    hide TableOk, StandOk, RankOk;
    assert ThreadOk(s, g, t) && TableOk(s, g, s.pc[t].main);
    var pc := ProbeResult(s, g, t);
    hide Inv;
    Moves(s, g, Step(s, t, ok), t, pc, s.lock, s.got[t]);
  }

  predicate Probing(s: State, t: Thread) {
    && Capacities(s) && t in s.pc && (s.pc[t].MoveLoad? || s.pc[t].InsertLoad? || s.pc[t].MoveCas? || s.pc[t].InsertCas?)
    && s.pc[t].main < |s.tables|
    && (s.pc[t].MoveCas? || s.pc[t].InsertCas? ==> Slot(s, t, s.pc[t].main, s.pc[t].k) in s.tables[s.pc[t].main].entries)
  }

  function ProbeNext(s: State, t: Thread): Pc
    requires Probing(s, t)
  {
    var main, k := s.pc[t].main, s.pc[t].k;
    var empty := Slot(s, t, main, k) !in s.tables[main].entries;
    match s.pc[t]
    case MoveLoad(_, p, _) => if empty then MoveCas(main, p, k) else MoveLoad(main, p, k + 1)
    case MoveCas(_, p, _) => MoveLoad(main, p, k + 1)
    case InsertLoad(_, n, p, _) => if empty then InsertCas(main, n, p, k) else InsertLoad(main, n, p, k + 1)
    case InsertCas(_, n, p, _) => InsertLoad(main, n, p, k + 1)
    case _ => Idle
  }

  lemma ProbeShape(s: State, t: Thread, ok: bool)
    requires WellFormed(s) && Probing(s, t)
    ensures Step(s, t, ok) == s.(pc := s.pc[t := ProbeNext(s, t)])
  {
  }

  lemma ProbeStand(s: State, g: Ghost, t: Thread)
    requires Capacities(s) && Probing(s, t) && RankOk(g.rank, s.count) && ThreadOk(s, g, t) && TableOk(s, g, s.pc[t].main)
    ensures StandOk(s, g, t, ProbeNext(s, t), s.lock, s.got[t])
  {
    hide Passed, TableOk, RankOk, Slot, InTable;
    var main, k := s.pc[t].main, s.pc[t].k;
    var slot := Slot(s, t, main, k);
    if slot in s.tables[main].entries {
      OthersKey(s, g, t, main, slot);
      PassOne(s, g, t, main, k);
    }
  }

  lemma ProbeResult(s: State, g: Ghost, t: Thread) returns (pc: Pc)
    requires Capacities(s) && WellFormed(s) && RankOk(g.rank, s.count) && Probing(s, t) && ThreadOk(s, g, t)
    requires TableOk(s, g, s.pc[t].main)
    ensures StandOk(s, g, t, pc, s.lock, s.got[t])
    ensures forall ok :: Step(s, t, ok) == s.(pc := s.pc[t := pc])
    ensures s.got == s.got[t := s.got[t]]
  {
    hide Step, TableOk, RankOk, PcOk, InTable;
    pc := ProbeNext(s, t);
    ProbeStand(s, g, t);
    forall ok ensures Step(s, t, ok) == s.(pc := s.pc[t := pc]) {
      ProbeShape(s, t, ok);
    }
  }

  // t's own key is not in the table it is about to put it into.
  lemma OthersKey(s: State, g: Ghost, t: Thread, i: nat, slot: nat)
    requires Capacities(s) && i < |s.tables| && TableOk(s, g, i) && slot in s.tables[i].entries
    requires t !in g.home || !InTable(s, t, i)
    ensures s.tables[i].entries[slot].key != t
  {
    EntryFacts(s, g, i, slot);
  }

  // Steps without a table: Top, Grow, Allocate, Unlock, Decide, Create, Reload, Release.
  predicate Plain(pc: Pc) {
    pc.Top? || pc.Grow? || pc.Allocate? || pc.Unlock? || pc.Decide? || pc.Create? || pc.Reload? || pc.Release?
  }

  lemma {:induction false} NextCapacityIs(capacity: nat, n: nat)
    requires capacity > 0
    ensures NextCapacity(capacity, n) >= 2 * capacity && n < NextCapacity(capacity, n) / 2
    decreases if n >= capacity then n - capacity + 1 else 0
  {
    if n >= capacity {
      NextCapacityIs(2 * capacity, n);
    }
  }

  lemma PlainStep(s: State, g: Ghost, t: Thread, ok: bool)
    requires Inv(s, g) && t in s.pc && WellFormed(s) && Plain(s.pc[t])
    ensures Inv(Step(s, t, ok), g)
  {
    hide TableOk, StandOk, RankOk;
    assert ThreadOk(s, g, t);
    if s.pc[t].Create? || s.pc[t].Unlock? {
      assert TableOk(s, g, s.pc[t].main);
    }
    var pc, lock := PlainResult(s, g, t, ok);
    hide Inv;
    Moves(s, g, Step(s, t, ok), t, pc, lock, s.got[t]);
  }

  // Where a plain step goes, and what it does to the lock.
  function PlainNext(s: State, t: Thread, ok: bool): (Pc, Option<Thread>)
    requires WellFormed(s) && t in s.pc && Plain(s.pc[t])
  {
    match s.pc[t]
    case Top(main, n) =>
      if n >= s.tables[main].capacity / 2 && s.lock.None? then (Grow(n), Some(t)) else (Decide(main, n), s.lock)
    case Grow(n) => (Allocate(|s.tables| - 1, n), s.lock)
    case Allocate(main, n) => (if ok then Publish(main, n, NextCapacity(s.tables[main].capacity, n)) else LeaveLocked, s.lock)
    case Unlock(main, n) => (Decide(main, n), None)
    case Decide(main, n) => (if n < Limit(s.tables[main].capacity) then Create(main, n) else Reload(n), s.lock)
    case Create(main, n) => (if ok then InsertLoad(main, n, s.made, 0) else Leave, s.lock)
    case Reload(n) => (Top(|s.tables| - 1, n), s.lock)
    case _ => (Idle, None)
  }

  lemma PlainShape(s: State, t: Thread, ok: bool)
    requires WellFormed(s) && t in s.pc && Plain(s.pc[t])
    ensures var s' := Step(s, t, ok);
      && s'.tables == s.tables && s'.hash == s.hash && s'.count == s.count && s'.got == s.got
      && s'.pc == s.pc[t := PlainNext(s, t, ok).0] && s'.lock == PlainNext(s, t, ok).1
  {
  }

  lemma PlainStand(s: State, g: Ghost, t: Thread, ok: bool)
    requires Capacities(s) && WellFormed(s) && t in s.pc && ThreadOk(s, g, t) && Plain(s.pc[t])
    ensures StandOk(s, g, t, PlainNext(s, t, ok).0, PlainNext(s, t, ok).1, s.got[t])
  {
    hide InTable, PcOk;
    PlainPc(s, g, t, ok);
    var pc := s.pc[t];
    match pc
    case Top(_, _) =>
    case Grow(_) =>
    case Allocate(_, _) =>
    case Unlock(_, _) =>
    case Decide(_, _) =>
    case Create(_, _) =>
    case Reload(_) =>
    case Release =>
  }

  lemma PlainPc(s: State, g: Ghost, t: Thread, ok: bool)
    requires Capacities(s) && WellFormed(s) && t in s.pc && ThreadOk(s, g, t) && Plain(s.pc[t])
    ensures PcOk(s, g, t, PlainNext(s, t, ok).0)
  {
    hide InTable, Passed;
    match s.pc[t]
    case Allocate(main, n) => NextCapacityIs(s.tables[main].capacity, n);
    case Create(main, n) => NothingPassed(s, t, main);
    case _ =>
  }

  lemma NothingPassed(s: State, t: Thread, i: nat)
    requires Capacities(s) && i < |s.tables|
    ensures Passed(s, t, i, 0)
  {
  }

  lemma PlainResult(s: State, g: Ghost, t: Thread, ok: bool) returns (pc: Pc, lock: Option<Thread>)
    requires Capacities(s) && WellFormed(s) && t in s.pc && ThreadOk(s, g, t) && Plain(s.pc[t])
    ensures StandOk(s, g, t, pc, lock, s.got[t])
    ensures var s' := Step(s, t, ok);
      s'.tables == s.tables && s'.hash == s.hash && s'.count == s.count && s'.lock == lock && s'.pc == s.pc[t := pc] && s'.got == s.got
    ensures lock == s.lock || (lock == None && s.lock == Some(t)) || (lock == Some(t) && s.lock == None)
    ensures s.got == s.got[t := s.got[t]]
  {
    hide Step, PcOk, InTable;
    pc, lock := PlainNext(s, t, ok).0, PlainNext(s, t, ok).1;
    PlainShape(s, t, ok);
    PlainStand(s, g, t, ok);
  }

  // A call begins with the newest table; whatever t has is in one of them.
  lemma CallStep(s: State, g: Ghost, t: Thread)
    requires Inv(s, g) && WellFormed(s) && Enabled(s, Call(t))
    ensures Inv(Do(s, Call(t)), g)
  {
    hide TableOk, StandOk, RankOk;
    assert ThreadOk(s, g, t);
    CallResult(s, g, t);
    hide Inv;
    assert s.got == s.got[t := s.got[t]];
    Moves(s, g, Do(s, Call(t)), t, Look(|s.tables| - 1, |s.tables| - 1, 0), s.lock, s.got[t]);
  }

  lemma CallResult(s: State, g: Ghost, t: Thread)
    requires Capacities(s) && s.tables != [] && ThreadOk(s, g, t) && s.pc[t].Idle?
    ensures StandOk(s, g, t, Look(|s.tables| - 1, |s.tables| - 1, 0), s.lock, s.got[t])
  {
    hide InTable;
    assert Passed(s, t, |s.tables| - 1, 0);
  }

  // A step that changes the count.
  lemma CountStep(s: State, g: Ghost, t: Thread, ok: bool) returns (g': Ghost)
    requires Inv(s, g) && t in s.pc && WellFormed(s) && (s.pc[t].Join? || s.pc[t].Leave? || s.pc[t].LeaveLocked?)
    ensures Inv(Step(s, t, ok), g')
  {
    hide TableOk, StandOk, RankOk, Step, Agrees;
    var s' := Step(s, t, ok);
    assert ThreadOk(s, g, t);
    g' := CountResult(s, g, t, ok);
    SameTablesGrew(s, s', t);
    OthersAlone(s, g, s', g', t, s'.pc[t], s.got[t]);
    Assemble(s, g, s', g', t);
  }

  lemma SameTablesGrew(s: State, s': State, t: Thread)
    requires Capacities(s) && s'.tables == s.tables && s'.hash == s.hash
    ensures Grew(s, s', t)
  {
    forall i | 0 <= i < |s.tables| ensures TableGrew(s.tables[i], s'.tables[i], t) {}
  }

  lemma CountResult(s: State, g: Ghost, t: Thread, ok: bool) returns (g': Ghost)
    requires Capacities(s) && WellFormed(s) && t in s.pc && ThreadOk(s, g, t) && RankOk(g.rank, s.count)
    requires s.pc[t].Join? || s.pc[t].Leave? || s.pc[t].LeaveLocked?
    ensures var s' := Step(s, t, ok);
      && s'.tables == s.tables && s'.hash == s.hash && s'.lock == s.lock && t in s'.pc && s'.pc == s.pc[t := s'.pc[t]]
      && s'.got == s.got == s.got[t := s.got[t]] && Capacities(s') && ThreadOk(s', g', t) && RankOk(g'.rank, s'.count)
    ensures Gains(g, g') && g'.rank.Keys <= g.rank.Keys + {t} && forall u :: u != t ==> Agrees(g, g', u)
  {
    hide StandOk, RankOk, Step, Gains, Agrees, WellFormed;
    var s' := Step(s, t, ok);
    var pc: Pc;
    CountFacts(s, g, t);
    CountShape(s, t, ok);
    g', pc := CountNext(s, g, t);
    CountGhost(g, g', t);
    SameGot(s.got, t);
    CountStand(s, g, g', t, pc);
    StandSame(s, s', g', t, pc, s.lock, s.got[t]);
  }

  // The rank of t, and where it goes.
  lemma CountNext(s: State, g: Ghost, t: Thread) returns (g': Ghost, pc: Pc)
    requires t in s.pc && s.count >= 0 && RankOk(g.rank, s.count) && (t in g.rank <==> !s.pc[t].Join?)
    requires s.pc[t].Join? || s.pc[t].Leave? || s.pc[t].LeaveLocked?
    ensures pc == if s.pc[t].Join? then Top(s.pc[t].main, s.count + 1) else if s.pc[t].Leave? then Idle else Release
    ensures g' == g.(rank := if s.pc[t].Join? then g.rank[t := s.count + 1] else g.rank - {t})
    ensures RankOk(g'.rank, if s.pc[t].Join? then s.count + 1 else s.count - 1)
  {
    hide RankOk;
    if s.pc[t].Join? {
      g', pc := g.(rank := g.rank[t := s.count + 1]), Top(s.pc[t].main, s.count + 1);
      JoinRank(g.rank, s.count, t);
    } else {
      g', pc := g.(rank := g.rank - {t}), if s.pc[t].Leave? then Idle else Release;
      LeaveRank(g.rank, s.count, t);
    }
  }

  lemma SameGot(got: map<Thread, set<Producer>>, t: Thread)
    requires t in got
    ensures got == got[t := got[t]]
  {
  }

  // Only the rank of a thread without a producer changes.
  lemma CountGhost(g: Ghost, g': Ghost, t: Thread)
    requires g'.home == g.home && t !in g.home && (g'.rank == g.rank - {t} || (t in g'.rank && g'.rank == g.rank[t := g'.rank[t]]))
    ensures Gains(g, g') && g'.rank.Keys <= g.rank.Keys + {t} && forall u :: u != t ==> Agrees(g, g', u)
  {
  }

  lemma CountFacts(s: State, g: Ghost, t: Thread)
    requires Capacities(s) && t in s.pc && ThreadOk(s, g, t) && (s.pc[t].Join? || s.pc[t].Leave? || s.pc[t].LeaveLocked?)
    ensures t in s.got && t !in g.home && (t in g.rank <==> !s.pc[t].Join?)
  {
    hide InTable;
  }

  lemma CountShape(s: State, t: Thread, ok: bool)
    requires WellFormed(s) && t in s.pc && (s.pc[t].Join? || s.pc[t].Leave? || s.pc[t].LeaveLocked?)
    ensures s.count >= 0
    ensures s.pc[t].Join? ==> Step(s, t, ok) == s.(pc := s.pc[t := Top(s.pc[t].main, s.count + 1)], count := s.count + 1)
    ensures s.pc[t].Leave? ==> Step(s, t, ok) == s.(pc := s.pc[t := Idle], count := s.count - 1)
    ensures s.pc[t].LeaveLocked? ==> Step(s, t, ok) == s.(pc := s.pc[t := Release], count := s.count - 1)
  {
  }

  lemma CountStand(s: State, g: Ghost, g': Ghost, t: Thread, pc: Pc)
    requires Capacities(s) && t in s.pc && ThreadOk(s, g, t) && g'.home == g.home
    requires s.pc[t].Join? ==> pc.Top? && pc.main == s.pc[t].main && t in g'.rank && g'.rank[t] == pc.n
    requires !s.pc[t].Join? ==> (s.pc[t].Leave? && pc.Idle?) || (s.pc[t].LeaveLocked? && pc.Release?)
    requires !s.pc[t].Join? ==> t !in g'.rank
    ensures StandOk(s, g', t, pc, s.lock, s.got[t])
  {
    hide InTable, Passed;
  }

  // A new table.
  lemma PublishStep(s: State, g: Ghost, t: Thread, ok: bool)
    requires Inv(s, g) && t in s.pc && WellFormed(s) && s.pc[t].Publish?
    ensures Inv(Step(s, t, ok), g)
  {
    hide TableOk, StandOk, RankOk, Step, Agrees;
    var s' := Step(s, t, ok);
    assert ThreadOk(s, g, t) && TableOk(s, g, |s.tables| - 1);
    PublishResult(s, g, t, ok);
    assert s.got == s.got[t := s.got[t]];
    OthersAlone(s, g, s', g, t, s'.pc[t], s.got[t]);
    Assemble(s, g, s', g, t);
  }

  lemma PublishResult(s: State, g: Ghost, t: Thread, ok: bool)
    requires Capacities(s) && WellFormed(s) && t in s.pc && s.pc[t].Publish? && ThreadOk(s, g, t) && TableOk(s, g, |s.tables| - 1)
    ensures var s' := Step(s, t, ok);
      && Grew(s, s', t) && |s'.tables| == |s.tables| + 1 && TableOk(s', g, |s.tables|) && s'.count == s.count
      && (forall i :: 0 <= i < |s.tables| ==> s'.tables[i] == s.tables[i]) && s'.lock == s.lock == Some(t)
      && s'.got == s.got && s'.pc == s.pc[t := Unlock(|s.tables|, s.pc[t].n)] && ThreadOk(s', g, t)
    ensures Gains(g, g) && forall u :: Agrees(g, g, u)
  {
    hide InTable, EntryOk, RankOk;
    var s', n := Step(s, t, ok), |s.tables|;
    assert s'.tables[n] == Table(s.pc[t].capacity, map[]);
    forall i | 0 <= i < n ensures s'.tables[i] == s.tables[i] && TableGrew(s.tables[i], s'.tables[i], t) {}
  }

  // A key goes into an empty slot.
  ghost predicate Puts(s: State, g: Ghost, t: Thread) {
    && t in s.pc && (s.pc[t].MoveCas? || s.pc[t].InsertCas?) && s.pc[t].main < |s.tables| && Capacities(s)
    && Slot(s, t, s.pc[t].main, s.pc[t].k) !in s.tables[s.pc[t].main].entries
  }

  ghost function PutGhost(s: State, g: Ghost, t: Thread): Ghost
    requires t in s.pc && (s.pc[t].MoveCas? || s.pc[t].InsertCas?)
  {
    g.(home := g.home[t := s.pc[t].p])
  }

  lemma PutGrew(s: State, g: Ghost, t: Thread, ok: bool)
    requires WellFormed(s) && Puts(s, g, t)
    ensures Grew(s, Step(s, t, ok), t)
  {
    var s' := Step(s, t, ok);
    forall i | 0 <= i < |s.tables| ensures TableGrew(s.tables[i], s'.tables[i], t) && s'.tables[i].capacity > 0 {}
  }

  // t's facts before it puts its key.
  lemma PutFacts(s: State, g: Ghost, t: Thread)
    requires Puts(s, g, t) && ThreadOk(s, g, t) && TableOk(s, g, s.pc[t].main)
    ensures var main := s.pc[t].main;
      && t in g.rank && g.rank[t] < Limit(s.tables[main].capacity) && Passed(s, t, main, s.pc[t].k)
      && (t in g.home ==> g.home[t] == s.pc[t].p) && s.got[t] <= {s.pc[t].p}
      && s.lock != Some(t)
      && forall slot :: slot in s.tables[main].entries ==> s.tables[main].entries[slot].key != t
  {
    var main := s.pc[t].main;
    forall slot | slot in s.tables[main].entries ensures s.tables[main].entries[slot].key != t {
      OthersKey(s, g, t, main, slot);
    }
  }

  lemma PutEntry(s: State, g: Ghost, t: Thread, ok: bool)
    requires WellFormed(s) && Puts(s, g, t)
    ensures var s', main, k := Step(s, t, ok), s.pc[t].main, s.pc[t].k;
      main < |s'.tables| && s'.tables[main].entries == s.tables[main].entries[Slot(s, t, main, k) := Entry(t, s.pc[t].p)]
  {
    hide Slot;
  }

  lemma PutTable(s: State, g: Ghost, t: Thread, ok: bool)
    requires WellFormed(s) && Puts(s, g, t) && ThreadOk(s, g, t) && TableOk(s, g, s.pc[t].main) && RankOk(g.rank, s.count)
    requires Gains(g, PutGhost(s, g, t))
    ensures Grew(s, Step(s, t, ok), t) && TableOk(Step(s, t, ok), PutGhost(s, g, t), s.pc[t].main)
  {
    hide Step, StandOk, Slot, ThreadOk, RankOk;
    var s', g', main, k := Step(s, t, ok), PutGhost(s, g, t), s.pc[t].main, s.pc[t].k;
    var slot := Slot(s, t, main, k);
    PutGrew(s, g, t, ok);
    PutFacts(s, g, t);
    PutEntry(s, g, t, ok);
    assert TableGrew(s.tables[main], s'.tables[main], t);
    NewEntry(s, g, s', g', t, main, k, slot);
    forall x | x in s'.tables[main].entries ensures EntryOk(s', g', main, x) {
      if x != slot {
        EntryKept(s, g, s', g', t, main, x);
      }
    }
    if main > 0 {
      assert TableGrew(s.tables[main - 1], s'.tables[main - 1], t);
    }
  }

  lemma NewEntry(s: State, g: Ghost, s': State, g': Ghost, t: Thread, i: nat, k: nat, slot: nat)
    requires Grew(s, s', t) && i < |s.tables| && Path(s, t, i, k) && slot == Slot(s, t, i, k)
    requires slot in s'.tables[i].entries && s'.tables[i].entries[slot].key == t
    requires t in g'.home && g'.home[t] == s'.tables[i].entries[slot].value && t in g'.rank && g'.rank[t] < Limit(s.tables[i].capacity)
    ensures EntryOk(s', g', i, slot)
  {
    PathKept(s, s', t, t, i, k);
    assert TableGrew(s.tables[i], s'.tables[i], t);
    assert slot == Slot(s', t, i, k);
  }

  lemma PutStep(s: State, g: Ghost, t: Thread, ok: bool) returns (g': Ghost)
    requires Inv(s, g) && WellFormed(s) && Puts(s, g, t)
    ensures Inv(Step(s, t, ok), g')
  {
    hide TableOk, StandOk, RankOk, Step, Agrees, Puts;
    var main := PutMain(s, g, t);
    var s' := Step(s, t, ok);
    g' := PutGhost(s, g, t);
    assert ThreadOk(s, g, t) && TableOk(s, g, main);
    PutGains(s, g, t);
    PutTable(s, g, t, ok);
    PutThread(s, g, t, ok);
    PutShape(s, g, t, ok);
    OthersAlone(s, g, s', g', t, Idle, s'.got[t]);
    Assemble(s, g, s', g', t);
  }

  ghost function PutMain(s: State, g: Ghost, t: Thread): (main: nat)
    requires Puts(s, g, t)
    ensures t in s.pc && (s.pc[t].MoveCas? || s.pc[t].InsertCas?) && main == s.pc[t].main < |s.tables|
  {
    s.pc[t].main
  }

  lemma PutGains(s: State, g: Ghost, t: Thread)
    requires Puts(s, g, t) && ThreadOk(s, g, t) && TableOk(s, g, s.pc[t].main)
    ensures Gains(g, PutGhost(s, g, t)) && forall u :: u != t ==> Agrees(g, PutGhost(s, g, t), u)
  {
    PutFacts(s, g, t);
  }

  lemma PutShape(s: State, g: Ghost, t: Thread, ok: bool)
    requires WellFormed(s) && Puts(s, g, t)
    ensures var s' := Step(s, t, ok);
      && t in s'.got && s'.pc == s.pc[t := Idle] && s'.got == s.got[t := s'.got[t]] && s'.lock == s.lock && |s'.tables| == |s.tables|
      && s'.count == s.count && forall i :: 0 <= i < |s.tables| && i != s.pc[t].main ==> s'.tables[i] == s.tables[i]
  {
  }

  lemma PutThread(s: State, g: Ghost, t: Thread, ok: bool)
    requires WellFormed(s) && Puts(s, g, t) && ThreadOk(s, g, t) && TableOk(s, g, s.pc[t].main)
    ensures Capacities(Step(s, t, ok)) && ThreadOk(Step(s, t, ok), PutGhost(s, g, t), t)
  {
    var s', main := Step(s, t, ok), s.pc[t].main;
    PutGrew(s, g, t, ok);
    PutFacts(s, g, t);
    var slot := Slot(s, t, main, s.pc[t].k);
    assert slot in s'.tables[main].entries && s'.tables[main].entries[slot].key == t;
    assert InTable(s', t, main);
  }

  // ------------------------------------------------------------------
  // Whole runs
  // ------------------------------------------------------------------

  lemma KeepsInv(s: State, g: Ghost, a: Action) returns (g': Ghost)
    requires Inv(s, g) && Enabled(s, a)
    ensures WellFormed(s) && Inv(Do(s, a), g')
  {
    InvIsWellFormed(s, g);
    g' := g;
    if a.Call? {
      CallStep(s, g, a.t);
    } else {
      g' := StepKeepsInv(s, g, a.t, a.ok);
    }
  }

  lemma StepKeepsInv(s: State, g: Ghost, t: Thread, ok: bool) returns (g': Ghost)
    requires Inv(s, g) && WellFormed(s) && t in s.pc && !s.pc[t].Idle?
    ensures Inv(Step(s, t, ok), g')
  {
    hide Inv, Step, WellFormed;
    g' := g;
    var pc := s.pc[t];
    if pc.Look? {
      LookStep(s, g, t, ok);
    } else if Plain(pc) {
      PlainStep(s, g, t, ok);
    } else if pc.Join? || pc.Leave? || pc.LeaveLocked? {
      g' := CountStep(s, g, t, ok);
    } else if pc.Publish? {
      PublishStep(s, g, t, ok);
    } else {
      g' := SwapStep(s, g, t, ok);
    }
  }

  lemma SwapStep(s: State, g: Ghost, t: Thread, ok: bool) returns (g': Ghost)
    requires Inv(s, g) && WellFormed(s) && t in s.pc
    requires s.pc[t].MoveLoad? || s.pc[t].InsertLoad? || s.pc[t].MoveCas? || s.pc[t].InsertCas?
    ensures Inv(Step(s, t, ok), g')
  {
    hide Step, TableOk, ThreadOk, RankOk;
    g' := g;
    assert MainOk(s, s.pc[t]);
    if s.pc[t].MoveLoad? || s.pc[t].InsertLoad? || Slot(s, t, s.pc[t].main, s.pc[t].k) in s.tables[s.pc[t].main].entries {
      ProbeStep(s, g, t, ok);
    } else {
      g' := PutStep(s, g, t, ok);
    }
  }

  ghost predicate IsRun(states: seq<State>, actions: seq<Action>) {
    && |states| == |actions| + 1 && Initial(states[0])
    && forall i :: 0 <= i < |actions| ==> Follows(states[i], actions[i], states[i + 1])
  }

  ghost predicate Follows(s: State, a: Action, s': State) {
    WellFormed(s) && Enabled(s, a) && s' == Do(s, a)
  }

  lemma InitialInv(s: State)
    requires Initial(s)
    ensures Inv(s, Ghost(map[], map[]))
  {
    forall n: nat ensures |AtMost(map[], n)| <= n {
      assert AtMost(map[], n) == {};
    }
  }

  lemma {:induction false} RunKeepsInv(states: seq<State>, actions: seq<Action>, i: nat) returns (g: Ghost)
    requires IsRun(states, actions) && i < |states|
    ensures Inv(states[i], g)
    decreases i
  {
    hide Inv;
    if i == 0 {
      InitialInv(states[0]);
      g := Ghost(map[], map[]);
    } else {
      var before := RunKeepsInv(states, actions, i - 1);
      assert Follows(states[i - 1], actions[i - 1], states[i]);
      g := KeepsInv(states[i - 1], before, actions[i - 1]);
    }
  }

  // How many slots the probe loop that t is in has passed.
  function Probes(pc: Pc): (r: Option<(nat, nat)>) {
    match pc
    case Look(_, i, k) => Some((i, k))
    case MoveLoad(main, _, k) => Some((main, k))
    case MoveCas(main, _, k) => Some((main, k))
    case InsertLoad(main, _, _, k) => Some((main, k))
    case InsertCas(main, _, _, k) => Some((main, k))
    case _ => None
  }

  /** In every state of every run: no table is three quarters full, so that every probe loop ends before
      it has gone round, and the calls of a thread have returned one producer at most. */
  lemma Safety(states: seq<State>, actions: seq<Action>, i: nat)
    requires IsRun(states, actions) && i < |states|
    ensures forall j :: 0 <= j < |states[i].tables| ==> |states[i].tables[j].entries| < Limit(states[i].tables[j].capacity)
    ensures forall t :: t in states[i].pc && Probes(states[i].pc[t]).Some? ==>
      var (table, k) := Probes(states[i].pc[t]).value;
      table < |states[i].tables| && k < Limit(states[i].tables[table].capacity)
    ensures forall t, p, q :: t in states[i].got && p in states[i].got[t] && q in states[i].got[t] ==> p == q
  {
    hide Inv, IsRun;
    var s := states[i];
    var g := RunKeepsInv(states, actions, i);
    forall j | 0 <= j < |s.tables| ensures |s.tables[j].entries| < Limit(s.tables[j].capacity) {
      TableNotFull(s, g, j);
    }
    forall t | t in s.pc && Probes(s.pc[t]).Some?
      ensures var (table, k) := Probes(s.pc[t]).value; table < |s.tables| && k < Limit(s.tables[table].capacity)
    {
      ProbeBound(s, g, t);
    }
    forall t, p, q | t in s.got && p in s.got[t] && q in s.got[t] ensures p == q {
      GotOne(s, g, t, p, q);
    }
  }

  lemma ProbeBound(s: State, g: Ghost, t: Thread)
    requires Inv(s, g) && t in s.pc && Probes(s.pc[t]).Some?
    ensures var (table, k) := Probes(s.pc[t]).value; table < |s.tables| && k < Limit(s.tables[table].capacity)
  {
    hide EntryOk, RankOk;
    assert ThreadOk(s, g, t);
    var (table, k) := Probes(s.pc[t]).value;
    assert TableOk(s, g, table);
    PathBound(s, g, t, table, k);
  }

  lemma GotOne(s: State, g: Ghost, t: Thread, p: Producer, q: Producer)
    requires Inv(s, g) && t in s.got && p in s.got[t] && q in s.got[t]
    ensures p == q
  {
    hide TableOk, RankOk;
    assert ThreadOk(s, g, t);
  }

  // The entries have as many different keys, all of them counted.
  lemma {:induction false} KeysOf(s: State, g: Ghost, i: nat, slots: set<nat>) returns (ids: set<Thread>)
    requires i < |s.tables| && s.tables[i].capacity > 0 && TableOk(s, g, i) && slots <= s.tables[i].entries.Keys
    ensures |ids| == |slots| && ids <= AtMost(g.rank, Limit(s.tables[i].capacity) - 1)
    ensures forall x :: x in ids ==> exists y :: y in slots && s.tables[i].entries[y].key == x
    decreases slots
  {
    if slots == {} {
      ids := {};
    } else {
      var y :| y in slots;
      var rest := KeysOf(s, g, i, slots - {y});
      EntryFacts(s, g, i, y);
      hide EntryOk;
      ids := rest + {s.tables[i].entries[y].key};
    }
  }

  lemma TableNotFull(s: State, g: Ghost, i: nat)
    requires Inv(s, g) && i < |s.tables|
    ensures |s.tables[i].entries| < Limit(s.tables[i].capacity)
  {
    assert TableOk(s, g, i);
    var ids := KeysOf(s, g, i, s.tables[i].entries.Keys);
    Subset(ids, AtMost(g.rank, Limit(s.tables[i].capacity) - 1));
    assert |s.tables[i].entries| == |s.tables[i].entries.Keys|;
  }

  /** Every action that is enabled at the end of a run can follow it. */
  lemma GoesOn(states: seq<State>, actions: seq<Action>, a: Action)
    requires IsRun(states, actions) && Enabled(states[|actions|], a)
    ensures WellFormed(states[|actions|]) && IsRun(states + [Do(states[|actions|], a)], actions + [a])
  {
    hide Inv, WellFormed, Do;
    var g := RunKeepsInv(states, actions, |actions|);
    InvIsWellFormed(states[|actions|], g);
    var longer, more := states + [Do(states[|actions|], a)], actions + [a];
    forall i | 0 <= i < |more| ensures Follows(longer[i], more[i], longer[i + 1]) {
      assert i < |actions| ==> Follows(states[i], actions[i], states[i + 1]);
    }
  }


  // ------------------------------------------------------------------
  // Whose a producer is
  // ------------------------------------------------------------------

  predicate Carries(pc: Pc, p: Producer) {
    (pc.MoveLoad? || pc.MoveCas? || pc.InsertLoad? || pc.InsertCas?) && pc.p == p
  }

  ghost predicate Stored(s: State, t: Thread, p: Producer) {
    exists i, slot :: 0 <= i < |s.tables| && slot in s.tables[i].entries && s.tables[i].entries[slot] == Entry(t, p)
  }

  // Thread t has been given producer p, is about to be, or will find it under its key.
  ghost predicate Has(s: State, t: Thread, p: Producer) {
    (t in s.got && p in s.got[t]) || (t in s.pc && Carries(s.pc[t], p)) || Stored(s, t, p)
  }

  ghost predicate Apart(s: State) {
    && (forall t: Thread, p: Producer {:trigger Has(s, t, p)} :: Has(s, t, p) ==> p < s.made)
    && (forall t: Thread, u: Thread, p: Producer {:trigger Has(s, t, p), Has(s, u, p)} :: Has(s, t, p) && Has(s, u, p) ==> t == u)
  }

  lemma StoredStep(s: State, t: Thread, i: nat, slot: nat, p: Producer, s': State, u: Thread, q: Producer)
    requires i < |s.tables| && s'.tables == Put(s, i, slot, t, p).tables && Stored(s', u, q)
    ensures Stored(s, u, q) || (u == t && q == p)
  {
    var j, x :| 0 <= j < |s'.tables| && x in s'.tables[j].entries && s'.tables[j].entries[x] == Entry(u, q);
    if j != i || x != slot {
      assert x in s.tables[j].entries && s.tables[j].entries[x] == Entry(u, q);
    }
  }

  lemma StoredSame(s: State, s': State, u: Thread, q: Producer)
    requires Stored(s', u, q)
    requires s'.tables == s.tables || exists c :: s'.tables == s.tables + [Table(c, map[])]
    ensures Stored(s, u, q)
  {
    var j, x :| 0 <= j < |s'.tables| && x in s'.tables[j].entries && s'.tables[j].entries[x] == Entry(u, q);
    assert j < |s.tables| && x in s.tables[j].entries;
  }

  // What a thread holds after its step.
  lemma HoldsStep(s: State, t: Thread, ok: bool, q: Producer)
    requires WellFormed(s) && t in s.pc && !s.pc[t].Idle?
    ensures var s' := Step(s, t, ok);
      && t in s'.pc && t in s'.got
      && (q in s'.got[t] || Carries(s'.pc[t], q) ==>
          q in s.got[t] || Carries(s.pc[t], q) || Stored(s, t, q) || (q == s.made && s'.made == s.made + 1))
  {
    hide Slot, Place, NextCapacity, Limit, Put, Stored;
    assert MainOk(s, s.pc[t]) && t in s.got;
    hide WellFormed, MainOk;
    if Probes(s.pc[t]).Some? {
      HoldsProbe(s, t, ok, q);
    }
  }

  lemma HoldsProbe(s: State, t: Thread, ok: bool, q: Producer)
    requires WellFormed(s) && t in s.pc && Probes(s.pc[t]).Some?
    ensures var s' := Step(s, t, ok);
      && t in s'.pc && t in s'.got
      && (q in s'.got[t] || Carries(s'.pc[t], q) ==> q in s.got[t] || Carries(s.pc[t], q) || Stored(s, t, q))
  {
    hide Slot, Place;
    assert MainOk(s, s.pc[t]) && t in s.got;
    hide WellFormed;
    var pc := s.pc[t];
    if pc.Look? {
      var slot := Slot(s, t, pc.table, pc.k);
      assert slot in s.tables[pc.table].entries && s.tables[pc.table].entries[slot].key == t ==>
        Stored(s, t, s.tables[pc.table].entries[slot].value);
    }
  }

  // The tables after it.
  lemma TablesStep(s: State, t: Thread, ok: bool, u: Thread, q: Producer)
    requires WellFormed(s) && t in s.pc && !s.pc[t].Idle? && Stored(Step(s, t, ok), u, q)
    ensures Stored(s, u, q) || (u == t && Carries(s.pc[t], q))
  {
    hide Slot, Place, NextCapacity, Limit;
    var s', pc := Step(s, t, ok), s.pc[t];
    assert MainOk(s, pc);
    if (pc.MoveCas? || pc.InsertCas?) && s'.tables != s.tables {
      StoredStep(s, t, pc.main, Slot(s, t, pc.main, pc.k), pc.p, s', u, q);
    } else {
      StoredSame(s, s', u, q);
    }
  }

  // Nobody gets hold of a producer but by making it.
  lemma HasStep(s: State, t: Thread, ok: bool, u: Thread, q: Producer)
    requires WellFormed(s) && t in s.pc && !s.pc[t].Idle? && Has(Step(s, t, ok), u, q)
    ensures Has(s, u, q) || (u == t && q == s.made && Step(s, t, ok).made == s.made + 1)
  {
    hide Step, Stored;
    assert t in s.got;
    hide WellFormed;
    if Stored(Step(s, t, ok), u, q) {
      TablesStep(s, t, ok, u, q);
    } else if u == t {
      HoldsStep(s, t, ok, q);
    } else {
      OthersStep(s, t, ok, u);
    }
  }

  lemma MadeGrows(s: State, t: Thread, ok: bool)
    requires WellFormed(s) && t in s.pc && !s.pc[t].Idle?
    ensures Step(s, t, ok).made >= s.made
  {
    hide Slot, Place, NextCapacity, Limit;
  }

  lemma ApartStep(s: State, a: Action, s': State)
    requires Apart(s) && Follows(s, a, s')
    ensures Apart(s')
  {
    hide Step;
    if a.Call? {
      forall u, q | Has(s', u, q) ensures Has(s, u, q) {
        if Stored(s', u, q) {
          StoredSame(s, s', u, q);
        }
      }
    } else {
      MadeGrows(s, a.t, a.ok);
      forall u, q | Has(s', u, q) ensures Has(s, u, q) || (u == a.t && q == s.made && s'.made == s.made + 1) {
        HasStep(s, a.t, a.ok, u, q);
      }
    }
  }

  lemma {:induction false} RunIsApart(states: seq<State>, actions: seq<Action>, i: nat)
    requires IsRun(states, actions) && i < |states|
    ensures Apart(states[i])
    decreases i
  {
    if i > 0 {
      RunIsApart(states, actions, i - 1);
      hide Apart;
      assert Follows(states[i - 1], actions[i - 1], states[i]);
      ApartStep(states[i - 1], actions[i - 1], states[i]);
    }
  }

  /** No two threads are ever given the same producer. */
  lemma NotShared(states: seq<State>, actions: seq<Action>, i: nat, t: Thread, u: Thread, p: Producer)
    requires IsRun(states, actions) && i < |states| && t in states[i].got && u in states[i].got
    requires p in states[i].got[t] && p in states[i].got[u]
    ensures t == u
  {
    RunIsApart(states, actions, i);
    assert Has(states[i], t, p) && Has(states[i], u, p);
  }

  // ------------------------------------------------------------------
  // When a call returns null
  // ------------------------------------------------------------------

  // The call is on its way out without a producer.
  predicate Failed(pc: Pc) {
    pc.Leave? || pc.LeaveLocked? || pc.Release?
  }

  // An allocation of the thread fails in this step.
  predicate Refused(s: State, a: Action, t: Thread) {
    a == Advance(t, false) && t in s.pc && (s.pc[t].Allocate? || s.pc[t].Create?)
  }

  lemma OwnStep(s: State, t: Thread, ok: bool)
    requires WellFormed(s) && t in s.pc && !s.pc[t].Idle?
    ensures var s' := Step(s, t, ok);
      && t in s'.pc && (Failed(s'.pc[t]) ==> Failed(s.pc[t]) || (!ok && (s.pc[t].Allocate? || s.pc[t].Create?)))
      && (s'.pc[t].Idle? && !Failed(s.pc[t]) ==> t in s'.got && s'.got[t] != {})
  {
    hide Slot, Place, NextCapacity, Limit, Put;
    assert MainOk(s, s.pc[t]) && t in s.got;
    hide WellFormed, MainOk;
    if Probes(s.pc[t]).Some? {
      OwnProbe(s, t, ok);
    }
  }

  lemma OwnProbe(s: State, t: Thread, ok: bool)
    requires WellFormed(s) && t in s.pc && Probes(s.pc[t]).Some?
    ensures var s' := Step(s, t, ok);
      && t in s'.pc && !Failed(s'.pc[t]) && (s'.pc[t].Idle? ==> t in s'.got && s'.got[t] != {})
  {
    hide Slot, Place;
    assert MainOk(s, s.pc[t]) && t in s.got;
    hide WellFormed, MainOk;
  }

  lemma OthersStep(s: State, t: Thread, ok: bool, u: Thread)
    requires WellFormed(s) && t in s.pc && !s.pc[t].Idle? && u != t
    ensures var s' := Step(s, t, ok);
      && (u in s'.pc <==> u in s.pc) && (u in s.pc ==> s'.pc[u] == s.pc[u])
      && (u in s'.got <==> u in s.got) && (u in s.got ==> s'.got[u] == s.got[u])
  {
    hide Slot, Place, NextCapacity, Limit, Put;
    assert MainOk(s, s.pc[t]) && t in s.got;
    hide WellFormed, MainOk;
    if Probes(s.pc[t]).Some? {
      ProbesLeaveOthers(s, t, ok, u);
    }
  }

  lemma ProbesLeaveOthers(s: State, t: Thread, ok: bool, u: Thread)
    requires WellFormed(s) && t in s.pc && Probes(s.pc[t]).Some? && u != t
    ensures var s' := Step(s, t, ok);
      && (u in s'.pc <==> u in s.pc) && (u in s.pc ==> s'.pc[u] == s.pc[u])
      && (u in s'.got <==> u in s.got) && (u in s.got ==> s'.got[u] == s.got[u])
  {
    hide Slot, Place;
    assert MainOk(s, s.pc[t]) && t in s.got;
    hide WellFormed, MainOk;
  }

  lemma OnItsWay(s: State, a: Action, s': State, t: Thread)
    requires Follows(s, a, s') && t in s.pc && !s.pc[t].Idle?
    ensures t in s'.pc && (Failed(s'.pc[t]) ==> Failed(s.pc[t]) || Refused(s, a, t))
    ensures s'.pc[t].Idle? && !Failed(s.pc[t]) ==> t in s'.got && s'.got[t] != {}
  {
    hide Step, WellFormed;
    if a.Advance? {
      if a.t == t {
        OwnStep(s, t, a.ok);
      } else {
        OthersStep(s, a.t, a.ok, t);
      }
    }
  }

  lemma FollowsAt(states: seq<State>, actions: seq<Action>, i: nat)
    requires IsRun(states, actions) && i < |states| - 1
    ensures |states| == |actions| + 1 && Follows(states[i], actions[i], states[i + 1])
  {
  }

  lemma CalledNow(s: State, a: Action, s': State)
    requires Follows(s, a, s')
    ensures a.Call? ==> a.t in s'.pc && s'.pc[a.t].Look?
  {
    hide Step;
  }

  lemma {:induction false} WasRefused(states: seq<State>, actions: seq<Action>, t: Thread, j: nat, m: nat) returns (k: nat)
    requires IsRun(states, actions) && j < m < |states| && actions[j] == Call(t)
    requires forall i :: j < i <= m ==> t in states[i].pc && !states[i].pc[t].Idle?
    ensures Failed(states[m].pc[t]) ==> j < k < m && Refused(states[k], actions[k], t)
    decreases m
  {
    hide IsRun, Follows;
    FollowsAt(states, actions, j);
    FollowsAt(states, actions, m - 1);
    CalledNow(states[m - 1], actions[m - 1], states[m]);
    k := m - 1;
    if m > j + 1 {
      var before := WasRefused(states, actions, t, j, m - 1);
      OnItsWay(states[m - 1], actions[m - 1], states[m], t);
      if Failed(states[m - 1].pc[t]) {
        k := before;
      }
    }
  }

  /** A call that returns null has had an allocation fail, of a table or of a producer; any other call returns a producer. */
  lemma NullOnlyIfRefused(states: seq<State>, actions: seq<Action>, t: Thread, j: nat, i: nat) returns (k: nat)
    requires IsRun(states, actions) && j < i < |actions| && actions[j] == Call(t)
    requires forall m :: j < m <= i ==> t in states[m].pc && !states[m].pc[t].Idle?
    requires t in states[i + 1].pc && states[i + 1].pc[t].Idle?
    ensures Failed(states[i].pc[t]) ==> j < k < i && Refused(states[k], actions[k], t)
    ensures !Failed(states[i].pc[t]) ==> t in states[i + 1].got && states[i + 1].got[t] != {}
  {
    k := WasRefused(states, actions, t, j, i);
    assert Follows(states[i], actions[i], states[i + 1]);
    OnItsWay(states[i], actions[i], states[i + 1], t);
  }

  /** A thread that has been given a producer is never refused one. */
  lemma NeverAgainNull(states: seq<State>, actions: seq<Action>, i: nat, t: Thread)
    requires IsRun(states, actions) && i < |states| && t in states[i].pc && t in states[i].got && states[i].got[t] != {}
    ensures !Failed(states[i].pc[t]) && !Joined(states[i].pc[t])
  {
    var g := RunKeepsInv(states, actions, i);
    hide TableOk, RankOk, IsRun;
    assert ThreadOk(states[i], g, t);
  }


  /** A thread joins the table it has as long as that is less than three quarters full, and the next table is the first,
      by doubling, that it does not fill to the half. */
  lemma SizesLaw(capacity: nat, n: nat)
    requires capacity >= 4 && capacity % 4 == 0
    ensures n < Limit(capacity) <==> 4 * n < 3 * capacity
    ensures 2 * n < NextCapacity(capacity, n) && (NextCapacity(capacity, n) == 2 * capacity || NextCapacity(capacity, n) <= 4 * n)
  {
    var q := capacity / 4;
    assert capacity == 4 * q && capacity / 2 == 2 * q;
    hide NextCapacity;
    NextIs(capacity, n);
  }

  lemma {:induction false} NextIs(capacity: nat, n: nat)
    requires capacity > 0
    ensures 2 * n < NextCapacity(capacity, n) && (NextCapacity(capacity, n) == 2 * capacity || NextCapacity(capacity, n) <= 4 * n)
    decreases if n >= capacity then n - capacity + 1 else 0
  {
    if n >= capacity {
      NextIs(2 * capacity, n);
    }
  }
}
