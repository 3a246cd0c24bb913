/** The optimistic-count dequeue protocol of a producer's sub-queue
    (deps/concurrentqueue/concurrentqueue.h, dequeue and dequeue_bulk): one enqueuer publishes
    elements by moving tailIndex, and any number of consumers claim ranges of indices with three
    counters. One atomic access per step, every interleaving.

    The four counters live in 64-bit words. The state keeps the true number of increments of
    each; memory, and every comparison the code makes, sees that number modulo 2^64. */
module DequeueClaims {

  type Thread = nat

  const WORD: int := 0x1_0000_0000_0000_0000
  const HALF: int := 0x8000_0000_0000_0000

  // What a 64-bit unsigned register holds of a number.
  function Word(x: int): int {
    x % WORD
  }

  // circular_less_than on two 64-bit words.
  predicate CircularLess(a: int, b: int) {
    Word(a - b) > HALF
  }

  function Min(a: int, b: int): int {
    if a < b then a else b
  }

  // dequeue is dequeue_bulk with max == 1 (see SingleIsBulk).
  datatype Pc =
    | Idle
    | LoadTail(max: nat)
    | LoadOvercommit(max: nat, tail: nat)
    | LoadOptimistic(max: nat, tail: nat, overcommit: nat)
    | Reserve(desired: nat, overcommit: nat)
    | ReloadTail(desired: nat, overcommit: nat, mine: nat)
    | GiveBack(mine: nat, actual: nat, surplus: nat)
    | Claim(mine: nat, actual: nat)

  // A range of indices that one call has taken for itself.
  datatype Claimed = Claimed(first: nat, count: nat)

  datatype State = State(
    tail: nat, optimistic: nat, overcommit: nat, head: nat,
    pc: map<Thread, Pc>,
    claims: seq<Claimed>)               // every claim so far, in order

  datatype Action =
    | Publish(n: nat)                   // the enqueuer stores tailIndex + n
    | Call(t: Thread, max: nat)
    | Advance(t: Thread)

  predicate Enabled(s: State, a: Action) {
    match a
    case Publish(_) => true
    case Call(t, _) => t in s.pc && s.pc[t].Idle?
    case Advance(t) => t in s.pc && !s.pc[t].Idle?
  }

  function Access(s: State, t: Thread): State
    requires t in s.pc && !s.pc[t].Idle?
  {
    match s.pc[t]
    case LoadTail(max) => s.(pc := s.pc[t := LoadOvercommit(max, s.tail)])
    case LoadOvercommit(max, tail) => s.(pc := s.pc[t := LoadOptimistic(max, tail, s.overcommit)])
    case LoadOptimistic(max, tail, overcommit) =>
      var desired := Word(tail - (s.optimistic - overcommit));
      s.(pc := s.pc[t := if CircularLess(0, desired) then Reserve(Min(desired, max), overcommit) else Idle])
    case Reserve(desired, overcommit) =>
      s.(optimistic := s.optimistic + desired, pc := s.pc[t := ReloadTail(desired, overcommit, s.optimistic)])
    case ReloadTail(desired, overcommit, mine) =>
      var available := Word(s.tail - (mine - overcommit));
      var actual := if CircularLess(0, available) then Min(desired, available) else 0;
      var next :=
        if CircularLess(0, available) && actual == desired then Claim(mine, actual)
        else GiveBack(mine, actual, desired - actual);
      s.(pc := s.pc[t := next])
    case GiveBack(mine, actual, surplus) =>
      s.(overcommit := s.overcommit + surplus,
         pc := s.pc[t := if actual > 0 then Claim(mine, actual) else Idle])
    case Claim(mine, actual) =>
      s.(head := s.head + actual, claims := s.claims + [Claimed(s.head, actual)], pc := s.pc[t := Idle])
  }

  function Do(s: State, a: Action): State
    requires Enabled(s, a)
  {
    match a
    case Publish(n) => s.(tail := s.tail + n)
    case Call(t, max) => s.(pc := s.pc[t := LoadTail(max)])
    case Advance(t) => Access(s, t)
  }

  ghost predicate Initial(s: State) {
    && s.tail == s.optimistic == s.overcommit == s.head == 0
    && s.claims == []
    && forall t :: t in s.pc ==> s.pc[t].Idle?
  }

  ghost predicate IsRun(states: seq<State>, actions: seq<Action>) {
    && |states| == |actions| + 1
    && Initial(states[0])
    && forall i :: 0 <= i < |actions| ==> Enabled(states[i], actions[i]) && states[i + 1] == Do(states[i], actions[i])
  }

  // How many tickets the first of a call is beyond those that the tail and the overcommit it saw allow.
  function Beyond(s: State, pc: Pc): int
    requires pc.ReloadTail?
  {
    pc.mine - pc.overcommit - s.tail
  }

  // The second comparison of a call sees that distance modulo 2^64, and takes more than 2^63 for being
  // below the tail.
  predicate Paced(s: State, pc: Pc) {
    pc.ReloadTail? && Beyond(s, pc) >= 0 ==> Word(Beyond(s, pc)) <= HALF
  }

  ghost predicate IsPacedRun(states: seq<State>, actions: seq<Action>) {
    IsRun(states, actions) && forall i :: 0 <= i < |actions| ==> PacedStep(states[i], actions[i])
  }

  predicate PacedStep(s: State, a: Action) {
    Enabled(s, a) && a.Advance? ==> Paced(s, s.pc[a.t])
  }

  // ------------------------------------------------------------------
  // Circular comparison
  // ------------------------------------------------------------------

  /** circular_less_than on the words of two numbers less than 2^63 apart is less-than on the
      numbers, however often the words have wrapped. */
  lemma CircularIsLess(a: int, b: int)
    requires -HALF < a - b < HALF
    ensures CircularLess(Word(a), Word(b)) <==> a < b
  {
    WordOfDifference(a, b);
  }

  // Subtracting words and subtracting numbers leaves the same word.
  lemma WordOfDifference(a: int, b: int)
    ensures Word(Word(a) - Word(b)) == Word(a - b)
  {
    var k := a / WORD - b / WORD;
    assert a - b == Word(a) - Word(b) + k * WORD;
    WordOfMultiple(Word(a) - Word(b), k);
  }

  lemma WordOfMultiple(x: int, k: int)
    ensures Word(x + k * WORD) == Word(x)
  {
    assert (x + k * WORD) / WORD == x / WORD + k;
  }

  /** The test of dequeue is the test of dequeue_bulk. */
  lemma SingleIsBulk(counted: int, tail: int)
    ensures CircularLess(Word(counted), Word(tail)) <==> CircularLess(0, Word(tail - counted))
  {
    WordOfDifference(counted, tail);
    WordOfDifference(0, tail - counted);
  }

  /** The test passes a call that is beyond the tail exactly when it is so by more than 2^63, modulo 2^64;
      and one that is not is never given more than there is. */
  lemma AvailableExact(x: int)
    ensures x <= 0 ==> (CircularLess(0, Word(x)) <==> Word(-x) > HALF)
    ensures (CircularLess(0, Word(x)) ==> 0 < Word(x) <= x) <==> x > 0 || Word(-x) <= HALF
    ensures -WORD < x ==> ((CircularLess(0, Word(x)) ==> 0 < Word(x) <= x) <==> -HALF <= x)
  {
    WordOfDifference(0, x);
    if x > 0 {
      assert x == x / WORD * WORD + Word(x);
    }
  }

  // ------------------------------------------------------------------
  // The invariant
  // ------------------------------------------------------------------

  // Every increment of dequeueOptimisticCount hands out that many tickets, numbered from its old
  // value. A ticket ends up claimed (it paid for an increment of headIndex) or returned (it paid
  // for an increment of dequeueOvercommit); until then the thread that drew it has it.
  datatype Fate = Spent | Returned | With(t: Thread)

  predicate Has(pc: Pc, k: int) {
    match pc
    case ReloadTail(desired, _, mine) => mine <= k < mine + desired
    case GiveBack(mine, actual, surplus) => mine <= k < mine + actual + surplus
    case Claim(mine, actual) => mine <= k < mine + actual
    case _ => false
  }

  // How many of the first n tickets have a fate.
  function Count(fates: seq<Fate>, n: nat, f: Fate): nat
    requires n <= |fates|
  {
    if n == 0 then 0 else Count(fates, n - 1, f) + if fates[n - 1] == f then 1 else 0
  }

  ghost predicate TicketsOk(s: State, fates: seq<Fate>) {
    && |fates| == s.optimistic
    && (forall k, t :: 0 <= k < |fates| ==> (fates[k] == With(t) <==> t in s.pc && Has(s.pc[t], k)))
    && (forall k, t :: t in s.pc && Has(s.pc[t], k) ==> k < s.optimistic)
  }

  // A ticket numbered k was accepted because k minus the tickets then returned was below tail,
  // and all those tickets have numbers below k.
  ghost predicate Covered(s: State, fates: seq<Fate>) {
    forall k :: 0 <= k < |fates| && fates[k].Spent? ==> k < s.tail + Count(fates, k, Returned)
  }

  ghost predicate ThreadOk(s: State, fates: seq<Fate>, pc: Pc) {
    match pc
    case LoadOvercommit(_, tail) => tail <= s.tail
    case LoadOptimistic(_, tail, overcommit) => tail <= s.tail && overcommit <= s.overcommit
    case Reserve(_, overcommit) => overcommit <= s.overcommit
    case ReloadTail(_, overcommit, mine) => mine <= |fates| && overcommit <= Count(fates, mine, Returned)
    case GiveBack(mine, actual, _) =>
      mine <= |fates| && (actual > 0 ==> mine + actual <= s.tail + Count(fates, mine, Returned))
    case Claim(mine, actual) =>
      mine <= |fates| && (actual > 0 ==> mine + actual <= s.tail + Count(fates, mine, Returned))
    case _ => true
  }

  ghost predicate ThreadsOk(s: State, fates: seq<Fate>) {
    forall t :: t in s.pc ==> ThreadOk(s, fates, s.pc[t])
  }

  // Where the first n claims end.
  function EndOf(claims: seq<Claimed>, n: nat): nat
    requires n <= |claims|
  {
    if n == 0 then 0 else claims[n - 1].first + claims[n - 1].count
  }

  // The claims so far are consecutive ranges from 0 to headIndex.
  ghost predicate Tiled(claims: seq<Claimed>, head: nat) {
    && (forall i {:trigger EndOf(claims, i)} :: 0 <= i < |claims| ==> claims[i].first == EndOf(claims, i))
    && head == EndOf(claims, |claims|)
  }

  ghost predicate Inv(s: State, fates: seq<Fate>) {
    && TicketsOk(s, fates) && Covered(s, fates) && ThreadsOk(s, fates)
    && Count(fates, |fates|, Spent) == s.head
    && Count(fates, |fates|, Returned) == s.overcommit
    && Tiled(s.claims, s.head)
  }

  // ------------------------------------------------------------------
  // Counting tickets
  // ------------------------------------------------------------------

  lemma {:induction false} CountPrefix(a: seq<Fate>, b: seq<Fate>, n: nat, f: Fate)
    requires n <= |a| && n <= |b|
    requires forall k :: 0 <= k < n ==> a[k] == b[k]
    ensures Count(a, n, f) == Count(b, n, f)
    decreases n
  {
    if n > 0 {
      CountPrefix(a, b, n - 1, f);
    }
  }

  lemma {:induction false} CountSplits(fates: seq<Fate>, n: nat)
    requires n <= |fates|
    ensures Count(fates, n, Spent) + Count(fates, n, Returned) <= n
    ensures (forall k :: 0 <= k < n ==> !fates[k].With?) ==> Count(fates, n, Spent) + Count(fates, n, Returned) == n
    decreases n
  {
    if n > 0 {
      CountSplits(fates, n - 1);
    }
  }

  // Overlap of the first n tickets with a range.
  function Overlap(n: nat, lo: nat, hi: nat): nat
    requires lo <= hi
  {
    if n <= lo then 0 else if n <= hi then n - lo else hi - lo
  }

  // The tickets from lo to hi meet their fate.
  function Settle(fates: seq<Fate>, lo: nat, hi: nat, f: Fate): seq<Fate>
    requires lo <= hi <= |fates|
  {
    seq(|fates|, k requires 0 <= k < |fates| => if lo <= k < hi then f else fates[k])
  }

  lemma {:induction false} CountSettled(fates: seq<Fate>, lo: nat, hi: nat, f: Fate, n: nat)
    requires lo <= hi <= |fates| && n <= |fates| && !f.With?
    requires forall k :: lo <= k < hi ==> fates[k].With?
    ensures Count(Settle(fates, lo, hi, f), n, f) == Count(fates, n, f) + Overlap(n, lo, hi)
    ensures forall f' :: f' != f && !f'.With? ==> Count(Settle(fates, lo, hi, f), n, f') == Count(fates, n, f')
    decreases n
  {
    if n > 0 {
      CountSettled(fates, lo, hi, f, n - 1);
    }
  }

  lemma {:induction false} SpentBelowTail(s: State, fates: seq<Fate>, n: nat)
    requires Covered(s, fates) && n <= |fates|
    ensures Count(fates, n, Spent) <= s.tail
    decreases n
  {
    if n > 0 {
      SpentBelowTail(s, fates, n - 1);
      CountSplits(fates, n - 1);
    }
  }

  // ------------------------------------------------------------------
  // Every step keeps the invariant
  // ------------------------------------------------------------------

  lemma PublishKeepsInv(s: State, fates: seq<Fate>, n: nat)
    requires Inv(s, fates)
    ensures Inv(Do(s, Publish(n)), fates)
  {
    var s' := Do(s, Publish(n));
    forall t | t in s'.pc
      ensures ThreadOk(s', fates, s'.pc[t])
    {
      assert ThreadOk(s, fates, s.pc[t]);
    }
  }

  // A step that draws, spends and returns no ticket.
  lemma MoveKeepsInv(s: State, fates: seq<Fate>, t: Thread, to: Pc, s': State)
    requires Inv(s, fates) && t in s.pc && s' == s.(pc := s.pc[t := to])
    requires forall k :: Has(to, k) <==> Has(s.pc[t], k)
    requires ThreadOk(s, fates, to)
    ensures Inv(s', fates)
  {
    assert TicketsOk(s', fates);
    forall u | u in s'.pc
      ensures ThreadOk(s', fates, s'.pc[u])
    {
      assert u != t ==> ThreadOk(s, fates, s.pc[u]);
    }
  }

  lemma ReserveTickets(s: State, fates: seq<Fate>, t: Thread, s': State, fates': seq<Fate>)
    requires TicketsOk(s, fates) && t in s.pc && s.pc[t].Reserve? && s' == Access(s, t)
    requires fates' == fates + seq(s.pc[t].desired, _ => With(t))
    ensures TicketsOk(s', fates')
  {
    forall k, u | 0 <= k < |fates'|
      ensures fates'[k] == With(u) <==> u in s'.pc && Has(s'.pc[u], k)
    {
      if k < |fates| {
        assert fates'[k] == fates[k];
      } else {
        assert fates'[k] == With(t);
        assert u in s.pc && Has(s.pc[u], k) ==> k < s.optimistic;
      }
    }
  }

  lemma {:induction false} CountDrawn(fates: seq<Fate>, t: Thread, n: nat, f: Fate)
    requires !f.With?
    ensures Count(fates + seq(n, _ => With(t)), |fates| + n, f) == Count(fates, |fates|, f)
    decreases n
  {
    var all := fates + seq(n, _ => With(t));
    if n == 0 {
      CountPrefix(all, fates, |fates|, f);
    } else {
      CountDrawn(fates, t, n - 1, f);
      CountPrefix(all, fates + seq(n - 1, _ => With(t)), |fates| + n - 1, f);
    }
  }

  lemma ReserveKeepsInv(s: State, fates: seq<Fate>, t: Thread) returns (fates': seq<Fate>)
    requires Inv(s, fates) && t in s.pc && s.pc[t].Reserve?
    ensures Inv(Access(s, t), fates')
  {
    hide Covered, ThreadsOk, TicketsOk;
    var s', n := Access(s, t), s.pc[t].desired;
    fates' := fates + seq(n, _ => With(t));
    assert |fates'| == |fates| + n;
    assert |fates| == s.optimistic by {
      TicketsAre(s, fates);
    }
    ReserveTickets(s, fates, t, s', fates');
    CountDrawn(fates, t, n, Spent);
    CountDrawn(fates, t, n, Returned);
    ReserveRest(s, fates, t, s', fates');
  }

  lemma TicketsAre(s: State, fates: seq<Fate>)
    requires TicketsOk(s, fates)
    ensures |fates| == s.optimistic
  {
  }

  lemma ReserveRest(s: State, fates: seq<Fate>, t: Thread, s': State, fates': seq<Fate>)
    requires Covered(s, fates) && ThreadsOk(s, fates) && t in s.pc && s.pc[t].Reserve? && s' == Access(s, t)
    requires |fates| == s.optimistic && Count(fates, |fates|, Returned) == s.overcommit
    requires fates' == fates + seq(s.pc[t].desired, _ => With(t))
    ensures Covered(s', fates') && ThreadsOk(s', fates')
  {
    forall k | 0 <= k < |fates'| && fates'[k].Spent?
      ensures k < s'.tail + Count(fates', k, Returned)
    {
      assert k < |fates| && fates[k].Spent?;
      CountPrefix(fates', fates, k, Returned);
    }
    forall u | u in s'.pc
      ensures ThreadOk(s', fates', s'.pc[u])
    {
      assert ThreadOk(s, fates, s.pc[u]);
      var pc := s'.pc[u];
      if pc.ReloadTail? || pc.GiveBack? || pc.Claim? {
        CountPrefix(fates', fates, pc.mine, Returned);
      }
    }
  }

  // The tickets of a thread from lo to hi are settled, and it keeps those below lo.
  lemma SettleTickets(s: State, fates: seq<Fate>, t: Thread, s': State, lo: nat, hi: nat, f: Fate)
    requires TicketsOk(s, fates) && t in s.pc && lo <= hi <= |fates| && !f.With?
    requires t in s'.pc && s'.pc == s.pc[t := s'.pc[t]] && s'.optimistic == s.optimistic
    requires forall k :: Has(s.pc[t], k) <==> Has(s'.pc[t], k) || lo <= k < hi
    requires forall k :: Has(s'.pc[t], k) ==> k < lo
    ensures TicketsOk(s', Settle(fates, lo, hi, f))
    ensures forall k :: lo <= k < hi ==> fates[k].With?
  {
    var fates' := Settle(fates, lo, hi, f);
    forall k | lo <= k < hi
      ensures fates[k] == With(t)
    {
      assert Has(s.pc[t], k);
    }
    forall k, u | 0 <= k < |fates'|
      ensures fates'[k] == With(u) <==> u in s'.pc && Has(s'.pc[u], k)
    {
      assert fates[k] == With(u) <==> u in s.pc && Has(s.pc[u], k);
      assert fates[k] == With(t) <==> Has(s.pc[t], k);
    }
  }

  lemma SettleThreads(s: State, fates: seq<Fate>, t: Thread, s': State, lo: nat, hi: nat, f: Fate)
    requires ThreadsOk(s, fates) && t in s.pc && lo <= hi <= |fates| && !f.With?
    requires forall k :: lo <= k < hi ==> fates[k].With?
    requires t in s'.pc && s'.pc == s.pc[t := s'.pc[t]] && s'.tail == s.tail && s'.overcommit >= s.overcommit
    requires ThreadOk(s, fates, s'.pc[t])
    ensures ThreadsOk(s', Settle(fates, lo, hi, f))
  {
    forall u | u in s'.pc
      ensures ThreadOk(s', Settle(fates, lo, hi, f), s'.pc[u])
    {
      var pc := s'.pc[u];
      assert ThreadOk(s, fates, pc);
      if pc.ReloadTail? || pc.GiveBack? || pc.Claim? {
        CountSettled(fates, lo, hi, f, pc.mine);
      }
    }
  }

  // Tickets go back: the later ones of those the thread drew.
  lemma GiveBackKeepsInv(s: State, fates: seq<Fate>, t: Thread) returns (fates': seq<Fate>)
    requires Inv(s, fates) && t in s.pc && s.pc[t].GiveBack?
    ensures Inv(Access(s, t), fates')
  {
    var s' := Access(s, t);
    var GiveBack(mine, actual, surplus) := s.pc[t];
    assert ThreadOk(s, fates, s.pc[t]);
    TicketsExist(s, fates, t, mine + actual, surplus);
    var lo, hi := if surplus == 0 then 0 else mine + actual, if surplus == 0 then 0 else mine + actual + surplus;
    fates' := Settle(fates, lo, hi, Returned);
    if surplus > 0 {
      SettleTickets(s, fates, t, s', lo, hi, Returned);
    } else {
      assert fates' == fates;
      assert forall k :: Has(s'.pc[t], k) <==> Has(s.pc[t], k);
      assert TicketsOk(s', fates');
    }
    SettleThreads(s, fates, t, s', lo, hi, Returned);
    CountSettled(fates, lo, hi, Returned, |fates|);
    SettleCovered(s, fates, s', lo, hi, Returned);
  }

  lemma TicketsExist(s: State, fates: seq<Fate>, t: Thread, lo: nat, n: nat)
    requires TicketsOk(s, fates) && t in s.pc
    requires forall k :: lo <= k < lo + n ==> Has(s.pc[t], k)
    ensures n > 0 ==> lo + n <= |fates|
  {
    if n > 0 {
      assert Has(s.pc[t], lo + n - 1);
    }
  }

  lemma SettleCovered(s: State, fates: seq<Fate>, s': State, lo: nat, hi: nat, f: Fate)
    requires Covered(s, fates) && s'.tail == s.tail && lo <= hi <= |fates| && !f.With?
    requires forall k :: lo <= k < hi ==> fates[k].With?
    requires f.Spent? ==> forall k :: lo <= k < hi ==> k < s.tail + Count(fates, k, Returned)
    ensures Covered(s', Settle(fates, lo, hi, f))
  {
    forall k | 0 <= k < |fates| && Settle(fates, lo, hi, f)[k].Spent?
      ensures k < s.tail + Count(Settle(fates, lo, hi, f), k, Returned)
    {
      CountSettled(fates, lo, hi, f, k);
    }
  }

  lemma {:induction false} CountGrows(fates: seq<Fate>, m: nat, n: nat, f: Fate)
    requires m <= n <= |fates|
    ensures Count(fates, m, f) <= Count(fates, n, f)
    decreases n
  {
    if m < n {
      CountGrows(fates, m, n - 1, f);
    }
  }

  lemma ClaimBound(s: State, fates: seq<Fate>, lo: nat, hi: nat)
    requires lo <= hi <= |fates|
    requires lo < hi ==> hi <= s.tail + Count(fates, lo, Returned)
    ensures forall k :: lo <= k < hi ==> k < s.tail + Count(fates, k, Returned)
  {
    forall k | lo <= k < hi
      ensures k < s.tail + Count(fates, k, Returned)
    {
      CountGrows(fates, lo, k, Returned);
    }
  }

  lemma ClaimKeepsInv(s: State, fates: seq<Fate>, t: Thread, s': State) returns (fates': seq<Fate>)
    requires Inv(s, fates) && t in s.pc && s.pc[t].Claim? && s' == Access(s, t)
    ensures Inv(s', fates')
  {
    assert ThreadOk(s, fates, s.pc[t]);
    var lo := s.pc[t].mine;
    var hi := lo + s.pc[t].actual;
    TicketsExist(s, fates, t, lo, s.pc[t].actual);
    fates' := Settle(fates, lo, hi, Spent);
    SettleTickets(s, fates, t, s', lo, hi, Spent);
    SettleThreads(s, fates, t, s', lo, hi, Spent);
    CountSettled(fates, lo, hi, Spent, |fates|);
    ClaimBound(s, fates, lo, hi);
    SettleCovered(s, fates, s', lo, hi, Spent);
    TiledGrows(s.claims, s.head, s.pc[t].actual);
  }

  lemma TiledGrows(claims: seq<Claimed>, head: nat, count: nat)
    requires Tiled(claims, head)
    ensures Tiled(claims + [Claimed(head, count)], head + count)
  {
    var more := claims + [Claimed(head, count)];
    forall i | 0 <= i < |more|
      ensures more[i].first == EndOf(more, i)
    {
      assert EndOf(more, i) == EndOf(claims, i);
    }
  }

  lemma ReloadTailKeepsInv(s: State, fates: seq<Fate>, t: Thread)
    requires Inv(s, fates) && t in s.pc && s.pc[t].ReloadTail? && Paced(s, s.pc[t])
    ensures Inv(Access(s, t), fates)
  {
    var to := Access(s, t).pc[t];
    assert ThreadOk(s, fates, s.pc[t]);
    ReloadTaken(s, t);
    hide Inv, Word;
    MoveKeepsInv(s, fates, t, to, Access(s, t));
  }

  // The tickets that a call keeps are covered, and it has the same as before.
  lemma ReloadTaken(s: State, t: Thread)
    requires t in s.pc && s.pc[t].ReloadTail? && Paced(s, s.pc[t])
    ensures var pc, to := s.pc[t], Access(s, t).pc[t];
      && (to.GiveBack? || to.Claim?) && to.mine == pc.mine
      && (to.actual > 0 ==> pc.mine + to.actual <= s.tail + pc.overcommit)
      && forall k :: Has(to, k) <==> Has(pc, k)
  {
    AvailableExact(s.tail - (s.pc[t].mine - s.pc[t].overcommit));
    hide Word;
  }

  lemma KeepsInv(s: State, fates: seq<Fate>, a: Action) returns (fates': seq<Fate>)
    requires Inv(s, fates) && Enabled(s, a) && PacedStep(s, a)
    ensures Inv(Do(s, a), fates')
  {
    fates' := fates;
    match a
    case Publish(n) => PublishKeepsInv(s, fates, n);
    case Call(t, max) => MoveKeepsInv(s, fates, t, LoadTail(max), Do(s, a));
    case Advance(t) =>
      assert ThreadOk(s, fates, s.pc[t]);
      var pc := s.pc[t];
      if pc.Reserve? {
        fates' := ReserveKeepsInv(s, fates, t);
      } else if pc.ReloadTail? {
        ReloadTailKeepsInv(s, fates, t);
      } else if pc.GiveBack? {
        fates' := GiveBackKeepsInv(s, fates, t);
      } else if pc.Claim? {
        fates' := ClaimKeepsInv(s, fates, t, Do(s, a));
      } else {
        MoveKeepsInv(s, fates, t, Do(s, a).pc[t], Do(s, a));
      }
  }

  // ------------------------------------------------------------------
  // Safety over whole runs
  // ------------------------------------------------------------------

  lemma {:induction false} RunKeepsInv(states: seq<State>, actions: seq<Action>, i: nat) returns (fates: seq<Fate>)
    requires IsPacedRun(states, actions) && i < |states|
    ensures Inv(states[i], fates)
    decreases i
  {
    if i == 0 {
      fates := [];
    } else {
      var before := RunKeepsInv(states, actions, i - 1);
      fates := KeepsInv(states[i - 1], before, actions[i - 1]);
    }
  }

  /** In every state of every paced run headIndex is at most tailIndex, and the claims so far are
      consecutive ranges from 0 to headIndex. */
  lemma Safety(states: seq<State>, actions: seq<Action>, i: nat)
    requires IsPacedRun(states, actions) && i < |states|
    ensures states[i].head <= states[i].tail
    ensures Tiled(states[i].claims, states[i].head)
  {
    var fates := RunKeepsInv(states, actions, i);
    SpentBelowTail(states[i], fates, |fates|);
  }

  // Whether a claim holds an index.
  predicate Holds(c: Claimed, index: nat) {
    c.first <= index < c.first + c.count
  }

  lemma {:induction false} TiledIsOrdered(claims: seq<Claimed>, head: nat, i: nat, j: nat)
    requires Tiled(claims, head) && i < j < |claims|
    ensures claims[i].first + claims[i].count <= claims[j].first
    decreases j
  {
    if i + 1 < j {
      TiledIsOrdered(claims, head, i, j - 1);
    }
    assert claims[j].first == EndOf(claims, j);
  }

  lemma {:induction false} TiledCovers(claims: seq<Claimed>, head: nat, n: nat, index: nat) returns (i: nat)
    requires Tiled(claims, head) && n <= |claims| && index < EndOf(claims, n)
    ensures i < n && Holds(claims[i], index)
    decreases n
  {
    if index < claims[n - 1].first {
      i := TiledCovers(claims, head, n - 1, index);
    } else {
      i := n - 1;
    }
  }

  /** Each index below headIndex is in exactly one claim. */
  lemma ClaimedOnce(states: seq<State>, actions: seq<Action>, i: nat, index: nat) returns (owner: nat)
    requires IsPacedRun(states, actions) && i < |states| && index < states[i].head
    ensures owner < |states[i].claims| && Holds(states[i].claims[owner], index)
    ensures forall j :: 0 <= j < |states[i].claims| && Holds(states[i].claims[j], index) ==> j == owner
  {
    Safety(states, actions, i);
    var claims, head := states[i].claims, states[i].head;
    owner := TiledCovers(claims, head, |claims|, index);
    forall j | 0 <= j < |claims| && Holds(claims[j], index)
      ensures j == owner
    {
      if j < owner {
        TiledIsOrdered(claims, head, j, owner);
      } else if owner < j {
        TiledIsOrdered(claims, head, owner, j);
      }
    }
  }

  /** With no dequeue in flight, the optimistic count minus the overcommit is headIndex. */
  lemma Quiescent(states: seq<State>, actions: seq<Action>, i: nat)
    requires IsPacedRun(states, actions) && i < |states|
    requires forall t :: t in states[i].pc ==> states[i].pc[t].Idle?
    ensures states[i].optimistic - states[i].overcommit == states[i].head
  {
    var fates := RunKeepsInv(states, actions, i);
    CountSplits(fates, |fates|);
    forall k | 0 <= k < |fates|
      ensures !fates[k].With?
    {
      assert fates[k].With? ==> Has(states[i].pc[fates[k].t], k);
    }
  }

  /** The assertion of dequeue and dequeue_bulk behind their fetch_add: the overcommit that was loaded is at most the count
      that was drawn; and so are the words, as long as fewer than 2^64 tickets have been drawn. */
  lemma OvercommitBelow(states: seq<State>, actions: seq<Action>, i: nat, t: Thread)
    requires IsPacedRun(states, actions) && i < |states| && t in states[i].pc && states[i].pc[t].ReloadTail?
    ensures states[i].pc[t].overcommit <= states[i].pc[t].mine
    ensures states[i].optimistic < WORD ==> Word(states[i].pc[t].overcommit) <= Word(states[i].pc[t].mine)
  {
    var fates := RunKeepsInv(states, actions, i);
    assert ThreadOk(states[i], fates, states[i].pc[t]);
    CountSplits(fates, states[i].pc[t].mine);
  }

  // ------------------------------------------------------------------
  // Without the pace
  // ------------------------------------------------------------------

  /** circular_less_than on words less than 2^64 apart is less-than exactly when the numbers are within
      half of that. */
  lemma CircularExact(a: int, b: int)
    requires -WORD < a - b < WORD
    ensures (CircularLess(Word(a), Word(b)) <==> a < b) <==> -HALF < a - b <= HALF
  {
    WordOfDifference(a, b);
    var d := a - b;
    assert Word(d) == if d >= 0 then d else d + WORD;
  }

  /** A call whose second comparison is paced takes only tickets that are covered, and one whose comparison
      is not takes a ticket that is not. */
  lemma PacedExact(s: State, t: Thread)
    requires t in s.pc && s.pc[t].ReloadTail? && s.pc[t].desired > 0
    ensures var pc, next := s.pc[t], Access(s, t).pc[t];
      (next.actual > 0 ==> pc.mine + next.actual <= s.tail + pc.overcommit) <==> Paced(s, pc)
  {
    AvailableExact(s.tail - (s.pc[t].mine - s.pc[t].overcommit));
  }

  // No call has drawn a ticket that is not counted.
  lemma {:induction false} TicketsDrawn(states: seq<State>, actions: seq<Action>, i: nat)
    requires IsRun(states, actions) && i < |states|
    ensures forall t :: t in states[i].pc && states[i].pc[t].ReloadTail? ==> states[i].pc[t].mine <= states[i].optimistic
    decreases i
  {
    if i > 0 {
      TicketsDrawn(states, actions, i - 1);
      assert states[i] == Do(states[i - 1], actions[i - 1]);
    }
  }

  lemma {:induction false} OptimisticGrows(states: seq<State>, actions: seq<Action>, i: nat)
    requires IsRun(states, actions) && i < |states|
    ensures states[i].optimistic <= states[|actions|].optimistic
    decreases |actions| - i
  {
    if i < |actions| {
      OptimisticGrows(states, actions, i + 1);
      assert states[i + 1] == Do(states[i], actions[i]);
    }
  }

  /** As long as at most 2^63 tickets have been drawn, every run is paced. */
  lemma FewTickets(states: seq<State>, actions: seq<Action>)
    requires IsRun(states, actions) && states[|actions|].optimistic <= HALF
    ensures IsPacedRun(states, actions)
  {
    forall i | 0 <= i < |actions| ensures PacedStep(states[i], actions[i]) {
      TicketsDrawn(states, actions, i);
      OptimisticGrows(states, actions, i);
    }
  }

  // Exactly one claim holds an index.
  ghost predicate OwnedOnce(claims: seq<Claimed>, k: nat) {
    exists i :: 0 <= i < |claims| && Holds(claims[i], k) && forall j :: 0 <= j < |claims| && Holds(claims[j], k) ==> j == i
  }

  /** So in every run that has drawn no more, whatever the calls asked for and however they were delayed:
      headIndex is at most tailIndex, each index below it has one owner, and with no call in flight the
      counts agree. */
  lemma SafeForFewTickets(states: seq<State>, actions: seq<Action>)
    requires IsRun(states, actions) && states[|actions|].optimistic <= HALF
    ensures var s := states[|actions|];
      && s.head <= s.tail && Tiled(s.claims, s.head)
      && (forall k: nat :: k < s.head ==> OwnedOnce(s.claims, k))
      && ((forall t :: t in s.pc ==> s.pc[t].Idle?) ==> s.optimistic - s.overcommit == s.head)
  {
    hide Inv;
    var n := |actions|;
    var s := states[n];
    FewTickets(states, actions);
    Safety(states, actions, n);
    forall k: nat | k < s.head ensures OwnedOnce(s.claims, k) {
      var i := ClaimedOnce(states, actions, n, k);
    }
    if forall t :: t in s.pc ==> s.pc[t].Idle? {
      Quiescent(states, actions, n);
    }
  }

  // ------------------------------------------------------------------
  // How much a call takes
  // ------------------------------------------------------------------

  /** The test passes exactly when something is left, less than 2^63, modulo 2^64. */
  lemma LessIs(x: int)
    ensures CircularLess(0, Word(x)) <==> 0 < Word(x) < HALF
  {
    assert 0 < Word(x) ==> Word(0 - Word(x)) == WORD - Word(x);
  }

  // The states in which a call loaded the tail, the overcommit and the optimistic count for its first test, drew its
  // tickets, and loaded the tail for its second test.
  datatype Loads = Loads(a1: nat, b: nat, c1: nat, c2: nat, a2: nat)

  // How many elements are left, modulo 2^64, by a tail, an overcommit and an optimistic count of these states.
  function Left(states: seq<State>, a: nat, b: nat, c: nat): int
    requires a < |states| && b < |states| && c < |states|
  {
    (states[a].tail - (states[c].optimistic - states[b].overcommit)) % 0x1_0000_0000_0000_0000
  }

  predicate SomeLeft(left: int) {
    0 < left < 0x8000_0000_0000_0000
  }

  // What was loaded since the call was made after state j, when the thread has come to pc in state m.
  ghost predicate Loaded(states: seq<State>, pc: Pc, max: nat, j: nat, m: nat, l: Loads)
    requires m < |states|
  {
    match pc
    case Idle => false
    case LoadTail(x) => x == max
    case LoadOvercommit(x, tail) => x == max && j < l.a1 < m && tail == states[l.a1].tail
    case LoadOptimistic(x, tail, overcommit) =>
      x == max && j < l.a1 < l.b < m && tail == states[l.a1].tail && overcommit == states[l.b].overcommit
    case Reserve(desired, overcommit) => FirstTest(states, desired, max, j, m, l) && overcommit == states[l.b].overcommit
    case ReloadTail(desired, overcommit, mine) =>
      && FirstTest(states, desired, max, j, m, l) && overcommit == states[l.b].overcommit
      && l.c1 < l.c2 < m && mine == states[l.c2].optimistic
    case GiveBack(_, actual, surplus) =>
      BothTests(states, actual + surplus, actual, max, j, m, l) && (surplus == 0 ==> !SomeLeft(Left(states, l.a2, l.b, l.c2)))
    case Claim(_, actual) =>
      exists desired: nat :: BothTests(states, desired, actual, max, j, m, l) && SomeLeft(Left(states, l.a2, l.b, l.c2))
  }

  ghost predicate FirstTest(states: seq<State>, desired: nat, max: nat, j: nat, m: nat, l: Loads)
    requires m < |states|
  {
    && j < l.a1 < l.b < l.c1 < m && SomeLeft(Left(states, l.a1, l.b, l.c1))
    && desired == Min(max, Left(states, l.a1, l.b, l.c1))
  }

  ghost predicate BothTests(states: seq<State>, desired: nat, actual: nat, max: nat, j: nat, m: nat, l: Loads)
    requires m < |states|
  {
    && FirstTest(states, desired, max, j, m, l) && l.c1 < l.c2 < l.a2 < m
    && var left := Left(states, l.a2, l.b, l.c2);
    actual == if SomeLeft(left) then Min(desired, left) else 0
  }

  // An access of the thread itself.
  lemma LoadedStep(states: seq<State>, t: Thread, max: nat, j: nat, m: nat, l: Loads) returns (l': Loads)
    requires j < m && m + 1 < |states| && t in states[m].pc && !states[m].pc[t].Idle? && states[m + 1] == Access(states[m], t)
    requires Loaded(states, states[m].pc[t], max, j, m, l)
    ensures !states[m + 1].pc[t].Idle? ==> Loaded(states, states[m + 1].pc[t], max, j, m + 1, l')
    ensures states[m + 1].pc[t].Idle? && !states[m].pc[t].Claim? ==>
      || (states[m].pc[t].LoadOptimistic? && j < l.a1 < l.b < m && !SomeLeft(Left(states, l.a1, l.b, m)))
      || (j < l.b < l.c2 < l.a2 < m && !SomeLeft(Left(states, l.a2, l.b, l.c2)))
  {
    var s, pc := states[m], states[m].pc[t];
    l' := match pc
      case LoadTail(_) => l.(a1 := m)
      case LoadOvercommit(_, _) => l.(b := m)
      case LoadOptimistic(_, _, _) => l.(c1 := m)
      case Reserve(_, _) => l.(c2 := m)
      case ReloadTail(_, _, _) => l.(a2 := m)
      case _ => l;
    if pc.LoadOptimistic? {
      LessIs(pc.tail - (s.optimistic - pc.overcommit));
      assert Left(states, l.a1, l.b, m) == Word(pc.tail - (s.optimistic - pc.overcommit));
      hide Word, CircularLess, Left;
    } else if pc.ReloadTail? {
      LessIs(s.tail - (pc.mine - pc.overcommit));
      hide Word, CircularLess, Left;
      ReloadLoaded(states, t, max, j, m, l, l');
    } else if pc.GiveBack? && pc.actual > 0 {
      hide Left;
      assert BothTests(states, pc.actual + pc.surplus, pc.actual, max, j, m + 1, l');
    }
  }

  lemma ReloadLoaded(states: seq<State>, t: Thread, max: nat, j: nat, m: nat, l: Loads, l': Loads)
    requires j < m && m + 1 < |states| && t in states[m].pc && states[m].pc[t].ReloadTail? && states[m + 1] == Access(states[m], t)
    requires Loaded(states, states[m].pc[t], max, j, m, l) && l' == l.(a2 := m)
    requires var x := states[m].tail - (states[m].pc[t].mine - states[m].pc[t].overcommit); CircularLess(0, Word(x)) <==> 0 < Word(x) < HALF
    ensures Loaded(states, states[m + 1].pc[t], max, j, m + 1, l')
  {
    var pc, to := states[m].pc[t], states[m + 1].pc[t];
    hide CircularLess;
    assert Left(states, l'.a2, l'.b, l'.c2) == Word(states[m].tail - (pc.mine - pc.overcommit));
    assert BothTests(states, pc.desired, to.actual, max, j, m + 1, l');
  }

  lemma {:induction false} WhatWasLoaded(states: seq<State>, actions: seq<Action>, t: Thread, max: nat, j: nat, m: nat) returns (l: Loads)
    requires IsRun(states, actions) && j < m < |states| && actions[j] == Call(t, max)
    requires forall i :: j < i <= m ==> t in states[i].pc && !states[i].pc[t].Idle?
    ensures Loaded(states, states[m].pc[t], max, j, m, l)
    decreases m
  {
    hide IsRun, Loaded, Do, Access;
    RunLength(states, actions);
    var s, a := states[m - 1], actions[m - 1];
    RunStep(states, actions, m - 1);
    if m == j + 1 {
      l := Loads(0, 0, 0, 0, 0);
      JustCalled(states, s, t, max, j, m, l);
    } else {
      l := WhatWasLoaded(states, actions, t, max, j, m - 1);
      if a == Advance(t) {
        DoIsAccess(s, t);
        l := LoadedStep(states, t, max, j, m - 1, l);
      } else {
        OthersMove(s, a, t);
        LoadedLater(states, s.pc[t], max, j, m - 1, l);
      }
    }
  }

  lemma RunLength(states: seq<State>, actions: seq<Action>)
    requires IsRun(states, actions)
    ensures |states| == |actions| + 1
  {
  }

  lemma RunStep(states: seq<State>, actions: seq<Action>, m: nat)
    requires IsRun(states, actions) && m < |actions|
    ensures |states| == |actions| + 1 && Enabled(states[m], actions[m]) && states[m + 1] == Do(states[m], actions[m])
  {
  }

  lemma JustCalled(states: seq<State>, s: State, t: Thread, max: nat, j: nat, m: nat, l: Loads)
    requires m < |states| && Enabled(s, Call(t, max)) && states[m] == Do(s, Call(t, max))
    ensures t in states[m].pc && Loaded(states, states[m].pc[t], max, j, m, l)
  {
  }

  lemma DoIsAccess(s: State, t: Thread)
    requires Enabled(s, Advance(t))
    ensures Do(s, Advance(t)) == Access(s, t)
  {
  }

  lemma OthersMove(s: State, a: Action, t: Thread)
    requires Enabled(s, a) && t in s.pc && !s.pc[t].Idle? && a != Advance(t)
    ensures t in Do(s, a).pc && Do(s, a).pc[t] == s.pc[t]
  {
  }

  lemma LoadedLater(states: seq<State>, pc: Pc, max: nat, j: nat, m: nat, l: Loads)
    requires m + 1 < |states| && Loaded(states, pc, max, j, m, l)
    ensures Loaded(states, pc, max, j, m + 1, l)
  {
    hide Left;
    if pc.Claim? {
      var desired: nat :| BothTests(states, desired, pc.actual, max, j, m, l) && SomeLeft(Left(states, l.a2, l.b, l.c2));
      assert BothTests(states, desired, pc.actual, max, j, m + 1, l);
    }
  }

  /** A call that takes nothing has loaded a tail, an overcommit and an optimistic count by which nothing was left (or
      2^63 elements or more, modulo 2^64), for its first test or for its second. */
  lemma TakesNothing(states: seq<State>, actions: seq<Action>, t: Thread, max: nat, j: nat, i: nat) returns (a: nat, b: nat, c: nat)
    requires IsRun(states, actions) && j < i < |actions| && actions[j] == Call(t, max)
    requires forall m :: j < m <= i ==> t in states[m].pc && !states[m].pc[t].Idle?
    requires t in states[i + 1].pc && states[i + 1].pc[t].Idle? && !states[i].pc[t].Claim?
    ensures (j < a < b < c <= i || j < b < c < a <= i) && !SomeLeft(Left(states, a, b, c))
  {
    var l := WhatWasLoaded(states, actions, t, max, j, i);
    assert Enabled(states[i], actions[i]) && states[i + 1] == Do(states[i], actions[i]);
    var l' := LoadedStep(states, t, max, j, i, l);
    if states[i].pc[t].LoadOptimistic? {
      a, b, c := l.a1, l.b, i;
    } else {
      a, b, c := l.a2, l.b, l.c2;
    }
  }

  /** A call that is about to take elements takes as many as it asked for, or as many as were left by what it loaded for
      its first and for its second test, whichever is least. */
  lemma TakesAll(states: seq<State>, actions: seq<Action>, t: Thread, max: nat, j: nat, m: nat) returns (l: Loads)
    requires IsRun(states, actions) && j < m < |states| && actions[j] == Call(t, max)
    requires forall i :: j < i <= m ==> t in states[i].pc && !states[i].pc[t].Idle?
    requires states[m].pc[t].Claim?
    ensures j < l.a1 < l.b < l.c1 < l.c2 < l.a2 < m
    ensures SomeLeft(Left(states, l.a1, l.b, l.c1)) && SomeLeft(Left(states, l.a2, l.b, l.c2))
    ensures states[m].pc[t].actual == Min(max, Min(Left(states, l.a1, l.b, l.c1), Left(states, l.a2, l.b, l.c2)))
  {
    l := WhatWasLoaded(states, actions, t, max, j, m);
    hide Left;
  }

  // From state i on, thread t makes a call and n accesses, and nobody else does anything.
  ghost predicate Alone(states: seq<State>, actions: seq<Action>, i: nat, t: Thread, max: nat, n: nat) {
    && IsPacedRun(states, actions) && i + n < |actions| && (forall u :: u in states[i].pc ==> states[i].pc[u].Idle?)
    && actions[i] == Call(t, max) && forall k :: i < k <= i + n ==> actions[k] == Advance(t)
  }

  // The elements in the queue, modulo 2^64.
  function Waiting(s: State): int {
    (s.tail - s.head) % 0x1_0000_0000_0000_0000
  }

  // Where such a call has come to after k accesses, when it finds enough to take n elements.
  function AloneAt(s: State, t: Thread, max: nat, n: nat, k: nat): State {
    if k == 0 then s.(pc := s.pc[t := LoadTail(max)])
    else if k == 1 then s.(pc := s.pc[t := LoadOvercommit(max, s.tail)])
    else if k == 2 then s.(pc := s.pc[t := LoadOptimistic(max, s.tail, s.overcommit)])
    else if k == 3 then s.(pc := s.pc[t := Reserve(n, s.overcommit)])
    else
      var s1 := s.(optimistic := s.optimistic + n);
      if k == 4 then s1.(pc := s.pc[t := ReloadTail(n, s.overcommit, s.optimistic)])
      else if k == 5 then s1.(pc := s.pc[t := Claim(s.optimistic, n)])
      else s1.(head := s.head + n, claims := s.claims + [Claimed(s.head, n)], pc := s.pc[t := Idle])
  }

  lemma AloneStep(s: State, t: Thread, max: nat, k: nat)
    requires t in s.pc && s.optimistic - s.overcommit == s.head && SomeLeft(Waiting(s)) && k < 6
    ensures var n := Min(max, Waiting(s)); !AloneAt(s, t, max, n, k).pc[t].Idle? && Access(AloneAt(s, t, max, n, k), t) == AloneAt(s, t, max, n, k + 1)
  {
    LessIs(s.tail - s.head);
  }

  lemma {:induction false} AloneReaches(states: seq<State>, actions: seq<Action>, i: nat, t: Thread, max: nat, k: nat)
    requires Alone(states, actions, i, t, max, k) && SomeLeft(Waiting(states[i])) && k <= 6
    ensures t in states[i].pc && states[i].pc[t].Idle? && states[i + 1 + k] == AloneAt(states[i], t, max, Min(max, Waiting(states[i])), k)
    decreases k
  {
    assert Enabled(states[i], actions[i]) && states[i + 1] == Do(states[i], actions[i]);
    if k > 0 {
      AloneReaches(states, actions, i, t, max, k - 1);
      Quiescent(states, actions, i);
      AloneStep(states[i], t, max, k - 1);
      assert states[i + 1 + k] == Do(states[i + k], actions[i + k]);
    }
  }

  /** Alone, a call with elements in the queue goes on for six accesses, and then it has taken all the elements there
      are, or as many as it asked for. */
  lemma AloneTakes(states: seq<State>, actions: seq<Action>, i: nat, t: Thread, max: nat, k: nat)
    requires Alone(states, actions, i, t, max, k) && k <= 6 && SomeLeft(Waiting(states[i]))
    ensures t in states[i + 1 + k].pc && (states[i + 1 + k].pc[t].Idle? <==> k == 6)
    ensures var s, s', n := states[i], states[i + 1 + k], Min(max, Waiting(states[i]));
      k == 6 ==> s'.head == s.head + n && s'.claims == s.claims + [Claimed(s.head, n)] && s'.tail == s.tail && s'.pc == s.pc
  {
    var s := states[i];
    AloneReaches(states, actions, i, t, max, k);
    hide Waiting;
    assert s.pc[t := Idle] == s.pc;
  }

  /** And with none (or 2^63 or more, modulo 2^64) it returns after three, and nothing has changed. */
  lemma AloneTakesNone(states: seq<State>, actions: seq<Action>, i: nat, t: Thread, max: nat)
    requires Alone(states, actions, i, t, max, 3) && !SomeLeft(Waiting(states[i]))
    ensures states[i + 4] == states[i]
  {
    var s := states[i];
    Quiescent(states, actions, i);
    LessIs(s.tail - s.head);
    assert Enabled(s, actions[i]) && states[i + 1] == Do(s, actions[i]);
    assert states[i + 2] == Do(states[i + 1], Advance(t));
    assert states[i + 3] == Do(states[i + 2], Advance(t));
    assert states[i + 4] == Do(states[i + 3], Advance(t)) && s.pc[t := Idle] == s.pc;
  }

  ghost predicate Reaches(s: State, actions: seq<Action>, s': State)
    decreases |actions|
  {
    if actions == [] then s' == s
    else Enabled(s, actions[0]) && Reaches(Do(s, actions[0]), actions[1..], s')
  }

  lemma {:induction false} ReachesOn(a: State, x: seq<Action>, b: State, y: seq<Action>, c: State)
    requires Reaches(a, x, b) && Reaches(b, y, c)
    ensures Reaches(a, x + y, c)
    decreases |x|
  {
    if x == [] {
      assert x + y == y;
    } else {
      assert (x + y)[1..] == x[1..] + y;
      ReachesOn(Do(a, x[0]), x[1..], b, y, c);
    }
  }

  lemma OneStep(s: State, a: Action)
    requires Enabled(s, a)
    ensures Reaches(s, [a], Do(s, a))
  {
    assert [a][1..] == [];
  }

  const QUARTER: nat := 0x4000_0000_0000_0000

  // The state in which the tail is 2^62, thread i has come to pc(i), and nothing else has changed.
  function Lined(pcs: seq<Pc>, optimistic: nat, head: nat, claims: seq<Claimed>): State {
    State(QUARTER, optimistic, 0, head, map t: nat | t < |pcs| :: pcs[t], claims)
  }

  lemma LinedStep(pcs: seq<Pc>, optimistic: nat, head: nat, claims: seq<Claimed>, t: nat, pc: Pc)
    requires t < |pcs|
    ensures Lined(pcs, optimistic, head, claims).pc[t := pc] == Lined(pcs[t := pc], optimistic, head, claims).pc
  {
  }

  // An idle thread asks for 2^62 elements and is about to reserve them.
  lemma Prepare(pcs: seq<Pc>, t: nat) returns (actions: seq<Action>)
    requires t < |pcs| && pcs[t].Idle?
    ensures Reaches(Lined(pcs, 0, 0, []), actions, Lined(pcs[t := Reserve(QUARTER, 0)], 0, 0, []))
  {
    var s0 := Lined(pcs, 0, 0, []);
    LinedStep(pcs, 0, 0, [], t, LoadTail(QUARTER));
    var s1 := Lined(pcs[t := LoadTail(QUARTER)], 0, 0, []);
    OneStep(s0, Call(t, QUARTER));
    var p2 := pcs[t := LoadOvercommit(QUARTER, QUARTER)];
    LinedStep(pcs[t := LoadTail(QUARTER)], 0, 0, [], t, LoadOvercommit(QUARTER, QUARTER));
    assert pcs[t := LoadTail(QUARTER)][t := LoadOvercommit(QUARTER, QUARTER)] == p2;
    OneStep(s1, Advance(t));
    var p3 := pcs[t := LoadOptimistic(QUARTER, QUARTER, 0)];
    LinedStep(p2, 0, 0, [], t, LoadOptimistic(QUARTER, QUARTER, 0));
    assert p2[t := LoadOptimistic(QUARTER, QUARTER, 0)] == p3;
    OneStep(Lined(p2, 0, 0, []), Advance(t));
    LinedStep(p3, 0, 0, [], t, Reserve(QUARTER, 0));
    assert p3[t := Reserve(QUARTER, 0)] == pcs[t := Reserve(QUARTER, 0)];
    OneStep(Lined(p3, 0, 0, []), Advance(t));
    var s4 := Lined(pcs[t := Reserve(QUARTER, 0)], 0, 0, []);
    ReachesOn(s0, [Call(t, QUARTER)], s1, [Advance(t)], Lined(p2, 0, 0, []));
    ReachesOn(s0, [Call(t, QUARTER)] + [Advance(t)], Lined(p2, 0, 0, []), [Advance(t)], Lined(p3, 0, 0, []));
    actions := [Call(t, QUARTER)] + [Advance(t)] + [Advance(t)];
    ReachesOn(s0, actions, Lined(p3, 0, 0, []), [Advance(t)], s4);
    actions := actions + [Advance(t)];
  }

  // Threads t and above reserve, one after the other.
  lemma {:induction false} ReserveAll(pcs: seq<Pc>, t: nat) returns (actions: seq<Action>, after: seq<Pc>)
    requires t <= |pcs| && forall i :: t <= i < |pcs| ==> pcs[i] == Reserve(QUARTER, 0)
    ensures |after| == |pcs| && after[..t] == pcs[..t]
    ensures forall i :: t <= i < |pcs| ==> after[i] == ReloadTail(QUARTER, 0, i * QUARTER)
    ensures Reaches(Lined(pcs, t * QUARTER, 0, []), actions, Lined(after, |pcs| * QUARTER, 0, []))
    decreases |pcs| - t
  {
    if t == |pcs| {
      actions, after := [], pcs;
    } else {
      var s := Lined(pcs, t * QUARTER, 0, []);
      var pc := ReloadTail(QUARTER, 0, t * QUARTER);
      LinedStep(pcs, t * QUARTER, 0, [], t, pc);
      OneStep(s, Advance(t));
      assert (t + 1) * QUARTER == t * QUARTER + QUARTER;
      var next := Lined(pcs[t := pc], (t + 1) * QUARTER, 0, []);
      assert Do(s, Advance(t)) == next;
      var rest;
      rest, after := ReserveAll(pcs[t := pc], t + 1);
      actions := [Advance(t)] + rest;
      ReachesOn(s, [Advance(t)], next, rest, Lined(after, |pcs| * QUARTER, 0, []));
      assert after[..t] == after[..t + 1][..t];
    }
  }

  lemma {:induction false} PrepareAll(n: nat, t: nat) returns (actions: seq<Action>, after: seq<Pc>)
    requires t <= n
    ensures |after| == n && forall i :: 0 <= i < n ==> after[i] == if i < t then Reserve(QUARTER, 0) else Idle
    ensures Reaches(Lined(seq(n, _ => Idle), 0, 0, []), actions, Lined(after, 0, 0, []))
    decreases t
  {
    if t == 0 {
      actions, after := [], seq(n, _ => Idle);
    } else {
      var first, before := PrepareAll(n, t - 1);
      var more := Prepare(before, t - 1);
      after := before[t - 1 := Reserve(QUARTER, 0)];
      actions := first + more;
      ReachesOn(Lined(seq(n, _ => Idle), 0, 0, []), first, Lined(before, 0, 0, []), more, Lined(after, 0, 0, []));
    }
  }

  // A thread whose ticket number looks good takes 2^62 elements.
  lemma Take(pcs: seq<Pc>, optimistic: nat, head: nat, claims: seq<Claimed>, t: nat, mine: nat)
    returns (actions: seq<Action>, after: seq<Pc>)
    requires t < |pcs| && pcs[t] == ReloadTail(QUARTER, 0, mine) && Word(QUARTER - mine) == QUARTER
    ensures after == pcs[t := Idle]
    ensures Reaches(Lined(pcs, optimistic, head, claims), actions, Lined(after, optimistic, head + QUARTER, claims + [Claimed(head, QUARTER)]))
  {
    var s, mid := Lined(pcs, optimistic, head, claims), pcs[t := Claim(mine, QUARTER)];
    after := pcs[t := Idle];
    var more := claims + [Claimed(head, QUARTER)];
    LinedStep(pcs, optimistic, head, claims, t, Claim(mine, QUARTER));
    OneStep(s, Advance(t));
    var s1 := Lined(mid, optimistic, head, claims);
    LinedStep(mid, optimistic, head, claims, t, Idle);
    assert mid[t := Idle] == after;
    OneStep(s1, Advance(t));
    var s2 := Lined(after, optimistic, head + QUARTER, more);
    assert Do(s1, Advance(t)) == s2;
    actions := [Advance(t)] + [Advance(t)];
    ReachesOn(s, [Advance(t)], s1, [Advance(t)], s2);
  }

  lemma Published(s: State, n: nat)
    ensures Do(s, Publish(n)) == s.(tail := s.tail + n)
  {
  }

  /** Without the pace the head can pass the tail: five calls that each ask for 2^62 elements, of the
      2^62 there are, and reserve before any of them goes on. The fifth is 3 * 2^62 tickets beyond the tail. */
  lemma Unpaced() returns (s0: State, actions: seq<Action>, s: State)
    ensures Initial(s0) && Reaches(s0, actions, s) && s.head > s.tail
  {
    hide Reaches, Do;
    var idle: seq<Pc> := seq(5, _ => Idle);
    s0 := State(0, 0, 0, 0, Lined(idle, 0, 0, []).pc, []);
    OneStep(s0, Publish(QUARTER));
    var s1 := Lined(idle, 0, 0, []);
    Published(s0, QUARTER);
    var a1, p1 := PrepareAll(5, 5);
    var a2, p2 := ReserveAll(p1, 0);
    var s2, s3 := Lined(p1, 0, 0, []), Lined(p2, 5 * QUARTER, 0, []);
    var a3, p3 := Take(p2, 5 * QUARTER, 0, [], 0, 0);
    var c1 := [Claimed(0, QUARTER)];
    assert [] + c1 == c1;
    var s4 := Lined(p3, 5 * QUARTER, QUARTER, c1);
    var a4, p4 := Take(p3, 5 * QUARTER, QUARTER, c1, 4, 4 * QUARTER);
    s := Lined(p4, 5 * QUARTER, 2 * QUARTER, c1 + [Claimed(QUARTER, QUARTER)]);
    ReachesOn(s0, [Publish(QUARTER)], s1, a1, s2);
    ReachesOn(s0, [Publish(QUARTER)] + a1, s2, a2, s3);
    ReachesOn(s0, [Publish(QUARTER)] + a1 + a2, s3, a3, s4);
    ReachesOn(s0, [Publish(QUARTER)] + a1 + a2 + a3, s4, a4, s);
    actions := [Publish(QUARTER)] + a1 + a2 + a3 + a4;
  }
}
