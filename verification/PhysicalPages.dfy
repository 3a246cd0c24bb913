/** The kernel's physical page allocator (src/kernel/mem-manager.h): two stacks of free page numbers,
    below and above 4 GiB, and a status flag per page. */
module PhysicalPages {

  const PAGE: nat := 0x20_0000          // 2 MiB
  const LAST_32BIT: nat := 2047         // 0xffffffff / PAGE

  // ------------------------------------------------------------------
  // PagesStack
  // ------------------------------------------------------------------

  // The stack grows down from the last word, and never uses the first one.
  class PagesStack {
    const words: array<nat>
    var current: nat

    ghost predicate Valid()
      reads this
    {
      current < words.Length
    }

    // What is on the stack, the top first.
    ghost function Contents(): seq<nat>
      reads this, words
      requires Valid()
    {
      words[current + 1..]
    }

    constructor (size: nat)
      requires size >= 2
      ensures Valid() && fresh(words) && words.Length == size && Contents() == [0]
    {
      words := new nat[size];
      current := size - 1;
      new;
      Push(0);                          // guard
    }

    method Push(id: nat)
      requires Valid()
      modifies `current, words
      ensures Valid()
      ensures Contents() == if |old(Contents())| + 1 < words.Length then [id] + old(Contents()) else old(Contents())
    {
      if current == 0 {
        return;
      }
      words[current] := id;
      current := current - 1;
    }

    method Pop() returns (id: nat)
      requires Valid()
      modifies `current
      ensures Valid()
      ensures if old(Contents()) == [] then id == 0 && Contents() == [] else id == old(Contents())[0] && Contents() == old(Contents())[1..]
    {
      if current == words.Length - 1 {
        return 0;
      }
      current := current + 1;
      id := words[current];
    }
  }

  // ------------------------------------------------------------------
  // Stacked pages
  // ------------------------------------------------------------------

  // A stack holds pages, and below them the guard, unless that has been popped.
  ghost predicate Holds(contents: seq<nat>, pages: seq<nat>) {
    contents == pages || contents == pages + [0]
  }

  ghost predicate Distinct(pages: seq<nat>) {
    forall i, j :: 0 <= i < j < |pages| ==> pages[i] != pages[j]
  }

  predicate Is32(id: nat) {
    id <= LAST_32BIT
  }

  // A page lies below 4 GiB.
  predicate Below4G(id: nat) {
    (id + 1) * 0x20_0000 <= 0x1_0000_0000
  }

  lemma Is32Is(id: nat)
    ensures Is32(id) <==> Below4G(id)
  {
  }

  // No page on one side of 4 GiB is free.
  ghost predicate NoneFree(status: seq<bool>, low: bool) {
    forall id :: 0 <= id < |status| && Below4G(id) == low ==> status[id]
  }

  // How many pages of a range go to each stack.
  function LowIn(first: nat, last: nat): nat {
    if first >= last || !Is32(first) then 0 else (if Is32(last) then last else LAST_32BIT + 1) - first
  }

  function HighIn(first: nat, last: nat): nat {
    if first >= last then 0 else last - first - LowIn(first, last)
  }

  // One page more of a range, of which there are more to come.
  lemma Counts(first: nat, i: nat, last: nat)
    requires first <= i
    ensures LowIn(first, first) == 0 && HighIn(first, first) == 0
    ensures LowIn(first, i + 1) == LowIn(first, i) + (if Is32(i) then 1 else 0)
    ensures HighIn(first, i + 1) == HighIn(first, i) + (if Is32(i) then 0 else 1)
    ensures i < last ==> LowIn(first, i + 1) <= LowIn(first, last) && HighIn(first, i + 1) <= HighIn(first, last)
  {
  }

  // The pages of one stack: different, of one kind, and exactly those of the kind whose status is
  // false.
  ghost predicate Stacked(pages: seq<nat>, status: seq<bool>, low: bool) {
    && Distinct(pages)
    && (forall id :: id in pages ==> 0 < id < |status| && !status[id] && Is32(id) == low)
    && (forall id :: 0 <= id < |status| && !status[id] && Is32(id) == low ==> id in pages)
  }

  lemma StackedPush(pages: seq<nat>, status: seq<bool>, id: nat, low: bool)
    requires Stacked(pages, status, low) && 0 < id < |status| && status[id]
    ensures Stacked(if Is32(id) == low then [id] + pages else pages, status[id := false], low)
  {
    if Is32(id) == low {
      assert id !in pages;
      var more := [id] + pages;
      forall i, j | 0 <= i < j < |more| ensures more[i] != more[j] {
        assert more[j] == pages[j - 1] && pages[j - 1] in pages;
        if i > 0 {
          assert more[i] == pages[i - 1];
        }
      }
    }
  }

  lemma StackedPop(pages: seq<nat>, status: seq<bool>, id: nat, low: bool)
    requires Stacked(pages, status, low) && id < |status| && (Is32(id) == low ==> pages != [] && id == pages[0])
    ensures Stacked(if Is32(id) == low then pages[1..] else pages, status[id := true], low)
  {
    if Is32(id) == low {
      var tail, status' := pages[1..], status[id := true];
      assert pages == [id] + tail;
      forall x | x in tail ensures x != id {
        var k :| 0 <= k < |tail| && tail[k] == x;
        assert pages[k + 1] == x && pages[0] == id;
      }
      forall x | 0 <= x < |status'| && !status'[x] && Is32(x) == low ensures x in tail {
        assert x in pages && x != id;
      }
      forall i, j | 0 <= i < j < |tail| ensures tail[i] != tail[j] {
        assert tail[i] == pages[i + 1] && tail[j] == pages[j + 1];
      }
      assert forall x :: x in tail ==> x in pages;
    } else {
      assert forall x :: x in pages ==> x != id;
    }
  }

  // ------------------------------------------------------------------
  // The books
  // ------------------------------------------------------------------

  datatype Books = Books(
    contents32: seq<nat>, contents64: seq<nat>,           // what is on the stacks
    pages32: seq<nat>, pages64: seq<nat>,                 // the pages among it
    status: seq<bool>, held: set<nat>, available: nat, used: nat,
    size32: nat, size64: nat)

  ghost function Low(s: set<nat>): set<nat> {
    set id | id in s && Is32(id)
  }

  ghost function High(s: set<nat>): set<nat> {
    set id | id in s && !Is32(id)
  }

  // There is room for every page ever inserted, and the guard.
  ghost predicate Room(b: Books) {
    |b.pages32| + |Low(b.held)| + 2 <= b.size32 && |b.pages64| + |High(b.held)| + 2 <= b.size64
  }

  ghost predicate Counted(b: Books) {
    b.available == PAGE * (|b.pages32| + |b.pages64| + |b.held|) && b.used == PAGE * |b.held|
  }

  ghost predicate HeldOk(b: Books) {
    forall id :: id in b.held ==> 0 < id < |b.status| && b.status[id]
  }

  // The stacks hold exactly the pages whose status is false, each once, the pages given out are
  // others, and the counters add up.
  ghost predicate Balanced(b: Books) {
    && Holds(b.contents32, b.pages32) && Holds(b.contents64, b.pages64)
    && Stacked(b.pages32, b.status, true) && Stacked(b.pages64, b.status, false)
    && HeldOk(b) && Room(b) && Counted(b)
  }

  /** Pages that can be had are what is available and not used. */
  lemma FreeMemory(b: Books)
    requires Balanced(b)
    ensures b.available - b.used == PAGE * (|b.pages32| + |b.pages64|)
    ensures forall id :: id in b.held ==> id !in b.pages32 && id !in b.pages64
  {
  }

  function Onto(id: nat, low: bool, s: seq<nat>): seq<nat> {
    if Is32(id) == low then [id] + s else s
  }

  lemma HoldsPush(contents: seq<nat>, pages: seq<nat>, id: nat, low: bool)
    requires Holds(contents, pages)
    ensures Holds(Onto(id, low, contents), Onto(id, low, pages))
  {
    assert [id] + (pages + [0]) == ([id] + pages) + [0];
  }

  lemma InsertOk(b: Books, id: nat)
    requires Balanced(b) && 0 < id < |b.status| && b.status[id] && id !in b.held
    requires if Is32(id) then |b.pages32| + |Low(b.held)| + 3 <= b.size32 else |b.pages64| + |High(b.held)| + 3 <= b.size64
    ensures if Is32(id) then |b.contents32| + 1 < b.size32 else |b.contents64| + 1 < b.size64
    ensures |Onto(id, true, b.pages32)| == |b.pages32| + (if Is32(id) then 1 else 0)
    ensures |Onto(id, false, b.pages64)| == |b.pages64| + (if Is32(id) then 0 else 1)
    ensures Balanced(b.(contents32 := Onto(id, true, b.contents32), contents64 := Onto(id, false, b.contents64),
                        pages32 := Onto(id, true, b.pages32), pages64 := Onto(id, false, b.pages64),
                        status := b.status[id := false], available := b.available + PAGE))
  {
    hide Stacked, Distinct, Low, High;
    HoldsPush(b.contents32, b.pages32, id, true);
    HoldsPush(b.contents64, b.pages64, id, false);
    StackedPush(b.pages32, b.status, id, true);
    StackedPush(b.pages64, b.status, id, false);
  }

  lemma FreeOk(b: Books, id: nat)
    requires Balanced(b) && id in b.held
    ensures |b.contents32| + 1 < b.size32 || !Is32(id)
    ensures |b.contents64| + 1 < b.size64 || Is32(id)
    ensures b.used >= PAGE
    ensures Balanced(b.(contents32 := Onto(id, true, b.contents32), contents64 := Onto(id, false, b.contents64),
                        pages32 := Onto(id, true, b.pages32), pages64 := Onto(id, false, b.pages64),
                        status := b.status[id := false], held := b.held - {id}, used := b.used - PAGE))
  {
    hide Stacked, Low, High, Distinct;
    HoldsPush(b.contents32, b.pages32, id, true);
    HoldsPush(b.contents64, b.pages64, id, false);
    StackedPush(b.pages32, b.status, id, true);
    StackedPush(b.pages64, b.status, id, false);
    HeldLess(b.held, id);
  }

  function Off(id: nat, low: bool, s: seq<nat>): seq<nat> {
    if Is32(id) == low && s != [] then s[1..] else s
  }

  // The page on top of its stack is given out.
  lemma GiveOk(b: Books, id: nat)
    requires Balanced(b) && if Is32(id) then b.pages32 != [] && id == b.pages32[0] else b.pages64 != [] && id == b.pages64[0]
    ensures 0 < id < |b.status| && id !in b.held
    ensures Balanced(b.(contents32 := Off(id, true, b.contents32), contents64 := Off(id, false, b.contents64),
                        pages32 := Off(id, true, b.pages32), pages64 := Off(id, false, b.pages64),
                        status := b.status[id := true], held := b.held + {id}, used := b.used + PAGE))
  {
    hide Stacked, Holds, Low, High, Distinct;
    TopIsFree(b, id);
    TopOf(b.contents32, b.pages32, b.status, true);
    TopOf(b.contents64, b.pages64, b.status, false);
    StackedPop(b.pages32, b.status, id, true);
    StackedPop(b.pages64, b.status, id, false);
    HeldMore(b.held, id);
  }

  lemma TopIsFree(b: Books, id: nat)
    requires Balanced(b) && if Is32(id) then b.pages32 != [] && id == b.pages32[0] else b.pages64 != [] && id == b.pages64[0]
    ensures 0 < id < |b.status| && id !in b.held && !b.status[id]
  {
    if Is32(id) {
      assert id in b.pages32;
    } else {
      assert id in b.pages64;
    }
  }

  // ------------------------------------------------------------------
  // PhysicalAllocator
  // ------------------------------------------------------------------

  class PhysicalAllocator {
    const stack32: PagesStack
    const stack64: PagesStack
    const status: array<bool>           // true: not free
    var available: nat
    var used: nat
    ghost var pages32: seq<nat>
    ghost var pages64: seq<nat>
    ghost var held: set<nat>            // given out

    ghost predicate Separate()
      reads this, stack32, stack64
    {
      stack32 != stack64 && stack32.words != stack64.words
    }

    ghost function Now(): Books
      reads this, stack32, stack64, stack32.words, stack64.words, status
      requires stack32.Valid() && stack64.Valid()
    {
      Books(stack32.Contents(), stack64.Contents(), pages32, pages64, status[..], held, available, used,
            stack32.words.Length, stack64.words.Length)
    }

    ghost predicate Valid()
      reads this, stack32, stack64, stack32.words, stack64.words, status
    {
      Separate() && stack32.Valid() && stack64.Valid() && Balanced(Now())
    }

    constructor (pages: nat, size: nat)
      requires size >= 2
      ensures Valid() && held == {} && pages32 == [] && pages64 == [] && status.Length == pages
      ensures stack32.words.Length == size && stack64.words.Length == size
      ensures fresh(status) && fresh(stack32) && fresh(stack64) && fresh(stack32.words) && fresh(stack64.words)
    {
      stack32 := new PagesStack(size);
      stack64 := new PagesStack(size);
      status := new bool[pages](_ => true);
      available, used := 0, 0;
      pages32, pages64, held := [], [], {};
      new;
      hide Balanced;
      NothingYet(Now());
    }

    // Puts a page on its stack.
    method PushPage(id: nat)
      requires Separate() && stack32.Valid() && stack64.Valid()
      requires if Is32(id) then |stack32.Contents()| + 1 < stack32.words.Length else |stack64.Contents()| + 1 < stack64.words.Length
      modifies stack32, stack64, stack32.words, stack64.words
      ensures stack32.Valid() && stack64.Valid()
      ensures stack32.Contents() == Onto(id, true, old(stack32.Contents()))
      ensures stack64.Contents() == Onto(id, false, old(stack64.Contents()))
    {
      if Is32(id) {
        stack32.Push(id);
      } else {
        stack64.Push(id);
      }
    }

    /** _insert_pages_range: every page of the range is free afterwards, and those that were already
        are not counted again. No page of the range has been given out. */
    method InsertRange(start: nat, end: nat)
      requires Valid() && start >= PAGE && end / PAGE <= status.Length && forall id :: start / PAGE <= id < end / PAGE ==> id !in held
      requires |pages32| + |Low(held)| + LowIn(start / PAGE, end / PAGE) + 2 <= stack32.words.Length
      requires |pages64| + |High(held)| + HighIn(start / PAGE, end / PAGE) + 2 <= stack64.words.Length
      modifies this, stack32, stack64, stack32.words, stack64.words, status
      ensures Valid() && held == old(held)
      ensures forall id :: 0 <= id < status.Length ==>
        status[id] == (old(status[id]) && !(start / PAGE <= id < end / PAGE))
    {
      hide LowIn, HighIn, Low, High, Balanced;
      var first, last := start / PAGE, end / PAGE;
      Counts(first, first, last);
      if first >= last {
        return;
      }
      var i := first;
      while i < last
        invariant first <= i <= last && Valid() && held == old(held)
        invariant |pages32| <= |old(pages32)| + LowIn(first, i) && |pages64| <= |old(pages64)| + HighIn(first, i)
        invariant forall id :: 0 <= id < status.Length ==> status[id] == (old(status[id]) && !(first <= id < i))
      {
        Counts(first, i, last);
        if status[i] {
          InsertPage(i);
        }
        i := i + 1;
      }
    }

    method InsertPage(id: nat)
      requires Valid() && id !in held && 0 < id < status.Length && status[id]
      requires if Is32(id) then |pages32| + |Low(held)| + 3 <= stack32.words.Length else |pages64| + |High(held)| + 3 <= stack64.words.Length
      modifies this, stack32, stack64, stack32.words, stack64.words, status
      ensures Valid() && held == old(held) && status[..] == old(status[..])[id := false]
      ensures |pages32| == |old(pages32)| + (if Is32(id) then 1 else 0) && |pages64| == |old(pages64)| + (if Is32(id) then 0 else 1)
    {
      hide Balanced, Onto;
      ghost var b := Now();
      InsertOk(b, id);
      status[id] := false;
      assert status[..] == b.status[id := false];
      PushPage(id);
      pages32, pages64 := Onto(id, true, pages32), Onto(id, false, pages64);
      available := available + PAGE;
      assert Now() == b.(contents32 := Onto(id, true, b.contents32), contents64 := Onto(id, false, b.contents64),
                         pages32 := pages32, pages64 := pages64, status := b.status[id := false], available := available);
    }

    /** free: a page that was given out is free again; nothing happens for null or for a page that is
        free already. */
    method Free(addr: nat)
      requires Valid() && (addr != 0 ==> addr / PAGE < status.Length && (status[addr / PAGE] ==> addr / PAGE in held))
      modifies this, stack32, stack64, stack32.words, stack64.words, status
      ensures Valid()
      ensures held == if addr == 0 then old(held) else old(held) - {addr / PAGE}
      ensures available == old(available)
    {
      if addr == 0 {
        return;
      }
      var id := addr / PAGE;
      if !status[id] {
        assert held - {id} == held;
        return;
      }
      FreePage(id);
    }

    method FreePage(id: nat)
      requires Valid() && id in held && id < status.Length
      modifies this, stack32, stack64, stack32.words, stack64.words, status
      ensures Valid() && held == old(held) - {id} && available == old(available)
    {
      hide Balanced, Onto;
      ghost var b := Now();
      FreeOk(b, id);
      status[id] := false;
      assert status[..] == b.status[id := false];
      PushPage(id);
      pages32, pages64 := Onto(id, true, pages32), Onto(id, false, pages64);
      held := held - {id};
      used := used - PAGE;
      assert Now() == b.(contents32 := Onto(id, true, b.contents32), contents64 := Onto(id, false, b.contents64),
                         pages32 := pages32, pages64 := pages64, status := b.status[id := false], held := held, used := used);
    }

    // A page has been taken off its stack, and is given out.
    method Give(id: nat, ghost b: Books) returns (addr: nat)
      requires Separate() && stack32.Valid() && stack64.Valid() && Balanced(b)
      requires if Is32(id) then b.pages32 != [] && id == b.pages32[0] else b.pages64 != [] && id == b.pages64[0]
      requires Now() == b.(contents32 := Off(id, true, b.contents32), contents64 := Off(id, false, b.contents64))
      modifies this, status
      ensures Valid() && addr == id * PAGE && id != 0 && id !in old(held) && held == old(held) + {id} && available == old(available)
    {
      hide Balanced, Off;
      GiveOk(b, id);
      status[id] := true;
      assert status[..] == b.status[id := true];
      pages32, pages64 := Off(id, true, pages32), Off(id, false, pages64);
      held := held + {id};
      used := used + PAGE;
      addr := id * PAGE;
      assert Now() == b.(contents32 := Off(id, true, b.contents32), contents64 := Off(id, false, b.contents64),
                         pages32 := pages32, pages64 := pages64, status := b.status[id := true], held := held, used := used);
    }

    /** alloc32: a page below 4 GiB that nobody holds; null only when there is none. */
    method Alloc32() returns (addr: nat)
      requires Valid()
      modifies this, stack32, status
      ensures Valid() && available == old(available)
      ensures addr == 0 <==> NoneFree(old(status[..]), true)
      ensures addr == 0 ==> held == old(held)
      ensures addr != 0 ==> addr % PAGE == 0 && addr + PAGE <= 0x1_0000_0000
      ensures addr != 0 ==> addr / PAGE !in old(held) && held == old(held) + {addr / PAGE}
    {
      ghost var b := Now();
      PagesAreFree(b);
      TopOf(b.contents32, b.pages32, b.status, true);
      var id := stack32.Pop();
      if id == 0 {
        PopGuard(b, true);
        return 0;
      }
      addr := Give(id, b);
      Whole(id);
    }

    /** alloc: a page above 4 GiB if there is one, else one below; null only when there is none. */
    method Alloc() returns (addr: nat)
      requires Valid()
      modifies this, stack32, stack64, status
      ensures Valid() && available == old(available)
      ensures addr == 0 <==> NoneFree(old(status[..]), true) && NoneFree(old(status[..]), false)
      ensures addr == 0 ==> held == old(held)
      ensures addr != 0 ==> addr % PAGE == 0 && (addr + PAGE > 0x1_0000_0000 || NoneFree(old(status[..]), false))
      ensures addr != 0 ==> addr / PAGE !in old(held) && held == old(held) + {addr / PAGE}
    {
      ghost var b := Now();
      PagesAreFree(b);
      TopOf(b.contents64, b.pages64, b.status, false);
      var id := stack64.Pop();
      if id == 0 {
        PopGuard(b, false);
        addr := Alloc32();
      } else {
        addr := Give(id, b);
        Whole(id);
      }
    }
  }

  lemma NothingYet(b: Books)
    requires b.contents32 == b.contents64 == [0] && b.pages32 == b.pages64 == [] && b.held == {} && b.available == b.used == 0
    requires (forall i :: 0 <= i < |b.status| ==> b.status[i]) && b.size32 >= 2 && b.size64 >= 2
    ensures Balanced(b)
  {
    assert Low({}) == {} && High({}) == {};
  }

  lemma PagesAreFree(b: Books)
    requires Balanced(b)
    ensures b.pages32 == [] <==> NoneFree(b.status, true)
    ensures b.pages64 == [] <==> NoneFree(b.status, false)
  {
    StackIsFree(b.pages32, b.status, true);
    StackIsFree(b.pages64, b.status, false);
  }

  lemma StackIsFree(pages: seq<nat>, status: seq<bool>, low: bool)
    requires Stacked(pages, status, low)
    ensures pages == [] <==> NoneFree(status, low)
  {
    hide Is32, Below4G;
    if pages == [] {
      forall id | 0 <= id < |status| && Below4G(id) == low ensures status[id] {
        Is32Is(id);
      }
    } else {
      assert pages[0] in pages;
      Is32Is(pages[0]);
    }
  }

  // Popping the guard, or nothing.
  lemma PopGuard(b: Books, low: bool)
    requires Balanced(b) && if low then b.pages32 == [] else b.pages64 == []
    ensures Balanced(if low then b.(contents32 := []) else b.(contents64 := []))
  {
  }

  // The top of a stack is its first page, and 0 (the guard, or nothing) when there is none.
  lemma TopOf(contents: seq<nat>, pages: seq<nat>, status: seq<bool>, low: bool)
    requires Holds(contents, pages) && Stacked(pages, status, low)
    ensures pages == [] ==> contents == [] || contents == [0]
    ensures pages != [] ==> contents != [] && contents[0] == pages[0] && Holds(contents[1..], pages[1..])
    ensures pages != [] ==> 0 < pages[0] < |status| && Is32(pages[0]) == low
  {
    if pages != [] {
      assert pages[0] in pages;
      assert (pages + [0])[1..] == pages[1..] + [0];
    }
  }

  lemma Whole(id: nat)
    ensures id * PAGE / PAGE == id && id * PAGE % PAGE == 0
  {
  }

  lemma HeldMore(held: set<nat>, id: nat)
    requires id !in held
    ensures |held + {id}| == |held| + 1
    ensures |Low(held + {id})| == if Is32(id) then |Low(held)| + 1 else |Low(held)|
    ensures |High(held + {id})| == if Is32(id) then |High(held)| else |High(held)| + 1
  {
    if Is32(id) {
      assert Low(held + {id}) == Low(held) + {id} && High(held + {id}) == High(held);
    } else {
      assert High(held + {id}) == High(held) + {id} && Low(held + {id}) == Low(held);
    }
  }

  lemma HeldLess(held: set<nat>, id: nat)
    requires id in held
    ensures |held - {id}| == |held| - 1
    ensures |Low(held - {id})| == if Is32(id) then |Low(held)| - 1 else |Low(held)|
    ensures |High(held - {id})| == if Is32(id) then |High(held)| else |High(held)| - 1
  {
    HeldMore(held - {id}, id);
    assert held - {id} + {id} == held;
  }
}
