/** The code lengths of a dynamic block (section 3.2.7 of RFC 1951; deps/miniz/tinfl.c): they come run-length
    coded, in a Huffman code of their own, and are expanded by a coroutine that can be interrupted wherever
    input runs out. */
module CodeLengths {
  import opened Powers
  import opened BitStrings
  import opened CanonicalCode
  import opened HuffmanTable
  import opened BitReader

  const SYMBOLS: nat := 19
  const COPY: nat := 16                 // copy the previous length; 17 and 18 stand for zeros
  const ROOM: nat := 457                // 288 + 32 + 137 entries of m_len_codes

  // A symbol, and the number in its extra bits.
  datatype Item = Item(sym: nat, extra: nat)

  function ExtraBits(sym: nat): nat {
    if sym < COPY then 0 else if sym == COPY then 2 else if sym == 17 then 3 else 7
  }

  function Least(sym: nat): nat {
    if sym == 18 then 11 else 3
  }

  ghost predicate ItemOk(lens: seq<nat>, x: Item) {
    |lens| == SYMBOLS && Used(lens, x.sym) && x.extra < Pow2(ExtraBits(x.sym))
  }

  // The code of an item.
  function ItemBits(lens: seq<nat>, x: Item): seq<bool>
    requires x.sym < |lens|
  {
    CodeWord(lens, x.sym) + Low(x.extra, ExtraBits(x.sym))
  }

  function AllBits(lens: seq<nat>, items: seq<Item>): seq<bool>
    requires forall i :: 0 <= i < |items| ==> items[i].sym < |lens|
  {
    if items == [] then [] else AllBits(lens, items[..|items| - 1]) + ItemBits(lens, items[|items| - 1])
  }

  // ------------------------------------------------------------------
  // What the items stand for
  // ------------------------------------------------------------------

  function Times(v: nat, n: nat): (s: seq<nat>)
    ensures |s| == n && forall i :: 0 <= i < n ==> s[i] == v
  {
    seq(n, _ => v)
  }

  function Expand(out: seq<nat>, x: Item): seq<nat> {
    if x.sym < COPY then out + [x.sym]
    else out + Times(if x.sym == COPY && out != [] then out[|out| - 1] else 0, Least(x.sym) + x.extra)
  }

  function Expanded(items: seq<Item>): seq<nat> {
    if items == [] then [] else Expand(Expanded(items[..|items| - 1]), items[|items| - 1])
  }

  // Every item comes before the lengths are complete, and none copies a length that is not there.
  ghost predicate Legal(lens: seq<nat>, items: seq<Item>, total: nat) {
    items == [] ||
    (var front, x := items[..|items| - 1], items[|items| - 1];
     Legal(lens, front, total) && ItemOk(lens, x) && |Expanded(front)| < total && (x.sym == COPY ==> front != []))
  }

  lemma OneMore(lens: seq<nat>, items: seq<Item>, x: Item)
    ensures (items + [x])[..|items|] == items && Expanded(items + [x]) == Expand(Expanded(items), x)
  {
    assert (items + [x])[..|items|] == items;
  }

  lemma ExtraBound(x: Item)
    requires x.extra < Pow2(ExtraBits(x.sym))
    ensures x.sym >= COPY ==> Least(x.sym) + x.extra <= 138
  {
    assert Pow2(2) == 4 && Pow2(3) == 8 && Pow2(7) == 128 by {
      assert Pow2(4) == 16;
    }
  }

  /** An expansion that is still short of total, or has just passed it, stays within m_len_codes, and
      consists of code lengths. */
  lemma {:induction false} Fits(lens: seq<nat>, items: seq<Item>, total: nat)
    requires Legal(lens, items, total) && total <= 320
    ensures |Expanded(items)| <= ROOM && Lengths(Expanded(items)) && (items != [] ==> Expanded(items) != [])
  {
    hide Pow2;
    if items != [] {
      var front, x := items[..|items| - 1], items[|items| - 1];
      Fits(lens, front, total);
      ExtraBound(x);
    }
  }

  lemma {:induction false} ZeroItems(lens: seq<nat>, n: nat) returns (items: seq<Item>)
    requires ItemOk(lens, Item(0, 0)) && n < 320
    ensures Legal(lens, items, 320) && |Expanded(items)| == n
  {
    if n == 0 {
      items := [];
    } else {
      var front := ZeroItems(lens, n - 1);
      items := front + [Item(0, 0)];
      OneMore(lens, front, Item(0, 0));
    }
  }

  /** No entry of m_len_codes can be spared. */
  lemma RoomIsNeeded(lens: seq<nat>) returns (items: seq<Item>)
    requires |lens| == SYMBOLS && Used(lens, 0) && Used(lens, 18)
    ensures Legal(lens, items, 320) && |Expanded(items)| == ROOM
  {
    assert Pow2(0) == 1 && Pow2(7) == 128 by {
      assert Pow2(4) == 16;
    }
    hide Pow2;
    var front := ZeroItems(lens, 319);
    items := front + [Item(18, 127)];
    OneMore(lens, front, Item(18, 127));
  }

  // ------------------------------------------------------------------
  // One reading
  // ------------------------------------------------------------------

  lemma LowOnce(a: nat, b: nat, n: nat)
    requires a < Pow2(n) && b < Pow2(n) && Low(a, n) == Low(b, n)
    ensures a == b
  {
    ValOfLow(a, n);
    ValOfLow(b, n);
  }

  lemma SameItem(lens: seq<nat>, x: Item, y: Item, s: seq<bool>)
    requires Lengths(lens) && Complete(lens) && ItemOk(lens, x) && ItemOk(lens, y)
    requires ItemBits(lens, x) <= s && ItemBits(lens, y) <= s
    ensures x == y
  {
    hide CodeWord, Low, Complete, Pow2;
    var n := lens[x.sym];
    assert s[..n] == ItemBits(lens, x)[..n] == CodeWord(lens, x.sym);
    assert s[..lens[y.sym]] == ItemBits(lens, y)[..lens[y.sym]] == CodeWord(lens, y.sym);
    BeginsOnce(lens, x.sym, y.sym, s);
    var m := n + ExtraBits(x.sym);
    assert s[n..m] == ItemBits(lens, x)[n..] == Low(x.extra, ExtraBits(x.sym));
    assert s[n..m] == ItemBits(lens, y)[n..] == Low(y.extra, ExtraBits(y.sym));
    LowOnce(x.extra, y.extra, ExtraBits(x.sym));
  }

  lemma {:induction false} LegalSymbols(lens: seq<nat>, items: seq<Item>, total: nat)
    requires Legal(lens, items, total)
    ensures forall i :: 0 <= i < |items| ==> ItemOk(lens, items[i]) && items[i].sym < |lens|
  {
    if items != [] {
      LegalSymbols(lens, items[..|items| - 1], total);
    }
  }

  lemma {:induction false} LegalFront(lens: seq<nat>, items: seq<Item>, total: nat, n: nat)
    requires Legal(lens, items, total) && n <= |items|
    ensures Legal(lens, items[..n], total) && (n < |items| ==> |Expanded(items[..n])| < total)
  {
    if n < |items| {
      var front := items[..|items| - 1];
      LegalFront(lens, front, total, n);
      assert front[..n] == items[..n];
      assert n == |front| ==> items[..n] == front;
    } else {
      assert items[..n] == items;
    }
  }

  // The items that a stream begins with are the same as far as both readings go.
  lemma {:induction false} OneReading(lens: seq<nat>, a: seq<Item>, b: seq<Item>, total: nat, s: seq<bool>)
    requires Lengths(lens) && Complete(lens) && Legal(lens, a, total) && Legal(lens, b, total) && |a| <= |b|
    requires (forall i :: 0 <= i < |a| ==> a[i].sym < |lens|) && forall i :: 0 <= i < |b| ==> b[i].sym < |lens|
    requires AllBits(lens, a) <= s && AllBits(lens, b) <= s
    ensures a <= b
    decreases |a| + |b|
  {
    hide ItemBits, Complete, Expanded;
    if a != [] {
      var b0 := b[..|b| - 1];
      assert AllBits(lens, b0) <= s;
      if |a| < |b| {
        OneReading(lens, a, b0, total, s);
      } else {
        var a0 := a[..|a| - 1];
        OneReading(lens, a0, b0, total, s);
        var x, y, n := a[|a| - 1], b[|b| - 1], |AllBits(lens, a0)|;
        assert a0 == b0;
        assert s[n..][..|ItemBits(lens, x)|] == ItemBits(lens, x);
        assert s[n..][..|ItemBits(lens, y)|] == ItemBits(lens, y);
        SameItem(lens, x, y, s[n..]);
      }
    }
  }

  // ------------------------------------------------------------------
  // The coroutine
  // ------------------------------------------------------------------

  datatype Phase = Symbol | Extra | Finished | Failed

  // What has been read: items, then a part of the next one's code, then what is to come.
  ghost predicate Reading(lens: seq<nat>, fed: seq<bool>, items: seq<Item>, part: seq<bool>, stream: seq<bool>, total: nat) {
    && |lens| == SYMBOLS && Lengths(lens) && Complete(lens) && Legal(lens, items, total)
    && (forall i :: 0 <= i < |items| ==> items[i].sym < |lens|)
    && fed == AllBits(lens, items) + part + stream
  }

  // What is known at each place where the coroutine can go on.
  ghost predicate HandOk(lens: seq<nat>, phase: Phase, items: seq<Item>, part: seq<bool>, dist: nat, total: nat) {
    var n := |Expanded(items)|;
    match phase
    case Symbol => part == []
    case Extra => COPY <= dist && Used(lens, dist) && part == CodeWord(lens, dist) && n < total && (dist == COPY ==> items != [])
    case Finished => part == [] && n == total
    case Failed => (part == [] && n > total) || (items == [] && Used(lens, COPY) && part == CodeWord(lens, COPY))
  }

  // The stream does not hold another item yet.
  ghost predicate Waits(lens: seq<nat>, s: seq<bool>) {
    forall x :: ItemOk(lens, x) ==> !(ItemBits(lens, x) <= s)
  }

  lemma ReadOn(lens: seq<nat>, fed: seq<bool>, items: seq<Item>, part: seq<bool>, stream: seq<bool>, total: nat, k: nat)
    requires Reading(lens, fed, items, part, stream, total) && k <= |stream|
    ensures Reading(lens, fed, items, part + stream[..k], stream[k..], total)
  {
    hide AllBits, Legal, Complete;
    assert stream == stream[..k] + stream[k..];
    assert AllBits(lens, items) + part + stream == AllBits(lens, items) + (part + stream[..k]) + stream[k..];
  }

  lemma ItemRead(lens: seq<nat>, fed: seq<bool>, items: seq<Item>, part: seq<bool>, stream: seq<bool>, total: nat, x: Item)
    requires Reading(lens, fed, items, part, stream, total) && ItemOk(lens, x) && part == ItemBits(lens, x)
    requires |Expanded(items)| < total && (x.sym == COPY ==> items != [])
    ensures Reading(lens, fed, items + [x], [], stream, total)
  {
    hide ItemBits, Complete, Pow2, Expanded;
    OneMore(lens, items, x);
    assert (items + [x])[|items|] == x;
    assert AllBits(lens, items + [x]) == AllBits(lens, items) + part;
    assert AllBits(lens, items) + part + [] + stream == AllBits(lens, items) + part + stream;
  }

  lemma ValOnce(w: seq<bool>)
    ensures Val(w) < Pow2(|w|) && Low(Val(w), |w|) == w
  {
    LowOfVal(w);
  }

  lemma BeginsWithSymbol(lens: seq<nat>, x: Item, s: seq<bool>)
    requires ItemOk(lens, x) && ItemBits(lens, x) <= s
    ensures Begins(lens, x.sym, s)
  {
    hide CodeWord, Low, Pow2;
    var n := lens[x.sym];
    assert s[..n] == ItemBits(lens, x)[..n] == CodeWord(lens, x.sym);
  }

  lemma WaitsForSymbol(lens: seq<nat>, s: seq<bool>)
    requires NoCode(lens, s)
    ensures Waits(lens, s)
  {
    hide CodeWord, Low, Pow2;
    forall x | ItemOk(lens, x) ensures !(ItemBits(lens, x) <= s) {
      if ItemBits(lens, x) <= s {
        BeginsWithSymbol(lens, x, s);
      }
    }
  }

  lemma WaitsForExtra(lens: seq<nat>, sym: nat, s: seq<bool>)
    requires Lengths(lens) && Complete(lens) && |lens| == SYMBOLS && Used(lens, sym) && |s| < ExtraBits(sym)
    ensures Waits(lens, CodeWord(lens, sym) + s)
  {
    hide CodeWord, Low, Pow2, Complete;
    var all := CodeWord(lens, sym) + s;
    forall x | ItemOk(lens, x) ensures !(ItemBits(lens, x) <= all) {
      if ItemBits(lens, x) <= all {
        BeginsWithSymbol(lens, x, all);
        assert all[..lens[sym]] == CodeWord(lens, sym);
        BeginsOnce(lens, x.sym, sym, all);
      }
    }
  }

  // TINFL_MEMSET on a part of m_len_codes.
  method Set(a: array<nat>, from: nat, v: nat, n: nat)
    requires from + n <= a.Length
    modifies a
    ensures a[..from + n] == old(a[..from]) + Times(v, n)
  {
    for i := 0 to n
      invariant a[..from] == old(a[..from])
      invariant forall k :: from <= k < from + i ==> a[k] == v
    {
      a[from + i] := v;
    }
  }

  class Expander {
    const reader: Reader
    const look: seq<int>                // the table of the code for code lengths
    const tree: seq<int>
    const total: nat                    // m_table_sizes[0] + m_table_sizes[1]
    const len_codes: array<nat>
    var counter: nat
    var dist: nat
    var phase: Phase
    ghost const lens: seq<nat>
    ghost var fed: seq<bool>            // all bits of the input so far
    ghost var items: seq<Item>
    ghost var part: seq<bool>           // the bits of the item at hand

    constructor (reader: Reader, look: seq<int>, tree: seq<int>, lits: nat, dists: nat, len_codes: array<nat>, ghost lens: seq<nat>)
      requires reader.Valid() && |lens| == SYMBOLS && Lengths(lens) && Complete(lens) && Decodes(lens, look, tree)
      requires 257 <= lits <= 288 && 1 <= dists <= 32 && len_codes.Length == ROOM
      ensures Valid() && fed == reader.Stream() && items == [] && this.reader == reader && this.len_codes == len_codes
      ensures total == lits + dists && this.lens == lens
    {
      this.reader, this.look, this.tree, this.total, this.len_codes := reader, look, tree, lits + dists, len_codes;
      this.lens := lens;
      counter, dist, phase := 0, 0, Symbol;
      fed, items, part := reader.Stream(), [], [];
    }

    ghost predicate Fixed() {
      total <= 320 && len_codes.Length == ROOM && Decodes(lens, look, tree)
    }

    // The lengths so far are those of the items.
    ghost predicate Valid()
      reads this, reader, len_codes
    {
      && reader.Valid() && Fixed()
      && Reading(lens, fed, items, part, reader.Stream(), total) && HandOk(lens, phase, items, part, dist, total)
      && counter <= ROOM && len_codes[..counter] == Expanded(items)
    }

    method Feed(more: seq<nat>)
      requires Valid() && Bytes(more)
      modifies this, reader
      ensures Valid() && fed == old(fed) + BitsOf(more) && items == old(items) && phase == old(phase)
    {
      hide Low, BitsOf, Val, HandOk, AllBits, Legal, Complete, Expanded, Decodes;
      assert fed + BitsOf(more) == AllBits(lens, items) + part + (reader.Stream() + BitsOf(more));
      reader.Feed(more);
      fed := fed + BitsOf(more);
    }

    // The code of a symbol.
    method StepSymbol() returns (ok: bool)
      requires Valid() && phase == Symbol && counter < total
      modifies this, reader, len_codes
      ensures Valid() && fed == old(fed) && old(items) <= items
      ensures ok ==> |reader.Stream()| < old(|reader.Stream()|)
      ensures !ok ==> reader.input == [] && phase == Symbol && items == old(items) && Waits(lens, part + reader.Stream())
    {
      hide Low, BitsOf, Val, AllBits, Legal, Complete, Expanded, Decodes, Pow2, CodeWord;
      ghost var stream := reader.Stream();
      var sym;
      ok, sym := reader.HuffDecode(look, tree, lens);
      if !ok {
        WaitsForSymbol(lens, reader.Stream());
        assert part + reader.Stream() == reader.Stream();
        return;
      }
      ReadOn(lens, fed, items, part, stream, total, lens[sym]);
      part := part + stream[..lens[sym]];
      assert part == CodeWord(lens, sym);
      dist := sym;
      if dist < COPY {
        ghost var x := Item(dist, 0);
        PlainItem(lens, dist);
        ItemRead(lens, fed, items, part, reader.Stream(), total, x);
        OneMore(lens, items, x);
        items := items + [x];
        part := [];
        len_codes[counter] := dist;
        counter := counter + 1;
      } else if dist == COPY && counter == 0 {
        NoLengths(lens, items, total);
        phase := Failed;
      } else {
        NoLengths(lens, items, total);
        phase := Extra;
      }
    }

    // The extra bits, and the run they complete.
    method StepExtra() returns (ok: bool)
      requires Valid() && phase == Extra
      modifies this, reader, len_codes
      ensures Valid() && fed == old(fed) && old(items) <= items
      ensures ok ==> |reader.Stream()| < old(|reader.Stream()|) && phase == Symbol
      ensures !ok ==> reader.input == [] && phase == Extra && Waits(lens, part + reader.Stream())
    {
      hide Low, BitsOf, Val, Reading, Expanded, Decodes, Waits, HandOk;
      ghost var stream := reader.Stream();
      var s;
      ExtraDist(lens, items, part, dist, total);
      var num_extra := if dist == COPY then 2 else if dist == 17 then 3 else 7;
      ok, s := reader.GetBits(num_extra);
      if !ok {
        ExtraMissing(lens, fed, items, part, reader.Stream(), total, dist);
        return;
      }
      ghost var x := Item(dist, s);
      RunRead(lens, fed, items, part, stream, total, dist);
      s := s + if dist == 18 then 11 else 3;
      Set(len_codes, counter, if dist == COPY then len_codes[counter - 1] else 0, s);
      items := items + [x];
      part := [];
      counter := counter + s;
      phase := Symbol;
    }

    /** The coroutine, until it is done or has to wait. */
    method Run() returns (needsInput: bool)
      requires Valid()
      modifies this, reader, len_codes
      ensures Valid() && fed == old(fed) && old(items) <= items
      ensures needsInput ==> reader.input == [] && (phase == Symbol || phase == Extra) && Waits(lens, part + reader.Stream())
      ensures needsInput ==> |Expanded(items)| < total
      ensures !needsInput ==> phase == Finished || phase == Failed
    {
      hide Low, BitsOf, Val, Reading, Decodes, Expanded, CodeWord;
      ghost var bits := |reader.Stream()|;
      while phase == Extra || (phase == Symbol && counter < total)
        invariant Valid() && fed == old(fed) && old(items) <= items && bits == |reader.Stream()|
        decreases bits
      {
        var ok;
        if phase == Symbol {
          ok := StepSymbol();
        } else {
          ok := StepExtra();
        }
        if !ok {
          return true;
        }
        bits := |reader.Stream()|;
      }
      if phase == Symbol {
        phase := if counter == total then Finished else Failed;
      }
      needsInput := false;
    }

    /** The two codes of the block: their lengths are the expansion of the items that were read. */
    method Split(lits: nat) returns (first: seq<nat>, second: seq<nat>)
      requires Valid() && phase == Finished && lits <= total
      ensures first + second == Expanded(items) && |first| == lits && |second| == total - lits
      ensures Lengths(first) && Lengths(second)
    {
      ReadingFits(lens, fed, items, part, reader.Stream(), total);
      hide Reading, Decodes, Expanded, CodeWord, Lengths;
      var all := len_codes[..total];
      first, second := all[..lits], all[lits..];
      Halves(all, lits);
    }
  }

  lemma ExtraMissing(lens: seq<nat>, fed: seq<bool>, items: seq<Item>, part: seq<bool>, stream: seq<bool>, total: nat, dist: nat)
    requires Reading(lens, fed, items, part, stream, total) && HandOk(lens, Extra, items, part, dist, total) && |stream| < ExtraBits(dist)
    ensures Waits(lens, part + stream)
  {
    hide CodeWord, Waits;
    WaitsForExtra(lens, dist, stream);
  }

  lemma ExtraDist(lens: seq<nat>, items: seq<Item>, part: seq<bool>, dist: nat, total: nat)
    requires HandOk(lens, Extra, items, part, dist, total)
    ensures COPY <= dist
  {
    hide CodeWord;
  }

  // The extra bits complete a run.
  lemma RunRead(lens: seq<nat>, fed: seq<bool>, items: seq<Item>, part: seq<bool>, stream: seq<bool>, total: nat, dist: nat)
    requires Reading(lens, fed, items, part, stream, total) && HandOk(lens, Extra, items, part, dist, total)
    requires ExtraBits(dist) <= |stream| && total <= 320
    ensures var k, out := ExtraBits(dist), Expanded(items);
      var x := Item(dist, Val(stream[..k]));
      && Reading(lens, fed, items + [x], [], stream[k..], total) && (dist == COPY ==> out != [])
      && Expanded(items + [x]) == out + Times(if dist == COPY then out[|out| - 1] else 0, Least(dist) + x.extra)
      && |Expanded(items + [x])| <= ROOM && HandOk(lens, Symbol, items + [x], [], dist, total)
  {
    hide Low, Val, AllBits, Legal, Complete, Expanded, Pow2, CodeWord;
    var k := ExtraBits(dist);
    var x := Item(dist, Val(stream[..k]));
    ValOnce(stream[..k]);
    ReadOn(lens, fed, items, part, stream, total, k);
    NoLengths(lens, items, total);
    ItemRead(lens, fed, items, part + stream[..k], stream[k..], total, x);
    OneMore(lens, items, x);
    ReadingFits(lens, fed, items + [x], [], stream[k..], total);
  }

  lemma Halves(s: seq<nat>, n: nat)
    requires Lengths(s) && n <= |s|
    ensures Lengths(s[..n]) && Lengths(s[n..]) && s[..n] + s[n..] == s
  {
  }

  lemma PlainItem(lens: seq<nat>, sym: nat)
    requires |lens| == SYMBOLS && Used(lens, sym) && sym < COPY
    ensures ItemOk(lens, Item(sym, 0)) && ItemBits(lens, Item(sym, 0)) == CodeWord(lens, sym)
  {
    assert Pow2(0) == 1;
    assert CodeWord(lens, sym) + [] == CodeWord(lens, sym);
  }

  lemma NoLengths(lens: seq<nat>, items: seq<Item>, total: nat)
    requires Legal(lens, items, total) && total <= 320
    ensures items == [] <==> Expanded(items) == []
  {
    Fits(lens, items, total);
  }

  lemma ReadingFits(lens: seq<nat>, fed: seq<bool>, items: seq<Item>, part: seq<bool>, stream: seq<bool>, total: nat)
    requires Reading(lens, fed, items, part, stream, total) && total <= 320
    ensures |Expanded(items)| <= ROOM && Lengths(Expanded(items))
  {
    Fits(lens, items, total);
  }

  lemma CompleteIsLast(lens: seq<nat>, a: seq<Item>, b: seq<Item>, total: nat)
    requires Legal(lens, b, total) && a <= b && |Expanded(a)| == total
    ensures a == b
  {
    hide Legal, Expanded;
    assert b[..|a|] == a;
    LegalFront(lens, b, total, |a|);
  }

  /** Two expanders that have come to the end of the same stream, cut into pieces in whatever way, have
      read the same items and have the same code lengths. */
  lemma SplitsDoNotMatter(a: Expander, b: Expander, s: seq<bool>)
    requires a.Valid() && b.Valid() && a.lens == b.lens && a.total == b.total && a.fed <= s && b.fed <= s
    requires a.phase == Finished && b.phase == Finished
    ensures a.items == b.items && a.len_codes[..a.counter] == b.len_codes[..b.counter]
    ensures a.fed == b.fed ==> a.reader.Stream() == b.reader.Stream()
  {
    hide CodeWord, Complete, Decodes, Expanded, AllBits, Legal, Low, BitsOf;
    assert AllBits(a.lens, a.items) <= s && AllBits(b.lens, b.items) <= s;
    if |a.items| <= |b.items| {
      OneReading(a.lens, a.items, b.items, a.total, s);
      CompleteIsLast(a.lens, a.items, b.items, a.total);
    } else {
      OneReading(b.lens, b.items, a.items, a.total, s);
      CompleteIsLast(a.lens, b.items, a.items, a.total);
    }
    assert a.reader.Stream() == a.fed[|AllBits(a.lens, a.items)|..];
    assert b.reader.Stream() == b.fed[|AllBits(b.lens, b.items)|..];
  }

  // ------------------------------------------------------------------
  // A well-formed sequence of items is expanded to its end
  // ------------------------------------------------------------------

  // The items of a whole expansion.
  ghost predicate Whole(lens: seq<nat>, all: seq<Item>, total: nat) {
    && Lengths(lens) && Complete(lens) && |lens| == SYMBOLS
    && Legal(lens, all, total) && |Expanded(all)| == total > 0 && forall i :: 0 <= i < |all| ==> all[i].sym < |lens|
  }

  lemma {:induction false} BitsFront(lens: seq<nat>, all: seq<Item>, n: nat)
    requires n <= |all| && forall i :: 0 <= i < |all| ==> all[i].sym < |lens|
    ensures AllBits(lens, all[..n]) <= AllBits(lens, all)
    ensures n < |all| ==> AllBits(lens, all[..n]) + ItemBits(lens, all[n]) <= AllBits(lens, all)
    decreases |all|
  {
    hide ItemBits;
    if n < |all| {
      var front := all[..|all| - 1];
      BitsFront(lens, front, n);
      assert front[..n] == all[..n];
      if n == |front| {
        assert all[..n] == front;
      }
    } else {
      assert all[..n] == all;
    }
  }

  // What has been read is the beginning of it.
  lemma OnTrack(lens: seq<nat>, fed: seq<bool>, items: seq<Item>, part: seq<bool>, stream: seq<bool>, total: nat, all: seq<Item>, rest: seq<bool>)
    requires Reading(lens, fed, items, part, stream, total) && Whole(lens, all, total) && fed == AllBits(lens, all) + rest
    ensures items <= all && (|Expanded(items)| == total ==> items == all) && |Expanded(items)| <= total
    ensures items == all ==> part + stream == rest
    ensures items != all ==> |items| < |all| && ItemOk(lens, all[|items|]) && ItemBits(lens, all[|items|]) <= part + stream
  {
    hide AllBits, Legal, Complete, Expanded, ItemBits, ItemOk;
    var p, q := AllBits(lens, items), AllBits(lens, all);
    assert p <= fed && q <= fed;
    assert fed == p + (part + stream);
    if |items| <= |all| {
      OneReading(lens, items, all, total, fed);
    } else {
      OneReading(lens, all, items, total, fed);
      CompleteIsLast(lens, all, items, total);
    }
    assert all[..|items|] == items;
    LegalFront(lens, all, total, |items|);
    LegalSymbols(lens, all, total);
    if items != all {
      BitsFront(lens, all, |items|);
      NextBits(p, ItemBits(lens, all[|items|]), q, rest, part + stream);
    } else {
      assert part + stream == fed[|p|..] && rest == fed[|q|..];
    }
  }

  lemma NextBits(p: seq<bool>, u: seq<bool>, q: seq<bool>, rest: seq<bool>, tail: seq<bool>)
    requires p + u <= q && q + rest == p + tail
    ensures u <= tail
  {
    var fed := q + rest;
    assert (p + u) == q[..|p + u|] == fed[..|p + u|];
    assert u == (p + u)[|p|..] == fed[|p|..|p + u|];
    assert tail == fed[|p|..];
    assert tail[..|u|] == fed[|p|..|p + u|];
  }

  /** On a whole sequence of items the expander neither fails nor waits, and when it is finished it has read just
      that. */
  lemma NotFooled(lens: seq<nat>, fed: seq<bool>, items: seq<Item>, part: seq<bool>, stream: seq<bool>, total: nat, phase: Phase, dist: nat,
                  all: seq<Item>, rest: seq<bool>)
    requires Reading(lens, fed, items, part, stream, total) && HandOk(lens, phase, items, part, dist, total)
    requires Whole(lens, all, total) && fed == AllBits(lens, all) + rest
    ensures phase != Failed && (phase == Finished ==> items == all && stream == rest)
    ensures |Expanded(items)| < total ==> !Waits(lens, part + stream)
  {
    hide AllBits, Expanded, ItemBits, CodeWord;
    OnTrack(lens, fed, items, part, stream, total, all, rest);
    NoneExpanded(all);
    if phase == Finished {
      assert part + stream == stream;
    }
    if phase == Failed && items == [] && part == CodeWord(lens, COPY) && part != [] {
      FirstIsCopy(lens, all, total, part, stream);
      LegalFirst(lens, all, total);
    }
  }

  lemma NoneExpanded(items: seq<Item>)
    ensures items == [] ==> Expanded(items) == []
  {
  }

  lemma FirstIsCopy(lens: seq<nat>, all: seq<Item>, total: nat, part: seq<bool>, stream: seq<bool>)
    requires Whole(lens, all, total) && Used(lens, COPY) && part == CodeWord(lens, COPY)
    requires all != [] && ItemOk(lens, all[0]) && ItemBits(lens, all[0]) <= part + stream
    ensures all[0].sym == COPY
  {
    hide Complete, Expanded, ItemBits, CodeWord;
    var s := part + stream;
    BeginsWithSymbol(lens, all[0], s);
    assert s[..lens[COPY]] == CodeWord(lens, COPY);
    BeginsOnce(lens, all[0].sym, COPY, s);
  }

  lemma {:induction false} LegalFirst(lens: seq<nat>, items: seq<Item>, total: nat)
    requires Legal(lens, items, total) && items != []
    ensures items[0].sym != COPY
  {
    if |items| > 1 {
      LegalFirst(lens, items[..|items| - 1], total);
    }
  }
}
