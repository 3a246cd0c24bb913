/** What the tables of the inflater hold (deps/miniz/tinfl.c), by the laws of sections 3.2.5 and 3.2.7 of RFC 1951 that
    they follow. */
module DeflateTables {
  import opened Powers
  import opened BitStrings
  import opened Tokens
  import H = BlockHeader
  import L = CodeLengths

  // ------------------------------------------------------------------
  // Lengths and distances
  // ------------------------------------------------------------------

  // The numbers of extra bits: from the third distance symbol on there is one more for every two symbols, and from the
  // fifth length symbol on one more for every four.
  function ExtraLaw(kind: Kind, i: nat): nat {
    if kind.Length? then (if i < 4 then 0 else i / 4 - 1) else (if i < 2 then 0 else i / 2 - 1)
  }

  // The symbols that follow the law: all but the last length symbol, which stands for 258 alone.
  function Regular(kind: Kind): nat {
    if kind.Length? then 28 else 30
  }

  // The values from the least to the greatest.
  function Least(kind: Kind): nat {
    if kind.Length? then 3 else 1
  }

  function Greatest(kind: Kind): nat {
    if kind.Length? then 258 else 32768
  }

  lemma SmallPowers()
    ensures Pow2(0) == 1 && Pow2(1) == 2 && Pow2(2) == 4 && Pow2(3) == 8 && Pow2(4) == 16 && Pow2(5) == 32 && Pow2(6) == 64
    ensures Pow2(7) == 128 && Pow2(8) == 256 && Pow2(9) == 512 && Pow2(10) == 1024 && Pow2(11) == 2048 && Pow2(12) == 4096
    ensures Pow2(13) == 8192
  {
    assert Pow2(2) == 2 * Pow2(1);
    assert Pow2(4) == 2 * Pow2(3) && Pow2(6) == 2 * Pow2(5) && Pow2(8) == 2 * Pow2(7) && Pow2(10) == 2 * Pow2(9) && Pow2(12) == 2 * Pow2(11);
  }

  // The first value of a symbol, in closed form.
  function FirstValue(kind: Kind, i: nat): nat {
    if kind.Length? then (if i < 4 then 3 + i else 3 + (4 + i % 4) * Pow2(i / 4 - 1))
    else (if i < 2 then 1 + i else 1 + (2 + i % 2) * Pow2(i / 2 - 1))
  }

  lemma LengthExtra(i: nat)
    requires i < 28
    ensures LengthTable(true)[i] == ExtraLaw(Length, i)
  {
    var t := LengthTable(true);
    assert t[0] == 0 && t[1] == 0 && t[2] == 0 && t[3] == 0 && t[4] == 0;
  }

  lemma LengthBase(i: nat)
    requires i < 28
    ensures LengthTable(false)[i] == FirstValue(Length, i)
  {
    SmallPowers();
    hide Pow2;
    match i
    case 0 => case 1 => case 2 => case 3 => case 4 => case 5 => case 6 => case 7 => case 8 => case 9 =>
    case 10 => case 11 => case 12 => case 13 => case 14 => case 15 => case 16 => case 17 => case 18 => case 19 =>
    case 20 => case 21 => case 22 => case 23 => case 24 => case 25 => case 26 => case 27 =>
    case _ =>
  }

  lemma DistExtra(i: nat)
    requires i < 30
    ensures DistTable(true)[i] == ExtraLaw(Distance, i)
  {
    match i
    case 0 => case 1 => case 2 => case 3 => case 4 => case 5 => case 6 => case 7 => case 8 => case 9 =>
    case 10 => case 11 => case 12 => case 13 => case 14 => case 15 => case 16 => case 17 => case 18 => case 19 =>
    case 20 => case 21 => case 22 => case 23 => case 24 => case 25 => case 26 => case 27 => case 28 => case 29 =>
    case _ =>
  }

  lemma DistBase(i: nat)
    requires i < 30
    ensures DistTable(false)[i] == FirstValue(Distance, i)
  {
    SmallPowers();
    hide Pow2;
    match i
    case 0 => case 1 => case 2 => case 3 => case 4 => case 5 => case 6 => case 7 => case 8 => case 9 =>
    case 10 => case 11 => case 12 => case 13 => case 14 => case 15 => case 16 => case 17 => case 18 => case 19 =>
    case 20 => case 21 => case 22 => case 23 => case 24 => case 25 => case 26 => case 27 => case 28 => case 29 =>
    case _ =>
  }

  lemma FirstValueStep(kind: Kind, i: nat)
    ensures FirstValue(kind, i) + Pow2(ExtraLaw(kind, i)) == FirstValue(kind, i + 1)
  {
    var n := if kind.Length? then 4 else 2;
    if i >= n {
      Quotient(i, n);
      var p := Pow2(i / n - 1);
      assert Pow2(i / n) == 2 * p;
      hide Pow2;
      Spread(n + i % n, p);
      assert FirstValue(kind, i) == Least(kind) + (n + i % n) * p;
      if i % n == n - 1 {
        assert FirstValue(kind, i + 1) == Least(kind) + n * (2 * p);
      } else {
        assert FirstValue(kind, i + 1) == Least(kind) + (n + i % n + 1) * p;
      }
    }
  }

  lemma Spread(a: nat, p: nat)
    ensures (a + 1) * p == a * p + p
  {
  }

  lemma Quotient(i: nat, n: nat)
    requires n > 0
    ensures i % n < n - 1 ==> (i + 1) / n == i / n && (i + 1) % n == i % n + 1
    ensures i % n == n - 1 ==> (i + 1) / n == i / n + 1 && (i + 1) % n == 0
  {
    DivIs(i + 1, n, if i % n < n - 1 then i / n else i / n + 1);
  }

  lemma TableIs(kind: Kind, i: nat)
    requires i < Regular(kind)
    ensures Extra(kind)[i] == ExtraLaw(kind, i) && Base(kind)[i] == FirstValue(kind, i)
  {
    hide LengthTable, DistTable, ExtraLaw, FirstValue;
    if kind.Length? {
      LengthExtra(i);
      LengthBase(i);
    } else {
      DistExtra(i);
      DistBase(i);
    }
  }

  lemma Ends()
    ensures FirstValue(Length, 0) == 3 && FirstValue(Length, 28) == 259 && FirstValue(Distance, 0) == 1 && FirstValue(Distance, 30) == 32769
  {
    SmallPowers();
    assert Pow2(14) == 2 * Pow2(13);
    hide Pow2;
  }

  /** The values of a symbol begin where those of the symbol before it end. */
  lemma TableLaw(kind: Kind, i: nat)
    requires i < Regular(kind)
    ensures Extra(kind)[i] == ExtraLaw(kind, i) && Base(kind)[0] == Least(kind)
    ensures Base(kind)[i] + Pow2(Extra(kind)[i]) == if i + 1 == Regular(kind) then Greatest(kind) + 1 else Base(kind)[i + 1]
  {
    hide LengthTable, DistTable, ExtraLaw, FirstValue;
    TableIs(kind, i);
    TableIs(kind, 0);
    FirstValueStep(kind, i);
    if i + 1 < Regular(kind) {
      TableIs(kind, i + 1);
    }
    Ends();
  }

  // The value v is one of symbol i.
  predicate Within(kind: Kind, i: nat, v: nat)
    requires i < Size(kind)
  {
    Base(kind)[i] <= v < Base(kind)[i] + Pow2(Extra(kind)[i])
  }

  lemma {:induction false} Ordered(kind: Kind, i: nat, j: nat)
    requires i < j < Regular(kind)
    ensures Base(kind)[i] + Pow2(Extra(kind)[i]) <= Base(kind)[j]
    decreases j
  {
    hide Base, Extra, Pow2;
    TableLaw(kind, j - 1);
    if i < j - 1 {
      Ordered(kind, i, j - 1);
    }
  }

  lemma {:induction false} SymbolFor(kind: Kind, n: nat, v: nat) returns (i: nat)
    requires n < Regular(kind) && Least(kind) <= v < Base(kind)[n] + Pow2(Extra(kind)[n])
    ensures i <= n && Within(kind, i, v)
    decreases n
  {
    hide Base, Extra, Pow2;
    TableLaw(kind, 0);
    if v >= Base(kind)[n] {
      i := n;
    } else {
      TableLaw(kind, n - 1);
      i := SymbolFor(kind, n - 1, v);
    }
  }

  lemma ValOfLow(v: nat, n: nat)
    requires v < Pow2(n)
    ensures Val(Low(v, n)) == v
  {
    var w := Low(v, n);
    LowOfVal(w);
    if Val(w) < v {
      LowApart(Val(w), v, n);
    } else if v < Val(w) {
      LowApart(v, Val(w), n);
    }
  }

  // Symbol i and the extra bits x stand for v.
  ghost predicate StandsFor(kind: Kind, i: nat, x: seq<bool>, v: nat) {
    i < Regular(kind) && |x| == Extra(kind)[i] && v == Base(kind)[i] + Val(x)
  }

  /** Every length from 3 to 258 and every distance from 1 to 32768, and no other, is what one regular symbol and its extra
      bits stand for, and only one. */
  lemma OneMeaning(kind: Kind, v: nat) returns (i: nat, x: seq<bool>)
    requires Least(kind) <= v <= Greatest(kind)
    ensures StandsFor(kind, i, x, v)
    ensures forall j: nat, y :: StandsFor(kind, j, y, v) ==> j == i && y == x
  {
    hide Base, Extra, Pow2, Low, Val;
    TableLaw(kind, Regular(kind) - 1);
    i := SymbolFor(kind, Regular(kind) - 1, v);
    var n := Extra(kind)[i];
    x := Low(v - Base(kind)[i], n);
    ValOfLow(v - Base(kind)[i], n);
    forall j: nat, y | StandsFor(kind, j, y, v) ensures j == i && y == x {
      LowOfVal(y);
      if j < i {
        Ordered(kind, j, i);
      } else if i < j {
        Ordered(kind, i, j);
      }
      LowOfVal(x);
    }
  }

  lemma InRange(kind: Kind, i: nat, x: seq<bool>, v: nat)
    requires StandsFor(kind, i, x, v)
    ensures Least(kind) <= v <= Greatest(kind)
  {
    hide Base, Extra, Pow2, Val;
    LowOfVal(x);
    TableLaw(kind, i);
    TableLaw(kind, Regular(kind) - 1);
    if i > 0 {
      Ordered(kind, 0, i);
    }
    if i + 1 < Regular(kind) {
      Ordered(kind, i, Regular(kind) - 1);
    }
  }

  /** A lower symbol stands for lower values. */
  lemma LowerIsLess(kind: Kind, i: nat, x: seq<bool>, v: nat, j: nat, y: seq<bool>, u: nat)
    requires StandsFor(kind, i, x, v) && StandsFor(kind, j, y, u) && i < j
    ensures v < u
  {
    hide Base, Extra, Pow2, Val;
    LowOfVal(x);
    Ordered(kind, i, j);
  }

  /** Symbol 256 ends a block, lengths begin with 257, and the last of them, 285, stands for 258 and has no extra bits. */
  lemma LastLength()
    ensures END == 256 && FirstOf(Length) == 257 && FirstOf(Distance) == 0
    ensures FirstOf(Length) + 28 == 285 && Base(Length)[28] == 258 && Extra(Length)[28] == 0
  {
  }

  // ------------------------------------------------------------------
  // The header of a dynamic block
  // ------------------------------------------------------------------

  // Where the length of a symbol comes: 16, 17, 18 and 0 first, then from 8 outwards.
  function PlaceOf(sym: nat): nat
    requires sym < 19
  {
    if sym >= 16 then sym - 16 else if sym == 0 then 3 else if sym >= 8 then 4 + 2 * (sym - 8) else 5 + 2 * (7 - sym)
  }

  lemma OrderLaw(sym: nat)
    requires sym < 19
    ensures PlaceOf(sym) < 19 && H.Order()[PlaceOf(sym)] == sym
  {
    match sym
    case 0 => case 1 => case 2 => case 3 => case 4 => case 5 => case 6 => case 7 => case 8 => case 9 =>
    case 10 => case 11 => case 12 => case 13 => case 14 => case 15 => case 16 => case 17 => case 18 =>
    case _ =>
  }

  /** A symbol of the code for code lengths has the length that comes at its place, or none if it comes too late. */
  lemma LengthOfSymbol(s: seq<bool>, n: nat, sym: nat)
    requires sym < 19 && n <= 19 && |s| >= 14 + 3 * n
    ensures H.LengthsOf(s, n)[sym] == if PlaceOf(sym) < n then H.LengthAt(s, PlaceOf(sym)) else 0
  {
    hide H.Order, PlaceOf;
    OrderLaw(sym);
    H.LengthsAre(s, n, PlaceOf(sym));
  }

  /** HLIT, HDIST and HCLEN. */
  lemma SizesAre(s: seq<bool>)
    requires |s| >= 14
    ensures H.Size(s, 0) == 257 + Val(s[..5]) && H.Size(s, 1) == 1 + Val(s[5..10]) && H.Size(s, 2) == 4 + Val(s[10..14])
  {
  }

  // ------------------------------------------------------------------
  // Code lengths
  // ------------------------------------------------------------------

  /** Symbol 16 repeats a length 3 to 6 times, 17 a zero 3 to 10 times, 18 a zero 11 to 138 times. */
  lemma RunLaw(sym: nat, n: nat)
    requires 16 <= sym <= 18
    ensures (exists x :: |x| == L.ExtraBits(sym) && n == L.Least(sym) + Val(x)) <==>
      (if sym == 16 then 3 <= n <= 6 else if sym == 17 then 3 <= n <= 10 else 11 <= n <= 138)
  {
    SmallPowers();
    hide Pow2, Low, Val;
    if L.Least(sym) <= n < L.Least(sym) + Pow2(L.ExtraBits(sym)) {
      var x := Low(n - L.Least(sym), L.ExtraBits(sym));
      ValOfLow(n - L.Least(sym), L.ExtraBits(sym));
      assert |x| == L.ExtraBits(sym) && n == L.Least(sym) + Val(x);
    } else {
      forall x | |x| == L.ExtraBits(sym) && n == L.Least(sym) + Val(x) ensures false {
        LowOfVal(x);
      }
    }
  }
}
