/** The header of a dynamic block (section 3.2.7 of RFC 1951; deps/miniz/tinfl.c): the sizes of the three codes,
    and the lengths of the code for code lengths, which come in an order of their own. It can be interrupted
    wherever input runs out. */
module BlockHeader {
  import opened Powers
  import opened BitStrings
  import opened CanonicalCode
  import opened BitReader

  // s_length_dezigzag
  function Order(): (s: seq<nat>)
    ensures |s| == 19 && forall i :: 0 <= i < 19 ==> s[i] < 19
  {
    [16, 17, 18, 0, 8, 7, 9, 6, 10, 5, 11, 4, 12, 3, 13, 2, 14, 1, 15]
  }

  lemma OrderDiffers(i: nat, j: nat)
    requires i < j < 19
    ensures Order()[i] != Order()[j]
  {
  }

  // The numbers of bits of the three sizes, and their least values.
  function SizeBits(i: nat): nat {
    if i < 2 then 5 else 4
  }

  function LeastSize(i: nat): nat {
    if i == 0 then 257 else if i == 1 then 1 else 4
  }

  // The sizes that a stream begins with.
  function Size(s: seq<bool>, i: nat): nat
    requires i < 3 && |s| >= 14
  {
    LeastSize(i) + Val(s[5 * i..5 * i + SizeBits(i)])
  }

  // The k-th length that comes after them.
  function LengthAt(s: seq<bool>, k: nat): nat
    requires |s| >= 17 + 3 * k
  {
    Val(s[14 + 3 * k..17 + 3 * k])
  }

  // The lengths by symbol, when n of them have come.
  function LengthsOf(s: seq<bool>, n: nat): (lens: seq<nat>)
    requires n <= 19 && |s| >= 14 + 3 * n
    ensures |lens| == 19
  {
    if n == 0 then seq(19, _ => 0) else LengthsOf(s, n - 1)[Order()[n - 1] := LengthAt(s, n - 1)]
  }

  /** A symbol has the length that came at its place in the order, or none. */
  lemma {:induction false} LengthsAre(s: seq<bool>, n: nat, k: nat)
    requires k < 19 && n <= 19 && |s| >= 14 + 3 * n
    ensures LengthsOf(s, n)[Order()[k]] == if k < n then LengthAt(s, k) else 0
    decreases n
  {
    hide Order;
    if n > 0 {
      LengthsAre(s, n - 1, k);
      if k < n - 1 {
        OrderDiffers(k, n - 1);
      } else if k > n - 1 {
        OrderDiffers(n - 1, k);
      }
    }
  }

  lemma {:induction false} LengthsFit(s: seq<bool>, n: nat)
    requires n <= 19 && |s| >= 14 + 3 * n
    ensures Lengths(LengthsOf(s, n)) && forall i :: 0 <= i < 19 ==> LengthsOf(s, n)[i] < 8
  {
    hide Order;
    if n > 0 {
      LengthsFit(s, n - 1);
      LowOfVal(s[14 + 3 * (n - 1)..17 + 3 * (n - 1)]);
      assert Pow2(3) == 8;
    }
  }

  lemma SizeRange(s: seq<bool>, i: nat)
    requires i < 3 && |s| >= 14
    ensures LeastSize(i) <= Size(s, i) <= [288, 32, 19][i]
  {
    LowOfVal(s[5 * i..5 * i + SizeBits(i)]);
    assert Pow2(4) == 16;
  }

  // ------------------------------------------------------------------
  // The coroutine
  // ------------------------------------------------------------------

  // The bits of the sizes that have come.
  function Passed(sizes: nat, n: nat): nat {
    if sizes < 3 then 5 * sizes else 14 + 3 * n
  }

  class Header {
    const reader: Reader
    const sizes: array<nat>             // m_table_sizes
    const code_size: array<nat>         // m_tables[2].m_code_size
    var done: nat                       // how many sizes have been read
    var counter: nat                    // how many lengths have been read
    ghost var fed: seq<bool>            // all bits of the input so far

    constructor (reader: Reader)
      requires reader.Valid()
      ensures Valid() && fed == reader.Stream() && done == 0 && counter == 0 && this.reader == reader
      ensures fresh(sizes) && fresh(code_size)
    {
      this.reader := reader;
      sizes := new nat[3];
      code_size := new nat[19](_ => 0);
      done, counter := 0, 0;
      fed := reader.Stream();
    }

    ghost predicate Valid()
      reads this, reader, sizes, code_size
    {
      && reader.Valid() && sizes != code_size && sizes.Length == 3 && code_size.Length == 19 && done <= 3 && counter <= 19 && (done < 3 ==> counter == 0)
      && Passed(done, counter) <= |fed| && reader.Stream() == fed[Passed(done, counter)..]
      && (forall i :: 0 <= i < done ==> sizes[i] == SizeSoFar(fed, i))
      && (done == 3 ==> counter <= sizes[2] <= 19 && code_size[..] == LengthsOf(fed, counter))
      && (done < 3 ==> forall i :: 0 <= i < 19 ==> code_size[i] == 0)
    }

    method Feed(more: seq<nat>)
      requires Valid() && Bytes(more)
      modifies this, reader
      ensures Valid() && fed == old(fed) + BitsOf(more) && done == old(done) && counter == old(counter)
    {
      hide BitsOf, Low;
      ghost var s, p := fed + BitsOf(more), Passed(done, counter);
      assert s[p..] == fed[p..] + BitsOf(more);
      forall i | 0 <= i < done ensures SizeSoFar(s, i) == SizeSoFar(fed, i) {
        SizeStays(fed, BitsOf(more), i);
      }
      if done == 3 {
        LengthsStay(fed, BitsOf(more), counter);
      }
      reader.Feed(more);
      fed := s;
    }

    // One of the sizes.
    method StepSize() returns (ok: bool)
      requires Valid() && done < 3
      modifies `done, reader, sizes
      ensures Valid() && done == old(done) + (if ok then 1 else 0)
      ensures !ok ==> reader.input == [] && |reader.Stream()| < SizeBits(done)
    {
      hide BitsOf, Low, LengthsOf;
      var n;
      ghost var p := Passed(done, 0);
      ok, n := reader.GetBits(SizeBits(done));
      if ok {
        assert fed[p..][..SizeBits(done)] == fed[p..p + SizeBits(done)];
        sizes[done] := n + LeastSize(done);
        done := done + 1;
        if done == 3 {
          NoLengthsYet(fed, code_size[..]);
          SizeRange(fed, 2);
        }
      }
    }

    // One of the lengths.
    method StepLength() returns (ok: bool)
      requires Valid() && done == 3 && counter < sizes[2]
      modifies `counter, reader, code_size
      ensures Valid() && counter == old(counter) + (if ok then 1 else 0) && sizes[2] == old(sizes[2])
      ensures !ok ==> reader.input == [] && |reader.Stream()| < 3
    {
      hide BitsOf, Low, Order;
      var s;
      ghost var p := Passed(3, counter);
      ok, s := reader.GetBits(3);
      if ok {
        assert fed[p..][..3] == fed[p..p + 3];
        code_size[Order()[counter]] := s;
        counter := counter + 1;
      }
    }

    /** The coroutine: when it is done, the sizes and the lengths are those that the input begins with,
        however it was cut into pieces; it waits only when the next bits are not there. */
    method Run() returns (ok: bool)
      requires Valid()
      modifies this, reader, sizes, code_size
      ensures Valid() && fed == old(fed)
      ensures ok ==> |fed| >= 14 && |fed| >= 14 + 3 * Size(fed, 2) && Size(fed, 2) <= 19
      ensures ok ==> sizes[..] == [Size(fed, 0), Size(fed, 1), Size(fed, 2)] && code_size[..] == LengthsOf(fed, Size(fed, 2))
      ensures ok ==> reader.Stream() == fed[14 + 3 * Size(fed, 2)..]
      ensures !ok ==> reader.input == [] && |fed| < Passed(done, counter) + (if done < 3 then SizeBits(done) else 3)
      ensures !ok && done == 3 ==> counter < sizes[2]
    {
      hide BitsOf, Low, LengthsOf;
      ok := true;
      while done < 3
        invariant Valid() && fed == old(fed)
        decreases 3 - done
      {
        ok := StepSize();
        if !ok {
          return;
        }
      }
      while counter < sizes[2]
        invariant Valid() && fed == old(fed) && done == 3 && sizes[2] <= 19
        decreases sizes[2] - counter
      {
        ok := StepLength();
        if !ok {
          return;
        }
      }
      assert sizes[..] == [sizes[0], sizes[1], sizes[2]];
    }
  }

  // A size whose bits have come, though those of the others may not have.
  function SizeSoFar(s: seq<bool>, i: nat): nat
    requires i < 3
  {
    if |s| >= 5 * i + SizeBits(i) then LeastSize(i) + Val(s[5 * i..5 * i + SizeBits(i)]) else 0
  }

  lemma SizeStays(s: seq<bool>, more: seq<bool>, i: nat)
    requires i < 3 && |s| >= 5 * i + SizeBits(i)
    ensures SizeSoFar(s + more, i) == SizeSoFar(s, i)
  {
    assert (s + more)[5 * i..5 * i + SizeBits(i)] == s[5 * i..5 * i + SizeBits(i)];
  }

  lemma {:induction false} LengthsStay(s: seq<bool>, more: seq<bool>, n: nat)
    requires n <= 19 && |s| >= 14 + 3 * n
    ensures LengthsOf(s + more, n) == LengthsOf(s, n)
  {
    hide Order;
    if n > 0 {
      LengthsStay(s, more, n - 1);
      assert (s + more)[14 + 3 * (n - 1)..17 + 3 * (n - 1)] == s[14 + 3 * (n - 1)..17 + 3 * (n - 1)];
    }
  }

  lemma NoLengthsYet(s: seq<bool>, lens: seq<nat>)
    requires |s| >= 14 && |lens| == 19 && forall i :: 0 <= i < 19 ==> lens[i] == 0
    ensures lens == LengthsOf(s, 0)
  {
  }
}
