/** The inflater's bit buffer (deps/miniz/tinfl.c): bits are taken from the low end of bit_buf, and
    bytes of the input, which comes in pieces, are put in at the high end. */
module BitReader {
  import opened Powers
  import opened BitStrings
  import opened CanonicalCode
  import opened HuffmanTable

  ghost predicate Bytes(s: seq<nat>) {
    forall i :: 0 <= i < |s| ==> s[i] < 256
  }

  // The stream holds no complete code yet.
  ghost predicate NoCode(lens: seq<nat>, s: seq<bool>) {
    forall y: nat :: !Begins(lens, y, s)
  }

  // Of the first n bits, those before the last byte hold no complete code.
  ghost predicate Needed(lens: seq<nat>, s: seq<bool>, n: nat) {
    8 <= n <= |s| && NoCode(lens, s[..n - 8])
  }

  class Reader {
    var bit_buf: nat
    var num_bits: nat
    var input: seq<nat>                 // what is left of the input buffer

    constructor ()
      ensures Valid() && Stream() == [] && input == []
    {
      bit_buf, num_bits, input := 0, 0, [];
    }

    // bit_buf fits its 64 bits, whatever is put in next.
    ghost predicate Valid()
      reads this
    {
      bit_buf < Pow2(num_bits) && num_bits <= 61 && Bytes(input)
    }

    // What is still to come: the bits in the buffer, then those of the input.
    ghost function Stream(): seq<bool>
      reads this
    {
      Low(bit_buf, num_bits) + BitsOf(input)
    }

    // The caller's next piece of input.
    method Feed(more: seq<nat>)
      requires Valid() && Bytes(more)
      modifies `input
      ensures Valid() && Stream() == old(Stream()) + BitsOf(more) && input == old(input) + more
    {
      BitsOfAppend(input, more);
      input := input + more;
    }

    // bit_buf |= byte << num_bits
    method TakeByte()
      requires Valid() && input != [] && num_bits <= 53
      modifies this
      ensures Valid() && Stream() == old(Stream()) && num_bits == old(num_bits) + 8 && input == old(input)[1..]
    {
      hide Low, BitsOf, Pow2;
      var c := input[0];
      ByteJoins(bit_buf, num_bits, input);
      bit_buf := bit_buf + c * Pow2(num_bits);
      num_bits := num_bits + 8;
      input := input[1..];
    }

    // bit_buf >>= n, num_bits -= n
    method Drop(n: nat)
      requires Valid() && n <= num_bits
      modifies `bit_buf, `num_bits
      ensures Valid() && Stream() == old(Stream())[n..] && num_bits == old(num_bits) - n
    {
      LowShift(bit_buf, num_bits, n);
      ShrBound(bit_buf, num_bits, num_bits - n);
      bit_buf := Shr(bit_buf, n);
      num_bits := num_bits - n;
    }

    /** TINFL_GET_BITS: n bits as a number, or a wait for more input that loses nothing. */
    method GetBits(n: nat) returns (ok: bool, b: nat)
      requires Valid() && n <= 32
      modifies this
      ensures Valid()
      ensures ok == (n <= |old(Stream())|)
      ensures ok ==> b == Val(old(Stream())[..n]) && Stream() == old(Stream())[n..]
      ensures !ok ==> Stream() == old(Stream()) && input == []
    {
      ok, b := true, 0;
      while num_bits < n
        invariant Valid() && Stream() == old(Stream())
        decreases n - num_bits
      {
        if input == [] {
          ok := false;
          return;
        }
        TakeByte();
      }
      assert Stream()[..n] == Low(bit_buf, num_bits)[..n];
      LowPrefix(bit_buf, num_bits, n);
      ValOfLow(bit_buf, n);
      b := bit_buf % Pow2(n);
      Drop(n);
    }

    /** TINFL_HUFF_BITBUF_FILL: byte by byte, until the buffer holds a whole code; the last byte was put in
        only because the code was not whole without it. */
    method Fill(lookup: seq<int>, tree: seq<int>, ghost lens: seq<nat>) returns (ok: bool)
      requires Valid() && Decodes(lens, lookup, tree) && num_bits < MAX_LENGTH
      modifies this
      ensures Valid() && Stream() == old(Stream())
      ensures ok ==> CodeReady(lens, bit_buf, num_bits)
      ensures !ok ==> input == [] && NoCode(lens, Stream())
      ensures input == old(input) || Needed(lens, Stream(), num_bits)
    {
      while num_bits < MAX_LENGTH
        invariant Valid() && Stream() == old(Stream())
        invariant input == old(input) || Needed(lens, Stream(), num_bits)
        decreases 30 - num_bits
      {
        var found, y := HasCode(lookup, tree, bit_buf, num_bits, lens);
        InTheBuffer(lens, bit_buf, num_bits, y);
        if found {
          return true;
        }
        if input == [] {
          assert Stream() == Low(bit_buf, num_bits);
          return false;
        }
        assert Stream()[..num_bits] == Low(bit_buf, num_bits);
        TakeByte();
      }
      ok := true;
    }

    /** TINFL_HUFF_DECODE: the next symbol, however the input was cut into pieces; a wait only when
        the stream so far holds no whole code. */
    method HuffDecode(lookup: seq<int>, tree: seq<int>, ghost lens: seq<nat>) returns (ok: bool, sym: nat)
      requires Valid() && Decodes(lens, lookup, tree)
      modifies this
      ensures Valid()
      ensures ok ==> Begins(lens, sym, old(Stream())) && Stream() == old(Stream())[lens[sym]..]
      ensures !ok ==> Stream() == old(Stream()) && input == [] && NoCode(lens, Stream())
    {
      ok, sym := true, 0;
      if num_bits < MAX_LENGTH {
        if |input| < 2 {
          ok := Fill(lookup, tree, lens);
          if !ok {
            return;
          }
        } else {
          TakeByte();
          TakeByte();
        }
      }
      sym := TakeSymbol(lookup, tree, lens);
    }

    // The symbol whose code is in the buffer.
    method TakeSymbol(lookup: seq<int>, tree: seq<int>, ghost lens: seq<nat>) returns (sym: nat)
      requires Valid() && Decodes(lens, lookup, tree) && CodeReady(lens, bit_buf, num_bits)
      modifies this
      ensures Valid() && input == old(input)
      ensures Begins(lens, sym, old(Stream())) && Stream() == old(Stream())[lens[sym]..]
      ensures num_bits == old(num_bits) - lens[sym] && lens[sym] <= MAX_LENGTH
    {
      var size;
      sym, size := Decode(lookup, tree, bit_buf, lens);
      InTheStream(lens, bit_buf, num_bits, sym, BitsOf(input));
      Drop(size);
    }

    // The refill of the two-literal path: four bytes at once.
    method TakeWord()
      requires Valid() && |input| >= 4 && num_bits < 30
      modifies this
      ensures Valid() && Stream() == old(Stream()) && num_bits == old(num_bits) + 32
    {
      TakeByte();
      TakeByte();
      TakeByte();
      TakeByte();
    }
  }

  // A byte goes from the input to the high end of the buffer.
  lemma ByteJoins(buf: nat, n: nat, input: seq<nat>)
    requires buf < Pow2(n) && Bytes(input) && input != []
    ensures buf + input[0] * Pow2(n) < Pow2(n + 8)
    ensures Low(buf + input[0] * Pow2(n), n + 8) + BitsOf(input[1..]) == Low(buf, n) + BitsOf(input)
  {
    hide Low, BitsOf, Pow2;
    var c, rest := input[0], input[1..];
    FirstByte(input);
    LowJoin(buf, n, c, 8);
    JoinBound(buf, n, c, 8);
    assert Low(buf, n) + (Low(c, 8) + BitsOf(rest)) == (Low(buf, n) + Low(c, 8)) + BitsOf(rest);
  }

  lemma FirstByte(input: seq<nat>)
    requires input != []
    ensures BitsOf(input) == Low(input[0], 8) + BitsOf(input[1..]) && Pow2(8) == 256
  {
    hide Low;
    assert Pow2(4) == 16;
  }

  lemma {:induction false} ValOfLow(v: nat, n: nat)
    ensures Val(Low(v, n)) == v % Pow2(n)
  {
    if n > 0 {
      ValOfLow(v / 2, n - 1);
      ModHalf(v, Pow2(n - 1));
      assert Low(v, n)[1..] == Low(v / 2, n - 1);
    }
  }

  // The buffer holds a whole code, or more than any code.
  ghost predicate CodeReady(lens: seq<nat>, buf: nat, n: nat) {
    n >= MAX_LENGTH || exists y: nat :: Begins(lens, y, Low(buf, n))
  }

  lemma InTheBuffer(lens: seq<nat>, buf: nat, n: nat, y: nat)
    requires Lengths(lens) && Complete(lens) && n < MAX_LENGTH && Begins(lens, y, Low(buf, MAX_LENGTH))
    ensures if lens[y] <= n then CodeReady(lens, buf, n) else NoCode(lens, Low(buf, n))
  {
    CodeInside(lens, buf, n, y);
  }

  lemma InTheStream(lens: seq<nat>, buf: nat, n: nat, y: nat, rest: seq<bool>)
    requires Lengths(lens) && Complete(lens) && CodeReady(lens, buf, n) && Begins(lens, y, Low(buf, MAX_LENGTH))
    ensures lens[y] <= n && Begins(lens, y, Low(buf, n) + rest)
  {
    if n < MAX_LENGTH {
      CodeInside(lens, buf, n, y);
    } else {
      LowPrefix(buf, n, MAX_LENGTH);
    }
    assert (Low(buf, n) + rest)[..lens[y]] == Low(buf, n)[..lens[y]];
    assert n >= MAX_LENGTH ==> Low(buf, n)[..lens[y]] == Low(buf, MAX_LENGTH)[..lens[y]];
  }
}
