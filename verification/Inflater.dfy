/** The inflater's block decoder (deps/miniz/tinfl.c): a coroutine that turns the bits of a compressed
    block into output, and can be interrupted wherever input or room for output runs out. The output
    buffer does not wrap, and the input is marked as having more to come. */
module Inflater {
  import opened Powers
  import opened BitStrings
  import opened CanonicalCode
  import opened HuffmanTable
  import opened BitReader
  import opened MatchCopy
  import opened Tokens

  // Where the coroutine goes on when it is called again.
  datatype Phase = Symbol | PutLiteral | LengthBits | DistSymbol | DistBits | Copying | Finished | Stuck

  datatype Status = NeedsMoreInput | HasMoreOutput | Done | Failed

  // ------------------------------------------------------------------
  // What has been read, and what is at hand
  // ------------------------------------------------------------------

  // The input so far is the code of the tokens, then a part of the next one's, then what is to come.
  ghost predicate Reading(pre: seq<nat>, c: Codes, fed: seq<bool>, read: seq<bool>, part: seq<bool>, toks: seq<Token>, stream: seq<bool>) {
    CodesOk(c) && fed == read + part + stream && AllCoded(c, toks, read) && InReach(pre, toks)
  }

  // The symbol of a length or distance has been read, but not its extra bits.
  ghost predicate SymbolRead(c: Codes, kind: Kind, v: nat, extra: nat, w: seq<bool>) {
    exists i: nat :: SymbolIs(c, kind, i, v, extra, w)
  }

  ghost predicate SymbolIs(c: Codes, kind: Kind, i: nat, v: nat, extra: nat, w: seq<bool>) {
    && i < Size(kind) && Used(Of(c, kind), FirstOf(kind) + i) && w == CodeWord(Of(c, kind), FirstOf(kind) + i)
    && v == Base(kind)[i] && extra == Extra(kind)[i]
  }

  // What is known of the token at hand.
  datatype Hand = Hand(phase: Phase, counter: nat, dist: nat, extra: nat, len: nat, lenbits: seq<bool>)

  ghost predicate HandOk(pre: seq<nat>, c: Codes, h: Hand, toks: seq<Token>, part: seq<bool>, out: seq<nat>) {
    if h.phase != Finished && !Open(toks) then false else
    match h.phase
    case Symbol => part == [] && out == Output(pre, toks)
    case PutLiteral => Coded(c, Literal(h.counter), part) && out == Output(pre, toks)
    case LengthBits => SymbolRead(c, Length, h.counter, h.extra, part) && out == Output(pre, toks)
    case DistSymbol => PartCoded(c, Length, h.counter, part) && out == Output(pre, toks)
    case DistBits =>
      && PartCoded(c, Length, h.counter, h.lenbits) && h.lenbits <= part
      && SymbolRead(c, Distance, h.dist, h.extra, part[|h.lenbits|..]) && out == Output(pre, toks)
    case Copying =>
      && Coded(c, Match(h.len, h.dist), part) && 1 <= h.dist <= |Output(pre, toks)| && 1 <= h.counter <= h.len
      && out == Repeat(Output(pre, toks), h.dist, h.len - h.counter)
    case Finished => part == [] && toks != [] && toks[|toks| - 1] == EndOfBlock && out == Output(pre, toks)
    case Stuck => Dead(pre, c, toks, part) && out == Output(pre, toks)
  }

  lemma ReadOn(pre: seq<nat>, c: Codes, fed: seq<bool>, read: seq<bool>, part: seq<bool>, toks: seq<Token>, stream: seq<bool>, k: nat)
    requires Reading(pre, c, fed, read, part, toks, stream) && k <= |stream|
    ensures Reading(pre, c, fed, read, part + stream[..k], toks, stream[k..])
  {
    hide AllCoded, InReach, CodesOk;
    assert stream == stream[..k] + stream[k..];
    assert read + part + stream == read + (part + stream[..k]) + stream[k..];
  }

  // The token at hand is complete.
  lemma TokenComplete(pre: seq<nat>, c: Codes, fed: seq<bool>, read: seq<bool>, part: seq<bool>, toks: seq<Token>, stream: seq<bool>, tok: Token)
    requires Reading(pre, c, fed, read, part, toks, stream) && Coded(c, tok, part) && Open(toks)
    requires tok.Match? ==> 1 <= tok.dist <= |Output(pre, toks)|
    ensures Reading(pre, c, fed, read + part, [], toks + [tok], stream)
  {
    OneMore(c, toks, read, tok, part);
    OutputGrows(pre, toks, tok);
    assert read + part + [] + stream == read + part + stream;
  }

  // The extra bits complete a length or distance.
  lemma ExtraBits(c: Codes, kind: Kind, v: nat, extra: nat, w: seq<bool>, x: seq<bool>)
    requires SymbolRead(c, kind, v, extra, w) && |x| == extra
    ensures PartCoded(c, kind, v + Val(x), w + x)
  {
    hide Base, Extra;
    var i: nat :| SymbolIs(c, kind, i, v, extra, w);
    assert Part(c, kind, i, x, v + Val(x), w + x);
  }

  lemma NoExtraBits(c: Codes, kind: Kind, v: nat, w: seq<bool>)
    requires SymbolRead(c, kind, v, 0, w)
    ensures PartCoded(c, kind, v, w)
  {
    hide PartCoded, SymbolRead;
    ExtraBits(c, kind, v, 0, w, []);
    assert w + [] == w;
  }

  lemma ExtraBound(c: Codes, kind: Kind, v: nat, extra: nat, w: seq<bool>)
    requires SymbolRead(c, kind, v, extra, w)
    ensures extra <= 13
  {
    hide Base, Extra;
  }

  lemma MatchComplete(c: Codes, len: nat, dist: nat, u: seq<bool>, v: seq<bool>)
    requires PartCoded(c, Length, len, u) && PartCoded(c, Distance, dist, v)
    ensures Coded(c, Match(len, dist), u + v)
  {
    assert MatchCoded(c, len, dist, u, v);
  }

  lemma BaseRange(i: nat)
    requires i < Size(Length)
    ensures 3 <= Base(Length)[i] && Base(Length)[i] + Pow2(Extra(Length)[i]) <= 259
  {
    hide Pow2;
    var b, e := Base(Length)[i], Extra(Length)[i];
    SmallPowers();
    if i < 8 {
      assert e == 0 && 3 <= b <= 10;
    } else if i < 12 {
      assert e == 1 && 3 <= b <= 17;
    } else if i < 16 {
      assert e == 2 && 3 <= b <= 31;
    } else if i < 20 {
      assert e == 3 && 3 <= b <= 59;
    } else if i < 24 {
      assert e == 4 && 3 <= b <= 115;
    } else if i < 28 {
      assert e == 5 && 3 <= b <= 227;
    }
  }

  lemma SmallPowers()
    ensures Pow2(0) == 1 && Pow2(1) == 2 && Pow2(2) == 4 && Pow2(3) == 8 && Pow2(4) == 16 && Pow2(5) == 32
  {
  }

  /** Match lengths are from 3 to 258. */
  lemma LengthRange(c: Codes, len: nat, w: seq<bool>)
    requires PartCoded(c, Length, len, w)
    ensures 3 <= len <= 258
  {
    var i: nat, x :| Part(c, Length, i, x, len, w);
    hide Base, Extra, Pow2;
    BaseRange(i);
    LowOfVal(x);
  }

  lemma DistRange(c: Codes, dist: nat, w: seq<bool>)
    requires PartCoded(c, Distance, dist, w)
    ensures dist >= 1
  {
    hide Base, Extra;
    var i: nat, x :| Part(c, Distance, i, x, dist, w);
  }

  // ------------------------------------------------------------------
  // The coroutine
  // ------------------------------------------------------------------

  class Block {
    const reader: Reader
    // The tables of the block, for literals and lengths and for distances.
    const look0: seq<int>
    const tree0: seq<int>
    const look1: seq<int>
    const tree1: seq<int>
    var buf: array<nat>
    var cur: nat                        // pOut_buf_cur
    var pos: nat                        // dist_from_out_buf_start
    var counter: nat
    var dist: nat
    var num_extra: nat
    var phase: Phase
    ghost const codes: Codes
    ghost const pre: seq<nat>           // the output of the blocks before
    ghost var fed: seq<bool>            // all bits of the input so far
    ghost var read: seq<bool>           // those of the tokens that are complete
    ghost var part: seq<bool>           // those of the token at hand
    ghost var toks: seq<Token>
    ghost var len: nat
    ghost var lenbits: seq<bool>

    constructor (reader: Reader, look0: seq<int>, tree0: seq<int>, look1: seq<int>, tree1: seq<int>, buf: array<nat>, start: nat, ghost codes: Codes)
      requires reader.Valid() && CodesOk(codes) && start <= buf.Length
      requires Decodes(codes.lits, look0, tree0) && Decodes(codes.dists, look1, tree1)
      ensures Valid() && fed == reader.Stream() && pre == buf[..start] && Out() == pre && toks == [] && phase == Symbol
      ensures this.reader == reader && this.buf == buf && this.codes == codes
    {
      this.reader, this.look0, this.tree0, this.look1, this.tree1, this.buf := reader, look0, tree0, look1, tree1, buf;
      this.codes, this.pre := codes, buf[..start];
      cur, pos, counter, dist, num_extra, phase := start, 0, 0, 0, 0, Symbol;
      fed, read, part, toks, len, lenbits := reader.Stream(), [], [], [], 0, [];
    }

    ghost function AtHand(): Hand
      reads this
    {
      Hand(phase, counter, dist, num_extra, len, lenbits)
    }

    // The output so far.
    ghost function Out(): seq<nat>
      reads this, buf
      requires cur <= buf.Length
    {
      buf[..cur]
    }

    ghost predicate Tables()
    {
      Decodes(codes.lits, look0, tree0) && Decodes(codes.dists, look1, tree1)
    }

    ghost predicate Valid()
      reads this, reader, buf
    {
      && reader.Valid() && Tables() && cur <= buf.Length
      && Reading(pre, codes, fed, read, part, toks, reader.Stream())
      && HandOk(pre, codes, AtHand(), toks, part, Out())
      && (phase == Copying ==> pos == cur)
    }

    // More input.
    method Feed(more: seq<nat>)
      requires Valid() && Bytes(more)
      modifies this, reader
      ensures Valid() && fed == old(fed) + BitsOf(more) && buf == old(buf) && Out() == old(Out()) && toks == old(toks) && phase == old(phase)
    {
      hide Low, BitsOf, Val, HandOk, AllCoded;
      assert fed + BitsOf(more) == read + part + (reader.Stream() + BitsOf(more));
      reader.Feed(more);
      fed := fed + BitsOf(more);
    }

    // A larger buffer that begins with the output so far.
    method Grow(larger: array<nat>)
      requires Valid() && larger.Length >= buf.Length && larger[..cur] == Out()
      modifies this
      ensures Valid() && buf == larger && Out() == old(Out()) && toks == old(toks) && fed == old(fed) && phase == old(phase)
    {
      hide Low, BitsOf, Val, HandOk, Reading;
      buf := larger;
    }

    // ----------------------------------------------------------------
    // The steps
    // ----------------------------------------------------------------

    // Between two phases: bits of the token at hand have been read, and nothing was put out.
    ghost predicate Between()
      reads this, reader, buf
    {
      && reader.Valid() && Tables() && cur <= buf.Length
      && Reading(pre, codes, fed, read, part, toks, reader.Stream()) && Out() == Output(pre, toks) && Open(toks)
    }

    // A literal or length symbol has been read.
    ghost predicate Got(sym: nat)
      reads this, reader, buf
    {
      Between() && Used(codes.lits, sym) && part == CodeWord(codes.lits, sym)
    }

    // The token at hand is complete, and has been put out.
    ghost method Next(tok: Token)
      requires reader.Valid() && Tables() && cur <= buf.Length && Reading(pre, codes, fed, read, part, toks, reader.Stream())
      requires Coded(codes, tok, part) && (tok.Match? ==> 1 <= tok.dist <= |Output(pre, toks)|) && Open(toks)
      requires Out() == Output(pre, toks + [tok])
      modifies `read, `part, `toks
      ensures reader.Valid() && Tables() && Reading(pre, codes, fed, read, part, toks, reader.Stream()) && Out() == Output(pre, toks)
      ensures part == [] && toks == old(toks) + [tok]
    {
      hide Low, BitsOf, Val, Coded, AllCoded, InReach, Output, Decodes;
      TokenComplete(pre, codes, fed, read, part, toks, reader.Stream(), tok);
      read := read + part;
      part := [];
      toks := toks + [tok];
    }

    // What a symbol of 256 or more leads to.
    method GotLarge(sym: nat)
      requires Got(sym) && sym >= END
      modifies this
      ensures Valid() && fed == old(fed) && buf == old(buf) && old(toks) <= toks && phase != PutLiteral && phase != Copying
      ensures cur == old(cur)
    {
      hide Low, BitsOf, Val, Reading, Decodes, Base, Extra, HandOk, Output, Coded;
      InReachOf(pre, codes, fed, read, part, toks, reader.Stream());
      if sym == END {
        EndCoded(codes);
        OutputGrows(pre, toks, EndOfBlock);
        Next(EndOfBlock);
        phase := Finished;
        HandFinished(pre, codes, AtHand(), toks, Out());
      } else if sym - 257 < Size(Length) {
        num_extra := Extra(Length)[sym - 257];
        counter := Base(Length)[sym - 257];
        phase := if num_extra > 0 then LengthBits else DistSymbol;
        HandLength(pre, codes, AtHand(), toks, part, Out(), sym);
      } else {
        phase := Stuck;
        HandDead(pre, codes, AtHand(), toks, part, Out(), sym);
      }
    }

    // The code of a symbol moves from the stream to the token at hand.
    ghost method ReadSymbol(sym: nat, stream: seq<bool>)
      requires reader.Valid() && Tables() && cur <= buf.Length && Out() == Output(pre, toks) && part == [] && Open(toks)
      requires Reading(pre, codes, fed, read, part, toks, stream) && Begins(codes.lits, sym, stream)
      requires reader.Stream() == stream[codes.lits[sym]..]
      modifies `part
      ensures Got(sym)
    {
      hide Low, BitsOf, Val, AllCoded, InReach, Decodes, Output;
      ReadOn(pre, codes, fed, read, part, toks, stream, codes.lits[sym]);
      part := part + stream[..codes.lits[sym]];
    }

    // One symbol, the slow way.
    method StepSymbol() returns (ok: bool)
      requires Valid() && phase == Symbol
      modifies this, reader
      ensures Valid() && fed == old(fed) && buf == old(buf) && old(toks) <= toks && cur == old(cur)
      ensures ok ==> |reader.Stream()| < old(|reader.Stream()|)
      ensures !ok ==> phase == Symbol && toks == old(toks) && reader.input == [] && Waits(codes, part + reader.Stream())
    {
      hide Low, BitsOf, Val, AllCoded, InReach, Output, Decodes, Coded;
      ghost var stream := reader.Stream();
      var sym;
      ok, sym := reader.HuffDecode(look0, tree0, codes.lits);
      if ok {
        ReadSymbol(sym, stream);
        if sym >= END {
          GotLarge(sym);
        } else {
          assert Coded(codes, Literal(sym), part) by {
            LiteralCoded(codes, sym);
          }
          counter := sym;
          phase := PutLiteral;
        }
      } else {
        WaitSymbol(codes, reader.Stream());
        assert part + reader.Stream() == reader.Stream();
      }
    }

    // The literal at hand goes out.
    method WriteLiteral(b: nat)
      requires Got(b) && b < END && cur < buf.Length
      modifies this, buf
      ensures Between() && part == [] && toks == old(toks) + [Literal(b)] && fed == old(fed) && buf == old(buf)
      ensures cur == old(cur) + 1
    {
      hide Low, BitsOf, Val, AllCoded, InReach, Decodes;
      LiteralCoded(codes, b);
      OutputGrows(pre, toks, Literal(b));
      buf[cur] := b;
      cur := cur + 1;
      assert buf[..cur] == old(Out()) + [b];
      Next(Literal(b));
    }

    method StepLiteral() returns (ok: bool)
      requires Valid() && phase == PutLiteral
      modifies this, buf
      ensures Valid() && fed == old(fed) && buf == old(buf) && old(toks) <= toks && reader.Stream() == old(reader.Stream())
      ensures if ok then phase == Symbol else phase == PutLiteral && toks == old(toks) && cur == buf.Length
    {
      hide Low, BitsOf, Val, AllCoded, InReach, Decodes, Output;
      ok := cur < buf.Length;
      if ok {
        WriteLiteral(counter);
        phase := Symbol;
      }
    }

    // One symbol of the two-literal path, with 15 bits or more in the buffer.
    method StepFast() returns (literal: bool)
      requires Valid() && phase == Symbol && reader.num_bits >= MAX_LENGTH && cur < buf.Length
      modifies this, reader, buf
      ensures Valid() && fed == old(fed) && buf == old(buf) && old(toks) <= toks
      ensures |reader.Stream()| < old(|reader.Stream()|) && phase != PutLiteral && phase != Copying
      ensures literal ==> phase == Symbol && reader.num_bits + MAX_LENGTH >= old(reader.num_bits) && cur == old(cur) + 1
    {
      hide Low, BitsOf, Val, AllCoded, InReach, Decodes, Output, Coded;
      ghost var stream := reader.Stream();
      var sym := reader.TakeSymbol(look0, tree0, codes.lits);
      ReadSymbol(sym, stream);
      literal := sym < END;
      if literal {
        WriteLiteral(sym);
        phase := Symbol;
      } else {
        GotLarge(sym);
      }
    }

    /** Two symbols at once, with enough input and room for both. */
    method StepPair()
      requires Valid() && phase == Symbol && |reader.input| >= 4 && cur + 2 <= buf.Length
      modifies this, reader, buf
      ensures Valid() && fed == old(fed) && buf == old(buf) && old(toks) <= toks
      ensures |reader.Stream()| < old(|reader.Stream()|) && phase != PutLiteral && phase != Copying
    {
      hide Low, BitsOf, Val, Reading, HandOk, Decodes;
      if reader.num_bits < 30 {
        reader.TakeWord();
      }
      var literal := StepFast();
      if literal {
        literal := StepFast();
      }
    }

    // ok is whether there was enough input.
    method StepLengthBits() returns (ok: bool)
      requires Valid() && phase == LengthBits
      modifies this, reader
      ensures Valid() && fed == old(fed) && buf == old(buf) && toks == old(toks) && cur == old(cur)
      ensures if ok then phase == DistSymbol else phase == LengthBits && reader.input == [] && Waits(codes, part + reader.Stream())
      ensures |reader.Stream()| <= old(|reader.Stream()|)
    {
      hide Low, BitsOf, Val, Reading, HandOk, Decodes;
      ghost var stream, h := reader.Stream(), AtHand();
      HandExtra(pre, codes, h, toks, part, Out());
      var extra;
      ok, extra := reader.GetBits(num_extra);
      if ok {
        ghost var x := stream[..num_extra];
        LengthRead(pre, codes, h, toks, part, Out(), x);
        ReadOn(pre, codes, fed, read, part, toks, stream, num_extra);
        part := part + x;
        counter := counter + extra;
        phase := DistSymbol;
        assert AtHand() == h.(phase := DistSymbol, counter := h.counter + Val(x));
      } else {
        InReachOf(pre, codes, fed, read, part, toks, stream);
        HandWaits(pre, codes, h, toks, part, Out(), stream);
      }
    }

    // The match at hand is copied, as far as there is room.
    method StartCopy()
      requires Between() && Coded(codes, Match(counter, dist), part) && 3 <= counter <= 258 && dist >= 1
      modifies this, buf
      ensures Valid() && fed == old(fed) && buf == old(buf) && old(toks) <= toks && phase in {Symbol, Copying, Stuck}
      ensures phase == Copying ==> cur == buf.Length
    {
      hide Low, BitsOf, Val, Reading, Decodes, Coded, Output, PartCoded, SymbolRead, Masked, Dead;
      pos := cur;
      if dist > pos {
        InReachOf(pre, codes, fed, read, part, toks, reader.Stream());
        DeadMatch(pre, codes, counter, dist, part, toks);
        phase := Stuck;
      } else {
        ghost var out := Out();
        len := counter;
        LinearWindow(buf[..], out);
        cur, pos, counter := CopyMatch(buf, cur, dist, counter, out);
        AfterCopy(out, out, 0);
      }
    }

    // The copy that was interrupted goes on.
    method StepCopy()
      requires Valid() && phase == Copying
      modifies this, buf
      ensures Valid() && fed == old(fed) && buf == old(buf) && old(toks) <= toks && phase in {Symbol, Copying}
      ensures phase == Copying ==> cur == buf.Length && toks == old(toks)
      ensures reader.Stream() == old(reader.Stream())
    {
      hide Low, BitsOf, Val, Reading, Decodes, Coded, Output, Masked, HandOk, Window;
      CopyingHand(pre, codes, AtHand(), toks, part, Out());
      ghost var out, done := Out(), len - counter;
      LinearWindow(buf[..], out);
      RestartCopy(buf[..], out, dist, cur);
      cur, pos, counter := CopyMasked(buf, cur, pos, dist, counter, out);
      AfterCopy(Output(pre, toks), out, done);
    }

    // After some of the match was copied: the token is complete, or the buffer is full.
    method AfterCopy(ghost base: seq<nat>, ghost out: seq<nat>, ghost done: nat)
      requires reader.Valid() && Tables() && cur <= buf.Length && Reading(pre, codes, fed, read, part, toks, reader.Stream())
      requires base == Output(pre, toks) && Open(toks) && Coded(codes, Match(len, dist), part) && 1 <= dist <= |base| && done + counter <= len
      requires out == Repeat(base, dist, done) && pos == cur && (counter == 0 || cur == buf.Length)
      requires Masked(buf[..], out, dist, len - done - counter, cur, pos) && cur == |out| + (len - done - counter)
      modifies this
      ensures Valid() && fed == old(fed) && buf == old(buf) && old(toks) <= toks && phase in {Symbol, Copying}
      ensures phase == Copying ==> cur == buf.Length && toks == old(toks)
    {
      hide Low, BitsOf, Val, Reading, HandOk, Decodes, Coded, Masked, Output, InReach, Repeat;
      CopySoFar(codes, base, dist, done, len - done - counter, buf[..], out, cur, pos);
      if counter == 0 {
        EndCopy();
      } else {
        phase := Copying;
        HandCopying(pre, codes, AtHand(), toks, part, Out());
      }
    }

    method EndCopy()
      requires reader.Valid() && Tables() && cur <= buf.Length && Reading(pre, codes, fed, read, part, toks, reader.Stream())
      requires Open(toks) && Coded(codes, Match(len, dist), part) && 1 <= dist <= |Output(pre, toks)|
      requires Out() == Repeat(Output(pre, toks), dist, len)
      modifies this
      ensures Valid() && fed == old(fed) && buf == old(buf) && old(toks) <= toks && phase == Symbol
    {
      hide Low, BitsOf, Val, Reading, HandOk, Decodes, Coded, Output, InReach, Repeat;
      InReachOf(pre, codes, fed, read, part, toks, reader.Stream());
      OutputGrows(pre, toks, Match(len, dist));
      Next(Match(len, dist));
      phase := Symbol;
      HandSymbol(pre, codes, AtHand(), toks, Out());
    }

    // The distance symbol at hand, in the phase between it and its extra bits.
    method GotDistance(sym: nat, ghost h: Hand, ghost lenpart: seq<bool>)
      requires Between() && HandOk(pre, codes, h, toks, lenpart, Out()) && h.phase == DistSymbol && AtHand() == h
      requires Used(codes.dists, sym) && part == lenpart + CodeWord(codes.dists, sym)
      modifies this
      ensures Valid() && fed == old(fed) && buf == old(buf) && toks == old(toks) && cur == old(cur)
      ensures phase in {DistBits, Stuck}
    {
      hide Low, BitsOf, Val, Reading, HandOk, Decodes, Base, Extra;
      InReachOf(pre, codes, fed, read, part, toks, reader.Stream());
      if sym < Size(Distance) {
        DistRead(pre, codes, h, toks, lenpart, Out(), sym);
        num_extra := Extra(Distance)[sym];
        dist := Base(Distance)[sym];
        lenbits := lenpart;
        phase := DistBits;
        assert AtHand() == h.(phase := DistBits, dist := dist, extra := num_extra, lenbits := lenpart);
      } else {
        HandStuck(pre, codes, h, toks, lenpart, sym, Out());
        phase := Stuck;
        assert AtHand() == h.(phase := Stuck);
      }
    }

    method StepDistSymbol() returns (ok: bool)
      requires Valid() && phase == DistSymbol
      modifies this, reader
      ensures Valid() && fed == old(fed) && buf == old(buf) && toks == old(toks) && cur == old(cur)
      ensures if ok then phase in {DistBits, Stuck} else phase == DistSymbol && reader.input == [] && Waits(codes, part + reader.Stream())
      ensures |reader.Stream()| <= old(|reader.Stream()|)
    {
      hide Low, BitsOf, Val, Reading, HandOk, Decodes;
      ghost var stream, h, before := reader.Stream(), AtHand(), part;
      var sym;
      ok, sym := reader.HuffDecode(look1, tree1, codes.dists);
      if ok {
        ReadOn(pre, codes, fed, read, part, toks, stream, codes.dists[sym]);
        HandOut(pre, codes, h, toks, part, Out());
        part := part + stream[..codes.dists[sym]];
        GotDistance(sym, h, before);
      } else {
        InReachOf(pre, codes, fed, read, part, toks, stream);
        HandWaits(pre, codes, h, toks, part, Out(), stream);
      }
    }

    // The extra bits of the distance (there may be none), and then the copy.
    method StepDistBits() returns (ok: bool)
      requires Valid() && phase == DistBits
      modifies this, reader, buf
      ensures Valid() && fed == old(fed) && buf == old(buf) && old(toks) <= toks
      ensures if ok then phase in {Symbol, Copying, Stuck} else phase == DistBits && reader.input == [] && Waits(codes, part + reader.Stream())
      ensures ok && phase == Copying ==> cur == buf.Length
      ensures |reader.Stream()| <= old(|reader.Stream()|)
    {
      hide Low, BitsOf, Reading, HandOk, Decodes, Coded;
      ghost var stream, h := reader.Stream(), AtHand();
      HandExtra(pre, codes, h, toks, part, Out());
      var extra;
      ok, extra := true, 0;
      if num_extra > 0 {
        ok, extra := reader.GetBits(num_extra);
      }
      if ok {
        ghost var x := stream[..num_extra];
        DistComplete(pre, codes, h, toks, part, Out(), x);
        ReadOn(pre, codes, fed, read, part, toks, stream, num_extra);
        part := part + x;
        dist := dist + extra;
        StartCopy();
      } else {
        InReachOf(pre, codes, fed, read, part, toks, stream);
        HandWaits(pre, codes, h, toks, part, Out(), stream);
      }
    }

    /** The coroutine, until it is done or has to wait. */
    method Run() returns (status: Status)
      requires Valid()
      modifies this, reader, buf
      ensures Valid() && fed == old(fed) && buf == old(buf) && old(toks) <= toks
      ensures status == Done <==> phase == Finished
      ensures status == Failed <==> phase == Stuck
      ensures status == NeedsMoreInput ==> reader.input == [] && Waits(codes, part + reader.Stream()) && phase != Finished
      ensures status == HasMoreOutput ==> cur == buf.Length && phase in {PutLiteral, Copying}
    {
      hide Low, BitsOf, Val, Reading, HandOk, Decodes;
      ghost var bits, rank := |reader.Stream()|, Rank(phase);
      while true
        invariant Valid() && fed == old(fed) && buf == old(buf) && old(toks) <= toks
        invariant bits == |reader.Stream()| && rank == Rank(phase)
        decreases bits, rank
      {
        var ok := true;
        match phase {
          case Symbol =>
            if |reader.input| < 4 || buf.Length - cur < 2 {
              ok := StepSymbol();
            } else {
              StepPair();
            }
          case PutLiteral =>
            ok := StepLiteral();
            if !ok {
              return HasMoreOutput;
            }
          case LengthBits => ok := StepLengthBits();
          case DistSymbol => ok := StepDistSymbol();
          case DistBits => ok := StepDistBits();
          case Copying =>
            StepCopy();
            if phase == Copying {
              return HasMoreOutput;
            }
          case Finished => return Done;
          case Stuck => return Failed;
        }
        if !ok {
          return NeedsMoreInput;
        }
        bits, rank := |reader.Stream()|, Rank(phase);
      }
    }
  }

  function Rank(phase: Phase): nat {
    match phase
    case LengthBits => 5
    case DistSymbol => 4
    case DistBits => 3
    case Copying => 2
    case PutLiteral => 2
    case Symbol => 1
    case _ => 0
  }

  /** Two inflaters that have each come to the end of a block of the same stream, cut into pieces in
      whatever way and with whatever room for output, have read the same tokens and put out the same
      bytes. */
  lemma SplitsDoNotMatter(a: Block, b: Block, s: seq<bool>)
    requires a.Valid() && b.Valid() && a.codes == b.codes && a.pre == b.pre && a.fed <= s && b.fed <= s
    requires a.phase == Finished && b.phase == Finished
    ensures a.toks == b.toks && a.read == b.read && a.Out() == b.Out()
  {
    assert a.read <= s && b.read <= s;
    hide CodesOk, AllCoded, Output, Decodes;
    if |a.toks| <= |b.toks| {
      OneReading(a.codes, a.toks, b.toks, a.read, b.read, s);
      EndIsLast(a.pre, a.toks, b.toks);
    } else {
      OneReading(a.codes, b.toks, a.toks, b.read, a.read, s);
      EndIsLast(a.pre, b.toks, a.toks);
    }
    SameTokens(a.codes, a.toks, b.toks, a.read, b.read, s);
  }

  lemma EndIsLast(pre: seq<nat>, a: seq<Token>, b: seq<Token>)
    requires a <= b && InReach(pre, b) && a != [] && a[|a| - 1] == EndOfBlock
    ensures a == b
  {
    OpenBefore(pre, b, |a|);
  }

  // What is missing is not there.
  lemma HandWaits(pre: seq<nat>, c: Codes, h: Hand, toks: seq<Token>, part: seq<bool>, out: seq<nat>, stream: seq<bool>)
    requires CodesOk(c) && HandOk(pre, c, h, toks, part, out) && (h.phase == LengthBits || h.phase == DistSymbol || h.phase == DistBits)
    requires if h.phase == DistSymbol then NoCode(c.dists, stream) else |stream| < h.extra
    ensures Waits(c, part + stream)
  {
    hide PartCoded, SymbolRead, Waits, NoCode, Output, CodesOk;
    if h.phase == LengthBits {
      WaitLengthBits(c, h.counter, h.extra, part, stream);
    } else if h.phase == DistSymbol {
      WaitDistSymbol(c, h.counter, part, stream);
    } else {
      WaitDistBits(c, h.counter, h.lenbits, h.dist, h.extra, part, stream);
    }
  }

  lemma HandOut(pre: seq<nat>, c: Codes, h: Hand, toks: seq<Token>, part: seq<bool>, out: seq<nat>)
    requires HandOk(pre, c, h, toks, part, out) && h.phase == DistSymbol
    ensures out == Output(pre, toks) && Open(toks)
  {
  }

  lemma HandStuck(pre: seq<nat>, c: Codes, h: Hand, toks: seq<Token>, part: seq<bool>, sym: nat, out: seq<nat>)
    requires CodesOk(c) && HandOk(pre, c, h, toks, part, out) && h.phase == DistSymbol && Used(c.dists, sym) && sym >= Size(Distance)
    ensures HandOk(pre, c, h.(phase := Stuck), toks, part + CodeWord(c.dists, sym), out)
  {
    hide PartCoded, Output, Dead;
    DeadDistance(pre, c, h.counter, part, sym, toks);
  }

  lemma DistRead(pre: seq<nat>, c: Codes, h: Hand, toks: seq<Token>, part: seq<bool>, out: seq<nat>, sym: nat)
    requires HandOk(pre, c, h, toks, part, out) && h.phase == DistSymbol && sym < Size(Distance) && Used(c.dists, sym)
    ensures HandOk(pre, c, h.(phase := DistBits, dist := Base(Distance)[sym], extra := Extra(Distance)[sym], lenbits := part),
                   toks, part + CodeWord(c.dists, sym), out)
  {
    hide PartCoded, Output, Coded, Base, Extra;
    var w := CodeWord(c.dists, sym);
    assert (part + w)[|part|..] == w;
    assert SymbolIs(c, Distance, sym, Base(Distance)[sym], Extra(Distance)[sym], w);
  }

  lemma DistComplete(pre: seq<nat>, c: Codes, h: Hand, toks: seq<Token>, part: seq<bool>, out: seq<nat>, x: seq<bool>)
    requires HandOk(pre, c, h, toks, part, out) && h.phase == DistBits && |x| == h.extra
    ensures Coded(c, Match(h.counter, h.dist + Val(x)), part + x) && out == Output(pre, toks) && Open(toks)
    ensures 3 <= h.counter <= 258 && h.dist + Val(x) >= 1
  {
    hide HandOk, PartCoded, SymbolRead, Output, Coded, Val;
    DistHand(pre, c, h, toks, part, out);
    MatchOf(c, h.counter, h.lenbits, h.dist, h.extra, part[|h.lenbits|..], x);
    Regroup(h.lenbits, part, x);
  }

  lemma MatchOf(c: Codes, len: nat, u: seq<bool>, d: nat, extra: nat, v: seq<bool>, x: seq<bool>)
    requires PartCoded(c, Length, len, u) && SymbolRead(c, Distance, d, extra, v) && |x| == extra
    ensures Coded(c, Match(len, d + Val(x)), u + (v + x)) && 3 <= len <= 258 && d + Val(x) >= 1
  {
    hide PartCoded, SymbolRead, Coded, Val;
    ExtraBits(c, Distance, d, extra, v, x);
    MatchComplete(c, len, d + Val(x), u, v + x);
    LengthRange(c, len, u);
    DistRange(c, d + Val(x), v + x);
  }

  lemma Regroup(u: seq<bool>, part: seq<bool>, x: seq<bool>)
    requires u <= part
    ensures u + (part[|u|..] + x) == part + x
  {
    assert part == u + part[|u|..];
  }

  lemma DistHand(pre: seq<nat>, c: Codes, h: Hand, toks: seq<Token>, part: seq<bool>, out: seq<nat>)
    requires HandOk(pre, c, h, toks, part, out) && h.phase == DistBits
    ensures PartCoded(c, Length, h.counter, h.lenbits) && h.lenbits <= part && out == Output(pre, toks) && Open(toks)
    ensures SymbolRead(c, Distance, h.dist, h.extra, part[|h.lenbits|..])
  {
    hide PartCoded, SymbolRead, Output;
  }

  lemma InReachOf(pre: seq<nat>, c: Codes, fed: seq<bool>, read: seq<bool>, part: seq<bool>, toks: seq<Token>, stream: seq<bool>)
    requires Reading(pre, c, fed, read, part, toks, stream)
    ensures InReach(pre, toks) && CodesOk(c)
  {
  }

  lemma EndCoded(c: Codes)
    requires Used(c.lits, END)
    ensures Coded(c, EndOfBlock, CodeWord(c.lits, END))
  {
  }

  lemma HandFinished(pre: seq<nat>, c: Codes, h: Hand, toks: seq<Token>, out: seq<nat>)
    requires h.phase == Finished && toks != [] && toks[|toks| - 1] == EndOfBlock && out == Output(pre, toks)
    ensures HandOk(pre, c, h, toks, [], out)
  {
  }

  lemma HandLength(pre: seq<nat>, c: Codes, h: Hand, toks: seq<Token>, part: seq<bool>, out: seq<nat>, sym: nat)
    requires FirstOf(Length) <= sym < FirstOf(Length) + Size(Length) && Used(c.lits, sym) && part == CodeWord(c.lits, sym)
    requires h.counter == Base(Length)[sym - FirstOf(Length)] && h.extra == Extra(Length)[sym - FirstOf(Length)]
    requires h.phase == (if h.extra > 0 then LengthBits else DistSymbol) && out == Output(pre, toks) && Open(toks)
    ensures HandOk(pre, c, h, toks, part, out)
  {
    hide Base, Extra, PartCoded, Output;
    assert SymbolIs(c, Length, sym - FirstOf(Length), h.counter, h.extra, part);
    if h.extra == 0 {
      NoExtraBits(c, Length, h.counter, part);
    }
  }

  lemma HandDead(pre: seq<nat>, c: Codes, h: Hand, toks: seq<Token>, part: seq<bool>, out: seq<nat>, sym: nat)
    requires CodesOk(c) && FirstOf(Length) + Size(Length) <= sym && Used(c.lits, sym) && part == CodeWord(c.lits, sym)
    requires h.phase == Stuck && out == Output(pre, toks) && Open(toks)
    ensures HandOk(pre, c, h, toks, part, out)
  {
    hide Dead, Output;
    DeadSymbol(pre, c, sym, toks);
  }

  lemma CopyingHand(pre: seq<nat>, c: Codes, h: Hand, toks: seq<Token>, part: seq<bool>, out: seq<nat>)
    requires HandOk(pre, c, h, toks, part, out) && h.phase == Copying
    ensures Coded(c, Match(h.len, h.dist), part) && 1 <= h.dist <= |Output(pre, toks)| && h.counter <= h.len && Open(toks)
    ensures out == Repeat(Output(pre, toks), h.dist, h.len - h.counter)
  {
    hide Coded, Output;
  }

  lemma HandSymbol(pre: seq<nat>, c: Codes, h: Hand, toks: seq<Token>, out: seq<nat>)
    requires h.phase == Symbol && out == Output(pre, toks) && Open(toks)
    ensures HandOk(pre, c, h, toks, [], out)
  {
  }

  lemma HandCopying(pre: seq<nat>, c: Codes, h: Hand, toks: seq<Token>, part: seq<bool>, out: seq<nat>)
    requires h.phase == Copying && Open(toks) && Coded(c, Match(h.len, h.dist), part) && 1 <= h.dist <= |Output(pre, toks)| && 1 <= h.counter <= h.len
    requires out == Repeat(Output(pre, toks), h.dist, h.len - h.counter)
    ensures HandOk(pre, c, h, toks, part, out)
  {
    hide PartCoded, SymbolRead, Output, Coded;
  }

  lemma CopySoFar(c: Codes, base: seq<nat>, dist: nat, done: nat, k: nat, buf: seq<nat>, out: seq<nat>, cur: nat, pos: nat)
    requires 1 <= dist <= |base| && out == Repeat(base, dist, done) && cur == |out| + k <= |buf|
    requires Masked(buf, out, dist, k, cur, pos)
    ensures buf[..cur] == Repeat(base, dist, done + k)
  {
    RepeatSplits(base, dist, done, k);
    LinearWindow(buf, Repeat(base, dist, done + k));
  }

  lemma HandExtra(pre: seq<nat>, c: Codes, h: Hand, toks: seq<Token>, part: seq<bool>, out: seq<nat>)
    requires HandOk(pre, c, h, toks, part, out) && (h.phase == LengthBits || h.phase == DistBits)
    ensures h.extra <= 13
  {
    hide PartCoded, SymbolRead, Output, Coded;
    if h.phase == LengthBits {
      ExtraBound(c, Length, h.counter, h.extra, part);
    } else {
      ExtraBound(c, Distance, h.dist, h.extra, part[|h.lenbits|..]);
    }
  }

  lemma LengthRead(pre: seq<nat>, c: Codes, h: Hand, toks: seq<Token>, part: seq<bool>, out: seq<nat>, x: seq<bool>)
    requires HandOk(pre, c, h, toks, part, out) && h.phase == LengthBits && |x| == h.extra
    ensures HandOk(pre, c, h.(phase := DistSymbol, counter := h.counter + Val(x)), toks, part + x, out)
  {
    hide PartCoded, SymbolRead, Output, Coded;
    ExtraBits(c, Length, h.counter, h.extra, part, x);
  }

  lemma LiteralCoded(c: Codes, b: nat)
    requires Used(c.lits, b) && b < END
    ensures Coded(c, Literal(b), CodeWord(c.lits, b))
  {
  }

  lemma RestartCopy(buf: seq<nat>, out: seq<nat>, dist: nat, cur: nat)
    requires 1 <= dist <= |out| <= |buf| && cur == |out| && Window(buf, out)
    ensures Masked(buf, out, dist, 0, cur, cur)
  {
    LinearWindow(buf, out);
  }

  // ------------------------------------------------------------------
  // Waiting only for what is missing
  // ------------------------------------------------------------------

  // No whole token is there yet.
  ghost predicate Waits(c: Codes, s: seq<bool>) {
    forall tok, w :: Coded(c, tok, w) ==> !(w <= s)
  }

  // Whatever comes, the next token is none that a well-formed block could have here.
  ghost predicate Dead(pre: seq<nat>, c: Codes, toks: seq<Token>, part: seq<bool>) {
    forall s, tok, w :: Coded(c, tok, w) && Joins(w, part, s) ==> tok.Match? && tok.dist > |Output(pre, toks)|
  }

  ghost predicate Joins(w: seq<bool>, part: seq<bool>, s: seq<bool>) {
    w <= part + s
  }

  lemma FirstCode(c: Codes, tok: Token, w: seq<bool>, sym: nat, rest: seq<bool>) returns (x: seq<bool>)
    requires CodesOk(c) && Coded(c, tok, w) && Used(c.lits, sym) && w <= CodeWord(c.lits, sym) + rest
    ensures w == CodeWord(c.lits, sym) + x && x <= rest && sym < FirstOf(Length) + Size(Length)
    ensures tok.Match? <==> sym > END
    ensures tok.Match? ==> MatchRest(c, tok, sym, x)
  {
    hide Coded, MatchRest;
    var y;
    y, x := FirstSymbol(c, tok, w);
    var s := CodeWord(c.lits, sym) + rest;
    assert CodeWord(c.lits, sym) + [] <= s;
    SameSymbol(c.lits, y, sym, x, [], s);
    assert x == w[c.lits[sym]..];
    assert rest == s[c.lits[sym]..];
  }

  lemma BeginsWith(lens: seq<nat>, y: nat, x: seq<bool>, w: seq<bool>, s: seq<bool>)
    requires Used(lens, y) && w == CodeWord(lens, y) + x && w <= s
    ensures Begins(lens, y, s)
  {
    assert CodeWord(lens, y) == s[..lens[y]];
  }

  lemma WaitSymbol(c: Codes, s: seq<bool>)
    requires NoCode(c.lits, s)
    ensures Waits(c, s)
  {
    forall tok, w | Coded(c, tok, w) ensures !(w <= s) {
      hide Coded;
      var y, x := FirstSymbol(c, tok, w);
      if w <= s {
        BeginsWith(c.lits, y, x, w, s);
      }
    }
  }

  lemma WaitLengthBits(c: Codes, v: nat, extra: nat, part: seq<bool>, stream: seq<bool>)
    requires CodesOk(c) && SymbolRead(c, Length, v, extra, part) && |stream| < extra
    ensures Waits(c, part + stream)
  {
    hide Base, Extra;
    var i: nat :| SymbolIs(c, Length, i, v, extra, part);
    forall tok, w | Coded(c, tok, w) ensures !(w <= part + stream) {
      hide Coded, PartCoded;
      if w <= part + stream {
        var x := FirstCode(c, tok, w, FirstOf(Length) + i, stream);
      }
    }
  }

  // With a whole length read, the next token is a match of that length.
  lemma MatchOnly(c: Codes, len: nat, u: seq<bool>, tok: Token, w: seq<bool>, rest: seq<bool>) returns (v: seq<bool>)
    requires CodesOk(c) && PartCoded(c, Length, len, u) && Coded(c, tok, w) && w <= u + rest
    ensures tok.Match? && tok.len == len && w == u + v && v <= rest && PartCoded(c, Distance, tok.dist, v)
  {
    hide Base, Extra;
    var i: nat, x :| Part(c, Length, i, x, len, u);
    assert u + rest == CodeWord(c.lits, FirstOf(Length) + i) + (x + rest);
    var z := FirstCode(c, tok, w, FirstOf(Length) + i, x + rest);
    hide PartCoded;
    var a, b :| MatchCoded(c, tok.len, tok.dist, a, b) && w == a + b;
    var s := u + rest;
    assert a <= s && u <= s;
    SamePart(c, Length, tok.len, len, a, u, s);
    v := b;
    assert v == w[|u|..] && rest == s[|u|..];
  }

  lemma WaitDistSymbol(c: Codes, len: nat, part: seq<bool>, stream: seq<bool>)
    requires CodesOk(c) && PartCoded(c, Length, len, part) && NoCode(c.dists, stream)
    ensures Waits(c, part + stream)
  {
    hide Base, Extra;
    forall tok, w | Coded(c, tok, w) ensures !(w <= part + stream) {
      if w <= part + stream {
        var v := MatchOnly(c, len, part, tok, w, stream);
        var j: nat, y :| Part(c, Distance, j, y, tok.dist, v);
        BeginsWith(c.dists, j, y, v, stream);
      }
    }
  }

  // The distance symbol that the stream begins with is that of the token.
  lemma SameDistSymbol(c: Codes, sym: nat, dist: nat, v: seq<bool>, rest: seq<bool>) returns (y: seq<bool>)
    requires CodesOk(c) && Used(c.dists, sym) && PartCoded(c, Distance, dist, v) && v <= CodeWord(c.dists, sym) + rest
    ensures Part(c, Distance, sym, y, dist, v)
  {
    hide Base, Extra;
    var j: nat;
    j, y :| Part(c, Distance, j, y, dist, v);
    var s := CodeWord(c.dists, sym) + rest;
    assert CodeWord(c.dists, sym) + [] <= s;
    SameSymbol(c.dists, j, sym, y, [], s);
  }

  lemma WaitDistBits(c: Codes, len: nat, u: seq<bool>, d: nat, extra: nat, part: seq<bool>, stream: seq<bool>)
    requires CodesOk(c) && PartCoded(c, Length, len, u) && u <= part && SymbolRead(c, Distance, d, extra, part[|u|..]) && |stream| < extra
    ensures Waits(c, part + stream)
  {
    hide Base, Extra, PartCoded;
    var p := part[|u|..];
    var i: nat :| SymbolIs(c, Distance, i, d, extra, p);
    forall tok, w | Coded(c, tok, w) ensures !(w <= part + stream) {
      if w <= part + stream {
        assert part + stream == u + (p + stream);
        var v := MatchOnly(c, len, u, tok, w, p + stream);
        var y := SameDistSymbol(c, i, tok.dist, v, stream);
      }
    }
  }

  lemma DeadSymbol(pre: seq<nat>, c: Codes, sym: nat, toks: seq<Token>)
    requires CodesOk(c) && Used(c.lits, sym) && sym >= FirstOf(Length) + Size(Length)
    ensures Dead(pre, c, toks, CodeWord(c.lits, sym))
  {
    forall s, tok, w | Coded(c, tok, w) ensures !Joins(w, CodeWord(c.lits, sym), s) {
      if Joins(w, CodeWord(c.lits, sym), s) {
        var x := FirstCode(c, tok, w, sym, s);
      }
    }
  }

  lemma DeadDistance(pre: seq<nat>, c: Codes, len: nat, u: seq<bool>, sym: nat, toks: seq<Token>)
    requires CodesOk(c) && PartCoded(c, Length, len, u) && Used(c.dists, sym) && sym >= Size(Distance)
    ensures Dead(pre, c, toks, u + CodeWord(c.dists, sym))
  {
    hide PartCoded, Base, Extra;
    var p := u + CodeWord(c.dists, sym);
    forall s, tok, w | Coded(c, tok, w) ensures !Joins(w, p, s) {
      if Joins(w, p, s) {
        assert p + s == u + (CodeWord(c.dists, sym) + s);
        var v := MatchOnly(c, len, u, tok, w, CodeWord(c.dists, sym) + s);
        var y := SameDistSymbol(c, sym, tok.dist, v, s);
      }
    }
  }

  lemma DeadMatch(pre: seq<nat>, c: Codes, len: nat, dist: nat, part: seq<bool>, toks: seq<Token>)
    requires CodesOk(c) && Coded(c, Match(len, dist), part) && dist > |Output(pre, toks)|
    ensures Dead(pre, c, toks, part)
  {
    hide Coded, Output;
    forall s, tok, w | Coded(c, tok, w) && Joins(w, part, s) ensures tok.Match? && tok.dist > |Output(pre, toks)| {
      SameToken(c, tok, Match(len, dist), w, part, part + s);
    }
  }

  // ------------------------------------------------------------------
  // A well-formed block is inflated to its end
  // ------------------------------------------------------------------

  // The stream begins with the code of the tokens of a whole block.
  ghost predicate WholeBlock(pre: seq<nat>, c: Codes, all: seq<Token>, w: seq<bool>, s: seq<bool>) {
    AllCoded(c, all, w) && w <= s && InReach(pre, all) && all != [] && all[|all| - 1] == EndOfBlock
  }

  // Everything the inflater knows, as values.
  lemma OnTrack(pre: seq<nat>, c: Codes, h: Hand, fed: seq<bool>, read: seq<bool>, part: seq<bool>, toks: seq<Token>, stream: seq<bool>,
                out: seq<nat>, all: seq<Token>, w: seq<bool>)
    requires Reading(pre, c, fed, read, part, toks, stream) && HandOk(pre, c, h, toks, part, out) && WholeBlock(pre, c, all, w, fed)
    ensures toks <= all && (h.phase == Finished ==> toks == all)
    ensures h.phase != Finished ==> |toks| < |all|
  {
    hide CodesOk, AllCoded, Coded, PartCoded, SymbolRead, Dead;
    assert read <= fed;
    if |toks| <= |all| {
      OneReading(c, toks, all, read, w, fed);
    } else {
      OneReading(c, all, toks, w, read, fed);
      EndIsLast(pre, all, toks);
    }
    if h.phase == Finished {
      EndIsLast(pre, toks, all);
    }
  }

  lemma TokenThere(pre: seq<nat>, c: Codes, h: Hand, fed: seq<bool>, read: seq<bool>, part: seq<bool>, toks: seq<Token>, stream: seq<bool>,
                   out: seq<nat>, all: seq<Token>, w: seq<bool>) returns (u: seq<bool>)
    requires Reading(pre, c, fed, read, part, toks, stream) && HandOk(pre, c, h, toks, part, out) && WholeBlock(pre, c, all, w, fed)
    requires h.phase != Finished
    ensures toks <= all && |toks| < |all| && Coded(c, all[|toks|], u) && u <= part + stream
    ensures InReach(pre, all[..|toks|]) && (all[|toks|].Match? ==> 1 <= all[|toks|].dist <= |Output(pre, toks)|)
  {
    hide HandOk, CodesOk, AllCoded, Coded;
    OnTrack(pre, c, h, fed, read, part, toks, stream, out, all, w);
    u := NextToken(c, toks, all, read, w, fed);
    ReachAt(pre, all, |toks|);
    assert all[..|toks|] == toks;
    var rest := part + stream;
    assert fed == read + rest;
    assert u == (read + u)[|read|..] && rest == fed[|read|..];
  }

  lemma NotStuck(pre: seq<nat>, c: Codes, h: Hand, fed: seq<bool>, read: seq<bool>, part: seq<bool>, toks: seq<Token>, stream: seq<bool>,
                 out: seq<nat>, all: seq<Token>, w: seq<bool>)
    requires Reading(pre, c, fed, read, part, toks, stream) && HandOk(pre, c, h, toks, part, out) && WholeBlock(pre, c, all, w, fed)
    ensures h.phase != Stuck && (h.phase != Finished ==> !Waits(c, part + stream))
  {
    if h.phase != Finished {
      var u := TokenThere(pre, c, h, fed, read, part, toks, stream, out, all, w);
      hide Coded, Reading, WholeBlock, Output;
      assert Joins(u, part, stream);
    }
  }

  // The output is the beginning of that of the block, and there is more when something is pending.
  lemma OutputFits(pre: seq<nat>, c: Codes, h: Hand, fed: seq<bool>, read: seq<bool>, part: seq<bool>, toks: seq<Token>, stream: seq<bool>,
                   out: seq<nat>, all: seq<Token>, w: seq<bool>)
    requires Reading(pre, c, fed, read, part, toks, stream) && HandOk(pre, c, h, toks, part, out) && WholeBlock(pre, c, all, w, fed)
    ensures out <= Output(pre, all)
    ensures h.phase == PutLiteral || h.phase == Copying ==> |out| < |Output(pre, all)|
  {
    hide Coded, AllCoded, Output, CodesOk, PartCoded, SymbolRead, Dead, Reading, WholeBlock;
    OnTrack(pre, c, h, fed, read, part, toks, stream, out, all, w);
    OutputPrefix(pre, all, |toks|);
    assert all[..|toks|] == toks;
    if h.phase == Copying || h.phase == PutLiteral {
      var u := TokenThere(pre, c, h, fed, read, part, toks, stream, out, all, w);
      CodesReading(pre, c, fed, read, part, toks, stream);
      var tok := if h.phase == Copying then Match(h.len, h.dist) else Literal(h.counter);
      assert part <= part + stream;
      SameToken(c, tok, all[|toks|], part, u, part + stream);
      if h.phase == Copying {
        PendingCopy(pre, toks, h.dist, h.len - h.counter, h.counter, all);
      } else {
        PendingLiteral(pre, toks, h.counter, all);
      }
    }
  }

  lemma CodesReading(pre: seq<nat>, c: Codes, fed: seq<bool>, read: seq<bool>, part: seq<bool>, toks: seq<Token>, stream: seq<bool>)
    requires Reading(pre, c, fed, read, part, toks, stream)
    ensures CodesOk(c) && InReach(pre, toks)
  {
  }

  // The token at hand puts out more.
  lemma PendingLiteral(pre: seq<nat>, toks: seq<Token>, b: nat, all: seq<Token>)
    requires toks <= all && |toks| < |all| && all[|toks|] == Literal(b) && InReach(pre, toks) && Open(toks)
    ensures Output(pre, toks) <= Output(pre, all) && |Output(pre, toks)| < |Output(pre, all)|
  {
    hide Output, InReach;
    AllAfter(pre, toks, Literal(b), all);
    OutputGrows(pre, toks, Literal(b));
    PrefixOne(Output(pre, toks), b, Output(pre, all));
  }

  lemma PendingCopy(pre: seq<nat>, toks: seq<Token>, dist: nat, done: nat, rest: nat, all: seq<Token>)
    requires toks <= all && |toks| < |all| && all[|toks|] == Match(done + rest, dist) && InReach(pre, toks) && Open(toks)
    requires 1 <= dist <= |Output(pre, toks)| && rest >= 1
    ensures var out := Repeat(Output(pre, toks), dist, done); out <= Output(pre, all) && |out| < |Output(pre, all)|
  {
    hide Output, InReach, Repeat;
    AllAfter(pre, toks, Match(done + rest, dist), all);
    OutputGrows(pre, toks, Match(done + rest, dist));
    PendingMatch(Output(pre, toks), dist, done, rest, Output(pre, all));
  }

  lemma AllAfter(pre: seq<nat>, toks: seq<Token>, tok: Token, all: seq<Token>)
    requires toks <= all && |toks| < |all| && tok == all[|toks|]
    ensures all[..|toks|] == toks && Output(pre, toks + [tok]) <= Output(pre, all)
  {
    hide Output;
    var n := |toks| + 1;
    assert all[..n] == toks + [tok];
    OutputPrefix(pre, all, n);
  }

  lemma PendingMatch(base: seq<nat>, dist: nat, done: nat, rest: nat, whole: seq<nat>)
    requires 1 <= dist <= |base| && rest >= 1 && Repeat(base, dist, done + rest) <= whole
    ensures Repeat(base, dist, done) <= whole && |Repeat(base, dist, done)| < |whole|
  {
    hide Repeat;
    RepeatPrefix(base, dist, done, rest);
    PrefixChain(Repeat(base, dist, done), Repeat(base, dist, done + rest), whole);
  }

  lemma RepeatPrefix(base: seq<nat>, dist: nat, a: nat, b: nat)
    requires 1 <= dist <= |base|
    ensures Repeat(base, dist, a) <= Repeat(base, dist, a + b) && |Repeat(base, dist, a + b)| == |base| + a + b
    ensures |Repeat(base, dist, a)| == |base| + a
  {
    RepeatSplits(base, dist, a, b);
  }

  lemma PrefixOne(a: seq<nat>, b: nat, c: seq<nat>)
    requires a + [b] <= c
    ensures a <= c && |a| < |c|
  {
    assert a == (a + [b])[..|a|];
  }

  lemma PrefixChain(a: seq<nat>, b: seq<nat>, c: seq<nat>)
    requires a <= b && b <= c
    ensures a <= c
  {
  }

  /** Inflating a well-formed block gives exactly its output: the inflater neither fails nor waits for
      more, and it comes to the end exactly when the buffer has room for all of it; otherwise it fills the
      buffer with the beginning. */
  method InflateBlock(b: Block, ghost all: seq<Token>, ghost w: seq<bool>) returns (done: bool)
    requires b.Valid() && WholeBlock(b.pre, b.codes, all, w, b.fed)
    modifies b, b.reader, b.buf
    ensures b.Valid() && b.buf == old(b.buf) && done == (|Output(b.pre, all)| <= b.buf.Length)
    ensures done ==> b.phase == Finished && b.toks == all && b.Out() == Output(b.pre, all)
    ensures done ==> |w| <= |b.fed| && b.fed == old(b.fed) && b.reader.Stream() == b.fed[|w|..]
    ensures !done ==> b.Out() == Output(b.pre, all)[..b.buf.Length]
  {
    hide Reading, HandOk, WholeBlock, Decodes, Output;
    var status := b.Run();
    NotStuck(b.pre, b.codes, b.AtHand(), b.fed, b.read, b.part, b.toks, b.reader.Stream(), b.Out(), all, w);
    OutputFits(b.pre, b.codes, b.AtHand(), b.fed, b.read, b.part, b.toks, b.reader.Stream(), b.Out(), all, w);
    OnTrack(b.pre, b.codes, b.AtHand(), b.fed, b.read, b.part, b.toks, b.reader.Stream(), b.Out(), all, w);
    done := status == Done;
    if done {
      FinishedOut(b.pre, b.codes, b.AtHand(), b.toks, b.part, b.Out());
      FinishedAt(b.pre, b.codes, b.AtHand(), b.fed, b.read, b.part, b.toks, b.reader.Stream(), b.Out(), all, w);
    }
  }

  // What comes after the block is still to come.
  lemma FinishedAt(pre: seq<nat>, c: Codes, h: Hand, fed: seq<bool>, read: seq<bool>, part: seq<bool>, toks: seq<Token>, stream: seq<bool>,
                   out: seq<nat>, all: seq<Token>, w: seq<bool>)
    requires Reading(pre, c, fed, read, part, toks, stream) && HandOk(pre, c, h, toks, part, out) && h.phase == Finished
    requires WholeBlock(pre, c, all, w, fed) && toks == all
    ensures |w| <= |fed| && stream == fed[|w|..]
  {
    hide AllCoded, InReach, CodesOk, Output;
    assert read <= fed;
    SameTokens(c, toks, toks, read, w, fed);
    assert read + part + stream == read + stream;
  }

  lemma FinishedOut(pre: seq<nat>, c: Codes, h: Hand, toks: seq<Token>, part: seq<bool>, out: seq<nat>)
    requires HandOk(pre, c, h, toks, part, out) && h.phase == Finished
    ensures out == Output(pre, toks)
  {
  }
}
