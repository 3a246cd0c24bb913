/** The canonical prefix code of section 3.2.2 of RFC 1951: code lengths determine the codes. */
module CanonicalCode {
  import opened Powers
  import opened BitStrings

  const MAX_LENGTH: nat := 15

  // Code lengths of the symbols; 0 for a symbol that does not occur.
  ghost predicate Lengths(lens: seq<nat>) {
    forall i :: 0 <= i < |lens| ==> lens[i] <= MAX_LENGTH
  }

  // How many of the first n symbols have length l.
  function CountBelow(lens: seq<nat>, l: nat, n: nat): nat
    requires n <= |lens|
  {
    if n == 0 then 0 else CountBelow(lens, l, n - 1) + if lens[n - 1] == l then 1 else 0
  }

  function Count(lens: seq<nat>, l: nat): nat {
    CountBelow(lens, l, |lens|)
  }

  // The least code of length l.
  function First(lens: seq<nat>, l: nat): nat {
    if l <= 1 then 0 else 2 * (First(lens, l - 1) + Count(lens, l - 1))
  }

  // Codes of one length are consecutive, in the order of the symbols.
  function Code(lens: seq<nat>, sym: nat): nat
    requires sym < |lens|
  {
    First(lens, lens[sym]) + CountBelow(lens, lens[sym], sym)
  }

  // The code of a symbol as it stands in the stream: the highest bit comes first.
  function CodeWord(lens: seq<nat>, sym: nat): (w: seq<bool>)
    requires sym < |lens|
    ensures |w| == lens[sym]
  {
    Word(Code(lens, sym), lens[sym])
  }

  // No bit string is left without a code: the lengths fill the space (the Kraft sum is 1).
  predicate Complete(lens: seq<nat>) {
    First(lens, MAX_LENGTH + 1) == 0x1_0000
  }

  predicate Used(lens: seq<nat>, sym: nat) {
    sym < |lens| && lens[sym] > 0
  }

  // The stream s begins with the code of sym.
  predicate Begins(lens: seq<nat>, sym: nat, s: seq<bool>) {
    Used(lens, sym) && lens[sym] <= |s| && CodeWord(lens, sym) == s[..lens[sym]]
  }

  // ------------------------------------------------------------------

  lemma {:induction false} CountGrows(lens: seq<nat>, l: nat, m: nat, n: nat)
    requires m <= n <= |lens|
    ensures CountBelow(lens, l, m) <= CountBelow(lens, l, n)
    ensures m < n && lens[m] == l ==> CountBelow(lens, l, m) < CountBelow(lens, l, n)
  {
    if m < n {
      CountGrows(lens, l, m, n - 1);
    }
  }

  // Complete lengths leave room for every code.
  lemma {:induction false} CodesFit(lens: seq<nat>, l: nat)
    requires Complete(lens) && 1 <= l <= MAX_LENGTH
    ensures First(lens, l) + Count(lens, l) <= Pow2(l)
    ensures l == MAX_LENGTH ==> First(lens, l) + Count(lens, l) == Pow2(l)
    decreases MAX_LENGTH - l
  {
    if l == MAX_LENGTH {
      assert First(lens, MAX_LENGTH + 1) == 2 * (First(lens, MAX_LENGTH) + Count(lens, MAX_LENGTH));
      FifteenBits();
    } else {
      CodesFit(lens, l + 1);
    }
  }

  lemma FifteenBits()
    ensures Pow2(15) == 0x8000
  {
    Pow2Adds(5, 5);
    Pow2Adds(10, 5);
  }

  lemma CodeFits(lens: seq<nat>, sym: nat)
    requires Lengths(lens) && Complete(lens) && Used(lens, sym)
    ensures Code(lens, sym) < First(lens, lens[sym]) + Count(lens, lens[sym]) <= Pow2(lens[sym])
  {
    CountGrows(lens, lens[sym], sym, |lens|);
    CodesFit(lens, lens[sym]);
  }

  // Longer codes, cut to length l, come after all codes of length l.
  lemma {:induction false} LongerAreAbove(lens: seq<nat>, l: nat, k: nat, x: nat)
    requires l >= 1 && k >= 1 && x >= First(lens, l + k)
    ensures Shr(x, k) >= First(lens, l) + Count(lens, l)
    decreases k
  {
    assert x / 2 >= First(lens, l + k - 1) + Count(lens, l + k - 1);
    if k > 1 {
      LongerAreAbove(lens, l, k - 1, x / 2);
    }
  }

  /** No code is a prefix of another. */
  lemma PrefixFree(lens: seq<nat>, a: nat, b: nat)
    requires Lengths(lens) && Complete(lens) && Used(lens, a) && Used(lens, b) && lens[a] <= lens[b]
    requires CodeWord(lens, a) == CodeWord(lens, b)[..lens[a]]
    ensures a == b
  {
    var l, m := lens[a], lens[b];
    var c, d := Code(lens, a), Code(lens, b);
    CodeFits(lens, a);
    CodeFits(lens, b);
    WordPrefix(d, m, l);
    ShrBound(d, m, l);
    NumOfWord(c, l);
    NumOfWord(Shr(d, m - l), l);
    if l < m {
      LongerAreAbove(lens, l, m - l, d);
    } else if a < b {
      CountGrows(lens, l, a, b);
    } else if b < a {
      CountGrows(lens, l, b, a);
    }
  }

  lemma BeginsOnce(lens: seq<nat>, a: nat, b: nat, s: seq<bool>)
    requires Lengths(lens) && Complete(lens) && Begins(lens, a, s) && Begins(lens, b, s)
    ensures a == b
  {
    if lens[a] <= lens[b] {
      assert s[..lens[b]][..lens[a]] == s[..lens[a]];
      PrefixFree(lens, a, b);
    } else {
      assert s[..lens[a]][..lens[b]] == s[..lens[b]];
      PrefixFree(lens, b, a);
    }
  }

  lemma {:induction false} SymbolOfRank(lens: seq<nat>, l: nat, r: nat, n: nat) returns (sym: nat)
    requires n <= |lens| && r < CountBelow(lens, l, n)
    ensures sym < n && lens[sym] == l && CountBelow(lens, l, sym) == r
  {
    if r < CountBelow(lens, l, n - 1) {
      sym := SymbolOfRank(lens, l, r, n - 1);
    } else {
      sym := n - 1;
    }
  }

  // A stream that is not below the codes of length l begins with a code of length l or more.
  lemma {:induction false} CompleteFrom(lens: seq<nat>, s: seq<bool>, l: nat) returns (sym: nat)
    requires Complete(lens) && |s| >= MAX_LENGTH && 1 <= l <= MAX_LENGTH && Num(s[..l]) >= First(lens, l)
    ensures Begins(lens, sym, s)
    decreases MAX_LENGTH - l
  {
    var x := Num(s[..l]);
    NumBound(s[..l]);
    CodesFit(lens, l);
    if x < First(lens, l) + Count(lens, l) {
      sym := SymbolOfRank(lens, l, x - First(lens, l), |lens|);
      WordOfNum(s[..l]);
    } else {
      assert s[..l + 1][..l] == s[..l];
      sym := CompleteFrom(lens, s, l + 1);
    }
  }

  /** Every stream begins with the code of a symbol. */
  lemma EveryStreamBegins(lens: seq<nat>, s: seq<bool>) returns (sym: nat)
    requires Complete(lens) && |s| >= MAX_LENGTH
    ensures Begins(lens, sym, s)
  {
    sym := CompleteFrom(lens, s, 1);
  }
}
