/** What a compressed block means (section 3.2.5 of RFC 1951): literals and matches, each with its
    code, and the output they stand for. */
module Tokens {
  import opened BitStrings
  import opened CanonicalCode
  import opened MatchCopy

  datatype Token = Literal(b: nat) | Match(len: nat, dist: nat) | EndOfBlock

  const END: nat := 256

  // The two alphabets whose symbols stand for a base value and some extra bits: lengths, symbols 257
  // to 285 of the first code, and distances.
  datatype Kind = Length | Distance

  function FirstOf(kind: Kind): nat {
    if kind.Length? then 257 else 0
  }

  function Size(kind: Kind): nat {
    if kind.Length? then 29 else 30
  }

  // The tables of the standard: base values, and numbers of extra bits.
  function LengthTable(extra: bool): (s: seq<nat>)
    ensures |s| == 29 && forall i :: 0 <= i < |s| ==> if extra then s[i] <= 13 else s[i] >= 1
  {
    if extra then
      [0, 0, 0, 0, 0, 0, 0, 0, 1, 1, 1, 1, 2, 2, 2, 2, 3, 3, 3, 3, 4, 4, 4, 4, 5, 5, 5, 5, 0]
    else
      [3, 4, 5, 6, 7, 8, 9, 10, 11, 13, 15, 17, 19, 23, 27, 31, 35, 43, 51, 59, 67, 83, 99, 115, 131, 163, 195, 227, 258]
  }

  function DistTable(extra: bool): (s: seq<nat>)
    ensures |s| == 30
  {
    if extra then
      [0, 0, 0, 0, 1, 1, 2, 2, 3, 3, 4, 4, 5, 5, 6, 6, 7, 7, 8, 8, 9, 9, 10, 10, 11, 11, 12, 12, 13, 13]
    else
      [1, 2, 3, 4, 5, 7, 9, 13, 17, 25, 33, 49, 65, 97, 129, 193, 257, 385, 513, 769,
       1025, 1537, 2049, 3073, 4097, 6145, 8193, 12289, 16385, 24577]
  }

  lemma DistTableBounds()
    ensures forall i :: 0 <= i < 30 ==> DistTable(false)[i] >= 1
    ensures forall i :: 0 <= i < 30 ==> DistTable(true)[i] <= 13
  {
    forall i | 0 <= i < 30 ensures DistTable(false)[i] >= 1 && DistTable(true)[i] <= 13 {
      DistTableBound(i);
    }
  }

  lemma DistTableBound(i: nat)
    requires i < 30
    ensures DistTable(false)[i] >= 1 && DistTable(true)[i] <= 13
  {
    if i < 10 {
      assert DistTable(true)[i] <= 4;
    } else if i < 20 {
      assert DistTable(true)[i] <= 8;
    }
  }

  function Base(kind: Kind): (s: seq<nat>)
    ensures |s| == Size(kind) && forall i :: 0 <= i < |s| ==> s[i] >= 1
  {
    if kind.Length? then LengthTable(false) else DistTableBounds(); DistTable(false)
  }

  function Extra(kind: Kind): (s: seq<nat>)
    ensures |s| == Size(kind) && forall i :: 0 <= i < |s| ==> s[i] <= 13
  {
    if kind.Length? then LengthTable(true) else DistTableBounds(); DistTable(true)
  }

  // The codes for literals and lengths, and for distances.
  datatype Codes = Codes(lits: seq<nat>, dists: seq<nat>)

  ghost predicate CodesOk(c: Codes) {
    Lengths(c.lits) && Complete(c.lits) && Lengths(c.dists) && Complete(c.dists)
  }

  function Of(c: Codes, kind: Kind): seq<nat> {
    if kind.Length? then c.lits else c.dists
  }

  // w is the code for a length or distance v, with its extra bits x.
  ghost predicate Part(c: Codes, kind: Kind, i: nat, x: seq<bool>, v: nat, w: seq<bool>) {
    && i < Size(kind) && Used(Of(c, kind), FirstOf(kind) + i) && |x| == Extra(kind)[i]
    && v == Base(kind)[i] + Val(x) && w == CodeWord(Of(c, kind), FirstOf(kind) + i) + x
  }

  ghost predicate PartCoded(c: Codes, kind: Kind, v: nat, w: seq<bool>) {
    exists i: nat, x :: Part(c, kind, i, x, v, w)
  }

  // w is the code for a token.
  ghost predicate Coded(c: Codes, tok: Token, w: seq<bool>) {
    match tok
    case Literal(b) => b < 256 && Used(c.lits, b) && w == CodeWord(c.lits, b)
    case EndOfBlock => Used(c.lits, END) && w == CodeWord(c.lits, END)
    case Match(len, dist) => exists u, v :: MatchCoded(c, len, dist, u, v) && w == u + v
  }

  ghost predicate MatchCoded(c: Codes, len: nat, dist: nat, u: seq<bool>, v: seq<bool>) {
    PartCoded(c, Length, len, u) && PartCoded(c, Distance, dist, v)
  }

  // w is the code for tokens, one after the other.
  ghost predicate AllCoded(c: Codes, toks: seq<Token>, w: seq<bool>) {
    if toks == [] then w == []
    else exists k :: 0 <= k <= |w| && AllCoded(c, toks[..|toks| - 1], w[..k]) && Coded(c, toks[|toks| - 1], w[k..])
  }

  lemma OneMore(c: Codes, toks: seq<Token>, w: seq<bool>, tok: Token, u: seq<bool>)
    requires AllCoded(c, toks, w) && Coded(c, tok, u)
    ensures AllCoded(c, toks + [tok], w + u)
  {
    hide Coded;
    assert (toks + [tok])[..|toks|] == toks && (w + u)[..|w|] == w && (w + u)[|w|..] == u;
  }

  // ------------------------------------------------------------------
  // Codes can be told apart
  // ------------------------------------------------------------------

  // Both streams begin with the code of a symbol, and one stream goes on where the other ends.
  lemma SameSymbol(lens: seq<nat>, a: nat, b: nat, x: seq<bool>, y: seq<bool>, s: seq<bool>)
    requires Lengths(lens) && Complete(lens) && Used(lens, a) && Used(lens, b)
    requires CodeWord(lens, a) + x <= s && CodeWord(lens, b) + y <= s
    ensures a == b
  {
    assert s[..lens[a]] == CodeWord(lens, a) && s[..lens[b]] == CodeWord(lens, b);
    BeginsOnce(lens, a, b, s);
  }

  lemma SamePart(c: Codes, kind: Kind, u: nat, v: nat, p: seq<bool>, q: seq<bool>, s: seq<bool>)
    requires CodesOk(c) && p <= s && q <= s && PartCoded(c, kind, u, p) && PartCoded(c, kind, v, q)
    ensures u == v && p == q
  {
    hide Base, Extra;
    var i: nat, x :| Part(c, kind, i, x, u, p);
    var j: nat, y :| Part(c, kind, j, y, v, q);
    CodesOf(c, kind);
    hide CodesOk, PartCoded, CodeWord, Complete, Lengths;
    var lens, a, b := Of(c, kind), FirstOf(kind) + i, FirstOf(kind) + j;
    SameSymbol(lens, a, b, x, y, s);
    SameTail(CodeWord(lens, a), x, y, s);
  }

  lemma CodesOf(c: Codes, kind: Kind)
    requires CodesOk(c)
    ensures Lengths(Of(c, kind)) && Complete(Of(c, kind))
  {
  }

  // Two streams of the same length that one stream begins with.
  lemma SameTail(w: seq<bool>, x: seq<bool>, y: seq<bool>, s: seq<bool>)
    requires w + x <= s && w + y <= s && |x| == |y|
    ensures x == y
  {
    assert x == (w + x)[|w|..] && y == (w + y)[|w|..];
    assert w + x == s[..|w| + |x|] && w + y == s[..|w| + |x|];
  }

  // What follows the length symbol of a match: its extra bits, and the code of the distance.
  ghost predicate MatchRest(c: Codes, tok: Token, sym: nat, x: seq<bool>) {
    exists e, v :: MatchRestIs(c, tok, sym, e, v) && x == e + v
  }

  ghost predicate MatchRestIs(c: Codes, tok: Token, sym: nat, e: seq<bool>, v: seq<bool>) {
    && tok.Match? && FirstOf(Length) <= sym < FirstOf(Length) + Size(Length)
    && |e| == Extra(Length)[sym - FirstOf(Length)] && tok.len == Base(Length)[sym - FirstOf(Length)] + Val(e)
    && PartCoded(c, Distance, tok.dist, v)
  }

  // The literal/length symbol a token begins with, and what follows its code.
  lemma FirstSymbol(c: Codes, tok: Token, w: seq<bool>) returns (sym: nat, x: seq<bool>)
    requires Coded(c, tok, w)
    ensures Used(c.lits, sym) && w == CodeWord(c.lits, sym) + x && sym < FirstOf(Length) + Size(Length)
    ensures tok.Literal? <==> sym < 256
    ensures tok.EndOfBlock? <==> sym == END
    ensures tok.Literal? ==> sym == tok.b && x == []
    ensures tok.EndOfBlock? ==> x == []
    ensures tok.Match? ==> MatchRest(c, tok, sym, x)
  {
    hide Base, Extra, CodeWord;
    match tok
    case Literal(b) => sym, x := b, [];
    case EndOfBlock => sym, x := END, [];
    case Match(len, dist) =>
      var u, v :| MatchCoded(c, len, dist, u, v) && w == u + v;
      var i: nat, e :| Part(c, Length, i, e, len, u);
      sym, x := 257 + i, e + v;
      assert w == CodeWord(c.lits, sym) + x;
      assert MatchRestIs(c, tok, sym, e, v) && x == e + v;
  }

  /** A stream begins with the code of at most one token. */
  lemma SameToken(c: Codes, a: Token, b: Token, p: seq<bool>, q: seq<bool>, s: seq<bool>)
    requires CodesOk(c) && p <= s && q <= s && Coded(c, a, p) && Coded(c, b, q)
    ensures a == b && p == q
  {
    hide PartCoded;
    var i, x := FirstSymbol(c, a, p);
    var j, y := FirstSymbol(c, b, q);
    SameSymbol(c.lits, i, j, x, y, s);
    if a.Match? {
      var u, v :| MatchCoded(c, a.len, a.dist, u, v) && p == u + v;
      var t, w :| MatchCoded(c, b.len, b.dist, t, w) && q == t + w;
      assert u <= s && t <= s;
      SamePart(c, Length, a.len, b.len, u, t, s);
      var rest := s[|u|..];
      assert v == p[|u|..] && w == q[|u|..] && v <= rest && w <= rest;
      SamePart(c, Distance, a.dist, b.dist, v, w, rest);
    }
  }

  lemma {:induction false} Prefix(c: Codes, toks: seq<Token>, w: seq<bool>, n: nat) returns (k: nat)
    requires AllCoded(c, toks, w) && n <= |toks|
    ensures k <= |w| && AllCoded(c, toks[..n], w[..k])
    decreases |toks|
  {
    hide Coded;
    if n == |toks| {
      k := |w|;
      assert toks[..n] == toks && w[..k] == w;
    } else {
      var m :| 0 <= m <= |w| && AllCoded(c, toks[..|toks| - 1], w[..m]) && Coded(c, toks[|toks| - 1], w[m..]);
      k := Prefix(c, toks[..|toks| - 1], w[..m], n);
      assert toks[..|toks| - 1][..n] == toks[..n] && w[..m][..k] == w[..k];
    }
  }

  lemma {:induction false} SameTokens(c: Codes, a: seq<Token>, b: seq<Token>, p: seq<bool>, q: seq<bool>, s: seq<bool>)
    requires CodesOk(c) && AllCoded(c, a, p) && AllCoded(c, b, q) && p <= s && q <= s && |a| == |b|
    ensures a == b && p == q
    decreases |a|
  {
    hide Coded;
    if a != [] {
      var n := |a| - 1;
      var i :| 0 <= i <= |p| && AllCoded(c, a[..n], p[..i]) && Coded(c, a[n], p[i..]);
      var j :| 0 <= j <= |q| && AllCoded(c, b[..n], q[..j]) && Coded(c, b[n], q[j..]);
      SameTokens(c, a[..n], b[..n], p[..i], q[..j], s);
      assert |p[..i]| == i && |q[..j]| == j;
      assert p[i..] <= s[i..] && q[i..] <= s[i..];
      SameToken(c, a[n], b[n], p[i..], q[j..], s[i..]);
      assert a == a[..n] + [a[n]] && b == b[..n] + [b[n]];
      assert p == p[..i] + p[i..] && q == q[..j] + q[j..];
    }
  }

  /** Of two token sequences that one stream begins with, one goes on where the other ends. */
  lemma OneReading(c: Codes, a: seq<Token>, b: seq<Token>, p: seq<bool>, q: seq<bool>, s: seq<bool>)
    requires CodesOk(c) && AllCoded(c, a, p) && AllCoded(c, b, q) && p <= s && q <= s && |a| <= |b|
    ensures a <= b && p <= q
  {
    var k := Prefix(c, b, q, |a|);
    assert q[..k] <= s;
    SameTokens(c, a, b[..|a|], p, q[..k], s);
  }

  // ------------------------------------------------------------------
  // What tokens stand for
  // ------------------------------------------------------------------

  // The output after tokens, when pre is that of the blocks before. (A match that reaches back too far would
  // stand for nothing; see InReach.)
  ghost function Output(pre: seq<nat>, toks: seq<Token>): seq<nat> {
    if toks == [] then pre
    else
      var before, last := Output(pre, toks[..|toks| - 1]), toks[|toks| - 1];
      match last
      case Literal(b) => before + [b]
      case Match(len, dist) => if 1 <= dist <= |before| then Repeat(before, dist, len) else before
      case EndOfBlock => before
  }

  // The end of the block has not come.
  predicate Open(toks: seq<Token>) {
    toks != [] ==> !toks[|toks| - 1].EndOfBlock?
  }

  // Nothing follows the end of the block, and every match reaches back into the output and no
  // further.
  ghost predicate InReach(pre: seq<nat>, toks: seq<Token>) {
    toks != [] ==>
      var before, last := toks[..|toks| - 1], toks[|toks| - 1];
      InReach(pre, before) && Open(before) && (last.Match? ==> 1 <= last.dist <= |Output(pre, before)|)
  }

  lemma {:induction false} OpenBefore(pre: seq<nat>, toks: seq<Token>, n: nat)
    requires InReach(pre, toks) && n <= |toks|
    ensures n < |toks| ==> Open(toks[..n])
    decreases |toks|
  {
    if n + 1 < |toks| {
      var before := toks[..|toks| - 1];
      OpenBefore(pre, before, n);
      assert before[..n] == toks[..n];
    }
  }

  lemma OutputGrows(pre: seq<nat>, toks: seq<Token>, tok: Token)
    requires InReach(pre, toks) && Open(toks) && (tok.Match? ==> 1 <= tok.dist <= |Output(pre, toks)|)
    ensures InReach(pre, toks + [tok])
    ensures tok.Literal? ==> Output(pre, toks + [tok]) == Output(pre, toks) + [tok.b]
    ensures tok.EndOfBlock? ==> Output(pre, toks + [tok]) == Output(pre, toks)
    ensures tok.Match? ==> Output(pre, toks + [tok]) == Repeat(Output(pre, toks), tok.dist, tok.len)
  {
    assert (toks + [tok])[..|toks|] == toks;
  }

  // The token after those that have been read.
  lemma NextToken(c: Codes, toks: seq<Token>, all: seq<Token>, read: seq<bool>, w: seq<bool>, s: seq<bool>) returns (u: seq<bool>)
    requires CodesOk(c) && AllCoded(c, toks, read) && AllCoded(c, all, w) && read <= s && w <= s
    requires toks <= all && |toks| < |all|
    ensures Coded(c, all[|toks|], u) && read + u <= s
  {
    hide Coded, CodesOk;
    var n := |toks|;
    var k := Prefix(c, all, w, n + 1);
    var p, ts := w[..k], all[..n + 1];
    var j :| 0 <= j <= |p| && AllCoded(c, ts[..|ts| - 1], p[..j]) && Coded(c, ts[|ts| - 1], p[j..]);
    assert ts[..n] == toks && p[..j] <= s;
    SameTokens(c, toks, ts[..n], read, p[..j], s);
    u := p[j..];
    assert read + u == p;
  }

  lemma {:induction false} ReachAt(pre: seq<nat>, toks: seq<Token>, n: nat)
    requires InReach(pre, toks) && n < |toks|
    ensures InReach(pre, toks[..n]) && (toks[n].Match? ==> 1 <= toks[n].dist <= |Output(pre, toks[..n])|)
    decreases |toks|
  {
    if n + 1 < |toks| {
      var before := toks[..|toks| - 1];
      ReachAt(pre, before, n);
      assert before[..n] == toks[..n];
    }
  }

  lemma {:induction false} OutputPrefix(pre: seq<nat>, toks: seq<Token>, n: nat)
    requires n <= |toks|
    ensures Output(pre, toks[..n]) <= Output(pre, toks)
    decreases |toks|
  {
    if n < |toks| {
      var before := toks[..|toks| - 1];
      OutputPrefix(pre, before, n);
      assert before[..n] == toks[..n];
    } else {
      assert toks[..n] == toks;
    }
  }
}
