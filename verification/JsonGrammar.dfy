/** The language that the JSON reader (deps/json11/json11.cpp) accepts, as a grammar: sections 2 to 7 of
    RFC 8259, and comments where the strategy allows them. A text of the language is that of a syntax tree. */
module JsonGrammar {
  import opened Json
  import opened JsonParse

  // ------------------------------------------------------------------
  // Texts at a position
  // ------------------------------------------------------------------

  predicate Sees(str: seq<Byte>, i: nat, text: seq<Byte>) {
    i + |text| <= |str| && str[i..i + |text|] == text
  }

  lemma SeesBoth(str: seq<Byte>, i: nat, a: seq<Byte>, b: seq<Byte>)
    ensures Sees(str, i, a + b) <==> Sees(str, i, a) && Sees(str, i + |a|, b)
  {
    if i + |a| + |b| <= |str| {
      var s := str[i..i + |a + b|];
      assert s[..|a|] == str[i..i + |a|] && s[|a|..] == str[i + |a|..i + |a| + |b|];
      assert s == s[..|a|] + s[|a|..];
      assert (a + b)[..|a|] == a && (a + b)[|a|..] == b;
    }
  }

  lemma SeesAt(str: seq<Byte>, i: nat, text: seq<Byte>, k: nat)
    requires Sees(str, i, text) && k < |text|
    ensures i + k < |str| && str[i + k] == text[k]
  {
    assert str[i..i + |text|][k] == str[i + k];
  }

  lemma SeesOne(str: seq<Byte>, i: nat, ch: Byte)
    ensures Sees(str, i, [ch]) <==> i < |str| && str[i] == ch
  {
    if i < |str| {
      assert str[i..i + 1] == [str[i]];
    }
  }

  // ------------------------------------------------------------------
  // White space and comments
  // ------------------------------------------------------------------

  // A comment to the end of the line has the newline with it.
  datatype Filler = Space(b: Byte) | Line(t: seq<Byte>) | Block(t: seq<Byte>)

  function FillerText(f: Filler): seq<Byte> {
    match f
    case Space(b) => [b]
    case Line(t) => [SLASH, SLASH] + t + [NEWLINE]
    case Block(t) => [SLASH, STAR] + t + [STAR, SLASH]
  }

  // The text of a comment does not end it.
  ghost predicate FillerOk(f: Filler, comments: bool) {
    match f
    case Space(b) => IsSpace(b)
    case Line(t) => comments && NEWLINE !in t
    case Block(t) => comments && forall k :: 0 <= k < |t| ==> !EndsAt(t + [STAR, SLASH], k)
  }

  predicate EndsAt(t: seq<Byte>, k: nat) {
    k + 1 < |t| && t[k] == STAR && t[k + 1] == SLASH
  }

  type Gap = seq<Filler>

  function GapText(g: Gap): seq<Byte> {
    if g == [] then [] else FillerText(g[0]) + GapText(g[1..])
  }

  ghost predicate GapOk(g: Gap, comments: bool) {
    forall i :: 0 <= i < |g| ==> FillerOk(g[i], comments)
  }

  predicate EndsInBlock(g: Gap) {
    g != [] && g[|g| - 1].Block?
  }

  // Where a gap can end.
  predicate GapEnds(str: seq<Byte>, i: nat, comments: bool) {
    !IsSpace(Peek(str, i)) && (comments ==> Peek(str, i) != SLASH)
  }

  lemma {:induction false} LineBack(str: seq<Byte>, i: nat, t: seq<Byte>)
    requires Sees(str, i, t + [NEWLINE]) && NEWLINE !in t
    ensures SkipLine(str, i) == Ok((), i + |t|)
    decreases |t|
  {
    SeesAt(str, i, t + [NEWLINE], 0);
    if t != [] {
      assert t + [NEWLINE] == [t[0]] + (t[1..] + [NEWLINE]);
      SeesBoth(str, i, [t[0]], t[1..] + [NEWLINE]);
      LineBack(str, i + 1, t[1..]);
    }
  }

  lemma {:induction false} BlockBack(str: seq<Byte>, i: nat, t: seq<Byte>)
    requires Sees(str, i, t + [STAR, SLASH]) && (forall k :: 0 <= k < |t| ==> !EndsAt(t + [STAR, SLASH], k)) && i + |t| + 2 < |str|
    ensures SkipBlock(str, i) == Ok((), i + |t| + 2)
    decreases |t|
  {
    var all := t + [STAR, SLASH];
    SeesAt(str, i, all, 0);
    SeesAt(str, i, all, 1);
    if t != [] {
      assert !EndsAt(all, 0);
      var rest := t[1..] + [STAR, SLASH];
      assert all == [t[0]] + rest;
      SeesBoth(str, i, [t[0]], rest);
      forall k | 0 <= k < |t| - 1 ensures !EndsAt(rest, k) {
        assert !EndsAt(all, k + 1);
      }
      BlockBack(str, i + 1, t[1..]);
    }
  }

  lemma SpaceSkipped(str: seq<Byte>, i: nat, comments: bool)
    requires i < |str| && IsSpace(str[i])
    ensures SkipGarbage(str, i, comments) == SkipGarbage(str, i + 1, comments)
  {
  }

  /** A gap is skipped as a whole. */
  lemma {:induction false} GapBack(str: seq<Byte>, i: nat, g: Gap, comments: bool)
    requires Sees(str, i, GapText(g)) && GapOk(g, comments) && GapEnds(str, i + |GapText(g)|, comments)
    requires EndsInBlock(g) ==> i + |GapText(g)| < |str|
    ensures SkipGarbage(str, i, comments) == Ok((), i + |GapText(g)|)
    decreases |g|
  {
    hide SkipGarbage, FillerText, FillerOk, GapEnds, Peek, Sees;
    SeesInside(str, i, GapText(g));
    if g == [] {
      NoGap(str, i, comments);
    } else {
      var f, rest := g[0], g[1..];
      SeesBoth(str, i, FillerText(f), GapText(rest));
      GapBack(str, i + |FillerText(f)|, rest, comments);
      RestFollows(g);
      FillerBack(str, i, f, comments);
    }
  }

  lemma NoGap(str: seq<Byte>, i: nat, comments: bool)
    requires i <= |str| && GapEnds(str, i, comments)
    ensures SkipGarbage(str, i, comments) == Ok((), i)
  {
  }

  lemma CommentSkipped(str: seq<Byte>, i: nat)
    requires i < |str| && str[i] == SLASH && SkipComment(str, i).Ok?
    ensures SkipComment(str, i).v && SkipGarbage(str, i, true) == SkipGarbage(str, SkipComment(str, i).i, true)
  {
    assert SkipSpace(str, i) == i;
  }

  lemma NotEmpty(f: Filler)
    ensures FillerText(f) != []
  {
  }

  lemma SeesInside(str: seq<Byte>, i: nat, text: seq<Byte>)
    requires Sees(str, i, text)
    ensures i + |text| <= |str|
  {
  }

  lemma RestFollows(g: Gap)
    requires g != []
    ensures g[0].Block? && !EndsInBlock(g) ==> GapText(g[1..]) != []
  {
    if |g| > 1 {
      assert FillerText(g[1]) != [];
    }
  }

  lemma FillerBack(str: seq<Byte>, i: nat, f: Filler, comments: bool)
    requires Sees(str, i, FillerText(f)) && FillerOk(f, comments) && (f.Block? ==> i + |FillerText(f)| < |str|)
    ensures SkipGarbage(str, i, comments) == SkipGarbage(str, i + |FillerText(f)|, comments)
  {
    match f
    case Space(b) => {
      SeesAt(str, i, FillerText(f), 0);
      SpaceSkipped(str, i, comments);
    }
    case Line(t) => LineSkipped(str, i, t);
    case Block(t) => BlockSkipped(str, i, t);
  }

  lemma LineSkipped(str: seq<Byte>, i: nat, t: seq<Byte>)
    requires Sees(str, i, FillerText(Line(t))) && NEWLINE !in t
    ensures SkipGarbage(str, i, true) == SkipGarbage(str, i + |t| + 3, true)
  {
    hide SkipGarbage;
    var all := FillerText(Line(t));
    SeesAt(str, i, all, 0);
    SeesAt(str, i, all, 1);
    assert all == [SLASH, SLASH] + (t + [NEWLINE]);
    SeesBoth(str, i, [SLASH, SLASH], t + [NEWLINE]);
    LineBack(str, i + 2, t);
    CommentSkipped(str, i);
    SeesAt(str, i + 2, t + [NEWLINE], |t|);
    SpaceSkipped(str, i + 2 + |t|, true);
  }

  lemma BlockSkipped(str: seq<Byte>, i: nat, t: seq<Byte>)
    requires Sees(str, i, FillerText(Block(t))) && FillerOk(Block(t), true) && i + |t| + 4 < |str|
    ensures SkipGarbage(str, i, true) == SkipGarbage(str, i + |t| + 4, true)
  {
    hide SkipGarbage;
    var all := FillerText(Block(t));
    SeesAt(str, i, all, 0);
    SeesAt(str, i, all, 1);
    assert all == [SLASH, STAR] + (t + [STAR, SLASH]);
    SeesBoth(str, i, [SLASH, STAR], t + [STAR, SLASH]);
    BlockBack(str, i + 2, t);
    CommentSkipped(str, i);
  }

  lemma {:induction false} LineFrom(str: seq<Byte>, i: nat) returns (t: seq<Byte>)
    requires i <= |str| && SkipLine(str, i).Ok?
    ensures Sees(str, i, t + [NEWLINE]) && NEWLINE !in t && SkipLine(str, i).i == i + |t|
    decreases |str| - i
  {
    if str[i] == NEWLINE {
      t := [];
      SeesOne(str, i, NEWLINE);
      assert t + [NEWLINE] == [NEWLINE];
    } else {
      var rest := LineFrom(str, i + 1);
      t := [str[i]] + rest;
      SeesOne(str, i, str[i]);
      SeesBoth(str, i, [str[i]], rest + [NEWLINE]);
      assert t + [NEWLINE] == [str[i]] + (rest + [NEWLINE]);
    }
  }

  lemma {:induction false} BlockFrom(str: seq<Byte>, i: nat) returns (t: seq<Byte>)
    requires i <= |str| && SkipBlock(str, i).Ok?
    ensures Sees(str, i, t + [STAR, SLASH]) && (forall k :: 0 <= k < |t| ==> !EndsAt(t + [STAR, SLASH], k))
    ensures SkipBlock(str, i).i == i + |t| + 2
    decreases |str| - i
  {
    if str[i] == STAR && str[i + 1] == SLASH {
      t := [];
      assert str[i..i + 2] == [STAR, SLASH] && t + [STAR, SLASH] == [STAR, SLASH];
    } else {
      var rest := BlockFrom(str, i + 1);
      t := [str[i]] + rest;
      SeesOne(str, i, str[i]);
      var end := rest + [STAR, SLASH];
      SeesBoth(str, i, [str[i]], end);
      assert t + [STAR, SLASH] == [str[i]] + end;
      SeesAt(str, i + 1, end, 0);
      forall k | 0 <= k < |t| ensures !EndsAt(t + [STAR, SLASH], k) {
        if k > 0 {
          assert !EndsAt(end, k - 1);
        }
      }
    }
  }

  /** What is skipped is a gap. */
  lemma {:induction false} GapFrom(str: seq<Byte>, i: nat, comments: bool) returns (g: Gap)
    requires i <= |str| && SkipGarbage(str, i, comments).Ok?
    ensures var end := SkipGarbage(str, i, comments).i;
      && Sees(str, i, GapText(g)) && GapOk(g, comments) && end == i + |GapText(g)| && GapEnds(str, end, comments)
      && (EndsInBlock(g) ==> end < |str|)
    decreases |str| - i, 1
  {
    hide SkipGarbage;
    if IsSpace(Peek(str, i)) {
      SpaceSkipped(str, i, comments);
      SeesOne(str, i, str[i]);
      g := GapMore(str, i, Space(str[i]), comments);
    } else if comments && Peek(str, i) == SLASH {
      var f := CommentFrom(str, i);
      FillerBack(str, i, f, comments);
      g := GapMore(str, i, f, comments);
    } else {
      NoGap(str, i, comments);
      g := [];
    }
  }

  lemma CommentFrom(str: seq<Byte>, i: nat) returns (f: Filler)
    requires i < |str| && str[i] == SLASH && SkipGarbage(str, i, true).Ok?
    ensures Sees(str, i, FillerText(f)) && FillerOk(f, true) && (f.Block? ==> i + |FillerText(f)| < |str|)
  {
    assert SkipSpace(str, i) == i;
    assert SkipComment(str, i).Ok?;
    hide SkipGarbage;
    if str[i + 1] == SLASH {
      var t := LineFrom(str, i + 2);
      assert str[i..i + 2] == [SLASH, SLASH];
      SeesBoth(str, i, [SLASH, SLASH], t + [NEWLINE]);
      f := Line(t);
      assert FillerText(f) == [SLASH, SLASH] + (t + [NEWLINE]);
    } else {
      var t := BlockFrom(str, i + 2);
      assert str[i..i + 2] == [SLASH, STAR];
      SeesBoth(str, i, [SLASH, STAR], t + [STAR, SLASH]);
      f := Block(t);
      assert FillerText(f) == [SLASH, STAR] + (t + [STAR, SLASH]);
    }
  }

  // A filler, and what comes after it.
  lemma {:induction false} GapMore(str: seq<Byte>, i: nat, f: Filler, comments: bool) returns (g: Gap)
    requires i <= |str| && Sees(str, i, FillerText(f)) && FillerOk(f, comments) && (f.Block? ==> i + |FillerText(f)| < |str|)
    requires SkipGarbage(str, i, comments) == SkipGarbage(str, i + |FillerText(f)|, comments) && SkipGarbage(str, i, comments).Ok?
    ensures var end := SkipGarbage(str, i, comments).i;
      && Sees(str, i, GapText(g)) && GapOk(g, comments) && end == i + |GapText(g)| && GapEnds(str, end, comments)
      && (EndsInBlock(g) ==> end < |str|)
    decreases |str| - i, 0
  {
    hide SkipGarbage, FillerText, FillerOk, GapEnds, Peek, Sees;
    NotEmpty(f);
    SeesInside(str, i, FillerText(f));
    var rest := GapFrom(str, i + |FillerText(f)|, comments);
    g := [f] + rest;
    assert g[1..] == rest;
    SeesBoth(str, i, FillerText(f), GapText(rest));
  }

  // ------------------------------------------------------------------
  // Strings
  // ------------------------------------------------------------------

  // A character as it is, an escape by a letter, and one by four hexadecimal digits.
  datatype Piece = Raw(b: Byte) | Escape(ch: Byte) | Code(digits: seq<Byte>)

  ghost predicate PieceOk(p: Piece) {
    match p
    case Raw(b) => b > 0x1F && b != QUOTE && b != BACKSLASH
    case Escape(ch) => ch != 117 && Letter(ch) != 0
    case Code(d) => |d| == 4 && IsHex(d[0]) && IsHex(d[1]) && IsHex(d[2]) && IsHex(d[3])
  }

  function PieceText(p: Piece): seq<Byte> {
    match p
    case Raw(b) => [b]
    case Escape(ch) => [BACKSLASH, ch]
    case Code(d) => [BACKSLASH, 117] + d
  }

  ghost predicate PiecesOk(ps: seq<Piece>) {
    forall i :: 0 <= i < |ps| ==> PieceOk(ps[i])
  }

  function PiecesText(ps: seq<Piece>): seq<Byte> {
    if ps == [] then [] else PieceText(ps[0]) + PiecesText(ps[1..])
  }

  // What a piece stands for: a byte, or a code unit of UTF-16.
  datatype Unit = Octet(b: Byte) | Utf16(code: nat)

  function UnitOf(p: Piece): (u: Unit)
    ensures u.Utf16? ==> u.code < 0x10000
  {
    match p
    case Raw(b) => Octet(b)
    case Escape(ch) => Octet(Letter(ch))
    case Code(d) =>
      if |d| == 4 && IsHex(d[0]) && IsHex(d[1]) && IsHex(d[2]) && IsHex(d[3]) then Utf16(Hex4(d, 0)) else Octet(0)
  }

  ghost predicate UnitsOk(us: seq<Unit>) {
    forall i :: 0 <= i < |us| && us[i].Utf16? ==> us[i].code < 0x10000
  }

  // Bytes as they are, and code units in UTF-8: a surrogate pair as one character, any other on its own.
  function Encoded(us: seq<Unit>): seq<Byte>
    requires UnitsOk(us)
  {
    if us == [] then []
    else if us[0].Octet? then [us[0].b] + Encoded(us[1..])
    else if |us| > 1 && us[1].Utf16? && IsLead(us[0].code) && IsTrail(us[1].code) then
      Utf8(Joined(us[0].code, us[1].code)) + Encoded(us[2..])
    else Utf8(us[0].code) + Encoded(us[1..])
  }

  function Units(ps: seq<Piece>): (us: seq<Unit>)
    ensures |us| == |ps| && UnitsOk(us)
  {
    if ps == [] then [] else [UnitOf(ps[0])] + Units(ps[1..])
  }

  // The code unit that is held back.
  function Held(last: int): (us: seq<Unit>)
    requires -1 <= last < 0x10000
    ensures UnitsOk(us)
  {
    if last < 0 then [] else [Utf16(last)]
  }

  predicate Pairs(us: seq<Unit>) {
    |us| > 1 && us[0].Utf16? && us[1].Utf16? && IsLead(us[0].code) && IsTrail(us[1].code)
  }

  function Joined(lead: int, trail: int): int {
    (lead - 0xD800) * 1024 + (trail - 0xDC00) + 0x10000
  }

  // How the encoding begins.
  lemma FirstEncoded(u: Unit, rest: seq<Unit>)
    requires UnitsOk([u] + rest) && UnitsOk(rest)
    ensures u.Octet? ==> Encoded([u] + rest) == [u.b] + Encoded(rest)
    ensures u.Utf16? ==> u.code < 0x10000
    ensures u.Utf16? && !Pairs([u] + rest) ==> Encoded([u] + rest) == Utf8(u.code) + Encoded(rest)
  {
    hide Utf8;
    var all := [u] + rest;
    assert all[0] == u && all[1..] == rest;
  }

  lemma PairEncoded(u: Unit, v: Unit, rest: seq<Unit>)
    requires UnitsOk([u, v] + rest) && UnitsOk(rest) && Pairs([u, v])
    ensures Joined(u.code, v.code) < 0x110000 && Encoded([u, v] + rest) == Utf8(Joined(u.code, v.code)) + Encoded(rest)
  {
    hide Utf8;
    var all := [u, v] + rest;
    assert all[0] == u && all[1] == v && all[2..] == rest;
  }

  // One step of the reader: what it puts out and what it holds back, for the next unit.
  lemma Defer(out: seq<Byte>, last: int, u: Unit, rest: seq<Unit>)
    requires -1 <= last < 0x10000 && UnitsOk([u] + rest) && UnitsOk(rest)
    ensures u.Octet? ==> out + Encoded(Held(last) + ([u] + rest)) == (out + Utf8(last) + [u.b]) + Encoded(Held(-1) + rest)
    ensures u.Utf16? && IsLead(last) && IsTrail(u.code) ==>
      out + Encoded(Held(last) + ([u] + rest)) == (out + Utf8(Joined(last, u.code))) + Encoded(Held(-1) + rest)
    ensures u.Utf16? && !(IsLead(last) && IsTrail(u.code)) ==>
      u.code < 0x10000 && out + Encoded(Held(last) + ([u] + rest)) == (out + Utf8(last)) + Encoded(Held(u.code) + rest)
  {
    hide Utf8, Encoded, UnitsOk;
    var more := [u] + rest;
    assert Held(-1) + rest == rest;
    FirstEncoded(u, rest);
    if last < 0 {
      assert Held(last) + more == more;
      NothingHeld(last);
      assert u.Utf16? ==> Held(u.code) + rest == more;
      assert out + [] == out;
      assert u.Octet? ==> out + ([u.b] + Encoded(rest)) == out + [u.b] + Encoded(rest);
    } else {
      DeferHeld(out, last, u, rest);
    }
  }

  lemma DeferHeld(out: seq<Byte>, last: nat, u: Unit, rest: seq<Unit>)
    requires last < 0x10000 && UnitsOk([u] + rest) && UnitsOk(rest)
    ensures UnitsOk([Utf16(last)] + ([u] + rest))
    ensures u.Octet? ==> out + Encoded([Utf16(last)] + ([u] + rest)) == (out + Utf8(last) + [u.b]) + Encoded(rest)
    ensures u.Utf16? && IsLead(last) && IsTrail(u.code) ==>
      out + Encoded([Utf16(last)] + ([u] + rest)) == (out + Utf8(Joined(last, u.code))) + Encoded(rest)
    ensures u.Utf16? && !(IsLead(last) && IsTrail(u.code)) ==>
      out + Encoded([Utf16(last)] + ([u] + rest)) == (out + Utf8(last)) + Encoded([u] + rest)
  {
    hide Utf8, Encoded, UnitsOk;
    var more := [u] + rest;
    HeldOk(last, u, rest);
    FirstEncoded(u, rest);
    FirstEncoded(Utf16(last), more);
    assert ([Utf16(last)] + more)[1] == u;
    if u.Utf16? && IsLead(last) && IsTrail(u.code) {
      assert [Utf16(last)] + more == [Utf16(last), u] + rest;
      PairEncoded(Utf16(last), u, rest);
      assert out + (Utf8(Joined(last, u.code)) + Encoded(rest)) == (out + Utf8(Joined(last, u.code))) + Encoded(rest);
    } else if u.Octet? {
      assert out + (Utf8(last) + ([u.b] + Encoded(rest))) == (out + Utf8(last) + [u.b]) + Encoded(rest);
    } else {
      assert out + (Utf8(last) + Encoded(more)) == (out + Utf8(last)) + Encoded(more);
    }
  }

  lemma HeldOk(last: nat, u: Unit, rest: seq<Unit>)
    requires last < 0x10000 && UnitsOk([u] + rest)
    ensures UnitsOk([Utf16(last)] + ([u] + rest)) && UnitsOk([Utf16(last), u] + rest)
  {
    assert [Utf16(last)] + ([u] + rest) == [Utf16(last), u] + rest;
    forall k | 0 <= k < |rest| + 2 && ([Utf16(last), u] + rest)[k].Utf16? ensures ([Utf16(last), u] + rest)[k].code < 0x10000 {
      if k > 0 {
        assert ([Utf16(last), u] + rest)[k] == ([u] + rest)[k - 1];
      }
    }
  }

  lemma NothingHeld(last: int)
    requires last < 0
    ensures Utf8(last) == []
  {
  }

  /** The pieces of a string and its closing quote are read as what they stand for. */
  lemma {:induction false} StringBack(str: seq<Byte>, i: nat, ps: seq<Piece>, out: seq<Byte>, last: int)
    requires Sees(str, i, PiecesText(ps) + [QUOTE]) && PiecesOk(ps) && -1 <= last < 0x10000
    ensures ParseString(str, i, out, last) == Ok(out + Encoded(Held(last) + Units(ps)), i + |PiecesText(ps)| + 1)
    decreases |ps|
  {
    hide Encoded, Utf8, Hex4, PieceOk, PieceText, UnitOf, ParseString, Sees;
    SeesBoth(str, i, PiecesText(ps), [QUOTE]);
    if ps == [] {
      StringEnds(str, i, out, last);
    } else {
      var p, rest := ps[0], ps[1..];
      assert PiecesText(ps) + [QUOTE] == PieceText(p) + (PiecesText(rest) + [QUOTE]);
      SeesBoth(str, i, PieceText(p), PiecesText(rest) + [QUOTE]);
      var out', last' := PieceBack(str, i, p, out, last, Units(rest));
      StringBack(str, i + |PieceText(p)|, rest, out', last');
    }
  }

  lemma StringEnds(str: seq<Byte>, i: nat, out: seq<Byte>, last: int)
    requires Sees(str, i, [] + [QUOTE]) && -1 <= last < 0x10000
    ensures i < |str| && ParseString(str, i, out, last) == Ok(out + Encoded(Held(last) + []), i + 1)
  {
    hide Utf8, Encoded;
    assert [] + [QUOTE] == [QUOTE];
    SeesOne(str, i, QUOTE);
    assert Held(last) + [] == Held(last);
    HeldEncoded(last);
  }

  lemma HeldEncoded(last: int)
    requires -1 <= last < 0x10000
    ensures Encoded(Held(last)) == Utf8(last)
  {
    hide Utf8;
    if last < 0 {
      NothingHeld(last);
    } else {
      assert Held(last)[1..] == [];
      assert Encoded(Held(last)) == Utf8(last) + [];
    }
  }

  lemma PieceBack(str: seq<Byte>, i: nat, p: Piece, out: seq<Byte>, last: int, rest: seq<Unit>) returns (out': seq<Byte>, last': int)
    requires Sees(str, i, PieceText(p)) && PieceOk(p) && -1 <= last < 0x10000 && UnitsOk(rest)
    ensures -1 <= last' < 0x10000 && i + |PieceText(p)| <= |str| && UnitsOk([UnitOf(p)] + rest)
    ensures ParseString(str, i, out, last) == ParseString(str, i + |PieceText(p)|, out', last')
    ensures out + Encoded(Held(last) + ([UnitOf(p)] + rest)) == out' + Encoded(Held(last') + rest)
  {
    hide Encoded, Utf8, Hex4;
    Defer(out, last, UnitOf(p), rest);
    SeesAt(str, i, PieceText(p), 0);
    match p
    case Raw(b) =>
      out', last' := out + Utf8(last) + [b], -1;
    case Escape(ch) =>
      SeesAt(str, i, PieceText(p), 1);
      out', last' := out + Utf8(last) + [Letter(ch)], -1;
    case Code(d) =>
      out', last' := CodeBack(str, i, d, out, last);
  }

  lemma CodeBack(str: seq<Byte>, i: nat, d: seq<Byte>, out: seq<Byte>, last: int) returns (out': seq<Byte>, last': int)
    requires Sees(str, i, [BACKSLASH, 117] + d) && PieceOk(Code(d)) && -1 <= last < 0x10000
    ensures -1 <= last' < 0x10000 && i + 6 <= |str|
    ensures ParseString(str, i, out, last) == ParseString(str, i + 6, out', last')
    ensures var code := Hex4(d, 0);
      if IsLead(last) && IsTrail(code) then out' == out + Utf8(Joined(last, code)) && last' == -1
      else out' == out + Utf8(last) && last' == code
  {
    hide Utf8;
    var text := [BACKSLASH, 117] + d;
    SeesAt(str, i, text, 0);
    SeesAt(str, i, text, 1);
    SeesAt(str, i, text, 2);
    SeesAt(str, i, text, 3);
    SeesAt(str, i, text, 4);
    SeesAt(str, i, text, 5);
    var code := Hex4(d, 0);
    assert Hex4(str, i + 2) == code;
    if IsLead(last) && IsTrail(code) {
      out', last' := out + Utf8(Joined(last, code)), -1;
    } else {
      out', last' := out + Utf8(last), code;
    }
  }

  /** What is read as a string is pieces and a closing quote. */
  lemma {:induction false} StringFrom(str: seq<Byte>, i: nat, out: seq<Byte>, last: int) returns (ps: seq<Piece>)
    requires i <= |str| && -1 <= last < 0x10000 && ParseString(str, i, out, last).Ok?
    ensures Sees(str, i, PiecesText(ps) + [QUOTE]) && PiecesOk(ps)
    decreases |str| - i
  {
    hide Utf8, PieceText, PieceOk, ParseString;
    NotAtEnd(str, i, out, last);
    if str[i] == QUOTE {
      ps := [];
      SeesOne(str, i, QUOTE);
      assert PiecesText(ps) + [QUOTE] == [QUOTE];
    } else {
      var p := PieceFrom(str, i, out, last);
      var out', last' := NextHeld(str, i, p, out, last);
      var rest := StringFrom(str, i + |PieceText(p)|, out', last');
      ps := [p] + rest;
      assert ps[1..] == rest;
      SeesBoth(str, i, PieceText(p), PiecesText(rest) + [QUOTE]);
      assert PiecesText(ps) + [QUOTE] == PieceText(p) + (PiecesText(rest) + [QUOTE]);
    }
  }

  lemma NotAtEnd(str: seq<Byte>, i: nat, out: seq<Byte>, last: int)
    requires i <= |str| && -1 <= last < 0x10000 && ParseString(str, i, out, last).Ok?
    ensures i < |str|
  {
  }

  lemma NextHeld(str: seq<Byte>, i: nat, p: Piece, out: seq<Byte>, last: int) returns (out': seq<Byte>, last': int)
    requires Sees(str, i, PieceText(p)) && PieceOk(p) && -1 <= last < 0x10000
    ensures -1 <= last' < 0x10000 && i + |PieceText(p)| <= |str| && PieceText(p) != []
    ensures ParseString(str, i, out, last) == ParseString(str, i + |PieceText(p)|, out', last')
  {
    hide ParseString, Encoded, PieceOk;
    out', last' := PieceBack(str, i, p, out, last, []);
  }

  lemma PieceFrom(str: seq<Byte>, i: nat, out: seq<Byte>, last: int) returns (p: Piece)
    requires i < |str| && str[i] != QUOTE && -1 <= last < 0x10000 && ParseString(str, i, out, last).Ok?
    ensures Sees(str, i, PieceText(p)) && PieceOk(p)
  {
    hide Utf8;
    if str[i] != BACKSLASH {
      p := Raw(str[i]);
      SeesOne(str, i, str[i]);
    } else if str[i + 1] == 117 {
      p := Code(str[i + 2..i + 6]);
      assert str[i..i + 6] == [BACKSLASH, 117] + str[i + 2..i + 6];
    } else {
      p := Escape(str[i + 1]);
      assert str[i..i + 2] == [BACKSLASH, str[i + 1]];
    }
  }

  // ------------------------------------------------------------------
  // Numbers
  // ------------------------------------------------------------------

  // A sign, digits, and perhaps a fraction and an exponent.
  datatype Num = Num(neg: bool, whole: seq<Byte>, frac: seq<Byte>, exp: seq<Byte>)

  predicate AreDigits(d: seq<Byte>) {
    d != [] && forall i :: 0 <= i < |d| ==> IsDigit(d[i])
  }

  predicate FracOk(f: seq<Byte>) {
    f != [] ==> f[0] == POINT && AreDigits(f[1..])
  }

  predicate ExpOk(e: seq<Byte>) {
    e != [] ==> (e[0] == 101 || e[0] == 69) && (AreDigits(e[1..]) || (|e| > 1 && (e[1] == 43 || e[1] == MINUS) && AreDigits(e[2..])))
  }

  predicate NumOk(n: Num) {
    AreDigits(n.whole) && (n.whole[0] == ZERO ==> |n.whole| == 1) && FracOk(n.frac) && ExpOk(n.exp)
  }

  function SignText(n: Num): seq<Byte> {
    if n.neg then [MINUS] else []
  }

  function NumText(n: Num): seq<Byte> {
    SignText(n) + (n.whole + (n.frac + n.exp))
  }

  function NumValue(n: Num): Value {
    if n.frac == [] && n.exp == [] && |NumText(n)| <= 9 then Int(Atoi(NumText(n))) else Float(NumText(n))
  }

  // What can come after a number.
  predicate Follows(ch: Byte) {
    !IsDigit(ch) && ch != POINT && ch != 101 && ch != 69
  }

  lemma {:induction false} DigitsBack(str: seq<Byte>, i: nat, d: seq<Byte>)
    requires Sees(str, i, d) && (forall k :: 0 <= k < |d| ==> IsDigit(d[k])) && !IsDigit(Peek(str, i + |d|))
    ensures SkipDigits(str, i) == i + |d|
    decreases |d|
  {
    if d != [] {
      SeesAt(str, i, d, 0);
      assert d == [d[0]] + d[1..];
      SeesBoth(str, i, [d[0]], d[1..]);
      DigitsBack(str, i + 1, d[1..]);
    }
  }

  lemma {:induction false} DigitsFrom(str: seq<Byte>, i: nat) returns (d: seq<Byte>)
    requires i <= |str|
    ensures Sees(str, i, d) && SkipDigits(str, i) == i + |d| && forall k :: 0 <= k < |d| ==> IsDigit(d[k])
    decreases |str| - i
  {
    if IsDigit(Peek(str, i)) {
      var rest := DigitsFrom(str, i + 1);
      d := [str[i]] + rest;
      SeesOne(str, i, str[i]);
      SeesBoth(str, i, [str[i]], rest);
    } else {
      d := [];
    }
  }

  lemma IntBack(str: seq<Byte>, i: nat, d: seq<Byte>)
    requires Sees(str, i, d) && AreDigits(d) && (d[0] == ZERO ==> |d| == 1) && !IsDigit(Peek(str, i + |d|))
    ensures i <= |str| && IntegerPart(str, i) == Ok((), i + |d|)
  {
    SeesAt(str, i, d, 0);
    if d[0] != ZERO {
      assert d == [d[0]] + d[1..];
      SeesBoth(str, i, [d[0]], d[1..]);
      DigitsBack(str, i + 1, d[1..]);
    }
  }

  lemma IntFrom(str: seq<Byte>, i: nat) returns (d: seq<Byte>)
    requires i <= |str| && IntegerPart(str, i).Ok?
    ensures Sees(str, i, d) && AreDigits(d) && (d[0] == ZERO ==> |d| == 1) && IntegerPart(str, i).i == i + |d|
  {
    SeesOne(str, i, str[i]);
    if str[i] == ZERO {
      d := [ZERO];
    } else {
      var rest := DigitsFrom(str, i + 1);
      d := [str[i]] + rest;
      SeesBoth(str, i, [str[i]], rest);
    }
  }

  lemma FracBack(str: seq<Byte>, i: nat, f: seq<Byte>)
    requires Sees(str, i, f) && FracOk(f) && !IsDigit(Peek(str, i + |f|)) && (f == [] ==> Peek(str, i) != POINT)
    ensures i <= |str| && Fraction(str, i) == Ok((), i + |f|)
  {
    if f != [] {
      SeesAt(str, i, f, 0);
      SeesAt(str, i, f, 1);
      assert f == [f[0]] + f[1..];
      SeesBoth(str, i, [f[0]], f[1..]);
      DigitsBack(str, i + 1, f[1..]);
    }
  }

  lemma FracFrom(str: seq<Byte>, i: nat) returns (f: seq<Byte>)
    requires i <= |str| && Fraction(str, i).Ok?
    ensures Sees(str, i, f) && FracOk(f) && Fraction(str, i).i == i + |f| && (f == [] <==> Peek(str, i) != POINT)
  {
    if Peek(str, i) == POINT {
      var d := DigitsFrom(str, i + 1);
      f := [POINT] + d;
      SeesOne(str, i, POINT);
      SeesBoth(str, i, [POINT], d);
      assert f[1..] == d;
    } else {
      f := [];
    }
  }

  predicate IsE(ch: Byte) {
    ch == 101 || ch == 69
  }

  lemma ExpBack(str: seq<Byte>, i: nat, e: seq<Byte>)
    requires Sees(str, i, e) && ExpOk(e) && !IsDigit(Peek(str, i + |e|)) && (e == [] ==> !IsE(Peek(str, i)))
    ensures i <= |str| && Exponent(str, i) == Ok((), i + |e|)
  {
    if e != [] {
      SeesAt(str, i, e, 0);
      SeesAt(str, i, e, 1);
      var k := if AreDigits(e[1..]) then 1 else 2;
      SeesAt(str, i, e, k);
      assert e == e[..k] + e[k..];
      SeesBoth(str, i, e[..k], e[k..]);
      assert e[1..][0] == e[1];
      DigitsBack(str, i + k, e[k..]);
    }
  }

  lemma ExpFrom(str: seq<Byte>, i: nat) returns (e: seq<Byte>)
    requires i <= |str| && Exponent(str, i).Ok?
    ensures Sees(str, i, e) && ExpOk(e) && Exponent(str, i).i == i + |e| && (e == [] <==> !IsE(Peek(str, i)))
  {
    if IsE(Peek(str, i)) {
      var sign := Peek(str, i + 1) == 43 || Peek(str, i + 1) == MINUS;
      var k := if sign then 2 else 1;
      var d := DigitsFrom(str, i + k);
      e := str[i..i + k] + d;
      assert Sees(str, i, str[i..i + k]);
      SeesBoth(str, i, str[i..i + k], d);
      assert e[k..] == d;
    } else {
      e := [];
    }
  }

  /** A number is read as a whole, up to what cannot go on with it. */
  lemma NumBack(str: seq<Byte>, i: nat, n: Num)
    requires Sees(str, i, NumText(n)) && NumOk(n) && Follows(Peek(str, i + |NumText(n)|))
    ensures i <= |str| && ParseNumber(str, i) == Ok(NumValue(n), i + |NumText(n)|)
  {
    hide SkipDigits, IntegerPart, Fraction, Exponent, Atoi, Sees;
    var j := i + |SignText(n)|;
    var k := j + |n.whole|;
    SeesBoth(str, i, SignText(n), n.whole + (n.frac + n.exp));
    SeesBoth(str, j, n.whole, n.frac + n.exp);
    SeesBoth(str, k, n.frac, n.exp);
    NumSign(str, i, n);
    NumJoints(str, k, n);
    IntBack(str, j, n.whole);
    FracBack(str, k, n.frac);
    ExpBack(str, k + |n.frac|, n.exp);
    NumSlice(str, i, NumText(n));
    NumEnd(str, k, n);
  }

  lemma NumSlice(str: seq<Byte>, i: nat, text: seq<Byte>)
    requires Sees(str, i, text)
    ensures i + |text| <= |str| && str[i..i + |text|] == text
  {
  }

  lemma NumSign(str: seq<Byte>, i: nat, n: Num)
    requires NumOk(n) && Sees(str, i, SignText(n)) && Sees(str, i + |SignText(n)|, n.whole)
    ensures (if Peek(str, i) == MINUS then i + 1 else i) == i + |SignText(n)|
  {
    SeesAt(str, i + |SignText(n)|, n.whole, 0);
    if n.neg {
      SeesOne(str, i, MINUS);
    }
  }

  // What comes after the digits, and after the fraction.
  lemma NumJoints(str: seq<Byte>, k: nat, n: Num)
    requires NumOk(n) && Sees(str, k, n.frac) && Sees(str, k + |n.frac|, n.exp) && Follows(Peek(str, k + |n.frac| + |n.exp|))
    ensures !IsDigit(Peek(str, k)) && (n.frac == [] ==> Peek(str, k) != POINT)
    ensures !IsDigit(Peek(str, k + |n.frac|)) && (n.exp == [] ==> !IsE(Peek(str, k + |n.frac|)))
    ensures !IsDigit(Peek(str, k + |n.frac| + |n.exp|))
  {
    if n.frac != [] {
      SeesAt(str, k, n.frac, 0);
    }
    if n.exp != [] {
      SeesAt(str, k + |n.frac|, n.exp, 0);
    }
  }

  // A number without fraction and exponent shows it.
  lemma NumEnd(str: seq<Byte>, k: nat, n: Num)
    requires NumOk(n) && Sees(str, k, n.frac) && Sees(str, k + |n.frac|, n.exp) && Follows(Peek(str, k + |n.frac| + |n.exp|))
    ensures n.frac == [] && n.exp == [] <==> Peek(str, k) != POINT && Peek(str, k) != 101 && Peek(str, k) != 69
  {
    if n.frac != [] {
      SeesAt(str, k, n.frac, 0);
    } else if n.exp != [] {
      SeesAt(str, k, n.exp, 0);
    }
  }

  predicate IsWhole(str: seq<Byte>, i: nat, k: nat) {
    Peek(str, k) != POINT && !IsE(Peek(str, k)) && k - i <= 9
  }

  // The parts of a number, where they are.
  lemma NumParts(str: seq<Byte>, i: nat) returns (n: Num)
    requires i <= |str| && ParseNumber(str, i).Ok?
    ensures var j := i + |SignText(n)|; var k := j + |n.whole|; var l := k + |n.frac|;
      && NumOk(n) && Sees(str, i, SignText(n)) && Sees(str, j, n.whole) && Sees(str, k, n.frac) && Sees(str, l, n.exp)
      && j == (if Peek(str, i) == MINUS then i + 1 else i) <= |str| && IntegerPart(str, j).Ok? && IntegerPart(str, j).i == k
      && (IsWhole(str, i, k) ==> n.frac == [] && n.exp == [])
      && (!IsWhole(str, i, k) ==> Fraction(str, k).Ok? && Fraction(str, k).i == l && Exponent(str, l).Ok? && Exponent(str, l).i == l + |n.exp|)
      && (n.frac == [] && n.exp == [] ==> Peek(str, k) != POINT && !IsE(Peek(str, k)))
  {
    hide SkipDigits, IntegerPart, Exponent, Fraction, Atoi, Sees, AreDigits, Peek;
    var neg := Peek(str, i) == MINUS;
    var j := if neg then i + 1 else i;
    var d := IntFrom(str, j);
    var k := j + |d|;
    if IsWhole(str, i, k) {
      n := Num(neg, d, [], []);
      SeesNothing(str, k);
    } else {
      var f := FracFrom(str, k);
      var e := ExpFrom(str, k + |f|);
      n := Num(neg, d, f, e);
    }
    SignSeen(str, i, n);
  }

  lemma SeesNothing(str: seq<Byte>, i: nat)
    requires i <= |str|
    ensures Sees(str, i, [])
  {
  }

  lemma SignSeen(str: seq<Byte>, i: nat, n: Num)
    requires i <= |str| && n.neg == (Peek(str, i) == MINUS)
    ensures Sees(str, i, SignText(n))
  {
    if n.neg {
      SeesOne(str, i, MINUS);
    }
  }

  /** What is read as a number is one. */
  lemma NumFrom(str: seq<Byte>, i: nat) returns (n: Num)
    requires i <= |str| && ParseNumber(str, i).Ok?
    ensures NumOk(n) && Sees(str, i, NumText(n)) && ParseNumber(str, i) == Ok(NumValue(n), i + |NumText(n)|)
  {
    hide SkipDigits, IntegerPart, Exponent, Fraction, Atoi, Sees, NumOk, Peek;
    n := NumParts(str, i);
    var j := i + |SignText(n)|;
    var k := j + |n.whole|;
    SeesBoth(str, k, n.frac, n.exp);
    SeesBoth(str, j, n.whole, n.frac + n.exp);
    SeesBoth(str, i, SignText(n), n.whole + (n.frac + n.exp));
    NumSlice(str, i, NumText(n));
    assert n.frac == [] && n.exp == [] ==> n.whole + (n.frac + n.exp) == n.whole;
  }

  // ------------------------------------------------------------------
  // Values
  // ------------------------------------------------------------------

  datatype Syn =
    | Word(v: Value)
    | Number(n: Num)
    | Text(ps: seq<Piece>)
    | NoItems(g: Gap)
    | Items(items: seq<Item>)
    | NoEntries(g: Gap)
    | Entries(entries: seq<Entry>)

  datatype Item = Item(before: Gap, value: Syn, after: Gap)

  datatype Entry = Entry(before: Gap, key: seq<Piece>, middle: Gap, inner: Gap, value: Syn, after: Gap)

  function WordText(v: Value): seq<Byte> {
    match v
    case Bool(b) => if b then [116, 114, 117, 101] else [102, 97, 108, 115, 101]
    case _ => [110, 117, 108, 108]
  }

  function SynText(s: Syn): seq<Byte> {
    match s
    case Word(v) => WordText(v)
    case Number(n) => NumText(n)
    case Text(ps) => [QUOTE] + (PiecesText(ps) + [QUOTE])
    case NoItems(g) => [OPEN_ARRAY] + (GapText(g) + [CLOSE_ARRAY])
    case Items(items) => [OPEN_ARRAY] + ItemsText(items)
    case NoEntries(g) => [OPEN_OBJECT] + (GapText(g) + [CLOSE_OBJECT])
    case Entries(entries) => [OPEN_OBJECT] + EntriesText(entries)
  }

  // Items with commas between them, and the closing bracket.
  function ItemsText(items: seq<Item>): seq<Byte> {
    if items == [] then [CLOSE_ARRAY]
    else
      (GapText(items[0].before) + SynText(items[0].value)) +
      ((GapText(items[0].after) + [if |items| > 1 then COMMA else CLOSE_ARRAY]) + (if |items| > 1 then ItemsText(items[1..]) else []))
  }

  function EntriesText(entries: seq<Entry>): seq<Byte> {
    if entries == [] then [QUOTE] else (GapText(entries[0].before) + [QUOTE]) + TailText(entries)
  }

  // The same, from the first key on.
  function TailText(entries: seq<Entry>): seq<Byte>
    decreases entries, 0
  {
    if entries == [] then []
    else
      (PiecesText(entries[0].key) + [QUOTE]) + ((GapText(entries[0].middle) + [COLON]) +
      ((GapText(entries[0].inner) + SynText(entries[0].value)) +
      ((GapText(entries[0].after) + [if |entries| > 1 then COMMA else CLOSE_OBJECT]) +
      (if |entries| > 1 then (GapText(entries[1].before) + [QUOTE]) + TailText(entries[1..]) else []))))
  }

  ghost predicate SynOk(s: Syn, comments: bool) {
    match s
    case Word(v) => v.Null? || v.Bool?
    case Number(n) => NumOk(n)
    case Text(ps) => PiecesOk(ps)
    case NoItems(g) => GapOk(g, comments)
    case Items(items) => items != [] && ItemsOk(items, comments)
    case NoEntries(g) => GapOk(g, comments)
    case Entries(entries) => entries != [] && EntriesOk(entries, comments)
  }

  ghost predicate ItemsOk(items: seq<Item>, comments: bool) {
    items != [] ==>
      && GapOk(items[0].before, comments) && SynOk(items[0].value, comments) && GapOk(items[0].after, comments)
      && ItemsOk(items[1..], comments)
  }

  ghost predicate EntriesOk(entries: seq<Entry>, comments: bool) {
    entries != [] ==>
      && GapOk(entries[0].before, comments) && PiecesOk(entries[0].key) && GapOk(entries[0].middle, comments)
      && GapOk(entries[0].inner, comments) && SynOk(entries[0].value, comments) && GapOk(entries[0].after, comments)
      && EntriesOk(entries[1..], comments)
  }

  function SynValue(s: Syn): Value {
    match s
    case Word(v) => v
    case Number(n) => NumValue(n)
    case Text(ps) => Str(Encoded(Units(ps)))
    case NoItems(_) => Array([])
    case Items(items) => Array(ItemsValue(items))
    case NoEntries(_) => Object([])
    case Entries(entries) => Object(EntriesValue(entries, []))
  }

  function ItemsValue(items: seq<Item>): seq<Value> {
    if items == [] then [] else [SynValue(items[0].value)] + ItemsValue(items[1..])
  }

  // A later member with the same key takes the place of an earlier one.
  function EntriesValue(entries: seq<Entry>, acc: seq<Member>): seq<Member> {
    if entries == [] then acc
    else EntriesValue(entries[1..], Put(acc, Encoded(Units(entries[0].key)), SynValue(entries[0].value)))
  }

  // How deep values are nested.
  function SynDepth(s: Syn): nat {
    match s
    case Items(items) => ItemsDepth(items)
    case Entries(entries) => EntriesDepth(entries)
    case _ => 0
  }

  function ItemsDepth(items: seq<Item>): nat {
    if items == [] then 0 else Max(1 + SynDepth(items[0].value), ItemsDepth(items[1..]))
  }

  function EntriesDepth(entries: seq<Entry>): nat {
    if entries == [] then 0 else Max(1 + SynDepth(entries[0].value), EntriesDepth(entries[1..]))
  }

  // --- tokens ---

  predicate IsToken(ch: Byte) {
    !IsSpace(ch) && ch != SLASH
  }

  lemma TokenBack(str: seq<Byte>, i: nat, g: Gap, ch: Byte, comments: bool)
    requires Sees(str, i, GapText(g) + [ch]) && GapOk(g, comments) && IsToken(ch)
    ensures i <= |str| && NextToken(str, i, comments) == Ok(ch, i + |GapText(g)| + 1)
  {
    hide SkipGarbage, GapText, GapOk;
    SeesBoth(str, i, GapText(g), [ch]);
    SeesOne(str, i + |GapText(g)|, ch);
    GapBack(str, i, g, comments);
  }

  lemma TokenFrom(str: seq<Byte>, i: nat, comments: bool) returns (g: Gap)
    requires i <= |str| && NextToken(str, i, comments).Ok?
    ensures var t := NextToken(str, i, comments);
      && Sees(str, i, GapText(g) + [t.v]) && GapOk(g, comments) && t.i == i + |GapText(g)| + 1 && GapEnds(str, t.i - 1, comments)
  {
    hide SkipGarbage, GapOk, GapText, Sees;
    g := GapFrom(str, i, comments);
    var t := NextToken(str, i, comments);
    SeesOne(str, t.i - 1, t.v);
    SeesBoth(str, i, GapText(g), [t.v]);
  }

  lemma TokenAgain(str: seq<Byte>, i: nat, comments: bool)
    requires i < |str| && GapEnds(str, i, comments)
    ensures NextToken(str, i, comments) == Ok(str[i], i + 1)
  {
    NoGap(str, i, comments);
  }

  // A value does not care where the gap before it begins.
  lemma SameStart(str: seq<Byte>, i: nat, j: nat, depth: nat, comments: bool)
    requires i <= |str| && j <= |str| && NextToken(str, i, comments) == NextToken(str, j, comments)
    ensures ParseValue(str, i, depth, comments) == ParseValue(str, j, depth, comments)
  {
    hide NextToken, ParseItems, ParseMembers, ParseNumber, ParseString, Expect;
  }

  lemma SameItems(str: seq<Byte>, i: nat, j: nat, acc: seq<Value>, depth: nat, comments: bool)
    requires i <= |str| && j <= |str| && NextToken(str, i, comments) == NextToken(str, j, comments)
    ensures ParseItems(str, i, acc, depth, comments) == ParseItems(str, j, acc, depth, comments)
  {
    hide ParseValue;
    SameStart(str, i, j, depth + 1, comments);
  }

  lemma {:induction false} FirstOfText(s: Syn, comments: bool)
    requires SynOk(s, comments)
    ensures SynText(s) != [] && IsToken(SynText(s)[0])
  {
    if s.Number? && !s.n.neg {
      assert NumText(s.n)[0] == s.n.whole[0];
    }
  }

  // What comes after a value ends it.
  lemma AfterValue(str: seq<Byte>, i: nat, g: Gap, ch: Byte, comments: bool)
    requires Sees(str, i, GapText(g) + [ch]) && GapOk(g, comments) && ch in [COMMA, CLOSE_ARRAY, CLOSE_OBJECT]
    ensures Follows(Peek(str, i))
  {
    SeesAt(str, i, GapText(g) + [ch], 0);
    if g != [] {
      assert (GapText(g) + [ch])[0] == FillerText(g[0])[0] by {
        NotEmpty(g[0]);
      }
      assert FillerOk(g[0], comments);
    }
  }

  // --- every text of the grammar is read ---

  /** A value of the grammar, after a gap, is read as what it stands for. */
  lemma {:induction false} ValueBack(str: seq<Byte>, i: nat, g: Gap, s: Syn, depth: nat, comments: bool)
    requires Sees(str, i, GapText(g) + SynText(s)) && GapOk(g, comments) && SynOk(s, comments)
    requires depth + SynDepth(s) <= MAX_DEPTH && Follows(Peek(str, i + |GapText(g)| + |SynText(s)|))
    ensures i <= |str| && ParseValue(str, i, depth, comments) == Ok(SynValue(s), i + |GapText(g)| + |SynText(s)|)
    decreases s, 2
  {
    hide ParseValue, NextToken, Sees, GapText, GapOk, Encoded, SynText, SynOk;
    var e := i + |GapText(g)|;
    ValueStarts(str, i, g, s, comments);
    AtomText(s, comments);
    match s
    case NoItems(h) => EmptyBack(str, i, e, s, h, OPEN_ARRAY, CLOSE_ARRAY, depth, comments);
    case NoEntries(h) => EmptyBack(str, i, e, s, h, OPEN_OBJECT, CLOSE_OBJECT, depth, comments);
    case Items(items) => ArrayBack(str, i, e, items, depth, comments);
    case Entries(entries) => ObjectBack(str, i, e, entries, depth, comments);
    case Word(v) => WordBack(str, i, e, v, depth, comments);
    case Number(n) => NumberBack(str, i, e, n, depth, comments);
    case Text(ps) => TextBack(str, i, e, ps, depth, comments);
  }

  lemma {:induction false} ArrayBack(str: seq<Byte>, i: nat, e: nat, items: seq<Item>, depth: nat, comments: bool)
    requires i <= |str| && e < |str| && SynOk(Items(items), comments) && depth + ItemsDepth(items) <= MAX_DEPTH
    requires var text := SynText(Items(items)); text != [] && Sees(str, e + 1, text[1..]) && NextToken(str, i, comments) == Ok(text[0], e + 1)
    ensures ParseValue(str, i, depth, comments) == Ok(SynValue(Items(items)), e + |SynText(Items(items))|)
    decreases items, 2
  {
    hide ParseValue, ParseItems, NextToken, Sees, SynText, SynOk, ItemsText, ItemsOk;
    ArrayText(items, comments);
    ItemsBack(str, e + 1, items, [], depth, comments);
    FirstItem(str, e + 1, items, comments);
    OpenArray(str, i, e, depth, comments);
    assert [] + ItemsValue(items) == ItemsValue(items);
  }

  lemma {:induction false} ObjectBack(str: seq<Byte>, i: nat, e: nat, entries: seq<Entry>, depth: nat, comments: bool)
    requires i <= |str| && e < |str| && SynOk(Entries(entries), comments) && depth + EntriesDepth(entries) <= MAX_DEPTH
    requires var text := SynText(Entries(entries)); text != [] && Sees(str, e + 1, text[1..]) && NextToken(str, i, comments) == Ok(text[0], e + 1)
    ensures ParseValue(str, i, depth, comments) == Ok(SynValue(Entries(entries)), e + |SynText(Entries(entries))|)
    decreases entries, 2
  {
    hide ParseValue, ParseMembers, NextToken, Sees, SynText, SynOk, TailText, EntriesOk, GapText, GapOk;
    ObjectText(entries, comments);
    var b := GapText(entries[0].before) + [QUOTE];
    SeesBoth(str, e + 1, b, TailText(entries));
    TokenBack(str, e + 1, entries[0].before, QUOTE, comments);
    EntriesBack(str, e + 1 + |b|, entries, [], depth, comments);
    OpenObject(str, i, e, depth, comments);
  }

  lemma AtomText(s: Syn, comments: bool)
    requires SynOk(s, comments)
    ensures s.Word? ==> SynText(s) == WordText(s.v) && (s.v.Null? || s.v.Bool?)
    ensures s.Number? ==> SynText(s) == NumText(s.n) && NumOk(s.n)
    ensures s.Text? ==> PiecesOk(s.ps) && SynText(s) != [] && SynText(s)[0] == QUOTE
  {
  }

  lemma ArrayText(items: seq<Item>, comments: bool)
    requires SynOk(Items(items), comments)
    ensures items != [] && ItemsOk(items, comments) && SynText(Items(items)) == [OPEN_ARRAY] + ItemsText(items)
    ensures SynText(Items(items))[0] == OPEN_ARRAY && SynText(Items(items))[1..] == ItemsText(items)
  {
  }

  lemma ObjectText(entries: seq<Entry>, comments: bool)
    requires SynOk(Entries(entries), comments)
    ensures entries != [] && EntriesOk(entries, comments) && GapOk(entries[0].before, comments)
    ensures var text := SynText(Entries(entries));
      |text| > 0 && text[0] == OPEN_OBJECT && text[1..] == (GapText(entries[0].before) + [QUOTE]) + TailText(entries)
  {
  }

  // The first character of a value is the next token.
  lemma ValueStarts(str: seq<Byte>, i: nat, g: Gap, s: Syn, comments: bool)
    requires Sees(str, i, GapText(g) + SynText(s)) && GapOk(g, comments) && SynOk(s, comments)
    ensures var e, text := i + |GapText(g)|, SynText(s);
      && text != [] && e + |text| <= |str| && Sees(str, e, text) && Sees(str, e + 1, text[1..])
      && NextToken(str, i, comments) == Ok(text[0], e + 1)
  {
    hide NextToken, Sees, GapText, GapOk, SynText, SynOk, IsToken;
    var e, text := i + |GapText(g)|, SynText(s);
    FirstOfText(s, comments);
    assert text == [text[0]] + text[1..];
    assert GapText(g) + text == (GapText(g) + [text[0]]) + text[1..];
    SeesBoth(str, i, GapText(g) + [text[0]], text[1..]);
    SeesBoth(str, i, GapText(g), text);
    TokenBack(str, i, g, text[0], comments);
    SeesInside(str, i, GapText(g) + text);
  }

  lemma WordBack(str: seq<Byte>, i: nat, e: nat, v: Value, depth: nat, comments: bool)
    requires i <= |str| && Sees(str, e, WordText(v)) && (v.Null? || v.Bool?) && depth <= MAX_DEPTH
    requires NextToken(str, i, comments) == Ok(WordText(v)[0], e + 1)
    ensures ParseValue(str, i, depth, comments) == Ok(v, e + |WordText(v)|)
  {
    hide NextToken, ParseItems, ParseMembers, ParseNumber, ParseString;
  }

  lemma NumberBack(str: seq<Byte>, i: nat, e: nat, n: Num, depth: nat, comments: bool)
    requires i <= |str| && Sees(str, e, NumText(n)) && NumOk(n) && depth <= MAX_DEPTH && Follows(Peek(str, e + |NumText(n)|))
    requires NumText(n) != [] && NextToken(str, i, comments) == Ok(NumText(n)[0], e + 1)
    ensures ParseValue(str, i, depth, comments) == Ok(NumValue(n), e + |NumText(n)|)
  {
    hide NextToken, ParseItems, ParseMembers, ParseNumber, ParseString, NumText, NumOk, NumValue, Sees;
    FirstOfNumber(n);
    NumBack(str, e, n);
  }

  lemma TextBack(str: seq<Byte>, i: nat, e: nat, ps: seq<Piece>, depth: nat, comments: bool)
    requires i <= |str| && Sees(str, e + 1, SynText(Text(ps))[1..]) && PiecesOk(ps) && depth <= MAX_DEPTH
    requires NextToken(str, i, comments) == Ok(QUOTE, e + 1)
    ensures ParseValue(str, i, depth, comments) == Ok(Str(Encoded(Units(ps))), e + |SynText(Text(ps))|)
  {
    hide NextToken, ParseItems, ParseMembers, ParseNumber, ParseString, Encoded, PiecesText, PiecesOk, Sees;
    assert SynText(Text(ps))[1..] == PiecesText(ps) + [QUOTE];
    KeyBack(str, e + 1, ps);
  }

  lemma FirstOfNumber(n: Num)
    requires NumOk(n)
    ensures NumText(n) != [] && (NumText(n)[0] == MINUS || IsDigit(NumText(n)[0]))
  {
    if !n.neg {
      assert NumText(n)[0] == n.whole[0];
    }
  }

  lemma EmptyBack(str: seq<Byte>, i: nat, e: nat, s: Syn, h: Gap, open: Byte, close: Byte, depth: nat, comments: bool)
    requires (open == OPEN_ARRAY && close == CLOSE_ARRAY && s == NoItems(h)) || (open == OPEN_OBJECT && close == CLOSE_OBJECT && s == NoEntries(h))
    requires i <= |str| && Sees(str, e, SynText(s)) && SynOk(s, comments) && depth <= MAX_DEPTH
    requires SynText(s) != [] && NextToken(str, i, comments) == Ok(SynText(s)[0], e + 1)
    ensures ParseValue(str, i, depth, comments) == Ok(SynValue(s), e + |SynText(s)|)
  {
    hide NextToken, Sees, GapText, GapOk;
    SeesBoth(str, e, [open], GapText(h) + [close]);
    TokenBack(str, e + 1, h, close, comments);
    NextGiven(str, i, e, open, depth, comments);
  }

  // What the reader does at an opening bracket.
  lemma NextGiven(str: seq<Byte>, i: nat, e: nat, open: Byte, depth: nat, comments: bool)
    requires i <= |str| && e + 1 <= |str| && depth <= MAX_DEPTH && NextToken(str, i, comments) == Ok(open, e + 1)
    ensures var u := NextToken(str, e + 1, comments);
      && (open == OPEN_ARRAY && u.Ok? && u.v == CLOSE_ARRAY ==> ParseValue(str, i, depth, comments) == Ok(Array([]), u.i))
      && (open == OPEN_OBJECT && u.Ok? && u.v == CLOSE_OBJECT ==> ParseValue(str, i, depth, comments) == Ok(Object([]), u.i))
  {
    hide NextToken, ParseItems, ParseMembers;
  }

  lemma OpenArray(str: seq<Byte>, i: nat, e: nat, depth: nat, comments: bool)
    requires i <= |str| && e < |str| && depth <= MAX_DEPTH && NextToken(str, i, comments) == Ok(OPEN_ARRAY, e + 1)
    requires var u := NextToken(str, e + 1, comments); u.Ok? && u.v != CLOSE_ARRAY
    ensures ParseValue(str, i, depth, comments) == ParseItems(str, e + 1, [], depth, comments)
  {
    hide ParseItems, NextToken, ParseMembers;
    NextItem(str, e + 1, [], depth, comments);
  }

  lemma OpenObject(str: seq<Byte>, i: nat, e: nat, depth: nat, comments: bool)
    requires i <= |str| && e < |str| && depth <= MAX_DEPTH && NextToken(str, i, comments) == Ok(OPEN_OBJECT, e + 1)
    requires var u := NextToken(str, e + 1, comments); u.Ok? && u.v == QUOTE
    ensures ParseValue(str, i, depth, comments) == ParseMembers(str, NextToken(str, e + 1, comments).i, [], depth, comments)
  {
    hide ParseMembers, NextToken;
  }

  // The first item begins with a token that does not close the array.
  lemma FirstItem(str: seq<Byte>, i: nat, items: seq<Item>, comments: bool)
    requires items != [] && Sees(str, i, ItemsText(items)) && ItemsOk(items, comments)
    ensures i <= |str| && NextToken(str, i, comments).Ok? && NextToken(str, i, comments).v != CLOSE_ARRAY
  {
    hide NextToken, Sees, GapText, GapOk, SynText, SynOk;
    var it := items[0];
    var text := SynText(it.value);
    NotClosing(it.value, comments);
    var rest := (GapText(it.after) + [if |items| > 1 then COMMA else CLOSE_ARRAY]) + (if |items| > 1 then ItemsText(items[1..]) else []);
    SeesBoth(str, i, GapText(it.before) + text, rest);
    ValueStarts(str, i, it.before, it.value, comments);
  }

  lemma NotClosing(s: Syn, comments: bool)
    requires SynOk(s, comments)
    ensures SynText(s) != [] && SynText(s)[0] != CLOSE_ARRAY
  {
    if s.Number? {
      FirstOfNumber(s.n);
    }
  }

  lemma {:induction false} ItemsBack(str: seq<Byte>, i: nat, items: seq<Item>, acc: seq<Value>, depth: nat, comments: bool)
    requires items != [] && Sees(str, i, ItemsText(items)) && ItemsOk(items, comments) && depth + ItemsDepth(items) <= MAX_DEPTH
    ensures i <= |str| && ParseItems(str, i, acc, depth, comments) == Ok(Array(acc + ItemsValue(items)), i + |ItemsText(items)|)
    decreases items, 1
  {
    hide ParseValue, ParseItems, NextToken, Sees, GapText, GapOk, SynOk, SynText, SynValue, ItemsText, ItemsOk;
    ItemsAre(items, comments);
    var it, more := items[0], |items| > 1;
    var ch: Byte := if more then COMMA else CLOSE_ARRAY;
    var head, tail, rest := GapText(it.before) + SynText(it.value), GapText(it.after) + [ch], if more then ItemsText(items[1..]) else [];
    SeesBoth(str, i, head, tail + rest);
    var j := i + |head|;
    SeesBoth(str, j, tail, rest);
    ItemBack(str, i, it, ch, acc, depth, comments);
    var k, next := j + |tail|, acc + [SynValue(it.value)];
    if more {
      ItemsBack(str, k, items[1..], next, depth, comments);
      FirstItem(str, k, items[1..], comments);
      NextItem(str, k, next, depth, comments);
      assert next + ItemsValue(items[1..]) == acc + ItemsValue(items);
    } else {
      assert items[1..] == [] && ItemsValue(items) == [SynValue(it.value)];
    }
  }

  // One item, up to the character after it.
  lemma {:induction false} ItemBack(str: seq<Byte>, i: nat, it: Item, ch: Byte, acc: seq<Value>, depth: nat, comments: bool)
    requires GapOk(it.before, comments) && SynOk(it.value, comments) && GapOk(it.after, comments) && ch in [COMMA, CLOSE_ARRAY]
    requires depth + 1 + SynDepth(it.value) <= MAX_DEPTH
    requires var head := GapText(it.before) + SynText(it.value); Sees(str, i, head) && Sees(str, i + |head|, GapText(it.after) + [ch])
    ensures var n := i + |GapText(it.before)| + |SynText(it.value)| + |GapText(it.after)| + 1;
      && i <= |str| && n <= |str|
      && ParseItems(str, i, acc, depth, comments) == AfterItem(str, n, ch, acc + [SynValue(it.value)], depth, comments)
    decreases it, 3
  {
    hide ParseValue, NextToken, Sees, GapText, GapOk, SynOk, SynText, SynValue;
    var j := i + |GapText(it.before)| + |SynText(it.value)|;
    AfterValue(str, j, it.after, ch, comments);
    ValueBack(str, i, it.before, it.value, depth + 1, comments);
    TokenBack(str, j, it.after, ch, comments);
    SeesInside(str, j, GapText(it.after) + [ch]);
  }

  // The end of an array, or another item.
  function AfterItem(str: seq<Byte>, n: nat, ch: Byte, items: seq<Value>, depth: nat, comments: bool): Outcome<Value>
    requires n <= |str|
  {
    if ch == CLOSE_ARRAY then Ok(Array(items), n)
    else
      var u := NextToken(str, n, comments);
      if u.Fail? then Fail else ParseItems(str, u.i - 1, items, depth, comments)
  }

  lemma ItemsAre(items: seq<Item>, comments: bool)
    requires items != [] && ItemsOk(items, comments)
    ensures var it, more := items[0], |items| > 1;
      ItemsText(items) == (GapText(it.before) + SynText(it.value)) +
        ((GapText(it.after) + [if more then COMMA else CLOSE_ARRAY]) + (if more then ItemsText(items[1..]) else []))
    ensures GapOk(items[0].before, comments) && SynOk(items[0].value, comments) && GapOk(items[0].after, comments)
    ensures ItemsOk(items[1..], comments)
  {
    hide GapText, SynText, GapOk, SynOk;
  }

  // The reader looks at the first character of an item, and goes back.
  lemma NextItem(str: seq<Byte>, k: nat, acc: seq<Value>, depth: nat, comments: bool)
    requires k <= |str| && NextToken(str, k, comments).Ok?
    ensures var u := NextToken(str, k, comments); ParseItems(str, u.i - 1, acc, depth, comments) == ParseItems(str, k, acc, depth, comments)
  {
    hide ParseItems;
    var u := NextToken(str, k, comments);
    var g := TokenFrom(str, k, comments);
    SeesAt(str, k, GapText(g) + [u.v], |GapText(g)|);
    TokenAgain(str, u.i - 1, comments);
    SameItems(str, k, u.i - 1, acc, depth, comments);
  }

  lemma {:induction false} EntriesBack(str: seq<Byte>, i: nat, entries: seq<Entry>, acc: seq<Member>, depth: nat, comments: bool)
    requires entries != [] && Sees(str, i, TailText(entries)) && EntriesOk(entries, comments) && depth + EntriesDepth(entries) <= MAX_DEPTH
    ensures i <= |str| && ParseMembers(str, i, acc, depth, comments) == Ok(Object(EntriesValue(entries, acc)), i + |TailText(entries)|)
    decreases entries, 1
  {
    hide ParseValue, NextToken, Sees, GapText, GapOk, SynOk, SynText, SynValue, ParseString, PiecesText, PiecesOk, Encoded, Put;
    hide ParseMembers, TailText, EntriesOk;
    var m, more := entries[0], |entries| > 1;
    var ch: Byte := if more then COMMA else CLOSE_OBJECT;
    var (key, mid, val, end) := EntryTexts(m, ch);
    var rest := if more then (GapText(entries[1].before) + [QUOTE]) + TailText(entries[1..]) else [];
    TailIs(entries, comments);
    SeesBoth(str, i, key, mid + (val + (end + rest)));
    var j := i + |key|;
    SeesBoth(str, j, mid, val + (end + rest));
    var k := j + |mid|;
    SeesBoth(str, k, val, end + rest);
    var l := k + |val|;
    SeesBoth(str, l, end, rest);
    EntryBack(str, i, m, ch, acc, depth, comments);
    if more {
      var n := l + |end|;
      var open := GapText(entries[1].before) + [QUOTE];
      SeesBoth(str, n, open, TailText(entries[1..]));
      TokenBack(str, n, entries[1].before, QUOTE, comments);
      EntriesBack(str, n + |open|, entries[1..], Put(acc, Encoded(Units(m.key)), SynValue(m.value)), depth, comments);
    } else {
      assert entries[1..] == [];
    }
  }

  function EntryTexts(m: Entry, ch: Byte): (seq<Byte>, seq<Byte>, seq<Byte>, seq<Byte>) {
    (PiecesText(m.key) + [QUOTE], GapText(m.middle) + [COLON], GapText(m.inner) + SynText(m.value), GapText(m.after) + [ch])
  }

  ghost predicate EntryOk(m: Entry, comments: bool) {
    && PiecesOk(m.key) && GapOk(m.middle, comments) && GapOk(m.inner, comments) && SynOk(m.value, comments) && GapOk(m.after, comments)
  }

  lemma TailIs(entries: seq<Entry>, comments: bool)
    requires entries != [] && EntriesOk(entries, comments)
    ensures var (key, mid, val, end) := EntryTexts(entries[0], if |entries| > 1 then COMMA else CLOSE_OBJECT);
      var rest := if |entries| > 1 then (GapText(entries[1].before) + [QUOTE]) + TailText(entries[1..]) else [];
      TailText(entries) == key + (mid + (val + (end + rest)))
    ensures EntryOk(entries[0], comments) && EntriesOk(entries[1..], comments)
    ensures |entries| > 1 ==> GapOk(entries[1].before, comments)
  {
    hide PiecesText, GapText, SynText, PiecesOk, GapOk, SynOk;
    assert |entries| > 1 ==> entries[1..][0] == entries[1];
  }

  // One member, up to the character after it.
  lemma {:induction false} EntryBack(str: seq<Byte>, i: nat, m: Entry, ch: Byte, acc: seq<Member>, depth: nat, comments: bool)
    requires EntryOk(m, comments) && ch in [COMMA, CLOSE_OBJECT] && depth + 1 + SynDepth(m.value) <= MAX_DEPTH
    requires var (key, mid, val, end) := EntryTexts(m, ch);
      Sees(str, i, key) && Sees(str, i + |key|, mid) && Sees(str, i + |key| + |mid|, val) && Sees(str, i + |key| + |mid| + |val|, end)
    ensures var (key, mid, val, end) := EntryTexts(m, ch);
      var n, more := i + |key| + |mid| + |val| + |end|, Put(acc, Encoded(Units(m.key)), SynValue(m.value));
      && i <= |str| && n <= |str|
      && ParseMembers(str, i, acc, depth, comments) == AfterMember(str, n, ch, more, depth, comments)
    decreases m, 3
  {
    hide ParseValue, NextToken, Sees, GapText, GapOk, SynOk, SynText, SynValue, ParseString, PiecesText, PiecesOk, Encoded, Put;
    var (key, mid, val, end) := EntryTexts(m, ch);
    var j := i + |key|;
    var k := j + |mid|;
    var l := k + |val|;
    KeyBack(str, i, m.key);
    TokenBack(str, j, m.middle, COLON, comments);
    AfterValue(str, l, m.after, ch, comments);
    ValueBack(str, k, m.inner, m.value, depth + 1, comments);
    TokenBack(str, l, m.after, ch, comments);
    SeesInside(str, l, end);
  }

  // The end of an object, or another member.
  function AfterMember(str: seq<Byte>, n: nat, ch: Byte, members: seq<Member>, depth: nat, comments: bool): Outcome<Value>
    requires n <= |str|
  {
    if ch == CLOSE_OBJECT then Ok(Object(members), n)
    else
      var u := NextToken(str, n, comments);
      if u.Fail? || u.v != QUOTE then Fail else ParseMembers(str, u.i, members, depth, comments)
  }

  lemma KeyBack(str: seq<Byte>, i: nat, ps: seq<Piece>)
    requires Sees(str, i, PiecesText(ps) + [QUOTE]) && PiecesOk(ps)
    ensures i <= |str| && ParseString(str, i, [], -1) == Ok(Encoded(Units(ps)), i + |PiecesText(ps)| + 1)
  {
    hide Encoded, ParseString;
    StringBack(str, i, ps, [], -1);
    assert Held(-1) + Units(ps) == Units(ps);
    assert [] + Encoded(Units(ps)) == Encoded(Units(ps));
  }

  // --- every text that is read is one of the grammar ---

  ghost predicate IsValue(str: seq<Byte>, i: nat, g: Gap, s: Syn, depth: nat, comments: bool) {
    && Sees(str, i, GapText(g) + SynText(s)) && GapOk(g, comments) && SynOk(s, comments) && depth + SynDepth(s) <= MAX_DEPTH
    && i <= |str| && ParseValue(str, i, depth, comments) == Ok(SynValue(s), i + |GapText(g)| + |SynText(s)|)
  }

  /** What is read as a value is one of the grammar, after a gap, and stands for what it is read as. */
  lemma {:induction false} ValueFrom(str: seq<Byte>, i: nat, depth: nat, comments: bool) returns (g: Gap, s: Syn)
    requires i <= |str| && ParseValue(str, i, depth, comments).Ok?
    ensures IsValue(str, i, g, s, depth, comments)
    decreases |str| - i, 1
  {
    hide ParseValue, NextToken, Sees, GapText, GapOk, SynText, SynOk, SynValue, SynDepth;
    var t := ValueToken(str, i, depth, comments);
    g := TokenFrom(str, i, comments);
    SeesInside(str, i, GapText(g) + [t.v]);
    SeesBoth(str, i, GapText(g), [t.v]);
    if t.v == OPEN_ARRAY {
      s := ArrayFrom(str, i, t.i - 1, depth, comments);
    } else if t.v == OPEN_OBJECT {
      s := ObjectFrom(str, i, t.i - 1, depth, comments);
    } else {
      s := AtomFrom(str, i, t.i - 1, t.v, depth, comments);
    }
    SeesBoth(str, i, GapText(g), SynText(s));
  }

  lemma ValueToken(str: seq<Byte>, i: nat, depth: nat, comments: bool) returns (t: Outcome<Byte>)
    requires i <= |str| && ParseValue(str, i, depth, comments).Ok?
    ensures t == NextToken(str, i, comments) && t.Ok? && depth <= MAX_DEPTH
  {
    hide NextToken, ParseItems, ParseMembers, ParseNumber, ParseString, Expect;
    t := NextToken(str, i, comments);
  }

  // A value that begins at e.
  ghost predicate IsSyn(str: seq<Byte>, i: nat, e: nat, s: Syn, depth: nat, comments: bool) {
    && Sees(str, e, SynText(s)) && SynOk(s, comments) && depth + SynDepth(s) <= MAX_DEPTH
    && i <= |str| && ParseValue(str, i, depth, comments) == Ok(SynValue(s), e + |SynText(s)|)
  }

  lemma AtomFrom(str: seq<Byte>, i: nat, e: nat, ch: Byte, depth: nat, comments: bool) returns (s: Syn)
    requires i <= |str| && ParseValue(str, i, depth, comments).Ok? && NextToken(str, i, comments) == Ok(ch, e + 1) && Sees(str, e, [ch])
    requires ch != OPEN_ARRAY && ch != OPEN_OBJECT && depth <= MAX_DEPTH
    ensures IsSyn(str, i, e, s, depth, comments)
  {
    hide NextToken, ParseItems, ParseMembers, ParseNumber, ParseString, Sees, SynText, SynOk, SynValue;
    SeesInside(str, e, [ch]);
    if ch == MINUS || IsDigit(ch) {
      var n := NumFrom(str, e);
      s := Number(n);
      NumberIs(n, comments);
    } else if ch == QUOTE {
      var ps := StringFrom(str, e + 1, [], -1);
      s := Text(ps);
      TextIs(str, e, ps, comments);
    } else {
      var v := if ch == 110 then Null else Bool(ch == 116);
      s := Word(v);
      WordIs(str, e, v, comments);
    }
  }

  lemma NumberIs(n: Num, comments: bool)
    requires NumOk(n)
    ensures SynText(Number(n)) == NumText(n) && SynOk(Number(n), comments) && SynValue(Number(n)) == NumValue(n)
  {
  }

  lemma TextIs(str: seq<Byte>, e: nat, ps: seq<Piece>, comments: bool)
    requires Sees(str, e, [QUOTE]) && Sees(str, e + 1, PiecesText(ps) + [QUOTE]) && PiecesOk(ps)
    ensures Sees(str, e, SynText(Text(ps))) && SynOk(Text(ps), comments) && e + 1 <= |str|
    ensures ParseString(str, e + 1, [], -1).Ok? && SynValue(Text(ps)) == Str(ParseString(str, e + 1, [], -1).v)
    ensures ParseString(str, e + 1, [], -1).i == e + |SynText(Text(ps))|
  {
    hide ParseString, PiecesText, PiecesOk, Encoded;
    KeyBack(str, e + 1, ps);
    SeesBoth(str, e, [QUOTE], PiecesText(ps) + [QUOTE]);
  }

  lemma WordIs(str: seq<Byte>, e: nat, v: Value, comments: bool)
    requires (v.Null? || v.Bool?) && e <= |str| && Expect(str, e, WordText(v), v).Ok?
    ensures SynText(Word(v)) == WordText(v) && Sees(str, e, SynText(Word(v))) && SynOk(Word(v), comments) && SynValue(Word(v)) == v
    ensures Expect(str, e, WordText(v), v) == Ok(v, e + |WordText(v)|)
  {
  }

  lemma {:induction false} ArrayFrom(str: seq<Byte>, i: nat, e: nat, depth: nat, comments: bool) returns (s: Syn)
    requires i <= |str| && i <= e < |str| && ParseValue(str, i, depth, comments).Ok? && depth <= MAX_DEPTH
    requires NextToken(str, i, comments) == Ok(OPEN_ARRAY, e + 1) && Sees(str, e, [OPEN_ARRAY])
    ensures IsSyn(str, i, e, s, depth, comments)
    decreases |str| - i, 0
  {
    hide ParseValue, NextToken, Sees, GapText, GapOk, SynText, SynOk, ParseItems;
    var u := AfterOpen(str, i, e, OPEN_ARRAY, depth, comments);
    if u.v == CLOSE_ARRAY {
      var h := TokenFrom(str, e + 1, comments);
      s := NoItems(h);
      EmptyIs(str, i, e, s, h, OPEN_ARRAY, CLOSE_ARRAY, depth, comments);
    } else {
      OpenArray(str, i, e, depth, comments);
      var items := ItemsFrom(str, e + 1, [], depth, comments);
      s := Items(items);
      ItemsAreSyn(str, e, items, comments);
      ArrayBack(str, i, e, items, depth, comments);
    }
  }

  lemma ItemsAreSyn(str: seq<Byte>, e: nat, items: seq<Item>, comments: bool)
    requires items != [] && ItemsOk(items, comments) && Sees(str, e, [OPEN_ARRAY]) && Sees(str, e + 1, ItemsText(items))
    ensures SynOk(Items(items), comments) && Sees(str, e, SynText(Items(items)))
    ensures SynText(Items(items)) != [] && SynText(Items(items))[0] == OPEN_ARRAY && SynText(Items(items))[1..] == ItemsText(items)
  {
    SeesBoth(str, e, [OPEN_ARRAY], ItemsText(items));
  }

  lemma AfterOpen(str: seq<Byte>, i: nat, e: nat, open: Byte, depth: nat, comments: bool) returns (u: Outcome<Byte>)
    requires i <= |str| && e < |str| && ParseValue(str, i, depth, comments).Ok? && NextToken(str, i, comments) == Ok(open, e + 1)
    requires open == OPEN_ARRAY || open == OPEN_OBJECT
    ensures u == NextToken(str, e + 1, comments) && u.Ok?
    ensures open == OPEN_OBJECT ==> u.v == CLOSE_OBJECT || u.v == QUOTE
  {
    hide NextToken, ParseItems, ParseMembers;
    u := NextToken(str, e + 1, comments);
  }

  lemma EmptyIs(str: seq<Byte>, i: nat, e: nat, s: Syn, h: Gap, open: Byte, close: Byte, depth: nat, comments: bool)
    requires (open == OPEN_ARRAY && close == CLOSE_ARRAY && s == NoItems(h)) || (open == OPEN_OBJECT && close == CLOSE_OBJECT && s == NoEntries(h))
    requires i <= |str| && Sees(str, e, [open]) && Sees(str, e + 1, GapText(h) + [close]) && GapOk(h, comments) && depth <= MAX_DEPTH
    requires NextToken(str, i, comments) == Ok(open, e + 1)
    ensures IsSyn(str, i, e, s, depth, comments)
  {
    hide NextToken, Sees, GapText, GapOk, ParseValue;
    SeesBoth(str, e, [open], GapText(h) + [close]);
    EmptyBack(str, i, e, s, h, open, close, depth, comments);
  }

  lemma {:induction false} ItemsFrom(str: seq<Byte>, i: nat, acc: seq<Value>, depth: nat, comments: bool) returns (items: seq<Item>)
    requires i <= |str| && ParseItems(str, i, acc, depth, comments).Ok?
    ensures items != [] && ItemsOk(items, comments) && Sees(str, i, ItemsText(items)) && depth + ItemsDepth(items) <= MAX_DEPTH
    decreases |str| - i, 2
  {
    hide ParseValue, ParseItems, NextToken, Sees, GapText, GapOk, SynText, SynOk, SynValue, ItemsText, ItemsOk;
    var v, t := ItemToken(str, i, acc, depth, comments);
    var before, s := ValueFrom(str, i, depth + 1, comments);
    var after := TokenFrom(str, v.i, comments);
    SeesInside(str, v.i, GapText(after) + [t.v]);
    var it := Item(before, s, after);
    if t.v == CLOSE_ARRAY {
      items := [it];
      SeesNothing(str, t.i);
    } else {
      NextItem(str, t.i, acc + [v.v], depth, comments);
      var rest := ItemsFrom(str, t.i, acc + [v.v], depth, comments);
      items := [it] + rest;
      assert items[1..] == rest;
    }
    ItemsJoin(str, i, items, comments);
  }

  lemma ItemToken(str: seq<Byte>, i: nat, acc: seq<Value>, depth: nat, comments: bool) returns (v: Outcome<Value>, t: Outcome<Byte>)
    requires i <= |str| && ParseItems(str, i, acc, depth, comments).Ok?
    ensures v == ParseValue(str, i, depth + 1, comments) && v.Ok? && v.i <= |str| && t == NextToken(str, v.i, comments) && t.Ok?
    ensures t.v == CLOSE_ARRAY || t.v == COMMA
    ensures t.v == COMMA ==>
      var u := NextToken(str, t.i, comments);
      u.Ok? && ParseItems(str, u.i - 1, acc + [v.v], depth, comments) == ParseItems(str, i, acc, depth, comments)
  {
    hide ParseValue, NextToken;
    v := ParseValue(str, i, depth + 1, comments);
    t := NextToken(str, v.i, comments);
  }

  lemma ItemsJoin(str: seq<Byte>, i: nat, items: seq<Item>, comments: bool)
    requires items != [] && GapOk(items[0].before, comments) && SynOk(items[0].value, comments) && GapOk(items[0].after, comments)
    requires |items| > 1 ==> ItemsOk(items[1..], comments)
    requires var it, more := items[0], |items| > 1; var head, tail := GapText(it.before) + SynText(it.value), GapText(it.after) + [if more then COMMA else CLOSE_ARRAY];
      && Sees(str, i, head) && Sees(str, i + |head|, tail)
      && Sees(str, i + |head| + |tail|, if more then ItemsText(items[1..]) else [])
    ensures ItemsOk(items, comments) && Sees(str, i, ItemsText(items))
  {
    hide Sees, GapText, SynText, GapOk, SynOk;
    var it, more := items[0], |items| > 1;
    var head, tail := GapText(it.before) + SynText(it.value), GapText(it.after) + [if more then COMMA else CLOSE_ARRAY];
    var rest := if more then ItemsText(items[1..]) else [];
    SeesBoth(str, i + |head|, tail, rest);
    SeesBoth(str, i, head, tail + rest);
  }

  lemma {:induction false} ObjectFrom(str: seq<Byte>, i: nat, e: nat, depth: nat, comments: bool) returns (s: Syn)
    requires i <= |str| && i <= e < |str| && ParseValue(str, i, depth, comments).Ok? && depth <= MAX_DEPTH
    requires NextToken(str, i, comments) == Ok(OPEN_OBJECT, e + 1) && Sees(str, e, [OPEN_OBJECT])
    ensures IsSyn(str, i, e, s, depth, comments)
    decreases |str| - i, 0
  {
    hide ParseValue, NextToken, Sees, GapText, GapOk, SynText, SynOk, ParseMembers, TailText, EntriesOk;
    var u := AfterOpen(str, i, e, OPEN_OBJECT, depth, comments);
    var h := TokenFrom(str, e + 1, comments);
    if u.v == CLOSE_OBJECT {
      s := NoEntries(h);
      EmptyIs(str, i, e, s, h, OPEN_OBJECT, CLOSE_OBJECT, depth, comments);
    } else {
      OpenObject(str, i, e, depth, comments);
      var entries := EntriesFrom(str, u.i, [], depth, comments);
      var all := SetBefore(entries, h, comments);
      s := Entries(all);
      EntriesAreSyn(str, e, h, all, comments);
      ObjectBack(str, i, e, all, depth, comments);
    }
  }

  // The gap before the first key is no part of the tail.
  lemma SetBefore(entries: seq<Entry>, h: Gap, comments: bool) returns (all: seq<Entry>)
    requires entries != [] && EntriesOk(entries, comments) && GapOk(h, comments)
    ensures all != [] && EntriesOk(all, comments) && all[0].before == h && TailText(all) == TailText(entries)
    ensures EntriesDepth(all) == EntriesDepth(entries) && |all| == |entries| && all[1..] == entries[1..]
    ensures forall ch :: EntryTexts(all[0], ch) == EntryTexts(entries[0], ch)
  {
    hide SynText, GapText, PiecesText, SynOk, GapOk, PiecesOk;
    all := [entries[0].(before := h)] + entries[1..];
    assert all[1..] == entries[1..] && (|all| > 1 ==> all[1] == entries[1]);
  }

  lemma EntriesAreSyn(str: seq<Byte>, e: nat, h: Gap, entries: seq<Entry>, comments: bool)
    requires entries != [] && EntriesOk(entries, comments) && entries[0].before == h
    requires Sees(str, e, [OPEN_OBJECT]) && Sees(str, e + 1, GapText(h) + [QUOTE]) && Sees(str, e + 2 + |GapText(h)|, TailText(entries))
    ensures SynOk(Entries(entries), comments) && Sees(str, e, SynText(Entries(entries)))
    ensures var text := SynText(Entries(entries)); text != [] && text[0] == OPEN_OBJECT && Sees(str, e + 1, text[1..])
  {
    hide Sees, GapText, TailText, EntriesOk;
    SeesBoth(str, e + 1, GapText(h) + [QUOTE], TailText(entries));
    SeesBoth(str, e, [OPEN_OBJECT], EntriesText(entries));
    assert SynText(Entries(entries))[1..] == EntriesText(entries);
  }

  lemma {:induction false} EntriesFrom(str: seq<Byte>, i: nat, acc: seq<Member>, depth: nat, comments: bool) returns (entries: seq<Entry>)
    requires i <= |str| && ParseMembers(str, i, acc, depth, comments).Ok?
    ensures entries != [] && EntriesOk(entries, comments) && Sees(str, i, TailText(entries)) && depth + EntriesDepth(entries) <= MAX_DEPTH
    decreases |str| - i, 2
  {
    hide ParseValue, ParseMembers, NextToken, Sees, GapText, GapOk, SynText, SynOk, SynValue, TailText, EntriesOk, ParseString, PiecesText, PiecesOk;
    var key, c, v, t := MemberToken(str, i, acc, depth, comments);
    var ps := StringFrom(str, i, [], -1);
    KeyBack(str, i, ps);
    var middle := TokenFrom(str, key.i, comments);
    var inner, s := ValueFrom(str, c.i, depth + 1, comments);
    var after := TokenFrom(str, v.i, comments);
    SeesInside(str, v.i, GapText(after) + [t.v]);
    var m := Entry([], ps, middle, inner, s, after);
    NoGapOk(comments);
    if t.v == CLOSE_OBJECT {
      entries := [m];
      SeesNothing(str, t.i);
    } else {
      var u := NextToken(str, t.i, comments);
      var before := TokenFrom(str, t.i, comments);
      var rest := EntriesFrom(str, u.i, Put(acc, key.v, v.v), depth, comments);
      var all := SetBefore(rest, before, comments);
      entries := [m] + all;
      assert entries[1..] == all && entries[1] == all[0];
      SeesBoth(str, t.i, GapText(before) + [QUOTE], TailText(all));
    }
    EntriesJoin(str, i, entries, comments);
  }

  lemma NoGapOk(comments: bool)
    ensures GapOk([], comments)
  {
  }

  lemma MemberToken(str: seq<Byte>, i: nat, acc: seq<Member>, depth: nat, comments: bool)
    returns (key: Outcome<seq<Byte>>, c: Outcome<Byte>, v: Outcome<Value>, t: Outcome<Byte>)
    requires i <= |str| && ParseMembers(str, i, acc, depth, comments).Ok?
    ensures key == ParseString(str, i, [], -1) && key.Ok? && c == NextToken(str, key.i, comments) && c.Ok? && c.v == COLON
    ensures v == ParseValue(str, c.i, depth + 1, comments) && v.Ok? && v.i <= |str| && t == NextToken(str, v.i, comments) && t.Ok?
    ensures t.v == CLOSE_OBJECT || t.v == COMMA
    ensures t.v == COMMA ==>
      var u := NextToken(str, t.i, comments);
      && u.Ok? && u.v == QUOTE
      && ParseMembers(str, u.i, Put(acc, key.v, v.v), depth, comments) == ParseMembers(str, i, acc, depth, comments)
  {
    hide ParseValue, NextToken, ParseString, Put;
    key := ParseString(str, i, [], -1);
    c := NextToken(str, key.i, comments);
    v := ParseValue(str, c.i, depth + 1, comments);
    t := NextToken(str, v.i, comments);
  }

  lemma EntriesJoin(str: seq<Byte>, i: nat, entries: seq<Entry>, comments: bool)
    requires entries != [] && EntryOk(entries[0], comments) && GapOk(entries[0].before, comments)
    requires |entries| > 1 ==> EntriesOk(entries[1..], comments)
    requires var more := |entries| > 1; var (key, mid, val, end) := EntryTexts(entries[0], if more then COMMA else CLOSE_OBJECT);
      && Sees(str, i, key) && Sees(str, i + |key|, mid) && Sees(str, i + |key| + |mid|, val) && Sees(str, i + |key| + |mid| + |val|, end)
      && Sees(str, i + |key| + |mid| + |val| + |end|, if more then (GapText(entries[1].before) + [QUOTE]) + TailText(entries[1..]) else [])
    ensures EntriesOk(entries, comments) && Sees(str, i, TailText(entries))
  {
    hide Sees, GapText, SynText, GapOk, SynOk, PiecesText, PiecesOk, TailText;
    var more := |entries| > 1;
    assert EntriesOk(entries, comments);
    TailIs(entries, comments);
    var (key, mid, val, end) := EntryTexts(entries[0], if more then COMMA else CLOSE_OBJECT);
    var rest := if more then (GapText(entries[1].before) + [QUOTE]) + TailText(entries[1..]) else [];
    var j := i + |key|;
    var k := j + |mid|;
    SeesBoth(str, k + |val|, end, rest);
    SeesBoth(str, k, val, end + rest);
    SeesBoth(str, j, mid, val + (end + rest));
    SeesBoth(str, i, key, mid + (val + (end + rest)));
  }

  // ------------------------------------------------------------------
  // The language
  // ------------------------------------------------------------------

  // A text: a value between two gaps.
  datatype Doc = Doc(before: Gap, value: Syn, after: Gap)

  function DocText(d: Doc): seq<Byte> {
    (GapText(d.before) + SynText(d.value)) + GapText(d.after)
  }

  // Values are nested at most 200 deep, and a comment of several lines is not the end of the text.
  ghost predicate DocOk(d: Doc, comments: bool) {
    && GapOk(d.before, comments) && SynOk(d.value, comments) && GapOk(d.after, comments)
    && SynDepth(d.value) <= 200 && !EndsInBlock(d.after)
  }

  /** Every text of the grammar is read, as what it stands for. */
  lemma DocBack(d: Doc, comments: bool)
    requires DocOk(d, comments)
    ensures Parse(DocText(d), comments) == Ok(SynValue(d.value), |DocText(d)|)
  {
    hide ParseValue, SkipGarbage, GapText, GapOk, SynText, SynOk, SynValue, Sees;
    var str := DocText(d);
    var head, tail := GapText(d.before) + SynText(d.value), GapText(d.after);
    SeesAll(str);
    SeesBoth(str, 0, head, tail);
    TextEnds(str, |head|, d.after, comments);
    ValueBack(str, 0, d.before, d.value, 0, comments);
  }

  lemma SeesAll(str: seq<Byte>)
    ensures Sees(str, 0, str)
  {
  }

  // A gap at the end of the text.
  lemma TextEnds(str: seq<Byte>, i: nat, g: Gap, comments: bool)
    requires Sees(str, i, GapText(g)) && i + |GapText(g)| == |str| && GapOk(g, comments) && !EndsInBlock(g)
    ensures SkipGarbage(str, i, comments) == Ok((), |str|) && Follows(Peek(str, i))
  {
    hide SkipGarbage;
    GapBack(str, i, g, comments);
    if g != [] {
      NotEmpty(g[0]);
      SeesAt(str, i, GapText(g), 0);
      assert GapText(g)[0] == FillerText(g[0])[0] && FillerOk(g[0], comments);
    }
  }

  /** Every text that is read is one of the grammar. */
  lemma DocFrom(str: seq<Byte>, comments: bool) returns (d: Doc)
    requires Parse(str, comments).Ok?
    ensures DocOk(d, comments) && DocText(d) == str && Parse(str, comments) == Ok(SynValue(d.value), |str|)
  {
    hide ParseValue, SkipGarbage, GapText, GapOk, SynText, SynOk, SynValue;
    var v := ParseValue(str, 0, 0, comments);
    var before, s := ValueFrom(str, 0, 0, comments);
    var after := GapFrom(str, v.i, comments);
    d := Doc(before, s, after);
    SeesBoth(str, 0, GapText(before) + SynText(s), GapText(after));
    assert str[0..|str|] == str;
  }

  /** The reader accepts exactly the texts of the grammar. */
  lemma Accepts(str: seq<Byte>, comments: bool)
    ensures Parse(str, comments).Ok? <==> exists d :: DocOk(d, comments) && DocText(d) == str
  {
    hide DocOk, DocText, Parse;
    if Parse(str, comments).Ok? {
      var d := DocFrom(str, comments);
    }
    if d :| DocOk(d, comments) && DocText(d) == str {
      DocBack(d, comments);
    }
  }

  /** The digit 1 and a block comment are not accepted, though they are a value and a comment. */
  lemma BlockAtEnd()
    ensures Parse([49, SLASH, STAR, STAR, SLASH], true).Fail?
    ensures DocText(Doc([], Number(Num(false, [49], [], [])), [Block([])])) == [49, SLASH, STAR, STAR, SLASH]
  {
    hide ParseValue, SkipGarbage, NumOk, Sees, ParseNumber;
    OneAndComment();
    var str: seq<Byte> := [49, SLASH, STAR, STAR, SLASH];
    var n := Num(false, [49], [], []);
    SeesOne(str, 0, 49);
    NoGap(str, 0, true);
    NumberBack(str, 0, 0, n, 0, true);
    EndFails(str);
  }

  lemma OneAndComment()
    ensures var n := Num(false, [49], [], []);
      && NumText(n) == [49] && NumOk(n)
      && DocText(Doc([], Number(n), [Block([])])) == [49, SLASH, STAR, STAR, SLASH]
  {
    assert GapText([Block([])]) == FillerText(Block([])) + GapText([]);
  }

  lemma EndFails(str: seq<Byte>)
    requires str == [49, SLASH, STAR, STAR, SLASH]
    ensures SkipGarbage(str, 1, true).Fail?
  {
    assert Peek(str, 1) == SLASH;
    assert SkipSpace(str, 1) == 1;
    assert SkipBlock(str, 3).Fail?;
  }

  /** And two readings of a text stand for the same value. */
  lemma OneMeaning(a: Doc, b: Doc, comments: bool)
    requires DocOk(a, comments) && DocOk(b, comments) && DocText(a) == DocText(b)
    ensures SynValue(a.value) == SynValue(b.value)
  {
    hide DocOk, DocText, Parse, SynValue;
    DocBack(a, comments);
    DocBack(b, comments);
  }
}
