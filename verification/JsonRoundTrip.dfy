/** What the JSON printer writes, the reader reads back (deps/json11/json11.cpp). */
module JsonRoundTrip {
  import opened Json
  import opened JsonParse

  // The text x stands at i.
  ghost predicate Sees(str: seq<Byte>, i: nat, x: seq<Byte>) {
    i + |x| <= |str| && str[i..i + |x|] == x
  }

  lemma SeesParts(str: seq<Byte>, i: nat, x: seq<Byte>, y: seq<Byte>)
    requires Sees(str, i, x + y)
    ensures Sees(str, i, x) && Sees(str, i + |x|, y)
  {
    var z := str[i..i + |x + y|];
    assert z[..|x|] == x && z[|x|..] == y;
  }

  lemma SeesAt(str: seq<Byte>, i: nat, x: seq<Byte>, k: nat)
    requires Sees(str, i, x) && k < |x|
    ensures Peek(str, i + k) == x[k] && i + k < |str|
  {
    assert str[i..i + |x|][k] == str[i + k];
  }

  // ------------------------------------------------------------------
  // Tokens
  // ------------------------------------------------------------------

  // Neither white space nor the beginning of a comment.
  predicate Visible(ch: Byte) {
    !IsSpace(ch) && ch != SLASH
  }

  lemma NoGarbage(str: seq<Byte>, i: nat, comments: bool)
    requires i <= |str| && Visible(Peek(str, i))
    ensures SkipGarbage(str, i, comments) == Ok((), i)
  {
  }

  lemma Token(str: seq<Byte>, i: nat, ch: Byte, comments: bool)
    requires Sees(str, i, [ch]) && Visible(ch)
    ensures NextToken(str, i, comments) == Ok(ch, i + 1)
  {
    SeesAt(str, i, [ch], 0);
    NoGarbage(str, i, comments);
  }

  lemma TokenAfterSpace(str: seq<Byte>, i: nat, ch: Byte, comments: bool)
    requires i + 1 < |str| && str[i] == SPACE && str[i + 1] == ch && Visible(ch)
    ensures NextToken(str, i, comments) == Ok(ch, i + 2)
  {
    assert SkipSpace(str, i) == SkipSpace(str, i + 1) == i + 1;
  }

  // ------------------------------------------------------------------
  // Strings
  // ------------------------------------------------------------------

  // The code points that the printer escapes: they are held back without meeting a pair.
  predicate Held(last: int) {
    last == -1 || 0 <= last < 0x20 || last == 0x2028 || last == 0x2029
  }

  lemma HexBack(d: nat)
    requires d < 16
    ensures IsHex(Hex(d)) && HexValue(Hex(d)) == d
  {
  }

  lemma HexSum(code: nat)
    ensures 4096 * (code / 4096) + 256 * (code / 256 % 16) + 16 * (code / 16 % 16) + code % 16 == code
  {
    var a, b := code / 16, code / 256;
    assert code / 256 == a / 16 && code / 4096 == b / 16;
    assert a == 16 * (a / 16) + a % 16 && b == 16 * (b / 16) + b % 16;
  }

  lemma Escape4Back(str: seq<Byte>, i: nat, code: nat)
    requires code < 0x10000 && Sees(str, i, Escape4(code))
    ensures IsHex(str[i + 2]) && IsHex(str[i + 3]) && IsHex(str[i + 4]) && IsHex(str[i + 5])
    ensures Hex4(str, i + 2) == code && str[i] == BACKSLASH && str[i + 1] == 117
  {
    hide Hex, HexValue;
    var x := Escape4(code);
    SeesAt(str, i, x, 0);
    SeesAt(str, i, x, 1);
    SeesAt(str, i, x, 2);
    SeesAt(str, i, x, 3);
    SeesAt(str, i, x, 4);
    SeesAt(str, i, x, 5);
    HexSum(code);
    HexBack(code / 4096);
    HexBack(code / 256 % 16);
    HexBack(code / 16 % 16);
    HexBack(code % 16);
  }

  // One character: what ParseString does with what Escaped wrote.
  lemma CharBack(str: seq<Byte>, i: nat, out: seq<Byte>, last: int, s: seq<Byte>)
    requires s != [] && Held(last) && Sees(str, i, Escaped(s).0)
    ensures var (text, n) := Escaped(s);
      ParseString(str, i, out, last) ==
        if |text| == 6 then ParseString(str, i + 6, out + Utf8(last), CodeOf(s))
        else ParseString(str, i + |text|, out + Utf8(last) + [s[0]], -1)
  {
    hide Sees, Utf8, Hex, HexValue;
    var (text, n) := Escaped(s);
    SeesAt(str, i, text, 0);
    if |text| == 6 {
      Escape4Back(str, i, CodeOf(s));
    } else if |text| == 2 {
      SeesAt(str, i, text, 1);
    }
  }

  function Bit0(b: Byte): nat {
    if b == 0xA9 then 1 else 0
  }

  // The code point of an escape is the bytes it was written for.
  function CodeOf(s: seq<Byte>): nat
    requires s != []
  {
    if Escaped(s).1 == 3 then 0x2028 + Bit0(s[2]) else s[0]
  }

  lemma Utf8Back(s: seq<Byte>)
    requires s != [] && |Escaped(s).0| == 6
    ensures Held(CodeOf(s)) && Utf8(CodeOf(s)) == s[..Escaped(s).1]
  {
  }

  lemma {:induction false} StringBack(str: seq<Byte>, i: nat, out: seq<Byte>, last: int, s: seq<Byte>)
    requires Held(last) && Sees(str, i, Body(s) + [QUOTE])
    ensures ParseString(str, i, out, last) == Ok(out + Utf8(last) + s, i + |Body(s)| + 1)
    decreases |s|
  {
    if s == [] {
      assert Body(s) + [QUOTE] == [QUOTE];
      SeesAt(str, i, [QUOTE], 0);
      assert out + Utf8(last) + s == out + Utf8(last);
    } else {
      StringStep(str, i, out, last, s);
      var (text, n) := Escaped(s);
      StringBack(str, i + |text|, if |text| == 6 then out + Utf8(last) else out + Utf8(last) + [s[0]], if |text| == 6 then CodeOf(s) else -1, s[n..]);
      StringJoins(out + Utf8(last), s);
    }
  }

  lemma StringStep(str: seq<Byte>, i: nat, out: seq<Byte>, last: int, s: seq<Byte>)
    requires s != [] && Held(last) && Sees(str, i, Body(s) + [QUOTE])
    ensures var (text, n) := Escaped(s);
      && Held(if |text| == 6 then CodeOf(s) else -1) && Sees(str, i + |text|, Body(s[n..]) + [QUOTE]) && |Body(s)| == |text| + |Body(s[n..])|
      && ParseString(str, i, out, last) ==
         ParseString(str, i + |text|, if |text| == 6 then out + Utf8(last) else out + Utf8(last) + [s[0]], if |text| == 6 then CodeOf(s) else -1)
  {
    hide ParseString, Escaped;
    var (text, n) := Escaped(s);
    var rest := Body(s[n..]) + [QUOTE];
    assert Body(s) + [QUOTE] == text + rest;
    SeesParts(str, i, text, rest);
    CharBack(str, i, out, last, s);
    if |text| == 6 {
      Utf8Back(s);
    }
  }

  lemma StringJoins(out: seq<Byte>, s: seq<Byte>)
    requires s != []
    ensures var (text, n) := Escaped(s);
      if |text| == 6 then out + Utf8(CodeOf(s)) + s[n..] == out + s else n == 1 && out + [s[0]] + Utf8(-1) + s[n..] == out + s
  {
    var (text, n) := Escaped(s);
    if |text| == 6 {
      Utf8Back(s);
    }
    assert s == s[..n] + s[n..];
  }

  // ------------------------------------------------------------------
  // Integers
  // ------------------------------------------------------------------

  lemma {:induction false} DigitsBack(n: nat)
    ensures forall k :: 0 <= k < |Digits(n)| ==> IsDigit(Digits(n)[k])
    ensures DigitsValue(Digits(n)) == n
    ensures Digits(n)[0] == ZERO ==> n == 0 && |Digits(n)| == 1
  {
    if n >= 10 {
      DigitsBack(n / 10);
      var d := Digits(n);
      assert d[..|d| - 1] == Digits(n / 10);
    } else {
      assert Digits(n)[..0] == [];
    }
  }

  lemma {:induction false} SkipsDigits(str: seq<Byte>, i: nat, d: seq<Byte>, k: nat)
    requires Sees(str, i, d) && k <= |d| && !IsDigit(Peek(str, i + |d|))
    requires forall j :: 0 <= j < |d| ==> IsDigit(d[j])
    ensures SkipDigits(str, i + k) == i + |d|
    decreases |d| - k
  {
    if k < |d| {
      SeesAt(str, i, d, k);
      SkipsDigits(str, i, d, k + 1);
    }
  }

  // What may follow a number.
  predicate Stops(ch: Byte) {
    !IsDigit(ch) && ch != POINT && ch != 101 && ch != 69
  }

  lemma IntegerBack(str: seq<Byte>, i: nat, n: nat)
    requires Sees(str, i, Digits(n)) && Stops(Peek(str, i + |Digits(n)|))
    ensures IntegerPart(str, i) == Ok((), i + |Digits(n)|)
  {
    var d := Digits(n);
    DigitsBack(n);
    SeesAt(str, i, d, 0);
    SkipsDigits(str, i, d, 1);
  }

  lemma AtoiBack(n: int)
    ensures Atoi(DumpInt(n)) == n
  {
    if n < 0 {
      DigitsBack(-n);
      assert DumpInt(n)[1..] == Digits(-n);
    } else {
      DigitsBack(n);
    }
  }

  // With an integer part and nothing after it.
  lemma NumberBack(str: seq<Byte>, i: nat, j: nat)
    requires i < j <= |str| && Stops(Peek(str, j))
    requires IntegerPart(str, if Peek(str, i) == MINUS then i + 1 else i) == Ok((), j)
    ensures ParseNumber(str, i) == Ok(if j - i <= 9 then Int(Atoi(str[i..j])) else Float(str[i..j]), j)
  {
  }

  // A number is read back as it is if it is short, and goes to strtod otherwise.
  lemma IntBack(str: seq<Byte>, i: nat, n: int)
    requires Sees(str, i, DumpInt(n)) && Stops(Peek(str, i + |DumpInt(n)|))
    ensures var text := DumpInt(n);
      ParseNumber(str, i) == Ok(if |text| <= 9 then Int(n) else Float(text), i + |text|)
  {
    hide IntegerPart, Digits, Atoi, ParseNumber;
    var text := DumpInt(n);
    SeesAt(str, i, text, 0);
    AtoiBack(n);
    if n < 0 {
      assert text == [MINUS] + Digits(-n);
      SeesParts(str, i, [MINUS], Digits(-n));
      IntegerBack(str, i + 1, -n);
    } else {
      DigitsBack(n);
      IntegerBack(str, i, n);
    }
    NumberBack(str, i, i + |text|);
  }

  // ------------------------------------------------------------------
  // Keys
  // ------------------------------------------------------------------

  lemma {:induction false} LessIsStrict(a: seq<Byte>, b: seq<Byte>)
    requires Less(a, b)
    ensures a != b && !Less(b, a)
  {
    if a != [] && a[0] == b[0] {
      LessIsStrict(a[1..], b[1..]);
    }
  }

  lemma {:induction false} PutLast(members: seq<Member>, key: seq<Byte>, value: Value)
    requires forall m :: m in members ==> Less(m.key, key)
    ensures Put(members, key, value) == members + [Member(key, value)]
  {
    if members != [] {
      LessIsStrict(members[0].key, key);
      PutLast(members[1..], key, value);
      assert members == [members[0]] + members[1..];
    }
  }

  // ------------------------------------------------------------------
  // Values
  // ------------------------------------------------------------------

  // The first character of a value is not taken for anything else.
  lemma FirstChar(v: Value)
    requires Plain(v)
    ensures Dump(v) != [] && Visible(Dump(v)[0]) && Dump(v)[0] != CLOSE_ARRAY && Dump(v)[0] != CLOSE_OBJECT
  {
    match v
    case Int(n) => DigitsBack(if n < 0 then -n else n);
    case _ =>
  }

  // What the reader does at depth with the text of a value.
  ghost function Expected(v: Value, i: nat, depth: nat): Outcome<Value> {
    if depth + Depth(v) <= MAX_DEPTH then Ok(v, i + |Dump(v)|) else Fail
  }

  lemma FirstToken(str: seq<Byte>, i: nat, v: Value, comments: bool)
    requires Plain(v) && Sees(str, i, Dump(v))
    ensures Dump(v) != [] && NextToken(str, i, comments) == Ok(Dump(v)[0], i + 1)
    ensures Dump(v)[0] != CLOSE_ARRAY && Dump(v)[0] != CLOSE_OBJECT
  {
    hide Dump, NextToken;
    FirstChar(v);
    var ch := Dump(v)[0];
    assert Dump(v) == [ch] + Dump(v)[1..];
    SeesParts(str, i, [ch], Dump(v)[1..]);
    Token(str, i, ch, comments);
  }

  lemma WordBack(str: seq<Byte>, i: nat, v: Value, depth: nat, comments: bool)
    requires (v.Null? || v.Bool?) && Sees(str, i, Dump(v)) && depth <= MAX_DEPTH
    ensures ParseValue(str, i, depth, comments) == Ok(v, i + |Dump(v)|)
  {
    hide NextToken, ParseNumber, ParseString, ParseItems, ParseMembers;
    FirstToken(str, i, v, comments);
  }

  lemma NumberValueBack(str: seq<Byte>, i: nat, n: int, depth: nat, comments: bool)
    requires Plain(Int(n)) && Sees(str, i, DumpInt(n)) && Stops(Peek(str, i + |DumpInt(n)|)) && depth <= MAX_DEPTH
    ensures ParseValue(str, i, depth, comments) == Ok(Int(n), i + |DumpInt(n)|)
  {
    hide NextToken, ParseNumber, ParseString, ParseItems, ParseMembers, DumpInt;
    FirstToken(str, i, Int(n), comments);
    FirstDigit(n);
    IntBack(str, i, n);
  }

  lemma StringValueBack(str: seq<Byte>, i: nat, s: seq<Byte>, depth: nat, comments: bool)
    requires Sees(str, i, DumpString(s)) && depth <= MAX_DEPTH
    ensures ParseValue(str, i, depth, comments) == Ok(Str(s), i + |DumpString(s)|)
  {
    hide NextToken, ParseNumber, ParseString, ParseItems, ParseMembers, Body;
    FirstToken(str, i, Str(s), comments);
    assert DumpString(s) == [QUOTE] + (Body(s) + [QUOTE]);
    SeesParts(str, i, [QUOTE], Body(s) + [QUOTE]);
    StringBack(str, i + 1, [], -1, s);
    assert [] + Utf8(-1) + s == s;
  }

  lemma AtomBack(str: seq<Byte>, i: nat, v: Value, depth: nat, comments: bool)
    requires Plain(v) && !v.Array? && !v.Object? && Sees(str, i, Dump(v)) && Stops(Peek(str, i + |Dump(v)|))
    ensures ParseValue(str, i, depth, comments) == Expected(v, i, depth)
  {
    if depth <= MAX_DEPTH {
      hide ParseValue, DumpInt, DumpString;
      match v
      case Int(n) => NumberValueBack(str, i, n, depth, comments);
      case Str(s) => StringValueBack(str, i, s, depth, comments);
      case _ => WordBack(str, i, v, depth, comments);
    }
  }

  lemma FirstDigit(n: int)
    ensures DumpInt(n) != [] && (DumpInt(n)[0] == MINUS || IsDigit(DumpInt(n)[0]))
  {
    if n >= 0 {
      DigitsBack(n);
    }
  }

  // After an item or member: the separator and the first character of the next one.
  lemma Separator(str: seq<Byte>, i: nat, next: seq<Byte>, comments: bool)
    requires next != [] && Visible(next[0]) && Sees(str, i, [COMMA, SPACE] + next)
    ensures NextToken(str, i, comments) == Ok(COMMA, i + 1) && NextToken(str, i + 1, comments) == Ok(next[0], i + 3)
    ensures Sees(str, i + 2, next) && Stops(Peek(str, i))
  {
    hide NextToken;
    SeesParts(str, i, [COMMA, SPACE], next);
    SeesParts(str, i, [COMMA], [SPACE]);
    assert [COMMA, SPACE] == [COMMA] + [SPACE];
    Token(str, i, COMMA, comments);
    SeesAt(str, i, [COMMA, SPACE], 0);
    SeesAt(str, i, [COMMA, SPACE], 1);
    SeesAt(str, i + 2, next, 0);
    TokenAfterSpace(str, i + 1, next[0], comments);
  }

  lemma Closing(str: seq<Byte>, i: nat, ch: Byte, comments: bool)
    requires Sees(str, i, [ch]) && (ch == CLOSE_ARRAY || ch == CLOSE_OBJECT)
    ensures NextToken(str, i, comments) == Ok(ch, i + 1) && Stops(Peek(str, i))
  {
    Token(str, i, ch, comments);
    SeesAt(str, i, [ch], 0);
  }

  ghost function ExpectedItems(items: seq<Value>, acc: seq<Value>, i: nat, depth: nat): Outcome<Value> {
    if depth + DepthItems(items) <= MAX_DEPTH then Ok(Array(acc + items), i + |DumpItems(items)| + 1) else Fail
  }

  ghost predicate AllPlain(items: seq<Value>) {
    forall x :: x in items ==> Plain(x)
  }

  // The text of items begins as that of the first.
  lemma ItemsBegin(items: seq<Value>)
    requires items != [] && AllPlain(items)
    ensures DumpItems(items) != [] && Visible(DumpItems(items)[0]) && DumpItems(items)[0] != CLOSE_ARRAY
  {
    FirstChar(items[0]);
  }

  lemma {:induction false} ValueBack(str: seq<Byte>, i: nat, v: Value, depth: nat, comments: bool)
    requires Plain(v) && Sees(str, i, Dump(v)) && Stops(Peek(str, i + |Dump(v)|))
    ensures ParseValue(str, i, depth, comments) == Expected(v, i, depth)
    decreases v
  {
    if v.Array? {
      if v.items != [] {
        assert AllPlain(v.items);
        ArrayBegin(str, i, v.items, comments);
        ItemsBack(str, i + 1, v.items, [], depth, comments);
        assert [] + v.items == v.items;
      }
      ArrayBack(str, i, v.items, depth, comments);
    } else if v.Object? {
      if v.members != [] {
        ObjectBegin(str, i, v.members);
        assert [] + v.members == v.members;
        MembersBack(str, i + 2, v.members, [], depth, comments);
      }
      ObjectBack(str, i, v.members, depth, comments);
    } else {
      AtomBack(str, i, v, depth, comments);
    }
  }

  lemma ArrayBegin(str: seq<Byte>, i: nat, items: seq<Value>, comments: bool)
    requires items != [] && AllPlain(items) && Sees(str, i, Dump(Array(items)))
    ensures Sees(str, i + 1, DumpItems(items) + [CLOSE_ARRAY])
  {
    assert Dump(Array(items)) == [OPEN_ARRAY] + (DumpItems(items) + [CLOSE_ARRAY]);
    SeesParts(str, i, [OPEN_ARRAY], DumpItems(items) + [CLOSE_ARRAY]);
  }

  lemma ArrayBack(str: seq<Byte>, i: nat, items: seq<Value>, depth: nat, comments: bool)
    requires AllPlain(items) && Sees(str, i, Dump(Array(items)))
    requires items != [] ==> i + 1 <= |str| && ParseItems(str, i + 1, [], depth, comments) == ExpectedItems(items, [], i + 1, depth)
    ensures ParseValue(str, i, depth, comments) == Expected(Array(items), i, depth)
  {
    hide NextToken, ParseNumber, ParseString, ParseItems, ParseMembers;
    var v := Array(items);
    FirstToken(str, i, v, comments);
    SeesParts(str, i, [OPEN_ARRAY], DumpItems(items) + [CLOSE_ARRAY]) by {
      assert Dump(v) == [OPEN_ARRAY] + (DumpItems(items) + [CLOSE_ARRAY]);
    }
    if items == [] {
      assert DumpItems(items) + [CLOSE_ARRAY] == [CLOSE_ARRAY];
      Closing(str, i + 1, CLOSE_ARRAY, comments);
    } else {
      ItemsBegin(items);
      SeesParts(str, i + 1, DumpItems(items), [CLOSE_ARRAY]);
      var d := DumpItems(items);
      assert d == [d[0]] + d[1..];
      SeesParts(str, i + 1, [d[0]], d[1..]);
      Token(str, i + 1, d[0], comments);
      assert [] + items == items;
    }
  }

  lemma {:induction false} ItemsBack(str: seq<Byte>, i: nat, items: seq<Value>, acc: seq<Value>, depth: nat, comments: bool)
    requires items != [] && AllPlain(items) && Sees(str, i, DumpItems(items) + [CLOSE_ARRAY])
    ensures ParseItems(str, i, acc, depth, comments) == ExpectedItems(items, acc, i, depth)
    decreases items
  {
    hide ParseItems, ParseValue, NextToken, Dump, DumpItems;
    var v, rest := items[0], items[1..];
    ItemStep(str, i, items, comments);
    ValueBack(str, i, v, depth + 1, comments);
    if rest != [] {
      ItemsBack(str, i + |Dump(v)| + 2, rest, acc + [v], depth, comments);
      assert acc + [v] + rest == acc + items;
    } else {
      assert acc + [v] == acc + items;
    }
    ItemJoin(str, i, items, acc, depth, comments);
  }

  lemma ItemsText(items: seq<Value>)
    requires items != []
    ensures var v, rest := items[0], items[1..];
      && (rest == [] ==> DumpItems(items) == Dump(v))
      && (rest != [] ==>
          && DumpItems(items) + [CLOSE_ARRAY] == Dump(v) + ([COMMA, SPACE] + (DumpItems(rest) + [CLOSE_ARRAY]))
          && |DumpItems(items)| == |Dump(v)| + 2 + |DumpItems(rest)|)
  {
    hide Dump;
    if |items| > 1 {
      Regroup4(Dump(items[0]), [COMMA, SPACE], DumpItems(items[1..]), [CLOSE_ARRAY]);
    }
  }

  lemma Regroup4(a: seq<Byte>, b: seq<Byte>, c: seq<Byte>, d: seq<Byte>)
    ensures (a + b + c) + d == a + (b + (c + d))
  {
  }

  // What stands after the first item.
  lemma ItemStep(str: seq<Byte>, i: nat, items: seq<Value>, comments: bool)
    requires items != [] && AllPlain(items) && Sees(str, i, DumpItems(items) + [CLOSE_ARRAY])
    ensures var v, rest, j := items[0], items[1..], i + |Dump(items[0])|;
      && Plain(v) && AllPlain(rest) && Sees(str, i, Dump(v)) && Stops(Peek(str, j)) && j < |str|
      && (rest == [] ==> NextToken(str, j, comments) == Ok(CLOSE_ARRAY, j + 1) && DumpItems(items) == Dump(v))
      && (rest != [] ==>
          && DumpItems(rest) != [] && Sees(str, j + 2, DumpItems(rest) + [CLOSE_ARRAY])
          && NextToken(str, j, comments) == Ok(COMMA, j + 1)
          && NextToken(str, j + 1, comments) == Ok(DumpItems(rest)[0], j + 3)
          && |DumpItems(items)| == |Dump(v)| + 2 + |DumpItems(rest)|)
  {
    hide NextToken, Dump, Plain, Stops, Sees, DumpItems;
    var v, rest := items[0], items[1..];
    ItemsText(items);
    if rest == [] {
      SeesParts(str, i, Dump(v), [CLOSE_ARRAY]);
      Closing(str, i + |Dump(v)|, CLOSE_ARRAY, comments);
    } else {
      ItemsBegin(rest);
      var tail := DumpItems(rest) + [CLOSE_ARRAY];
      SeesParts(str, i, Dump(v), [COMMA, SPACE] + tail);
      Separator(str, i + |Dump(v)|, tail, comments);
    }
  }

  lemma ItemJoin(str: seq<Byte>, i: nat, items: seq<Value>, acc: seq<Value>, depth: nat, comments: bool)
    requires items != [] && AllPlain(items) && Sees(str, i, DumpItems(items) + [CLOSE_ARRAY])
    requires var v, rest, j := items[0], items[1..], i + |Dump(items[0])|;
      && ParseValue(str, i, depth + 1, comments) == Expected(v, i, depth + 1)
      && (rest == [] ==> acc + [v] == acc + items)
      && (rest != [] ==>
          && acc + [v] + rest == acc + items && j + 2 <= |str|
          && ParseItems(str, j + 2, acc + [v], depth, comments) == ExpectedItems(rest, acc + [v], j + 2, depth))
    ensures ParseItems(str, i, acc, depth, comments) == ExpectedItems(items, acc, i, depth)
  {
    hide NextToken, Dump, Plain, ParseValue, Depth;
    ItemStep(str, i, items, comments);
  }

  // --- objects ---

  ghost predicate PlainMembers(members: seq<Member>) {
    forall m :: m in members ==> Plain(m.value)
  }

  ghost function ExpectedMembers(members: seq<Member>, acc: seq<Member>, i: nat, depth: nat): Outcome<Value> {
    if depth + DepthMembers(members) <= MAX_DEPTH then Ok(Object(acc + members), i + |DumpMembers(members)|) else Fail
  }

  // The text of members after the quote that opens the first key.
  function AfterQuote(members: seq<Member>): seq<Byte>
    requires members != []
  {
    var m := members[0];
    var more := if |members| == 1 then [] else [COMMA, SPACE] + DumpMembers(members[1..]);
    Body(m.key) + [QUOTE] + ([COLON, SPACE] + (Dump(m.value) + more))
  }

  lemma MembersBegin(members: seq<Member>)
    requires members != []
    ensures DumpMembers(members) == [QUOTE] + AfterQuote(members)
  {
    hide Dump, Body;
    var m := members[0];
    var more := if |members| == 1 then [] else [COMMA, SPACE] + DumpMembers(members[1..]);
    Regroup([QUOTE], Body(m.key), [QUOTE], [COLON, SPACE], Dump(m.value), more);
    assert |members| == 1 ==> DumpMember(m) + more == DumpMember(m);
    assert |members| > 1 ==> DumpMembers(members) == DumpMember(m) + more;
  }

  lemma Regroup(a: seq<Byte>, b: seq<Byte>, c: seq<Byte>, d: seq<Byte>, e: seq<Byte>, f: seq<Byte>)
    ensures (a + b + c) + d + e + f == a + (b + c + (d + (e + f)))
  {
  }

  lemma ObjectBegin(str: seq<Byte>, i: nat, members: seq<Member>)
    requires members != [] && Sees(str, i, Dump(Object(members)))
    ensures Sees(str, i + 1, [QUOTE]) && Sees(str, i + 2, AfterQuote(members) + [CLOSE_OBJECT])
  {
    var tail := AfterQuote(members) + [CLOSE_OBJECT];
    MembersBegin(members);
    assert Dump(Object(members)) == [OPEN_OBJECT] + ([QUOTE] + tail);
    SeesParts(str, i, [OPEN_OBJECT], [QUOTE] + tail);
    SeesParts(str, i + 1, [QUOTE], tail);
  }

  lemma ObjectBack(str: seq<Byte>, i: nat, members: seq<Member>, depth: nat, comments: bool)
    requires Plain(Object(members)) && Sees(str, i, Dump(Object(members)))
    requires members != [] ==> i + 2 <= |str| && ParseMembers(str, i + 2, [], depth, comments) == ExpectedMembers(members, [], i + 2, depth)
    ensures ParseValue(str, i, depth, comments) == Expected(Object(members), i, depth)
  {
    hide NextToken, ParseNumber, ParseString, ParseItems, ParseMembers;
    var v := Object(members);
    FirstToken(str, i, v, comments);
    if members == [] {
      assert Dump(v) == [OPEN_OBJECT] + [CLOSE_OBJECT];
      SeesParts(str, i, [OPEN_OBJECT], [CLOSE_OBJECT]);
      Closing(str, i + 1, CLOSE_OBJECT, comments);
    } else {
      ObjectBegin(str, i, members);
      Token(str, i + 1, QUOTE, comments);
      assert [] + members == members;
    }
  }

  // White space in front of a value does not matter.
  lemma LeadingSpace(str: seq<Byte>, i: nat, depth: nat, comments: bool)
    requires i < |str| && str[i] == SPACE
    ensures ParseValue(str, i, depth, comments) == ParseValue(str, i + 1, depth, comments)
  {
    hide ParseNumber, ParseString, ParseItems, ParseMembers, NextToken, Expect;
    SameToken(str, i, comments);
  }

  lemma SameToken(str: seq<Byte>, i: nat, comments: bool)
    requires i < |str| && str[i] == SPACE
    ensures NextToken(str, i, comments) == NextToken(str, i + 1, comments)
  {
    assert SkipSpace(str, i) == SkipSpace(str, i + 1);
  }

  lemma {:induction false} MembersBack(str: seq<Byte>, i: nat, members: seq<Member>, acc: seq<Member>, depth: nat, comments: bool)
    requires members != [] && PlainMembers(members) && Ascending(acc + members) && Sees(str, i, AfterQuote(members) + [CLOSE_OBJECT])
    ensures ParseMembers(str, i, acc, depth, comments) == ExpectedMembers(members, acc, i, depth)
    decreases members
  {
    hide ParseMembers, ParseValue, NextToken, Dump, DumpMembers, Body, AfterQuote;
    var m, rest := members[0], members[1..];
    var k := i + |Body(m.key)| + 1;
    MemberStep(str, i, members, comments);
    LeadingSpace(str, k + 1, depth + 1, comments);
    ValueBack(str, k + 2, m.value, depth + 1, comments);
    StringBack(str, i, [], -1, m.key);
    KeyIsLast(members, acc);
    if rest != [] {
      assert acc + [m] + rest == acc + members;
      MembersBack(str, k + 2 + |Dump(m.value)| + 3, rest, acc + [m], depth, comments);
    } else {
      assert acc + [m] == acc + members;
    }
    MemberJoin(str, i, members, acc, depth, comments);
  }

  lemma KeyIsLast(members: seq<Member>, acc: seq<Member>)
    requires members != [] && Ascending(acc + members)
    ensures Put(acc, members[0].key, members[0].value) == acc + [members[0]]
  {
    var all := acc + members;
    forall x | x in acc ensures Less(x.key, members[0].key) {
      var n :| 0 <= n < |acc| && acc[n] == x;
      assert all[n] == x && all[|acc|] == members[0];
    }
    PutLast(acc, members[0].key, members[0].value);
  }

  // What stands after the key of the first member.
  lemma MemberStep(str: seq<Byte>, i: nat, members: seq<Member>, comments: bool)
    requires members != [] && PlainMembers(members) && Sees(str, i, AfterQuote(members) + [CLOSE_OBJECT])
    ensures var m, rest := members[0], members[1..];
      var k := i + |Body(m.key)| + 1;
      var j := k + 2 + |Dump(m.value)|;
      && Plain(m.value) && PlainMembers(rest) && Sees(str, i, Body(m.key) + [QUOTE]) && j < |str|
      && NextToken(str, k, comments) == Ok(COLON, k + 1) && str[k + 1] == SPACE
      && Sees(str, k + 2, Dump(m.value)) && Stops(Peek(str, j))
      && (rest == [] ==> NextToken(str, j, comments) == Ok(CLOSE_OBJECT, j + 1) && i + |DumpMembers(members)| == j + 1)
      && (rest != [] ==>
          && Sees(str, j + 3, AfterQuote(rest) + [CLOSE_OBJECT])
          && NextToken(str, j, comments) == Ok(COMMA, j + 1) && NextToken(str, j + 1, comments) == Ok(QUOTE, j + 3)
          && i + |DumpMembers(members)| == j + 3 + |DumpMembers(rest)|)
  {
    hide NextToken, Dump, Plain, Body, AfterQuote, DumpMembers, Stops, Sees;
    var m, rest := members[0], members[1..];
    var more := MoreText(rest);
    var tail := Dump(m.value) + (more + [CLOSE_OBJECT]);
    var k := i + |Body(m.key)| + 1;
    AfterQuoteIs(members);
    SeesParts(str, i, Body(m.key) + [QUOTE], [COLON, SPACE] + tail);
    ColonStep(str, k, tail, comments);
    SeesParts(str, k + 2, Dump(m.value), more + [CLOSE_OBJECT]);
    MoreStep(str, k + 2 + |Dump(m.value)|, rest, more, comments);
  }

  // The text after a member.
  function MoreText(rest: seq<Member>): seq<Byte> {
    if rest == [] then [] else [COMMA, SPACE] + DumpMembers(rest)
  }

  lemma AfterQuoteIs(members: seq<Member>)
    requires members != []
    ensures var m, more := members[0], MoreText(members[1..]);
      && AfterQuote(members) + [CLOSE_OBJECT] == (Body(m.key) + [QUOTE]) + ([COLON, SPACE] + (Dump(m.value) + (more + [CLOSE_OBJECT])))
      && |DumpMembers(members)| == 1 + |Body(m.key)| + 3 + |Dump(m.value)| + |more|
      && |more| == if |members| == 1 then 0 else 2 + |DumpMembers(members[1..])|
  {
    hide Dump, Body;
    MembersBegin(members);
  }

  lemma ColonStep(str: seq<Byte>, k: nat, tail: seq<Byte>, comments: bool)
    requires Sees(str, k, [COLON, SPACE] + tail)
    ensures NextToken(str, k, comments) == Ok(COLON, k + 1) && k + 1 < |str| && str[k + 1] == SPACE && Sees(str, k + 2, tail)
  {
    SeesParts(str, k, [COLON, SPACE], tail);
    SeesAt(str, k, [COLON, SPACE], 0);
    SeesAt(str, k, [COLON, SPACE], 1);
    NoGarbage(str, k, comments);
  }

  lemma MoreStep(str: seq<Byte>, j: nat, rest: seq<Member>, more: seq<Byte>, comments: bool)
    requires more == MoreText(rest) && Sees(str, j, more + [CLOSE_OBJECT])
    ensures Stops(Peek(str, j)) && j < |str|
    ensures rest == [] ==> NextToken(str, j, comments) == Ok(CLOSE_OBJECT, j + 1)
    ensures rest != [] ==>
      && Sees(str, j + 3, AfterQuote(rest) + [CLOSE_OBJECT])
      && NextToken(str, j, comments) == Ok(COMMA, j + 1) && NextToken(str, j + 1, comments) == Ok(QUOTE, j + 3)
  {
    hide NextToken, Dump, Body, AfterQuote, DumpMembers;
    if rest == [] {
      assert more + [CLOSE_OBJECT] == [CLOSE_OBJECT];
      Closing(str, j, CLOSE_OBJECT, comments);
    } else {
      MembersBegin(rest);
      var next := [QUOTE] + (AfterQuote(rest) + [CLOSE_OBJECT]);
      assert more + [CLOSE_OBJECT] == [COMMA, SPACE] + next;
      Separator(str, j, next, comments);
      SeesParts(str, j + 2, [QUOTE], AfterQuote(rest) + [CLOSE_OBJECT]);
    }
  }

  lemma MemberJoin(str: seq<Byte>, i: nat, members: seq<Member>, acc: seq<Member>, depth: nat, comments: bool)
    requires members != [] && PlainMembers(members) && Sees(str, i, AfterQuote(members) + [CLOSE_OBJECT])
    requires var m, rest := members[0], members[1..];
      var k := i + |Body(m.key)| + 1;
      var j := k + 2 + |Dump(m.value)|;
      && ParseString(str, i, [], -1) == Ok([] + Utf8(-1) + m.key, k) && j < |str|
      && ParseValue(str, k + 1, depth + 1, comments) == Expected(m.value, k + 2, depth + 1)
      && Put(acc, m.key, m.value) == acc + [m]
      && (rest == [] ==> acc + [m] == acc + members)
      && (rest != [] ==>
          && acc + [m] + rest == acc + members && j + 3 <= |str|
          && ParseMembers(str, j + 3, acc + [m], depth, comments) == ExpectedMembers(rest, acc + [m], j + 3, depth))
    ensures ParseMembers(str, i, acc, depth, comments) == ExpectedMembers(members, acc, i, depth)
  {
    hide NextToken, Dump, Plain, ParseValue, Depth, Body, ParseString, Put, AfterQuote, DumpMembers, Sees, Stops;
    assert [] + Utf8(-1) + members[0].key == members[0].key;
    MemberStep(str, i, members, comments);
  }

  /** What is printed is read back, under either strategy, exactly when it is not nested too deeply. */
  lemma RoundTrip(v: Value, comments: bool)
    requires Plain(v)
    ensures Parse(Dump(v), comments) == if Depth(v) <= 200 then Ok(v, |Dump(v)|) else Fail
  {
    hide ParseValue, Dump, SkipGarbage;
    var str := Dump(v);
    assert str[0..0 + |str|] == str;
    ValueBack(str, 0, v, 0, comments);
    NoGarbage(str, |str|, comments);
  }

  /** An integer of more than nine characters comes back as a floating-point number. */
  lemma LongIntegers(n: int, comments: bool)
    ensures Parse(DumpInt(n), comments) == Ok(if |DumpInt(n)| <= 9 then Int(n) else Float(DumpInt(n)), |DumpInt(n)|)
  {
    hide ParseNumber, SkipGarbage, DumpInt;
    var str := DumpInt(n);
    assert str[0..0 + |str|] == str;
    FirstDigit(n);
    SeesAt(str, 0, str, 0);
    NoGarbage(str, 0, comments);
    IntBack(str, 0, n);
    NoGarbage(str, |str|, comments);
  }
}
