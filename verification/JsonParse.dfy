/** The JSON reader (deps/json11/json11.cpp) as functions of the text and a position. A failure stays
    a failure to the end of a parse, so it is enough to know that there was one. */
module JsonParse {
  import opened Json

  datatype Outcome<T> = Fail | Ok(v: T, i: nat)

  const MAX_DEPTH: nat := 200

  // Reading at the end of a std::string gives the terminating NUL.
  function Peek(str: seq<Byte>, i: nat): Byte {
    if i < |str| then str[i] else 0
  }

  predicate IsSpace(ch: Byte) {
    ch == 32 || ch == 13 || ch == 10 || ch == 9
  }

  predicate IsDigit(ch: Byte) {
    48 <= ch <= 57
  }

  predicate IsHex(ch: Byte) {
    48 <= ch <= 57 || 97 <= ch <= 102 || 65 <= ch <= 70
  }

  // ------------------------------------------------------------------
  // White space and comments
  // ------------------------------------------------------------------

  function SkipSpace(str: seq<Byte>, i: nat): (r: nat)
    requires i <= |str|
    ensures i <= r <= |str|
    decreases |str| - i
  {
    if IsSpace(Peek(str, i)) then SkipSpace(str, i + 1) else i
  }

  // To the end of the line.
  function SkipLine(str: seq<Byte>, i: nat): (r: Outcome<()>)
    requires i <= |str|
    ensures r.Ok? ==> i <= r.i < |str|
    decreases |str| - i
  {
    if i == |str| then Fail else if str[i] == NEWLINE then Ok((), i) else SkipLine(str, i + 1)
  }

  // Past the end of a comment, which must not be the end of the text.
  function SkipBlock(str: seq<Byte>, i: nat): (r: Outcome<()>)
    requires i <= |str|
    ensures r.Ok? ==> i < r.i < |str|
    decreases |str| - i
  {
    if i + 2 > |str| then Fail
    else if str[i] == STAR && str[i + 1] == SLASH then if i + 2 == |str| then Fail else Ok((), i + 2)
    else SkipBlock(str, i + 1)
  }

  // consume_comment: whether there was one.
  function SkipComment(str: seq<Byte>, i: nat): (r: Outcome<bool>)
    requires i <= |str|
    ensures r.Ok? ==> i <= r.i <= |str| && (r.v ==> i < r.i)
  {
    if Peek(str, i) != SLASH then Ok(false, i)
    else if i + 1 == |str| then Fail
    else if str[i + 1] == SLASH then
      var r := SkipLine(str, i + 2);
      if r.Ok? then Ok(true, r.i) else Fail
    else if str[i + 1] == STAR then
      var r := SkipBlock(str, i + 2);
      if r.Ok? then Ok(true, r.i) else Fail
    else Fail
  }

  // consume_garbage
  function SkipGarbage(str: seq<Byte>, i: nat, comments: bool): (r: Outcome<()>)
    requires i <= |str|
    ensures r.Ok? ==> i <= r.i <= |str|
    decreases |str| - i
  {
    var j := SkipSpace(str, i);
    if !comments then Ok((), j)
    else
      var c := SkipComment(str, j);
      if c.Fail? then Fail
      else if c.v then SkipGarbage(str, c.i, comments)
      else Ok((), SkipSpace(str, c.i))
  }

  // get_next_token
  function NextToken(str: seq<Byte>, i: nat, comments: bool): (r: Outcome<Byte>)
    requires i <= |str|
    ensures r.Ok? ==> i < r.i <= |str|
  {
    var g := SkipGarbage(str, i, comments);
    if g.Fail? || g.i == |str| then Fail else Ok(str[g.i], g.i + 1)
  }

  // ------------------------------------------------------------------
  // Strings
  // ------------------------------------------------------------------

  // encode_utf8; -1 for no character
  function Utf8(pt: int): seq<Byte>
    requires pt < 0x110000
  {
    if pt < 0 then []
    else if pt < 0x80 then [pt]
    else if pt < 0x800 then [0xC0 + pt / 64, 0x80 + pt % 64]
    else if pt < 0x10000 then [0xE0 + pt / 4096, 0x80 + pt / 64 % 64, 0x80 + pt % 64]
    else [0xF0 + pt / 0x40000, 0x80 + pt / 4096 % 64, 0x80 + pt / 64 % 64, 0x80 + pt % 64]
  }

  function HexValue(ch: Byte): nat
    requires IsHex(ch)
    ensures HexValue(ch) < 16
  {
    if ch <= 57 then ch - 48 else if ch <= 70 then ch - 55 else ch - 87
  }

  // The four digits of a \u escape.
  function Hex4(str: seq<Byte>, i: nat): (code: nat)
    requires i + 4 <= |str| && IsHex(str[i]) && IsHex(str[i + 1]) && IsHex(str[i + 2]) && IsHex(str[i + 3])
    ensures code < 0x10000
  {
    4096 * HexValue(str[i]) + 256 * HexValue(str[i + 1]) + 16 * HexValue(str[i + 2]) + HexValue(str[i + 3])
  }

  predicate IsLead(code: int) {
    0xD800 <= code <= 0xDBFF
  }

  predicate IsTrail(code: int) {
    0xDC00 <= code <= 0xDFFF
  }

  // What a one-letter escape stands for; 0 for none.
  function Letter(ch: Byte): Byte {
    if ch == 98 then 8 else if ch == 102 then 12 else if ch == 110 then 10 else if ch == 114 then 13
    else if ch == 116 then 9 else if ch == QUOTE || ch == BACKSLASH || ch == SLASH then ch else 0
  }

  // parse_string, after the opening quote. The code point of a \u escape is held back in last (-1 for
  // none): it may be the first half of a pair.
  function ParseString(str: seq<Byte>, i: nat, out: seq<Byte>, last: int): (r: Outcome<seq<Byte>>)
    requires i <= |str| && -1 <= last < 0x10000
    ensures r.Ok? ==> i < r.i <= |str|
    decreases |str| - i
  {
    if i == |str| then Fail
    else
      var ch := str[i];
      if ch == QUOTE then Ok(out + Utf8(last), i + 1)
      else if ch <= 0x1F then Fail
      else if ch != BACKSLASH then ParseString(str, i + 1, out + Utf8(last) + [ch], -1)
      else if i + 1 == |str| then Fail
      else if str[i + 1] == 117 then
        if i + 6 > |str| then Fail
        else if !(IsHex(str[i + 2]) && IsHex(str[i + 3]) && IsHex(str[i + 4]) && IsHex(str[i + 5])) then Fail
        else
          var code := Hex4(str, i + 2);
          if IsLead(last) && IsTrail(code) then
            ParseString(str, i + 6, out + Utf8((last - 0xD800) * 1024 + (code - 0xDC00) + 0x10000), -1)
          else ParseString(str, i + 6, out + Utf8(last), code)
      else if Letter(str[i + 1]) == 0 then Fail
      else ParseString(str, i + 2, out + Utf8(last) + [Letter(str[i + 1])], -1)
  }

  // ------------------------------------------------------------------
  // Numbers
  // ------------------------------------------------------------------

  function SkipDigits(str: seq<Byte>, i: nat): (r: nat)
    requires i <= |str|
    ensures i <= r <= |str| && (r == i <==> !IsDigit(Peek(str, i)))
    decreases |str| - i
  {
    if IsDigit(Peek(str, i)) then SkipDigits(str, i + 1) else i
  }

  // The value of decimal digits, after what came before.
  function DigitsValue(text: seq<Byte>): nat {
    if text == [] then 0 else 10 * DigitsValue(text[..|text| - 1]) + (if text[|text| - 1] >= 48 then text[|text| - 1] - 48 else 0)
  }

  function Atoi(text: seq<Byte>): int {
    if text != [] && text[0] == MINUS then 0 - DigitsValue(text[1..]) else DigitsValue(text)
  }

  // The integer part: one 0, or digits that begin with another one.
  function IntegerPart(str: seq<Byte>, i: nat): (r: Outcome<()>)
    requires i <= |str|
    ensures r.Ok? ==> i < r.i <= |str|
  {
    if Peek(str, i) == ZERO then if IsDigit(Peek(str, i + 1)) then Fail else Ok((), i + 1)
    else if IsDigit(Peek(str, i)) then Ok((), SkipDigits(str, i + 1))
    else Fail
  }

  function Fraction(str: seq<Byte>, i: nat): (r: Outcome<()>)
    requires i <= |str|
    ensures r.Ok? ==> i <= r.i <= |str|
  {
    if Peek(str, i) != POINT then Ok((), i)
    else if !IsDigit(Peek(str, i + 1)) then Fail
    else Ok((), SkipDigits(str, i + 1))
  }

  function Exponent(str: seq<Byte>, i: nat): (r: Outcome<()>)
    requires i <= |str|
    ensures r.Ok? ==> i <= r.i <= |str|
  {
    if Peek(str, i) != 101 && Peek(str, i) != 69 then Ok((), i)
    else
      var j := if Peek(str, i + 1) == 43 || Peek(str, i + 1) == MINUS then i + 2 else i + 1;
      if !IsDigit(Peek(str, j)) then Fail else Ok((), SkipDigits(str, j))
  }

  // parse_number: a short integer goes to atoi, anything else to strtod.
  function ParseNumber(str: seq<Byte>, start: nat): (r: Outcome<Value>)
    requires start <= |str|
    ensures r.Ok? ==> start < r.i <= |str|
  {
    var n := IntegerPart(str, if Peek(str, start) == MINUS then start + 1 else start);
    if n.Fail? then Fail
    else
      var ch := Peek(str, n.i);
      if ch != POINT && ch != 101 && ch != 69 && n.i - start <= 9 then Ok(Int(Atoi(str[start..n.i])), n.i)
      else
        var f := Fraction(str, n.i);
        if f.Fail? then Fail
        else
          var e := Exponent(str, f.i);
          if e.Fail? then Fail else Ok(Float(str[start..e.i]), e.i)
  }

  // ------------------------------------------------------------------
  // Values
  // ------------------------------------------------------------------

  function Expect(str: seq<Byte>, i: nat, word: seq<Byte>, v: Value): (r: Outcome<Value>)
    requires i <= |str| && word != []
    ensures r.Ok? ==> i < r.i <= |str|
  {
    if i + |word| <= |str| && str[i..i + |word|] == word then Ok(v, i + |word|) else Fail
  }

  // data[key] = value on a std::map
  function Put(members: seq<Member>, key: seq<Byte>, value: Value): seq<Member> {
    if members == [] then [Member(key, value)]
    else if members[0].key == key then [Member(key, value)] + members[1..]
    else if Less(key, members[0].key) then [Member(key, value)] + members
    else [members[0]] + Put(members[1..], key, value)
  }

  // parse_json
  function ParseValue(str: seq<Byte>, i: nat, depth: nat, comments: bool): (r: Outcome<Value>)
    requires i <= |str|
    ensures r.Ok? ==> i < r.i <= |str|
    decreases |str| - i, 0
  {
    if depth > MAX_DEPTH then Fail
    else
      var t := NextToken(str, i, comments);
      if t.Fail? then Fail
      else
        var ch := t.v;
        if ch == MINUS || IsDigit(ch) then ParseNumber(str, t.i - 1)
        else if ch == 116 then Expect(str, t.i - 1, [116, 114, 117, 101], Bool(true))
        else if ch == 102 then Expect(str, t.i - 1, [102, 97, 108, 115, 101], Bool(false))
        else if ch == 110 then Expect(str, t.i - 1, [110, 117, 108, 108], Null)
        else if ch == QUOTE then
          var s := ParseString(str, t.i, [], -1);
          if s.Fail? then Fail else Ok(Str(s.v), s.i)
        else if ch == OPEN_OBJECT then
          var u := NextToken(str, t.i, comments);
          if u.Fail? then Fail
          else if u.v == CLOSE_OBJECT then Ok(Object([]), u.i)
          else if u.v != QUOTE then Fail
          else ParseMembers(str, u.i, [], depth, comments)
        else if ch == OPEN_ARRAY then
          var u := NextToken(str, t.i, comments);
          if u.Fail? then Fail
          else if u.v == CLOSE_ARRAY then Ok(Array([]), u.i)
          else ParseItems(str, u.i - 1, [], depth, comments)
        else Fail
  }

  // The loop over the items of an array, at the beginning of one.
  function ParseItems(str: seq<Byte>, i: nat, items: seq<Value>, depth: nat, comments: bool): (r: Outcome<Value>)
    requires i <= |str|
    ensures r.Ok? ==> i < r.i <= |str|
    decreases |str| - i, 1
  {
    var v := ParseValue(str, i, depth + 1, comments);
    if v.Fail? then Fail
    else
      var t := NextToken(str, v.i, comments);
      if t.Fail? then Fail
      else if t.v == CLOSE_ARRAY then Ok(Array(items + [v.v]), t.i)
      else if t.v != COMMA then Fail
      else
        var u := NextToken(str, t.i, comments);
        if u.Fail? then Fail else ParseItems(str, u.i - 1, items + [v.v], depth, comments)
  }

  // The loop over the members of an object, after the quote that opens a key.
  function ParseMembers(str: seq<Byte>, i: nat, members: seq<Member>, depth: nat, comments: bool): (r: Outcome<Value>)
    requires i <= |str|
    ensures r.Ok? ==> i < r.i <= |str|
    decreases |str| - i, 1
  {
    var key := ParseString(str, i, [], -1);
    if key.Fail? then Fail
    else
      var c := NextToken(str, key.i, comments);
      if c.Fail? || c.v != COLON then Fail
      else
        var v := ParseValue(str, c.i, depth + 1, comments);
        if v.Fail? then Fail
        else
          var more := Put(members, key.v, v.v);
          var t := NextToken(str, v.i, comments);
          if t.Fail? then Fail
          else if t.v == CLOSE_OBJECT then Ok(Object(more), t.i)
          else if t.v != COMMA then Fail
          else
            var u := NextToken(str, t.i, comments);
            if u.Fail? || u.v != QUOTE then Fail else ParseMembers(str, u.i, more, depth, comments)
  }

  // Json::parse
  function Parse(str: seq<Byte>, comments: bool): Outcome<Value> {
    var v := ParseValue(str, 0, 0, comments);
    if v.Fail? then Fail
    else
      var g := SkipGarbage(str, v.i, comments);
      if g.Fail? || g.i != |str| then Fail else Ok(v.v, g.i)
  }
}
