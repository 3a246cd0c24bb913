/** The JSON printer and reader as json11 runs them (deps/json11/json11.cpp): loops that append to a
    string, and a parser object with a cursor and a failure flag. */
module JsonReader {
  import opened Json
  import opened JsonParse

  // ------------------------------------------------------------------
  // dump
  // ------------------------------------------------------------------

  method PrintString(value: seq<Byte>, out0: seq<Byte>) returns (out: seq<Byte>)
    ensures out == out0 + DumpString(value)
  {
    hide Escaped;
    out := out0 + [QUOTE];
    var i := 0;
    while i < |value|
      invariant i <= |value| && out + Body(value[i..]) == out0 + [QUOTE] + Body(value)
    {
      var (text, n) := Escaped(value[i..]);
      assert value[i..][n..] == value[i + n..];
      assert out + (text + Body(value[i + n..])) == (out + text) + Body(value[i + n..]);
      out := out + text;
      i := i + n;
    }
    assert out + Body([]) == out;
    out := out + [QUOTE];
  }

  method PrintValue(v: Value, out0: seq<Byte>) returns (out: seq<Byte>)
    ensures out == out0 + Dump(v)
    decreases v, 1
  {
    match v
    case Str(s) => out := PrintString(s, out0);
    case Array(items) => out := PrintArray(items, out0);
    case Object(members) => out := PrintObject(members, out0);
    case _ => out := out0 + Dump(v);
  }

  // The text of the items before n, with the commas between them.
  function ItemsBefore(items: seq<Value>, n: nat): seq<Byte>
    requires n <= |items|
  {
    if n == 0 then [] else ItemsBefore(items, n - 1) + (if n == 1 then [] else [COMMA, SPACE]) + Dump(items[n - 1])
  }

  lemma {:induction false} AllItems(items: seq<Value>, n: nat)
    requires n <= |items|
    ensures DumpItems(items) == ItemsBefore(items, n) + (if 0 < n < |items| then [COMMA, SPACE] else []) + DumpItems(items[n..])
    decreases n
  {
    hide Dump;
    if n > 0 {
      AllItems(items, n - 1);
      assert items[n - 1..][1..] == items[n..];
      var a, b, c, d := ItemsBefore(items, n - 1), if n == 1 then [] else [COMMA, SPACE], Dump(items[n - 1]), DumpItems(items[n..]);
      if n < |items| {
        assert a + b + (c + [COMMA, SPACE] + d) == a + b + c + [COMMA, SPACE] + d;
      } else {
        assert a + b + c + [] + [] == a + b + c;
      }
    }
  }

  method PrintArray(items: seq<Value>, out0: seq<Byte>) returns (out: seq<Byte>)
    ensures out == out0 + Dump(Array(items))
    decreases items, 0
  {
    hide DumpItems;
    var first := true;
    out := out0 + [OPEN_ARRAY];
    for n := 0 to |items|
      invariant first == (n == 0) && out == out0 + [OPEN_ARRAY] + ItemsBefore(items, n)
    {
      if !first {
        out := out + [COMMA, SPACE];
      }
      out := PrintValue(items[n], out);
      first := false;
    }
    AllItems(items, |items|);
    NoItems(items);
    out := out + [CLOSE_ARRAY];
  }

  lemma NoItems(items: seq<Value>)
    ensures DumpItems(items[|items|..]) == []
  {
  }

  function MembersBefore(members: seq<Member>, n: nat): seq<Byte>
    requires n <= |members|
  {
    if n == 0 then [] else MembersBefore(members, n - 1) + (if n == 1 then [] else [COMMA, SPACE]) + DumpMember(members[n - 1])
  }

  lemma {:induction false} AllMembers(members: seq<Member>, n: nat)
    requires n <= |members|
    ensures DumpMembers(members) == MembersBefore(members, n) + (if 0 < n < |members| then [COMMA, SPACE] else []) + DumpMembers(members[n..])
    decreases n
  {
    hide DumpMember;
    if n > 0 {
      AllMembers(members, n - 1);
      assert members[n - 1..][1..] == members[n..];
      var a, b, c, d := MembersBefore(members, n - 1), if n == 1 then [] else [COMMA, SPACE], DumpMember(members[n - 1]), DumpMembers(members[n..]);
      if n < |members| {
        assert a + b + (c + [COMMA, SPACE] + d) == a + b + c + [COMMA, SPACE] + d;
      } else {
        assert a + b + c + [] + [] == a + b + c;
      }
    }
  }

  method PrintMember(m: Member, out0: seq<Byte>) returns (out: seq<Byte>)
    ensures out == out0 + DumpMember(m)
    decreases m, 0
  {
    hide Dump, DumpString;
    out := PrintString(m.key, out0);
    out := out + [COLON, SPACE];
    out := PrintValue(m.value, out);
  }

  method PrintObject(members: seq<Member>, out0: seq<Byte>) returns (out: seq<Byte>)
    ensures out == out0 + Dump(Object(members))
    decreases members, 0
  {
    hide DumpMembers, DumpMember;
    var first := true;
    out := out0 + [OPEN_OBJECT];
    for n := 0 to |members|
      invariant first == (n == 0) && out == out0 + [OPEN_OBJECT] + MembersBefore(members, n)
    {
      if !first {
        out := out + [COMMA, SPACE];
      }
      out := PrintMember(members[n], out);
      first := false;
    }
    AllMembers(members, |members|);
    NoMembers(members);
    out := out + [CLOSE_OBJECT];
  }

  lemma NoMembers(members: seq<Member>)
    ensures DumpMembers(members[|members|..]) == []
  {
  }

  // ------------------------------------------------------------------
  // JsonParser
  // ------------------------------------------------------------------

  // (Where json11 goes on for a few characters after a failure, this stops at once.)
  class Parser {
    const str: seq<Byte>
    const comments: bool
    var i: nat
    var failed: bool

    constructor (text: seq<Byte>, comments: bool)
      ensures str == text && this.comments == comments && i == 0 && !failed
    {
      str, this.comments, i, failed := text, comments, 0, false;
    }

    ghost predicate Valid()
      reads this
    {
      i <= |str|
    }

    method ConsumeWhitespace()
      requires Valid()
      modifies `i
      ensures Valid() && i == SkipSpace(str, old(i))
    {
      while IsSpace(Peek(str, i))
        invariant Valid() && SkipSpace(str, i) == SkipSpace(str, old(i))
        decreases |str| - i
      {
        i := i + 1;
      }
    }

    method Fails()
      modifies `failed
      ensures failed
    {
      failed := true;
    }

    // The rest of a comment, after its two opening characters.
    method ConsumeLine() returns (found: bool)
      requires Valid()
      modifies this
      ensures Valid() && found == SkipLine(str, old(i)).Ok? && (found ==> i == SkipLine(str, old(i)).i)
      ensures failed == (old(failed) || !found)
    {
      if i == |str| {
        Fails();
        return false;
      }
      while str[i] != NEWLINE
        invariant i < |str| && failed == old(failed) && SkipLine(str, i) == SkipLine(str, old(i))
        decreases |str| - i
      {
        i := i + 1;
        if i == |str| {
          Fails();
          return false;
        }
      }
      found := true;
    }

    method ConsumeBlock() returns (found: bool)
      requires Valid()
      modifies this
      ensures Valid() && found == SkipBlock(str, old(i)).Ok? && (found ==> i == SkipBlock(str, old(i)).i)
      ensures failed == (old(failed) || !found)
    {
      if i + 2 > |str| {
        Fails();
        return false;
      }
      while !(str[i] == STAR && str[i + 1] == SLASH)
        invariant i + 2 <= |str| && failed == old(failed) && SkipBlock(str, i) == SkipBlock(str, old(i))
        decreases |str| - i
      {
        i := i + 1;
        if i + 2 > |str| {
          Fails();
          return false;
        }
      }
      i := i + 2;
      if i == |str| {
        Fails();
        return false;
      }
      found := true;
    }

    method ConsumeComment() returns (found: bool)
      requires Valid()
      modifies this
      ensures Valid() && failed == (old(failed) || SkipComment(str, old(i)).Fail?)
      ensures SkipComment(str, old(i)).Fail? ==> !found
      ensures SkipComment(str, old(i)).Ok? ==> found == SkipComment(str, old(i)).v && i == SkipComment(str, old(i)).i
    {
      found := false;
      if Peek(str, i) == SLASH {
        i := i + 1;
        if i == |str| {
          Fails();
        } else if str[i] == SLASH {
          i := i + 1;
          found := ConsumeLine();
        } else if str[i] == STAR {
          i := i + 1;
          found := ConsumeBlock();
        } else {
          Fails();
        }
      }
    }

    method ConsumeGarbage()
      requires Valid()
      modifies this
      ensures Valid() && failed == (old(failed) || SkipGarbage(str, old(i), comments).Fail?)
      ensures SkipGarbage(str, old(i), comments).Ok? ==> i == SkipGarbage(str, old(i), comments).i
    {
      ghost var start := i;
      ConsumeWhitespace();
      if comments {
        ghost var from: nat := start;
        var found := true;
        while found
          invariant Valid() && (found ==> from <= |str| && i == SkipSpace(str, from) && failed == old(failed))
          invariant found ==> SkipGarbage(str, from, true) == SkipGarbage(str, start, true)
          invariant !found ==> failed == (old(failed) || SkipGarbage(str, start, true).Fail?)
          invariant !found && SkipGarbage(str, start, true).Ok? ==> i == SkipGarbage(str, start, true).i
          decreases found, |str| - i
        {
          found := ConsumeComment();
          from := i;
          ConsumeWhitespace();
        }
      }
    }

    method GetNextToken() returns (ch: Byte)
      requires Valid()
      modifies this
      ensures Valid() && failed == (old(failed) || NextToken(str, old(i), comments).Fail?)
      ensures NextToken(str, old(i), comments).Ok? ==>
        ch == NextToken(str, old(i), comments).v && i == NextToken(str, old(i), comments).i
    {
      ConsumeGarbage();
      if i == |str| {
        Fails();
        return 0;
      }
      ch := str[i];
      i := i + 1;
    }

    method ParseStringBody() returns (out: seq<Byte>)
      requires Valid()
      modifies this
      ensures Valid() && failed == (old(failed) || ParseString(str, old(i), [], -1).Fail?)
      ensures ParseString(str, old(i), [], -1).Ok? ==>
        out == ParseString(str, old(i), [], -1).v && i == ParseString(str, old(i), [], -1).i
    {
      out := [];
      var last := -1;
      ghost var spec := ParseString(str, i, [], -1);
      while true
        invariant Valid() && -1 <= last < 0x10000 && failed == old(failed) && spec == ParseString(str, i, out, last)
        decreases |str| - i
      {
        if i == |str| {
          Fails();
          return;
        }
        var ch := str[i];
        i := i + 1;
        if ch == QUOTE {
          out := out + Utf8(last);
          return;
        }
        if ch <= 0x1F {
          Fails();
          return;
        }
        if ch != BACKSLASH {
          out, last := out + Utf8(last) + [ch], -1;
        } else {
          var ok;
          ok, out, last := ParseEscape(out, last);
          if !ok {
            return;
          }
        }
      }
    }

    // What comes after a backslash.
    method ParseEscape(out0: seq<Byte>, last0: int) returns (ok: bool, out: seq<Byte>, last: int)
      requires 1 <= i <= |str| && str[i - 1] == BACKSLASH && -1 <= last0 < 0x10000
      modifies this
      ensures Valid() && old(i) <= i && -1 <= last < 0x10000
      ensures failed == (old(failed) || !ok)
      ensures if ok then ParseString(str, old(i) - 1, out0, last0) == ParseString(str, i, out, last)
              else ParseString(str, old(i) - 1, out0, last0).Fail?
    {
      ok, out, last := false, out0, last0;
      if i == |str| {
        Fails();
        return;
      }
      var ch := str[i];
      i := i + 1;
      if ch == 117 {
        if i + 4 > |str| || !(IsHex(str[i]) && IsHex(str[i + 1]) && IsHex(str[i + 2]) && IsHex(str[i + 3])) {
          Fails();
          return;
        }
        var code := Hex4(str, i);
        if IsLead(last) && IsTrail(code) {
          out, last := out + Utf8((last - 0xD800) * 1024 + (code - 0xDC00) + 0x10000), -1;
        } else {
          out, last := out + Utf8(last), code;
        }
        i := i + 4;
      } else if Letter(ch) == 0 {
        Fails();
        return;
      } else {
        out, last := out + Utf8(last) + [Letter(ch)], -1;
      }
      ok := true;
    }

    method ConsumeDigits()
      requires Valid()
      modifies `i
      ensures Valid() && i == SkipDigits(str, old(i))
    {
      while IsDigit(Peek(str, i))
        invariant Valid() && SkipDigits(str, i) == SkipDigits(str, old(i))
        decreases |str| - i
      {
        i := i + 1;
      }
    }

    method IntegerDigits() returns (ok: bool)
      requires Valid()
      modifies this
      ensures Valid() && ok == IntegerPart(str, old(i)).Ok? && (ok ==> i == IntegerPart(str, old(i)).i)
      ensures failed == (old(failed) || !ok)
    {
      hide SkipDigits;
      ok := true;
      if Peek(str, i) == ZERO {
        i := i + 1;
        if IsDigit(Peek(str, i)) {
          Fails();
          ok := false;
        }
      } else if IsDigit(Peek(str, i)) {
        i := i + 1;
        ConsumeDigits();
      } else {
        Fails();
        ok := false;
      }
    }

    method ParseNumberHere() returns (v: Value)
      requires Valid()
      modifies this
      ensures Valid() && failed == (old(failed) || ParseNumber(str, old(i)).Fail?)
      ensures ParseNumber(str, old(i)).Ok? ==> v == ParseNumber(str, old(i)).v && i == ParseNumber(str, old(i)).i
    {
      hide IntegerPart, Atoi, Fraction, Exponent;
      v := Null;
      var start := i;
      if Peek(str, i) == MINUS {
        i := i + 1;
      }
      var ok := IntegerDigits();
      if !ok {
        return;
      }
      if Peek(str, i) != POINT && Peek(str, i) != 101 && Peek(str, i) != 69 && i - start <= 9 {
        v := Int(Atoi(str[start..i]));
        return;
      }
      ok := FractionAndExponent();
      if ok {
        v := Float(str[start..i]);
      }
    }

    method FractionAndExponent() returns (ok: bool)
      requires Valid()
      modifies this
      ensures Valid() && failed == (old(failed) || !ok)
      ensures var f := Fraction(str, old(i)); ok == (f.Ok? && Exponent(str, f.i).Ok?) && (ok ==> i == Exponent(str, f.i).i)
    {
      ok := false;
      if Peek(str, i) == POINT {
        i := i + 1;
        if !IsDigit(Peek(str, i)) {
          Fails();
          return;
        }
        ConsumeDigits();
      }
      if Peek(str, i) == 101 || Peek(str, i) == 69 {
        i := i + 1;
        if Peek(str, i) == 43 || Peek(str, i) == MINUS {
          i := i + 1;
        }
        if !IsDigit(Peek(str, i)) {
          Fails();
          return;
        }
        ConsumeDigits();
      }
      ok := true;
    }

    method ExpectWord(word: seq<Byte>, res: Value) returns (v: Value)
      requires 1 <= i <= |str| && word != []
      modifies this
      ensures Valid() && failed == (old(failed) || Expect(str, old(i) - 1, word, res).Fail?)
      ensures Expect(str, old(i) - 1, word, res).Ok? ==>
        v == Expect(str, old(i) - 1, word, res).v && i == Expect(str, old(i) - 1, word, res).i
    {
      v := Null;
      i := i - 1;
      if i + |word| <= |str| && str[i..i + |word|] == word {
        i := i + |word|;
        v := res;
      } else {
        Fails();
      }
    }

    /** parse_json: what the functions of JsonParse say, or a failure. */
    method ParseJson(depth: nat) returns (v: Value)
      requires Valid()
      modifies this
      ensures Valid() && (old(failed) ==> failed)
      ensures !old(failed) ==> failed == ParseValue(str, old(i), depth, comments).Fail?
      ensures !failed ==> v == ParseValue(str, old(i), depth, comments).v && i == ParseValue(str, old(i), depth, comments).i
      decreases MAX_DEPTH + 1 - depth, 1
    {
      hide NextToken, ParseNumber, ParseString, ParseItems, ParseMembers, Expect;
      v := Null;
      if depth > MAX_DEPTH {
        Fails();
        return;
      }
      var ch := GetNextToken();
      if failed {
        return;
      }
      if ch == MINUS || IsDigit(ch) {
        i := i - 1;
        v := ParseNumberHere();
      } else if ch == 116 {
        v := ExpectWord([116, 114, 117, 101], Bool(true));
      } else if ch == 102 {
        v := ExpectWord([102, 97, 108, 115, 101], Bool(false));
      } else if ch == 110 {
        v := ExpectWord([110, 117, 108, 108], Null);
      } else if ch == QUOTE {
        var s := ParseStringBody();
        v := Str(s);
      } else if ch == OPEN_OBJECT {
        v := ParseObject(depth);
      } else if ch == OPEN_ARRAY {
        v := ParseArray(depth);
      } else {
        Fails();
      }
    }

    // What ParseValue makes of what follows an opening bracket.
    ghost function ArraySpec(start: nat, depth: nat): Outcome<Value>
      requires start <= |str|
    {
      var u := NextToken(str, start, comments);
      if u.Fail? then Fail
      else if u.v == CLOSE_ARRAY then Ok(Array([]), u.i)
      else ParseItems(str, u.i - 1, [], depth, comments)
    }

    ghost function ObjectSpec(start: nat, depth: nat): Outcome<Value>
      requires start <= |str|
    {
      var u := NextToken(str, start, comments);
      if u.Fail? then Fail
      else if u.v == CLOSE_OBJECT then Ok(Object([]), u.i)
      else if u.v != QUOTE then Fail
      else ParseMembers(str, u.i, [], depth, comments)
    }

    // After an opening bracket.
    method ParseArray(depth: nat) returns (v: Value)
      requires Valid() && !failed && depth <= MAX_DEPTH
      modifies this
      ensures Valid() && failed == ArraySpec(old(i), depth).Fail?
      ensures !failed ==> v == ArraySpec(old(i), depth).v && i == ArraySpec(old(i), depth).i
      decreases MAX_DEPTH + 1 - depth, 0
    {
      hide NextToken, ParseValue;
      ghost var spec := ArraySpec(i, depth);
      v := Null;
      var ch := GetNextToken();
      if failed {
        return;
      }
      if ch == CLOSE_ARRAY {
        v := Array([]);
        return;
      }
      var data: seq<Value> := [];
      while true
        invariant 1 <= i <= |str| && !failed && ParseItems(str, i - 1, data, depth, comments) == spec
        decreases |str| - i
      {
        i := i - 1;
        var item := ParseJson(depth + 1);
        if failed {
          return;
        }
        data := data + [item];
        ch := GetNextToken();
        if failed {
          return;
        }
        if ch == CLOSE_ARRAY {
          v := Array(data);
          return;
        }
        if ch != COMMA {
          Fails();
          return;
        }
        ch := GetNextToken();
        if failed {
          return;
        }
      }
    }

    // After an opening brace.
    method ParseObject(depth: nat) returns (v: Value)
      requires Valid() && !failed && depth <= MAX_DEPTH
      modifies this
      ensures Valid() && failed == ObjectSpec(old(i), depth).Fail?
      ensures !failed ==> v == ObjectSpec(old(i), depth).v && i == ObjectSpec(old(i), depth).i
      decreases MAX_DEPTH + 1 - depth, 0
    {
      hide NextToken, ParseValue, ParseString;
      ghost var spec := ObjectSpec(i, depth);
      v := Null;
      var ch := GetNextToken();
      if failed {
        return;
      }
      if ch == CLOSE_OBJECT {
        v := Object([]);
        return;
      }
      var data: seq<Member> := [];
      while true
        invariant Valid() && !failed
        invariant if ch == QUOTE then ParseMembers(str, i, data, depth, comments) == spec else spec.Fail?
        decreases |str| - i
      {
        if ch != QUOTE {
          Fails();
          return;
        }
        var done;
        ch, data, done := ParseMember(data, depth);
        if failed {
          return;
        }
        if done {
          v := Object(data);
          return;
        }
      }
    }

    // One member, and what follows it: the closing brace, or a comma and the next character.
    method ParseMember(data0: seq<Member>, depth: nat) returns (ch: Byte, data: seq<Member>, done: bool)
      requires Valid() && !failed && depth <= MAX_DEPTH
      modifies this
      ensures Valid() && (failed ==> ParseMembers(str, old(i), data0, depth, comments).Fail?)
      ensures !failed ==> old(i) < i
      ensures !failed && done ==> ParseMembers(str, old(i), data0, depth, comments) == Ok(Object(data), i)
      ensures !failed && !done && ch == QUOTE ==>
        ParseMembers(str, old(i), data0, depth, comments) == ParseMembers(str, i, data, depth, comments)
      ensures !failed && !done && ch != QUOTE ==> ParseMembers(str, old(i), data0, depth, comments).Fail?
      decreases MAX_DEPTH + 1 - depth, -1
    {
      hide NextToken, ParseValue, ParseString;
      data, done := data0, false;
      var key := ParseStringBody();
      if failed {
        return 0, data, false;
      }
      ch := GetNextToken();
      if failed || ch != COLON {
        Fails();
        return;
      }
      var value := ParseJson(depth + 1);
      if failed {
        return;
      }
      data := Put(data, key, value);
      ch := GetNextToken();
      if failed {
        return;
      }
      done := ch == CLOSE_OBJECT;
      if done {
        return;
      }
      if ch != COMMA {
        Fails();
        return;
      }
      ch := GetNextToken();
    }
  }

  /** Json::parse: what is printed is read back by this, as JsonRoundTrip.RoundTrip says. */
  method ParseText(text: seq<Byte>, comments: bool) returns (failed: bool, v: Value)
    ensures failed == Parse(text, comments).Fail?
    ensures !failed ==> v == Parse(text, comments).v
  {
    hide ParseValue, SkipGarbage;
    var parser := new Parser(text, comments);
    v := parser.ParseJson(0);
    if parser.failed {
      return true, Null;
    }
    parser.ConsumeGarbage();
    if parser.failed || parser.i != |text| {
      return true, Null;
    }
    failed := false;
  }
}
