/** What the characters, escapes and maps of the JSON reader and printer (deps/json11/json11.cpp) are, by RFC 8259, by
    RFC 3629 for UTF-8, and by what a std::map does. */
module JsonLaws {
  import opened Json
  import opened JsonParse
  import opened JsonGrammar

  datatype Option<T> = None | Some(value: T)

  // ------------------------------------------------------------------
  // UTF-8
  // ------------------------------------------------------------------

  // How many bytes follow a lead byte (section 3 of RFC 3629); -1 if it is none.
  function Following(lead: Byte): int {
    if lead < 0x80 then 0 else if lead < 0xC0 then -1 else if lead < 0xE0 then 1 else if lead < 0xF0 then 2 else if lead < 0xF8 then 3 else -1
  }

  // The bits of a lead byte behind its marker.
  function LeadBits(lead: Byte): nat {
    if lead < 0x80 then lead else if lead < 0xE0 then lead % 0x20 else if lead < 0xF0 then lead % 0x10 else lead % 8
  }

  predicate IsTail(b: Byte) {
    0x80 <= b <= 0xBF
  }

  // Six bits of each of the bytes that follow.
  function Append(bits: nat, tail: seq<Byte>): nat
    decreases |tail|
  {
    if tail == [] then bits else Append(64 * bits + tail[0] % 64, tail[1..])
  }

  // The character that a text begins with, and its length.
  function Decode(s: seq<Byte>): Option<(nat, nat)> {
    if s == [] then None
    else
      var n := Following(s[0]);
      if n < 0 || |s| <= n || exists k :: 1 <= k <= n && !IsTail(s[k]) then None
      else Some((Append(LeadBits(s[0]), s[1..n + 1]), n + 1))
  }

  /** A character is encoded so that it is read back, in as many bytes as its bounds say. */
  lemma Utf8Law(pt: nat, rest: seq<Byte>)
    requires pt < 0x110000
    ensures Decode(Utf8(pt) + rest) == Some((pt, |Utf8(pt)|))
    ensures |Utf8(pt)| == if pt < 0x80 then 1 else if pt < 0x800 then 2 else if pt < 0x10000 then 3 else 4
    ensures Utf8(pt)[0] < 0x80 || 0xC2 <= Utf8(pt)[0] <= 0xF4
    ensures forall k :: 1 <= k < |Utf8(pt)| ==> IsTail(Utf8(pt)[k])
  {
    var u := Utf8(pt);
    var s, n := u + rest, |u| - 1;
    assert s[0] == u[0] && Following(s[0]) == n;
    forall k | 1 <= k <= n ensures s[k] == u[k] && IsTail(s[k]) {
    }
    assert s[1..n + 1] == u[1..];
    Appended(pt);
  }

  lemma Appended(pt: nat)
    requires pt < 0x110000
    ensures Append(LeadBits(Utf8(pt)[0]), Utf8(pt)[1..]) == pt
  {
    Base64(pt);
    LeadIs(pt);
    var u := Utf8(pt);
    var b := LeadBits(u[0]);
    if |u| == 2 {
      assert u[1..] == [0x80 + pt % 64];
      AppendOne(b, u[1..]);
    } else if |u| == 3 {
      assert u[1..] == [0x80 + pt / 64 % 64, 0x80 + pt % 64];
      AppendTwo(b, u[1..]);
    } else if |u| == 4 {
      assert u[1..] == [0x80 + pt / 4096 % 64, 0x80 + pt / 64 % 64, 0x80 + pt % 64];
      AppendOne(b, u[1..]);
      AppendTwo(64 * b + pt / 4096 % 64, u[1..][1..]);
    }
  }

  lemma LeadIs(pt: nat)
    requires pt < 0x110000
    ensures LeadBits(Utf8(pt)[0]) == if pt < 0x80 then pt else if pt < 0x800 then pt / 64 else if pt < 0x10000 then pt / 4096 else pt / 0x40000
  {
  }

  lemma AppendOne(b: nat, t: seq<Byte>)
    requires t != [] && t[0] >= 0x80
    ensures Append(b, t) == Append(64 * b + t[0] % 64, t[1..]) && (t[0] < 0xC0 ==> t[0] % 64 == t[0] - 0x80)
    ensures |t| == 1 ==> Append(b, t) == 64 * b + t[0] % 64
  {
  }

  lemma AppendTwo(b: nat, t: seq<Byte>)
    requires |t| == 2 && 0x80 <= t[0] < 0xC0 && 0x80 <= t[1] < 0xC0
    ensures Append(b, t) == 64 * (64 * b + (t[0] - 0x80)) + (t[1] - 0x80)
  {
    AppendOne(b, t);
    AppendOne(64 * b + t[0] % 64, t[1..]);
  }

  // A number by its digits to the base 64.
  lemma Base64(pt: nat)
    ensures pt == 64 * (pt / 64) + pt % 64
    ensures pt / 64 == 64 * (pt / 4096) + pt / 64 % 64
    ensures pt / 4096 == 64 * (pt / 0x40000) + pt / 4096 % 64
  {
    assert pt / 64 / 64 == pt / 4096 && pt / 4096 / 64 == pt / 0x40000;
  }

  // ------------------------------------------------------------------
  // Escapes
  // ------------------------------------------------------------------

  /** The escapes of section 7 of RFC 8259, and no others. */
  lemma LetterLaw(ch: Byte)
    ensures Letter(ch) == (match ch as char
      case '"' => 0x22 case '\\' => 0x5C case '/' => 0x2F case 'b' => 0x08
      case 'f' => 0x0C case 'n' => 0x0A case 'r' => 0x0D case 't' => 0x09 case _ => 0)
  {
  }

  /** Four hexadecimal digits of either case stand for the number they are. */
  lemma HexLaw(d: seq<Byte>, code: nat)
    requires |d| == 4 && code < 0x10000
    requires SameDigit(d[0], Hex(code / 4096)) && SameDigit(d[1], Hex(code / 256 % 16))
    requires SameDigit(d[2], Hex(code / 16 % 16)) && SameDigit(d[3], Hex(code % 16))
    ensures IsHex(d[0]) && IsHex(d[1]) && IsHex(d[2]) && IsHex(d[3]) && Hex4(d, 0) == code
  {
    HexOf(d[0], code / 4096);
    HexOf(d[1], code / 256 % 16);
    HexOf(d[2], code / 16 % 16);
    HexOf(d[3], code % 16);
    hide IsHex, HexValue, Hex;
    Base16(code);
  }

  // The same digit, in lower or upper case.
  predicate SameDigit(a: Byte, b: Byte) {
    a == b || ('a' as nat <= b <= 'f' as nat && a + 32 == b)
  }

  lemma HexOf(ch: Byte, d: nat)
    requires d < 16 && SameDigit(ch, Hex(d))
    ensures IsHex(ch) && HexValue(ch) == d
  {
  }

  lemma Base16(code: nat)
    ensures code == 4096 * (code / 4096) + 256 * (code / 256 % 16) + 16 * (code / 16 % 16) + code % 16
  {
    assert code / 16 / 16 == code / 256 && code / 256 / 16 == code / 4096;
  }

  /** Every character beyond U+FFFF is one surrogate pair, and only that. */
  lemma PairLaw(pt: nat, lead: int, trail: int)
    requires 0x10000 <= pt < 0x110000
    ensures IsLead(lead) && IsTrail(trail) && Joined(lead, trail) == pt <==>
      lead == 0xD800 + (pt - 0x10000) / 0x400 && trail == 0xDC00 + (pt - 0x10000) % 0x400
  {
  }

  /** And every surrogate pair is such a character. */
  lemma PairInRange(lead: int, trail: int)
    requires 0xD800 <= lead < 0xDC00 && 0xDC00 <= trail < 0xE000
    ensures IsLead(lead) && IsTrail(trail) && 0x10000 <= Joined(lead, trail) < 0x110000
  {
  }

  /** White space, digits and structural characters (section 2 of RFC 8259). */
  lemma CharacterLaw(ch: Byte)
    ensures IsSpace(ch) <==> ch as char in {' ', '\t', '\n', '\r'}
    ensures IsDigit(ch) <==> '0' <= ch as char <= '9'
    ensures IsHex(ch) <==> '0' <= ch as char <= '9' || 'a' <= ch as char <= 'f' || 'A' <= ch as char <= 'F'
    ensures [QUOTE, BACKSLASH, COMMA, COLON, SPACE, MINUS, POINT, SLASH, STAR, ZERO, NEWLINE] ==
      ['"' as Byte, '\\' as Byte, ',' as Byte, ':' as Byte, ' ' as Byte, '-' as Byte, '.' as Byte, '/' as Byte, '*' as Byte, '0' as Byte, '\n' as Byte]
    ensures [OPEN_ARRAY, CLOSE_ARRAY, OPEN_OBJECT, CLOSE_OBJECT] == ['[' as Byte, ']' as Byte, '{' as Byte, '}' as Byte]
  {
  }


  lemma HexDigits(d: nat)
    requires d < 16
    ensures Hex(d) as char == "0123456789abcdef"[d]
  {
  }

  // ------------------------------------------------------------------
  // What is printed
  // ------------------------------------------------------------------

  // A text goes on with U+2028 or U+2029, which end a line of JavaScript.
  predicate EndsLine(s: seq<Byte>) {
    |s| >= 3 && s[0] == 0xE2 && s[1] == 0x80 && (s[2] == 0xA8 || s[2] == 0xA9)
  }

  /** A byte is printed as it is if and only if it is no control character, quote or backslash and begins no line end; and
      as a letter if and only if there is one for it. */
  lemma EscapedLaw(s: seq<Byte>)
    requires s != []
    ensures Escaped(s) == ([s[0]], 1) <==> s[0] >= 0x20 && s[0] as char !in {'"', '\\'} && !EndsLine(s)
    ensures |Escaped(s).0| == 2 <==> s[0] as char in {'"', '\\'} || s[0] in {8, 9, 10, 12, 13}
    ensures |Escaped(s).0| in {1, 2, 6} && (|Escaped(s).0| > 1 ==> forall k :: 0 <= k < |Escaped(s).0| ==> 0x20 <= Escaped(s).0[k] < 0x80)
    ensures Escaped(s).1 == if EndsLine(s) then 3 else 1
  {
  }

  // How the text of a string begins.
  lemma BodyBegins(s: seq<Byte>)
    ensures Body(s) == [] <==> s == []
    ensures s != [] && Body(s)[0] >= 0x80 ==> Body(s)[0] == s[0] && Body(s) == [s[0]] + Body(s[1..]) && !EndsLine(s)
  {
    if s != [] {
      EscapedLaw(s);
    }
  }

  /** The text of a string has no control character and no line end of JavaScript in it. */
  lemma {:induction false} BodyLaw(s: seq<Byte>, k: nat)
    requires k < |Body(s)|
    ensures Body(s)[k] >= 0x20 && !EndsLine(Body(s)[k..])
    decreases |s|
  {
    var (text, n) := Escaped(s);
    var rest := Body(s[n..]);
    EscapedLaw(s);
    hide Escaped;
    assert Body(s) == text + rest;
    if k >= |text| {
      BodyLaw(s[n..], k - |text|);
      assert Body(s)[k..] == rest[k - |text|..];
    } else if |text| == 1 {
      assert Body(s) == [s[0]] + Body(s[1..]);
      RawBegins(s);
    }
  }

  lemma RawBegins(s: seq<Byte>)
    requires s != [] && Body(s) == [s[0]] + Body(s[1..]) && !EndsLine(s)
    ensures !EndsLine(Body(s))
  {
    hide Body, Escaped;
    BodyBegins(s[1..]);
    if EndsLine(Body(s)) {
      assert Body(s[1..])[0] == Body(s)[1] && Body(s[1..])[1] == Body(s)[2];
      assert s[1..][1..] == s[2..];
      BodyBegins(s[2..]);
    }
  }

  // ------------------------------------------------------------------
  // Members of an object
  // ------------------------------------------------------------------

  /** Keys are in lexicographic order. */
  lemma {:induction false} LessLaw(a: seq<Byte>, b: seq<Byte>)
    ensures Less(a, b) <==> exists k: nat :: k <= |a| && k < |b| && a[..k] == b[..k] && (k == |a| || a[k] < b[k])
  {
    if a != [] && b != [] && a[0] == b[0] {
      LessLaw(a[1..], b[1..]);
      if Less(a[1..], b[1..]) {
        var k: nat :| k <= |a[1..]| && k < |b[1..]| && a[1..][..k] == b[1..][..k] && (k == |a[1..]| || a[1..][k] < b[1..][k]);
        assert a[..k + 1] == [a[0]] + a[1..][..k] && b[..k + 1] == [b[0]] + b[1..][..k];
      }
      if k: nat :| k <= |a| && k < |b| && a[..k] == b[..k] && (k == |a| || a[k] < b[k]) {
        assert a[1..][..k - 1] == a[..k][1..] && b[1..][..k - 1] == b[..k][1..];
      }
    } else if b != [] && (a == [] || a[0] < b[0]) {
      assert a[..0] == b[..0];
    } else {
      forall k: nat | 0 < k <= |a| && k < |b| && a[0] != b[0] ensures a[..k] != b[..k] {
        assert a[..k][0] != b[..k][0];
      }
    }
  }

  function Find(members: seq<Member>, key: seq<Byte>): Option<Value> {
    if members == [] then None else if members[0].key == key then Some(members[0].value) else Find(members[1..], key)
  }

  lemma {:induction false} LessTotal(a: seq<Byte>, b: seq<Byte>)
    ensures a == b || Less(a, b) || Less(b, a)
    ensures !(Less(a, b) && Less(b, a)) && !Less(a, a)
  {
    if a != [] && b != [] {
      LessTotal(a[1..], b[1..]);
      if a[1..] == b[1..] && a[0] == b[0] {
        assert a == [a[0]] + a[1..] && b == [b[0]] + b[1..];
      }
    }
    if a != [] {
      LessTotal(a[1..], a[1..]);
    }
  }

  lemma {:induction false} LessTransitive(a: seq<Byte>, b: seq<Byte>, c: seq<Byte>)
    requires Less(a, b) && Less(b, c)
    ensures Less(a, c)
  {
    if a != [] && a[0] == b[0] == c[0] {
      LessTransitive(a[1..], b[1..], c[1..]);
    }
  }

  // The keys of a map after an assignment.
  lemma {:induction false} PutKeys(members: seq<Member>, key: seq<Byte>, value: Value)
    ensures forall m :: m in Put(members, key, value) ==> m.key == key || m in members
    ensures forall m :: m in members && m.key != key ==> m in Put(members, key, value)
  {
    if members != [] {
      PutKeys(members[1..], key, value);
    }
  }

  /** Assignment in a std::map: the keys stay in order, that key has the new value, and the others have what they had. */
  lemma {:induction false} PutLaw(members: seq<Member>, key: seq<Byte>, value: Value, k: seq<Byte>)
    requires Ascending(members)
    ensures Ascending(Put(members, key, value))
    ensures Find(Put(members, key, value), k) == if k == key then Some(value) else Find(members, k)
    decreases |members|
  {
    var all := Put(members, key, value);
    if members != [] {
      var m, rest := members[0], members[1..];
      if m.key == key {
        SameKeys(members, all);
      } else if Less(key, m.key) {
        FrontAscends(Member(key, value), members);
      } else {
        LessTotal(key, m.key);
        PutLaw(rest, key, value, k);
        PutKeys(rest, key, value);
        FrontAscends(m, Put(rest, key, value));
      }
    }
  }

  lemma SameKeys(a: seq<Member>, b: seq<Member>)
    requires Ascending(a) && |a| == |b| && forall i :: 0 <= i < |a| ==> a[i].key == b[i].key
    ensures Ascending(b)
  {
  }

  lemma FrontAscends(m: Member, rest: seq<Member>)
    requires Ascending(rest) && (rest != [] ==> Less(m.key, rest[0].key))
    ensures Ascending([m] + rest)
  {
    var all := [m] + rest;
    forall i, j | 0 <= i < j < |all| ensures Less(all[i].key, all[j].key) {
      if i == 0 && j > 1 {
        LessTransitive(m.key, rest[0].key, rest[j - 1].key);
      }
    }
  }
}
