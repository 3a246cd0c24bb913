/** JSON values and their text (deps/json11/json11.cpp): the printer. Text is a string of bytes. */
module Json {

  type Byte = b: nat | b < 256

  const QUOTE: Byte := 34               // "
  const BACKSLASH: Byte := 92
  const COMMA: Byte := 44
  const COLON: Byte := 58
  const SPACE: Byte := 32
  const MINUS: Byte := 45
  const POINT: Byte := 46
  const SLASH: Byte := 47
  const STAR: Byte := 42
  const ZERO: Byte := 48
  const NEWLINE: Byte := 10
  const OPEN_ARRAY: Byte := 91
  const CLOSE_ARRAY: Byte := 93
  const OPEN_OBJECT: Byte := 123
  const CLOSE_OBJECT: Byte := 125

  // An object is a std::map: its members are in the order of their keys.
  datatype Value =
    | Null
    | Bool(b: bool)
    | Int(n: int)
    | Float(lexeme: seq<Byte>)          // the text that strtod is given
    | Str(s: seq<Byte>)
    | Array(items: seq<Value>)
    | Object(members: seq<Member>)

  datatype Member = Member(key: seq<Byte>, value: Value)

  // ------------------------------------------------------------------
  // Printing
  // ------------------------------------------------------------------

  function Hex(d: nat): Byte
    requires d < 16
  {
    if d < 10 then 48 + d else 87 + d
  }

  // \u and four hexadecimal digits
  function Escape4(code: nat): seq<Byte>
    requires code < 0x10000
  {
    [BACKSLASH, 117, Hex(code / 4096), Hex(code / 256 % 16), Hex(code / 16 % 16), Hex(code % 16)]
  }

  // The bytes of U+2028 and U+2029, which JavaScript takes for line ends.
  predicate IsLineEnd(s: seq<Byte>, last: Byte) {
    |s| >= 3 && s[0] == 0xE2 && s[1] == 0x80 && s[2] == last
  }

  // One character of a string, and how many bytes it takes.
  function Escaped(s: seq<Byte>): (r: (seq<Byte>, nat))
    requires s != []
    ensures 1 <= r.1 <= |s|
  {
    var ch := s[0];
    if ch == BACKSLASH then ([BACKSLASH, BACKSLASH], 1)
    else if ch == QUOTE then ([BACKSLASH, QUOTE], 1)
    else if ch == 8 then ([BACKSLASH, 98], 1)
    else if ch == 12 then ([BACKSLASH, 102], 1)
    else if ch == 10 then ([BACKSLASH, 110], 1)
    else if ch == 13 then ([BACKSLASH, 114], 1)
    else if ch == 9 then ([BACKSLASH, 116], 1)
    else if ch <= 0x1F then (Escape4(ch), 1)
    else if IsLineEnd(s, 0xA8) then (Escape4(0x2028), 3)
    else if IsLineEnd(s, 0xA9) then (Escape4(0x2029), 3)
    else ([ch], 1)
  }

  function Body(s: seq<Byte>): seq<Byte> {
    if s == [] then [] else var (text, n) := Escaped(s); text + Body(s[n..])
  }

  function DumpString(s: seq<Byte>): seq<Byte> {
    [QUOTE] + Body(s) + [QUOTE]
  }

  function Digits(n: nat): (d: seq<Byte>)
    ensures d != []
  {
    if n < 10 then [ZERO + n] else Digits(n / 10) + [ZERO + n % 10]
  }

  function DumpInt(n: int): seq<Byte> {
    if n < 0 then [MINUS] + Digits(-n) else Digits(n)
  }

  function Dump(v: Value): seq<Byte> {
    match v
    case Null => [110, 117, 108, 108]
    case Bool(b) => if b then [116, 114, 117, 101] else [102, 97, 108, 115, 101]
    case Int(n) => DumpInt(n)
    case Float(lexeme) => lexeme
    case Str(s) => DumpString(s)
    case Array(items) => [OPEN_ARRAY] + DumpItems(items) + [CLOSE_ARRAY]
    case Object(members) => [OPEN_OBJECT] + DumpMembers(members) + [CLOSE_OBJECT]
  }

  function DumpItems(items: seq<Value>): seq<Byte> {
    if items == [] then []
    else if |items| == 1 then Dump(items[0])
    else Dump(items[0]) + [COMMA, SPACE] + DumpItems(items[1..])
  }

  function DumpMember(m: Member): seq<Byte> {
    DumpString(m.key) + [COLON, SPACE] + Dump(m.value)
  }

  function DumpMembers(members: seq<Member>): seq<Byte> {
    if members == [] then []
    else if |members| == 1 then DumpMember(members[0])
    else DumpMember(members[0]) + [COMMA, SPACE] + DumpMembers(members[1..])
  }

  // ------------------------------------------------------------------
  // Values that come back
  // ------------------------------------------------------------------

  // The order of the keys of a std::map.
  predicate Less(a: seq<Byte>, b: seq<Byte>) {
    if b == [] then false
    else if a == [] then true
    else a[0] < b[0] || (a[0] == b[0] && Less(a[1..], b[1..]))
  }

  ghost predicate Ascending(members: seq<Member>) {
    forall i, j :: 0 <= i < j < |members| ==> Less(members[i].key, members[j].key)
  }

  // Integers are of at most nine characters; there are no other numbers.
  ghost predicate Plain(v: Value) {
    match v
    case Int(n) => |DumpInt(n)| <= 9
    case Float(_) => false
    case Array(items) => forall x :: x in items ==> Plain(x)
    case Object(members) => Ascending(members) && forall m :: m in members ==> Plain(m.value)
    case _ => true
  }

  // How far below v the parser goes; an empty array or object takes no further level.
  function Depth(v: Value): nat {
    match v
    case Array(items) => DepthItems(items)
    case Object(members) => DepthMembers(members)
    case _ => 0
  }

  function DepthItems(items: seq<Value>): nat {
    if items == [] then 0 else Max(1 + Depth(items[0]), DepthItems(items[1..]))
  }

  function DepthMembers(members: seq<Member>): nat {
    if members == [] then 0 else Max(1 + Depth(members[0].value), DepthMembers(members[1..]))
  }

  function Max(a: nat, b: nat): nat {
    if a < b then b else a
  }
}
