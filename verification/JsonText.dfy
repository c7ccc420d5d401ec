/**
 JSON values and the text JSON.stringify gives them, without white space.
 Strings are sequences of UTF-16 code units, as in JavaScript; escaping follows
 section 7 of RFC 8259, with lone surrogates escaped as well.
 */
module JsonText {
  type Unit = n: int | 0 <= n < 0x1_0000
  type Text = seq<Unit>

  datatype Json =
    | Null
    | Bool(value: bool)
    | Number(whole: int)
    | String(text: Text)
    | Array(items: seq<Json>)
    | Object(members: seq<Member>)

  datatype Member = Member(key: Text, value: Json)

  const QUOTE: Unit := 34
  const COMMA: Unit := 44
  const MINUS: Unit := 45
  const SLASH: Unit := 47
  const ZERO: Unit := 48
  const COLON: Unit := 58
  const OPEN_BRACKET: Unit := 91
  const BACKSLASH: Unit := 92
  const CLOSE_BRACKET: Unit := 93
  const OPEN_BRACE: Unit := 123
  const CLOSE_BRACE: Unit := 125

  const NULL_TEXT: Text := [110, 117, 108, 108]
  const TRUE_TEXT: Text := [116, 114, 117, 101]
  const FALSE_TEXT: Text := [102, 97, 108, 115, 101]

  predicate IsDigit(u: Unit) { ZERO <= u <= ZERO + 9 }
  predicate IsLead(u: Unit) { 0xD800 <= u <= 0xDBFF }
  predicate IsTrail(u: Unit) { 0xDC00 <= u <= 0xDFFF }

  function HexDigit(n: int): Unit
    requires 0 <= n < 16
  {
    if n < 10 then ZERO + n else 87 + n
  }

  function HexEscape(u: Unit): Text {
    var high, low := u / 0x100, u % 0x100;
    [BACKSLASH, 117, HexDigit(high / 16), HexDigit(high % 16), HexDigit(low / 16), HexDigit(low % 16)]
  }

  function EscapeUnit(u: Unit): Text {
    if u == 8 then [BACKSLASH, 98]
    else if u == 9 then [BACKSLASH, 116]
    else if u == 10 then [BACKSLASH, 110]
    else if u == 12 then [BACKSLASH, 102]
    else if u == 13 then [BACKSLASH, 114]
    else if u == QUOTE || u == BACKSLASH then [BACKSLASH, u]
    else if u < 0x20 || IsLead(u) || IsTrail(u) then HexEscape(u)
    else [u]
  }

  // A surrogate pair is one character.
  function FirstWidth(s: Text): nat
    requires s != []
  {
    if |s| > 1 && IsLead(s[0]) && IsTrail(s[1]) then 2 else 1
  }

  function FirstEscaped(s: Text): Text
    requires s != []
  {
    if FirstWidth(s) == 2 then s[..2] else EscapeUnit(s[0])
  }

  function Escaped(s: Text): Text {
    if s == [] then [] else FirstEscaped(s) + Escaped(s[FirstWidth(s)..])
  }

  function Quoted(s: Text): Text { [QUOTE] + Escaped(s) + [QUOTE] }

  function Digits(n: nat): (d: Text)
    ensures d != [] && forall i | 0 <= i < |d| :: IsDigit(d[i])
  {
    if n < 10 then [ZERO + n] else Digits(n / 10) + [ZERO + n % 10]
  }

  function NumberText(n: int): Text {
    if n < 0 then [MINUS] + Digits(-n) else Digits(n)
  }

  function Stringify(v: Json): Text
    decreases v, 0
  {
    match v
    case Null => NULL_TEXT
    case Bool(b) => if b then TRUE_TEXT else FALSE_TEXT
    case Number(n) => NumberText(n)
    case String(s) => Quoted(s)
    case Array(items) => [OPEN_BRACKET] + StringifyItems(items) + [CLOSE_BRACKET]
    case Object(members) => [OPEN_BRACE] + StringifyMembers(members) + [CLOSE_BRACE]
  }

  function StringifyItems(items: seq<Json>): Text
    decreases items, 0
  {
    if items == [] then []
    else if |items| == 1 then Stringify(items[0])
    else Stringify(items[0]) + [COMMA] + StringifyItems(items[1..])
  }

  function StringifyMember(m: Member): Text
    decreases m, 0
  {
    Quoted(m.key) + [COLON] + Stringify(m.value)
  }

  function StringifyMembers(members: seq<Member>): Text
    decreases members, 0
  {
    if members == [] then []
    else if |members| == 1 then StringifyMember(members[0])
    else StringifyMember(members[0]) + [COMMA] + StringifyMembers(members[1..])
  }
}
