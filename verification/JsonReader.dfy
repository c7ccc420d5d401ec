/** A reader for JSON text without white space, and the proof that it undoes Stringify. */
module JsonReader {
  import opened Wrappers
  import opened JsonText

  datatype Read<+T> = Read(value: T, rest: Text)

  function HexValue(u: Unit): Option<nat> {
    if ZERO <= u <= ZERO + 9 then Some(u - ZERO)
    else if 97 <= u <= 102 then Some(u - 87)
    else if 65 <= u <= 70 then Some(u - 55)
    else None
  }

  // The unit named by an escape, after its backslash.
  function ReadEscape(t: Text): (r: Option<Read<Unit>>)
    ensures r.Some? ==> |r.value.rest| < |t|
  {
    if t == [] then None
    else if t[0] == QUOTE || t[0] == BACKSLASH || t[0] == SLASH then Some(Read(t[0], t[1..]))
    else if t[0] == 98 then Some(Read(8, t[1..]))
    else if t[0] == 116 then Some(Read(9, t[1..]))
    else if t[0] == 110 then Some(Read(10, t[1..]))
    else if t[0] == 102 then Some(Read(12, t[1..]))
    else if t[0] == 114 then Some(Read(13, t[1..]))
    else if t[0] == 117 && |t| >= 5 then
      match (HexValue(t[1]), HexValue(t[2]), HexValue(t[3]), HexValue(t[4]))
      case (Some(a), Some(b), Some(c), Some(d)) => Some(Read(0x1000 * a + 0x100 * b + 0x10 * c + d, t[5..]))
      case _ => None
    else None
  }

  // The rest of a string, after its opening quote.
  function ReadString(t: Text): (r: Option<Read<Text>>)
    ensures r.Some? ==> |r.value.rest| < |t|
    decreases |t|
  {
    if t == [] || t[0] < 0x20 then None
    else if t[0] == QUOTE then Some(Read([], t[1..]))
    else
      var unit := if t[0] == BACKSLASH then ReadEscape(t[1..]) else Some(Read(t[0], t[1..]));
      if unit.None? then None
      else
        match ReadString(unit.value.rest)
        case Some(Read(s, rest)) => Some(Read([unit.value.value] + s, rest))
        case None => None
  }

  // All the digits that follow, added to the value of those already read.
  function ReadDigits(t: Text, soFar: nat): (r: Read<nat>)
    ensures |r.rest| <= |t| && (t != [] && IsDigit(t[0]) ==> |r.rest| < |t|)
    decreases |t|
  {
    if t != [] && IsDigit(t[0]) then ReadDigits(t[1..], 10 * soFar + (t[0] - ZERO)) else Read(soFar, t)
  }

  function ReadLiteral(t: Text, literal: Text, v: Json): (r: Option<Read<Json>>)
    requires literal != []
    ensures r.Some? ==> |r.value.rest| < |t|
  {
    if literal <= t then Some(Read(v, t[|literal|..])) else None
  }

  function ReadValue(t: Text): (r: Option<Read<Json>>)
    ensures r.Some? ==> |r.value.rest| < |t|
    decreases |t|, 2
  {
    if t == [] then None
    else if t[0] == NULL_TEXT[0] then ReadLiteral(t, NULL_TEXT, Null)
    else if t[0] == TRUE_TEXT[0] then ReadLiteral(t, TRUE_TEXT, Bool(true))
    else if t[0] == FALSE_TEXT[0] then ReadLiteral(t, FALSE_TEXT, Bool(false))
    else if t[0] == QUOTE then
      match ReadString(t[1..])
      case Some(Read(s, rest)) => Some(Read(String(s), rest))
      case None => None
    else if t[0] == OPEN_BRACKET then
      if |t| > 1 && t[1] == CLOSE_BRACKET then Some(Read(Array([]), t[2..]))
      else
        match ReadItems(t[1..])
        case Some(Read(items, rest)) => Some(Read(Array(items), rest))
        case None => None
    else if t[0] == OPEN_BRACE then
      if |t| > 1 && t[1] == CLOSE_BRACE then Some(Read(Object([]), t[2..]))
      else
        match ReadMembers(t[1..])
        case Some(Read(members, rest)) => Some(Read(Object(members), rest))
        case None => None
    else if t[0] == MINUS && |t| > 1 && IsDigit(t[1]) then
      var digits := ReadDigits(t[1..], 0);
      Some(Read(Number(-(digits.value as int)), digits.rest))
    else if IsDigit(t[0]) then
      var digits := ReadDigits(t, 0);
      Some(Read(Number(digits.value), digits.rest))
    else None
  }

  // One or more items and the closing bracket.
  function ReadItems(t: Text): (r: Option<Read<seq<Json>>>)
    ensures r.Some? ==> |r.value.rest| < |t|
    decreases |t|, 3
  {
    match ReadValue(t)
    case None => None
    case Some(Read(v, rest)) =>
      if rest == [] then None
      else if rest[0] == CLOSE_BRACKET then Some(Read([v], rest[1..]))
      else if rest[0] == COMMA then
        match ReadItems(rest[1..])
        case Some(Read(items, after)) => Some(Read([v] + items, after))
        case None => None
      else None
  }

  function ReadMember(t: Text): (r: Option<Read<Member>>)
    ensures r.Some? ==> |r.value.rest| < |t|
    decreases |t|, 3
  {
    if t == [] || t[0] != QUOTE then None
    else
      match ReadString(t[1..])
      case None => None
      case Some(Read(key, rest)) =>
        if rest == [] || rest[0] != COLON then None
        else
          match ReadValue(rest[1..])
          case Some(Read(v, after)) => Some(Read(Member(key, v), after))
          case None => None
  }

  // One or more members and the closing brace.
  function ReadMembers(t: Text): (r: Option<Read<seq<Member>>>)
    ensures r.Some? ==> |r.value.rest| < |t|
    decreases |t|, 4
  {
    match ReadMember(t)
    case None => None
    case Some(Read(m, rest)) =>
      if rest == [] then None
      else if rest[0] == CLOSE_BRACE then Some(Read([m], rest[1..]))
      else if rest[0] == COMMA then
        match ReadMembers(rest[1..])
        case Some(Read(members, after)) => Some(Read([m] + members, after))
        case None => None
      else None
  }

  /* ---- Strings ---- */

  lemma HexDigitsRead(a: nat, b: nat, c: nat, d: nat, rest: Text)
    requires a < 16 && b < 16 && c < 16 && d < 16
    ensures ReadEscape([117, HexDigit(a), HexDigit(b), HexDigit(c), HexDigit(d)] + rest)
              == Some(Read(0x1000 * a + 0x100 * b + 0x10 * c + d, rest))
  {
    var t: Text := [117, HexDigit(a), HexDigit(b), HexDigit(c), HexDigit(d)] + rest;
    assert t[5..] == rest;
    assert HexValue(t[1]) == Some(a) && HexValue(t[2]) == Some(b);
    assert HexValue(t[3]) == Some(c) && HexValue(t[4]) == Some(d);
  }

  lemma HexReadsBack(u: Unit, rest: Text)
    ensures ReadEscape(HexEscape(u)[1..] + rest) == Some(Read(u, rest))
  {
    var high, low := u / 0x100, u % 0x100;
    HexDigitsRead(high / 16, high % 16, low / 16, low % 16, rest);
  }

  lemma EscapeReadsBack(u: Unit, rest: Text)
    requires EscapeUnit(u) != [u]
    ensures EscapeUnit(u)[0] == BACKSLASH
    ensures ReadEscape(EscapeUnit(u)[1..] + rest) == Some(Read(u, rest))
  {
    var t := EscapeUnit(u)[1..] + rest;
    if EscapeUnit(u) == HexEscape(u) {
      HexReadsBack(u, rest);
    } else {
      assert t[1..] == rest;
    }
  }

  lemma {:induction false} UnitReadsBack(u: Unit, rest: Text)
    requires ReadString(rest).Some?
    ensures var after := ReadString(rest).value;
            ReadString(EscapeUnit(u) + rest) == Some(Read([u] + after.value, after.rest))
  {
    var t := EscapeUnit(u) + rest;
    if EscapeUnit(u) == [u] {
      assert t[1..] == rest;
    } else {
      EscapeReadsBack(u, rest);
      assert t[1..] == EscapeUnit(u)[1..] + rest;
    }
  }

  lemma {:induction false} RawUnitReadsBack(u: Unit, rest: Text)
    requires IsLead(u) || IsTrail(u)
    requires ReadString(rest).Some?
    ensures var after := ReadString(rest).value;
            ReadString([u] + rest) == Some(Read([u] + after.value, after.rest))
  {
    assert ([u] + rest)[1..] == rest;
  }

  lemma {:induction false} PairReadsBack(a: Unit, b: Unit, rest: Text)
    requires IsLead(a) && IsTrail(b)
    requires ReadString(rest).Some?
    ensures var after := ReadString(rest).value;
            ReadString([a, b] + rest) == Some(Read([a, b] + after.value, after.rest))
  {
    RawUnitReadsBack(b, rest);
    RawUnitReadsBack(a, [b] + rest);
    assert [a, b] + rest == [a] + ([b] + rest);
    var s := ReadString(rest).value.value;
    assert [a] + ([b] + s) == [a, b] + s;
  }

  lemma {:induction false} FirstReadsBack(s: Text, rest: Text)
    requires s != [] && ReadString(rest).Some?
    ensures var after := ReadString(rest).value;
            ReadString(FirstEscaped(s) + rest) == Some(Read(s[..FirstWidth(s)] + after.value, after.rest))
  {
    if FirstWidth(s) == 2 {
      assert s[..2] == [s[0], s[1]];
      PairReadsBack(s[0], s[1], rest);
    } else {
      assert s[..1] == [s[0]];
      UnitReadsBack(s[0], rest);
    }
  }

  lemma {:induction false} EscapedSplits(s: Text, end: Text)
    requires s != []
    ensures Escaped(s) + end == FirstEscaped(s) + (Escaped(s[FirstWidth(s)..]) + end)
  {
    var first, others := FirstEscaped(s), Escaped(s[FirstWidth(s)..]);
    assert first + others + end == first + (others + end);
  }

  lemma {:induction false} StringEnds(rest: Text)
    ensures ReadString(Escaped([]) + ([QUOTE] + rest)) == Some(Read([], rest))
  {
    assert Escaped([]) + ([QUOTE] + rest) == [QUOTE] + rest;
    assert ([QUOTE] + rest)[1..] == rest;
  }

  lemma {:induction false} StringReadsBack(s: Text, rest: Text)
    ensures ReadString(Escaped(s) + ([QUOTE] + rest)) == Some(Read(s, rest))
    decreases |s|
  {
    if s == [] {
      StringEnds(rest);
    } else {
      var after := s[FirstWidth(s)..];
      StringReadsBack(after, rest);
      StringContinues(s, after, Escaped(after) + ([QUOTE] + rest), rest);
      EscapedSplits(s, [QUOTE] + rest);
    }
  }

  lemma {:induction false} StringContinues(s: Text, after: Text, t: Text, rest: Text)
    requires s != [] && after == s[FirstWidth(s)..] && ReadString(t) == Some(Read(after, rest))
    ensures ReadString(FirstEscaped(s) + t) == Some(Read(s, rest))
  {
    FirstReadsBack(s, t);
    assert s[..FirstWidth(s)] + after == s;
  }

  lemma {:induction false} QuotedReadsBack(s: Text, rest: Text)
    ensures var t := Quoted(s) + rest; t[0] == QUOTE && ReadString(t[1..]) == Some(Read(s, rest))
  {
    StringReadsBack(s, rest);
    QuotedOpens(Escaped(s), rest);
  }

  lemma {:induction false} QuotedOpens(escaped: Text, rest: Text)
    ensures ([QUOTE] + escaped + [QUOTE] + rest)[1..] == escaped + ([QUOTE] + rest)
  {}

  /* ---- Numbers ---- */

  predicate StartsNoDigit(t: Text) { t == [] || !IsDigit(t[0]) }

  // Reading digits from left to right builds the number that printed them.
  function Shifted(soFar: nat, n: nat): nat {
    if n < 10 then 10 * soFar + n else 10 * Shifted(soFar, n / 10) + n % 10
  }

  lemma {:induction false} ShiftedFromZero(n: nat)
    ensures Shifted(0, n) == n
  {
    if n >= 10 {
      ShiftedFromZero(n / 10);
    }
  }

  lemma {:induction false} DigitsContinue(n: nat, rest: Text, soFar: nat)
    ensures ReadDigits(Digits(n) + rest, soFar) == ReadDigits(rest, Shifted(soFar, n))
    decreases n
  {
    if n < 10 {
      assert (Digits(n) + rest)[1..] == rest;
    } else {
      var last: Text := [ZERO + n % 10];
      assert Digits(n) + rest == Digits(n / 10) + (last + rest);
      DigitsContinue(n / 10, last + rest, soFar);
      assert (last + rest)[1..] == rest;
    }
  }

  lemma {:induction false} DigitsReadBack(n: nat, rest: Text)
    requires StartsNoDigit(rest)
    ensures ReadDigits(Digits(n) + rest, 0) == Read(n, rest)
  {
    DigitsContinue(n, rest, 0);
    ShiftedFromZero(n);
  }

  lemma {:induction false} NegativeReads(t: Text, n: nat, rest: Text)
    requires t != [] && IsDigit(t[0]) && ReadDigits(t, 0) == Read(n, rest)
    ensures ReadValue([MINUS] + t) == Some(Read(Number(-(n as int)), rest))
  {
    assert ([MINUS] + t)[1..] == t;
  }

  lemma {:induction false} NaturalReads(t: Text, n: nat, rest: Text)
    requires t != [] && IsDigit(t[0]) && ReadDigits(t, 0) == Read(n, rest)
    ensures ReadValue(t) == Some(Read(Number(n), rest))
  {}

  lemma {:induction false} NumberReadsBack(n: int, rest: Text)
    requires StartsNoDigit(rest)
    ensures ReadValue(NumberText(n) + rest) == Some(Read(Number(n), rest))
  {
    var magnitude := if n < 0 then -n else n;
    var t := Digits(magnitude) + rest;
    DigitsReadBack(magnitude, rest);
    assert t[0] == Digits(magnitude)[0];
    if n < 0 {
      NegativeReads(t, magnitude, rest);
      assert NumberText(n) + rest == [MINUS] + t;
    } else {
      NaturalReads(t, magnitude, rest);
    }
  }

  /* ---- Values ---- */

  lemma {:induction false} LiteralReadsBack(literal: Text, v: Json, rest: Text)
    requires literal != []
    ensures ReadLiteral(literal + rest, literal, v) == Some(Read(v, rest))
  {
    assert (literal + rest)[|literal|..] == rest;
  }

  /* One step of each list reader. */

  lemma {:induction false} ItemsEnd(t: Text, v: Json, rest: Text)
    requires ReadValue(t) == Some(Read(v, [CLOSE_BRACKET] + rest))
    ensures ReadItems(t) == Some(Read([v], rest))
  {
    assert ([CLOSE_BRACKET] + rest)[1..] == rest;
  }

  lemma {:induction false} ItemsContinue(t: Text, v: Json, tail: Text, items: seq<Json>, rest: Text)
    requires ReadValue(t) == Some(Read(v, [COMMA] + tail)) && ReadItems(tail) == Some(Read(items, rest))
    ensures ReadItems(t) == Some(Read([v] + items, rest))
  {
    assert ([COMMA] + tail)[1..] == tail;
  }

  lemma {:induction false} ArrayReads(t: Text, items: seq<Json>, rest: Text)
    requires t != [] && t[0] != CLOSE_BRACKET && ReadItems(t) == Some(Read(items, rest))
    ensures ReadValue([OPEN_BRACKET] + t) == Some(Read(Array(items), rest))
  {
    assert ([OPEN_BRACKET] + t)[1..] == t;
  }

  lemma {:induction false} MemberReads(t: Text, key: Text, tail: Text, v: Json, rest: Text)
    requires t != [] && t[0] == QUOTE && ReadString(t[1..]) == Some(Read(key, [COLON] + tail))
    requires ReadValue(tail) == Some(Read(v, rest))
    ensures ReadMember(t) == Some(Read(Member(key, v), rest))
  {
    assert ([COLON] + tail)[1..] == tail;
  }

  lemma {:induction false} MembersEnd(t: Text, m: Member, rest: Text)
    requires ReadMember(t) == Some(Read(m, [CLOSE_BRACE] + rest))
    ensures ReadMembers(t) == Some(Read([m], rest))
  {
    assert ([CLOSE_BRACE] + rest)[1..] == rest;
  }

  lemma {:induction false} MembersContinue(t: Text, m: Member, tail: Text, members: seq<Member>, rest: Text)
    requires ReadMember(t) == Some(Read(m, [COMMA] + tail)) && ReadMembers(tail) == Some(Read(members, rest))
    ensures ReadMembers(t) == Some(Read([m] + members, rest))
  {
    assert ([COMMA] + tail)[1..] == tail;
  }

  lemma {:induction false} ObjectReads(t: Text, members: seq<Member>, rest: Text)
    requires t != [] && t[0] != CLOSE_BRACE && ReadMembers(t) == Some(Read(members, rest))
    ensures ReadValue([OPEN_BRACE] + t) == Some(Read(Object(members), rest))
  {
    assert ([OPEN_BRACE] + t)[1..] == t;
  }

  // No value starts with what closes or separates.
  lemma {:induction false} FirstUnit(v: Json)
    ensures Stringify(v) != [] && Stringify(v)[0] != CLOSE_BRACKET && Stringify(v)[0] != CLOSE_BRACE
  {
    match v
    case Number(n) => assert n >= 0 ==> IsDigit(Digits(n)[0]);
    case _ =>
  }

  lemma {:induction false} ItemsStart(items: seq<Json>)
    requires items != []
    ensures StringifyItems(items) != [] && StringifyItems(items)[0] != CLOSE_BRACKET
  {
    FirstUnit(items[0]);
  }

  lemma {:induction false} MembersStart(members: seq<Member>)
    requires members != []
    ensures StringifyMembers(members) != [] && StringifyMembers(members)[0] == QUOTE
  {
    assert StringifyMember(members[0])[0] == QUOTE;
  }

  // Reading any printed value gives the value and stops right behind it.
  lemma {:induction false} ValueReadsBack(v: Json, rest: Text)
    requires StartsNoDigit(rest)
    ensures ReadValue(Stringify(v) + rest) == Some(Read(v, rest))
    decreases v, 0
  {
    match v
    case Null => LiteralReadsBack(NULL_TEXT, Null, rest);
    case Bool(b) => LiteralReadsBack(if b then TRUE_TEXT else FALSE_TEXT, Bool(b), rest);
    case Number(n) => NumberReadsBack(n, rest);
    case String(s) => QuotedReadsBack(s, rest);
    case Array(items) => ArrayReadsBack(items, rest);
    case Object(members) => ObjectReadsBack(members, rest);
  }

  lemma {:induction false} ArrayReadsBack(items: seq<Json>, rest: Text)
    requires StartsNoDigit(rest)
    ensures ReadValue(Stringify(Array(items)) + rest) == Some(Read(Array(items), rest))
    decreases items, 1
  {
    var tail := StringifyItems(items) + ([CLOSE_BRACKET] + rest);
    assert Stringify(Array(items)) + rest == [OPEN_BRACKET] + tail;
    if items == [] {
      assert ([OPEN_BRACKET] + tail)[2..] == rest;
    } else {
      ItemsReadBack(items, rest);
      ItemsStart(items);
      ArrayReads(tail, items, rest);
    }
  }

  lemma {:induction false} ObjectReadsBack(members: seq<Member>, rest: Text)
    requires StartsNoDigit(rest)
    ensures ReadValue(Stringify(Object(members)) + rest) == Some(Read(Object(members), rest))
    decreases members, 1
  {
    var tail := StringifyMembers(members) + ([CLOSE_BRACE] + rest);
    assert Stringify(Object(members)) + rest == [OPEN_BRACE] + tail;
    if members == [] {
      assert ([OPEN_BRACE] + tail)[2..] == rest;
    } else {
      MembersReadBack(members, rest);
      MembersStart(members);
      ObjectReads(tail, members, rest);
    }
  }

  lemma {:induction false} ItemsReadBack(items: seq<Json>, rest: Text)
    requires items != []
    ensures ReadItems(StringifyItems(items) + ([CLOSE_BRACKET] + rest)) == Some(Read(items, rest))
    decreases items, 0
  {
    var end := [CLOSE_BRACKET] + rest;
    if |items| == 1 {
      ValueReadsBack(items[0], end);
      ItemsEnd(Stringify(items[0]) + end, items[0], rest);
      assert items == [items[0]];
    } else {
      var tail := StringifyItems(items[1..]) + end;
      ItemsReadBack(items[1..], rest);
      var t := Stringify(items[0]) + ([COMMA] + tail);
      ValueReadsBack(items[0], [COMMA] + tail);
      ItemsContinue(t, items[0], tail, items[1..], rest);
      ItemsSplit(items, end);
      assert items == [items[0]] + items[1..];
    }
  }

  lemma {:induction false} ItemsSplit(items: seq<Json>, end: Text)
    requires |items| > 1
    ensures StringifyItems(items) + end == Stringify(items[0]) + ([COMMA] + (StringifyItems(items[1..]) + end))
  {
    var first, others := Stringify(items[0]), StringifyItems(items[1..]);
    assert first + [COMMA] + others + end == first + ([COMMA] + (others + end));
  }

  lemma {:induction false} MemberReadsBack(m: Member, rest: Text)
    requires StartsNoDigit(rest)
    ensures ReadMember(StringifyMember(m) + rest) == Some(Read(m, rest))
    decreases m, 0
  {
    var tail := Stringify(m.value) + rest;
    var t := Quoted(m.key) + ([COLON] + tail);
    QuotedReadsBack(m.key, [COLON] + tail);
    ValueReadsBack(m.value, rest);
    MemberReads(t, m.key, tail, m.value, rest);
    MemberSplits(m, rest);
  }

  lemma {:induction false} MemberSplits(m: Member, rest: Text)
    ensures StringifyMember(m) + rest == Quoted(m.key) + ([COLON] + (Stringify(m.value) + rest))
  {
    var key, value := Quoted(m.key), Stringify(m.value);
    assert key + [COLON] + value + rest == key + ([COLON] + (value + rest));
  }

  lemma {:induction false} MembersReadBack(members: seq<Member>, rest: Text)
    requires members != []
    ensures ReadMembers(StringifyMembers(members) + ([CLOSE_BRACE] + rest)) == Some(Read(members, rest))
    decreases members, 0
  {
    var end := [CLOSE_BRACE] + rest;
    if |members| == 1 {
      MemberReadsBack(members[0], end);
      MembersEnd(StringifyMember(members[0]) + end, members[0], rest);
      assert members == [members[0]];
    } else {
      var tail := StringifyMembers(members[1..]) + end;
      MembersReadBack(members[1..], rest);
      var t := StringifyMember(members[0]) + ([COMMA] + tail);
      MemberReadsBack(members[0], [COMMA] + tail);
      MembersContinue(t, members[0], tail, members[1..], rest);
      MembersSplit(members, end);
      assert members == [members[0]] + members[1..];
    }
  }

  lemma {:induction false} MembersSplit(members: seq<Member>, end: Text)
    requires |members| > 1
    ensures StringifyMembers(members) + end
              == StringifyMember(members[0]) + ([COMMA] + (StringifyMembers(members[1..]) + end))
  {
    var first, others := StringifyMember(members[0]), StringifyMembers(members[1..]);
    assert first + [COMMA] + others + end == first + ([COMMA] + (others + end));
  }

  lemma {:induction false} StringifyIsInjective(v: Json, w: Json)
    requires Stringify(v) == Stringify(w)
    ensures v == w
  {
    ValueReadsBack(v, []);
    ValueReadsBack(w, []);
    assert Stringify(v) + [] == Stringify(w) + [];
  }
}
