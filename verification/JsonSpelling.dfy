/**
 How JSON.stringify spells strings and numbers, unit by unit: what stays as it
 is, what takes two units, what takes six, and no zero in front.
 */
module JsonSpelling {
  import opened JsonText
  import opened CanonicalJson

  // A surrogate without its other half.
  predicate LoneAt(s: Text, i: nat)
    requires i < |s|
  {
    || (IsLead(s[i]) && !(i + 1 < |s| && IsTrail(s[i + 1])))
    || (IsTrail(s[i]) && !(i > 0 && IsLead(s[i - 1])))
  }

  // The units with a letter of their own (section 7 of RFC 8259).
  const LETTERS: map<Unit, Unit> :=
    map[8 := 98, 9 := 116, 10 := 110, 12 := 102, 13 := 114, QUOTE := QUOTE, BACKSLASH := BACKSLASH]

  function Width(s: Text, i: nat): nat
    requires i < |s|
  {
    if s[i] in LETTERS then 2
    else if s[i] < 0x20 || LoneAt(s, i) then 6
    else 1
  }

  // Where the spelling of unit i starts.
  function Place(s: Text, i: nat): nat
    requires i <= |s|
  {
    if i == 0 then 0 else Place(s, i - 1) + Width(s, i - 1)
  }

  predicate IsLowerHex(u: Unit) { IsDigit(u) || 97 <= u <= 102 }

  function LowerHexValue(u: Unit): nat
    requires IsLowerHex(u)
  {
    if IsDigit(u) then u - ZERO else u - 87
  }

  // One unit is itself, two are a backslash and a letter, six a backslash, a u
  // and the four digits of the unit.
  predicate Spells(piece: Text, u: Unit, width: nat) {
    match width
    case 1 => piece == [u]
    case 2 => u in LETTERS && piece == [BACKSLASH, LETTERS[u]]
    case _ =>
      && |piece| == 6 && piece[0] == BACKSLASH && piece[1] == 117
      && (forall i | 2 <= i < 6 :: IsLowerHex(piece[i]))
      && 0x1000 * LowerHexValue(piece[2]) + 0x100 * LowerHexValue(piece[3])
           + 0x10 * LowerHexValue(piece[4]) + LowerHexValue(piece[5]) == u
  }

  predicate SpelledAt(t: Text, place: nat, s: Text, i: nat)
    requires i < |s|
  {
    place + Width(s, i) <= |t| && Spells(t[place..place + Width(s, i)], s[i], Width(s, i))
  }

  ghost predicate Spelled(t: Text, s: Text) {
    |t| == Place(s, |s|) && forall i: nat | i < |s| :: SpelledAt(t, Place(s, i), s, i)
  }

  /* ---- The escaped text is spelled that way ---- */

  lemma HexDigitValue(n: int)
    requires 0 <= n < 16
    ensures IsLowerHex(HexDigit(n)) && LowerHexValue(HexDigit(n)) == n
  {}

  lemma HexEscapeSpells(u: Unit)
    ensures Spells(HexEscape(u), u, 6)
  {
    var high, low := u / 0x100, u % 0x100;
    HexDigitValue(high / 16);
    HexDigitValue(high % 16);
    HexDigitValue(low / 16);
    HexDigitValue(low % 16);
  }

  lemma FirstIsSpelled(s: Text)
    requires s != []
    ensures FirstWidth(s) == 1 ==> Spells(FirstEscaped(s), s[0], Width(s, 0)) && |FirstEscaped(s)| == Width(s, 0)
    ensures FirstWidth(s) == 2 ==> |s| > 1 && FirstEscaped(s) == s[..2] && Width(s, 0) == 1 && Width(s, 1) == 1
  {
    HexEscapeSpells(s[0]);
  }

  // Behind a whole character, widths do not depend on what came before.
  lemma WidthBehind(s: Text, i: nat)
    requires s != [] && FirstWidth(s) + i < |s|
    ensures Width(s[FirstWidth(s)..], i) == Width(s, FirstWidth(s) + i)
  {}

  lemma {:induction false} PlaceBehind(s: Text, i: nat)
    requires s != [] && FirstWidth(s) + i <= |s|
    ensures Place(s, FirstWidth(s) + i) == |FirstEscaped(s)| + Place(s[FirstWidth(s)..], i)
  {
    if i == 0 {
      FirstIsSpelled(s);
      assert Place(s, 1) == Place(s, 0) + Width(s, 0);
      assert FirstWidth(s) == 2 ==> Place(s, 2) == Place(s, 1) + Width(s, 1);
    } else {
      PlaceBehind(s, i - 1);
      WidthBehind(s, i - 1);
    }
  }

  lemma {:induction false} SpelledBehind(s: Text, first: Text, others: Text, i: nat)
    requires s != [] && FirstWidth(s) + i < |s| && |first| == |FirstEscaped(s)|
    requires SpelledAt(others, Place(s[FirstWidth(s)..], i), s[FirstWidth(s)..], i)
    ensures SpelledAt(first + others, Place(s, FirstWidth(s) + i), s, FirstWidth(s) + i)
  {
    var place, width := Place(s[FirstWidth(s)..], i), Width(s, FirstWidth(s) + i);
    WidthBehind(s, i);
    PlaceBehind(s, i);
    PieceBehind(first, others, place, width);
  }

  lemma PieceBehind(first: Text, others: Text, place: nat, width: nat)
    requires place + width <= |others|
    ensures (first + others)[|first| + place..|first| + place + width] == others[place..place + width]
  {}

  lemma {:induction false} FirstOfSpelled(s: Text, others: Text, i: nat)
    requires s != [] && i < FirstWidth(s)
    ensures i < |s| && SpelledAt(FirstEscaped(s) + others, Place(s, i), s, i)
  {
    FirstIsSpelled(s);
    var t := FirstEscaped(s) + others;
    assert Place(s, 1) == Place(s, 0) + Width(s, 0);
    if FirstWidth(s) == 2 {
      assert t[0..1] == [s[0]] && t[1..2] == [s[1]];
    } else {
      assert t[..Width(s, 0)] == FirstEscaped(s);
    }
  }

  lemma {:induction false} SpelledJoins(s: Text, others: Text)
    requires s != [] && Spelled(others, s[FirstWidth(s)..])
    ensures Spelled(FirstEscaped(s) + others, s)
  {
    var width, t := FirstWidth(s), FirstEscaped(s) + others;
    PlaceBehind(s, |s| - width);
    forall i: nat | i < |s|
      ensures SpelledAt(t, Place(s, i), s, i)
    {
      if i < width {
        FirstOfSpelled(s, others, i);
      } else {
        assert SpelledAt(others, Place(s[width..], i - width), s[width..], i - width);
        SpelledBehind(s, FirstEscaped(s), others, i - width);
      }
    }
  }

  // Every unit of every string is spelled in its own width, one after the other.
  lemma {:induction false} EscapedIsSpelled(s: Text)
    ensures Spelled(Escaped(s), s)
    decreases |s|
  {
    if s != [] {
      EscapedIsSpelled(s[FirstWidth(s)..]);
      SpelledJoins(s, Escaped(s[FirstWidth(s)..]));
    }
  }

  predicate Plain(s: Text, i: nat)
    requires i < |s|
  {
    s[i] != QUOTE && s[i] != BACKSLASH && s[i] >= 0x20 && !LoneAt(s, i)
  }

  lemma {:induction false} PlainPlaces(s: Text, i: nat)
    requires i <= |s|
    ensures i <= Place(s, i)
    ensures Place(s, i) == i <==> forall j: nat | j < i :: Plain(s, j)
  {
    if i > 0 {
      PlainPlaces(s, i - 1);
      assert Width(s, i - 1) == 1 <==> Plain(s, i - 1);
    }
  }

  lemma {:induction false} PlainUnitStays(s: Text, t: Text, i: nat)
    requires i < |s| && SpelledAt(t, i, s, i) && Plain(s, i)
    ensures i < |t| && t[i] == s[i]
  {
    var piece := t[i..i + 1];
    assert Width(s, i) == 1 && piece == [s[i]];
    assert piece[0] == t[i];
  }

  lemma {:induction false} PlainStays(s: Text)
    requires forall i: nat | i < |s| :: Plain(s, i)
    ensures Escaped(s) == s
  {
    EscapedIsSpelled(s);
    PlainPlaces(s, |s|);
    forall i: nat | i < |s|
      ensures Escaped(s)[i] == s[i]
    {
      PlainPlaces(s, i);
      assert SpelledAt(Escaped(s), Place(s, i), s, i);
      PlainUnitStays(s, Escaped(s), i);
    }
  }

  // A string comes out unchanged between its quotes if and only if it has no
  // quote, no backslash, no control unit and no lone surrogate.
  lemma {:induction false} UnchangedExactly(s: Text)
    ensures Stringify(String(s)) == [QUOTE] + s + [QUOTE] <==> forall i: nat | i < |s| :: Plain(s, i)
  {
    if forall i: nat | i < |s| :: Plain(s, i) {
      PlainStays(s);
    } else {
      EscapedIsSpelled(s);
      PlainPlaces(s, |s|);
      assert |Stringify(String(s))| == |Escaped(s)| + 2;
    }
  }

  /* ---- Numbers ---- */

  // A numeral starts with a zero only when it is zero.
  lemma {:induction false} NoLeadingZero(n: nat)
    ensures Digits(n)[0] == ZERO <==> n == 0
    ensures n == 0 ==> Digits(n) == [ZERO]
  {
    if n >= 10 { NoLeadingZero(n / 10); }
  }

  // The text of a whole number: a minus exactly below zero, no zero in front.
  lemma {:induction false} NumberSpelling(n: int)
    ensures var t := Stringify(Number(n));
            && t != [] && (t[0] == MINUS <==> n < 0)
            && (t[0] == ZERO <==> n == 0) && (n == 0 ==> t == [ZERO])
            && (n < 0 ==> |t| > 1 && t[1] != ZERO)
            && forall i | 0 <= i < |t| :: IsDigit(t[i]) || (i == 0 && t[i] == MINUS)
  {
    NoLeadingZero(if n < 0 then -n else n);
  }

  /* ---- Words and punctuation ---- */

  function Units(s: string): Text
    requires forall i | 0 <= i < |s| :: s[i] as int < 0x80
  {
    seq(|s|, i requires 0 <= i < |s| => s[i] as int)
  }

  lemma Words()
    ensures Stringify(Null) == Units("null")
    ensures Stringify(Bool(true)) == Units("true") && Stringify(Bool(false)) == Units("false")
    ensures [MINUS, ZERO, BACKSLASH] == Units("-0\\")
  {}

  lemma Marks()
    ensures Units("\"") == [QUOTE] && Units(",") == [COMMA] && Units(":") == [COLON]
    ensures Units("[") == [OPEN_BRACKET] && Units("]") == [CLOSE_BRACKET]
    ensures Units("{") == [OPEN_BRACE] && Units("}") == [CLOSE_BRACE]
    ensures Units("[]") == [OPEN_BRACKET, CLOSE_BRACKET] && Units("{}") == [OPEN_BRACE, CLOSE_BRACE]
  {}

  // What stands around and between the parts.
  lemma {:induction false} StringMarks(s: Text)
    ensures Stringify(String(s)) == Units("\"") + Escaped(s) + Units("\"")
  {
    Marks();
  }

  lemma {:induction false} ArrayMarks(v: Json, w: Json)
    ensures Stringify(Array([])) == Units("[]")
    ensures Stringify(Array([v, w])) == Units("[") + (Stringify(v) + Units(",") + Stringify(w)) + Units("]")
  {
    Marks();
    TwoItems(v, w);
  }

  lemma {:induction false} TwoItems(v: Json, w: Json)
    ensures StringifyItems([v, w]) == Stringify(v) + [COMMA] + Stringify(w)
  {
    assert [v, w][1..] == [w];
  }

  lemma {:induction false} ObjectMarks(m: Member, n: Member)
    ensures StringifyMember(m) == Stringify(String(m.key)) + Units(":") + Stringify(m.value)
    ensures Stringify(Object([])) == Units("{}")
    ensures Stringify(Object([m, n]))
              == Units("{") + (StringifyMember(m) + Units(",") + StringifyMember(n)) + Units("}")
  {
    Marks();
    TwoMembers(m, n);
  }

  lemma {:induction false} TwoMembers(m: Member, n: Member)
    ensures StringifyMembers([m, n]) == StringifyMember(m) + [COMMA] + StringifyMember(n)
  {
    assert [m, n][1..] == [n];
  }

  /* ---- The order of keys ---- */

  ghost predicate FirstDifference(a: Text, b: Text, i: nat) {
    && i <= |a| && i <= |b| && a[..i] == b[..i]
    && i < |b| && (i == |a| || a[i] < b[i])
  }

  // The order of keys is decided by the first unit in which they differ.
  lemma {:induction false} LessByFirstDifference(a: Text, b: Text)
    ensures Less(a, b) <==> exists i: nat :: FirstDifference(a, b, i)
    decreases |a|
  {
    if b != [] {
      if a == [] || a[0] < b[0] {
        assert FirstDifference(a, b, 0);
      } else if a[0] == b[0] {
        LessByFirstDifference(a[1..], b[1..]);
        if i: nat :| FirstDifference(a[1..], b[1..], i) {
          assert a[..i + 1] == [a[0]] + a[1..][..i] && b[..i + 1] == [b[0]] + b[1..][..i];
          assert FirstDifference(a, b, i + 1);
        }
        if i: nat :| FirstDifference(a, b, i) {
          assert i > 0 && a[1..][..i - 1] == a[..i][1..] && b[1..][..i - 1] == b[..i][1..];
          assert FirstDifference(a[1..], b[1..], i - 1);
        }
      } else {
        forall i: nat
          ensures !FirstDifference(a, b, i)
        {
          assert i > 0 && i <= |a| && i <= |b| ==> a[..i][0] == a[0] && b[..i][0] == b[0];
        }
      }
    }
  }

  lemma {:induction false} NumeralHasItsValue(n: nat)
    ensures AllDigits(Digits(n)) && IndexValue(Digits(n)) == n
  {
    if n >= 10 {
      NumeralHasItsValue(n / 10);
      assert Digits(n)[..|Digits(n)| - 1] == Digits(n / 10);
    } else {
      assert [ZERO + n][..0] == [];
    }
  }

  lemma {:induction false} ValueHasItsNumeral(key: Text)
    requires key != [] && AllDigits(key) && (key[0] == ZERO ==> |key| == 1)
    ensures Digits(IndexValue(key)) == key
  {
    var front, n := key[..|key| - 1], IndexValue(key);
    var digit: nat := key[|key| - 1] - ZERO;
    if front == [] {
      assert IndexValue(front) == 0 && n == digit;
      assert key == [ZERO + digit];
    } else {
      ValueHasItsNumeral(front);
      NoLeadingZero(IndexValue(front));
      assert n == 10 * IndexValue(front) + digit;
      assert key == front + [ZERO + digit];
    }
  }

  // The keys that come first are the numerals below 2^32 - 1, by their number.
  lemma {:induction false} IndexKeysAreNumerals(key: Text, n: nat)
    ensures IsArrayIndex(key) && IndexValue(key) == n <==> key == Digits(n) && n < 0xFFFF_FFFF
  {
    NumeralHasItsValue(n);
    NoLeadingZero(n);
    if IsArrayIndex(key) { ValueHasItsNumeral(key); }
    assert key == Digits(n) && key[0] == ZERO ==> |key| == 1;
  }
}
