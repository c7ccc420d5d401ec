/** The till's money field: decimal text in, minor units out, and back. */
module MoneyText {
  import opened Wrappers
  import opened Rounding

  predicate IsDigit(c: char) { '0' <= c <= '9' }

  predicate AllDigits(s: string) { forall i | 0 <= i < |s| :: IsDigit(s[i]) }

  // The white space and line terminators that String.prototype.trim removes.
  predicate IsSpace(c: char) {
    || '\U{0009}' <= c <= '\U{000D}' || c == ' ' || c == '\U{00A0}' || c == '\U{1680}'
    || '\U{2000}' <= c <= '\U{200A}' || c == '\U{2028}' || c == '\U{2029}'
    || c == '\U{202F}' || c == '\U{205F}' || c == '\U{3000}' || c == '\U{FEFF}'
  }

  predicate AllSpace(s: string) { forall i | 0 <= i < |s| :: IsSpace(s[i]) }

  function TrimStart(s: string): string {
    if s != [] && IsSpace(s[0]) then TrimStart(s[1..]) else s
  }

  function TrimEnd(s: string): string {
    if s != [] && IsSpace(s[|s| - 1]) then TrimEnd(s[..|s| - 1]) else s
  }

  function Trim(s: string): string { TrimEnd(TrimStart(s)) }

  // String.prototype.replace with a string pattern changes the first match only.
  function CommaToPoint(s: string): (r: string)
    ensures |r| == |s|
  {
    if s == [] then []
    else if s[0] == ',' then ['.'] + s[1..]
    else [s[0]] + CommaToPoint(s[1..])
  }

  function DigitPrefix(s: string): (k: nat)
    ensures k <= |s| && AllDigits(s[..k]) && (k < |s| ==> !IsDigit(s[k]))
  {
    if s == [] || !IsDigit(s[0]) then 0
    else
      var k := DigitPrefix(s[1..]);
      assert s[..k + 1] == [s[0]] + s[1..][..k];
      k + 1
  }

  function ToNat(s: string): nat
    requires AllDigits(s)
  {
    if s == [] then 0 else 10 * ToNat(s[..|s| - 1]) + (s[|s| - 1] - '0') as nat
  }

  function Zeros(n: int): string {
    if n <= 0 then [] else seq(n, _ => '0')
  }

  function PadEnd(s: string, n: nat): string { s + Zeros(n - |s|) }

  function PadStart(s: string, n: nat): string { Zeros(n - |s|) + s }

  function WithinBound(amount: nat): Option<nat> {
    if amount <= MAX_SAFE_INTEGER then Some(amount) else None
  }

  function Amount(major: string, fraction: string): Option<nat>
    requires AllDigits(major) && AllDigits(fraction)
  {
    WithinBound(ToNat(major) * 100 + ToNat(PadEnd(fraction, 2)))
  }

  // Digits, then at most one point followed by at most two digits.
  function ParseNormalized(s: string): Option<nat> {
    var k := DigitPrefix(s);
    if k == 0 then None
    else if k == |s| then Amount(s[..k], [])
    else if s[k] == '.' && |s| <= k + 3 && AllDigits(s[k + 1..]) then Amount(s[..k], s[k + 1..])
    else None
  }

  function ParseMoney(value: string): Option<nat> {
    ParseNormalized(CommaToPoint(Trim(value)))
  }

  function Decimal(n: nat): (s: string)
    ensures s != [] && AllDigits(s) && ToNat(s) == n
  {
    var last := [('0' as int + n % 10) as char];
    if n < 10 then last
    else
      var front := Decimal(n / 10);
      assert (front + last)[..|front|] == front;
      front + last
  }

  function IntegerText(n: int): string {
    if n < 0 then ['-'] + Decimal(-n) else Decimal(n)
  }

  function PrintParts(units: int, cents: int): string {
    IntegerText(units) + ['.'] + PadStart(IntegerText(cents), 2)
  }

  // Math.floor of the quotient; the remainder keeps the sign of the amount.
  function PrintMoney(amount: int): string {
    PrintParts(amount / 100, if amount >= 0 then amount % 100 else -(-amount % 100))
  }

  /* ---- What the parser accepts, as a grammar ---- */

  predicate IsTail(tail: string) {
    tail == [] || ((tail[0] == '.' || tail[0] == ',') && |tail| <= 3 && AllDigits(tail[1..]))
  }

  function Cents(tail: string): nat
    requires IsTail(tail)
  {
    if |tail| < 2 then 0
    else if |tail| == 2 then 10 * (tail[1] - '0') as nat
    else 10 * (tail[1] - '0') as nat + (tail[2] - '0') as nat
  }

  predicate IsMoney(value: string, before: string, major: string, tail: string, after: string, amount: nat) {
    && value == before + major + tail + after
    && AllSpace(before) && AllSpace(after)
    && major != [] && AllDigits(major) && IsTail(tail)
    && amount == 100 * ToNat(major) + Cents(tail) <= MAX_SAFE_INTEGER
  }

  /* ---- Pieces ---- */

  lemma {:induction false} TwoDigits(a: char, b: char)
    requires IsDigit(a) && IsDigit(b)
    ensures ToNat([a]) == (a - '0') as nat
    ensures ToNat([a, b]) == 10 * (a - '0') as nat + (b - '0') as nat
  {
    assert [a][..0] == [] && [a, b][..1] == [a];
  }

  lemma {:induction false} PaddedFraction(f: string)
    requires AllDigits(f) && |f| <= 2
    ensures AllDigits(PadEnd(f, 2)) && ToNat(PadEnd(f, 2)) == Cents(['.'] + f)
  {
    var p := PadEnd(f, 2);
    assert p == [p[0], p[1]];
    TwoDigits(p[0], p[1]);
  }

  lemma {:induction false} TrimStartSplits(s: string) returns (pad: string)
    ensures s == pad + TrimStart(s) && AllSpace(pad)
    ensures TrimStart(s) == [] || !IsSpace(TrimStart(s)[0])
  {
    if s != [] && IsSpace(s[0]) {
      pad := TrimStartSplits(s[1..]);
      pad := [s[0]] + pad;
    } else {
      pad := [];
    }
  }

  lemma {:induction false} TrimEndSplits(s: string) returns (pad: string)
    ensures s == TrimEnd(s) + pad && AllSpace(pad)
    ensures TrimEnd(s) == [] || !IsSpace(TrimEnd(s)[|TrimEnd(s)| - 1])
  {
    if s != [] && IsSpace(s[|s| - 1]) {
      pad := TrimEndSplits(s[..|s| - 1]);
      pad := pad + [s[|s| - 1]];
    } else {
      pad := [];
    }
  }

  lemma {:induction false} TrimStartDrops(pad: string, s: string)
    requires AllSpace(pad) && (s == [] || !IsSpace(s[0]))
    ensures TrimStart(pad + s) == s
  {
    if pad != [] {
      assert (pad + s)[1..] == pad[1..] + s;
      TrimStartDrops(pad[1..], s);
    } else {
      assert pad + s == s;
    }
  }

  lemma {:induction false} TrimEndDrops(s: string, pad: string)
    requires AllSpace(pad) && (s == [] || !IsSpace(s[|s| - 1]))
    ensures TrimEnd(s + pad) == s
  {
    if pad != [] {
      assert (s + pad)[..|s + pad| - 1] == s + pad[..|pad| - 1];
      TrimEndDrops(s, pad[..|pad| - 1]);
    } else {
      assert s + pad == s;
    }
  }

  lemma {:induction false} TrimDrops(before: string, s: string, after: string)
    requires AllSpace(before) && AllSpace(after)
    requires s != [] && !IsSpace(s[0]) && !IsSpace(s[|s| - 1])
    ensures Trim(before + s + after) == s
  {
    assert before + s + after == before + (s + after);
    TrimStartDrops(before, s + after);
    TrimEndDrops(s, after);
  }

  lemma {:induction false} CommaToPointSplits(major: string, rest: string)
    requires AllDigits(major)
    ensures CommaToPoint(major + rest) == major + CommaToPoint(rest)
  {
    if major == [] {
      assert major + rest == rest;
    } else {
      var s := major + rest;
      assert IsDigit(s[0]) && s[1..] == major[1..] + rest;
      CommaToPointSplits(major[1..], rest);
      assert CommaToPoint(s) == [s[0]] + CommaToPoint(s[1..]);
    }
  }

  lemma {:induction false} DigitsEndHere(major: string, rest: string)
    requires AllDigits(major) && (rest == [] || !IsDigit(rest[0]))
    ensures DigitPrefix(major + rest) == |major|
  {
    var s, k := major + rest, DigitPrefix(major + rest);
    assert forall i | 0 <= i < |major| :: s[i] == major[i];
    assert forall i | 0 <= i < k :: s[..k][i] == s[i];
    assert rest != [] ==> s[|major|] == rest[0];
  }

  // Only the first comma can have been changed, so a digit in the result was
  // that digit already and a point was a point or that comma.
  lemma {:induction false} CommaToPointOrigin(s: string, i: nat)
    requires i < |s|
    ensures IsDigit(CommaToPoint(s)[i]) ==> s[i] == CommaToPoint(s)[i]
    ensures CommaToPoint(s)[i] == '.' ==> s[i] == '.' || s[i] == ','
  {
    if s[0] != ',' && i > 0 {
      CommaToPointOrigin(s[1..], i - 1);
    }
  }

  lemma {:induction false} DigitsKeepTheirPlace(s: string, from: nat, to: nat)
    requires from <= to <= |s| && AllDigits(CommaToPoint(s)[from..to])
    ensures AllDigits(s[from..to]) && s[from..to] == CommaToPoint(s)[from..to]
  {
    forall i | from <= i < to
      ensures s[i] == CommaToPoint(s)[i] && IsDigit(s[i])
    {
      assert CommaToPoint(s)[from..to][i - from] == CommaToPoint(s)[i];
      CommaToPointOrigin(s, i);
    }
  }

  lemma {:induction false} SeparatorBecomesPoint(tail: string)
    requires IsTail(tail) && tail != []
    ensures CommaToPoint(tail) == ['.'] + tail[1..]
  {
    if tail[0] == '.' {
      NoCommaUnchanged(tail[1..]);
    }
  }

  lemma {:induction false} NoCommaUnchanged(s: string)
    requires AllDigits(s)
    ensures CommaToPoint(s) == s
  {
    if s != [] {
      NoCommaUnchanged(s[1..]);
    }
  }

  /* ---- The parser accepts exactly that grammar ---- */

  lemma {:induction false} NormalizedParts(major: string, fraction: string)
    requires major != [] && AllDigits(major) && AllDigits(fraction) && |fraction| <= 2
    ensures var point := ['.'] + fraction;
            ParseNormalized(major + point) == WithinBound(100 * ToNat(major) + Cents(point))
  {
    var s := major + (['.'] + fraction);
    DigitsEndHere(major, ['.'] + fraction);
    assert s[..|major|] == major && s[|major| + 1..] == fraction;
    PaddedFraction(fraction);
  }

  lemma {:induction false} NormalizedDigits(major: string)
    requires major != [] && AllDigits(major)
    ensures ParseNormalized(major) == WithinBound(100 * ToNat(major))
  {
    assert major + [] == major && major[..|major|] == major;
    DigitsEndHere(major, []);
    PaddedFraction([]);
  }

  lemma {:induction false} WordIsParsed(major: string, tail: string)
    requires major != [] && AllDigits(major) && IsTail(tail)
    ensures ParseNormalized(CommaToPoint(major + tail)) == WithinBound(100 * ToNat(major) + Cents(tail))
  {
    CommaToPointSplits(major, tail);
    if tail == [] {
      assert major + CommaToPoint(tail) == major;
      NormalizedDigits(major);
    } else {
      SeparatorBecomesPoint(tail);
      NormalizedParts(major, tail[1..]);
    }
  }

  lemma {:induction false} TextIsParsed(before: string, major: string, tail: string, after: string)
    requires AllSpace(before) && AllSpace(after) && major != [] && AllDigits(major) && IsTail(tail)
    ensures ParseMoney(before + major + tail + after) == WithinBound(100 * ToNat(major) + Cents(tail))
  {
    var word := major + tail;
    assert before + major + tail + after == before + word + after;
    assert tail != [] ==> word[|word| - 1] == tail[|tail| - 1];
    TrimDrops(before, word, after);
    WordIsParsed(major, tail);
  }

  lemma {:induction false} ParsedShape(s: string)
    requires ParseNormalized(s).Some?
    ensures var k := DigitPrefix(s);
            0 < k && (k < |s| ==> s[k] == '.' && |s| <= k + 3 && AllDigits(s[k + 1..]))
  {}

  lemma {:induction false} MajorOfWord(word: string, k: nat)
    requires k <= |word| && AllDigits(CommaToPoint(word)[..k])
    ensures AllDigits(word[..k])
  {
    assert CommaToPoint(word)[0..k] == CommaToPoint(word)[..k] && word[0..k] == word[..k];
    DigitsKeepTheirPlace(word, 0, k);
  }

  lemma {:induction false} TailOfWord(word: string, k: nat)
    requires k < |word| <= k + 3 && CommaToPoint(word)[k] == '.' && AllDigits(CommaToPoint(word)[k + 1..])
    ensures IsTail(word[k..])
  {
    var n := |word|;
    CommaToPointOrigin(word, k);
    assert CommaToPoint(word)[k + 1..n] == CommaToPoint(word)[k + 1..];
    DigitsKeepTheirPlace(word, k + 1, n);
    assert word[k..][1..] == word[k + 1..n];
  }

  lemma {:induction false} ParsedWordIsGrammar(word: string) returns (major: string, tail: string)
    requires ParseNormalized(CommaToPoint(word)).Some?
    ensures word == major + tail && major != [] && AllDigits(major) && IsTail(tail)
  {
    var k := DigitPrefix(CommaToPoint(word));
    ParsedShape(CommaToPoint(word));
    major, tail := word[..k], word[k..];
    MajorOfWord(word, k);
    if k < |word| { TailOfWord(word, k); }
  }

  lemma {:induction false} ParsedIsGrammar(value: string)
    returns (before: string, major: string, tail: string, after: string)
    requires ParseMoney(value).Some?
    ensures IsMoney(value, before, major, tail, after, ParseMoney(value).value)
  {
    before, after := TrimSplits(value);
    major, tail := ParsedWordIsGrammar(Trim(value));
    Reassembled(value, before, major, tail, after);
    TextIsParsed(before, major, tail, after);
  }

  lemma {:induction false} TrimSplits(s: string) returns (before: string, after: string)
    ensures s == before + (Trim(s) + after) && AllSpace(before) && AllSpace(after)
  {
    before := TrimStartSplits(s);
    after := TrimEndSplits(TrimStart(s));
  }

  lemma Reassembled(value: string, before: string, major: string, tail: string, after: string)
    requires value == before + ((major + tail) + after)
    ensures value == before + major + tail + after
  {}

  lemma {:induction false} ParseIsTheGrammar(value: string, amount: nat)
    ensures ParseMoney(value) == Some(amount) <==>
              exists before, major, tail, after :: IsMoney(value, before, major, tail, after, amount)
  {
    if ParseMoney(value) == Some(amount) {
      var before, major, tail, after := ParsedIsGrammar(value);
    }
    forall before, major, tail, after | IsMoney(value, before, major, tail, after, amount)
      ensures ParseMoney(value) == Some(amount)
    {
      TextIsParsed(before, major, tail, after);
    }
  }

  /* ---- Round trips ---- */

  function PrintedTail(c: nat): string { ['.'] + PadStart(Decimal(c), 2) }

  lemma {:induction false} PrintedTailIsTail(c: nat)
    requires c < 100
    ensures IsTail(PrintedTail(c)) && Cents(PrintedTail(c)) == c
  {
    if c < 10 {
      assert PadStart(Decimal(c), 2) == ['0', ('0' as int + c) as char];
    } else {
      assert Decimal(c / 10) == [('0' as int + c / 10) as char];
      assert PadStart(Decimal(c), 2) == [('0' as int + c / 10) as char, ('0' as int + c % 10) as char];
    }
  }

  lemma {:induction false} PrintedParts(amount: nat) returns (major: string, tail: string)
    ensures PrintMoney(amount) == major + tail && major != [] && AllDigits(major) && IsTail(tail)
    ensures 100 * ToNat(major) + Cents(tail) == amount
  {
    major, tail := Decimal(amount / 100), PrintedTail(amount % 100);
    PrintedTailIsTail(amount % 100);
    assert IntegerText(amount / 100) == major && IntegerText(amount % 100) == Decimal(amount % 100);
  }

  lemma {:induction false} NoLeadingZero(n: nat)
    ensures Decimal(n)[0] == '0' <==> n == 0
    ensures n == 0 ==> Decimal(n) == ['0']
  {
    if n >= 10 { NoLeadingZero(n / 10); }
  }

  // The printed form of an amount: its units without a zero in front, a point,
  // and two digits of cents.
  lemma {:induction false} PrintedForm(amount: nat) returns (major: string, cents: string)
    ensures PrintMoney(amount) == major + ['.'] + cents && |cents| == 2
    ensures major != [] && AllDigits(major) && AllDigits(cents)
    ensures major[0] == '0' ==> major == ['0']
    ensures ToNat(major) == amount / 100 && ToNat(cents) == amount % 100
  {
    major, cents := Decimal(amount / 100), PadStart(Decimal(amount % 100), 2);
    NoLeadingZero(amount / 100);
    PrintedTailIsTail(amount % 100);
    CentsAreTheirNumber(cents);
    assert IntegerText(amount / 100) == major && IntegerText(amount % 100) == Decimal(amount % 100);
  }

  lemma {:induction false} CentsAreTheirNumber(cents: string)
    requires IsTail(['.'] + cents)
    ensures |cents| == 2 ==> AllDigits(cents) && ToNat(cents) == Cents(['.'] + cents)
  {
    var tail := ['.'] + cents;
    assert tail[1..] == cents;
    if |cents| == 2 {
      assert cents == [cents[0], cents[1]];
      TwoDigits(cents[0], cents[1]);
    }
  }

  lemma {:induction false} BareTextIsParsed(text: string, major: string, tail: string, amount: nat)
    requires text == major + tail && major != [] && AllDigits(major) && IsTail(tail)
    requires 100 * ToNat(major) + Cents(tail) == amount
    ensures ParseMoney(text) == WithinBound(amount)
  {
    assert tail != [] ==> text[|text| - 1] == tail[|tail| - 1];
    NothingToTrim(text);
    WordIsParsed(major, tail);
  }

  lemma {:induction false} NothingToTrim(s: string)
    requires s != [] && !IsSpace(s[0]) && !IsSpace(s[|s| - 1])
    ensures Trim(s) == s
  {
    assert TrimStart(s) == s;
  }

  lemma {:induction false} PrintedIsParsed(amount: nat)
    ensures ParseMoney(PrintMoney(amount)) == WithinBound(amount)
  {
    var major, tail := PrintedParts(amount);
    BareTextIsParsed(PrintMoney(amount), major, tail, amount);
  }

  lemma SignedParts(units: nat, cents: nat)
    requires 0 < units
    ensures PrintParts(-(units as int), -(cents as int)) ==
              ['-'] + Decimal(units) + ['.'] + if cents == 0 then ['0', '0'] else ['-'] + Decimal(cents)
  {
    assert cents == 0 ==> PadStart(['0'], 2) == ['0', '0'];
    assert cents > 0 ==> PadStart(['-'] + Decimal(cents), 2) == ['-'] + Decimal(cents);
  }

  // The negative amount that rounds down to `units` below zero with these cents.
  function Owed(units: nat, cents: nat): int {
    if cents == 0 then -100 * units else -100 * (units - 1) - cents
  }

  // Below zero the units are rounded down and the cents keep a sign of their own.
  lemma NegativeForm(units: nat, cents: nat)
    requires 0 < units && cents < 100
    ensures PrintMoney(Owed(units, cents)) ==
              ['-'] + Decimal(units) + ['.'] + if cents == 0 then ['0', '0'] else ['-'] + Decimal(cents)
  {
    OwedParts(units, cents);
    SignedParts(units, cents);
  }

  lemma OwedParts(units: nat, cents: nat)
    requires 0 < units && cents < 100
    ensures Owed(units, cents) < 0
    ensures Owed(units, cents) / 100 == -(units as int) && -Owed(units, cents) % 100 == cents
  {}

  // And every negative amount is one of those.
  lemma EveryDebt(amount: int) returns (units: nat, cents: nat)
    requires amount < 0
    ensures 0 < units && cents < 100 && amount == Owed(units, cents)
  {
    var debt: nat := -amount;
    var whole := debt / 100;
    cents := debt % 100;
    assert debt == 100 * whole + cents;
    units := if cents == 0 then whole else whole + 1;
  }

  lemma {:induction false} SignIsRefused(text: string)
    requires text != [] && text[0] == '-'
    ensures ParseMoney(text) == None
  {
    var pad := TrimEndSplits(text);
    assert TrimStart(text) == text;
    assert TrimEnd(text) != [] ==> TrimEnd(text)[0] == '-';
  }

  // Printed text reads back as the amount exactly when it is neither negative
  // nor over the bound; otherwise it is refused.
  lemma {:induction false} PrintThenParse(amount: int)
    ensures ParseMoney(PrintMoney(amount)) == if 0 <= amount <= MAX_SAFE_INTEGER then Some(amount) else None
  {
    if 0 <= amount {
      PrintedIsParsed(amount);
    } else {
      SignIsRefused(PrintMoney(amount));
    }
  }

  // Printing normalises: every accepted text has one printed form, which parses the same.
  lemma {:induction false} ParseThenPrint(value: string)
    requires ParseMoney(value).Some?
    ensures ParseMoney(PrintMoney(ParseMoney(value).value)) == ParseMoney(value)
    ensures forall other | ParseMoney(other).Some? ::
              ParseMoney(other) == ParseMoney(value) <==>
              PrintMoney(ParseMoney(other).value) == PrintMoney(ParseMoney(value).value)
  {
    ParsedIsSafe(value);
    PrintThenParse(ParseMoney(value).value);
    forall other | ParseMoney(other).Some?
      ensures ParseMoney(other) == ParseMoney(value) <==>
              PrintMoney(ParseMoney(other).value) == PrintMoney(ParseMoney(value).value)
    {
      ParsedIsSafe(other);
      PrintThenParse(ParseMoney(other).value);
    }
  }

  lemma {:induction false} ParsedIsSafe(value: string)
    requires ParseMoney(value).Some?
    ensures ParseMoney(value).value <= MAX_SAFE_INTEGER
  {}
}
