/** Device identifiers: UUID version 7 as laid out in section 5.7 of RFC 9562. */
module UuidV7 {
  type Byte = n: int | 0 <= n < 256
  type Hex = s: seq<char> | forall i | 0 <= i < |s| :: IsHexDigit(s[i]) witness []

  predicate IsHexDigit(c: char) { '0' <= c <= '9' || 'a' <= c <= 'f' }

  function HexDigit(n: int): (c: char)
    requires 0 <= n < 16
    ensures IsHexDigit(c)
  {
    if n < 10 then ('0' as int + n) as char else ('a' as int + n - 10) as char
  }

  function HexByte(b: Byte): (s: Hex)
    ensures |s| == 2
  {
    [HexDigit(b / 16), HexDigit(b % 16)]
  }

  function HexText(bytes: seq<Byte>): (s: Hex)
    ensures |s| == 2 * |bytes|
  {
    if bytes == [] then [] else HexText(bytes[..|bytes| - 1]) + HexByte(bytes[|bytes| - 1])
  }

  function Dashed(h: Hex): string
    requires |h| == 32
  {
    h[..8] + "-" + h[8..12] + "-" + h[12..16] + "-" + h[16..20] + "-" + h[20..]
  }

  // The low `count` bytes of t, most significant first.
  function BigEndian(t: nat, count: nat): (b: seq<Byte>)
    ensures |b| == count
  {
    if count == 0 then [] else BigEndian(t / 256, count - 1) + [t % 256]
  }

  // Six bytes of time; the rest random, but for the version and the variant.
  function Layout(now: nat, random: seq<Byte>): (b: seq<Byte>)
    requires |random| == 16
    ensures |b| == 16
  {
    BigEndian(now, 6) + [112 + random[6] % 16, random[7], 128 + random[8] % 64] + random[9..]
  }

  function Uuid(now: nat, random: seq<Byte>): string
    requires |random| == 16
  {
    Dashed(HexText(Layout(now, random)))
  }

  method Generate(now: nat, random: seq<Byte>) returns (text: string)
    requires |random| == 16
    ensures text == Uuid(now, random)
  {
    var b := new Byte[16](i requires 0 <= i < 16 => random[i]);
    var t := now;
    var i := 5;
    while i >= 0
      invariant -1 <= i <= 5
      invariant BigEndian(now, 6) == BigEndian(t, i + 1) + b[i + 1..6]
      invariant forall k | 6 <= k < 16 :: b[k] == random[k]
      decreases i
    {
      b[i] := t % 256;
      assert b[i..6] == [b[i]] + b[i + 1..6];
      t := t / 256;
      i := i - 1;
    }
    ghost var time := b[0..6];
    assert BigEndian(now, 6) == time;
    b[6] := 112 + b[6] % 16;
    b[8] := 128 + b[8] % 64;
    assert b[..] == time + [b[6], b[7], b[8]] + random[9..];
    text := Dashed(HexText(b[..]));
  }

  /* ---- What the text says ---- */

  function Value(bytes: seq<Byte>): nat {
    if bytes == [] then 0 else 256 * Value(bytes[..|bytes| - 1]) + bytes[|bytes| - 1]
  }

  function HexValue(c: char): nat
    requires IsHexDigit(c)
  {
    if c <= '9' then (c - '0') as nat else 10 + (c - 'a') as nat
  }

  function ReadHex(h: Hex): nat {
    if h == [] then 0 else 16 * ReadHex(h[..|h| - 1]) + HexValue(h[|h| - 1])
  }

  function Power256(n: nat): nat {
    if n == 0 then 1 else 256 * Power256(n - 1)
  }

  lemma {:induction false} BigEndianValue(t: nat, count: nat)
    requires t < Power256(count)
    ensures Value(BigEndian(t, count)) == t
  {
    if count > 0 {
      BigEndianValue(t / 256, count - 1);
      assert BigEndian(t, count)[..count - 1] == BigEndian(t / 256, count - 1);
    }
  }

  lemma HexDigitReads(n: int)
    requires 0 <= n < 16
    ensures HexValue(HexDigit(n)) == n
  {}

  lemma {:induction false} HexTextReads(bytes: seq<Byte>)
    ensures ReadHex(HexText(bytes)) == Value(bytes)
  {
    if bytes != [] {
      var front, last := HexText(bytes[..|bytes| - 1]), bytes[|bytes| - 1];
      HexTextReads(bytes[..|bytes| - 1]);
      var text := HexText(bytes);
      assert text[..|text| - 1] == front + [HexDigit(last / 16)];
      assert text[..|text| - 1][..|front|] == front;
      HexDigitReads(last / 16);
      HexDigitReads(last % 16);
    }
  }

  lemma {:induction false} HexTextPrefix(bytes: seq<Byte>, k: nat)
    requires k <= |bytes|
    ensures HexText(bytes)[..2 * k] == HexText(bytes[..k])
  {
    if k == |bytes| {
      assert bytes[..k] == bytes;
    } else {
      HexTextPrefix(bytes[..|bytes| - 1], k);
      assert bytes[..|bytes| - 1][..k] == bytes[..k];
      assert HexText(bytes)[..2 * k] == HexText(bytes[..|bytes| - 1])[..2 * k];
    }
  }

  lemma {:induction false} HexTextAt(bytes: seq<Byte>, k: nat)
    requires k < |bytes|
    ensures HexText(bytes)[2 * k] == HexDigit(bytes[k] / 16)
    ensures HexText(bytes)[2 * k + 1] == HexDigit(bytes[k] % 16)
  {
    HexTextPrefix(bytes, k + 1);
    assert bytes[..k + 1][..k] == bytes[..k];
    assert HexText(bytes)[..2 * (k + 1)] == HexText(bytes[..k]) + HexByte(bytes[k]);
  }

  const TIME_LIMIT: nat := 0x1_0000_0000_0000

  lemma TimeLimit()
    ensures Power256(6) == TIME_LIMIT
  {
    assert Power256(2) == 0x1_0000;
    assert Power256(4) == 0x1_0000_0000;
  }

  // The twelve hexadecimal digits of the time, around the first dash.
  function TimeDigits(text: string): string
    requires |text| == 36
  {
    text[..8] + text[9..13]
  }

  lemma TimeDigitsOf(h: Hex)
    requires |h| == 32
    ensures |Dashed(h)| == 36 && TimeDigits(Dashed(h)) == h[..12]
    ensures Dashed(h)[14] == h[12] && Dashed(h)[19] == h[16]
    ensures Dashed(h)[8] == '-' && Dashed(h)[13] == '-' && Dashed(h)[18] == '-' && Dashed(h)[23] == '-'
  {}

  // Version 7 and the variant of the RFC, in a text whose first 48 bits are the
  // time, most significant digit first.
  lemma {:induction false} UuidLayout(now: nat, random: seq<Byte>)
    requires |random| == 16 && now < TIME_LIMIT
    ensures var s := Uuid(now, random);
            && |s| == 36 && s[8] == '-' && s[13] == '-' && s[18] == '-' && s[23] == '-'
            && s[14] == '7' && s[19] in {'8', '9', 'a', 'b'}
            && (forall i | 0 <= i < 12 :: IsHexDigit(TimeDigits(s)[i]))
            && ReadHex(TimeDigits(s)) == now
  {
    var bytes := Layout(now, random);
    var h := HexText(bytes);
    TimeDigitsOf(h);
    HexTextAt(bytes, 6);
    HexTextAt(bytes, 8);
    HexTextPrefix(bytes, 6);
    assert bytes[..6] == BigEndian(now, 6);
    HexTextReads(BigEndian(now, 6));
    TimeLimit();
    BigEndianValue(now, 6);
  }

  // Where the second digit of byte k stands in the text, behind k bytes and the
  // dashes before it.
  function DigitPlace(k: nat): nat {
    2 * k + 1 + if k < 4 then 0 else if k < 6 then 1 else if k < 8 then 2 else if k < 10 then 3 else 4
  }

  lemma DigitsOf(h: Hex, k: nat)
    requires |h| == 32 && k < 16
    ensures |Dashed(h)| == 36 && 0 < DigitPlace(k) < 36
    ensures Dashed(h)[DigitPlace(k)] == h[2 * k + 1] && Dashed(h)[DigitPlace(k) - 1] == h[2 * k]
  {}

  // What the layout makes of random byte b as byte k.
  function Marked(b: Byte, k: nat): Byte { if k == 6 then 112 + b % 16 else if k == 8 then 128 + b % 64 else b }

  lemma Halves(n: int, high: int, low: int)
    requires n == 16 * high + low && 0 <= low < 16
    ensures n / 16 == high && n % 16 == low
  {}

  lemma SixBits(b: int, high: int, middle: int, low: int)
    requires b == 64 * high + 16 * middle + low && 0 <= middle < 4 && 0 <= low < 16
    ensures b % 64 == 16 * middle + low
  {}

  lemma LowSixBits(b: int)
    ensures b % 64 == 16 * (b / 16 % 4) + b % 16
  {
    SixBits(b, b / 16 / 4, b / 16 % 4, b % 16);
  }

  lemma MarkedHalves(b: Byte)
    ensures Marked(b, 6) / 16 == 7 && Marked(b, 6) % 16 == b % 16
    ensures Marked(b, 8) / 16 == 8 + b / 16 % 4 && Marked(b, 8) % 16 == b % 16
  {
    Halves(112 + b % 16, 7, b % 16);
    LowSixBits(b);
    Halves(128 + b % 64, 8 + b / 16 % 4, b % 16);
  }

  lemma {:induction false} LaidByte(now: nat, random: seq<Byte>, k: nat)
    requires |random| == 16 && 6 <= k < 16
    ensures Layout(now, random)[k] == Marked(random[k], k)
  {
    assert k >= 9 ==> Layout(now, random)[k] == random[9..][k - 9];
  }

  lemma {:induction false} DigitsOfByte(now: nat, random: seq<Byte>, k: nat)
    requires |random| == 16 && k < 16
    ensures
      var s, place, b := Uuid(now, random), DigitPlace(k), Layout(now, random)[k];
      && |s| == 36 && 0 < place < 36
      && s[place] == HexDigit(b % 16) && s[place - 1] == HexDigit(b / 16)
  {
    DigitsOf(HexText(Layout(now, random)), k);
    HexTextAt(Layout(now, random), k);
  }

  // Behind the time, every digit that is not the version or the variant is the
  // random one, in its place.
  lemma {:induction false} RandomDigits(now: nat, random: seq<Byte>, k: nat)
    requires |random| == 16 && 6 <= k < 16
    ensures
      var s, place := Uuid(now, random), DigitPlace(k);
      && |s| == 36 && 0 < place < 36 && IsHexDigit(s[place]) && IsHexDigit(s[place - 1])
      && HexValue(s[place]) == random[k] % 16
      && HexValue(s[place - 1]) == if k == 6 then 7 else if k == 8 then 8 + random[k] / 16 % 4 else random[k] / 16
  {
    DigitsOfByte(now, random, k);
    LaidByte(now, random, k);
    MarkedHalves(random[k]);
    var b := Marked(random[k], k);
    HexDigitReads(b / 16);
    HexDigitReads(b % 16);
  }

  /* ---- What tells two identifiers apart ---- */

  lemma {:induction false} HexTextIsInjective(a: seq<Byte>, b: seq<Byte>)
    requires HexText(a) == HexText(b)
    ensures a == b
  {
    forall k | 0 <= k < |a|
      ensures a[k] == b[k]
    {
      HexTextAt(a, k);
      HexTextAt(b, k);
      HexDigitReads(a[k] / 16);
      HexDigitReads(b[k] / 16);
      HexDigitReads(a[k] % 16);
      HexDigitReads(b[k] % 16);
    }
  }

  function Undashed(s: string): string
    requires |s| == 36
  {
    s[..8] + s[9..13] + s[14..18] + s[19..23] + s[24..]
  }

  lemma DashesComeOut(h: Hex)
    requires |h| == 32
    ensures |Dashed(h)| == 36 && Undashed(Dashed(h)) == h
  {
    var s := Dashed(h);
    assert s[..8] == h[..8] && s[9..13] == h[8..12] && s[14..18] == h[12..16];
    assert s[19..23] == h[16..20] && s[24..] == h[20..];
  }

  // The 74 bits the layout leaves to chance: all but the version and the variant.
  predicate SameChance(r: seq<Byte>, q: seq<Byte>)
    requires |r| == 16 && |q| == 16
  {
    r[6] % 16 == q[6] % 16 && r[7] == q[7] && r[8] % 64 == q[8] % 64 && r[9..] == q[9..]
  }

  // Two identifiers are the same exactly when their times and those bits are.
  lemma {:induction false} IdentifiersCoincide(now: nat, later: nat, r: seq<Byte>, q: seq<Byte>)
    requires |r| == 16 && |q| == 16 && now < TIME_LIMIT && later < TIME_LIMIT
    ensures Uuid(now, r) == Uuid(later, q) <==> now == later && SameChance(r, q)
  {
    var a, b := Layout(now, r), Layout(later, q);
    if Uuid(now, r) == Uuid(later, q) {
      DashesComeOut(HexText(a));
      DashesComeOut(HexText(b));
      HexTextIsInjective(a, b);
      SameTime(now, later, r, q);
      assert a[9..] == r[9..] && b[9..] == q[9..];
      assert a[6] == b[6] && a[7] == b[7] && a[8] == b[8];
    }
  }

  lemma {:induction false} SameTime(now: nat, later: nat, r: seq<Byte>, q: seq<Byte>)
    requires |r| == 16 && |q| == 16 && now < TIME_LIMIT && later < TIME_LIMIT
    requires Layout(now, r) == Layout(later, q)
    ensures now == later
  {
    TimeLimit();
    BigEndianValue(now, 6);
    BigEndianValue(later, 6);
    assert Layout(now, r)[..6] == BigEndian(now, 6) && Layout(later, q)[..6] == BigEndian(later, 6);
  }

  /* ---- Later identifiers sort later ---- */

  ghost predicate LessAt(a: seq<char>, b: seq<char>, i: nat) {
    i < |a| && i < |b| && a[..i] == b[..i] && a[i] < b[i]
  }

  // The order of the hexadecimal digits is the order of their values.
  lemma {:induction false} SmallerReadsFirst(a: Hex, b: Hex) returns (i: nat)
    requires |a| == |b| && ReadHex(a) < ReadHex(b)
    ensures LessAt(a, b, i)
  {
    var k := |a| - 1;
    if ReadHex(a[..k]) < ReadHex(b[..k]) {
      i := SmallerReadsFirst(a[..k], b[..k]);
      assert a[..k][..i] == a[..i] && b[..k][..i] == b[..i];
    } else {
      SameReading(a[..k], b[..k]);
      i := k;
    }
  }

  lemma {:induction false} SameReading(a: Hex, b: Hex)
    requires |a| == |b| && ReadHex(a) == ReadHex(b)
    ensures a == b
  {
    if a != [] {
      var k := |a| - 1;
      SameReading(a[..k], b[..k]);
      assert a == a[..k] + [a[k]] && b == b[..k] + [b[k]];
    }
  }

  lemma {:induction false} LaterSortsLater(early: nat, late: nat, r: seq<Byte>, q: seq<Byte>) returns (i: nat)
    requires |r| == 16 && |q| == 16 && early < late < TIME_LIMIT
    ensures LessAt(Uuid(early, r), Uuid(late, q), i)
  {
    var s, t := Uuid(early, r), Uuid(late, q);
    UuidLayout(early, r);
    UuidLayout(late, q);
    var j := SmallerReadsFirst(TimeDigits(s), TimeDigits(t));
    i := if j < 8 then j else j + 1;
    FirstDifference(s, t, j, i);
  }

  lemma FirstDifference(s: string, t: string, j: nat, i: nat)
    requires |s| == 36 && |t| == 36 && s[8] == t[8]
    requires LessAt(TimeDigits(s), TimeDigits(t), j) && i == if j < 8 then j else j + 1
    ensures LessAt(s, t, i)
  {
    var a, b := TimeDigits(s), TimeDigits(t);
    forall k | 0 <= k < i
      ensures s[k] == t[k]
    {
      if k != 8 {
        var m := if k < 8 then k else k - 1;
        assert a[..j][m] == a[m] && b[..j][m] == b[m];
      }
    }
  }
}
