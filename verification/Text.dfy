// Bytes, text and the three textual encodings the node relies on: str.encode(),
// bytes.hex() and str(int).
module Text {

  datatype Option<+T> = None | Some(value: T)

  newtype byte = x: int | 0 <= x < 256

  type Bytes = seq<byte>

  /** The UTF-8 encoding of one character. */
  function Utf8Char(c: char): Bytes {
    var n := c as int;
    if n < 0x80 then
      [n as byte]
    else if n < 0x800 then
      [(0xC0 + n / 0x40) as byte, (0x80 + n % 0x40) as byte]
    else if n < 0x1_0000 then
      [(0xE0 + n / 0x1000) as byte, (0x80 + n / 0x40 % 0x40) as byte, (0x80 + n % 0x40) as byte]
    else
      [(0xF0 + n / 0x4_0000) as byte, (0x80 + n / 0x1000 % 0x40) as byte,
       (0x80 + n / 0x40 % 0x40) as byte, (0x80 + n % 0x40) as byte]
  }

  /** str.encode() */
  function Utf8(s: string): Bytes {
    if s == [] then [] else Utf8Char(s[0]) + Utf8(s[1..])
  }

  ghost predicate Ascii(s: string) {
    forall i :: 0 <= i < |s| ==> s[i] < 128 as char
  }

  // ASCII text is encoded character by character.
  lemma {:induction false} Utf8Ascii(s: string)
    requires Ascii(s)
    ensures |Utf8(s)| == |s|
    ensures forall i :: 0 <= i < |s| ==> Utf8(s)[i] as int == s[i] as int
  {
    if s != [] {
      Utf8Ascii(s[1..]);
    }
  }

  lemma Assoc(a: Bytes, b: Bytes, c: Bytes)
    ensures (a + b) + c == a + (b + c)
  {
  }

  lemma {:induction false} Utf8Concat(s: string, t: string)
    ensures Utf8(s + t) == Utf8(s) + Utf8(t)
  {
    if s == [] {
      assert s + t == t;
    } else {
      Utf8Concat(s[1..], t);
      assert (s + t)[1..] == s[1..] + t && (s + t)[0] == s[0];
      Assoc(Utf8Char(s[0]), Utf8(s[1..]), Utf8(t));
    }
  }

  lemma Utf8AsciiInjective(s: string, t: string)
    requires Ascii(s) && Ascii(t) && Utf8(s) == Utf8(t)
    ensures s == t
  {
    Utf8Ascii(s);
    Utf8Ascii(t);
    assert forall i :: 0 <= i < |s| ==> s[i] as int == Utf8(s)[i] as int == t[i] as int;
  }

  // --- bytes.hex() ---

  function HexDigit(n: int): char
    requires 0 <= n < 16
  {
    if n < 10 then '0' + n as char else 'a' + (n - 10) as char
  }

  function Hex(b: Bytes): string {
    if b == [] then ""
    else [HexDigit(b[0] as int / 16), HexDigit(b[0] as int % 16)] + Hex(b[1..])
  }

  predicate IsHexDigit(c: char) {
    '0' <= c <= '9' || 'a' <= c <= 'f'
  }

  ghost predicate IsHex(s: string) {
    forall i :: 0 <= i < |s| ==> IsHexDigit(s[i])
  }

  lemma {:induction false} HexShape(b: Bytes)
    ensures |Hex(b)| == 2 * |b| && IsHex(Hex(b))
  {
    if b != [] {
      HexShape(b[1..]);
    }
  }

  // Two digits for each byte, in order, the high half first.
  lemma {:induction false} HexAt(b: Bytes, i: nat)
    requires i < |b|
    ensures |Hex(b)| == 2 * |b|
    ensures var digits := "0123456789abcdef";
            && Hex(b)[2 * i] == digits[b[i] as int / 16]
            && Hex(b)[2 * i + 1] == digits[b[i] as int % 16]
  {
    HexShape(b);
    if i > 0 {
      HexAt(b[1..], i - 1);
    }
  }

  // The key behind an id is determined by the id.
  lemma {:induction false} HexInjective(a: Bytes, b: Bytes)
    requires Hex(a) == Hex(b)
    ensures a == b
  {
    HexShape(a);
    HexShape(b);
    if a != [] {
      var s, t := Hex(a), Hex(b);
      assert s[2..] == Hex(a[1..]) && t[2..] == Hex(b[1..]);
      HexInjective(a[1..], b[1..]);
      assert s[0] == HexDigit(a[0] as int / 16) && s[1] == HexDigit(a[0] as int % 16);
      assert t[0] == HexDigit(b[0] as int / 16) && t[1] == HexDigit(b[0] as int % 16);
      assert a[0] == b[0];
      assert a == [a[0]] + a[1..] && b == [b[0]] + b[1..];
    }
  }

  // --- str(int) ---

  function Digits(n: nat): string {
    if n < 10 then ['0' + n as char] else Digits(n / 10) + ['0' + (n % 10) as char]
  }

  function Decimal(n: int): string {
    if n < 0 then "-" + Digits(-n) else Digits(n)
  }

  function Pow10(k: nat): nat {
    if k == 0 then 1 else 10 * Pow10(k - 1)
  }

  lemma {:induction false} DigitsShape(n: nat, k: nat)
    requires Pow10(k) <= n < Pow10(k + 1)
    ensures |Digits(n)| == k + 1 && Ascii(Digits(n))
  {
    if k > 0 {
      assert Pow10(k) == 10 * Pow10(k - 1);
      assert Pow10(k + 1) == 10 * Pow10(k);
      DigitsShape(n / 10, k - 1);
    }
  }

  lemma {:induction false} DigitsInjective(m: nat, n: nat)
    requires Digits(m) == Digits(n)
    ensures m == n
  {
    var s, t := Digits(m), Digits(n);
    DigitsNonempty(m);
    DigitsNonempty(n);
    if m < 10 && n < 10 {
      assert s[0] == t[0];
    } else if m >= 10 && n >= 10 {
      assert s[..|s| - 1] == Digits(m / 10) && t[..|t| - 1] == Digits(n / 10);
      assert s[|s| - 1] == t[|t| - 1];
      DigitsInjective(m / 10, n / 10);
    } else {
      DigitsNonempty(m / 10);
      DigitsNonempty(n / 10);
    }
  }

  function Value(s: string): int {
    if s == [] then 0 else 10 * Value(s[..|s| - 1]) + (s[|s| - 1] as int - '0' as int)
  }

  // The digits are those of the number, with no zero in front.
  lemma {:induction false} DigitsValue(n: nat)
    ensures Value(Digits(n)) == n
    ensures forall i :: 0 <= i < |Digits(n)| ==> '0' <= Digits(n)[i] <= '9'
    ensures n > 0 ==> |Digits(n)| > 0 && Digits(n)[0] != '0'
  {
    if n >= 10 {
      DigitsValue(n / 10);
      var s := Digits(n);
      assert s[..|s| - 1] == Digits(n / 10);
    } else {
      assert Digits(n)[..0] == [];
    }
  }

  lemma DecimalValue(n: int)
    ensures var s := Decimal(n);
            if n >= 0 then Value(s) == n else s != [] && s[0] == '-' && Value(s[1..]) == -n
  {
    DigitsValue(if n >= 0 then n else -n);
  }

  lemma DigitsNonempty(n: nat)
    ensures |Digits(n)| >= 1
  {
  }
}
