/** Positional numbers: big-endian bytes without leading zeros, decimal strings, hex digits. */
module BigEndian {
  import opened Common

  /** The number a big-endian byte string denotes. */
  function Value(bytes: Bytes): nat {
    if bytes == [] then 0 else Value(bytes[..|bytes| - 1]) * 256 + bytes[|bytes| - 1]
  }

  /** No leading zero byte; zero is the empty string. */
  predicate Minimal(bytes: Bytes) {
    bytes == [] || bytes[0] != 0
  }

  /** The shortest big-endian representation. */
  function ToBytes(n: nat): (bytes: Bytes)
    ensures Value(bytes) == n && Minimal(bytes)
  {
    if n == 0 then []
    else
      var front := ToBytes(n / 256);
      assert (front + [n % 256])[..|front|] == front;
      front + [n % 256]
  }

  lemma {:induction false} ValuePositive(bytes: Bytes)
    requires Minimal(bytes) && bytes != []
    ensures Value(bytes) >= 1
    decreases |bytes|
  {
    if |bytes| == 1 {
      assert bytes[..0] == [];
      assert Value(bytes) == bytes[0];
    } else {
      assert Minimal(bytes[..|bytes| - 1]);
      ValuePositive(bytes[..|bytes| - 1]);
    }
  }

  lemma SplitByte(n: nat, b: nat)
    requires b < 256
    ensures (n * 256 + b) / 256 == n && (n * 256 + b) % 256 == b
  {
  }

  /** Minimal representations are unique. */
  lemma {:induction false} MinimalIsUnique(bytes: Bytes)
    requires Minimal(bytes)
    ensures ToBytes(Value(bytes)) == bytes
    decreases |bytes|
  {
    if bytes != [] {
      var front, last := bytes[..|bytes| - 1], bytes[|bytes| - 1];
      assert Minimal(front);
      MinimalIsUnique(front);
      ValuePositive(bytes);
      SplitByte(Value(front), last);
      assert ToBytes(Value(bytes)) == ToBytes(Value(front)) + [last];
    }
  }

  lemma QuotientBelow(n: nat, p: nat)
    requires n < 256 * p
    ensures n / 256 < p
  {
  }

  /** `k` bytes suffice exactly for numbers below 256^k. */
  lemma {:induction false} LengthBound(n: nat, k: nat)
    requires n < Pow256(k)
    ensures |ToBytes(n)| <= k
    decreases k
  {
    if n > 0 {
      assert k > 0 && Pow256(k) == 256 * Pow256(k - 1);
      QuotientBelow(n, Pow256(k - 1));
      LengthBound(n / 256, k - 1);
      assert ToBytes(n) == ToBytes(n / 256) + [n % 256];
    }
  }

  // ----- Decimal strings, by way of hexadecimal digits -----

  predicate IsDigit(c: char) { '0' <= c <= '9' }

  predicate AllDigits(s: string) {
    forall i :: 0 <= i < |s| ==> IsDigit(s[i])
  }

  /** PHP's ctype_digit: a non-empty string of decimal digits. */
  predicate CtypeDigit(s: string) {
    s != "" && AllDigits(s)
  }

  /** The number a decimal string denotes. */
  function Decimal(s: string): nat
    requires AllDigits(s)
  {
    if s == "" then 0
    else Decimal(s[..|s| - 1]) * 10 + (s[|s| - 1] as int - '0' as int)
  }

  // ----- Numerals: division by ten, apart from `Decimal` -----

  /** The ordinary numeral of a number, by repeated division by ten; zero prints as nothing. */
  function Digits(n: nat): string {
    if n == 0 then "" else Digits(n / 10) + ["0123456789"[n % 10]]
  }

  function Numeral(n: nat): string {
    if n == 0 then "0" else Digits(n)
  }

  predicate NoLeadingZero(s: string) {
    s == "" || s[0] != '0'
  }

  lemma {:induction false} DigitsPrint(n: nat)
    ensures AllDigits(Digits(n)) && NoLeadingZero(Digits(n)) && (n > 0 ==> Digits(n) != "")
    ensures Decimal(Digits(n)) == n
  {
    if n > 0 {
      DigitsPrint(n / 10);
      DigitValue(n % 10);
      var front, last := Digits(n / 10), "0123456789"[n % 10];
      assert Digits(n)[..|front|] == front && Digits(n)[|front|] == last;
    }
  }

  lemma DigitValue(d: nat)
    requires d < 10
    ensures IsDigit("0123456789"[d]) && "0123456789"[d] as int - '0' as int == d
    ensures d > 0 ==> "0123456789"[d] != '0'
  {
  }

  lemma SplitDigit(n: nat, d: nat)
    requires d < 10
    ensures (n * 10 + d) / 10 == n && (n * 10 + d) % 10 == d
  {
  }

  lemma DigitsPush(n: nat, d: nat)
    requires d < 10 && n * 10 + d > 0
    ensures Digits(n * 10 + d) == Digits(n) + ["0123456789"[d]]
  {
    SplitDigit(n, d);
  }

  lemma ListedDigit(c: char)
    requires IsDigit(c)
    ensures var d := c as int - '0' as int; 0 <= d < 10 && "0123456789"[d] == c
  {
    DigitValue(c as int - '0' as int);
  }

  lemma DecimalPush(front: string, c: char)
    requires AllDigits(front) && IsDigit(c)
    ensures AllDigits(front + [c]) && Decimal(front + [c]) == Decimal(front) * 10 + (c as int - '0' as int)
  {
    assert (front + [c])[..|front|] == front;
  }

  /** The string is the numeral of its value. */
  predicate Prints(s: string)
    requires AllDigits(s)
  {
    Digits(Decimal(s)) == s
  }

  lemma PrintsOn(front: string, c: char)
    requires AllDigits(front) && Prints(front) && IsDigit(c) && (Decimal(front) == 0 ==> c != '0')
    ensures AllDigits(front + [c]) && Decimal(front + [c]) > 0 && Prints(front + [c])
  {
    DecimalPush(front, c);
    ListedDigit(c);
    DigitsPush(Decimal(front), c as int - '0' as int);
  }

  lemma LastDigit(s: string)
    requires AllDigits(s) && s != ""
    ensures AllDigits(s[..|s| - 1]) && IsDigit(s[|s| - 1]) && s == s[..|s| - 1] + [s[|s| - 1]]
    ensures NoLeadingZero(s) ==> if |s| == 1 then s[|s| - 1] != '0' else NoLeadingZero(s[..|s| - 1])
  {
  }

  /** A digit string without leading zeros is the numeral of its value. */
  lemma {:induction false} DigitsOfDecimal(s: string)
    requires AllDigits(s) && NoLeadingZero(s)
    ensures Prints(s) && (s != "" ==> Decimal(s) > 0)
    decreases |s|
  {
    if s != "" {
      LastDigit(s);
      if |s| > 1 { DigitsOfDecimal(s[..|s| - 1]); }
      PrintsOn(s[..|s| - 1], s[|s| - 1]);
    }
  }

  /** Leading zeros count for nothing. */
  lemma {:induction false} LeadingZero(s: string)
    requires AllDigits(s)
    ensures AllDigits("0" + s) && Decimal("0" + s) == Decimal(s)
    decreases |s|
  {
    var t := "0" + s;
    if s == "" {
      assert t[..0] == "";
    } else {
      LeadingZero(s[..|s| - 1]);
      assert t[..|t| - 1] == "0" + s[..|s| - 1];
    }
  }

  lemma NumeralDenotes(n: nat)
    ensures CtypeDigit(Numeral(n)) && Decimal(Numeral(n)) == n
  {
    DigitsPrint(n);
    LeadingZero("");
    assert "0" + "" == "0";
  }

  /** The numeral of a number is the one string without needless zeros that denotes it. */
  lemma DecimalOfNumeral(n: nat, s: string)
    requires CtypeDigit(s) && (s == "0" || NoLeadingZero(s))
    ensures Decimal(s) == n <==> s == Numeral(n)
  {
    NumeralDenotes(n);
    NumeralDenotes(0);
    if s != "0" { DigitsOfDecimal(s); }
  }

  type Nibble = d: int | 0 <= d < 16

  /** Hexadecimal digits without leading zeros, as gmp prints a positive number. */
  function HexDigits(n: nat): seq<Nibble> {
    if n == 0 then [] else HexDigits(n / 16) + [n % 16]
  }

  function Pair(hi: Nibble, lo: Nibble): Byte {
    var h: int, l: int := hi, lo;
    16 * h + l
  }

  /** hex2bin on an even number of digits. */
  function Pack(digits: seq<Nibble>): Bytes
    requires |digits| % 2 == 0
  {
    if digits == [] then []
    else
      var k := |digits| - 2;
      Pack(digits[..k]) + [Pair(digits[k], digits[k + 1])]
  }

  /** The bytes the encoder obtains: hex digits, padded to even length, packed in pairs. */
  function HexRoute(n: nat): Bytes {
    Pack(Padded(HexDigits(n)))
  }

  function Padded(digits: seq<Nibble>): (padded: seq<Nibble>)
    ensures |padded| % 2 == 0
  {
    if |digits| % 2 == 0 then digits else [0] + digits
  }

  lemma PackAppend(front: seq<Nibble>, hi: Nibble, lo: Nibble)
    requires |front| % 2 == 0
    ensures Pack(front + [hi, lo]) == Pack(front) + [Pair(hi, lo)]
  {
    assert (front + [hi, lo])[..|front|] == front;
  }

  lemma TwoNibbles(n: nat)
    requires n >= 16
    ensures HexDigits(n) == HexDigits(n / 256) + [n / 16 % 16, n % 16]
    ensures Pair(n / 16 % 16, n % 16) == n % 256
  {
    assert n / 16 / 16 == n / 256;
    assert HexDigits(n) == HexDigits(n / 16) + [n % 16];
    assert HexDigits(n / 16) == HexDigits(n / 256) + [n / 16 % 16];
  }

  /** Going through hexadecimal yields the shortest big-endian bytes. */
  lemma {:induction false} HexRouteIsMinimal(n: nat)
    ensures HexRoute(n) == ToBytes(n)
  {
    if n == 0 {
    } else if n < 16 {
      OneNibble(n);
    } else {
      TwoNibbles(n);
      HexRouteIsMinimal(n / 256);
      PaddedAppend(HexDigits(n / 256), n / 16 % 16, n % 16);
    }
  }

  lemma OneNibble(n: nat)
    requires 0 < n < 16
    ensures HexRoute(n) == ToBytes(n)
  {
    assert HexDigits(n) == [n];
    PackAppend([], 0, n);
    assert [0] + HexDigits(n) == [] + [0, n];
    assert ToBytes(n) == [n];
  }

  lemma PaddedAppend(front: seq<Nibble>, hi: Nibble, lo: Nibble)
    ensures Pack(Padded(front + [hi, lo])) == Pack(Padded(front)) + [Pair(hi, lo)]
  {
    assert Padded(front + [hi, lo]) == Padded(front) + [hi, lo];
    PackAppend(Padded(front), hi, lo);
  }

  /** A decimal string never needs more bytes than it has digits. */
  lemma {:induction false} DecimalFits(s: string)
    requires AllDigits(s)
    ensures Decimal(s) < Pow256(|s|)
  {
    if s != "" {
      DecimalFits(s[..|s| - 1]);
    }
  }
}
