/**
 * The Recursive Length Prefix encoder of app/Payout/Eth/EthRlp.php (Appendix B of the
 * Ethereum Yellow Paper), with the canonical decoder as its specification.
 */
module Rlp {
  import opened Common
  import opened BigEndian

  /** Payload lengths are PHP integers. */
  const LENGTH_LIMIT: nat := 0x8000_0000_0000_0000

  /** A byte string or a list of items. */
  datatype Item = Str(bytes: Bytes) | Lst(items: seq<Item>)

  datatype UintError = NotDigits(decimal: string)

  // ----- Encoding -----

  /** The first byte of byte-string headers, and of list headers. */
  datatype Kind = StrKind | LstKind
  {
    function Base(): Byte {
      if StrKind? then 0x80 else 0xC0
    }
  }

  /** The prefix of a payload: short form up to 55 bytes, then length of length and length. */
  function Header(kind: Kind, len: nat): Bytes {
    if len <= 55 then [kind.Base() + len] else LongForm(kind, ToBytes(len))
  }

  function LongForm(kind: Kind, lenBytes: Bytes): Bytes {
    [(kind.Base() + 55 + |lenBytes|) % 256] + lenBytes
  }

  function EncodeBytes(bytes: Bytes): Bytes {
    if |bytes| == 1 && bytes[0] < 0x80 then bytes
    else Header(StrKind, |bytes|) + bytes
  }

  function Join(parts: seq<Bytes>): Bytes {
    if parts == [] then [] else parts[0] + Join(parts[1..])
  }

  /** Encodes a list from the encodings of its items. */
  function EncodeList(encodedItems: seq<Bytes>): Bytes {
    Header(LstKind, |Join(encodedItems)|) + Join(encodedItems)
  }

  function EncodeUint(decimal: string): Result<Bytes, UintError> {
    if !CtypeDigit(decimal) then Err(NotDigits(decimal))
    else if Decimal(decimal) == 0 then Ok(EncodeBytes([]))
    else Ok(EncodeBytes(HexRoute(Decimal(decimal))))
  }

  /** The encoding of a nested item, built with the functions above. */
  function Encode(item: Item): Bytes
    decreases item, 1
  {
    match item
    case Str(bytes) => EncodeBytes(bytes)
    case Lst(items) => EncodeList(EncodeAll(items))
  }

  function EncodeAll(items: seq<Item>): seq<Bytes>
    decreases items, 0
  {
    if items == [] then [] else [Encode(items[0])] + EncodeAll(items[1..])
  }

  lemma LastByteFirst(m: nat, bytes: Bytes)
    requires m > 0
    ensures ToBytes(m) + bytes == ToBytes(m / 256) + ([m % 256] + bytes)
  {
    Assoc(ToBytes(m / 256), [m % 256], bytes);
  }

  /** EthRlp::intToBytes. */
  method IntToBytes(n: int) returns (bytes: Bytes)
    ensures bytes == if n <= 0 then [] else ToBytes(n)
  {
    if n <= 0 {
      return [];
    }
    bytes := [];
    var m := n;
    while m > 0
      invariant m >= 0
      invariant ToBytes(m) + bytes == ToBytes(n)
    {
      LastByteFirst(m, bytes);
      bytes := [m % 256] + bytes;
      m := m / 256;
    }
  }

  // ----- Decoding, as the specification -----

  /** The length a header of the given kind announces, and what follows the header. */
  function ReadHeader(kind: Kind, s: Bytes): (r: Option<(nat, Bytes)>)
    ensures r.Some? ==> |r.value.1| < |s|
  {
    if s == [] || !(kind.Base() <= s[0] < kind.Base() + 64) then None
    else if s[0] <= kind.Base() + 55 then Some((s[0] - kind.Base(), s[1..]))
    else
      var k := s[0] - kind.Base() - 55;
      if |s| < 1 + k || !Minimal(s[1..1 + k]) then None
      else
        var len := Value(s[1..1 + k]);
        if len <= 55 || len >= LENGTH_LIMIT then None else Some((len, s[1 + k..]))
  }

  /** One item from the front of a byte string, if it starts with a canonical encoding. */
  function Decode(s: Bytes): (r: Option<(Item, Bytes)>)
    ensures r.Some? ==> |r.value.1| < |s|
    decreases |s|, 0
  {
    if s != [] && s[0] < 0x80 then Some((Str(s[..1]), s[1..]))
    else if s != [] && s[0] < 0xC0 then
      match ReadHeader(StrKind, s)
      case None => None
      case Some((len, tail)) =>
        if |tail| < len || (len == 1 && tail[0] < 0x80) then None
        else Some((Str(tail[..len]), tail[len..]))
    else
      match ReadHeader(LstKind, s)
      case None => None
      case Some((len, tail)) =>
        if |tail| < len then None
        else
          match DecodeAll(tail[..len])
          case None => None
          case Some(items) => Some((Lst(items), tail[len..]))
  }

  /** Items until the byte string is exhausted. */
  function DecodeAll(s: Bytes): Option<seq<Item>>
    decreases |s|, 1
  {
    if s == [] then Some([])
    else
      match Decode(s)
      case None => None
      case Some((item, rest)) =>
        match DecodeAll(rest)
        case None => None
        case Some(items) => Some([item] + items)
  }

  // ----- Headers -----

  lemma LengthFits(len: nat)
    requires len < LENGTH_LIMIT
    ensures |ToBytes(len)| <= 8
  {
    assert Pow256(8) == 0x1_0000_0000_0000_0000 by {
      assert Pow256(2) == 0x1_0000;
      assert Pow256(4) == 0x1_0000_0000;
      assert Pow256(6) == 0x1_0000_0000_0000;
    }
    LengthBound(len, 8);
  }

  /** The length of the length fits the one byte that announces it. */
  lemma LongFormFirst(kind: Kind, lenBytes: Bytes)
    requires |lenBytes| <= 8
    ensures LongForm(kind, lenBytes) == [kind.Base() + 55 + |lenBytes|] + lenBytes
  {
  }

  lemma LongHeaderReads(kind: Kind, first: Byte, lenBytes: Bytes, tail: Bytes)
    requires 55 < Value(lenBytes) < LENGTH_LIMIT && 1 <= |lenBytes| <= 8 && Minimal(lenBytes)
    requires first == kind.Base() + 55 + |lenBytes|
    ensures ReadHeader(kind, [first] + lenBytes + tail) == Some((Value(lenBytes), tail))
  {
    var s := [first] + lenBytes + tail;
    assert s[1..1 + |lenBytes|] == lenBytes;
    assert s[1 + |lenBytes|..] == tail;
  }

  lemma HeaderReads(kind: Kind, len: nat, tail: Bytes)
    requires len < LENGTH_LIMIT
    ensures ReadHeader(kind, Header(kind, len) + tail) == Some((len, tail))
  {
    if len <= 55 {
      assert ([kind.Base() + len] + tail)[1..] == tail;
    } else {
      LengthFits(len);
      LongFormFirst(kind, ToBytes(len));
      LongHeaderReads(kind, kind.Base() + 55 + |ToBytes(len)|, ToBytes(len), tail);
    }
  }

  lemma LongHeaderIsCanonical(kind: Kind, lenBytes: Bytes)
    requires Minimal(lenBytes) && Value(lenBytes) > 55 && |lenBytes| <= 8
    ensures Header(kind, Value(lenBytes)) == [kind.Base() + 55 + |lenBytes|] + lenBytes
  {
    MinimalIsUnique(lenBytes);
    LongFormFirst(kind, lenBytes);
  }

  /** Only the canonical header is accepted, so a header is determined by what it announces. */
  lemma HeaderIsCanonical(kind: Kind, s: Bytes)
    requires ReadHeader(kind, s).Some?
    ensures var (len, tail) := ReadHeader(kind, s).value;
      len < LENGTH_LIMIT && s == Header(kind, len) + tail
  {
    if s[0] > kind.Base() + 55 {
      var k := s[0] - kind.Base() - 55;
      LongHeaderIsCanonical(kind, s[1..1 + k]);
      assert s == [s[0]] + s[1..1 + k] + s[1 + k..];
    } else {
      assert s == [s[0]] + s[1..];
    }
  }

  // ----- Round trip -----

  /** All payloads of the item are of representable length. */
  predicate Fits(item: Item)
    decreases item, 1
  {
    match item
    case Str(bytes) => |bytes| < LENGTH_LIMIT
    case Lst(items) => FitsAll(items) && |Join(EncodeAll(items))| < LENGTH_LIMIT
  }

  predicate FitsAll(items: seq<Item>)
    decreases items, 0
  {
    items == [] || (Fits(items[0]) && FitsAll(items[1..]))
  }

  /** The first byte tells strings from lists. */
  lemma FirstByte(kind: Kind, len: nat, payload: Bytes)
    requires len < LENGTH_LIMIT
    ensures var s := Header(kind, len) + payload;
      s != [] && kind.Base() <= s[0] < kind.Base() + 64
  {
    if len > 55 {
      LengthFits(len);
      LongFormFirst(kind, ToBytes(len));
    }
  }

  lemma StrRoundTrip(bytes: Bytes, rest: Bytes)
    requires |bytes| < LENGTH_LIMIT
    ensures Decode(EncodeBytes(bytes) + rest) == Some((Str(bytes), rest))
  {
    var s := EncodeBytes(bytes) + rest;
    if |bytes| == 1 && bytes[0] < 0x80 {
      assert s[..1] == bytes && s[1..] == rest;
    } else {
      Assoc(Header(StrKind, |bytes|), bytes, rest);
      FirstByte(StrKind, |bytes|, bytes + rest);
      HeaderReads(StrKind, |bytes|, bytes + rest);
      assert (bytes + rest)[..|bytes|] == bytes && (bytes + rest)[|bytes|..] == rest;
    }
  }

  /**
   * Decoding an encoded item followed by anything returns the item and what followed, for
   * arbitrarily nested items and every payload length.
   */
  lemma {:induction false} RoundTrip(item: Item, rest: Bytes)
    requires Fits(item)
    ensures Decode(Encode(item) + rest) == Some((item, rest))
    decreases item, 1
  {
    match item
    case Str(bytes) => StrRoundTrip(bytes, rest);
    case Lst(items) =>
      var payload := Join(EncodeAll(items));
      var s := Encode(item) + rest;
      assert s == Header(LstKind, |payload|) + (payload + rest);
      FirstByte(LstKind, |payload|, payload + rest);
      HeaderReads(LstKind, |payload|, payload + rest);
      assert (payload + rest)[..|payload|] == payload && (payload + rest)[|payload|..] == rest;
      RoundTripAll(items);
  }

  lemma JoinAll(items: seq<Item>)
    requires items != []
    ensures Join(EncodeAll(items)) == Encode(items[0]) + Join(EncodeAll(items[1..]))
  {
    var first, rest := Encode(items[0]), EncodeAll(items[1..]);
    assert ([first] + rest)[1..] == rest;
  }

  lemma {:induction false} RoundTripAll(items: seq<Item>)
    requires FitsAll(items)
    ensures DecodeAll(Join(EncodeAll(items))) == Some(items)
    decreases items, 0
  {
    if items != [] {
      JoinAll(items);
      RoundTrip(items[0], Join(EncodeAll(items[1..])));
      RoundTripAll(items[1..]);
      assert [items[0]] + items[1..] == items;
    }
  }

  lemma StrIsCanonical(s: Bytes, len: nat, tail: Bytes)
    requires |tail| >= len && !(len == 1 && tail[0] < 0x80) && s == Header(StrKind, len) + tail
    ensures s == EncodeBytes(tail[..len]) + tail[len..]
  {
    Assoc(Header(StrKind, len), tail[..len], tail[len..]);
    assert tail == tail[..len] + tail[len..];
  }

  lemma ListIsCanonical(s: Bytes, len: nat, tail: Bytes, items: seq<Item>)
    requires |tail| >= len && tail[..len] == Join(EncodeAll(items)) && s == Header(LstKind, len) + tail
    ensures s == Encode(Lst(items)) + tail[len..]
  {
    Assoc(Header(LstKind, len), tail[..len], tail[len..]);
    assert tail == tail[..len] + tail[len..];
  }

  /** The encoding is canonical: whatever decodes is exactly the encoding of the result. */
  lemma {:induction false} DecodeIsCanonical(s: Bytes)
    requires Decode(s).Some?
    ensures var (item, rest) := Decode(s).value; Fits(item) && s == Encode(item) + rest
    decreases |s|, 0
  {
    if s[0] < 0x80 {
      assert s == s[..1] + s[1..];
    } else if s[0] < 0xC0 {
      HeaderIsCanonical(StrKind, s);
      var (len, tail) := ReadHeader(StrKind, s).value;
      StrIsCanonical(s, len, tail);
    } else {
      HeaderIsCanonical(LstKind, s);
      var (len, tail) := ReadHeader(LstKind, s).value;
      DecodeAllIsCanonical(tail[..len]);
      ListIsCanonical(s, len, tail, DecodeAll(tail[..len]).value);
    }
  }

  lemma {:induction false} DecodeAllIsCanonical(s: Bytes)
    requires DecodeAll(s).Some?
    ensures var items := DecodeAll(s).value; FitsAll(items) && s == Join(EncodeAll(items))
    decreases |s|, 1
  {
    if s != [] {
      DecodeIsCanonical(s);
      var (item, rest) := Decode(s).value;
      DecodeAllIsCanonical(rest);
      var items := DecodeAll(s).value;
      assert items[0] == item && items[1..] == DecodeAll(rest).value;
      assert EncodeAll(items) == [Encode(item)] + EncodeAll(items[1..]);
      assert EncodeAll(items)[1..] == EncodeAll(items[1..]);
    }
  }

  /** The four forms byte by byte, for strings and for lists. */
  lemma EncodingForms(item: Item)
    requires Fits(item)
    ensures
      var s := Encode(item);
      var payload := if item.Str? then item.bytes else Join(EncodeAll(item.items));
      var len := |payload|;
      var k := |ToBytes(len)|;
      if item.Str? && len == 1 && payload[0] <= 127 then s == payload
      else if len <= 55 then s == [(if item.Str? then 128 else 192) + len] + payload
      else 1 <= k <= 8 && s == [(if item.Str? then 183 else 247) + k] + ToBytes(len) + payload
  {
    var payload := if item.Str? then item.bytes else Join(EncodeAll(item.items));
    LengthFits(|payload|);
    if |payload| > 55 {
      LongFormFirst(StrKind, ToBytes(|payload|));
      LongFormFirst(LstKind, ToBytes(|payload|));
    }
  }

  /** No encoding is a prefix of another: concatenated encodings split in one way only. */
  lemma EncodingIsPrefixFree(a: Item, b: Item, s: Bytes, t: Bytes)
    requires Fits(a) && Fits(b) && Encode(a) + s == Encode(b) + t
    ensures a == b && s == t
  {
    RoundTrip(a, s);
    RoundTrip(b, t);
  }

  // ----- Integers -----

  /**
   * An encoded integer decodes to the shortest big-endian bytes of its value, so two decimal
   * strings share an encoding exactly when they denote the same number.
   */
  lemma UintRoundTrip(decimal: string, rest: Bytes)
    requires CtypeDigit(decimal) && |decimal| < LENGTH_LIMIT
    ensures EncodeUint(decimal).Ok?
    ensures Decode(EncodeUint(decimal).value + rest) == Some((Str(ToBytes(Decimal(decimal))), rest))
  {
    HexRouteIsMinimal(Decimal(decimal));
    DecimalFits(decimal);
    LengthBound(Decimal(decimal), |decimal|);
    StrRoundTrip(ToBytes(Decimal(decimal)), rest);
  }

  /**
   * Every number's ordinary numeral encodes to the item of its shortest big-endian bytes,
   * with or without leading zeros, and the encoding gives the number back.
   */
  lemma NumeralsEncode(n: nat, zeros: nat, rest: Bytes)
    requires zeros + |Numeral(n)| < LENGTH_LIMIT
    ensures
      var encoded := EncodeUint(Zeros(zeros) + Numeral(n));
      && encoded.Ok? && Decode(encoded.value + rest) == Some((Str(ToBytes(n)), rest))
      && Value(ToBytes(n)) == n
  {
    NumeralDenotes(n);
    ZerosCountNothing(zeros, Numeral(n));
    UintRoundTrip(Zeros(zeros) + Numeral(n), rest);
  }

  function Zeros(count: nat): string {
    seq(count, _ => '0')
  }

  lemma {:induction false} ZerosCountNothing(count: nat, s: string)
    requires AllDigits(s)
    ensures AllDigits(Zeros(count) + s) && Decimal(Zeros(count) + s) == Decimal(s)
    decreases count
  {
    if count == 0 {
      assert Zeros(0) + s == s;
    } else {
      ZerosCountNothing(count - 1, s);
      LeadingZero(Zeros(count - 1) + s);
      assert Zeros(count) + s == "0" + (Zeros(count - 1) + s);
    }
  }

  /** Refused is exactly what is empty or has a character other than the ten digits. */
  lemma UintRefusesIff(s: string)
    ensures EncodeUint(s).Err? <==> s == "" || exists i :: 0 <= i < |s| && s[i] !in "0123456789"
    ensures EncodeUint(s).Err? ==> EncodeUint(s).error == NotDigits(s)
  {
    forall i | 0 <= i < |s| ensures IsDigit(s[i]) <==> s[i] in "0123456789" {
      DigitIsListed(s[i]);
    }
  }

  lemma DigitIsListed(c: char)
    ensures IsDigit(c) <==> c in "0123456789"
  {
    if IsDigit(c) { assert "0123456789"[c as int - '0' as int] == c; }
  }

  lemma UintIsInjective(a: string, b: string)
    requires CtypeDigit(a) && |a| < LENGTH_LIMIT && CtypeDigit(b) && |b| < LENGTH_LIMIT
    ensures EncodeUint(a) == EncodeUint(b) <==> Decimal(a) == Decimal(b)
  {
    UintRoundTrip(a, []);
    UintRoundTrip(b, []);
    assert Value(ToBytes(Decimal(a))) == Decimal(a);
    assert Value(ToBytes(Decimal(b))) == Decimal(b);
  }
}
