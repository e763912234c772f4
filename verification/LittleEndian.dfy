/** Fixed-width little-endian integers, compact-size integers and hexadecimal strings. */
module LittleEndian {
  import opened Common
  import Arith

  /** PHP's pack('v' | 'V' | 'P', n): the low `k` bytes of an integer, lowest first. */
  function Pack(k: nat, n: int): (bytes: Bytes)
    ensures |bytes| == k
  {
    if k == 0 then [] else [n % 256] + Pack(k - 1, n / 256)
  }

  function Unpack(bytes: Bytes): nat {
    if bytes == [] then 0 else bytes[0] + 256 * Unpack(bytes[1..])
  }

  lemma {:induction false} UnpackPack(k: nat, n: int)
    requires 0 <= n < Pow256(k)
    ensures Unpack(Pack(k, n)) == n
  {
    if k > 0 {
      UnpackPack(k - 1, n / 256);
    }
  }

  lemma {:induction false} PackUnpack(bytes: Bytes)
    ensures Unpack(bytes) < Pow256(|bytes|)
    ensures Pack(|bytes|, Unpack(bytes)) == bytes
  {
    if bytes != [] {
      PackUnpack(bytes[1..]);
      assert Unpack(bytes) % 256 == bytes[0] && Unpack(bytes) / 256 == Unpack(bytes[1..]);
      assert bytes == [bytes[0]] + bytes[1..];
    }
  }

  /** Byte `i` of a packed integer is its digit of weight 256^i. */
  lemma {:induction false} PackedDigit(k: nat, n: nat, i: nat)
    requires i < k
    ensures Pow256(i) > 0 && Pack(k, n)[i] == n / Pow256(i) % 256
    decreases i
  {
    if i > 0 {
      PackedDigit(k - 1, n / 256, i - 1);
      Arith.DivDiv(n, 256, Pow256(i - 1));
    }
  }

  lemma Widths()
    ensures Pow256(2) == 0x1_0000 && Pow256(4) == 0x1_0000_0000 && Pow256(8) == 0x1_0000_0000_0000_0000
  {
    assert Pow256(2) == 0x1_0000;
    assert Pow256(3) == 0x100_0000;
    assert Pow256(4) == 0x1_0000_0000;
    assert Pow256(5) == 0x100_0000_0000;
    assert Pow256(6) == 0x1_0000_0000_0000;
    assert Pow256(7) == 0x100_0000_0000_0000;
  }

  /** The unsigned integer in the first `k` bytes. */
  function ReadInt(k: nat, s: Bytes): Option<(nat, Bytes)> {
    if |s| < k then None else Some((Unpack(s[..k]), s[k..]))
  }

  lemma IntReads(k: nat, n: int, rest: Bytes)
    requires 0 <= n < Pow256(k)
    ensures ReadInt(k, Pack(k, n) + rest) == Some((n, rest))
  {
    var s := Pack(k, n) + rest;
    assert s[..k] == Pack(k, n) && s[k..] == rest;
    UnpackPack(k, n);
  }

  lemma IntIsCanonical(k: nat, s: Bytes)
    requires ReadInt(k, s).Some?
    ensures var (n, rest) := ReadInt(k, s).value; n < Pow256(k) && s == Pack(k, n) + rest
  {
    PackUnpack(s[..k]);
    assert s == s[..k] + s[k..];
  }

  // ----- Compact-size integers -----

  /** BtcTxSigner::varInt. */
  function VarInt(n: nat): Bytes {
    if n < 0xFD then [n]
    else if n <= 0xFFFF then [0xFD] + Pack(2, n)
    else if n <= 0xFFFF_FFFF then [0xFE] + Pack(4, n)
    else [0xFF] + Pack(8, n)
  }

  /** The integer a compact-size form denotes, in whatever width it is written. */
  function ReadAnyVarInt(s: Bytes): Option<(nat, Bytes)> {
    if s == [] then None
    else if s[0] < 0xFD then Some((s[0], s[1..]))
    else ReadInt(if s[0] == 0xFD then 2 else if s[0] == 0xFE then 4 else 8, s[1..])
  }

  /** The same, refusing a wider form than necessary. */
  function ReadVarInt(s: Bytes): Option<(nat, Bytes)> {
    match ReadAnyVarInt(s)
    case None => None
    case Some((n, rest)) => if |VarInt(n)| == |s| - |rest| then Some((n, rest)) else None
  }

  lemma VarIntReads(n: nat, rest: Bytes)
    requires n < 0x1_0000_0000_0000_0000
    ensures ReadVarInt(VarInt(n) + rest) == Some((n, rest))
  {
    Widths();
    var s := VarInt(n) + rest;
    if n < 0xFD {
      assert s[1..] == rest;
    } else {
      var k := if n <= 0xFFFF then 2 else if n <= 0xFFFF_FFFF then 4 else 8;
      Assoc([s[0]], Pack(k, n), rest);
      assert s[1..] == Pack(k, n) + rest;
      IntReads(k, n, rest);
    }
  }

  lemma VarIntIsCanonical(s: Bytes)
    requires ReadVarInt(s).Some?
    ensures var (n, rest) := ReadVarInt(s).value; n < 0x1_0000_0000_0000_0000 && s == VarInt(n) + rest
  {
    Widths();
    if s[0] < 0xFD {
      assert s == [s[0]] + s[1..];
    } else {
      var k := if s[0] == 0xFD then 2 else if s[0] == 0xFE then 4 else 8;
      IntIsCanonical(k, s[1..]);
      var (n, rest) := ReadInt(k, s[1..]).value;
      assert s == [s[0]] + s[1..];
      Assoc([s[0]], Pack(k, n), rest);
    }
  }

  /** The four forms, byte by byte: a number below 253, or a marker and 2, 4 or 8 bytes. */
  lemma VarIntForms(n: nat)
    requires n < 0x1_0000_0000_0000_0000
    ensures
      var s := VarInt(n);
      && s != []
      && (n <= 252 ==> s == [n])
      && (253 <= n <= 65535 ==> |s| == 3 && s[0] == 253 && s[1] == n % 256 && s[2] == n / 256)
      && (65536 <= n <= 4294967295 ==> |s| == 5 && s[0] == 254 && Unpack(s[1..]) == n)
      && (n > 4294967295 ==> |s| == 9 && s[0] == 255 && Unpack(s[1..]) == n)
  {
    Widths();
    if 253 <= n <= 65535 {
      PackedDigit(2, n, 0);
      PackedDigit(2, n, 1);
    } else if n > 4294967295 {
      UnpackPack(8, n);
    } else if n > 65535 {
      UnpackPack(4, n);
    }
  }

  /** No compact-size form of a number is shorter than `VarInt`'s. */
  lemma VarIntIsShortest(s: Bytes)
    requires ReadAnyVarInt(s).Some?
    ensures var (n, rest) := ReadAnyVarInt(s).value; |VarInt(n)| <= |s| - |rest|
  {
    Widths();
    if s[0] >= 0xFD {
      IntIsCanonical(if s[0] == 0xFD then 2 else if s[0] == 0xFE then 4 else 8, s[1..]);
    }
  }

  // ----- Hexadecimal strings -----

  function HexValue(c: char): Option<int> {
    if '0' <= c <= '9' then Some(c as int - '0' as int)
    else if 'a' <= c <= 'f' then Some(c as int - 'a' as int + 10)
    else if 'A' <= c <= 'F' then Some(c as int - 'A' as int + 10)
    else None
  }

  function HexDigit(d: int): char
    requires 0 <= d < 16
  {
    if d < 10 then ('0' as int + d) as char else ('a' as int + d - 10) as char
  }

  predicate IsHex(s: string) {
    |s| % 2 == 0 && forall i :: 0 <= i < |s| ==> HexValue(s[i]).Some?
  }

  /** The lower-case form that bin2hex prints. */
  predicate IsLowerHex(s: string) {
    |s| % 2 == 0 && forall i :: 0 <= i < |s| ==> '0' <= s[i] <= '9' || 'a' <= s[i] <= 'f'
  }

  /** hex2bin as the signer uses it: a malformed string becomes the empty one. */
  function Hex2Bin(s: string): Bytes {
    if IsHex(s) then HexPairs(s) else []
  }

  /** Two hexadecimal digits as a byte. */
  function HexPair(hi: char, lo: char): Byte
    requires HexValue(hi).Some? && HexValue(lo).Some?
  {
    16 * HexValue(hi).value + HexValue(lo).value
  }

  function HexPairs(s: string): (bytes: Bytes)
    requires IsHex(s)
    ensures |bytes| * 2 == |s|
  {
    if s == "" then [] else [HexPair(s[0], s[1])] + HexPairs(s[2..])
  }

  function Bin2Hex(bytes: Bytes): (s: string)
    ensures |s| == 2 * |bytes| && IsLowerHex(s) && IsHex(s)
  {
    if bytes == [] then "" else [HexDigit(bytes[0] / 16), HexDigit(bytes[0] % 16)] + Bin2Hex(bytes[1..])
  }

  lemma {:induction false} HexRoundTrip(bytes: Bytes)
    ensures Hex2Bin(Bin2Hex(bytes)) == bytes
  {
    if bytes != [] {
      HexRoundTrip(bytes[1..]);
      var s := Bin2Hex(bytes);
      assert s[2..] == Bin2Hex(bytes[1..]);
      assert bytes == [bytes[0]] + bytes[1..];
    }
  }

  /** Sixteen digits, in either letter case. */
  lemma HexAlphabet(d: int)
    requires 0 <= d < 16
    ensures HexDigit(d) == "0123456789abcdef"[d]
    ensures HexValue("0123456789abcdef"[d]) == HexValue("0123456789ABCDEF"[d]) == Some(d)
  {
  }

  /** Byte `i` is the value of the digits at `2 * i` and `2 * i + 1`. */
  lemma {:induction false} HexPairAt(s: string, i: nat)
    requires IsHex(s) && 2 * i < |s|
    ensures Hex2Bin(s)[i] == 16 * HexValue(s[2 * i]).value + HexValue(s[2 * i + 1]).value
    decreases i
  {
    if i > 0 { HexPairAt(s[2..], i - 1); }
  }

  lemma LowerPair(hi: char, lo: char)
    requires HexValue(hi).Some? && HexValue(lo).Some?
    ensures HexDigit(HexPair(hi, lo) / 16) == LowerChar(hi) && HexDigit(HexPair(hi, lo) % 16) == LowerChar(lo)
  {
  }

  lemma HexCons(byte: Byte, rest: Bytes)
    ensures Bin2Hex([byte] + rest) == [HexDigit(byte / 16), HexDigit(byte % 16)] + Bin2Hex(rest)
  {
    assert ([byte] + rest)[1..] == rest;
  }

  /** bin2hex undoes hex2bin up to letter case. */
  lemma {:induction false} HexPairsRoundTrip(s: string)
    requires IsHex(s)
    ensures Bin2Hex(HexPairs(s)) == ToLower(s)
    decreases |s|
  {
    if s != "" {
      HexPairsRoundTrip(s[2..]);
      LowerPair(s[0], s[1]);
      HexCons(HexPair(s[0], s[1]), HexPairs(s[2..]));
      assert ToLower(s) == [LowerChar(s[0]), LowerChar(s[1])] + ToLower(s[2..]);
    }
  }

  /** Letter case is lost in decoding, and lower case is its normal form. */
  lemma LowerDecodesAlike(s: string)
    requires IsHex(s)
    ensures IsLowerHex(ToLower(s)) && IsHex(ToLower(s)) && HexPairs(ToLower(s)) == HexPairs(s)
  {
    HexPairsRoundTrip(s);
    HexRoundTrip(HexPairs(s));
  }

  lemma LowerIsNormal(s: string)
    requires IsLowerHex(s)
    ensures ToLower(s) == s && IsHex(s)
  {
  }

  function Reverse(bytes: Bytes): (r: Bytes)
    ensures |r| == |bytes|
  {
    if bytes == [] then [] else Reverse(bytes[1..]) + [bytes[0]]
  }

  lemma {:induction false} ReverseAt(bytes: Bytes, i: nat)
    requires i < |bytes|
    ensures Reverse(bytes)[i] == bytes[|bytes| - 1 - i]
    decreases |bytes|
  {
    if i < |bytes| - 1 { ReverseAt(bytes[1..], i); }
  }

  lemma {:induction false} ReverseAppend(bytes: Bytes, last: Byte)
    ensures Reverse(bytes + [last]) == [last] + Reverse(bytes)
  {
    if bytes == [] {
      assert bytes + [last] == [last];
    } else {
      assert (bytes + [last])[1..] == bytes[1..] + [last];
      ReverseAppend(bytes[1..], last);
    }
  }

  lemma {:induction false} ReverseTwice(bytes: Bytes)
    ensures Reverse(Reverse(bytes)) == bytes
  {
    if bytes != [] {
      ReverseTwice(bytes[1..]);
      ReverseAppend(Reverse(bytes[1..]), bytes[0]);
      assert bytes == [bytes[0]] + bytes[1..];
    }
  }

  /** BtcTxSigner::reverseHex. */
  function ReverseHex(hex: string): Bytes {
    Reverse(Hex2Bin(hex))
  }
}
