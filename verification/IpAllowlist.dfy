/**
 * The CIDR matching of app/BotDetection/IpAllowlist.php, against agreement of address
 * prefixes bit by bit (section 3.1 of RFC 4632, section 2.3 of RFC 4291).
 */
module IpAllowlist {
  import opened Common
  import opened BigEndian
  import Arith

  // ----- Bits of integers -----

  /** Bit `k`, counted from the least significant. */
  predicate BitAt(n: nat, k: nat)
    decreases k, n
  {
    if k == 0 then n % 2 == 1 else BitAt(n / 2, k - 1)
  }

  /** The operator `&` on non-negative integers. */
  function BitAnd(x: nat, y: nat): nat {
    if x == 0 || y == 0 then 0
    else (if x % 2 == 1 && y % 2 == 1 then 1 else 0) + 2 * BitAnd(x / 2, y / 2)
  }

  lemma {:induction false} ZeroBits(k: nat)
    ensures !BitAt(0, k)
  {
    if k > 0 { ZeroBits(k - 1); }
  }

  lemma {:induction false} AndBits(x: nat, y: nat, k: nat)
    ensures BitAt(BitAnd(x, y), k) <==> BitAt(x, k) && BitAt(y, k)
    decreases k
  {
    if x == 0 || y == 0 {
      ZeroBits(k);
    } else if k > 0 {
      assert BitAnd(x, y) / 2 == BitAnd(x / 2, y / 2);
      AndBits(x / 2, y / 2, k - 1);
    }
  }

  lemma {:induction false} AndBelow(x: nat, y: nat)
    ensures BitAnd(x, y) <= x
  {
    if x != 0 && y != 0 { AndBelow(x / 2, y / 2); }
  }

  /** Bits `from` to `w - 1` agree. */
  predicate BitsAgree(x: nat, y: nat, from: nat, w: nat) {
    forall k :: from <= k < w ==> BitAt(x, k) == BitAt(y, k)
  }

  /** Integers of `w` bits are equal exactly when their bits are. */
  lemma {:induction false} SameBits(x: nat, y: nat, w: nat)
    requires x < Pow2(w) && y < Pow2(w)
    ensures x == y <==> BitsAgree(x, y, 0, w)
    decreases w
  {
    if w > 0 && BitsAgree(x, y, 0, w) {
      forall k | 0 <= k < w - 1 ensures BitAt(x / 2, k) == BitAt(y / 2, k) {
        assert BitAt(x, k + 1) == BitAt(y, k + 1);
      }
      assert BitsAgree(x / 2, y / 2, 0, w - 1);
      SameBits(x / 2, y / 2, w - 1);
      assert BitAt(x, 0) == BitAt(y, 0);
    }
  }

  // ----- The mask of a partial byte -----

  /** `(0xFF << (8 - r)) & 0xFF`. */
  function Mask(r: nat): Byte
    requires r <= 8
  {
    0xFF * Pow2(8 - r) % 256
  }

  lemma {:induction false} OnesBits(w: nat, k: nat)
    requires k < w
    ensures BitAt(Pow2(w) - 1, k)
    decreases w
  {
    if k > 0 {
      assert (Pow2(w) - 1) / 2 == Pow2(w - 1) - 1;
      OnesBits(w - 1, k - 1);
    }
  }

  lemma {:induction false} ShiftBits(n: nat, j: nat, k: nat)
    ensures BitAt(n * Pow2(j), k) <==> k >= j && BitAt(n, k - j)
    decreases j
  {
    if j > 0 {
      assert n * Pow2(j) == 2 * (n * Pow2(j - 1));
      if k > 0 { ShiftBits(n, j - 1, k - 1); }
    }
  }

  lemma {:induction false} LowBits(n: nat, m: nat, w: nat, k: nat)
    requires k < w
    ensures BitAt(n + m * Pow2(w), k) == BitAt(n, k)
    decreases w
  {
    assert m * Pow2(w) == 2 * (m * Pow2(w - 1));
    if k > 0 {
      assert (n + 2 * (m * Pow2(w - 1))) / 2 == n / 2 + m * Pow2(w - 1);
      LowBits(n / 2, m, w - 1, k - 1);
    }
  }

  /** The mask has its `r` leading bits set, and no other. */
  lemma MaskBits(r: nat, k: nat)
    requires r <= 8 && k < 8
    ensures BitAt(Mask(r), k) <==> k >= 8 - r
  {
    assert Pow2(8) == 256;
    var n := 0xFF * Pow2(8 - r);
    assert n == n % 256 + n / 256 * 256;
    LowBits(n % 256, n / 256, 8, k);
    ShiftBits(0xFF, 8 - r, k);
    if k >= 8 - r { OnesBits(8, k - (8 - r)); }
  }

  lemma MaskedBit(x: Byte, r: nat, k: nat)
    requires r <= 8 && k < 8
    ensures BitAt(BitAnd(x, Mask(r)), k) <==> BitAt(x, k) && k >= 8 - r
  {
    AndBits(x, Mask(r), k);
    MaskBits(r, k);
  }

  /** Masked bytes are equal exactly when their leading bits agree. */
  lemma MaskedBytes(x: Byte, y: Byte, r: nat)
    requires r <= 8
    ensures BitAnd(x, Mask(r)) == BitAnd(y, Mask(r)) <==> BitsAgree(x, y, 8 - r, 8)
  {
    assert Pow2(8) == 256;
    AndBelow(x, Mask(r));
    AndBelow(y, Mask(r));
    var mx, my := BitAnd(x, Mask(r)), BitAnd(y, Mask(r));
    SameBits(mx, my, 8);
    forall k | 0 <= k < 8
      ensures (BitAt(mx, k) <==> BitAt(x, k) && k >= 8 - r) && (BitAt(my, k) <==> BitAt(y, k) && k >= 8 - r)
    {
      MaskedBit(x, r, k);
      MaskedBit(y, r, k);
    }
    if BitsAgree(mx, my, 0, 8) {
      forall k | 8 - r <= k < 8 ensures BitAt(x, k) == BitAt(y, k) {
        assert BitAt(mx, k) == BitAt(my, k);
      }
    }
  }

  // ----- Addresses -----

  /** A packed address: four or sixteen bytes. */
  type Address = Bytes

  /** Bit `k` of an address in network order. */
  predicate Bit(a: Address, k: nat)
    requires k < 8 * |a|
  {
    BitAt(a[k / 8], 7 - k % 8)
  }

  /** The first `n` bits agree. */
  predicate PrefixAgrees(a: Address, b: Address, n: nat)
    requires |a| == |b| && n <= 8 * |a|
  {
    RangeAgrees(a, b, 0, n)
  }

  /** The comparison at the end of ipMatchesEntry, on packed addresses of one family. */
  predicate MatchesBits(ip: Address, prefix: Address, bits: nat)
    requires |ip| == |prefix| && bits <= 8 * |ip|
  {
    if bits == 0 then true
    else
      var fullBytes, remainderBits := bits / 8, bits % 8;
      if fullBytes > 0 && ip[..fullBytes] != prefix[..fullBytes] then false
      else if remainderBits == 0 then true
      else BitAnd(ip[fullBytes], Mask(remainderBits)) == BitAnd(prefix[fullBytes], Mask(remainderBits))
  }

  /** Bits `from` to `to - 1` of two addresses agree. */
  predicate RangeAgrees(a: Address, b: Address, from: nat, to: nat)
    requires |a| == |b| && to <= 8 * |a|
  {
    forall k :: from <= k < to ==> Bit(a, k) == Bit(b, k)
  }

  lemma BitOfByte(a: Address, i: nat, j: nat)
    requires i < |a| && j < 8
    ensures Bit(a, 8 * i + (7 - j)) <==> BitAt(a[i], j)
  {
    assert (8 * i + (7 - j)) / 8 == i && (8 * i + (7 - j)) % 8 == 7 - j;
  }

  /** The leading bits of byte `i` agree exactly when the masked bytes are equal. */
  lemma ByteAgrees(a: Address, b: Address, i: nat, r: nat)
    requires |a| == |b| && i < |a| && r <= 8
    ensures RangeAgrees(a, b, 8 * i, 8 * i + r) <==> BitAnd(a[i], Mask(r)) == BitAnd(b[i], Mask(r))
  {
    MaskedBytes(a[i], b[i], r);
    if RangeAgrees(a, b, 8 * i, 8 * i + r) {
      forall j | 8 - r <= j < 8 ensures BitAt(a[i], j) == BitAt(b[i], j) {
        BitOfByte(a, i, j);
        BitOfByte(b, i, j);
        assert Bit(a, 8 * i + (7 - j)) == Bit(b, 8 * i + (7 - j));
      }
    }
    if BitsAgree(a[i], b[i], 8 - r, 8) {
      forall k | 8 * i <= k < 8 * i + r ensures Bit(a, k) == Bit(b, k) {
        var j := 7 - (k - 8 * i);
        BitOfByte(a, i, j);
        BitOfByte(b, i, j);
        assert BitAt(a[i], j) == BitAt(b[i], j);
      }
    }
  }

  lemma WholeByte(x: Byte, y: Byte)
    ensures BitAnd(x, Mask(8)) == BitAnd(y, Mask(8)) <==> x == y
  {
    MaskedBytes(x, y, 8);
    assert Pow2(8) == 256;
    SameBits(x, y, 8);
  }

  lemma RangeSplits(a: Address, b: Address, mid: nat, to: nat)
    requires |a| == |b| && mid <= to <= 8 * |a|
    ensures RangeAgrees(a, b, 0, to) <==> RangeAgrees(a, b, 0, mid) && RangeAgrees(a, b, mid, to)
  {
  }

  lemma {:induction false} FullBytes(a: Address, b: Address, m: nat)
    requires |a| == |b| && m <= |a|
    ensures a[..m] == b[..m] <==> PrefixAgrees(a, b, 8 * m)
    decreases m
  {
    if m > 0 {
      FullBytes(a, b, m - 1);
      ByteAgrees(a, b, m - 1, 8);
      WholeByte(a[m - 1], b[m - 1]);
      RangeSplits(a, b, 8 * (m - 1), 8 * m);
      assert a[..m] == a[..m - 1] + [a[m - 1]] && b[..m] == b[..m - 1] + [b[m - 1]];
    }
  }

  /**
   * Comparing whole bytes and then one masked byte is comparing the first `bits` bits, for
   * every prefix length of both address families.
   */
  lemma MatchesIffPrefixAgrees(ip: Address, prefix: Address, bits: nat)
    requires |ip| == |prefix| && bits <= 8 * |ip|
    ensures MatchesBits(ip, prefix, bits) <==> PrefixAgrees(ip, prefix, bits)
  {
    var m, r := bits / 8, bits % 8;
    FullBytes(ip, prefix, m);
    if r > 0 {
      ByteAgrees(ip, prefix, m, r);
      RangeSplits(ip, prefix, 8 * m, bits);
    }
  }

  // ----- Addresses as numbers -----

  /** A byte below another number in the positional sense. */
  lemma {:induction false} HighBits(n: nat, m: nat, w: nat, k: nat)
    requires n < Pow2(w)
    ensures BitAt(n + m * Pow2(w), w + k) == BitAt(m, k)
    decreases w
  {
    if w > 0 {
      var p := m * Pow2(w - 1);
      assert m * Pow2(w) == 2 * p;
      assert (n + 2 * p) / 2 == n / 2 + p;
      HighBits(n / 2, m, w - 1, k);
    }
  }

  lemma {:induction false} ValueBelow(a: Address)
    ensures Value(a) < Pow2(8 * |a|)
    decreases |a|
  {
    if a != [] {
      var n := |a| - 1;
      ValueBelow(a[..n]);
      EightBits(8 * n);
    }
  }

  lemma EightBits(k: nat)
    ensures Pow2(k + 8) == 256 * Pow2(k)
  {
    assert Pow2(k + 2) == 4 * Pow2(k);
    assert Pow2(k + 4) == 16 * Pow2(k);
    assert Pow2(k + 6) == 64 * Pow2(k);
  }

  /** Bit `k` in network order is the bit of weight 2^(8 |a| - 1 - k) of the address as a number. */
  lemma {:induction false} BitOfValue(a: Address, k: nat)
    requires k < 8 * |a|
    ensures Bit(a, k) <==> BitAt(Value(a), 8 * |a| - 1 - k)
    decreases |a|
  {
    var n := |a| - 1;
    var front, last := a[..n], a[n];
    assert Pow2(8) == 256;
    if k >= 8 * n {
      BitOfByte(a, n, 7 - (k - 8 * n));
      LowBits(last, Value(front), 8, 7 - (k - 8 * n));
    } else {
      BitOfValue(front, k);
      HighBits(last, Value(front), 8, 8 * n - 1 - k);
      assert front[k / 8] == a[k / 8];
    }
  }

  /** A number without its low `s` bits. */
  function DropBits(x: nat, s: nat): nat {
    if s == 0 then x else DropBits(x / 2, s - 1)
  }

  lemma {:induction false} DropIsDivision(x: nat, s: nat)
    ensures DropBits(x, s) == x / Pow2(s)
    decreases s
  {
    if s > 0 {
      DropIsDivision(x / 2, s - 1);
      Arith.DivDiv(x, 2, Pow2(s - 1));
    }
  }

  lemma {:induction false} BitOfDropped(x: nat, s: nat, k: nat)
    ensures BitAt(DropBits(x, s), k) == BitAt(x, s + k)
    decreases s
  {
    if s > 0 { BitOfDropped(x / 2, s - 1, k); }
  }

  lemma {:induction false} DroppedBelow(x: nat, w: nat, s: nat)
    requires x < Pow2(w + s)
    ensures DropBits(x, s) < Pow2(w)
    decreases s
  {
    if s > 0 { DroppedBelow(x / 2, w, s - 1); }
  }

  /** The number holds the first `n` bits, the first of them on top. */
  ghost predicate Leads(x: nat, a: Address, n: nat)
    requires n <= 8 * |a|
  {
    x < Pow2(n) && forall k :: 0 <= k < n ==> (Bit(a, k) <==> BitAt(x, n - 1 - k))
  }

  lemma NetworkNumberLeads(a: Address, n: nat)
    requires n <= 8 * |a|
    ensures Leads(DropBits(Value(a), 8 * |a| - n), a, n)
  {
    var s := 8 * |a| - n;
    ValueBelow(a);
    DroppedBelow(Value(a), n, s);
    forall k | 0 <= k < n ensures Bit(a, k) <==> BitAt(DropBits(Value(a), s), n - 1 - k) {
      BitOfValue(a, k);
      BitOfDropped(Value(a), s, n - 1 - k);
    }
  }

  lemma LeadersAgree(x: nat, y: nat, a: Address, b: Address, n: nat)
    requires |a| == |b| && n <= 8 * |a| && Leads(x, a, n) && Leads(y, b, n)
    ensures PrefixAgrees(a, b, n) <==> BitsAgree(x, y, 0, n)
  {
    if PrefixAgrees(a, b, n) {
      forall k | 0 <= k < n ensures BitAt(x, k) == BitAt(y, k) {
        assert Bit(a, n - 1 - k) == Bit(b, n - 1 - k);
      }
    }
    if BitsAgree(x, y, 0, n) {
      forall k | 0 <= k < n ensures Bit(a, k) == Bit(b, k) {
        assert BitAt(x, n - 1 - k) == BitAt(y, n - 1 - k);
      }
    }
  }

  /** Two addresses share their first `n` bits exactly when they have the same network number. */
  lemma PrefixIsNetworkNumber(a: Address, b: Address, n: nat)
    requires |a| == |b| && n <= 8 * |a|
    ensures PrefixAgrees(a, b, n) <==> Value(a) / Pow2(8 * |a| - n) == Value(b) / Pow2(8 * |a| - n)
  {
    NetworkNumberLeads(a, n);
    NetworkNumberLeads(b, n);
    var x, y := DropBits(Value(a), 8 * |a| - n), DropBits(Value(b), 8 * |a| - n);
    LeadersAgree(x, y, a, b, n);
    SameBits(x, y, n);
    DropIsDivision(Value(a), 8 * |a| - n);
    DropIsDivision(Value(b), 8 * |a| - n);
  }

  // ----- Entries -----

  /** What the platform's address functions answer: filter_var and inet_pton. */
  datatype Platform = Platform(isIp: string -> bool, pton: string -> Option<Address>)

  /** Every accepted address packs to four or sixteen bytes. */
  ghost predicate Sound(p: Platform) {
    && (forall s :: p.isIp(s) ==> p.pton(s).Some?)
    && (forall s :: p.pton(s).Some? ==> |p.pton(s).value| == 4 || |p.pton(s).value| == 16)
  }

  /** The position of the first slash, or the length of the string. */
  function SlashAt(s: string): (i: nat)
    ensures i <= |s|
    ensures i < |s| ==> s[i] == '/'
    ensures '/' !in s[..i]
  {
    if s == "" || s[0] == '/' then 0
    else
      var i := SlashAt(s[1..]);
      assert s[..i + 1] == [s[0]] + s[1..][..i];
      i + 1
  }

  /** IpAllowlist::ipMatchesEntry. */
  predicate IpMatchesEntry(p: Platform, ip: string, entry: string) {
    if SlashAt(entry) == |entry| then p.pton(ip) == p.pton(entry)
    else
      var prefix, bits := entry[..SlashAt(entry)], entry[SlashAt(entry) + 1..];
      if !p.isIp(prefix) || !CtypeDigit(bits) then false
      else
        match (p.pton(ip), p.pton(prefix))
        case (Some(ipBin), Some(prefixBin)) =>
          |ipBin| == |prefixBin| && Decimal(bits) <= |ipBin| * 8 && MatchesBits(ipBin, prefixBin, Decimal(bits))
        case _ => false
  }

  predicate IsSpace(c: char) {
    c == ' ' || c == '\t' || c == '\n' || c == '\r' || c as int == 0 || c as int == 11
  }

  function TrimLeft(s: string): string {
    if s != "" && IsSpace(s[0]) then TrimLeft(s[1..]) else s
  }

  function TrimRight(s: string): string {
    if s != "" && IsSpace(s[|s| - 1]) then TrimRight(s[..|s| - 1]) else s
  }

  function Trim(s: string): string {
    TrimRight(TrimLeft(s))
  }

  /** The characters that PHP's trim removes. */
  predicate AllSpace(s: string) {
    forall i :: 0 <= i < |s| ==> s[i] as int in {32, 9, 10, 13, 0, 11}
  }

  lemma SpaceJoins(a: string, b: string)
    requires AllSpace(a) && AllSpace(b)
    ensures AllSpace(a + b)
  {
  }

  lemma {:induction false} TrimLeftStrips(s: string) returns (k: nat)
    ensures k <= |s| && AllSpace(s[..k]) && TrimLeft(s) == s[k..]
    ensures TrimLeft(s) != "" ==> !IsSpace(TrimLeft(s)[0])
    decreases |s|
  {
    k := 0;
    if s != "" && IsSpace(s[0]) {
      var j := TrimLeftStrips(s[1..]);
      k := j + 1;
      SpaceJoins([s[0]], s[1..][..j]);
      assert s[..k] == [s[0]] + s[1..][..j] && s[k..] == s[1..][j..];
    }
  }

  lemma {:induction false} TrimRightStrips(s: string) returns (k: nat)
    ensures k <= |s| && AllSpace(s[k..]) && TrimRight(s) == s[..k]
    ensures TrimRight(s) != "" ==> !IsSpace(TrimRight(s)[|TrimRight(s)| - 1])
    decreases |s|
  {
    k := |s|;
    if s != "" && IsSpace(s[|s| - 1]) {
      var n := |s| - 1;
      k := TrimRightStrips(s[..n]);
      SpaceJoins(s[..n][k..], [s[n]]);
      assert s[k..] == s[..n][k..] + [s[n]] && s[..k] == s[..n][..k];
    }
  }

  /** Trimming removes white space from both ends, and all of it. */
  lemma TrimStrips(s: string)
    ensures exists i, j | 0 <= i <= j <= |s| :: Trim(s) == s[i..j] && AllSpace(s[..i]) && AllSpace(s[j..])
    ensures Trim(s) != "" ==> !AllSpace(Trim(s)[..1]) && !AllSpace(Trim(s)[|Trim(s)| - 1..])
  {
    var i := TrimLeftStrips(s);
    var k := TrimRightStrips(s[i..]);
    var j := i + k;
    assert s[i..][..k] == s[i..j] && s[i..][k..] == s[j..];
    if Trim(s) != "" {
      assert Trim(s)[0] == TrimLeft(s)[0];
      assert IsSpace(Trim(s)[..1][0]) <==> AllSpace(Trim(s)[..1]);
      assert IsSpace(Trim(s)[|Trim(s)| - 1..][0]) <==> AllSpace(Trim(s)[|Trim(s)| - 1..]);
    }
  }

  /** IpAllowlist::matches. */
  predicate Matches(p: Platform, ip: string, allowlist: seq<string>) {
    p.isIp(ip) && MatchesAny(p, ip, allowlist)
  }

  /** The search, which stops at the first entry that matches. */
  predicate MatchesAny(p: Platform, ip: string, allowlist: seq<string>) {
    if allowlist == [] then false
    else
      var entry := Trim(allowlist[0]);
      if entry != "" && IpMatchesEntry(p, ip, entry) then true else MatchesAny(p, ip, allowlist[1..])
  }

  /** What an entry is meant to cover: an address, or all addresses sharing its first bits. */
  ghost predicate Covers(p: Platform, entry: string, ip: Address) {
    var i := SlashAt(entry);
    if i == |entry| then p.pton(entry) == Some(ip)
    else
      && p.isIp(entry[..i]) && CtypeDigit(entry[i + 1..]) && p.pton(entry[..i]).Some?
      && |p.pton(entry[..i]).value| == |ip|
      && Decimal(entry[i + 1..]) <= 8 * |ip|
      && PrefixAgrees(ip, p.pton(entry[..i]).value, Decimal(entry[i + 1..]))
  }

  // ----- What the allowlist means -----

  /** An entry matches an address exactly when it covers it. */
  lemma EntryMatchesIffCovers(p: Platform, ip: string, entry: string)
    requires Sound(p) && p.isIp(ip)
    ensures IpMatchesEntry(p, ip, entry) <==> Covers(p, entry, p.pton(ip).value)
  {
    var i := SlashAt(entry);
    if i < |entry| && p.isIp(entry[..i]) && CtypeDigit(entry[i + 1..]) {
      var ipBin, prefixBin := p.pton(ip).value, p.pton(entry[..i]).value;
      var bits := Decimal(entry[i + 1..]);
      if |ipBin| == |prefixBin| && bits <= 8 * |ipBin| {
        MatchesIffPrefixAgrees(ipBin, prefixBin, bits);
      }
    }
  }

  lemma {:induction false} SlashAfter(prefix: string, rest: string)
    requires '/' !in prefix
    ensures SlashAt(prefix + "/" + rest) == |prefix|
    decreases |prefix|
  {
    var s := prefix + "/" + rest;
    if prefix == "" {
      assert s[0] == '/';
    } else {
      assert s[0] == prefix[0] && s[1..] == prefix[1..] + "/" + rest;
      SlashAfter(prefix[1..], rest);
    }
  }

  /**
   * The entry "address/n", with `n` printed in decimal, matches exactly the addresses of the
   * same family that share the first `n` bits: their numbers agree once the other bits are
   * divided away.
   */
  lemma PrefixEntryMeans(p: Platform, ip: string, prefix: string, n: nat)
    requires Sound(p) && p.isIp(ip) && p.isIp(prefix) && '/' !in prefix
    ensures
      var a, b := p.pton(ip).value, p.pton(prefix).value;
      IpMatchesEntry(p, ip, prefix + "/" + Numeral(n)) <==>
        |a| == |b| && n <= 8 * |a| && Value(a) / Pow2(8 * |a| - n) == Value(b) / Pow2(8 * |a| - n)
  {
    var entry := prefix + "/" + Numeral(n);
    SlashAfter(prefix, Numeral(n));
    NumeralDenotes(n);
    assert entry[..|prefix|] == prefix && entry[|prefix| + 1..] == Numeral(n);
    EntryMatchesIffCovers(p, ip, entry);
    var a, b := p.pton(ip).value, p.pton(prefix).value;
    if |a| == |b| && n <= 8 * |a| { PrefixIsNetworkNumber(a, b, n); }
  }

  /** The list matches exactly the valid addresses that some non-blank entry covers. */
  lemma {:induction false} MatchesIffCovered(p: Platform, ip: string, allowlist: seq<string>)
    requires Sound(p)
    ensures Matches(p, ip, allowlist) <==>
      p.isIp(ip) && exists entry :: entry in allowlist && Trim(entry) != "" && Covers(p, Trim(entry), p.pton(ip).value)
    decreases |allowlist|
  {
    if allowlist != [] && p.isIp(ip) {
      EntryMatchesIffCovers(p, ip, Trim(allowlist[0]));
      MatchesIffCovered(p, ip, allowlist[1..]);
      assert allowlist == [allowlist[0]] + allowlist[1..];
    }
  }

  /** Sharing the first `n` bits is an equivalence, and implies sharing any fewer. */
  lemma PrefixIsEquivalence(a: Address, b: Address, c: Address, n: nat, fewer: nat)
    requires |a| == |b| == |c| && fewer <= n <= 8 * |a|
    ensures MatchesBits(a, a, n)
    ensures MatchesBits(a, b, n) <==> MatchesBits(b, a, n)
    ensures MatchesBits(a, b, n) && MatchesBits(b, c, n) ==> MatchesBits(a, c, n)
    ensures MatchesBits(a, b, n) ==> MatchesBits(a, b, fewer)
  {
    MatchesIffPrefixAgrees(a, a, n);
    MatchesIffPrefixAgrees(a, b, n);
    MatchesIffPrefixAgrees(b, a, n);
    MatchesIffPrefixAgrees(b, c, n);
    MatchesIffPrefixAgrees(a, c, n);
    MatchesIffPrefixAgrees(a, b, fewer);
    if RangeAgrees(a, b, 0, n) && RangeAgrees(b, c, 0, n) {
      forall k | 0 <= k < n ensures Bit(a, k) == Bit(c, k) {
        assert Bit(a, k) == Bit(b, k) && Bit(b, k) == Bit(c, k);
      }
    }
  }

  /** A full-length prefix covers its own address alone, as an entry without a slash does. */
  lemma FullPrefixIsBareAddress(a: Address, b: Address)
    requires |a| == |b|
    ensures MatchesBits(a, b, 8 * |a|) <==> a == b
  {
    MatchesIffPrefixAgrees(a, b, 8 * |a|);
    FullBytes(a, b, |a|);
    assert a[..|a|] == a && b[..|b|] == b;
  }
}
