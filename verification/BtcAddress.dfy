/**
 * The 5-to-8-bit regrouping of app/Payout/Btc/BtcAddress.php (the "Segwit address format"
 * section of BIP 173) and the address checks built on it.
 */
module BtcAddress {
  import opened Common
  import Arith

  // ----- Bit strings -----

  type Bits = seq<bool>

  lemma Widths()
    ensures Pow2(5) == 32 && Pow2(8) == 256
  {
  }

  /** The low `k` bits of an integer, most significant first. */
  function BitsOf(n: int, k: nat): (bits: Bits)
    ensures |bits| == k
    decreases k, n
  {
    if k == 0 then [] else BitsOf(n / 2, k - 1) + [n % 2 == 1]
  }

  /** The bits of a sequence of groups, `width` bits a group. */
  function Spread(width: nat, groups: seq<int>): Bits {
    if groups == [] then []
    else
      var n := |groups| - 1;
      Spread(width, groups[..n]) + BitsOf(groups[n], width)
  }

  /** The number of bits in `m` groups; a running sum keeps products away from the solver. */
  function Total(width: nat, m: nat): nat
    decreases m, width
  {
    if m == 0 then 0 else Total(width, m - 1) + width
  }

  lemma {:induction false} TotalIs(width: nat, m: nat)
    ensures Total(width, m) == width * m
    decreases m
  {
    if m > 0 {
      TotalIs(width, m - 1);
      Arith.Distribute(width, m - 1, 1);
    }
  }

  lemma {:induction false} SpreadLength(width: nat, groups: seq<int>)
    ensures |Spread(width, groups)| == Total(width, |groups|)
  {
    if groups != [] {
      SpreadLength(width, groups[..|groups| - 1]);
    }
  }

  function Zeros(k: nat): Bits {
    seq(k, _ => false)
  }

  predicate InRange(words: seq<int>) {
    forall i :: 0 <= i < |words| ==> 0 <= words[i] <= 31
  }

  /** The regrouping the address format asks for: same bits, fewer than five zeros of padding. */
  predicate Regroups(words: seq<int>, bytes: Bytes) {
    && InRange(words)
    && 0 <= 5 * |words| - 8 * |bytes| < 5
    && Spread(5, words) == Spread(8, bytes) + Zeros(5 * |words| - 8 * |bytes|)
  }

  // ----- PHP integers -----

  /** A 64-bit signed integer after overflow. */
  function Wrap(n: int): int {
    (n + 0x8000_0000_0000_0000) % 0x1_0000_0000_0000_0000 - 0x8000_0000_0000_0000
  }

  /** `($acc << 5) | $w` for a five-bit word: the shift wraps, and leaves room for the word. */
  function ShiftIn(acc: int, word: int): int {
    Wrap(acc * 32) + word
  }

  /** `($acc >> $bits) & 0xFF`: the shift floors, whatever the sign. */
  function ByteAt(acc: int, bits: nat): Byte {
    acc / Pow2(bits) % 256
  }

  // ----- Laws of bit strings -----

  lemma {:induction false} Pow2Add(a: nat, b: nat)
    ensures Pow2(a + b) == Pow2(a) * Pow2(b)
    decreases a
  {
    if a > 0 {
      Pow2Add(a - 1, b);
      Arith.Product3(2, Pow2(a - 1), Pow2(b));
    }
  }

  /** Splitting a bit string at its low `b` bits. */
  lemma {:induction false} BitsSplit(n: int, a: nat, b: nat)
    ensures BitsOf(n, a + b) == BitsOf(n / Pow2(b), a) + BitsOf(n, b)
    decreases b
  {
    if b == 0 {
      assert n / 1 == n;
    } else {
      BitsSplit(n / 2, a, b - 1);
      Arith.DivDiv(n, 2, Pow2(b - 1));
      assert BitsOf(n, a + b) == BitsOf(n / 2, a + b - 1) + [n % 2 == 1];
      assert BitsOf(n, b) == BitsOf(n / 2, b - 1) + [n % 2 == 1];
    }
  }

  /** Bits above the low `k` do not matter. */
  lemma {:induction false} BitsModulo(n: int, m: int, k: nat)
    ensures BitsOf(n + m * Pow2(k), k) == BitsOf(n, k)
    decreases k
  {
    if k > 0 {
      var p := Pow2(k - 1);
      Arith.Product3(m, 2, p);
      assert m * Pow2(k) == 2 * (m * p);
      assert (n + 2 * (m * p)) / 2 == n / 2 + m * p;
      BitsModulo(n / 2, m, k - 1);
    }
  }

  /** The low bits are all zero exactly for multiples of the power of two. */
  lemma {:induction false} BitsZero(n: int, k: nat)
    ensures BitsOf(n, k) == Zeros(k) <==> n % Pow2(k) == 0
    decreases k
  {
    if k > 0 {
      BitsZero(n / 2, k - 1);
      var front := BitsOf(n / 2, k - 1);
      assert BitsOf(n, k) == front + [n % 2 == 1];
      assert Zeros(k) == Zeros(k - 1) + [false];
      assert BitsOf(n, k)[..k - 1] == front && Zeros(k)[..k - 1] == Zeros(k - 1);
      assert BitsOf(n, k) == Zeros(k) <==> front == Zeros(k - 1) && n % 2 == 0;
      HalfRemainder(n, Pow2(k - 1));
    }
  }

  lemma HalfRemainder(n: int, p: int)
    requires p > 0
    ensures n % (2 * p) == 0 <==> n % 2 == 0 && n / 2 % p == 0
  {
    var h, r := n / 2, n % 2;
    var q, s := h / p, h % p;
    Arith.Division(h, p);
    Arith.Product3(2, p, q);
    Arith.QuotientIs(n, 2 * p, q, 2 * s + r);
  }

  lemma SpreadPush(width: nat, groups: seq<int>, g: int)
    ensures Spread(width, groups + [g]) == Spread(width, groups) + BitsOf(g, width)
  {
    assert (groups + [g])[..|groups|] == groups;
  }

  /** Fewer than 13 bits of the accumulator are ever read, so its overflow is invisible. */
  lemma ShiftInAppends(acc: int, word: int, bits: nat, k: nat)
    requires 0 <= word <= 31 && bits <= 59 && Pow2(k) == 32
    ensures BitsOf(ShiftIn(acc, word), bits + k) == BitsOf(acc, bits) + BitsOf(word, k)
  {
    var m := (acc * 32 + 0x8000_0000_0000_0000) / 0x1_0000_0000_0000_0000;
    var q := acc - m * 0x800_0000_0000_0000;
    assert ShiftIn(acc, word) == word + q * 32;
    BitsSplit(word + q * 32, bits, k);
    BitsModulo(word, q, k);
    assert (word + q * 32) / 32 == q;
    HighBitsVanish(acc, m, bits);
  }

  lemma HighBitsVanish(acc: int, m: int, bits: nat)
    requires bits <= 59
    ensures BitsOf(acc - m * 0x800_0000_0000_0000, bits) == BitsOf(acc, bits)
  {
    var k: nat := 59 - bits;
    Pow2Add(k, bits);
    Pow2Is59(k + bits);
    Arith.Product3(-m, Pow2(k), Pow2(bits));
    BitsModulo(acc, -m * Pow2(k), bits);
  }

  /** The power named by its exponent only, so that the solver does not unroll it. */
  lemma Pow2Is59(k: nat)
    requires k == 59
    ensures Pow2(k) == 0x800_0000_0000_0000
  {
    assert Pow2(10) == 1024;
    assert Pow2(9) == 512;
    Pow2Tens(10, 9, k);
  }

  lemma Pow2Tens(ten: nat, nine: nat, k: nat)
    requires Pow2(ten) == 1024 && Pow2(nine) == 512 && k == 5 * ten + nine
    ensures Pow2(k) == 0x800_0000_0000_0000
  {
    Pow2Product(ten, ten, 1024, 1024);
    Pow2Product(2 * ten, 2 * ten, 0x10_0000, 0x10_0000);
    Pow2Product(4 * ten, ten, 0x100_0000_0000, 1024);
    Pow2Product(5 * ten, nine, 0x4_0000_0000_0000, 512);
  }

  lemma Pow2Product(a: nat, b: nat, x: int, y: int)
    requires Pow2(a) == x && Pow2(b) == y
    ensures Pow2(a + b) == x * y
  {
    Pow2Add(a, b);
  }

  lemma TakeByte(acc: int, bits: nat, k: nat)
    requires Pow2(k) == 256
    ensures BitsOf(acc, bits + k) == BitsOf(ByteAt(acc, bits), k) + BitsOf(acc, bits)
  {
    BitsSplit(acc, k, bits);
    var x := acc / Pow2(bits);
    assert x == x % 256 + x / 256 * 256;
    BitsModulo(x % 256, x / 256, k);
  }

  lemma {:induction false} BitsInjective(a: int, b: int, k: nat)
    requires 0 <= a < Pow2(k) && 0 <= b < Pow2(k) && BitsOf(a, k) == BitsOf(b, k)
    ensures a == b
    decreases k
  {
    if k > 0 {
      var fa, fb := BitsOf(a / 2, k - 1), BitsOf(b / 2, k - 1);
      assert BitsOf(a, k) == fa + [a % 2 == 1] && BitsOf(b, k) == fb + [b % 2 == 1];
      assert fa == BitsOf(a, k)[..k - 1] && fb == BitsOf(b, k)[..k - 1];
      assert (a % 2 == 1) == BitsOf(a, k)[k - 1] && (b % 2 == 1) == BitsOf(b, k)[k - 1];
      BitsInjective(a / 2, b / 2, k - 1);
    }
  }

  lemma SplitEqual(a: Bits, b: Bits, c: Bits, d: Bits)
    requires a + b == c + d && |a| == |c|
    ensures a == c && b == d
  {
    assert a == (a + b)[..|a|] && c == (c + d)[..|c|];
    assert b == (a + b)[|a|..] && d == (c + d)[|c|..];
  }

  lemma {:induction false} SpreadInjective(width: nat, a: seq<int>, b: seq<int>)
    requires forall i :: 0 <= i < |a| ==> 0 <= a[i] < Pow2(width)
    requires forall i :: 0 <= i < |b| ==> 0 <= b[i] < Pow2(width)
    requires |a| == |b| && Spread(width, a) == Spread(width, b)
    ensures a == b
    decreases |a|
  {
    if a != [] {
      var n := |a| - 1;
      SpreadLength(width, a[..n]);
      SpreadLength(width, b[..n]);
      SplitEqual(Spread(width, a[..n]), BitsOf(a[n], width), Spread(width, b[..n]), BitsOf(b[n], width));
      SpreadInjective(width, a[..n], b[..n]);
      BitsInjective(a[n], b[n], width);
      assert a == a[..n] + [a[n]] && b == b[..n] + [b[n]];
    }
  }

  // ----- The conversion -----

  /** Where the loop stands: the bits read are the bytes written and the pending low bits. */
  ghost predicate Pending(words: seq<int>, out: Bytes, acc: int, bits: nat) {
    && 5 * |words| == 8 * |out| + bits
    && Spread(5, words) == Spread(8, out) + BitsOf(acc, bits)
  }

  lemma BitsAssoc(a: Bits, b: Bits, c: Bits)
    ensures a + (b + c) == (a + b) + c
  {
  }

  lemma PushWord(k: nat, front: Bits, words: seq<int>, w: int, acc: int, bits: nat)
    requires Spread(k, words) == front + BitsOf(acc, bits)
    requires 0 <= w <= 31 && bits <= 59 && Pow2(k) == 32
    ensures Spread(k, words + [w]) == front + BitsOf(ShiftIn(acc, w), bits + k)
  {
    SpreadPush(k, words, w);
    ShiftInAppends(acc, w, bits, k);
    BitsAssoc(front, BitsOf(acc, bits), BitsOf(w, k));
  }

  lemma PushByte(k: nat, all: Bits, out: Bytes, acc: int, bits: nat)
    requires all == Spread(k, out) + BitsOf(acc, bits + k) && Pow2(k) == 256
    ensures all == Spread(k, out + [ByteAt(acc, bits)]) + BitsOf(acc, bits)
  {
    TakeByte(acc, bits, k);
    SpreadPush(k, out, ByteAt(acc, bits));
    BitsAssoc(Spread(k, out), BitsOf(ByteAt(acc, bits), k), BitsOf(acc, bits));
  }

  lemma PendingWord(words: seq<int>, w: int, out: Bytes, acc: int, bits: nat)
    requires Pending(words, out, acc, bits) && 0 <= w <= 31 && bits <= 59
    ensures Pending(words + [w], out, ShiftIn(acc, w), bits + 5)
  {
    Widths();
    PushWord(5, Spread(8, out), words, w, acc, bits);
  }

  lemma PendingByte(words: seq<int>, out: Bytes, acc: int, bits: nat)
    requires bits >= 8 && Pending(words, out, acc, bits)
    ensures Pending(words, out + [ByteAt(acc, bits - 8)], acc, bits - 8)
  {
    Widths();
    PushByte(8, Spread(5, words), out, acc, bits - 8);
  }

  /** What the leftover bits decide. */
  lemma PendingEnds(words: seq<int>, out: Bytes, acc: int, bits: nat, candidate: Bytes)
    requires InRange(words) && Pending(words, out, acc, bits) && bits < 8
    ensures Regroups(words, candidate) <==> bits < 5 && acc % Pow2(bits) == 0 && candidate == out
  {
    BitsZero(acc, bits);
    SpreadLength(8, out);
    TotalIs(8, |out|);
    if Regroups(words, candidate) {
      SpreadLength(8, candidate);
      TotalIs(8, |candidate|);
      assert |candidate| == |out|;
      SplitEqual(Spread(8, candidate), Zeros(bits), Spread(8, out), BitsOf(acc, bits));
      Widths();
      SpreadInjective(8, candidate, out);
    }
  }

  lemma PendingDecides(words: seq<int>, out: Bytes, acc: int, bits: nat)
    requires InRange(words) && Pending(words, out, acc, bits) && bits < 8
    ensures forall candidate ::
      Regroups(words, candidate) <==> bits < 5 && acc % Pow2(bits) == 0 && candidate == out
  {
    forall candidate ensures Regroups(words, candidate) <==> bits < 5 && acc % Pow2(bits) == 0 && candidate == out {
      PendingEnds(words, out, acc, bits, candidate);
    }
  }

  lemma PendingNext(words: seq<int>, i: nat, out: Bytes, acc: int, bits: nat)
    requires i < |words| && 0 <= words[i] <= 31 && bits < 8
    requires InRange(words[..i]) && Pending(words[..i], out, acc, bits)
    ensures InRange(words[..i + 1]) && Pending(words[..i + 1], out, ShiftIn(acc, words[i]), bits + 5)
  {
    PendingWord(words[..i], words[i], out, acc, bits);
    assert words[..i + 1] == words[..i] + [words[i]];
  }

  /** A word out of range leaves nothing to regroup. */
  lemma OutOfRange(words: seq<int>, i: nat)
    requires i < |words| && !(0 <= words[i] <= 31)
    ensures forall bytes :: !Regroups(words, bytes)
  {
  }

  /** BtcAddress::wordsToBytes: the bytes the words regroup to, or None when there are none. */
  method WordsToBytes(words: seq<int>) returns (r: Option<Bytes>)
    ensures forall bytes :: r == Some(bytes) <==> Regroups(words, bytes)
  {
    var acc := 0;
    var bits := 0;
    var out: Bytes := [];
    var i := 0;
    while i < |words|
      invariant i <= |words| && 0 <= bits < 8
      invariant InRange(words[..i]) && Pending(words[..i], out, acc, bits)
    {
      var w := words[i];
      if w < 0 || w > 31 {
        OutOfRange(words, i);
        return None;
      }
      PendingNext(words, i, out, acc, bits);
      acc := ShiftIn(acc, w);
      bits := bits + 5;
      while bits >= 8
        invariant 0 <= bits < 13
        invariant Pending(words[..i + 1], out, acc, bits)
      {
        PendingByte(words[..i + 1], out, acc, bits);
        bits := bits - 8;
        out := out + [ByteAt(acc, bits)];
      }
      i := i + 1;
    }
    assert words[..i] == words;
    PendingDecides(words, out, acc, bits);
    if bits >= 5 || acc % Pow2(bits) != 0 {
      return None;
    }
    return Some(out);
  }

  // ----- The regrouping is a bijection -----

  function IntOf(bits: Bits): (n: nat)
    ensures n < Pow2(|bits|)
  {
    if bits == [] then 0 else 2 * IntOf(bits[..|bits| - 1]) + (if bits[|bits| - 1] then 1 else 0)
  }

  lemma {:induction false} BitsOfIntOf(bits: Bits)
    ensures BitsOf(IntOf(bits), |bits|) == bits
  {
    if bits != [] {
      var n := |bits| - 1;
      BitsOfIntOf(bits[..n]);
      assert IntOf(bits) / 2 == IntOf(bits[..n]);
      assert bits == bits[..n] + [bits[n]];
    }
  }

  /** Cuts a bit string into `m` groups. */
  function Cut(width: nat, m: nat, bits: Bits): (groups: seq<int>)
    requires |bits| == Total(width, m)
    ensures |groups| == m && forall i :: 0 <= i < m ==> 0 <= groups[i] < Pow2(width)
    decreases m
  {
    if m == 0 then []
    else
      var n := Total(width, m - 1);
      Cut(width, m - 1, bits[..n]) + [IntOf(bits[n..])]
  }

  lemma GroupOf(width: nat, bits: Bits)
    requires |bits| == width
    ensures BitsOf(IntOf(bits), width) == bits
  {
    BitsOfIntOf(bits);
  }

  lemma CutOnce(width: nat, groups: seq<int>, front: Bits, last: Bits)
    requires Spread(width, groups) == front && |last| == width
    ensures Spread(width, groups + [IntOf(last)]) == front + last
  {
    GroupOf(width, last);
    SpreadPush(width, groups, IntOf(last));
  }

  lemma CutLast(width: nat, m: nat, bits: Bits)
    requires m > 0 && |bits| == Total(width, m)
    ensures
      var n := Total(width, m - 1);
      && n + width == |bits| && bits == bits[..n] + bits[n..]
      && Cut(width, m, bits) == Cut(width, m - 1, bits[..n]) + [IntOf(bits[n..])]
  {
  }

  lemma {:induction false} SpreadCut(width: nat, m: nat, bits: Bits)
    requires |bits| == Total(width, m)
    ensures Spread(width, Cut(width, m, bits)) == bits
    decreases m
  {
    if m > 0 {
      var n := Total(width, m - 1);
      CutLast(width, m, bits);
      SpreadCut(width, m - 1, bits[..n]);
      CutOnce(width, Cut(width, m - 1, bits[..n]), bits[..n], bits[n..]);
    }
  }

  /** The number of words for `n` bytes. */
  function WordCount(n: nat): (m: nat)
    ensures 0 <= 5 * m - 8 * n < 5
  {
    (8 * n + 4) / 5
  }

  /** The bits of a byte string, filled up with zeros to whole words. */
  function Padded(bytes: Bytes): (bits: Bits)
    ensures |bits| == Total(5, WordCount(|bytes|))
  {
    SpreadLength(8, bytes);
    TotalIs(8, |bytes|);
    TotalIs(5, WordCount(|bytes|));
    Spread(8, bytes) + Zeros(5 * WordCount(|bytes|) - 8 * |bytes|)
  }

  /** The 8-to-5 direction: zeros up to a multiple of five, then cut. */
  function BytesToWords(bytes: Bytes): (words: seq<int>)
    ensures |words| == WordCount(|bytes|) && InRange(words)
  {
    Widths();
    Cut(5, WordCount(|bytes|), Padded(bytes))
  }

  /**
   * The conversion accepts exactly the zero-padded regroupings of byte strings, and returns
   * the byte string: a bijection between accepted word sequences and byte strings.
   */
  lemma RegroupsIsInverse(words: seq<int>, bytes: Bytes)
    ensures Regroups(words, bytes) <==> words == BytesToWords(bytes)
  {
    SpreadCut(5, WordCount(|bytes|), Padded(bytes));
    if Regroups(words, bytes) {
      assert |words| == WordCount(|bytes|);
      Widths();
      SpreadInjective(5, words, BytesToWords(bytes));
    }
  }

  /** Thirty-two five-bit words always make exactly twenty bytes, with nothing left over. */
  lemma ThirtyTwoWords(words: seq<int>)
    requires |words| == 32
    ensures InRange(words) <==> exists bytes :: Regroups(words, bytes)
    ensures forall bytes :: Regroups(words, bytes) ==> |bytes| == 20
  {
    if InRange(words) {
      Widths();
      var bits := Spread(5, words);
      SpreadLength(5, words);
      TotalIs(5, 32);
      TotalIs(8, 20);
      var bytes: Bytes := Cut(8, 20, bits);
      SpreadCut(8, 20, bits);
      assert bits == Spread(8, bytes) + Zeros(0);
      assert Regroups(words, bytes);
    }
  }

  // ----- Addresses -----

  /** The bech32 library: prefix and five-bit words of a string, or an exception. */
  type Decoder = string -> Option<(string, seq<int>)>

  datatype AddressError = InvalidAddress(address: string)

  function UpperChar(c: char): char {
    if 'a' <= c <= 'z' then ((c as int) - 32) as char else c
  }

  function ToUpper(s: string): string {
    seq(|s|, i requires 0 <= i < |s| => UpperChar(s[i]))
  }

  /** Length and case rules that come before decoding. */
  predicate WellShaped(address: string) {
    14 <= |address| <= 74 && (ToLower(address) == address || ToUpper(address) == address)
  }

  /** Letter case is refused exactly when it is mixed. */
  lemma ShapeDecides(address: string)
    ensures WellShaped(address) <==>
      && 14 <= |address| <= 74
      && !((exists c :: c in address && 'A' <= c <= 'Z') && (exists c :: c in address && 'a' <= c <= 'z'))
  {
    if ToLower(address) != address {
      var i :| 0 <= i < |address| && LowerChar(address[i]) != address[i];
      assert address[i] in address;
    }
    if ToUpper(address) != address {
      var j :| 0 <= j < |address| && UpperChar(address[j]) != address[j];
      assert address[j] in address;
    }
    if c :| c in address && 'A' <= c <= 'Z' {
      var i :| 0 <= i < |address| && address[i] == c;
      assert ToLower(address)[i] != address[i];
    }
    if c :| c in address && 'a' <= c <= 'z' {
      var i :| 0 <= i < |address| && address[i] == c;
      assert ToUpper(address)[i] != address[i];
    }
  }

  /** A bech32 string is its prefix, a separator, its words and six words of checksum. */
  ghost predicate SoundDecoder(decode: Decoder) {
    forall s :: decode(s).Some? ==> |s| == |decode(s).value.0| + |decode(s).value.1| + 7
  }

  /** The length test refuses nothing that decodes to a version-0 program under a prefix of up to 34 letters. */
  lemma LengthNeverDecides(decode: Decoder, address: string, hrp: string)
    requires SoundDecoder(decode) && |hrp| <= 34 && decode(ToLower(address)).Some?
    requires
      var (prefix, words) := decode(ToLower(address)).value;
      prefix == hrp && |words| == 33 && words[0] == 0 && InRange(words[1..])
    ensures 14 <= |address| <= 74
    ensures IsP2wpkh(decode, address, hrp) <==> ToLower(address) == address || ToUpper(address) == address
  {
  }

  /** A version-0 program of thirty-two five-bit words under the expected prefix. */
  predicate IsP2wpkh(decode: Decoder, address: string, hrp: string) {
    && WellShaped(address)
    && decode(ToLower(address)).Some?
    && var (prefix, words) := decode(ToLower(address)).value;
    && prefix == hrp && |words| == 33 && words[0] == 0 && InRange(words[1..])
  }

  /** BtcAddress::isValid: the 20-byte test at its end never rejects anything in-range words pass. */
  method IsValid(decode: Decoder, address: string, hrp: string) returns (valid: bool)
    ensures valid <==> IsP2wpkh(decode, address, hrp)
  {
    if |address| < 14 || |address| > 74 {
      return false;
    }
    if ToLower(address) != address && ToUpper(address) != address {
      return false;
    }
    var decoded := decode(ToLower(address));
    if decoded.None? {
      return false;
    }
    var (prefix, words) := decoded.value;
    if prefix != hrp || |words| != 33 || words[0] != 0 {
      return false;
    }
    var program := WordsToBytes(words[1..]);
    ThirtyTwoWords(words[1..]);
    valid := program.Some? && |program.value| == 20;
  }

  /** BtcAddress::toPubkeyHash. */
  method ToPubkeyHash(decode: Decoder, address: string, hrp: string) returns (r: Result<Bytes, AddressError>)
    ensures r.Ok? <==> IsP2wpkh(decode, address, hrp)
    ensures r.Ok? ==> |r.value| == 20 && Regroups(decode(ToLower(address)).value.1[1..], r.value)
    ensures r.Err? ==> r.error == InvalidAddress(address)
  {
    var valid := IsValid(decode, address, hrp);
    if !valid {
      return Err(InvalidAddress(address));
    }
    var (prefix, words) := decode(ToLower(address)).value;
    var program := WordsToBytes(words[1..]);
    ThirtyTwoWords(words[1..]);
    if program.None? || |program.value| != 20 {
      return Err(InvalidAddress(address));
    }
    return Ok(program.value);
  }

  /** BtcAddress::toScriptPubKey: the 22 bytes a payment output carries. */
  method ToScriptPubKey(decode: Decoder, address: string, hrp: string) returns (r: Result<Bytes, AddressError>)
    ensures r.Ok? <==> IsP2wpkh(decode, address, hrp)
    ensures r.Ok? ==> |r.value| == 22 && r.value[..2] == [0x00, 0x14]
    ensures r.Ok? ==> decode(ToLower(address)).value.1[1..] == BytesToWords(r.value[2..])
  {
    var hash := ToPubkeyHash(decode, address, hrp);
    if hash.Err? {
      return Err(hash.error);
    }
    r := Ok([0x00, 0x14] + hash.value);
    RegroupsIsInverse(decode(ToLower(address)).value.1[1..], hash.value);
    assert r.value[2..] == hash.value && r.value[..2] == [0x00, 0x14];
  }
}
