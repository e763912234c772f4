/**
 * The conversion of app/Payout/PriceOracle.php: a pipeline of truncating decimal operations
 * against one exact floor. A decimal of scale `s` is the integer it has times 10^s.
 */
module PriceOracle {
  import opened Common
  import Arith

  function Pow10(k: nat): (p: nat)
    ensures p > 0
  {
    if k == 0 then 1 else 10 * Pow10(k - 1)
  }

  /** Division truncating toward zero, as bcmath does. */
  function Trunc(n: int, d: int): int
    requires d > 0
  {
    if n >= 0 then n / d else -((-n) / d)
  }

  /** bcmul of decimals of scales `sx` and `sy`, truncated to scale `s`. */
  function BcMul(x: int, sx: nat, y: int, sy: nat, s: nat): int {
    if sx + sy >= s then Trunc(x * y, Pow10(sx + sy - s)) else x * y * Pow10(s - sx - sy)
  }

  /** bcdiv of decimals of scales `sx` and `sy`, truncated to scale `s`. */
  function BcDiv(x: int, sx: nat, y: int, sy: nat, s: nat): int
    requires y > 0
  {
    Trunc(x * Pow10(s + sy), y * Pow10(sx))
  }

  /** number_format to 18 places: the nearest multiple of 10^-18, halves away from zero. */
  function Format18(price: real): int {
    if price >= 0.0 then (price * 1000000000000000000.0 + 0.5).Floor
    else -(-price * 1000000000000000000.0 + 0.5).Floor
  }

  /** The amount in the target's smallest unit; the rate with 18 decimals. */
  datatype Conversion = Conversion(amount: int, rate: int)

  datatype OracleError = MissingPrice | DivisionByZero

  /** sat * 1e-8, times the BTC price, over the target price; 30 decimals after each step. */
  function TargetMain(sat: int, btc: int, target: int): int
    requires target > 0
  {
    var btcMain := BcDiv(sat, 0, 100000000, 0, 30);
    var usdValue := BcMul(btcMain, 30, btc, 18, 30);
    BcDiv(usdValue, 30, target, 18, 30)
  }

  /** The amount in the target's smallest unit, clamped at zero. */
  function StagedAmount(sat: int, btc: int, target: int, decimals: nat): int
    requires target > 0
  {
    Max(0, BcMul(TargetMain(sat, btc, target), 30, Pow10(decimals), 0, 0))
  }

  /** Satoshi per target main unit, with 18 decimals. */
  function StagedRate(btc: int, target: int): int
    requires btc > 0
  {
    BcMul(BcDiv(target, 18, btc, 18, 30), 30, 100000000, 0, 18)
  }

  /** PriceOracle::convertBtcSatToTarget; the prices are what the feed reports, if it does. */
  function Convert(sat: int, isBtc: bool, decimals: nat, btcUsd: Option<real>, targetUsd: Option<real>)
    : Result<Conversion, OracleError>
  {
    if isBtc then Ok(Conversion(sat, Pow10(18)))
    else
      var b := if btcUsd.Some? then btcUsd.value else 0.0;
      var t := if targetUsd.Some? then targetUsd.value else 0.0;
      if b <= 0.0 || t <= 0.0 then Err(MissingPrice)
      else if Format18(t) <= 0 || Format18(b) <= 0 then Err(DivisionByZero)
      else Ok(Conversion(StagedAmount(sat, Format18(b), Format18(t), decimals), StagedRate(Format18(b), Format18(t))))
  }

  /** x * 10^d over target * 10^s, rounded down once. */
  function Rounded(x: nat, target: nat, d: nat, s: nat): int
    requires target > 0
  {
    Arith.AtLeast(Pow10(s), target);
    x * Pow10(d) / (Pow10(s) * target)
  }

  /** The exact value: floor(sat * btc * 10^decimals / (10^8 * target)). */
  function ExactFloor(sat: nat, btc: nat, target: nat, decimals: nat): int
    requires target > 0
  {
    Rounded(sat * btc, target, decimals, 8)
  }

  /** The same quotient with a truncation by the price before the one by the power of ten. */
  function RoundedTwice(x: nat, target: nat, d: nat, s22: nat, s30: nat): int
    requires target > 0
  {
    x * Pow10(s22) / target * Pow10(d) / Pow10(s30)
  }

  // ----- Powers of ten -----

  lemma {:induction false} Pow10Add(a: nat, b: nat)
    ensures Pow10(a + b) == Pow10(a) * Pow10(b)
    decreases a
  {
    if a > 0 {
      Pow10Add(a - 1, b);
      Arith.Product3(10, Pow10(a - 1), Pow10(b));
    }
  }

  lemma HundredMillion()
    ensures Pow10(8) == 100000000
  {
  }

  lemma ExactDiv(x: int, d: int)
    requires d > 0
    ensures (x * d) / d == x
  {
    Arith.QuotientIs(x * d, d, x, 0);
  }

  lemma Swap(a: int, b: int, c: int)
    ensures a * b * c == a * c * b
  {
    Arith.Product3(a, b, c);
    Arith.Product3(a, c, b);
  }

  // ----- The stages -----

  /** sat * btc with 22 decimals: what the first two steps leave, times 10^18. */
  function Numerator(sat: nat, btc: nat): nat {
    sat * btc * Pow10(22)
  }

  lemma BtcMainStage(sat: nat)
    ensures BcDiv(sat, 0, 100000000, 0, 30) == sat * Pow10(22)
  {
    Pow10Add(22, 8);
    HundredMillion();
    Arith.Product3(sat, Pow10(22), Pow10(8));
    ExactDiv(sat * Pow10(22), 100000000);
  }

  /** The algebra of the second step, for any powers that fit together. */
  lemma UsdAlgebra(sat: nat, btc: nat, p4: nat, p18: nat, p22: nat)
    requires p18 > 0 && p22 == p4 * p18
    ensures Trunc(sat * p22 * btc, p18) == sat * btc * p4
  {
    Swap(sat, p22, btc);
    Arith.Product3(sat * btc, p4, p18);
    assert sat * p22 * btc == sat * btc * p4 * p18;
    ExactDiv(sat * btc * p4, p18);
  }

  lemma UsdStage(sat: nat, btc: nat)
    ensures BcMul(sat * Pow10(22), 30, btc, 18, 30) == sat * btc * Pow10(4)
  {
    Pow10Add(4, 18);
    UsdAlgebra(sat, btc, Pow10(4), Pow10(18), Pow10(22));
  }

  /** The algebra of the third step, for any scales that fit together. */
  lemma TargetAlgebra(x: nat, target: nat, s4: nat, s18: nat, s30: nat)
    requires target > 0
    ensures BcDiv(x * Pow10(s4), s30, target, s18, s30) == x * Pow10(s4 + s18) / target
  {
    var p4, p18, p30 := Pow10(s4), Pow10(s18), Pow10(s30);
    Pow10Add(s18, s30);
    Pow10Add(s4, s18);
    Arith.AtLeast(target, p30);
    Arith.Product3(x * p4, p18, p30);
    Arith.Product3(x, p4, p18);
    assert x * p4 * (p18 * p30) == x * (p4 * p18) * p30;
    Arith.DivCancel(x * (p4 * p18), target, p30);
  }

  lemma TargetStage(sat: nat, btc: nat, target: nat)
    requires target > 0
    ensures BcDiv(sat * btc * Pow10(4), 30, target, 18, 30) == Numerator(sat, btc) / target
  {
    TargetAlgebra(sat * btc, target, 4, 18, 30);
  }

  lemma TargetMainIs(sat: nat, btc: nat, target: nat)
    requires target > 0
    ensures TargetMain(sat, btc, target) == Numerator(sat, btc) / target >= 0
  {
    BtcMainStage(sat);
    UsdStage(sat, btc);
    TargetStage(sat, btc, target);
    Arith.DivMono(0, Numerator(sat, btc), target);
  }

  /** The staged amount: one truncation by the price, one by the power of ten. */
  lemma StagedIs(sat: nat, btc: nat, target: nat, decimals: nat)
    requires target > 0
    ensures StagedAmount(sat, btc, target, decimals) == RoundedTwice(sat * btc, target, decimals, 22, 30)
  {
    TargetMainIs(sat, btc, target);
    var main := TargetMain(sat, btc, target);
    Arith.MulMono(0, main, Pow10(decimals));
    Arith.DivMono(0, main * Pow10(decimals), Pow10(30));
  }

  // ----- One floor -----

  lemma OneFloorAlgebra(x: nat, target: nat, p22: nat, p8: nat, pd: nat, pe: nat)
    requires target > 0 && p22 > 0 && p8 > 0 && pd > 0 && pe > 0 && pe * pd == p22 * p8
    ensures p8 * target > 0 && x * p22 / target * pd / (pe * pd) == x * pd / (p8 * target)
  {
    var n := x * p22;
    Arith.DivCancel(n / target, pe, pd);
    Arith.DivDiv(n, target, pe);
    Arith.AtLeast(p8, target);
    Swap(x, p22, pd);
    Arith.Product3(target, pe, pd);
    Swap(p8, target, p22);
    Arith.Product3(target, p22, p8);
    Arith.SameQuotient(n, target * pe, x * pd, p8 * target, pd, p22);
  }

  /** Up to `s22 + s8` decimals the two truncations are one. */
  lemma OneFloor(x: nat, target: nat, d: nat, s22: nat, s8: nat, s30: nat)
    requires target > 0 && d <= s30 == s22 + s8
    ensures RoundedTwice(x, target, d, s22, s30) == Rounded(x, target, d, s8)
  {
    Pow10Add(s30 - d, d);
    Pow10Add(s22, s8);
    OneFloorAlgebra(x, target, Pow10(s22), Pow10(s8), Pow10(d), Pow10(s30 - d));
  }

  lemma EarlyFloorAlgebra(x: nat, target: nat, p22: nat, p8: nat, px: nat)
    requires target > 0 && p22 > 0 && p8 > 0 && px > 0
    ensures p22 * p8 > 0 && p8 * target > 0
    ensures x * p22 / target * (px * (p22 * p8)) / (p22 * p8) == x * p22 / target * px
    ensures x * (px * (p22 * p8)) / (p8 * target) == x * p22 * px / target
  {
    var n := x * p22;
    Arith.AtLeast(p22, p8);
    Arith.AtLeast(p8, target);
    Arith.Product3(n / target, px, p22 * p8);
    ExactDiv(n / target * px, p22 * p8);
    Arith.Product3(x, px, p22 * p8);
    Arith.Product3(x * px, p22, p8);
    Swap(x, px, p22);
    Arith.SameQuotient(x * (px * (p22 * p8)), p8 * target, n * px, target, 1, p8);
  }

  /** Beyond that the first truncation comes too early, and costs the scaled remainder. */
  lemma EarlyFloor(x: nat, target: nat, d: nat, s22: nat, s8: nat, s30: nat)
    requires target > 0 && d > s30 == s22 + s8
    ensures RoundedTwice(x, target, d, s22, s30) <= Rounded(x, target, d, s8)
    ensures RoundedTwice(x, target, d, s22, s30) == Rounded(x, target, d, s8)
        <==> x * Pow10(s22) % target * Pow10(d - s30) < target
  {
    var n, k := x * Pow10(s22), Pow10(d - s30);
    Pow10Add(d - s30, s30);
    Pow10Add(s22, s8);
    EarlyFloorAlgebra(x, target, Pow10(s22), Pow10(s8), k);
    Arith.FloorThenScale(n, target, k);
    Arith.Division(n, target);
    Arith.MulMono(0, n % target, k);
    Arith.DivMono(0, n % target * k, target);
  }

  /**
   * For currencies of at most 30 decimals the staged truncations lose nothing: the amount
   * is the exact value rounded down once.
   */
  lemma StagedIsExact(sat: nat, btc: nat, target: nat, decimals: nat)
    requires target > 0 && decimals <= 30
    ensures StagedAmount(sat, btc, target, decimals) == ExactFloor(sat, btc, target, decimals)
  {
    StagedIs(sat, btc, target, decimals);
    OneFloor(sat * btc, target, decimals, 22, 8, 30);
  }

  /** With more decimals, exactness depends on the remainder the price division drops. */
  lemma StagedIsExactIff(sat: nat, btc: nat, target: nat, decimals: nat)
    requires target > 0 && decimals > 30
    ensures StagedAmount(sat, btc, target, decimals) == ExactFloor(sat, btc, target, decimals)
        <==> sat * btc * Pow10(22) % target * Pow10(decimals - 30) < target
    ensures StagedAmount(sat, btc, target, decimals) <= ExactFloor(sat, btc, target, decimals)
  {
    StagedIs(sat, btc, target, decimals);
    EarlyFloor(sat * btc, target, decimals, 22, 8, 30);
  }

  lemma LargeRemainder(p: nat, k: nat)
    requires p >= 1 && k >= 2
    ensures p * k >= p + 1
  {
  }

  /** Every number of decimals above 30 has a price at which one satoshi loses value. */
  lemma ManyDecimalsLose(decimals: nat, one: nat, target: nat)
    requires decimals > 30 && one == 1 && target == Pow10(22) + 1
    ensures StagedAmount(one, one, target, decimals) != ExactFloor(one, one, target, decimals)
  {
    StagedIsExactIff(one, one, target, decimals);
    var p, k := Pow10(22), Pow10(decimals - 30);
    assert one * one * p == p;
    Arith.QuotientIs(p, target, 0, p);
    LargeRemainder(p, k);
  }

  /** The conversion is the exact floor at all prices exactly up to 30 decimals. */
  lemma ExactUpToThirtyDecimals(decimals: nat)
    ensures (forall sat: nat, btc: nat, target: nat :: target > 0 ==>
        StagedAmount(sat, btc, target, decimals) == ExactFloor(sat, btc, target, decimals))
      <==> decimals <= 30
  {
    if decimals <= 30 {
      forall sat: nat, btc: nat, target: nat | target > 0
        ensures StagedAmount(sat, btc, target, decimals) == ExactFloor(sat, btc, target, decimals)
      {
        StagedIsExact(sat, btc, target, decimals);
      }
    } else {
      ManyDecimalsLose(decimals, 1, Pow10(22) + 1);
    }
  }

  lemma StagedAtMostExact(sat: nat, btc: nat, target: nat, decimals: nat)
    requires target > 0
    ensures StagedAmount(sat, btc, target, decimals) <= ExactFloor(sat, btc, target, decimals)
  {
    if decimals <= 30 { StagedIsExact(sat, btc, target, decimals); }
    else { StagedIsExactIff(sat, btc, target, decimals); }
  }

  /** The user is never overpaid, whatever the currency's decimals. */
  lemma NeverOverpays(sat: nat, btc: nat, target: nat, decimals: nat)
    requires target > 0
    ensures StagedAmount(sat, btc, target, decimals) * (Pow10(8) * target) <= sat * btc * Pow10(decimals)
  {
    StagedAtMostExact(sat, btc, target, decimals);
    RoundedBelow(sat * btc, target, decimals, 8, StagedAmount(sat, btc, target, decimals));
  }

  lemma RoundedBelow(x: nat, target: nat, d: nat, s: nat, v: int)
    requires target > 0 && v <= Rounded(x, target, d, s)
    ensures v * (Pow10(s) * target) <= x * Pow10(d)
  {
    var n, q := x * Pow10(d), Pow10(s) * target;
    Arith.AtLeast(Pow10(s), target);
    Arith.Division(n, q);
    Arith.MulMono(v, n / q, q);
  }

  lemma TruncSign(n: int, d: int)
    requires d > 0 && n <= 0
    ensures Trunc(n, d) <= 0
  {
    Arith.DivMono(0, -n, d);
  }

  lemma BcSigns(x: int, sx: nat, y: nat, sy: nat, s: nat)
    requires x <= 0
    ensures BcMul(x, sx, y, sy, s) <= 0
    ensures y > 0 ==> BcDiv(x, sx, y, sy, s) <= 0
  {
    Arith.MulMono(x, 0, y);
    if sx + sy >= s { TruncSign(x * y, Pow10(sx + sy - s)); } else { Arith.MulMono(x * y, 0, Pow10(s - sx - sy)); }
    Arith.MulMono(x, 0, Pow10(s + sy));
    if y > 0 {
      Arith.AtLeast(y, Pow10(sx));
      TruncSign(x * Pow10(s + sy), y * Pow10(sx));
    }
  }

  /** A negative request converts to nothing. */
  lemma NegativeIsZero(sat: int, btc: nat, target: nat, decimals: nat)
    requires target > 0 && sat <= 0
    ensures StagedAmount(sat, btc, target, decimals) == 0
  {
    BcSigns(sat, 0, 100000000, 0, 30);
    var m := BcDiv(sat, 0, 100000000, 0, 30);
    BcSigns(m, 30, btc, 18, 30);
    var u := BcMul(m, 30, btc, 18, 30);
    BcSigns(u, 30, target, 18, 30);
    BcSigns(TargetMain(sat, btc, target), 30, Pow10(decimals), 0, 0);
  }

  lemma RoundedTwiceMonotone(x: nat, y: nat, target: nat, d: nat, s22: nat, s30: nat)
    requires target > 0 && x <= y
    ensures RoundedTwice(x, target, d, s22, s30) <= RoundedTwice(y, target, d, s22, s30)
  {
    var p := Pow10(s22);
    Arith.MulMono(x, y, p);
    Arith.DivMono(x * p, y * p, target);
    Arith.MulMono(x * p / target, y * p / target, Pow10(d));
    Arith.DivMono(x * p / target * Pow10(d), y * p / target * Pow10(d), Pow10(s30));
  }

  lemma RoundedTwiceSuperadditive(x: nat, y: nat, target: nat, d: nat, s22: nat, s30: nat)
    requires target > 0
    ensures RoundedTwice(x, target, d, s22, s30) + RoundedTwice(y, target, d, s22, s30)
         <= RoundedTwice(x + y, target, d, s22, s30)
  {
    var p, q := Pow10(s22), Pow10(d);
    Arith.DistributeRight(x, y, p);
    Arith.DivSuperadditive(x * p, y * p, target);
    var u, v, w := x * p / target, y * p / target, (x + y) * p / target;
    Arith.DistributeRight(u, v, q);
    Arith.MulMono(u + v, w, q);
    Arith.DivSuperadditive(u * q, v * q, Pow10(s30));
    Arith.DivMono((u + v) * q, w * q, Pow10(s30));
  }

  /** More satoshi never convert to less, whatever the currency's decimals. */
  lemma AmountIsMonotone(a: int, b: int, btc: nat, target: nat, decimals: nat)
    requires target > 0 && a <= b
    ensures 0 <= StagedAmount(a, btc, target, decimals) <= StagedAmount(b, btc, target, decimals)
  {
    if a <= 0 {
      NegativeIsZero(a, btc, target, decimals);
    } else {
      StagedIs(a, btc, target, decimals);
      StagedIs(b, btc, target, decimals);
      Arith.MulMono(a, b, btc);
      Arith.MulMono(0, a, btc);
      RoundedTwiceMonotone(a * btc, b * btc, target, decimals, 22, 30);
    }
  }

  /** Splitting a withdrawal never pays more than making it at once. */
  lemma SplittingNeverPays(a: nat, b: nat, btc: nat, target: nat, decimals: nat)
    requires target > 0
    ensures StagedAmount(a, btc, target, decimals) + StagedAmount(b, btc, target, decimals)
         <= StagedAmount(a + b, btc, target, decimals)
  {
    StagedIs(a, btc, target, decimals);
    StagedIs(b, btc, target, decimals);
    StagedIs(a + b, btc, target, decimals);
    Arith.DistributeRight(a, b, btc);
    RoundedTwiceSuperadditive(a * btc, b * btc, target, decimals, 22, 30);
  }

  // ----- The stored rate -----

  /** The rate in one quotient. */
  function Rate(btc: nat, target: nat, s26: nat): int
    requires btc > 0
  {
    target * Pow10(s26) / btc
  }

  lemma PriceRatio(btc: nat, target: nat, s18: nat, s30: nat)
    requires btc > 0
    ensures BcDiv(target, s18, btc, s18, s30) == Rate(btc, target, s30) >= 0
  {
    Pow10Add(s30, s18);
    Arith.Product3(target, Pow10(s30), Pow10(s18));
    Arith.AtLeast(btc, Pow10(s18));
    Arith.DivCancel(target * Pow10(s30), btc, Pow10(s18));
    Arith.DivMono(0, target * Pow10(s30), btc);
  }

  lemma InSatoshi(m: nat, f: nat, s8: nat, s4: nat, s18: nat, s30: nat)
    requires f == Pow10(s8) && s30 == s18 + s4 + s8
    ensures BcMul(m, s30, f, 0, s18) == m / Pow10(s4)
  {
    Pow10Add(s4, s8);
    Arith.DivCancel(m, Pow10(s4), Pow10(s8));
  }

  lemma RateDigits(btc: nat, target: nat, s4: nat, s26: nat, s30: nat)
    requires btc > 0 && s30 == s26 + s4
    ensures Rate(btc, target, s30) / Pow10(s4) == Rate(btc, target, s26)
  {
    Pow10Add(s26, s4);
    var n := target * Pow10(s26);
    Arith.Product3(target, Pow10(s26), Pow10(s4));
    Arith.DivDiv(n * Pow10(s4), btc, Pow10(s4));
    Arith.DivCancel(n, btc, Pow10(s4));
  }

  /** Two truncations, one floor: the rate is floor(10^26 * target / btc). */
  lemma RateIsExact(btc: nat, target: nat)
    requires btc > 0
    ensures StagedRate(btc, target) == Rate(btc, target, 26)
  {
    HundredMillion();
    PriceRatio(btc, target, 18, 30);
    InSatoshi(Rate(btc, target, 30), 100000000, 8, 4, 18, 30);
    RateDigits(btc, target, 4, 26, 30);
  }

  lemma ProductBounds(a: int, r: int, num: nat, den: nat, t: nat, p26: nat, b: nat)
    requires den > 0 && b > 0
    requires a == num / den && r == t * p26 / b
    ensures a * r * (den * b) <= num * (t * p26) < (a + 1) * (r + 1) * (den * b)
  {
    Arith.Division(num, den);
    Arith.Division(t * p26, b);
    Arith.DivMono(0, num, den);
    Arith.DivMono(0, t * p26, b);
    Regroup(a, r, den, b);
    Regroup(a + 1, r + 1, den, b);
    Arith.Distribute(den, a, 1);
    Arith.Distribute(b, r, 1);
    Arith.MulMono(0, a, den);
    Arith.MulMono(0, r, b);
    LessTimesLess(den * a, num, b * r, t * p26);
    StrictTimesStrict(num, den * (a + 1), t * p26, b * (r + 1));
  }

  lemma Regroup(a: int, r: int, d: int, b: int)
    ensures a * r * (d * b) == (d * a) * (b * r)
  {
    Arith.Product3(a * r, d, b);
    Swap(a, r, d);
    Arith.Product3(d * a, r, b);
  }

  lemma LessTimesLess(a: nat, b: nat, c: nat, d: nat)
    requires a <= b && c <= d
    ensures a * c <= b * d
  {
    Arith.MulMono(a, b, c);
    Arith.MulMono(c, d, b);
  }

  lemma StrictTimesStrict(a: nat, b: nat, c: nat, d: nat)
    requires a < b && c < d
    ensures a * c < b * d
  {
    Arith.MulMono(a, b, c);
    Arith.Distribute(b, d, c);
    Arith.AtLeast(b, d - c);
  }

  /** Cancelling the prices from both bounds. */
  lemma CancelPrices(ar: int, a1r1: int, sat: nat, btc: nat, target: nat, pd: nat, p8: nat, p26: nat, p18: nat)
    requires btc > 0 && target > 0 && p8 > 0 && p26 == p18 * p8
    requires ar * (p8 * target * btc) <= sat * btc * pd * (target * p26) < a1r1 * (p8 * target * btc)
    ensures ar <= sat * (p18 * pd) < a1r1
  {
    var k := p8 * target * btc;
    Arith.AtLeast(p8, target);
    Arith.AtLeast(p8 * target, btc);
    SameProduct(sat, btc, target, pd, p8, p18);
    var m := sat * (p18 * pd);
    assert sat * btc * pd * (target * p26) == m * k;
    if ar > m { Arith.MulMono(m + 1, ar, k); Arith.DistributeRight(m, 1, k); }
    if a1r1 <= m { Arith.MulMono(a1r1, m, k); }
  }

  lemma SameProduct(sat: nat, btc: nat, target: nat, pd: nat, p8: nat, p18: nat)
    ensures sat * btc * pd * (target * (p18 * p8)) == sat * (p18 * pd) * (p8 * target * btc)
  {
    // left: ((sat * btc) * pd) * (target * (p18 * p8))
    Swap(sat, btc, pd);
    var sp := sat * pd;
    assert sat * btc * pd == sp * btc;
    Arith.Product3(sp, btc, target * (p18 * p8));
    Arith.Product3(target, p18, p8);
    Swap(target, p18, p8);
    var t8 := target * p8;
    assert target * (p18 * p8) == t8 * p18;
    Arith.Product3(btc, t8, p18);
    var k := p8 * target * btc;
    assert btc * t8 == k;
    assert btc * (target * (p18 * p8)) == k * p18;
    Arith.Product3(sp, k, p18);
    Swap(sp, k, p18);
    Swap(sat, pd, p18);
    Arith.Product3(sat, p18, pd);
  }

  /**
   * The stored rate reproduces the debit: amount and rate multiply back to the satoshi
   * debited, from below, and one more unit and one more rate step overshoot it.
   */
  lemma RateReproducesDebit(sat: nat, btc: nat, target: nat, decimals: nat)
    requires btc > 0 && target > 0 && decimals <= 30
    ensures
      var a, r := StagedAmount(sat, btc, target, decimals), StagedRate(btc, target);
      a * r <= sat * (Pow10(18) * Pow10(decimals)) < (a + 1) * (r + 1)
  {
    StagedIsExact(sat, btc, target, decimals);
    RateIsExact(btc, target);
    Debit(sat, btc, target, decimals, 8, 18, 26);
  }

  lemma Debit(sat: nat, btc: nat, target: nat, d: nat, s8: nat, s18: nat, s26: nat)
    requires btc > 0 && target > 0 && s26 == s18 + s8
    ensures
      var a, r := Rounded(sat * btc, target, d, s8), Rate(btc, target, s26);
      a * r <= sat * (Pow10(s18) * Pow10(d)) < (a + 1) * (r + 1)
  {
    var a, r := Rounded(sat * btc, target, d, s8), Rate(btc, target, s26);
    Arith.AtLeast(Pow10(s8), target);
    Pow10Add(s18, s8);
    ProductBounds(a, r, sat * btc * Pow10(d), Pow10(s8) * target, target, Pow10(s26), btc);
    CancelPrices(a * r, (a + 1) * (r + 1), sat, btc, target, Pow10(d), Pow10(s8), Pow10(s26), Pow10(s18));
  }

  /** The lower half holds for any decimals: the staged amount is at most the exact one. */
  lemma DebitNeverExceeded(sat: nat, btc: nat, target: nat, decimals: nat)
    requires btc > 0 && target > 0
    ensures StagedAmount(sat, btc, target, decimals) * StagedRate(btc, target) <= sat * (Pow10(18) * Pow10(decimals))
  {
    StagedAtMostExact(sat, btc, target, decimals);
    RateIsExact(btc, target);
    Arith.DivMono(0, target * Pow10(26), btc);
    Arith.MulMono(StagedAmount(sat, btc, target, decimals), ExactFloor(sat, btc, target, decimals),
      Rate(btc, target, 26));
    Debit(sat, btc, target, decimals, 8, 18, 26);
  }

  /** A refund recomputed from amount and rate never exceeds what was debited. */
  lemma RecomputedRefundIsSafe(sat: nat, btc: nat, target: nat, decimals: nat)
    requires btc > 0 && target > 0
    ensures Pow10(18) * Pow10(decimals) > 0
    ensures StagedAmount(sat, btc, target, decimals) * StagedRate(btc, target) / (Pow10(18) * Pow10(decimals)) <= sat
  {
    DebitNeverExceeded(sat, btc, target, decimals);
    var scale := Pow10(18) * Pow10(decimals);
    Arith.AtLeast(Pow10(18), Pow10(decimals));
    Arith.DivMono(StagedAmount(sat, btc, target, decimals) * StagedRate(btc, target), sat * scale, scale);
    ExactDiv(sat, scale);
  }

  // ----- The BTC shortcut -----

  /** For BTC itself the shortcut pays what the general formula would pay at any price. */
  lemma IdentityShortcut(sat: nat, price: nat)
    requires price > 0
    ensures StagedAmount(sat, price, price, 8) == sat
  {
    StagedIsExact(sat, price, price, 8);
    SamePrice(sat, price, 8);
  }

  /**
   * The rate the shortcut stores is per satoshi: the general formula's rate for equal
   * prices is per whole coin, 10^8 times larger.
   */
  lemma ShortcutRateIsPerSatoshi(sat: int, decimals: nat, price: nat)
    requires price > 0
    ensures Convert(sat, true, decimals, None, None) == Ok(Conversion(sat, Pow10(18)))
    ensures StagedRate(price, price) == Pow10(18) * Pow10(8)
  {
    RateIsExact(price, price);
    ExactDiv(Pow10(26), price);
    Pow10Add(18, 8);
  }

  lemma SamePrice(sat: nat, price: nat, s: nat)
    requires price > 0
    ensures Rounded(sat * price, price, s, s) == sat
  {
    var p := Pow10(s);
    Arith.AtLeast(p, price);
    Arith.Product3(sat, price, p);
    ExactDiv(sat, p * price);
  }

  /** Formatting rounds to the nearest of the 18 decimals, halves away from zero. */
  lemma FormatIsNearest(price: real)
    ensures
      var scaled, formatted := price * 1000000000000000000.0, Format18(price) as real;
      && -0.5 <= formatted - scaled <= 0.5
      && (formatted - scaled == 0.5 ==> price > 0.0) && (formatted - scaled == -0.5 ==> price < 0.0)
  {
  }

  /** The feed reports the price, and rounding to eighteen decimals leaves something of it. */
  predicate Usable(price: Option<real>): (usable: bool)
    ensures usable ==> price.Some? && Format18(price.value) > 0
  {
    price.Some? && price.value * 1000000000000000000.0 >= 0.5
  }

  /**
   * The conversion succeeds exactly when both prices are usable, and is then the exact floor
   * and rate; a missing price is told from one that is positive and rounds to zero, which
   * ends in a division by zero.
   */
  lemma ConvertSucceedsIff(sat: int, decimals: nat, btcUsd: Option<real>, targetUsd: Option<real>)
    ensures
      var converted := Convert(sat, false, decimals, btcUsd, targetUsd);
      && (converted.Ok? <==> Usable(btcUsd) && Usable(targetUsd))
      && (converted == Err(MissingPrice) <==>
            btcUsd.None? || targetUsd.None? || btcUsd.value <= 0.0 || targetUsd.value <= 0.0)
      && (converted.Ok? && sat >= 0 && decimals <= 30 ==>
            var b, t := Format18(btcUsd.value), Format18(targetUsd.value);
            converted.value == Conversion(ExactFloor(sat, b, t, decimals), Rate(b, t, 26)))
  {
    if Usable(btcUsd) && Usable(targetUsd) {
      var b, t := Format18(btcUsd.value), Format18(targetUsd.value);
      if sat >= 0 && decimals <= 30 { StagedIsExact(sat, b, t, decimals); }
      RateIsExact(b, t);
    }
  }
}
