/**
 * The largest-first selector of app/Payout/Btc/BtcUtxoSelector.php: when it succeeds, what
 * it returns, and that no choice of outputs does with fewer inputs.
 */
module UtxoSelector {
  import opened Common

  const VBYTES_INPUT := 68
  const VBYTES_OUTPUT := 31
  const VBYTES_OVERHEAD := 11
  const DUST_LIMIT := 294

  /** One row of the wallet's unspent outputs. */
  datatype Utxo = Utxo(txid: string, vout: int, value: int, confirmed: bool)

  datatype Selection = Selection(inputs: seq<Utxo>, change: int, fee: int)

  datatype SelectError = InsufficientFunds(have: int, need: int)

  function EstimateFee(inputCount: int, outputCount: int, feeRate: int): int {
    (VBYTES_OVERHEAD + inputCount * VBYTES_INPUT + outputCount * VBYTES_OUTPUT) * feeRate
  }

  // ----- Filtering and sorting -----

  predicate Eligible(u: Utxo) {
    u.confirmed && u.value > 0
  }

  function Confirmed(utxos: seq<Utxo>): seq<Utxo> {
    if utxos == [] then []
    else if Eligible(utxos[0]) then [utxos[0]] + Confirmed(utxos[1..])
    else Confirmed(utxos[1..])
  }

  predicate Descending(s: seq<Utxo>) {
    |s| <= 1 || (s[0].value >= s[1].value && Descending(s[1..]))
  }

  function Insert(u: Utxo, s: seq<Utxo>): seq<Utxo> {
    if s == [] || u.value >= s[0].value then [u] + s else [s[0]] + Insert(u, s[1..])
  }

  /** usort by value, largest first; equal values keep their order. */
  function Sort(s: seq<Utxo>): seq<Utxo> {
    if s == [] then [] else Insert(s[0], Sort(s[1..]))
  }

  function Total(s: seq<Utxo>): int {
    if s == [] then 0 else Total(s[..|s| - 1]) + s[|s| - 1].value
  }

  // ----- The selector -----

  /** The two tests of the loop, in order: with a change output, then without. */
  function Shape(inputs: seq<Utxo>, amount: int, feeRate: int): Option<Selection> {
    var sum := Total(inputs);
    var feeOneOut := EstimateFee(|inputs|, 1, feeRate);
    var feeTwoOut := EstimateFee(|inputs|, 2, feeRate);
    if sum >= amount + feeTwoOut + DUST_LIMIT then Some(Selection(inputs, sum - amount - feeTwoOut, feeTwoOut))
    else if sum >= amount + feeOneOut then Some(Selection(inputs, 0, sum - amount))
    else None
  }

  /** The candidates in the order the loop takes them. */
  function Candidates(utxos: seq<Utxo>): seq<Utxo> {
    Sort(Confirmed(utxos))
  }

  /** The shortest prefix of the candidates that pays, or the shortfall when none does. */
  ghost predicate FirstPayingPrefix(utxos: seq<Utxo>, amount: int, feeRate: int, r: Result<Selection, SelectError>) {
    var sorted := Candidates(utxos);
    match r
    case Ok(selection) =>
      var k := |selection.inputs|;
      && 1 <= k <= |sorted| && Shape(sorted[..k], amount, feeRate) == Some(selection)
      && forall j :: 1 <= j < k ==> Shape(sorted[..j], amount, feeRate).None?
    case Err(error) =>
      && (forall j :: 1 <= j <= |sorted| ==> Shape(sorted[..j], amount, feeRate).None?)
      && error == InsufficientFunds(Total(sorted), amount + EstimateFee(|sorted|, 2, feeRate))
  }

  /** BtcUtxoSelector::select. */
  method Select(utxos: seq<Utxo>, amount: int, feeRate: int) returns (r: Result<Selection, SelectError>)
    ensures FirstPayingPrefix(utxos, amount, feeRate, r)
  {
    var confirmed := Candidates(utxos);
    var selected: seq<Utxo> := [];
    var sum := 0;
    var i := 0;
    while i < |confirmed|
      invariant i <= |confirmed| && selected == confirmed[..i] && sum == Total(selected)
      invariant forall j :: 1 <= j <= i ==> Shape(confirmed[..j], amount, feeRate).None?
    {
      assert confirmed[..i + 1][..i] == confirmed[..i];
      selected := selected + [confirmed[i]];
      sum := sum + confirmed[i].value;
      assert selected == confirmed[..i + 1];
      var feeOneOut := EstimateFee(|selected|, 1, feeRate);
      var feeTwoOut := EstimateFee(|selected|, 2, feeRate);
      if sum >= amount + feeTwoOut + DUST_LIMIT {
        return Ok(Selection(selected, sum - amount - feeTwoOut, feeTwoOut));
      }
      if sum >= amount + feeOneOut {
        return Ok(Selection(selected, 0, sum - amount));
      }
      i := i + 1;
    }
    assert selected == confirmed;
    return Err(InsufficientFunds(sum, amount + EstimateFee(|selected|, 2, feeRate)));
  }

  // ----- Choices of outputs -----

  /** A subset of a list, as one flag per element. */
  type Choice = seq<bool>

  function ChosenSum(s: seq<Utxo>, c: Choice): int
    requires |c| == |s|
  {
    if s == [] then 0 else (if c[0] then s[0].value else 0) + ChosenSum(s[1..], c[1..])
  }

  function ChosenCount(s: seq<Utxo>, c: Choice): nat
    requires |c| == |s|
  {
    if s == [] then 0 else (if c[0] then 1 else 0) + ChosenCount(s[1..], c[1..])
  }

  /** The choice takes confirmed, positive outputs only. */
  predicate OnlyEligible(s: seq<Utxo>, c: Choice)
    requires |c| == |s|
  {
    forall i :: 0 <= i < |s| && c[i] ==> s[i].confirmed && s[i].value >= 1
  }

  /** Enough for the amount and the fee of a transaction with `count` inputs. */
  predicate Pays(sum: int, count: int, amount: int, feeRate: int) {
    sum >= amount + EstimateFee(count, 1, feeRate)
  }

  predicate PaysWith(utxos: seq<Utxo>, c: Choice, count: nat, amount: int, feeRate: int) {
    && |c| == |utxos| && OnlyEligible(utxos, c)
    && ChosenCount(utxos, c) == count && Pays(ChosenSum(utxos, c), count, amount, feeRate)
  }

  /** Some non-empty choice of `count` eligible outputs pays. */
  ghost predicate CanPayWith(utxos: seq<Utxo>, count: nat, amount: int, feeRate: int) {
    count > 0 && exists c: Choice :: PaysWith(utxos, c, count, amount, feeRate)
  }

  // ----- A choice survives filtering and sorting, in both directions -----

  lemma {:induction false} ThroughFilter(s: seq<Utxo>, c: Choice) returns (d: Choice)
    requires |c| == |s| && OnlyEligible(s, c)
    ensures |d| == |Confirmed(s)|
    ensures ChosenSum(Confirmed(s), d) == ChosenSum(s, c) && ChosenCount(Confirmed(s), d) == ChosenCount(s, c)
  {
    if s == [] {
      d := [];
    } else {
      var rest := ThroughFilter(s[1..], c[1..]);
      if Eligible(s[0]) {
        d := [c[0]] + rest;
        assert Confirmed(s)[1..] == Confirmed(s[1..]) && d[1..] == rest;
      } else {
        d := rest;
      }
    }
  }

  lemma {:induction false} BackThroughFilter(s: seq<Utxo>, d: Choice) returns (c: Choice)
    requires |d| == |Confirmed(s)|
    ensures |c| == |s| && OnlyEligible(s, c)
    ensures ChosenSum(s, c) == ChosenSum(Confirmed(s), d) && ChosenCount(s, c) == ChosenCount(Confirmed(s), d)
  {
    if s == [] {
      c := [];
    } else if Eligible(s[0]) {
      assert Confirmed(s)[1..] == Confirmed(s[1..]);
      var rest := BackThroughFilter(s[1..], d[1..]);
      c := [d[0]] + rest;
      assert c[1..] == rest;
    } else {
      var rest := BackThroughFilter(s[1..], d);
      c := [false] + rest;
      assert c[1..] == rest;
    }
  }

  lemma {:induction false} ThroughInsert(u: Utxo, s: seq<Utxo>, take: bool, c: Choice) returns (d: Choice)
    requires |c| == |s|
    ensures |d| == |Insert(u, s)|
    ensures ChosenSum(Insert(u, s), d) == (if take then u.value else 0) + ChosenSum(s, c)
    ensures ChosenCount(Insert(u, s), d) == (if take then 1 else 0) + ChosenCount(s, c)
  {
    if s == [] || u.value >= s[0].value {
      d := [take] + c;
      assert d[1..] == c && Insert(u, s)[1..] == s;
    } else {
      var rest := ThroughInsert(u, s[1..], take, c[1..]);
      d := [c[0]] + rest;
      assert d[1..] == rest && Insert(u, s)[1..] == Insert(u, s[1..]);
    }
  }

  lemma {:induction false} BackThroughInsert(u: Utxo, s: seq<Utxo>, d: Choice) returns (take: bool, c: Choice)
    requires |d| == |Insert(u, s)|
    ensures |c| == |s|
    ensures ChosenSum(Insert(u, s), d) == (if take then u.value else 0) + ChosenSum(s, c)
    ensures ChosenCount(Insert(u, s), d) == (if take then 1 else 0) + ChosenCount(s, c)
  {
    if s == [] || u.value >= s[0].value {
      assert Insert(u, s)[1..] == s;
      take, c := d[0], d[1..];
    } else {
      assert Insert(u, s)[1..] == Insert(u, s[1..]);
      var t, rest := BackThroughInsert(u, s[1..], d[1..]);
      take, c := t, [d[0]] + rest;
      assert c[1..] == rest;
    }
  }

  lemma {:induction false} ThroughSort(s: seq<Utxo>, c: Choice) returns (d: Choice)
    requires |c| == |s|
    ensures |d| == |Sort(s)| && ChosenSum(Sort(s), d) == ChosenSum(s, c) && ChosenCount(Sort(s), d) == ChosenCount(s, c)
  {
    if s == [] {
      d := [];
    } else {
      var rest := ThroughSort(s[1..], c[1..]);
      d := ThroughInsert(s[0], Sort(s[1..]), c[0], rest);
    }
  }

  lemma {:induction false} BackThroughSort(s: seq<Utxo>, d: Choice) returns (c: Choice)
    requires |d| == |Sort(s)|
    ensures |c| == |s| && ChosenSum(s, c) == ChosenSum(Sort(s), d) && ChosenCount(s, c) == ChosenCount(Sort(s), d)
  {
    if s == [] {
      c := [];
    } else {
      var take, rest := BackThroughInsert(s[0], Sort(s[1..]), d);
      var front := BackThroughSort(s[1..], rest);
      c := [take] + front;
      assert c[1..] == front;
    }
  }

  // ----- The largest come first -----

  lemma {:induction false} InsertKeepsOrder(u: Utxo, s: seq<Utxo>)
    requires Descending(s)
    ensures Descending(Insert(u, s)) && Insert(u, s) != []
    ensures Insert(u, s)[0] == u || (s != [] && Insert(u, s)[0] == s[0] && s[0].value >= u.value)
  {
    if s == [] || u.value >= s[0].value {
      assert ([u] + s)[1..] == s;
    } else {
      InsertKeepsOrder(u, s[1..]);
      assert Insert(u, s)[1..] == Insert(u, s[1..]);
    }
  }

  lemma {:induction false} SortDescends(s: seq<Utxo>)
    ensures Descending(Sort(s))
  {
    if s != [] {
      SortDescends(s[1..]);
      InsertKeepsOrder(s[0], Sort(s[1..]));
    }
  }

  lemma {:induction false} InsertAdds(u: Utxo, s: seq<Utxo>)
    ensures multiset(Insert(u, s)) == multiset{u} + multiset(s)
  {
    if s != [] && u.value < s[0].value {
      InsertAdds(u, s[1..]);
      assert s == [s[0]] + s[1..];
    }
  }

  lemma {:induction false} SortPermutes(s: seq<Utxo>)
    ensures multiset(Sort(s)) == multiset(s)
  {
    if s != [] {
      SortPermutes(s[1..]);
      InsertAdds(s[0], Sort(s[1..]));
      assert s == [s[0]] + s[1..];
    }
  }

  lemma {:induction false} FilterSelects(s: seq<Utxo>)
    ensures multiset(Confirmed(s)) <= multiset(s)
    ensures forall u :: u in multiset(Confirmed(s)) ==> Eligible(u)
  {
    if s != [] {
      FilterSelects(s[1..]);
      assert s == [s[0]] + s[1..];
    }
  }

  /** The sum of the first `k`. */
  function Top(s: seq<Utxo>, k: nat): int
    requires k <= |s|
  {
    if k == 0 then 0 else s[0].value + Top(s[1..], k - 1)
  }

  lemma {:induction false} TopIsTotal(s: seq<Utxo>, k: nat)
    requires k <= |s|
    ensures Total(s[..k]) == Top(s, k)
    decreases k
  {
    if k > 0 {
      TopIsTotal(s[1..], k - 1);
      TotalFront(s[..k]);
      assert s[..k][1..] == s[1..][..k - 1];
    }
  }

  lemma {:induction false} TotalFront(s: seq<Utxo>)
    requires s != []
    ensures Total(s) == s[0].value + Total(s[1..])
  {
    if |s| > 1 {
      var front := s[..|s| - 1];
      TotalFront(front);
      assert front[1..] == s[1..][..|s| - 2];
    }
  }

  lemma {:induction false} TopShift(s: seq<Utxo>, k: nat)
    requires Descending(s) && k < |s|
    ensures Top(s[1..], k) <= Top(s, k)
    decreases k
  {
    if k > 0 {
      TopShift(s[1..], k - 1);
    }
  }

  lemma {:induction false} CountBelow(s: seq<Utxo>, c: Choice)
    requires |c| == |s|
    ensures ChosenCount(s, c) <= |s|
  {
    if s != [] {
      CountBelow(s[1..], c[1..]);
    }
  }

  /** No choice of `k` elements of a descending list outweighs its first `k`. */
  lemma {:induction false} TopDominates(s: seq<Utxo>, c: Choice)
    requires Descending(s) && |c| == |s|
    ensures ChosenCount(s, c) <= |s| && ChosenSum(s, c) <= Top(s, ChosenCount(s, c))
    decreases |s|
  {
    CountBelow(s, c);
    if s != [] {
      TopDominates(s[1..], c[1..]);
      if !c[0] {
        CountBelow(s[1..], c[1..]);
        TopShift(s, ChosenCount(s, c));
      }
    }
  }

  lemma {:induction false} FirstOnes(s: seq<Utxo>, k: nat) returns (c: Choice)
    requires k <= |s|
    ensures |c| == |s| && ChosenCount(s, c) == k && ChosenSum(s, c) == Top(s, k)
    decreases |s|
  {
    if s == [] {
      c := [];
    } else {
      var rest := FirstOnes(s[1..], if k == 0 then 0 else k - 1);
      c := [k > 0] + rest;
      assert c[1..] == rest;
    }
  }

  /** Choices of `k` outputs that pay exist exactly when the `k` largest pay. */
  lemma LargestDecide(utxos: seq<Utxo>, k: nat, amount: int, feeRate: int)
    ensures CanPayWith(utxos, k, amount, feeRate) <==>
      1 <= k <= |Candidates(utxos)| && Pays(Top(Candidates(utxos), k), k, amount, feeRate)
  {
    var sorted := Candidates(utxos);
    if CanPayWith(utxos, k, amount, feeRate) {
      var c :| PaysWith(utxos, c, k, amount, feeRate);
      var d := ThroughFilter(utxos, c);
      var e := ThroughSort(Confirmed(utxos), d);
      SortDescends(Confirmed(utxos));
      TopDominates(sorted, e);
    }
    if 1 <= k <= |sorted| && Pays(Top(sorted, k), k, amount, feeRate) {
      var e := FirstOnes(sorted, k);
      var d := BackThroughSort(Confirmed(utxos), e);
      var c := BackThroughFilter(utxos, d);
      assert PaysWith(utxos, c, k, amount, feeRate);
    }
  }

  /** Unless the fee rate is absurdly negative, affording a change output means affording none. */
  predicate ChangeCosts(feeRate: int) {
    VBYTES_OUTPUT * feeRate + DUST_LIMIT >= 0
  }

  lemma ShapeMeansPays(sorted: seq<Utxo>, k: nat, amount: int, feeRate: int)
    requires k <= |sorted| && ChangeCosts(feeRate)
    ensures Shape(sorted[..k], amount, feeRate).Some? <==> Pays(Top(sorted, k), k, amount, feeRate)
  {
    TopIsTotal(sorted, k);
    assert EstimateFee(k, 2, feeRate) == EstimateFee(k, 1, feeRate) + VBYTES_OUTPUT * feeRate;
  }

  // ----- What the selector guarantees -----

  /**
   * The selector is complete and minimal: it fails exactly when no non-empty choice of
   * confirmed, positive outputs pays, and on success no choice with fewer outputs would pay.
   */
  lemma SelectIsCompleteAndMinimal(utxos: seq<Utxo>, amount: int, feeRate: int, r: Result<Selection, SelectError>)
    requires FirstPayingPrefix(utxos, amount, feeRate, r) && ChangeCosts(feeRate)
    ensures r.Err? <==> forall k: nat :: !CanPayWith(utxos, k, amount, feeRate)
    ensures r.Ok? ==> CanPayWith(utxos, |r.value.inputs|, amount, feeRate)
    ensures r.Ok? ==> forall k: nat :: CanPayWith(utxos, k, amount, feeRate) ==> k >= |r.value.inputs|
  {
    var sorted := Candidates(utxos);
    forall k: nat ensures CanPayWith(utxos, k, amount, feeRate) <==>
      1 <= k <= |sorted| && Shape(sorted[..k], amount, feeRate).Some?
    {
      LargestDecide(utxos, k, amount, feeRate);
      if k <= |sorted| { ShapeMeansPays(sorted, k, amount, feeRate); }
    }
    if r.Ok? { assert CanPayWith(utxos, |r.value.inputs|, amount, feeRate); }
  }

  /** At a rate below -294/31 a wallet of one output is spent although it does not pay. */
  lemma NegativeRateOverspends(feeRate: int)
    requires !ChangeCosts(feeRate)
    ensures
      var utxos, amount := [Utxo("", 0, 1, true)], 2 - EstimateFee(1, 1, feeRate);
      && amount > 0
      && (forall k: nat :: !CanPayWith(utxos, k, amount, feeRate))
      && (forall r :: FirstPayingPrefix(utxos, amount, feeRate, r) ==> r.Ok?)
  {
    var utxos, amount := [Utxo("", 0, 1, true)], 2 - EstimateFee(1, 1, feeRate);
    assert utxos[1..] == [];
    assert Confirmed(utxos) == utxos && Candidates(utxos) == utxos;
    assert utxos[..1] == utxos && utxos[..0] == [];
    assert Total(utxos) == 1;
    forall k: nat ensures !CanPayWith(utxos, k, amount, feeRate) {
      LargestDecide(utxos, k, amount, feeRate);
    }
    assert Shape(utxos[..1], amount, feeRate).Some?;
  }

  /** A call succeeds exactly when some choice pays. */
  ghost predicate Complete(utxos: seq<Utxo>, amount: int, feeRate: int, r: Result<Selection, SelectError>) {
    r.Err? <==> forall k: nat :: !CanPayWith(utxos, k, amount, feeRate)
  }

  /** The selector is complete for all wallets and amounts exactly at fee rates of -9 or more. */
  lemma CompleteIffChangeCosts(feeRate: int)
    ensures feeRate >= -9 <==>
      forall utxos, amount, r :: FirstPayingPrefix(utxos, amount, feeRate, r) ==> Complete(utxos, amount, feeRate, r)
  {
    if ChangeCosts(feeRate) {
      forall utxos, amount, r | FirstPayingPrefix(utxos, amount, feeRate, r)
        ensures Complete(utxos, amount, feeRate, r) {
        SelectIsCompleteAndMinimal(utxos, amount, feeRate, r);
      }
    } else {
      var utxos, amount := [Utxo("", 0, 1, true)], 2 - EstimateFee(1, 1, feeRate);
      NegativeRateOverspends(feeRate);
      var r := SomeOutcome(utxos, amount, feeRate);
      assert !Complete(utxos, amount, feeRate, r);
    }
  }

  /** Every call has an outcome. */
  lemma SomeOutcome(utxos: seq<Utxo>, amount: int, feeRate: int) returns (r: Result<Selection, SelectError>)
    ensures FirstPayingPrefix(utxos, amount, feeRate, r)
  {
    var sorted := Candidates(utxos);
    var k := 1;
    while k <= |sorted| && Shape(sorted[..k], amount, feeRate).None?
      invariant 1 <= k <= |sorted| + 1
      invariant forall j :: 1 <= j < k ==> Shape(sorted[..j], amount, feeRate).None?
    {
      k := k + 1;
    }
    if k <= |sorted| {
      r := Ok(Shape(sorted[..k], amount, feeRate).value);
    } else {
      r := Err(InsufficientFunds(Total(sorted), amount + EstimateFee(|sorted|, 2, feeRate)));
    }
  }

  /**
   * Nothing is lost: the inputs are distinct eligible rows of the wallet and their sum is
   * amount plus change plus fee; change is absent or relayable; the fee covers the estimate
   * for the chosen shape, and absorbing dust costs less than the dust limit above the
   * two-output fee.
   */
  lemma SelectConserves(utxos: seq<Utxo>, amount: int, feeRate: int, r: Result<Selection, SelectError>)
    requires FirstPayingPrefix(utxos, amount, feeRate, r) && r.Ok?
    ensures
      var (inputs, change, fee) := (r.value.inputs, r.value.change, r.value.fee);
      && multiset(inputs) <= multiset(utxos)
      && (forall u: Utxo :: u in multiset(inputs) ==> u.confirmed && u.value >= 1)
      && Total(inputs) == amount + change + fee
      && (change == 0 || change >= 294)
      && fee >= EstimateFee(|inputs|, if change > 0 then 2 else 1, feeRate)
      && (change > 0 ==> fee == EstimateFee(|inputs|, 2, feeRate))
      && (change == 0 ==> fee < EstimateFee(|inputs|, 2, feeRate) + 294)
  {
    var sorted, k := Candidates(utxos), |r.value.inputs|;
    FilterSelects(utxos);
    SortPermutes(Confirmed(utxos));
    assert sorted == sorted[..k] + sorted[k..];
    assert multiset(sorted[..k]) <= multiset(sorted);
  }
}
