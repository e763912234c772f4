/**
 * What the selector's fee estimate measures: the virtual size ("Transaction size
 * calculations" section of BIP 141) of the transaction that the signer broadcasts.
 */
module BtcFees {
  import opened Common
  import opened LittleEndian
  import opened Codec
  import opened BtcTx
  import opened BtcSigning
  import UtxoSelector

  /** The transaction without marker, flag and witnesses. */
  function Stripped(tx: Tx): Bytes {
    Pack(4, tx.version) + (InputSection(tx.outpoints) + (OutputSection(tx.outputs) + Pack(4, tx.locktime)))
  }

  /** Every byte counts once, and those outside the witnesses three times more. */
  function Weight(tx: Tx): nat {
    3 * |Stripped(tx)| + |Serialize(tx)|
  }

  /** A quarter of the weight, rounded up. */
  function VirtualSize(tx: Tx): nat {
    (Weight(tx) + 3) / 4
  }

  /** The estimate at one satoshi a virtual byte. */
  function EstimatedSize(inputs: nat, outputs: nat): int {
    UtxoSelector.EstimateFee(inputs, outputs, 1)
  }

  // ----- The sizes of the sections -----

  /** Every output pays a key hash: a script of 22 bytes. */
  predicate PaysKeyHashes(outputs: seq<Output>) {
    forall i :: 0 <= i < |outputs| ==> |outputs[i].scriptPubKey| == 22
  }

  lemma OutputSectionLength(outputs: seq<Output>)
    requires PaysKeyHashes(outputs)
    ensures |OutputSection(outputs)| == |VarInt(|outputs|)| + 31 * |outputs|
  {
    forall o | o in outputs ensures |WriteOutput(o)| == 31 {
    }
    FixedSizeLength(WriteOutput, 31, outputs);
  }

  lemma InputSectionLength(outpoints: seq<Outpoint>)
    requires forall k :: 0 <= k < |outpoints| ==> ValidOutpoint(outpoints[k])
    ensures |InputSection(outpoints)| == |VarInt(|outpoints|)| + 41 * |outpoints|
  {
    SectionLengths(outpoints);
  }

  /** A signature with its hash-type byte, and a compressed public key. */
  predicate SpendsKeyHash(stack: Stack) {
    |stack| == 2 && 1 <= |stack[0]| <= 80 && |stack[1]| == 33
  }

  /** The bytes of all signatures, their hash-type bytes aside. */
  function SignatureBytes(witnesses: seq<Stack>): nat
    requires forall i :: 0 <= i < |witnesses| ==> SpendsKeyHash(witnesses[i])
  {
    if witnesses == [] then 0
    else
      assert SpendsKeyHash(witnesses[0]);
      |witnesses[0][0]| - 1 + SignatureBytes(witnesses[1..])
  }

  lemma StackLength(stack: Stack)
    requires SpendsKeyHash(stack)
    ensures |WriteStack(stack)| == 36 + |stack[0]|
  {
    assert stack == [stack[0], stack[1]];
    assert stack[1..] == [stack[1]];
    assert WriteAll(WriteBlob, stack[1..]) == WriteBlob(stack[1]) + WriteAll(WriteBlob, stack[1..][1..]);
  }

  lemma {:induction false} WitnessLength(witnesses: seq<Stack>)
    requires forall i :: 0 <= i < |witnesses| ==> SpendsKeyHash(witnesses[i])
    ensures |WriteAll(WriteStack, witnesses)| == 37 * |witnesses| + SignatureBytes(witnesses)
    decreases |witnesses|
  {
    if witnesses != [] {
      StackLength(witnesses[0]);
      WitnessLength(witnesses[1..]);
    }
  }

  /** The estimate and the weight, which differ by the widths of the two counts and by short signatures. */
  lemma WeightAgainstEstimate(tx: Tx)
    requires forall k :: 0 <= k < |tx.outpoints| ==> ValidOutpoint(tx.outpoints[k])
    requires PaysKeyHashes(tx.outputs) && |tx.witnesses| == |tx.outpoints|
    requires forall i :: 0 <= i < |tx.witnesses| ==> SpendsKeyHash(tx.witnesses[i])
    ensures
      var n, m := |tx.outpoints|, |tx.outputs|;
      Weight(tx) + 10 + 71 * n - SignatureBytes(tx.witnesses)
        == 4 * EstimatedSize(n, m) + 4 * (|VarInt(n)| + |VarInt(m)|)
  {
    InputSectionLength(tx.outpoints);
    OutputSectionLength(tx.outputs);
    WitnessLength(tx.witnesses);
  }

  // ----- What the signer broadcasts -----

  /** Signatures as secp256k1 makes them: at most 71 bytes in the canonical encoding. */
  ghost predicate Canonical(c: Crypto) {
    Sized(c) && forall key, digest :: |c.sign(key, digest)| <= 71
  }

  /** A payment of this shape, to key hashes only. */
  ghost predicate Payment(c: Crypto, inputs: seq<Input>, outputs: seq<Output>, version: int, locktime: int) {
    Canonical(c) && ValidRequest(inputs, outputs, version, locktime) && PaysKeyHashes(outputs)
  }

  lemma {:induction false} ShortSignatures(witnesses: seq<Stack>)
    requires forall i :: 0 <= i < |witnesses| ==> SpendsKeyHash(witnesses[i]) && |witnesses[i][0]| <= 72
    ensures SignatureBytes(witnesses) <= 71 * |witnesses|
    ensures (forall i :: 0 <= i < |witnesses| ==> |witnesses[i][0]| == 72) ==>
      SignatureBytes(witnesses) == 71 * |witnesses|
    decreases |witnesses|
  {
    if witnesses != [] { ShortSignatures(witnesses[1..]); }
  }

  /** The witnesses of a signed payment, and its weight. */
  lemma SignedWeight(c: Crypto, inputs: seq<Input>, outputs: seq<Output>, version: int, locktime: int)
    requires Payment(c, inputs, outputs, version, locktime)
    ensures
      var tx := Signed(c, inputs, outputs, version, locktime);
      var n, m := |inputs|, |outputs|;
      && Weight(tx) + 10 <= 4 * EstimatedSize(n, m) + 4 * (|VarInt(n)| + |VarInt(m)|)
      && ((forall key, digest :: |c.sign(key, digest)| == 71) ==>
            Weight(tx) + 10 == 4 * EstimatedSize(n, m) + 4 * (|VarInt(n)| + |VarInt(m)|))
  {
    var tx := Signed(c, inputs, outputs, version, locktime);
    SignedIsValid(c, inputs, outputs, version, locktime);
    forall i | 0 <= i < |tx.witnesses|
      ensures SpendsKeyHash(tx.witnesses[i]) && |tx.witnesses[i][0]| <= 72
      ensures (forall key, digest :: |c.sign(key, digest)| == 71) ==> |tx.witnesses[i][0]| == 72
    {
      assert tx.witnesses[i] == WitnessFor(c, Unsigned(inputs, outputs, version, locktime), i, inputs[i]);
    }
    ShortSignatures(tx.witnesses);
    WeightAgainstEstimate(tx);
  }

  /**
   * Up to 252 inputs and outputs the estimate is never below the virtual size, and it is the
   * virtual size when every signature has its full 71 bytes.
   */
  lemma EstimateCoversSize(c: Crypto, inputs: seq<Input>, outputs: seq<Output>, version: int, locktime: int)
    requires Payment(c, inputs, outputs, version, locktime) && |inputs| <= 252 && |outputs| <= 252
    ensures
      var tx, v := Signed(c, inputs, outputs, version, locktime), EstimatedSize(|inputs|, |outputs|);
      && Weight(tx) <= 4 * v && VirtualSize(tx) <= v
      && ((forall key, digest :: |c.sign(key, digest)| == 71) ==> VirtualSize(tx) == v)
  {
    SignedWeight(c, inputs, outputs, version, locktime);
  }

  /** The estimate covers every payment of this shape. */
  ghost predicate Covers(n: nat, m: nat) {
    forall c, inputs, outputs, version, locktime ::
      Payment(c, inputs, outputs, version, locktime) && |inputs| == n && |outputs| == m ==>
        VirtualSize(Signed(c, inputs, outputs, version, locktime)) <= EstimatedSize(n, m)
  }

  /** Some payment of each shape, with full signatures. */
  lemma FullPayment(n: nat, m: nat)
    returns (c: Crypto, inputs: seq<Input>, outputs: seq<Output>)
    requires 0 < n < INT_LIMIT && 0 < m < INT_LIMIT
    ensures Payment(c, inputs, outputs, 0, 0) && |inputs| == n && |outputs| == m
    ensures forall key, digest :: |c.sign(key, digest)| == 71
  {
    c := Crypto(_ => seq(32, _ => 0), _ => seq(20, _ => 0), _ => seq(33, _ => 0), (_, _) => seq(71, _ => 0));
    var id := seq(64, _ => '0');
    assert IsHex(id);
    inputs := seq(n, _ => Input(Outpoint(id, 0), 0, ""));
    outputs := seq(m, _ => Output(0, seq(22, _ => 0)));
  }

  /** The estimate is the upper bound it is meant to be exactly up to 252 inputs and outputs. */
  lemma CoversIffCountsAreShort(n: nat, m: nat)
    requires 0 < n < INT_LIMIT && 0 < m < INT_LIMIT
    ensures Covers(n, m) <==> n <= 252 && m <= 252
  {
    if n <= 252 && m <= 252 {
      forall c, inputs, outputs, version, locktime
        | Payment(c, inputs, outputs, version, locktime) && |inputs| == n && |outputs| == m
        ensures VirtualSize(Signed(c, inputs, outputs, version, locktime)) <= EstimatedSize(n, m)
      {
        EstimateCoversSize(c, inputs, outputs, version, locktime);
      }
    } else {
      var c, inputs, outputs := FullPayment(n, m);
      SignedWeight(c, inputs, outputs, 0, 0);
      assert |VarInt(n)| + |VarInt(m)| >= 4;
      assert VirtualSize(Signed(c, inputs, outputs, 0, 0)) > EstimatedSize(n, m);
    }
  }

  /** Up to 65535 inputs the estimate is short by two virtual bytes at most. */
  lemma ManyInputsFallShortByTwo(c: Crypto, inputs: seq<Input>, outputs: seq<Output>, version: int, locktime: int)
    requires Payment(c, inputs, outputs, version, locktime) && 253 <= |inputs| <= 65535 && |outputs| <= 252
    ensures
      var tx, v := Signed(c, inputs, outputs, version, locktime), EstimatedSize(|inputs|, |outputs|);
      && VirtualSize(tx) <= v + 2
      && ((forall key, digest :: |c.sign(key, digest)| == 71) ==> VirtualSize(tx) == v + 2)
  {
    SignedWeight(c, inputs, outputs, version, locktime);
  }

  // ----- The fee that is paid -----

  lemma FeeCoversEstimate(
    utxos: seq<UtxoSelector.Utxo>, amount: int, feeRate: int,
    r: Result<UtxoSelector.Selection, UtxoSelector.SelectError>)
    requires UtxoSelector.FirstPayingPrefix(utxos, amount, feeRate, r) && r.Ok?
    ensures r.value.fee >= EstimatedSize(|r.value.inputs|, if r.value.change > 0 then 2 else 1) * feeRate
  {
    UtxoSelector.SelectConserves(utxos, amount, feeRate, r);
  }

  lemma MoreBytesCostMore(rate: int, a: int, b: int)
    requires rate >= 0 && a <= b
    ensures rate * a <= b * rate
  {
  }

  /**
   * What the selector leaves as the fee pays the asked rate for every virtual byte of the
   * broadcast transaction, with one output or with the change as the second.
   */
  lemma SelectedFeePays(
    utxos: seq<UtxoSelector.Utxo>, amount: int, feeRate: int,
    r: Result<UtxoSelector.Selection, UtxoSelector.SelectError>,
    c: Crypto, inputs: seq<Input>, outputs: seq<Output>, version: int, locktime: int)
    requires UtxoSelector.FirstPayingPrefix(utxos, amount, feeRate, r) && r.Ok? && feeRate >= 0
    requires Payment(c, inputs, outputs, version, locktime)
    requires |inputs| == |r.value.inputs| <= 252 && |outputs| == if r.value.change > 0 then 2 else 1
    ensures r.value.fee >= feeRate * VirtualSize(Signed(c, inputs, outputs, version, locktime))
  {
    FeeCoversEstimate(utxos, amount, feeRate, r);
    EstimateCoversSize(c, inputs, outputs, version, locktime);
    var size := VirtualSize(Signed(c, inputs, outputs, version, locktime));
    MoreBytesCostMore(feeRate, size, EstimatedSize(|inputs|, |outputs|));
  }
}
