/**
 * What is signed is what is broadcast: the preimage of BtcTxSigner::signOneInput (the
 * "Specification" section of BIP 143) against the serialised transaction.
 */
module BtcSigning {
  import opened Common
  import opened LittleEndian
  import opened Codec
  import opened BtcTx

  /** The hash, key and signature functions, of which only the output sizes matter. */
  datatype Crypto = Crypto(
    hash256: Bytes -> Bytes,
    hash160: Bytes -> Bytes,
    pubkey: string -> Bytes,
    sign: (string, Bytes) -> Bytes)

  ghost predicate Sized(c: Crypto) {
    && (forall x :: |c.hash256(x)| == 32)
    && (forall x :: |c.hash160(x)| == 20)
    && (forall key :: |c.pubkey(key)| == 33)
    && (forall key, digest :: |c.sign(key, digest)| < 80)
  }

  /** pack('V', 0x01). */
  const SIGHASH_ALL: Bytes := Pack(4, 1)

  /** One input to be spent: its outpoint, its amount, and the key that owns it. */
  datatype Input = Input(outpoint: Outpoint, value: int, key: string)

  datatype SignError = NoInputs | NoOutputs

  function Outpoints(inputs: seq<Input>): (outpoints: seq<Outpoint>)
    ensures |outpoints| == |inputs|
    ensures forall i :: 0 <= i < |inputs| ==> outpoints[i] == inputs[i].outpoint
  {
    if inputs == [] then [] else [inputs[0].outpoint] + Outpoints(inputs[1..])
  }

  // ----- The three shared strings -----

  function Prevouts(outpoints: seq<Outpoint>): Bytes {
    WriteAll(WriteOutpoint, outpoints)
  }

  /** str_repeat of the final sequence number. */
  function Sequences(count: nat): Bytes {
    Repeat(FINAL_SEQUENCE, count)
  }

  function Repeat(unit: Bytes, count: nat): Bytes {
    if count == 0 then [] else unit + Repeat(unit, count - 1)
  }

  /** BtcTxSigner::concatPrevouts. */
  method ConcatPrevouts(inputs: seq<Input>) returns (bytes: Bytes)
    ensures bytes == Prevouts(Outpoints(inputs))
  {
    bytes := AppendAll([], WriteOutpoint, Outpoints(inputs));
  }

  /** BtcTxSigner::concatOutputs: byte for byte what the serialiser writes after the count. */
  method ConcatOutputs(outputs: seq<Output>) returns (bytes: Bytes)
    ensures bytes == WriteAll(WriteOutput, outputs)
  {
    bytes := AppendAll([], WriteOutput, outputs);
  }

  // ----- The preimage -----

  /** The digest input for one outpoint, given the three shared hashes. */
  function PreimageOf(
    version: int, hashPrevouts: Bytes, hashSequence: Bytes, o: Outpoint, pkh: Bytes, value: int,
    hashOutputs: Bytes, locktime: int): Bytes
  {
    PreimageWith(version, hashPrevouts, hashSequence, PreimageTail(o, pkh, value, hashOutputs, locktime))
  }

  function PreimageWith(version: int, hashPrevouts: Bytes, hashSequence: Bytes, tail: Bytes): Bytes {
    Pack(4, version) + (hashPrevouts + (hashSequence + tail))
  }

  /** From the outpoint on: script code, amount, sequence, hash of the outputs, locktime, hash type. */
  function PreimageTail(o: Outpoint, pkh: Bytes, value: int, hashOutputs: Bytes, locktime: int): Bytes {
    WriteOutpoint(o) + ([0x19, 0x76, 0xA9, 0x14] + (pkh + ([0x88, 0xAC] + (Pack(8, value)
      + (FINAL_SEQUENCE + (hashOutputs + (Pack(4, locktime) + SIGHASH_ALL)))))))
  }

  /** The same, computed from a transaction as it stands on the wire. */
  function Preimage(c: Crypto, tx: Tx, i: nat, value: int, pkh: Bytes): Bytes
    requires i < |tx.outpoints|
  {
    PreimageOf(tx.version, c.hash256(Prevouts(tx.outpoints)), c.hash256(Sequences(|tx.outpoints|)),
      tx.outpoints[i], pkh, value, c.hash256(WriteAll(WriteOutput, tx.outputs)), tx.locktime)
  }

  /** Signature with its hash-type byte, and public key. */
  function WitnessOf(c: Crypto, input: Input, preimage: Bytes): Stack {
    [c.sign(input.key, c.hash256(preimage)) + [1], c.pubkey(input.key)]
  }

  /** The witness the signer attaches to input `i`. */
  function WitnessFor(c: Crypto, tx: Tx, i: nat, input: Input): Stack
    requires i < |tx.outpoints|
  {
    WitnessOf(c, input, Preimage(c, tx, i, input.value, c.hash160(c.pubkey(input.key))))
  }

  /** The transaction without its witnesses, then with one per input. */
  function Unsigned(inputs: seq<Input>, outputs: seq<Output>, version: int, locktime: int): Tx {
    Tx(version, Outpoints(inputs), outputs, [], locktime)
  }

  function Signed(c: Crypto, inputs: seq<Input>, outputs: seq<Output>, version: int, locktime: int): Tx {
    var tx := Unsigned(inputs, outputs, version, locktime);
    tx.(witnesses := seq(|inputs|, i requires 0 <= i < |inputs| => WitnessFor(c, tx, i, inputs[i])))
  }

  /** The loop over the inputs: BtcTxSigner::signOneInput for each. */
  method SignAll(c: Crypto, inputs: seq<Input>, hashPrevouts: Bytes, hashSequence: Bytes, hashOutputs: Bytes,
    version: int, locktime: int) returns (witnesses: seq<Stack>)
    ensures |witnesses| == |inputs|
    ensures forall k :: 0 <= k < |inputs| ==> witnesses[k] == WitnessOf(c, inputs[k],
      PreimageOf(version, hashPrevouts, hashSequence, inputs[k].outpoint, c.hash160(c.pubkey(inputs[k].key)),
        inputs[k].value, hashOutputs, locktime))
  {
    witnesses := [];
    var i := 0;
    while i < |inputs|
      invariant i <= |inputs| && |witnesses| == i
      invariant forall k :: 0 <= k < i ==> witnesses[k] == WitnessOf(c, inputs[k],
        PreimageOf(version, hashPrevouts, hashSequence, inputs[k].outpoint, c.hash160(c.pubkey(inputs[k].key)),
          inputs[k].value, hashOutputs, locktime))
    {
      var pubkey := c.pubkey(inputs[i].key);
      var preimage := PreimageOf(version, hashPrevouts, hashSequence, inputs[i].outpoint, c.hash160(pubkey),
        inputs[i].value, hashOutputs, locktime);
      witnesses := witnesses + [[c.sign(inputs[i].key, c.hash256(preimage)) + [1], pubkey]];
      i := i + 1;
    }
  }

  /** BtcTxSigner::signSegwit. */
  method SignSegwit(c: Crypto, inputs: seq<Input>, outputs: seq<Output>, version: int, locktime: int)
    returns (r: Result<string, SignError>)
    ensures r == if inputs == [] then Err(NoInputs)
                 else if outputs == [] then Err(NoOutputs)
                 else Ok(Bin2Hex(Serialize(Signed(c, inputs, outputs, version, locktime))))
  {
    if inputs == [] {
      return Err(NoInputs);
    }
    if outputs == [] {
      return Err(NoOutputs);
    }
    var prevouts := ConcatPrevouts(inputs);
    var outs := ConcatOutputs(outputs);
    var witnesses := SignAll(c, inputs, c.hash256(prevouts), c.hash256(Sequences(|inputs|)), c.hash256(outs),
      version, locktime);
    assert witnesses == Signed(c, inputs, outputs, version, locktime).witnesses;
    var bytes := SerializeSegwitTx(Tx(version, Outpoints(inputs), outputs, witnesses, locktime));
    return Ok(Bin2Hex(bytes));
  }

  // ----- Signed and broadcast -----

  predicate ValidRequest(inputs: seq<Input>, outputs: seq<Output>, version: int, locktime: int) {
    && 0 < |inputs| < INT_LIMIT && 0 < |outputs| < INT_LIMIT
    && 0 <= version < 0x1_0000_0000 && 0 <= locktime < 0x1_0000_0000
    && (forall i :: 0 <= i < |inputs| ==> ValidOutpoint(inputs[i].outpoint))
    && (forall i :: 0 <= i < |outputs| ==> ValidOutput(outputs[i]))
  }

  /**
   * A node that decodes the broadcast bytes recovers the requested spends and payments, and
   * the signature in each witness is over the preimage that the node itself computes from
   * the decoded transaction and the public key in that witness.
   */
  lemma BroadcastIsWhatWasSigned(c: Crypto, inputs: seq<Input>, outputs: seq<Output>, version: int, locktime: int)
    requires Sized(c) && ValidRequest(inputs, outputs, version, locktime)
    ensures
      var wire := Bin2Hex(Serialize(Signed(c, inputs, outputs, version, locktime)));
      var parsed := Parse(Hex2Bin(wire));
      && parsed.Some? && parsed.value.1 == []
      && var tx := parsed.value.0;
      && tx.outputs == outputs && tx.version == version && tx.locktime == locktime
      && |tx.outpoints| == |tx.witnesses| == |inputs|
      && forall i :: 0 <= i < |inputs| ==>
           && tx.outpoints[i] == Lower(inputs[i].outpoint)
           && |tx.witnesses[i]| == 2
           && tx.witnesses[i][1] == c.pubkey(inputs[i].key)
           && tx.witnesses[i][0] ==
                c.sign(inputs[i].key,
                  c.hash256(Preimage(c, tx, i, inputs[i].value, c.hash160(tx.witnesses[i][1])))) + [1]
  {
    var tx := Signed(c, inputs, outputs, version, locktime);
    SignedIsValid(c, inputs, outputs, version, locktime);
    HexRoundTrip(Serialize(tx));
    ParseSerialize(tx, []);
    assert Serialize(tx) + [] == Serialize(tx);
    forall i | 0 <= i < |inputs| ensures tx.witnesses[i] == WitnessFor(c, InLowerCase(tx), i, inputs[i]) {
      WitnessOfCanonical(c, inputs, outputs, version, locktime, i);
    }
  }

  lemma SignedIsValid(c: Crypto, inputs: seq<Input>, outputs: seq<Output>, version: int, locktime: int)
    requires Sized(c) && ValidRequest(inputs, outputs, version, locktime)
    ensures ValidTx(Signed(c, inputs, outputs, version, locktime))
  {
    var tx := Signed(c, inputs, outputs, version, locktime);
    forall i | 0 <= i < |tx.witnesses| ensures ValidStack(tx.witnesses[i]) {
      assert tx.witnesses[i] == WitnessFor(c, Unsigned(inputs, outputs, version, locktime), i, inputs[i]);
    }
  }

  lemma WitnessOfCanonical(c: Crypto, inputs: seq<Input>, outputs: seq<Output>, version: int, locktime: int, i: nat)
    requires ValidTx(Signed(c, inputs, outputs, version, locktime)) && i < |inputs|
    ensures var tx := Signed(c, inputs, outputs, version, locktime);
      tx.witnesses[i] == WitnessFor(c, InLowerCase(tx), i, inputs[i])
  {
    PreimageOfCanonical(c, Signed(c, inputs, outputs, version, locktime), i, inputs[i].value,
      c.hash160(c.pubkey(inputs[i].key)));
  }

  /** The preimage does not see the letter case of the ids. */
  lemma PreimageOfCanonical(c: Crypto, tx: Tx, i: nat, value: int, pkh: Bytes)
    requires ValidTx(tx) && i < |tx.outpoints|
    ensures Preimage(c, InLowerCase(tx), i, value, pkh) == Preimage(c, tx, i, value, pkh)
  {
    LowerAllWritesAlike(tx.outpoints);
    LowerWritesAlike(tx.outpoints[i]);
  }

  lemma InputLayout(o: Outpoint)
    ensures WriteInput(o) == WriteOutpoint(o) + [0] + FINAL_SEQUENCE
  {
    assert InputEnd() == [0] + FINAL_SEQUENCE;
    Assoc(WriteOutpoint(o), [0], FINAL_SEQUENCE);
  }

  lemma OutpointLength(o: Outpoint)
    requires ValidOutpoint(o)
    ensures |WriteOutpoint(o)| == 36
  {
    LowerWritesAlike(o);
    OutpointReads(Lower(o), []);
  }

  lemma SectionLengths(outpoints: seq<Outpoint>)
    requires forall k :: 0 <= k < |outpoints| ==> ValidOutpoint(outpoints[k])
    ensures forall o :: o in outpoints ==> |WriteOutpoint(o)| == 36 && |WriteInput(o)| == 41
    ensures |WriteAll(WriteInput, outpoints)| == 41 * |outpoints| && |Prevouts(outpoints)| == 36 * |outpoints|
  {
    forall o | o in outpoints ensures |WriteOutpoint(o)| == 36 && |WriteInput(o)| == 41 {
      OutpointLength(o);
    }
    FixedSizeLength(WriteInput, 41, outpoints);
    FixedSizeLength(WriteOutpoint, 36, outpoints);
  }

  /**
   * The hashed strings are projections of the wire bytes: record `i` of the input section is
   * slice `i` of the prevouts, the empty script, and slice `i` of the sequences.
   */
  lemma InputSectionInterleaves(outpoints: seq<Outpoint>, i: nat)
    requires i < |outpoints| && forall k :: 0 <= k < |outpoints| ==> ValidOutpoint(outpoints[k])
    ensures 41 * i + 41 <= |WriteAll(WriteInput, outpoints)| == 41 * |outpoints|
    ensures 36 * i + 36 <= |Prevouts(outpoints)| == 36 * |outpoints|
    ensures 4 * i + 4 <= |Sequences(|outpoints|)| == 4 * |outpoints|
    ensures WriteAll(WriteInput, outpoints)[41 * i..41 * i + 41]
         == Prevouts(outpoints)[36 * i..36 * i + 36] + [0] + Sequences(|outpoints|)[4 * i..4 * i + 4]
  {
    InputRecordAt(outpoints, i);
    PrevoutAt(outpoints, i);
    SequenceSlices(|outpoints|, i);
    InputLayout(outpoints[i]);
  }

  lemma InputRecordAt(outpoints: seq<Outpoint>, i: nat)
    requires i < |outpoints| && forall k :: 0 <= k < |outpoints| ==> ValidOutpoint(outpoints[k])
    ensures 41 * i + 41 <= |WriteAll(WriteInput, outpoints)| == 41 * |outpoints|
    ensures WriteAll(WriteInput, outpoints)[41 * i..41 * i + 41] == WriteInput(outpoints[i])
  {
    SectionLengths(outpoints);
    FixedSizeSlices(WriteInput, 41, outpoints, i);
  }

  lemma HeadFields(s: Bytes, a: Bytes, b: Bytes, n: Bytes, rest: Bytes)
    requires s == a + (b + (n + rest)) && |a| == 4 && |b| == 2 && |n| == 1
    ensures |s| == 7 + |rest| && s[0..4] == a && s[4..6] == b && s[6..7] == n && s[7..] == rest
  {
    assert s[0..] == s;
    FieldAt(s, 0, a, b + (n + rest));
    FieldAt(s, 4, b, n + rest);
    FieldAt(s, 6, n, rest);
  }

  lemma BodyFields(s: Bytes, ins: Bytes, m: Bytes, outs: Bytes, w: Bytes, l: Bytes)
    requires |s| >= 7 && s[7..] == ins + (m + (outs + (w + l))) && |m| == 1 && |l| == 4
    ensures |s| == 12 + |ins| + |outs| + |w| && s[7..7 + |ins|] == ins && s[7 + |ins|..8 + |ins|] == m
    ensures s[8 + |ins|..8 + |ins| + |outs|] == outs && s[|s| - 4..] == l
  {
    FieldAt(s, 7, ins, m + (outs + (w + l)));
    FieldAt(s, 7 + |ins|, m, outs + (w + l));
    FieldAt(s, 8 + |ins|, outs, w + l);
    FieldAt(s, 8 + |ins| + |outs|, w, l);
  }

  lemma WireFields(s: Bytes, a: Bytes, b: Bytes, n: Bytes, ins: Bytes, m: Bytes, outs: Bytes, w: Bytes, l: Bytes)
    requires s == a + (b + ((n + ins) + ((m + outs) + (w + l))))
    requires |a| == 4 && |b| == 2 && |n| == 1 && |m| == 1 && |l| == 4
    ensures |s| == 12 + |ins| + |outs| + |w|
    ensures s[0..4] == a && s[4..6] == b && s[6..7] == n && s[7..7 + |ins|] == ins
    ensures s[7 + |ins|..8 + |ins|] == m && s[8 + |ins|..8 + |ins| + |outs|] == outs && s[|s| - 4..] == l
  {
    Assoc(m, outs, w + l);
    Assoc(n, ins, m + (outs + (w + l)));
    HeadFields(s, a, b, n, ins + (m + (outs + (w + l))));
    BodyFields(s, ins, m, outs, w, l);
  }

  lemma SmallCount(n: nat)
    requires n <= 252
    ensures VarInt(n) == [n]
  {
  }

  /** The sections of the wire form, and where they start. */
  lemma SectionsOnWire(tx: Tx)
    requires ValidTx(tx) && 0 < |tx.outpoints| <= 252 && |tx.outputs| <= 252
    ensures
      var s, n, outs := Serialize(tx), |tx.outpoints|, WriteAll(WriteOutput, tx.outputs);
      && |s| >= 12 + 41 * n + |outs|
      && s[0..4] == Pack(4, tx.version) && s[4..6] == [0, 1] && s[6..7] == [n]
      && s[7..7 + 41 * n] == WriteAll(WriteInput, tx.outpoints)
      && s[7 + 41 * n..8 + 41 * n] == [|tx.outputs|] && s[8 + 41 * n..8 + 41 * n + |outs|] == outs
      && s[|s| - 4..] == Pack(4, tx.locktime)
  {
    SectionLengths(tx.outpoints);
    SmallCount(|tx.outpoints|);
    SmallCount(|tx.outputs|);
    WireFields(Serialize(tx), Pack(4, tx.version), [0, 1], [|tx.outpoints|], WriteAll(WriteInput, tx.outpoints),
      [|tx.outputs|], WriteAll(WriteOutput, tx.outputs), WriteAll(WriteStack, tx.witnesses),
      Pack(4, tx.locktime));
  }

  lemma SliceOfSlice(s: Bytes, from: nat, to: nat, a: nat, b: nat)
    requires a <= b && from + b <= to <= |s|
    ensures s[from..to][a..b] == s[from + a..from + b]
  {
    assert forall k :: a <= k < b ==> s[from..to][k] == s[from + k];
  }

  /** Input `i` on the wire: the outpoint, an empty script, and the final sequence number. */
  lemma InputOnWire(tx: Tx, i: nat)
    requires ValidTx(tx) && i < |tx.outpoints| <= 252 && |tx.outputs| <= 252
    ensures
      var s, at := Serialize(tx), 7 + 41 * i;
      && |s| >= at + 41
      && s[at..at + 36] == WriteOutpoint(tx.outpoints[i]) && s[at + 36..at + 41] == [0, 0xFF, 0xFF, 0xFF, 0xFF]
  {
    var section := InputsOnWire(tx);
    var end := InputRecord(tx.outpoints, i);
    RecordAt(Serialize(tx), section, 41 * i, WriteOutpoint(tx.outpoints[i]), end);
  }

  lemma InputsOnWire(tx: Tx) returns (section: Bytes)
    requires ValidTx(tx) && 0 < |tx.outpoints| <= 252 && |tx.outputs| <= 252
    ensures section == WriteAll(WriteInput, tx.outpoints)
    ensures 7 + |section| <= |Serialize(tx)| && Serialize(tx)[7..7 + |section|] == section
  {
    SectionLengths(tx.outpoints);
    SectionsOnWire(tx);
    section := WriteAll(WriteInput, tx.outpoints);
  }

  lemma InputRecord(outpoints: seq<Outpoint>, i: nat) returns (end: Bytes)
    requires i < |outpoints| && forall k :: 0 <= k < |outpoints| ==> ValidOutpoint(outpoints[k])
    ensures |WriteOutpoint(outpoints[i])| == 36 && end == [0, 0xFF, 0xFF, 0xFF, 0xFF]
    ensures 41 * i + 41 <= |WriteAll(WriteInput, outpoints)|
    ensures WriteAll(WriteInput, outpoints)[41 * i..41 * i + 41] == WriteOutpoint(outpoints[i]) + end
  {
    InputRecordAt(outpoints, i);
    OutpointLength(outpoints[i]);
    PackedConstants();
    end := InputEnd();
    assert end == [0] + FINAL_SEQUENCE;
  }

  lemma RecordAt(s: Bytes, section: Bytes, off: nat, x: Bytes, y: Bytes)
    requires 7 + |section| <= |s| && s[7..7 + |section|] == section
    requires off + 41 <= |section| && |x| == 36 && |y| == 5 && section[off..off + 41] == x + y
    ensures s[7 + off..7 + off + 36] == x && s[7 + off + 36..7 + off + 41] == y
  {
    SliceOfSlice(s, 7, 7 + |section|, off, off + 36);
    SliceOfSlice(s, 7, 7 + |section|, off + 36, off + 41);
    assert section[off..off + 36] == (x + y)[..36] && section[off + 36..off + 41] == (x + y)[36..];
  }

  lemma PrevoutAt(outpoints: seq<Outpoint>, i: nat)
    requires i < |outpoints| && forall k :: 0 <= k < |outpoints| ==> ValidOutpoint(outpoints[k])
    ensures 36 * i + 36 <= |Prevouts(outpoints)| == 36 * |outpoints|
    ensures Prevouts(outpoints)[36 * i..36 * i + 36] == WriteOutpoint(outpoints[i])
  {
    SectionLengths(outpoints);
    FixedSizeSlices(WriteOutpoint, 36, outpoints, i);
  }

  lemma SequenceSlices(count: nat, i: nat)
    requires i < count
    ensures |Sequences(count)| == 4 * count
    ensures Sequences(count)[4 * i..4 * i + 4] == FINAL_SEQUENCE
  {
    RepeatSlices(FINAL_SEQUENCE, 4, count, i);
  }

  lemma {:induction false} RepeatSlices(unit: Bytes, size: nat, count: nat, i: nat)
    requires |unit| == size && i < count
    ensures |Repeat(unit, count)| == size * count && size * i + size <= size * count
    ensures Repeat(unit, count)[size * i..size * i + size] == unit
    decreases count
  {
    SizeTimes(size, count - 1);
    if count > 1 {
      var j := if i == 0 then 0 else i - 1;
      RepeatSlices(unit, size, count - 1, j);
      if i > 0 {
        SizeTimes(size, j);
        SliceBehind(unit, Repeat(unit, count - 1), size * j, size * j + size);
      }
    }
  }

  /** The prevouts string determines the inputs, and nothing but the case of their ids is lost. */
  lemma PrevoutsDetermineInputs(a: seq<Outpoint>, b: seq<Outpoint>)
    requires forall i :: 0 <= i < |a| ==> ValidOutpoint(a[i])
    requires forall i :: 0 <= i < |b| ==> ValidOutpoint(b[i])
    ensures Prevouts(a) == Prevouts(b) <==> LowerAll(a) == LowerAll(b)
  {
    LowerAllWritesAlike(a);
    LowerAllWritesAlike(b);
    if Prevouts(a) == Prevouts(b) {
      RecordsRead();
      forall o | CanonicalOutpoint(o) ensures |WriteOutpoint(o)| == 36 { OutpointReads(o, []); }
      forall i | 0 <= i < |a| ensures CanonicalOutpoint(LowerAll(a)[i]) { LowerWritesAlike(a[i]); }
      forall i | 0 <= i < |b| ensures CanonicalOutpoint(LowerAll(b)[i]) { LowerWritesAlike(b[i]); }
      WriteAllIsInjective(WriteOutpoint, ReadOutpoint, CanonicalOutpoint, LowerAll(a), LowerAll(b));
    }
  }

  /** The outputs string determines the outputs, although it carries no count. */
  lemma OutputsStringDeterminesOutputs(a: seq<Output>, b: seq<Output>)
    requires forall i :: 0 <= i < |a| ==> ValidOutput(a[i])
    requires forall i :: 0 <= i < |b| ==> ValidOutput(b[i])
    requires WriteAll(WriteOutput, a) == WriteAll(WriteOutput, b)
    ensures a == b
  {
    RecordsRead();
    assert forall o :: |WriteOutput(o)| >= 8;
    WriteAllIsInjective(WriteOutput, ReadOutput, ValidOutput, a, b);
  }

  /** Two different inputs of `hash256` with one digest. */
  ghost predicate Collision(c: Crypto, x: Bytes, y: Bytes) {
    x != y && c.hash256(x) == c.hash256(y)
  }

  /** Equal strings with equally long heads have equal heads and equal rests. */
  lemma Peel(x: Bytes, y: Bytes, restX: Bytes, restY: Bytes)
    requires |x| == |y| && x + restX == y + restY
    ensures x == y && restX == restY
  {
    assert x == (x + restX)[..|x|] && y == (y + restY)[..|y|];
    assert restX == (x + restX)[|x|..] && restY == (y + restY)[|y|..];
  }

  lemma PeelThree(x1: Bytes, x2: Bytes, y1: Bytes, y2: Bytes, z1: Bytes, z2: Bytes, r1: Bytes, r2: Bytes)
    requires |x1| == |x2| && |y1| == |y2| && |z1| == |z2|
    requires x1 + (y1 + (z1 + r1)) == x2 + (y2 + (z2 + r2))
    ensures x1 == x2 && y1 == y2 && z1 == z2 && r1 == r2
  {
    Peel(x1, x2, y1 + (z1 + r1), y2 + (z2 + r2));
    Peel(y1, y2, z1 + r1, z2 + r2);
    Peel(z1, z2, r1, r2);
  }

  lemma TailDetermines(o1: Outpoint, o2: Outpoint, p1: Bytes, p2: Bytes, v1: int, v2: int, h1: Bytes, h2: Bytes,
    l1: int, l2: int)
    requires ValidOutpoint(o1) && ValidOutpoint(o2) && |p1| == |p2| && |h1| == |h2|
    requires PreimageTail(o1, p1, v1, h1, l1) == PreimageTail(o2, p2, v2, h2, l2)
    ensures Lower(o1) == Lower(o2) && p1 == p2 && Pack(8, v1) == Pack(8, v2) && h1 == h2 && Pack(4, l1) == Pack(4, l2)
  {
    OutpointLength(o1);
    OutpointLength(o2);
    var g1 := Pack(4, l1) + SIGHASH_ALL;
    var g2 := Pack(4, l2) + SIGHASH_ALL;
    var f1, f2 := h1 + g1, h2 + g2;
    var e1, e2 := FINAL_SEQUENCE + f1, FINAL_SEQUENCE + f2;
    var d1, d2 := Pack(8, v1) + e1, Pack(8, v2) + e2;
    var c1, c2 := [0x88, 0xAC] + d1, [0x88, 0xAC] + d2;
    var b1, b2 := p1 + c1, p2 + c2;
    var a1, a2 := [0x19, 0x76, 0xA9, 0x14] + b1, [0x19, 0x76, 0xA9, 0x14] + b2;
    Peel(WriteOutpoint(o1), WriteOutpoint(o2), a1, a2);
    Peel([0x19, 0x76, 0xA9, 0x14], [0x19, 0x76, 0xA9, 0x14], b1, b2);
    Peel(p1, p2, c1, c2);
    Peel([0x88, 0xAC], [0x88, 0xAC], d1, d2);
    Peel(Pack(8, v1), Pack(8, v2), e1, e2);
    Peel(FINAL_SEQUENCE, FINAL_SEQUENCE, f1, f2);
    Peel(h1, h2, g1, g2);
    Peel(Pack(4, l1), Pack(4, l2), SIGHASH_ALL, SIGHASH_ALL);
    SameOutpoint(o1, o2);
  }

  lemma SameOutpoint(o1: Outpoint, o2: Outpoint)
    requires ValidOutpoint(o1) && ValidOutpoint(o2) && WriteOutpoint(o1) == WriteOutpoint(o2)
    ensures Lower(o1) == Lower(o2)
  {
    LowerWritesAlike(o1);
    LowerWritesAlike(o2);
    OutpointReads(Lower(o1), []);
    OutpointReads(Lower(o2), []);
  }

  lemma HeadDetermines(n1: int, n2: int, hp1: Bytes, hp2: Bytes, hs1: Bytes, hs2: Bytes, t1: Bytes, t2: Bytes)
    requires |hp1| == |hp2| && |hs1| == |hs2| && PreimageWith(n1, hp1, hs1, t1) == PreimageWith(n2, hp2, hs2, t2)
    ensures Pack(4, n1) == Pack(4, n2) && hp1 == hp2 && hs1 == hs2 && t1 == t2
  {
    PeelThree(Pack(4, n1), Pack(4, n2), hp1, hp2, hs1, hs2, t1, t2);
  }

  /** The preimage has one fixed layout, so it determines each of its fields. */
  lemma PreimageDetermines(
    n1: int, n2: int, hp1: Bytes, hp2: Bytes, hs1: Bytes, hs2: Bytes, o1: Outpoint, o2: Outpoint,
    p1: Bytes, p2: Bytes, v1: int, v2: int, ho1: Bytes, ho2: Bytes, l1: int, l2: int)
    requires ValidOutpoint(o1) && ValidOutpoint(o2)
    requires |hp1| == |hp2| && |hs1| == |hs2| && |ho1| == |ho2| && |p1| == |p2|
    requires PreimageOf(n1, hp1, hs1, o1, p1, v1, ho1, l1) == PreimageOf(n2, hp2, hs2, o2, p2, v2, ho2, l2)
    ensures Pack(4, n1) == Pack(4, n2) && hp1 == hp2 && hs1 == hs2 && Lower(o1) == Lower(o2)
    ensures p1 == p2 && Pack(8, v1) == Pack(8, v2) && ho1 == ho2 && Pack(4, l1) == Pack(4, l2)
  {
    HeadDetermines(n1, n2, hp1, hp2, hs1, hs2, PreimageTail(o1, p1, v1, ho1, l1), PreimageTail(o2, p2, v2, ho2, l2));
    TailDetermines(o1, o2, p1, p2, v1, v2, ho1, ho2, l1, l2);
  }

  lemma TailLayout(p: Bytes, o: Outpoint, pkh: Bytes, value: int, hashOutputs: Bytes, locktime: int)
    requires ValidOutpoint(o) && |pkh| == 20 && |hashOutputs| == 32
    requires |p| >= 68 && p[68..] == PreimageTail(o, pkh, value, hashOutputs, locktime)
    ensures |p| == 182 && p[68..104] == WriteOutpoint(o)
    ensures p[104..108] == [0x19, 0x76, 0xA9, 0x14] && p[108..128] == pkh && p[128..130] == [0x88, 0xAC]
    ensures p[130..138] == Pack(8, value) && p[138..142] == FINAL_SEQUENCE && p[142..174] == hashOutputs
    ensures p[174..178] == Pack(4, locktime) && p[178..182] == SIGHASH_ALL
  {
    OutpointLength(o);
    var g := Pack(4, locktime) + SIGHASH_ALL;
    var f := hashOutputs + g;
    var e := FINAL_SEQUENCE + f;
    var d := Pack(8, value) + e;
    var c := [0x88, 0xAC] + d;
    var b := pkh + c;
    FieldAt(p, 68, WriteOutpoint(o), [0x19, 0x76, 0xA9, 0x14] + b);
    FieldAt(p, 104, [0x19, 0x76, 0xA9, 0x14], b);
    FieldAt(p, 108, pkh, c);
    FieldAt(p, 128, [0x88, 0xAC], d);
    FieldAt(p, 130, Pack(8, value), e);
    FieldAt(p, 138, FINAL_SEQUENCE, f);
    FieldAt(p, 142, hashOutputs, g);
    FieldAt(p, 174, Pack(4, locktime), SIGHASH_ALL);
    assert p[178..182] == p[178..];
  }

  /**
   * The preimage byte by byte, as BIP 143 orders it: version, hash of the prevouts, hash of
   * the sequences, outpoint, script code, amount, sequence, hash of the outputs, locktime,
   * hash type.
   */
  lemma PreimageLayout(c: Crypto, tx: Tx, i: nat, value: int, pkh: Bytes)
    requires Sized(c) && ValidTx(tx) && i < |tx.outpoints| && |pkh| == 20
    ensures
      var p := Preimage(c, tx, i, value, pkh);
      && |p| == 182
      && p[0..4] == Pack(4, tx.version)
      && p[4..36] == c.hash256(WriteAll(WriteOutpoint, tx.outpoints))
      && p[36..68] == c.hash256(Repeat([0xFF, 0xFF, 0xFF, 0xFF], |tx.outpoints|))
      && p[68..104] == WriteOutpoint(tx.outpoints[i])
      && p[104..108] == [0x19, 0x76, 0xA9, 0x14] && p[108..128] == pkh && p[128..130] == [0x88, 0xAC]
      && p[130..138] == Pack(8, value)
      && p[138..142] == [0xFF, 0xFF, 0xFF, 0xFF]
      && p[142..174] == c.hash256(WriteAll(WriteOutput, tx.outputs))
      && p[174..178] == Pack(4, tx.locktime)
      && p[178..182] == [0x01, 0x00, 0x00, 0x00]
  {
    var p := Preimage(c, tx, i, value, pkh);
    var hashPrevouts := c.hash256(WriteAll(WriteOutpoint, tx.outpoints));
    var hashSequence := c.hash256(Repeat([0xFF, 0xFF, 0xFF, 0xFF], |tx.outpoints|));
    var hashOutputs := c.hash256(WriteAll(WriteOutput, tx.outputs));
    var tail := PreimageTail(tx.outpoints[i], pkh, value, hashOutputs, tx.locktime);
    PackedConstants();
    assert p[0..] == p;
    FieldAt(p, 0, Pack(4, tx.version), hashPrevouts + (hashSequence + tail));
    FieldAt(p, 4, hashPrevouts, hashSequence + tail);
    FieldAt(p, 36, hashSequence, tail);
    TailLayout(p, tx.outpoints[i], pkh, value, hashOutputs, tx.locktime);
  }

  lemma PackedConstants()
    ensures FINAL_SEQUENCE == [0xFF, 0xFF, 0xFF, 0xFF] && SIGHASH_ALL == [0x01, 0x00, 0x00, 0x00]
  {
  }

  lemma PackIsInjective(k: nat, a: int, b: int)
    requires 0 <= a < Pow256(k) && 0 <= b < Pow256(k) && Pack(k, a) == Pack(k, b)
    ensures a == b
  {
    UnpackPack(k, a);
    UnpackPack(k, b);
  }

  /**
   * One signature commits to one transaction: if two inputs of two transactions have the
   * same preimage, then outpoint, amount, key hash, version and locktime agree outright, and
   * so do all inputs and all outputs, unless the two prevouts strings or the two outputs
   * strings themselves are different strings with one hash.
   */
  lemma PreimageCommits(c: Crypto, a: Tx, b: Tx, i: nat, j: nat, va: int, vb: int, pa: Bytes, pb: Bytes)
    requires Sized(c) && ValidTx(a) && ValidTx(b) && i < |a.outpoints| && j < |b.outpoints|
    requires 0 <= va < INT_LIMIT && 0 <= vb < INT_LIMIT && |pa| == |pb| == 20
    requires Preimage(c, a, i, va, pa) == Preimage(c, b, j, vb, pb)
    ensures Lower(a.outpoints[i]) == Lower(b.outpoints[j]) && va == vb && pa == pb
    ensures a.version == b.version && a.locktime == b.locktime
    ensures LowerAll(a.outpoints) == LowerAll(b.outpoints)
      || Collision(c, Prevouts(a.outpoints), Prevouts(b.outpoints))
    ensures a.outputs == b.outputs
      || Collision(c, WriteAll(WriteOutput, a.outputs), WriteAll(WriteOutput, b.outputs))
  {
    var outsA, outsB := WriteAll(WriteOutput, a.outputs), WriteAll(WriteOutput, b.outputs);
    PreimageDetermines(a.version, b.version, c.hash256(Prevouts(a.outpoints)), c.hash256(Prevouts(b.outpoints)),
      c.hash256(Sequences(|a.outpoints|)), c.hash256(Sequences(|b.outpoints|)), a.outpoints[i], b.outpoints[j],
      pa, pb, va, vb, c.hash256(outsA), c.hash256(outsB), a.locktime, b.locktime);
    Widths();
    PackIsInjective(4, a.version, b.version);
    PackIsInjective(4, a.locktime, b.locktime);
    PackIsInjective(8, va, vb);
    if Prevouts(a.outpoints) == Prevouts(b.outpoints) { PrevoutsDetermineInputs(a.outpoints, b.outpoints); }
    if outsA == outsB { OutputsStringDeterminesOutputs(a.outputs, b.outputs); }
  }
}
