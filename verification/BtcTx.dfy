/**
 * Serialisation of app/Payout/Btc/BtcTxSigner.php (the "Serialization" section of BIP 144),
 * with a strict parser as its specification.
 */
module BtcTx {
  import opened Common
  import opened LittleEndian
  import opened Codec

  /** pack('V', 0xFFFFFFFF): no replacement, no relative locktime. */
  const FINAL_SEQUENCE: Bytes := Pack(4, 0xFFFF_FFFF)

  /** Lengths and values are PHP integers. */
  const INT_LIMIT: nat := 0x8000_0000_0000_0000

  datatype Outpoint = Outpoint(txid: string, vout: int)

  datatype Output = Output(value: int, scriptPubKey: Bytes)

  type Stack = seq<Bytes>

  datatype Tx = Tx(version: int, outpoints: seq<Outpoint>, outputs: seq<Output>, witnesses: seq<Stack>, locktime: int)

  // ----- Writing -----

  function WriteOutpoint(o: Outpoint): Bytes {
    ReverseHex(o.txid) + Pack(4, o.vout)
  }

  /** The empty script and the final sequence number that close every input. */
  function InputEnd(): (bytes: Bytes)
    ensures |bytes| == 5
  {
    VarInt(0) + FINAL_SEQUENCE
  }

  function WriteInput(o: Outpoint): Bytes {
    WriteOutpoint(o) + InputEnd()
  }

  function WriteBlob(bytes: Bytes): Bytes {
    VarInt(|bytes|) + bytes
  }

  function WriteOutput(o: Output): Bytes {
    Pack(8, o.value) + WriteBlob(o.scriptPubKey)
  }

  function WriteStack(stack: Stack): Bytes {
    VarInt(|stack|) + WriteAll(WriteBlob, stack)
  }

  function InputSection(outpoints: seq<Outpoint>): Bytes {
    VarInt(|outpoints|) + WriteAll(WriteInput, outpoints)
  }

  function OutputSection(outputs: seq<Output>): Bytes {
    VarInt(|outputs|) + WriteAll(WriteOutput, outputs)
  }

  /** The part after the outputs. */
  function TailSection(tx: Tx): Bytes {
    WriteAll(WriteStack, tx.witnesses) + Pack(4, tx.locktime)
  }

  /** The transaction on the wire: marker and flag after the version, witnesses before the locktime. */
  function Serialize(tx: Tx): Bytes {
    Pack(4, tx.version)
    + ([0, 1] + (InputSection(tx.outpoints) + (OutputSection(tx.outputs) + TailSection(tx))))
  }

  /** Appending piece by piece gives the nested sections. */
  lemma Regroup(a: Bytes, b: Bytes, c1: Bytes, c2: Bytes, d1: Bytes, d2: Bytes, e1: Bytes, e2: Bytes)
    ensures a + b + c1 + c2 + d1 + d2 + e1 + e2 == a + (b + ((c1 + c2) + ((d1 + d2) + (e1 + e2))))
  {
    var e := e1 + e2;
    var d := d1 + d2;
    var c := c1 + c2;
    Assoc(a + b + c1 + c2 + d1 + d2, e1, e2);
    Assoc(a + b + c1 + c2, d1, d2);
    Assoc(a + b + c1 + c2, d, e);
    Assoc(a + b, c1, c2);
    Assoc(a + b, c, d + e);
    Assoc(a, b, c + (d + e));
  }

  /** BtcTxSigner::serializeSegwitTx. */
  method SerializeSegwitTx(tx: Tx) returns (bytes: Bytes)
    ensures bytes == Serialize(tx)
  {
    bytes := Pack(4, tx.version);
    bytes := bytes + [0, 1];
    bytes := bytes + VarInt(|tx.outpoints|);
    bytes := AppendAll(bytes, WriteInput, tx.outpoints);
    bytes := bytes + VarInt(|tx.outputs|);
    bytes := AppendAll(bytes, WriteOutput, tx.outputs);
    bytes := AppendWitnesses(bytes, tx.witnesses);
    bytes := bytes + Pack(4, tx.locktime);
    Regroup(Pack(4, tx.version), [0, 1], VarInt(|tx.outpoints|), WriteAll(WriteInput, tx.outpoints),
      VarInt(|tx.outputs|), WriteAll(WriteOutput, tx.outputs), WriteAll(WriteStack, tx.witnesses),
      Pack(4, tx.locktime));
  }

  /** The loop over the witness stacks, with the loop over each stack's items inside. */
  method AppendWitnesses(prefix: Bytes, witnesses: seq<Stack>) returns (bytes: Bytes)
    ensures bytes == prefix + WriteAll(WriteStack, witnesses)
  {
    bytes := prefix;
    var i := 0;
    while i < |witnesses|
      invariant i <= |witnesses|
      invariant bytes == prefix + WriteAll(WriteStack, witnesses[..i])
    {
      StackAppends(prefix, witnesses, i);
      bytes := AppendStack(bytes, witnesses[i]);
      i := i + 1;
    }
    assert witnesses[..i] == witnesses;
  }

  lemma StackAppends(prefix: Bytes, witnesses: seq<Stack>, i: nat)
    requires i < |witnesses|
    ensures prefix + WriteAll(WriteStack, witnesses[..i + 1])
         == prefix + WriteAll(WriteStack, witnesses[..i]) + WriteStack(witnesses[i])
  {
    WriteAllAppend(WriteStack, witnesses[..i], witnesses[i]);
    Assoc(prefix, WriteAll(WriteStack, witnesses[..i]), WriteStack(witnesses[i]));
    assert witnesses[..i + 1] == witnesses[..i] + [witnesses[i]];
  }

  method AppendStack(prefix: Bytes, stack: Stack) returns (bytes: Bytes)
    ensures bytes == prefix + WriteStack(stack)
  {
    bytes := AppendAll(prefix + VarInt(|stack|), WriteBlob, stack);
  }

  // ----- Reading, as the specification -----

  function ReadOutpoint(s: Bytes): Option<(Outpoint, Bytes)> {
    if |s| < 36 then None
    else Some((Outpoint(Bin2Hex(Reverse(s[..32])), Unpack(s[32..36])), s[36..]))
  }

  function ReadInput(s: Bytes): Option<(Outpoint, Bytes)> {
    match ReadOutpoint(s)
    case None => None
    case Some((o, rest)) =>
      if |rest| >= 5 && rest[..5] == InputEnd() then Some((o, rest[5..])) else None
  }

  function ReadBlob(s: Bytes): Option<(Bytes, Bytes)> {
    match ReadVarInt(s)
    case None => None
    case Some((n, rest)) =>
      if n < INT_LIMIT && n <= |rest| then Some((rest[..n], rest[n..])) else None
  }

  function ReadOutput(s: Bytes): Option<(Output, Bytes)> {
    match ReadInt(8, s)
    case None => None
    case Some((value, rest)) =>
      match ReadBlob(rest)
      case None => None
      case Some((script, end)) => if value < INT_LIMIT then Some((Output(value, script), end)) else None
  }

  /** A counted list. */
  function ReadList<T>(read: Bytes -> Option<(T, Bytes)>, s: Bytes): Option<(seq<T>, Bytes)> {
    match ReadVarInt(s)
    case None => None
    case Some((n, rest)) => if n < INT_LIMIT then ReadMany(read, n, rest) else None
  }

  function ReadStack(s: Bytes): Option<(Stack, Bytes)> {
    ReadList(ReadBlob, s)
  }

  /** One witness stack per input, then the locktime. */
  function ReadTail(version: int, outpoints: seq<Outpoint>, outputs: seq<Output>, s: Bytes): Option<(Tx, Bytes)> {
    match ReadMany(ReadStack, |outpoints|, s)
    case None => None
    case Some((witnesses, rest)) =>
      match ReadInt(4, rest)
      case None => None
      case Some((locktime, end)) => Some((Tx(version, outpoints, outputs, witnesses, locktime), end))
  }

  /** The outputs and all that follows them. */
  function ReadOutputsOn(version: int, outpoints: seq<Outpoint>, s: Bytes): Option<(Tx, Bytes)> {
    match ReadList(ReadOutput, s)
    case None => None
    case Some((outputs, rest)) => ReadTail(version, outpoints, outputs, rest)
  }

  function ReadInputsOn(version: int, s: Bytes): Option<(Tx, Bytes)> {
    match ReadList(ReadInput, s)
    case None => None
    case Some((outpoints, rest)) => ReadOutputsOn(version, outpoints, rest)
  }

  /** One transaction from the front of a byte string. */
  function Parse(s: Bytes): Option<(Tx, Bytes)> {
    match ReadInt(4, s)
    case None => None
    case Some((version, rest)) =>
      if |rest| < 2 || rest[..2] != [0, 1] then None else ReadInputsOn(version, rest[2..])
  }

  // ----- Each record -----

  /** A hexadecimal transaction id in either letter case, and an index of 32 bits. */
  predicate ValidOutpoint(o: Outpoint) {
    |o.txid| == 64 && IsHex(o.txid) && 0 <= o.vout < 0x1_0000_0000
  }

  /** The form that reading returns. */
  predicate CanonicalOutpoint(o: Outpoint) {
    ValidOutpoint(o) && IsLowerHex(o.txid)
  }

  function Lower(o: Outpoint): Outpoint {
    o.(txid := ToLower(o.txid))
  }

  function LowerAll(outpoints: seq<Outpoint>): seq<Outpoint> {
    seq(|outpoints|, i requires 0 <= i < |outpoints| => Lower(outpoints[i]))
  }

  predicate ValidBlob(bytes: Bytes) { |bytes| < INT_LIMIT }

  predicate ValidOutput(o: Output) {
    0 <= o.value < INT_LIMIT && ValidBlob(o.scriptPubKey)
  }

  predicate ValidStack(stack: Stack) {
    |stack| < INT_LIMIT && forall i :: 0 <= i < |stack| ==> ValidBlob(stack[i])
  }

  lemma OutpointReads(o: Outpoint, rest: Bytes)
    requires CanonicalOutpoint(o)
    ensures |WriteOutpoint(o)| == 36
    ensures ReadOutpoint(WriteOutpoint(o) + rest) == Some((o, rest))
  {
    LowerIsNormal(o.txid);
    HexPairsRoundTrip(o.txid);
    ReverseTwice(Hex2Bin(o.txid));
    Widths();
    UnpackPack(4, o.vout);
    var s := WriteOutpoint(o) + rest;
    assert s[..32] == ReverseHex(o.txid) && s[32..36] == Pack(4, o.vout) && s[36..] == rest;
  }

  /** An outpoint on the wire: the id's bytes from last to first, then the index, lowest byte first. */
  lemma OutpointOnWire(o: Outpoint, k: nat)
    requires ValidOutpoint(o) && k < 32
    ensures |WriteOutpoint(o)| == 36
    ensures WriteOutpoint(o)[k] == 16 * HexValue(o.txid[62 - 2 * k]).value + HexValue(o.txid[63 - 2 * k]).value
    ensures Unpack(WriteOutpoint(o)[32..36]) == o.vout
  {
    ReverseAt(Hex2Bin(o.txid), k);
    HexPairAt(o.txid, 31 - k);
    Widths();
    UnpackPack(4, o.vout);
    assert WriteOutpoint(o)[32..36] == Pack(4, o.vout);
  }

  lemma OutpointIsCanonical(s: Bytes)
    requires ReadOutpoint(s).Some?
    ensures var (o, rest) := ReadOutpoint(s).value; CanonicalOutpoint(o) && s == WriteOutpoint(o) + rest
  {
    Widths();
    HexRoundTrip(Reverse(s[..32]));
    ReverseTwice(s[..32]);
    PackUnpack(s[32..36]);
    assert s == s[..32] + s[32..36] + s[36..];
  }

  lemma InputReads(o: Outpoint, rest: Bytes)
    requires CanonicalOutpoint(o)
    ensures ReadInput(WriteInput(o) + rest) == Some((o, rest))
  {
    Assoc(WriteOutpoint(o), InputEnd(), rest);
    OutpointReads(o, InputEnd() + rest);
    assert (InputEnd() + rest)[..5] == InputEnd() && (InputEnd() + rest)[5..] == rest;
  }

  lemma InputIsCanonical(s: Bytes)
    requires ReadInput(s).Some?
    ensures var (o, rest) := ReadInput(s).value; CanonicalOutpoint(o) && s == WriteInput(o) + rest
  {
    OutpointIsCanonical(s);
    var (o, tail) := ReadOutpoint(s).value;
    assert tail == tail[..5] + tail[5..];
    Assoc(WriteOutpoint(o), InputEnd(), tail[5..]);
  }

  lemma BlobReads(bytes: Bytes, rest: Bytes)
    requires ValidBlob(bytes)
    ensures ReadBlob(WriteBlob(bytes) + rest) == Some((bytes, rest))
  {
    Assoc(VarInt(|bytes|), bytes, rest);
    VarIntReads(|bytes|, bytes + rest);
    assert (bytes + rest)[..|bytes|] == bytes && (bytes + rest)[|bytes|..] == rest;
  }

  lemma BlobIsCanonical(s: Bytes)
    requires ReadBlob(s).Some?
    ensures var (bytes, rest) := ReadBlob(s).value; ValidBlob(bytes) && s == WriteBlob(bytes) + rest
  {
    VarIntIsCanonical(s);
    var (n, tail) := ReadVarInt(s).value;
    assert tail == tail[..n] + tail[n..];
    Assoc(VarInt(n), tail[..n], tail[n..]);
  }

  lemma OutputReads(o: Output, rest: Bytes)
    requires ValidOutput(o)
    ensures ReadOutput(WriteOutput(o) + rest) == Some((o, rest))
  {
    Widths();
    Assoc(Pack(8, o.value), WriteBlob(o.scriptPubKey), rest);
    IntReads(8, o.value, WriteBlob(o.scriptPubKey) + rest);
    BlobReads(o.scriptPubKey, rest);
  }

  lemma OutputIsCanonical(s: Bytes)
    requires ReadOutput(s).Some?
    ensures var (o, rest) := ReadOutput(s).value; ValidOutput(o) && s == WriteOutput(o) + rest
  {
    IntIsCanonical(8, s);
    var (value, tail) := ReadInt(8, s).value;
    BlobIsCanonical(tail);
    var (script, rest) := ReadBlob(tail).value;
    Assoc(Pack(8, value), WriteBlob(script), rest);
  }

  // ----- The codecs of all four record kinds -----

  lemma RecordsRead()
    ensures Reads(WriteOutpoint, ReadOutpoint, CanonicalOutpoint)
    ensures Reads(WriteInput, ReadInput, CanonicalOutpoint)
    ensures Reads(WriteOutput, ReadOutput, ValidOutput)
    ensures Reads(WriteBlob, ReadBlob, ValidBlob)
  {
    forall o, rest | CanonicalOutpoint(o) ensures
      && ReadOutpoint(WriteOutpoint(o) + rest) == Some((o, rest))
      && ReadInput(WriteInput(o) + rest) == Some((o, rest))
    {
      OutpointReads(o, rest);
      InputReads(o, rest);
    }
    forall o, rest | ValidOutput(o) ensures ReadOutput(WriteOutput(o) + rest) == Some((o, rest)) {
      OutputReads(o, rest);
    }
    forall b, rest | ValidBlob(b) ensures ReadBlob(WriteBlob(b) + rest) == Some((b, rest)) {
      BlobReads(b, rest);
    }
  }

  lemma RecordsAreCanonical()
    ensures Canonical(WriteInput, ReadInput, CanonicalOutpoint)
    ensures Canonical(WriteOutput, ReadOutput, ValidOutput)
    ensures Canonical(WriteBlob, ReadBlob, ValidBlob)
  {
    forall s | ReadInput(s).Some? ensures
      CanonicalOutpoint(ReadInput(s).value.0) && s == WriteInput(ReadInput(s).value.0) + ReadInput(s).value.1
    {
      InputIsCanonical(s);
    }
    forall s | ReadOutput(s).Some? ensures
      ValidOutput(ReadOutput(s).value.0) && s == WriteOutput(ReadOutput(s).value.0) + ReadOutput(s).value.1
    {
      OutputIsCanonical(s);
    }
    forall s | ReadBlob(s).Some? ensures
      ValidBlob(ReadBlob(s).value.0) && s == WriteBlob(ReadBlob(s).value.0) + ReadBlob(s).value.1
    {
      BlobIsCanonical(s);
    }
  }

  lemma ListReads<T(!new)>(write: T -> Bytes, read: Bytes -> Option<(T, Bytes)>, valid: T -> bool,
    ts: seq<T>, rest: Bytes)
    requires Reads(write, read, valid)
    requires |ts| < INT_LIMIT && forall i :: 0 <= i < |ts| ==> valid(ts[i])
    ensures ReadList(read, VarInt(|ts|) + WriteAll(write, ts) + rest) == Some((ts, rest))
  {
    var tail := WriteAll(write, ts) + rest;
    Assoc(VarInt(|ts|), WriteAll(write, ts), rest);
    VarIntReads(|ts|, tail);
    ManyReads(write, read, valid, ts, rest);
  }

  lemma ListIsCanonical<T(!new)>(write: T -> Bytes, read: Bytes -> Option<(T, Bytes)>, valid: T -> bool, s: Bytes)
    requires Canonical(write, read, valid) && ReadList(read, s).Some?
    ensures var (ts, rest) := ReadList(read, s).value;
      && |ts| < INT_LIMIT && (forall i :: 0 <= i < |ts| ==> valid(ts[i]))
      && s == VarInt(|ts|) + WriteAll(write, ts) + rest
  {
    VarIntIsCanonical(s);
    var (n, tail) := ReadVarInt(s).value;
    ManyIsCanonical(write, read, valid, n, tail);
    var (ts, rest) := ReadList(read, s).value;
    Assoc(VarInt(n), WriteAll(write, ts), rest);
  }

  lemma StacksRead()
    ensures Reads(WriteStack, ReadStack, ValidStack)
  {
    RecordsRead();
    forall stack: Stack, rest | ValidStack(stack)
      ensures ReadStack(WriteStack(stack) + rest) == Some((stack, rest))
    {
      ListReads(WriteBlob, ReadBlob, ValidBlob, stack, rest);
    }
  }

  lemma StacksAreCanonical()
    ensures Canonical(WriteStack, ReadStack, ValidStack)
  {
    RecordsAreCanonical();
    forall s | ReadStack(s).Some? ensures
      ValidStack(ReadStack(s).value.0) && s == WriteStack(ReadStack(s).value.0) + ReadStack(s).value.1
    {
      ListIsCanonical(WriteBlob, ReadBlob, ValidBlob, s);
    }
  }

  // ----- The transaction -----

  /** Every field fits its wire width, and there is one witness stack per input. */
  predicate ValidTx(tx: Tx) {
    && 0 <= tx.version < 0x1_0000_0000 && 0 <= tx.locktime < 0x1_0000_0000
    && |tx.outpoints| < INT_LIMIT && (forall i :: 0 <= i < |tx.outpoints| ==> ValidOutpoint(tx.outpoints[i]))
    && |tx.outputs| < INT_LIMIT && (forall i :: 0 <= i < |tx.outputs| ==> ValidOutput(tx.outputs[i]))
    && |tx.witnesses| == |tx.outpoints|
    && (forall i :: 0 <= i < |tx.witnesses| ==> ValidStack(tx.witnesses[i]))
  }

  /** A transaction whose ids are written in lower case. */
  predicate CanonicalTx(tx: Tx) {
    ValidTx(tx) && forall i :: 0 <= i < |tx.outpoints| ==> CanonicalOutpoint(tx.outpoints[i])
  }

  /** The same transaction with its ids in lower case. */
  function InLowerCase(tx: Tx): Tx {
    tx.(outpoints := LowerAll(tx.outpoints))
  }

  lemma LowerWritesAlike(o: Outpoint)
    requires ValidOutpoint(o)
    ensures CanonicalOutpoint(Lower(o)) && WriteOutpoint(Lower(o)) == WriteOutpoint(o)
    ensures IsLowerHex(o.txid) ==> Lower(o) == o
  {
    LowerDecodesAlike(o.txid);
    if IsLowerHex(o.txid) { LowerIsNormal(o.txid); }
  }

  /** The wire does not carry the letter case of an id. */
  lemma {:induction false} LowerAllWritesAlike(outpoints: seq<Outpoint>)
    requires forall i :: 0 <= i < |outpoints| ==> ValidOutpoint(outpoints[i])
    ensures WriteAll(WriteInput, LowerAll(outpoints)) == WriteAll(WriteInput, outpoints)
    ensures WriteAll(WriteOutpoint, LowerAll(outpoints)) == WriteAll(WriteOutpoint, outpoints)
    decreases |outpoints|
  {
    if outpoints != [] {
      LowerWritesAlike(outpoints[0]);
      assert LowerAll(outpoints)[1..] == LowerAll(outpoints[1..]);
      LowerAllWritesAlike(outpoints[1..]);
    }
  }

  lemma CanonicalForm(tx: Tx)
    requires ValidTx(tx)
    ensures CanonicalTx(InLowerCase(tx)) && Serialize(InLowerCase(tx)) == Serialize(tx)
    ensures CanonicalTx(tx) ==> InLowerCase(tx) == tx
  {
    forall i | 0 <= i < |tx.outpoints|
      ensures CanonicalOutpoint(Lower(tx.outpoints[i]))
      ensures IsLowerHex(tx.outpoints[i].txid) ==> Lower(tx.outpoints[i]) == tx.outpoints[i]
    {
      LowerWritesAlike(tx.outpoints[i]);
    }
    LowerAllWritesAlike(tx.outpoints);
    if CanonicalTx(tx) { assert LowerAll(tx.outpoints) == tx.outpoints; }
  }

  lemma TailReads(tx: Tx, rest: Bytes)
    requires CanonicalTx(tx)
    ensures ReadTail(tx.version, tx.outpoints, tx.outputs, TailSection(tx) + rest) == Some((tx, rest))
  {
    Widths();
    StacksRead();
    Assoc(WriteAll(WriteStack, tx.witnesses), Pack(4, tx.locktime), rest);
    ManyReads(WriteStack, ReadStack, ValidStack, tx.witnesses, Pack(4, tx.locktime) + rest);
    IntReads(4, tx.locktime, rest);
  }

  lemma SerializeSplits(tx: Tx, rest: Bytes)
    ensures Serialize(tx) + rest == Pack(4, tx.version) + ([0, 1] + (InputSection(tx.outpoints)
      + (OutputSection(tx.outputs) + (TailSection(tx) + rest))))
  {
    var outs := OutputSection(tx.outputs) + TailSection(tx);
    var ins := InputSection(tx.outpoints) + outs;
    Assoc(OutputSection(tx.outputs), TailSection(tx), rest);
    Assoc(InputSection(tx.outpoints), outs, rest);
    Assoc([0, 1], ins, rest);
    Assoc(Pack(4, tx.version), [0, 1] + ins, rest);
  }

  lemma InputsOnRead(tx: Tx, s: Bytes, rest: Bytes)
    requires CanonicalTx(tx) && s == TailSection(tx) + rest
    ensures ReadInputsOn(tx.version, InputSection(tx.outpoints) + (OutputSection(tx.outputs) + s)) == Some((tx, rest))
  {
    RecordsRead();
    ListReads(WriteInput, ReadInput, CanonicalOutpoint, tx.outpoints, OutputSection(tx.outputs) + s);
    ListReads(WriteOutput, ReadOutput, ValidOutput, tx.outputs, s);
    TailReads(tx, rest);
  }

  lemma ParseCanonical(tx: Tx, rest: Bytes)
    requires CanonicalTx(tx)
    ensures Parse(Serialize(tx) + rest) == Some((tx, rest))
  {
    Widths();
    SerializeSplits(tx, rest);
    var inner := InputSection(tx.outpoints) + (OutputSection(tx.outputs) + (TailSection(tx) + rest));
    var s := [0, 1] + inner;
    IntReads(4, tx.version, s);
    assert s[..2] == [0, 1] && s[2..] == inner;
    InputsOnRead(tx, TailSection(tx) + rest, rest);
  }

  /**
   * Parsing a serialised transaction recovers every field, whatever follows it: the fields
   * themselves when the ids are in lower case, and ids in lower case otherwise.
   */
  lemma ParseSerialize(tx: Tx, rest: Bytes)
    requires ValidTx(tx)
    ensures Parse(Serialize(tx) + rest) == Some((InLowerCase(tx), rest))
    ensures CanonicalTx(tx) ==> InLowerCase(tx) == tx
  {
    CanonicalForm(tx);
    ParseCanonical(InLowerCase(tx), rest);
  }

  lemma TailIsCanonical(version: int, outpoints: seq<Outpoint>, outputs: seq<Output>, s: Bytes)
    requires ReadTail(version, outpoints, outputs, s).Some?
    ensures var (tx, rest) := ReadTail(version, outpoints, outputs, s).value;
      && s == TailSection(tx) + rest
      && 0 <= tx.locktime < 0x1_0000_0000 && |tx.witnesses| == |outpoints|
      && tx.version == version && tx.outpoints == outpoints && tx.outputs == outputs
      && forall i :: 0 <= i < |tx.witnesses| ==> ValidStack(tx.witnesses[i])
  {
    Widths();
    StacksAreCanonical();
    ManyIsCanonical(WriteStack, ReadStack, ValidStack, |outpoints|, s);
    var (witnesses, mid) := ReadMany(ReadStack, |outpoints|, s).value;
    IntIsCanonical(4, mid);
    var (locktime, rest) := ReadInt(4, mid).value;
    Assoc(WriteAll(WriteStack, witnesses), Pack(4, locktime), rest);
  }

  lemma InputsOnIsCanonical(version: int, s: Bytes)
    requires 0 <= version < 0x1_0000_0000 && ReadInputsOn(version, s).Some?
    ensures var (tx, rest) := ReadInputsOn(version, s).value;
      && CanonicalTx(tx) && tx.version == version
      && s == InputSection(tx.outpoints) + (OutputSection(tx.outputs) + (TailSection(tx) + rest))
  {
    RecordsAreCanonical();
    ListIsCanonical(WriteInput, ReadInput, CanonicalOutpoint, s);
    var (outpoints, s2) := ReadList(ReadInput, s).value;
    ListIsCanonical(WriteOutput, ReadOutput, ValidOutput, s2);
    var (outputs, s3) := ReadList(ReadOutput, s2).value;
    TailIsCanonical(version, outpoints, outputs, s3);
  }

  /** The wire format is canonical: whatever parses is the serialisation of the result. */
  lemma ParseIsCanonical(s: Bytes)
    requires Parse(s).Some?
    ensures var (tx, rest) := Parse(s).value; CanonicalTx(tx) && s == Serialize(tx) + rest
  {
    Widths();
    IntIsCanonical(4, s);
    var (version, s1) := ReadInt(4, s).value;
    assert s1 == [0, 1] + s1[2..];
    InputsOnIsCanonical(version, s1[2..]);
    var (tx, rest) := Parse(s).value;
    SerializeSplits(tx, rest);
  }
}
