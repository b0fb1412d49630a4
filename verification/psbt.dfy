/** The transaction under review, as the immutable record the Merkleized PSBT stands for. */
module Psbts {
  import opened Octets
  import opened LeafStream

  const SIGHASH_DEFAULT: U32 := 0
  const SIGHASH_ALL: U32 := 1
  const SEQUENCE_FINAL: U32 := 0xFFFF_FFFF

  datatype Field<+T> = Absent | Present(value: T) | Unreadable

  /** A missing byte field is the empty string: every reader here asks for an exact positive length. */
  datatype Input = Input(
    prevTxid: Bytes,
    prevVout: Field<U32>,
    sequence: Field<U32>,
    sighash: Field<U32>,
    witnessUtxo: Bytes,
    internalKey: Bytes,
    merkleRoot: Bytes,
    /** TAP_LEAF_SCRIPT entries in key order: control block, then leaf script and version. */
    leaves: seq<(Bytes, Bytes)>,
    /** TAP_BIP32_DERIVATION values by key. */
    origins: seq<(Bytes, Bytes)> := [])

  datatype Output = Output(amount: Option<U64>, scriptPubKey: Option<Bytes>, origins: seq<(Bytes, Bytes)> := [])
  {
    function Script(): Bytes {
      if scriptPubKey.Some? then scriptPubKey.value else []
    }
  }

  datatype Transaction = Transaction(
    version: U32,
    locktime: U32,
    inputs: seq<Input>,
    outputs: seq<Output>,
    noWalletPolicy: bool,
    nativeSegwit: bool,
    /** Inputs and outputs of the wallet policy. */
    internalInputs: set<nat>,
    internalOutputs: set<nat>,
    /** inputs_total_amount and outputs.total_amount, as the base app added them up. */
    inputsTotal: U64,
    outputsTotal: U64,
    accountIsDefault: bool,
    purpose: U32,
    account: U32)

  const EMPTY_TRANSACTION :=
    Transaction(0, 0, [], [], true, false, {}, {}, 0, 0, false, 0, 0)

  /** Counts are 32 bits wide, and the base app marks no input as internal without a wallet policy. */
  type Psbt = t: Transaction |
      |t.inputs| < 0x1_0000_0000 && |t.outputs| < 0x1_0000_0000 && (t.noWalletPolicy ==> t.internalInputs == {})
    witness EMPTY_TRANSACTION

  /** What the outputs add up to. */
  function OutputSum(outputs: seq<Output>): nat {
    if outputs == [] then 0
    else
      var last := outputs[|outputs| - 1];
      OutputSum(outputs[..|outputs| - 1]) + (if last.amount.Some? then last.amount.value else 0)
  }

  /** The base app's output total is the sum of the output amounts. */
  predicate OutputsAddUp(t: Psbt) {
    t.outputsTotal == OutputSum(t.outputs)
  }

  /** The value of the map entry with this key: of a TAP_LEAF_SCRIPT by its control block, of a derivation by its x-only key. */
  function Lookup(entries: seq<(Bytes, Bytes)>, key: Bytes): Option<Bytes> {
    if entries == [] then None
    else if entries[0].0 == key then Some(entries[0].1)
    else Lookup(entries[1..], key)
  }

  /** _read_output: a 34-byte script and its amount. */
  function ReadOutput(t: Psbt, k: nat): (r: Option<(Bytes, U64)>)
    ensures r.Some? ==> k < |t.outputs| && |r.value.0| == 34
  {
    if k >= |t.outputs| || t.outputs[k].amount.None? || |t.outputs[k].Script()| != 34 then None
    else Some((t.outputs[k].Script(), t.outputs[k].amount.value))
  }

  /** _read_output_varlen: a script of at most max bytes, possibly empty, and its amount. */
  function ReadOutputVar(t: Psbt, k: nat, max: nat): (r: Option<(Bytes, U64)>)
    ensures r.Some? ==> k < |t.outputs| && |r.value.0| <= max
  {
    if k >= |t.outputs| || t.outputs[k].amount.None? || t.outputs[k].scriptPubKey.None?
       || |t.outputs[k].Script()| > max then None
    else Some((t.outputs[k].Script(), t.outputs[k].amount.value))
  }

  /** The value and 34-byte script of a WITNESS_UTXO field. */
  function ReadWitnessUtxo(i: Input): (r: Option<(U64, Bytes)>)
    ensures r.Some? ==> |r.value.1| == 34
  {
    if |i.witnessUtxo| != 43 || i.witnessUtxo[8] != 34 then None
    else
      Pow256Values();
      LEEncodes(i.witnessUtxo[..8]);
      Some((FromLE(i.witnessUtxo[..8]), i.witnessUtxo[9..]))
  }

  /** Absent or an explicit SIGHASH_DEFAULT. */
  predicate SighashDefault(i: Input) {
    i.sighash == Absent || i.sighash == Present(SIGHASH_DEFAULT)
  }

  /** Legacy serialization of an input with an empty scriptSig. */
  function SerializeInput(i: Input): Bytes {
    i.prevTxid + LE(if i.prevVout.Present? then i.prevVout.value else 0, 4) + [0]
    + LE(if i.sequence.Present? then i.sequence.value else SEQUENCE_FINAL, 4)
  }

  function SerializeOutput(o: Output): Bytes
    requires |o.Script()| < 0x1_0000_0000
  {
    LE(if o.amount.Some? then o.amount.value else 0, 8) + Varint(|o.Script()|) + o.Script()
  }

  function SerializeInputs(inputs: seq<Input>): Bytes {
    if inputs == [] then [] else SerializeInput(inputs[0]) + SerializeInputs(inputs[1..])
  }

  function SerializeOutputs(outputs: seq<Output>): Bytes
    requires forall o :: o in outputs ==> |o.Script()| < 0x1_0000_0000
  {
    if outputs == [] then [] else SerializeOutput(outputs[0]) + SerializeOutputs(outputs[1..])
  }

  /** The non-witness serialization, whose double SHA-256 is the txid. */
  function Serialize(t: Psbt): Bytes
    requires |t.inputs| < 0x1_0000_0000 && |t.outputs| < 0x1_0000_0000
    requires forall o :: o in t.outputs ==> |o.Script()| < 0x1_0000_0000
  {
    LE(t.version, 4) + Varint(|t.inputs|) + SerializeInputs(t.inputs)
    + Varint(|t.outputs|) + SerializeOutputs(t.outputs) + LE(t.locktime, 4)
  }
}
