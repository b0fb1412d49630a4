/** The reviewed flows: which transactions each accepts, up to address strings and screens. */
module Standalone {
  import opened Octets
  import opened Intents
  import opened Platforms
  import opened Script
  import opened LeafParsers
  import opened LeafStream
  import opened Psbts
  import opened KeyOrigins
  import opened PrePegIn
  import opened Payout

  const WC_LEAF_LEN: nat := 73
  const RECLAIM_SEQUENCE: U32 := 0xFFFF_FFFD
  const PAYOUTFINALIZE_VSIZE: nat := 500

  predicate Modern(t: Psbt) {
    t.version >= 2 && t.locktime == 0
  }

  predicate SequenceFinal(i: Input) {
    i.sequence == Absent || i.sequence == Present(SEQUENCE_FINAL)
  }

  /** The input spends the leaf with the default sighash. */
  predicate SpendsLeaf(p: Platform, leaf: (Bytes, LeafFacts), i: Input) {
    SighashDefault(i) && LeafCommitted(p, leaf, i)
  }

  /** Output k pays the key's own BIP-86 address. */
  predicate OwnOutput(p: Platform, t: Psbt, k: nat, key: Bytes32) {
    ReadOutput(t, k).Some? && Bip86Spk(p, key) == Some(ReadOutput(t, k).value.0)
  }

  predicate Shape(t: Psbt, inputs: nat, outputs: nat) {
    |t.inputs| == inputs && |t.outputs| == outputs
  }

  predicate PoPOk(t: Psbt) {
    Shape(t, 1, 1) && t.locktime == 0 && SighashDefault(t.inputs[0]) && |t.inputs[0].prevTxid| == 32
  }

  predicate ClaimOk(p: Platform, t: Psbt, leaf: (Bytes, LeafFacts)) {
    && Shape(t, 1, 2) && Modern(t)
    && leaf.1.buffered.Some? && ParseClaimLeaf(leaf.1.buffered.value).Some?
    && SequenceFinal(t.inputs[0]) && SpendsLeaf(p, leaf, t.inputs[0])
    && Owns(p, t.inputs[0].origins, ParseClaimLeaf(leaf.1.buffered.value).value)
    && OwnOutput(p, t, 1, ParseClaimLeaf(leaf.1.buffered.value).value) && ReadOutput(t, 1).value.1 == DUST_LIMIT
    && DUST_LIMIT < t.outputsTotal < ReadWitnessUtxo(t.inputs[0]).value.0
    && ReadOutput(t, 0).Some? && |t.inputs[0].prevTxid| == 32
  }

  predicate ReclaimOk(p: Platform, t: Psbt, leaf: (Bytes, LeafFacts)) {
    && Shape(t, 1, 1) && Modern(t)
    && leaf.1.buffered.Some? && ParseClaimLeaf(leaf.1.buffered.value).Some?
    && |leaf.0| == 33 && t.inputs[0].sequence == Present(RECLAIM_SEQUENCE)
    && SpendsLeaf(p, leaf, t.inputs[0]) && ReadWitnessUtxo(t.inputs[0]).value.0 > DUST_LIMIT
    && Owns(p, t.inputs[0].origins, ParseClaimLeaf(leaf.1.buffered.value).value)
    && OwnOutput(p, t, 0, ParseClaimLeaf(leaf.1.buffered.value).value)
    && ReadOutput(t, 0).value.1 < ReadWitnessUtxo(t.inputs[0]).value.0 && |t.inputs[0].prevTxid| == 32
  }

  predicate AssertOk(p: Platform, t: Psbt, leaf: (Bytes, LeafFacts))
    requires |leaf.1.prefix| == PREFIX_LEN
  {
    && |t.inputs| == 1 && Modern(t)
    && SequenceFinal(t.inputs[0]) && SpendsLeaf(p, leaf, t.inputs[0])
    && Owns(p, t.inputs[0].origins, leaf.1.prefix[1..33])
    && |t.inputs[0].prevTxid| == 32 && t.outputsTotal <= t.inputsTotal
  }

  predicate IsWcLeaf(s: Bytes) {
    && |s| == WC_LEAF_LEN && s[0] == OP_PUSHBYTES_32 && s[33] == OP_CHECKSIGVERIFY
    && s[34] == OP_SIZE && s[35] == OP_PUSHBYTES_1 && s[36] == 32 && s[37] == OP_EQUALVERIFY
    && s[38] == OP_SHA256 && s[39] == OP_PUSHBYTES_32 && s[72] == OP_EQUAL
  }

  predicate WcOk(p: Platform, loaded: bool, i: Intent, t: Psbt)
    requires loaded ==> i.InRange()
  {
    && |t.inputs| >= 1 && |t.outputs| == 1 && Modern(t)
    && var leaf := LeafOf(loaded, i, t.inputs[0]);
       && leaf.Some? && leaf.value.1.buffered.Some? && IsWcLeaf(leaf.value.1.buffered.value)
       && SequenceFinal(t.inputs[0]) && SpendsLeaf(p, leaf.value, t.inputs[0])
       && Owns(p, t.inputs[0].origins, leaf.value.1.buffered.value[1..33])
       && OwnOutput(p, t, 0, leaf.value.1.buffered.value[1..33])
       && ReadOutput(t, 0).value.1 < t.inputsTotal
  }

  /** The timelock of a refund: the intent's when one is loaded, otherwise at least the protocol minimum. */
  predicate RefundTimelockOk(loaded: bool, i: Intent, csv: nat) {
    if loaded then csv == i.scalars.refundTimelock else csv >= TIMELOCK_MIN
  }

  /** Output k is a taproot output whose key is the BIP-86 key of a key of the device. */
  predicate DeviceOutput(p: Platform, t: Psbt, k: nat)
    requires ReadOutput(t, k).Some?
  {
    var spk := ReadOutput(t, k).value.0;
    spk[0] == OP_1 && spk[1] == OP_PUSHBYTES_32 && OwnsOutput(p, t.outputs[k].origins, spk[2..])
  }

  predicate RefundOk(p: Platform, loaded: bool, i: Intent, t: Psbt, leaf: (Bytes, LeafFacts)) {
    && Shape(t, 1, 1) && Modern(t)
    && leaf.1.buffered.Some? && ParseRefundLeaf(leaf.1.buffered.value).Some?
    && var csv := ParseRefundLeaf(leaf.1.buffered.value).value.1;
       && RefundTimelockOk(loaded, i, csv)
       && t.inputs[0].sequence.Present? && t.inputs[0].sequence.value == csv
       && SpendsLeaf(p, leaf, t.inputs[0]) && Owns(p, t.inputs[0].origins, ParseRefundLeaf(leaf.1.buffered.value).value.0)
       && ReadOutput(t, 0).Some? && ReadOutput(t, 0).value.1 <= ReadWitnessUtxo(t.inputs[0]).value.0
       && DeviceOutput(p, t, 0)
       && |t.inputs[0].prevTxid| == 32 && (loaded ==> t.inputs[0].prevTxid == i.scalars.prePegInTxid)
  }

  /** With a single-vault intent the fee is bounded against the amount of its only group. */
  predicate FinalizeFeeOk(i: Intent, received: U64)
    requires Ready(i)
  {
    var amount := i.groups[0].amount;
    && received < Wrap64(amount - DUST_LIMIT)
    && WithinFee(i.scalars.baseFeeRate, PAYOUTFINALIZE_VSIZE, Wrap64(amount - DUST_LIMIT - received))
  }

  predicate FinalizeOk(p: Platform, loaded: bool, i: Intent, t: Psbt)
    requires loaded ==> Ready(i)
  {
    && Shape(t, 2, 2) && Modern(t)
    && var leaf := LeafOf(loaded, i, t.inputs[1]);
       && leaf.Some? && leaf.value.1.buffered.Some? && ParsePayoutLeaf(leaf.value.1.buffered.value).Some?
       && var (key, t2) := ParsePayoutLeaf(leaf.value.1.buffered.value).value;
          && (loaded ==> t2 == i.scalars.payoutTimelock) && Owns(p, t.inputs[1].origins, key)
          && SpendsLeaf(p, leaf.value, t.inputs[1])
          && ReadWitnessUtxo(t.inputs[1]).value.0 >= DUST_LIMIT
          && (loaded ==> ConnectorValueOk(i.scalars.baseFeeRate, ReadWitnessUtxo(t.inputs[1]).value.0))
          && t.inputs[1].sequence.Present? && t.inputs[1].sequence.value == t2
          && OwnOutput(p, t, 0, key) && ReadOutput(t, 0).value.1 > 0
          && OwnOutput(p, t, 1, key) && ReadOutput(t, 1).value.1 == DUST_LIMIT
          && |t.inputs[0].prevTxid| == 32
          && (loaded && i.V() == 1 ==> FinalizeFeeOk(i, ReadOutput(t, 0).value.1))
          && t.outputsTotal <= t.inputsTotal
  }

  /** A PayoutFinalize of a single-vault intent leaves the leaf's own key at least the vault amount less the anchor and the
      fee bound; the subtraction cannot wrap because of what the loader enforced. */
  lemma FinalizePays(p: Platform, i: Intent, t: Psbt)
    requires Ready(i) && i.V() == 1 && ValidGroup(i.groups[0]) && FinalizeOk(p, true, i, t)
    ensures ReadOutput(t, 0).Some?
    ensures ReadOutput(t, 0).value.1 + DUST_LIMIT + i.scalars.baseFeeRate * PAYOUTFINALIZE_VSIZE >= i.groups[0].amount
    ensures ReadOutput(t, 0).value.1 + DUST_LIMIT < i.groups[0].amount
  {
    hide SpendsLeaf, ConnectorValueOk, LeafOf, ParsePayoutLeaf, Bip86Spk, WithinFee;
    var received := ReadOutput(t, 0).value.1;
    assert FinalizeFeeOk(i, received);
    WithinFeeMeans(i.scalars.baseFeeRate, PAYOUTFINALIZE_VSIZE, i.groups[0].amount - DUST_LIMIT - received);
  }
}
