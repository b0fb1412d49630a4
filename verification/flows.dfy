/** What an accepted transaction of each kind does, read off its bytes: whom it pays, what it spends, when, and under which
    sighash. Addresses, scripts and operands are written out here and not through the validators' own predicates. */
module Flows {
  import opened Octets
  import opened Intents
  import opened Platforms
  import opened Script
  import opened LeafParsers
  import opened LeafStream
  import opened Taproot
  import opened Psbts
  import opened KeyOrigins
  import opened PegIn
  import opened PrePegIn
  import opened Deposit
  import opened Payout
  import opened NoPayout
  import opened Standalone
  import opened Session
  import opened Machine
  import opened LeafDispatch
  import opened LeafSpends
  import Bits
  import ScriptTheorems

  /** Output k is OP_1 and the BIP-86 output key of this key. */
  predicate Pays(p: Platform, t: Psbt, k: nat, key: Bytes32) {
    && k < |t.outputs| && t.outputs[k].amount.Some?
    && p.tweak(key, []).Some? && t.outputs[k].scriptPubKey == Some([0x51, 0x20] + p.tweak(key, []).value.1)
  }

  predicate DefaultSighash(i: Input) {
    i.sighash == Absent || i.sighash == Present(0)
  }

  predicate NoRelativeLock(i: Input) {
    i.sequence == Absent || i.sequence == Present(0xFFFF_FFFF)
  }

  /** The input carries this leaf script alone, and its WITNESS_UTXO is value and a taproot script that commits to it. */
  predicate Spends(p: Platform, i: Input, s: Bytes, value: U64) {
    && |i.leaves| == 1 && i.leaves[0].1 == s + [0xC0] && |i.leaves[0].0| <= 257 && |s| < 0x1_0000_0000
    && |i.witnessUtxo| == 43 && i.witnessUtxo[8] == 34 && FromLE(i.witnessUtxo[..8]) == value
    && Commits(p, i.leaves[0].0, LeafHash(p, s), i.witnessUtxo[9..])
  }

  lemma SpendsLeafMeans(p: Platform, loaded: bool, i: Intent, input: Input)
    requires loaded ==> i.InRange()
    requires LeafOf(loaded, i, input).Some? && SpendsLeaf(p, LeafOf(loaded, i, input).value, input)
    ensures ScriptOf(input).Some? && ReadWitnessUtxo(input).Some?
    ensures Spends(p, input, ScriptOf(input).value, ReadWitnessUtxo(input).value.0) && DefaultSighash(input)
    ensures ScriptOf(input).value != []
  {
    hide Commits, LeafPreimage, FromLE;
    FactsOfScript(loaded, i, input);
    ReadIsWhole(loaded, i, input);
    var value := input.leaves[0].1;
    assert value == value[..|value| - 1] + [value[|value| - 1]];
  }

  lemma ReadIsWhole(loaded: bool, i: Intent, input: Input)
    requires loaded ==> i.InRange()
    requires LeafOf(loaded, i, input).Some?
    ensures |input.leaves| == 1 && |input.leaves[0].0| <= 257 && LeafOf(loaded, i, input).value.0 == input.leaves[0].0
    ensures |input.leaves[0].1| > 1 && input.leaves[0].1[|input.leaves[0].1| - 1] == 0xC0
  {
    hide ScriptTheorems.AssertPrefix, CapturedPrefix;
  }

  lemma OwnOutputPays(p: Platform, t: Psbt, k: nat, key: Bytes32)
    requires OwnOutput(p, t, k, key)
    ensures Pays(p, t, k, key) && t.outputs[k].amount.value == ReadOutput(t, k).value.1
  {
  }

  lemma OwnsDevice(p: Platform, origins: seq<(Bytes, Bytes)>, key: Bytes32)
    requires Owns(p, origins, key)
    ensures DeviceKey(p, key)
  {
    hide Derived, DeviceKey;
    DerivedIsDevice(p, origins, key);
  }

  lemma DeviceOutputPays(p: Platform, t: Psbt, k: nat)
    requires ReadOutput(t, k).Some? && DeviceOutput(p, t, k)
    ensures exists key: Bytes32 :: DeviceKey(p, key) && Pays(p, t, k, key)
  {
    hide Derived, DeviceKey;
    var spk := ReadOutput(t, k).value.0;
    assert spk == [spk[0], spk[1]] + spk[2..];
    DerivedIsDevice(p, t.outputs[k].origins, spk[2..]);
    assert Pays(p, t, k, Derived(p, t.outputs[k].origins, spk[2..]).value);
  }

  // ---------------------------------------------------------------------------------------------
  // PayoutFinalize

  lemma PayoutOperand(s: Bytes)
    requires ParsePayoutLeaf(s).Some?
    ensures var (key, n) := ParsePayoutLeaf(s).value;
            |s| > 68 && key == s[1..33] && 90 <= n <= 4032 && EndsWithLock(s, n)
  {
    var n := ParsePayoutLeaf(s).value.1;
    if s[|s| - 4] == OP_PUSHBYTES_2 && s[|s| - 2] < 0x80 && n == s[|s| - 3] as nat + 256 * s[|s| - 2] as nat {
      assert s[|s| - 4..] == [0x02, s[|s| - 3], s[|s| - 2], 0xB2];
    } else {
      assert s[|s| - 3..] == [0x01, s[|s| - 2], 0xB2];
    }
  }

  /** An accepted PayoutFinalize spends on input 1, with its sequence equal to the operand at the end of the script, a payout
      leaf whose first key is paid by both outputs, the second with 546. */
  lemma AcceptedFinalize(p: Platform, d: Device, t: Psbt, out: Outside)
    requires Usable(d) && Validate(p, d, t, out).1 == Some(PayoutFinalizeTx)
    ensures |t.inputs| == 2 && |t.outputs| == 2 && t.version >= 2 && t.locktime == 0
    ensures ScriptOf(t.inputs[1]).Some? && |ScriptOf(t.inputs[1]).value| > 68
    ensures var s := ScriptOf(t.inputs[1]).value;
            && DeviceKey(p, s[1..33])
            && Pays(p, t, 0, s[1..33]) && t.outputs[0].amount.value > 0
            && Pays(p, t, 1, s[1..33]) && t.outputs[1].amount.value == 546
            && t.inputs[1].sequence.Present? && 90 <= t.inputs[1].sequence.value <= 4032
            && EndsWithLock(s, t.inputs[1].sequence.value)
            && (Loaded(d) ==> t.inputs[1].sequence.value == d.intent.scalars.payoutTimelock)
            && ReadWitnessUtxo(t.inputs[1]).Some? && Spends(p, t.inputs[1], s, ReadWitnessUtxo(t.inputs[1]).value.0)
            && DefaultSighash(t.inputs[1])
            && t.outputsTotal <= t.inputsTotal
  {
    hide Owns, DeviceKey, LeafOf, OwnOutput, ConnectorValueOk, FinalizeFeeOk, SpendsLeaf, ParsePayoutLeaf, ScriptOf,
         Pays, EndsWithLock, Spends, ReadWitnessUtxo, ValidatePegIn, ValidateNoPayout, ValidatePayout, ValidatePrePegIn,
         ValidateLeaf, WcOk, TwoInputKind, PoPOk;
    SpendsLeafMeans(p, Loaded(d), d.intent, t.inputs[1]);
    FactsOfScript(Loaded(d), d.intent, t.inputs[1]);
    var s := ScriptOf(t.inputs[1]).value;
    PayoutOperand(s);
    OwnsDevice(p, t.inputs[1].origins, s[1..33]);
    OwnOutputPays(p, t, 0, s[1..33]);
    OwnOutputPays(p, t, 1, s[1..33]);
  }

  // ---------------------------------------------------------------------------------------------
  // Flows on input 0

  lemma FromLeaf(p: Platform, d: Device, t: Psbt, out: Outside, kind: Kind)
    requires Usable(d) && Validate(p, d, t, out).1 == Some(kind) && kind in {ClaimTx, ReclaimTx, AssertTx, RefundTx}
    ensures ValidateLeaf(p, d, t, out) == Some(kind)
  {
    hide ValidatePegIn, ValidateNoPayout, ValidatePayout, ValidatePrePegIn, ValidateLeaf, FinalizeOk, WcOk,
         TwoInputKind, PoPOk;
  }

  lemma LeafFlow(p: Platform, d: Device, t: Psbt, out: Outside, kind: Kind)
    requires Usable(d) && Validate(p, d, t, out).1 == Some(kind) && kind in {ClaimTx, ReclaimTx, AssertTx, RefundTx}
    ensures |t.inputs| > 0 && LeafOf(Loaded(d), d.intent, t.inputs[0]).Some?
    ensures |LeafOf(Loaded(d), d.intent, t.inputs[0]).value.1.prefix| == PREFIX_LEN
    ensures LeafOf(Loaded(d), d.intent, t.inputs[0]).value.1.scriptLen > 33
    ensures LeafKindOk(p, d, t, LeafOf(Loaded(d), d.intent, t.inputs[0]).value, kind)
  {
    hide Validate, LeafOf, LeafKindOk, ClassifyLeaf;
    FromLeaf(p, d, t, out, kind);
    LeafLong(d, t);
  }

  lemma LeafLong(d: Device, t: Psbt)
    requires Usable(d)
    ensures |t.inputs| > 0 && LeafOf(Loaded(d), d.intent, t.inputs[0]).Some? ==>
              var leaf := LeafOf(Loaded(d), d.intent, t.inputs[0]).value.1;
              |leaf.prefix| == PREFIX_LEN && (ClassifyLeaf(t, leaf).Some? ==> leaf.scriptLen > 33)
  {
    hide LeafOf;
    if |t.inputs| > 0 && LeafOf(Loaded(d), d.intent, t.inputs[0]).Some? {
      LeafOfPrefix(Loaded(d), d.intent, t.inputs[0]);
    }
  }

  lemma ClaimScript(s: Bytes)
    requires ParseClaimLeaf(s).Some?
    ensures ParseClaimLeaf(s).value == s[1..33] && s == [0x20] + s[1..33] + [0xAC]
  {
    assert s == [s[0]] + s[1..33] + [s[33]];
  }

  /** An accepted Claim pays the anchor back to the key of its one-key leaf and spends more than it pays. */
  lemma AcceptedClaim(p: Platform, d: Device, t: Psbt, out: Outside)
    requires Usable(d) && Validate(p, d, t, out).1 == Some(ClaimTx)
    ensures |t.inputs| == 1 && |t.outputs| == 2 && t.version >= 2 && t.locktime == 0
    ensures ScriptOf(t.inputs[0]).Some? && |ScriptOf(t.inputs[0]).value| == 34
    ensures var s := ScriptOf(t.inputs[0]).value;
            && s == [0x20] + s[1..33] + [0xAC]
            && DeviceKey(p, s[1..33]) && Pays(p, t, 1, s[1..33]) && t.outputs[1].amount.value == 546
            && NoRelativeLock(t.inputs[0]) && DefaultSighash(t.inputs[0])
            && ReadWitnessUtxo(t.inputs[0]).Some? && Spends(p, t.inputs[0], s, ReadWitnessUtxo(t.inputs[0]).value.0)
            && 546 < t.outputsTotal < ReadWitnessUtxo(t.inputs[0]).value.0
  {
    hide Owns, DeviceKey, LeafOf, OwnOutput, SpendsLeaf, ParseClaimLeaf, ScriptOf, Pays, Spends, ReadWitnessUtxo,
         Validate;
    LeafFlow(p, d, t, out, ClaimTx);
    SpendsLeafMeans(p, Loaded(d), d.intent, t.inputs[0]);
    FactsOfScript(Loaded(d), d.intent, t.inputs[0]);
    ClaimScript(ScriptOf(t.inputs[0]).value);
    OwnsDevice(p, t.inputs[0].origins, ScriptOf(t.inputs[0]).value[1..33]);
    OwnOutputPays(p, t, 1, ScriptOf(t.inputs[0]).value[1..33]);
  }

  /** An accepted Reclaim spends a single-leaf output of its key, with the replaceable sequence, to that key. */
  lemma AcceptedReclaim(p: Platform, d: Device, t: Psbt, out: Outside)
    requires Usable(d) && Validate(p, d, t, out).1 == Some(ReclaimTx)
    ensures |t.inputs| == 1 && |t.outputs| == 1 && t.version >= 2 && t.locktime == 0
    ensures ScriptOf(t.inputs[0]).Some? && |ScriptOf(t.inputs[0]).value| == 34
    ensures var s := ScriptOf(t.inputs[0]).value;
            && s == [0x20] + s[1..33] + [0xAC] && |t.inputs[0].leaves| == 1 && |t.inputs[0].leaves[0].0| == 33
            && DeviceKey(p, s[1..33]) && Pays(p, t, 0, s[1..33])
            && t.inputs[0].sequence == Present(0xFFFF_FFFD) && DefaultSighash(t.inputs[0])
            && ReadWitnessUtxo(t.inputs[0]).Some? && Spends(p, t.inputs[0], s, ReadWitnessUtxo(t.inputs[0]).value.0)
            && 546 < ReadWitnessUtxo(t.inputs[0]).value.0 && t.outputs[0].amount.value < ReadWitnessUtxo(t.inputs[0]).value.0
  {
    hide Owns, DeviceKey, LeafOf, OwnOutput, SpendsLeaf, ParseClaimLeaf, ScriptOf, Pays, ReadWitnessUtxo, Validate;
    LeafFlow(p, d, t, out, ReclaimTx);
    SpendsLeafMeans(p, Loaded(d), d.intent, t.inputs[0]);
    ReadIsWhole(Loaded(d), d.intent, t.inputs[0]);
    FactsOfScript(Loaded(d), d.intent, t.inputs[0]);
    ClaimScript(ScriptOf(t.inputs[0]).value);
    OwnsDevice(p, t.inputs[0].origins, ScriptOf(t.inputs[0]).value[1..33]);
    OwnOutputPays(p, t, 0, ScriptOf(t.inputs[0]).value[1..33]);
  }

  /** An accepted Refund waits for exactly the timelock of its leaf, which is the intent's when one is loaded and at least 72
      otherwise, and spends no less than it pays. */
  lemma AcceptedRefund(p: Platform, d: Device, t: Psbt, out: Outside)
    requires Usable(d) && Validate(p, d, t, out).1 == Some(RefundTx)
    ensures |t.inputs| == 1 && |t.outputs| == 1 && t.version >= 2 && t.locktime == 0
    ensures ScriptOf(t.inputs[0]).Some? && |ScriptOf(t.inputs[0]).value| >= 36 && t.inputs[0].sequence.Present?
    ensures var s, n := ScriptOf(t.inputs[0]).value, t.inputs[0].sequence.value;
            && 1 <= n <= 0xFFFF && IsRefundScript(s, s[1..33], n)
            && (if Loaded(d) then n == d.intent.scalars.refundTimelock && t.inputs[0].prevTxid == d.intent.scalars.prePegInTxid
                else n >= 72)
            && DefaultSighash(t.inputs[0])
            && ReadWitnessUtxo(t.inputs[0]).Some? && Spends(p, t.inputs[0], s, ReadWitnessUtxo(t.inputs[0]).value.0)
            && t.outputs[0].amount.Some? && t.outputs[0].amount.value <= ReadWitnessUtxo(t.inputs[0]).value.0
            && DeviceKey(p, s[1..33]) && exists key: Bytes32 :: DeviceKey(p, key) && Pays(p, t, 0, key)
  {
    hide Owns, DeviceKey, DeviceOutput, LeafOf, SpendsLeaf, ParseRefundLeaf, ScriptOf, Spends, ReadWitnessUtxo,
         Validate, IsRefundScript;
    LeafFlow(p, d, t, out, RefundTx);
    SpendsLeafMeans(p, Loaded(d), d.intent, t.inputs[0]);
    FactsOfScript(Loaded(d), d.intent, t.inputs[0]);
    var s := ScriptOf(t.inputs[0]).value;
    RefundKey(s);
    RefundLeafAccepts(s, s[1..33], ParseRefundLeaf(s).value.1);
    OwnsDevice(p, t.inputs[0].origins, s[1..33]);
    DeviceOutputPays(p, t, 0);
  }

  lemma RefundKey(s: Bytes)
    requires ParseRefundLeaf(s).Some?
    ensures |s| >= 36 && ParseRefundLeaf(s).value.0 == s[1..33]
  {
    hide ParsePush;
  }

  /** An accepted WC, with or without a wallet, spends the leaf of a key and a label hash to that key. */
  lemma AcceptedWc(p: Platform, d: Device, t: Psbt, out: Outside)
    requires Usable(d) && Validate(p, d, t, out).1 == Some(WcTx)
    ensures |t.inputs| >= 1 && |t.outputs| == 1 && t.version >= 2 && t.locktime == 0
    ensures ScriptOf(t.inputs[0]).Some? && |ScriptOf(t.inputs[0]).value| == 73
    ensures var s := ScriptOf(t.inputs[0]).value;
            && s == WcScript(s[1..33], s[40..72])
            && DeviceKey(p, s[1..33]) && Pays(p, t, 0, s[1..33]) && t.outputs[0].amount.value < t.inputsTotal
            && NoRelativeLock(t.inputs[0]) && DefaultSighash(t.inputs[0])
            && ReadWitnessUtxo(t.inputs[0]).Some? && Spends(p, t.inputs[0], s, ReadWitnessUtxo(t.inputs[0]).value.0)
  {
    hide Owns, DeviceKey, LeafOf, OwnOutput, SpendsLeaf, IsWcLeaf, ScriptOf, Pays, Spends, ReadWitnessUtxo, Validate,
         WcScript;
    WcFlow(p, d, t, out);
    SpendsLeafMeans(p, Loaded(d), d.intent, t.inputs[0]);
    FactsOfScript(Loaded(d), d.intent, t.inputs[0]);
    var s := ScriptOf(t.inputs[0]).value;
    WcLength(s);
    WcLeafExact(s);
    OwnsDevice(p, t.inputs[0].origins, s[1..33]);
    OwnOutputPays(p, t, 0, s[1..33]);
  }

  lemma WcLength(s: Bytes)
    requires IsWcLeaf(s)
    ensures |s| == 73
  {
  }

  lemma WcFlow(p: Platform, d: Device, t: Psbt, out: Outside)
    requires Usable(d) && Validate(p, d, t, out).1 == Some(WcTx)
    ensures WcOk(p, Loaded(d), d.intent, t)
  {
    hide ValidatePegIn, ValidateNoPayout, ValidatePayout, ValidatePrePegIn, FinalizeOk, WcOk, TwoInputKind, PoPOk,
         LeafOf, ClassifyLeaf;
  }

  /** An accepted Assert spends its committed leaf without a relative lock. */
  lemma AcceptedAssert(p: Platform, d: Device, t: Psbt, out: Outside)
    requires Usable(d) && Validate(p, d, t, out).1 == Some(AssertTx)
    ensures |t.inputs| == 1 && t.version >= 2 && t.locktime == 0
    ensures ScriptOf(t.inputs[0]).Some? && ReadWitnessUtxo(t.inputs[0]).Some?
    ensures Spends(p, t.inputs[0], ScriptOf(t.inputs[0]).value, ReadWitnessUtxo(t.inputs[0]).value.0)
    ensures |ScriptOf(t.inputs[0]).value| > 33 && DeviceKey(p, ScriptOf(t.inputs[0]).value[1..33])
    ensures NoRelativeLock(t.inputs[0]) && DefaultSighash(t.inputs[0]) && t.outputsTotal <= t.inputsTotal
  {
    hide Owns, DeviceKey, LeafOf, SpendsLeaf, ScriptOf, Spends, ReadWitnessUtxo, CapturedPrefix, Validate;
    LeafFlow(p, d, t, out, AssertTx);
    SpendsLeafMeans(p, Loaded(d), d.intent, t.inputs[0]);
    FactsOfScript(Loaded(d), d.intent, t.inputs[0]);
    PrefixKey(ScriptOf(t.inputs[0]).value);
    OwnsDevice(p, t.inputs[0].origins, ScriptOf(t.inputs[0]).value[1..33]);
  }

  lemma PrefixKey(s: Bytes)
    requires |s| > 33
    ensures CapturedPrefix(s)[1..33] == s[1..33]
  {
  }

  // ---------------------------------------------------------------------------------------------
  // Sighash

  lemma CountedSighash(p: Platform, d: Device, t: Psbt)
    requires Usable(d)
    ensures ValidatePegIn(p, d, t).1 ==> |t.inputs| > 0 && DefaultSighash(t.inputs[0])
    ensures ValidatePayout(p, d, t).1 ==> |t.inputs| > 0 && DefaultSighash(t.inputs[0])
    ensures ValidateNoPayout(p, d, t).1 ==> |t.inputs| > 0 && DefaultSighash(t.inputs[0])
  {
    hide Leaf0Present, HtlcMerkleRoot, PegInOutputsOk, Bits.BitAt, Slot, Detect, ConnectorInputOk, ReadAmounts, MoneyOk,
         LeafOf, DetectChallenger, NoPayoutLeaf, LeafCommitted, ConnectorValueOk, Bip86Spk, WithinFee, VaultUtxoLeaf,
         Lookup;
  }

  /** Whatever kind is accepted, the input that is signed has the default sighash: no field, or an explicit 0. */
  lemma SignedInputSighash(p: Platform, d: Device, t: Psbt, out: Outside)
    requires Usable(d) && Validate(p, d, t, out).1.Some?
    ensures var n := SignedInput(BranchOf(Validate(p, d, t, out).1.value));
            n.Some? ==> n.value < |t.inputs| && DefaultSighash(t.inputs[n.value])
  {
    hide Validate, Pays, Spends, EndsWithLock, WcScript, IsRefundScript, ScriptOf, ReadWitnessUtxo, DefaultSighash,
         ValidatePegIn, ValidatePayout, ValidateNoPayout;
    var kind := Validate(p, d, t, out).1.value;
    match kind {
      case PayoutFinalizeTx => AcceptedFinalize(p, d, t, out);
      case ClaimTx => AcceptedClaim(p, d, t, out);
      case ReclaimTx => AcceptedReclaim(p, d, t, out);
      case RefundTx => AcceptedRefund(p, d, t, out);
      case WcTx => AcceptedWc(p, d, t, out);
      case AssertTx => AcceptedAssert(p, d, t, out);
      case PoPTx =>
      case PrePegInTx =>
      case _ =>
        CountedSighash(p, d, t);
        CountedFlow(p, d, t, out);
    }
  }

  lemma CountedFlow(p: Platform, d: Device, t: Psbt, out: Outside)
    requires Usable(d) && Validate(p, d, t, out).1.Some?
    ensures match Validate(p, d, t, out).1.value
            case PegInTransaction => ValidatePegIn(p, d, t).1
            case PayoutTx => ValidatePayout(p, d, t).1
            case NoPayoutTx => ValidateNoPayout(p, d, t).1
            case PrePegInTx => ValidatePrePegIn(p, d, t).1
            case _ => true
  {
    hide ValidatePegIn, ValidateNoPayout, ValidatePayout, ValidatePrePegIn, ValidateLeaf, FinalizeOk, WcOk,
         TwoInputKind, PoPOk;
  }
}
