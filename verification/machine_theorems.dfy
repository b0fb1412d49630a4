/** An accepted transaction passes every check the signer repeats. */
module MachineTheorems {
  import opened Octets
  import opened Intents
  import opened Platforms
  import opened Bits
  import opened Script
  import opened ScriptTheorems
  import opened LeafParsers
  import opened LeafStream
  import opened Taproot
  import opened Psbts
  import opened KeyOrigins
  import opened PegIn
  import opened PrePegIn
  import opened Deposit
  import opened Payout
  import opened NoPayout
  import opened Standalone
  import opened Loading
  import opened Session
  import opened Machine

  lemma PegInRechecks(p: Platform, d: Device, t: Psbt)
    requires Usable(d) && ValidatePegIn(p, d, t).1
    ensures Usable(ValidatePegIn(p, d, t).0) && Rechecks(p, ValidatePegIn(p, d, t).0, t, SignPegIn)
  {
    hide LE, HtlcTree, PegInOutputsOk, GroupByVout, ControlBlock, Lookup;
  }

  lemma PayoutRechecks(p: Platform, d: Device, t: Psbt)
    requires Usable(d) && ValidatePayout(p, d, t).1
    ensures Usable(ValidatePayout(p, d, t).0) && Rechecks(p, ValidatePayout(p, d, t).0, t, SignPayout)
  {
    hide Detect, ConnectorInputOk, ReadAmounts, MoneyOk, VaultUtxoLeaf, ControlBlock, Lookup, BitAt;
  }

  lemma NoPayoutRechecks(p: Platform, d: Device, t: Psbt)
    requires Usable(d) && ValidateNoPayout(p, d, t).1
    ensures Usable(ValidateNoPayout(p, d, t).0) && Rechecks(p, ValidateNoPayout(p, d, t).0, t, SignNoPayout)
  {
    hide LeafOf, NoPayoutLeaf, ConnectorValueOk, Bip86Spk, WithinFee, Commits, KeyAt;
  }

  /** The facts read from a buffered leaf are those of the script itself. */
  lemma BufferedFacts(loaded: bool, i: Intent, input: Input)
    requires loaded ==> i.InRange()
    requires LeafOf(loaded, i, input).Some? && LeafOf(loaded, i, input).value.1.buffered.Some?
    ensures var leaf := LeafOf(loaded, i, input).value.1;
            && leaf.scriptLen == |leaf.buffered.value|
            && leaf.prefix == CapturedPrefix(leaf.buffered.value)
            && (forall k :: 0 <= k < Min(PREFIX_LEN, |leaf.buffered.value|) ==> leaf.prefix[k] == leaf.buffered.value[k])
  {
    hide AssertPrefix;
  }

  /** The signer takes the key from the captured prefix. */
  lemma KeyOfPrefix(loaded: bool, i: Intent, input: Input)
    requires loaded ==> i.InRange()
    requires LeafOf(loaded, i, input).Some? && LeafOf(loaded, i, input).value.1.buffered.Some?
    requires |LeafOf(loaded, i, input).value.1.buffered.value| > 33
    ensures var leaf := LeafOf(loaded, i, input).value.1;
            |leaf.prefix| == PREFIX_LEN && leaf.prefix[1..33] == leaf.buffered.value[1..33]
  {
    hide LeafOf;
    BufferedFacts(loaded, i, input);
    LeafOfPrefix(loaded, i, input);
  }

  /** Where the parsers find the key. */
  lemma ParsedKeys(s: Bytes)
    ensures ParseClaimLeaf(s).Some? ==> |s| > 33 && ParseClaimLeaf(s).value == s[1..33]
    ensures ParseRefundLeaf(s).Some? ==> |s| > 33 && ParseRefundLeaf(s).value.0 == s[1..33]
    ensures ParsePayoutLeaf(s).Some? ==> |s| > 33 && ParsePayoutLeaf(s).value.0 == s[1..33]
    ensures IsWcLeaf(s) ==> |s| > 33
  {
    hide ParsePush;
  }

  lemma FinalizeRechecks(p: Platform, d: Device, t: Psbt)
    requires Usable(d) && FinalizeOk(p, Loaded(d), d.intent, t)
    ensures Rechecks(p, d.(ctx := d.ctx.(isPayoutSigning := false)), t, SignFinalize)
  {
    hide LeafOf, OwnOutput, ConnectorValueOk, FinalizeFeeOk, Commits, Owns, WithinFee;
    BufferedFacts(Loaded(d), d.intent, t.inputs[1]);
    LeafOfPrefix(Loaded(d), d.intent, t.inputs[1]);
    ParsedKeys(LeafOf(Loaded(d), d.intent, t.inputs[1]).value.1.buffered.value);
    KeyOfPrefix(Loaded(d), d.intent, t.inputs[1]);
  }

  lemma WcRechecks(p: Platform, d: Device, t: Psbt)
    requires Usable(d) && WcOk(p, Loaded(d), d.intent, t)
    ensures Rechecks(p, d, t, SignStandalone)
  {
    hide LeafOf, OwnOutput, Commits, Owns;
    BufferedFacts(Loaded(d), d.intent, t.inputs[0]);
    LeafOfPrefix(Loaded(d), d.intent, t.inputs[0]);
    KeyOfPrefix(Loaded(d), d.intent, t.inputs[0]);
  }

  lemma LeafRechecks(p: Platform, d: Device, t: Psbt, out: Outside)
    requires Usable(d) && ValidateLeaf(p, d, t, out).Some?
    ensures Rechecks(p, d, t, SignStandalone)
  {
    hide LeafOf, LeafKindOk, HasAssertShape, Owns;
    LeafOfPrefix(Loaded(d), d.intent, t.inputs[0]);
    ShapeNeedsTwoKeys(LeafOf(Loaded(d), d.intent, t.inputs[0]).value.1);
    KindOwns(p, d, t, ClassifyLeaf(t, LeafOf(Loaded(d), d.intent, t.inputs[0]).value.1).value);
  }

  /** Every standalone flow has checked that the first key of the leaf is the device's. */
  lemma KindOwns(p: Platform, d: Device, t: Psbt, kind: Kind)
    requires Usable(d) && |t.inputs| > 0 && LeafOf(Loaded(d), d.intent, t.inputs[0]).Some?
    requires |LeafOf(Loaded(d), d.intent, t.inputs[0]).value.1.prefix| == PREFIX_LEN
    requires LeafKindOk(p, d, t, LeafOf(Loaded(d), d.intent, t.inputs[0]).value, kind)
    ensures Owns(p, t.inputs[0].origins, LeafOf(Loaded(d), d.intent, t.inputs[0]).value.1.prefix[1..33])
    ensures ReadWitnessUtxo(t.inputs[0]).Some?
  {
    hide LeafOf, OwnOutput, Commits, ParseClaimLeaf, ParseRefundLeaf, RefundTimelockOk, SequenceFinal, IsWcLeaf, Owns,
         DeviceOutput, ReadWitnessUtxo;
    var leaf := LeafOf(Loaded(d), d.intent, t.inputs[0]).value.1;
    if leaf.buffered.Some? {
      ParsedKeys(leaf.buffered.value);
      if |leaf.buffered.value| > 33 {
        KeyOfPrefix(Loaded(d), d.intent, t.inputs[0]);
      }
    }
  }

  lemma ShapeNeedsTwoKeys(leaf: LeafFacts)
    requires |leaf.prefix| == PREFIX_LEN
    ensures HasAssertShape(leaf.scriptLen, leaf.prefix, leaf.lastByte) ==>
              leaf.scriptLen > CLAIM_LEAF_LEN && leaf.prefix[34] != OP_SIZE
  {
  }

  lemma RestRechecks(p: Platform, d: Device, t: Psbt, out: Outside)
    requires Usable(d) && ValidateRest(p, d, t, out).1.Some?
    ensures Usable(ValidateRest(p, d, t, out).0)
    ensures Rechecks(p, ValidateRest(p, d, t, out).0, t, BranchOf(ValidateRest(p, d, t, out).1.value))
  {
    hide ValidatePrePegIn, ValidateLeaf, FinalizeOk, WcOk, Rechecks;
    if !t.noWalletPolicy {
      if 0 in t.internalInputs {
        SkipRechecks(p, ValidatePrePegIn(p, d, t).0, t);
      } else {
        WcRechecks(p, d, t);
      }
    } else if Shape(t, 2, 2) {
      FinalizeRechecks(p, d, t);
    } else {
      LeafRechecks(p, d, t, out);
    }
  }

  /** Nothing that validation accepts is refused by a check the signer makes again: if the device can prepare and deliver
      the signature, it does, for the booked slot of the accepted kind. */
  lemma AcceptedIsSigned(p: Platform, d: Device, t: Psbt, out: Outside)
    requires Usable(d) && Validate(p, d, t, out).1.Some?
    ensures Usable(Validate(p, d, t, out).0)
    ensures Rechecks(p, Validate(p, d, t, out).0, t, BranchOf(Validate(p, d, t, out).1.value))
  {
    hide ValidatePayout, ValidatePegIn, ValidateNoPayout, ValidateRest, PoPOk, Rechecks, TwoInputKind;
    if t.version == 0 {
      SkipRechecks(p, d, t);
    } else if t.noWalletPolicy && Shape(t, 1, 3) {
      PegInRechecks(p, d, t);
    } else if t.noWalletPolicy && Shape(t, 3, 1) {
      NoPayoutRechecks(p, d, t);
    } else if TwoInputKind(p, d, t) == IsPayout {
      PayoutRechecks(p, d, t);
    } else {
      RestRechecks(p, d, t, out);
    }
  }

  lemma SkipRechecks(p: Platform, d: Device, t: Psbt)
    requires Usable(d)
    ensures Rechecks(p, d, t, SkipPrePegIn) && Rechecks(p, d, t, SkipPoP)
  {
  }
}
