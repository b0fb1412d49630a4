/** Which leaves the standalone dispatcher lets through, and which honest transactions it accepts. */
module LeafDispatch {
  import opened Octets
  import opened Intents
  import opened Platforms
  import opened Script
  import opened ScriptTheorems
  import opened LeafParsers
  import opened LeafStream
  import opened Taproot
  import opened Psbts
  import opened KeyOrigins
  import opened PrePegIn
  import opened Payout
  import opened Standalone
  import opened Session
  import opened Machine
  import opened MachineTheorems
  import Builders
  import Claimer
  import LoadingLemmas
  import PegIn

  // ---------------------------------------------------------------------------------------------
  // Leaves of the vault outputs

  /** A leaf whose every signature is counted: PegIn, Payout and NoPayout sign these. */
  ghost predicate CountedLeaf(i: Intent, s: Bytes)
    requires i.InRange()
  {
    || (exists g: nat, h: Bytes32 :: g < i.V() && s == HtlcLeaf0(i, g, h))
    || (exists g: nat :: g < i.V() && s == VaultUtxoLeaf(i, g))
    || (exists key: Bytes32 :: s == NoPayoutLeaf(i, key))
  }

  /** A leaf of the Assert:0 connector: a Payout only checks it, the depositor's PayoutFinalize signs it. */
  ghost predicate ConnectorLeaf(i: Intent, s: Bytes)
    requires i.InRange()
  {
    exists g: nat, c: nat :: g < i.V() && c <= i.N() + 1 && s == Assert0PayoutLeaf(i, g, c)
  }

  /** Both kinds open with OP_SIZE, or have a second key at 34 and do not end in OP_1; none is a refund leaf. */
  predicate VaultLeafShaped(s: Bytes) {
    && |s| > 34
    && (s[0] == OP_SIZE || (s[34] == OP_PUSHBYTES_32 && s[33] == OP_CHECKSIGVERIFY && |s| >= 68 && s[|s| - 1] != OP_1))
    && ParseRefundLeaf(s).None?
  }

  lemma ConnectorLeafShape(i: Intent, s: Bytes)
    requires i.InRange() && ConnectorLeaf(i, s)
    ensures VaultLeafShaped(s)
  {
    hide Assert0PayoutLeaf, ParseRefundLeaf, ClaimerKey;
    var g: nat, c: nat :| g < i.V() && c <= i.N() + 1 && s == Assert0PayoutLeaf(i, g, c);
    PayoutLeafShape(i, g, c);
    SecondKeyNotRefund(s);
  }

  /** A counted leaf is not a payout leaf either. */
  lemma CountedLeafShape(i: Intent, s: Bytes)
    requires i.InRange() && CountedLeaf(i, s)
    ensures VaultLeafShaped(s) && ParsePayoutLeaf(s).None?
  {
    hide HtlcLeaf0, VaultUtxoLeaf, NoPayoutLeaf, ParseRefundLeaf, KeyOp, PushNumber, Signers;
    if g: nat, h: Bytes32 :| g < i.V() && s == HtlcLeaf0(i, g, h) {
      HashlockLeafOpens(i, g, h);
    } else if g: nat :| g < i.V() && s == VaultUtxoLeaf(i, g) {
      VaultLeafShape(i, g);
      VaultLeafKey(i, g);
      SecondKeyNotRefund(s);
    } else {
      var key: Bytes32 :| s == NoPayoutLeaf(i, key);
      NoPayoutLeafShape(i, key);
      SecondKeyNotRefund(s);
    }
  }

  lemma HashlockLeafOpens(i: Intent, g: nat, h: Bytes32)
    requires i.InRange() && g < i.V()
    ensures |HtlcLeaf0(i, g, h)| > 34 && HtlcLeaf0(i, g, h)[0] == OP_SIZE && ParseRefundLeaf(HtlcLeaf0(i, g, h)).None?
  {
    hide PushNumber, Signers, KeyOp;
  }

  lemma VaultLeafKey(i: Intent, g: nat)
    requires i.InRange() && g < i.V()
    ensures |VaultUtxoLeaf(i, g)| > 34 && VaultUtxoLeaf(i, g)[33] == OP_CHECKSIGVERIFY
  {
    hide PushNumber, Signers;
    assert VaultUtxoLeaf(i, g)[..34] == KeyOp(i.depositor, OP_CHECKSIGVERIFY);
    assert VaultUtxoLeaf(i, g)[33] == VaultUtxoLeaf(i, g)[..34][33];
  }

  lemma NoPayoutLeafShape(i: Intent, key: Bytes32)
    ensures var s := NoPayoutLeaf(i, key);
            |s| == 68 && s[33] == OP_CHECKSIGVERIFY && s[34] == OP_PUSHBYTES_32 && s[67] == OP_CHECKSIG
  {
    var s := NoPayoutLeaf(i, key);
    assert s[..34] == KeyOp(i.depositor, OP_CHECKSIGVERIFY) && s[34..] == KeyOp(key, OP_CHECKSIG);
    assert s[33] == s[..34][33] && s[34] == s[34..][0] && s[67] == s[34..][33];
  }

  /** The script of the only leaf an input carries. */
  function ScriptOf(input: Input): Option<Bytes> {
    if |input.leaves| != 1 || input.leaves[0].1 == [] then None
    else Some(input.leaves[0].1[..|input.leaves[0].1| - 1])
  }

  /** What the reader keeps of a leaf is that of its script; the hash that is signed is the TapLeaf hash of the script. */
  lemma FactsOfScript(loaded: bool, i: Intent, input: Input)
    requires loaded ==> i.InRange()
    requires LeafOf(loaded, i, input).Some?
    ensures ScriptOf(input).Some? && 0 < |ScriptOf(input).value| < 0x1_0000_0000
    ensures var leaf, s := LeafOf(loaded, i, input).value.1, ScriptOf(input).value;
            && leaf.scriptLen == |s| && leaf.lastByte == s[|s| - 1] && leaf.preimage == LeafPreimage(s)
            && leaf.prefix == CapturedPrefix(s)
            && (leaf.buffered.Some? ==> leaf.buffered.value == s)
  {
    hide AssertPrefix, CapturedPrefix;
  }

  lemma PrefixReads(s: Bytes)
    requires |s| > 34
    ensures CapturedPrefix(s)[0] == s[0] && CapturedPrefix(s)[33] == s[33] && CapturedPrefix(s)[34] == s[34]
  {
  }

  /** No flow that signs input 0 without a count accepts a leaf of the vault outputs there. PayoutFinalize, which signs input 1,
      is not among them. */
  lemma VaultLeavesNotStandalone(p: Platform, d: Device, t: Psbt, out: Outside, i: Intent)
    requires Usable(d) && i.InRange() && |t.inputs| > 0 && ScriptOf(t.inputs[0]).Some?
    requires CountedLeaf(i, ScriptOf(t.inputs[0]).value) || ConnectorLeaf(i, ScriptOf(t.inputs[0]).value)
    ensures ValidateLeaf(p, d, t, out).None?
    ensures !WcOk(p, Loaded(d), d.intent, t)
  {
    hide CountedLeaf, ConnectorLeaf, ScriptOf, ValidateLeaf, WcOk, VaultLeafShaped, ParsePayoutLeaf;
    var s := ScriptOf(t.inputs[0]).value;
    if CountedLeaf(i, s) {
      CountedLeafShape(i, s);
    } else {
      ConnectorLeafShape(i, s);
    }
    ShapedNotStandalone(p, d, t, out);
  }

  lemma ShapedNotStandalone(p: Platform, d: Device, t: Psbt, out: Outside)
    requires Usable(d) && |t.inputs| > 0
    requires ScriptOf(t.inputs[0]).Some? && VaultLeafShaped(ScriptOf(t.inputs[0]).value)
    ensures ValidateLeaf(p, d, t, out).None?
    ensures !WcOk(p, Loaded(d), d.intent, t)
  {
    hide LeafOf, ParseRefundLeaf, ParseClaimLeaf, OwnOutput, SpendsLeaf, RefundTimelockOk, CapturedPrefix, ScriptOf;
    if LeafOf(Loaded(d), d.intent, t.inputs[0]).Some? {
      FactsOfScript(Loaded(d), d.intent, t.inputs[0]);
      PrefixReads(ScriptOf(t.inputs[0]).value);
      LeafOfPrefix(Loaded(d), d.intent, t.inputs[0]);
    }
  }

  lemma BufferedLast(loaded: bool, i: Intent, input: Input)
    requires loaded ==> i.InRange()
    requires LeafOf(loaded, i, input).Some? && LeafOf(loaded, i, input).value.1.buffered.Some?
    ensures var leaf := LeafOf(loaded, i, input).value.1;
            |leaf.buffered.value| > 0 && leaf.lastByte == leaf.buffered.value[|leaf.buffered.value| - 1]
            && leaf.preimage == LeafPreimage(leaf.buffered.value)
  {
    hide AssertPrefix, CapturedPrefix;
  }

  // ---------------------------------------------------------------------------------------------
  // Reading a leaf back

  /** An input that carries one leaf reads back as that leaf. */
  lemma OneLeafReads(loaded: bool, i: Intent, input: Input, cb: Bytes, script: Bytes)
    requires loaded ==> i.InRange()
    requires 1 <= |script| <= SCRIPT_MAX_LEN && |cb| <= CONTROL_BLOCK_MAX
    ensures input.leaves == [(cb, script + [LEAF_VERSION])] <==>
              && LeafOf(loaded, i, input).Some? && LeafOf(loaded, i, input).value.0 == cb
              && LeafOf(loaded, i, input).value.1.buffered == Some(script)
  {
    hide AssertPrefix, CapturedPrefix;
    if input.leaves == [(cb, script + [LEAF_VERSION])] {
      var value := script + [LEAF_VERSION];
      assert value[..|value| - 1] == script;
    } else if LeafOf(loaded, i, input).Some? && LeafOf(loaded, i, input).value.1.buffered == Some(script) {
      var value := input.leaves[0].1;
      assert value == value[..|value| - 1] + [value[|value| - 1]];
      assert input.leaves == [input.leaves[0]];
    }
  }

  predicate PayoutLeafCommitted(p: Platform, i: Intent, g: nat, c: nat, input: Input)
    requires i.InRange() && g < i.V() && c <= i.N() + 1
  {
    Builders.PayoutLeafLength(i, g, c);
    && |input.leaves| == 1 && ReadWitnessUtxo(input).Some?
    && Commits(p, input.leaves[0].0, LeafHash(p, Assert0PayoutLeaf(i, g, c)), ReadWitnessUtxo(input).value.1)
  }

  /** The input carries the leaf built for (g, c) and nothing else, and its output commits to it. */
  predicate CarriesPayoutLeaf(p: Platform, i: Intent, g: nat, c: nat, input: Input)
    requires i.InRange() && g < i.V() && c <= i.N() + 1
  {
    && |input.leaves| == 1 && |input.leaves[0].0| <= CONTROL_BLOCK_MAX
    && input.leaves[0].1 == Assert0PayoutLeaf(i, g, c) + [LEAF_VERSION]
    && PayoutLeafCommitted(p, i, g, c, input)
  }

  lemma ConnectorReads(p: Platform, i: Intent, g: nat, c: nat, input: Input)
    requires i.InRange() && LoadingLemmas.RolesDisjoint(i) && g < i.V() && c <= i.N() + 1
    ensures CarriesPayoutLeaf(p, i, g, c, input) <==>
              && LeafOf(true, i, input).Some? && LeafOf(true, i, input).value.1.buffered.Some?
              && Claimer.DetectClaimer(i, g, LeafOf(true, i, input).value.1.buffered.value) == Some(c)
              && LeafCommitted(p, LeafOf(true, i, input).value, input)
  {
    hide LeafOf, Assert0PayoutLeaf, Claimer.DetectClaimer, Commits, LoadingLemmas.RolesDisjoint, LeafPreimage;
    Builders.PayoutLeafLength(i, g, c);
    PayoutLeafShape(i, g, c);
    var script := Assert0PayoutLeaf(i, g, c);
    if |input.leaves| == 1 {
      if |input.leaves[0].0| <= CONTROL_BLOCK_MAX {
        OneLeafReads(true, i, input, input.leaves[0].0, script);
      }
    } else {
      NoLeafReads(i, input);
    }
    if LeafOf(true, i, input).Some? && LeafOf(true, i, input).value.1.buffered.Some? {
      BufferedLast(true, i, input);
      LeafOfControlBlock(i, input);
      Claimer.DetectsExactly(i, g, LeafOf(true, i, input).value.1.buffered.value, c);
    }
  }

  /** Payout detection, read off the transaction: it finds (g, c, value) exactly when input 0 spends the first group with that
      txid, input 1 carries the leaf built for (g, c) and nothing else, and its output commits to that leaf and holds an
      allowed value. */
  lemma DetectReads(p: Platform, i: Intent, t: Psbt, s: Detected)
    requires Ready(i) && LoadingLemmas.RolesDisjoint(i) && s.g < i.V() && s.c <= i.N() + 1
    ensures Detect(p, i, t) == Some(s) <==>
              && Modern(t) && |t.inputs| == 2 && |t.inputs[0].prevTxid| == 32
              && PegIn.GroupByTxid(p, i, t.inputs[0].prevTxid, 0) == Some(s.g)
              && CarriesPayoutLeaf(p, i, s.g, s.c, t.inputs[1])
              && ReadWitnessUtxo(t.inputs[1]).Some? && ReadWitnessUtxo(t.inputs[1]).value.0 == s.assert0
              && ConnectorValueOk(i.scalars.baseFeeRate, s.assert0)
  {
    hide LeafOf, PegIn.GroupByTxid, Claimer.DetectClaimer, ConnectorValueOk, LoadingLemmas.RolesDisjoint,
         CarriesPayoutLeaf, ReadWitnessUtxo, Commits;
    if |t.inputs| == 2 {
      ConnectorReads(p, i, s.g, s.c, t.inputs[1]);
    }
  }

  lemma NoLeafReads(i: Intent, input: Input)
    requires i.InRange() && |input.leaves| != 1
    ensures LeafOf(true, i, input).None?
  {
  }

  lemma LeafOfControlBlock(i: Intent, input: Input)
    requires i.InRange() && LeafOf(true, i, input).Some?
    ensures |input.leaves| == 1 && |input.leaves[0].0| <= CONTROL_BLOCK_MAX
    ensures LeafOf(true, i, input).value.0 == input.leaves[0].0
  {
  }

  // ---------------------------------------------------------------------------------------------
  // Honest transactions

  /** The refund of a loaded intent's HTLC is accepted: leaf 1 with its control block, the intent's timelock and txid, and
      an output to a key of the device no larger than the HTLC. */
  lemma HonestRefundAccepted(p: Platform, d: Device, t: Psbt, out: Outside, g: nat, parity: Parity, key: Bytes32, value: U64)
    requires Usable(d) && Loaded(d) && g < d.intent.V() && 16 < d.intent.scalars.refundTimelock < 0x8000
    requires p.tweak(NUMS, HtlcMerkleRoot(p, d.intent, g, d.ctx.hashlocks[g])) == Some((parity, key))
    requires Shape(t, 1, 1) && Modern(t) && SighashDefault(t.inputs[0]) && out.checks
    requires t.inputs[0].leaves ==
             [(ControlBlock(parity, [HtlcTree(p, d.intent, g, d.ctx.hashlocks[g]).left.hash]),
               HtlcLeaf1(d.intent) + [LEAF_VERSION])]
    requires ReadWitnessUtxo(t.inputs[0]) == Some((value, P2tr(key)))
    requires t.inputs[0].sequence == Present(d.intent.scalars.refundTimelock as int)
    requires t.inputs[0].prevTxid == d.intent.scalars.prePegInTxid
    requires Owns(p, t.inputs[0].origins, d.intent.depositor)
    requires ReadOutput(t, 0).Some? && ReadOutput(t, 0).value.1 <= value && DeviceOutput(p, t, 0)
    ensures ValidateLeaf(p, d, t, out) == Some(RefundTx)
  {
    hide Owns, DeviceOutput, ControlBlock, Commits, HtlcMerkleRoot, NUMS, LeafOf, ParseRefundLeaf, KeyOp, PushNumber,
         ReadWitnessUtxo, CapturedPrefix, HtlcLeaf1, LeafPreimage, P2tr, HasAssertShape;
    var i, h := d.intent, d.ctx.hashlocks[g];
    HtlcLeavesVerify(p, i, g, h, parity, key);
    RefundLeafRoundTrip(i);
    RefundLeafBytes(i);
    var cb := ControlBlock(parity, [HtlcTree(p, i, g, h).left.hash]);
    OneLeafReads(true, i, t.inputs[0], cb, HtlcLeaf1(i));
    BufferedFacts(true, i, t.inputs[0]);
    BufferedLast(true, i, t.inputs[0]);
    LeafOfPrefix(true, i, t.inputs[0]);
    NotAssertShaped(LeafOf(true, i, t.inputs[0]).value.1);
    assert LeafHash(p, HtlcLeaf1(i)) == HtlcTree(p, i, g, h).right.hash;
  }

  lemma NotAssertShaped(leaf: LeafFacts)
    requires |leaf.prefix| == PREFIX_LEN && leaf.lastByte != OP_1
    ensures !HasAssertShape(leaf.scriptLen, leaf.prefix, leaf.lastByte)
  {
  }

  lemma RefundLeafBytes(i: Intent)
    requires 16 < i.scalars.refundTimelock < 0x8000
    ensures var s := HtlcLeaf1(i);
            && 36 <= |s| <= 39 && s[0] == OP_PUSHBYTES_32 && s[33] == OP_CHECKSIGVERIFY && s[34] != OP_SIZE
            && s[|s| - 1] == OP_CSV
  {
    TimelockPush(i.scalars.refundTimelock);
    var push := PushNumber(i.scalars.refundTimelock);
    var s := HtlcLeaf1(i);
    assert s[34] == push[0];
  }

  /** A Reclaim under the depositor key spends the depositor claim output of the PegIn, and pays the depositor. */
  lemma ReclaimSpendsClaim(p: Platform, i: Intent, t: Psbt, leaf: (Bytes, LeafFacts))
    requires i.InRange() && |t.inputs| > 0 && LeafOf(true, i, t.inputs[0]) == Some(leaf)
    requires ReclaimOk(p, t, leaf) && ParseClaimLeaf(leaf.1.buffered.value) == Some(i.depositor)
    ensures leaf.1.buffered == Some(DepositorClaimLeaf(i))
    ensures ClaimSpk(p, i) == Some(ReadWitnessUtxo(t.inputs[0]).value.1)
    ensures Bip86Spk(p, i.depositor) == t.outputs[0].scriptPubKey
    ensures DUST_LIMIT < ReadWitnessUtxo(t.inputs[0]).value.0 && ReadOutput(t, 0).value.1 < ReadWitnessUtxo(t.inputs[0]).value.0
  {
    hide LeafOf, NUMS, LeafPreimage, Bip86Spk;
    var s := leaf.1.buffered.value;
    assert s == [s[0]] + s[1..33] + [s[33]];
    BufferedLast(true, i, t.inputs[0]);
    assert SiblingCount(leaf.0) == 0 && Siblings(leaf.0, 0) == [];
  }

  /** The WC leaf with this key and label hash. */
  function WcScript(key: Bytes32, hash: Bytes32): Bytes {
    KeyOp(key, OP_CHECKSIGVERIFY) + [OP_SIZE, OP_PUSHBYTES_1, 32, OP_EQUALVERIFY, OP_SHA256, OP_PUSHBYTES_32] + hash
    + [OP_EQUAL]
  }

  /** The byte checks of the WC leaf leave exactly the key and the hash free. */
  lemma WcLeafExact(s: Bytes)
    ensures IsWcLeaf(s) <==> |s| == WC_LEAF_LEN && s == WcScript(s[1..33], s[40..72])
  {
    if |s| == WC_LEAF_LEN {
      var w := WcScript(s[1..33], s[40..72]);
      assert |w| == WC_LEAF_LEN;
      forall k | 0 <= k < WC_LEAF_LEN ensures w[k] == (
        if k == 0 then OP_PUSHBYTES_32 else if k < 33 then s[k] else if k == 33 then OP_CHECKSIGVERIFY
        else if k == 34 then OP_SIZE else if k == 35 then OP_PUSHBYTES_1 else if k == 36 then 32
        else if k == 37 then OP_EQUALVERIFY else if k == 38 then OP_SHA256 else if k == 39 then OP_PUSHBYTES_32
        else if k < 72 then s[k] else OP_EQUAL)
      {
      }
    }
  }

  /** An accepted Assert proves that an intent is loaded and that its whole signer prefix opens the script being spent, which
      goes on beyond it and ends in OP_1: no approved keeper or challenger can be left out. */
  lemma AssertCarriesSigners(p: Platform, d: Device, t: Psbt, out: Outside)
    requires Usable(d) && ValidateLeaf(p, d, t, out) == Some(AssertTx)
    ensures Loaded(d) && |t.inputs| == 1 && |t.inputs[0].leaves| == 1 && |t.inputs[0].leaves[0].1| > 1
    ensures var value := t.inputs[0].leaves[0].1;
            var script := value[..|value| - 1];
            && AssertPrefix(d.intent) < script && script[|script| - 1] == OP_1
            && |script| < 0x1_0000_0000 && ReadWitnessUtxo(t.inputs[0]).Some?
            && Commits(p, t.inputs[0].leaves[0].0, LeafHash(p, script), ReadWitnessUtxo(t.inputs[0]).value.1)
  {
    hide AssertPrefix, CapturedPrefix, Commits, LeafPreimage, ReadWitnessUtxo;
  }
}
