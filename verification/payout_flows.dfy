/** NoPayout and Payout as conditions on the bytes of the transaction: each is accepted exactly if it meets them and is not
    used up. Constants, addresses and control blocks are written out. */
module PayoutFlows {
  import opened Octets
  import opened Bits
  import opened Intents
  import opened Platforms
  import opened Script
  import opened LeafStream
  import opened Taproot
  import opened Psbts
  import opened PegIn
  import opened PrePegIn
  import opened Payout
  import opened NoPayout
  import opened Standalone
  import opened Loading
  import opened LoadingLemmas
  import opened Session
  import opened Machine
  import opened LeafDispatch
  import opened Flows
  import opened Addresses
  import Builders

  // ---------------------------------------------------------------------------------------------
  // NoPayout

  /** Pays the challenger with this key out of the depositor's connector. */
  predicate NoPayoutForm(p: Platform, i: Intent, key: Bytes32, t: Psbt, connector: U64) {
    && t.version >= 2 && t.locktime == 0 && |t.inputs| == 3 && |t.outputs| == 1
    && Spends(p, t.inputs[0], [0x20] + i.depositor + [0xAD, 0x20] + key + [0xAC], connector)
    && 546 <= connector <= 546 + 500 * i.scalars.baseFeeRate
    && t.inputs[0].prevVout == Present(0) && DefaultSighash(t.inputs[0])
    && Pays(p, t, 0, key) && t.outputs[0].amount.value >= 546
    && t.outputsTotal <= t.inputsTotal <= t.outputsTotal + 450 * i.scalars.baseFeeRate
  }

  lemma NoPayoutLeafIs(i: Intent, key: Bytes32)
    ensures NoPayoutLeaf(i, key) == [0x20] + i.depositor + [0xAD, 0x20] + key + [0xAC]
  {
  }

  lemma NoPayoutFields(p: Platform, i: Intent, j: nat, t: Psbt, connector: U64)
    requires Ready(i) && i.scalars.baseFeeRate <= 10000 && j < i.N() + i.M()
    requires t.version >= 2 && t.locktime == 0 && |t.inputs| == 3 && |t.outputs| == 1
    ensures NoPayoutForm(p, i, KeyAt(i, j), t, connector) <==>
              && LeafOf(true, i, t.inputs[0]).Some? && LeafOf(true, i, t.inputs[0]).value.1.buffered.Some?
              && ReadWitnessUtxo(t.inputs[0]).Some? && ReadWitnessUtxo(t.inputs[0]).value.0 == connector
              && var read := LeafOf(true, i, t.inputs[0]).value;
                 NoPayoutFieldsOk(p, i, j, read.1.buffered.value, read, t)
  {
    hide Spends, Pays, OwnOutput, LeafOf, NoPayoutLeaf, Commits, ConnectorValueOk, WithinFee, KeyAt, ReadWitnessUtxo,
         Bip86Spk, ReadOutput;
    var key, rate := KeyAt(i, j), i.scalars.baseFeeRate;
    NoPayoutLeafIs(i, key);
    SpendsReads(p, i, t.inputs[0], NoPayoutLeaf(i, key), connector);
    PaysOwn(p, t, 0, key);
    OwnIs(p, t, 0, key);
    ConnectorValueMeans(rate, connector);
    if t.outputsTotal <= t.inputsTotal {
      FeeMeans(rate, 450, t.inputsTotal - t.outputsTotal);
    }
  }

  /** A NoPayout is accepted for keeper or challenger j exactly if it pays that key and the count is below its cap. */
  lemma NoPayoutAccepted(p: Platform, d: Device, t: Psbt, j: nat)
    requires Loaded(d) && Ready(d.intent) && RolesDisjoint(d.intent) && d.intent.scalars.baseFeeRate <= 10000
    requires j < d.intent.N() + d.intent.M()
    ensures ValidateNoPayout(p, d, t).1 && ValidateNoPayout(p, d, t).0.ctx.noPayoutChallenger as nat == j <==>
              && (exists connector: U64 :: NoPayoutForm(p, d.intent, KeyAt(d.intent, j), t, connector))
              && d.ctx.noPayoutSigned < d.intent.V() * (d.intent.N() + d.intent.M())
  {
    hide NoPayoutForm, NoPayoutFieldsOk, RolesDisjoint, LeafOf, KeyAt, DetectChallenger, ReadWitnessUtxo, LeafCommitted;
    var i := d.intent;
    if connector: U64 :| NoPayoutForm(p, i, KeyAt(i, j), t, connector) {
      NoPayoutFormShape(p, i, KeyAt(i, j), t, connector);
      NoPayoutFields(p, i, j, t, connector);
      NoPayoutLeafOf(p, i, j, t);
      DetectsChallengerExactly(i, LeafOf(true, i, t.inputs[0]).value.1.buffered.value, j);
    } else if ValidateNoPayout(p, d, t).1 && ValidateNoPayout(p, d, t).0.ctx.noPayoutChallenger as nat == j {
      NoPayoutConnector(p, i, j, LeafOf(true, i, t.inputs[0]).value.1.buffered.value, LeafOf(true, i, t.inputs[0]).value, t);
      NoPayoutFields(p, i, j, t, ReadWitnessUtxo(t.inputs[0]).value.0);
      assert false;
    }
  }

  lemma NoPayoutFormShape(p: Platform, i: Intent, key: Bytes32, t: Psbt, connector: U64)
    requires NoPayoutForm(p, i, key, t, connector)
    ensures t.version >= 2 && t.locktime == 0 && |t.inputs| == 3 && |t.outputs| == 1
  {
  }

  lemma NoPayoutLeafOf(p: Platform, i: Intent, j: nat, t: Psbt)
    requires Ready(i) && j < i.N() + i.M() && |t.inputs| == 3 && LeafOf(true, i, t.inputs[0]).Some?
    requires LeafOf(true, i, t.inputs[0]).value.1.buffered.Some?
    requires var read := LeafOf(true, i, t.inputs[0]).value;
             NoPayoutFieldsOk(p, i, j, read.1.buffered.value, read, t)
    ensures LeafOf(true, i, t.inputs[0]).value.1.buffered.value == NoPayoutLeaf(i, KeyAt(i, j))
  {
    hide LeafOf, NoPayoutLeaf, LeafCommitted, ConnectorValueOk, WithinFee, KeyAt, ReadWitnessUtxo, Bip86Spk, ReadOutput;
  }

  lemma NoPayoutConnector(p: Platform, i: Intent, j: nat, leaf: Bytes, read: (Bytes, LeafFacts), t: Psbt)
    requires Ready(i) && j < i.N() + i.M() && |t.inputs| == 3 && NoPayoutFieldsOk(p, i, j, leaf, read, t)
    ensures ReadWitnessUtxo(t.inputs[0]).Some?
  {
    hide NoPayoutLeaf, ConnectorValueOk, WithinFee, KeyAt, ReadWitnessUtxo, Bip86Spk, ReadOutput, Commits;
  }

  /** The challenger's address and the connector's key exist. */
  predicate NoPayoutBuildable(p: Platform, i: Intent, key: Bytes32) {
    p.tweak(InternalKey(), LeafHash(p, NoPayoutLeaf(i, key))).Some? && p.tweak(key, []).Some?
  }

  /** The NoPayout of a connector whose only leaf is the challenger's, with two more inputs that nothing is asked of. */
  function NoPayoutFor(p: Platform, i: Intent, key: Bytes32, connector: U64, total: U64, value: U64): Psbt
    requires NoPayoutBuildable(p, i, key)
  {
    hide LeafHash, NoPayoutLeaf, LE, InternalKey;
    var (parity, out) := p.tweak(InternalKey(), LeafHash(p, NoPayoutLeaf(i, key))).value;
    var spent := Input(
      Zeros(32), Present(0), Absent, Absent, LE(connector, 8) + ([34, 0x51, 0x20] + out), [], [],
      [(ControlBlock(parity, []), NoPayoutLeaf(i, key) + [0xC0])]);
    var other := Input(Zeros(32), Present(0), Absent, Absent, [], [], [], []);
    Transaction(2, 0, [spent, other, other], [Output(Some(value), Some([0x51, 0x20] + p.tweak(key, []).value.1))],
                true, false, {}, {}, total, value, false, 0, 0)
  }

  lemma ConnectorSpent(p: Platform, i: Intent, key: Bytes32, connector: U64, total: U64, value: U64)
    requires NoPayoutBuildable(p, i, key)
    ensures Spends(p, NoPayoutFor(p, i, key, connector, total, value).inputs[0], NoPayoutLeaf(i, key), connector)
  {
    hide LeafPreimage, NoPayoutLeaf, LE, FromLE, InternalKey, NUMS, Commits, ControlBlock;
    SameKey();
    var (parity, out) := p.tweak(NUMS, LeafHash(p, NoPayoutLeaf(i, key))).value;
    UtxoSplits(connector, out);
    var u := LE(connector, 8) + ([34, 0x51, 0x20] + out);
    assert u[9..] == P2tr(out) by { assert u[8..][1..] == u[9..]; }
    AnyLeafVerifies(p, Leaf(LeafHash(p, NoPayoutLeaf(i, key))), [], parity, out);
  }

  /** The honest NoPayout to any approved challenger is accepted. */
  lemma HonestNoPayoutAccepted(p: Platform, d: Device, j: nat, connector: U64, total: U64, value: U64)
    requires Loaded(d) && Ready(d.intent) && RolesDisjoint(d.intent) && d.intent.scalars.baseFeeRate <= 10000
    requires j < d.intent.N() + d.intent.M() && NoPayoutBuildable(p, d.intent, KeyAt(d.intent, j))
    requires 546 <= connector <= 546 + 500 * d.intent.scalars.baseFeeRate && value >= 546
    requires value <= total <= value + 450 * d.intent.scalars.baseFeeRate
    requires d.ctx.noPayoutSigned < d.intent.V() * (d.intent.N() + d.intent.M())
    ensures ValidateNoPayout(p, d, NoPayoutFor(p, d.intent, KeyAt(d.intent, j), connector, total, value)).1
  {
    hide ValidateNoPayout, LeafHash, NoPayoutLeaf, LE, FromLE, InternalKey, RolesDisjoint, Spends, KeyAt, ControlBlock;
    var i, key := d.intent, KeyAt(d.intent, j);
    var t := NoPayoutFor(p, i, key, connector, total, value);
    ConnectorSpent(p, i, key, connector, total, value);
    NoPayoutLeafIs(i, key);
    assert NoPayoutForm(p, i, key, t, connector);
    NoPayoutAccepted(p, d, t, j);
  }

  // ---------------------------------------------------------------------------------------------
  // Payout

  /** The input spends the vault UTXO of the group through its only leaf, after the PegIn timelock. */
  predicate SpendsVault(p: Platform, i: Intent, g: nat, input: Input)
    requires i.InRange() && g < i.V()
  {
    LeafLengths(i, g, ZERO32);
    var out := p.tweak(InternalKey(), LeafHash(p, VaultUtxoLeaf(i, g)));
    && input.prevVout == Present(0) && input.sequence == Present(i.scalars.pegInCsv as int) && DefaultSighash(input)
    && out.Some? && UtxoIs(input, i.groups[g].amount, out.value.1)
    && Lookup(input.leaves, [0xC0 + out.value.0] + InternalKey()) == Some(VaultUtxoLeaf(i, g) + [0xC0])
  }

  /** Output k has an amount and a script that the device can hash. */
  predicate Readable(p: Platform, t: Psbt, k: nat) {
    k < |t.outputs| && t.outputs[k].amount.Some? && t.outputs[k].scriptPubKey.Some?
    && |t.outputs[k].scriptPubKey.value| <= p.maxScriptPubKey
  }

  /** The amounts of a Payout of group g to claimer c, if its outputs are those of its kind. The provider pays the depositor,
      takes at most the commission and adds an anchor; a keeper pays any standard script and adds an anchor; the depositor
      takes everything. */
  predicate PayoutOutputs(p: Platform, i: Intent, g: nat, c: nat, t: Psbt, a: Amounts)
    requires i.InRange() && g < i.V()
  {
    && |t.outputs| == (if c == 0 then 3 else 2)
    && t.outputs[0].amount == Some(a.v0) && t.outputs[1].amount == Some(a.v1) && a.v0 >= 546
    && (if c == 0 then
          && Pays(p, t, 0, i.depositor)
          && Readable(p, t, 1) && a.v1 <= i.groups[g].commission && (a.v1 == 0 || a.v1 >= 546)
          && Readable(p, t, 2) && t.outputs[2].amount == Some(546) && a.v2 == 546
        else if c == i.N() + 1 then
          Pays(p, t, 0, i.depositor) && Pays(p, t, 1, i.depositor) && a.v1 == 546 && a.v2 == 0
        else
          && Readable(p, t, 0) && |t.outputs[0].scriptPubKey.value| >= 22 && t.outputs[0].scriptPubKey.value[0] != 0x6A
          && Readable(p, t, 1) && a.v1 == 546 && a.v2 == 0)
  }

  /** What the outputs leave of the inputs, counted modulo 2^64, is at most what the vbytes of the Payout cost. */
  predicate FeeInRange(i: Intent, g: nat, connector: U64, a: Amounts)
    requires i.InRange() && g < i.V()
  {
    var fee := (i.groups[g].amount + connector) % 0x1_0000_0000_0000_0000 - (a.v0 + a.v1 + a.v2);
    0 < fee <= i.scalars.baseFeeRate * (500 + 55 * (i.N() + i.M()))
  }

  predicate PayoutForm(p: Platform, i: Intent, g: nat, c: nat, t: Psbt, connector: U64, a: Amounts)
    requires i.InRange() && g < i.V() && c <= i.N() + 1
  {
    && t.version >= 2 && t.locktime == 0 && |t.inputs| == 2 && |t.inputs[0].prevTxid| == 32
    && GroupByTxid(p, i, t.inputs[0].prevTxid, 0) == Some(g)
    && SpendsVault(p, i, g, t.inputs[0])
    && Spends(p, t.inputs[1], Assert0PayoutLeaf(i, g, c), connector)
    && 546 <= connector <= 546 + 500 * i.scalars.baseFeeRate
    && t.inputs[1].prevVout == Present(0) && t.inputs[1].sequence == Present(i.scalars.payoutTimelock as int)
    && PayoutOutputs(p, i, g, c, t, a)
    && FeeInRange(i, g, connector, a)
  }

  lemma SpendsVaultMeans(p: Platform, i: Intent, g: nat, input: Input)
    requires i.InRange() && g < i.V()
    ensures SpendsVault(p, i, g, input) <==> VaultInputOk(p, i, g, input)
  {
    hide SpendsVault, VaultInputOk, LeafHash, VaultUtxoLeaf, ControlBlock, NUMS, InternalKey, UtxoIs, ReadWitnessUtxo, P2tr;
    SameKey();
    VaultLeafFits(i, g);
    var out := p.tweak(NUMS, LeafHash(p, VaultUtxoLeaf(i, g)));
    if out.Some? {
      NoSibling(out.value.0);
      UtxoIsRead(input, i.groups[g].amount, out.value.1);
      VaultReads(p, i, g, input, out.value.0, out.value.1);
    } else {
      NoVaultKey(p, i, g, input);
    }
  }

  lemma VaultLeafFits(i: Intent, g: nat)
    requires i.InRange() && g < i.V()
    ensures |VaultUtxoLeaf(i, g)| <= 2560
  {
    LeafLengths(i, g, ZERO32);
  }

  lemma NoVaultKey(p: Platform, i: Intent, g: nat, input: Input)
    requires i.InRange() && g < i.V() && |VaultUtxoLeaf(i, g)| <= 2560
    requires InternalKey() == NUMS && p.tweak(NUMS, LeafHash(p, VaultUtxoLeaf(i, g))).None?
    ensures !SpendsVault(p, i, g, input) && !VaultInputOk(p, i, g, input)
  {
    hide LeafHash, VaultUtxoLeaf, ControlBlock, Lookup, NUMS, InternalKey, UtxoIs, ReadWitnessUtxo;
  }

  lemma VaultReads(p: Platform, i: Intent, g: nat, input: Input, parity: Parity, key: Bytes32)
    requires i.InRange() && g < i.V() && |VaultUtxoLeaf(i, g)| <= 2560
    requires InternalKey() == NUMS && p.tweak(NUMS, LeafHash(p, VaultUtxoLeaf(i, g))) == Some((parity, key))
    requires ControlBlock(parity, []) == [0xC0 + parity] + InternalKey()
    requires UtxoIs(input, i.groups[g].amount, key) <==> ReadWitnessUtxo(input) == Some((i.groups[g].amount, P2tr(key)))
    ensures SpendsVault(p, i, g, input) <==> VaultInputOk(p, i, g, input)
  {
    hide LeafHash, VaultUtxoLeaf, ControlBlock, Lookup, NUMS, InternalKey, UtxoIs, ReadWitnessUtxo, P2tr;
  }

  lemma ReadableReads(p: Platform, t: Psbt, k: nat)
    ensures Readable(p, t, k) <==> ReadOutputVar(t, k, p.maxScriptPubKey).Some?
    ensures Readable(p, t, k) ==>
              ReadOutputVar(t, k, p.maxScriptPubKey) == Some((t.outputs[k].scriptPubKey.value, t.outputs[k].amount.value))
  {
  }

  lemma AmountsRead(p: Platform, i: Intent, g: nat, c: nat, t: Psbt, a: Amounts)
    requires i.InRange() && g < i.V() && c <= i.N() + 1
    ensures PayoutOutputs(p, i, g, c, t, a) <==>
              |t.outputs| == (if c == 0 then 3 else 2) && ReadAmounts(p, i, g, c, t) == Some(a)
  {
    hide Pays, OwnOutput, ReadOutput, ReadOutputVar, Bip86Spk, Readable;
    PaysOwn(p, t, 0, i.depositor);
    PaysOwn(p, t, 1, i.depositor);
    OwnIs(p, t, 0, i.depositor);
    OwnIs(p, t, 1, i.depositor);
    ReadableReads(p, t, 0);
    ReadableReads(p, t, 1);
    ReadableReads(p, t, 2);
    ReadParts(p, t, 0);
    ReadParts(p, t, 1);
    ReadParts(p, t, 2);
  }

  lemma ReadParts(p: Platform, t: Psbt, k: nat)
    ensures Readable(p, t, k) ==> k < |t.outputs| && t.outputs[k].amount.Some? && t.outputs[k].scriptPubKey.Some?
    ensures ReadOutput(t, k).Some? ==> k < |t.outputs| && t.outputs[k].amount == Some(ReadOutput(t, k).value.1)
  {
  }

  lemma MoneyReads(i: Intent, g: nat, connector: U64, a: Amounts)
    requires Ready(i) && g < i.V() && i.scalars.baseFeeRate <= 10000
    ensures MoneyOk(i, g, connector, a) <==>
              FeeInRange(i, g, connector, a)
  {
    hide MoneyOk;
    MoneyExact(i, g, connector, a);
    RateTimes(i.scalars.baseFeeRate, 500 + 55 * (i.N() + i.M()));
  }

  lemma PayoutFields(p: Platform, i: Intent, g: nat, c: nat, t: Psbt, connector: U64, a: Amounts)
    requires Ready(i) && RolesDisjoint(i) && i.scalars.baseFeeRate <= 10000 && g < i.V() && c <= i.N() + 1
    ensures PayoutForm(p, i, g, c, t, connector, a) <==>
              && Detect(p, i, t) == Some(Detected(g, c, connector))
              && FieldsOk(p, i, Detected(g, c, connector), t) && ReadAmounts(p, i, g, c, t) == Some(a)
  {
    hide PayoutForm, Detect, FieldsOk, ReadAmounts, Found, SpendsVault, PayoutOutputs, MoneyOk, ConnectorValueOk, RolesDisjoint,
         VaultInputOk, FeeInRange;
    PayoutFound(p, i, g, c, t, connector);
    ConnectorValueMeans(i.scalars.baseFeeRate, connector);
    MoneyReads(i, g, connector, a);
    AmountsRead(p, i, g, c, t, a);
    if |t.inputs| == 2 {
      SpendsVaultMeans(p, i, g, t.inputs[0]);
      FieldsRead(p, i, g, c, t, connector);
      PayoutFormReads(p, i, g, c, t, connector, a);
    } else {
      NotTwoInputs(p, i, g, c, t, connector, a);
    }
  }

  lemma NotTwoInputs(p: Platform, i: Intent, g: nat, c: nat, t: Psbt, connector: U64, a: Amounts)
    requires Ready(i) && g < i.V() && c <= i.N() + 1 && |t.inputs| != 2
    ensures !PayoutForm(p, i, g, c, t, connector, a)
  {
  }

  lemma FieldsRead(p: Platform, i: Intent, g: nat, c: nat, t: Psbt, connector: U64)
    requires Ready(i) && g < i.V() && c <= i.N() + 1 && |t.inputs| == 2
    ensures FieldsOk(p, i, Detected(g, c, connector), t) <==>
              && |t.outputs| == (if c == 0 then 3 else 2)
              && VaultInputOk(p, i, g, t.inputs[0])
              && t.inputs[1].sequence == Present(i.scalars.payoutTimelock as int) && t.inputs[1].prevVout == Present(0)
              && ReadAmounts(p, i, g, c, t).Some? && MoneyOk(i, g, connector, ReadAmounts(p, i, g, c, t).value)
  {
    hide VaultInputOk, ReadAmounts, MoneyOk;
  }

  lemma PayoutFormReads(p: Platform, i: Intent, g: nat, c: nat, t: Psbt, connector: U64, a: Amounts)
    requires Ready(i) && g < i.V() && c <= i.N() + 1 && |t.inputs| == 2
    ensures PayoutForm(p, i, g, c, t, connector, a) <==>
              && Found(p, i, g, c, t, connector)
              && 546 <= connector <= 546 + 500 * i.scalars.baseFeeRate
              && SpendsVault(p, i, g, t.inputs[0])
              && t.inputs[1].prevVout == Present(0) && t.inputs[1].sequence == Present(i.scalars.payoutTimelock as int)
              && PayoutOutputs(p, i, g, c, t, a)
              && FeeInRange(i, g, connector, a)
  {
    hide SpendsVault, PayoutOutputs, Spends, GroupByTxid, Assert0PayoutLeaf, FeeInRange;
  }

  /** What detection goes by. */
  predicate Found(p: Platform, i: Intent, g: nat, c: nat, t: Psbt, connector: U64)
    requires i.InRange() && g < i.V() && c <= i.N() + 1
  {
    && t.version >= 2 && t.locktime == 0 && |t.inputs| == 2 && |t.inputs[0].prevTxid| == 32
    && GroupByTxid(p, i, t.inputs[0].prevTxid, 0) == Some(g)
    && Spends(p, t.inputs[1], Assert0PayoutLeaf(i, g, c), connector)
  }

  lemma CarriesSpends(p: Platform, i: Intent, g: nat, c: nat, input: Input, connector: U64)
    requires i.InRange() && g < i.V() && c <= i.N() + 1
    ensures Spends(p, input, Assert0PayoutLeaf(i, g, c), connector) <==>
              CarriesPayoutLeaf(p, i, g, c, input) && ReadWitnessUtxo(input).value.0 == connector
    ensures CarriesPayoutLeaf(p, i, g, c, input) ==> ReadWitnessUtxo(input).Some?
  {
    hide Commits, LeafPreimage, FromLE, Assert0PayoutLeaf;
    Builders.PayoutLeafLength(i, g, c);
  }

  lemma PayoutFound(p: Platform, i: Intent, g: nat, c: nat, t: Psbt, connector: U64)
    requires Ready(i) && RolesDisjoint(i) && g < i.V() && c <= i.N() + 1
    ensures Detect(p, i, t) == Some(Detected(g, c, connector)) <==>
              Found(p, i, g, c, t, connector) && ConnectorValueOk(i.scalars.baseFeeRate, connector)
  {
    hide Detect, CarriesPayoutLeaf, Spends, ConnectorValueOk, RolesDisjoint, GroupByTxid, Assert0PayoutLeaf, ReadWitnessUtxo;
    DetectReads(p, i, t, Detected(g, c, connector));
    if |t.inputs| == 2 {
      CarriesSpends(p, i, g, c, t.inputs[1], connector);
    }
  }

  /** The pair is not signed, and the count is below the number of pairs. */
  predicate PairOpen(d: Device, g: nat, c: nat)
    requires d.intent.InRange() && g < d.intent.V() && c <= d.intent.N() + 1
  {
    SlotBound(d.intent.V(), d.intent.N() + 2, g, c);
    !BitAt(d.ctx.payoutMask, g * (d.intent.N() + 2) + c) && d.ctx.payoutSigned < d.intent.V() * (d.intent.N() + 2)
  }

  /** A Payout is accepted for (g, c) exactly if it is a Payout of g to c for some connector value and amounts, and the
      pair is open. */
  lemma PayoutAccepted(p: Platform, d: Device, t: Psbt, g: nat, c: nat)
    requires Loaded(d) && Ready(d.intent) && RolesDisjoint(d.intent) && d.intent.scalars.baseFeeRate <= 10000
    requires g < d.intent.V() && c <= d.intent.N() + 1
    ensures (&& ValidatePayout(p, d, t).1
             && ValidatePayout(p, d, t).0.ctx.groupIndex as nat == g
             && ValidatePayout(p, d, t).0.ctx.payoutIndex as nat == c) <==>
              (exists connector: U64, a: Amounts :: PayoutForm(p, d.intent, g, c, t, connector, a)) && PairOpen(d, g, c)
  {
    hide PayoutForm, RolesDisjoint, Detect, FieldsOk, PairOpen, ReadAmounts, ValidatePayout;
    if Detect(p, d.intent, t).Some? {
      PayoutDecides(p, d, t, Detect(p, d.intent, t).value);
    } else {
      NothingDetected(p, d, t);
    }
    PayoutExactly(p, d.intent, t, g, c);
  }

  lemma PayoutExactly(p: Platform, i: Intent, t: Psbt, g: nat, c: nat)
    requires Ready(i) && RolesDisjoint(i) && i.scalars.baseFeeRate <= 10000 && g < i.V() && c <= i.N() + 1
    ensures (exists connector: U64, a: Amounts :: PayoutForm(p, i, g, c, t, connector, a)) <==>
              && Detect(p, i, t).Some? && Detect(p, i, t).value.g == g && Detect(p, i, t).value.c == c
              && FieldsOk(p, i, Detect(p, i, t).value, t)
  {
    hide PayoutForm, RolesDisjoint, Detect, FieldsOk, ReadAmounts;
    if connector: U64, a: Amounts :| PayoutForm(p, i, g, c, t, connector, a) {
      PayoutFields(p, i, g, c, t, connector, a);
    } else if Detect(p, i, t).Some? && Detect(p, i, t).value.g == g && Detect(p, i, t).value.c == c {
      var s := Detect(p, i, t).value;
      if FieldsOk(p, i, s, t) {
        FieldsAmounts(p, i, s, t);
        PayoutFields(p, i, g, c, t, s.assert0, ReadAmounts(p, i, g, c, t).value);
        assert false;
      }
    }
  }

  lemma NothingDetected(p: Platform, d: Device, t: Psbt)
    requires Loaded(d) && Ready(d.intent) && Detect(p, d.intent, t).None?
    ensures !ValidatePayout(p, d, t).1
  {
    hide Detect;
  }

  /** What acceptance depends on once the pair is detected. */
  lemma PayoutDecides(p: Platform, d: Device, t: Psbt, s: Detected)
    requires Loaded(d) && Ready(d.intent) && Detect(p, d.intent, t) == Some(s)
    ensures s.g < d.intent.V() && s.c <= d.intent.N() + 1 && |t.inputs| == 2
    ensures ValidatePayout(p, d, t).1 <==>
              FieldsOk(p, d.intent, s, t) && PairOpen(d, s.g, s.c)
    ensures ValidatePayout(p, d, t).1 ==>
              ValidatePayout(p, d, t).0.ctx.groupIndex as nat == s.g && ValidatePayout(p, d, t).0.ctx.payoutIndex as nat == s.c
  {
    hide Detect, FieldsOk, BitAt;
  }

  lemma FieldsAmounts(p: Platform, i: Intent, s: Detected, t: Psbt)
    requires Ready(i) && |t.inputs| == 2 && s.g < i.V() && s.c <= i.N() + 1 && FieldsOk(p, i, s, t)
    ensures ReadAmounts(p, i, s.g, s.c, t).Some?
  {
    hide VaultInputOk, ReadAmounts, MoneyOk;
  }
}
