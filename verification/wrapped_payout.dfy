/** The unguarded input sum of a Payout, on a whole transaction: one that is accepted and gives almost 2^64 to miners. */
module WrappedPayout {
  import opened Octets
  import opened Bits
  import opened Intents
  import opened Platforms
  import opened Script
  import opened LeafStream
  import opened Taproot
  import opened Psbts
  import opened PegIn
  import opened PrePegIn
  import opened Payout
  import opened LoadingLemmas
  import opened Session
  import opened Machine
  import opened LeafDispatch
  import opened Ledgers
  import Builders

  const CONNECTOR_VALUE: U64 := 3000

  /** A single-vault intent whose amount is 1000 short of 2^64: the loader accepts its group, and the PegIn checks an HTLC
      that funds it. */
  predicate NearLimit(i: Intent) {
    && Ready(i) && RolesDisjoint(i)
    && i.V() == 1 && i.N() == 1 && i.M() == 1 && i.scalars.baseFeeRate == MAX_BASE_FEE_RATE
    && i.groups[0].amount == U64_MAX - 999 && i.groups[0].commission == 1000 && i.groups[0].claimValue == DUST_LIMIT
  }

  /** WITNESS_UTXO bytes. */
  function Utxo(value: U64, spk: Bytes): Bytes
    requires |spk| == 34
  {
    LE(value, 8) + [34] + spk
  }

  lemma UtxoReads(input: Input, value: U64, spk: Bytes)
    requires |spk| == 34 && input.witnessUtxo == Utxo(value, spk)
    ensures ReadWitnessUtxo(input) == Some((value, spk))
  {
    hide LE, FromLE;
    Pow256Values();
    LEDecodes(value, 8);
    assert input.witnessUtxo[..8] == LE(value, 8) && input.witnessUtxo[9..] == spk;
  }

  /** The keys the transaction is built with exist: tweaks that succeed and a PegIn that can be rebuilt. */
  predicate Buildable(p: Platform, i: Intent)
    requires NearLimit(i)
  {
    && PegInTxid(p, i, 0).Some?
    && VaultUtxoSpk(p, i, 0).Some?
    && (Builders.PayoutLeafLength(i, 0, 2);
        p.tweak(NUMS, LeafHash(p, Assert0PayoutLeaf(i, 0, 2))).Some?)
    && Bip86Spk(p, i.depositor).Some?
  }

  /** Input 0 spends the vault UTXO by its only leaf. */
  function VaultInput(p: Platform, i: Intent): Input
    requires NearLimit(i) && Buildable(p, i)
  {
    LeafLengths(i, 0, ZERO32);
    var out := p.tweak(NUMS, LeafHash(p, VaultUtxoLeaf(i, 0))).value;
    Input(PegInTxid(p, i, 0).value, Present(0), Present(i.scalars.pegInCsv as int), Absent,
          Utxo(i.groups[0].amount, P2tr(out.1)), [], [],
          [(ControlBlock(out.0, []), VaultUtxoLeaf(i, 0) + [LEAF_VERSION])])
  }

  /** Input 1 spends a connector whose only leaf is the depositor's payout leaf. */
  function ConnectorInput(p: Platform, i: Intent): Input
    requires NearLimit(i) && Buildable(p, i)
  {
    Builders.PayoutLeafLength(i, 0, 2);
    var out := p.tweak(NUMS, LeafHash(p, Assert0PayoutLeaf(i, 0, 2))).value;
    Input(Zeros(32), Present(0), Present(i.scalars.payoutTimelock as int), Absent,
          Utxo(CONNECTOR_VALUE, P2tr(out.1)), [], [],
          [(ControlBlock(out.0, []), Assert0PayoutLeaf(i, 0, 2) + [LEAF_VERSION])])
  }

  /** The depositor's Payout with two outputs of 546. */
  function WrappedTx(p: Platform, i: Intent): Psbt
    requires NearLimit(i) && Buildable(p, i)
  {
    var own := Output(Some(DUST_LIMIT), Bip86Spk(p, i.depositor));
    Transaction(2, 0, [VaultInput(p, i), ConnectorInput(p, i)], [own, own], true, false, {}, {},
                Wrap64(i.groups[0].amount + CONNECTOR_VALUE), 2 * DUST_LIMIT, false, 0, 0)
  }

  lemma VaultInputAccepted(p: Platform, i: Intent)
    requires NearLimit(i) && Buildable(p, i)
    ensures VaultInputOk(p, i, 0, VaultInput(p, i))
  {
    hide VaultUtxoLeaf, ControlBlock, P2tr, PegInTxid, Utxo, NUMS, ReadWitnessUtxo, RolesDisjoint;
    LeafLengths(i, 0, ZERO32);
    var out := p.tweak(NUMS, LeafHash(p, VaultUtxoLeaf(i, 0))).value;
    UtxoReads(VaultInput(p, i), i.groups[0].amount, P2tr(out.1));
  }

  /** A single leaf is its own tree. */
  lemma OneLeafCommits(p: Platform, h: Bytes32, parity: Parity, key: Bytes32)
    requires p.tweak(NUMS, h) == Some((parity, key))
    ensures Commits(p, ControlBlock(parity, []), h, P2tr(key))
  {
    hide NUMS, ControlBlock, Commits;
    AnyLeafVerifies(p, Leaf(h), [], parity, key);
  }

  lemma ConnectorDetected(p: Platform, i: Intent)
    requires NearLimit(i) && Buildable(p, i)
    ensures CarriesPayoutLeaf(p, i, 0, 2, ConnectorInput(p, i))
    ensures ReadWitnessUtxo(ConnectorInput(p, i)).Some? && ReadWitnessUtxo(ConnectorInput(p, i)).value.0 == CONNECTOR_VALUE
  {
    hide Assert0PayoutLeaf, Commits, P2tr, PegInTxid, Utxo, NUMS, ReadWitnessUtxo, RolesDisjoint;
    Builders.PayoutLeafLength(i, 0, 2);
    var out := p.tweak(NUMS, LeafHash(p, Assert0PayoutLeaf(i, 0, 2))).value;
    UtxoReads(ConnectorInput(p, i), CONNECTOR_VALUE, P2tr(out.1));
    OneLeafCommits(p, LeafHash(p, Assert0PayoutLeaf(i, 0, 2)), out.0, out.1);
  }

  lemma WrappedDetected(p: Platform, i: Intent)
    requires NearLimit(i) && Buildable(p, i)
    ensures Detect(p, i, WrappedTx(p, i)) == Some(Detected(0, 2, CONNECTOR_VALUE))
  {
    hide VaultInputOk, ConnectorInput, CarriesPayoutLeaf, ReadWitnessUtxo, Detect, RolesDisjoint, PegInTxid, ControlBlock, Utxo,
         VaultUtxoLeaf;
    ConnectorDetected(p, i);
    WrappedMoney(i);
    DetectReads(p, i, WrappedTx(p, i), Detected(0, 2, CONNECTOR_VALUE));
  }

  lemma WrappedAmounts(p: Platform, i: Intent)
    requires NearLimit(i) && Buildable(p, i)
    ensures ReadAmounts(p, i, 0, 2, WrappedTx(p, i)) == Some(Amounts(546, 546, 0))
  {
    hide VaultInput, ConnectorInput, RolesDisjoint, PegInTxid;
  }

  /** The transaction is accepted in any session that has the intent loaded and has not signed this slot, and what its inputs
      hold beyond its outputs is almost 2^64. */
  lemma WrappedPayoutAccepted(p: Platform, d: Device, l: Ledger)
    requires SigningInv(d, l) && Loaded(d) && NearLimit(d.intent) && Buildable(p, d.intent)
    requires !BitAt(d.ctx.payoutMask, Slot(d.intent, 0, 2))
    ensures ValidGroup(d.intent.groups[0])
    ensures PegInValueOk(d.intent.groups[0], d.intent.groups[0].amount + DUST_LIMIT + P2A_VALUE)
    ensures ValidatePayout(p, d, WrappedTx(p, d.intent)).1
    ensures ReadAmounts(p, d.intent, 0, 2, WrappedTx(p, d.intent)) == Some(Amounts(546, 546, 0))
    ensures RealFee(d.intent, 0, CONNECTOR_VALUE, Amounts(546, 546, 0)) > U64_MAX - 1000
  {
    hide VaultInput, ConnectorInput, RolesDisjoint, PegInTxid, VaultInputOk, Detect, ReadAmounts, BitAt, Slot, MoneyOk,
         ValidatePayout, SigningInv, VaultUtxoSpk, Bip86Spk, RealFee, PegInValueOk;
    var i := d.intent;
    WrappedMoney(i);
    WrappedDetected(p, i);
    WrappedAmounts(p, i);
    VaultInputAccepted(p, i);
    ConnectorFields(p, i);
    FlatPayoutCapIdle(d, l, 0, 2);
    AcceptanceIsMoney(p, d, WrappedTx(p, i), Detected(0, 2, CONNECTOR_VALUE));
  }

  lemma ConnectorFields(p: Platform, i: Intent)
    requires NearLimit(i) && Buildable(p, i)
    ensures ConnectorInputOk(i, ConnectorInput(p, i))
  {
  }
}
