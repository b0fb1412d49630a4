/** PegIn and Pre-PegIn as conditions on the bytes of the transaction: each is accepted exactly if it meets them and is not
    used up. Constants, addresses and control blocks are written out. */
module DepositFlows {
  import opened Octets
  import opened Bits
  import opened Intents
  import opened Platforms
  import opened Script
  import opened LeafStream
  import opened Taproot
  import opened Psbts
  import opened PegIn
  import opened PrePegIn
  import opened Deposit
  import opened Session
  import opened Machine
  import opened Flows
  import opened Addresses

  // ---------------------------------------------------------------------------------------------
  // PegIn

  /** The entry of leaf 0, with the output key it is committed to. */
  predicate HasLeaf0(p: Platform, i: Intent, g: nat, h: Bytes32, input: Input)
    requires i.InRange() && g < i.V() && p.tweak(InternalKey(), HtlcRoot(p, i, g, h)).Some?
  {
    LeafLengths(i, g, h);
    var parity := p.tweak(InternalKey(), HtlcRoot(p, i, g, h)).value.0;
    Lookup(input.leaves, [0xC0 + parity] + InternalKey() + LeafHash(p, HtlcLeaf1(i))) == Some(HtlcLeaf0(i, g, h) + [0xC0])
  }

  /** The input spends the HTLC of the group through leaf 0. */
  predicate SpendsHtlc(p: Platform, i: Intent, g: nat, h: Bytes32, input: Input, value: U64)
    requires i.InRange() && g < i.V()
  {
    var root := HtlcRoot(p, i, g, h);
    && input.prevTxid == i.scalars.prePegInTxid && input.prevVout == Present(i.groups[g].htlcVout as int)
    && input.sequence == Present(0xFFFF_FFFE) && DefaultSighash(input)
    && input.internalKey == InternalKey() && input.merkleRoot == root
    && p.tweak(InternalKey(), root).Some? && UtxoIs(input, value, p.tweak(InternalKey(), root).value.1)
    && HasLeaf0(p, i, g, h, input)
  }

  predicate PegInForm(p: Platform, i: Intent, g: nat, h: Bytes32, t: Psbt, value: U64)
    requires i.InRange() && g < i.V()
  {
    LeafLengths(i, g, h);
    && t.version == 3 && t.locktime == 0 && |t.inputs| == 1 && |t.outputs| == 3
    && SpendsHtlc(p, i, g, h, t.inputs[0], value)
    && HoldsRoot(p, t, 0, i.groups[g].amount, LeafHash(p, VaultUtxoLeaf(i, g)))
    && HoldsRoot(p, t, 1, i.groups[g].claimValue, LeafHash(p, DepositorClaimLeaf(i)))
    && Holds(t, 2, 240, [0x51, 0x02, 0x4E, 0x73])
    && var outputs := i.groups[g].amount + i.groups[g].claimValue + 240;
       outputs <= value <= outputs + i.groups[g].pegInMaxFee
  }

  lemma HasLeaf0Means(p: Platform, i: Intent, g: nat, h: Bytes32, input: Input, spk: Bytes)
    requires i.InRange() && g < i.V()
    ensures Leaf0Present(p, i, g, h, input, spk) <==>
              var out := p.tweak(InternalKey(), HtlcRoot(p, i, g, h));
              out.Some? && spk == P2tr(out.value.1) && HasLeaf0(p, i, g, h, input)
  {
    hide *;
    LeafLengths(i, g, h);
    OtherLeaf(p, i, g, h);
    HtlcRootIs(p, i, g, h);
    RootOfHtlc(p, i, g, h);
    SameKey();
    var out := p.tweak(NUMS, HtlcMerkleRoot(p, i, g, h));
    if out.Some? {
      OneSibling(p, out.value.0, LeafHash(p, HtlcLeaf1(i)));
      Leaf0Reads(p, i, g, h, input, spk, out.value.0, out.value.1);
      HasLeaf0Reads(p, i, g, h, input);
    } else {
      NoLeaf0(p, i, g, h, input, spk);
    }
  }

  lemma NoLeaf0(p: Platform, i: Intent, g: nat, h: Bytes32, input: Input, spk: Bytes)
    requires i.InRange() && g < i.V() && p.tweak(NUMS, Root(p, HtlcTree(p, i, g, h))).None?
    ensures !Leaf0Present(p, i, g, h, input, spk)
  {
    hide LeafHash, HtlcLeaf0, HtlcLeaf1, ControlBlock, Lookup, NUMS, Root, HtlcTree;
  }

  lemma Leaf0Reads(p: Platform, i: Intent, g: nat, h: Bytes32, input: Input, spk: Bytes, parity: Parity, key: Bytes32)
    requires i.InRange() && g < i.V() && p.tweak(NUMS, Root(p, HtlcTree(p, i, g, h))) == Some((parity, key))
    requires HtlcTree(p, i, g, h).Branch? && HtlcTree(p, i, g, h).right.Leaf?
    ensures Leaf0Present(p, i, g, h, input, spk) <==>
              && spk == P2tr(key)
              && Lookup(input.leaves, ControlBlock(parity, [HtlcTree(p, i, g, h).right.hash]))
                 == Some(HtlcLeaf0(i, g, h) + [0xC0])
  {
    hide LeafHash, HtlcLeaf0, HtlcLeaf1, ControlBlock, Lookup, NUMS, Root, HtlcTree, P2tr;
  }

  lemma HasLeaf0Reads(p: Platform, i: Intent, g: nat, h: Bytes32, input: Input)
    requires i.InRange() && g < i.V() && |HtlcLeaf1(i)| <= 39 && p.tweak(InternalKey(), HtlcRoot(p, i, g, h)).Some?
    ensures HasLeaf0(p, i, g, h, input) <==>
              var parity := p.tweak(InternalKey(), HtlcRoot(p, i, g, h)).value.0;
              Lookup(input.leaves, [0xC0 + parity] + InternalKey() + LeafHash(p, HtlcLeaf1(i)))
              == Some(HtlcLeaf0(i, g, h) + [0xC0])
  {
    hide LeafHash, HtlcLeaf0, HtlcLeaf1, Lookup, HtlcRoot, InternalKey;
  }

  lemma OtherLeaf(p: Platform, i: Intent, g: nat, h: Bytes32)
    requires i.InRange() && g < i.V()
    ensures |HtlcLeaf1(i)| <= 39 && HtlcTree(p, i, g, h).Branch? && HtlcTree(p, i, g, h).right.Leaf?
    ensures HtlcTree(p, i, g, h).right.hash == LeafHash(p, HtlcLeaf1(i))
  {
    hide HtlcLeaf0, HtlcLeaf1, LeafHash;
    LeafLengths(i, g, h);
  }

  lemma SpendsHtlcMeans(p: Platform, i: Intent, g: nat, h: Bytes32, input: Input, value: U64)
    requires i.InRange() && g < i.V()
    ensures SpendsHtlc(p, i, g, h, input, value) <==>
              PegInInputOk(p, i, g, h, input) && ReadWitnessUtxo(input).value.0 == value
  {
    hide Leaf0Present, HasLeaf0, UtxoIs, ReadWitnessUtxo, HtlcRoot, HtlcMerkleRoot, NUMS, InternalKey, P2tr;
    HtlcRootIs(p, i, g, h);
    SameKey();
    var out := p.tweak(InternalKey(), HtlcRoot(p, i, g, h));
    if out.Some? {
      UtxoIsRead(input, value, out.value.1);
    }
    if ReadWitnessUtxo(input).Some? {
      HasLeaf0Means(p, i, g, h, input, ReadWitnessUtxo(input).value.1);
    }
  }

  lemma RootOfHtlc(p: Platform, i: Intent, g: nat, h: Bytes32)
    requires i.InRange() && g < i.V()
    ensures HtlcMerkleRoot(p, i, g, h) == Root(p, HtlcTree(p, i, g, h))
  {
  }

  lemma PegInFields(p: Platform, i: Intent, g: nat, h: Bytes32, t: Psbt, value: U64)
    requires i.InRange() && g < i.V() && |t.inputs| == 1 && |t.outputs| == 3 && t.version == 3 && t.locktime == 0
    ensures PegInForm(p, i, g, h, t, value) <==>
              PegInFieldsOk(p, i, g, h, t) && ReadWitnessUtxo(t.inputs[0]).value.0 == value
  {
    hide SpendsHtlc, PegInInputOk, HoldsRoot, LeafPreimage, VaultUtxoLeaf, DepositorClaimLeaf, ReadWitnessUtxo, ReadOutput,
         TweakedSpk, PegInValueOk;
    LeafLengths(i, g, h);
    SpendsHtlcMeans(p, i, g, h, t.inputs[0], value);
    RootReads(p, t, 0, i.groups[g].amount, LeafHash(p, VaultUtxoLeaf(i, g)));
    RootReads(p, t, 1, i.groups[g].claimValue, LeafHash(p, DepositorClaimLeaf(i)));
    PegInValueMeans(i.groups[g], value);
    assert Holds(t, 2, 240, [0x51, 0x02, 0x4E, 0x73]) <==>
             t.outputs[2].amount == Some(P2A_VALUE) && t.outputs[2].Script() == P2A_SCRIPT;
  }

  lemma OnlyGroup(i: Intent, g: nat)
    requires i.InRange() && g < i.V() && VoutsAscending(i)
    ensures GroupByVout(i, i.groups[g].htlcVout as int, 0) == Some(g)
  {
    hide VoutsAscending;
    var r := GroupByVout(i, i.groups[g].htlcVout as int, 0).value;
    VoutsDiffer(i, r, g);
  }

  lemma VoutsDiffer(i: Intent, g: nat, k: nat)
    requires i.InRange() && g < i.V() && k < i.V() && VoutsAscending(i) && i.groups[g].htlcVout == i.groups[k].htlcVout
    ensures g == k
  {
  }

  /** A PegIn is accepted for group g exactly if it is the PegIn of group g with some HTLC value that leaves a fee within the
      cap, the group is not signed, and the count is below the number of vaults. */
  lemma PegInAccepted(p: Platform, d: Device, t: Psbt, g: nat)
    requires Loaded(d) && d.intent.InRange() && VoutsAscending(d.intent) && g < d.intent.V()
    ensures ValidatePegIn(p, d, t).1 && ValidatePegIn(p, d, t).0.ctx.groupIndex as nat == g <==>
              && (exists value: U64 :: PegInForm(p, d.intent, g, d.ctx.hashlocks[g], t, value))
              && !BitAt(d.ctx.pegInMask, g) && d.ctx.pegInSigned < d.intent.V()
  {
    hide PegInForm, PegInFieldsOk, BitAt, VoutsAscending, ReadWitnessUtxo, Wrap64;
    var i, h := d.intent, d.ctx.hashlocks[g];
    OnlyGroup(i, g);
    if value: U64 :| PegInForm(p, i, g, h, t, value) {
      PegInFormShape(p, i, g, h, t, value);
      PegInFields(p, i, g, h, t, value);
    } else if PegInGroup(i, t) == Some(g) && PegInFieldsOk(p, i, g, h, t) {
      PegInUtxo(p, i, g, h, t);
      PegInFields(p, i, g, h, t, ReadWitnessUtxo(t.inputs[0]).value.0);
      assert false;
    }
  }

  lemma PegInFormShape(p: Platform, i: Intent, g: nat, h: Bytes32, t: Psbt, value: U64)
    requires i.InRange() && g < i.V() && PegInForm(p, i, g, h, t, value)
    ensures t.version == 3 && t.locktime == 0 && |t.inputs| == 1 && |t.outputs| == 3
    ensures t.inputs[0].prevVout == Present(i.groups[g].htlcVout as int)
  {
    hide HoldsRoot, Holds, UtxoIs, Lookup;
  }

  lemma PegInUtxo(p: Platform, i: Intent, g: nat, h: Bytes32, t: Psbt)
    requires i.InRange() && g < i.V() && |t.inputs| == 1 && |t.outputs| == 3 && PegInFieldsOk(p, i, g, h, t)
    ensures ReadWitnessUtxo(t.inputs[0]).Some?
  {
    hide ReadWitnessUtxo, PegInOutputsOk, Leaf0Present;
  }

  /** Its output keys exist. */
  predicate PegInBuildable(p: Platform, i: Intent, g: nat, h: Bytes32) {
    && i.InRange() && g < i.V()
    && (LeafLengths(i, g, h);
        && p.tweak(InternalKey(), HtlcRoot(p, i, g, h)).Some?
        && p.tweak(InternalKey(), LeafHash(p, VaultUtxoLeaf(i, g))).Some?
        && p.tweak(InternalKey(), LeafHash(p, DepositorClaimLeaf(i))).Some?)
  }

  /** The PegIn of group g with this HTLC value, as a PSBT. */
  function PegInFor(p: Platform, i: Intent, g: nat, h: Bytes32, value: U64): Psbt
    requires PegInBuildable(p, i, g, h)
  {
    hide HtlcRoot, LeafHash, VaultUtxoLeaf, DepositorClaimLeaf, HtlcLeaf0, HtlcLeaf1, LE, InternalKey;
    LeafLengths(i, g, h);
    var root := HtlcRoot(p, i, g, h);
    var (parity, key) := p.tweak(InternalKey(), root).value;
    var vault := p.tweak(InternalKey(), LeafHash(p, VaultUtxoLeaf(i, g))).value.1;
    var claim := p.tweak(InternalKey(), LeafHash(p, DepositorClaimLeaf(i))).value.1;
    var input := Input(
      i.scalars.prePegInTxid, Present(i.groups[g].htlcVout as int), Present(0xFFFF_FFFE), Absent,
      LE(value, 8) + ([34, 0x51, 0x20] + key), InternalKey(), root,
      [([0xC0 + parity] + InternalKey() + LeafHash(p, HtlcLeaf1(i)), HtlcLeaf0(i, g, h) + [0xC0])]);
    Transaction(
      3, 0, [input],
      [Output(Some(i.groups[g].amount), Some([0x51, 0x20] + vault)),
       Output(Some(i.groups[g].claimValue), Some([0x51, 0x20] + claim)),
       Output(Some(240), Some([0x51, 0x02, 0x4E, 0x73]))],
      true, false, {}, {}, value, 0, false, 0, 0)
  }

  /** The honest PegIn of an unsigned group is accepted. */
  lemma HonestPegInAccepted(p: Platform, d: Device, g: nat, value: U64)
    requires Loaded(d) && d.intent.InRange() && VoutsAscending(d.intent) && g < d.intent.V()
    requires PegInBuildable(p, d.intent, g, d.ctx.hashlocks[g])
    requires !BitAt(d.ctx.pegInMask, g) && d.ctx.pegInSigned < d.intent.V()
    requires var outputs := d.intent.groups[g].amount + d.intent.groups[g].claimValue + 240;
             outputs <= value <= outputs + d.intent.groups[g].pegInMaxFee
    ensures ValidatePegIn(p, d, PegInFor(p, d.intent, g, d.ctx.hashlocks[g], value)).1
  {
    hide ValidatePegIn, VoutsAscending, BitAt, HtlcRoot, LeafHash, VaultUtxoLeaf, DepositorClaimLeaf, HtlcLeaf0, HtlcLeaf1, LE,
         FromLE, InternalKey;
    var i, h := d.intent, d.ctx.hashlocks[g];
    UtxoSplits(value, p.tweak(InternalKey(), HtlcRoot(p, i, g, h)).value.1);
    assert PegInForm(p, i, g, h, PegInFor(p, i, g, h, value), value);
    PegInAccepted(p, d, PegInFor(p, i, g, h, value), g);
  }

  // ---------------------------------------------------------------------------------------------
  // Pre-PegIn

  predicate IsAuth(d: Device, t: Psbt, k: nat) {
    Holds(t, k, 0, [0x6A, 0x20] + d.ctx.authAnchor)
  }

  predicate IsAnchor(p: Platform, d: Device, t: Psbt, k: nat) {
    Pays(p, t, k, d.intent.depositor) && t.outputs[k].amount == Some(546)
  }

  predicate IsChange(p: Platform, d: Device, t: Psbt, k: nat) {
    Pays(p, t, k, d.intent.depositor) && t.outputs[k].amount.value > 546
  }

  /** The wallet policy is the default account that the depositor path is the first address of. */
  predicate ChangeAllowed(p: Platform, i: Intent, t: Psbt) {
    && t.accountIsDefault && t.purpose == 86 && t.account <= 100
    && i.scalars.path == [0x8000_0056, Harden(p.coinType), 0x8000_0000 + t.account, 0, 0]
  }

  /** Beyond the HTLCs: at most one auth anchor, one CPFP anchor and, after it, one change output. */
  predicate Tail(p: Platform, d: Device, t: Psbt)
  {
    var v := d.intent.V();
    && (forall k :: v <= k < |t.outputs| ==>
          k !in t.internalOutputs && (IsAuth(d, t, k) || IsAnchor(p, d, t, k) || IsChange(p, d, t, k)))
    && (forall j, k :: v <= j < k < |t.outputs| ==> !(IsAuth(d, t, j) && IsAuth(d, t, k)))
    && (forall j, k :: v <= j < k < |t.outputs| ==> !(IsAnchor(p, d, t, j) && IsAnchor(p, d, t, k)))
    && (forall j, k :: v <= j < k < |t.outputs| ==> !(IsChange(p, d, t, j) && IsChange(p, d, t, k)))
    && (forall k :: v <= k < |t.outputs| && IsChange(p, d, t, k) ==>
          ChangeAllowed(p, d.intent, t) && exists j :: v <= j < k && IsAnchor(p, d, t, j))
  }

  /** Output g is the HTLC of group g, with enough for its PegIn and no more than the fee cap beyond. */
  predicate HoldsHtlc(p: Platform, d: Device, t: Psbt, g: nat)
    requires d.intent.InRange() && g < d.intent.V()
  {
    var grp := d.intent.groups[g];
    && grp.htlcVout as nat == g < |t.outputs| && t.outputs[g].amount.Some?
    && var value, low := t.outputs[g].amount.value, grp.amount + grp.claimValue + 240;
       && HoldsRoot(p, t, g, value, HtlcRoot(p, d.intent, g, d.ctx.hashlocks[g]))
       && low <= value <= low + grp.pegInMaxFee <= 0xFFFF_FFFF_FFFF_FFFF
  }

  /** Inputs of a native segwit wallet policy, final, signed with the default sighash or ALL. */
  predicate WalletInputs(t: Psbt) {
    && t.nativeSegwit && t.version >= 2 && t.locktime == 0
    && forall k :: 0 <= k < |t.inputs| ==>
         && k in t.internalInputs
         && (t.inputs[k].sighash == Absent || t.inputs[k].sighash == Present(0) || t.inputs[k].sighash == Present(1))
         && |t.inputs[k].prevTxid| == 32 && t.inputs[k].prevVout.Present? && t.inputs[k].sequence == Present(0xFFFF_FFFF)
  }

  predicate PlainOutputs(t: Psbt) {
    forall k :: 0 <= k < |t.outputs| ==> t.outputs[k].amount.Some? && |t.outputs[k].Script()| == 34
  }

  predicate PrePegInForm(p: Platform, d: Device, t: Psbt)
    requires d.intent.InRange()
  {
    && (forall g :: 0 <= g < d.intent.V() ==> d.ctx.hashlocks[g] != ZERO32 && HoldsHtlc(p, d, t, g))
    && WalletInputs(t) && PlainOutputs(t) && Tail(p, d, t) && p.tweak(d.intent.depositor, []).Some?
    && t.outputsTotal <= t.inputsTotal <= t.outputsTotal + d.intent.scalars.prePegInMaxFee
    && ScriptsFit(t.outputs) && p.sha256(p.sha256(Serialize(t))) == d.intent.scalars.prePegInTxid
  }

  lemma TailPrefix(policy: OutputPolicy, t: Psbt, a: nat, k: nat, n: nat)
    requires k <= n && TailOk(policy, t, a, n)
    ensures TailOk(policy, t, a, k)
  {
    hide KindOf;
  }

  /** An allowed tail passes the classification. */
  lemma {:induction false} TailAccepts(i: Intent, policy: OutputPolicy, t: Psbt, k: nat, seen: Seen)
    requires i.InRange() && i.V() <= k <= |t.outputs| && i.groups[i.V() - 1].htlcVout as nat < i.V()
    requires forall j :: i.V() <= j < |t.outputs| ==> !IsHtlcOutput(i, j) && j !in t.internalOutputs
    requires Tracks(policy, t, i.V(), k, seen) && TailOk(policy, t, i.V(), |t.outputs|)
    ensures OutputsFrom(i, policy, t, k, seen).Some?
    decreases |t.outputs| - k
  {
    hide KindOf, IsHtlcOutput, Tracks, TailOk, OutputStep;
    if k < |t.outputs| {
      TailPrefix(policy, t, i.V(), k, |t.outputs|);
      NextFits(i, policy, t, k, seen);
      TailStep(i, policy, t, k, seen);
      TailAccepts(i, policy, t, k + 1, OutputStep(i, policy, t, k, seen).value);
    }
  }

  lemma NextFits(i: Intent, policy: OutputPolicy, t: Psbt, k: nat, seen: Seen)
    requires i.InRange() && i.V() <= k < |t.outputs| && i.groups[i.V() - 1].htlcVout as nat < i.V()
    requires !IsHtlcOutput(i, k) && k !in t.internalOutputs
    requires Tracks(policy, t, i.V(), k, seen) && TailOk(policy, t, i.V(), |t.outputs|)
    ensures OutputStep(i, policy, t, k, seen).Some?
  {
    hide IsHtlcOutput, KindOf;
    var kind := KindOf(policy, t, k);
    assert kind != Other;
    assert kind == Auth ==> !seen.auth;
    assert kind == Anchor ==> !seen.anchor && !seen.change;
    assert kind == Change ==> !seen.change && seen.anchor && policy.changeAllowed;
    hide Tracks, TailOk;
    KindDecides(i, policy, t, k, seen);
  }

  lemma KindDecides(i: Intent, policy: OutputPolicy, t: Psbt, k: nat, seen: Seen)
    requires i.InRange() && i.V() <= k < |t.outputs| && i.groups[i.V() - 1].htlcVout as nat < i.V()
    requires !IsHtlcOutput(i, k) && k !in t.internalOutputs && KindOf(policy, t, k) != Other
    requires KindOf(policy, t, k) == Auth ==> !seen.auth
    requires KindOf(policy, t, k) == Anchor ==> !seen.anchor && !seen.change
    requires KindOf(policy, t, k) == Change ==> !seen.change && seen.anchor && policy.changeAllowed
    ensures OutputStep(i, policy, t, k, seen).Some?
  {
    hide IsHtlcOutput;
  }

  lemma KindReads(p: Platform, d: Device, t: Psbt, policy: OutputPolicy, k: nat)
    requires PolicyFor(p, d, t) == Some(policy)
    ensures KindOf(policy, t, k) == Auth <==> IsAuth(d, t, k)
    ensures KindOf(policy, t, k) == Anchor <==> IsAnchor(p, d, t, k)
    ensures KindOf(policy, t, k) == Change <==> IsChange(p, d, t, k)
  {
    hide Pays, ReadOutput, ChangePathOk, Holds;
    HoldsReads(t, k, 0, [0x6A, 0x20] + d.ctx.authAnchor);
    PaysOwn(p, t, k, d.intent.depositor);
    OwnIs(p, t, k, d.intent.depositor);
    ReadHas(p, t, k);
  }

  lemma ChangeReads(p: Platform, d: Device, t: Psbt, policy: OutputPolicy)
    requires PolicyFor(p, d, t) == Some(policy)
    ensures policy.changeAllowed <==> ChangeAllowed(p, d.intent, t)
  {
  }

  /** No output of the tail is one of the wallet's own. */
  predicate NoneInternal(t: Psbt, v: nat) {
    forall k :: v <= k < |t.outputs| ==> k !in t.internalOutputs
  }

  ghost predicate KindsAgree(p: Platform, d: Device, t: Psbt, policy: OutputPolicy) {
    forall k: nat ::
      && (KindOf(policy, t, k) == Auth <==> IsAuth(d, t, k))
      && (KindOf(policy, t, k) == Anchor <==> IsAnchor(p, d, t, k))
      && (KindOf(policy, t, k) == Change <==> IsChange(p, d, t, k))
  }

  lemma TailMeans(p: Platform, d: Device, t: Psbt, policy: OutputPolicy)
    requires PolicyFor(p, d, t) == Some(policy)
    ensures Tail(p, d, t) <==> TailOk(policy, t, d.intent.V(), |t.outputs|) && NoneInternal(t, d.intent.V())
  {
    hide *;
    ChangeReads(p, d, t, policy);
    assert KindsAgree(p, d, t, policy) by { AllKinds(p, d, t, policy); }
    if Tail(p, d, t) {
      TailGives(p, d, t, policy);
    }
    if TailOk(policy, t, d.intent.V(), |t.outputs|) && NoneInternal(t, d.intent.V()) {
      TailTakes(p, d, t, policy);
    }
  }

  lemma AllKinds(p: Platform, d: Device, t: Psbt, policy: OutputPolicy)
    requires PolicyFor(p, d, t) == Some(policy)
    ensures KindsAgree(p, d, t, policy)
  {
    hide KindOf, IsAuth, IsAnchor, IsChange, PolicyFor;
    forall k: nat
      ensures KindOf(policy, t, k) == Auth <==> IsAuth(d, t, k)
      ensures KindOf(policy, t, k) == Anchor <==> IsAnchor(p, d, t, k)
      ensures KindOf(policy, t, k) == Change <==> IsChange(p, d, t, k)
    {
      KindReads(p, d, t, policy, k);
    }
  }

  lemma TailGives(p: Platform, d: Device, t: Psbt, policy: OutputPolicy)
    requires KindsAgree(p, d, t, policy) && (policy.changeAllowed <==> ChangeAllowed(p, d.intent, t)) && Tail(p, d, t)
    ensures TailOk(policy, t, d.intent.V(), |t.outputs|) && NoneInternal(t, d.intent.V())
  {
    hide KindOf, IsAuth, IsAnchor, IsChange, ChangeAllowed;
    var v := d.intent.V();
    forall j, k | v <= j < k < |t.outputs| ensures KindOf(policy, t, j) != KindOf(policy, t, k) {
      assert IsAuth(d, t, j) || IsAnchor(p, d, t, j) || IsChange(p, d, t, j);
    }
    forall k | v <= k < |t.outputs| && KindOf(policy, t, k) == Change
      ensures policy.changeAllowed && exists m :: v <= m < k && KindOf(policy, t, m) == Anchor
    {
      var m :| v <= m < k && IsAnchor(p, d, t, m);
      assert KindOf(policy, t, m) == Anchor;
    }
  }

  lemma TailTakes(p: Platform, d: Device, t: Psbt, policy: OutputPolicy)
    requires KindsAgree(p, d, t, policy) && (policy.changeAllowed <==> ChangeAllowed(p, d.intent, t))
    requires TailOk(policy, t, d.intent.V(), |t.outputs|) && NoneInternal(t, d.intent.V())
    ensures Tail(p, d, t)
  {
    hide KindOf, IsAuth, IsAnchor, IsChange, ChangeAllowed;
    var v := d.intent.V();
    forall k | v <= k < |t.outputs| && IsChange(p, d, t, k)
      ensures ChangeAllowed(p, d.intent, t) && exists j :: v <= j < k && IsAnchor(p, d, t, j)
    {
      assert KindOf(policy, t, k) == Change;
      var j :| v <= j < k && KindOf(policy, t, j) == Anchor;
      assert IsAnchor(p, d, t, j);
    }
  }

  /** The HTLCs come first, in group order. */
  predicate HtlcsInOrder(i: Intent) {
    i.InRange() && forall g :: 0 <= g < i.V() ==> i.groups[g].htlcVout as nat == g
  }

  lemma InOrder(i: Intent)
    requires HtlcsInOrder(i)
    ensures i.InRange() && VoutsAscending(i) && i.groups[i.V() - 1].htlcVout as nat < i.V()
    ensures forall k :: 0 <= k < i.V() ==> IsHtlcOutput(i, k)
    ensures forall k :: i.V() <= k ==> !IsHtlcOutput(i, k)
  {
    forall k | 0 <= k < i.V() ensures IsHtlcOutput(i, k) {
      assert i.groups[k].htlcVout as nat == k;
    }
  }

  /** The classification accepts exactly the allowed tails. */
  lemma OutputsMean(p: Platform, d: Device, t: Psbt, policy: OutputPolicy)
    requires HtlcsInOrder(d.intent) && d.intent.V() <= |t.outputs| && PolicyFor(p, d, t) == Some(policy)
    ensures OutputsOk(d.intent, policy, t) <==> Tail(p, d, t)
  {
    hide Tail, TailOk, IsHtlcOutput, PolicyFor, HtlcsInOrder, OutputsFrom, KindOf, VoutsAscending;
    var i := d.intent;
    InOrder(i);
    TailMeans(p, d, t, policy);
    SkipHtlcs(i, policy, t, 0);
    NothingTracked(i, policy, t);
    if OutputsOk(i, policy, t) {
      TailFrom(i, policy, t, i.V(), NOTHING_SEEN);
      forall k | i.V() <= k < |t.outputs| ensures k !in t.internalOutputs {
        var at := OutputsSteps(i, policy, t, i.V(), NOTHING_SEEN, k);
      }
    } else if Tail(p, d, t) {
      TailAccepts(i, policy, t, i.V(), NOTHING_SEEN);
    }
  }

  lemma NothingTracked(i: Intent, policy: OutputPolicy, t: Psbt)
    requires i.InRange()
    ensures Tracks(policy, t, i.V(), i.V(), NOTHING_SEEN) && TailOk(policy, t, i.V(), i.V())
  {
  }

  lemma HoldsHtlcMeans(p: Platform, d: Device, t: Psbt, g: nat)
    requires d.intent.InRange() && g < d.intent.V() && d.intent.groups[g].htlcVout as nat == g
    ensures HoldsHtlc(p, d, t, g) <==> HtlcOutputOk(p, d.intent, d.ctx.hashlocks, t, g)
  {
    hide HoldsRoot, HtlcRoot, HtlcMerkleRoot, ReadOutput;
    var h := d.ctx.hashlocks[g];
    HtlcRootIs(p, d.intent, g, h);
    ReadHas(p, t, g);
    if g < |t.outputs| && t.outputs[g].amount.Some? {
      RootReads(p, t, g, t.outputs[g].amount.value, HtlcRoot(p, d.intent, g, h));
    }
  }

  lemma WalletInputsMean(t: Psbt)
    ensures WalletInputs(t) && PlainOutputs(t) <==> InputsOk(t) && Hashable(t)
  {
    if WalletInputs(t) && PlainOutputs(t) {
      forall k | 0 <= k < |t.inputs| ensures HashableInput(t.inputs[k]) && SighashDefaultOrAll(t.inputs[k]) {
      }
      forall k | 0 <= k < |t.outputs| ensures HashableOutput(t.outputs[k]) {
      }
    }
    if InputsOk(t) && Hashable(t) {
      forall k | 0 <= k < |t.inputs| ensures HashableInput(t.inputs[k]) && SighashDefaultOrAll(t.inputs[k]) {
      }
      forall k | 0 <= k < |t.outputs| ensures HashableOutput(t.outputs[k]) {
      }
    }
  }

  lemma HtlcsMean(p: Platform, d: Device, t: Psbt)
    requires HtlcsInOrder(d.intent)
    ensures (forall g :: 0 <= g < d.intent.V() ==> HoldsHtlc(p, d, t, g)) <==>
              HtlcOutputsOk(p, d.intent, d.ctx.hashlocks, t)
    ensures HtlcOutputsOk(p, d.intent, d.ctx.hashlocks, t) ==> d.intent.V() <= |t.outputs|
  {
    hide HoldsHtlc;
    var i := d.intent;
    forall g | 0 <= g < i.V() ensures HoldsHtlc(p, d, t, g) <==> HtlcOutputOk(p, i, d.ctx.hashlocks, t, g) {
      HoldsHtlcMeans(p, d, t, g);
    }
    hide HtlcSpk, ReadOutput, HtlcValueOk;
    if HtlcOutputsOk(p, i, d.ctx.hashlocks, t) {
      assert HtlcOutputOk(p, i, d.ctx.hashlocks, t, i.V() - 1);
    }
  }

  lemma PrePegInFields(p: Platform, d: Device, t: Psbt)
    requires HtlcsInOrder(d.intent)
    ensures PrePegInForm(p, d, t) <==> PrePegInFieldsOk(p, d, t)
  {
    hide HtlcsInOrder, HoldsHtlc, WalletInputs, PlainOutputs, Tail, Serialize, HtlcOutputOk, InputsOk, Hashable, OutputsOk,
         ChangePathOk, ScriptsFit;
    var i := d.intent;
    HtlcsMean(p, d, t);
    WalletInputsMean(t);
    if Hashable(t) {
      HashableScripts(t);
      ScriptsHash(t);
    }
    if PolicyFor(p, d, t).Some? && i.V() <= |t.outputs| {
      OutputsMean(p, d, t, PolicyFor(p, d, t).value);
    }
  }

  lemma ScriptsHash(t: Psbt)
    requires forall o :: o in t.outputs ==> |o.Script()| < 0x1_0000_0000
    ensures ScriptsFit(t.outputs)
  {
  }

  /** A Pre-PegIn is accepted exactly if it is the intent's and none was accepted before under this approval. */
  lemma PrePegInAccepted(p: Platform, d: Device, t: Psbt)
    requires Loaded(d) && d.intent.InRange() && VoutsAscending(d.intent)
    ensures ValidatePrePegIn(p, d, t).1 <==> PrePegInForm(p, d, t) && d.ctx.prePegInSigned == 0
  {
    hide PrePegInFieldsOk, PrePegInForm, VoutsAscending;
    if PrePegInForm(p, d, t) {
      PrePegInOrder(p, d, t);
      PrePegInFields(p, d, t);
    }
    if PrePegInFieldsOk(p, d, t) {
      FieldsOrder(p, d, t);
      PrePegInFields(p, d, t);
    }
  }

  lemma PrePegInOrder(p: Platform, d: Device, t: Psbt)
    requires d.intent.InRange() && PrePegInForm(p, d, t)
    ensures HtlcsInOrder(d.intent)
  {
    hide HoldsRoot, WalletInputs, PlainOutputs, Tail, Serialize, ScriptsFit;
    assert forall g :: 0 <= g < d.intent.V() ==> HoldsHtlc(p, d, t, g) ==> d.intent.groups[g].htlcVout as nat == g;
  }

  lemma FieldsOrder(p: Platform, d: Device, t: Psbt)
    requires d.intent.InRange() && VoutsAscending(d.intent) && PrePegInFieldsOk(p, d, t)
    ensures HtlcsInOrder(d.intent)
  {
    hide HtlcOutputsOk, OutputsOk, PolicyFor, PrePegInTxid, InputsOk, HashlocksSet, VoutsAscending, TailOk;
    AcceptedShape(p, d.intent, d.ctx.hashlocks, PolicyFor(p, d, t).value, t);
  }
}
