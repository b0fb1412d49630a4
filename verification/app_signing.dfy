/** The validators and the signer as they run on the globals. */
module AppSigning {
  import opened Octets
  import opened Bits
  import opened Intents
  import opened Platforms
  import opened Script
  import opened LeafParsers
  import opened LeafStream
  import opened Taproot
  import opened Psbts
  import opened PegIn
  import opened PrePegIn
  import opened Deposit
  import opened Claimer
  import opened Payout
  import opened NoPayout
  import opened Standalone
  import opened Loading
  import opened Session
  import opened AppSession
  import opened Machine

  // ---------------------------------------------------------------------------------------------
  // Deposit

  method CheckHashlocks(g: Globals) returns (ok: bool)
    requires g.intent.InRange()
    ensures ok <==> HashlocksSet(g.State())
  {
    for gi := 0 to g.intent.V()
      invariant forall k :: 0 <= k < gi ==> g.ctx.hashlocks[k] != ZERO32
    {
      if g.ctx.hashlocks[gi] == ZERO32 {
        return false;
      }
    }
    return true;
  }

  method CheckInputs(t: Psbt) returns (ok: bool)
    ensures ok <==> InputsOk(t)
  {
    for k := 0 to |t.inputs|
      invariant forall j :: 0 <= j < k ==> j in t.internalInputs
    {
      if k !in t.internalInputs {
        return false;
      }
    }
    if !t.nativeSegwit || t.version < 2 || t.locktime != 0 {
      return false;
    }
    for k := 0 to |t.inputs|
      invariant forall j :: 0 <= j < k ==> SighashDefaultOrAll(t.inputs[j])
    {
      var sighash := t.inputs[k].sighash;
      if sighash.Unreadable? || (sighash.Present? && sighash.value != SIGHASH_DEFAULT && sighash.value != SIGHASH_ALL) {
        assert !SighashDefaultOrAll(t.inputs[k]);
        return false;
      }
    }
    return true;
  }

  /** _validate_prepegin */
  method ValidatePrePegInTx(g: Globals, t: Psbt) returns (ok: bool)
    requires g.ctx.state == IntentLoaded ==> g.intent.InRange()
    modifies g
    ensures (g.State(), ok) == ValidatePrePegIn(g.p, old(g.State()), t)
  {
    hide HashlocksSet, InputsOk, HtlcOutputsOk, OutputsOk, Deposit.PrePegInTxid, AuthAnchorSpk, ChangePathOk, Bip86Spk;
    if g.ctx.state != IntentLoaded {
      return false;
    }
    ok := CheckHashlocks(g);
    if !ok {
      return;
    }
    ok := CheckInputs(t);
    if !ok {
      return;
    }
    ok := ValidateHtlcOutputs(g.p, g.intent, g.ctx.hashlocks, t);
    if !ok {
      return;
    }
    var policy := PolicyFor(g.p, g.State(), t);
    if policy.None? {
      return false;
    }
    ok := ValidateOutputs(g.intent, policy.value, t);
    if !ok {
      return;
    }
    if t.outputsTotal > t.inputsTotal {
      return false;
    }
    var fee := t.inputsTotal - t.outputsTotal;
    if fee > g.intent.scalars.prePegInMaxFee {
      return false;
    }
    var txid := ComputePrePegInTxid(g.p, t);
    if txid.None? || txid.value != g.intent.scalars.prePegInTxid {
      return false;
    }
    if g.ctx.prePegInSigned >= 1 {
      g.InvalidateContext();
      return false;
    }
    g.ctx := g.ctx.(prePegInSigned := g.ctx.prePegInSigned + 1);
    return true;
  }

  /** _validate_pegin */
  method ValidatePegInTx(g: Globals, t: Psbt) returns (ok: bool)
    requires g.ctx.state == IntentLoaded ==> g.intent.InRange()
    modifies g
    ensures (g.State(), ok) == ValidatePegIn(g.p, old(g.State()), t)
  {
    hide Leaf0Present, HtlcMerkleRoot, PegInOutputsOk, BitAt, GroupByVout;
    if g.ctx.state != IntentLoaded {
      return false;
    }
    if t.version != PEGIN_VERSION || t.locktime != 0 || |t.inputs| != 1 || |t.outputs| != 3 {
      return false;
    }
    if !t.inputs[0].prevVout.Present? {
      return false;
    }
    var found := DetectGroup(g.intent, t.inputs[0].prevVout.value);
    if found.None? {
      return false;
    }
    var gi := found.value;
    g.ctx := g.ctx.(groupIndex := gi as Byte);
    if !PegInInputOk(g.p, g.intent, gi, g.ctx.hashlocks[gi], t.inputs[0]) {
      return false;
    }
    var htlcValue := ReadWitnessUtxo(t.inputs[0]).value.0;
    if !PegInOutputsOk(g.p, g.intent, gi, t, htlcValue) {
      return false;
    }
    if BitAt(g.ctx.pegInMask, gi) {
      g.InvalidateContext();
      return false;
    }
    if g.ctx.pegInSigned >= g.intent.V() {
      g.InvalidateContext();
      return false;
    }
    return true;
  }

  // ---------------------------------------------------------------------------------------------
  // Payout

  /** The leaf of an input in the tls member of the union: control block, script and script length. */
  method StoreLeaf(union: array<Byte>, cb: Bytes, script: Bytes)
    requires union.Length == SCRATCH_SIZE && |cb| <= CONTROL_BLOCK_MAX && |script| <= SCRIPT_MAX_LEN
    modifies union
    ensures StoredLeafLen(union[..]) == |script| && StoredLeaf(union[..]) == script
    ensures union[CONTROL_BLOCK_OFF..CONTROL_BLOCK_OFF + |cb|] == cb
  {
    hide LE, FromLE;
    Put(union, CONTROL_BLOCK_OFF, cb);
    ghost var s1 := union[..];
    Put(union, LEAF_SCRIPT_OFF, script);
    ghost var s2 := union[..];
    Put(union, LEAF_SCRIPT_LEN_OFF, LE(|script|, 4));
    Pow256Values();
    LEDecodes(|script|, 4);
    assert union[..][LEAF_SCRIPT_LEN_OFF..LEAF_SCRIPT_LEN_OFF + 4] == LE(|script|, 4);
    assert union[..][LEAF_SCRIPT_OFF..LEAF_SCRIPT_OFF + |script|] == s2[LEAF_SCRIPT_OFF..LEAF_SCRIPT_OFF + |script|] == script;
    assert union[CONTROL_BLOCK_OFF..CONTROL_BLOCK_OFF + |cb|] == s1[CONTROL_BLOCK_OFF..CONTROL_BLOCK_OFF + |cb|] == cb;
  }

  /** Group, leaf, claimer, connector value and commitment, with the leaf and its rebuild sharing one union. */
  method DetectPayout(p: Platform, i: Intent, t: Psbt) returns (r: Option<Detected>)
    requires Ready(i)
    ensures r == Detect(p, i, t)
  {
    hide DetectClaimer, GroupByTxid, Commits, LeafPreimage, CapturedPrefix, FromLE, LeafOf, ReadWitnessUtxo, ConnectorValueOk;
    if t.version < 2 || t.locktime != 0 || |t.inputs| != 2 || |t.inputs[0].prevTxid| != 32 {
      return None;
    }
    var g := ResolveGroup(p, i, t.inputs[0].prevTxid);
    if g.None? {
      return None;
    }
    var read := LeafOf(true, i, t.inputs[1]);
    if read.None? || read.value.1.buffered.None? {
      return None;
    }
    var (cb, leaf) := read.value;
    BufferedFits(i, t.inputs[1]);
    var union := new Byte[SCRATCH_SIZE](k => 0);
    StoreLeaf(union, cb, leaf.buffered.value);
    ghost var before := union[..];
    var c := DetectPayoutClaimer(i, g.value, union, true);
    if c < 0 {
      return None;
    }
    BelowUnchanged(before, union[..], CONTROL_BLOCK_OFF, CONTROL_BLOCK_OFF + |cb|);
    assert before[CONTROL_BLOCK_OFF..CONTROL_BLOCK_OFF + |cb|] == cb;
    assert union[..][CONTROL_BLOCK_OFF..CONTROL_BLOCK_OFF + |cb|] == union[CONTROL_BLOCK_OFF..CONTROL_BLOCK_OFF + |cb|];
    var utxo := ReadWitnessUtxo(t.inputs[1]);
    if utxo.None? || !ConnectorValueOk(i.scalars.baseFeeRate, utxo.value.0) {
      return None;
    }
    var committed := VerifyTaprootCommitment(
      p, union[CONTROL_BLOCK_OFF..CONTROL_BLOCK_OFF + |cb|], p.tapLeaf(leaf.preimage), utxo.value.1);
    if !committed {
      return None;
    }
    return Some(Detected(g.value, c, utxo.value.0));
  }

  lemma BufferedFits(i: Intent, input: Input)
    requires i.InRange() && LeafOf(true, i, input).Some? && LeafOf(true, i, input).value.1.buffered.Some?
    ensures |LeafOf(true, i, input).value.0| <= CONTROL_BLOCK_MAX
    ensures |LeafOf(true, i, input).value.1.buffered.value| <= SCRIPT_MAX_LEN
  {
  }

  /** The outputs and the fee, with the running total. */
  method CheckPayoutMoney(p: Platform, i: Intent, s: Detected, t: Psbt) returns (ok: bool)
    requires Ready(i) && s.g < i.V() && s.c <= i.N() + 1
    ensures ok <==> ReadAmounts(p, i, s.g, s.c, t).Some? && MoneyOk(i, s.g, s.assert0, ReadAmounts(p, i, s.g, s.c, t).value)
  {
    hide MainOutput, SecondOutput, ThirdOutput, PayoutVsize;
    var v0 := MainOutput(p, i, s.c, t);
    if v0.None? {
      return false;
    }
    var totalOut: int := v0.value;
    var v1 := SecondOutput(p, i, s.g, s.c, t);
    if v1.None? {
      return false;
    }
    ThirdIsFixed(p, s.c, t);
    if Wrap64(totalOut + v1.value) < totalOut {
      return false;
    }
    totalOut := Wrap64(totalOut + v1.value);
    if s.c == 0 {
      var v2 := ThirdOutput(p, s.c, t);
      if v2.None? || Wrap64(totalOut + v2.value) < totalOut {
        return false;
      }
      totalOut := Wrap64(totalOut + v2.value);
    }
    var totalIn := Wrap64(i.groups[s.g].amount + s.assert0);
    if totalOut > totalIn {
      return false;
    }
    var fee := totalIn - totalOut;
    if fee == 0 {
      return false;
    }
    var vsize := PayoutVsize(i);
    if vsize > U64_MAX / i.scalars.baseFeeRate {
      return false;
    }
    var maxFee := Wrap64(i.scalars.baseFeeRate * vsize);
    return fee <= maxFee;
  }

  lemma ThirdIsFixed(p: Platform, c: nat, t: Psbt)
    ensures c != 0 ==> ThirdOutput(p, c, t) == Some(0)
  {
  }

  /** _validate_payout */
  method ValidatePayoutTx(g: Globals, t: Psbt) returns (ok: bool)
    requires g.ctx.state == IntentLoaded ==> Ready(g.intent)
    modifies g
    ensures (g.State(), ok) == ValidatePayout(g.p, old(g.State()), t)
  {
    hide Detect, VaultInputOk, ConnectorInputOk, ReadAmounts, MoneyOk, BitAt, Slot;
    if g.ctx.state != IntentLoaded {
      return false;
    }
    var found := DetectPayout(g.p, g.intent, t);
    if found.None? {
      return false;
    }
    var s := found.value;
    g.ctx := g.ctx.(groupIndex := s.g as Byte, payoutIndex := s.c as Byte);
    var slot := Slot(g.intent, s.g, s.c);
    if BitAt(g.ctx.payoutMask, slot) {
      g.InvalidateContext();
      return false;
    }
    if |t.outputs| != (if s.c == 0 then 3 else 2) {
      return false;
    }
    if !VaultInputOk(g.p, g.intent, s.g, t.inputs[0]) || !ConnectorInputOk(g.intent, t.inputs[1]) {
      return false;
    }
    ok := CheckPayoutMoney(g.p, g.intent, s, t);
    if !ok {
      return;
    }
    if g.ctx.payoutSigned >= PayoutCap(g.intent) {
      g.InvalidateContext();
      return false;
    }
    g.ctx := g.ctx.(isPayoutSigning := true);
    return true;
  }

  // ---------------------------------------------------------------------------------------------
  // NoPayout

  /** _validate_nopayout */
  method ValidateNoPayoutTx(g: Globals, t: Psbt) returns (ok: bool)
    requires g.ctx.state == IntentLoaded ==> Ready(g.intent)
    modifies g
    ensures (g.State(), ok) == ValidateNoPayout(g.p, old(g.State()), t)
  {
    hide LeafOf, NoPayoutFieldsOk, ChallengerFrom, NoPayoutCap;
    if g.ctx.state != IntentLoaded || t.version < 2 || t.locktime != 0 {
      return false;
    }
    if |t.inputs| != 3 || |t.outputs| != 1 {
      return false;
    }
    var read := LeafOf(true, g.intent, t.inputs[0]);
    if read.None? || read.value.1.buffered.None? {
      return false;
    }
    var leaf := read.value.1.buffered.value;
    if |leaf| != NOPAYOUT_LEAF_LEN || leaf[0] != OP_PUSHBYTES_32 || leaf[33] != OP_CHECKSIGVERIFY
       || leaf[34] != OP_PUSHBYTES_32 || leaf[67] != OP_CHECKSIG {
      return false;
    }
    if leaf[1..33] != g.intent.depositor {
      return false;
    }
    var idx := FindChallenger(g.intent, leaf[35..67]);
    if idx < 0 {
      return false;
    }
    if g.ctx.noPayoutSigned >= NoPayoutCap(g.intent) {
      g.InvalidateContext();
      return false;
    }
    if !NoPayoutFieldsOk(g.p, g.intent, idx, leaf, read.value, t) {
      return false;
    }
    g.ctx := g.ctx.(noPayoutChallenger := idx as Byte);
    return true;
  }

  // ---------------------------------------------------------------------------------------------
  // Dispatch

  method PayoutByTxid(p: Platform, i: Intent, t: Psbt) returns (payout: bool)
    requires i.InRange() && |t.inputs| > 0
    ensures payout <==> GroupByTxid(p, i, t.inputs[0].prevTxid, 0).Some?
  {
    var g := ResolveGroup(p, i, t.inputs[0].prevTxid);
    payout := g.Some?;
  }

  /** validate_and_display_transaction */
  method ValidateAndDisplay(g: Globals, t: Psbt, out: Outside) returns (kind: Option<Kind>)
    requires Usable(g.State())
    modifies g
    ensures (g.State(), kind) == Validate(g.p, old(g.State()), t, out)
  {
    hide ValidatePegIn, ValidateNoPayout, ValidatePayout, ValidatePrePegIn, ValidateLeaf, FinalizeOk, WcOk, PoPOk, GroupByTxid;
    if g.streaming.inProgress {
      g.streaming := ZERO_STREAMING;
      return None;
    }
    if t.version == 0 {
      return if PoPOk(t) && out.checks then Some(PoPTx) else None;
    }
    if t.noWalletPolicy && |t.inputs| == 1 && |t.outputs| == 3 {
      var ok := ValidatePegInTx(g, t);
      return if ok then Some(PegInTransaction) else None;
    }
    if t.noWalletPolicy && |t.inputs| == 3 && |t.outputs| == 1 {
      var ok := ValidateNoPayoutTx(g, t);
      return if ok then Some(NoPayoutTx) else None;
    }
    if g.ctx.state == IntentLoaded && t.noWalletPolicy && |t.inputs| == 2 {
      if |t.outputs| != 2 {
        var ok := ValidatePayoutTx(g, t);
        return if ok then Some(PayoutTx) else None;
      }
      if |t.inputs[0].prevTxid| != 32 {
        return None;
      }
      var payout := PayoutByTxid(g.p, g.intent, t);
      if payout {
        var ok := ValidatePayoutTx(g, t);
        return if ok then Some(PayoutTx) else None;
      }
    }
    if !t.noWalletPolicy {
      if 0 in t.internalInputs {
        var ok := ValidatePrePegInTx(g, t);
        return if ok then Some(PrePegInTx) else None;
      }
      return if WcOk(g.p, Loaded(g.State()), g.intent, t) && out.checks then Some(WcTx) else None;
    }
    if |t.inputs| == 2 && |t.outputs| == 2 {
      g.ctx := g.ctx.(isPayoutSigning := false);
      return if FinalizeOk(g.p, Loaded(g.State()), g.intent, t) && out.checks then Some(PayoutFinalizeTx) else None;
    }
    return ValidateLeaf(g.p, g.State(), t, out);
  }

  // ---------------------------------------------------------------------------------------------
  // Signing

  /** The branches that count: re-check, prepare, set the bit and bump the counter, then hand out; a failure on either side
      of the booking ends the session. */
  method SignCounted(g: Globals, t: Psbt, b: Branch, out: Outside) returns (release: Release, ok: bool)
    requires Usable(g.State()) && CountersRoom(g.State()) && b in {SignPegIn, SignPayout, SignNoPayout}
    modifies g
    ensures !Rechecks(g.p, old(g.State()), t, b) || !out.prepared ==>
              g.State() == Invalidate(old(g.State())) && release == NoRelease && !ok
    ensures Rechecks(g.p, old(g.State()), t, b) && out.prepared ==>
              && release == Book(old(g.State()), b).1 && ok == out.delivered
              && g.State() == (if out.delivered then Book(old(g.State()), b).0 else Invalidate(Book(old(g.State()), b).0))
  {
    hide LeafOf, HtlcSpk, VaultUtxoSpk, SetBit, Slot, KeyAt;
    release, ok := NoRelease, false;
    if !Rechecks(g.p, g.State(), t, b) || !out.prepared {
      g.InvalidateContext();
      return;
    }
    if b == SignPegIn {
      var gi := g.ctx.groupIndex as nat;
      g.ctx := g.ctx.(pegInMask := SetBit(g.ctx.pegInMask, gi));
      g.ctx := g.ctx.(pegInSigned := g.ctx.pegInSigned + 1);
      release := PegInOf(gi);
    } else if b == SignPayout {
      var slot := Slot(g.intent, g.ctx.groupIndex as nat, g.ctx.payoutIndex as nat);
      g.ctx := g.ctx.(payoutMask := SetBit(g.ctx.payoutMask, slot));
      g.ctx := g.ctx.(payoutSigned := g.ctx.payoutSigned + 1);
      release := PayoutOf(g.ctx.groupIndex as nat, g.ctx.payoutIndex as nat);
    } else {
      g.ctx := g.ctx.(noPayoutSigned := g.ctx.noPayoutSigned + 1);
      release := NoPayoutOf(g.ctx.noPayoutChallenger as nat);
    }
    if !out.delivered {
      g.InvalidateContext();
      return;
    }
    ok := true;
  }

  /** sign_custom_inputs */
  method SignCustomInputs(g: Globals, t: Psbt, out: Outside) returns (release: Release, ok: bool)
    requires Usable(g.State()) && CountersRoom(g.State())
    modifies g
    ensures (g.State(), release, ok) == Sign(g.p, old(g.State()), t, out)
  {
    hide LeafOf, HtlcSpk, VaultUtxoSpk, SetBit, Slot, KeyAt, HasAssertShape;
    var state := g.ctx.state;
    release, ok := NoRelease, false;
    if t.version == 0 {
      ok := |t.inputs| == 1 && |t.outputs| == 1;
      return;
    }
    if state == IntentLoaded && t.noWalletPolicy && |t.inputs| == 1 && |t.outputs| == 3 {
      release, ok := SignCounted(g, t, SignPegIn, out);
      return;
    }
    if state == IntentLoaded && t.noWalletPolicy
       && (|t.inputs| == 3 || (|t.inputs| == 2 && (|t.outputs| != 2 || g.ctx.isPayoutSigning))) {
      if |t.inputs| == 3 && |t.outputs| == 1 {
        release, ok := SignCounted(g, t, SignNoPayout, out);
        return;
      }
      if |t.inputs| != 2 {
        g.InvalidateContext();
        return;
      }
      release, ok := SignCounted(g, t, SignPayout, out);
      return;
    }
    if !t.noWalletPolicy && 0 in t.internalInputs {
      ok := true;
      return;
    }
    if t.noWalletPolicy && |t.inputs| == 2 && |t.outputs| == 2 {
      ok := 0 !in t.internalInputs && Rechecks(g.p, g.State(), t, SignFinalize) && out.prepared && out.delivered;
      return;
    }
    ok := Rechecks(g.p, g.State(), t, SignStandalone) && out.prepared && out.delivered;
  }
}
