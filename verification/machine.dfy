/** SIGN_PSBT: the validate dispatcher, the signer's own routing, and why they always agree. */
module Machine {
  import opened Octets
  import opened Intents
  import opened Platforms
  import opened Bits
  import opened Script
  import opened LeafParsers
  import opened LeafStream
  import opened Taproot
  import opened Psbts
  import opened KeyOrigins
  import opened PegIn
  import opened Deposit
  import opened Payout
  import opened NoPayout
  import opened Standalone
  import opened Loading
  import opened Session

  datatype Kind =
    | PoPTx | PegInTransaction | NoPayoutTx | PayoutTx | PayoutFinalizeTx | PrePegInTx
    | WcTx | ClaimTx | ReclaimTx | AssertTx | RefundTx

  /** What a SIGN_PSBT meets outside the model: addresses and reviews of the standalone flows, and
      whether signing prepares its sighash and delivers the signature. The scratch union is left with any content. */
  datatype Outside = Outside(checks: bool, prepared: bool, delivered: bool, reachesSigner: bool, scratch: Scratch)

  predicate Loaded(d: Device) {
    d.ctx.state == IntentLoaded
  }

  /** The loaded intent is usable by the validators. */
  predicate Usable(d: Device) {
    Loaded(d) ==> Ready(d.intent)
  }

  // ---------------------------------------------------------------------------------------------
  // Validation

  /** The dispatch on the leaf of input 0. */
  function ClassifyLeaf(t: Psbt, leaf: LeafFacts): (r: Option<Kind>)
    requires |leaf.prefix| == PREFIX_LEN
  {
    if leaf.scriptLen < CLAIM_LEAF_LEN || leaf.prefix[0] != OP_PUSHBYTES_32 then None
    else if leaf.scriptLen == CLAIM_LEAF_LEN && leaf.prefix[33] == OP_CHECKSIG then
      if |t.outputs| == 2 then Some(ClaimTx) else if |t.outputs| == 1 then Some(ReclaimTx) else None
    else if leaf.scriptLen > CLAIM_LEAF_LEN && leaf.prefix[33] == OP_CHECKSIGVERIFY then
      if leaf.prefix[34] == OP_SIZE then Some(WcTx)
      else if HasAssertShape(leaf.scriptLen, leaf.prefix, leaf.lastByte) then
        if leaf.assertPrefixOk then Some(AssertTx) else None
      else if leaf.lastByte == OP_CSV then Some(RefundTx)
      else None
    else None
  }

  predicate LeafKindOk(p: Platform, d: Device, t: Psbt, leaf: (Bytes, LeafFacts), kind: Kind)
    requires Usable(d) && |leaf.1.prefix| == PREFIX_LEN
  {
    match kind
    case ClaimTx => ClaimOk(p, t, leaf)
    case ReclaimTx => ReclaimOk(p, t, leaf)
    case WcTx => WcOk(p, Loaded(d), d.intent, t)
    case AssertTx => AssertOk(p, t, leaf)
    case RefundTx => RefundOk(p, Loaded(d), d.intent, t, leaf)
    case _ => false
  }

  /** The tail of the dispatcher. */
  function ValidateLeaf(p: Platform, d: Device, t: Psbt, out: Outside): (r: Option<Kind>)
    requires Usable(d)
    ensures r.Some? ==> |t.inputs| > 0 && BranchOf(r.value) == SignStandalone
  {
    if |t.inputs| == 0 then None
    else
      var leaf := LeafOf(Loaded(d), d.intent, t.inputs[0]);
      if leaf.None? then None
      else
        LeafOfPrefix(Loaded(d), d.intent, t.inputs[0]);
        var kind := ClassifyLeaf(t, leaf.value.1);
        if kind.None? || !LeafKindOk(p, d, t, leaf.value, kind.value) || !out.checks then None else kind
  }

  lemma LeafOfPrefix(loaded: bool, intent: Intent, input: Input)
    requires loaded ==> intent.InRange()
    requires LeafOf(loaded, intent, input).Some?
    ensures |LeafOf(loaded, intent, input).value.1.prefix| == PREFIX_LEN
  {
  }

  function Checked(r: (Device, bool), kind: Kind): (Device, Option<Kind>) {
    (r.0, if r.1 then Some(kind) else None)
  }

  /** _validate_display_payout_finalize: the flag is cleared before anything is checked. */
  function ValidateFinalize(p: Platform, d: Device, t: Psbt, out: Outside): (Device, Option<Kind>)
    requires Usable(d)
  {
    var e := d.(ctx := d.ctx.(isPayoutSigning := false));
    (e, if FinalizeOk(p, Loaded(d), d.intent, t) && out.checks then Some(PayoutFinalizeTx) else None)
  }

  /** With an intent loaded, a two-input PSBT is a Payout unless it has two outputs and spends no PegIn of the intent. */
  datatype TwoInputs = IsPayout | NotPayout | Malformed

  function TwoInputKind(p: Platform, d: Device, t: Psbt): TwoInputs
    requires Usable(d)
  {
    if !Loaded(d) || !t.noWalletPolicy || |t.inputs| != 2 then NotPayout
    else if |t.outputs| != 2 then IsPayout
    else if |t.inputs[0].prevTxid| != 32 then Malformed
    else if GroupByTxid(p, d.intent, t.inputs[0].prevTxid, 0).Some? then IsPayout
    else NotPayout
  }

  /** What comes after the Payout test. */
  function ValidateRest(p: Platform, d: Device, t: Psbt, out: Outside): (Device, Option<Kind>)
    requires Usable(d)
  {
    if !t.noWalletPolicy then
      if 0 in t.internalInputs then Checked(ValidatePrePegIn(p, d, t), PrePegInTx)
      else (d, if WcOk(p, Loaded(d), d.intent, t) && out.checks then Some(WcTx) else None)
    else if |t.inputs| == 2 && |t.outputs| == 2 then ValidateFinalize(p, d, t, out)
    else (d, ValidateLeaf(p, d, t, out))
  }

  /** validate_and_display_transaction */
  function Validate(p: Platform, d: Device, t: Psbt, out: Outside): (r: (Device, Option<Kind>))
    requires Usable(d)
  {
    if d.streaming.inProgress then (d.(streaming := ZERO_STREAMING), None)
    else if t.version == 0 then (d, if PoPOk(t) && out.checks then Some(PoPTx) else None)
    else if t.noWalletPolicy && |t.inputs| == 1 && |t.outputs| == 3 then Checked(ValidatePegIn(p, d, t), PegInTransaction)
    else if t.noWalletPolicy && |t.inputs| == 3 && |t.outputs| == 1 then Checked(ValidateNoPayout(p, d, t), NoPayoutTx)
    else
      match TwoInputKind(p, d, t)
      case IsPayout => Checked(ValidatePayout(p, d, t), PayoutTx)
      case Malformed => (d, None)
      case NotPayout => ValidateRest(p, d, t, out)
  }

  // ---------------------------------------------------------------------------------------------
  // Signing

  /** The branch sign_custom_inputs takes, from the session and the counts alone. */
  datatype Branch =
    | SkipPoP | AssertPoPFails | SignPegIn | SignNoPayout | RefuseThreeInputs | SignPayout
    | SkipPrePegIn | SignFinalize | AssertFinalizeFails | SignStandalone

  function Route(d: Device, t: Psbt): Branch {
    if t.version == 0 then (if Shape(t, 1, 1) then SkipPoP else AssertPoPFails)
    else if Loaded(d) && t.noWalletPolicy && Shape(t, 1, 3) then SignPegIn
    else if Loaded(d) && t.noWalletPolicy
            && (|t.inputs| == 3 || (|t.inputs| == 2 && (|t.outputs| != 2 || d.ctx.isPayoutSigning))) then
      if Shape(t, 3, 1) then SignNoPayout
      else if |t.inputs| != 2 then RefuseThreeInputs
      else SignPayout
    else if !t.noWalletPolicy && 0 in t.internalInputs then SkipPrePegIn
    else if t.noWalletPolicy && Shape(t, 2, 2) then
      if 0 in t.internalInputs then AssertFinalizeFails else SignFinalize
    else SignStandalone
  }

  /** The branch each accepted kind is meant for. */
  function BranchOf(kind: Kind): Branch {
    match kind
    case PoPTx => SkipPoP
    case PegInTransaction => SignPegIn
    case NoPayoutTx => SignNoPayout
    case PayoutTx => SignPayout
    case PayoutFinalizeTx => SignFinalize
    case PrePegInTx => SkipPrePegIn
    case _ => SignStandalone
  }

  /** The input a branch signs. */
  function SignedInput(b: Branch): Option<nat> {
    match b
    case SignPegIn => Some(0)
    case SignNoPayout => Some(0)
    case SignPayout => Some(0)
    case SignFinalize => Some(1)
    case SignStandalone => Some(0)
    case _ => None
  }

  /** Whatever a branch checks again before it signs. An index outside the intent fails like a leaf that cannot be built. */
  predicate Rechecks(p: Platform, d: Device, t: Psbt, b: Branch)
    requires Usable(d)
  {
    match b
    case SignPegIn =>
      var g := d.ctx.groupIndex as nat;
      && Loaded(d) && g < d.intent.V() && |t.inputs| > 0
      && ReadWitnessUtxo(t.inputs[0]).Some?
      && HtlcSpk(p, d.intent, g, d.ctx.hashlocks[g]) == Some(ReadWitnessUtxo(t.inputs[0]).value.1)
    case SignNoPayout =>
      var j := d.ctx.noPayoutChallenger as nat;
      && Loaded(d) && |t.inputs| > 0 && LeafOf(true, d.intent, t.inputs[0]).Some?
      && LeafOf(true, d.intent, t.inputs[0]).value.1.buffered.Some?
      && var leaf := LeafOf(true, d.intent, t.inputs[0]).value.1.buffered.value;
         && |leaf| == NOPAYOUT_LEAF_LEN && leaf[0] == OP_PUSHBYTES_32 && leaf[33] == OP_CHECKSIGVERIFY
         && leaf[34] == OP_PUSHBYTES_32 && leaf[67] == OP_CHECKSIG && leaf[1..33] == d.intent.depositor
         && j < d.intent.N() + d.intent.M() && leaf[35..67] == KeyAt(d.intent, j)
         && ReadWitnessUtxo(t.inputs[0]).Some?
    case SignPayout =>
      var g := d.ctx.groupIndex as nat;
      && Loaded(d) && g < d.intent.V() && d.ctx.payoutIndex as nat <= d.intent.N() + 1 && |t.inputs| > 0
      && ReadWitnessUtxo(t.inputs[0]).Some?
      && VaultUtxoSpk(p, d.intent, g) == Some(ReadWitnessUtxo(t.inputs[0]).value.1)
    case SignFinalize =>
      && |t.inputs| > 1 && LeafOf(Loaded(d), d.intent, t.inputs[1]).Some?
      && (LeafOfPrefix(Loaded(d), d.intent, t.inputs[1]);
          var leaf := LeafOf(Loaded(d), d.intent, t.inputs[1]).value.1;
          && leaf.scriptLen > NOPAYOUT_LEAF_LEN && leaf.prefix[0] == OP_PUSHBYTES_32
          && leaf.prefix[GROUP0_PUSH_OFF] == OP_PUSHBYTES_32 && leaf.prefix[GROUP0_OP_OFF] == OP_CHECKSIG
          && Owns(p, t.inputs[1].origins, leaf.prefix[1..33]))
      && ReadWitnessUtxo(t.inputs[1]).Some?
    case SignStandalone =>
      && |t.inputs| > 0 && LeafOf(Loaded(d), d.intent, t.inputs[0]).Some?
      && (LeafOfPrefix(Loaded(d), d.intent, t.inputs[0]);
          var leaf := LeafOf(Loaded(d), d.intent, t.inputs[0]).value.1;
          && leaf.scriptLen >= 34 && leaf.prefix[0] == OP_PUSHBYTES_32
          && (HasAssertShape(leaf.scriptLen, leaf.prefix, leaf.lastByte) ==> leaf.assertPrefixOk)
          && Owns(p, t.inputs[0].origins, leaf.prefix[1..33]))
      && ReadWitnessUtxo(t.inputs[0]).Some?
    case SkipPoP => true
    case SkipPrePegIn => true
    case _ => false
  }

  /** Signatures that count against the caps. */
  datatype Release = NoRelease | PegInOf(g: nat) | PayoutOf(g: nat, c: nat) | NoPayoutOf(j: nat)

  /** Record a signature before it is handed out. */
  function Book(d: Device, b: Branch): (r: (Device, Release))
    requires Usable(d)
    requires b == SignPegIn ==> Loaded(d) && d.ctx.groupIndex as nat < d.intent.V() && d.ctx.pegInSigned < 0xFFFF
    requires b == SignPayout ==> Loaded(d) && d.ctx.groupIndex as nat < d.intent.V() &&
                                 d.ctx.payoutIndex as nat <= d.intent.N() + 1 && d.ctx.payoutSigned < 0xFFFF
    requires b == SignNoPayout ==> d.ctx.noPayoutSigned < 0xFFFF
  {
    match b
    case SignPegIn =>
      var g := d.ctx.groupIndex as nat;
      (d.(ctx := d.ctx.(pegInMask := SetBit(d.ctx.pegInMask, g), pegInSigned := d.ctx.pegInSigned + 1)), PegInOf(g))
    case SignPayout =>
      var g, c := d.ctx.groupIndex as nat, d.ctx.payoutIndex as nat;
      (d.(ctx := d.ctx.(payoutMask := SetBit(d.ctx.payoutMask, Slot(d.intent, g, c)),
                        payoutSigned := d.ctx.payoutSigned + 1)), PayoutOf(g, c))
    case SignNoPayout =>
      (d.(ctx := d.ctx.(noPayoutSigned := d.ctx.noPayoutSigned + 1)), NoPayoutOf(d.ctx.noPayoutChallenger as nat))
    case _ => (d, NoRelease)
  }

  /** Whether a failure of this branch ends the session. */
  predicate FailureInvalidates(b: Branch) {
    b == SignPegIn || b == SignNoPayout || b == SignPayout || b == RefuseThreeInputs
  }

  function Failed(d: Device, b: Branch): Device {
    if FailureInvalidates(b) then Invalidate(d) else d
  }

  /** None of the counters is about to overflow. */
  predicate CountersRoom(d: Device) {
    d.ctx.pegInSigned < 0xFFFF && d.ctx.payoutSigned < 0xFFFF && d.ctx.noPayoutSigned < 0xFFFF
  }

  /** sign_custom_inputs: re-check, prepare, book, hand out. */
  function Sign(p: Platform, d: Device, t: Psbt, out: Outside): (r: (Device, Release, bool))
    requires Usable(d) && CountersRoom(d)
  {
    var b := Route(d, t);
    if SignedInput(b).None? then (Failed(d, b), NoRelease, Rechecks(p, d, t, b))
    else if !Rechecks(p, d, t, b) || !out.prepared then (Failed(d, b), NoRelease, false)
    else
      var (booked, release) := Book(d, b);
      if out.delivered then (booked, release, true) else (Failed(booked, b), release, false)
  }

  /** The session is either invalidated and nothing accepted, or as usable as before with the same masks and signature
      counts, except that accepting a Pre-PegIn takes its only slot. */
  predicate Carries(d: Device, e: Device, kind: Option<Kind>) {
    || (e.ctx == ZERO_CONTEXT && e.intent == ZERO_INTENT && kind.None?)
    || (&& e.intent == d.intent && e.ctx.state == d.ctx.state
        && e.ctx.pegInMask == d.ctx.pegInMask && e.ctx.payoutMask == d.ctx.payoutMask
        && e.ctx.pegInSigned == d.ctx.pegInSigned && e.ctx.payoutSigned == d.ctx.payoutSigned
        && e.ctx.noPayoutSigned == d.ctx.noPayoutSigned
        && (if kind == Some(PrePegInTx) then d.ctx.prePegInSigned == 0 && e.ctx.prePegInSigned == 1
            else e.ctx.prePegInSigned == d.ctx.prePegInSigned))
  }

  lemma PegInCarries(p: Platform, d: Device, t: Psbt)
    requires Usable(d)
    ensures Carries(d, ValidatePegIn(p, d, t).0, Checked(ValidatePegIn(p, d, t), PegInTransaction).1)
  {
    hide PegInFieldsOk, PegInGroup, BitAt;
  }

  lemma NoPayoutCarries(p: Platform, d: Device, t: Psbt)
    requires Usable(d)
    ensures Carries(d, ValidateNoPayout(p, d, t).0, Checked(ValidateNoPayout(p, d, t), NoPayoutTx).1)
  {
    hide LeafOf, DetectChallenger, NoPayoutFieldsOk, NoPayoutCap;
  }

  lemma PayoutCarries(p: Platform, d: Device, t: Psbt)
    requires Usable(d)
    ensures Carries(d, ValidatePayout(p, d, t).0, Checked(ValidatePayout(p, d, t), PayoutTx).1)
  {
    hide Detect, FieldsOk, BitAt, Slot, PayoutCap;
  }

  lemma PrePegInCarries(p: Platform, d: Device, t: Psbt)
    requires Usable(d)
    ensures Carries(d, ValidatePrePegIn(p, d, t).0, Checked(ValidatePrePegIn(p, d, t), PrePegInTx).1)
  {
    hide PrePegInFieldsOk;
  }

  lemma RestCarries(p: Platform, d: Device, t: Psbt, out: Outside)
    requires Usable(d)
    ensures Carries(d, ValidateRest(p, d, t, out).0, ValidateRest(p, d, t, out).1)
  {
    hide ValidatePrePegIn, ValidateLeaf, FinalizeOk, WcOk;
    PrePegInCarries(p, d, t);
  }

  lemma CarriesKeeps(d: Device, e: Device, kind: Option<Kind>)
    requires Usable(d) && Carries(d, e, kind)
    ensures Usable(e) && (CountersRoom(d) ==> CountersRoom(e))
  {
  }

  lemma UntouchedCarries(d: Device, e: Device, kind: Option<Kind>)
    requires e.ctx == d.ctx && e.intent == d.intent && kind != Some(PrePegInTx)
    ensures Carries(d, e, kind)
  {
  }

  /** Validation changes no mask and no signature count but the Pre-PegIn's, which accepting one takes from 0 to 1. */
  lemma ValidateCarries(p: Platform, d: Device, t: Psbt, out: Outside)
    requires Usable(d)
    ensures Carries(d, Validate(p, d, t, out).0, Validate(p, d, t, out).1)
    ensures Usable(Validate(p, d, t, out).0)
    ensures CountersRoom(d) ==> CountersRoom(Validate(p, d, t, out).0)
  {
    hide ValidatePegIn, ValidateNoPayout, ValidatePayout, ValidateRest, TwoInputKind, PoPOk, Carries, CountersRoom;
    PegInCarries(p, d, t);
    NoPayoutCarries(p, d, t);
    PayoutCarries(p, d, t);
    RestCarries(p, d, t, out);
    var (e, kind) := Validate(p, d, t, out);
    if e.ctx == d.ctx && e.intent == d.intent && kind != Some(PrePegInTx) {
      UntouchedCarries(d, e, kind);
    }
    CarriesKeeps(d, e, kind);
  }

  // ---------------------------------------------------------------------------------------------
  // The two routings agree

  /** The flag that outlives transactions is right whenever the signer reads it. */
  lemma RoutesPayout(p: Platform, d: Device, t: Psbt)
    requires Usable(d) && t.version != 0 && t.noWalletPolicy && ValidatePayout(p, d, t).1
    ensures Route(ValidatePayout(p, d, t).0, t) == SignPayout
  {
    hide Detect, FieldsOk;
  }

  lemma LeafKindsRouteStandalone(p: Platform, d: Device, t: Psbt, out: Outside)
    requires Usable(d) && t.version != 0 && t.noWalletPolicy
    requires !(|t.inputs| == 1 && |t.outputs| == 3) && !(|t.inputs| == 3 && |t.outputs| == 1)
    requires !(|t.inputs| == 2 && |t.outputs| == 2) && (Loaded(d) ==> |t.inputs| != 2)
    requires ValidateLeaf(p, d, t, out).Some?
    ensures BranchOf(ValidateLeaf(p, d, t, out).value) == SignStandalone && Route(d, t) == SignStandalone
  {
    hide LeafOf, OwnOutput, SpendsLeaf, IsWcLeaf, RefundTimelockOk, ParseClaimLeaf, ParseRefundLeaf;
  }

  /** If validation accepts a transaction as kind k, the signer takes the branch of k and signs the input of k. The
      three-input fall-through, both assertions and every other branch are out of reach. */
  lemma SignerFollowsValidator(p: Platform, d: Device, t: Psbt, out: Outside)
    requires Usable(d) && Validate(p, d, t, out).1.Some?
    ensures Route(Validate(p, d, t, out).0, t) == BranchOf(Validate(p, d, t, out).1.value)
    ensures Route(Validate(p, d, t, out).0, t) !in {RefuseThreeInputs, AssertPoPFails, AssertFinalizeFails}
  {
    hide ValidatePayout, ValidateLeaf, PegInFieldsOk, NoPayoutFieldsOk, PrePegInFieldsOk, DetectChallenger, LeafOf, FinalizeOk,
         GroupByTxid, WcOk;
    if t.version != 0 && !(t.noWalletPolicy && (Shape(t, 1, 3) || Shape(t, 3, 1))) {
      match TwoInputKind(p, d, t)
      case IsPayout => RoutesPayout(p, d, t);
      case Malformed =>
      case NotPayout =>
        if t.noWalletPolicy && !Shape(t, 2, 2) {
          LeafKindsRouteStandalone(p, d, t, out);
        }
    }
  }
}
