/** Which leaf each accepted transaction gets signed, and that every counted leaf is booked. */
module SignedLeaf {
  import opened Octets
  import opened Intents
  import opened Platforms
  import opened Script
  import opened LeafParsers
  import opened LeafStream
  import opened Taproot
  import opened Psbts
  import opened KeyOrigins
  import opened PegIn
  import opened PrePegIn
  import opened Deposit
  import opened Payout
  import opened NoPayout
  import opened Standalone
  import opened Loading
  import opened LoadingLemmas
  import opened Session
  import opened Machine
  import opened MachineTheorems
  import opened LeafDispatch
  import opened Ledgers
  import opened Runs
  import Claimer

  const COUNTED: set<Branch> := {SignPegIn, SignPayout, SignNoPayout}

  /** The script whose leaf hash the signature of a branch commits to: rebuilt from the intent, or read from the input. */
  function SignedScript(d: Device, t: Psbt, b: Branch): Option<Bytes>
    requires Usable(d)
  {
    var g := d.ctx.groupIndex as nat;
    match b
    case SignPegIn =>
      if Loaded(d) && g < d.intent.V() then Some(HtlcLeaf0(d.intent, g, d.ctx.hashlocks[g])) else None
    case SignPayout =>
      if Loaded(d) && g < d.intent.V() then Some(VaultUtxoLeaf(d.intent, g)) else None
    case _ =>
      var n := SignedInput(b);
      if n.None? || n.value >= |t.inputs| then None else ScriptOf(t.inputs[n.value])
  }

  /** A PayoutFinalize signs a payout leaf, which is none of the counted ones. */
  lemma FinalizeSigns(p: Platform, d: Device, t: Psbt)
    requires Usable(d) && FinalizeOk(p, Loaded(d), d.intent, t)
    ensures ScriptOf(t.inputs[1]).Some? && ParsePayoutLeaf(ScriptOf(t.inputs[1]).value).Some?
  {
    hide LeafOf, OwnOutput, ConnectorValueOk, FinalizeFeeOk, Commits, ParsePayoutLeaf, ScriptOf;
    FactsOfScript(Loaded(d), d.intent, t.inputs[1]);
  }

  /** A NoPayout signs the leaf of the challenger it detected. */
  lemma NoPayoutSigns(p: Platform, d: Device, t: Psbt)
    requires Usable(d) && ValidateNoPayout(p, d, t).1
    ensures var e := ValidateNoPayout(p, d, t).0;
            && Loaded(e) && e.intent == d.intent && d.intent.InRange()
            && e.ctx.noPayoutChallenger as nat < d.intent.N() + d.intent.M()
            && ScriptOf(t.inputs[0]) == Some(NoPayoutLeaf(d.intent, KeyAt(d.intent, e.ctx.noPayoutChallenger as nat)))
  {
    hide LeafOf, DetectChallenger, NoPayoutLeaf, KeyAt, ScriptOf, LeafCommitted, ConnectorValueOk, Bip86Spk, WithinFee;
    FactsOfScript(true, d.intent, t.inputs[0]);
  }

  /** If the leaf signed for an accepted transaction is a counted leaf of any intent, the branch is a counted one. */
  lemma CountedLeafCountedBranch(p: Platform, d: Device, t: Psbt, out: Outside, i: Intent)
    requires Usable(d) && i.InRange() && Validate(p, d, t, out).1.Some?
    ensures Usable(Validate(p, d, t, out).0)
    ensures var (e, kind) := Validate(p, d, t, out);
            var signed := SignedScript(e, t, BranchOf(kind.value));
            signed.Some? && CountedLeaf(i, signed.value) ==> BranchOf(kind.value) in COUNTED
  {
    hide ValidatePegIn, ValidateNoPayout, ValidatePayout, ValidatePrePegIn, ValidateLeaf, FinalizeOk, WcOk, TwoInputKind, PoPOk,
         ScriptOf, CountedLeaf, HtlcLeaf0, VaultUtxoLeaf, VaultLeafShaped, ParsePayoutLeaf;
    ValidateCarries(p, d, t, out);
    var (e, kind) := Validate(p, d, t, out);
    var signed := SignedScript(e, t, BranchOf(kind.value));
    if signed.Some? && CountedLeaf(i, signed.value) {
      CountedLeafShape(i, signed.value);
      if BranchOf(kind.value) == SignStandalone {
        ShapedNotStandalone(p, d, t, out);
      } else if BranchOf(kind.value) == SignFinalize {
        FinalizeSigns(p, d, t);
      }
    }
  }

  /** The leaf a signature on the ledger stands for. */
  predicate SignsLeafOf(i: Intent, c: Context, r: Release, s: Bytes)
    requires i.InRange()
  {
    match r
    case PegInOf(g) => g < i.V() && s == HtlcLeaf0(i, g, c.hashlocks[g])
    case PayoutOf(g, _) => g < i.V() && s == VaultUtxoLeaf(i, g)
    case NoPayoutOf(j) => j < i.N() + i.M() && s == NoPayoutLeaf(i, KeyAt(i, j))
    case NoRelease => false
  }

  lemma SignsCounted(i: Intent, c: Context, r: Release, s: Bytes)
    requires i.InRange() && SignsLeafOf(i, c, r, s)
    ensures CountedLeaf(i, s)
  {
    hide HtlcLeaf0, VaultUtxoLeaf, NoPayoutLeaf, KeyAt;
    match r
    case PegInOf(g) => assert s == HtlcLeaf0(i, g, c.hashlocks[g]);
    case PayoutOf(g, _) => assert s == VaultUtxoLeaf(i, g);
    case NoPayoutOf(j) => assert s == NoPayoutLeaf(i, KeyAt(i, j));
    case NoRelease =>
  }

  /** The signature of a counted branch stands for exactly the leaf that is signed. */
  lemma CountedBranchSigns(p: Platform, d: Device, t: Psbt, out: Outside)
    requires Usable(d) && Validate(p, d, t, out).1.Some? && BranchOf(Validate(p, d, t, out).1.value) in COUNTED
    ensures Usable(Validate(p, d, t, out).0)
    ensures var (e, kind) := Validate(p, d, t, out);
            var signed := SignedScript(e, t, BranchOf(kind.value));
            && Loaded(d) && e.intent == d.intent && d.intent.InRange()
            && signed.Some? && SignsLeafOf(d.intent, e.ctx, Named(p, d, t, kind.value), signed.value)
  {
    hide ValidatePegIn, ValidateNoPayout, ValidatePayout, ValidatePrePegIn, ValidateLeaf, FinalizeOk, WcOk, TwoInputKind, PoPOk,
         ScriptOf, HtlcLeaf0, VaultUtxoLeaf, NoPayoutLeaf, KeyAt, Named, Rechecks;
    ValidateCarries(p, d, t, out);
    KindNames(p, d, t, out);
    AcceptedIsSigned(p, d, t, out);
    var (e, kind) := Validate(p, d, t, out);
    RecheckedIndices(p, e, t, BranchOf(kind.value));
    if BranchOf(kind.value) == SignNoPayout {
      NoPayoutSigns(p, d, t);
    } else {
      CountedIsLoaded(d, e);
    }
  }

  lemma CountedIsLoaded(d: Device, e: Device)
    requires Usable(d) && Loaded(e) && e.ctx.state == d.ctx.state && e.intent == d.intent
    ensures Loaded(d) && d.intent.InRange()
  {
  }

  /** A signature under a counted leaf of any intent is booked; one that is booked is under the leaf it is booked for. */
  ghost predicate BookedIfCounted(w: World, e: Device, signed: Bytes, release: Release) {
    && (forall i: Intent :: i.InRange() && CountedLeaf(i, signed) ==> release != NoRelease)
    && (release != NoRelease ==>
          && w.d.intent.InRange() && CountedLeaf(w.d.intent, signed)
          && SignsLeafOf(w.d.intent, e.ctx, release, signed)
          && FreshRelease(w.l, release))
  }

  /** In any run, whenever a signature is computed: if its leaf is a counted leaf, of this or any other intent, it is booked,
      and only then; it is booked as the very group or challenger of the loaded intent whose leaf it is, and the entry of a
      PegIn or Payout is new. */
  lemma CountedLeavesAreBooked(p: Platform, events: seq<Event>, t: Psbt, out: Outside)
    ensures var w := Run(p, events);
            && Usable(w.d) && CountersRoom(w.d)
            && var (e, kind) := Validate(p, w.d, t, out);
               && Usable(e)
               && (kind.Some? && out.reachesSigner && out.prepared && SignedScript(e, t, BranchOf(kind.value)).Some? ==>
                     BookedIfCounted(w, e, SignedScript(e, t, BranchOf(kind.value)).value, SignPsbt(p, w.d, t, out).2))
  {
    hide Run, Sound, Validate, SignPsbt, FreshRelease, SignedScript, CountedLeaf, SignsLeafOf, Named;
    var w := Run(p, events);
    SignPsbtKeeps(p, w, t, out);
    SoundUsable(p, w);
    ValidateCarries(p, w.d, t, out);
    var (e, kind) := Validate(p, w.d, t, out);
    if kind.Some? && out.reachesSigner && out.prepared && SignedScript(e, t, BranchOf(kind.value)).Some? {
      var signed := SignedScript(e, t, BranchOf(kind.value)).value;
      SignedIsDetected(p, w.d, t, out);
      if BranchOf(kind.value) in COUNTED {
        CountedBranchSigns(p, w.d, t, out);
        SignsCounted(w.d.intent, e.ctx, Named(p, w.d, t, kind.value), signed);
        SignsSomething(w.d.intent, e.ctx, Named(p, w.d, t, kind.value), signed);
      } else {
        UncountedNames(p, w.d, t, kind.value);
        forall i: Intent | i.InRange() ensures !CountedLeaf(i, signed) {
          CountedLeafCountedBranch(p, w.d, t, out, i);
        }
      }
    }
  }

  lemma SignsSomething(i: Intent, c: Context, r: Release, s: Bytes)
    requires i.InRange() && SignsLeafOf(i, c, r, s)
    ensures r != NoRelease
  {
  }

  lemma UncountedNames(p: Platform, d: Device, t: Psbt, kind: Kind)
    requires Usable(d) && BranchOf(kind) !in COUNTED
    ensures Named(p, d, t, kind) == NoRelease
  {
  }

  // ---------------------------------------------------------------------------------------------
  // The leaf that is signed without a count

  /** What the depositor's PayoutFinalize looks like for a loaded intent. */
  predicate IsFinalize(p: Platform, d: Device, t: Psbt, g: nat)
    requires Usable(d) && Loaded(d) && g < d.intent.V()
  {
    var i := d.intent;
    && t.noWalletPolicy && Shape(t, 2, 2) && Modern(t)
    && |t.inputs[0].prevTxid| == 32 && GroupByTxid(p, i, t.inputs[0].prevTxid, 0).None?
    && CarriesPayoutLeaf(p, i, g, i.N() + 1, t.inputs[1]) && Owns(p, t.inputs[1].origins, i.depositor)
    && SighashDefault(t.inputs[1]) && ConnectorValueOk(i.scalars.baseFeeRate, ReadWitnessUtxo(t.inputs[1]).value.0)
    && t.inputs[1].sequence == Present(i.scalars.payoutTimelock as int)
    && OwnOutput(p, t, 0, i.depositor) && ReadOutput(t, 0).value.1 > 0
    && OwnOutput(p, t, 1, i.depositor) && ReadOutput(t, 1).value.1 == DUST_LIMIT
    && (i.V() == 1 ==> FinalizeFeeOk(i, ReadOutput(t, 0).value.1))
    && t.outputsTotal <= t.inputsTotal
  }

  lemma AboveDust(rate: U64, value: U64)
    requires rate > 0 && ConnectorValueOk(rate, value)
    ensures value >= DUST_LIMIT
  {
  }

  /** By design that transaction is accepted and signs the depositor's own payout leaf without a count: every counter and
      mask stays as it was. */
  lemma FinalizeSignsPayoutLeaf(p: Platform, d: Device, t: Psbt, out: Outside, g: nat)
    requires Usable(d) && Loaded(d) && CountersRoom(d) && !d.streaming.inProgress && out.checks
    requires RolesDisjoint(d.intent) && g < d.intent.V()
    requires PAYOUT_TIMELOCK_MIN <= d.intent.scalars.payoutTimelock <= PAYOUT_TIMELOCK_MAX
    requires IsFinalize(p, d, t, g)
    ensures Validate(p, d, t, out).1 == Some(PayoutFinalizeTx) && Usable(Validate(p, d, t, out).0)
    ensures SignedScript(Validate(p, d, t, out).0, t, SignFinalize) == Some(Assert0PayoutLeaf(d.intent, g, d.intent.N() + 1))
    ensures SignPsbt(p, d, t, out).2 == NoRelease
    ensures Validate(p, d, t, out).0.ctx == d.ctx.(isPayoutSigning := false)
  {
    hide LeafOf, RolesDisjoint, ConnectorValueOk, OwnOutput, Owns, FinalizeOk, IsFinalize, GroupByTxid, Rechecks, Route,
         Assert0PayoutLeaf;
    var i := d.intent;
    HonestFinalize(p, d, t, g);
    FinalizeRoute(p, d, t, g);
    assert ScriptOf(t.inputs[1]) == Some(Assert0PayoutLeaf(i, g, i.N() + 1));
    SignerFollowsValidator(p, d, t, out);
    ValidateCarries(p, d, t, out);
  }

  lemma FinalizeRoute(p: Platform, d: Device, t: Psbt, g: nat)
    requires Usable(d) && Loaded(d) && g < d.intent.V() && IsFinalize(p, d, t, g)
    ensures t.noWalletPolicy && Shape(t, 2, 2) && Modern(t) && |t.inputs[0].prevTxid| == 32
    ensures GroupByTxid(p, d.intent, t.inputs[0].prevTxid, 0).None?
  {
    hide CarriesPayoutLeaf, ConnectorValueOk, OwnOutput, Owns, FinalizeFeeOk;
  }

  lemma HonestFinalize(p: Platform, d: Device, t: Psbt, g: nat)
    requires Usable(d) && Loaded(d) && RolesDisjoint(d.intent) && g < d.intent.V()
    requires PAYOUT_TIMELOCK_MIN <= d.intent.scalars.payoutTimelock <= PAYOUT_TIMELOCK_MAX
    requires IsFinalize(p, d, t, g)
    ensures FinalizeOk(p, true, d.intent, t)
    ensures |t.inputs| == 2 && ScriptOf(t.inputs[1]) == Some(Assert0PayoutLeaf(d.intent, g, d.intent.N() + 1))
  {
    hide LeafOf, RolesDisjoint, Assert0PayoutLeaf, Commits, Claimer.DetectClaimer, ConnectorValueOk, OwnOutput, FinalizeFeeOk,
         GroupByTxid, ParsePayoutLeaf, LeafPreimage, ReadWitnessUtxo, Owns;
    var i := d.intent;
    ConnectorReads(p, i, g, i.N() + 1, t.inputs[1]);
    PayoutLeafRoundTrip(i, g, i.N() + 1);
    FactsOfScript(true, i, t.inputs[1]);
    var s := Assert0PayoutLeaf(i, g, i.N() + 1);
    assert (s + [LEAF_VERSION])[..|s|] == s;
    AboveDust(i.scalars.baseFeeRate, ReadWitnessUtxo(t.inputs[1]).value.0);
  }
}
