/** End to end: what an accepted vault transaction means in any run of the app. */
module Guarantees {
  import opened Octets
  import opened Bits
  import opened Intents
  import opened Platforms
  import opened Session
  import opened Script
  import opened Loading
  import opened LoadingLemmas
  import opened Invariants
  import opened Psbts
  import Taproot
  import opened PegIn
  import opened PrePegIn
  import opened Deposit
  import opened Claimer
  import opened Payout
  import opened Machine
  import opened Ledgers
  import opened Runs

  /** t pays out group g to claimer c: it spends the PegIn of g and the Assert:0 leaf built for c, neither signed before,
      and what the outputs leave to miners is within (0, bound] exactly when the two inputs add up without wrapping. */
  ghost predicate PaysOut(p: Platform, w: World, t: Psbt, g: nat, c: nat, assert0: U64, a: Amounts) {
    var i := w.d.intent;
    && Ready(i) && RolesDisjoint(i) && g < i.V() && c <= i.N() + 1 && |t.inputs| == 2
    && (g, c) !in w.l.payouts
    && PegInTxid(p, i, g).Some? && PegInTxid(p, i, g).value == t.inputs[0].prevTxid
    && VaultInputOk(p, i, g, t.inputs[0])
    && LeafOf(true, i, t.inputs[1]).Some?
    && LeafOf(true, i, t.inputs[1]).value.1.buffered == Some(Assert0PayoutLeaf(i, g, c))
    && LeafCommitted(p, LeafOf(true, i, t.inputs[1]).value, t.inputs[1])
    && ReadWitnessUtxo(t.inputs[1]).value.0 == assert0
    && ReadAmounts(p, i, g, c, t) == Some(a)
    && (0 < RealFee(i, g, assert0, a) <= FeeBound(i) <==> i.groups[g].amount + assert0 <= U64_MAX)
  }

  lemma DetectMeans(p: Platform, i: Intent, t: Psbt)
    requires Ready(i) && RolesDisjoint(i) && Detect(p, i, t).Some?
    ensures var s := Detect(p, i, t).value;
            && |t.inputs| == 2 && s.g < i.V() && s.c <= i.N() + 1
            && PegInTxid(p, i, s.g).Some? && PegInTxid(p, i, s.g).value == t.inputs[0].prevTxid
            && LeafOf(true, i, t.inputs[1]).Some?
            && LeafOf(true, i, t.inputs[1]).value.1.buffered == Some(Assert0PayoutLeaf(i, s.g, s.c))
            && LeafCommitted(p, LeafOf(true, i, t.inputs[1]).value, t.inputs[1])
            && ReadWitnessUtxo(t.inputs[1]).value.0 == s.assert0
  {
    hide RolesDisjoint, PegInTxid, LeafOf, Assert0PayoutLeaf, ConnectorValueOk, DetectClaimer, Taproot.Commits;
    var s := Detect(p, i, t).value;
    DetectsExactly(i, s.g, LeafOf(true, i, t.inputs[1]).value.1.buffered.value, s.c);
  }

  /** A slot whose bit is clear is in no signed pair. */
  lemma ClearSlotUnsigned(d: Device, l: Ledger, g: nat, c: nat)
    requires SigningInv(d, l) && Loaded(d) && g < d.intent.V() && c <= d.intent.N() + 1
    requires !BitAt(d.ctx.payoutMask, Slot(d.intent, g, c))
    ensures (g, c) !in l.payouts
  {
    hide Slot, LedgerOk;
    NewPair(d.intent, l.payouts, g, c);
  }

  /** In any run, accepting a Payout means that it pays out one vault, once, to one approved claimer. */
  lemma AcceptedPayoutPaysOut(p: Platform, events: seq<Event>, t: Psbt)
    ensures var w := Run(p, events);
            && Usable(w.d)
            && (ValidatePayout(p, w.d, t).1 ==> exists g, c, assert0, a :: PaysOut(p, w, t, g, c, assert0, a))
  {
    hide Run, Sound, Detect, Slot, BitAt, FieldsOk, PaysOut, RolesDisjoint;
    var w := Run(p, events);
    SoundUsable(p, w);
    if ValidatePayout(p, w.d, t).1 {
      LoadedRoles(p, w);
      var s := Detect(p, w.d.intent, t).value;
      PayoutAccepted(p, w, t, s);
    }
  }

  lemma LoadedRoles(p: Platform, w: World)
    requires Sound(p, w) && Loaded(w.d)
    ensures SigningInv(w.d, w.l) && Ready(w.d.intent) && RolesDisjoint(w.d.intent)
  {
    hide SigningInv, RolesDisjoint, KeysOk, DepositorUnique, CommitmentsOk, IsLoad, GroupsOk;
    KeysDisjoint(p, w.d.intent);
  }

  lemma PayoutAccepted(p: Platform, w: World, t: Psbt, s: Detected)
    requires Loaded(w.d) && Ready(w.d.intent) && RolesDisjoint(w.d.intent) && SigningInv(w.d, w.l)
    requires Detect(p, w.d.intent, t) == Some(s) && FieldsOk(p, w.d.intent, s, t)
    requires !BitAt(w.d.ctx.payoutMask, Slot(w.d.intent, s.g, s.c))
    ensures exists a :: PaysOut(p, w, t, s.g, s.c, s.assert0, a)
  {
    hide RolesDisjoint, SigningInv, Detect, PegInTxid, LeafOf, LeafCommitted, Assert0PayoutLeaf, VaultInputOk, ConnectorInputOk,
         ReadAmounts, MoneyOk, BitAt, Slot, FeeBound;
    var i := w.d.intent;
    DetectMeans(p, i, t);
    ClearSlotUnsigned(w.d, w.l, s.g, s.c);
    var a := ReadAmounts(p, i, s.g, s.c, t).value;
    PayoutConserves(i, s.g, s.assert0, a);
    assert PaysOut(p, w, t, s.g, s.c, s.assert0, a);
  }

  /** t is the PegIn of one group, which has not been signed. */
  ghost predicate IsAGroups(p: Platform, w: World, t: Psbt) {
    && w.d.intent.InRange() && ScriptsFit(t.outputs)
    && exists g :: 0 <= g < w.d.intent.V() && g !in w.l.pegIns && PegInTx(p, w.d.intent, g) == Some(Serialize(t))
  }

  /** In any run, an accepted PegIn is the one transaction its group stands for, not signed before. */
  lemma AcceptedPegInIsTheGroups(p: Platform, events: seq<Event>, t: Psbt)
    ensures var w := Run(p, events);
            Usable(w.d) && (ValidatePegIn(p, w.d, t).1 ==> IsAGroups(p, w, t))
  {
    hide Run, Sound, BitAt, PegInFieldsOk, PegInGroup, PegInTx, Serialize, RolesDisjoint, SigningInv;
    var w := Run(p, events);
    SoundUsable(p, w);
    if ValidatePegIn(p, w.d, t).1 {
      LoadedRoles(p, w);
      var g := PegInGroup(w.d.intent, t).value;
      AcceptedPegInSerializes(p, w.d.intent, g, w.d.ctx.hashlocks[g], t);
      ClearGroupUnsigned(w.d, w.l, g);
    }
  }

  lemma ClearGroupUnsigned(d: Device, l: Ledger, g: nat)
    requires SigningInv(d, l) && Loaded(d) && g < d.intent.V() && !BitAt(d.ctx.pegInMask, g)
    ensures g !in l.pegIns
  {
    hide LedgerOk, ValidPairs, SlotsOf;
    assert g !in Elements(l.pegIns);
  }

  /** t is the transaction whose txid the intent named, with its HTLCs in front, and the first under this approval. */
  predicate IsTheIntents(p: Platform, w: World, t: Psbt) {
    && w.d.intent.InRange() && w.l.prePegIns == 0
    && ScriptsFit(t.outputs) && DoubleSha(p, Serialize(t)) == w.d.intent.scalars.prePegInTxid
    && w.d.intent.V() <= |t.outputs| <= w.d.intent.V() + 3
    && forall g :: 0 <= g < w.d.intent.V() ==>
         w.d.intent.groups[g].htlcVout as nat == g && HtlcOutputOk(p, w.d.intent, w.d.ctx.hashlocks, t, g)
  }

  /** In any run, an accepted Pre-PegIn is the intent's, and at most one is accepted under an approval. */
  lemma AcceptedPrePegInIsTheIntents(p: Platform, events: seq<Event>, t: Psbt)
    ensures var w := Run(p, events);
            Usable(w.d) && (ValidatePrePegIn(p, w.d, t).1 ==> IsTheIntents(p, w, t))
  {
    hide Run, Serialize, HtlcOutputOk, PrePegInFieldsOk, VoutsAscending, LedgerOk, CommitmentsOk, RolesDisjoint, ValidScalars,
         ValidGroup, CheckBip86Path, Inv;
    var w := Run(p, events);
    SoundUsable(p, w);
    EveryRunGuarantees(p, events);
    if ValidatePrePegIn(p, w.d, t).1 {
      PrePegInMatchesIntent(p, w.d, t);
    }
  }
}
