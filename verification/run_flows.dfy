/** The conditions of the counted flows in the states runs reach, and what an accepted Payout still needs to be spent. */
module RunFlows {
  import opened Octets
  import opened Bits
  import opened Intents
  import opened Platforms
  import opened LoadingLemmas
  import opened Session
  import opened Script
  import opened Psbts
  import opened PrePegIn
  import opened PegIn
  import opened Deposit
  import opened Payout
  import opened NoPayout
  import opened Loading
  import opened Machine
  import opened Runs
  import opened WireForms
  import opened Flows
  import opened DepositFlows
  import opened PayoutFlows
  import opened Tapscript
  import opened LeafSpends
  import opened Addresses
  import Invariants

  /** What the flows take for granted about a loaded intent. */
  ghost predicate Meets(p: Platform, d: Device) {
    && Ready(d.intent) && RolesDisjoint(d.intent) && VoutsAscending(d.intent) && Ranges(d.intent.scalars, p.coinType)
    && TimelocksOk(d.intent)
    && p.pubkeyAt(d.intent.scalars.path).Some? && d.intent.depositor == p.pubkeyAt(d.intent.scalars.path).value[1..]
  }

  /** A loaded intent of any run is in the ranges written out, has its outputs in order and its roles disjoint, and its
      depositor is the key at its path. */
  lemma EveryRunMeets(p: Platform, events: seq<Event>)
    ensures var w := Run(p, events); Loaded(w.d) ==> Meets(p, w.d)
  {
    hide Run, RolesDisjoint, Ranges, CheckBip86Path, Invariants.CommitmentsOk, ValidGroup, VoutsAscending, Sound;
    EveryRunGuarantees(p, events);
    var w := Run(p, events);
    if Loaded(w.d) {
      RangesAreValid(w.d.intent.scalars, p.coinType);
      DepositorDerived(p, w);
    }
  }

  lemma DepositorDerived(p: Platform, w: World)
    requires Sound(p, w) && Loaded(w.d)
    ensures p.pubkeyAt(w.d.intent.scalars.path).Some?
    ensures w.d.intent.depositor == p.pubkeyAt(w.d.intent.scalars.path).value[1..]
  {
    hide ValidScalars, Invariants.CommitmentsOk, Invariants.IsLoad, GroupsOk, KeysOk, DepositorUnique;
  }

  /** With an intent loaded, each of the four counted flows accepts t exactly if t has its form and is not used up. */
  ghost predicate AcceptsExactly(p: Platform, d: Device, t: Psbt, g: nat, c: nat)
    requires Usable(d)
  {
    Loaded(d) ==>
      && (ValidatePrePegIn(p, d, t).1 <==> PrePegInForm(p, d, t) && d.ctx.prePegInSigned == 0)
      && (g < d.intent.V() ==> PegInExactly(p, d, t, g))
      && (g < d.intent.V() && c <= d.intent.N() + 1 ==> PayoutExact(p, d, t, g, c))
      && (c < d.intent.N() + d.intent.M() ==> NoPayoutExact(p, d, t, c))
  }

  /** So it is in any run, for every group and every claimer or challenger. */
  lemma EveryRunAccepts(p: Platform, events: seq<Event>, t: Psbt, g: nat, c: nat)
    ensures var w := Run(p, events); Usable(w.d) && AcceptsExactly(p, w.d, t, g, c)
  {
    hide Run, Meets, Sound, AcceptsExactly;
    var w := Run(p, events);
    SoundUsable(p, w);
    EveryRunMeets(p, events);
    if Loaded(w.d) {
      MeetsExactly(p, w.d, t, g, c);
    } else {
      NothingLoaded(p, w.d, t, g, c);
    }
  }

  lemma NothingLoaded(p: Platform, d: Device, t: Psbt, g: nat, c: nat)
    requires Usable(d) && !Loaded(d)
    ensures AcceptsExactly(p, d, t, g, c)
  {
    hide ValidatePrePegIn;
  }

  lemma MeetsExactly(p: Platform, d: Device, t: Psbt, g: nat, c: nat)
    requires Loaded(d) && Meets(p, d)
    ensures AcceptsExactly(p, d, t, g, c)
  {
    hide ValidatePegIn, ValidatePayout, ValidateNoPayout, ValidatePrePegIn, PrePegInForm, PegInForm, PayoutForm,
         NoPayoutForm, RolesDisjoint, VoutsAscending, PairOpen;
    PrePegInAccepted(p, d, t);
    if g < d.intent.V() {
      PegInAccepted(p, d, t, g);
    }
    if g < d.intent.V() && c <= d.intent.N() + 1 {
      PayoutAccepted(p, d, t, g, c);
    }
    if c < d.intent.N() + d.intent.M() {
      NoPayoutAccepted(p, d, t, c);
    }
  }

  ghost predicate PegInExactly(p: Platform, d: Device, t: Psbt, g: nat)
    requires Loaded(d) && Ready(d.intent) && g < d.intent.V()
  {
    ValidatePegIn(p, d, t).1 && ValidatePegIn(p, d, t).0.ctx.groupIndex as nat == g <==>
      && (exists value: U64 :: PegInForm(p, d.intent, g, d.ctx.hashlocks[g], t, value))
      && !BitAt(d.ctx.pegInMask, g) && d.ctx.pegInSigned < d.intent.V()
  }

  ghost predicate PayoutExact(p: Platform, d: Device, t: Psbt, g: nat, c: nat)
    requires Loaded(d) && Ready(d.intent) && g < d.intent.V() && c <= d.intent.N() + 1
  {
    (&& ValidatePayout(p, d, t).1
     && ValidatePayout(p, d, t).0.ctx.groupIndex as nat == g && ValidatePayout(p, d, t).0.ctx.payoutIndex as nat == c) <==>
      (exists connector: U64, a: Amounts :: PayoutForm(p, d.intent, g, c, t, connector, a)) && PairOpen(d, g, c)
  }

  ghost predicate NoPayoutExact(p: Platform, d: Device, t: Psbt, j: nat)
    requires Loaded(d) && Ready(d.intent) && j < d.intent.N() + d.intent.M()
  {
    ValidateNoPayout(p, d, t).1 && ValidateNoPayout(p, d, t).0.ctx.noPayoutChallenger as nat == j <==>
      && (exists connector: U64 :: NoPayoutForm(p, d.intent, KeyAt(d.intent, j), t, connector))
      && d.ctx.noPayoutSigned < d.intent.V() * (d.intent.N() + d.intent.M())
  }

  // ---------------------------------------------------------------------------------------------
  // Spending

  /** BIP-112 for an operand of n blocks. */
  predicate Unlocks(version: U32, sequence: U32, n: nat) {
    version >= 2 && sequence < 0x8000_0000 && (sequence / 0x40_0000) % 2 == 0 && n <= sequence % 0x1_0000
  }

  /** e judges relative timelocks by the given input of t. */
  ghost predicate Judges(e: Spend, t: Psbt, k: nat) {
    && k < |t.inputs| && t.inputs[k].sequence.Present?
    && forall n: nat :: n < 0x8000 ==> (e.older(n) <==> Unlocks(t.version, t.inputs[k].sequence.value, n))
  }

  /** With an accepted Payout the relative timelocks of both its inputs have run out: the vault UTXO takes the signatures of
      depositor, provider, keepers and challengers, the connector those of claimer, app challengers and challengers, and
      nothing else is needed or enough. */
  lemma PayoutUnlocks(p: Platform, i: Intent, g: nat, c: nat, t: Psbt, connector: U64, a: Amounts,
                      e0: Spend, e1: Spend, app: seq<Bytes32>, w: Stack)
    requires Ready(i) && RolesDisjoint(i) && TimelocksOk(i) && g < i.V() && c <= i.N() + 1
    requires PayoutForm(p, i, g, c, t, connector, a) && Judges(e0, t, 0) && Judges(e1, t, 1) && IsAppSet(i, g, c, app)
    ensures |app| == i.N()
    ensures Exec(e0, VaultUtxoLeaf(i, g), w) <==>
              && |w| == 2 + i.N() + i.M()
              && Signs(e0, i.depositor, Top(w, 0)) && Signs(e0, i.groups[g].provider, Top(w, 1))
              && AllSign(e0, i.Keepers(), w, 2) && AllSign(e0, i.Challengers(), w, 2 + i.N())
    ensures Exec(e1, Assert0PayoutLeaf(i, g, c), w) <==>
              && |w| == 1 + i.N() + i.M()
              && Signs(e1, ClaimerKey(i, g, c), Top(w, 0))
              && AllSign(e1, app, w, 1) && AllSign(e1, i.Challengers(), w, 1 + i.N())
  {
    hide Exec, AllSign, RolesDisjoint, IsAppSet, VaultUtxoLeaf, Assert0PayoutLeaf, PayoutForm, ClaimerKey, Signs;
    VaultLeafSpend(e0, i, g, w);
    PayoutLeafSpend(e1, i, g, c, app, w);
    PayoutSequences(p, i, g, c, t, connector, a);
  }

  lemma PayoutSequences(p: Platform, i: Intent, g: nat, c: nat, t: Psbt, connector: U64, a: Amounts)
    requires Ready(i) && g < i.V() && c <= i.N() + 1 && PayoutForm(p, i, g, c, t, connector, a)
    ensures t.version >= 2 && |t.inputs| == 2
    ensures t.inputs[0].sequence == Present(i.scalars.pegInCsv as int)
    ensures t.inputs[1].sequence == Present(i.scalars.payoutTimelock as int)
  {
    hide Spends, Assert0PayoutLeaf, PayoutOutputs, VaultUtxoLeaf, UtxoIs, GroupByTxid;
  }
}
