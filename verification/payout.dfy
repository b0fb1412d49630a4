/** The Payout: which vault slot it pays out, its fields, and where the money goes. */
module Payout {
  import opened Octets
  import opened Intents
  import opened Platforms
  import opened Script
  import opened Bits
  import opened LeafStream
  import opened Taproot
  import opened Psbts
  import opened PegIn
  import opened PrePegIn
  import opened Claimer
  import opened Session

  const PAYOUT_VSIZE_BASE: nat := 500
  const PAYOUT_VSIZE_PER_PARTICIPANT: nat := 55
  const COUNCIL_NOPAYOUT_VSIZE: nat := 500
  const PAYOUT_SPK_MIN_LEN: nat := 22

  /** vault_read_refund_leaf_script and vault_read_payout_leaf_script: the only TAP_LEAF_SCRIPT entry of an
      input, its control block no longer than the buffer. */
  function LeafOf(loaded: bool, intent: Intent, input: Input): (r: Option<(Bytes, LeafFacts)>)
    requires loaded ==> intent.InRange()
  {
    if |input.leaves| != 1 || |input.leaves[0].0| > CONTROL_BLOCK_MAX then None
    else
      var facts := ReadWhole(loaded, intent, input.leaves[0].1);
      if facts.None? then None else Some((input.leaves[0].0, facts.value))
  }

  /** The WITNESS_UTXO pays a taproot output that commits to the leaf just read. */
  predicate LeafCommitted(p: Platform, leaf: (Bytes, LeafFacts), input: Input) {
    && ReadWitnessUtxo(input).Some?
    && Commits(p, leaf.0, p.tapLeaf(leaf.1.preimage), ReadWitnessUtxo(input).value.1)
  }

  /** Bounds on the value of the Assert:0 connector, in wrapping arithmetic. */
  predicate ConnectorValueOk(rate: U64, value: U64)
    requires rate > 0
  {
    && value >= DUST_LIMIT
    && (COUNCIL_NOPAYOUT_VSIZE <= U64_MAX / rate ==> value <= Wrap64(DUST_LIMIT + Wrap64(rate * COUNCIL_NOPAYOUT_VSIZE)))
  }

  // ---------------------------------------------------------------------------------------------
  // Slots

  /** gi * (keeper_count + 2) + claimer_idx */
  function Slot(i: Intent, g: nat, c: nat): (slot: nat)
    requires i.InRange() && g < i.V() && c <= i.N() + 1
    ensures slot < i.V() * (i.N() + 2) <= PAYOUT_SLOT_COUNT
  {
    SlotBound(i.V(), i.N() + 2, g, c);
    g * (i.N() + 2) + c
  }

  lemma SlotBound(v: nat, w: nat, g: nat, c: nat)
    requires g < v <= 10 && c < w <= 34
    ensures g * w + c < v * w <= 340
  {
    assert (g + 1) * w <= v * w <= 10 * w by {
      MulMono(g + 1, v, w);
      MulMono(v, 10, w);
    }
  }

  lemma MulMono(a: nat, b: nat, w: nat)
    requires a <= b
    ensures a * w <= b * w
  {
  }

  /** Group and claimer can be read back from a slot, so different pairs have different slots. */
  lemma SlotDecodes(i: Intent, g: nat, c: nat)
    requires i.InRange() && g < i.V() && c <= i.N() + 1
    ensures Slot(i, g, c) / (i.N() + 2) == g && Slot(i, g, c) % (i.N() + 2) == c
  {
    DivUnique(g, c, i.N() + 2);
  }

  /** Every number below V * (N + 2) is the slot of a pair. */
  lemma SlotReached(i: Intent, slot: nat) returns (g: nat, c: nat)
    requires i.InRange() && slot < i.V() * (i.N() + 2)
    ensures g < i.V() && c <= i.N() + 1 && Slot(i, g, c) == slot
  {
    g, c := Quotient(slot, i.V(), i.N() + 2);
  }

  lemma Quotient(slot: nat, v: nat, w: nat) returns (q: nat, r: nat)
    requires w > 0 && slot < v * w
    ensures q < v && r < w && slot == q * w + r
  {
    q, r := slot / w, slot % w;
    if q >= v {
      MulMono(v, q, w);
      assert false;
    }
  }

  lemma DivUnique(q: nat, r: nat, w: nat)
    requires r < w
    ensures (q * w + r) / w == q && (q * w + r) % w == r
  {
    if (q * w + r) / w < q {
      MulMono((q * w + r) / w + 1, q, w);
    } else if (q * w + r) / w > q {
      MulMono(q + 1, (q * w + r) / w, w);
    }
  }

  // ---------------------------------------------------------------------------------------------
  // Phase 1: which group, which claimer, how much the connector holds

  datatype Detected = Detected(g: nat, c: nat, assert0: U64)

  predicate Ready(i: Intent) {
    i.InRange() && i.scalars.baseFeeRate > 0
  }

  function Detect(p: Platform, i: Intent, t: Psbt): (r: Option<Detected>)
    requires Ready(i)
    ensures r.Some? ==> |t.inputs| == 2 && r.value.g < i.V() && r.value.c <= i.N() + 1
  {
    if t.version < 2 || t.locktime != 0 || |t.inputs| != 2 || |t.inputs[0].prevTxid| != 32 then None
    else
      var g := GroupByTxid(p, i, t.inputs[0].prevTxid, 0);
      var leaf := LeafOf(true, i, t.inputs[1]);
      if g.None? || leaf.None? || leaf.value.1.buffered.None? then None
      else
        var c := DetectClaimer(i, g.value, leaf.value.1.buffered.value);
        if c.None? || !LeafCommitted(p, leaf.value, t.inputs[1]) then None
        else
          var value := ReadWitnessUtxo(t.inputs[1]).value.0;
          if !ConnectorValueOk(i.scalars.baseFeeRate, value) then None
          else Some(Detected(g.value, c.value, value))
  }

  // ---------------------------------------------------------------------------------------------
  // Phase 2: fields

  /** Input 0 spends the vault UTXO of the group through its only leaf. */
  predicate VaultInputOk(p: Platform, i: Intent, g: nat, input: Input)
    requires i.InRange() && g < i.V()
  {
    && input.prevVout == Present(0)
    && input.sequence == Present(i.scalars.pegInCsv as int)
    && SighashDefault(input)
    && (LeafLengths(i, g, ZERO32);
        var out := p.tweak(NUMS, LeafHash(p, VaultUtxoLeaf(i, g)));
        && out.Some?
        && ReadWitnessUtxo(input) == Some((i.groups[g].amount, P2tr(out.value.1)))
        && Lookup(input.leaves, ControlBlock(out.value.0, [])) == Some(VaultUtxoLeaf(i, g) + [LEAF_VERSION]))
  }

  predicate ConnectorInputOk(i: Intent, input: Input) {
    input.sequence == Present(i.scalars.payoutTimelock as int) && input.prevVout == Present(0)
  }

  /** What each output pays; two-output Payouts have nothing at index 2. */
  datatype Amounts = Amounts(v0: U64, v1: U64, v2: U64)

  /** Output 0: the depositor's BIP-86 address, or for a keeper any script of a standard length. */
  function MainOutput(p: Platform, i: Intent, c: nat, t: Psbt): (v: Option<U64>)
    ensures v.Some? ==> v.value >= DUST_LIMIT
  {
    if c == 0 || c == i.N() + 1 then
      var out, spk := ReadOutput(t, 0), Bip86Spk(p, i.depositor);
      if out.None? || spk.None? || out.value.0 != spk.value || out.value.1 < DUST_LIMIT then None
      else Some(out.value.1)
    else
      var out := ReadOutputVar(t, 0, p.maxScriptPubKey);
      if out.None? || |out.value.0| < PAYOUT_SPK_MIN_LEN || out.value.0[0] == OP_RETURN || out.value.1 < DUST_LIMIT then None
      else Some(out.value.1)
  }

  /** Output 1: the commission of a provider claimer, otherwise the CPFP anchor. */
  function SecondOutput(p: Platform, i: Intent, g: nat, c: nat, t: Psbt): (v: Option<U64>)
    requires i.InRange() && g < i.V()
    ensures v.Some? && c == 0 ==> v.value <= i.groups[g].commission && (v.value == 0 || v.value >= DUST_LIMIT)
    ensures v.Some? && c != 0 ==> v.value == DUST_LIMIT
  {
    if c == i.N() + 1 then
      var out, spk := ReadOutput(t, 1), Bip86Spk(p, i.depositor);
      if out.None? || spk.None? || out.value.0 != spk.value || out.value.1 != DUST_LIMIT then None
      else Some(out.value.1)
    else
      var out := ReadOutputVar(t, 1, p.maxScriptPubKey);
      if out.None? then None
      else if c == 0 then
        if out.value.1 > i.groups[g].commission || 0 < out.value.1 < DUST_LIMIT then None else Some(out.value.1)
      else if out.value.1 != DUST_LIMIT then None
      else Some(out.value.1)
  }

  /** Output 2: the provider's CPFP anchor. */
  function ThirdOutput(p: Platform, c: nat, t: Psbt): (v: Option<U64>)
    ensures v.Some? ==> v.value == if c == 0 then DUST_LIMIT else 0
  {
    if c != 0 then Some(0)
    else
      var out := ReadOutputVar(t, 2, p.maxScriptPubKey);
      if out.None? || out.value.1 != DUST_LIMIT then None else Some(out.value.1)
  }

  function ReadAmounts(p: Platform, i: Intent, g: nat, c: nat, t: Psbt): (r: Option<Amounts>)
    requires i.InRange() && g < i.V()
  {
    var v0, v1, v2 := MainOutput(p, i, c, t), SecondOutput(p, i, g, c, t), ThirdOutput(p, c, t);
    if v0.None? || v1.None? || v2.None? then None else Some(Amounts(v0.value, v1.value, v2.value))
  }

  /** The running output total, refused as soon as it wraps. */
  function TotalOut(a: Amounts): Option<U64> {
    var s := Wrap64(a.v0 + a.v1);
    if s < a.v0 then None
    else
      var all := Wrap64(s + a.v2);
      if all < s then None else Some(all)
  }

  function PayoutVsize(i: Intent): U64 {
    PAYOUT_VSIZE_BASE + PAYOUT_VSIZE_PER_PARTICIPANT * (i.N() + i.M())
  }

  /** fee <= rate * vsize, guarded by a division. */
  predicate WithinFee(rate: U64, vsize: U64, fee: U64)
    requires rate > 0
  {
    vsize <= U64_MAX / rate && fee <= Wrap64(rate * vsize)
  }

  /** The fee check, in wrapping arithmetic: only the input sum is not guarded. */
  predicate FeeOk(i: Intent, g: nat, assert0: U64, totalOut: U64)
    requires Ready(i) && g < i.V()
  {
    var totalIn := Wrap64(i.groups[g].amount + assert0);
    && totalOut <= totalIn
    && totalIn != totalOut
    && WithinFee(i.scalars.baseFeeRate, PayoutVsize(i), totalIn - totalOut)
  }

  predicate MoneyOk(i: Intent, g: nat, assert0: U64, a: Amounts)
    requires Ready(i) && g < i.V()
  {
    TotalOut(a).Some? && FeeOk(i, g, assert0, TotalOut(a).value)
  }

  predicate FieldsOk(p: Platform, i: Intent, s: Detected, t: Psbt)
    requires Ready(i) && |t.inputs| == 2 && s.g < i.V() && s.c <= i.N() + 1
  {
    && |t.outputs| == (if s.c == 0 then 3 else 2)
    && VaultInputOk(p, i, s.g, t.inputs[0])
    && ConnectorInputOk(i, t.inputs[1])
    && ReadAmounts(p, i, s.g, s.c, t).Some?
    && MoneyOk(i, s.g, s.assert0, ReadAmounts(p, i, s.g, s.c, t).value)
  }

  function PayoutCap(i: Intent): nat {
    i.V() * (i.N() + 2)
  }

  /** _validate_payout */
  function ValidatePayout(p: Platform, d: Device, t: Psbt): (r: (Device, bool))
    requires d.ctx.state == IntentLoaded ==> Ready(d.intent)
  {
    if d.ctx.state != IntentLoaded then (d, false)
    else
      var found := Detect(p, d.intent, t);
      if found.None? then (d, false)
      else
        var s := found.value;
        var e := d.(ctx := d.ctx.(groupIndex := s.g as Byte, payoutIndex := s.c as Byte));
        if BitAt(d.ctx.payoutMask, Slot(d.intent, s.g, s.c)) then (Invalidate(e), false)
        else if !FieldsOk(p, d.intent, s, t) then (e, false)
        else if d.ctx.payoutSigned >= PayoutCap(d.intent) then (Invalidate(e), false)
        else (e.(ctx := e.ctx.(isPayoutSigning := true)), true)
  }

  // ---------------------------------------------------------------------------------------------
  // Where the money goes

  /** The division guard holds exactly when the product fits. */
  lemma DivisionGuard(rate: U64, vsize: U64)
    requires rate > 0
    ensures vsize <= U64_MAX / rate <==> rate * vsize <= U64_MAX
  {
    if vsize <= U64_MAX / rate {
      MulMono(vsize, U64_MAX / rate, rate);
    } else {
      MulMono(U64_MAX / rate + 1, vsize, rate);
    }
  }

  lemma WithinFeeMeans(rate: U64, vsize: U64, fee: U64)
    requires rate > 0
    ensures WithinFee(rate, vsize, fee) <==> rate * vsize <= U64_MAX && fee <= rate * vsize
  {
    DivisionGuard(rate, vsize);
    var product := rate * vsize;
  }

  /** What the transaction really pays to miners. */
  function RealFee(i: Intent, g: nat, assert0: U64, a: Amounts): int
    requires i.InRange() && g < i.V()
  {
    i.groups[g].amount + assert0 - (a.v0 + a.v1 + a.v2)
  }

  function FeeBound(i: Intent): nat {
    i.scalars.baseFeeRate * PayoutVsize(i)
  }

  /** The checks hold exactly when, counting the input sum modulo 2^64, the outputs fit and leave a fee in (0, bound]. */
  lemma MoneyExact(i: Intent, g: nat, assert0: U64, a: Amounts)
    requires Ready(i) && g < i.V()
    ensures MoneyOk(i, g, assert0, a) <==>
              && a.v0 + a.v1 + a.v2 <= U64_MAX && FeeBound(i) <= U64_MAX
              && 0 < Wrap64(i.groups[g].amount + assert0) - (a.v0 + a.v1 + a.v2) <= FeeBound(i)
  {
    hide WithinFee, PayoutVsize, FeeBound;
    TotalOutExact(a);
    BoundExact(i, g, assert0, a.v0 + a.v1 + a.v2);
  }

  lemma TotalOutExact(a: Amounts)
    ensures TotalOut(a) == if a.v0 + a.v1 + a.v2 <= U64_MAX then Some(a.v0 + a.v1 + a.v2) else None
  {
  }

  lemma BoundExact(i: Intent, g: nat, assert0: U64, total: nat)
    requires Ready(i) && g < i.V()
    ensures total <= U64_MAX ==>
              (FeeOk(i, g, assert0, total) <==>
               FeeBound(i) <= U64_MAX && 0 < Wrap64(i.groups[g].amount + assert0) - total <= FeeBound(i))
  {
    hide WithinFee, PayoutVsize, Wrap64;
    var totalIn := Wrap64(i.groups[g].amount + assert0);
    if total <= totalIn <= U64_MAX {
      WithinFeeMeans(i.scalars.baseFeeRate, PayoutVsize(i), totalIn - total);
    }
  }

  /** An accepted Payout conserves value with a fee in (0, bound] exactly when the sum of its inputs fits in 64 bits. */
  lemma PayoutConserves(i: Intent, g: nat, assert0: U64, a: Amounts)
    requires Ready(i) && g < i.V() && MoneyOk(i, g, assert0, a)
    ensures 0 < RealFee(i, g, assert0, a) <= FeeBound(i) <==> i.groups[g].amount + assert0 <= U64_MAX
  {
    MoneyExact(i, g, assert0, a);
  }

  /** Below the range where the sum can wrap, accepted and conserving are the same. */
  lemma MoneyMeaning(i: Intent, g: nat, assert0: U64, a: Amounts)
    requires Ready(i) && g < i.V() && i.groups[g].amount + assert0 <= U64_MAX
    ensures MoneyOk(i, g, assert0, a) <==>
              FeeBound(i) <= U64_MAX && 0 < RealFee(i, g, assert0, a) <= FeeBound(i)
  {
    MoneyExact(i, g, assert0, a);
  }

  /** No connector value the device accepts can make the sum wrap for an amount that leaves room for the largest one. */
  lemma NoWrapFromIntent(i: Intent, g: nat, assert0: U64)
    requires Ready(i) && g < i.V() && ConnectorValueOk(i.scalars.baseFeeRate, assert0)
    requires i.scalars.baseFeeRate <= MAX_BASE_FEE_RATE
    requires i.groups[g].amount <= U64_MAX - DUST_LIMIT - i.scalars.baseFeeRate * COUNCIL_NOPAYOUT_VSIZE
    ensures i.groups[g].amount + assert0 <= U64_MAX
  {
    DivisionGuard(i.scalars.baseFeeRate, COUNCIL_NOPAYOUT_VSIZE);
  }

  /** The missing guard matters: amounts in their allowed ranges for which the checks pass while the outputs are worth
      almost 2^64 less than the inputs. */
  lemma WrappedMoney(i: Intent)
    requires Ready(i) && i.V() == 1 && i.N() == 1 && i.M() == 1 && i.scalars.baseFeeRate == MAX_BASE_FEE_RATE
    requires i.groups[0].amount == U64_MAX - 999 && i.groups[0].commission == 1000 && i.groups[0].claimValue == DUST_LIMIT
    ensures ValidGroup(i.groups[0]) && ConnectorValueOk(i.scalars.baseFeeRate, 3000)
    ensures PegInValueOk(i.groups[0], i.groups[0].amount + DUST_LIMIT + P2A_VALUE)
    ensures MoneyOk(i, 0, 3000, Amounts(546, 546, 0))
    ensures RealFee(i, 0, 3000, Amounts(546, 546, 0)) > U64_MAX - 1000
  {
    MoneyExact(i, 0, 3000, Amounts(546, 546, 0));
  }

  /** With everything else in order and its slot free, a Payout is accepted exactly when the money checks pass. */
  lemma AcceptanceIsMoney(p: Platform, d: Device, t: Psbt, s: Detected)
    requires d.ctx.state == IntentLoaded && Ready(d.intent) && Detect(p, d.intent, t) == Some(s)
    requires !BitAt(d.ctx.payoutMask, Slot(d.intent, s.g, s.c)) && d.ctx.payoutSigned < PayoutCap(d.intent)
    requires |t.outputs| == (if s.c == 0 then 3 else 2)
    requires VaultInputOk(p, d.intent, s.g, t.inputs[0]) && ConnectorInputOk(d.intent, t.inputs[1])
    requires ReadAmounts(p, d.intent, s.g, s.c, t).Some?
    ensures ValidatePayout(p, d, t).1 <==> MoneyOk(d.intent, s.g, s.assert0, ReadAmounts(p, d.intent, s.g, s.c, t).value)
  {
    hide Detect, VaultInputOk, ConnectorInputOk, ReadAmounts, MoneyOk, BitAt, Slot, PayoutCap;
  }

  /** What an accepted Payout leaves the depositor as payee: the inputs, less the fee bound and one CPFP anchor, and for a
      provider claimer less the commission. */
  lemma DepositorReceives(p: Platform, i: Intent, s: Detected, t: Psbt)
    requires Ready(i) && |t.inputs| == 2 && s.g < i.V() && s.c <= i.N() + 1 && FieldsOk(p, i, s, t)
    requires s.c == 0 || s.c == i.N() + 1
    requires i.groups[s.g].amount + s.assert0 <= U64_MAX
    ensures |t.outputs| > 0 && t.outputs[0].amount.Some? && t.outputs[0].scriptPubKey == Bip86Spk(p, i.depositor)
    ensures t.outputs[0].amount.value >=
              i.groups[s.g].amount + s.assert0 - FeeBound(i) - DUST_LIMIT
              - (if s.c == 0 then i.groups[s.g].commission else 0)
  {
    hide VaultInputOk, ConnectorInputOk, MoneyOk;
    var a := ReadAmounts(p, i, s.g, s.c, t).value;
    MoneyExact(i, s.g, s.assert0, a);
  }

  /** The same for a keeper claimer, whose own address is not checked. */
  lemma KeeperPayoutValue(p: Platform, i: Intent, s: Detected, t: Psbt)
    requires Ready(i) && |t.inputs| == 2 && s.g < i.V() && 1 <= s.c <= i.N() && FieldsOk(p, i, s, t)
    requires i.groups[s.g].amount + s.assert0 <= U64_MAX
    ensures |t.outputs| == 2 && t.outputs[1].amount == Some(DUST_LIMIT)
    ensures t.outputs[0].amount.Some?
    ensures i.groups[s.g].amount + s.assert0 - FeeBound(i) - DUST_LIMIT
            <= t.outputs[0].amount.value < i.groups[s.g].amount + s.assert0 - DUST_LIMIT
  {
    hide VaultInputOk, ConnectorInputOk, MoneyOk;
    var a := ReadAmounts(p, i, s.g, s.c, t).value;
    MoneyExact(i, s.g, s.assert0, a);
  }
}
