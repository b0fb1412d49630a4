/** The two deposit validators on the session: Pre-PegIn and PegIn. */
module Deposit {
  import opened Octets
  import opened Platforms
  import opened Bits
  import opened LeafStream
  import opened Psbts
  import opened PegIn
  import opened PrePegIn
  import opened Session

  // ---------------------------------------------------------------------------------------------
  // The Pre-PegIn txid

  predicate HashableInput(i: Input) {
    |i.prevTxid| == 32 && i.prevVout.Present? && i.sequence == Present(SEQUENCE_FINAL)
  }

  /** All outputs have a 34-byte script and an amount. */
  predicate HashableOutput(o: Output) {
    o.amount.Some? && |o.Script()| == 34
  }

  predicate Hashable(t: Psbt) {
    && (forall k :: 0 <= k < |t.inputs| ==> HashableInput(t.inputs[k]))
    && (forall k :: 0 <= k < |t.outputs| ==> HashableOutput(t.outputs[k]))
  }

  lemma HashableScripts(t: Psbt)
    requires Hashable(t)
    ensures forall o :: o in t.outputs ==> |o.Script()| < 0x1_0000_0000
  {
  }

  /** _compute_prepegin_txid: the txid if every field it covers is there and every input is final. */
  function PrePegInTxid(p: Platform, t: Psbt): Option<Bytes32> {
    if !Hashable(t) then None
    else
      HashableScripts(t);
      Some(DoubleSha(p, Serialize(t)))
  }

  lemma {:induction false} SerializeInputsStep(inputs: seq<Input>, k: nat)
    requires k < |inputs|
    ensures SerializeInputs(inputs[..k + 1]) == SerializeInputs(inputs[..k]) + SerializeInput(inputs[k])
  {
    hide SerializeInput;
    if k == 0 {
      assert inputs[..1] == [inputs[0]] && inputs[..1][1..] == [] && inputs[..0] == [];
      assert SerializeInputs([]) == [];
      assert SerializeInput(inputs[0]) + [] == [] + SerializeInput(inputs[0]);
    } else {
      SerializeInputsStep(inputs[1..], k - 1);
      assert inputs[..k + 1][1..] == inputs[1..][..k] && inputs[..k][1..] == inputs[1..][..k - 1];
    }
  }

  lemma {:induction false} SerializeOutputsStep(outputs: seq<Output>, k: nat)
    requires k < |outputs|
    requires forall o :: o in outputs ==> |o.Script()| < 0x1_0000_0000
    ensures SerializeOutputs(outputs[..k + 1]) == SerializeOutputs(outputs[..k]) + SerializeOutput(outputs[k])
  {
    hide SerializeOutput;
    if k == 0 {
      assert outputs[..1] == [outputs[0]] && outputs[..1][1..] == [] && outputs[..0] == [];
      assert SerializeOutputs([]) == [];
      assert SerializeOutput(outputs[0]) + [] == [] + SerializeOutput(outputs[0]);
    } else {
      SerializeOutputsStep(outputs[1..], k - 1);
      assert outputs[..k + 1][1..] == outputs[1..][..k] && outputs[..k][1..] == outputs[1..][..k - 1];
    }
  }

  predicate ScriptsFit(outputs: seq<Output>) {
    forall o :: o in outputs ==> |o.Script()| < 0x1_0000_0000
  }

  /** The inputs, hashed one by one; false as soon as one cannot be. */
  method AbsorbInputs(t: Psbt) returns (ok: bool, absorbed: Bytes)
    ensures ok <==> forall k :: 0 <= k < |t.inputs| ==> HashableInput(t.inputs[k])
    ensures ok ==> absorbed == LE(t.version, 4) + Varint(|t.inputs|) + SerializeInputs(t.inputs)
  {
    hide LE, Varint, SerializeInputs;
    absorbed := LE(t.version, 4) + Varint(|t.inputs|);
    ghost var head := absorbed;
    EmptyInputs();
    assert t.inputs[..0] == [];
    for k := 0 to |t.inputs|
      invariant forall j :: 0 <= j < k ==> HashableInput(t.inputs[j])
      invariant absorbed == head + SerializeInputs(t.inputs[..k])
    {
      var i := t.inputs[k];
      if |i.prevTxid| != 32 || !i.prevVout.Present? || !i.sequence.Present? || i.sequence.value != SEQUENCE_FINAL {
        return false, absorbed;
      }
      SerializeInputsStep(t.inputs, k);
      absorbed := absorbed + i.prevTxid;
      absorbed := absorbed + LE(i.prevVout.value, 4);
      absorbed := absorbed + [0];
      absorbed := absorbed + LE(i.sequence.value, 4);
      assert absorbed == head + SerializeInputs(t.inputs[..k]) + SerializeInput(i);
    }
    assert t.inputs[..|t.inputs|] == t.inputs;
    ok := true;
  }

  lemma EmptyInputs()
    ensures SerializeInputs([]) == []
  {
  }

  lemma EmptyOutputs()
    ensures SerializeOutputs([]) == []
  {
  }

  /** The outputs after what was hashed before them. */
  method AbsorbOutputs(t: Psbt, head: Bytes) returns (ok: bool, absorbed: Bytes)
    ensures ok <==> forall k :: 0 <= k < |t.outputs| ==> HashableOutput(t.outputs[k])
    ensures ok ==> ScriptsFit(t.outputs) && absorbed == head + Varint(|t.outputs|) + SerializeOutputs(t.outputs)
  {
    hide LE, Varint, SerializeOutputs;
    absorbed := head + Varint(|t.outputs|);
    ghost var start := absorbed;
    EmptyOutputs();
    assert t.outputs[..0] == [];
    var k := 0;
    while k < |t.outputs|
      invariant k <= |t.outputs|
      invariant forall j :: 0 <= j < k ==> HashableOutput(t.outputs[j])
      invariant ScriptsFit(t.outputs[..k])
      invariant absorbed == start + SerializeOutputs(t.outputs[..k])
    {
      var out := ReadOutput(t, k);
      if out.None? {
        return false, absorbed;
      }
      var o := t.outputs[k];
      assert t.outputs[..k + 1] == t.outputs[..k] + [o];
      ghost var upTo := t.outputs[..k + 1];
      SerializeOutputsStep(upTo, k);
      assert upTo[..k] == t.outputs[..k] && upTo[..k + 1] == upTo;
      absorbed := absorbed + LE(out.value.1, 8);
      absorbed := absorbed + Varint(34);
      absorbed := absorbed + out.value.0;
      assert absorbed == start + SerializeOutputs(t.outputs[..k]) + SerializeOutput(o);
      k := k + 1;
    }
    assert t.outputs[..|t.outputs|] == t.outputs;
    ok := true;
  }

  /** _compute_prepegin_txid, absorbing field by field. */
  method ComputePrePegInTxid(p: Platform, t: Psbt) returns (txid: Option<Bytes32>)
    ensures txid == PrePegInTxid(p, t)
  {
    hide LE, Varint, SerializeInputs, SerializeOutputs, HashableInput, HashableOutput;
    var okIn, head := AbsorbInputs(t);
    if !okIn {
      return None;
    }
    var okOut, body := AbsorbOutputs(t, head);
    if !okOut {
      return None;
    }
    var all := body + LE(t.locktime, 4);
    return Some(DoubleSha(p, all));
  }

  // ---------------------------------------------------------------------------------------------
  // Pre-PegIn

  predicate SighashDefaultOrAll(i: Input) {
    i.sighash == Absent || i.sighash == Present(SIGHASH_DEFAULT) || i.sighash == Present(SIGHASH_ALL)
  }

  predicate HashlocksSet(d: Device)
    requires d.intent.InRange()
  {
    forall g :: 0 <= g < d.intent.V() ==> d.ctx.hashlocks[g] != ZERO32
  }

  predicate InputsOk(t: Psbt) {
    && (forall k :: 0 <= k < |t.inputs| ==> k in t.internalInputs)
    && t.nativeSegwit
    && t.version >= 2 && t.locktime == 0
    && (forall k :: 0 <= k < |t.inputs| ==> SighashDefaultOrAll(t.inputs[k]))
  }

  /** What the output loop compares with, if the depositor address can be built. */
  function PolicyFor(p: Platform, d: Device, t: Psbt): Option<OutputPolicy> {
    var spk := Bip86Spk(p, d.intent.depositor);
    if spk.None? then None
    else
      Some(OutputPolicy(
        AuthAnchorSpk(d.ctx.authAnchor), spk.value,
        t.accountIsDefault && ChangePathOk(d.intent.scalars.path, p.coinType, t.purpose, t.account)))
  }

  predicate PrePegInFieldsOk(p: Platform, d: Device, t: Psbt)
    requires d.intent.InRange()
  {
    && HashlocksSet(d)
    && InputsOk(t)
    && HtlcOutputsOk(p, d.intent, d.ctx.hashlocks, t)
    && PolicyFor(p, d, t).Some? && OutputsOk(d.intent, PolicyFor(p, d, t).value, t)
    && t.outputsTotal <= t.inputsTotal
    && t.inputsTotal - t.outputsTotal <= d.intent.scalars.prePegInMaxFee
    && PrePegInTxid(p, t) == Some(d.intent.scalars.prePegInTxid)
  }

  /** _validate_prepegin: the slot is taken before the base app signs. */
  function ValidatePrePegIn(p: Platform, d: Device, t: Psbt): (r: (Device, bool))
    requires d.ctx.state == IntentLoaded ==> d.intent.InRange()
    ensures r.1 ==> r.0.ctx.state == d.ctx.state == IntentLoaded && r.0.intent == d.intent
  {
    if d.ctx.state != IntentLoaded || !PrePegInFieldsOk(p, d, t) then (d, false)
    else if d.ctx.prePegInSigned >= 1 then (Invalidate(d), false)
    else (d.(ctx := d.ctx.(prePegInSigned := d.ctx.prePegInSigned + 1)), true)
  }

  /** An accepted Pre-PegIn is the transaction the intent committed to: HTLCs first and in group order, each paying
      the script of its hashlock, at most three more outputs, and a fee, on the base app's totals, within the intent's
      bound. */
  lemma PrePegInMatchesIntent(p: Platform, d: Device, t: Psbt)
    requires d.ctx.state == IntentLoaded && d.intent.InRange() && VoutsAscending(d.intent)
    requires ValidatePrePegIn(p, d, t).1
    ensures Hashable(t)
    ensures ScriptsFit(t.outputs) && DoubleSha(p, Serialize(t)) == d.intent.scalars.prePegInTxid
    ensures forall g :: 0 <= g < d.intent.V() ==>
              && d.intent.groups[g].htlcVout as nat == g < |t.outputs|
              && HtlcOutputOk(p, d.intent, d.ctx.hashlocks, t, g)
    ensures d.intent.V() <= |t.outputs| <= d.intent.V() + 3
    ensures PolicyFor(p, d, t).Some? && TailOk(PolicyFor(p, d, t).value, t, d.intent.V(), |t.outputs|)
    ensures 0 <= t.inputsTotal - t.outputsTotal <= d.intent.scalars.prePegInMaxFee
    ensures OutputsAddUp(t) ==>
              OutputSum(t.outputs) <= t.inputsTotal <= OutputSum(t.outputs) + d.intent.scalars.prePegInMaxFee
  {
    hide Serialize, OutputsOk, HtlcOutputOk, TailOk, VoutsAscending, PolicyFor, InputsOk, HashlocksSet, Hashable;
    HashableScripts(t);
    AcceptedShape(p, d.intent, d.ctx.hashlocks, PolicyFor(p, d, t).value, t);
  }

  // ---------------------------------------------------------------------------------------------
  // PegIn

  /** _validate_pegin */
  function ValidatePegIn(p: Platform, d: Device, t: Psbt): (r: (Device, bool))
    requires d.ctx.state == IntentLoaded ==> d.intent.InRange()
  {
    if d.ctx.state != IntentLoaded then (d, false)
    else
      var g := PegInGroup(d.intent, t);
      if g.None? then (d, false)
      else
        var e := d.(ctx := d.ctx.(groupIndex := g.value as Byte));
        if !PegInFieldsOk(p, d.intent, g.value, d.ctx.hashlocks[g.value], t) then (e, false)
        else if BitAt(d.ctx.pegInMask, g.value) || d.ctx.pegInSigned >= d.intent.V() then (Invalidate(e), false)
        else (e, true)
  }
}
