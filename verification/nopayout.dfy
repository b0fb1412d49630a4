/** The NoPayout: the depositor's Assert:0 connector goes to the challenger its leaf names. */
module NoPayout {
  import opened Octets
  import opened Intents
  import opened Platforms
  import opened Script
  import opened LeafStream
  import opened Psbts
  import opened PrePegIn
  import opened Payout
  import opened Session
  import opened Loading
  import opened LoadingLemmas
  import opened LeafParsers

  const NOPAYOUT_VSIZE: nat := 450

  /** The first keeper or challenger from j on with this key, in load order. */
  function ChallengerFrom(i: Intent, key: Bytes32, j: nat): (r: Option<nat>)
    requires i.InRange() && j <= i.N() + i.M()
    ensures r.Some? ==> j <= r.value < i.N() + i.M() && KeyAt(i, r.value) == key
    ensures r.None? ==> forall k :: j <= k < i.N() + i.M() ==> KeyAt(i, k) != key
    decreases i.N() + i.M() - j
  {
    if j == i.N() + i.M() then None
    else if KeyAt(i, j) == key then Some(j)
    else ChallengerFrom(i, key, j + 1)
  }

  /** The challenger whose NoPayout leaf this is: shape, depositor key, then a key search. */
  function DetectChallenger(i: Intent, leaf: Bytes): (r: Option<nat>)
    requires i.InRange()
    ensures r.Some? ==> r.value < i.N() + i.M()
  {
    if |leaf| != NOPAYOUT_LEAF_LEN || leaf[0] != OP_PUSHBYTES_32 || leaf[33] != OP_CHECKSIGVERIFY
       || leaf[34] != OP_PUSHBYTES_32 || leaf[67] != OP_CHECKSIG || leaf[1..33] != i.depositor then None
    else ChallengerFrom(i, leaf[35..67], 0)
  }

  /** The two search loops of the validator. */
  method FindChallenger(i: Intent, key: Bytes32) returns (idx: int)
    requires i.InRange()
    ensures idx == (if ChallengerFrom(i, key, 0).Some? then ChallengerFrom(i, key, 0).value else -1)
  {
    idx := -1;
    var k := 0;
    while k < i.N() && idx < 0
      invariant k <= i.N()
      invariant idx == -1 ==> ChallengerFrom(i, key, 0) == ChallengerFrom(i, key, k)
      invariant idx != -1 ==> idx >= 0 && ChallengerFrom(i, key, 0) == Some(idx)
    {
      if i.keeperPks[k] == key {
        idx := k;
      }
      k := k + 1;
    }
    k := 0;
    while k < i.M() && idx < 0
      invariant k <= i.M()
      invariant idx == -1 ==> ChallengerFrom(i, key, 0) == ChallengerFrom(i, key, i.N() + k)
      invariant idx != -1 ==> idx >= 0 && ChallengerFrom(i, key, 0) == Some(idx)
    {
      if i.challengerPks[k] == key {
        idx := i.N() + k;
      }
      k := k + 1;
    }
  }

  /** No key is loaded twice, as keeper or challenger. */
  lemma LoadedKeysDistinct(i: Intent, j: nat, k: nat)
    requires i.InRange() && RolesDisjoint(i) && j < i.N() + i.M() && k < i.N() + i.M() && KeyAt(i, j) == KeyAt(i, k)
    ensures j == k
  {
    hide Ascending, Less;
    if j < i.N() && k < i.N() {
      assert i.Keepers()[j] == i.Keepers()[k];
      AscendingDistinct(i.Keepers(), j, k);
    } else if j >= i.N() && k >= i.N() {
      assert i.Challengers()[j - i.N()] == i.Challengers()[k - i.N()];
      AscendingDistinct(i.Challengers(), j - i.N(), k - i.N());
    }
  }

  /** The leaf names challenger j exactly when it is the NoPayout leaf built for challenger j. */
  lemma DetectsChallengerExactly(i: Intent, leaf: Bytes, j: nat)
    requires i.InRange() && RolesDisjoint(i)
    ensures DetectChallenger(i, leaf) == Some(j) <==>
              j < i.N() + i.M() && leaf == NoPayoutLeaf(i, KeyAt(i, j))
  {
    hide RolesDisjoint, KeyAt;
    if DetectChallenger(i, leaf) == Some(j) {
      var key := leaf[35..67];
      assert leaf == [leaf[0]] + leaf[1..33] + [leaf[33]] + ([leaf[34]] + leaf[35..67] + [leaf[67]]);
    }
    if j < i.N() + i.M() && leaf == NoPayoutLeaf(i, KeyAt(i, j)) {
      var key := KeyAt(i, j);
      assert leaf[..34] == KeyOp(i.depositor, OP_CHECKSIGVERIFY) && leaf[34..] == KeyOp(key, OP_CHECKSIG);
      assert leaf[1..33] == leaf[..34][1..33] && leaf[35..67] == leaf[34..][1..33];
      assert leaf[0] == leaf[..34][0] && leaf[33] == leaf[..34][33] && leaf[34] == leaf[34..][0] && leaf[67] == leaf[34..][33];
      LoadedKeysDistinct(i, j, ChallengerFrom(i, key, 0).value);
    }
  }

  /** Everything checked after the cap. */
  predicate NoPayoutFieldsOk(p: Platform, i: Intent, j: nat, leaf: Bytes, read: (Bytes, LeafFacts), t: Psbt)
    requires Ready(i) && j < i.N() + i.M() && |t.inputs| == 3
  {
    && leaf == NoPayoutLeaf(i, KeyAt(i, j))
    && SighashDefault(t.inputs[0])
    && LeafCommitted(p, read, t.inputs[0])
    && ConnectorValueOk(i.scalars.baseFeeRate, ReadWitnessUtxo(t.inputs[0]).value.0)
    && t.inputs[0].prevVout == Present(0)
    && ReadOutput(t, 0).Some? && Bip86Spk(p, KeyAt(i, j)) == Some(ReadOutput(t, 0).value.0)
    && t.inputsTotal >= t.outputsTotal
    && ReadOutput(t, 0).value.1 >= DUST_LIMIT
    && WithinFee(i.scalars.baseFeeRate, NOPAYOUT_VSIZE, t.inputsTotal - t.outputsTotal)
  }

  function NoPayoutCap(i: Intent): nat {
    i.V() * (i.N() + i.M())
  }

  /** _validate_nopayout */
  function ValidateNoPayout(p: Platform, d: Device, t: Psbt): (r: (Device, bool))
    requires d.ctx.state == IntentLoaded ==> Ready(d.intent)
  {
    if d.ctx.state != IntentLoaded || t.version < 2 || t.locktime != 0 || |t.inputs| != 3 || |t.outputs| != 1 then (d, false)
    else
      var read := LeafOf(true, d.intent, t.inputs[0]);
      if read.None? || read.value.1.buffered.None? then (d, false)
      else
        var leaf := read.value.1.buffered.value;
        var j := DetectChallenger(d.intent, leaf);
        if j.None? then (d, false)
        else if d.ctx.noPayoutSigned >= NoPayoutCap(d.intent) then (Invalidate(d), false)
        else if !NoPayoutFieldsOk(p, d.intent, j.value, leaf, read.value, t) then (d, false)
        else (d.(ctx := d.ctx.(noPayoutChallenger := j.value as Byte)), true)
  }

  lemma OneOutputSum(outputs: seq<Output>)
    requires |outputs| == 1 && outputs[0].amount.Some?
    ensures OutputSum(outputs) == outputs[0].amount.value
  {
    assert outputs[..0] == [];
  }

  /** An accepted NoPayout spends the leaf of one approved challenger and pays that challenger's own address. The fee bound is
      on the base app's totals; where its output total is the sum of the outputs, all of the inputs but the bound go to the
      challenger. */
  lemma NoPayoutPaysChallenger(p: Platform, d: Device, t: Psbt)
    requires d.ctx.state == IntentLoaded && Ready(d.intent) && RolesDisjoint(d.intent)
    requires ValidateNoPayout(p, d, t).1
    ensures |t.inputs| == 3 && |t.outputs| == 1 && t.outputs[0].amount.Some?
    ensures exists j :: 0 <= j < d.intent.N() + d.intent.M()
              && ValidateNoPayout(p, d, t).0.ctx.noPayoutChallenger as nat == j
              && LeafOf(true, d.intent, t.inputs[0]).Some?
              && LeafOf(true, d.intent, t.inputs[0]).value.1.buffered == Some(NoPayoutLeaf(d.intent, KeyAt(d.intent, j)))
              && t.outputs[0].scriptPubKey == Bip86Spk(p, KeyAt(d.intent, j))
    ensures t.outputs[0].amount.value >= DUST_LIMIT
    ensures t.outputsTotal <= t.inputsTotal <= t.outputsTotal + d.intent.scalars.baseFeeRate * NOPAYOUT_VSIZE
    ensures OutputsAddUp(t) ==>
              && t.outputs[0].amount.value <= t.inputsTotal
              && t.inputsTotal <= t.outputs[0].amount.value + d.intent.scalars.baseFeeRate * NOPAYOUT_VSIZE
  {
    hide RolesDisjoint, LeafCommitted, ConnectorValueOk, Bip86Spk, NoPayoutLeaf, LeafOf, DetectChallenger, WithinFee, KeyAt;
    var read := LeafOf(true, d.intent, t.inputs[0]).value;
    var j := DetectChallenger(d.intent, read.1.buffered.value).value;
    assert NoPayoutFieldsOk(p, d.intent, j, read.1.buffered.value, read, t);
    OneOutputSum(t.outputs);
    WithinFeeMeans(d.intent.scalars.baseFeeRate, NOPAYOUT_VSIZE, t.inputsTotal - t.outputsTotal);
    assert 0 <= j < d.intent.N() + d.intent.M() && ValidateNoPayout(p, d, t).0.ctx.noPayoutChallenger as nat == j;
  }
}
