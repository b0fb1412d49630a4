/** The PegIn: its 150-byte serialization, and the validator that pins a PSBT to it. */
module PegIn {
  import opened Octets
  import opened Intents
  import opened Platforms
  import opened Script
  import opened LeafStream
  import opened Taproot
  import opened Psbts

  const PEGIN_VERSION: U32 := 3
  const PEGIN_SEQUENCE: U32 := 0xFFFF_FFFE
  const P2A_VALUE: U64 := 240
  const P2A_SCRIPT: Bytes := [0x51, 0x02, 0x4E, 0x73]
  const PEGIN_TX_SIZE: nat := 150

  /** value scriptLen script */
  function TxOut(value: U64, script: Bytes): (s: Bytes)
    requires |script| < 0xFD
    ensures |s| == 9 + |script|
  {
    LE(value, 8) + [|script| as Byte] + script
  }

  /** The serialization vault_compute_pegin_txid hashes, if the output keys can be built. */
  function PegInTx(p: Platform, i: Intent, g: nat): (tx: Option<Bytes>)
    requires i.InRange() && g < i.V()
    ensures tx.Some? ==> |tx.value| == PEGIN_TX_SIZE
  {
    var vault, claim := VaultUtxoSpk(p, i, g), ClaimSpk(p, i);
    if vault.None? || claim.None? then None
    else Some(
      LE(PEGIN_VERSION, 4) + [1] + i.scalars.prePegInTxid + LE(i.groups[g].htlcVout as nat, 4) + [0]
      + LE(PEGIN_SEQUENCE, 4) + [3]
      + TxOut(i.groups[g].amount, vault.value)
      + TxOut(i.groups[g].claimValue, claim.value)
      + TxOut(P2A_VALUE, P2A_SCRIPT)
      + LE(0, 4))
  }

  function DoubleSha(p: Platform, s: Bytes): Bytes32 {
    p.sha256(p.sha256(s))
  }

  /** vault_compute_pegin_txid */
  function PegInTxid(p: Platform, i: Intent, g: nat): Option<Bytes32>
    requires i.InRange() && g < i.V()
  {
    var tx := PegInTx(p, i, g);
    if tx.None? then None else Some(DoubleSha(p, tx.value))
  }

  /** Little-endian bytes of a field, written one at a time. */
  method PutLE(v: nat, n: nat, tx: array<Byte>, off: nat)
    requires off + n <= tx.Length
    modifies tx
    ensures tx[..] == Splice(old(tx[..]), off, LE(v, n))
  {
    var rest := v;
    for k := 0 to n
      invariant tx[..off] == old(tx[..off]) && tx[off + k..] == old(tx[off + k..])
      invariant tx[off..off + k] == LE(v, n)[..k]
      invariant forall j: nat :: Digit(rest, j) == Digit(v, k + j)
    {
      assert Digit(rest, 0) == Digit(v, k + 0);
      tx[off + k] := (rest % 256) as Byte;
      forall j: nat ensures Digit(rest / 256, j) == Digit(v, k + 1 + j) {
        assert Digit(rest, j + 1) == Digit(v, k + (j + 1));
      }
      rest := rest / 256;
    }
    assert LE(v, n)[..n] == LE(v, n);
  }

  /** vault_compute_pegin_txid: fill the 150-byte buffer, then hash it twice. */
  method ComputePegInTxid(p: Platform, i: Intent, g: nat) returns (txid: Option<Bytes32>)
    requires i.InRange() && g < i.V()
    ensures txid == PegInTxid(p, i, g)
  {
    hide LE, Splice, VaultUtxoSpk, ClaimSpk;
    var vault, claim := VaultUtxoSpk(p, i, g), ClaimSpk(p, i);
    if vault.None? || claim.None? {
      return None;
    }
    var tx := new Byte[PEGIN_TX_SIZE](k => 0);
    ghost var zeros := tx[..];
    PutLE(PEGIN_VERSION, 4, tx, 0);
    ghost var done := LE(PEGIN_VERSION, 4);
    PutAfter(tx, zeros, 0, done, 4, [1]);
    done := done + [1];
    PutAfter(tx, zeros, 0, done, 5, i.scalars.prePegInTxid);
    done := done + i.scalars.prePegInTxid;
    PutLE(i.groups[g].htlcVout as nat, 4, tx, 37);
    SpliceSplice(zeros, 0, done, LE(i.groups[g].htlcVout as nat, 4));
    done := done + LE(i.groups[g].htlcVout as nat, 4);
    PutAfter(tx, zeros, 0, done, 41, [0]);
    done := done + [0];
    PutLE(PEGIN_SEQUENCE, 4, tx, 42);
    SpliceSplice(zeros, 0, done, LE(PEGIN_SEQUENCE, 4));
    done := done + LE(PEGIN_SEQUENCE, 4);
    PutAfter(tx, zeros, 0, done, 46, [3]);
    done := done + [3];
    PutTxOut(i.groups[g].amount, vault.value, tx, zeros, done, 47);
    done := done + TxOut(i.groups[g].amount, vault.value);
    PutTxOut(i.groups[g].claimValue, claim.value, tx, zeros, done, 90);
    done := done + TxOut(i.groups[g].claimValue, claim.value);
    PutTxOut(P2A_VALUE, P2A_SCRIPT, tx, zeros, done, 133);
    done := done + TxOut(P2A_VALUE, P2A_SCRIPT);
    PutLE(0, 4, tx, 146);
    SpliceSplice(zeros, 0, done, LE(0, 4));
    done := done + LE(0, 4);
    SpliceAll(zeros, done);
    return Some(DoubleSha(p, tx[..]));
  }

  lemma SpliceAll(b: Bytes, s: Bytes)
    requires |s| == |b|
    ensures Splice(b, 0, s) == s
  {
  }

  method PutTxOut(value: U64, script: Bytes, tx: array<Byte>, ghost zeros: Bytes, ghost done: Bytes, off: nat)
    requires |script| < 0xFD && off == |done| && off + 9 + |script| <= |zeros| && tx[..] == Splice(zeros, 0, done)
    modifies tx
    ensures tx[..] == Splice(zeros, 0, done + TxOut(value, script))
  {
    hide LE, Splice;
    PutLE(value, 8, tx, off);
    SpliceSplice(zeros, 0, done, LE(value, 8));
    PutAfter(tx, zeros, 0, done + LE(value, 8), off + 8, [|script| as Byte]);
    PutAfter(tx, zeros, 0, done + LE(value, 8) + [|script| as Byte], off + 9, script);
    assert done + LE(value, 8) + [|script| as Byte] + script == done + TxOut(value, script);
  }

  // ---------------------------------------------------------------------------------------------
  // The validator

  /** The first group from g on whose HTLC is output vout. */
  function GroupByVout(i: Intent, vout: U32, g: nat): (r: Option<nat>)
    requires i.InRange() && g <= i.V()
    ensures r.Some? ==> g <= r.value < i.V() && i.groups[r.value].htlcVout as nat == vout
    ensures r.None? ==> forall k :: g <= k < i.V() ==> i.groups[k].htlcVout as nat != vout
    decreases i.V() - g
  {
    if g == i.V() then None
    else if i.groups[g].htlcVout as nat == vout then Some(g)
    else GroupByVout(i, vout, g + 1)
  }

  /** The detection loop; an index above 255 is refused before the narrowing cast. */
  method DetectGroup(i: Intent, vout: U32) returns (r: Option<nat>)
    requires i.InRange()
    ensures r == GroupByVout(i, vout, 0)
  {
    if vout > 0xFF {
      return None;
    }
    var g := 0;
    while g < i.V()
      invariant g <= i.V() && GroupByVout(i, vout, 0) == GroupByVout(i, vout, g)
    {
      if i.groups[g].htlcVout == vout as Byte {
        return Some(g);
      }
      g := g + 1;
    }
    return None;
  }

  /** The fee check of the PegIn, in wrapping arithmetic: what the HTLC holds beyond the three outputs is at most the
      fee cap. */
  predicate PegInValueOk(grp: Group, htlcValue: U64) {
    var sum := Wrap64(grp.amount + grp.claimValue);
    && sum >= grp.amount
    && var all := Wrap64(sum + P2A_VALUE);
       all >= P2A_VALUE && htlcValue >= all && htlcValue - all <= grp.pegInMaxFee
  }

  /** The wrapping checks say exactly that the outputs fit and leave a fee between zero and the cap. */
  lemma PegInValueMeans(grp: Group, htlcValue: U64)
    ensures PegInValueOk(grp, htlcValue) <==>
              var outputs := grp.amount + grp.claimValue + P2A_VALUE;
              outputs <= U64_MAX && outputs <= htlcValue <= outputs + grp.pegInMaxFee
  {
  }

  /** The TAP_LEAF_SCRIPT entry of HTLC leaf 0 is present and holds exactly that leaf. */
  predicate Leaf0Present(p: Platform, i: Intent, g: nat, h: Bytes32, input: Input, spk: Bytes)
    requires i.InRange() && g < i.V()
  {
    var t := HtlcTree(p, i, g, h);
    var out := p.tweak(NUMS, Root(p, t));
    && out.Some? && spk == P2tr(out.value.1)
    && var key := ControlBlock(out.value.0, [t.right.hash]);
       Lookup(input.leaves, key) == Some(HtlcLeaf0(i, g, h) + [LEAF_VERSION])
  }

  /** _pegin_validate_input */
  predicate PegInInputOk(p: Platform, i: Intent, g: nat, h: Bytes32, input: Input)
    requires i.InRange() && g < i.V()
  {
    && input.prevTxid == i.scalars.prePegInTxid
    && input.prevVout == Present(i.groups[g].htlcVout as int)
    && input.sequence == Present(PEGIN_SEQUENCE)
    && SighashDefault(input)
    && ReadWitnessUtxo(input).Some?
    && input.internalKey == NUMS
    && input.merkleRoot == HtlcMerkleRoot(p, i, g, h)
    && Leaf0Present(p, i, g, h, input, ReadWitnessUtxo(input).value.1)
  }

  /** _pegin_validate_outputs */
  predicate PegInOutputsOk(p: Platform, i: Intent, g: nat, t: Psbt, htlcValue: U64)
    requires i.InRange() && g < i.V() && |t.outputs| == 3
  {
    && VaultUtxoSpk(p, i, g).Some? && ReadOutput(t, 0) == Some((VaultUtxoSpk(p, i, g).value, i.groups[g].amount))
    && ClaimSpk(p, i).Some? && ReadOutput(t, 1) == Some((ClaimSpk(p, i).value, i.groups[g].claimValue))
    && t.outputs[2].amount == Some(P2A_VALUE) && t.outputs[2].Script() == P2A_SCRIPT
    && PegInValueOk(i.groups[g], htlcValue)
  }

  /** Version, shape and the group the input names. */
  function PegInGroup(i: Intent, t: Psbt): (r: Option<nat>)
    requires i.InRange()
    ensures r.Some? ==> r.value < i.V() && |t.inputs| == 1 && |t.outputs| == 3 &&
                        t.version == PEGIN_VERSION && t.locktime == 0
  {
    if t.version != PEGIN_VERSION || t.locktime != 0 || |t.inputs| != 1 || |t.outputs| != 3 then None
    else if !t.inputs[0].prevVout.Present? then None
    else GroupByVout(i, t.inputs[0].prevVout.value, 0)
  }

  predicate PegInFieldsOk(p: Platform, i: Intent, g: nat, h: Bytes32, t: Psbt)
    requires i.InRange() && g < i.V() && |t.inputs| == 1 && |t.outputs| == 3
  {
    && PegInInputOk(p, i, g, h, t.inputs[0])
    && PegInOutputsOk(p, i, g, t, ReadWitnessUtxo(t.inputs[0]).value.0)
  }

  /** Any PSBT the PegIn validator accepts for group g serializes, byte for byte, to the buffer the
      txid of group g is computed from. */
  lemma AcceptedPegInSerializes(p: Platform, i: Intent, g: nat, h: Bytes32, t: Psbt)
    requires i.InRange() && PegInGroup(i, t) == Some(g) && PegInFieldsOk(p, i, g, h, t)
    ensures forall o :: o in t.outputs ==> |o.Script()| < 0x1_0000_0000
    ensures PegInTx(p, i, g) == Some(Serialize(t))
  {
    hide LE, VaultUtxoSpk, ClaimSpk, Leaf0Present, HtlcMerkleRoot, PegInValueOk;
    var input := t.inputs[0];
    var o0, o1, o2 := t.outputs[0], t.outputs[1], t.outputs[2];
    assert t.inputs[1..] == [] && t.outputs == [o0, o1, o2];
    forall o | o in t.outputs ensures |o.Script()| < 0xFD {
      assert o == o0 || o == o1 || o == o2;
    }
    assert SerializeInputs(t.inputs) == SerializeInput(input) + SerializeInputs([]);
    OutputsOfThree(o0, o1, o2);
    assert SerializeOutput(o0) == TxOut(i.groups[g].amount, VaultUtxoSpk(p, i, g).value);
    assert SerializeOutput(o1) == TxOut(i.groups[g].claimValue, ClaimSpk(p, i).value);
    assert SerializeOutput(o2) == TxOut(P2A_VALUE, P2A_SCRIPT);
    var head := LE(PEGIN_VERSION, 4) + [1];
    assert Serialize(t) == head + SerializeInput(input) + [3]
        + (SerializeOutput(o0) + SerializeOutput(o1) + SerializeOutput(o2)) + LE(0, 4);
    assert PegInTx(p, i, g).value == Serialize(t);
  }

  lemma OutputsOfThree(o0: Output, o1: Output, o2: Output)
    requires |o0.Script()| < 0xFD && |o1.Script()| < 0xFD && |o2.Script()| < 0xFD
    ensures SerializeOutputs([o0, o1, o2]) == SerializeOutput(o0) + SerializeOutput(o1) + SerializeOutput(o2)
  {
    hide SerializeOutput;
    assert [o0, o1, o2][1..] == [o1, o2] && [o1, o2][1..] == [o2] && [o2][1..] == [];
    assert SerializeOutputs([o2]) == SerializeOutput(o2) + SerializeOutputs([]);
  }

  /** Groups with different outputs have different serializations: they differ in the prevout index. */
  lemma PegInTxsDiffer(p: Platform, i: Intent, g: nat, k: nat)
    requires i.InRange() && g < i.V() && k < i.V() && i.groups[g].htlcVout != i.groups[k].htlcVout
    requires PegInTx(p, i, g).Some? && PegInTx(p, i, k).Some?
    ensures PegInTx(p, i, g) != PegInTx(p, i, k)
  {
    VoutBytes(p, i, g);
    VoutBytes(p, i, k);
    Pow256Values();
    LEDecodes(i.groups[g].htlcVout as nat, 4);
    LEDecodes(i.groups[k].htlcVout as nat, 4);
  }

  lemma VoutBytes(p: Platform, i: Intent, g: nat)
    requires i.InRange() && g < i.V() && PegInTx(p, i, g).Some?
    ensures PegInTx(p, i, g).value[37..41] == LE(i.groups[g].htlcVout as nat, 4)
  {
    hide LE, VaultUtxoSpk, ClaimSpk;
    var vault, claim := VaultUtxoSpk(p, i, g), ClaimSpk(p, i);
    var head := LE(PEGIN_VERSION, 4) + [1] + i.scalars.prePegInTxid;
    var tail := [0] + LE(PEGIN_SEQUENCE, 4) + [3] + TxOut(i.groups[g].amount, vault.value)
      + TxOut(i.groups[g].claimValue, claim.value) + TxOut(P2A_VALUE, P2A_SCRIPT) + LE(0, 4);
    assert PegInTx(p, i, g).value == head + LE(i.groups[g].htlcVout as nat, 4) + tail;
    Middle(head, LE(i.groups[g].htlcVout as nat, 4), tail);
  }

  /** The first group from g on whose PegIn has this txid. */
  function GroupByTxid(p: Platform, i: Intent, txid: Bytes, g: nat): (r: Option<nat>)
    requires i.InRange() && g <= i.V()
    ensures r.Some? ==> g <= r.value < i.V() && PegInTxid(p, i, r.value).Some? && PegInTxid(p, i, r.value).value == txid
    ensures r.None? ==> forall k :: g <= k < i.V() && PegInTxid(p, i, k).Some? ==> PegInTxid(p, i, k).value != txid
    decreases i.V() - g
  {
    hide PegInTx;
    if g == i.V() then None
    else if PegInTxid(p, i, g).Some? && PegInTxid(p, i, g).value == txid then Some(g)
    else GroupByTxid(p, i, txid, g + 1)
  }

  method ResolveGroup(p: Platform, i: Intent, txid: Bytes) returns (r: Option<nat>)
    requires i.InRange()
    ensures r == GroupByTxid(p, i, txid, 0)
  {
    hide PegInTxid;
    var g := 0;
    while g < i.V()
      invariant g <= i.V() && GroupByTxid(p, i, txid, 0) == GroupByTxid(p, i, txid, g)
    {
      var computed := ComputePegInTxid(p, i, g);
      if computed.Some? && computed.value == txid {
        return Some(g);
      }
      g := g + 1;
    }
    return None;
  }

  /** A Payout that spends an accepted PegIn resolves to the PegIn's own group, or to another group of the intent whose
      150-byte buffer is different and has the same double hash. */
  lemma PayoutResolvesToPegInGroup(p: Platform, i: Intent, g: nat, h: Bytes32, t: Psbt, txid: Bytes)
    requires i.InRange() && PegInGroup(i, t) == Some(g) && PegInFieldsOk(p, i, g, h, t)
    requires forall j, k :: 0 <= j < k < i.V() ==> i.groups[j].htlcVout < i.groups[k].htlcVout
    requires forall o :: o in t.outputs ==> |o.Script()| < 0x1_0000_0000
    requires txid == DoubleSha(p, Serialize(t))
    ensures GroupByTxid(p, i, txid, 0).Some?
    ensures var r := GroupByTxid(p, i, txid, 0).value;
            || r == g
            || (&& PegInTx(p, i, r).Some? && PegInTx(p, i, g) == Some(Serialize(t))
                && PegInTx(p, i, r).value != PegInTx(p, i, g).value
                && DoubleSha(p, PegInTx(p, i, r).value) == DoubleSha(p, PegInTx(p, i, g).value))
  {
    hide PegInTx, PegInFieldsOk, Serialize;
    AcceptedPegInSerializes(p, i, g, h, t);
    assert PegInTxid(p, i, g) == Some(txid);
    var r := GroupByTxid(p, i, txid, 0);
    if r.value != g {
      PegInTxsDiffer(p, i, g, r.value);
    }
  }
}
