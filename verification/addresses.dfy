/** Addresses, outputs and spent leaves read off the bytes of a transaction. */
module Addresses {
  import opened Octets
  import opened Intents
  import opened Platforms
  import opened Script
  import opened LeafStream
  import opened Taproot
  import opened Psbts
  import opened PrePegIn
  import opened Payout
  import opened Standalone
  import opened LeafDispatch
  import opened Flows
  import opened WireForms

  /** The internal key of BIP-341 that has no known private key. */
  function InternalKey(): Bytes32 {
    [0x50, 0x92, 0x9b, 0x74, 0xc1, 0xa0, 0x49, 0x54, 0xb7, 0x8b, 0x4b, 0x60, 0x35, 0xe9, 0x7a, 0x5e,
     0x07, 0x8a, 0x5a, 0x0f, 0x28, 0xec, 0x96, 0xd5, 0x47, 0xbf, 0xee, 0x9a, 0xce, 0x80, 0x3a, 0xc0]
  }

  lemma SameKey()
    ensures InternalKey() == NUMS
  {
  }

  /** Branch hash with the numerically smaller child first. */
  function Branched(p: Platform, a: Bytes32, b: Bytes32): Bytes32 {
    if FromBE(a) <= FromBE(b) then p.tapBranch(a + b) else p.tapBranch(b + a)
  }

  lemma BranchedIs(p: Platform, a: Bytes32, b: Bytes32)
    ensures Branched(p, a, b) == Combine(p, a, b)
  {
    if FromBE(a) <= FromBE(b) {
      SmallerChildFirst(p, a, b);
    } else {
      SmallerChildFirst(p, b, a);
    }
  }

  /** The tree behind an HTLC output: leaf 0 and leaf 1. */
  function HtlcRoot(p: Platform, i: Intent, g: nat, h: Bytes32): Bytes32
    requires i.InRange() && g < i.V()
  {
    LeafLengths(i, g, h);
    Branched(p, LeafHash(p, HtlcLeaf0(i, g, h)), LeafHash(p, HtlcLeaf1(i)))
  }

  lemma RootOfPair(p: Platform, a: Bytes32, b: Bytes32)
    ensures Root(p, Branch(Leaf(a), Leaf(b))) == Combine(p, a, b)
  {
  }

  lemma HtlcRootIs(p: Platform, i: Intent, g: nat, h: Bytes32)
    requires i.InRange() && g < i.V()
    ensures HtlcRoot(p, i, g, h) == HtlcMerkleRoot(p, i, g, h)
  {
    hide Branched, LeafHash, HtlcLeaf0, HtlcLeaf1, Combine, Root;
    LeafLengths(i, g, h);
    BranchedIs(p, LeafHash(p, HtlcLeaf0(i, g, h)), LeafHash(p, HtlcLeaf1(i)));
    RootOfPair(p, LeafHash(p, HtlcLeaf0(i, g, h)), LeafHash(p, HtlcLeaf1(i)));
  }

  /** Output k holds this amount under this script. */
  predicate Holds(t: Psbt, k: nat, amount: U64, script: Bytes) {
    k < |t.outputs| && t.outputs[k].amount == Some(amount) && t.outputs[k].scriptPubKey == Some(script)
  }

  lemma HoldsReads(t: Psbt, k: nat, amount: U64, script: Bytes)
    requires |script| == 34
    ensures Holds(t, k, amount, script) <==> ReadOutput(t, k) == Some((script, amount))
  {
    if Holds(t, k, amount, script) {
      assert t.outputs[k].Script() == script;
    }
  }

  /** Output k holds this amount under the taproot output of the internal key and this root. */
  predicate HoldsRoot(p: Platform, t: Psbt, k: nat, amount: U64, root: Bytes32) {
    p.tweak(InternalKey(), root).Some? && Holds(t, k, amount, [0x51, 0x20] + p.tweak(InternalKey(), root).value.1)
  }

  lemma RootReads(p: Platform, t: Psbt, k: nat, amount: U64, root: Bytes32)
    ensures HoldsRoot(p, t, k, amount, root) <==>
              TweakedSpk(p, root).Some? && ReadOutput(t, k) == Some((TweakedSpk(p, root).value, amount))
  {
    hide ReadOutput;
    assert InternalKey() == NUMS;
    if p.tweak(NUMS, root).Some? {
      HoldsReads(t, k, amount, [0x51, 0x20] + p.tweak(NUMS, root).value.1);
    }
  }

  /** The WITNESS_UTXO is this value under the taproot output with this key. */
  predicate UtxoIs(input: Input, value: U64, key: Bytes32) {
    && |input.witnessUtxo| == 43 && FromLE(input.witnessUtxo[..8]) == value
    && input.witnessUtxo[8..] == [34, 0x51, 0x20] + key
  }

  lemma HeadAndTail(a: Byte, s: Bytes, b: Byte, r: Bytes)
    ensures [a] + s == [b] + r <==> a == b && s == r
  {
    assert ([a] + s)[0] == a && ([b] + r)[0] == b;
    assert ([a] + s)[1..] == s && ([b] + r)[1..] == r;
  }

  lemma UtxoIsRead(input: Input, value: U64, key: Bytes32)
    ensures UtxoIs(input, value, key) <==> ReadWitnessUtxo(input) == Some((value, P2tr(key)))
  {
    hide FromLE;
    var u := input.witnessUtxo;
    if |u| == 43 {
      assert u[8..] == [u[8]] + u[9..];
      assert [34, 0x51, 0x20] + key == [34] + P2tr(key);
      HeadAndTail(u[8], u[9..], 34, P2tr(key));
    }
  }

  lemma UtxoSplits(value: U64, key: Bytes32)
    ensures var u := LE(value, 8) + ([34, 0x51, 0x20] + key);
            |u| == 43 && FromLE(u[..8]) == value && u[8..] == [34, 0x51, 0x20] + key
  {
    hide LE, FromLE;
    Pow256Values();
    LEDecodes(value, 8);
    assert (LE(value, 8) + ([34, 0x51, 0x20] + key))[..8] == LE(value, 8);
  }

  lemma OneSibling(p: Platform, parity: Parity, h: Bytes32)
    ensures ControlBlock(parity, [h]) == [0xC0 + parity] + InternalKey() + h
  {
    assert [h][..0] == [];
    assert Concat32([h]) == Concat32([]) + h;
    assert Concat32([]) == [];
  }

  lemma NoSibling(parity: Parity)
    ensures ControlBlock(parity, []) == [0xC0 + parity] + InternalKey()
  {
    assert Concat32([]) == [];
  }

  lemma PaysOwn(p: Platform, t: Psbt, k: nat, key: Bytes32)
    ensures Pays(p, t, k, key) <==> OwnOutput(p, t, k, key)
    ensures Pays(p, t, k, key) ==> ReadOutput(t, k) == Some((Bip86Spk(p, key).value, t.outputs[k].amount.value))
  {
  }

  lemma OwnIs(p: Platform, t: Psbt, k: nat, key: Bytes32)
    ensures OwnOutput(p, t, k, key) <==> ReadOutput(t, k).Some? && Bip86Spk(p, key) == Some(ReadOutput(t, k).value.0)
  {
  }

  lemma ReadHas(p: Platform, t: Psbt, k: nat)
    ensures ReadOutput(t, k).Some? ==> k < |t.outputs| && t.outputs[k].amount == Some(ReadOutput(t, k).value.1)
    ensures forall key: Bytes32 :: Pays(p, t, k, key) ==> k < |t.outputs| && t.outputs[k].amount.Some?
  {
  }

  /** A leaf short enough for the buffer is read as s, and committed to, exactly if the input spends s. */
  lemma SpendsReads(p: Platform, i: Intent, input: Input, s: Bytes, value: U64)
    requires i.InRange() && 1 <= |s| <= 2560
    ensures Spends(p, input, s, value) <==>
              && LeafOf(true, i, input).Some? && LeafOf(true, i, input).value.1.buffered == Some(s)
              && LeafCommitted(p, LeafOf(true, i, input).value, input) && ReadWitnessUtxo(input).value.0 == value
  {
    hide LeafOf, Commits, LeafPreimage, FromLE;
    if |input.leaves| == 1 && |input.leaves[0].0| <= 257 {
      OneLeafReads(true, i, input, input.leaves[0].0, s);
      assert input.leaves == [input.leaves[0]];
    } else if LeafOf(true, i, input).Some? {
      LeafOfControlBlock(i, input);
    }
    if LeafOf(true, i, input).Some? && LeafOf(true, i, input).value.1.buffered.Some? {
      BufferedLast(true, i, input);
      LeafOfControlBlock(i, input);
    }
  }

  /** Where the rate is in range, the connector holds between the dust limit and what 500 vbytes cost beyond it. */
  lemma ConnectorValueMeans(rate: U64, value: U64)
    requires 1 <= rate <= 10000
    ensures ConnectorValueOk(rate, value) <==> 546 <= value <= 546 + 500 * rate
  {
    DivisionGuard(rate, 500);
  }

  lemma RateTimes(rate: nat, vsize: nat)
    requires rate <= 10000 && vsize <= 10000
    ensures rate * vsize <= 1_0000_0000
  {
    MulMono(rate, 10000, vsize);
  }

  lemma FeeMeans(rate: U64, vsize: nat, fee: U64)
    requires 1 <= rate <= 10000 && vsize <= 10000
    ensures WithinFee(rate, vsize, fee) <==> fee <= rate * vsize
  {
    RateTimes(rate, vsize);
    WithinFeeMeans(rate, vsize, fee);
  }
}
