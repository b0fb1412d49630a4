/** The sorted challenger list, and the lazily described Assert prefix. */
module ScriptTheorems {
  import opened Octets
  import opened Intents
  import opened Script

  // ---------------------------------------------------------------------------------------------
  // App challengers

  lemma {:induction false} InsertSortedKeeps(key: Bytes32, keys: seq<Bytes32>)
    requires Ascending(keys) && key !in keys
    ensures Ascending(InsertSorted(key, keys))
    ensures forall k :: k in InsertSorted(key, keys) <==> k == key || k in keys
  {
    hide Less;
    if keys != [] {
      LessTotal(key, keys[0]);
      assert forall k :: k in keys <==> k == keys[0] || k in keys[1..];
      if Less(key, keys[0]) {
        PrependAscending(key, keys);
      } else {
        InsertSortedKeeps(key, keys[1..]);
        forall k | k in InsertSorted(key, keys[1..]) ensures Less(keys[0], k) {
          if k != key {
            var j :| 0 <= j < |keys[1..]| && keys[1..][j] == k;
            assert k == keys[j + 1];
          }
        }
        ConsAscending(keys[0], InsertSorted(key, keys[1..]));
      }
    }
  }

  lemma ConsAscending(key: Bytes32, keys: seq<Bytes32>)
    requires Ascending(keys) && forall k :: k in keys ==> Less(key, k)
    ensures Ascending([key] + keys)
  {
    hide Less;
  }

  lemma PrependAscending(key: Bytes32, keys: seq<Bytes32>)
    requires Ascending(keys) && keys != [] && Less(key, keys[0])
    ensures Ascending([key] + keys)
  {
    hide Less;
    forall k | k in keys ensures Less(key, k) {
      var j :| 0 <= j < |keys| && keys[j] == k;
      if j > 0 {
        LessTransitive(key, keys[0], k);
      }
    }
    ConsAscending(key, keys);
  }

  /** For a provider or keeper claimer the list is exactly the provider and the keepers without the
      claimer, ascending; the depositor gets the keepers alone. Its length is always the keeper count. */
  lemma AppChallengersExact(i: Intent, g: nat, c: nat)
    requires i.InRange() && g < i.V() && c <= i.N() + 1
    requires Ascending(i.Keepers()) && i.groups[g].provider !in i.Keepers()
    ensures |AppChallengers(i, g, c)| == i.N() && Ascending(AppChallengers(i, g, c))
    ensures c <= i.N() ==> forall k :: k in AppChallengers(i, g, c) <==>
              (k == i.groups[g].provider || k in i.Keepers()) && k != ClaimerKey(i, g, c)
    ensures c == i.N() + 1 ==> AppChallengers(i, g, c) == i.Keepers()
  {
    var ks := i.Keepers();
    if 1 <= c <= i.N() {
      var rest := ks[..c - 1] + ks[c..];
      WithoutAscending(ks, c - 1);
      InsertSortedKeeps(i.groups[g].provider, rest);
      assert ClaimerKey(i, g, c) == ks[c - 1];
    }
  }

  lemma WithoutAscending(ks: seq<Bytes32>, skip: nat)
    requires Ascending(ks) && skip < |ks|
    ensures Ascending(ks[..skip] + ks[skip + 1..])
    ensures forall k :: k in ks[..skip] + ks[skip + 1..] <==> k in ks && k != ks[skip]
  {
    hide Less;
    var rest := ks[..skip] + ks[skip + 1..];
    forall j | 0 <= j < |rest| ensures rest[j] == ks[if j < skip then j else j + 1] {}
    forall k | k in ks && k != ks[skip] ensures k in rest {
      var j :| 0 <= j < |ks| && ks[j] == k;
      assert rest[if j < skip then j else j - 1] == k;
    }
    forall k | k in rest ensures k in ks && k != ks[skip] {
      var j :| 0 <= j < |rest| && rest[j] == k;
      var t := if j < skip then j else j + 1;
      if ks[t] == ks[skip] {
        AscendingDistinct(ks, t, skip);
      }
    }
  }

  // ---------------------------------------------------------------------------------------------
  // The Assert signer prefix

  /** The prefix as the multisig encoder would emit it. */
  function AssertPrefix(i: Intent): Bytes
    requires i.InRange()
  {
    KeyOp(i.depositor, OP_CHECKSIGVERIFY)
    + MultisigGroup(i.Keepers(), false) + MultisigGroup(i.Challengers(), false)
  }

  function GroupLen(count: nat): int
    requires count < 0x1_0000
  {
    ENTRY_LEN * count + |PushNumber(count)| + 1
  }

  /** vault_assert_prefix_len */
  function AssertPrefixLen(i: Intent): int {
    if i.N() == 0 || i.M() == 0 then -1
    else ENTRY_LEN + GroupLen(i.N()) + GroupLen(i.M())
  }

  /** The loop over the two groups; base is where group g starts. */
  function PrefixGroupByte(i: Intent, off: nat, g: nat, base: nat): (b: int)
    requires i.N() <= MAX_KEEPERS && i.M() <= MAX_CHALLENGERS && base <= off && g <= 2
    decreases 2 - g
  {
    if g == 2 then -1
    else
      var count := if g == 0 then i.N() else i.M();
      var keys := if g == 0 then i.keeperPks else i.challengerPks;
      if off < base + ENTRY_LEN * count then
        var e := (off - base) / ENTRY_LEN;
        var k := (off - base) % ENTRY_LEN;
        if k == 0 then OP_PUSHBYTES_32 as int
        else if k < 33 then keys[e][k - 1] as int
        else if e == 0 then OP_CHECKSIG as int
        else OP_CHECKSIGADD as int
      else
        var base1 := base + ENTRY_LEN * count;
        var num := PushNumber(count);
        if off < base1 + |num| then num[off - base1] as int
        else
          var base2 := base1 + |num|;
          if off == base2 then OP_NUMEQUALVERIFY as int
          else PrefixGroupByte(i, off, g + 1, base2 + 1)
  }

  /** vault_assert_prefix_byte: byte off of the prefix, or -1. */
  function AssertPrefixByte(i: Intent, off: nat): int
    requires i.N() <= MAX_KEEPERS && i.M() <= MAX_CHALLENGERS
  {
    if i.N() == 0 || i.M() == 0 then -1
    else if off == 0 then OP_PUSHBYTES_32 as int
    else if off < 33 then i.depositor[off - 1] as int
    else if off == 33 then OP_CHECKSIGVERIFY as int
    else PrefixGroupByte(i, off, 0, ENTRY_LEN)
  }

  lemma {:induction false} SignersAt(keys: seq<Bytes32>, e: nat)
    requires e < |keys|
    ensures Signers(keys)[ENTRY_LEN * e..ENTRY_LEN * e + ENTRY_LEN] ==
            KeyOp(keys[e], if e == 0 then OP_CHECKSIG else OP_CHECKSIGADD)
    decreases |keys|
  {
    hide KeyOp;
    var front := keys[..|keys| - 1];
    if e < |keys| - 1 {
      SignersAt(front, e);
      assert Signers(keys)[ENTRY_LEN * e..ENTRY_LEN * e + ENTRY_LEN]
          == Signers(front)[ENTRY_LEN * e..ENTRY_LEN * e + ENTRY_LEN];
    }
  }

  lemma SignersByte(keys: seq<Bytes32>, e: nat, k: nat)
    requires e < |keys| && k < ENTRY_LEN
    ensures Signers(keys)[ENTRY_LEN * e + k] ==
            if k == 0 then OP_PUSHBYTES_32 else if k < 33 then keys[e][k - 1]
            else if e == 0 then OP_CHECKSIG else OP_CHECKSIGADD
  {
    SignersAt(keys, e);
    var slice := Signers(keys)[ENTRY_LEN * e..ENTRY_LEN * e + ENTRY_LEN];
    assert Signers(keys)[ENTRY_LEN * e + k] == slice[k];
  }

  /** Byte o of one group, as the loop describes it. */
  lemma GroupByte(keys: seq<Bytes32>, o: nat)
    requires |keys| <= 32 && o < |MultisigGroup(keys, false)|
    ensures MultisigGroup(keys, false)[o] ==
            if o < ENTRY_LEN * |keys| then Signers(keys)[o]
            else if o < ENTRY_LEN * |keys| + |PushNumber(|keys|)| then PushNumber(|keys|)[o - ENTRY_LEN * |keys|]
            else OP_NUMEQUALVERIFY
  {
    hide Signers, PushNumber;
  }

  function GroupKeys(i: Intent, g: nat): seq<Bytes32>
    requires i.InRange() && g < 2
  {
    if g == 0 then i.Keepers() else i.Challengers()
  }

  /** One turn of the group loop: a byte of this group, or the next group. */
  lemma PrefixGroupTurn(i: Intent, off: nat, g: nat, base: nat)
    requires i.InRange() && base <= off && g < 2
    ensures var group := MultisigGroup(GroupKeys(i, g), false);
            PrefixGroupByte(i, off, g, base) ==
            if off < base + |group| then group[off - base] as int
            else PrefixGroupByte(i, off, g + 1, base + |group|)
  {
    hide Signers, PushNumber, KeyOp, MultisigGroup;
    var keys := GroupKeys(i, g);
    var o := off - base;
    assert |MultisigGroup(keys, false)| == ENTRY_LEN * |keys| + |PushNumber(|keys|)| + 1;
    if o < |MultisigGroup(keys, false)| {
      GroupByte(keys, o);
      if o < ENTRY_LEN * |keys| {
        SignersByte(keys, o / ENTRY_LEN, o % ENTRY_LEN);
        assert ENTRY_LEN * (o / ENTRY_LEN) + o % ENTRY_LEN == o;
      }
    }
  }

  /** The described bytes are those of the built prefix, and -1 past its end. */
  lemma AssertPrefixByteExact(i: Intent, off: nat)
    requires i.InRange()
    ensures AssertPrefixLen(i) == |AssertPrefix(i)| > 0
    ensures AssertPrefixByte(i, off) == if off < |AssertPrefix(i)| then AssertPrefix(i)[off] as int else -1
  {
    hide MultisigGroup, PrefixGroupByte, PushNumber, KeyOp, AssertPrefixByte, AssertPrefix;
    PrefixSize(i);
    if off < 34 {
      HeadByte(i, off);
    } else {
      GroupBytes(i, off);
    }
  }

  lemma PrefixSize(i: Intent)
    requires i.InRange()
    ensures AssertPrefixLen(i) == |AssertPrefix(i)|
    ensures |AssertPrefix(i)| == 34 + |MultisigGroup(i.Keepers(), false)| + |MultisigGroup(i.Challengers(), false)|
  {
    hide MultisigGroup, PushNumber, KeyOp;
  }

  lemma HeadByte(i: Intent, off: nat)
    requires i.InRange() && off < 34
    ensures off < |AssertPrefix(i)| && AssertPrefixByte(i, off) == AssertPrefix(i)[off] as int
  {
    hide MultisigGroup, PrefixGroupByte;
    assert AssertPrefix(i)[off] == KeyOp(i.depositor, OP_CHECKSIGVERIFY)[off];
  }

  lemma GroupBytes(i: Intent, off: nat)
    requires i.InRange() && off >= 34
    ensures AssertPrefixByte(i, off) == if off < |AssertPrefix(i)| then AssertPrefix(i)[off] as int else -1
  {
    hide MultisigGroup, PrefixGroupByte, PushNumber, KeyOp;
    var g0, g1 := MultisigGroup(i.Keepers(), false), MultisigGroup(i.Challengers(), false);
    PrefixGroupTurn(i, off, 0, 34);
    if off >= 34 + |g0| {
      PrefixGroupTurn(i, off, 1, 34 + |g0|);
      if off >= 34 + |g0| + |g1| {
        PrefixGroupEnd(i, off, 34 + |g0| + |g1|);
      }
    }
  }

  lemma PrefixGroupEnd(i: Intent, off: nat, base: nat)
    requires i.InRange() && base <= off
    ensures PrefixGroupByte(i, off, 2, base) == -1
  {
  }

  /** The same bytes open the payout leaf of the depositor as claimer, whatever the group. */
  lemma AssertPrefixOpensPayoutLeaf(i: Intent, g: nat)
    requires i.InRange() && g < i.V()
    ensures AssertPrefix(i) <= Assert0PayoutLeaf(i, g, i.N() + 1)
    ensures |AssertPrefix(i)| <= 2222
  {
    hide MultisigGroup, KeyOp, PushNumber;
    SmallPush(i.N());
    SmallPush(i.M());
  }
}
