/** The leaf parsers of sign_psbt_validate_helpers.c, against the leaves the builders emit. */
module LeafParsers {
  import opened Octets
  import opened Intents
  import opened Script

  const SEQUENCE_MASK: nat := 0xFFFF
  const NOPAYOUT_LEAF_LEN: nat := 68
  const CLAIM_LEAF_LEN: nat := 34
  const PREFIX_LEN: nat := 68
  const GROUP0_PUSH_OFF: nat := 34
  const GROUP0_OP_OFF: nat := 67

  // ---------------------------------------------------------------------------------------------
  // Parsers

  /** The CSV operand at pos: its value and where it ends. */
  function ParsePush(s: Bytes, pos: nat): (r: Option<(nat, nat)>)
    ensures r.Some? ==> pos < r.value.1 <= |s|
  {
    if pos >= |s| then None
    else
      var op := s[pos];
      if op == OP_0 then None
      else if op <= OP_PUSHBYTES_75 then
        ParsePushData(s, pos + 1, op as nat)
      else if op == OP_PUSHDATA1 then
        if pos + 1 >= |s| then None else ParsePushData(s, pos + 2, s[pos + 1] as nat)
      else if OP_1 <= op <= OP_16 then Some(((op - OP_RESERVED) as nat, pos + 1))
      else None
  }

  /** len bytes of little-endian number, sign bit clear. */
  function ParsePushData(s: Bytes, start: nat, len: nat): (r: Option<(nat, nat)>)
    requires 0 < start <= |s|
    ensures r.Some? ==> start <= r.value.1 <= |s|
  {
    if len > 4 || start + len > |s| || s[start + len - 1] >= 0x80 then None
    else Some((FromLE(s[start..start + len]), start + len))
  }

  /** parse_refund_leaf_script: the key and the timelock of <key> OP_CHECKSIGVERIFY <t> OP_CSV. */
  function ParseRefundLeaf(s: Bytes): Option<(Bytes32, nat)> {
    if |s| < 36 || s[0] != OP_PUSHBYTES_32 || s[33] != OP_CHECKSIGVERIFY then None
    else
      var push := ParsePush(s, 34);
      if push.None? then None
      else
        var (csv, pos) := push.value;
        if csv == 0 || csv > SEQUENCE_MASK then None
        else if pos >= |s| || s[pos] != OP_CSV || pos + 1 != |s| then None
        else Some((s[1..33], csv))
  }

  /** parse_payout_leaf_script */
  function ParsePayoutLeaf(s: Bytes): Option<(Bytes32, nat)> {
    if |s| <= NOPAYOUT_LEAF_LEN || s[0] != OP_PUSHBYTES_32 || s[33] != OP_CHECKSIGVERIFY || s[|s| - 1] != OP_CSV then None
    else if s[GROUP0_PUSH_OFF] != OP_PUSHBYTES_32 || s[GROUP0_OP_OFF] != OP_CHECKSIG then None
    else
      var two := s[|s| - 3] as nat + 256 * s[|s| - 2] as nat;
      var one := s[|s| - 2] as nat;
      if s[|s| - 4] == OP_PUSHBYTES_2 && s[|s| - 2] < 0x80 && PAYOUT_TIMELOCK_MIN <= two <= PAYOUT_TIMELOCK_MAX then
        Some((s[1..33], two))
      else if s[|s| - 3] == OP_PUSHBYTES_1 && PAYOUT_TIMELOCK_MIN <= one <= PAYOUT_TIMELOCK_MAX && one <= 0x7F then
        Some((s[1..33], one))
      else None
  }

  /** parse_claim_leaf_script */
  function ParseClaimLeaf(s: Bytes): Option<Bytes32> {
    if |s| != CLAIM_LEAF_LEN || s[0] != OP_PUSHBYTES_32 || s[33] != OP_CHECKSIG then None else Some(s[1..33])
  }

  /** leaf_has_assert_shape, on the captured prefix and the last byte. */
  predicate HasAssertShape(len: nat, prefix: Bytes, last: Byte)
    requires |prefix| == PREFIX_LEN
  {
    && len > NOPAYOUT_LEAF_LEN
    && prefix[0] == OP_PUSHBYTES_32 && prefix[33] == OP_CHECKSIGVERIFY
    && prefix[GROUP0_PUSH_OFF] == OP_PUSHBYTES_32 && prefix[GROUP0_OP_OFF] == OP_CHECKSIG
    && last == OP_1
  }

  /** The first 68 bytes, zero padded. */
  function CapturedPrefix(s: Bytes): (prefix: Bytes)
    ensures |prefix| == PREFIX_LEN
  {
    if |s| >= PREFIX_LEN then s[..PREFIX_LEN] else s + Zeros(PREFIX_LEN - |s|)
  }

  predicate ScriptHasAssertShape(s: Bytes) {
    s != [] && HasAssertShape(|s|, CapturedPrefix(s), s[|s| - 1])
  }

  /** csv |= script[pos + i] << (8 * i), byte by byte. */
  method AccumulateLE(s: Bytes) returns (csv: U32)
    requires |s| <= 4
    ensures csv == FromLE(s)
  {
    var acc, weight := 0, 1;
    for k := 0 to |s|
      invariant weight == Pow256(k)
      invariant acc == FromLE(s[..k])
    {
      FromLEAppend(s[..k], s[k]);
      assert s[..k + 1] == s[..k] + [s[k]];
      acc := acc + s[k] as nat * weight;
      weight := weight * 256;
    }
    assert s[..|s|] == s;
    FitsU32(s);
    csv := acc;
  }

  /** The cursor form of parse_refund_leaf_script. */
  method ParseRefundLeafScript(s: Bytes) returns (ok: bool, key: Bytes32, csv: U32)
    ensures ok <==> ParseRefundLeaf(s).Some?
    ensures ok ==> ParseRefundLeaf(s) == Some((key, csv))
  {
    hide FromLE;
    ok, key, csv := false, ZERO32, 0;
    if |s| < 36 {
      return;
    }
    var pos := 0;
    if s[pos] != OP_PUSHBYTES_32 {
      return;
    }
    pos := pos + 1;
    key := s[pos..pos + 32];
    pos := pos + 32;
    if s[pos] != OP_CHECKSIGVERIFY {
      return;
    }
    pos := pos + 1;
    var op := s[pos];
    pos := pos + 1;
    if op == OP_0 {
      return;
    } else if op <= OP_PUSHBYTES_75 || op == OP_PUSHDATA1 {
      var len := op as nat;
      if op == OP_PUSHDATA1 {
        if pos >= |s| {
          return;
        }
        len := s[pos] as nat;
        pos := pos + 1;
      }
      if len > 4 || pos + len > |s| || s[pos + len - 1] >= 0x80 {
        return;
      }
      csv := AccumulateLE(s[pos..pos + len]);
      pos := pos + len;
    } else if OP_1 <= op && op <= OP_16 {
      csv := (op - OP_RESERVED) as int;
    } else {
      return;
    }
    if csv == 0 || csv > SEQUENCE_MASK || pos >= |s| || s[pos] != OP_CSV {
      return;
    }
    ok := pos + 1 == |s|;
  }

  lemma {:induction false} FromLEAppend(s: Bytes, b: Byte)
    ensures FromLE(s + [b]) == FromLE(s) + b as nat * Pow256(|s|)
    ensures FromLE(s) < Pow256(|s|)
  {
    LEEncodes(s);
    if s == [] {
      assert s + [b] == [b];
      assert FromLE([b][1..]) == 0;
    } else {
      FromLEAppend(s[1..], b);
      assert (s + [b])[1..] == s[1..] + [b];
      ScaleDigit(FromLE(s[1..]), b as nat, Pow256(|s| - 1));
    }
  }

  lemma ScaleDigit(x: nat, b: nat, w: int)
    ensures 256 * (x + b * w) == 256 * x + b * (256 * w)
  {
  }

  lemma FitsU32(s: Bytes)
    requires |s| <= 4
    ensures FromLE(s) < 0x1_0000_0000
  {
    LEEncodes(s);
    Pow256Values();
    assert Pow256(3) == 256 * Pow256(2) && Pow256(0) == 1;
  }

  // ---------------------------------------------------------------------------------------------
  // What the refund parser accepts

  /** The encodings of t it reads: OP_1..OP_16, a direct push of up to four bytes or the same behind
      OP_PUSHDATA1, sign bit clear. Padded pushes are among them. */
  predicate IsPushOf(push: Bytes, t: nat) {
    || (|push| == 1 && OP_1 <= push[0] <= OP_16 && t == (push[0] - OP_RESERVED) as nat)
    || (2 <= |push| <= 5 && push[0] as nat == |push| - 1 && push[|push| - 1] < 0x80 && t == FromLE(push[1..]))
    || (3 <= |push| <= 6 && push[0] == OP_PUSHDATA1 && push[1] as nat == |push| - 2
        && push[|push| - 1] < 0x80 && t == FromLE(push[2..]))
  }

  function RefundScript(key: Bytes32, push: Bytes): Bytes {
    KeyOp(key, OP_CHECKSIGVERIFY) + push + [OP_CSV]
  }

  ghost predicate IsRefundScript(s: Bytes, key: Bytes32, t: nat) {
    exists push :: IsPushOf(push, t) && s == RefundScript(key, push)
  }

  /** The refund parser accepts exactly the refund scripts whose operand fits the BIP-68 block count. */
  lemma RefundLeafAccepts(s: Bytes, key: Bytes32, t: nat)
    ensures ParseRefundLeaf(s) == Some((key, t)) <==> 1 <= t <= SEQUENCE_MASK && IsRefundScript(s, key, t)
  {
    if ParseRefundLeaf(s) == Some((key, t)) {
      var push := s[34..|s| - 1];
      PushSound(s, t);
      assert s[0] == OP_PUSHBYTES_32 && s[1..33] == key && s[33] == OP_CHECKSIGVERIFY;
      assert s == s[..34] + push + [s[|s| - 1]];
      assert s[..34] == [s[0]] + s[1..33] + [s[33]];
      assert s == RefundScript(key, push);
    }
    if 1 <= t <= SEQUENCE_MASK && IsRefundScript(s, key, t) {
      var push :| IsPushOf(push, t) && s == RefundScript(key, push);
      RefundScriptParses(key, push, t);
    }
  }

  lemma PushSound(s: Bytes, t: nat)
    requires |s| >= 36 && ParsePush(s, 34) == Some((t, |s| - 1)) && t > 0
    ensures IsPushOf(s[34..|s| - 1], t)
  {
    var push := s[34..|s| - 1];
    if s[34] <= OP_PUSHBYTES_75 {
      assert push[1..] == s[35..|s| - 1];
    } else if s[34] == OP_PUSHDATA1 {
      assert push[2..] == s[36..|s| - 1];
    }
  }

  lemma RefundScriptParses(key: Bytes32, push: Bytes, t: nat)
    requires IsPushOf(push, t) && 1 <= t <= SEQUENCE_MASK
    ensures ParseRefundLeaf(RefundScript(key, push)) == Some((key, t))
  {
    var s := RefundScript(key, push);
    assert s[0] == OP_PUSHBYTES_32 && s[1..33] == key && s[33] == OP_CHECKSIGVERIFY;
    assert s[34..34 + |push|] == push && s[34 + |push|] == OP_CSV;
    forall k | 0 <= k < |push| ensures s[34 + k] == push[k] {}
    if push[0] == OP_PUSHDATA1 {
      assert s[36..34 + |push|] == push[2..];
    } else if push[0] <= OP_PUSHBYTES_75 {
      assert s[35..34 + |push|] == push[1..];
    }
  }

  // ---------------------------------------------------------------------------------------------
  // Builders and parsers undo each other

  lemma PushNumberIsPush(t: U16)
    requires t > 0
    ensures IsPushOf(PushNumber(t), t)
  {
    if t > 16 {
      ScriptNumValue(t);
      assert PushNumber(t)[1..] == ScriptNum(t);
    }
  }

  /** The refund parser reads back the depositor key and the refund timelock from HTLC leaf 1. */
  lemma RefundLeafRoundTrip(i: Intent)
    requires i.scalars.refundTimelock > 0
    ensures ParseRefundLeaf(HtlcLeaf1(i)) == Some((i.depositor, i.scalars.refundTimelock))
  {
    PushNumberIsPush(i.scalars.refundTimelock);
    RefundScriptParses(i.depositor, PushNumber(i.scalars.refundTimelock), i.scalars.refundTimelock);
  }

  /** Fixed positions of every payout leaf. */
  lemma PayoutLeafShape(i: Intent, g: nat, c: nat)
    requires i.InRange() && g < i.V() && c <= i.N() + 1
    ensures var s := Assert0PayoutLeaf(i, g, c);
            && |s| > NOPAYOUT_LEAF_LEN && s[0] == OP_PUSHBYTES_32 && s[1..33] == ClaimerKey(i, g, c)
            && s[33] == OP_CHECKSIGVERIFY && s[GROUP0_PUSH_OFF] == OP_PUSHBYTES_32 && s[GROUP0_OP_OFF] == OP_CHECKSIG
            && s[|s| - 1] == OP_CSV
  {
    hide PushNumber, AppChallengers, ClaimerKey;
    var s := Assert0PayoutLeaf(i, g, c);
    var keys := AppChallengers(i, g, c);
    assert s[..34] == KeyOp(ClaimerKey(i, g, c), OP_CHECKSIGVERIFY);
    assert s[0] == s[..34][0] && s[1..33] == s[..34][1..33] && s[33] == s[..34][33];
    FirstSigner(keys, false);
    assert s[34..68] == MultisigGroup(keys, false)[..34];
    assert s[34] == s[34..68][0] && s[67] == s[34..68][33];
  }

  lemma FirstSigner(keys: seq<Bytes32>, isFinal: bool)
    requires 1 <= |keys| <= 32
    ensures |MultisigGroup(keys, isFinal)| > 34
    ensures MultisigGroup(keys, isFinal)[..34] == KeyOp(keys[0], OP_CHECKSIG)
    ensures MultisigGroup(keys, isFinal)[0] == OP_PUSHBYTES_32 && MultisigGroup(keys, isFinal)[33] == OP_CHECKSIG
  {
    FirstOfSigners(keys);
    assert MultisigGroup(keys, isFinal)[..34] == Signers(keys)[..34];
    assert MultisigGroup(keys, isFinal)[0] == Signers(keys)[..34][0];
    assert MultisigGroup(keys, isFinal)[33] == Signers(keys)[..34][33];
  }

  lemma {:induction false} FirstOfSigners(keys: seq<Bytes32>)
    requires keys != []
    ensures Signers(keys)[..34] == KeyOp(keys[0], OP_CHECKSIG)
  {
    hide KeyOp;
    if |keys| == 1 {
      assert Signers(keys[..0]) == [];
      assert [] + KeyOp(keys[0], OP_CHECKSIG) == KeyOp(keys[0], OP_CHECKSIG);
    } else {
      FirstOfSigners(keys[..|keys| - 1]);
      assert Signers(keys)[..34] == Signers(keys[..|keys| - 1])[..34];
    }
  }

  /** Tail of a payout leaf: the opcode closing the last group, the timelock push, OP_CSV. */
  lemma PayoutLeafTail(i: Intent, g: nat, c: nat)
    requires i.InRange() && g < i.V() && c <= i.N() + 1
    ensures var s := Assert0PayoutLeaf(i, g, c);
            var push := PushNumber(i.scalars.payoutTimelock);
            && |s| >= |push| + 2
            && s[|s| - |push| - 2] == OP_NUMEQUALVERIFY && s[|s| - |push| - 1..|s| - 1] == push
  {
    hide PushNumber, AppChallengers, ClaimerKey, KeyOp, Signers;
    var s := Assert0PayoutLeaf(i, g, c);
    var push := PushNumber(i.scalars.payoutTimelock);
    var body := KeyOp(ClaimerKey(i, g, c), OP_CHECKSIGVERIFY) + MultisigGroup(AppChallengers(i, g, c), false);
    var last := MultisigGroup(i.Challengers(), false);
    assert s == body + last + push + [OP_CSV];
    assert last[|last| - 1] == OP_NUMEQUALVERIFY;
    Middle(body + last, push, [OP_CSV]);
  }

  /** The payout parser reads back the claimer key and t2 from every payout leaf. */
  lemma PayoutLeafRoundTrip(i: Intent, g: nat, c: nat)
    requires i.InRange() && g < i.V() && c <= i.N() + 1
    requires PAYOUT_TIMELOCK_MIN <= i.scalars.payoutTimelock <= PAYOUT_TIMELOCK_MAX
    ensures ParsePayoutLeaf(Assert0PayoutLeaf(i, g, c)) == Some((ClaimerKey(i, g, c), i.scalars.payoutTimelock))
  {
    hide PushNumber, AppChallengers, ClaimerKey, Assert0PayoutLeaf;
    var s := Assert0PayoutLeaf(i, g, c);
    var t := i.scalars.payoutTimelock;
    PayoutLeafShape(i, g, c);
    PayoutLeafTail(i, g, c);
    TimelockPush(t);
    var push := PushNumber(t);
    var tail := s[|s| - |push| - 1..|s| - 1];
    assert tail == push;
    if t < 0x80 {
      assert s[|s| - 3] == tail[0] && s[|s| - 2] == tail[1];
    } else {
      assert s[|s| - 4] == tail[0] && s[|s| - 3] == tail[1] && s[|s| - 2] == tail[2];
    }
  }

  /** A leaf whose 35th byte is a 32-byte push is not a refund leaf. */
  lemma SecondKeyNotRefund(s: Bytes)
    requires |s| > 34 && s[34] == OP_PUSHBYTES_32
    ensures ParseRefundLeaf(s).None?
  {
  }

  /** Fixed positions of the Vault UTXO leaf. */
  lemma VaultLeafShape(i: Intent, g: nat)
    requires i.InRange() && g < i.V()
    ensures var s := VaultUtxoLeaf(i, g);
            |s| > NOPAYOUT_LEAF_LEN && s[34] == OP_PUSHBYTES_32 && s[67] == OP_CHECKSIGVERIFY && s[|s| - 1] == OP_CSV
  {
    hide PushNumber, Signers;
    var s := VaultUtxoLeaf(i, g);
    assert s[..34] == KeyOp(i.depositor, OP_CHECKSIGVERIFY);
    assert s[34..68] == KeyOp(i.groups[g].provider, OP_CHECKSIGVERIFY);
    assert s[34] == s[34..68][0] && s[67] == s[34..68][33];
  }

  /** Each built leaf is read by at most its own parser, and none has the Assert shape. */
  lemma LeafClassesExclusive(i: Intent, g: nat, c: nat, h: Bytes32, challenger: Bytes32)
    requires i.InRange() && g < i.V() && c <= i.N() + 1
    requires 16 < i.scalars.refundTimelock < 0x8000
    ensures ParseRefundLeaf(DepositorClaimLeaf(i)).None? && ParsePayoutLeaf(DepositorClaimLeaf(i)).None?
    ensures ParseClaimLeaf(DepositorClaimLeaf(i)) == Some(i.depositor)
    ensures ParseRefundLeaf(HtlcLeaf0(i, g, h)).None? && ParsePayoutLeaf(HtlcLeaf0(i, g, h)).None?
    ensures ParseClaimLeaf(HtlcLeaf0(i, g, h)).None?
    ensures ParsePayoutLeaf(HtlcLeaf1(i)).None? && ParseClaimLeaf(HtlcLeaf1(i)).None?
    ensures ParseRefundLeaf(VaultUtxoLeaf(i, g)).None? && ParsePayoutLeaf(VaultUtxoLeaf(i, g)).None?
    ensures ParseClaimLeaf(VaultUtxoLeaf(i, g)).None?
    ensures ParseRefundLeaf(NoPayoutLeaf(i, challenger)).None? && ParsePayoutLeaf(NoPayoutLeaf(i, challenger)).None?
    ensures ParseClaimLeaf(NoPayoutLeaf(i, challenger)).None?
    ensures ParseRefundLeaf(Assert0PayoutLeaf(i, g, c)).None? && ParseClaimLeaf(Assert0PayoutLeaf(i, g, c)).None?
    ensures !ScriptHasAssertShape(DepositorClaimLeaf(i)) && !ScriptHasAssertShape(HtlcLeaf0(i, g, h))
    ensures !ScriptHasAssertShape(HtlcLeaf1(i)) && !ScriptHasAssertShape(VaultUtxoLeaf(i, g))
    ensures !ScriptHasAssertShape(NoPayoutLeaf(i, challenger)) && !ScriptHasAssertShape(Assert0PayoutLeaf(i, g, c))
  {
    hide PushNumber, Signers, MultisigGroup, VaultUtxoLeaf, Assert0PayoutLeaf, ParsePush;
    TimelockPush(i.scalars.refundTimelock);
    VaultLeafShape(i, g);
    SecondKeyNotRefund(VaultUtxoLeaf(i, g));
    PayoutLeafShape(i, g, c);
    SecondKeyNotRefund(Assert0PayoutLeaf(i, g, c));
    assert NoPayoutLeaf(i, challenger)[34] == OP_PUSHBYTES_32;
    SecondKeyNotRefund(NoPayoutLeaf(i, challenger));
    assert HtlcLeaf0(i, g, h)[0] == OP_SIZE;
    assert |HtlcLeaf0(i, g, h)| > 68;
  }
}
