/** The builders of vault_script.c, writing into a caller's buffer at a moving offset. */
module Builders {
  import opened Octets
  import opened Intents
  import opened Script

  /** The data bytes of a number push, least significant first. */
  method NumberBytes(v: U32) returns (tmp: array<Byte>, count: nat)
    requires v > 0
    ensures fresh(tmp) && count <= 5 == tmp.Length && tmp[..count] == ScriptNum(v)
  {
    hide Pow256, MinimalLE;
    tmp := new Byte[5];
    count := 0;
    var rest: nat := v;
    FourBytes(v);
    ghost var low: Bytes := [];
    while rest > 0
      invariant count + |MinimalLE(rest)| <= 4
      invariant count == |low| && tmp[..count] == low
      invariant low + MinimalLE(rest) == MinimalLE(v)
    {
      var b := (rest % 256) as Byte;
      MinimalLEStep(rest);
      Shift(low, b, MinimalLE(rest / 256), MinimalLE(v));
      tmp[count] := b;
      low := low + [b];
      count, rest := count + 1, rest / 256;
    }
    MinimalLEStep(0);
    assert low == MinimalLE(v);
    if tmp[count - 1] >= 0x80 {
      tmp[count] := 0;
      count := count + 1;
    }
  }

  lemma MinimalLEStep(v: nat)
    ensures MinimalLE(v) == if v == 0 then [] else [(v % 256) as Byte] + MinimalLE(v / 256)
  {
  }

  lemma FourBytes(v: U32)
    ensures |MinimalLE(v)| <= 4
  {
    Pow256Values();
    MinimalLELength(v, 4);
  }

  /** _push_number: returns the bytes written. */
  method PutNumber(v: U32, buf: array<Byte>, off: nat) returns (n: nat)
    requires off + |PushNumber(v)| <= buf.Length
    modifies buf
    ensures n == |PushNumber(v)|
    ensures buf[..] == Splice(old(buf[..]), off, PushNumber(v))
  {
    if v == 0 {
      Put(buf, off, [OP_0]);
      return 1;
    }
    if v <= 16 {
      Put(buf, off, [(OP_1 as int - 1 + v) as Byte]);
      return 1;
    }
    hide Splice, ScriptNum;
    var tmp, count := NumberBytes(v);
    ghost var before := buf[..];
    Put(buf, off, [count as Byte]);
    PutAfter(buf, before, off, [count as Byte], off + 1, tmp[..count]);
    return 1 + count;
  }

  /** buf[off..] = OP_PUSHBYTES_32 key op */
  method PutKeyOp(key: Bytes32, op: Byte, buf: array<Byte>, off: nat)
    requires off + ENTRY_LEN <= buf.Length
    modifies buf
    ensures buf[..] == Splice(old(buf[..]), off, KeyOp(key, op))
  {
    hide Splice;
    ghost var before := buf[..];
    Put(buf, off, [OP_PUSHBYTES_32]);
    PutAfter(buf, before, off, [OP_PUSHBYTES_32], off + 1, key);
    PutAfter(buf, before, off, [OP_PUSHBYTES_32] + key, off + 33, [op]);
  }

  /** The loop over the keys of a group. */
  method PutSigners(keys: seq<Bytes32>, buf: array<Byte>, off: nat)
    requires keys != [] && off + ENTRY_LEN * |keys| <= buf.Length
    modifies buf
    ensures buf[..] == Splice(old(buf[..]), off, Signers(keys))
  {
    hide Splice, KeyOp;
    PutKeyOp(keys[0], OP_CHECKSIG, buf, off);
    SignersStep(keys, 0);
    assert Signers(keys[..0]) == [];
    assert [] + KeyOp(keys[0], OP_CHECKSIG) == KeyOp(keys[0], OP_CHECKSIG);
    for k := 1 to |keys|
      invariant buf[..] == Splice(old(buf[..]), off, Signers(keys[..k]))
    {
      PutKeyOp(keys[k], OP_CHECKSIGADD, buf, off + ENTRY_LEN * k);
      SpliceSplice(old(buf[..]), off, Signers(keys[..k]), KeyOp(keys[k], OP_CHECKSIGADD));
      SignersStep(keys, k);
    }
    assert keys[..|keys|] == keys;
  }

  lemma SignersStep(keys: seq<Bytes32>, k: nat)
    requires k < |keys|
    ensures Signers(keys[..k + 1]) ==
            Signers(keys[..k]) + KeyOp(keys[k], if k == 0 then OP_CHECKSIG else OP_CHECKSIGADD)
  {
    assert keys[..k + 1][..k] == keys[..k];
  }

  /** encode_multisig_group: the length check is on an upper bound, not on the exact length. */
  method EncodeMultisigGroup(keys: seq<Bytes32>, isFinal: bool, buf: array<Byte>, off: nat, max: int) returns (r: int)
    requires |keys| <= 32 && off + max <= buf.Length
    modifies buf
    ensures r == if keys == [] || ENTRY_LEN * |keys| + 6 > max then -1 else |MultisigGroup(keys, isFinal)|
    ensures buf[..] == if r < 0 then old(buf[..]) else Splice(old(buf[..]), off, MultisigGroup(keys, isFinal))
  {
    if |keys| <= 0 || |keys| * ENTRY_LEN + 6 > max {
      return -1;
    }
    hide Splice, Signers, PushNumber;
    SmallPush(|keys|);
    ghost var before := buf[..];
    PutSigners(keys, buf, off);
    var cur := off + ENTRY_LEN * |keys|;
    var n := PutNumber(|keys|, buf, cur);
    SpliceSplice(before, off, Signers(keys), PushNumber(|keys|));
    PutAfter(buf, before, off, Signers(keys) + PushNumber(|keys|), cur + n,
             [if isFinal then OP_NUMEQUAL else OP_NUMEQUALVERIFY]);
    return cur + n + 1 - off;
  }

  /** The keepers from index t on, without the one at index skip. */
  function Remaining(ks: seq<Bytes32>, skip: nat, t: nat): seq<Bytes32>
    requires skip < |ks| && t <= |ks|
  {
    if t <= skip then ks[t..skip] + ks[skip + 1..] else ks[t..]
  }

  lemma RemainingStep(ks: seq<Bytes32>, skip: nat, t: nat)
    requires skip < |ks| && t < |ks|
    ensures Remaining(ks, skip, t) ==
            if t == skip then Remaining(ks, skip, t + 1) else [ks[t]] + Remaining(ks, skip, t + 1)
  {
  }

  /** build_app_challengers */
  method BuildAppChallengers(i: Intent, g: nat, c: nat, out: array<Bytes32>) returns (k: nat)
    requires i.InRange() && g < i.V() && c <= i.N() + 1 && out.Length == MAX_KEEPERS
    modifies out
    ensures k == i.N() && out[..k] == AppChallengers(i, g, c)
  {
    if c == 0 || c == i.N() + 1 {
      k := 0;
      var ks := i.Keepers();
      for t := 0 to i.N()
        invariant k == t && out[..k] == ks[..t]
      {
        out[k] := ks[t];
        k := k + 1;
      }
      assert ks[..i.N()] == ks;
    } else {
      k := MergeProvider(i.Keepers(), c - 1, i.groups[g].provider, out);
      assert Remaining(i.Keepers(), c - 1, 0) == i.Keepers()[..c - 1] + i.Keepers()[c..];
    }
  }

  /** The branch for a keeper claimer: one pass that drops it and puts the provider at its place. */
  method MergeProvider(ks: seq<Bytes32>, skip: nat, vp: Bytes32, out: array<Bytes32>) returns (k: nat)
    requires skip < |ks| <= out.Length
    modifies out
    ensures k == |ks| && out[..k] == InsertSorted(vp, Remaining(ks, skip, 0))
  {
    hide Less, Remaining, Pending, InsertSorted;
    k := 0;
    var inserted := false;
    ghost var done: seq<Bytes32> := [];
    ghost var goal := InsertSorted(vp, Remaining(ks, skip, 0));
    RemainingLength(ks, skip, 0);
    PendingStart(vp, Remaining(ks, skip, 0));
    for t := 0 to |ks|
      invariant k <= |goal| == |ks|
      invariant k == |done| && out[..k] == done
      invariant done + Pending(inserted, vp, Remaining(ks, skip, t)) == goal
    {
      RemainingStep(ks, skip, t);
      if t == skip {
        continue;
      }
      ghost var rest := Remaining(ks, skip, t + 1);
      if !inserted && Less(vp, ks[t]) {
        PendingInsert(vp, ks[t], rest);
        Shift(done, vp, Pending(true, vp, [ks[t]] + rest), goal);
        out[k] := vp;
        k := k + 1;
        inserted := true;
        done := done + [vp];
      }
      PendingKeep(inserted, vp, ks[t], rest);
      Shift(done, ks[t], Pending(inserted, vp, rest), goal);
      out[k] := ks[t];
      k := k + 1;
      done := done + [ks[t]];
    }
    RemainingLength(ks, skip, |ks|);
    PendingEnd(inserted, vp);
    assert Remaining(ks, skip, |ks|) == [];
    if !inserted {
      Shift(done, vp, [], goal);
      out[k] := vp;
      k := k + 1;
      done := done + [vp];
    }
    assert done == goal;
  }

  /** Moving the next item from the pending part to the written part. */
  lemma Shift<T>(done: seq<T>, x: T, rest: seq<T>, goal: seq<T>)
    requires done + ([x] + rest) == goal || (rest == [] && done + [x] == goal)
    ensures (done + [x]) + rest == goal && |done| < |goal|
  {
    assert (done + [x]) + rest == done + ([x] + rest);
  }

  /** What is still to be written. */
  ghost function Pending(inserted: bool, vp: Bytes32, rest: seq<Bytes32>): seq<Bytes32> {
    if inserted then rest else InsertSorted(vp, rest)
  }

  lemma PendingStart(vp: Bytes32, rest: seq<Bytes32>)
    ensures [] + Pending(false, vp, rest) == InsertSorted(vp, rest)
  {
  }

  lemma PendingEnd(inserted: bool, vp: Bytes32)
    ensures Pending(inserted, vp, []) == if inserted then [] else [vp]
  {
  }

  lemma PendingInsert(vp: Bytes32, key: Bytes32, rest: seq<Bytes32>)
    requires Less(vp, key)
    ensures Pending(false, vp, [key] + rest) == [vp] + Pending(true, vp, [key] + rest)
  {
  }

  lemma PendingKeep(inserted: bool, vp: Bytes32, key: Bytes32, rest: seq<Bytes32>)
    requires inserted || !Less(vp, key)
    ensures Pending(inserted, vp, [key] + rest) == [key] + Pending(inserted, vp, rest)
  {
    assert ([key] + rest)[1..] == rest;
  }

  lemma RemainingLength(ks: seq<Bytes32>, skip: nat, t: nat)
    requires skip < |ks| && t <= |ks|
    ensures |Remaining(ks, skip, t)| == if t <= skip then |ks| - t - 1 else |ks| - t
  {
  }

  /** The buffer suffices for the upper bounds checked while the payout leaf is built. */
  predicate PayoutLeafFits(i: Intent, max: int)
    requires i.InRange()
  {
    var keepers := 34 + |MultisigGroup(i.Keepers(), false)|;
    var all := keepers + |MultisigGroup(i.Challengers(), false)|;
    && 34 + ENTRY_LEN * i.N() + 6 <= max
    && keepers + ENTRY_LEN * i.M() + 6 <= max
    && all + 6 <= max
  }

  lemma PayoutLeafLength(i: Intent, g: nat, c: nat)
    requires i.InRange() && g < i.V() && c <= i.N() + 1
    ensures |Assert0PayoutLeaf(i, g, c)| <= 2228
    ensures PayoutLeafFits(i, SCRIPT_MAX_LEN)
    ensures |MultisigGroup(AppChallengers(i, g, c), false)| == |MultisigGroup(i.Keepers(), false)|
  {
    hide PushNumber, AppChallengers, Signers, KeyOp;
    SmallPush(i.N());
    SmallPush(i.M());
    assert |PushNumber(i.scalars.payoutTimelock)| <= 4 by {
      }
  }

  /** encode_multisig_group after the bytes already written. */
  method EncodeAfter(keys: seq<Bytes32>, isFinal: bool, buf: array<Byte>,
                     ghost before: Bytes, base: nat, ghost done: Bytes, off: nat, max: nat) returns (r: int)
    requires |keys| <= 32 && off == |done| <= max && base + max <= |before| && buf[..] == Splice(before, base, done)
    modifies buf
    ensures r == if keys == [] || ENTRY_LEN * |keys| + 6 > max - off then -1 else |MultisigGroup(keys, isFinal)|
    ensures r >= 0 ==> buf[..] == Splice(before, base, done + MultisigGroup(keys, isFinal))
  {
    hide Splice, MultisigGroup;
    r := EncodeMultisigGroup(keys, isFinal, buf, base + off, max - off);
    if r >= 0 {
      MultisigBound(keys, isFinal);
      SpliceSplice(before, base, done, MultisigGroup(keys, isFinal));
    }
  }

  lemma MultisigBound(keys: seq<Bytes32>, isFinal: bool)
    requires 1 <= |keys| <= 32
    ensures |MultisigGroup(keys, isFinal)| <= ENTRY_LEN * |keys| + 3
  {
    SmallPush(|keys|);
  }

  /** The number and OP_CSV that end a leaf. */
  method PutTimelock(v: U16, buf: array<Byte>, ghost before: Bytes, base: nat, ghost done: Bytes, off: nat, max: nat)
    returns (r: nat)
    requires off == |done| && off + 6 <= max && base + max <= |before| && buf[..] == Splice(before, base, done)
    modifies buf
    ensures r == off + |PushNumber(v)| + 1
    ensures buf[..] == Splice(before, base, done + PushNumber(v) + [OP_CSV])
  {
    hide Splice, PushNumber;
    var n := PutNumber(v, buf, base + off);
    SpliceSplice(before, base, done, PushNumber(v));
    PutAfter(buf, before, base, done + PushNumber(v), base + off + n, [OP_CSV]);
    return off + n + 1;
  }

  /** vault_build_assert0_payout_leaf */
  method BuildAssert0PayoutLeaf(i: Intent, g: int, c: int, buf: array<Byte>, base: nat, max: nat) returns (r: int)
    requires i.InRange() && base + max <= buf.Length
    modifies buf
    ensures r >= 0 <==> 0 <= g < i.V() && 0 <= c <= i.N() + 1 && PayoutLeafFits(i, max)
    ensures r >= 0 ==> r == |Assert0PayoutLeaf(i, g, c)| <= max &&
                       buf[..] == Splice(old(buf[..]), base, Assert0PayoutLeaf(i, g, c))
  {
    if g < 0 || g >= i.V() || c < 0 || c > i.N() + 1 {
      return -1;
    }
    hide PushNumber, KeyOp, AppChallengers, Splice, MultisigGroup, ClaimerKey;
    var app := new Bytes32[MAX_KEEPERS](k => ZERO32);
    var k := BuildAppChallengers(i, g, c, app);
    var group1, group2 := app[..k], i.Challengers();
    PayoutLeafLength(i, g, c);
    MultisigBound(group1, false);
    MultisigBound(group2, false);
    if 34 > max {
      return -1;
    }
    ghost var before := buf[..];
    PutKeyOp(ClaimerKey(i, g, c), OP_CHECKSIGVERIFY, buf, base);
    ghost var head := KeyOp(ClaimerKey(i, g, c), OP_CHECKSIGVERIFY);
    r := EncodeAfter(group1, false, buf, before, base, head, 34, max);
    if r < 0 {
      return -1;
    }
    var off := 34 + r;
    head := head + MultisigGroup(group1, false);
    r := EncodeAfter(group2, false, buf, before, base, head, off, max);
    if r < 0 {
      return -1;
    }
    off := off + r;
    head := head + MultisigGroup(group2, false);
    if off + 6 > max {
      return -1;
    }
    r := PutTimelock(i.scalars.payoutTimelock, buf, before, base, head, off, max);
  }

  /** <key> op after the bytes already written. */
  method KeyOpAfter(key: Bytes32, op: Byte, buf: array<Byte>, ghost before: Bytes, base: nat, ghost done: Bytes, off: nat)
    requires off == |done| && base + off + ENTRY_LEN <= |before| && buf[..] == Splice(before, base, done)
    modifies buf
    ensures buf[..] == Splice(before, base, done + KeyOp(key, op))
  {
    hide Splice, KeyOp;
    PutKeyOp(key, op, buf, base + off);
    SpliceSplice(before, base, done, KeyOp(key, op));
  }

  /** vault_build_vault_utxo_leaf */
  method BuildVaultUtxoLeaf(i: Intent, g: int, buf: array<Byte>, base: nat, max: nat) returns (r: int)
    requires i.InRange() && base + max <= buf.Length
    modifies buf
    ensures r >= 0 ==> 0 <= g < i.V()
    ensures 0 <= g < i.V() && max >= SCRIPT_MAX_LEN ==> r >= 0
    ensures r >= 0 ==> r == |VaultUtxoLeaf(i, g)| <= max &&
                       buf[..] == Splice(old(buf[..]), base, VaultUtxoLeaf(i, g))
  {
    if g < 0 || g >= i.V() || 34 > max {
      return -1;
    }
    hide PushNumber, KeyOp, Splice, MultisigGroup;
    MultisigBound(i.Keepers(), false);
    MultisigBound(i.Challengers(), false);
    ghost var before := buf[..];
    PutKeyOp(i.depositor, OP_CHECKSIGVERIFY, buf, base);
    ghost var head := KeyOp(i.depositor, OP_CHECKSIGVERIFY);
    if 68 > max {
      return -1;
    }
    KeyOpAfter(i.groups[g].provider, OP_CHECKSIGVERIFY, buf, before, base, head, 34);
    head := head + KeyOp(i.groups[g].provider, OP_CHECKSIGVERIFY);
    r := EncodeAfter(i.Keepers(), false, buf, before, base, head, 68, max);
    if r < 0 {
      return -1;
    }
    var off := 68 + r;
    head := head + MultisigGroup(i.Keepers(), false);
    r := EncodeAfter(i.Challengers(), false, buf, before, base, head, off, max);
    if r < 0 {
      return -1;
    }
    off := off + r;
    head := head + MultisigGroup(i.Challengers(), false);
    if off + 6 > max {
      return -1;
    }
    r := PutTimelock(i.scalars.pegInCsv, buf, before, base, head, off, max);
  }

  /** OP_SIZE 32 OP_EQUALVERIFY OP_SHA256 h OP_EQUALVERIFY */
  function HashCheck(h: Bytes32): (s: Bytes)
    ensures |s| == 39
  {
    SmallPush(32);
    [OP_SIZE] + PushNumber(32) + [OP_EQUALVERIFY] + [OP_SHA256, OP_PUSHBYTES_32] + h + [OP_EQUALVERIFY]
  }

  /** The head of leaf 0: the preimage check and the two required signers. */
  method PutHashCheck(h: Bytes32, buf: array<Byte>, base: nat)
    requires base + 39 <= buf.Length
    modifies buf
    ensures buf[..] == Splice(old(buf[..]), base, HashCheck(h))
  {
    hide Splice, PushNumber;
    SmallPush(32);
    ghost var before := buf[..];
    Put(buf, base, [OP_SIZE]);
    var n := PutNumber(32, buf, base + 1);
    SpliceSplice(before, base, [OP_SIZE], PushNumber(32));
    ghost var head := [OP_SIZE] + PushNumber(32);
    PutAfter(buf, before, base, head, base + 3, [OP_EQUALVERIFY]);
    head := head + [OP_EQUALVERIFY];
    PutAfter(buf, before, base, head, base + 4, [OP_SHA256, OP_PUSHBYTES_32]);
    head := head + [OP_SHA256, OP_PUSHBYTES_32];
    PutAfter(buf, before, base, head, base + 6, h);
    head := head + h;
    PutAfter(buf, before, base, head, base + 38, [OP_EQUALVERIFY]);
  }

  /** vault_build_htlc_leaf0 */
  method BuildHtlcLeaf0(i: Intent, g: int, h: Bytes32, buf: array<Byte>, base: nat, max: nat) returns (r: int)
    requires i.InRange() && base + max <= buf.Length
    modifies buf
    ensures r >= 0 ==> 0 <= g < i.V()
    ensures 0 <= g < i.V() && max >= SCRIPT_MAX_LEN ==> r >= 0
    ensures r >= 0 ==> r == |HtlcLeaf0(i, g, h)| <= max &&
                       buf[..] == Splice(old(buf[..]), base, HtlcLeaf0(i, g, h))
  {
    if g < 0 || g >= i.V() || 39 > max {
      return -1;
    }
    hide PushNumber, KeyOp, Splice, MultisigGroup;
    MultisigBound(i.Keepers(), false);
    MultisigBound(i.Challengers(), true);
    ghost var before := buf[..];
    PutHashCheck(h, buf, base);
    ghost var head := HashCheck(h);
    if 73 > max {
      return -1;
    }
    KeyOpAfter(i.depositor, OP_CHECKSIGVERIFY, buf, before, base, head, 39);
    head := head + KeyOp(i.depositor, OP_CHECKSIGVERIFY);
    if 107 > max {
      return -1;
    }
    KeyOpAfter(i.groups[g].provider, OP_CHECKSIGVERIFY, buf, before, base, head, 73);
    head := head + KeyOp(i.groups[g].provider, OP_CHECKSIGVERIFY);
    r := EncodeAfter(i.Keepers(), false, buf, before, base, head, 107, max);
    if r < 0 {
      return -1;
    }
    var off := 107 + r;
    head := head + MultisigGroup(i.Keepers(), false);
    r := EncodeAfter(i.Challengers(), true, buf, before, base, head, off, max);
    if r < 0 {
      return -1;
    }
    return off + r;
  }

  lemma RefundPush(v: U16)
    ensures v < 0x8000 ==> |PushNumber(v)| <= 3
  {
    if 16 < v < 0x8000 {
      TimelockPush(v);
    }
  }

  /** vault_build_htlc_leaf1. The length test allows 38 bytes; a timelock of 0x8000 or more, which no loaded intent has,
      takes 39, so the buffer itself must hold the leaf. */
  method BuildHtlcLeaf1(i: Intent, buf: array<Byte>, base: nat, max: nat) returns (r: int)
    requires base + max <= buf.Length && (max >= 38 ==> base + |HtlcLeaf1(i)| <= buf.Length)
    modifies buf
    ensures r == if max < 38 then -1 else |HtlcLeaf1(i)|
    ensures i.scalars.refundTimelock < 0x8000 || max > 38 ==> r <= max
    ensures r >= 0 ==> buf[..] == Splice(old(buf[..]), base, HtlcLeaf1(i))
  {
    if max < 38 {
      return -1;
    }
    hide PushNumber, KeyOp, Splice;
    ghost var before := buf[..];
    RefundPush(i.scalars.refundTimelock);
    PutKeyOp(i.depositor, OP_CHECKSIGVERIFY, buf, base);
    ghost var head := KeyOp(i.depositor, OP_CHECKSIGVERIFY);
    var n := PutNumber(i.scalars.refundTimelock, buf, base + 34);
    SpliceSplice(before, base, head, PushNumber(i.scalars.refundTimelock));
    head := head + PushNumber(i.scalars.refundTimelock);
    PutAfter(buf, before, base, head, base + 34 + n, [OP_CSV]);
    return 35 + n;
  }
}
