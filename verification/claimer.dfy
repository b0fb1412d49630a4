/** Detecting the Payout claimer inside the aliased scratch union. */
module Claimer {
  import opened Octets
  import opened Intents
  import opened Script
  import opened Builders
  import opened LeafParsers
  import opened LoadingLemmas

  /** Offsets in vault_scratch_t: the tls member and leaf_check.actual_buf overlap. */
  const SCRATCH_SIZE: nat := 5120
  const CONTROL_BLOCK_OFF: nat := 2
  const LEAF_SCRIPT_OFF: nat := 262
  const LEAF_SCRIPT_LEN_OFF: nat := 2824
  const ACTUAL_BUF_OFF: nat := 2560

  /** The first role holding this key: provider, then keepers, then depositor. */
  function ClaimerByKey(i: Intent, g: nat, key: Bytes32): (r: Option<nat>)
    requires i.InRange() && g < i.V()
    ensures r.Some? ==> r.value <= i.N() + 1 && ClaimerKey(i, g, r.value) == key
  {
    if key == i.groups[g].provider then Some(0)
    else
      var k := KeeperIndex(i, key, 0);
      if k.Some? then Some(k.value + 1)
      else if key == i.depositor then Some(i.N() + 1)
      else None
  }

  function KeeperIndex(i: Intent, key: Bytes32, from: nat): (r: Option<nat>)
    requires i.InRange() && from <= i.N()
    ensures r.Some? ==> from <= r.value < i.N() && i.keeperPks[r.value] == key
    ensures r.None? ==> forall k :: from <= k < i.N() ==> i.keeperPks[k] != key
    decreases i.N() - from
  {
    if from == i.N() then None
    else if i.keeperPks[from] == key then Some(from)
    else KeeperIndex(i, key, from + 1)
  }

  /** The claimer whose leaf, rebuilt from the intent, is the host's leaf. */
  function DetectClaimer(i: Intent, g: nat, script: Bytes): (r: Option<nat>)
    requires i.InRange() && g < i.V()
    ensures r.Some? ==> r.value <= i.N() + 1
  {
    if |script| < 34 || script[0] != OP_PUSHBYTES_32 then None
    else
      var c := ClaimerByKey(i, g, script[1..33]);
      if c.None? || Assert0PayoutLeaf(i, g, c.value) != script then None else c
  }

  /** The length field of the tls member, as stored in the union. */
  function StoredLeafLen(scratch: Bytes): nat
    requires |scratch| == SCRATCH_SIZE
  {
    FromLE(scratch[LEAF_SCRIPT_LEN_OFF..LEAF_SCRIPT_LEN_OFF + 4])
  }

  /** tls.leaf_script */
  function StoredLeaf(scratch: Bytes): Bytes
    requires |scratch| == SCRATCH_SIZE && StoredLeafLen(scratch) <= SCRIPT_MAX_LEN
  {
    scratch[LEAF_SCRIPT_OFF..LEAF_SCRIPT_OFF + StoredLeafLen(scratch)]
  }

  /** _detect_payout_claimer. The rebuilt leaf goes to actual_buf, over the tail of leaf_script and over
      leaf_script_len; everything below actual_buf, the control block included, is left as it was. */
  method DetectPayoutClaimer(i: Intent, g: nat, scratch: array<Byte>, buffered: bool) returns (c: int)
    requires i.InRange() && g < i.V() && scratch.Length == SCRATCH_SIZE
    requires buffered ==> StoredLeafLen(scratch[..]) <= SCRIPT_MAX_LEN
    modifies scratch
    ensures c == -1 || 0 <= c <= i.N() + 1
    ensures c >= 0 <==> buffered && DetectClaimer(i, g, old(StoredLeaf(scratch[..]))).Some?
    ensures c >= 0 ==> DetectClaimer(i, g, old(StoredLeaf(scratch[..]))) == Some(c)
    ensures scratch[..ACTUAL_BUF_OFF] == old(scratch[..ACTUAL_BUF_OFF])
  {
    hide Assert0PayoutLeaf, FromLE, Splice, ClaimerKey, ClaimerByKey, PayoutLeafFits;
    if !buffered {
      return -1;
    }
    ghost var before := scratch[..];
    var scriptLen := FromLE(scratch[LEAF_SCRIPT_LEN_OFF..LEAF_SCRIPT_LEN_OFF + 4]);
    assert scratch[..][LEAF_SCRIPT_LEN_OFF..LEAF_SCRIPT_LEN_OFF + 4]
        == scratch[LEAF_SCRIPT_LEN_OFF..LEAF_SCRIPT_LEN_OFF + 4];
    ghost var leaf := StoredLeaf(before);
    if scriptLen < 34 || scratch[LEAF_SCRIPT_OFF] != OP_PUSHBYTES_32 {
      return -1;
    }
    var hostKey: Bytes32 := scratch[LEAF_SCRIPT_OFF + 1..LEAF_SCRIPT_OFF + 33];
    assert hostKey == leaf[1..33];
    c := MatchKey(i, g, hostKey);
    if c < 0 {
      return -1;
    }
    PayoutLeafLength(i, g, c);
    var leafLen := BuildAssert0PayoutLeaf(i, g, c, scratch, ACTUAL_BUF_OFF, SCRIPT_MAX_LEN);
    ghost var rebuilt := Assert0PayoutLeaf(i, g, c);
    SpliceRegions(before, ACTUAL_BUF_OFF, rebuilt);
    assert leafLen == |rebuilt| <= 2228;
    if leafLen != scriptLen {
      return -1;
    }
    BelowUnchanged(before, scratch[..], LEAF_SCRIPT_OFF, LEAF_SCRIPT_OFF + leafLen);
    if scratch[ACTUAL_BUF_OFF..ACTUAL_BUF_OFF + leafLen] != scratch[LEAF_SCRIPT_OFF..LEAF_SCRIPT_OFF + leafLen] {
      return -1;
    }
  }

  lemma BelowUnchanged(before: Bytes, after: Bytes, from: nat, to: nat)
    requires from <= to <= ACTUAL_BUF_OFF <= |before| && |after| == |before|
    requires after[..ACTUAL_BUF_OFF] == before[..ACTUAL_BUF_OFF]
    ensures after[from..to] == before[from..to]
  {
    forall k | from <= k < to ensures after[k] == before[k] {
      assert after[k] == after[..ACTUAL_BUF_OFF][k] && before[k] == before[..ACTUAL_BUF_OFF][k];
    }
  }

  lemma SpliceRegions(b: Bytes, off: nat, s: Bytes)
    requires off + |s| <= |b|
    ensures Splice(b, off, s)[..off] == b[..off]
    ensures Splice(b, off, s)[off..off + |s|] == s
  {
  }

  /** The key scan. */
  method MatchKey(i: Intent, g: nat, key: Bytes32) returns (c: int)
    requires i.InRange() && g < i.V()
    ensures c == (if ClaimerByKey(i, g, key).Some? then ClaimerByKey(i, g, key).value else -1)
  {
    c := -1;
    if key == i.groups[g].provider {
      return 0;
    }
    for k := 0 to i.N()
      invariant KeeperIndex(i, key, 0) == KeeperIndex(i, key, k)
    {
      if key == i.keeperPks[k] {
        return k + 1;
      }
    }
    if key == i.depositor {
      return i.N() + 1;
    }
  }

  /** With the loader's disjoint roles a key has one claimer index. */
  lemma ClaimerKeysDistinct(i: Intent, g: nat, c: nat)
    requires i.InRange() && g < i.V() && c <= i.N() + 1 && RolesDisjoint(i)
    ensures ClaimerByKey(i, g, ClaimerKey(i, g, c)) == Some(c)
  {
    hide Less, Ascending;
    if 1 <= c <= i.N() {
      assert i.groups[g].provider != i.keeperPks[c - 1];
      var k := KeeperIndex(i, i.keeperPks[c - 1], 0);
      assert k.Some?;
      assert i.Keepers()[k.value] == i.Keepers()[c - 1];
      AscendingDistinct(i.Keepers(), k.value, c - 1);
    }
  }

  /** The claimer is c exactly when the host leaf is the leaf built for c: nothing else is accepted,
      no built leaf is missed, and the index is unique. */
  lemma DetectsExactly(i: Intent, g: nat, script: Bytes, c: nat)
    requires i.InRange() && g < i.V() && RolesDisjoint(i)
    ensures DetectClaimer(i, g, script) == Some(c) <==> c <= i.N() + 1 && script == Assert0PayoutLeaf(i, g, c)
  {
    hide Assert0PayoutLeaf, RolesDisjoint;
    if c <= i.N() + 1 && script == Assert0PayoutLeaf(i, g, c) {
      PayoutLeafShape(i, g, c);
      ClaimerKeysDistinct(i, g, c);
    }
  }
}
