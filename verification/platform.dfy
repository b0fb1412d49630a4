/** The device services the app calls: hashes, curve and key derivation. They are parameters of
    the model, so every result holds whatever these functions are. */
module Platforms {
  import opened Octets

  type Bytes33 = b: Bytes | |b| == 33 witness Zeros(33)

  type Parity = b: Byte | b < 2

  datatype Platform = Platform(
    /** BIP44_COIN_TYPE of the build. */
    coinType: U32,
    /** Fingerprint of the device's master key. */
    masterFingerprint: U32,
    sha256: Bytes -> Bytes32,
    /** Longest output script the base app can hash. */
    maxScriptPubKey: nat,
    /** HKDF root of (app name, connected public key, context). */
    hkdf: (Bytes, Bytes33, Bytes) -> Bytes32,
    /** HKDF-Expand of (root, info), one block. */
    expand: (Bytes32, Bytes) -> Bytes32,
    /** The x coordinate is on the curve. */
    liftsX: Bytes32 -> bool,
    /** BIP-32 compressed public key at a path. */
    pubkeyAt: seq<U32> -> Option<Bytes33>,
    /** Tagged hash "TapLeaf". */
    tapLeaf: Bytes -> Bytes32,
    /** Tagged hash "TapBranch". */
    tapBranch: Bytes -> Bytes32,
    /** Output key and parity of (internal key, merkle root). */
    tweak: (Bytes32, Bytes) -> Option<(Parity, Bytes32)>)

  /** Last four bytes of SHA-256. */
  function Fingerprint(p: Platform, data: Bytes): (f: Bytes)
    ensures |f| == 4
  {
    p.sha256(data)[28..]
  }

  /** info(label, ctx) of the vault-secret expansion, with the block counter. */
  function ExpandInfo(tag: Bytes, ctx: Bytes): Bytes
    requires |tag| < 256 && |ctx| < 0x1_0000
  {
    Ascii("babylonbtcvault") + [|tag| as Byte] + tag + BE(|ctx|, 2) + ctx + [1]
  }

  function Ascii(s: string): (b: Bytes)
    requires forall k :: 0 <= k < |s| ==> s[k] < 128 as char
    ensures |b| == |s|
  {
    seq(|s|, k requires 0 <= k < |s| => s[k] as int as Byte)
  }

  function Commitment(p: Platform, root: Bytes32, tag: Bytes, ctx: Bytes): Bytes32
    requires |tag| < 256 && |ctx| < 0x1_0000
  {
    p.sha256(p.expand(root, ExpandInfo(tag, ctx)))
  }

  /** vault_derive_hashlock_commitment */
  function Hashlock(p: Platform, root: Bytes32, vout: Byte): Bytes32 {
    Commitment(p, root, Ascii("hashlock"), [0, 0, 0, vout])
  }

  /** vault_derive_auth_anchor_commitment */
  function AuthAnchor(p: Platform, root: Bytes32): Bytes32 {
    Commitment(p, root, Ascii("auth-anchor"), [])
  }

  /** The expansion inputs are prefix free: label and context can be read back from them. */
  lemma ExpandInfoInjective(l1: Bytes, c1: Bytes, l2: Bytes, c2: Bytes)
    requires |l1| < 256 && |l2| < 256 && |c1| < 0x1_0000 && |c2| < 0x1_0000
    requires ExpandInfo(l1, c1) <= ExpandInfo(l2, c2)
    ensures l1 == l2 && c1 == c2
  {
    Tail(l1, c1);
    Tail(l2, c2);
    var i1, i2 := ExpandInfo(l1, c1), ExpandInfo(l2, c2);
    assert i1[15] == i2[15];
    assert |l1| == |l2|;
    assert i1[16..16 + |l1|] == i2[16..16 + |l1|];
    assert i1[16 + |l1|..18 + |l1|] == i2[16 + |l1|..18 + |l1|];
    assert i1[18 + |l1|..18 + |l1| + |c1|] == i2[18 + |l1|..18 + |l1| + |c1|];
  }

  lemma Tail(l: Bytes, c: Bytes)
    requires |l| < 256 && |c| < 0x1_0000
    ensures var i := ExpandInfo(l, c);
            && i[15] == |l| as Byte && i[16..16 + |l|] == l
            && FromBE(i[16 + |l|..18 + |l|]) == |c|
            && i[18 + |l|..18 + |l| + |c|] == c
  {
    hide BE;
    Pow256Values();
    BEDecodes(|c|, 2);
    var i := ExpandInfo(l, c);
    var head := Ascii("babylonbtcvault");
    var size := [|l| as Byte];
    Middle(head, size, l + BE(|c|, 2) + c + [1]);
    assert i == head + size + (l + BE(|c|, 2) + c + [1]);
    Middle(head + size, l, BE(|c|, 2) + c + [1]);
    assert i == head + size + l + (BE(|c|, 2) + c + [1]);
    Middle(head + size + l, BE(|c|, 2), c + [1]);
    assert i == head + size + l + BE(|c|, 2) + (c + [1]);
    Middle(head + size + l + BE(|c|, 2), c, [1]);
  }
}
