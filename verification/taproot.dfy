/** The taproot commitment check: a sibling path folded up to the output key. */
module Taproot {
  import opened Octets
  import opened Intents
  import opened Platforms
  import opened Script
  import opened LeafStream

  /** NUMS internal key of every vault output. */
  const NUMS: Bytes32 := [
    0x50, 0x92, 0x9b, 0x74, 0xc1, 0xa0, 0x49, 0x54, 0xb7, 0x8b, 0x4b, 0x60, 0x35, 0xe9, 0x7a, 0x5e,
    0x07, 0x8a, 0x5a, 0x0f, 0x28, 0xec, 0x96, 0xd5, 0x47, 0xbf, 0xee, 0x9a, 0xce, 0x80, 0x3a, 0xc0]

  const MAX_TAPTREE_DEPTH: nat := 7
  const CONTROL_BLOCK_MAX: nat := 257

  /** Branch hash of two children in lexicographic order. */
  function Combine(p: Platform, a: Bytes32, b: Bytes32): Bytes32 {
    if Less(b, a) then p.tapBranch(b + a) else p.tapBranch(a + b)
  }

  lemma CombineSymmetric(p: Platform, a: Bytes32, b: Bytes32)
    ensures Combine(p, a, b) == Combine(p, b, a)
  {
    LessTotal(a, b);
    if Less(a, b) && Less(b, a) {
      LessTransitive(a, b, a);
      LessIrreflexive(a);
    }
  }

  function LeafHash(p: Platform, script: Bytes): Bytes32
    requires |script| < 0x1_0000_0000
  {
    p.tapLeaf(LeafPreimage(script))
  }

  /** Fold from the leaf up. */
  function Fold(p: Platform, h: Bytes32, siblings: seq<Bytes32>): Bytes32 {
    if siblings == [] then h
    else Combine(p, Fold(p, h, siblings[..|siblings| - 1]), siblings[|siblings| - 1])
  }

  /** The whole siblings in a control block; a shorter tail is ignored, as the loop does. */
  function Siblings(cb: Bytes, n: nat): (s: seq<Bytes32>)
    requires 33 + 32 * n <= |cb|
    ensures |s| == n
  {
    seq(n, k requires 0 <= k < n => cb[33 + 32 * k..65 + 32 * k])
  }

  function SiblingCount(cb: Bytes): nat {
    if |cb| < 33 then 0 else (|cb| - 33) / 32
  }

  function P2tr(key: Bytes32): (spk: Bytes)
    ensures |spk| == 34
  {
    [OP_1, OP_PUSHBYTES_32] + key
  }

  /** The control block proves that the leaf with hash h is in the tree behind spk. */
  predicate Commits(p: Platform, cb: Bytes, h: Bytes32, spk: Bytes) {
    && |cb| >= 33 && cb[1..33] == NUMS
    && var out := p.tweak(NUMS, Fold(p, h, Siblings(cb, SiblingCount(cb))));
       out.Some? && cb[0] % 2 == out.value.0 && spk == P2tr(out.value.1)
  }

  /** _refund_verify_taproot_commitment */
  method VerifyTaprootCommitment(p: Platform, cb: Bytes, leafHash: Bytes32, spk: Bytes) returns (ok: bool)
    requires |spk| == 34
    ensures ok <==> Commits(p, cb, leafHash, spk)
  {
    if |cb| < 33 {
      return false;
    }
    var internalKey: Bytes32 := cb[1..33];
    if internalKey != NUMS {
      return false;
    }
    var root := leafHash;
    var pos := 33;
    ghost var k := 0;
    while pos + 32 <= |cb|
      invariant pos == 33 + 32 * k <= |cb|
      invariant root == Fold(p, leafHash, Siblings(cb, k))
    {
      var sibling: Bytes32 := cb[pos..pos + 32];
      assert Siblings(cb, k + 1)[..k] == Siblings(cb, k) && Siblings(cb, k + 1)[k] == sibling;
      root := Combine(p, root, sibling);
      pos := pos + 32;
      k := k + 1;
    }
    assert k == SiblingCount(cb);
    var out := p.tweak(internalKey, root);
    if out.None? || cb[0] % 2 != out.value.0 {
      return false;
    }
    ok := spk[0] == OP_1 && spk[1] == OP_PUSHBYTES_32 && spk[2..] == out.value.1;
    assert ok ==> spk == [spk[0], spk[1]] + spk[2..];
  }

  // ---------------------------------------------------------------------------------------------
  // Trees

  datatype Tree = Leaf(hash: Bytes32) | Branch(left: Tree, right: Tree)

  function Root(p: Platform, t: Tree): Bytes32 {
    match t
    case Leaf(h) => h
    case Branch(l, r) => Combine(p, Root(p, l), Root(p, r))
  }

  /** The subtree reached by turning right where the path says true. */
  function NodeAt(t: Tree, path: seq<bool>): Option<Tree> {
    if path == [] then Some(t)
    else match t
      case Leaf(_) => None
      case Branch(l, r) => NodeAt(if path[0] then r else l, path[1..])
  }

  /** The hashes next to the path, from the bottom up. */
  function SiblingPath(p: Platform, t: Tree, path: seq<bool>): (s: seq<Bytes32>)
    requires NodeAt(t, path).Some?
    ensures |s| == |path|
  {
    if path == [] then []
    else
      SiblingPath(p, if path[0] then t.right else t.left, path[1..])
      + [Root(p, if path[0] then t.left else t.right)]
  }

  lemma {:induction false} FoldReachesRoot(p: Platform, t: Tree, path: seq<bool>)
    requires NodeAt(t, path).Some?
    ensures Fold(p, Root(p, NodeAt(t, path).value), SiblingPath(p, t, path)) == Root(p, t)
    decreases |path|
  {
    hide Combine;
    if path != [] {
      var child := if path[0] then t.right else t.left;
      FoldReachesRoot(p, child, path[1..]);
      var s := SiblingPath(p, t, path);
      assert s[..|s| - 1] == SiblingPath(p, child, path[1..]);
      CombineSymmetric(p, Root(p, t.left), Root(p, t.right));
    }
  }

  function Concat32(parts: seq<Bytes32>): (s: Bytes)
    ensures |s| == 32 * |parts|
  {
    if parts == [] then [] else Concat32(parts[..|parts| - 1]) + parts[|parts| - 1]
  }

  lemma {:induction false} Concat32At(parts: seq<Bytes32>, k: nat)
    requires k < |parts|
    ensures Concat32(parts)[32 * k..32 * k + 32] == parts[k]
    decreases |parts|
  {
    var front := parts[..|parts| - 1];
    if k < |parts| - 1 {
      Concat32At(front, k);
      assert Concat32(parts)[32 * k..32 * k + 32] == Concat32(front)[32 * k..32 * k + 32];
    }
  }

  /** The control block of BIP-341 for a leaf: version and parity, internal key, sibling path. */
  function ControlBlock(parity: Parity, siblings: seq<Bytes32>): (cb: Bytes)
    ensures |cb| == 33 + 32 * |siblings|
  {
    [LEAF_VERSION + parity] + NUMS + Concat32(siblings)
  }

  lemma ControlBlockReads(parity: Parity, siblings: seq<Bytes32>)
    ensures var cb := ControlBlock(parity, siblings);
            && cb[1..33] == NUMS && cb[0] % 2 == parity
            && SiblingCount(cb) == |siblings| && Siblings(cb, |siblings|) == siblings
  {
    var cb := ControlBlock(parity, siblings);
    var tail := Concat32(siblings);
    forall k | 0 <= k < |siblings| ensures Siblings(cb, |siblings|)[k] == siblings[k] {
      Concat32At(siblings, k);
      assert cb[33 + 32 * k..65 + 32 * k] == tail[32 * k..32 * k + 32];
    }
  }

  /** In any tree of depth at most 7, the control block built from the sibling path of any leaf fits
      the device's buffer and passes the check against that tree's output key. */
  lemma AnyLeafVerifies(p: Platform, t: Tree, path: seq<bool>, parity: Parity, key: Bytes32)
    requires NodeAt(t, path).Some? && NodeAt(t, path).value.Leaf? && |path| <= MAX_TAPTREE_DEPTH
    requires p.tweak(NUMS, Root(p, t)) == Some((parity, key))
    ensures var cb := ControlBlock(parity, SiblingPath(p, t, path));
            |cb| <= CONTROL_BLOCK_MAX && Commits(p, cb, NodeAt(t, path).value.hash, P2tr(key))
  {
    hide NUMS, ControlBlock;
    FoldReachesRoot(p, t, path);
    ControlBlockReads(parity, SiblingPath(p, t, path));
  }

  // ---------------------------------------------------------------------------------------------
  // Binding

  /** The 64 bytes whose hash joins two children. */
  function Joined(a: Bytes32, b: Bytes32): (s: Bytes)
    ensures |s| == 64
  {
    if Less(b, a) then b + a else a + b
  }

  lemma JoinedDetermines(a: Bytes32, b: Bytes32, c: Bytes32, d: Bytes32)
    requires Joined(a, b) == Joined(c, d)
    ensures (a == c && b == d) || (a == d && b == c)
  {
    assert Joined(a, b)[..32] == Joined(c, d)[..32] && Joined(a, b)[32..] == Joined(c, d)[32..];
  }

  /** Where following a control block down a tree ends: at a node as deep as the block, at a branch whose children are
      not the pair the block joins there, or at a leaf that the block joins a pair into. */
  datatype Descent = Reaches(path: seq<bool>) | OtherPair(path: seq<bool>) | PastLeaf(path: seq<bool>)
  {
    function Under(turn: bool): Descent {
      match this
      case Reaches(path) => Reaches([turn] + path)
      case OtherPair(path) => OtherPair([turn] + path)
      case PastLeaf(path) => PastLeaf([turn] + path)
    }
  }

  /** Descend from the root, at each branch into the child that the lower siblings fold to. */
  function Descend(p: Platform, t: Tree, h: Bytes32, siblings: seq<Bytes32>): Descent
    decreases |siblings|
  {
    if siblings == [] then Reaches([])
    else
      match t
      case Leaf(_) => PastLeaf([])
      case Branch(l, r) =>
        var front, last := siblings[..|siblings| - 1], siblings[|siblings| - 1];
        if Joined(Fold(p, h, front), last) != Joined(Root(p, l), Root(p, r)) then OtherPair([])
        else
          var right := Fold(p, h, front) != Root(p, l);
          Descend(p, if right then r else l, h, front).Under(right)
  }

  /** The pair the control block joins at the node below the given number of turns. */
  function PairAt(p: Platform, h: Bytes32, siblings: seq<Bytes32>, turns: nat): (s: Bytes)
    requires turns < |siblings|
    ensures |s| == 64
  {
    var level := |siblings| - turns;
    Joined(Fold(p, h, siblings[..level - 1]), siblings[level - 1])
  }

  /** What each end of the descent means for the hashes met on the way. */
  predicate DescentMeans(p: Platform, t: Tree, h: Bytes32, siblings: seq<Bytes32>, end: Descent) {
    && NodeAt(t, end.path).Some?
    && var node := NodeAt(t, end.path).value;
       match end
       case Reaches(path) => Root(p, node) == h && siblings == SiblingPath(p, t, path)
       case OtherPair(path) =>
         && |path| < |siblings| && node.Branch?
         && PairAt(p, h, siblings, |path|) != Joined(Root(p, node.left), Root(p, node.right))
         && p.tapBranch(PairAt(p, h, siblings, |path|)) == p.tapBranch(Joined(Root(p, node.left), Root(p, node.right)))
       case PastLeaf(path) =>
         |path| < |siblings| && node.Leaf? && p.tapBranch(PairAt(p, h, siblings, |path|)) == node.hash
  }

  lemma {:induction false} FoldDescends(p: Platform, t: Tree, h: Bytes32, siblings: seq<Bytes32>)
    requires Fold(p, h, siblings) == Root(p, t)
    ensures DescentMeans(p, t, h, siblings, Descend(p, t, h, siblings))
    decreases |siblings|
  {
    hide Joined;
    FoldJoins(p, h, siblings);
    if siblings != [] && t.Branch? {
      RootJoins(p, t);
      var front, last := siblings[..|siblings| - 1], siblings[|siblings| - 1];
      if Joined(Fold(p, h, front), last) == Joined(Root(p, t.left), Root(p, t.right)) {
        JoinedDetermines(Fold(p, h, front), last, Root(p, t.left), Root(p, t.right));
        var right := Fold(p, h, front) != Root(p, t.left);
        var child := if right then t.right else t.left;
        FoldDescends(p, child, h, front);
        DescentUnder(p, t, h, siblings, right, Descend(p, child, h, front));
      }
    }
  }

  lemma FoldJoins(p: Platform, h: Bytes32, siblings: seq<Bytes32>)
    ensures siblings != [] ==> Fold(p, h, siblings) == p.tapBranch(PairAt(p, h, siblings, 0))
  {
  }

  lemma RootJoins(p: Platform, t: Tree)
    requires t.Branch?
    ensures Root(p, t) == p.tapBranch(Joined(Root(p, t.left), Root(p, t.right)))
  {
  }

  /** An end below a child is an end below its parent, one turn deeper. */
  lemma DescentUnder(p: Platform, t: Tree, h: Bytes32, siblings: seq<Bytes32>, right: bool, end: Descent)
    requires siblings != [] && t.Branch? && siblings[|siblings| - 1] == Root(p, if right then t.left else t.right)
    requires DescentMeans(p, if right then t.right else t.left, h, siblings[..|siblings| - 1], end)
    ensures DescentMeans(p, t, h, siblings, end.Under(right))
  {
    hide Joined, Fold, Root;
    var front := siblings[..|siblings| - 1];
    assert ([right] + end.path)[1..] == end.path;
    assert siblings == front + [siblings[|siblings| - 1]];
    if |end.path| < |front| {
      var level := |front| - |end.path|;
      assert siblings[..level - 1] == front[..level - 1] && siblings[level - 1] == front[level - 1];
      assert PairAt(p, h, siblings, |end.path| + 1) == PairAt(p, h, front, |end.path|);
    }
  }

  /** Conversely, whatever passes the check against a tree's output key is a node of that tree with its own sibling path in the
      control block, unless hashes coincide that can be named: the two roots tweak to one x-only key, or the descent along
      the control block stops at two different pairs with one branch hash, or at a leaf whose hash is the branch hash of
      the pair the block joins there. */
  lemma CommitmentBinds(p: Platform, t: Tree, cb: Bytes, h: Bytes32, spk: Bytes)
    requires Commits(p, cb, h, spk)
    requires p.tweak(NUMS, Root(p, t)).Some? && spk == P2tr(p.tweak(NUMS, Root(p, t)).value.1)
    ensures var siblings := Siblings(cb, SiblingCount(cb));
            var root := Fold(p, h, siblings);
            if root == Root(p, t) then
              DescentMeans(p, t, h, siblings, Descend(p, t, h, siblings))
            else
              p.tweak(NUMS, root).Some? && p.tweak(NUMS, root).value.1 == p.tweak(NUMS, Root(p, t)).value.1
  {
    hide NUMS, Combine, DescentMeans, Descend;
    var siblings := Siblings(cb, SiblingCount(cb));
    var root := Fold(p, h, siblings);
    assert spk[2..] == p.tweak(NUMS, root).value.1 && spk[2..] == p.tweak(NUMS, Root(p, t)).value.1;
    if root == Root(p, t) {
      FoldDescends(p, t, h, siblings);
    }
  }

  // ---------------------------------------------------------------------------------------------
  // HTLC outputs

  function HtlcTree(p: Platform, i: Intent, g: nat, h: Bytes32): Tree
    requires i.InRange() && g < i.V()
  {
    LeafLengths(i, g, h);
    Branch(Leaf(LeafHash(p, HtlcLeaf0(i, g, h))), Leaf(LeafHash(p, HtlcLeaf1(i))))
  }

  lemma LeafLengths(i: Intent, g: nat, h: Bytes32)
    requires i.InRange() && g < i.V()
    ensures |HtlcLeaf0(i, g, h)| <= SCRIPT_MAX_LEN && |HtlcLeaf1(i)| <= 39
    ensures |VaultUtxoLeaf(i, g)| <= SCRIPT_MAX_LEN
  {
    hide PushNumber, Signers, KeyOp;
  }

  /** vault_build_htlc_merkle_root */
  function HtlcMerkleRoot(p: Platform, i: Intent, g: nat, h: Bytes32): Bytes32
    requires i.InRange() && g < i.V()
  {
    Root(p, HtlcTree(p, i, g, h))
  }

  /** vault_taproot_tweak_scriptpubkey */
  function TweakedSpk(p: Platform, root: Bytes32): (spk: Option<Bytes>)
    ensures spk.Some? ==> |spk.value| == 34
  {
    var out := p.tweak(NUMS, root);
    if out.None? then None else Some(P2tr(out.value.1))
  }

  /** vault_build_htlc_scriptpubkey */
  function HtlcSpk(p: Platform, i: Intent, g: nat, h: Bytes32): Option<Bytes>
    requires i.InRange() && g < i.V()
  {
    TweakedSpk(p, HtlcMerkleRoot(p, i, g, h))
  }

  /** vault_build_vault_utxo_scriptpubkey: a single leaf is its own root. */
  function VaultUtxoSpk(p: Platform, i: Intent, g: nat): (spk: Option<Bytes>)
    requires i.InRange() && g < i.V()
    ensures spk.Some? ==> |spk.value| == 34
  {
    LeafLengths(i, g, ZERO32);
    TweakedSpk(p, LeafHash(p, VaultUtxoLeaf(i, g)))
  }

  /** vault_build_depositor_claim_scriptpubkey */
  function ClaimSpk(p: Platform, i: Intent): (spk: Option<Bytes>)
    ensures spk.Some? ==> |spk.value| == 34
  {
    TweakedSpk(p, LeafHash(p, DepositorClaimLeaf(i)))
  }

  /** Against the HTLC output, a control block with one sibling proves one of its two leaves, with the other as sibling,
      or two roots with one key, or one of two named pairs of 32-byte strings with the hash of the other. */
  lemma HtlcSpendsItsLeaves(p: Platform, i: Intent, g: nat, h: Bytes32, cb: Bytes, leafHash: Bytes32)
    requires i.InRange() && g < i.V() && SiblingCount(cb) == 1
    requires HtlcSpk(p, i, g, h).Some? && Commits(p, cb, leafHash, HtlcSpk(p, i, g, h).value)
    ensures var t := HtlcTree(p, i, g, h);
            var sibling: Bytes32 := cb[33..65];
            var root := Combine(p, leafHash, sibling);
            || (leafHash == t.left.hash && sibling == t.right.hash)
            || (leafHash == t.right.hash && sibling == t.left.hash)
            || (root != Root(p, t) && p.tweak(NUMS, root).Some?
                && p.tweak(NUMS, root).value.1 == p.tweak(NUMS, Root(p, t)).value.1)
            || (Joined(leafHash, sibling) != Joined(t.left.hash, t.right.hash)
                && p.tapBranch(Joined(leafHash, sibling)) == p.tapBranch(Joined(t.left.hash, t.right.hash)))
  {
    hide NUMS, Commits, Joined;
    var t := HtlcTree(p, i, g, h);
    var sibling: Bytes32 := cb[33..65];
    var siblings := Siblings(cb, 1);
    assert siblings == [sibling] && siblings[..0] == [];
    assert Fold(p, leafHash, siblings[..0]) == leafHash;
    CommitmentBinds(p, t, cb, leafHash, HtlcSpk(p, i, g, h).value);
    if Joined(leafHash, sibling) == Joined(t.left.hash, t.right.hash) {
      JoinedDetermines(leafHash, sibling, t.left.hash, t.right.hash);
    } else if Combine(p, leafHash, sibling) == Root(p, t) {
      FoldJoins(p, leafHash, siblings);
      RootJoins(p, t);
    }
  }

  /** Both HTLC leaves verify against the HTLC scriptPubKey, each with the other's hash as its path. */
  lemma HtlcLeavesVerify(p: Platform, i: Intent, g: nat, h: Bytes32, parity: Parity, key: Bytes32)
    requires i.InRange() && g < i.V()
    requires p.tweak(NUMS, HtlcMerkleRoot(p, i, g, h)) == Some((parity, key))
    ensures var t := HtlcTree(p, i, g, h);
            && HtlcSpk(p, i, g, h) == Some(P2tr(key))
            && Commits(p, ControlBlock(parity, [t.right.hash]), t.left.hash, P2tr(key))
            && Commits(p, ControlBlock(parity, [t.left.hash]), t.right.hash, P2tr(key))
  {
    hide NUMS, ControlBlock, Commits, Combine;
    var t := HtlcTree(p, i, g, h);
    assert NodeAt(t, [false]) == Some(t.left) by {
      assert [false][1..] == [];
    }
    assert NodeAt(t, [true]) == Some(t.right) by {
      assert [true][1..] == [];
    }
    assert SiblingPath(p, t, [false]) == [t.right.hash] by {
      assert [false][1..] == [];
    }
    assert SiblingPath(p, t, [true]) == [t.left.hash] by {
      assert [true][1..] == [];
    }
    AnyLeafVerifies(p, t, [false], parity, key);
    AnyLeafVerifies(p, t, [true], parity, key);
  }
}
