/** What it takes to spend each leaf: the scripts run on the evaluator, with the keys named by role. */
module LeafSpends {
  import opened Octets
  import opened Intents
  import opened Script
  import opened ScriptTheorems
  import opened LoadingLemmas
  import opened Tapscript
  import opened Claimer
  import opened LeafDispatch

  /** Timelocks in the range of every loaded intent. */
  predicate TimelocksOk(i: Intent) {
    && 1 <= i.scalars.pegInCsv < 0x8000 && 1 <= i.scalars.payoutTimelock < 0x8000 && 1 <= i.scalars.refundTimelock < 0x8000
  }

  /** Element k from the top. */
  function Top(w: Stack, k: nat): Bytes
    requires k < |w|
  {
    w[|w| - 1 - k]
  }

  /** The elements from depth on, counted from the top, are valid signatures of the keys in order. */
  predicate AllSign(e: Spend, keys: seq<Bytes32>, w: Stack, depth: nat) {
    |w| >= depth + |keys| && forall k :: 0 <= k < |keys| ==> Signs(e, keys[k], Top(w, depth + k))
  }

  lemma Deeper(e: Spend, keys: seq<Bytes32>, w: Stack, depth: nat)
    requires depth <= |w|
    ensures AllSign(e, keys, w, depth) <==> GroupSigns(e, keys, w[..|w| - depth])
  {
    var below := w[..|w| - depth];
    if AllSign(e, keys, w, depth) {
      forall k | 0 <= k < |keys| ensures Signs(e, keys[k], below[|below| - 1 - k]) {
        assert Signs(e, keys[k], Top(w, depth + k));
      }
    }
    if GroupSigns(e, keys, below) {
      forall k | 0 <= k < |keys| ensures Signs(e, keys[k], Top(w, depth + k)) {
        assert Signs(e, keys[k], below[|below| - 1 - k]);
      }
    }
  }

  /** The depositor, then two signer groups, then the rest of the script. */
  lemma ExecTwoGroups(e: Spend, a: seq<Bytes32>, b: seq<Bytes32>, rest: Bytes, w: Stack, depth: nat)
    requires 1 <= |a| <= 32 && 1 <= |b| <= 32 && depth <= |w|
    ensures Exec(e, MultisigGroup(a, false) + MultisigGroup(b, false) + rest, w[..|w| - depth]) <==>
              && AllSign(e, a, w, depth) && AllSign(e, b, w, depth + |a|)
              && Exec(e, rest, w[..|w| - depth - |a| - |b|])
  {
    hide Exec, MultisigGroup, GroupSigns, AllSign;
    var st := w[..|w| - depth];
    assert MultisigGroup(a, false) + MultisigGroup(b, false) + rest
        == MultisigGroup(a, false) + (MultisigGroup(b, false) + rest);
    ExecGroup(e, a, MultisigGroup(b, false) + rest, st);
    Deeper(e, a, w, depth);
    GroupNeedsStack(e, a, st);
    SignsNeedStack(e, a, w, depth);
    SignsNeedStack(e, b, w, depth + |a|);
    if |st| >= |a| {
      var next := st[..|st| - |a|];
      assert next == w[..|w| - (depth + |a|)];
      ExecGroup(e, b, rest, next);
      Deeper(e, b, w, depth + |a|);
      GroupNeedsStack(e, b, next);
      if |next| >= |b| {
        assert next[..|next| - |b|] == w[..|w| - depth - |a| - |b|];
      }
    }
  }

  lemma SignsNeedStack(e: Spend, keys: seq<Bytes32>, w: Stack, depth: nat)
    ensures AllSign(e, keys, w, depth) ==> |w| >= depth + |keys|
  {
  }

  /** One key that must sign, below the elements already taken. */
  lemma ExecVerifyAt(e: Spend, key: Bytes32, rest: Bytes, w: Stack, depth: nat)
    requires depth <= |w|
    ensures Exec(e, KeyOp(key, OP_CHECKSIGVERIFY) + rest, w[..|w| - depth]) <==>
              |w| > depth && Signs(e, key, Top(w, depth)) && Exec(e, rest, w[..|w| - (depth + 1)])
  {
    hide Exec, KeyOp;
    var st := w[..|w| - depth];
    ExecVerify(e, key, rest, st);
    if |w| > depth {
      assert st[..|st| - 1] == w[..|w| - (depth + 1)];
    }
  }

  // ---------------------------------------------------------------------------------------------
  // Depositor leaves

  /** The depositor's claim leaf: one signature. */
  lemma ClaimLeafSpend(e: Spend, i: Intent, w: Stack)
    ensures Exec(e, DepositorClaimLeaf(i), w) <==> |w| == 1 && Signs(e, i.depositor, w[0])
  {
    ExecLastKey(e, i.depositor, w);
  }

  lemma ExecLastKey(e: Spend, key: Bytes32, w: Stack)
    ensures Exec(e, KeyOp(key, OP_CHECKSIG), w) <==> |w| == 1 && Signs(e, key, w[0])
  {
    hide KeyOp;
    assert KeyOp(key, OP_CHECKSIG) + [] == KeyOp(key, OP_CHECKSIG);
    ExecKeyOp(e, key, OP_CHECKSIG, [], w);
    if w != [] {
      FlagTruthy(w[|w| - 1] != []);
      assert (w + [key])[..|w| - 1] == w[..|w| - 1];
    }
  }

  /** HTLC leaf 1: the depositor, after the refund timelock. */
  lemma RefundLeafSpend(e: Spend, i: Intent, w: Stack)
    requires TimelocksOk(i)
    ensures Exec(e, HtlcLeaf1(i), w) <==> |w| == 1 && Signs(e, i.depositor, w[0]) && e.older(i.scalars.refundTimelock)
  {
    hide Exec, KeyOp, PushNumber;
    var tail := PushNumber(i.scalars.refundTimelock) + [OP_CSV];
    assert HtlcLeaf1(i) == KeyOp(i.depositor, OP_CHECKSIGVERIFY) + tail;
    ExecVerify(e, i.depositor, tail, w);
    if w != [] {
      ExecTimelock(e, i.scalars.refundTimelock, w[..|w| - 1]);
    }
  }

  /** NoPayout leaf: the depositor and the challenger. */
  lemma NoPayoutLeafSpend(e: Spend, i: Intent, challenger: Bytes32, w: Stack)
    ensures Exec(e, NoPayoutLeaf(i, challenger), w) <==>
              |w| == 2 && Signs(e, i.depositor, w[1]) && Signs(e, challenger, w[0])
  {
    hide Exec, KeyOp;
    ExecVerify(e, i.depositor, KeyOp(challenger, OP_CHECKSIG), w);
    if w != [] {
      ExecLastKey(e, challenger, w[..|w| - 1]);
    }
  }

  // ---------------------------------------------------------------------------------------------
  // Vault UTXO and HTLC

  /** Vault UTXO leaf: depositor, provider, every keeper and every challenger, after the PegIn timelock. */
  lemma VaultLeafSpend(e: Spend, i: Intent, g: nat, w: Stack)
    requires i.InRange() && g < i.V() && TimelocksOk(i)
    ensures Exec(e, VaultUtxoLeaf(i, g), w) <==>
              && |w| == 2 + i.N() + i.M()
              && Signs(e, i.depositor, Top(w, 0)) && Signs(e, i.groups[g].provider, Top(w, 1))
              && AllSign(e, i.Keepers(), w, 2) && AllSign(e, i.Challengers(), w, 2 + i.N())
              && e.older(i.scalars.pegInCsv)
  {
    hide Exec, KeyOp, PushNumber, MultisigGroup, AllSign;
    var time := PushNumber(i.scalars.pegInCsv) + [OP_CSV];
    var groups := MultisigGroup(i.Keepers(), false) + MultisigGroup(i.Challengers(), false) + time;
    var tail := KeyOp(i.groups[g].provider, OP_CHECKSIGVERIFY) + groups;
    assert VaultUtxoLeaf(i, g) == KeyOp(i.depositor, OP_CHECKSIGVERIFY) + tail;
    assert w[..|w| - 0] == w;
    ExecVerifyAt(e, i.depositor, tail, w, 0);
    if |w| >= 1 {
      ExecVerifyAt(e, i.groups[g].provider, groups, w, 1);
    }
    if |w| >= 2 {
      ExecTwoGroups(e, i.Keepers(), i.Challengers(), time, w, 2);
      SignsNeedStack(e, i.Challengers(), w, 2 + i.N());
      if |w| >= 2 + i.N() + i.M() {
        ExecTimelock(e, i.scalars.pegInCsv, w[..|w| - 2 - i.N() - i.M()]);
      }
    }
  }

  /** OP_SIZE <32> OP_EQUALVERIFY lets only 32 bytes on top through. */
  lemma ExecSize(e: Spend, rest: Bytes, w: Stack)
    ensures Exec(e, [OP_SIZE] + (PushNumber(32) + ([OP_EQUALVERIFY] + rest)), w) <==>
              w != [] && |Top(w, 0)| == 32 && Exec(e, rest, w)
  {
    hide Exec, PushNumber, ScriptNum;
    var compare := [OP_EQUALVERIFY] + rest;
    ExecOp(e, OP_SIZE, PushNumber(32) + compare, w);
    if w != [] {
      var n := |Top(w, 0)|;
      var sized := w + [ScriptNum(n)];
      ExecNumber(e, 32, compare, sized);
      ExecOp(e, OP_EQUALVERIFY, rest, sized + [NumBytes(32)]);
      SizeCompares(n);
      Compared(w, ScriptNum(n), NumBytes(32));
    }
  }

  /** OP_SHA256 <h> and a comparison. */
  lemma ExecHash(e: Spend, h: Bytes32, op: Byte, rest: Bytes, w: Stack)
    requires w != [] && Known(op)
    ensures Exec(e, [OP_SHA256] + ([OP_PUSHBYTES_32] + h + ([op] + rest)), w) <==>
              var both := w[..|w| - 1] + [e.sha256(Top(w, 0))] + [h];
              Apply(e, op, both).Some? && Exec(e, rest, Apply(e, op, both).value)
  {
    hide Exec;
    var hashed := w[..|w| - 1] + [e.sha256(Top(w, 0))];
    ExecOp(e, OP_SHA256, [|h| as Byte] + h + ([op] + rest), w);
    ExecPush(e, h, [op] + rest, hashed);
    ExecOp(e, op, rest, hashed + [h]);
  }

  /** OP_SIZE <32> OP_EQUALVERIFY OP_SHA256 <h> OP_EQUALVERIFY takes a 32-byte preimage of h. */
  lemma ExecHashlock(e: Spend, h: Bytes32, rest: Bytes, w: Stack)
    ensures Exec(e, [OP_SIZE] + PushNumber(32) + [OP_EQUALVERIFY] + [OP_SHA256, OP_PUSHBYTES_32] + h + [OP_EQUALVERIFY] + rest,
                 w)
            <==> w != [] && |Top(w, 0)| == 32 && e.sha256(Top(w, 0)) == h && Exec(e, rest, w[..|w| - 1])
  {
    hide Exec, PushNumber;
    var inner := [OP_SHA256] + ([OP_PUSHBYTES_32] + h + ([OP_EQUALVERIFY] + rest));
    assert [OP_SIZE] + PushNumber(32) + [OP_EQUALVERIFY] + [OP_SHA256, OP_PUSHBYTES_32] + h + [OP_EQUALVERIFY] + rest
        == [OP_SIZE] + (PushNumber(32) + ([OP_EQUALVERIFY] + inner));
    ExecSize(e, inner, w);
    if w != [] {
      ExecHash(e, h, OP_EQUALVERIFY, rest, w);
      Compared(w[..|w| - 1], e.sha256(Top(w, 0)), h);
    }
  }

  /** WC leaf: the key, and a 32-byte preimage of the label hash. */
  lemma WcLeafSpend(e: Spend, key: Bytes32, h: Bytes32, w: Stack)
    ensures Exec(e, WcScript(key, h), w) <==>
              |w| == 2 && Signs(e, key, Top(w, 0)) && |Top(w, 1)| == 32 && e.sha256(Top(w, 1)) == h
  {
    hide Exec, PushNumber, KeyOp, Signs, Truthy;
    var inner := [OP_SHA256] + ([OP_PUSHBYTES_32] + h + ([OP_EQUAL] + []));
    var lock := [OP_SIZE] + (PushNumber(32) + ([OP_EQUALVERIFY] + inner));
    WcLock(h);
    assert WcScript(key, h) == KeyOp(key, OP_CHECKSIGVERIFY) + lock;
    ExecVerify(e, key, lock, w);
    if w != [] {
      var below := w[..|w| - 1];
      ExecSize(e, inner, below);
      if below != [] {
        ExecHash(e, h, OP_EQUAL, [], below);
        var x := e.sha256(Top(below, 0));
        Compared(below[..|below| - 1], x, h);
        LastFlag(e, below[..|below| - 1], x == h);
      }
    }
  }

  lemma WcLock(h: Bytes32)
    ensures [OP_SIZE, OP_PUSHBYTES_1, 32, OP_EQUALVERIFY, OP_SHA256, OP_PUSHBYTES_32] + h + [OP_EQUAL] ==
            [OP_SIZE] + (PushNumber(32) + ([OP_EQUALVERIFY] + ([OP_SHA256] + ([OP_PUSHBYTES_32] + h + ([OP_EQUAL] + [])))))
  {
    TimelockPush(32);
  }

  lemma LastFlag(e: Spend, base: Stack, b: bool)
    ensures Exec(e, [], base + [Flag(b)]) <==> base == [] && b
  {
    FlagTruthy(b);
  }

  lemma SizeCompares(n: nat)
    ensures ScriptNum(n) == NumBytes(32) <==> n == 32
  {
    ScriptNumValue(n);
    ScriptNumValue(32);
  }

  /** HTLC leaf 0: a 32-byte preimage of the hashlock, and depositor, provider, every keeper and every challenger. */
  lemma HashlockLeafSpend(e: Spend, i: Intent, g: nat, h: Bytes32, w: Stack)
    requires i.InRange() && g < i.V()
    ensures Exec(e, HtlcLeaf0(i, g, h), w) <==>
              && |w| == 3 + i.N() + i.M()
              && |Top(w, 0)| == 32 && e.sha256(Top(w, 0)) == h
              && Signs(e, i.depositor, Top(w, 1)) && Signs(e, i.groups[g].provider, Top(w, 2))
              && AllSign(e, i.Keepers(), w, 3) && AllSign(e, i.Challengers(), w, 3 + i.N())
  {
    hide Exec, KeyOp, PushNumber, MultisigGroup, AllSign, GroupSigns;
    var keepers := MultisigGroup(i.Keepers(), false) + MultisigGroup(i.Challengers(), true);
    var provider := KeyOp(i.groups[g].provider, OP_CHECKSIGVERIFY) + keepers;
    var depositor := KeyOp(i.depositor, OP_CHECKSIGVERIFY) + provider;
    assert HtlcLeaf0(i, g, h)
        == [OP_SIZE] + PushNumber(32) + [OP_EQUALVERIFY] + [OP_SHA256, OP_PUSHBYTES_32] + h + [OP_EQUALVERIFY] + depositor;
    ExecHashlock(e, h, depositor, w);
    if |w| >= 1 {
      ExecVerifyAt(e, i.depositor, provider, w, 1);
    }
    if |w| >= 2 {
      ExecVerifyAt(e, i.groups[g].provider, keepers, w, 2);
    }
    if |w| >= 3 {
      ExecKeepersThenAll(e, i.Keepers(), i.Challengers(), w, 3);
    }
    SignsNeedStack(e, i.Challengers(), w, 3 + i.N());
  }

  /** The two groups that close HTLC leaf 0. */
  lemma ExecKeepersThenAll(e: Spend, a: seq<Bytes32>, b: seq<Bytes32>, w: Stack, depth: nat)
    requires 1 <= |a| <= 32 && 1 <= |b| <= 32 && depth <= |w|
    ensures Exec(e, MultisigGroup(a, false) + MultisigGroup(b, true), w[..|w| - depth]) <==>
              |w| == depth + |a| + |b| && AllSign(e, a, w, depth) && AllSign(e, b, w, depth + |a|)
  {
    hide Exec, MultisigGroup, GroupSigns, AllSign;
    var st := w[..|w| - depth];
    ExecGroup(e, a, MultisigGroup(b, true), st);
    Deeper(e, a, w, depth);
    GroupNeedsStack(e, a, st);
    SignsNeedStack(e, a, w, depth);
    if |st| >= |a| {
      var next := st[..|st| - |a|];
      assert next == w[..|w| - (depth + |a|)];
      ExecFinalGroup(e, b, next);
      Deeper(e, b, w, depth + |a|);
    }
  }

  // ---------------------------------------------------------------------------------------------
  // The connector

  /** The signers a claimer is checked by besides the challengers, said as a set and an order. */
  ghost predicate IsAppSet(i: Intent, g: nat, c: nat, app: seq<Bytes32>)
    requires i.InRange() && g < i.V() && c <= i.N() + 1
  {
    && Ascending(app)
    && forall k: Bytes32 :: k in app <==>
         if c == i.N() + 1 then k in i.Keepers()
         else (k == i.groups[g].provider || k in i.Keepers()) && k != ClaimerKey(i, g, c)
  }

  lemma FirstIsLeast(a: seq<Bytes32>, k: Bytes32)
    requires Ascending(a) && k in a
    ensures k == a[0] || Less(a[0], k)
  {
    var j :| 0 <= j < |a| && a[j] == k;
  }

  /** An ascending list is determined by its elements. */
  lemma {:induction false} AscendingUnique(a: seq<Bytes32>, b: seq<Bytes32>)
    requires Ascending(a) && Ascending(b) && forall k: Bytes32 :: k in a <==> k in b
    ensures a == b
  {
    hide Less;
    assert (a != [] ==> a[0] in a) && (b != [] ==> b[0] in b);
    if a != [] && b != [] {
      FirstIsLeast(a, b[0]);
      FirstIsLeast(b, a[0]);
      if a[0] != b[0] {
        LessTransitive(a[0], b[0], a[0]);
        LessIrreflexive(a[0]);
      }
      forall k: Bytes32 ensures k in a[1..] <==> k in b[1..] {
        TailElements(a, k);
        TailElements(b, k);
      }
      AscendingUnique(a[1..], b[1..]);
      assert a == [a[0]] + a[1..] && b == [b[0]] + b[1..];
    }
  }

  lemma TailElements(a: seq<Bytes32>, k: Bytes32)
    requires Ascending(a) && a != []
    ensures k in a[1..] <==> k in a && k != a[0]
  {
    if k in a[1..] {
      var j :| 0 <= j < |a[1..]| && a[1..][j] == k;
      assert a[j + 1] == k;
      LessIrreflexive(k);
    }
    if k in a && k != a[0] {
      var j :| 0 <= j < |a| && a[j] == k;
      assert a[1..][j - 1] == k;
    }
  }

  lemma AppSetIs(i: Intent, g: nat, c: nat, app: seq<Bytes32>)
    requires i.InRange() && g < i.V() && c <= i.N() + 1 && RolesDisjoint(i)
    ensures IsAppSet(i, g, c, app) <==> app == AppChallengers(i, g, c)
  {
    hide Less, AppChallengers, Ascending, ClaimerKey;
    ProviderApart(i, g);
    AppChallengersExact(i, g, c);
    if IsAppSet(i, g, c, app) {
      AscendingUnique(app, AppChallengers(i, g, c));
    }
  }

  lemma ProviderApart(i: Intent, g: nat)
    requires i.InRange() && g < i.V() && RolesDisjoint(i)
    ensures Ascending(i.Keepers()) && i.groups[g].provider !in i.Keepers()
  {
    hide Ascending;
    forall k | 0 <= k < i.N() ensures i.Keepers()[k] != i.groups[g].provider {
      assert i.groups[g].provider != i.keeperPks[k];
    }
  }

  /** Payout leaf of claimer c: the claimer, its app challengers and every challenger, after the payout timelock. */
  lemma PayoutLeafSpend(e: Spend, i: Intent, g: nat, c: nat, app: seq<Bytes32>, w: Stack)
    requires i.InRange() && g < i.V() && c <= i.N() + 1 && RolesDisjoint(i) && TimelocksOk(i) && IsAppSet(i, g, c, app)
    ensures |app| == i.N()
    ensures Exec(e, Assert0PayoutLeaf(i, g, c), w) <==>
              && |w| == 1 + i.N() + i.M()
              && Signs(e, ClaimerKey(i, g, c), Top(w, 0))
              && AllSign(e, app, w, 1) && AllSign(e, i.Challengers(), w, 1 + i.N())
              && e.older(i.scalars.payoutTimelock)
  {
    hide Exec, KeyOp, PushNumber, MultisigGroup, AllSign, RolesDisjoint, IsAppSet, AppChallengers, ClaimerKey;
    AppSetIs(i, g, c, app);
    var time := PushNumber(i.scalars.payoutTimelock) + [OP_CSV];
    var groups := MultisigGroup(app, false) + MultisigGroup(i.Challengers(), false) + time;
    assert Assert0PayoutLeaf(i, g, c) == KeyOp(ClaimerKey(i, g, c), OP_CHECKSIGVERIFY) + groups;
    assert w[..|w| - 0] == w;
    ExecVerifyAt(e, ClaimerKey(i, g, c), groups, w, 0);
    if |w| >= 1 {
      ExecTwoGroups(e, app, i.Challengers(), time, w, 1);
      SignsNeedStack(e, i.Challengers(), w, 1 + i.N());
      if |w| >= 1 + i.N() + i.M() {
        ExecTimelock(e, i.scalars.payoutTimelock, w[..|w| - 1 - i.N() - i.M()]);
      }
    }
  }

  lemma PrefixParts(i: Intent, s: Bytes)
    requires i.InRange() && AssertPrefix(i) <= s
    ensures s == KeyOp(i.depositor, OP_CHECKSIGVERIFY)
                 + (MultisigGroup(i.Keepers(), false) + MultisigGroup(i.Challengers(), false) + s[|AssertPrefix(i)|..])
  {
    hide KeyOp, MultisigGroup;
    var n := |AssertPrefix(i)|;
    assert s[..n] == AssertPrefix(i);
    assert s == s[..n] + s[n..];
    Regroup(KeyOp(i.depositor, OP_CHECKSIGVERIFY), MultisigGroup(i.Keepers(), false),
            MultisigGroup(i.Challengers(), false), s[n..]);
  }

  lemma Regroup(a: Bytes, b: Bytes, c: Bytes, d: Bytes)
    ensures a + b + c + d == a + (b + c + d)
  {
  }

  /** A script that opens with the Assert prefix runs its body only under valid signatures of the depositor, every keeper and
      every challenger, whatever the body is and whatever the evaluator does not know about it. */
  lemma AssertPrefixBinds(e: Spend, i: Intent, s: Bytes, w: Stack)
    requires i.InRange() && AssertPrefix(i) <= s
    ensures Exec(e, s, w) <==>
              && |w| >= 1 + i.N() + i.M()
              && Signs(e, i.depositor, Top(w, 0))
              && AllSign(e, i.Keepers(), w, 1) && AllSign(e, i.Challengers(), w, 1 + i.N())
              && Exec(e, s[|AssertPrefix(i)|..], w[..|w| - 1 - i.N() - i.M()])
  {
    hide Exec, KeyOp, MultisigGroup, AllSign;
    var body := s[|AssertPrefix(i)|..];
    var groups := MultisigGroup(i.Keepers(), false) + MultisigGroup(i.Challengers(), false) + body;
    PrefixParts(i, s);
    hide AssertPrefix;
    assert w[..|w| - 0] == w;
    ExecVerifyAt(e, i.depositor, groups, w, 0);
    if |w| >= 1 {
      ExecTwoGroups(e, i.Keepers(), i.Challengers(), body, w, 1);
      SignsNeedStack(e, i.Challengers(), w, 1 + i.N());
    }
  }

  // ---------------------------------------------------------------------------------------------
  // The keys in the bytes

  /** n keys of a group that starts at off, 34 bytes apart. */
  function KeysIn(s: Bytes, off: nat, n: nat): (keys: seq<Bytes32>)
    requires off + 34 * n <= |s|
    ensures |keys| == n
  {
    seq(n, k requires 0 <= k < n => s[off + 34 * k + 1..off + 34 * k + 33])
  }

  lemma GroupReadsBack(before: Bytes, keys: seq<Bytes32>, after: Bytes)
    requires |keys| <= 32
    ensures KeysIn(before + MultisigGroup(keys, false) + after, |before|, |keys|) == keys
  {
    hide PushNumber, Signers, KeyOp;
    var s := before + MultisigGroup(keys, false) + after;
    forall k | 0 <= k < |keys| ensures s[|before| + 34 * k + 1..|before| + 34 * k + 33] == keys[k] {
      SignersAt(keys, k);
      var entry := KeyOp(keys[k], if k == 0 then OP_CHECKSIG else OP_CHECKSIGADD);
      assert s[|before| + 34 * k..|before| + 34 * k + 34] == entry;
      EntryKey(keys[k], if k == 0 then OP_CHECKSIG else OP_CHECKSIGADD);
      assert s[|before| + 34 * k + 1..|before| + 34 * k + 33] == entry[1..33];
    }
  }

  lemma EntryKey(key: Bytes32, op: Byte)
    ensures KeyOp(key, op)[1..33] == key
  {
  }

  /** Where the second group of a leaf starts, if the first has n keys from off on. */
  function SecondGroup(off: nat, n: nat): nat {
    off + 34 * n + (if n <= 16 then 2 else 3)
  }

  /** The bytes of a payout leaf: at 1 the claimer, from 34 the N app challengers, then the M challengers, then the operand. */
  lemma PayoutLeafBytes(i: Intent, g: nat, c: nat)
    requires i.InRange() && g < i.V() && c <= i.N() + 1 && RolesDisjoint(i)
    ensures var s := Assert0PayoutLeaf(i, g, c);
            && |s| >= SecondGroup(34, i.N()) + 34 * i.M()
            && s[1..33] == ClaimerKey(i, g, c)
            && IsAppSet(i, g, c, KeysIn(s, 34, i.N()))
            && KeysIn(s, SecondGroup(34, i.N()), i.M()) == i.Challengers()
  {
    hide PushNumber, KeyOp, AppChallengers, ClaimerKey, RolesDisjoint, IsAppSet, KeysIn, Signers;
    var app := AppChallengers(i, g, c);
    var head := KeyOp(ClaimerKey(i, g, c), OP_CHECKSIGVERIFY);
    var first, second := MultisigGroup(app, false), MultisigGroup(i.Challengers(), false);
    var time := PushNumber(i.scalars.payoutTimelock) + [OP_CSV];
    var s := Assert0PayoutLeaf(i, g, c);
    SmallPush(i.N());
    assert |first| == 34 * i.N() + |PushNumber(i.N())| + 1;
    assert s == head + first + (second + time);
    GroupReadsBack(head, app, second + time);
    assert s == (head + first) + second + time;
    GroupReadsBack(head + first, i.Challengers(), time);
    AppSetIs(i, g, c, app);
    EntryKey(ClaimerKey(i, g, c), OP_CHECKSIGVERIFY);
    assert s[1..33] == head[1..33];
  }

  /** The bytes of HTLC leaf 0: hashlock, depositor, provider, keepers, challengers. */
  lemma HashlockLeafBytes(i: Intent, g: nat, h: Bytes32)
    requires i.InRange() && g < i.V()
    ensures var s := HtlcLeaf0(i, g, h);
            && |s| >= SecondGroup(107, i.N()) + 34 * i.M()
            && s[6..38] == h && s[40..72] == i.depositor && s[74..106] == i.groups[g].provider
            && KeysIn(s, 107, i.N()) == i.Keepers() && KeysIn(s, SecondGroup(107, i.N()), i.M()) == i.Challengers()
  {
    hide PushNumber, KeyOp, KeysIn, Signers;
    SmallPush(i.N());
    SmallPush(32);
    var lock := [OP_SIZE] + PushNumber(32) + [OP_EQUALVERIFY] + [OP_SHA256, OP_PUSHBYTES_32];
    var d, v := KeyOp(i.depositor, OP_CHECKSIGVERIFY), KeyOp(i.groups[g].provider, OP_CHECKSIGVERIFY);
    var first, second := MultisigGroup(i.Keepers(), false), MultisigGroup(i.Challengers(), true);
    var s := HtlcLeaf0(i, g, h);
    var head := lock + h + [OP_EQUALVERIFY] + d + v;
    assert s == head + first + second;
    GroupReadsBack(head, i.Keepers(), second);
    FinalGroupReadsBack(head + first, i.Challengers());
    EntryKey(i.depositor, OP_CHECKSIGVERIFY);
    EntryKey(i.groups[g].provider, OP_CHECKSIGVERIFY);
    assert s[6..38] == h && s[40..72] == d[1..33] && s[74..106] == v[1..33];
  }

  lemma FinalGroupReadsBack(before: Bytes, keys: seq<Bytes32>)
    requires |keys| <= 32
    ensures KeysIn(before + MultisigGroup(keys, true), |before|, |keys|) == keys
  {
    hide PushNumber, Signers;
    var tail := PushNumber(|keys|) + [OP_NUMEQUALVERIFY];
    GroupReadsBack(before, keys, []);
    var s, u := before + MultisigGroup(keys, true), before + MultisigGroup(keys, false) + [];
    var n := |before| + 34 * |keys|;
    assert s[..n] == before + Signers(keys) == u[..n];
    forall k | 0 <= k < |keys| ensures KeysIn(s, |before|, |keys|)[k] == KeysIn(u, |before|, |keys|)[k] {
      var a := |before| + 34 * k + 1;
      assert s[a..a + 32] == s[..n][a..a + 32] && u[a..a + 32] == u[..n][a..a + 32];
    }
  }

  /** Whatever script is detected as claimer c's, these are its bytes. */
  lemma DetectedLeafBytes(i: Intent, g: nat, c: nat, s: Bytes)
    requires i.InRange() && g < i.V() && RolesDisjoint(i) && DetectClaimer(i, g, s) == Some(c)
    ensures c <= i.N() + 1 && |s| >= SecondGroup(34, i.N()) + 34 * i.M()
    ensures s[1..33] == (if c == 0 then i.groups[g].provider else if c == i.N() + 1 then i.depositor else i.keeperPks[c - 1])
    ensures IsAppSet(i, g, c, KeysIn(s, 34, i.N()))
    ensures KeysIn(s, SecondGroup(34, i.N()), i.M()) == i.Challengers()
  {
    hide RolesDisjoint, DetectClaimer, IsAppSet, KeysIn, Assert0PayoutLeaf;
    DetectsExactly(i, g, s, c);
    PayoutLeafBytes(i, g, c);
  }

  /** The bytes of the vault UTXO leaf: depositor, provider, keepers, challengers, then the PegIn timelock and CSV. */
  lemma VaultLeafBytes(i: Intent, g: nat)
    requires i.InRange() && g < i.V() && 72 <= i.scalars.pegInCsv <= 1008
    ensures var s := VaultUtxoLeaf(i, g);
            && |s| >= SecondGroup(68, i.N()) + 34 * i.M()
            && s[1..33] == i.depositor && s[35..67] == i.groups[g].provider
            && KeysIn(s, 68, i.N()) == i.Keepers() && KeysIn(s, SecondGroup(68, i.N()), i.M()) == i.Challengers()
            && EndsWithLock(s, i.scalars.pegInCsv)
  {
    hide PushNumber, KeyOp, KeysIn, Signers, EndsWithLock;
    SmallPush(i.N());
    var d, v := KeyOp(i.depositor, OP_CHECKSIGVERIFY), KeyOp(i.groups[g].provider, OP_CHECKSIGVERIFY);
    var first, second := MultisigGroup(i.Keepers(), false), MultisigGroup(i.Challengers(), false);
    var time := PushNumber(i.scalars.pegInCsv) + [OP_CSV];
    var s := VaultUtxoLeaf(i, g);
    assert s == (d + v) + first + (second + time);
    GroupReadsBack(d + v, i.Keepers(), second + time);
    assert s == (d + v + first) + second + time;
    GroupReadsBack(d + v + first, i.Challengers(), time);
    EntryKey(i.depositor, OP_CHECKSIGVERIFY);
    EntryKey(i.groups[g].provider, OP_CHECKSIGVERIFY);
    assert s[1..33] == d[1..33] && s[35..67] == v[1..33];
    TimelockEnds(d + v + first + second, i.scalars.pegInCsv);
    assert s == d + v + first + second + time;
  }

  /** The script ends with a push of n and CSV. */
  predicate EndsWithLock(s: Bytes, n: nat) {
    || (|s| >= 4 && n < 0x8000 && s[|s| - 4..] == [0x02, (n % 256) as Byte, (n / 256) as Byte, 0xB2])
    || (|s| >= 3 && n < 0x80 && s[|s| - 3..] == [0x01, n as Byte, 0xB2])
  }

  lemma TimelockEnds(head: Bytes, n: U32)
    requires 16 < n < 0x8000
    ensures EndsWithLock(head + (PushNumber(n) + [OP_CSV]), n)
  {
    TimelockPush(n);
    var push := PushNumber(n) + [OP_CSV];
    var s := head + push;
    assert s[|s| - |push|..] == push;
  }
}
