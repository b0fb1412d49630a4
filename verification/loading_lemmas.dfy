/** What the group and key loops of the loader establish, and the bytes they consume. */
module LoadingLemmas {
  import opened Octets
  import opened Intents
  import opened Platforms
  import opened Tlv
  import opened Loading

  // ---------------------------------------------------------------------------------------------
  // Groups

  /** Slots below n hold checked groups in ascending output order; the rest are still zero. */
  predicate GroupsOk(p: Platform, intent: Intent, n: nat)
    requires n <= MAX_VAULTS
  {
    && (forall g :: 0 <= g < n ==> ValidGroup(intent.groups[g]) && UsableKey(p, intent.groups[g].provider))
    && (forall i, j :: 0 <= i < j < n ==> intent.groups[i].htlcVout < intent.groups[j].htlcVout)
    && (forall g :: n <= g < MAX_VAULTS ==> intent.groups[g] == ZERO_GROUP)
  }

  function GroupsWire(gs: seq<Group>): Bytes {
    if gs == [] then [] else GroupWire(gs[0]) + GroupsWire(gs[1..])
  }

  lemma {:induction false} GroupsWireLength(gs: seq<Group>)
    ensures |GroupsWire(gs)| == GROUP_LEN * |gs|
  {
    if gs != [] {
      GroupsWireLength(gs[1..]);
    }
  }

  lemma {:induction false} GroupsWireConcat(a: seq<Group>, b: seq<Group>)
    ensures GroupsWire(a + b) == GroupsWire(a) + GroupsWire(b)
  {
    hide GroupWire;
    if a == [] {
      assert a + b == b;
    } else {
      GroupsWireConcat(a[1..], b);
      assert (a + b)[1..] == a[1..] + b;
      var w := GroupWire(a[0]);
      assert GroupsWire(a) == w + GroupsWire(a[1..]) && GroupsWire(a + b) == w + GroupsWire(a[1..] + b);
      assert w + (GroupsWire(a[1..]) + GroupsWire(b)) == w + GroupsWire(a[1..]) + GroupsWire(b);
    }
  }

  lemma GroupEntryKeeps(p: Platform, intent: Intent, idx: nat, data: Bytes, pos: nat)
    requires intent.V() <= MAX_VAULTS && idx <= intent.V() && pos < |data|
    requires GroupsOk(p, intent, idx)
    requires GroupEntry(p, intent, idx, data, pos).Some?
    ensures var (after, next) := GroupEntry(p, intent, idx, data, pos).value;
            && GroupsOk(p, after, idx + 1)
            && next == pos + GROUP_LEN <= |data| && data[pos..next] == GroupWire(after.groups[idx])
            && after == intent.(groups := intent.groups[idx := after.groups[idx]])
  {
    hide Parse, ParseGroup, GroupWire;
    var (g, consumed) := ParseGroup(data[pos..], intent.groups[idx]).value;
    ParseGroupAcceptsCanonical(data[pos..], intent.groups[idx], g, consumed);
    assert data[pos..][..GROUP_LEN] == data[pos..pos + GROUP_LEN];
  }

  lemma GroupLoopEnds(p: Platform, intent: Intent, idx: nat, data: Bytes)
    requires intent.V() <= MAX_VAULTS && idx <= intent.V()
    ensures GroupLoop(p, intent, idx, data, |data|) == Some((intent, idx))
    ensures GroupsWire(intent.groups[idx..idx]) == []
  {
  }

  lemma GroupLoopTurns(p: Platform, intent: Intent, idx: nat, data: Bytes, pos: nat)
    requires intent.V() <= MAX_VAULTS && idx <= intent.V() && pos < |data|
    requires GroupLoop(p, intent, idx, data, pos).Some?
    ensures GroupEntry(p, intent, idx, data, pos).Some?
    ensures var (mid, next) := GroupEntry(p, intent, idx, data, pos).value;
            mid.scalars == intent.scalars && idx < intent.V() &&
            GroupLoop(p, intent, idx, data, pos) == GroupLoop(p, mid, idx + 1, data, next)
  {
    hide GroupEntry;
  }

  /** The slots filled by the first record and by the rest of the loop, taken together. */
  lemma GroupSlotsJoin(before: GroupArray, mid: GroupArray, after: GroupArray, idx: nat, n: nat)
    requires idx < n <= MAX_VAULTS
    requires mid[..idx] == before[..idx] && after[..idx + 1] == mid[..idx + 1]
    ensures after[..idx] == before[..idx] && after[idx] == mid[idx]
    ensures GroupsWire(after[idx..n]) == GroupWire(mid[idx]) + GroupsWire(after[idx + 1..n])
  {
    hide GroupWire;
    assert after[idx] == after[..idx + 1][idx] && mid[idx] == mid[..idx + 1][idx];
    assert after[..idx] == after[..idx + 1][..idx] && mid[..idx] == mid[..idx + 1][..idx];
    assert after[idx..n][1..] == after[idx + 1..n];
  }

  /** The group loop keeps the slots checked, and reads exactly the canonical records of the slots it fills. */
  lemma {:induction false} GroupLoopKeeps(p: Platform, intent: Intent, idx: nat, data: Bytes, pos: nat)
    requires intent.V() <= MAX_VAULTS && idx <= intent.V() && pos <= |data|
    requires GroupsOk(p, intent, idx)
    requires GroupLoop(p, intent, idx, data, pos).Some?
    ensures var (after, n) := GroupLoop(p, intent, idx, data, pos).value;
            && idx <= n <= after.V() && GroupsOk(p, after, n)
            && after == intent.(groups := after.groups) && after.groups[..idx] == intent.groups[..idx]
            && data[pos..] == GroupsWire(after.groups[idx..n])
            && (n == idx ==> after == intent)
    decreases |data| - pos
  {
    hide GroupEntry, GroupWire, GroupsOk, GroupLoop, GroupsWire;
    if pos == |data| {
      GroupLoopEnds(p, intent, idx, data);
    } else {
      GroupLoopTurns(p, intent, idx, data, pos);
      GroupEntryKeeps(p, intent, idx, data, pos);
      var (mid, next) := GroupEntry(p, intent, idx, data, pos).value;
      GroupLoopKeeps(p, mid, idx + 1, data, next);
      var (after, n) := GroupLoop(p, intent, idx, data, pos).value;
      GroupSlotsJoin(intent.groups, mid.groups, after.groups, idx, n);
      assert data[pos..] == data[pos..next] + data[next..];
    }
  }

  // ---------------------------------------------------------------------------------------------
  // Keys

  /** The first n keys are checked; the slots of the others are still zero. */
  predicate KeysOk(p: Platform, intent: Intent, n: nat)
    requires intent.InRange() && n <= intent.N() + intent.M()
  {
    && (forall j :: 0 <= j < n ==> UsableKey(p, KeyAt(intent, j)) && NotAProvider(intent, KeyAt(intent, j)))
    && (forall i, j :: 0 <= i < j < n ==> KeyAt(intent, i) != KeyAt(intent, j))
    && (forall j :: 0 <= j < n ==> OrderedAfterPrevious(intent, j, KeyAt(intent, j)))
    && (forall j :: n <= j < intent.N() + intent.M() ==> KeyAt(intent, j) == ZERO32)
    && (forall k :: intent.N() <= k < 32 ==> intent.keeperPks[k] == ZERO32)
    && (forall k :: intent.M() <= k < 32 ==> intent.challengerPks[k] == ZERO32)
  }

  /** Keys a..b as sent. */
  function KeysWire(intent: Intent, a: nat, b: nat): (w: Bytes)
    requires intent.InRange() && a <= b <= intent.N() + intent.M()
    ensures |w| == KEY_ENTRY_LEN * (b - a)
    decreases b - a
  {
    if a == b then [] else Record(ExpectedTag(intent, a), KeyAt(intent, a)) + KeysWire(intent, a + 1, b)
  }

  lemma {:induction false} KeysWireConcat(intent: Intent, a: nat, b: nat, c: nat)
    requires intent.InRange() && a <= b <= c <= intent.N() + intent.M()
    ensures KeysWire(intent, a, b) + KeysWire(intent, b, c) == KeysWire(intent, a, c)
    decreases b - a
  {
    if a < b {
      KeysWireConcat(intent, a + 1, b, c);
      var r := Record(ExpectedTag(intent, a), KeyAt(intent, a));
      assert r + KeysWire(intent, a + 1, b) + KeysWire(intent, b, c)
          == r + (KeysWire(intent, a + 1, b) + KeysWire(intent, b, c));
    }
  }

  lemma {:induction false} KeysWireSame(i1: Intent, i2: Intent, a: nat, b: nat)
    requires i1.InRange() && i1.scalars == i2.scalars && a <= b <= i1.N() + i1.M()
    requires forall j :: a <= j < b ==> KeyAt(i1, j) == KeyAt(i2, j)
    ensures KeysWire(i1, a, b) == KeysWire(i2, a, b)
    decreases b - a
  {
    if a < b {
      KeysWireSame(i1, i2, a + 1, b);
    }
  }

  lemma KeyEntryKeeps(p: Platform, intent: Intent, rx: nat, data: Bytes, pos: nat)
    requires intent.InRange() && rx <= intent.N() + intent.M() && pos < |data|
    requires KeysOk(p, intent, rx)
    requires KeyEntry(p, intent, rx, data, pos).Some?
    ensures var after := KeyEntry(p, intent, rx, data, pos).value;
            && KeysOk(p, after, rx + 1)
            && data[pos..pos + KEY_ENTRY_LEN] == Record(ExpectedTag(intent, rx), KeyAt(after, rx))
            && after == PutKey(intent, rx, KeyAt(after, rx))
  {
    hide Record, Canonical;
    HeaderWrites(data, pos);
    var (tag, start, end) := Header(data, pos).value;
    var key: Bytes32 := data[start..end];
    var after := KeyEntry(p, intent, rx, data, pos).value;
    assert after == PutKey(intent, rx, key);
    PutKeyKeeps(p, intent, rx, key);
    assert data[pos..][..KEY_ENTRY_LEN] == data[pos..pos + KEY_ENTRY_LEN];
    assert |Record(tag, key)| == KEY_ENTRY_LEN by {
      RecordLength(tag, key);
    }
  }

  lemma RecordLength(tag: nat, v: Bytes)
    requires |v| < 256
    ensures |Record(tag, v)| == 3 + |v|
  {
  }

  lemma PutKeyKeeps(p: Platform, intent: Intent, rx: nat, key: Bytes32)
    requires intent.InRange() && rx < intent.N() + intent.M() && KeysOk(p, intent, rx)
    requires UsableKey(p, key) && OrderedAfterPrevious(intent, rx, key)
    requires NotAProvider(intent, key) && NotStored(intent, rx, key)
    ensures KeysOk(p, PutKey(intent, rx, key), rx + 1)
  {
    hide UsableKey, OrderedAfterPrevious, NotAProvider, NotStored, KeyAt, PutKey;
    var after := PutKey(intent, rx, key);
    forall j | 0 <= j < rx + 1
      ensures UsableKey(p, KeyAt(after, j)) && NotAProvider(after, KeyAt(after, j))
      ensures OrderedAfterPrevious(after, j, KeyAt(after, j))
    {
      PutKeyChecks(intent, rx, key, j);
    }
    forall i, j | 0 <= i < j < rx + 1 ensures KeyAt(after, i) != KeyAt(after, j) {
      NotStoredDiffers(intent, rx, key, i);
    }
    PutKeyUnused(intent, rx, key);
  }

  lemma NotStoredDiffers(intent: Intent, rx: nat, key: Bytes32, i: nat)
    requires intent.InRange() && i < rx <= intent.N() + intent.M() && NotStored(intent, rx, key)
    ensures KeyAt(intent, i) != key
  {
  }

  /** The checks on key j after key rx was stored, from those before. */
  lemma PutKeyChecks(intent: Intent, rx: nat, key: Bytes32, j: nat)
    requires intent.InRange() && j <= rx < intent.N() + intent.M()
    ensures var after := PutKey(intent, rx, key);
            var k := if j == rx then key else KeyAt(intent, j);
            && KeyAt(after, j) == k
            && (NotAProvider(after, k) <==> NotAProvider(intent, k))
            && (OrderedAfterPrevious(after, j, k) <==> OrderedAfterPrevious(intent, j, k))
  {
    hide Less;
    var after := PutKey(intent, rx, key);
    assert j > 0 ==> KeyAt(after, j - 1) == KeyAt(intent, j - 1);
  }

  /** Storing a key leaves the unused slots alone. */
  lemma PutKeyUnused(intent: Intent, rx: nat, key: Bytes32)
    requires intent.InRange() && rx < intent.N() + intent.M()
    ensures var after := PutKey(intent, rx, key);
            && (forall k :: intent.N() <= k < 32 ==> after.keeperPks[k] == intent.keeperPks[k])
            && (forall k :: intent.M() <= k < 32 ==> after.challengerPks[k] == intent.challengerPks[k])
  {
  }

  lemma KeyLoopEnds(p: Platform, intent: Intent, rx: nat, data: Bytes)
    requires intent.InRange() && rx <= intent.N() + intent.M()
    ensures KeyLoop(p, intent, rx, data, |data|) == Some((intent, rx))
    ensures KeysWire(intent, rx, rx) == []
  {
  }

  lemma KeysWireFirst(before: Intent, after: Intent, a: nat, b: nat)
    requires after.InRange() && a < b <= after.N() + after.M() && before.scalars == after.scalars
    ensures KeysWire(after, a, b) == Record(ExpectedTag(before, a), KeyAt(after, a)) + KeysWire(after, a + 1, b)
  {
  }

  lemma KeyLoopTurns(p: Platform, intent: Intent, rx: nat, data: Bytes, pos: nat)
    requires intent.InRange() && rx <= intent.N() + intent.M() && pos < |data|
    requires KeyLoop(p, intent, rx, data, pos).Some?
    ensures KeyEntry(p, intent, rx, data, pos).Some?
    ensures var mid := KeyEntry(p, intent, rx, data, pos).value;
            KeyLoop(p, intent, rx, data, pos) == KeyLoop(p, mid, rx + 1, data, pos + KEY_ENTRY_LEN)
  {
    hide KeyEntry;
  }

  /** The key loop keeps the stored keys checked, and reads exactly the canonical entries of the keys it stores. */
  lemma {:induction false} KeyLoopKeeps(p: Platform, intent: Intent, rx: nat, data: Bytes, pos: nat)
    requires intent.InRange() && rx <= intent.N() + intent.M() && pos <= |data|
    requires KeysOk(p, intent, rx)
    requires KeyLoop(p, intent, rx, data, pos).Some?
    ensures var (after, n) := KeyLoop(p, intent, rx, data, pos).value;
            && rx <= n <= intent.N() + intent.M() && KeysOk(p, after, n)
            && after == intent.(keeperPks := after.keeperPks, challengerPks := after.challengerPks)
            && (forall j :: 0 <= j < rx ==> KeyAt(after, j) == KeyAt(intent, j))
            && data[pos..] == KeysWire(after, rx, n)
    decreases |data| - pos
  {
    hide KeyEntry, KeysOk, KeyLoop, KeysWire, Record, KeyAt, ExpectedTag;
    if pos == |data| {
      KeyLoopEnds(p, intent, rx, data);
    } else {
      KeyLoopTurns(p, intent, rx, data, pos);
      KeyEntryKeeps(p, intent, rx, data, pos);
      var mid := KeyEntry(p, intent, rx, data, pos).value;
      var next := pos + KEY_ENTRY_LEN;
      KeyLoopKeeps(p, mid, rx + 1, data, next);
      var (after, n) := KeyLoop(p, mid, rx + 1, data, next).value;
      KeysWireFirst(intent, after, rx, n);
      assert data[pos..] == data[pos..next] + data[next..];
    }
  }

  // ---------------------------------------------------------------------------------------------
  // A complete load

  /** Ascending keepers, ascending challengers, and no key in two roles. */
  predicate RolesDisjoint(intent: Intent)
    requires intent.InRange()
  {
    && Ascending(intent.Keepers()) && Ascending(intent.Challengers())
    && (forall i, j :: 0 <= i < intent.N() && 0 <= j < intent.M() ==> intent.keeperPks[i] != intent.challengerPks[j])
    && (forall g, i :: 0 <= g < intent.V() && 0 <= i < intent.N() ==> intent.groups[g].provider != intent.keeperPks[i])
    && (forall g, j :: 0 <= g < intent.V() && 0 <= j < intent.M() ==> intent.groups[g].provider != intent.challengerPks[j])
    && (forall g :: 0 <= g < intent.V() ==> intent.groups[g].provider != intent.depositor)
    && (forall i :: 0 <= i < intent.N() ==> intent.keeperPks[i] != intent.depositor)
    && (forall j :: 0 <= j < intent.M() ==> intent.challengerPks[j] != intent.depositor)
  }

  lemma {:induction false} ChainAscending(keys: seq<Bytes32>)
    requires forall j :: 0 < j < |keys| ==> Less(keys[j - 1], keys[j])
    ensures Ascending(keys)
  {
    if keys != [] {
      var front := keys[..|keys| - 1];
      ChainAscending(front);
      AscendingStep(front, keys[|keys| - 1]);
      assert keys == front + [keys[|keys| - 1]];
    }
  }

  lemma KeysAscend(p: Platform, intent: Intent)
    requires intent.InRange() && KeysOk(p, intent, intent.N() + intent.M())
    ensures Ascending(intent.Keepers()) && Ascending(intent.Challengers())
  {
    hide UsableKey, Ascending;
    var ks, cs := intent.Keepers(), intent.Challengers();
    forall j | 0 < j < |ks| ensures Less(ks[j - 1], ks[j]) {
      assert OrderedAfterPrevious(intent, j, KeyAt(intent, j));
    }
    ChainAscending(ks);
    forall j | 0 < j < |cs| ensures Less(cs[j - 1], cs[j]) {
      var k := intent.N() + j;
      assert OrderedAfterPrevious(intent, k, KeyAt(intent, k));
    }
    ChainAscending(cs);
  }

  /** The pairwise checks made key by key add up to sorted, disjoint roles. */
  lemma KeysDisjoint(p: Platform, intent: Intent)
    requires intent.InRange() && KeysOk(p, intent, intent.N() + intent.M()) && DepositorUnique(intent, intent.depositor)
    ensures RolesDisjoint(intent)
  {
    hide UsableKey, Less, Ascending, OrderedAfterPrevious;
    KeysAscend(p, intent);
    forall i, j | 0 <= i < intent.N() && 0 <= j < intent.M()
      ensures intent.keeperPks[i] != intent.challengerPks[j]
    {
      assert KeyAt(intent, i) != KeyAt(intent, intent.N() + j);
    }
    forall g, i | 0 <= g < intent.V() && 0 <= i < intent.N()
      ensures intent.groups[g].provider != intent.keeperPks[i]
    {
      assert NotAProvider(intent, KeyAt(intent, i));
    }
    forall g, j | 0 <= g < intent.V() && 0 <= j < intent.M()
      ensures intent.groups[g].provider != intent.challengerPks[j]
    {
      assert NotAProvider(intent, KeyAt(intent, intent.N() + j));
    }
    forall i | 0 <= i < intent.N() ensures intent.keeperPks[i] != intent.depositor {
      assert KeyAt(intent, i) != intent.depositor;
    }
    forall j | 0 <= j < intent.M() ensures intent.challengerPks[j] != intent.depositor {
      assert KeyAt(intent, intent.N() + j) != intent.depositor;
    }
  }
}
