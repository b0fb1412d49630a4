/** A completed load is determined by the bytes sent, however they were cut into commands. */
module LoadTheorems {
  import opened Octets
  import opened Intents
  import opened Platforms
  import opened Session
  import opened Tlv
  import opened Loading
  import opened LoadingLemmas
  import opened Invariants
  import opened LoadInvariant

  lemma TranscriptLength(intent: Intent, transcript: Bytes)
    requires intent.InRange() && IsLoad(intent, intent.V(), intent.N() + intent.M(), transcript)
    ensures |transcript| == 128 + GROUP_LEN * intent.V() + KEY_ENTRY_LEN * (intent.N() + intent.M())
  {
    hide LoadWire;
    var order :| IsOrder(order) && transcript == LoadWire(intent, order, intent.V(), intent.N() + intent.M());
    LoadWireLength(intent, order, intent.V(), intent.N() + intent.M());
  }

  /** Everything the signer assumes about a loaded intent holds in the state after any load. */
  lemma LoadedGuarantees(p: Platform, d: Device, h: History)
    requires Inv(p, d, h) && d.ctx.state == IntentLoaded
    ensures ValidScalars(d.intent.scalars, p.coinType)
    ensures forall i, j :: 0 <= i < j < d.intent.V() ==> d.intent.groups[i].htlcVout < d.intent.groups[j].htlcVout
    ensures forall g :: 0 <= g < d.intent.V() ==> ValidGroup(d.intent.groups[g])
    ensures RolesDisjoint(d.intent)
    ensures d.ctx.path == d.intent.scalars.path && CheckBip86Path(d.ctx.path, p.coinType)
    ensures CommitmentsOk(p, d, h) && d.ctx.root == ZERO32
    ensures |h.transcript| == 128 + GROUP_LEN * d.intent.V() + KEY_ENTRY_LEN * (d.intent.N() + d.intent.M())
  {
    hide KeysOk, DepositorUnique, RolesDisjoint, CommitmentsOk, IsLoad, UsableKey, ValidGroup;
    KeysDisjoint(p, d.intent);
    TranscriptLength(d.intent, h.transcript);
  }

  lemma WireInjective(s1: Scalars, o1: seq<Field>, s2: Scalars, o2: seq<Field>, coinType: U32)
    requires ValidScalars(s1, coinType) && ValidScalars(s2, coinType) && IsOrder(o1) && IsOrder(o2)
    requires Wire(s1, o1) == Wire(s2, o2)
    ensures s1 == s2
  {
    PrintThenParse(s1, coinType, o1);
    PrintThenParse(s2, coinType, o2);
  }

  lemma GroupWireInjective(a: Group, b: Group)
    requires ValidGroup(a) && ValidGroup(b) && GroupWire(a) == GroupWire(b)
    ensures a == b
  {
    ParseGroupAcceptsCanonical(GroupWire(a), ZERO_GROUP, a, GROUP_LEN);
    ParseGroupAcceptsCanonical(GroupWire(a), ZERO_GROUP, b, GROUP_LEN);
  }

  lemma {:induction false} GroupsWireInjective(a: seq<Group>, b: seq<Group>)
    requires |a| == |b| && GroupsWire(a) == GroupsWire(b)
    requires forall k :: 0 <= k < |a| ==> ValidGroup(a[k]) && ValidGroup(b[k])
    ensures a == b
  {
    hide GroupWire, ValidGroup;
    if a != [] {
      assert GroupWire(a[0]) == GroupsWire(a)[..GROUP_LEN] && GroupWire(b[0]) == GroupsWire(b)[..GROUP_LEN];
      GroupWireInjective(a[0], b[0]);
      assert GroupsWire(a[1..]) == GroupsWire(a)[GROUP_LEN..] && GroupsWire(b[1..]) == GroupsWire(b)[GROUP_LEN..];
      GroupsWireInjective(a[1..], b[1..]);
      assert a == [a[0]] + a[1..] && b == [b[0]] + b[1..];
    }
  }

  lemma RecordTail(tag: nat, v: Bytes)
    requires |v| < 256
    ensures Record(tag, v)[3..] == v
  {
  }

  lemma {:induction false} KeysWireInjective(i1: Intent, i2: Intent, a: nat, b: nat)
    requires i1.InRange() && i1.scalars == i2.scalars && a <= b <= i1.N() + i1.M()
    requires KeysWire(i1, a, b) == KeysWire(i2, a, b)
    ensures forall j :: a <= j < b ==> KeyAt(i1, j) == KeyAt(i2, j)
    decreases b - a
  {
    hide Record, KeyAt;
    if a < b {
      var r1 := Record(ExpectedTag(i1, a), KeyAt(i1, a));
      var r2 := Record(ExpectedTag(i2, a), KeyAt(i2, a));
      RecordLength(ExpectedTag(i1, a), KeyAt(i1, a));
      RecordLength(ExpectedTag(i2, a), KeyAt(i2, a));
      RecordTail(ExpectedTag(i1, a), KeyAt(i1, a));
      RecordTail(ExpectedTag(i2, a), KeyAt(i2, a));
      assert r1 == KeysWire(i1, a, b)[..KEY_ENTRY_LEN] && r2 == KeysWire(i2, a, b)[..KEY_ENTRY_LEN];
      assert KeysWire(i1, a + 1, b) == KeysWire(i1, a, b)[KEY_ENTRY_LEN..];
      assert KeysWire(i2, a + 1, b) == KeysWire(i2, a, b)[KEY_ENTRY_LEN..];
      KeysWireInjective(i1, i2, a + 1, b);
    }
  }

  /** The three parts of a transcript sit at fixed offsets. */
  lemma LoadWireParts(intent: Intent, order: seq<Field>, gi: nat, rx: nat)
    requires intent.InRange() && gi <= MAX_VAULTS && rx <= intent.N() + intent.M() && IsOrder(order)
    ensures var w := LoadWire(intent, order, gi, rx);
            && |w| >= 128 + GROUP_LEN * gi
            && w[..128] == Wire(intent.scalars, order)
            && w[128..128 + GROUP_LEN * gi] == GroupsWire(intent.groups[..gi])
            && w[128 + GROUP_LEN * gi..] == KeysWire(intent, 0, rx)
  {
    hide Wire, GroupsWire, KeysWire;
    WireLength(intent.scalars, order, AllFields());
    GroupsWireLength(intent.groups[..gi]);
    var w := LoadWire(intent, order, gi, rx);
    Middle(Wire(intent.scalars, order), GroupsWire(intent.groups[..gi]), KeysWire(intent, 0, rx));
  }

  lemma PartsDetermined(coinType: U32, i1: Intent, o1: seq<Field>, i2: Intent, o2: seq<Field>)
    requires ValidScalars(i1.scalars, coinType) && ValidScalars(i2.scalars, coinType) && IsOrder(o1) && IsOrder(o2)
    requires LoadWire(i1, o1, i1.V(), i1.N() + i1.M()) == LoadWire(i2, o2, i2.V(), i2.N() + i2.M())
    ensures i1.scalars == i2.scalars
    ensures GroupsWire(i1.groups[..i1.V()]) == GroupsWire(i2.groups[..i1.V()])
    ensures KeysWire(i1, 0, i1.N() + i1.M()) == KeysWire(i2, 0, i1.N() + i1.M())
  {
    hide LoadWire, Wire, GroupsWire, KeysWire, IsOrder;
    LoadWireParts(i1, o1, i1.V(), i1.N() + i1.M());
    LoadWireParts(i2, o2, i2.V(), i2.N() + i2.M());
    WireInjective(i1.scalars, o1, i2.scalars, o2, coinType);
  }

  /** The bytes of a complete load determine the intent: its scalars, groups, keys and, through the path, the depositor key. */
  lemma TranscriptDetermines(p: Platform, i1: Intent, i2: Intent, transcript: Bytes)
    requires IntentOk(p, i1) && IntentOk(p, i2)
    requires IsLoad(i1, i1.V(), i1.N() + i1.M(), transcript)
    requires IsLoad(i2, i2.V(), i2.N() + i2.M(), transcript)
    ensures i1 == i2
  {
    hide LoadWire, GroupsWire, KeysWire, IsOrder, KeysOk, DepositorUnique, UsableKey, ValidGroup;
    var o1 :| IsOrder(o1) && transcript == LoadWire(i1, o1, i1.V(), i1.N() + i1.M());
    var o2 :| IsOrder(o2) && transcript == LoadWire(i2, o2, i2.V(), i2.N() + i2.M());
    PartsDetermined(p.coinType, i1, o1, i2, o2);
    GroupsWireInjective(i1.groups[..i1.V()], i2.groups[..i1.V()]);
    KeysWireInjective(i1, i2, 0, i1.N() + i1.M());
    SameArrays(p, i1, i2);
  }

  lemma SameArrays(p: Platform, i1: Intent, i2: Intent)
    requires i1.InRange() && i1.scalars == i2.scalars
    requires GroupsOk(p, i1, i1.V()) && GroupsOk(p, i2, i1.V())
    requires KeysOk(p, i1, i1.N() + i1.M()) && KeysOk(p, i2, i1.N() + i1.M())
    requires i1.groups[..i1.V()] == i2.groups[..i1.V()]
    requires forall j :: 0 <= j < i1.N() + i1.M() ==> KeyAt(i1, j) == KeyAt(i2, j)
    ensures i1.groups == i2.groups && i1.keeperPks == i2.keeperPks && i1.challengerPks == i2.challengerPks
  {
    hide UsableKey, ValidGroup, NotAProvider, OrderedAfterPrevious;
    forall g | 0 <= g < MAX_VAULTS ensures i1.groups[g] == i2.groups[g] {
      if g < i1.V() {
        assert i1.groups[g] == i1.groups[..i1.V()][g] && i2.groups[g] == i2.groups[..i1.V()][g];
      }
    }
    forall k | 0 <= k < 32 ensures i1.keeperPks[k] == i2.keeperPks[k] {
      assert k < i1.N() ==> KeyAt(i1, k) == KeyAt(i2, k);
    }
    forall k | 0 <= k < 32 ensures i1.challengerPks[k] == i2.challengerPks[k] {
      assert k < i1.M() ==> KeyAt(i1, i1.N() + k) == KeyAt(i2, i1.N() + k);
    }
  }

  /** Two completed loads that sent the same bytes end with the same intent and the same
      intent fingerprint, however each host split the bytes into commands. */
  lemma BatchingIrrelevant(p: Platform, d1: Device, h1: History, d2: Device, h2: History)
    requires Inv(p, d1, h1) && Inv(p, d2, h2)
    requires d1.ctx.state == IntentLoaded && d2.ctx.state == IntentLoaded
    requires h1.transcript == h2.transcript
    ensures d1.intent == d2.intent && d1.ctx.intentFp == d2.ctx.intentFp
  {
    hide IntentOk, CommitmentsOk, IsLoad;
    TranscriptDetermines(p, d1.intent, d2.intent, h1.transcript);
  }
}
