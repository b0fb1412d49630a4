/** The approve commands keep the session invariant, and what a completed load amounts to. */
module LoadInvariant {
  import opened Octets
  import opened Intents
  import opened Platforms
  import opened Session
  import opened Tlv
  import opened Loading
  import opened LoadingLemmas
  import opened Invariants

  lemma LoadWireLength(intent: Intent, order: seq<Field>, gi: nat, rx: nat)
    requires intent.InRange() && gi <= MAX_VAULTS && rx <= intent.N() + intent.M() && IsOrder(order)
    ensures |LoadWire(intent, order, gi, rx)| == 128 + GROUP_LEN * gi + KEY_ENTRY_LEN * rx
  {
    hide Wire, GroupsWire, KeysWire;
    WireLength(intent.scalars, order, AllFields());
    GroupsWireLength(intent.groups[..gi]);
  }

  /** A parsed payload starts a load with every slot empty. */
  lemma FreshLoad(p: Platform, data: Bytes)
    requires Parse(data, p.coinType).Ok?
    ensures var intent := ZERO_INTENT.(scalars := Parse(data, p.coinType).value);
            && ValidScalars(intent.scalars, p.coinType)
            && IsLoad(intent, 0, 0, data) && GroupsOk(p, intent, 0)
  {
    hide Wire, ValidGroup, UsableKey;
    var s := Parse(data, p.coinType).value;
    ParseAcceptsPermutations(data, p.coinType, s);
    var order :| IsOrder(order) && data == Wire(s, order);
    var intent := ZERO_INTENT.(scalars := s);
    hide IsOrder;
    assert GroupsWire(intent.groups[..0]) == [] && KeysWire(intent, 0, 0) == [];
    assert LoadWire(intent, order, 0, 0) == data;
  }

  lemma ScalarPayloadKeeps(p: Platform, d: Device, h: History, data: Bytes, env: Env)
    requires Inv(p, d, h)
    ensures var (after, reply) := ScalarPayload(p, d, data, env);
            && Inv(p, after, ObserveApprove(h, 0, data, reply))
            && after.streaming == d.streaming
  {
    hide Parse, IsLoad, GroupsOk, KeysOk, Fingerprint;
    if d.ctx.state == HashDerived && Parse(data, p.coinType).Ok? {
      FreshLoad(p, data);
    }
  }

  lemma GroupPayloadKeeps(p: Platform, d: Device, h: History, data: Bytes, env: Env)
    requires Inv(p, d, h)
    requires d.loader.scalarsLoaded ==> d.intent.InRange() && d.ctx.groupIndex as nat <= d.intent.V()
    ensures var (after, reply) := GroupPayload(p, d, data, env);
            && Inv(p, after, ObserveApprove(h, 1, data, reply))
            && after.streaming == d.streaming
  {
    hide GroupLoop, GroupsOk, KeysOk, IsLoad, ValidScalars;
    if d.loader.scalarsLoaded {
      var gi, rx := d.ctx.groupIndex as nat, d.loader.keysReceived as nat;
      var r := GroupLoop(p, d.intent, gi, data, 0);
      if r.Some? && env.hashOk {
        GroupLoopKeeps(p, d.intent, gi, data, 0);
        var (intent, n) := r.value;
        assert data[0..] == data;
        GroupsExtend(d.intent, intent, gi, n, rx, h.transcript, data);
      }
    }
  }

  /** Appending group records to the transcript of a load that has no keys yet. */
  lemma GroupsExtend(before: Intent, after: Intent, gi: nat, n: nat, rx: nat, transcript: Bytes, data: Bytes)
    requires before.InRange() && gi <= n <= before.V() && rx <= before.N() + before.M()
    requires after == before.(groups := after.groups) && after.groups[..gi] == before.groups[..gi]
    requires data == GroupsWire(after.groups[gi..n])
    requires IsLoad(before, gi, rx, transcript)
    requires rx > 0 ==> n == gi && after == before
    ensures IsLoad(after, n, rx, transcript + data)
  {
    hide Wire, GroupsWire, IsOrder;
    var order :| IsOrder(order) && transcript == LoadWire(before, order, gi, rx);
    GroupsWireConcat(after.groups[..gi], after.groups[gi..n]);
    assert after.groups[..gi] + after.groups[gi..n] == after.groups[..n];
    if rx > 0 {
      assert data == [] by {
        GroupsWireLength(after.groups[gi..n]);
      }
      assert transcript + data == transcript;
    } else {
      assert KeysWire(before, 0, 0) == [] && KeysWire(after, 0, 0) == [];
      assert transcript + data == Wire(after.scalars, order) + (GroupsWire(after.groups[..gi]) + data);
      assert transcript + data == LoadWire(after, order, n, 0);
    }
  }

  lemma GroupsOkSame(p: Platform, i1: Intent, i2: Intent, n: nat)
    requires n <= MAX_VAULTS && i1.groups == i2.groups && GroupsOk(p, i1, n)
    ensures GroupsOk(p, i2, n)
  {
  }

  lemma ZeroKeysOk(p: Platform, intent: Intent)
    requires intent.InRange() && intent.keeperPks == ZERO_KEYS && intent.challengerPks == ZERO_KEYS
    ensures KeysOk(p, intent, 0)
  {
  }

  /** Appending key entries to the transcript of a load. */
  lemma KeysExtend(before: Intent, after: Intent, rx: nat, n: nat, transcript: Bytes, data: Bytes)
    requires before.InRange() && rx <= n <= before.N() + before.M()
    requires after == before.(keeperPks := after.keeperPks, challengerPks := after.challengerPks)
    requires forall j :: 0 <= j < rx ==> KeyAt(after, j) == KeyAt(before, j)
    requires data == KeysWire(after, rx, n)
    requires IsLoad(before, before.V(), rx, transcript)
    ensures IsLoad(after, after.V(), n, transcript + data)
  {
    hide Wire, GroupsWire, KeysWire, IsOrder, KeyAt;
    var order :| IsOrder(order) && transcript == LoadWire(before, order, before.V(), rx);
    KeysWireSame(before, after, 0, rx);
    KeysWireConcat(after, 0, rx, n);
    assert transcript + data == Wire(after.scalars, order) + GroupsWire(after.groups[..after.V()])
                                + (KeysWire(after, 0, rx) + data);
    assert transcript + data == LoadWire(after, order, after.V(), n);
  }

  /** What the key loop leaves behind when it accepts a batch. */
  lemma BatchStored(p: Platform, d: Device, h: History, data: Bytes)
    requires SessionInv(p, d, h) && d.ctx.state == HashDerived && d.loader.scalarsLoaded
    requires d.intent.InRange() && d.loader.keysReceived as nat <= d.intent.N() + d.intent.M()
    requires d.ctx.groupIndex as nat == d.intent.V()
    requires KeyLoop(p, d.intent, d.loader.keysReceived as nat, data, 0).Some?
    ensures var (intent, n) := KeyLoop(p, d.intent, d.loader.keysReceived as nat, data, 0).value;
            && intent.scalars == d.intent.scalars && intent.depositor == ZERO32
            && n <= intent.N() + intent.M()
            && GroupsOk(p, intent, intent.V()) && KeysOk(p, intent, n)
            && IsLoad(intent, intent.V(), n, h.transcript + data)
            && (n == 0 ==> intent.keeperPks == ZERO_KEYS && intent.challengerPks == ZERO_KEYS)
  {
    hide KeyLoop, GroupsOk, KeysOk, IsLoad, ValidScalars, Derives;
    var rx := d.loader.keysReceived as nat;
    if rx == 0 {
      ZeroKeysOk(p, d.intent);
    }
    KeyLoopKeeps(p, d.intent, rx, data, 0);
    var (intent, n) := KeyLoop(p, d.intent, rx, data, 0).value;
    GroupsOkSame(p, d.intent, intent, d.intent.V());
    assert data[0..] == data;
    KeysExtend(d.intent, intent, rx, n, h.transcript, data);
    if n == 0 {
      NoKeysZero(p, intent);
    }
  }

  lemma KeyBatchKeeps(p: Platform, d: Device, h: History, data: Bytes, env: Env)
    requires Inv(p, d, h)
    requires d.loader.scalarsLoaded ==>
               d.intent.InRange() && d.loader.keysReceived as nat <= d.intent.N() + d.intent.M()
    ensures var (after, reply) := KeyBatch(p, d, data, env);
            && Inv(p, after, ObserveApprove(h, 2, data, reply))
            && after.streaming == d.streaming
  {
    hide KeyLoop, GroupsOk, KeysOk, IsLoad, ValidScalars, FinishLoad;
    if d.loader.scalarsLoaded && d.ctx.groupIndex as nat == d.intent.V() {
      var r := KeyLoop(p, d.intent, d.loader.keysReceived as nat, data, 0);
      if r.Some? && env.hashOk {
        BatchStored(p, d, h, data);
        var (intent, n) := r.value;
        var e := d.(intent := intent, loader := d.loader.(keysReceived := n as Byte, absorbed := d.loader.absorbed + data));
        var h' := h.(transcript := h.transcript + data);
        if n < d.intent.N() + d.intent.M() {
          assert LoadingOk(p, e, h');
        } else {
          FinishLoadKeeps(p, e, h', env);
          assert StreamInv(e, h') ==> StreamInv(e, h);
        }
      }
    }
  }

  lemma NoKeysZero(p: Platform, intent: Intent)
    requires intent.InRange() && KeysOk(p, intent, 0)
    ensures intent.keeperPks == ZERO_KEYS && intent.challengerPks == ZERO_KEYS
  {
    forall k | 0 <= k < 32 ensures intent.keeperPks[k] == ZERO32 {
      assert k < intent.N() ==> KeyAt(intent, k) == ZERO32;
    }
    forall k | 0 <= k < 32 ensures intent.challengerPks[k] == ZERO32 {
      assert k < intent.M() ==> KeyAt(intent, intent.N() + k) == ZERO32;
    }
  }

  /** All keys are in: the load completes into a loaded intent or the session is wiped. */
  lemma FinishLoadKeeps(p: Platform, d: Device, h: History, env: Env)
    requires d.ctx.state == HashDerived && !d.streaming.inProgress
    requires d.streaming.appNameLen <= APP_NAME_MAX_LEN && d.streaming.pathLen <= MAX_PATH_DEPTH
    requires OnlyDerivation(d.ctx) && Derives(p, h, d.ctx.root) && d.ctx.contextFp == Fingerprint(p, d.ctx.root)
    requires d.ctx.path == h.path
    requires ValidScalars(d.intent.scalars, p.coinType)
    requires GroupsOk(p, d.intent, d.intent.V()) && KeysOk(p, d.intent, d.intent.N() + d.intent.M())
    requires IsLoad(d.intent, d.intent.V(), d.intent.N() + d.intent.M(), h.transcript)
    requires d.loader.absorbed == h.transcript
    ensures var (after, reply) := FinishLoad(p, d, env);
            && Inv(p, after, h)
            && after.ctx.state == (if reply == Accepted then IntentLoaded else Idle)
            && after.streaming == d.streaming
  {
    hide Derives, IsLoad, GroupsOk, KeysOk, DepositorUnique, Fingerprint, AuthAnchor, AllHashlocks;
    var (after, reply) := FinishLoad(p, d, env);
    if reply == Accepted {
      var intent := after.intent;
      assert intent == d.intent.(depositor := intent.depositor);
      DepositorApart(p, d.intent, intent);
      assert IsLoad(intent, intent.V(), intent.N() + intent.M(), h.transcript) by {
        LoadIgnoresDepositor(d.intent, intent, h.transcript);
      }
      assert after.ctx.hashlocks == AllHashlocks(p, d.ctx.root, intent);
      assert CommitmentsOk(p, after, h);
    }
  }

  /** The checks on a key do not look at the depositor. */
  lemma KeyChecksIgnoreDepositor(i1: Intent, i2: Intent, j: nat, key: Bytes32)
    requires i1.InRange() && i2 == i1.(depositor := i2.depositor) && j <= i1.N() + i1.M()
    ensures NotAProvider(i1, key) <==> NotAProvider(i2, key)
    ensures NotStored(i1, j, key) <==> NotStored(i2, j, key)
    ensures j < i1.N() + i1.M() ==>
              KeyAt(i1, j) == KeyAt(i2, j) && (OrderedAfterPrevious(i1, j, key) <==> OrderedAfterPrevious(i2, j, key))
  {
    assert forall k :: 0 <= k < i1.N() + i1.M() ==> KeyAt(i2, k) == KeyAt(i1, k);
  }

  lemma DepositorApart(p: Platform, i1: Intent, i2: Intent)
    requires i1.InRange() && i2 == i1.(depositor := i2.depositor)
    requires GroupsOk(p, i1, i1.V()) && KeysOk(p, i1, i1.N() + i1.M()) && DepositorUnique(i1, i2.depositor)
    ensures GroupsOk(p, i2, i2.V()) && KeysOk(p, i2, i2.N() + i2.M()) && DepositorUnique(i2, i2.depositor)
  {
    hide UsableKey, KeyAt, OrderedAfterPrevious, NotAProvider, NotStored, GroupsOk;
    GroupsOkSame(p, i1, i2, i1.V());
    KeyChecksIgnoreDepositor(i1, i2, i1.N() + i1.M(), i2.depositor);
    forall j | 0 <= j < i1.N() + i1.M()
      ensures KeyAt(i2, j) == KeyAt(i1, j)
      ensures UsableKey(p, KeyAt(i2, j)) && NotAProvider(i2, KeyAt(i2, j)) && OrderedAfterPrevious(i2, j, KeyAt(i2, j))
    {
      KeyChecksIgnoreDepositor(i1, i2, j, KeyAt(i1, j));
    }
  }

  lemma LoadIgnoresDepositor(i1: Intent, i2: Intent, transcript: Bytes)
    requires i1.InRange() && i2 == i1.(depositor := i2.depositor)
    requires IsLoad(i1, i1.V(), i1.N() + i1.M(), transcript)
    ensures IsLoad(i2, i2.V(), i2.N() + i2.M(), transcript)
  {
    hide Wire, GroupsWire, IsOrder;
    var order :| IsOrder(order) && transcript == LoadWire(i1, order, i1.V(), i1.N() + i1.M());
    KeysWireSame(i1, i2, 0, i1.N() + i1.M());
    assert transcript == LoadWire(i2, order, i2.V(), i2.N() + i2.M());
  }

  lemma ApproveAllowed(p: Platform, d: Device, h: History)
    requires Inv(p, d, h)
    ensures d.loader.scalarsLoaded ==>
              && d.ctx.state == HashDerived
              && d.intent.InRange() && d.ctx.groupIndex as nat <= d.intent.V()
              && d.loader.keysReceived as nat <= d.intent.N() + d.intent.M()
  {
  }

  lemma ApproveKeeps(p: Platform, d: Device, h: History, p1: Byte, p2: Byte, data: Bytes, env: Env)
    requires Inv(p, d, h)
    requires d.loader.scalarsLoaded ==>
               && d.intent.InRange() && d.ctx.groupIndex as nat <= d.intent.V()
               && d.loader.keysReceived as nat <= d.intent.N() + d.intent.M()
    ensures var (after, reply) := Approve(p, d, p1, p2, data, env);
            && Inv(p, after, ObserveApprove(h, p1, data, reply))
            && after.streaming == d.streaming
  {
    hide ScalarPayload, GroupPayload, KeyBatch, Inv;
    if p2 == 0 {
      if p1 == 0 {
        ScalarPayloadKeeps(p, d, h, data, env);
      } else if p1 == 1 {
        GroupPayloadKeeps(p, d, h, data, env);
      } else if p1 == 2 {
        KeyBatchKeeps(p, d, h, data, env);
      }
    }
  }
}
