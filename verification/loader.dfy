/** APPROVE_VAULT_INTENT: the three-phase loader as steps on the session globals. */
module Loading {
  import opened Octets
  import opened Intents
  import opened Platforms
  import opened Session
  import opened Tlv

  const TAG_KEEPER_PK: nat := 0x0107
  const TAG_CHALLENGER_PK: nat := 0x0108
  const KEY_ENTRY_LEN: nat := 35

  /** The secp256k1 field prime, big-endian. */
  const SECP256K1_P: Bytes32 :=
    Fill(0xFF, 27) + [0xFE, 0xFF, 0xFF, 0xFC, 0x2F]

  /** vault_xonly_key_is_canonical */
  predicate Canonical(x: Bytes32) {
    Less(x, SECP256K1_P)
  }

  /** A host key the loader lets through to the comparisons. */
  predicate UsableKey(p: Platform, x: Bytes32) {
    Canonical(x) && p.liftsX(x)
  }

  // ---------------------------------------------------------------------------------------------
  // P1=0x01: group records

  /** One record: parse into slot idx and check the provider key and the output order. */
  function GroupEntry(p: Platform, intent: Intent, idx: nat, data: Bytes, pos: nat): (r: Option<(Intent, nat)>)
    requires intent.V() <= MAX_VAULTS && pos < |data|
    ensures r.Some? ==> idx < intent.V() && r.value.0.scalars == intent.scalars && r.value.1 > pos
  {
    if idx >= intent.V() then None
    else
      var parsed := ParseGroup(data[pos..], intent.groups[idx]);
      if parsed.Err? || parsed.value.1 == 0 then None
      else
        var (g, consumed) := parsed.value;
        if !UsableKey(p, g.provider) then None
        else if idx > 0 && g.htlcVout <= intent.groups[idx - 1].htlcVout then None
        else Some((intent.(groups := intent.groups[idx := g]), pos + consumed))
  }

  function GroupLoop(p: Platform, intent: Intent, idx: nat, data: Bytes, pos: nat): (r: Option<(Intent, nat)>)
    requires intent.V() <= MAX_VAULTS && idx <= intent.V()
    ensures r.Some? ==> r.value.0.scalars == intent.scalars && r.value.1 <= intent.V()
    decreases |data| - pos
  {
    if pos >= |data| then Some((intent, idx))
    else
      var e := GroupEntry(p, intent, idx, data, pos);
      if e.None? then None
      else GroupLoop(p, e.value.0, idx + 1, data, e.value.1)
  }

  // ---------------------------------------------------------------------------------------------
  // P1=0x02: keys

  /** Key j of the load: the keepers, then the challengers. */
  function KeyAt(intent: Intent, j: nat): Bytes32
    requires intent.InRange() && j < intent.N() + intent.M()
  {
    if j < intent.N() then intent.keeperPks[j] else intent.challengerPks[j - intent.N()]
  }

  /** The first key of its list has no predecessor to be compared with. */
  predicate OrderedAfterPrevious(intent: Intent, idx: nat, key: Bytes32)
    requires intent.InRange() && idx < intent.N() + intent.M()
  {
    idx == 0 || idx == intent.N() || Less(KeyAt(intent, idx - 1), key)
  }

  predicate NotAProvider(intent: Intent, key: Bytes32)
    requires intent.V() <= MAX_VAULTS
  {
    forall g :: 0 <= g < intent.V() ==> key != intent.groups[g].provider
  }

  predicate NotStored(intent: Intent, idx: nat, key: Bytes32)
    requires intent.InRange() && idx <= intent.N() + intent.M()
  {
    forall j :: 0 <= j < idx ==> key != KeyAt(intent, j)
  }

  function PutKey(intent: Intent, idx: nat, key: Bytes32): (r: Intent)
    requires intent.InRange() && idx < intent.N() + intent.M()
    ensures r.scalars == intent.scalars && r.groups == intent.groups && r.depositor == intent.depositor
    ensures forall j :: 0 <= j < intent.N() + intent.M() ==> KeyAt(r, j) == if j == idx then key else KeyAt(intent, j)
  {
    if idx < intent.N() then intent.(keeperPks := intent.keeperPks[idx := key])
    else intent.(challengerPks := intent.challengerPks[idx - intent.N() := key])
  }

  /** vault_validate_and_store_key */
  function StoreKey(intent: Intent, idx: nat, key: Bytes32): (r: Option<Intent>)
    requires intent.InRange() && idx < intent.N() + intent.M()
  {
    if !OrderedAfterPrevious(intent, idx, key) || !NotAProvider(intent, key) || !NotStored(intent, idx, key) then None
    else Some(PutKey(intent, idx, key))
  }

  /** vault_check_depositor_uniqueness */
  predicate DepositorUnique(intent: Intent, key: Bytes32)
    requires intent.InRange()
  {
    NotAProvider(intent, key) && NotStored(intent, intent.N() + intent.M(), key)
  }

  function ExpectedTag(intent: Intent, rx: nat): nat {
    if rx < intent.N() then TAG_KEEPER_PK else TAG_CHALLENGER_PK
  }

  /** One entry of a key batch. */
  function KeyEntry(p: Platform, intent: Intent, rx: nat, data: Bytes, pos: nat): (r: Option<Intent>)
    requires intent.InRange() && pos < |data|
    ensures r.Some? ==> rx < intent.N() + intent.M() && pos + KEY_ENTRY_LEN <= |data| && r.value.scalars == intent.scalars
  {
    var h := Header(data, pos);
    if h.Err? then None
    else
      var (tag, start, end) := h.value;
      if end - start != 32 || rx >= intent.N() + intent.M() || tag != ExpectedTag(intent, rx) then None
      else
        var key: Bytes32 := data[start..end];
        if !UsableKey(p, key) then None else StoreKey(intent, rx, key)
  }

  function KeyLoop(p: Platform, intent: Intent, rx: nat, data: Bytes, pos: nat): (r: Option<(Intent, nat)>)
    requires intent.InRange() && rx <= intent.N() + intent.M() && pos <= |data|
    ensures r.Some? ==> r.value.0.scalars == intent.scalars && r.value.1 <= intent.N() + intent.M()
    decreases |data| - pos
  {
    if pos == |data| then Some((intent, rx))
    else
      var e := KeyEntry(p, intent, rx, data, pos);
      if e.None? then None
      else KeyLoop(p, e.value, rx + 1, data, pos + KEY_ENTRY_LEN)
  }

  // ---------------------------------------------------------------------------------------------
  // The handlers

  /** Absorb an accepted payload into the running fingerprint; a hash failure ends the session. */
  function Absorb(d: Device, data: Bytes, env: Env): (Device, Reply) {
    if env.hashOk then (d.(loader := d.loader.(absorbed := d.loader.absorbed + data)), Accepted)
    else (Invalidate(d), Rejected)
  }

  /** P1=0x00. The root, path, app name and context fingerprint outlive the reset. */
  function ScalarPayload(p: Platform, d: Device, data: Bytes, env: Env): (Device, Reply) {
    if d.ctx.state != HashDerived then (d, Rejected)
    else
      var e := Invalidate(d);
      var kept := e.(ctx := e.ctx.(root := d.ctx.root, path := d.ctx.path, appName := d.ctx.appName,
                                   contextFp := d.ctx.contextFp));
      var (f, reply) := Transition(kept, Idle, HashDerived);
      if reply == Rejected then (f, Rejected)
      else
        var parsed := Parse(data, p.coinType);
        if parsed.Err? then (Invalidate(f), Rejected)
        else
          var g := f.(intent := f.intent.(scalars := parsed.value));
          var (h, absorbed) := Absorb(g.(loader := ZERO_LOADER), data, env);
          if absorbed == Rejected then (h, Rejected)
          else (h.(loader := h.loader.(scalarsLoaded := true)), Accepted)
  }

  /** P1=0x01 */
  function GroupPayload(p: Platform, d: Device, data: Bytes, env: Env): (Device, Reply)
    requires d.loader.scalarsLoaded ==> d.intent.InRange() && d.ctx.groupIndex as nat <= d.intent.V()
  {
    if !d.loader.scalarsLoaded then (d, Rejected)
    else
      var r := GroupLoop(p, d.intent, d.ctx.groupIndex as nat, data, 0);
      if r.None? then (Invalidate(d), Rejected)
      else Absorb(d.(intent := r.value.0, ctx := d.ctx.(groupIndex := r.value.1 as Byte)), data, env)
  }

  function AllHashlocks(p: Platform, root: Bytes32, intent: Intent): (h: HashArray)
    requires intent.V() <= MAX_VAULTS
  {
    seq(MAX_VAULTS, g requires 0 <= g < MAX_VAULTS =>
      if g < intent.V() then Hashlock(p, root, intent.groups[g].htlcVout) else ZERO32)
  }

  /** Everything that follows the last key: path, depositor key, commitments, review. */
  function FinishLoad(p: Platform, d: Device, env: Env): (Device, Reply)
    requires d.intent.InRange()
  {
    var key := p.pubkeyAt(d.intent.scalars.path);
    if d.ctx.path != d.intent.scalars.path || key.None? then (Invalidate(d), Rejected)
    else
      var depositor: Bytes32 := key.value[1..];
      if !DepositorUnique(d.intent, depositor) || d.ctx.root == ZERO32 || !env.approves then (Invalidate(d), Rejected)
      else
        var intent := d.intent.(depositor := depositor);
        var ctx := d.ctx.(
          hashlocks := AllHashlocks(p, d.ctx.root, intent),
          authAnchor := AuthAnchor(p, d.ctx.root),
          root := ZERO32,
          intentFp := Fingerprint(p, d.loader.absorbed));
        Transition(d.(intent := intent, ctx := ctx, loader := ZERO_LOADER), HashDerived, IntentLoaded)
  }

  /** P1=0x02 */
  function KeyBatch(p: Platform, d: Device, data: Bytes, env: Env): (Device, Reply)
    requires d.loader.scalarsLoaded ==>
               d.intent.InRange() && d.loader.keysReceived as nat <= d.intent.N() + d.intent.M()
  {
    if !d.loader.scalarsLoaded then (d, Rejected)
    else if d.ctx.groupIndex as nat != d.intent.V() || d.ctx.state != HashDerived then (Invalidate(d), Rejected)
    else
      var r := KeyLoop(p, d.intent, d.loader.keysReceived as nat, data, 0);
      if r.None? then (Invalidate(d), Rejected)
      else
        var e := d.(intent := r.value.0, loader := d.loader.(keysReceived := r.value.1 as Byte));
        var (f, absorbed) := Absorb(e, data, env);
        if absorbed == Rejected then (f, Rejected)
        else if r.value.1 < d.intent.N() + d.intent.M() then (f, Accepted)
        else FinishLoad(p, f, env)
  }

  /** handler_approve_vault_intent */
  function Approve(p: Platform, d: Device, p1: Byte, p2: Byte, data: Bytes, env: Env): (Device, Reply)
    requires d.loader.scalarsLoaded ==>
               && d.intent.InRange() && d.ctx.groupIndex as nat <= d.intent.V()
               && d.loader.keysReceived as nat <= d.intent.N() + d.intent.M()
  {
    if p2 != 0 then (d, Rejected)
    else if p1 == 0 then ScalarPayload(p, d, data, env)
    else if p1 == 1 then GroupPayload(p, d, data, env)
    else if p1 == 2 then KeyBatch(p, d, data, env)
    else (d, Rejected)
  }
}
