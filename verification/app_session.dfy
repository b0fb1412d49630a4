/** The app as an object: DERIVE_CONTEXT_HASH and APPROVE_VAULT_INTENT, field by field. */
module AppSession {
  import opened Octets
  import opened Intents
  import opened Platforms
  import opened Session
  import opened Tlv
  import opened Loading

  /** G_vault_context, G_vault_intent, G_approve_intent_state, G_derive_streaming and G_scratch. */
  class Globals {
    const p: Platform
    var ctx: Context
    var intent: Intent
    var loader: Loader
    var streaming: Streaming
    var scratch: Scratch

    function State(): Device
      reads this
    {
      Device(ctx, intent, loader, streaming, scratch)
    }

    constructor (p: Platform)
      ensures State() == BOOT && this.p == p
    {
      this.p := p;
      ctx, intent, loader := ZERO_CONTEXT, ZERO_INTENT, ZERO_LOADER;
      streaming, scratch := ZERO_STREAMING, ZERO_SCRATCH;
    }

    /** vault_context_invalidate */
    method InvalidateContext()
      modifies this
      ensures State() == Invalidate(old(State()))
    {
      ctx := ctx.(root := ZERO32);
      ctx := ZERO_CONTEXT;
      intent := ZERO_INTENT;
      loader := ZERO_LOADER;
      scratch := ZERO_SCRATCH;
    }

    /** vault_context_transition */
    method ChangeState(from: SessionState, to: SessionState) returns (reply: Reply)
      modifies this
      ensures (State(), reply) == Transition(old(State()), from, to)
    {
      if ctx.state != from || !TransitionAllowed(from, to) {
        InvalidateContext();
        return Rejected;
      }
      ctx := ctx.(state := to);
      return Accepted;
    }

    // -------------------------------------------------------------------------------------------
    // DERIVE_CONTEXT_HASH

    /** handle_initial_chunk: the cursor walks name, path, total and first chunk. */
    method HandleInitialChunk(p2: Byte, data: Bytes, env: Env) returns (reply: Reply)
      modifies this
      ensures (State(), reply) == InitialChunk(p, old(State()), p2, data, env)
    {
      hide Finalize, Splice, CharsetValid, ReadU16BE, DecodeBE32, Invalidate;
      if p2 != 0 && p2 != 1 {
        return Rejected;
      }
      if ctx.state != Idle {
        InvalidateContext();
      }
      scratch := ZERO_SCRATCH;
      streaming := ZERO_STREAMING;
      loader := ZERO_LOADER;
      var lc := |data|;
      var off := 0;
      if lc < 1 {
        return Rejected;
      }
      var nameLen := data[off] as nat;
      off := off + 1;
      if nameLen == 0 || nameLen > APP_NAME_MAX_LEN || off + nameLen > lc {
        return Rejected;
      }
      var name := data[off..off + nameLen];
      off := off + nameLen;
      if !CharsetValid(name) || off + 1 > lc {
        return Rejected;
      }
      var pathLen := data[off] as nat;
      off := off + 1;
      if pathLen == 0 || pathLen > MAX_PATH_DEPTH || off + pathLen * 4 > lc {
        return Rejected;
      }
      var path := DecodeBE32(data, off, pathLen);
      scratch := scratch.(path := Splice(scratch.path, 0, path));
      off := off + 4 * pathLen;
      if off + 2 > lc {
        return Rejected;
      }
      var total := ReadU16BE(data, off);
      off := off + 2;
      var chunk := data[off..];
      if total == 0 || total > CONTEXT_MAX_LEN || |chunk| > total {
        return Rejected;
      }
      scratch := scratch.(appNameBuf := Splice(scratch.appNameBuf, 0, name));
      streaming := Streaming(false, p2, nameLen, pathLen, total, |chunk|);
      scratch := scratch.(contextBuf := Splice(scratch.contextBuf, 0, chunk));
      if streaming.received < total {
        streaming := streaming.(inProgress := true);
        return Accepted;
      }
      reply := FinalizeDerivation(env);
    }

    /** handle_continuation_chunk */
    method HandleContinuationChunk(p2: Byte, data: Bytes, env: Env) returns (reply: Reply)
      requires streaming.appNameLen <= APP_NAME_MAX_LEN && streaming.pathLen <= MAX_PATH_DEPTH
      modifies this
      ensures (State(), reply) == Continuation(p, old(State()), p2, data, env)
    {
      hide Finalize, Splice, Invalidate;
      if !streaming.inProgress || p2 != streaming.p2Mode || |data| == 0 {
        return Rejected;
      }
      if streaming.received >= streaming.total || streaming.total > CONTEXT_MAX_LEN {
        InvalidateContext();
        streaming := streaming.(inProgress := false);
        return Rejected;
      }
      var remaining := streaming.total - streaming.received;
      if |data| > remaining {
        InvalidateContext();
        streaming := streaming.(inProgress := false);
        return Rejected;
      }
      scratch := scratch.(contextBuf := Splice(scratch.contextBuf, streaming.received, data));
      streaming := streaming.(received := streaming.received + |data|);
      if streaming.received < streaming.total {
        return Accepted;
      }
      reply := FinalizeDerivation(env);
    }

    /** _finalize */
    method FinalizeDerivation(env: Env) returns (reply: Reply)
      requires streaming.appNameLen <= APP_NAME_MAX_LEN && streaming.pathLen <= MAX_PATH_DEPTH
      requires streaming.total <= CONTEXT_MAX_LEN
      modifies this
      ensures (State(), reply) == Finalize(p, old(State()), env)
    {
      hide Fingerprint, Transition, Invalidate;
      streaming := streaming.(inProgress := false);
      var name := scratch.appNameBuf[..streaming.appNameLen];
      var path := scratch.path[..streaming.pathLen];
      var context := scratch.contextBuf[..streaming.total];
      var key := p.pubkeyAt(path);
      if key.None? {
        scratch := scratch.(contextBuf := ZERO_BUFFER);
        return Rejected;
      }
      if streaming.p2Mode == 0 && !env.approves {
        scratch := scratch.(contextBuf := ZERO_BUFFER);
        return Rejected;
      }
      var root := p.hkdf(name, key.value, context);
      scratch := scratch.(contextBuf := ZERO_BUFFER);
      if !env.hashOk {
        InvalidateContext();
        return Rejected;
      }
      ctx := ctx.(root := root);
      ctx := ctx.(contextFp := Fingerprint(p, root));
      reply := ChangeState(Idle, HashDerived);
      if reply == Rejected {
        return;
      }
      ctx := ctx.(path := path);
      ctx := ctx.(appName := name);
    }

    /** handler_derive_context_hash */
    method DeriveContextHash(p1: Byte, p2: Byte, data: Bytes, env: Env) returns (reply: Reply)
      requires streaming.appNameLen <= APP_NAME_MAX_LEN && streaming.pathLen <= MAX_PATH_DEPTH
      modifies this
      ensures (State(), reply) == Derive(p, old(State()), p1, p2, data, env)
    {
      hide InitialChunk, Continuation;
      if p1 == 0 {
        reply := HandleInitialChunk(p2, data, env);
      } else if p1 == 1 {
        reply := HandleContinuationChunk(p2, data, env);
      } else {
        reply := Rejected;
      }
    }

    // -------------------------------------------------------------------------------------------
    // APPROVE_VAULT_INTENT

    /** _absorb_intent_apdu */
    method AbsorbCommand(data: Bytes, env: Env) returns (reply: Reply)
      modifies this
      ensures (State(), reply) == Absorb(old(State()), data, env)
    {
      if !env.hashOk {
        InvalidateContext();
        return Rejected;
      }
      loader := loader.(absorbed := loader.absorbed + data);
      return Accepted;
    }

    /** handle_scalar_payload: what must survive the reset is carried across it. */
    method HandleScalarPayload(data: Bytes, env: Env) returns (reply: Reply)
      modifies this
      ensures (State(), reply) == ScalarPayload(p, old(State()), data, env)
    {
      hide ParseFrom;
      if ctx.state != HashDerived {
        return Rejected;
      }
      var savedRoot, savedPath, savedName, savedFp := ctx.root, ctx.path, ctx.appName, ctx.contextFp;
      InvalidateContext();
      ctx := ctx.(root := savedRoot);
      ctx := ctx.(path := savedPath, appName := savedName, contextFp := savedFp);
      reply := ChangeState(Idle, HashDerived);
      if reply == Rejected {
        return;
      }
      var parsed := ParseScalars(data, intent.scalars, p.coinType);
      if parsed.Err? {
        InvalidateContext();
        return Rejected;
      }
      intent := intent.(scalars := parsed.value);
      loader := ZERO_LOADER;
      reply := AbsorbCommand(data, env);
      if reply == Accepted {
        loader := loader.(scalarsLoaded := true);
      }
    }

    /** The records of a command, each into the next slot; on a refusal the caller ends the session. */
    method StoreGroups(data: Bytes) returns (ok: bool)
      requires intent.InRange() && ctx.groupIndex as nat <= intent.V()
      modifies this`intent, this`ctx
      ensures ok <==> GroupLoop(p, old(intent), old(ctx.groupIndex) as nat, data, 0).Some?
      ensures ok ==>
                && intent == GroupLoop(p, old(intent), old(ctx.groupIndex) as nat, data, 0).value.0
                && ctx == old(ctx).(groupIndex :=
                     GroupLoop(p, old(intent), old(ctx.groupIndex) as nat, data, 0).value.1 as Byte)
    {
      hide ParseGroup, UsableKey;
      var pos := 0;
      ghost var i0, gi0 := intent, ctx.groupIndex as nat;
      while pos < |data|
        invariant intent.InRange() && ctx.groupIndex as nat <= intent.V()
        invariant ctx == old(ctx).(groupIndex := ctx.groupIndex)
        invariant GroupLoop(p, i0, gi0, data, 0) == GroupLoop(p, intent, ctx.groupIndex as nat, data, pos)
        decreases |data| - pos
      {
        var idx := ctx.groupIndex as nat;
        if idx >= intent.V() {
          return false;
        }
        var parsed := ParseGroupRecord(data[pos..], intent.groups[idx]);
        if parsed.Err? || parsed.value.1 == 0 {
          return false;
        }
        intent := intent.(groups := intent.groups[idx := parsed.value.0]);
        if !UsableKey(p, intent.groups[idx].provider) {
          return false;
        }
        if idx > 0 && intent.groups[idx].htlcVout <= intent.groups[idx - 1].htlcVout {
          return false;
        }
        ctx := ctx.(groupIndex := (idx + 1) as Byte);
        pos := pos + parsed.value.1;
      }
      return true;
    }

    /** handle_group_payload */
    method HandleGroupPayload(data: Bytes, env: Env) returns (reply: Reply)
      requires loader.scalarsLoaded ==> intent.InRange() && ctx.groupIndex as nat <= intent.V()
      modifies this
      ensures (State(), reply) == GroupPayload(p, old(State()), data, env)
    {
      hide GroupLoop;
      if !loader.scalarsLoaded {
        return Rejected;
      }
      var ok := StoreGroups(data);
      if !ok {
        InvalidateContext();
        return Rejected;
      }
      reply := AbsorbCommand(data, env);
    }

    /** vault_validate_and_store_key */
    method ValidateAndStoreKey(idx: nat, key: Bytes32) returns (ok: bool)
      requires intent.InRange() && idx < intent.N() + intent.M()
      modifies this`intent
      ensures ok <==> StoreKey(old(intent), idx, key).Some?
      ensures intent == if ok then StoreKey(old(intent), idx, key).value else old(intent)
    {
      hide Less;
      var inKeepers := idx < intent.N();
      var firstInGroup := idx == 0 || idx == intent.N();
      if !firstInGroup {
        var prev := if inKeepers then intent.keeperPks[idx - 1] else intent.challengerPks[idx - intent.N() - 1];
        if !Less(prev, key) {
          return false;
        }
      }
      var apart := KeyApart(key, idx);
      if !apart {
        return false;
      }
      if inKeepers {
        intent := intent.(keeperPks := intent.keeperPks[idx := key]);
      } else {
        intent := intent.(challengerPks := intent.challengerPks[idx - intent.N() := key]);
      }
      return true;
    }

    /** The two comparison loops, with the providers and with the first n stored keys. */
    method KeyApart(key: Bytes32, n: nat) returns (ok: bool)
      requires intent.InRange() && n <= intent.N() + intent.M()
      ensures ok <==> NotAProvider(intent, key) && NotStored(intent, n, key)
    {
      for g := 0 to intent.V()
        invariant forall k :: 0 <= k < g ==> key != intent.groups[k].provider
      {
        if key == intent.groups[g].provider {
          return false;
        }
      }
      for j := 0 to n
        invariant forall k :: 0 <= k < j ==> key != KeyAt(intent, k)
      {
        if key == KeyAt(intent, j) {
          return false;
        }
      }
      return true;
    }

    /** The entries of a key batch; on a refusal the caller ends the session. */
    method StoreKeys(data: Bytes) returns (ok: bool)
      requires intent.InRange() && loader.keysReceived as nat <= intent.N() + intent.M()
      modifies this`intent, this`loader
      ensures ok <==> KeyLoop(p, old(intent), old(loader.keysReceived) as nat, data, 0).Some?
      ensures ok ==>
                && intent == KeyLoop(p, old(intent), old(loader.keysReceived) as nat, data, 0).value.0
                && loader == old(loader).(keysReceived :=
                     KeyLoop(p, old(intent), old(loader.keysReceived) as nat, data, 0).value.1 as Byte)
    {
      hide UsableKey, StoreKey, Tlv.Header;
      var pos := 0;
      ghost var i0, rx0 := intent, loader.keysReceived as nat;
      while pos < |data|
        invariant pos <= |data| && intent.InRange() && loader.keysReceived as nat <= intent.N() + intent.M()
        invariant loader == old(loader).(keysReceived := loader.keysReceived)
        invariant KeyLoop(p, i0, rx0, data, 0) == KeyLoop(p, intent, loader.keysReceived as nat, data, pos)
      {
        var h := Header(data, pos);
        if h.Err? {
          return false;
        }
        var (tag, start, end) := h.value;
        var rx := loader.keysReceived as nat;
        if end - start != 32 || rx >= intent.N() + intent.M() {
          return false;
        }
        if tag != (if rx < intent.N() then TAG_KEEPER_PK else TAG_CHALLENGER_PK) {
          return false;
        }
        var key: Bytes32 := data[start..end];
        if !UsableKey(p, key) {
          return false;
        }
        var stored := ValidateAndStoreKey(rx, key);
        if !stored {
          return false;
        }
        loader := loader.(keysReceived := (rx + 1) as Byte);
        pos := pos + KEY_ENTRY_LEN;
      }
      return true;
    }

    /** The hashlock of every group in use. */
    method DeriveHashlocks(root: Bytes32)
      requires intent.InRange() && ctx.hashlocks == ZERO_HASHES
      modifies this`ctx
      ensures ctx == old(ctx).(hashlocks := AllHashlocks(p, root, intent))
    {
      hide Hashlock;
      for g := 0 to intent.V()
        invariant ctx == old(ctx).(hashlocks := ctx.hashlocks)
        invariant forall k :: 0 <= k < MAX_VAULTS ==>
                    ctx.hashlocks[k] == if k < g then Hashlock(p, root, intent.groups[k].htlcVout) else ZERO32
      {
        ctx := ctx.(hashlocks := ctx.hashlocks[g := Hashlock(p, root, intent.groups[g].htlcVout)]);
      }
      assert ctx.hashlocks == AllHashlocks(p, root, intent);
    }

    /** The end of handle_key_batch: path, depositor key, commitments, review. */
    method CompleteLoad(env: Env) returns (reply: Reply)
      requires intent.InRange() && ctx.hashlocks == ZERO_HASHES
      modifies this
      ensures (State(), reply) == FinishLoad(p, old(State()), env)
    {
      hide DepositorUnique, NotAProvider, NotStored, AllHashlocks, AuthAnchor, Fingerprint;
      var key := p.pubkeyAt(intent.scalars.path);
      if ctx.path != intent.scalars.path || key.None? {
        InvalidateContext();
        return Rejected;
      }
      var depositor: Bytes32 := key.value[1..];
      var unique := CheckDepositorUniqueness(depositor);
      if !unique {
        InvalidateContext();
        return Rejected;
      }
      ghost var keyed := intent;
      intent := intent.(depositor := depositor);
      if ctx.root == ZERO32 {
        InvalidateContext();
        return Rejected;
      }
      DeriveHashlocks(ctx.root);
      ctx := ctx.(authAnchor := AuthAnchor(p, ctx.root));
      ctx := ctx.(root := ZERO32);
      ctx := ctx.(intentFp := Fingerprint(p, loader.absorbed));
      loader := ZERO_LOADER;
      if !env.approves {
        InvalidateContext();
        return Rejected;
      }
      reply := ChangeState(HashDerived, IntentLoaded);
    }

    /** vault_check_depositor_uniqueness */
    method CheckDepositorUniqueness(key: Bytes32) returns (ok: bool)
      requires intent.InRange()
      ensures ok <==> DepositorUnique(intent, key)
    {
      ok := KeyApart(key, intent.N() + intent.M());
    }

    /** handle_key_batch */
    method HandleKeyBatch(data: Bytes, env: Env) returns (reply: Reply)
      requires loader.scalarsLoaded ==>
                 && intent.InRange() && loader.keysReceived as nat <= intent.N() + intent.M()
                 && ctx.hashlocks == ZERO_HASHES
      modifies this
      ensures (State(), reply) == KeyBatch(p, old(State()), data, env)
    {
      hide KeyLoop, FinishLoad;
      if !loader.scalarsLoaded {
        return Rejected;
      }
      if ctx.groupIndex as nat != intent.V() {
        InvalidateContext();
        return Rejected;
      }
      if ctx.state != HashDerived {
        InvalidateContext();
        return Rejected;
      }
      var ok := StoreKeys(data);
      if !ok {
        InvalidateContext();
        return Rejected;
      }
      reply := AbsorbCommand(data, env);
      if reply == Rejected {
        return;
      }
      if loader.keysReceived as nat < intent.N() + intent.M() {
        return Accepted;
      }
      reply := CompleteLoad(env);
    }

    /** handler_approve_vault_intent */
    method ApproveVaultIntent(p1: Byte, p2: Byte, data: Bytes, env: Env) returns (reply: Reply)
      requires loader.scalarsLoaded ==>
                 && intent.InRange() && ctx.groupIndex as nat <= intent.V()
                 && loader.keysReceived as nat <= intent.N() + intent.M()
                 && ctx.hashlocks == ZERO_HASHES
      modifies this
      ensures (State(), reply) == Approve(p, old(State()), p1, p2, data, env)
    {
      hide ScalarPayload, GroupPayload, KeyBatch;
      if p2 != 0 {
        return Rejected;
      }
      match p1 {
        case 0 => reply := HandleScalarPayload(data, env);
        case 1 => reply := HandleGroupPayload(data, env);
        case 2 => reply := HandleKeyBatch(data, env);
        case _ => reply := Rejected;
      }
    }
  }
}
