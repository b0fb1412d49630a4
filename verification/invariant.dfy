/** What every reachable session state keeps, for the derive and approve commands. */
module Invariants {
  import opened Octets
  import opened Intents
  import opened Platforms
  import opened Session
  import opened InitialChunks
  import opened Tlv
  import opened Loading
  import opened LoadingLemmas

  /** What an observer of the commands and replies has seen so far. */
  datatype History = History(
    /** App name, path and concatenated chunks of the derivation in progress or last completed. */
    appName: Bytes,
    path: seq<U32>,
    chunks: Bytes,
    /** Concatenated CData of the accepted commands of the current load. */
    transcript: Bytes)

  const NO_HISTORY := History([], [], [], [])

  /** The root the observed derivation stands for. */
  ghost predicate Derives(p: Platform, h: History, root: Bytes32) {
    p.pubkeyAt(h.path).Some? && root == p.hkdf(h.appName, p.pubkeyAt(h.path).value, h.chunks)
  }

  /** The scratch buffers hold what was streamed so far, and nothing else has touched them. */
  ghost predicate Buffered(d: Device, h: History) {
    var s := d.streaming;
    && s.appNameLen == |h.appName| <= APP_NAME_MAX_LEN && d.scratch.appNameBuf[..s.appNameLen] == h.appName
    && s.pathLen == |h.path| <= MAX_PATH_DEPTH && d.scratch.path[..s.pathLen] == h.path
    && s.received == |h.chunks| <= s.total <= CONTEXT_MAX_LEN && d.scratch.contextBuf[..s.received] == h.chunks
  }

  ghost predicate StreamInv(d: Device, h: History) {
    && d.streaming.appNameLen <= APP_NAME_MAX_LEN
    && d.streaming.pathLen <= MAX_PATH_DEPTH
    && (d.streaming.inProgress ==>
          && d.ctx.state == Idle
          && d.streaming.received < d.streaming.total
          && Buffered(d, h))
  }

  /** Nothing but the derivation is in the context. */
  ghost predicate OnlyDerivation(c: Context) {
    c == ZERO_CONTEXT.(state := HashDerived, root := c.root, path := c.path, appName := c.appName,
                       contextFp := c.contextFp, groupIndex := c.groupIndex)
  }

  /** The bytes of a load that has filled gi group slots and rx keys, scalars sent in the given order. */
  function LoadWire(intent: Intent, order: seq<Field>, gi: nat, rx: nat): Bytes
    requires intent.InRange() && gi <= MAX_VAULTS && rx <= intent.N() + intent.M()
  {
    Wire(intent.scalars, order) + GroupsWire(intent.groups[..gi]) + KeysWire(intent, 0, rx)
  }

  ghost predicate IsLoad(intent: Intent, gi: nat, rx: nat, transcript: Bytes)
    requires intent.InRange() && gi <= MAX_VAULTS && rx <= intent.N() + intent.M()
  {
    exists order :: IsOrder(order) && transcript == LoadWire(intent, order, gi, rx)
  }

  /** Midway through a load. */
  ghost predicate LoadingOk(p: Platform, d: Device, h: History) {
    var gi, rx := d.ctx.groupIndex as nat, d.loader.keysReceived as nat;
    && ValidScalars(d.intent.scalars, p.coinType)
    && gi <= d.intent.V() && rx < d.intent.N() + d.intent.M() && (rx > 0 ==> gi == d.intent.V())
    && GroupsOk(p, d.intent, gi)
    && (rx > 0 ==> KeysOk(p, d.intent, rx))
    && (rx == 0 ==> d.intent.keeperPks == ZERO_KEYS && d.intent.challengerPks == ZERO_KEYS)
    && d.intent.depositor == ZERO32
    && IsLoad(d.intent, gi, rx, h.transcript)
    && d.loader.absorbed == h.transcript
  }

  /** Everything the signing flows take for granted about a loaded intent. */
  ghost predicate IntentOk(p: Platform, intent: Intent) {
    && ValidScalars(intent.scalars, p.coinType)
    && GroupsOk(p, intent, intent.V())
    && KeysOk(p, intent, intent.N() + intent.M())
    && DepositorUnique(intent, intent.depositor)
    && p.pubkeyAt(intent.scalars.path).Some?
    && intent.depositor == p.pubkeyAt(intent.scalars.path).value[1..]
  }

  /** The commitments in the context are those of the derived root, which itself is gone. */
  ghost predicate CommitmentsOk(p: Platform, d: Device, h: History)
    requires d.intent.V() <= MAX_VAULTS
  {
    exists root: Bytes32 ::
      && Derives(p, h, root) && root != ZERO32
      && d.ctx.hashlocks == AllHashlocks(p, root, d.intent)
      && d.ctx.authAnchor == AuthAnchor(p, root)
      && d.ctx.contextFp == Fingerprint(p, root)
  }

  ghost predicate LoadedOk(p: Platform, d: Device, h: History) {
    && IntentOk(p, d.intent)
    && d.loader == ZERO_LOADER
    && d.ctx.root == ZERO32
    && d.ctx.path == h.path == d.intent.scalars.path
    && CommitmentsOk(p, d, h)
    && IsLoad(d.intent, d.intent.V(), d.intent.N() + d.intent.M(), h.transcript)
    && d.ctx.intentFp == Fingerprint(p, h.transcript)
  }

  ghost predicate SessionInv(p: Platform, d: Device, h: History) {
    match d.ctx.state
    case Idle => d.ctx == ZERO_CONTEXT && d.intent == ZERO_INTENT && d.loader == ZERO_LOADER
    case HashDerived =>
      && OnlyDerivation(d.ctx)
      && Derives(p, h, d.ctx.root) && d.ctx.contextFp == Fingerprint(p, d.ctx.root)
      && d.ctx.path == h.path && d.ctx.appName == h.appName
      && (if d.loader.scalarsLoaded then LoadingOk(p, d, h)
          else d.intent == ZERO_INTENT && d.loader == ZERO_LOADER && d.ctx.groupIndex == 0)
    case IntentLoaded => LoadedOk(p, d, h)
  }

  ghost predicate Inv(p: Platform, d: Device, h: History) {
    StreamInv(d, h) && SessionInv(p, d, h)
  }

  /** The observer's view after a derive command: an accepted initial chunk is known by what was printed into it. */
  ghost function ObserveDerive(h: History, p1: Byte, data: Bytes, reply: Reply): History {
    if reply == Rejected then h
    else if p1 == 1 then h.(chunks := h.chunks + data)
    else if exists name, path, total, chunk :: IsPrinted(data, name, path, total, chunk) then
      var name, path, total, chunk :| IsPrinted(data, name, path, total, chunk);
      h.(appName := name, path := path, chunks := chunk)
    else h
  }

  /** The printed form of a chunk is unique, and it is what the device read. */
  lemma ObservesWhatWasRead(h: History, data: Bytes)
    requires ParseInitial(data).Good?
    ensures var i := ParseInitial(data);
            ObserveDerive(h, 0, data, Accepted) == h.(appName := i.appName, path := i.path, chunks := i.chunk)
  {
    hide ParseInitial, IsPrinted;
    var i := ParseInitial(data);
    InitialAccepts(data, i.appName, i.path, i.total, i.chunk);
    forall name, path, total, chunk | IsPrinted(data, name, path, total, chunk)
      ensures name == i.appName && path == i.path && chunk == i.chunk
    {
      InitialAccepts(data, name, path, total, chunk);
    }
  }

  /** The observer's view after an approve command. */
  function ObserveApprove(h: History, p1: Byte, data: Bytes, reply: Reply): History {
    if reply == Rejected then h
    else if p1 == 0 then h.(transcript := data)
    else h.(transcript := h.transcript + data)
  }

  lemma BootInv(p: Platform)
    ensures Inv(p, BOOT, NO_HISTORY)
  {
  }

  // ---------------------------------------------------------------------------------------------
  // DERIVE_CONTEXT_HASH

  /** A completed stream hands HKDF exactly the observed chunks, and the transition always succeeds. */
  lemma FinalizeKeeps(p: Platform, d: Device, h: History, env: Env)
    requires d.ctx == ZERO_CONTEXT && d.intent == ZERO_INTENT && d.loader == ZERO_LOADER
    requires Buffered(d, h) && d.streaming.received == d.streaming.total
    ensures var (after, reply) := Finalize(p, d, env);
            && Inv(p, after, h)
            && (reply == Accepted <==>
                  p.pubkeyAt(h.path).Some? && (d.streaming.p2Mode == 0 ==> env.approves) && env.hashOk)
            && (reply == Accepted ==> after.ctx.state == HashDerived && Derives(p, h, after.ctx.root))
            && (reply == Rejected ==> after.ctx == ZERO_CONTEXT)
            && !after.streaming.inProgress
  {
  }

  lemma DeriveKeeps(p: Platform, d: Device, h: History, p1: Byte, p2: Byte, data: Bytes, env: Env)
    requires Inv(p, d, h)
    ensures var (after, reply) := Derive(p, d, p1, p2, data, env);
            Inv(p, after, ObserveDerive(h, p1, data, reply))
  {
    if p1 == 0 {
      InitialKeeps(p, d, h, p2, data, env);
    } else if p1 == 1 {
      ContinuationKeeps(p, d, h, p2, data, env);
    }
  }

  lemma InitialKeeps(p: Platform, d: Device, h: History, p2: Byte, data: Bytes, env: Env)
    requires Inv(p, d, h)
    ensures var (after, reply) := InitialChunk(p, d, p2, data, env);
            Inv(p, after, ObserveDerive(h, 0, data, reply))
  {
    hide IsPrinted, ParseInitial, LoadingOk, LoadedOk;
    if p2 == 0 || p2 == 1 {
      var e := ResetForInitial(d);
      assert e.ctx == ZERO_CONTEXT && e.intent == ZERO_INTENT && e.loader == ZERO_LOADER;
      match ParseInitial(data)
      case BadHeader =>
      case BadTotal(path) =>
      case Good(name, path, total, chunk) =>
        var h' := h.(appName := name, path := path, chunks := chunk);
        var scratch := Scratch(
          Splice(e.scratch.appNameBuf, 0, name),
          Splice(e.scratch.path, 0, path),
          Splice(e.scratch.contextBuf, 0, chunk));
        var f := e.(scratch := scratch, streaming := Streaming(false, p2, |name|, |path|, total, |chunk|));
        assert Buffered(f, h');
        ObservesWhatWasRead(h, data);
        if |chunk| == total {
          FinalizeKeeps(p, f, h', env);
        }
    }
  }

  lemma ContinuationKeeps(p: Platform, d: Device, h: History, p2: Byte, data: Bytes, env: Env)
    requires Inv(p, d, h)
    ensures var (after, reply) := Continuation(p, d, p2, data, env);
            Inv(p, after, ObserveDerive(h, 1, data, reply))
  {
    if d.streaming.inProgress && p2 == d.streaming.p2Mode && data != []
       && |data| <= d.streaming.total - d.streaming.received {
      var h' := h.(chunks := h.chunks + data);
      var e := d.(
        scratch := d.scratch.(contextBuf := Splice(d.scratch.contextBuf, d.streaming.received, data)),
        streaming := d.streaming.(received := d.streaming.received + |data|));
      assert e.scratch.contextBuf[..e.streaming.received] == h'.chunks;
      assert Buffered(e, h');
      if e.streaming.received == e.streaming.total {
        FinalizeKeeps(p, e, h', env);
      }
    }
  }
}
