/** The session globals and the DERIVE_CONTEXT_HASH steps on them. */
module Session {
  import opened Octets
  import opened Intents
  import opened Platforms

  const APP_NAME_MAX_LEN: nat := 64
  const CONTEXT_MAX_LEN: nat := 1024
  const MAX_PATH_DEPTH: nat := 10
  const PAYOUT_SLOT_COUNT: nat := 340
  const PAYOUT_MASK_BYTES: nat := 43
  const PEGIN_MASK_BYTES: nat := 2

  datatype SessionState = Idle | HashDerived | IntentLoaded

  type Fp = b: Bytes | |b| == 4 witness Zeros(4)
  type PayoutMask = b: Bytes | |b| == PAYOUT_MASK_BYTES witness Zeros(PAYOUT_MASK_BYTES)
  type PegInMask = b: Bytes | |b| == PEGIN_MASK_BYTES witness Zeros(PEGIN_MASK_BYTES)
  type HashArray = h: seq<Bytes32> | |h| == MAX_VAULTS witness Fill(ZERO32, MAX_VAULTS)

  /** vault_context_t */
  datatype Context = Context(
    root: Bytes32,
    hashlocks: HashArray,
    authAnchor: Bytes32,
    state: SessionState,
    payoutIndex: Byte,
    prePegInSigned: U16,
    pegInSigned: U16,
    payoutSigned: U16,
    noPayoutSigned: U16,
    payoutMask: PayoutMask,
    pegInMask: PegInMask,
    noPayoutChallenger: Byte,
    groupIndex: Byte,
    isPayoutSigning: bool,
    path: seq<U32>,
    appName: Bytes,
    contextFp: Fp,
    intentFp: Fp)

  const ZERO_HASHES: HashArray := Fill(ZERO32, MAX_VAULTS)
  const ZERO_PAYOUT_MASK: PayoutMask := Zeros(PAYOUT_MASK_BYTES)
  const ZERO_PEGIN_MASK: PegInMask := Zeros(PEGIN_MASK_BYTES)
  const ZERO_FP: Fp := Zeros(4)

  const ZERO_CONTEXT := Context(
    ZERO32, ZERO_HASHES, ZERO32, Idle, 0, 0, 0, 0, 0,
    ZERO_PAYOUT_MASK, ZERO_PEGIN_MASK, 0, 0, false, [], [], ZERO_FP, ZERO_FP)

  /** approve_intent_state_t; the running hash is the bytes it has absorbed. */
  datatype Loader = Loader(scalarsLoaded: bool, keysReceived: Byte, absorbed: Bytes)
  const ZERO_LOADER := Loader(false, 0, [])

  /** derive_streaming_state_t */
  datatype Streaming = Streaming(
    inProgress: bool, p2Mode: Byte, appNameLen: nat, pathLen: nat, total: U16, received: U16)
  const ZERO_STREAMING := Streaming(false, 0, 0, 0, 0, 0)

  type NameBuffer = b: Bytes | |b| == APP_NAME_MAX_LEN witness Zeros(APP_NAME_MAX_LEN)
  type PathBuffer = b: seq<U32> | |b| == MAX_PATH_DEPTH witness Fill(0, MAX_PATH_DEPTH)
  type ContextBuffer = b: Bytes | |b| == CONTEXT_MAX_LEN witness Zeros(CONTEXT_MAX_LEN)

  /** The derive_ctx member of the scratch union. */
  datatype Scratch = Scratch(appNameBuf: NameBuffer, path: PathBuffer, contextBuf: ContextBuffer)
  const ZERO_NAME: NameBuffer := Zeros(APP_NAME_MAX_LEN)
  const ZERO_PATH: PathBuffer := Fill(0, MAX_PATH_DEPTH)
  const ZERO_BUFFER: ContextBuffer := Zeros(CONTEXT_MAX_LEN)
  const ZERO_SCRATCH := Scratch(ZERO_NAME, ZERO_PATH, ZERO_BUFFER)

  /** The app's mutable globals. */
  datatype Device = Device(
    ctx: Context, intent: Intent, loader: Loader, streaming: Streaming, scratch: Scratch)

  const BOOT := Device(ZERO_CONTEXT, ZERO_INTENT, ZERO_LOADER, ZERO_STREAMING, ZERO_SCRATCH)

  /** What one command meets outside the app: whether every hash succeeds and whether the user approves. */
  datatype Env = Env(hashOk: bool, approves: bool)

  datatype Reply = Accepted | Rejected

  /** vault_context_invalidate; the derive-streaming accumulators are not touched. */
  function Invalidate(d: Device): (r: Device)
    ensures r.ctx == ZERO_CONTEXT && r.intent == ZERO_INTENT && r.loader == ZERO_LOADER
  {
    d.(ctx := ZERO_CONTEXT, intent := ZERO_INTENT, loader := ZERO_LOADER, scratch := ZERO_SCRATCH)
  }

  predicate TransitionAllowed(from: SessionState, to: SessionState) {
    (from == Idle && to == HashDerived) || (from == HashDerived && to == IntentLoaded)
  }

  /** vault_context_transition */
  function Transition(d: Device, from: SessionState, to: SessionState): (r: (Device, Reply))
    ensures r.1 == Accepted <==> d.ctx.state == from && TransitionAllowed(from, to)
    ensures r.1 == Rejected ==> r.0.ctx == ZERO_CONTEXT
  {
    if d.ctx.state != from || !TransitionAllowed(from, to) then (Invalidate(d), Rejected)
    else (d.(ctx := d.ctx.(state := to)), Accepted)
  }

  // ---------------------------------------------------------------------------------------------
  // DERIVE_CONTEXT_HASH

  predicate CharsetValid(name: Bytes) {
    forall k :: 0 <= k < |name| ==>
      97 <= name[k] <= 122 || 48 <= name[k] <= 57 || name[k] == 45
  }

  /** The CData of an initial chunk: refused before or after the path was copied out, or complete. */
  datatype Initial =
    | BadHeader
    | BadTotal(path: seq<U32>)
    | Good(appName: Bytes, path: seq<U32>, total: U16, chunk: Bytes)

  function DecodeBE32(data: Bytes, off: nat, n: nat): (path: seq<U32>)
    requires off + 4 * n <= |data|
    ensures |path| == n
  {
    seq(n, k requires 0 <= k < n => ReadU32BE(data, off + 4 * k))
  }

  function ParseInitial(data: Bytes): (r: Initial)
    ensures r.Good? ==>
              && 1 <= |r.appName| <= APP_NAME_MAX_LEN && CharsetValid(r.appName)
              && 1 <= |r.path| <= MAX_PATH_DEPTH
              && 1 <= r.total <= CONTEXT_MAX_LEN && |r.chunk| <= r.total
    ensures r.BadTotal? ==> |r.path| <= MAX_PATH_DEPTH
  {
    if |data| < 1 then BadHeader
    else
      var nameLen := data[0] as nat;
      if nameLen == 0 || nameLen > APP_NAME_MAX_LEN || 1 + nameLen > |data| then BadHeader
      else
        var name := data[1..1 + nameLen];
        var off := 1 + nameLen;
        if !CharsetValid(name) || off + 1 > |data| then BadHeader
        else
          var pathLen := data[off] as nat;
          if pathLen == 0 || pathLen > MAX_PATH_DEPTH || off + 1 + 4 * pathLen > |data| then BadHeader
          else
            var path := DecodeBE32(data, off + 1, pathLen);
            var off2 := off + 1 + 4 * pathLen;
            if off2 + 2 > |data| then BadTotal(path)
            else
              var total := ReadU16BE(data, off2);
              var chunk := data[off2 + 2..];
              if total == 0 || total > CONTEXT_MAX_LEN || |chunk| > total then BadTotal(path)
              else Good(name, path, total, chunk)
  }

  /** What every initial chunk does before looking at its data. */
  function ResetForInitial(d: Device): Device {
    var e := if d.ctx.state != Idle then Invalidate(d) else d;
    e.(scratch := ZERO_SCRATCH, streaming := ZERO_STREAMING, loader := ZERO_LOADER)
  }

  function InitialChunk(p: Platform, d: Device, p2: Byte, data: Bytes, env: Env): (Device, Reply) {
    if p2 != 0 && p2 != 1 then (d, Rejected)
    else
      var e := ResetForInitial(d);
      match ParseInitial(data)
      case BadHeader => (e, Rejected)
      case BadTotal(path) => (e.(scratch := e.scratch.(path := Splice(e.scratch.path, 0, path))), Rejected)
      case Good(name, path, total, chunk) =>
        var scratch := Scratch(
          Splice(e.scratch.appNameBuf, 0, name),
          Splice(e.scratch.path, 0, path),
          Splice(e.scratch.contextBuf, 0, chunk));
        var f := e.(scratch := scratch, streaming := Streaming(false, p2, |name|, |path|, total, |chunk|));
        if |chunk| < total then (f.(streaming := f.streaming.(inProgress := true)), Accepted)
        else Finalize(p, f, env)
  }

  function Continuation(p: Platform, d: Device, p2: Byte, data: Bytes, env: Env): (Device, Reply)
    requires d.streaming.appNameLen <= APP_NAME_MAX_LEN && d.streaming.pathLen <= MAX_PATH_DEPTH
  {
    if !d.streaming.inProgress || p2 != d.streaming.p2Mode || data == [] then (d, Rejected)
    else if d.streaming.received >= d.streaming.total || d.streaming.total > CONTEXT_MAX_LEN then
      var e := Invalidate(d);
      (e.(streaming := e.streaming.(inProgress := false)), Rejected)
    else if |data| > d.streaming.total - d.streaming.received then
      var e := Invalidate(d);
      (e.(streaming := e.streaming.(inProgress := false)), Rejected)
    else
      var e := d.(
        scratch := d.scratch.(contextBuf := Splice(d.scratch.contextBuf, d.streaming.received, data)),
        streaming := d.streaming.(received := d.streaming.received + |data|));
      if e.streaming.received < e.streaming.total then (e, Accepted)
      else Finalize(p, e, env)
  }

  /** The root is written before the checks that can still refuse it. */
  function Finalize(p: Platform, d: Device, env: Env): (Device, Reply)
    requires d.streaming.appNameLen <= APP_NAME_MAX_LEN && d.streaming.pathLen <= MAX_PATH_DEPTH
    requires d.streaming.total <= CONTEXT_MAX_LEN
  {
    var e := d.(streaming := d.streaming.(inProgress := false));
    var cleared := e.(scratch := e.scratch.(contextBuf := ZERO_BUFFER));
    var name := e.scratch.appNameBuf[..e.streaming.appNameLen];
    var path := e.scratch.path[..e.streaming.pathLen];
    var key := p.pubkeyAt(path);
    if key.None? then (cleared, Rejected)
    else if e.streaming.p2Mode == 0 && !env.approves then (cleared, Rejected)
    else
      var root := p.hkdf(name, key.value, e.scratch.contextBuf[..e.streaming.total]);
      if !env.hashOk then (Invalidate(cleared), Rejected)
      else
        var f := cleared.(ctx := cleared.ctx.(root := root, contextFp := Fingerprint(p, root)));
        var (g, reply) := Transition(f, Idle, HashDerived);
        if reply == Rejected then (g, Rejected)
        else (g.(ctx := g.ctx.(path := path, appName := name)), Accepted)
  }

  /** handler_derive_context_hash */
  function Derive(p: Platform, d: Device, p1: Byte, p2: Byte, data: Bytes, env: Env): (Device, Reply)
    requires d.streaming.appNameLen <= APP_NAME_MAX_LEN && d.streaming.pathLen <= MAX_PATH_DEPTH
  {
    if p1 == 0 then InitialChunk(p, d, p2, data, env)
    else if p1 == 1 then Continuation(p, d, p2, data, env)
    else (d, Rejected)
  }
}
