/** The streamed TAP_LEAF_SCRIPT reader: constant memory over host-chosen chunks, against reading the whole value at once. */
module LeafStream {
  import opened Octets
  import opened Intents
  import opened Script
  import opened ScriptTheorems
  import opened LeafParsers

  const ASSERT_SCRIPT_MAX_LEN: nat := 16384
  const LEAF_VERSION: Byte := 0xC0

  /** Bitcoin compact size, for lengths below 2^32. */
  function Varint(v: nat): Bytes
    requires v < 0x1_0000_0000
  {
    if v < 0xFD then [v as Byte]
    else if v <= 0xFFFF then [0xFD] + LE(v, 2)
    else [0xFE] + LE(v, 4)
  }

  /** What the BIP-341 TapLeaf hash absorbs. */
  function LeafPreimage(script: Bytes): Bytes
    requires |script| < 0x1_0000_0000
  {
    [LEAF_VERSION] + Varint(|script|) + script
  }

  /** All that later steps know about a leaf. */
  datatype LeafFacts = LeafFacts(
    scriptLen: nat,
    buffered: Option<Bytes>,
    prefix: Bytes,
    lastByte: Byte,
    assertPrefixOk: bool,
    preimage: Bytes)

  /** The same facts from the complete value <script> <version>, or none if it must be refused. */
  function ReadWhole(loaded: bool, intent: Intent, value: Bytes): Option<LeafFacts>
    requires loaded ==> intent.InRange()
  {
    if |value| < 2 || |value| > ASSERT_SCRIPT_MAX_LEN || value[|value| - 1] != LEAF_VERSION then None
    else
      var script := value[..|value| - 1];
      Some(LeafFacts(
        |script|,
        if |script| <= SCRIPT_MAX_LEN then Some(script) else None,
        CapturedPrefix(script),
        script[|script| - 1],
        loaded && AssertPrefix(intent) < script,
        LeafPreimage(script)))
  }

  function Flatten(chunks: seq<Bytes>): Bytes {
    if chunks == [] then [] else Flatten(chunks[..|chunks| - 1]) + chunks[|chunks| - 1]
  }

  function Min(a: nat, b: nat): nat {
    if a < b then a else b
  }

  /** Compared as far as both go, the two strings are equal. */
  ghost predicate Agree(s: Bytes, w: Bytes) {
    forall k :: 0 <= k < Min(|s|, |w|) ==> s[k] == w[k]
  }

  /** Some byte of q, placed at offset from, differs from w. */
  ghost predicate Differs(q: Bytes, from: nat, w: Bytes) {
    exists k :: 0 <= k < |q| && from + k < |w| && w[from + k] != q[k]
  }

  lemma AgreeExtends(s: Bytes, q: Bytes, w: Bytes)
    ensures Agree(s + q, w) <==> Agree(s, w) && !Differs(q, |s|, w)
  {
    if Agree(s + q, w) {
      forall k | 0 <= k < Min(|s|, |w|) ensures s[k] == w[k] {
        assert (s + q)[k] == s[k];
      }
      forall k | 0 <= k < |q| && |s| + k < |w| ensures w[|s| + k] == q[k] {
        assert (s + q)[|s| + k] == q[k];
      }
    }
  }

  lemma AgreePrefix(s: Bytes, w: Bytes)
    ensures w <= s <==> Agree(s, w) && |w| <= |s|
  {
    if Agree(s, w) && |w| <= |s| {
      assert s[..|w|] == w;
    }
  }

  /** The captured prefix grows by the bytes that still fit. */
  lemma CaptureExtends(s: Bytes, q: Bytes)
    ensures |s| >= PREFIX_LEN ==> CapturedPrefix(s + q) == CapturedPrefix(s)
    ensures |s| < PREFIX_LEN ==>
              CapturedPrefix(s + q) == Splice(CapturedPrefix(s), |s|, q[..Min(|q|, PREFIX_LEN - |s|)])
  {
  }

  /** How a chunk extends the script bytes taken. */
  lemma TakenStep(before: Bytes, p: Bytes, scriptLen: nat)
    ensures (before + p)[..Min(|before + p|, scriptLen)] ==
              if |before| < scriptLen then before + p[..Min(scriptLen - |before|, |p|)] else before[..scriptLen]
    ensures |before| < scriptLen ==> before[..Min(|before|, scriptLen)] == before
    ensures |before| >= scriptLen > 0 ==> (before + p)[scriptLen - 1] == before[scriptLen - 1]
  {
  }

  /** leaf_stream_ctx_t with the parts of the scratch union and of G_leaf_meta that it fills. */
  class LeafReader {
    const loaded: bool
    const intent: Intent

    var valueLen: nat
    var scriptLen: nat
    var seen: nat
    var lenKnown: bool
    var lenRejected: bool
    var overflow: bool
    const assertPrefixLen: int
    var mismatch: bool

    const leafScript: array<Byte>
    var leafVersion: Byte
    var absorbed: Bytes
    var buffered: bool
    var lastByte: Byte
    const prefix: array<Byte>

    /** The value bytes accepted so far. */
    ghost var consumed: Bytes

    /** The script bytes among them. */
    ghost function Taken(): Bytes
      reads this
    {
      consumed[..Min(|consumed|, scriptLen)]
    }

    ghost predicate Valid()
      reads this, leafScript, prefix
    {
      && leafScript.Length == SCRIPT_MAX_LEN && prefix.Length == PREFIX_LEN && leafScript != prefix
      && (loaded ==> intent.InRange())
      && assertPrefixLen == (if loaded then AssertPrefixLen(intent) else -1)
      && (lenKnown ==> !lenRejected && Progress())
      && (!lenKnown ==> consumed == [] && seen == 0 && !overflow && !mismatch && leafVersion == 0)
      && (!lenKnown ==> prefix[..] == Zeros(PREFIX_LEN))
    }

    ghost predicate Progress()
      requires leafScript.Length == SCRIPT_MAX_LEN && prefix.Length == PREFIX_LEN && (loaded ==> intent.InRange())
      reads this, leafScript, prefix
    {
      && 2 <= valueLen <= ASSERT_SCRIPT_MAX_LEN && scriptLen == valueLen - 1
      && seen == |consumed| <= valueLen
      && buffered == (scriptLen <= SCRIPT_MAX_LEN)
      && (buffered ==> leafScript[..|Taken()|] == Taken())
      && absorbed == [LEAF_VERSION] + Varint(scriptLen) + Taken()
      && prefix[..] == CapturedPrefix(Taken())
      && (|consumed| >= scriptLen ==> lastByte == consumed[scriptLen - 1])
      && (|consumed| == valueLen ==> leafVersion == consumed[valueLen - 1])
      && (mismatch <==> loaded && !Agree(Taken(), AssertPrefix(intent)))
    }

    constructor (loaded: bool, intent: Intent)
      requires loaded ==> intent.InRange()
      ensures Valid() && fresh(leafScript) && fresh(prefix)
      ensures !lenKnown && !lenRejected && this.loaded == loaded && this.intent == intent
    {
      this.loaded, this.intent := loaded, intent;
      valueLen, scriptLen, seen := 0, 0, 0;
      lenKnown, lenRejected, overflow, mismatch := false, false, false, false;
      assertPrefixLen := if loaded then AssertPrefixLen(intent) else -1;
      leafScript := new Byte[SCRIPT_MAX_LEN](k => 0);
      leafVersion, absorbed, buffered, lastByte := 0, [], false, 0;
      prefix := new Byte[PREFIX_LEN](k => 0);
      consumed := [];
    }

    /** _leaf_stream_len_cb */
    method Length(n: nat)
      requires Valid() && !lenKnown && !lenRejected
      modifies this
      ensures Valid()
      ensures lenKnown <==> 2 <= n <= ASSERT_SCRIPT_MAX_LEN
      ensures lenRejected <==> !lenKnown
      ensures lenKnown ==> valueLen == n && consumed == [] && !overflow
    {
      hide AssertPrefix, LE;
      if n < 2 || n > ASSERT_SCRIPT_MAX_LEN {
        lenRejected := true;
        return;
      }
      valueLen := n;
      scriptLen := n - 1;
      lenKnown := true;
      buffered := scriptLen <= SCRIPT_MAX_LEN;
      absorbed := [LEAF_VERSION] + Varint(scriptLen);
      assert absorbed + [] == absorbed;
      assert [] + Zeros(PREFIX_LEN) == Zeros(PREFIX_LEN);
    }

    /** The comparison of one chunk's script bytes with the described prefix. */
    method Compare(q: Bytes) returns (bad: bool)
      requires loaded ==> intent.InRange()
      requires assertPrefixLen == (if loaded then AssertPrefixLen(intent) else -1)
      ensures bad <==> loaded && Differs(q, seen, AssertPrefix(intent))
    {
      hide AssertPrefix, AssertPrefixLen, AssertPrefixByte;
      bad := false;
      if loaded {
        AssertPrefixByteExact(intent, 0);
      }
      if assertPrefixLen > 0 && seen < assertPrefixLen {
        var nCmp := Min(assertPrefixLen - seen, |q|);
        for k := 0 to nCmp
          invariant forall j :: 0 <= j < k ==> AssertPrefix(intent)[seen + j] == q[j]
        {
          AssertPrefixByteExact(intent, seen + k);
          if AssertPrefixByte(intent, seen + k) != q[k] as int {
            bad := true;
            return;
          }
        }
      }
    }

    /** Keep the head of the script for the shape checks. */
    method Capture(ghost taken: Bytes, q: Bytes)
      requires prefix.Length == PREFIX_LEN && seen == |taken| && prefix[..] == CapturedPrefix(taken)
      modifies prefix
      ensures prefix[..] == CapturedPrefix(taken + q)
    {
      hide CapturedPrefix;
      CaptureExtends(taken, q);
      if seen < PREFIX_LEN {
        var nPrefix := Min(PREFIX_LEN - seen, |q|);
        Put(prefix, seen, q[..nPrefix]);
      }
    }

    /** The script part of a chunk: hash, buffer, compare, capture, remember the last byte. */
    method TakeScript(q: Bytes)
      requires Valid() && lenKnown && q != [] && seen + |q| <= scriptLen
      modifies this`absorbed, this`mismatch, this`lastByte, leafScript, prefix
      ensures absorbed == old(absorbed) + q
      ensures buffered ==> leafScript[..seen + |q|] == Taken() + q
      ensures mismatch <==> loaded && !Agree(Taken() + q, AssertPrefix(intent))
      ensures prefix[..] == CapturedPrefix(Taken() + q)
      ensures seen + |q| == scriptLen ==> lastByte == q[|q| - 1]
    {
      hide AssertPrefix, CapturedPrefix, Varint;
      ghost var taken := Taken();
      assert taken == consumed;
      absorbed := absorbed + q;
      if buffered {
        Put(leafScript, seen, q);
        assert leafScript[..seen + |q|] == taken + q;
      }
      if loaded {
        AgreeExtends(taken, q, AssertPrefix(intent));
      }
      if !mismatch {
        mismatch := Compare(q);
      }
      Capture(taken, q);
      if seen + |q| == scriptLen {
        lastByte := q[|q| - 1];
      }
    }

    /** The script bytes of a chunk that arrives now. */
    ghost function ScriptPart(p: Bytes): Bytes
      reads this
    {
      if |consumed| < scriptLen then p[..Min(scriptLen - |consumed|, |p|)] else []
    }

    /** The script bytes of chunk p are stored, its count is not yet. */
    ghost predicate Stored(p: Bytes)
      reads this, leafScript, prefix
    {
      var taken := Taken() + ScriptPart(p);
      && leafScript.Length == SCRIPT_MAX_LEN && prefix.Length == PREFIX_LEN && leafScript != prefix
      && (loaded ==> intent.InRange()) && assertPrefixLen == (if loaded then AssertPrefixLen(intent) else -1)
      && lenKnown && !lenRejected
      && 2 <= valueLen <= ASSERT_SCRIPT_MAX_LEN && scriptLen == valueLen - 1
      && seen == |consumed| && seen + |p| <= valueLen && p != []
      && buffered == (scriptLen <= SCRIPT_MAX_LEN) && |taken| <= scriptLen
      && (buffered ==> leafScript[..|taken|] == taken)
      && absorbed == [LEAF_VERSION] + Varint(scriptLen) + taken
      && prefix[..] == CapturedPrefix(taken)
      && (|consumed| + |p| >= scriptLen ==> lastByte == (consumed + p)[scriptLen - 1])
      && (mismatch <==> loaded && !Agree(taken, AssertPrefix(intent)))
    }

    /** A chunk that fits in the announced length. */
    method Consume(p: Bytes)
      requires Valid() && lenKnown && p != [] && seen + |p| <= valueLen
      modifies this`absorbed, this`mismatch, this`lastByte, this`leafVersion, this`seen, this`consumed, leafScript, prefix
      ensures Valid()
      ensures consumed == old(consumed) + p
    {
      hide AssertPrefix, CapturedPrefix, Varint, AssertPrefixLen, Agree;
      ghost var taken := Taken();
      TakenStep(consumed, p, scriptLen);
      if seen < scriptLen {
        var nScript := Min(scriptLen - seen, |p|);
        ghost var head := [LEAF_VERSION] + Varint(scriptLen);
        assert ScriptPart(p) == p[..nScript];
        TakeScript(p[..nScript]);
        assert head + taken + p[..nScript] == head + (taken + p[..nScript]);
      } else {
        assert taken + [] == taken;
      }
      Advance(p);
    }

    /** Count the chunk, and remember the version byte if it ends the value. */
    method Advance(p: Bytes)
      requires Stored(p)
      modifies this`leafVersion, this`seen, this`consumed
      ensures Valid()
      ensures consumed == old(consumed) + p
    {
      hide AssertPrefix, CapturedPrefix, Varint, AssertPrefixLen, Agree;
      TakenStep(consumed, p, scriptLen);
      ghost var taken := Taken() + ScriptPart(p);
      if seen + |p| == valueLen {
        leafVersion := p[|p| - 1];
      }
      seen := seen + |p|;
      consumed := consumed + p;
      assert Taken() == taken;
    }

    /** _leaf_stream_data_cb */
    method Data(p: Bytes)
      requires Valid()
      modifies this, leafScript, prefix
      ensures Valid()
      ensures lenKnown == old(lenKnown) && lenRejected == old(lenRejected) && valueLen == old(valueLen)
      ensures lenKnown && |old(consumed)| + |p| <= valueLen ==> consumed == old(consumed) + p && overflow == old(overflow)
      ensures lenKnown && |old(consumed)| + |p| > valueLen ==> consumed == old(consumed) && overflow
    {
      hide AssertPrefix, CapturedPrefix, Varint, AssertPrefixLen, Agree;
      if lenRejected || !lenKnown {
        return;
      }
      var n := |p|;
      if n == 0 {
        assert consumed + p == consumed;
        return;
      }
      if n > valueLen - seen {
        overflow := true;
        return;
      }
      Consume(p);
    }
  }

  /** A complete stream leaves the reader holding the facts of the whole value. */
  lemma CompleteFacts(loaded: bool, intent: Intent, value: Bytes, plen: int, mismatch: bool)
    requires (loaded ==> intent.InRange()) && 2 <= |value| <= ASSERT_SCRIPT_MAX_LEN && value[|value| - 1] == LEAF_VERSION
    requires plen == (if loaded then AssertPrefixLen(intent) else -1)
    requires mismatch <==> loaded && !Agree(value[..|value| - 1], AssertPrefix(intent))
    ensures ReadWhole(loaded, intent, value).Some?
    ensures ReadWhole(loaded, intent, value).value.assertPrefixOk <==> plen > 0 && !mismatch && |value| - 1 > plen
  {
    hide AssertPrefix, AssertPrefixLen, CapturedPrefix, LeafPreimage, AssertPrefixByte;
    if loaded {
      AssertPrefixByteExact(intent, 0);
      AgreePrefix(value[..|value| - 1], AssertPrefix(intent));
    }
  }

  lemma FlattenStep(chunks: seq<Bytes>, k: nat)
    requires k < |chunks|
    ensures Flatten(chunks[..k + 1]) == Flatten(chunks[..k]) + chunks[k]
  {
    assert chunks[..k + 1][..k] == chunks[..k];
  }

  /** _stream_tap_leaf_value: length callback, data callbacks, then the final checks. declared is the
      announced length, if any, and rc what the transport returned. However the value is cut into
      chunks, the outcome is that of reading it whole; any length mismatch is refused. */
  method StreamTapLeafValue(loaded: bool, intent: Intent, declared: Option<nat>, chunks: seq<Bytes>, rc: int)
    returns (facts: Option<LeafFacts>)
    requires loaded ==> intent.InRange()
    ensures facts.Some? <==>
              && declared == Some(|Flatten(chunks)|) && rc == |Flatten(chunks)|
              && ReadWhole(loaded, intent, Flatten(chunks)).Some?
    ensures facts.Some? ==> facts == ReadWhole(loaded, intent, Flatten(chunks))
  {
    hide AssertPrefix, AssertPrefixLen, CapturedPrefix, Varint, ReadWhole, Flatten;
    var r := new LeafReader(loaded, intent);
    if declared.Some? {
      r.Length(declared.value);
    }
    EmptyFlatten();
    for k := 0 to |chunks|
      invariant fresh(r) && fresh(r.leafScript) && fresh(r.prefix) && r.Valid()
      invariant r.loaded == loaded && r.intent == intent
      invariant r.lenKnown <==> declared.Some? && 2 <= declared.value <= ASSERT_SCRIPT_MAX_LEN
      invariant declared.Some? ==> (r.lenRejected <==> !r.lenKnown)
      invariant r.lenKnown ==> r.valueLen == declared.value
      invariant r.lenKnown && !r.overflow ==> r.consumed == Flatten(chunks[..k])
      invariant r.lenKnown && r.overflow ==> |Flatten(chunks[..k])| > r.valueLen
    {
      FlattenStep(chunks, k);
      r.Data(chunks[k]);
    }
    assert chunks[..|chunks|] == chunks;
    ghost var value := Flatten(chunks);
    ReadWholeNeeds(loaded, intent, value);
    if rc < 0 || r.lenRejected || !r.lenKnown || r.overflow {
      return None;
    }
    if rc != r.valueLen || r.seen != r.valueLen || r.leafVersion != LEAF_VERSION {
      return None;
    }
    assert r.consumed == value && r.Taken() == value[..|value| - 1];
    CompleteFacts(loaded, intent, value, r.assertPrefixLen, r.mismatch);
    facts := Some(LeafFacts(
      r.scriptLen,
      if r.buffered then Some(r.leafScript[..r.scriptLen]) else None,
      r.prefix[..],
      r.lastByte,
      r.assertPrefixLen > 0 && !r.mismatch && r.scriptLen > r.assertPrefixLen,
      r.absorbed));
    ReadWholeIs(loaded, intent, value);
  }

  lemma EmptyFlatten()
    ensures Flatten([]) == []
  {
  }

  lemma ReadWholeNeeds(loaded: bool, intent: Intent, value: Bytes)
    requires loaded ==> intent.InRange()
    ensures ReadWhole(loaded, intent, value).Some? ==>
              2 <= |value| <= ASSERT_SCRIPT_MAX_LEN && value[|value| - 1] == LEAF_VERSION
  {
  }

  lemma ReadWholeIs(loaded: bool, intent: Intent, value: Bytes)
    requires (loaded ==> intent.InRange()) && ReadWhole(loaded, intent, value).Some?
    ensures var script := value[..|value| - 1];
            ReadWhole(loaded, intent, value) == Some(LeafFacts(
              |script|, if |script| <= SCRIPT_MAX_LEN then Some(script) else None, CapturedPrefix(script),
              script[|script| - 1], ReadWhole(loaded, intent, value).value.assertPrefixOk,
              [LEAF_VERSION] + Varint(|script|) + script))
  {
  }
}
