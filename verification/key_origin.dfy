/** The derivation entries that tie a key of a transaction to the device: their parser, and what a key that passes is. */
module KeyOrigins {
  import opened Octets
  import opened Intents
  import opened Platforms
  import opened Psbts

  const ORIGIN_MAX: nat := 89
  const STANDALONE_PATH_LEN: nat := 5

  function ReadU32LE(s: Bytes, off: nat): U32
    requires off + 4 <= |s|
  {
    Pow256Values();
    LEEncodes(s[off..off + 4]);
    FromLE(s[off..off + 4])
  }

  /** n path steps from off on. */
  function Steps(s: Bytes, off: nat, n: nat): (path: seq<U32>)
    requires off + 4 * n <= |s|
    ensures |path| == n
  {
    seq(n, k requires 0 <= k < n => ReadU32LE(s, off + 4 * k))
  }

  /** parse_tap_bip32_deriv_value: leaf hashes are skipped, then fingerprint and path. */
  function ParseOrigin(val: Bytes, maxSteps: nat): Option<(U32, seq<U32>)> {
    if val == [] then None
    else
      var off := 1 + 32 * val[0] as nat;
      if off + 4 > |val| then None
      else
        var remaining := |val| - off - 4;
        if remaining % 4 != 0 || remaining / 4 > maxSteps then None
        else Some((ReadU32BE(val, off), Steps(val, off + 4, remaining / 4)))
  }

  method ParseTapBip32Derivation(val: Bytes, pathOut: array<U32>) returns (n: int, fingerprint: U32)
    modifies pathOut
    ensures n >= 0 <==> ParseOrigin(val, pathOut.Length).Some?
    ensures n >= 0 ==> n <= pathOut.Length && ParseOrigin(val, pathOut.Length) == Some((fingerprint, pathOut[..n]))
    ensures n < 0 ==> n == -1
  {
    hide ReadU32BE, ReadU32LE;
    fingerprint := 0;
    if |val| < 1 {
      return -1, 0;
    }
    var off := 1 + val[0] as int * 32;
    if off + 4 > |val| {
      return -1, 0;
    }
    fingerprint := ReadU32BE(val, off);
    off := off + 4;
    var remaining := |val| - off;
    if remaining % 4 != 0 {
      return -1, fingerprint;
    }
    n := remaining / 4;
    if n > pathOut.Length {
      return -1, fingerprint;
    }
    for k := 0 to n
      invariant pathOut[..k] == Steps(val, off, n)[..k]
    {
      pathOut[k] := ReadU32LE(val, off + 4 * k);
    }
    assert Steps(val, off, n)[..n] == Steps(val, off, n);
  }

  function PrintSteps(path: seq<U32>): (s: Bytes)
    ensures |s| == 4 * |path|
  {
    if path == [] then [] else PrintSteps(path[..|path| - 1]) + LE(path[|path| - 1], 4)
  }

  /** count leaf-hashes fingerprint steps, the last little-endian */
  function PrintOrigin(hashes: Bytes, fingerprint: U32, path: seq<U32>): Bytes
    requires |hashes| % 32 == 0 && |hashes| / 32 < 256
  {
    [(|hashes| / 32) as Byte] + hashes + BE(fingerprint, 4) + PrintSteps(path)
  }

  lemma {:induction false} StepsPrinted(path: seq<U32>, k: nat)
    requires k < |path|
    ensures PrintSteps(path)[4 * k..4 * k + 4] == LE(path[k], 4)
    decreases |path|
  {
    hide LE;
    var front := path[..|path| - 1];
    if k < |path| - 1 {
      StepsPrinted(front, k);
      assert PrintSteps(path)[4 * k..4 * k + 4] == PrintSteps(front)[4 * k..4 * k + 4];
    }
  }

  lemma StepsRead(s: Bytes, off: nat, path: seq<U32>)
    requires off + 4 * |path| == |s| && s[off..] == PrintSteps(path)
    ensures Steps(s, off, |path|) == path
  {
    hide LE, FromLE, PrintSteps;
    Pow256Values();
    forall k | 0 <= k < |path| ensures Steps(s, off, |path|)[k] == path[k] {
      StepsPrinted(path, k);
      assert s[off + 4 * k..off + 4 * k + 4] == s[off..][4 * k..4 * k + 4];
      LEDecodes(path[k], 4);
    }
  }

  lemma {:induction false} StepsWrite(s: Bytes, off: nat, n: nat)
    requires off + 4 * n <= |s|
    ensures PrintSteps(Steps(s, off, n)) == s[off..off + 4 * n]
  {
    hide LE, FromLE;
    if n > 0 {
      StepsWrite(s, off, n - 1);
      var path := Steps(s, off, n);
      assert path[..n - 1] == Steps(s, off, n - 1);
      var last := s[off + 4 * (n - 1)..off + 4 * n];
      LEEncodes(last);
      assert s[off..off + 4 * n] == s[off..off + 4 * (n - 1)] + last;
    }
  }

  /** A value parses to this fingerprint and path exactly if it is their printed form behind some leaf hashes, and the path is
      not too long. */
  lemma OriginAccepts(val: Bytes, maxSteps: nat, fingerprint: U32, path: seq<U32>)
    ensures ParseOrigin(val, maxSteps) == Some((fingerprint, path)) <==>
              && |path| <= maxSteps
              && exists hashes: Bytes ::
                   |hashes| % 32 == 0 && |hashes| / 32 < 256 && val == PrintOrigin(hashes, fingerprint, path)
  {
    hide BE, LE, FromBE, FromLE, Steps, PrintSteps;
    if ParseOrigin(val, maxSteps) == Some((fingerprint, path)) {
      PrintedBack(val, maxSteps);
    } else if |path| <= maxSteps {
      if hashes: Bytes :| |hashes| % 32 == 0 && |hashes| / 32 < 256 && val == PrintOrigin(hashes, fingerprint, path) {
        PrintedParses(hashes, fingerprint, path, maxSteps);
        assert false;
      }
    }
  }

  lemma PrintedBack(val: Bytes, maxSteps: nat)
    requires ParseOrigin(val, maxSteps).Some?
    ensures var (fingerprint, path) := ParseOrigin(val, maxSteps).value;
            && |path| <= maxSteps
            && exists hashes: Bytes ::
                 |hashes| % 32 == 0 && |hashes| / 32 < 256 && val == PrintOrigin(hashes, fingerprint, path)
  {
    hide BE, LE, FromBE, FromLE, PrintSteps, Steps;
    var off := 1 + 32 * val[0] as nat;
    var n := (|val| - off - 4) / 4;
    var hashes := val[1..off];
    BEEncodes(val[off..off + 4]);
    StepsWrite(val, off + 4, n);
    assert off + 4 + 4 * n == |val|;
    assert val == [val[0]] + hashes + val[off..off + 4] + val[off + 4..];
    assert val == PrintOrigin(hashes, ReadU32BE(val, off), Steps(val, off + 4, n));
  }

  lemma PrintedParses(hashes: Bytes, fingerprint: U32, path: seq<U32>, maxSteps: nat)
    requires |hashes| % 32 == 0 && |hashes| / 32 < 256 && |path| <= maxSteps
    ensures ParseOrigin(PrintOrigin(hashes, fingerprint, path), maxSteps) == Some((fingerprint, path))
  {
    hide BE, LE, FromBE, FromLE, PrintSteps, Steps;
    var val := PrintOrigin(hashes, fingerprint, path);
    var off := 1 + |hashes|;
    Pow256Values();
    BEDecodes(fingerprint, 4);
    assert val[off..off + 4] == BE(fingerprint, 4) && val[off + 4..] == PrintSteps(path);
    assert off == 1 + 32 * val[0] as nat;
    assert |val| == off + 4 + 4 * |path|;
    StepsRead(val, off + 4, path);
  }

  // ---------------------------------------------------------------------------------------------
  // Keys of the device

  /** The public key that the entry for this key leads to, if fingerprint and path are the device's. */
  function Derived(p: Platform, origins: seq<(Bytes, Bytes)>, key: Bytes32): Option<Bytes32> {
    var val := Lookup(origins, key);
    if val.None? || |val.value| > ORIGIN_MAX then None
    else
      var origin := ParseOrigin(val.value, STANDALONE_PATH_LEN);
      if origin.None? || origin.value.0 != p.masterFingerprint || !CheckBip86Path(origin.value.1, p.coinType) then None
      else
        var pub := p.pubkeyAt(origin.value.1);
        if pub.None? then None else Some(pub.value[1..])
  }

  /** The entry for a leaf key derives that key. */
  predicate Owns(p: Platform, origins: seq<(Bytes, Bytes)>, key: Bytes32) {
    Derived(p, origins, key) == Some(key)
  }

  /** The entry for an output key derives a key that it is the BIP-86 key of. */
  predicate OwnsOutput(p: Platform, origins: seq<(Bytes, Bytes)>, key: Bytes32) {
    var internal := Derived(p, origins, key);
    internal.Some? && p.tweak(internal.value, []).Some? && p.tweak(internal.value, []).value.1 == key
  }

  /** m/86'/coin'/account'/change/index */
  function Bip86(coinType: U32, account: nat, change: nat, index: nat): seq<U32>
    requires account <= 100 && change <= 1 && index <= 10000
  {
    [0x8000_0056, Harden(coinType), 0x8000_0000 + account, change, index]
  }

  /** The device derives this key at an address path within its bounds. */
  ghost predicate DeviceKey(p: Platform, key: Bytes32) {
    exists account: nat, change: nat, index: nat ::
      && account <= 100 && change <= 1 && index <= 10000
      && var pub := p.pubkeyAt(Bip86(p.coinType, account, change, index));
         pub.Some? && pub.value[1..] == key
  }

  lemma PathIs(path: seq<U32>, coinType: U32)
    requires CheckBip86Path(path, coinType)
    ensures path == Bip86(coinType, path[2] - 0x8000_0000, path[3], path[4])
  {
  }

  lemma DerivedIsDevice(p: Platform, origins: seq<(Bytes, Bytes)>, key: Bytes32)
    requires Derived(p, origins, key).Some?
    ensures DeviceKey(p, Derived(p, origins, key).value)
  {
    hide ParseOrigin, CheckBip86Path, Bip86;
    var path := ParseOrigin(Lookup(origins, key).value, STANDALONE_PATH_LEN).value.1;
    PathIs(path, p.coinType);
    Bounds(path, p.coinType);
    var account, change, index := path[2] - 0x8000_0000, path[3], path[4];
    assert p.pubkeyAt(Bip86(p.coinType, account, change, index)).Some?;
  }

  lemma Bounds(path: seq<U32>, coinType: U32)
    requires CheckBip86Path(path, coinType)
    ensures |path| == 5 && 0x8000_0000 <= path[2] <= 0x8000_0000 + 100 && path[3] <= 1 && path[4] <= 10000
  {
  }

  /** An entry vouches for its key exactly if it prints the device's fingerprint and a path of the device that leads to the key,
      behind at most two leaf hashes. */
  lemma OwnsMeans(p: Platform, origins: seq<(Bytes, Bytes)>, key: Bytes32)
    ensures Owns(p, origins, key) <==>
              exists hashes: Bytes, account: nat, change: nat, index: nat ::
                && |hashes| in {0, 32, 64} && account <= 100 && change <= 1 && index <= 10000
                && var path := Bip86(p.coinType, account, change, index);
                   && Lookup(origins, key) == Some(PrintOrigin(hashes, p.masterFingerprint, path))
                   && p.pubkeyAt(path).Some? && p.pubkeyAt(path).value[1..] == key
  {
    hide ParseOrigin, CheckBip86Path, Bip86, PrintOrigin, Lookup;
    if Owns(p, origins, key) {
      var val := Lookup(origins, key).value;
      var path := ParseOrigin(val, 5).value.1;
      PathIs(path, p.coinType);
      Bounds(path, p.coinType);
      OriginAccepts(val, 5, p.masterFingerprint, path);
      var hashes: Bytes :| |hashes| % 32 == 0 && |hashes| / 32 < 256 && val == PrintOrigin(hashes, p.masterFingerprint, path);
      OriginLength(hashes, p.masterFingerprint, path);
      var account, change, index := path[2] - 0x8000_0000, path[3], path[4];
      assert Lookup(origins, key) == Some(PrintOrigin(hashes, p.masterFingerprint, Bip86(p.coinType, account, change, index)));
    } else if hashes: Bytes, account: nat, change: nat, index: nat :|
                && |hashes| in {0, 32, 64} && account <= 100 && change <= 1 && index <= 10000
                && var path := Bip86(p.coinType, account, change, index);
                   && Lookup(origins, key) == Some(PrintOrigin(hashes, p.masterFingerprint, path))
                   && p.pubkeyAt(path).Some? && p.pubkeyAt(path).value[1..] == key {
      var path := Bip86(p.coinType, account, change, index);
      AddressPath(p.coinType, account, change, index);
      OriginLength(hashes, p.masterFingerprint, path);
      OriginAccepts(PrintOrigin(hashes, p.masterFingerprint, path), 5, p.masterFingerprint, path);
      assert false;
    }
  }

  lemma AddressPath(coinType: U32, account: nat, change: nat, index: nat)
    requires account <= 100 && change <= 1 && index <= 10000
    ensures CheckBip86Path(Bip86(coinType, account, change, index), coinType)
    ensures |Bip86(coinType, account, change, index)| == 5
  {
  }

  lemma OriginLength(hashes: Bytes, fingerprint: U32, path: seq<U32>)
    requires |hashes| % 32 == 0 && |hashes| / 32 < 256 && |path| == 5
    ensures |PrintOrigin(hashes, fingerprint, path)| == |hashes| + 25
    ensures |hashes| <= 64 ==> |hashes| in {0, 32, 64}
  {
  }
}
