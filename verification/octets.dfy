/** Bytes, fixed-width integers, and the byte order that memcmp compares keys in. */
module Octets {

  newtype Byte = x: int | 0 <= x < 256
  type Bytes = seq<Byte>

  type U16 = x: int | 0 <= x < 0x1_0000
  type U32 = x: int | 0 <= x < 0x1_0000_0000
  type U64 = x: int | 0 <= x < 0x1_0000_0000_0000_0000

  const U64_MAX: int := 0xFFFF_FFFF_FFFF_FFFF

  /** C arithmetic on uint64_t. */
  function Wrap64(x: int): U64 {
    x % 0x1_0000_0000_0000_0000
  }

  /** A 32-byte string: an x-only key, a hash or a txid. */
  type Bytes32 = b: Bytes | |b| == 32 witness Fill(0, 32)

  function Fill<T>(x: T, n: nat): (s: seq<T>)
    ensures |s| == n && forall k :: 0 <= k < n ==> s[k] == x
  {
    seq(n, k => x)
  }

  function Zeros(n: nat): (z: Bytes)
    ensures |z| == n && forall k :: 0 <= k < n ==> z[k] == 0
  {
    Fill(0, n)
  }

  const ZERO32: Bytes32 := Zeros(32)

  datatype Option<+T> = None | Some(value: T)

  function Pow256(n: nat): (p: int)
    ensures p >= 1
  {
    if n == 0 then 1 else 256 * Pow256(n - 1)
  }

  /** Base-256 digit k of v, counted from the least significant. */
  function Digit(v: nat, k: nat): Byte {
    if k == 0 then (v % 256) as Byte else Digit(v / 256, k - 1)
  }

  /** Big-endian encoding on n bytes. */
  function BE(v: nat, n: nat): (s: Bytes)
    ensures |s| == n
  {
    seq(n, k requires 0 <= k < n => Digit(v, n - 1 - k))
  }

  function FromBE(s: Bytes): (v: nat) {
    if s == [] then 0 else FromBE(s[..|s| - 1]) * 256 + s[|s| - 1] as nat
  }

  /** Little-endian encoding on n bytes. */
  function LE(v: nat, n: nat): (s: Bytes)
    ensures |s| == n
  {
    seq(n, k requires 0 <= k < n => Digit(v, k))
  }

  function FromLE(s: Bytes): (v: nat) {
    if s == [] then 0 else s[0] as nat + 256 * FromLE(s[1..])
  }

  lemma BESplits(v: nat, n: nat)
    requires n > 0
    ensures BE(v, n) == BE(v / 256, n - 1) + [(v % 256) as Byte]
  {
    forall k | 0 <= k < n - 1
      ensures BE(v, n)[k] == BE(v / 256, n - 1)[k]
    {
      assert Digit(v, n - 1 - k) == Digit(v / 256, n - 2 - k);
    }
    assert BE(v, n)[n - 1] == Digit(v, 0);
    assert BE(v, n) == BE(v, n)[..n - 1] + [BE(v, n)[n - 1]];
    assert BE(v, n)[..n - 1] == BE(v / 256, n - 1);
  }

  lemma {:induction false} BEDecodes(v: nat, n: nat)
    requires v < Pow256(n)
    ensures FromBE(BE(v, n)) == v
  {
    if n > 0 {
      BESplits(v, n);
      BEDecodes(v / 256, n - 1);
      assert BE(v, n)[..n - 1] == BE(v / 256, n - 1);
    }
  }

  lemma {:induction false} BEEncodes(s: Bytes)
    ensures FromBE(s) < Pow256(|s|)
    ensures BE(FromBE(s), |s|) == s
  {
    if s != [] {
      BEEncodes(s[..|s| - 1]);
      BESplits(FromBE(s), |s|);
      assert FromBE(s) / 256 == FromBE(s[..|s| - 1]);
    }
  }

  lemma LESplits(v: nat, n: nat)
    requires n > 0
    ensures LE(v, n) == [(v % 256) as Byte] + LE(v / 256, n - 1)
  {
    forall k | 1 <= k < n
      ensures LE(v, n)[k] == LE(v / 256, n - 1)[k - 1]
    {
      assert Digit(v, k) == Digit(v / 256, k - 1);
    }
    assert LE(v, n)[0] == Digit(v, 0);
  }

  lemma {:induction false} LEDecodes(v: nat, n: nat)
    requires v < Pow256(n)
    ensures FromLE(LE(v, n)) == v
  {
    hide LE, Digit;
    if n > 0 {
      LESplits(v, n);
      LEDecodes(v / 256, n - 1);
      assert LE(v, n)[1..] == LE(v / 256, n - 1);
    } else {
      assert LE(v, n) == [];
    }
  }

  lemma {:induction false} LEEncodes(s: Bytes)
    ensures FromLE(s) < Pow256(|s|)
    ensures LE(FromLE(s), |s|) == s
  {
    hide LE, Digit;
    if s != [] {
      LEEncodes(s[1..]);
      LESplits(FromLE(s), |s|);
      DivisionBy256(s[0], FromLE(s[1..]));
      assert s == [s[0]] + s[1..];
    } else {
      assert LE(FromLE(s), |s|) == [];
    }
  }

  lemma DivisionBy256(b: Byte, rest: nat)
    ensures (b as nat + 256 * rest) / 256 == rest && (b as nat + 256 * rest) % 256 == b as nat
  {
  }

  lemma Pow256Values()
    ensures Pow256(1) == 0x100 && Pow256(2) == 0x1_0000
    ensures Pow256(4) == 0x1_0000_0000 && Pow256(8) == 0x1_0000_0000_0000_0000
  {
    assert Pow256(2) == 256 * Pow256(1);
    assert Pow256(4) == 256 * Pow256(3) && Pow256(3) == 256 * Pow256(2);
    assert Pow256(6) == 256 * Pow256(5) && Pow256(5) == 256 * Pow256(4);
    assert Pow256(8) == 256 * Pow256(7) && Pow256(7) == 256 * Pow256(6);
  }

  /** U2BE */
  function ReadU16BE(data: Bytes, off: nat): U16
    requires off + 2 <= |data|
  {
    Pow256Values();
    BEEncodes(data[off..off + 2]);
    FromBE(data[off..off + 2])
  }

  /** U4BE */
  function ReadU32BE(data: Bytes, off: nat): U32
    requires off + 4 <= |data|
  {
    Pow256Values();
    BEEncodes(data[off..off + 4]);
    FromBE(data[off..off + 4])
  }

  /** memcmp(a, b, n) < 0 on strings of one length. */
  predicate Less(a: Bytes, b: Bytes)
    requires |a| == |b|
  {
    a != [] && (a[0] < b[0] || (a[0] == b[0] && Less(a[1..], b[1..])))
  }

  lemma {:induction false} LessIrreflexive(a: Bytes)
    ensures !Less(a, a)
  {
    if a != [] {
      LessIrreflexive(a[1..]);
    }
  }

  lemma {:induction false} LessTransitive(a: Bytes, b: Bytes, c: Bytes)
    requires |a| == |b| == |c| && Less(a, b) && Less(b, c)
    ensures Less(a, c)
  {
    if a[0] == b[0] && b[0] == c[0] {
      LessTransitive(a[1..], b[1..], c[1..]);
    }
  }

  lemma {:induction false} LessTotal(a: Bytes, b: Bytes)
    requires |a| == |b|
    ensures a == b || Less(a, b) || Less(b, a)
  {
    if a != [] && a[0] == b[0] {
      LessTotal(a[1..], b[1..]);
      if a[1..] == b[1..] {
        assert a == [a[0]] + a[1..];
        assert b == [b[0]] + b[1..];
      }
    }
  }

  /** Keys in strictly ascending memcmp order. */
  predicate Ascending(keys: seq<Bytes32>) {
    forall i, j :: 0 <= i < j < |keys| ==> Less(keys[i], keys[j])
  }

  /** Comparing each key with the one before it, as the loader does, is enough. */
  lemma AscendingStep(keys: seq<Bytes32>, k: Bytes32)
    requires Ascending(keys)
    requires keys == [] || Less(keys[|keys| - 1], k)
    ensures Ascending(keys + [k])
  {
    forall i, j | 0 <= i < j < |keys + [k]|
      ensures Less((keys + [k])[i], (keys + [k])[j])
    {
      if j == |keys| && i < |keys| - 1 {
        LessTransitive(keys[i], keys[|keys| - 1], k);
      }
    }
  }

  lemma AscendingDistinct(keys: seq<Bytes32>, i: nat, j: nat)
    requires Ascending(keys) && i < |keys| && j < |keys| && keys[i] == keys[j]
    ensures i == j
  {
    LessIrreflexive(keys[i]);
  }

  lemma Middle<T>(a: seq<T>, b: seq<T>, c: seq<T>)
    ensures (a + b + c)[|a|..|a| + |b|] == b
  {
  }

  /** b with s written over it from offset off. */
  function Splice<T>(b: seq<T>, off: nat, s: seq<T>): (r: seq<T>)
    requires off + |s| <= |b|
    ensures |r| == |b|
  {
    b[..off] + s + b[off + |s|..]
  }

  lemma SpliceSplice<T>(b: seq<T>, off: nat, s: seq<T>, t: seq<T>)
    requires off + |s| + |t| <= |b|
    ensures Splice(Splice(b, off, s), off + |s|, t) == Splice(b, off, s + t)
  {
  }

  /** memcpy(buf + off, s, |s|). */
  method Put(buf: array<Byte>, off: nat, s: Bytes)
    requires off + |s| <= buf.Length
    modifies buf
    ensures buf[..] == Splice(old(buf[..]), off, s)
  {
    for i := 0 to |s|
      invariant buf[..off] == old(buf[..off])
      invariant buf[off..off + i] == s[..i]
      invariant buf[off + i..] == old(buf[off + i..])
    {
      buf[off + i] := s[i];
    }
  }

  /** memcpy to where the bytes already written end. */
  method PutAfter(buf: array<Byte>, ghost before: Bytes, off: nat, ghost done: Bytes, at: nat, s: Bytes)
    requires at == off + |done| && at + |s| <= |before| && buf[..] == Splice(before, off, done)
    modifies buf
    ensures buf[..] == Splice(before, off, done + s)
  {
    Put(buf, at, s);
    SpliceSplice(before, off, done, s);
  }
}
