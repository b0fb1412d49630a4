/** The load on the wire with its tags, lengths and ranges written out, and what byte orders and length prefixes mean as
    numbers. */
module WireForms {
  import opened Octets
  import opened Intents
  import opened Platforms
  import opened Tlv
  import opened Loading
  import opened LeafStream
  import opened Taproot

  // ---------------------------------------------------------------------------------------------
  // Orders

  lemma {:induction false} FromBEFirst(s: Bytes)
    requires s != []
    ensures FromBE(s) == s[0] as nat * Pow256(|s| - 1) + FromBE(s[1..])
  {
    if |s| == 1 {
      assert s[1..] == [] && s[..0] == [];
    } else {
      var front, last := s[..|s| - 1], s[|s| - 1] as nat;
      FromBEFirst(front);
      assert s[1..][..|s| - 2] == front[1..] && s[1..][|s| - 2] == s[|s| - 1];
      Shift(s[0] as nat, Pow256(|s| - 2), FromBE(front[1..]), last);
    }
  }

  lemma Shift(x: nat, p: nat, y: nat, z: nat)
    ensures (x * p + y) * 256 + z == x * (256 * p) + (y * 256 + z)
  {
  }

  /** memcmp on strings of one length orders the numbers they are big-endian for. */
  lemma {:induction false} LessIsNumeric(a: Bytes, b: Bytes)
    requires |a| == |b|
    ensures Less(a, b) <==> FromBE(a) < FromBE(b)
  {
    if a != [] {
      FromBEFirst(a);
      FromBEFirst(b);
      BEEncodes(a[1..]);
      BEEncodes(b[1..]);
      LessIsNumeric(a[1..], b[1..]);
      Leading(a[0] as nat, b[0] as nat, Pow256(|a| - 1), FromBE(a[1..]), FromBE(b[1..]));
    }
  }

  lemma Leading(x: nat, y: nat, p: nat, u: nat, v: nat)
    requires u < p && v < p
    ensures x < y ==> x * p + u < y * p + v
    ensures x == y ==> (x * p + u < y * p + v <==> u < v)
    ensures x > y ==> x * p + u > y * p + v
  {
    if x < y {
      assert (x + 1) * p <= y * p by { Grows(x + 1, y, p); }
    } else if x > y {
      assert (y + 1) * p <= x * p by { Grows(y + 1, x, p); }
    }
  }

  lemma Grows(x: nat, y: nat, p: nat)
    requires x <= y
    ensures x * p <= y * p
  {
  }

  /** A branch hash puts the numerically smaller child first. */
  lemma SmallerChildFirst(p: Platform, a: Bytes32, b: Bytes32)
    requires FromBE(a) <= FromBE(b)
    ensures Combine(p, a, b) == p.tapBranch(a + b) && Combine(p, b, a) == p.tapBranch(a + b)
  {
    LessIsNumeric(a, b);
    LessIsNumeric(b, a);
    LessTotal(a, b);
  }

  lemma {:induction false} AllOnes(n: nat)
    ensures FromBE(Fill(0xFF, n)) == Pow256(n) - 1
  {
    if n > 0 {
      AllOnes(n - 1);
      var s: Bytes := Fill(0xFF, n);
      assert s[..n - 1] == Fill(0xFF, n - 1);
    }
  }

  /** A key is canonical exactly if it is below 2^256 - 2^32 - 977. */
  lemma CanonicalIsBelowPrime(x: Bytes32)
    ensures Canonical(x) <==> FromBE(x) < Pow256(32) - 0x1_0000_03D1
  {
    hide Less, FromBE;
    LessIsNumeric(x, SECP256K1_P);
    PrimeValue();
  }

  lemma Appended(s: Bytes, b: Byte)
    ensures FromBE(s + [b]) == 256 * FromBE(s) + b as nat
  {
    assert (s + [b])[..|s|] == s;
  }

  lemma PrimeValue()
    ensures FromBE(SECP256K1_P) == Pow256(32) - 0x1_0000_03D1
  {
    hide FromBE, Pow256;
    var s: Bytes := Fill(0xFF, 27);
    AllOnes(27);
    Appended(s, 0xFE);
    Appended(s + [0xFE], 0xFF);
    Appended(s + [0xFE] + [0xFF], 0xFF);
    Appended(s + [0xFE] + [0xFF] + [0xFF], 0xFC);
    Appended(s + [0xFE] + [0xFF] + [0xFF] + [0xFC], 0x2F);
    assert SECP256K1_P == s + [0xFE] + [0xFF] + [0xFF] + [0xFC] + [0x2F];
    PowerOf32();
  }

  lemma PowerOf32()
    ensures Pow256(32) == 0x100_0000_0000 * Pow256(27)
  {
    assert Pow256(32) == 256 * Pow256(31) && Pow256(31) == 256 * Pow256(30) && Pow256(30) == 256 * Pow256(29);
    assert Pow256(29) == 256 * Pow256(28) && Pow256(28) == 256 * Pow256(27);
  }

  // ---------------------------------------------------------------------------------------------
  // Length prefixes

  /** A compact size and the bytes it takes, for the sizes below 2^32. */
  function ReadCompactSize(s: Bytes): Option<(nat, nat)> {
    if s == [] then None
    else if s[0] < 0xFD then Some((s[0] as nat, 1))
    else if s[0] == 0xFD && |s| >= 3 then Some((FromLE(s[1..3]), 3))
    else if s[0] == 0xFE && |s| >= 5 then Some((FromLE(s[1..5]), 5))
    else None
  }

  lemma VarintReads(v: nat, rest: Bytes)
    requires v < 0x1_0000_0000
    ensures ReadCompactSize(Varint(v) + rest) == Some((v, |Varint(v)|))
  {
    hide LE, FromLE;
    Pow256Values();
    var s := Varint(v) + rest;
    if 0xFD <= v <= 0xFFFF {
      LEDecodes(v, 2);
      assert s[1..3] == LE(v, 2);
    } else if v > 0xFFFF {
      LEDecodes(v, 4);
      assert s[1..5] == LE(v, 4);
    }
  }

  /** What the leaf hash absorbs: version 0xC0, the script's length as a compact size, the script. */
  lemma LeafPreimageReads(script: Bytes)
    requires |script| < 0x1_0000_0000
    ensures var s := LeafPreimage(script);
            && s != [] && s[0] == 0xC0 && ReadCompactSize(s[1..]).Some?
            && var (len, n) := ReadCompactSize(s[1..]).value;
               len == |script| && 1 + n + len == |s| && s[1 + n..] == script
  {
    hide Varint, ReadCompactSize;
    VarintReads(|script|, script);
    assert LeafPreimage(script)[1..] == Varint(|script|) + script;
  }

  // ---------------------------------------------------------------------------------------------
  // Scalars

  /** The thirteen records: tag, length, value. */
  function ScalarRecords(s: Scalars): (r: seq<Bytes>)
    ensures |r| == 13
  {
    [ [0x00, 0x01, 1, s.structureType],
      [0x00, 0x02, 1, s.version],
      [0x00, 0x21, 4] + BE(s.coinType, 4),
      [0x01, 0x00, 8] + BE(s.baseFeeRate, 8),
      [0x01, 0x01, 4] + BE(s.pegInCsv, 4),
      [0x01, 0x02, 4] + BE(s.payoutTimelock, 4),
      [0x00, 0x27, 32] + s.prePegInTxid,
      [0x01, 0x03, 4] + BE(s.refundTimelock, 4),
      [0x00, 0x69, 20] + BE(s.path[0], 4) + BE(s.path[1], 4) + BE(s.path[2], 4) + BE(s.path[3], 4) + BE(s.path[4], 4),
      [0x01, 0x04, 1, s.keeperCount],
      [0x01, 0x05, 1, s.challengerCount],
      [0x01, 0x06, 1, s.vaultCount],
      [0x01, 0x0F, 8] + BE(s.prePegInMaxFee, 8) ]
  }

  /** The records in the given order. */
  function Sent(s: Scalars, order: seq<Field>): Bytes {
    if order == [] then [] else ScalarRecords(s)[order[0]] + Sent(s, order[1..])
  }

  /** The ranges of a loaded intent, on hardened path m/86'/coin'/account'/change/index. */
  predicate Ranges(s: Scalars, coinType: U32) {
    var h := 0x8000_0000;
    && s.structureType == 1 && s.version == 1 && s.coinType == coinType
    && 1 <= s.baseFeeRate <= 10000 && 1 <= s.prePegInMaxFee <= 100_000_000
    && 72 <= s.pegInCsv <= 1008 && 91 <= s.payoutTimelock <= 4031 && 72 <= s.refundTimelock <= 4320
    && s.path[0] == h + 86 && s.path[1] == (if coinType < h then h + coinType else coinType)
    && h <= s.path[2] <= h + 100 && s.path[3] in {0, 1} && s.path[4] <= 10000
    && 1 <= s.keeperCount <= 32 && 1 <= s.challengerCount <= 32 && 1 <= s.vaultCount <= 10
  }

  lemma TwoBytes(hi: Byte, lo: Byte)
    ensures BE(256 * hi as nat + lo as nat, 2) == [hi, lo]
  {
    BESplits(256 * hi as nat + lo as nat, 2);
    BESplits(hi as nat, 1);
    assert BE(0, 0) == [];
  }

  lemma RecordIs(hi: Byte, lo: Byte, v: Bytes)
    requires |v| < 256
    ensures Record(256 * hi as nat + lo as nat, v) == [hi, lo, |v| as Byte] + v
  {
    hide BE;
    TwoBytes(hi, lo);
  }

  lemma FieldRecord(s: Scalars, k: Field)
    ensures Record(FieldTag(k), Print(s, k)) == ScalarRecords(s)[k]
  {
    hide BE, Record;
    var v := Print(s, k);
    var tag := FieldTag(k);
    RecordIs((tag / 256) as Byte, (tag % 256) as Byte, v);
  }

  lemma {:induction false} SentIsWire(s: Scalars, order: seq<Field>)
    ensures Sent(s, order) == Wire(s, order)
  {
    hide Record, FieldTag, Print, ScalarRecords;
    if order != [] {
      FieldRecord(s, order[0]);
      SentIsWire(s, order[1..]);
    }
  }

  /** A scalar payload parses to s exactly if s is in range and the payload is its thirteen records in some order. */
  lemma ScalarsAccept(data: Bytes, coinType: U32, s: Scalars)
    ensures Parse(data, coinType) == Ok(s) <==>
              Ranges(s, coinType) && exists order :: IsOrder(order) && data == Sent(s, order)
  {
    hide Parse, IsOrder, Wire, Sent;
    ParseAcceptsPermutations(data, coinType, s);
    RangesAreValid(s, coinType);
    forall order: seq<Field> | IsOrder(order) ensures Sent(s, order) == Wire(s, order) {
      SentIsWire(s, order);
    }
  }

  lemma RangesAreValid(s: Scalars, coinType: U32)
    ensures Ranges(s, coinType) <==> ValidScalars(s, coinType)
  {
  }

  // ---------------------------------------------------------------------------------------------
  // Groups and keys

  /** The six records of a group. */
  function GroupRecord(g: Group): Bytes {
    [0x01, 0x09, 1, g.htlcVout] + ([0x01, 0x0A, 32] + g.provider) + ([0x01, 0x0B, 8] + BE(g.amount, 8))
    + ([0x01, 0x0C, 8] + BE(g.commission, 8)) + ([0x01, 0x0D, 8] + BE(g.claimValue, 8))
    + ([0x01, 0x0E, 8] + BE(g.pegInMaxFee, 8))
  }

  lemma GroupRecordIsWire(g: Group)
    ensures GroupRecord(g) == GroupWire(g)
  {
    hide BE, Record;
    var w := GroupWire(g);
    RecordIs(1, 0x09, [g.htlcVout]);
    RecordIs(1, 0x0A, g.provider);
    RecordIs(1, 0x0B, BE(g.amount, 8));
    RecordIs(1, 0x0C, BE(g.commission, 8));
    RecordIs(1, 0x0D, BE(g.claimValue, 8));
    RecordIs(1, 0x0E, BE(g.pegInMaxFee, 8));
    FourMore(g);
    assert GroupWireFrom(g, 1) == Record(0x010A, g.provider) + GroupWireFrom(g, 2);
    assert w == Record(0x0109, [g.htlcVout]) + GroupWireFrom(g, 1);
    assert [0x01, 0x09, 1] + [g.htlcVout] == [0x01, 0x09, 1, g.htlcVout];
    SixParts(Record(0x0109, [g.htlcVout]), Record(0x010A, g.provider), Record(0x010B, BE(g.amount, 8)),
             Record(0x010C, BE(g.commission, 8)), Record(0x010D, BE(g.claimValue, 8)), Record(0x010E, BE(g.pegInMaxFee, 8)));
  }

  lemma SixParts(a: Bytes, b: Bytes, c: Bytes, d: Bytes, e: Bytes, f: Bytes)
    ensures a + (b + (c + d + e + f)) == a + b + c + d + e + f
  {
  }

  lemma FourMore(g: Group)
    ensures GroupWireFrom(g, 2) == Record(0x010B, BE(g.amount, 8)) + Record(0x010C, BE(g.commission, 8))
                                   + Record(0x010D, BE(g.claimValue, 8)) + Record(0x010E, BE(g.pegInMaxFee, 8))
  {
    hide BE, Record;
    assert GroupWireFrom(g, 6) == [];
    assert GroupWireFrom(g, 5) == Record(0x010E, BE(g.pegInMaxFee, 8)) + GroupWireFrom(g, 6);
    assert GroupWireFrom(g, 4) == Record(0x010D, BE(g.claimValue, 8)) + GroupWireFrom(g, 5);
    assert GroupWireFrom(g, 3) == Record(0x010C, BE(g.commission, 8)) + GroupWireFrom(g, 4);
    assert GroupWireFrom(g, 2) == Record(0x010B, BE(g.amount, 8)) + GroupWireFrom(g, 3);
  }

  /** A group record parses to g exactly if the bytes open with its six records and g leaves something to pay out. */
  lemma GroupAccepts(data: Bytes, out: Group, g: Group, consumed: nat)
    ensures ParseGroup(data, out) == Ok((g, consumed)) <==>
              && consumed == 83 && GroupRecord(g) <= data
              && g.commission >= 546 && g.claimValue >= 546 && g.amount > g.commission + 1092
  {
    hide ParseGroup, GroupWire, GroupRecord;
    ParseGroupAcceptsCanonical(data, out, g, consumed);
    GroupRecordIsWire(g);
  }

  /** Key j of the load is accepted exactly as 0x0107 for a keeper or 0x0108 for a challenger, 32, and an x coordinate below
      the field prime that lifts; what follows is the comparison with the keys already there. */
  lemma KeyAccepts(p: Platform, i: Intent, j: nat, data: Bytes, pos: nat)
    requires i.InRange() && pos < |data|
    ensures KeyEntry(p, i, j, data, pos).Some? <==>
              && j < i.N() + i.M() && pos + 35 <= |data|
              && data[pos..pos + 3] == [0x01, if j < i.N() then 0x07 else 0x08, 32]
              && var key: Bytes32 := data[pos + 3..pos + 35];
                 FromBE(key) < Pow256(32) - 0x1_0000_03D1 && p.liftsX(key) && StoreKey(i, j, key).Some?
    ensures KeyEntry(p, i, j, data, pos).Some? ==>
              KeyEntry(p, i, j, data, pos) == StoreKey(i, j, data[pos + 3..pos + 35])
  {
    hide StoreKey, Canonical, BE, FromBE, Pow256;
    if pos + 3 <= |data| {
      TwoBytes(data[pos], data[pos + 1]);
      assert data[pos..pos + 2] == [data[pos], data[pos + 1]];
      assert data[pos..pos + 3] == [data[pos], data[pos + 1], data[pos + 2]];
      FromTwo(data[pos], data[pos + 1]);
      if pos + 35 <= |data| {
        CanonicalIsBelowPrime(data[pos + 3..pos + 35]);
      }
    }
  }

  lemma FromTwo(hi: Byte, lo: Byte)
    ensures FromBE([hi, lo]) == 256 * hi as nat + lo as nat
  {
    assert [hi, lo][..1] == [hi] && [hi][..0] == [];
    assert FromBE([]) == 0;
  }
}
