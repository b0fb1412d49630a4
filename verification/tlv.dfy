/** The two TLV parsers of vault_tlv.c: the scalar payload, whose 13 tags may come in any order,
    and the group record, whose 6 tags must come in the canonical one. */
module Tlv {
  import opened Octets
  import opened Bits
  import opened Intents

  datatype TlvError = Overflow | UnknownTag | DuplicateTag | WrongLength | MissingField | Validation
  datatype Result<+T> = Ok(value: T) | Err(error: TlvError)

  /** One record on the wire: tag[2] length[1] value. */
  function Record(tag: nat, v: Bytes): Bytes
    requires |v| < 256
  {
    BE(tag, 2) + [|v| as Byte] + v
  }

  /** The header of the record at pos: its tag and the bounds of its value. */
  function Header(data: Bytes, pos: nat): (r: Result<(nat, nat, nat)>)
    requires pos < |data|
    ensures r.Ok? ==> pos + 3 == r.value.1 <= r.value.2 <= |data|
  {
    if pos + 3 > |data| then Err(Overflow)
    else
      var tag := FromBE(data[pos..pos + 2]);
      var len := data[pos + 2] as nat;
      if pos + 3 + len > |data| then Err(Overflow)
      else Ok((tag, pos + 3, pos + 3 + len))
  }

  lemma HeaderReads(data: Bytes, pos: nat, tag: nat, v: Bytes, rest: Bytes)
    requires pos < |data| && tag < 0x1_0000 && |v| < 256
    requires data[pos..] == Record(tag, v) + rest
    ensures Header(data, pos) == Ok((tag, pos + 3, pos + 3 + |v|))
    ensures data[pos + 3..pos + 3 + |v|] == v && data[pos + 3 + |v|..] == rest
  {
    Pow256Values();
    BEDecodes(tag, 2);
    var d := data[pos..];
    assert d[..2] == BE(tag, 2) && d[2] == |v| as Byte && d[3..3 + |v|] == v && d[3 + |v|..] == rest;
    assert data[pos..pos + 2] == d[..2] && data[pos + 2] == d[2];
    assert data[pos + 3..pos + 3 + |v|] == d[3..3 + |v|] && data[pos + 3 + |v|..] == d[3 + |v|..];
  }

  lemma HeaderWrites(data: Bytes, pos: nat)
    requires pos < |data| && Header(data, pos).Ok?
    ensures var (tag, start, end) := Header(data, pos).value;
            end - start < 256 && data[pos..] == Record(tag, data[start..end]) + data[end..]
  {
    var (tag, start, end) := Header(data, pos).value;
    BEEncodes(data[pos..pos + 2]);
    assert data[pos..] == data[pos..pos + 2] + [data[pos + 2]] + data[start..end] + data[end..];
  }

  // ---------------------------------------------------------------------------------------------
  // Scalar fields. A field is named by its index 0..12 in the parser's switch.

  type Field = i: nat | i < 13

  function FieldTag(i: Field): (t: nat)
    ensures t < 0x1_0000
  {
    [0x0001, 0x0002, 0x0021, 0x0100, 0x0101, 0x0102, 0x0027, 0x0103, 0x0069, 0x0104, 0x0105, 0x0106, 0x010F][i]
  }

  function FieldOf(tag: nat): (i: Option<Field>)
    ensures i.Some? ==> FieldTag(i.value) == tag
    ensures i.None? ==> forall k: Field :: FieldTag(k) != tag
  {
    match tag
    case 0x0001 => Some(0)
    case 0x0002 => Some(1)
    case 0x0021 => Some(2)
    case 0x0100 => Some(3)
    case 0x0101 => Some(4)
    case 0x0102 => Some(5)
    case 0x0027 => Some(6)
    case 0x0103 => Some(7)
    case 0x0069 => Some(8)
    case 0x0104 => Some(9)
    case 0x0105 => Some(10)
    case 0x0106 => Some(11)
    case 0x010F => Some(12)
    case _ => None
  }

  function FieldLen(i: Field): (n: nat)
    ensures 1 <= n <= 32
  {
    [1, 1, 4, 8, 4, 4, 32, 4, 20, 1, 1, 1, 8][i]
  }

  function DecodePath(v: Bytes): (p: Path)
    requires |v| == 20
  {
    Pow256Values();
    BEEncodes(v[0..4]);
    BEEncodes(v[4..8]);
    BEEncodes(v[8..12]);
    BEEncodes(v[12..16]);
    BEEncodes(v[16..20]);
    [FromBE(v[0..4]), FromBE(v[4..8]), FromBE(v[8..12]), FromBE(v[12..16]), FromBE(v[16..20])]
  }

  function EncodePath(p: Path): (v: Bytes)
    ensures |v| == 20
  {
    BE(p[0], 4) + BE(p[1], 4) + BE(p[2], 4) + BE(p[3], 4) + BE(p[4], 4)
  }

  /** The value checks of the switch; the coin type of the path is compared after the loop. */
  predicate FieldValid(i: Field, v: Bytes, coinType: U32)
    requires |v| == FieldLen(i)
  {
    match i
    case 0 => v[0] == 1
    case 1 => v[0] == 1
    case 2 => FromBE(v) == coinType
    case 3 => 0 < FromBE(v) <= MAX_BASE_FEE_RATE
    case 4 => TIMELOCK_MIN <= FromBE(v) <= TIMELOCK_MAX
    case 5 => PAYOUT_TIMELOCK_MIN < FromBE(v) < PAYOUT_TIMELOCK_MAX
    case 6 => true
    case 7 => TIMELOCK_MIN <= FromBE(v) <= HTLC_REFUND_TIMELOCK_MAX
    case 8 =>
      var p := DecodePath(v);
      && p[0] == 86 + HARDENED && p[1] >= HARDENED && p[2] >= HARDENED
      && p[3] < HARDENED && p[4] < HARDENED
      && p[2] - HARDENED <= 100 && p[3] <= 1 && p[4] <= 10000
    case 9 => 1 <= v[0] as nat <= MAX_KEEPERS
    case 10 => 1 <= v[0] as nat <= MAX_CHALLENGERS
    case 11 => 1 <= v[0] as nat <= MAX_VAULTS
    case _ => 0 < FromBE(v) <= PREPEGIN_MAX_FEE_LIMIT
  }

  /** The field of the intent that value v of field i is written to. */
  function Store(out: Scalars, i: Field, v: Bytes): Scalars
    requires |v| == FieldLen(i)
  {
    BEEncodes(v);
    Pow256Values();
    match i
    case 0 => out.(structureType := v[0])
    case 1 => out.(version := v[0])
    case 2 => out.(coinType := FromBE(v))
    case 3 => out.(baseFeeRate := FromBE(v))
    case 4 => out.(pegInCsv := FromBE(v) % 0x1_0000)
    case 5 => out.(payoutTimelock := FromBE(v) % 0x1_0000)
    case 6 => out.(prePegInTxid := v)
    case 7 => out.(refundTimelock := FromBE(v) % 0x1_0000)
    case 8 => out.(path := DecodePath(v))
    case 9 => out.(keeperCount := v[0])
    case 10 => out.(challengerCount := v[0])
    case 11 => out.(vaultCount := v[0])
    case _ => out.(prePegInMaxFee := FromBE(v))
  }

  /** The value bytes that field i of s is sent as. */
  function Print(s: Scalars, i: Field): (v: Bytes)
    ensures |v| == FieldLen(i)
  {
    match i
    case 0 => [s.structureType]
    case 1 => [s.version]
    case 2 => BE(s.coinType, 4)
    case 3 => BE(s.baseFeeRate, 8)
    case 4 => BE(s.pegInCsv, 4)
    case 5 => BE(s.payoutTimelock, 4)
    case 6 => s.prePegInTxid
    case 7 => BE(s.refundTimelock, 4)
    case 8 => EncodePath(s.path)
    case 9 => [s.keeperCount]
    case 10 => [s.challengerCount]
    case 11 => [s.vaultCount]
    case _ => BE(s.prePegInMaxFee, 8)
  }

  lemma Slices(a: Bytes, b: Bytes, c: Bytes, d: Bytes, e: Bytes)
    requires |a| == |b| == |c| == |d| == |e| == 4
    ensures var s := a + b + c + d + e;
            s[0..4] == a && s[4..8] == b && s[8..12] == c && s[12..16] == d && s[16..20] == e
  {
  }

  lemma PathRoundTrip(p: Path, v: Bytes)
    requires |v| == 20
    ensures DecodePath(EncodePath(p)) == p
    ensures EncodePath(DecodePath(v)) == v
  {
    Pow256Values();
    Slices(BE(p[0], 4), BE(p[1], 4), BE(p[2], 4), BE(p[3], 4), BE(p[4], 4));
    BEDecodes(p[0], 4);
    BEDecodes(p[1], 4);
    BEDecodes(p[2], 4);
    BEDecodes(p[3], 4);
    BEDecodes(p[4], 4);
    BEEncodes(v[0..4]);
    BEEncodes(v[4..8]);
    BEEncodes(v[8..12]);
    BEEncodes(v[12..16]);
    BEEncodes(v[16..20]);
    assert v == v[0..4] + v[4..8] + v[8..12] + v[12..16] + v[16..20];
  }

  /** Storing an accepted value and printing it back returns the bytes received, and touches no other field. */
  lemma PrintStore(out: Scalars, i: Field, v: Bytes, coinType: U32)
    requires |v| == FieldLen(i) && FieldValid(i, v, coinType)
    ensures forall j: Field :: Print(Store(out, i, v), j) == if i == j then v else Print(out, j)
  {
    PrintStored(out, i, v, coinType);
    forall j: Field | i != j ensures Print(Store(out, i, v), j) == Print(out, j) {
      hide BE, FromBE, DecodePath, EncodePath;
    }
  }

  lemma PrintStored(out: Scalars, i: Field, v: Bytes, coinType: U32)
    requires |v| == FieldLen(i) && FieldValid(i, v, coinType)
    ensures Print(Store(out, i, v), i) == v
  {
    hide BE, FromBE, DecodePath, EncodePath;
    Pow256Values();
    BEEncodes(v);
    if i == 8 {
      PathRoundTrip(out.path, v);
    }
  }

  /** Each printed value decodes to the field it was printed from. */
  lemma PrintDecodes(s: Scalars)
    ensures FromBE(BE(s.coinType, 4)) == s.coinType && FromBE(BE(s.baseFeeRate, 8)) == s.baseFeeRate
    ensures FromBE(BE(s.pegInCsv, 4)) == s.pegInCsv && FromBE(BE(s.payoutTimelock, 4)) == s.payoutTimelock
    ensures FromBE(BE(s.refundTimelock, 4)) == s.refundTimelock
    ensures FromBE(BE(s.prePegInMaxFee, 8)) == s.prePegInMaxFee
    ensures DecodePath(EncodePath(s.path)) == s.path
  {
    Pow256Values();
    BEDecodes(s.coinType, 4);
    BEDecodes(s.baseFeeRate, 8);
    BEDecodes(s.pegInCsv, 4);
    BEDecodes(s.payoutTimelock, 4);
    BEDecodes(s.refundTimelock, 4);
    BEDecodes(s.prePegInMaxFee, 8);
    PathRoundTrip(s.path, Zeros(20));
  }

  /** Thirteen printed values determine the scalars. */
  lemma PrintInjective(a: Scalars, b: Scalars)
    requires forall i: Field :: Print(a, i) == Print(b, i)
    ensures a == b
  {
    PrintDecodes(a);
    PrintDecodes(b);
    assert Print(a, 0) == Print(b, 0) && Print(a, 1) == Print(b, 1) && Print(a, 2) == Print(b, 2);
    assert Print(a, 3) == Print(b, 3) && Print(a, 4) == Print(b, 4) && Print(a, 5) == Print(b, 5);
    assert Print(a, 6) == Print(b, 6) && Print(a, 7) == Print(b, 7) && Print(a, 8) == Print(b, 8);
    assert Print(a, 9) == Print(b, 9) && Print(a, 10) == Print(b, 10) && Print(a, 11) == Print(b, 11);
    assert Print(a, 12) == Print(b, 12);
  }

  /** The cross-field check after the loop. */
  predicate CoinMatchesPath(s: Scalars) {
    s.path[1] == Harden(s.coinType)
  }

  /** Scalars are in range exactly when each printed field passes the switch and the coin type of the path agrees. */
  lemma ValidByField(s: Scalars, coinType: U32)
    ensures ValidScalars(s, coinType) <==>
            CoinMatchesPath(s) && forall i: Field :: FieldValid(i, Print(s, i), coinType)
  {
    hide BE, FromBE, EncodePath, DecodePath;
    PrintDecodes(s);
    if CoinMatchesPath(s) && forall i: Field :: FieldValid(i, Print(s, i), coinType) {
      assert FieldValid(0, Print(s, 0), coinType) && FieldValid(1, Print(s, 1), coinType);
      assert FieldValid(2, Print(s, 2), coinType) && FieldValid(3, Print(s, 3), coinType);
      assert FieldValid(4, Print(s, 4), coinType) && FieldValid(5, Print(s, 5), coinType);
      assert FieldValid(7, Print(s, 7), coinType) && FieldValid(8, Print(s, 8), coinType);
      assert FieldValid(9, Print(s, 9), coinType) && FieldValid(10, Print(s, 10), coinType);
      assert FieldValid(11, Print(s, 11), coinType) && FieldValid(12, Print(s, 12), coinType);
    }
  }

  // ---------------------------------------------------------------------------------------------
  // The scalar loop.

  /** One turn of the switch: which field, the updated intent, and the next position. */
  function ReadField(data: Bytes, pos: nat, out: Scalars, coinType: U32): (r: Result<(Field, Scalars, nat)>)
    requires pos < |data|
    ensures r.Ok? ==> pos < r.value.2 <= |data|
  {
    var h := Header(data, pos);
    if h.Err? then Err(h.error)
    else
      var (tag, start, end) := h.value;
      var field := FieldOf(tag);
      if field.None? then Err(UnknownTag)
      else if end - start != FieldLen(field.value) then Err(WrongLength)
      else if !FieldValid(field.value, data[start..end], coinType) then Err(Validation)
      else Ok((field.value, Store(out, field.value, data[start..end]), end))
  }

  function AllFields(): (s: set<Field>)
    ensures forall i: Field :: i in s
  {
    {0, 1, 2, 3, 4, 5, 6, 7, 8, 9, 10, 11, 12}
  }

  function ParseFrom(data: Bytes, pos: nat, seen: set<Field>, out: Scalars, coinType: U32): Result<Scalars>
    requires pos <= |data|
    decreases |data| - pos
  {
    if pos == |data| then
      if seen != AllFields() then Err(MissingField)
      else if !CoinMatchesPath(out) then Err(Validation)
      else Ok(out)
    else
      var f := ReadField(data, pos, out, coinType);
      if f.Err? then Err(f.error)
      else
        var (field, out', next) := f.value;
        if field in seen then Err(DuplicateTag)
        else ParseFrom(data, next, seen + {field}, out', coinType)
  }

  /** What vault_tlv_parse returns for a payload, given a zeroed intent. */
  function Parse(data: Bytes, coinType: U32): Result<Scalars> {
    ParseFrom(data, 0, {}, ZERO_SCALARS, coinType)
  }

  method ParseScalars(data: Bytes, out: Scalars, coinType: U32) returns (r: Result<Scalars>)
    ensures r == ParseFrom(data, 0, {}, out, coinType)
  {
    var intent := out;
    var seenMask: U16 := 0;
    var pos := 0;
    ghost var seen: set<Field> := {};
    RepresentsZero();
    while pos < |data|
      invariant pos <= |data|
      invariant Represents(seenMask, seen) && seenMask < Pow2(13) && seen <= AllFields()
      invariant ParseFrom(data, 0, {}, out, coinType) == ParseFrom(data, pos, seen, intent, coinType)
    {
      var f := ReadField(data, pos, intent, coinType);
      if f.Err? {
        return Err(f.error);
      }
      var (field, stored, next) := f.value;
      if Has(seenMask, field) {
        return Err(DuplicateTag);
      }
      RepresentsWith(seenMask, seen, field);
      WithBound(seenMask, field, 13);
      assert Pow2(13) == 0x2000 by { assert Pow2(13) == 1024 * Pow2(3); }
      seenMask := With(seenMask, field);
      seen := seen + {field};
      intent := stored;
      pos := next;
    }
    FullMask(seenMask, 13);
    if seenMask != 0x1FFF {
      r := Err(MissingField);
    } else if !CoinMatchesPath(intent) {
      r := Err(Validation);
    } else {
      r := Ok(intent);
    }
    assert seenMask == 0x1FFF <==> seen == AllFields() by {
      assert Pow2(13) == 0x2000 by { assert Pow2(13) == 1024 * Pow2(3); }
      if seen == AllFields() {
        assert AllSet(seenMask, 13);
      }
    }
  }

  // ---------------------------------------------------------------------------------------------
  // What the scalar parser accepts.

  predicate Distinct(order: seq<Field>) {
    forall i, j :: 0 <= i < j < |order| ==> order[i] != order[j]
  }

  /** The order lists each of the fields exactly once. */
  predicate Lists(order: seq<Field>, fields: set<Field>) {
    Distinct(order) && forall k: Field :: k in order <==> k in fields
  }

  /** An order in which all thirteen fields can be sent. */
  predicate IsOrder(order: seq<Field>) {
    Lists(order, AllFields())
  }

  lemma ListsFirst(order: seq<Field>, fields: set<Field>)
    requires order != [] && Lists(order, fields)
    ensures order[0] in fields && Lists(order[1..], fields - {order[0]})
  {
    assert forall k :: k in order <==> k == order[0] || k in order[1..];
  }

  lemma ListsAdd(i: Field, order: seq<Field>, fields: set<Field>)
    requires Lists(order, fields) && i !in fields
    ensures Lists([i] + order, fields + {i})
  {
    assert i !in order;
  }

  /** The payload that sends the fields of s in the given order. */
  function Wire(s: Scalars, order: seq<Field>): Bytes {
    if order == [] then []
    else Record(FieldTag(order[0]), Print(s, order[0])) + Wire(s, order[1..])
  }

  lemma ReadFieldWrites(data: Bytes, pos: nat, out: Scalars, coinType: U32) returns (v: Bytes)
    requires pos < |data| && ReadField(data, pos, out, coinType).Ok?
    ensures var (i, out', next) := ReadField(data, pos, out, coinType).value;
            && |v| == FieldLen(i) && FieldValid(i, v, coinType) && out' == Store(out, i, v)
            && data[pos..] == Record(FieldTag(i), v) + data[next..]
  {
    HeaderWrites(data, pos);
    var (tag, start, end) := Header(data, pos).value;
    v := data[start..end];
  }

  lemma ReadFieldReads(data: Bytes, pos: nat, out: Scalars, coinType: U32, i: Field, v: Bytes, rest: Bytes)
    requires pos < |data| && |v| == FieldLen(i) && FieldValid(i, v, coinType)
    requires data[pos..] == Record(FieldTag(i), v) + rest
    ensures ReadField(data, pos, out, coinType) == Ok((i, Store(out, i, v), pos + 3 + |v|))
    ensures data[pos + 3 + |v|..] == rest
  {
    HeaderReads(data, pos, FieldTag(i), v, rest);
    assert FieldOf(FieldTag(i)) == Some(i);
  }

  /** Whatever the loop accepts from pos on is the printed form, in some order, of the fields still missing. */
  lemma {:induction false} ParseFromSound(data: Bytes, pos: nat, seen: set<Field>, out: Scalars, coinType: U32, s: Scalars)
    returns (order: seq<Field>)
    requires pos <= |data|
    requires ParseFrom(data, pos, seen, out, coinType) == Ok(s)
    ensures Lists(order, AllFields() - seen)
    ensures data[pos..] == Wire(s, order)
    ensures forall i: Field :: i in seen ==> Print(s, i) == Print(out, i)
    ensures forall i: Field :: i !in seen ==> FieldValid(i, Print(s, i), coinType)
    ensures CoinMatchesPath(s)
    decreases |data| - pos
  {
    if pos == |data| {
      order := [];
    } else {
      var v := ReadFieldWrites(data, pos, out, coinType);
      var (i, out', next) := ReadField(data, pos, out, coinType).value;
      var rest := ParseFromSound(data, next, seen + {i}, out', coinType, s);
      PrintStore(out, i, v, coinType);
      assert Print(s, i) == v;
      order := [i] + rest;
      ListsAdd(i, rest, AllFields() - (seen + {i}));
      assert AllFields() - (seen + {i}) + {i} == AllFields() - seen;
      assert order[1..] == rest;
    }
  }

  /** Conversely the loop accepts those bytes and ends with s. */
  lemma {:induction false} ParseFromComplete(data: Bytes, pos: nat, seen: set<Field>, out: Scalars, coinType: U32,
                                             s: Scalars, order: seq<Field>)
    requires pos <= |data| && ValidScalars(s, coinType)
    requires Lists(order, AllFields() - seen)
    requires data[pos..] == Wire(s, order)
    requires forall i: Field :: i in seen ==> Print(s, i) == Print(out, i)
    ensures ParseFrom(data, pos, seen, out, coinType) == Ok(s)
    decreases |order|
  {
    if order == [] {
      ParseEnds(data, pos, seen, out, coinType, s);
    } else {
      var i, rest := order[0], order[1..];
      var v := Print(s, i);
      assert FieldValid(i, v, coinType) by {
        ValidByField(s, coinType);
      }
      ReadFieldReads(data, pos, out, coinType, i, v, Wire(s, rest));
      ListsFirst(order, AllFields() - seen);
      assert AllFields() - seen - {i} == AllFields() - (seen + {i});
      var out' := Store(out, i, v);
      assert forall j: Field :: j in seen + {i} ==> Print(s, j) == Print(out', j) by {
        PrintStore(out, i, v, coinType);
      }
      ParseFromComplete(data, pos + 3 + |v|, seen + {i}, out', coinType, s, rest);
    }
  }

  lemma ParseEnds(data: Bytes, pos: nat, seen: set<Field>, out: Scalars, coinType: U32, s: Scalars)
    requires pos <= |data| && data[pos..] == [] && ValidScalars(s, coinType)
    requires Lists([], AllFields() - seen)
    requires forall i: Field :: i in seen ==> Print(s, i) == Print(out, i)
    ensures ParseFrom(data, pos, seen, out, coinType) == Ok(s)
  {
    var none: seq<Field> := [];
    forall i: Field ensures i in seen {
      assert i in none <==> i in AllFields() - seen;
    }
    assert seen == AllFields();
    PrintInjective(s, out);
  }

  /** Bytes taken by the records of a set of fields. */
  function Weight(fields: set<Field>): nat {
    W(0, fields) + W(1, fields) + W(2, fields) + W(3, fields) + W(4, fields) + W(5, fields) + W(6, fields) +
    W(7, fields) + W(8, fields) + W(9, fields) + W(10, fields) + W(11, fields) + W(12, fields)
  }

  function W(i: Field, fields: set<Field>): nat {
    if i in fields then 3 + FieldLen(i) else 0
  }

  lemma WeightRemove(fields: set<Field>, i: Field)
    requires i in fields
    ensures Weight(fields) == 3 + FieldLen(i) + Weight(fields - {i})
  {
    assert forall j: Field :: W(j, fields) == if j == i then 3 + FieldLen(i) else W(j, fields - {i});
  }

  lemma {:induction false} WireLength(s: Scalars, order: seq<Field>, fields: set<Field>)
    requires Lists(order, fields)
    ensures |Wire(s, order)| == Weight(fields)
    decreases |order|
  {
    if order == [] {
      forall j: Field ensures j !in fields {
        assert j in order <==> j in fields;
      }
    } else {
      ListsFirst(order, fields);
      WeightRemove(fields, order[0]);
      WireLength(s, order[1..], fields - {order[0]});
    }
  }

  /** Any accepted payload is 128 bytes long. */
  lemma AcceptedLength(data: Bytes, coinType: U32)
    requires Parse(data, coinType).Ok?
    ensures |data| == 128
  {
    var s := Parse(data, coinType).value;
    ParseAcceptsPermutations(data, coinType, s);
    var order :| IsOrder(order) && data == Wire(s, order);
    WireLength(s, order, AllFields());
  }

  /** The parser accepts a payload with result s exactly when s is in range and the payload is
      the thirteen records of s in some order: any order will do, and every order gives s. */
  lemma ParseAcceptsPermutations(data: Bytes, coinType: U32, s: Scalars)
    ensures Parse(data, coinType) == Ok(s) <==>
            ValidScalars(s, coinType) && exists order :: IsOrder(order) && data == Wire(s, order)
  {
    if Parse(data, coinType) == Ok(s) {
      var order := ParseFromSound(data, 0, {}, ZERO_SCALARS, coinType, s);
      assert data[0..] == data && AllFields() - {} == AllFields();
      ValidByField(s, coinType);
      assert IsOrder(order) && data == Wire(s, order);
    }
    if ValidScalars(s, coinType) && exists order :: IsOrder(order) && data == Wire(s, order) {
      var order :| IsOrder(order) && data == Wire(s, order);
      assert data[0..] == data && AllFields() - {} == AllFields();
      ParseFromComplete(data, 0, {}, ZERO_SCALARS, coinType, s, order);
    }
  }

  /** Printing an intent in any order and parsing it back returns it. */
  lemma PrintThenParse(s: Scalars, coinType: U32, order: seq<Field>)
    requires ValidScalars(s, coinType) && IsOrder(order)
    ensures Parse(Wire(s, order), coinType) == Ok(s)
  {
    ParseAcceptsPermutations(Wire(s, order), coinType, s);
  }

  // ---------------------------------------------------------------------------------------------
  // Group records: fields 0..5, strictly ascending.

  type GroupField = i: nat | i < 6

  const GROUP_LEN: nat := 83

  function GroupTag(i: GroupField): (t: nat)
    ensures t < 0x1_0000
  {
    0x0109 + i
  }

  function GroupFieldLen(i: GroupField): (n: nat)
    ensures 1 <= n <= 32
  {
    if i == 0 then 1 else if i == 1 then 32 else 8
  }

  predicate GroupFieldValid(i: GroupField, v: Bytes)
    requires |v| == GroupFieldLen(i)
  {
    i == 3 || i == 4 ==> FromBE(v) >= DUST_LIMIT
  }

  function StoreGroup(out: Group, i: GroupField, v: Bytes): Group
    requires |v| == GroupFieldLen(i)
  {
    BEEncodes(v);
    Pow256Values();
    match i
    case 0 => out.(htlcVout := v[0])
    case 1 => out.(provider := v)
    case 2 => out.(amount := FromBE(v))
    case 3 => out.(commission := FromBE(v))
    case 4 => out.(claimValue := FromBE(v))
    case _ => out.(pegInMaxFee := FromBE(v))
  }

  function PrintGroupField(g: Group, i: GroupField): (v: Bytes)
    ensures |v| == GroupFieldLen(i)
  {
    match i
    case 0 => [g.htlcVout]
    case 1 => g.provider
    case 2 => BE(g.amount, 8)
    case 3 => BE(g.commission, 8)
    case 4 => BE(g.claimValue, 8)
    case _ => BE(g.pegInMaxFee, 8)
  }

  /** The fields of g from i on, as sent. */
  function GroupWireFrom(g: Group, i: nat): (w: Bytes)
    requires i <= 6
    ensures |w| == if i == 0 then 83 else if i == 1 then 79 else 11 * (6 - i)
    decreases 6 - i
  {
    if i == 6 then [] else Record(GroupTag(i), PrintGroupField(g, i)) + GroupWireFrom(g, i + 1)
  }

  /** The canonical record of a group. */
  function GroupWire(g: Group): (w: Bytes)
    ensures |w| == GROUP_LEN
  {
    GroupWireFrom(g, 0)
  }

  lemma PrintStoreGroup(out: Group, i: GroupField, v: Bytes)
    requires |v| == GroupFieldLen(i)
    ensures forall j: GroupField :: PrintGroupField(StoreGroup(out, i, v), j) == if i == j then v else PrintGroupField(out, j)
  {
    Pow256Values();
    BEEncodes(v);
  }

  lemma PrintGroupInjective(a: Group, b: Group)
    requires forall i: GroupField :: PrintGroupField(a, i) == PrintGroupField(b, i)
    ensures a == b
  {
    Pow256Values();
    BEDecodes(a.amount, 8);
    BEDecodes(b.amount, 8);
    BEDecodes(a.commission, 8);
    BEDecodes(b.commission, 8);
    BEDecodes(a.claimValue, 8);
    BEDecodes(b.claimValue, 8);
    BEDecodes(a.pegInMaxFee, 8);
    BEDecodes(b.pegInMaxFee, 8);
    assert PrintGroupField(a, 0) == PrintGroupField(b, 0) && PrintGroupField(a, 1) == PrintGroupField(b, 1);
    assert PrintGroupField(a, 2) == PrintGroupField(b, 2) && PrintGroupField(a, 3) == PrintGroupField(b, 3);
    assert PrintGroupField(a, 4) == PrintGroupField(b, 4) && PrintGroupField(a, 5) == PrintGroupField(b, 5);
  }

  /** One turn of the group loop; last is the index of the field before, or -1. */
  function ReadGroupField(data: Bytes, pos: nat, last: int, out: Group): (r: Result<(GroupField, Group, nat)>)
    requires pos < |data|
    ensures r.Ok? ==> pos < r.value.2 <= |data| && r.value.0 > last
  {
    var h := Header(data, pos);
    if h.Err? then Err(h.error)
    else
      var (tag, start, end) := h.value;
      if tag < 0x0109 || tag > 0x010E then Err(UnknownTag)
      else
        var i := tag - 0x0109;
        if end - start != GroupFieldLen(i) then Err(WrongLength)
        else if !GroupFieldValid(i, data[start..end]) then Err(Validation)
        else if i <= last then Err(DuplicateTag)
        else Ok((i, StoreGroup(out, i, data[start..end]), end))
  }

  /** The cross-field check: amount > commission + 2 * dust, with the overflow of the right side refused. */
  predicate GroupFundable(g: Group) {
    g.commission <= U64_MAX - 2 * DUST_LIMIT && g.amount > g.commission + 2 * DUST_LIMIT
  }

  function FinishGroup(out: Group, pos: nat, seen: set<GroupField>): Result<(Group, nat)> {
    if seen != AllGroupFields() then Err(MissingField)
    else if !GroupFundable(out) then Err(Validation)
    else Ok((out, pos))
  }

  function AllGroupFields(): set<GroupField> {
    {0, 1, 2, 3, 4, 5}
  }

  function ParseGroupFrom(data: Bytes, pos: nat, last: int, seen: set<GroupField>, out: Group): Result<(Group, nat)>
    requires pos <= |data|
    decreases |data| - pos
  {
    if pos == |data| then FinishGroup(out, pos, seen)
    else
      var f := ReadGroupField(data, pos, last, out);
      if f.Err? then Err(f.error)
      else
        var (i, out', next) := f.value;
        if seen + {i} == AllGroupFields() then FinishGroup(out', next, seen + {i})
        else ParseGroupFrom(data, next, i, seen + {i}, out')
  }

  /** vault_tlv_parse_group: the group and the bytes consumed. */
  function ParseGroup(data: Bytes, out: Group): Result<(Group, nat)> {
    ParseGroupFrom(data, 0, -1, {}, out)
  }

  method ParseGroupRecord(data: Bytes, out: Group) returns (r: Result<(Group, nat)>)
    ensures r == ParseGroup(data, out)
  {
    var group := out;
    var seenMask: Byte := 0;
    var last: int := -1;
    var pos := 0;
    ghost var seen: set<GroupField> := {};
    RepresentsZero();
    assert Pow2(6) == 64 by { assert Pow2(6) == 8 * Pow2(3); }
    while pos < |data|
      invariant pos <= |data|
      invariant Represents(seenMask as nat, seen) && seenMask < 64
      invariant ParseGroup(data, out) == ParseGroupFrom(data, pos, last, seen, group)
      invariant seen != AllGroupFields()
    {
      var f := ReadGroupField(data, pos, last, group);
      if f.Err? {
        return Err(f.error);
      }
      var (i, stored, next) := f.value;
      RepresentsWith(seenMask as nat, seen, i);
      WithBound(seenMask as nat, i, 6);
      seenMask := With(seenMask as nat, i) as Byte;
      seen := seen + {i};
      last, group, pos := i, stored, next;
      FullGroupMask(seenMask, seen);
      if seenMask == 0x3F {
        break;
      }
    }
    FullGroupMask(seenMask, seen);
    if seenMask != 0x3F {
      return Err(MissingField);
    }
    if group.commission > U64_MAX - 2 * DUST_LIMIT || group.amount <= group.commission + 2 * DUST_LIMIT {
      return Err(Validation);
    }
    return Ok((group, pos));
  }

  lemma FullGroupMask(mask: Byte, seen: set<GroupField>)
    requires Represents(mask as nat, seen) && mask < 64
    ensures mask == 0x3F <==> seen == AllGroupFields()
  {
    assert Pow2(6) == 64 by { assert Pow2(6) == 8 * Pow2(3); }
    FullMask(mask as nat, 6);
    if seen == AllGroupFields() {
      assert AllSet(mask as nat, 6);
    }
  }

  function Below(n: nat): (s: set<GroupField>)
    requires n <= 6
    ensures forall i: GroupField :: i in s <==> i < n
  {
    if n == 0 then {} else Below(n - 1) + {n - 1}
  }

  lemma ReadGroupFieldWrites(data: Bytes, pos: nat, last: int, out: Group) returns (v: Bytes)
    requires pos < |data| && ReadGroupField(data, pos, last, out).Ok?
    ensures var (i, out', next) := ReadGroupField(data, pos, last, out).value;
            && |v| == GroupFieldLen(i) && GroupFieldValid(i, v) && out' == StoreGroup(out, i, v)
            && data[pos..] == Record(GroupTag(i), v) + data[next..]
  {
    HeaderWrites(data, pos);
    var (tag, start, end) := Header(data, pos).value;
    v := data[start..end];
  }

  lemma ReadGroupFieldReads(data: Bytes, pos: nat, last: int, out: Group, i: GroupField, v: Bytes, rest: Bytes)
    requires pos < |data| && last < i && |v| == GroupFieldLen(i) && GroupFieldValid(i, v)
    requires data[pos..] == Record(GroupTag(i), v) + rest
    ensures ReadGroupField(data, pos, last, out) == Ok((i, StoreGroup(out, i, v), pos + 3 + |v|))
    ensures data[pos + 3 + |v|..] == rest
  {
    HeaderReads(data, pos, GroupTag(i), v, rest);
  }

  /** Once a field has been passed over, a record can no longer be completed. */
  lemma {:induction false} SkippedField(data: Bytes, pos: nat, last: int, seen: set<GroupField>, out: Group, k: GroupField)
    requires pos <= |data| && k <= last && k !in seen
    ensures ParseGroupFrom(data, pos, last, seen, out).Err?
    decreases |data| - pos
  {
    if pos < |data| && ReadGroupField(data, pos, last, out).Ok? {
      var (i, out', next) := ReadGroupField(data, pos, last, out).value;
      assert k !in seen + {i};
      SkippedField(data, next, i, seen + {i}, out', k);
    }
  }

  /** In an accepted record, the field read after the first n is field n. */
  lemma GroupTurn(data: Bytes, pos: nat, n: nat, out: Group, r: (Group, nat)) returns (v: Bytes)
    requires pos <= |data| && n < 6
    requires ParseGroupFrom(data, pos, n - 1, Below(n), out) == Ok(r)
    ensures |v| == GroupFieldLen(n) && GroupFieldValid(n, v) && pos + 3 + |v| <= |data|
    ensures data[pos..pos + 3 + |v|] == Record(GroupTag(n), v)
    ensures n < 5 ==>
              ParseGroupFrom(data, pos + 3 + |v|, n, Below(n + 1), StoreGroup(out, n, v)) == Ok(r)
    ensures n == 5 ==> r == (StoreGroup(out, n, v), pos + 3 + |v|) && GroupFundable(r.0)
  {
    assert n !in Below(n);
    assert pos < |data|;
    v := ReadGroupFieldWrites(data, pos, n - 1, out);
    var (i, out', next) := ReadGroupField(data, pos, n - 1, out).value;
    if i > n {
      assert n !in Below(n) + {i};
      SkippedField(data, next, i, Below(n) + {i}, out', n);
      assert false;
    }
    assert Below(n) + {i} == Below(n + 1);
    assert Below(n + 1) == AllGroupFields() <==> n == 5 by {
      assert 5 in Below(n + 1) <==> n == 5;
    }
    assert data[pos..][..3 + |v|] == data[pos..pos + 3 + |v|];
  }

  lemma {:induction false} ParseGroupFromSound(data: Bytes, pos: nat, n: nat, out: Group, g: Group, consumed: nat)
    requires pos <= |data| && n < 6
    requires ParseGroupFrom(data, pos, n - 1, Below(n), out) == Ok((g, consumed))
    ensures consumed == pos + |GroupWireFrom(g, n)| <= |data|
    ensures data[pos..consumed] == GroupWireFrom(g, n)
    ensures forall i: GroupField :: i < n ==> PrintGroupField(g, i) == PrintGroupField(out, i)
    ensures forall i: GroupField :: i >= n ==> GroupFieldValid(i, PrintGroupField(g, i))
    ensures GroupFundable(g)
    decreases 6 - n
  {
    hide Record, BE, FromBE, PrintGroupField, StoreGroup, ParseGroupFrom, GroupFundable, GroupFieldValid;
    var v := GroupTurn(data, pos, n, out, (g, consumed));
    var out' := StoreGroup(out, n, v);
    var next := pos + 3 + |v|;
    PrintStoreGroup(out, n, v);
    if n == 5 {
      assert GroupWireFrom(g, 6) == [];
    } else {
      ParseGroupFromSound(data, next, n + 1, out', g, consumed);
      assert data[pos..consumed] == data[pos..next] + data[next..consumed];
    }
    assert PrintGroupField(g, n) == v;
  }

  lemma GroupTurnBack(data: Bytes, pos: nat, n: nat, out: Group, v: Bytes, rest: Bytes)
    requires pos <= |data| && n < 6 && |v| == GroupFieldLen(n) && GroupFieldValid(n, v)
    requires data[pos..] == Record(GroupTag(n), v) + rest
    ensures var out' := StoreGroup(out, n, v);
            var next := pos + 3 + |v|;
            && next <= |data| && data[next..] == rest
            && ParseGroupFrom(data, pos, n - 1, Below(n), out) ==
               if n == 5 then FinishGroup(out', next, AllGroupFields())
               else ParseGroupFrom(data, next, n, Below(n + 1), out')
  {
    ReadGroupFieldReads(data, pos, n - 1, out, n, v, rest);
    assert Below(n) + {n} == Below(n + 1);
    assert Below(n + 1) == AllGroupFields() <==> n == 5 by {
      assert 5 in Below(n + 1) <==> n == 5;
    }
  }

  /** Storing field n of g where the fields below it are already those of g. */
  lemma StorePrefix(g: Group, out: Group, n: GroupField)
    requires forall i: GroupField :: i < n ==> PrintGroupField(g, i) == PrintGroupField(out, i)
    ensures var out' := StoreGroup(out, n, PrintGroupField(g, n));
            && (forall i: GroupField :: i < n + 1 ==> PrintGroupField(g, i) == PrintGroupField(out', i))
            && (n == 5 ==> out' == g)
  {
    PrintStoreGroup(out, n, PrintGroupField(g, n));
    if n == 5 {
      PrintGroupInjective(g, StoreGroup(out, n, PrintGroupField(g, n)));
    }
  }

  lemma {:induction false} ParseGroupFromComplete(data: Bytes, pos: nat, n: nat, out: Group, g: Group, rest: Bytes)
    requires pos <= |data| && n < 6 && GroupFundable(g)
    requires forall i: GroupField :: GroupFieldValid(i, PrintGroupField(g, i))
    requires data[pos..] == GroupWireFrom(g, n) + rest
    requires forall i: GroupField :: i < n ==> PrintGroupField(g, i) == PrintGroupField(out, i)
    ensures ParseGroupFrom(data, pos, n - 1, Below(n), out) == Ok((g, pos + |GroupWireFrom(g, n)|))
    decreases 6 - n
  {
    hide Record, BE, FromBE, PrintGroupField, StoreGroup, ParseGroupFrom;
    var v := PrintGroupField(g, n);
    assert data[pos..] == Record(GroupTag(n), v) + (GroupWireFrom(g, n + 1) + rest);
    GroupTurnBack(data, pos, n, out, v, GroupWireFrom(g, n + 1) + rest);
    StorePrefix(g, out, n);
    if n < 5 {
      ParseGroupFromComplete(data, pos + 3 + |v|, n + 1, StoreGroup(out, n, v), g, rest);
    }
  }

  lemma ValidGroupByField(g: Group)
    ensures ValidGroup(g) <==>
            GroupFundable(g) && forall i: GroupField :: GroupFieldValid(i, PrintGroupField(g, i))
  {
    Pow256Values();
    BEDecodes(g.commission, 8);
    BEDecodes(g.claimValue, 8);
    if GroupFundable(g) && forall i: GroupField :: GroupFieldValid(i, PrintGroupField(g, i)) {
      assert GroupFieldValid(3, PrintGroupField(g, 3)) && GroupFieldValid(4, PrintGroupField(g, 4));
    }
  }

  /** A group record is accepted exactly when the bytes start with the canonical encoding of a
      valid group, and then that encoding is what is consumed, whatever the struct held before. */
  lemma ParseGroupAcceptsCanonical(data: Bytes, out: Group, g: Group, consumed: nat)
    ensures ParseGroup(data, out) == Ok((g, consumed)) <==>
            ValidGroup(g) && consumed == GROUP_LEN && GroupWire(g) <= data
  {
    ValidGroupByField(g);
    assert Below(0) == {};
    if ParseGroup(data, out) == Ok((g, consumed)) {
      ParseGroupFromSound(data, 0, 0, out, g, consumed);
    }
    if ValidGroup(g) && consumed == GROUP_LEN && GroupWire(g) <= data {
      assert data[0..] == GroupWireFrom(g, 0) + data[GROUP_LEN..];
      ParseGroupFromComplete(data, 0, 0, out, g, data[GROUP_LEN..]);
    }
  }
}
