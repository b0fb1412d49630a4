/** The leaf scripts of vault_script.c: what each builder emits, and the builders writing into a buffer. */
module Script {
  import opened Octets
  import opened Intents

  const OP_0: Byte := 0x00
  const OP_PUSHBYTES_1: Byte := 0x01
  const OP_PUSHBYTES_2: Byte := 0x02
  const OP_PUSHBYTES_32: Byte := 0x20
  const OP_PUSHBYTES_75: Byte := 0x4B
  const OP_PUSHDATA1: Byte := 0x4C
  const OP_RESERVED: Byte := 0x50
  const OP_1: Byte := 0x51
  const OP_16: Byte := 0x60
  const OP_RETURN: Byte := 0x6A
  const OP_SIZE: Byte := 0x82
  const OP_EQUAL: Byte := 0x87
  const OP_EQUALVERIFY: Byte := 0x88
  const OP_NUMEQUAL: Byte := 0x9C
  const OP_NUMEQUALVERIFY: Byte := 0x9D
  const OP_SHA256: Byte := 0xA8
  const OP_CHECKSIG: Byte := 0xAC
  const OP_CHECKSIGVERIFY: Byte := 0xAD
  const OP_CSV: Byte := 0xB2
  const OP_CHECKSIGADD: Byte := 0xBA

  const SCRIPT_MAX_LEN: nat := 2560
  const ENTRY_LEN: nat := 34

  // ---------------------------------------------------------------------------------------------
  // Fragments

  /** The little-endian bytes of v, most significant byte not zero. */
  function MinimalLE(v: nat): (s: Bytes)
    ensures (v == 0 ==> s == []) && (v > 0 ==> s != [] && s[|s| - 1] != 0)
  {
    if v == 0 then [] else [(v % 256) as Byte] + MinimalLE(v / 256)
  }

  lemma {:induction false} MinimalLELength(v: nat, n: nat)
    requires v < Pow256(n)
    ensures |MinimalLE(v)| <= n
  {
    if v > 0 {
      MinimalLELength(v / 256, n - 1);
    }
  }

  /** Signed little-endian number of a script push: a zero byte keeps the sign bit clear. */
  function ScriptNum(v: nat): (s: Bytes) {
    var s := MinimalLE(v);
    if s != [] && s[|s| - 1] >= 0x80 then s + [0] else s
  }

  /** _push_number */
  function PushNumber(v: U32): (s: Bytes)
    ensures 1 <= |s| <= 6
    ensures v < 0x1_0000 ==> |s| <= 4
  {
    if v == 0 then [OP_0]
    else if v <= 16 then [(0x50 + v) as Byte]
    else
      Pow256Values();
      MinimalLELength(v, if v < 0x1_0000 then 2 else 4);
      [|ScriptNum(v)| as Byte] + ScriptNum(v)
  }

  /** OP_PUSHBYTES_32 key op */
  function KeyOp(key: Bytes32, op: Byte): (s: Bytes)
    ensures |s| == ENTRY_LEN
  {
    [OP_PUSHBYTES_32] + key + [op]
  }

  /** The first key closes with OP_CHECKSIG, the others accumulate. */
  function Signers(keys: seq<Bytes32>): (s: Bytes)
    ensures |s| == ENTRY_LEN * |keys|
  {
    if keys == [] then []
    else Signers(keys[..|keys| - 1]) + KeyOp(keys[|keys| - 1], if |keys| == 1 then OP_CHECKSIG else OP_CHECKSIGADD)
  }

  /** N-of-N tapscript multisig. */
  function MultisigGroup(keys: seq<Bytes32>, isFinal: bool): (s: Bytes)
    requires |keys| < 0x1_0000
    ensures |s| == ENTRY_LEN * |keys| + |PushNumber(|keys|)| + 1
  {
    Signers(keys) + PushNumber(|keys|) + [if isFinal then OP_NUMEQUAL else OP_NUMEQUALVERIFY]
  }

  // ---------------------------------------------------------------------------------------------
  // Leaves

  function DepositorClaimLeaf(i: Intent): (s: Bytes)
    ensures |s| == 34
  {
    KeyOp(i.depositor, OP_CHECKSIG)
  }

  function HtlcLeaf1(i: Intent): Bytes {
    KeyOp(i.depositor, OP_CHECKSIGVERIFY) + PushNumber(i.scalars.refundTimelock) + [OP_CSV]
  }

  function VaultUtxoLeaf(i: Intent, g: nat): Bytes
    requires i.InRange() && g < i.V()
  {
    KeyOp(i.depositor, OP_CHECKSIGVERIFY) + KeyOp(i.groups[g].provider, OP_CHECKSIGVERIFY)
    + MultisigGroup(i.Keepers(), false) + MultisigGroup(i.Challengers(), false)
    + PushNumber(i.scalars.pegInCsv) + [OP_CSV]
  }

  function HtlcLeaf0(i: Intent, g: nat, h: Bytes32): Bytes
    requires i.InRange() && g < i.V()
  {
    [OP_SIZE] + PushNumber(32) + [OP_EQUALVERIFY]
    + [OP_SHA256, OP_PUSHBYTES_32] + h + [OP_EQUALVERIFY]
    + KeyOp(i.depositor, OP_CHECKSIGVERIFY) + KeyOp(i.groups[g].provider, OP_CHECKSIGVERIFY)
    + MultisigGroup(i.Keepers(), false) + MultisigGroup(i.Challengers(), true)
  }

  function NoPayoutLeaf(i: Intent, challenger: Bytes32): (s: Bytes)
    ensures |s| == 68
  {
    KeyOp(i.depositor, OP_CHECKSIGVERIFY) + KeyOp(challenger, OP_CHECKSIG)
  }

  /** Claimer c: 0 is the provider, 1..N a keeper, N + 1 the depositor. */
  function ClaimerKey(i: Intent, g: nat, c: nat): Bytes32
    requires i.InRange() && g < i.V() && c <= i.N() + 1
  {
    if c == 0 then i.groups[g].provider else if c == i.N() + 1 then i.depositor else i.keeperPks[c - 1]
  }

  /** keys with the provider put at its sorted place. */
  function InsertSorted(key: Bytes32, keys: seq<Bytes32>): (s: seq<Bytes32>)
    ensures |s| == |keys| + 1
  {
    if keys == [] then [key]
    else if Less(key, keys[0]) then [key] + keys
    else [keys[0]] + InsertSorted(key, keys[1..])
  }

  /** build_app_challengers: the provider and the keepers, without the claimer, in order. */
  function AppChallengers(i: Intent, g: nat, c: nat): (s: seq<Bytes32>)
    requires i.InRange() && g < i.V() && c <= i.N() + 1
    ensures |s| == i.N()
  {
    var ks := i.Keepers();
    if c == 0 || c == i.N() + 1 then ks
    else InsertSorted(i.groups[g].provider, ks[..c - 1] + ks[c..])
  }

  function Assert0PayoutLeaf(i: Intent, g: nat, c: nat): Bytes
    requires i.InRange() && g < i.V() && c <= i.N() + 1
  {
    KeyOp(ClaimerKey(i, g, c), OP_CHECKSIGVERIFY)
    + MultisigGroup(AppChallengers(i, g, c), false) + MultisigGroup(i.Challengers(), false)
    + PushNumber(i.scalars.payoutTimelock) + [OP_CSV]
  }

  // ---------------------------------------------------------------------------------------------
  // Numbers

  lemma {:induction false} MinimalLEValue(v: nat)
    ensures FromLE(MinimalLE(v)) == v
  {
    if v > 0 {
      MinimalLEValue(v / 256);
      assert MinimalLE(v)[1..] == MinimalLE(v / 256);
    }
  }

  lemma {:induction false} FromLETrailingZero(s: Bytes)
    ensures FromLE(s + [0]) == FromLE(s)
  {
    if s == [] {
      assert FromLE([0]) == 0;
    } else {
      FromLETrailingZero(s[1..]);
      assert (s + [0])[1..] == s[1..] + [0];
    }
  }

  /** The pushed number reads back as the value, with its sign bit clear. */
  lemma ScriptNumValue(v: nat)
    ensures FromLE(ScriptNum(v)) == v
    ensures v > 0 ==> ScriptNum(v) != [] && ScriptNum(v)[|ScriptNum(v)| - 1] < 0x80
  {
    MinimalLEValue(v);
    FromLETrailingZero(MinimalLE(v));
  }

  /** The two push sizes the timelocks of an intent can take. */
  lemma TimelockPush(v: U32)
    requires 16 < v < 0x8000
    ensures v < 0x80 ==> PushNumber(v) == [OP_PUSHBYTES_1, v as Byte]
    ensures v >= 0x80 ==> PushNumber(v) == [OP_PUSHBYTES_2, (v % 256) as Byte, (v / 256) as Byte]
  {
    assert MinimalLE(0) == [];
    if v < 256 {
      assert MinimalLE(v) == [v as Byte];
    } else {
      assert MinimalLE(v / 256) == [(v / 256) as Byte];
      assert MinimalLE(v) == [(v % 256) as Byte, (v / 256) as Byte];
    }
  }

  lemma SmallPush(v: U32)
    requires 1 <= v <= 32
    ensures |PushNumber(v)| == if v <= 16 then 1 else 2
  {
    if v > 16 {
      TimelockPush(v);
    }
  }
}
