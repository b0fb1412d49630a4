/** An evaluator for the tapscript opcodes of the vault leaves (BIP-342), written from the opcode numbers. */
module Tapscript {
  import opened Octets
  import opened Script

  /** Bottom first. */
  type Stack = seq<Bytes>

  /** The transaction a script is run for: its hash function, the signatures and relative timelocks it satisfies, and
      the outcome of whatever the evaluator does not know, from there to the end of the script. */
  datatype Spend = Spend(
    sha256: Bytes -> Bytes32,
    valid: (Bytes32, Bytes) -> bool,
    older: nat -> bool,
    other: (Bytes, Stack) -> bool)

  /** A signature that is there and verifies. */
  predicate Signs(e: Spend, key: Bytes32, sig: Bytes) {
    sig != [] && e.valid(key, sig)
  }

  function Flag(b: bool): Bytes {
    if b then [1] else []
  }

  predicate Truthy(b: Bytes) {
    exists k :: 0 <= k < |b| && b[k] != 0 && !(k == |b| - 1 && b[k] == 0x80)
  }

  /** A non-negative stack number; no negative one reaches an operation of the vault leaves. */
  function ReadNum(b: Bytes): Option<nat> {
    if |b| > 4 || (b != [] && b[|b| - 1] >= 0x80) then None else Some(FromLE(b))
  }

  /** One operation on the stack; key lengths other than 32 are refused. */
  function Apply(e: Spend, op: Byte, st: Stack): Option<Stack> {
    var n := |st|;
    match op
    case 0x82 => // SIZE
      if n < 1 then None else Some(st + [ScriptNum(|st[n - 1]|)])
    case 0x87 => // EQUAL
      if n < 2 then None else Some(st[..n - 2] + [Flag(st[n - 2] == st[n - 1])])
    case 0x88 => // EQUALVERIFY
      if n < 2 || st[n - 2] != st[n - 1] then None else Some(st[..n - 2])
    case 0x9C => // NUMEQUAL
      if n < 2 || ReadNum(st[n - 2]).None? || ReadNum(st[n - 1]).None? then None
      else Some(st[..n - 2] + [Flag(ReadNum(st[n - 2]) == ReadNum(st[n - 1]))])
    case 0x9D => // NUMEQUALVERIFY
      if n < 2 || ReadNum(st[n - 2]).None? || ReadNum(st[n - 2]) != ReadNum(st[n - 1]) then None
      else Some(st[..n - 2])
    case 0xA8 => // SHA256
      if n < 1 then None else Some(st[..n - 1] + [e.sha256(st[n - 1])])
    case 0xAC => // CHECKSIG
      if n < 2 || |st[n - 1]| != 32 || (st[n - 2] != [] && !e.valid(st[n - 1], st[n - 2])) then None
      else Some(st[..n - 2] + [Flag(st[n - 2] != [])])
    case 0xAD => // CHECKSIGVERIFY
      if n < 2 || |st[n - 1]| != 32 || !Signs(e, st[n - 1], st[n - 2]) then None
      else Some(st[..n - 2])
    case 0xB2 => // CHECKSEQUENCEVERIFY
      if n < 1 || ReadNum(st[n - 1]).None? || !e.older(ReadNum(st[n - 1]).value) then None else Some(st)
    case 0xBA => // CHECKSIGADD
      if n < 3 || |st[n - 1]| != 32 || ReadNum(st[n - 2]).None? || (st[n - 3] != [] && !e.valid(st[n - 1], st[n - 3])) then None
      else Some(st[..n - 3] + [ScriptNum(ReadNum(st[n - 2]).value + if st[n - 3] != [] then 1 else 0)])
    case _ => None
  }

  predicate Known(op: Byte) {
    op in {0x82, 0x87, 0x88, 0x9C, 0x9D, 0xA8, 0xAC, 0xAD, 0xB2, 0xBA}
  }

  /** Running s on st ends with exactly one true element. */
  predicate Exec(e: Spend, s: Bytes, st: Stack)
    decreases |s|
  {
    if s == [] then |st| == 1 && Truthy(st[0])
    else
      var op, rest := s[0], s[1..];
      if op <= 0x4B then op as nat <= |rest| && Exec(e, rest[op as nat..], st + [rest[..op as nat]])
      else if 0x51 <= op <= 0x60 then Exec(e, rest, st + [[op - 0x50]])
      else if Known(op) then
        var next := Apply(e, op, st);
        next.Some? && Exec(e, rest, next.value)
      else e.other(s, st)
  }

  // ---------------------------------------------------------------------------------------------
  // Fragments

  lemma ExecOp(e: Spend, op: Byte, rest: Bytes, st: Stack)
    requires Known(op)
    ensures Exec(e, [op] + rest, st) <==> Apply(e, op, st).Some? && Exec(e, rest, Apply(e, op, st).value)
  {
    hide Apply;
    assert ([op] + rest)[1..] == rest;
  }

  lemma ExecPush(e: Spend, v: Bytes, rest: Bytes, st: Stack)
    requires |v| <= 75
    ensures Exec(e, [|v| as Byte] + v + rest, st) <==> Exec(e, rest, st + [v])
  {
    hide Apply, Known;
    var s := [|v| as Byte] + v + rest;
    assert s[1..] == v + rest && (v + rest)[|v|..] == rest && (v + rest)[..|v|] == v;
  }

  /** What PushNumber leaves on the stack. */
  function NumBytes(v: nat): (b: Bytes) {
    if 1 <= v <= 16 then [v as Byte] else ScriptNum(v)
  }

  lemma ExecNumber(e: Spend, v: U32, rest: Bytes, st: Stack)
    requires 1 <= v < 0x8000
    ensures Exec(e, PushNumber(v) + rest, st) <==> Exec(e, rest, st + [NumBytes(v)])
    ensures ReadNum(NumBytes(v)) == Some(v) && Truthy(NumBytes(v))
  {
    hide Apply, Known;
    if v <= 16 {
      assert (PushNumber(v) + rest)[1..] == rest;
      assert NumBytes(v)[0] != 0 && NumBytes(v)[1..] == [];
      assert FromLE(NumBytes(v)) == v + 256 * FromLE([]);
    } else {
      TimelockPush(v);
      ScriptNumValue(v);
      var num := ScriptNum(v);
      assert PushNumber(v) == [|num| as Byte] + num;
      ExecPush(e, num, rest, st);
      NumTruthy(num);
    }
  }

  lemma NumTruthy(b: Bytes)
    requires FromLE(b) > 0 && b != [] && b[|b| - 1] < 0x80
    ensures Truthy(b)
  {
    AllZero(b);
  }

  lemma {:induction false} AllZero(b: Bytes)
    ensures FromLE(b) > 0 ==> exists k :: 0 <= k < |b| && b[k] != 0
  {
    if b != [] && b[0] == 0 {
      AllZero(b[1..]);
      if k :| 0 <= k < |b[1..]| && b[1..][k] != 0 {
        assert b[k + 1] != 0;
      }
    }
  }

  lemma ExecKeyOp(e: Spend, key: Bytes32, op: Byte, rest: Bytes, st: Stack)
    requires Known(op)
    ensures Exec(e, KeyOp(key, op) + rest, st) <==>
              Apply(e, op, st + [key]).Some? && Exec(e, rest, Apply(e, op, st + [key]).value)
  {
    hide Apply, Exec;
    assert KeyOp(key, op) + rest == [|key| as Byte] + key + ([op] + rest);
    ExecPush(e, key, [op] + rest, st);
    ExecOp(e, op, rest, st + [key]);
  }

  /** <key> OP_CHECKSIGVERIFY takes a valid signature off the stack. */
  lemma ExecVerify(e: Spend, key: Bytes32, rest: Bytes, st: Stack)
    ensures Exec(e, KeyOp(key, OP_CHECKSIGVERIFY) + rest, st) <==>
              st != [] && Signs(e, key, st[|st| - 1]) && Exec(e, rest, st[..|st| - 1])
  {
    hide Exec;
    ExecKeyOp(e, key, OP_CHECKSIGVERIFY, rest, st);
    if st != [] {
      assert (st + [key])[..|st| - 1] == st[..|st| - 1];
    }
  }

  // ---------------------------------------------------------------------------------------------
  // Signer groups

  /** The top |keys| elements are valid signatures, the first key's on top. */
  predicate GroupSigns(e: Spend, keys: seq<Bytes32>, st: Stack) {
    |st| >= |keys| && forall k :: 0 <= k < |keys| ==> Signs(e, keys[k], st[|st| - 1 - k])
  }

  /** How many of the top |keys| elements sign; none if one is neither empty nor valid. */
  function Tally(e: Spend, keys: seq<Bytes32>, st: Stack): (t: Option<nat>)
    requires |st| >= |keys|
    ensures t.Some? ==> t.value <= |keys|
  {
    if keys == [] then Some(0)
    else
      var t, sig := Tally(e, keys[..|keys| - 1], st), st[|st| - |keys|];
      if t.None? || (sig != [] && !e.valid(keys[|keys| - 1], sig)) then None
      else Some(t.value + if sig != [] then 1 else 0)
  }

  lemma {:induction false} FullTally(e: Spend, keys: seq<Bytes32>, st: Stack)
    requires |st| >= |keys|
    ensures Tally(e, keys, st) == Some(|keys|) <==> GroupSigns(e, keys, st)
  {
    if keys != [] {
      var front := keys[..|keys| - 1];
      FullTally(e, front, st);
      if GroupSigns(e, keys, st) {
        forall k | 0 <= k < |front| ensures Signs(e, front[k], st[|st| - 1 - k]) {
          assert Signs(e, keys[k], st[|st| - 1 - k]);
        }
        assert Signs(e, keys[|keys| - 1], st[|st| - 1 - (|keys| - 1)]);
      } else if Tally(e, keys, st) == Some(|keys|) {
        forall k | 0 <= k < |keys| ensures Signs(e, keys[k], st[|st| - 1 - k]) {
          if k < |front| {
            assert Signs(e, front[k], st[|st| - 1 - k]);
          }
        }
      }
    }
  }

  lemma SmallNum(v: nat)
    requires v < 0x80
    ensures ReadNum(ScriptNum(v)) == Some(v)
  {
    ScriptNumValue(v);
    MinimalLELength(v, 1);
  }

  /** The signer part of a group replaces the signatures by their number. */
  lemma {:induction false} ExecSigners(e: Spend, keys: seq<Bytes32>, rest: Bytes, st: Stack)
    requires 1 <= |keys| <= 32
    ensures Exec(e, Signers(keys) + rest, st) <==>
              && |st| >= |keys| && Tally(e, keys, st).Some?
              && Exec(e, rest, st[..|st| - |keys|] + [ScriptNum(Tally(e, keys, st).value)])
  {
    hide Exec, KeyOp, Apply, ScriptNum, ReadNum;
    var front, last := keys[..|keys| - 1], keys[|keys| - 1];
    if |keys| == 1 {
      assert Signers(keys) == KeyOp(last, OP_CHECKSIG) by {
        assert Signers(front) == [];
      }
      ExecKeyOp(e, last, OP_CHECKSIG, rest, st);
      FirstCount(e, keys, st);
    } else {
      var tail := KeyOp(last, OP_CHECKSIGADD) + rest;
      assert Signers(keys) + rest == Signers(front) + tail;
      ExecSigners(e, front, tail, st);
      if |st| >= |front| && Tally(e, front, st).Some? {
        var mid := st[..|st| - |front|] + [ScriptNum(Tally(e, front, st).value)];
        ExecKeyOp(e, last, OP_CHECKSIGADD, rest, mid);
        NextCount(e, keys, st);
      }
    }
  }

  lemma FirstCount(e: Spend, keys: seq<Bytes32>, st: Stack)
    requires |keys| == 1
    ensures Apply(e, OP_CHECKSIG, st + [keys[0]]) ==
            if |st| >= 1 && Tally(e, keys, st).Some? then Some(st[..|st| - 1] + [ScriptNum(Tally(e, keys, st).value)]) else None
  {
    assert MinimalLE(0) == [] && MinimalLE(1) == [1];
    if |st| >= 1 {
      assert keys[..0] == [];
      assert (st + [keys[0]])[..|st| - 1] == st[..|st| - 1];
    }
  }

  lemma NextCount(e: Spend, keys: seq<Bytes32>, st: Stack)
    requires 2 <= |keys| <= 32 && |st| >= |keys| - 1 && Tally(e, keys[..|keys| - 1], st).Some?
    ensures var mid := st[..|st| - (|keys| - 1)] + [ScriptNum(Tally(e, keys[..|keys| - 1], st).value)];
            Apply(e, OP_CHECKSIGADD, mid + [keys[|keys| - 1]]) ==
            if |st| >= |keys| && Tally(e, keys, st).Some?
            then Some(st[..|st| - |keys|] + [ScriptNum(Tally(e, keys, st).value)]) else None
  {
    hide ScriptNum, ReadNum;
    var front := keys[..|keys| - 1];
    var t := Tally(e, front, st).value;
    SmallNum(t);
    var mid := st[..|st| - |front|] + [ScriptNum(t)];
    var all := mid + [keys[|keys| - 1]];
    if |st| >= |keys| {
      assert all[|all| - 3] == st[|st| - |keys|] && all[|all| - 2] == ScriptNum(t) && all[|all| - 1] == keys[|keys| - 1];
      assert all[..|all| - 3] == st[..|st| - |keys|];
    }
  }

  lemma CountMeans(e: Spend, keys: seq<Bytes32>, st: Stack)
    requires 1 <= |keys| <= 32 && |st| >= |keys| && Tally(e, keys, st).Some?
    ensures ReadNum(ScriptNum(Tally(e, keys, st).value)) == Some(Tally(e, keys, st).value)
    ensures Tally(e, keys, st).value == |keys| <==> GroupSigns(e, keys, st)
  {
    SmallNum(Tally(e, keys, st).value);
    FullTally(e, keys, st);
  }

  /** An intermediate group lets the script go on exactly if every key signs, and takes the signatures. */
  lemma ExecGroup(e: Spend, keys: seq<Bytes32>, rest: Bytes, st: Stack)
    requires 1 <= |keys| <= 32
    ensures Exec(e, MultisigGroup(keys, false) + rest, st) <==>
              GroupSigns(e, keys, st) && Exec(e, rest, st[..|st| - |keys|])
  {
    hide Exec, Signers, PushNumber, ScriptNum, ReadNum, NumBytes, Tally, GroupSigns;
    ExecCounted(e, keys, OP_NUMEQUALVERIFY, rest, st);
    GroupNeedsStack(e, keys, st);
    if |st| >= |keys| {
      FullTally(e, keys, st);
      if Tally(e, keys, st).Some? {
        CountMeans(e, keys, st);
        Compared(st[..|st| - |keys|], ScriptNum(Tally(e, keys, st).value), NumBytes(|keys|));
      }
    }
  }

  lemma Compared(base: Stack, a: Bytes, b: Bytes)
    ensures var st := base + [a] + [b];
            |st| >= 2 && st[|st| - 2] == a && st[|st| - 1] == b && st[..|st| - 2] == base
  {
  }

  /** A final group leaves its verdict. */
  lemma ExecFinalGroup(e: Spend, keys: seq<Bytes32>, st: Stack)
    requires 1 <= |keys| <= 32
    ensures Exec(e, MultisigGroup(keys, true), st) <==> |st| == |keys| && GroupSigns(e, keys, st)
  {
    hide Signers, PushNumber, ScriptNum, ReadNum, NumBytes, Tally, GroupSigns;
    assert MultisigGroup(keys, true) + [] == MultisigGroup(keys, true);
    ExecCounted(e, keys, OP_NUMEQUAL, [], st);
    GroupNeedsStack(e, keys, st);
    if |st| >= |keys| {
      FullTally(e, keys, st);
      if Tally(e, keys, st).Some? {
        CountMeans(e, keys, st);
        Compared(st[..|st| - |keys|], ScriptNum(Tally(e, keys, st).value), NumBytes(|keys|));
        FlagTruthy(GroupSigns(e, keys, st));
      }
    }
  }

  lemma FlagTruthy(b: bool)
    ensures Truthy(Flag(b)) <==> b
  {
    assert b ==> Flag(b)[0] == 1;
  }

  lemma GroupNeedsStack(e: Spend, keys: seq<Bytes32>, st: Stack)
    ensures GroupSigns(e, keys, st) ==> |st| >= |keys|
  {
  }

  /** Up to the comparison of the count with the number of keys. */
  lemma ExecCounted(e: Spend, keys: seq<Bytes32>, op: Byte, rest: Bytes, st: Stack)
    requires 1 <= |keys| <= 32 && Known(op)
    ensures ReadNum(NumBytes(|keys|)) == Some(|keys|)
    ensures Exec(e, Signers(keys) + PushNumber(|keys|) + [op] + rest, st) <==>
              && |st| >= |keys| && Tally(e, keys, st).Some?
              && var counted := st[..|st| - |keys|] + [ScriptNum(Tally(e, keys, st).value)] + [NumBytes(|keys|)];
                 Apply(e, op, counted).Some? && Exec(e, rest, Apply(e, op, counted).value)
  {
    hide Exec, Signers, PushNumber, ScriptNum, ReadNum, NumBytes, Apply;
    var tail := PushNumber(|keys|) + ([op] + rest);
    assert Signers(keys) + PushNumber(|keys|) + [op] + rest == Signers(keys) + tail;
    ExecSigners(e, keys, tail, st);
    if |st| >= |keys| && Tally(e, keys, st).Some? {
      var mid := st[..|st| - |keys|] + [ScriptNum(Tally(e, keys, st).value)];
      ExecNumber(e, |keys|, [op] + rest, mid);
      ExecOp(e, op, rest, mid + [NumBytes(|keys|)]);
    } else {
      ExecNumber(e, |keys|, [op] + rest, []);
    }
  }

  /** <t> OP_CSV at the end of a script. */
  lemma ExecTimelock(e: Spend, t: U32, st: Stack)
    requires 1 <= t < 0x8000
    ensures Exec(e, PushNumber(t) + [OP_CSV], st) <==> st == [] && e.older(t)
  {
    hide PushNumber, NumBytes, ReadNum, Truthy;
    ExecNumber(e, t, [OP_CSV], st);
    assert [OP_CSV] + [] == [OP_CSV];
    ExecOp(e, OP_CSV, [], st + [NumBytes(t)]);
  }
}
