/** The proof-of-possession message: its strict grammar and the scanner that reads it. */
module Bip322 {
  import opened Octets

  const COLON: Byte := 58
  const ADDRESS_LEN: nat := 42
  const CHAIN_ID_MAX: nat := 20
  const PEGIN: Bytes := [112, 101, 103, 105, 110]

  datatype PoP = PoP(ethAddress: Bytes, chainId: Bytes, registry: Bytes)

  predicate LowercaseHex(c: Byte) {
    48 <= c <= 57 || 97 <= c <= 102
  }

  predicate Digit10(c: Byte) {
    48 <= c <= 57
  }

  /** "0x" and 40 lowercase hex digits. */
  predicate IsAddress(a: Bytes) {
    && |a| == ADDRESS_LEN && a[0] == 48 && a[1] == 120
    && forall k :: 2 <= k < ADDRESS_LEN ==> LowercaseHex(a[k])
  }

  /** 1 to 20 decimal digits, no leading zero unless it is the only digit. */
  predicate IsChainId(c: Bytes) {
    && 1 <= |c| <= CHAIN_ID_MAX
    && (|c| > 1 ==> c[0] != 48)
    && forall k :: 0 <= k < |c| ==> Digit10(c[k])
  }

  predicate WellFormed(m: PoP) {
    IsAddress(m.ethAddress) && IsChainId(m.chainId) && IsAddress(m.registry)
  }

  /** eth ":" chain_id ":pegin:" registry */
  function Print(m: PoP): Bytes {
    m.ethAddress + [COLON] + m.chainId + [COLON] + PEGIN + [COLON] + m.registry
  }

  /** The first colon at or after k. */
  function ColonFrom(msg: Bytes, k: nat): (r: Option<nat>)
    ensures r.Some? ==> k <= r.value < |msg| && msg[r.value] == COLON && forall j :: k <= j < r.value ==> msg[j] != COLON
    ensures r.None? ==> forall j :: k <= j < |msg| ==> msg[j] != COLON
    decreases |msg| - k
  {
    if k >= |msg| then None
    else if msg[k] == COLON then Some(k)
    else ColonFrom(msg, k + 1)
  }

  /** bip322_parse_pop_message, from the positions of the first three colons. */
  function ParseAt(msg: Bytes, c0: nat, c1: nat, c2: nat): Option<PoP>
    requires c0 < c1 < c2 < |msg|
  {
    var m := PoP(msg[..c0], msg[c0 + 1..c1], msg[c2 + 1..]);
    if !WellFormed(m) || msg[c1 + 1..c2] != PEGIN then None else Some(m)
  }

  function Parse(msg: Bytes): Option<PoP> {
    var c0 := ColonFrom(msg, 0);
    if c0.None? then None
    else
      var c1 := ColonFrom(msg, c0.value + 1);
      if c1.None? then None
      else
        var c2 := ColonFrom(msg, c1.value + 1);
        if c2.None? then None else ParseAt(msg, c0.value, c1.value, c2.value)
  }

  /** The scan for the first three colons. */
  method FindColons(msg: Bytes) returns (nc: nat, c0: nat, c1: nat, c2: nat)
    ensures nc <= 3
    ensures nc >= 1 <==> ColonFrom(msg, 0).Some?
    ensures nc >= 1 ==> ColonFrom(msg, 0) == Some(c0)
    ensures nc >= 2 <==> nc >= 1 && ColonFrom(msg, c0 + 1).Some?
    ensures nc >= 2 ==> ColonFrom(msg, c0 + 1) == Some(c1)
    ensures nc >= 3 <==> nc >= 2 && ColonFrom(msg, c1 + 1).Some?
    ensures nc >= 3 ==> ColonFrom(msg, c1 + 1) == Some(c2)
  {
    nc, c0, c1, c2 := 0, 0, 0, 0;
    var i := 0;
    while i < |msg| && nc < 3
      invariant i <= |msg| && nc <= 3
      invariant nc == 0 ==> ColonFrom(msg, 0) == ColonFrom(msg, i)
      invariant nc >= 1 ==> ColonFrom(msg, 0) == Some(c0)
      invariant nc == 1 ==> ColonFrom(msg, c0 + 1) == ColonFrom(msg, i)
      invariant nc >= 2 ==> ColonFrom(msg, c0 + 1) == Some(c1)
      invariant nc == 2 ==> ColonFrom(msg, c1 + 1) == ColonFrom(msg, i)
      invariant nc >= 3 ==> ColonFrom(msg, c1 + 1) == Some(c2)
    {
      if msg[i] == COLON {
        match nc {
          case 0 => c0 := i;
          case 1 => c1 := i;
          case _ => c2 := i;
        }
        nc := nc + 1;
      }
      i := i + 1;
    }
  }

  /** _parse_eth_address */
  method ParseEthAddress(field: Bytes) returns (ok: bool)
    ensures ok <==> IsAddress(field)
  {
    if |field| != ADDRESS_LEN || field[0] != 48 || field[1] != 120 {
      return false;
    }
    for i := 2 to ADDRESS_LEN
      invariant forall k :: 2 <= k < i ==> LowercaseHex(field[k])
    {
      if !LowercaseHex(field[i]) {
        return false;
      }
    }
    return true;
  }

  /** Length, leading zero and digits of field 1. */
  method CheckChainId(chain: Bytes) returns (ok: bool)
    ensures ok <==> IsChainId(chain)
  {
    if |chain| == 0 || |chain| > CHAIN_ID_MAX || (|chain| > 1 && chain[0] == 48) {
      return false;
    }
    for i := 0 to |chain|
      invariant forall k :: 0 <= k < i ==> Digit10(chain[k])
    {
      if !Digit10(chain[i]) {
        return false;
      }
    }
    return true;
  }

  /** bip322_parse_pop_message */
  method ParsePopMessage(msg: Bytes) returns (r: Option<PoP>)
    ensures r == Parse(msg)
  {
    hide IsAddress, IsChainId, ColonFrom;
    var nc, c0, c1, c2 := FindColons(msg);
    if nc != 3 {
      return None;
    }
    var ethOk := ParseEthAddress(msg[..c0]);
    if !ethOk {
      return None;
    }
    var chainOk := CheckChainId(msg[c0 + 1..c1]);
    if !chainOk {
      return None;
    }
    if msg[c1 + 1..c2] != PEGIN {
      return None;
    }
    var registryOk := ParseEthAddress(msg[c2 + 1..]);
    if !registryOk {
      return None;
    }
    return Some(PoP(msg[..c0], msg[c0 + 1..c1], msg[c2 + 1..]));
  }

  predicate NoColon(s: Bytes) {
    forall k :: 0 <= k < |s| ==> s[k] != COLON
  }

  lemma FieldsHaveNoColon(m: PoP)
    requires WellFormed(m)
    ensures NoColon(m.ethAddress) && NoColon(m.chainId) && NoColon(PEGIN)
  {
    forall k | 0 <= k < ADDRESS_LEN ensures m.ethAddress[k] != COLON {
      if k >= 2 {
        assert LowercaseHex(m.ethAddress[k]);
      }
    }
  }

  /** A field without colons is skipped up to the colon that ends it. */
  lemma {:induction false} SkipsField(msg: Bytes, k: nat, end: nat)
    requires k <= end < |msg| && msg[end] == COLON && NoColon(msg[k..end])
    ensures ColonFrom(msg, k) == Some(end)
    decreases end - k
  {
    if k < end {
      assert msg[k] == msg[k..end][0];
      assert msg[k + 1..end] == msg[k..end][1..];
      SkipsField(msg, k + 1, end);
    }
  }

  /** The parser accepts exactly the messages of the grammar, with the one decomposition they have. */
  lemma ParseAccepts(msg: Bytes, m: PoP)
    ensures Parse(msg) == Some(m) <==> WellFormed(m) && msg == Print(m)
  {
    hide IsAddress, IsChainId;
    if Parse(msg) == Some(m) {
      var c0 := ColonFrom(msg, 0).value;
      var c1 := ColonFrom(msg, c0 + 1).value;
      var c2 := ColonFrom(msg, c1 + 1).value;
      CutAtColons(msg, c0, c1, c2);
    }
    if WellFormed(m) && msg == Print(m) {
      PrintedParses(m);
    }
  }

  lemma CutAtColons(msg: Bytes, c0: nat, c1: nat, c2: nat)
    requires c0 < c1 < c2 < |msg|
    ensures msg == msg[..c0] + [msg[c0]] + msg[c0 + 1..c1] + [msg[c1]] + msg[c1 + 1..c2] + [msg[c2]] + msg[c2 + 1..]
  {
  }

  lemma PrintedParses(m: PoP)
    requires WellFormed(m)
    ensures Parse(Print(m)) == Some(m)
  {
    FieldsHaveNoColon(m);
    hide IsAddress, IsChainId;
    var msg := Print(m);
    var c0 := |m.ethAddress|;
    var c1 := c0 + 1 + |m.chainId|;
    var c2 := c1 + 6;
    assert msg[0..c0] == m.ethAddress == msg[..c0];
    SkipsField(msg, 0, c0);
    assert msg[c0 + 1..c1] == m.chainId;
    SkipsField(msg, c0 + 1, c1);
    assert msg[c1 + 1..c2] == PEGIN;
    SkipsField(msg, c1 + 1, c2);
    assert msg[c2 + 1..] == m.registry;
  }

  /** Printing is injective on well-formed messages: no text can be read in two ways. */
  lemma Unambiguous(a: PoP, b: PoP)
    requires WellFormed(a) && WellFormed(b) && Print(a) == Print(b)
    ensures a == b
  {
    ParseAccepts(Print(a), a);
    ParseAccepts(Print(a), b);
  }
}
