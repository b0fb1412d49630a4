/** Bit masks held in unsigned integers: the parsers' seen-masks and the session's dedup masks. */
module Bits {
  import opened Octets

  function Pow2(n: nat): (p: int)
    ensures p >= 1
  {
    if n == 0 then 1 else 2 * Pow2(n - 1)
  }

  /** m & (1 << i) is not zero. */
  predicate Has(m: nat, i: nat) {
    if i == 0 then m % 2 == 1 else Has(m / 2, i - 1)
  }

  /** m | (1 << i). */
  function With(m: nat, i: nat): (r: nat) {
    if i == 0 then
      (if m % 2 == 1 then m else m + 1)
    else
      2 * With(m / 2, i - 1) + m % 2
  }

  lemma {:induction false} WithBound(m: nat, i: nat, n: nat)
    requires i < n && m < Pow2(n)
    ensures With(m, i) < Pow2(n)
  {
    if i > 0 {
      WithBound(m / 2, i - 1, n - 1);
    }
  }

  lemma {:induction false} HasWith(m: nat, i: nat, j: nat)
    ensures Has(With(m, i), j) <==> i == j || Has(m, j)
  {
    if i > 0 && j > 0 {
      HasWith(m / 2, i - 1, j - 1);
    }
  }

  lemma {:induction false} HasZero(i: nat)
    ensures !Has(0, i)
  {
    if i > 0 {
      HasZero(i - 1);
    }
  }

  /** The mask m has exactly the bits of s set. */
  ghost predicate Represents(m: nat, s: set<nat>) {
    forall i: nat :: Has(m, i) <==> i in s
  }

  lemma RepresentsWith(m: nat, s: set<nat>, i: nat)
    requires Represents(m, s)
    ensures Represents(With(m, i), s + {i})
  {
    forall j: nat ensures Has(With(m, i), j) <==> j in s + {i} {
      HasWith(m, i, j);
    }
  }

  lemma RepresentsZero()
    ensures Represents(0, {})
  {
    forall j: nat ensures !Has(0, j) {
      HasZero(j);
    }
  }

  ghost predicate AllSet(m: nat, n: nat) {
    forall i: nat :: i < n ==> Has(m, i)
  }

  /** An n-bit mask with every bit set is all ones, and conversely. */
  lemma FullMask(m: nat, n: nat)
    requires m < Pow2(n)
    ensures m == Pow2(n) - 1 <==> AllSet(m, n)
  {
    if m == Pow2(n) - 1 {
      forall i: nat | i < n ensures Has(m, i) {
        OnesHave(n, i);
      }
    } else if AllSet(m, n) {
      AllSetIsOnes(m, n);
    }
  }

  lemma {:induction false} OnesHave(n: nat, i: nat)
    requires i < n
    ensures Has(Pow2(n) - 1, i)
  {
    assert (Pow2(n) - 1) % 2 == 1 && (Pow2(n) - 1) / 2 == Pow2(n - 1) - 1;
    if i > 0 {
      OnesHave(n - 1, i - 1);
    }
  }

  lemma {:induction false} AllSetIsOnes(m: nat, n: nat)
    requires m < Pow2(n) && AllSet(m, n)
    ensures m == Pow2(n) - 1
  {
    if n > 0 {
      assert Has(m, 0);
      forall i: nat | i < n - 1 ensures Has(m / 2, i) {
        assert Has(m, i + 1);
      }
      AllSetIsOnes(m / 2, n - 1);
    }
  }

  /** mask[slot / 8] & (1u << (slot % 8)) is not zero. */
  predicate BitAt(mask: Bytes, slot: nat)
    requires slot < 8 * |mask|
  {
    Has(mask[slot / 8] as nat, slot % 8)
  }

  /** mask[slot / 8] |= 1u << (slot % 8) */
  function SetBit(mask: Bytes, slot: nat): (r: Bytes)
    requires slot < 8 * |mask|
    ensures |r| == |mask|
  {
    assert With(mask[slot / 8] as nat, slot % 8) < 256 by {
      assert Pow2(8) == 16 * Pow2(4);
      WithBound(mask[slot / 8] as nat, slot % 8, 8);
    }
    mask[slot / 8 := With(mask[slot / 8] as nat, slot % 8) as Byte]
  }

  /** The slots set in a mask. */
  function Slots(mask: Bytes): (s: set<nat>)
    ensures forall k :: k in s <==> 0 <= k < 8 * |mask| && BitAt(mask, k)
  {
    set k: nat | k < 8 * |mask| && BitAt(mask, k)
  }

  lemma SlotsSetBit(mask: Bytes, slot: nat)
    requires slot < 8 * |mask|
    ensures Slots(SetBit(mask, slot)) == Slots(mask) + {slot}
  {
    forall k: nat | k < 8 * |mask|
      ensures BitAt(SetBit(mask, slot), k) <==> k == slot || BitAt(mask, k)
    {
      HasWith(mask[slot / 8] as nat, slot % 8, k % 8);
    }
  }

  lemma SlotsZeros(n: nat)
    ensures Slots(Zeros(n)) == {}
  {
    forall k: nat | k < 8 * n ensures !BitAt(Zeros(n), k) {
      HasZero(k % 8);
    }
  }
}
