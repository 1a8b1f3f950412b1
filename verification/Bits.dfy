/** Single bits of numbers and of byte buffers. */
module Bits {
  import opened Primitives

  function Pow2(k: nat): (p: nat)
    ensures p > 0
  {
    if k == 0 then 1 else 2 * Pow2(k - 1)
  }

  /** `(x >>> k) & 1`. */
  predicate Bit(x: nat, k: nat) {
    if k == 0 then x % 2 == 1 else Bit(x / 2, k - 1)
  }

  /** `x | (1 << k)`. */
  function SetBit(x: nat, k: nat): nat {
    if Bit(x, k) then x else x + Pow2(k)
  }

  lemma {:induction false} SetBitSets(x: nat, k: nat, i: nat)
    ensures Bit(SetBit(x, k), i) <==> i == k || Bit(x, i)
  {
    if i > 0 && k > 0 {
      assert SetBit(x, k) / 2 == SetBit(x / 2, k - 1);
      SetBitSets(x / 2, k - 1, i - 1);
    } else if k > 0 {
      assert Pow2(k) == 2 * Pow2(k - 1);
    }
  }

  lemma {:induction false} SetBitStays(x: nat, k: nat, n: nat)
    requires x < Pow2(n) && k < n
    ensures SetBit(x, k) < Pow2(n)
  {
    if k > 0 {
      assert SetBit(x, k) / 2 == SetBit(x / 2, k - 1);
      SetBitStays(x / 2, k - 1, n - 1);
    }
  }

  lemma {:induction false} SameBits(x: nat, y: nat, n: nat)
    requires x < Pow2(n) && y < Pow2(n)
    requires forall i :: 0 <= i < n ==> (Bit(x, i) <==> Bit(y, i))
    ensures x == y
  {
    if n > 0 {
      assert Bit(x, 0) == Bit(y, 0);
      forall i | 0 <= i < n - 1 ensures Bit(x / 2, i) <==> Bit(y / 2, i) {
        assert Bit(x, i + 1) == Bit(y, i + 1);
      }
      SameBits(x / 2, y / 2, n - 1);
    }
  }

  lemma {:induction false} NoBits(k: nat)
    ensures !Bit(0, k)
  {
    if k > 0 { NoBits(k - 1); }
  }

  lemma BytePower()
    ensures Pow2(8) == 256 && Pow2(11) == 2048
  {
  }

  /** Bit `pos` of a buffer, most significant first. */
  predicate BitAt(data: Bytes, pos: nat)
    requires pos < 8 * |data|
  {
    Bit(data[pos / 8], 7 - pos % 8)
  }

  /** Equal bits, equal buffers. */
  lemma SameBuffers(a: Bytes, b: Bytes)
    requires |a| == |b| && forall pos :: 0 <= pos < 8 * |a| ==> (BitAt(a, pos) <==> BitAt(b, pos))
    ensures a == b
  {
    BytePower();
    forall o | 0 <= o < |a| ensures a[o] == b[o] {
      forall i | 0 <= i < 8 ensures Bit(a[o], i) <==> Bit(b[o], i) {
        var pos := 8 * o + (7 - i);
        assert BitAt(a, pos) == BitAt(b, pos) && pos / 8 == o && 7 - pos % 8 == i;
      }
      SameBits(a[o], b[o], 8);
    }
  }
}
