/** The bitfield of spent airdrop proofs, one bit in a byte buffer for each. */
module Bitfield {
  import opened Primitives
  import opened Bits

  /** `x & ~(1 << k)`. */
  function ClearBit(x: nat, k: nat): (y: nat)
    ensures y <= x
  {
    if k == 0 then x - x % 2 else 2 * ClearBit(x / 2, k - 1) + x % 2
  }

  lemma {:induction false} ClearBitClears(x: nat, k: nat, i: nat)
    ensures Bit(ClearBit(x, k), i) <==> i != k && Bit(x, i)
  {
    if i > 0 && k > 0 {
      assert ClearBit(x, k) / 2 == ClearBit(x / 2, k - 1);
      ClearBitClears(x / 2, k - 1, i - 1);
    }
  }

  class Field {
    const size: nat
    const bytes: array<Byte>
    var dirty: bool

    ghost predicate Valid()
      reads this, bytes
    {
      bytes.Length == (size + 7) / 8
    }

    /** The positions that are set. */
    ghost function Marked(): (s: set<nat>)
      requires Valid()
      reads this, bytes
    {
      set i: nat | i < size && BitAt(bytes[..], i)
    }

    constructor (size: nat)
      ensures this.size == size && Valid() && fresh(bytes) && Marked() == {} && !dirty
    {
      this.size := size;
      bytes := new Byte[(size + 7) / 8](_ => 0);
      dirty := false;
      new;
      forall i: nat | i < size ensures !BitAt(bytes[..], i) {
        NoBits(7 - i % 8);
      }
    }

    method Set(i: nat, val: bool)
      requires Valid() && i < size
      modifies this`dirty, bytes
      ensures Valid() && dirty
      ensures Marked() == if val then old(Marked()) + {i} else old(Marked()) - {i}
    {
      hide Bit, SetBit, ClearBit;
      var o, k := i / 8, 7 - i % 8;
      ghost var before := bytes[..];
      BytePower();
      SetBitStays(bytes[o], k, 8);
      bytes[o] := if val then SetBit(bytes[o], k) else ClearBit(bytes[o], k);
      dirty := true;
      forall j: nat | j < size
        ensures BitAt(bytes[..], j) <==> if j == i then val else BitAt(before, j)
      {
        if j / 8 == o {
          SetBitSets(before[o], k, 7 - j % 8);
          ClearBitClears(before[o], k, 7 - j % 8);
        }
      }
    }

    /** Positions outside the field count as spent. */
    method Get(i: nat) returns (spent: bool)
      requires Valid()
      ensures spent <==> i >= size || i in Marked()
    {
      if i >= size {
        return true;
      }
      return Bit(bytes[i / 8], 7 - i % 8);
    }

    /** Everything a view has seen is written back. */
    method Commit(keys: seq<nat>, bits: map<nat, bool>)
      requires Valid() && forall k :: k in bits <==> k in keys
      requires forall k :: k in bits ==> k < size
      requires forall i, j :: 0 <= i < j < |keys| ==> keys[i] != keys[j]
      modifies this`dirty, bytes
      ensures Valid()
      ensures forall i: nat :: i in Marked() <==> if i in bits then bits[i] else i in old(Marked())
    {
      hide Marked;
      for n := 0 to |keys|
        invariant Valid()
        invariant forall i: nat :: i in Marked() <==> if i in keys[..n] then bits[i] else i in old(Marked())
      {
        assert keys[..n + 1] == keys[..n] + [keys[n]];
        assert keys[n] in bits;
        Set(keys[n], bits[keys[n]]);
      }
      assert keys[..|keys|] == keys;
    }
  }
}
