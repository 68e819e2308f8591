/** Bit vectors packed into byte arrays (kernel/alloc/bits.c). */
module BitArrays {

  function Mask(i: nat): bv8
    requires i < 8
  {
    1 << i
  }

  predicate CellBit(cell: bv8, i: nat)
    requires i < 8
  {
    cell & Mask(i) == Mask(i)
  }

  lemma MaskTable()
    ensures Mask(0) == 1 && Mask(1) == 2 && Mask(2) == 4 && Mask(3) == 8
    ensures Mask(4) == 16 && Mask(5) == 32 && Mask(6) == 64 && Mask(7) == 128
  {}

  /** OR-ing a mask into a byte changes that bit and no other. */
  lemma SetCell(cell: bv8, i: nat, j: nat)
    requires i < 8 && j < 8
    ensures CellBit(cell | Mask(i), j) <==> i == j || CellBit(cell, j)
  {
    MaskTable();
  }

  /** AND-ing a complemented mask into a byte changes that bit and no other. */
  lemma ClearCell(cell: bv8, i: nat, j: nat)
    requires i < 8 && j < 8
    ensures CellBit(cell & !Mask(i), j) <==> i != j && CellBit(cell, j)
  {
    MaskTable();
  }

  lemma ZeroCell(j: nat)
    requires j < 8
    ensures !CellBit(0, j)
  {
    MaskTable();
  }

  ghost function Toggle(s: set<nat>, i: nat): set<nat> {
    if i in s then s - {i} else s + {i}
  }

  class BitArray {
    const bytes: array<bv8>

    function Capacity(): nat {
      8 * bytes.Length
    }

    /** The positions whose bit is set. */
    ghost function Bits(): set<nat>
      reads bytes
    {
      set i: nat | i < 8 * bytes.Length && CellBit(bytes[i / 8], i % 8)
    }

    /** A zeroed array of n bytes. */
    constructor (n: nat)
      ensures fresh(bytes) && bytes.Length == n
      ensures Bits() == {}
    {
      bytes := new bv8[n](_ => 0);
      new;
      forall i: nat | i < 8 * bytes.Length
        ensures !CellBit(bytes[i / 8], i % 8)
      {
        ZeroCell(i % 8);
      }
    }

    method IsSet(index: nat) returns (b: bool)
      requires index < Capacity()
      ensures b <==> index in Bits()
    {
      var cell := bytes[index / 8];
      var mask := Mask(index % 8);
      b := cell & mask == mask;
    }

    method Set(index: nat)
      requires index < Capacity()
      modifies bytes
      ensures Bits() == old(Bits()) + {index}
    {
      var cell := bytes[index / 8];
      bytes[index / 8] := cell | Mask(index % 8);
      forall i: nat | i < 8 * bytes.Length
        ensures CellBit(bytes[i / 8], i % 8) <==> i == index || CellBit(old(bytes[i / 8]), i % 8)
      {
        if i / 8 == index / 8 { SetCell(cell, index % 8, i % 8); }
      }
    }

    method Clear(index: nat)
      requires index < Capacity()
      modifies bytes
      ensures Bits() == old(Bits()) - {index}
    {
      var cell := bytes[index / 8];
      bytes[index / 8] := cell & !Mask(index % 8);
      forall i: nat | i < 8 * bytes.Length
        ensures CellBit(bytes[i / 8], i % 8) <==> i != index && CellBit(old(bytes[i / 8]), i % 8)
      {
        if i / 8 == index / 8 { ClearCell(cell, index % 8, i % 8); }
      }
    }

    /** Switching twice restores the array: the bit is flipped, never forced. */
    method Switch(index: nat)
      requires index < Capacity()
      modifies bytes
      ensures Bits() == Toggle(old(Bits()), index)
    {
      var b := IsSet(index);
      if b {
        Clear(index);
      } else {
        Set(index);
      }
    }
  }
}
