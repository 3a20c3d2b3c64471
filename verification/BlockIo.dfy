/** The 2013 driver's block access to the I/O space, a byte at a time, over plain byte cells. */
module BlockIo {

  const IO_SPACE_RANGE := 0xff
  const WORD := 0x1_0000_0000_0000_0000

  type Address = n: nat | n < WORD

  type Cells = Address -> bv8

  /** Address arithmetic is unsigned and wraps. */
  function Plus(addr: Address, i: nat): Address {
    (addr + i) % WORD
  }

  /** Addresses are those of a 64-bit machine. */
  lemma SixtyFourBits(addr: Address, i: nat)
    ensures addr + i < 0x1_0000_0000_0000_0000 ==> Plus(addr, i) == addr + i
    ensures Plus(0xFFFF_FFFF_FFFF_FFFF, 1) == 0
  {
  }

  /** How far an address lies behind another, going round. */
  function Behind(a: Address, addr: Address): (k: nat)
    ensures k < WORD && Plus(addr, k) == a
    ensures forall j: nat :: j < WORD && Plus(addr, j) == a ==> j == k
  {
    if addr <= a then a - addr else a + WORD - addr
  }

  /** The contents of a block. */
  function Block(c: Cells, addr: Address, size: nat): (bytes: seq<bv8>)
    ensures |bytes| == size
    ensures forall i :: 0 <= i < size ==> bytes[i] == c(Plus(addr, i))
  {
    seq(size, i requires 0 <= i < size => c(Plus(addr, i)))
  }

  /** c2 is c1 with a block of bytes laid over it. */
  ghost predicate Overlaid(c1: Cells, addr: Address, bytes: seq<bv8>, c2: Cells) {
    forall a: Address :: c2(a) == if Behind(a, addr) < |bytes| then bytes[Behind(a, addr)] else c1(a)
  }

  ghost predicate Same(c1: Cells, c2: Cells) {
    forall a: Address :: c1(a) == c2(a)
  }

  class IoSpace {
    var cells: Cells

    method Read8(addr: Address) returns (b: bv8)
      ensures b == cells(addr)
    {
      b := cells(addr);
    }

    method Write8(value: bv8, addr: Address)
      modifies this
      ensures Overlaid(old(cells), addr, [value], cells)
    {
      var before := cells;
      cells := (a: Address) => if a == addr then value else before(a);
    }

    /** The range check for one chip compiles away in the read, leaving the same bound from another. */
    method ReadBlock(addr: Address, user: array<bv8>, size: nat) returns (retval: int)
      requires size <= IO_SPACE_RANGE ==> size <= user.Length
      modifies user
      ensures retval == if size > 0xff then -1 else 0
      ensures retval != 0 ==> user[..] == old(user[..])
      ensures retval == 0 ==> user[..] == Block(cells, addr, size) + old(user[size..])
    {
      if size > IO_SPACE_RANGE {
        return -1;
      }
      var i := 0;
      while i < size
        invariant 0 <= i <= size
        invariant forall k :: 0 <= k < i ==> user[k] == cells(Plus(addr, k))
        invariant user[i..] == old(user[i..])
      {
        ghost var rest := user[i..];
        var readByte := Read8(Plus(addr, i));
        user[i] := readByte;
        i := i + 1;
        assert user[i..] == rest[1..];
      }
      assert user[..size] == Block(cells, addr, size);
      return 0;
    }

    method WriteBlock(addr: Address, user: array<bv8>, size: nat) returns (retval: int)
      requires size <= IO_SPACE_RANGE ==> size <= user.Length
      modifies this
      ensures retval == if size > 0xff then -1 else 0
      ensures retval != 0 ==> cells == old(cells)
      ensures retval == 0 ==> Overlaid(old(cells), addr, user[..size], cells)
    {
      if size > IO_SPACE_RANGE {
        return -1;
      }
      var i := 0;
      while i < size
        invariant 0 <= i <= size
        invariant Overlaid(old(cells), addr, user[..i], cells)
      {
        var writeByte := user[i];
        ghost var before := cells;
        Write8(writeByte, Plus(addr, i));
        OneMore(old(cells), addr, user[..i], before, writeByte, cells);
        assert user[..i + 1] == user[..i] + [writeByte];
        i := i + 1;
      }
      return 0;
    }
  }

  /** A byte written right behind a block extends it. */
  lemma OneMore(c: Cells, addr: Address, bytes: seq<bv8>, c1: Cells, b: bv8, c2: Cells)
    requires |bytes| < WORD && Overlaid(c, addr, bytes, c1) && Overlaid(c1, Plus(addr, |bytes|), [b], c2)
    ensures Overlaid(c, addr, bytes + [b], c2)
  {
    Then(c, addr, bytes, c1, [b], c2);
  }

  lemma BehindBoth(a: Address, addr: Address, n: nat)
    requires n < WORD
    ensures Behind(a, addr) >= n ==> Behind(a, Plus(addr, n)) == Behind(a, addr) - n
    ensures Behind(a, addr) < n ==> Behind(a, Plus(addr, n)) == Behind(a, addr) + WORD - n
  {
  }

  /** Writing one block and then another right behind it is writing both at once. */
  lemma Then(c: Cells, addr: Address, first: seq<bv8>, c1: Cells, second: seq<bv8>, c2: Cells)
    requires |first| < WORD && |first| + |second| <= WORD
    requires Overlaid(c, addr, first, c1) && Overlaid(c1, Plus(addr, |first|), second, c2)
    ensures Overlaid(c, addr, first + second, c2)
  {
    forall a: Address
      ensures c2(a) == if Behind(a, addr) < |first + second| then (first + second)[Behind(a, addr)] else c(a)
    {
      BehindBoth(a, addr, |first|);
    }
  }

  /** Reading back a written block gives what was written, and writing back a block just read
      changes nothing, wherever the block lies, even across the end of the address range. */
  lemma ReadBack(c: Cells, addr: Address, bytes: seq<bv8>, c2: Cells)
    requires |bytes| <= IO_SPACE_RANGE && Overlaid(c, addr, bytes, c2)
    ensures Block(c2, addr, |bytes|) == bytes
  {
    forall i | 0 <= i < |bytes| ensures c2(Plus(addr, i)) == bytes[i] {
      assert Behind(Plus(addr, i), addr) == i;
    }
  }

  lemma WriteBack(c: Cells, addr: Address, size: nat, c2: Cells)
    requires Overlaid(c, addr, Block(c, addr, size), c2)
    ensures Same(c, c2)
  {
  }

  /** What is read from a block depends on a write only where the two overlap. */
  lemma BlocksApart(c: Cells, addr: Address, bytes: seq<bv8>, c2: Cells, other: Address, size: nat)
    requires Overlaid(c, addr, bytes, c2)
    requires forall i :: 0 <= i < size ==> Behind(Plus(other, i), addr) >= |bytes|
    ensures Block(c2, other, size) == Block(c, other, size)
  {
  }
}
