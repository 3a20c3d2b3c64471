/** Where the cards' registers lie: the offsets a C compiler gives the members of the two structures
    that describe a card's I/O window, and that the port numbers used elsewhere are those. */
module RegisterMap {
  import PortIo

  /** A member of a structure: an array of bytes or a scalar or union, which is aligned to its size. */
  datatype Member = Bytes(count: nat) | Scalar(size: nat)

  function Size(m: Member): nat {
    match m
    case Bytes(count) => count
    case Scalar(size) => size
  }

  /** The next multiple of a scalar's size. */
  function Aligned(offset: nat, m: Member): nat {
    match m
    case Bytes(_) => offset
    case Scalar(size) => if size == 0 then offset else (offset + size - 1) / size * size
  }

  /** Where the structure's members end, and so where the next may begin. */
  function End(members: seq<Member>): nat {
    if members == [] then 0
    else
      var last := |members| - 1;
      Aligned(End(members[..last]), members[last]) + Size(members[last])
  }

  function OffsetOf(members: seq<Member>, i: nat): nat
    requires i < |members|
  {
    Aligned(End(members[..i]), members[i])
  }

  const BYTE := Scalar(1)

  /** The CH367/CH368 window: standard ports, GPOR, GPVR, GPIR, IntCtr, IoBuf, MemAddr, reserved,
      MemData, SData, Status, reserved, Speed, PDataCtrl, IoTime, SPICtrl, SPIData, reserved. */
  const Ch367Io := [Bytes(0xE8), BYTE, BYTE, BYTE, BYTE, Scalar(4), Scalar(2), BYTE, BYTE, Scalar(4),
                    BYTE, BYTE, BYTE, BYTE, BYTE, BYTE, BYTE, BYTE]

  /** The CH365 window: standard ports, MemAddr, reserved, MemData, I2cData, I2cCtrl, I2cAddr, I2cDev,
      IoCtrl, IoBuf, Speed, reserved, IoTime, reserved. */
  const Ch365Io := [Bytes(0xF0), Scalar(2), BYTE, BYTE, BYTE, BYTE, BYTE, BYTE, BYTE, BYTE, BYTE, BYTE, BYTE, Bytes(3)]

  lemma EndSnoc(members: seq<Member>, m: Member)
    ensures End(members + [m]) == Aligned(End(members), m) + Size(m)
  {
    assert (members + [m])[..|members|] == members;
  }

  /** One member after another, without gaps when each is where it would be put anyway. */
  lemma NextOffset(members: seq<Member>, i: nat)
    requires i < |members|
    ensures End(members[..i + 1]) == OffsetOf(members, i) + Size(members[i])
  {
    EndSnoc(members[..i], members[i]);
    assert members[..i + 1] == members[..i] + [members[i]];
  }

  lemma {:induction false} BytesInARow(members: seq<Member>, i: nat, n: nat, at: nat)
    requires i + n <= |members| && End(members[..i]) == at
    requires forall k :: i <= k < i + n ==> members[k] == BYTE
    ensures End(members[..i + n]) == at + n
    ensures forall k :: i <= k < i + n ==> OffsetOf(members, k) == at + k - i
  {
    if n != 0 {
      BytesInARow(members, i, n - 1, at);
      NextOffset(members, i + n - 1);
    }
  }

  lemma Ch367Start()
    ensures OffsetOf(Ch367Io, 1) == 0xE8 && OffsetOf(Ch367Io, 4) == 0xEB && End(Ch367Io[..5]) == 0xEC
  {
    assert Ch367Io[..0] == [];
    NextOffset(Ch367Io, 0);
    BytesInARow(Ch367Io, 1, 4, 0xE8);
  }

  lemma IoBufEnds()
    ensures End(Ch367Io[..6]) == 0xF0
  {
    Ch367Start();
    NextOffset(Ch367Io, 5);
    assert Aligned(0xEC, Ch367Io[5]) == 0xEC;
  }

  lemma MemAddrEnds()
    ensures End(Ch367Io[..7]) == 0xF2
  {
    IoBufEnds();
    NextOffset(Ch367Io, 6);
    assert Aligned(0xF0, Ch367Io[6]) == 0xF0;
  }

  lemma Ch367Middle()
    ensures End(Ch367Io[..9]) == 0xF4
  {
    MemAddrEnds();
    BytesInARow(Ch367Io, 7, 2, 0xF2);
  }

  lemma Ch367End()
    ensures OffsetOf(Ch367Io, 10) == 0xF8 && OffsetOf(Ch367Io, 15) == 0xFD && OffsetOf(Ch367Io, 16) == 0xFE
    ensures End(Ch367Io) == 0x100
  {
    Ch367Middle();
    NextOffset(Ch367Io, 9);
    BytesInARow(Ch367Io, 10, 8, 0xF8);
    assert Ch367Io[..18] == Ch367Io;
  }

  /** The ports the driver uses on a CH367 or CH368 are the offsets of the members it names, and the
      structure fills the card's window. */
  lemma Ch367Registers()
    ensures OffsetOf(Ch367Io, 1) == PortIo.GPOR
    ensures OffsetOf(Ch367Io, 4) == PortIo.INTCR
    ensures OffsetOf(Ch367Io, 10) == PortIo.STATUS
    ensures OffsetOf(Ch367Io, 15) == PortIo.SPI_CTRL
    ensures OffsetOf(Ch367Io, 16) == PortIo.SPI_DATA
    ensures End(Ch367Io) == PortIo.WINDOW
  {
    Ch367Start();
    Ch367End();
  }

  /** A CH365's control register lies where the others have their status register. */
  lemma Ch365Registers()
    ensures OffsetOf(Ch365Io, 8) == PortIo.STATUS && End(Ch365Io) == PortIo.WINDOW
  {
    assert Ch365Io[..0] == [];
    NextOffset(Ch365Io, 0);
    NextOffset(Ch365Io, 1);
    BytesInARow(Ch365Io, 2, 11, 0xF2);
    NextOffset(Ch365Io, 13);
    assert Ch365Io[..14] == Ch365Io;
  }
}
