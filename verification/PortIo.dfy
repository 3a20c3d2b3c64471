/** Port space as the CH36x driver sees it, with the registers of one card that do not behave like plain
    memory, the activity on the card's SPI pins, and a record of every port access. */
module PortIo {

  const PORTS := 0x1_0000

  // Register offsets of a CH367/CH368 in its 256-port window.
  const WINDOW := 0x100
  const GPOR := 0xE8
  const INTCR := 0xEB
  const STATUS := 0xF8
  const SPI_CTRL := 0xFD
  const SPI_DATA := 0xFE

  const SCS: bv8 := 0x04

  /** What a logic analyser on the SPI pins records: chip select edges, and bytes passing through
      the SPI data register. */
  datatype Line = Fall | Rise | Put(b: bv8) | Get(b: bv8)

  /** One port access. What a read finds is not part of it. */
  datatype Access = In(port: nat) | Out(port: nat, value: bv8)

  /** The SPI output and control registers of one card, and every other port as plain bytes. `clock`
      counts the port accesses ever made; `log` lists those made since the record was started. */
  datatype Io = Io(gpor: bv8, ctrl: bv8, plain: seq<bv8>, clock: nat, pins: seq<Line>, log: seq<Access>)

  /** The card's surroundings. `base` is its I/O window. The access made at clock n finds `miso(n)`
      in the SPI data register; `holdsUp(n)` says that a write at clock n cannot pull the chip select
      line down, `holdsDown(n)` that it cannot raise it. */
  datatype Card = Card(base: nat, miso: nat -> bv8, holdsUp: nat -> bool, holdsDown: nat -> bool)

  predicate ValidCard(card: Card) { 0 < card.base <= PORTS - WINDOW }

  predicate Up(gpor: bv8) { gpor & SCS != 0 }

  // ------------------------------------------------------------ single accesses

  function Logged(io: Io, a: Access): Io { io.(clock := io.clock + 1, log := io.log + [a]) }

  function Read(io: Io, port: nat): Io { Logged(io, In(port)) }

  function ReadData(card: Card, io: Io): Io {
    Read(io, card.base + SPI_DATA).(pins := io.pins + [Get(card.miso(io.clock))])
  }

  function WriteData(card: Card, io: Io, value: bv8): Io {
    Logged(io, Out(card.base + SPI_DATA, value)).(pins := io.pins + [Put(value)])
  }

  function WriteCtrl(card: Card, io: Io, value: bv8): Io {
    Logged(io, Out(card.base + SPI_CTRL, value)).(ctrl := value)
  }

  /** What the output register contains after a write: the value, unless chip select is held where
      it is. */
  function Held(card: Card, io: Io, value: bv8): bv8 {
    if Up(io.gpor) && card.holdsUp(io.clock) then value | SCS
    else if !Up(io.gpor) && card.holdsDown(io.clock) then value & 0xfb
    else value
  }

  function Edge(was: bool, now: bool): seq<Line> {
    if was == now then [] else if was then [Fall] else [Rise]
  }

  function WriteGpor(card: Card, io: Io, value: bv8): Io {
    var held := Held(card, io, value);
    Logged(io, Out(card.base + GPOR, value)).(gpor := held, pins := io.pins + Edge(Up(io.gpor), Up(held)))
  }

  function WritePlain(io: Io, value: bv8, port: nat): Io
    requires port < |io.plain|
  {
    Logged(io, Out(port, value)).(plain := io.plain[port := value])
  }

  /** The registers that are not plain bytes. */
  predicate IsSpiPort(card: Card, port: nat) {
    port == card.base + GPOR || port == card.base + SPI_CTRL || port == card.base + SPI_DATA
  }

  /** Port space, addressed by port number as the driver does. */
  class Bus {
    const card: Card
    var io: Io

    ghost predicate Valid()
      reads this
    {
      ValidCard(card) && |io.plain| == PORTS
    }

    constructor (card: Card, io: Io)
      requires ValidCard(card) && |io.plain| == PORTS
      ensures Valid() && this.card == card && this.io == io
    {
      this.card := card;
      this.io := io;
    }

    method Inb(port: nat) returns (value: bv8)
      requires Valid() && port < PORTS
      modifies this
      ensures Valid()
      ensures port == card.base + GPOR ==> value == old(io.gpor) && io == Read(old(io), port)
      ensures port == card.base + SPI_CTRL ==> value == old(io.ctrl) && io == Read(old(io), port)
      ensures port == card.base + SPI_DATA ==> value == card.miso(old(io.clock)) && io == ReadData(card, old(io))
      ensures !IsSpiPort(card, port) ==> value == old(io.plain[port]) && io == Read(old(io), port)
    {
      if port == card.base + GPOR {
        value := io.gpor;
        io := Read(io, port);
      } else if port == card.base + SPI_CTRL {
        value := io.ctrl;
        io := Read(io, port);
      } else if port == card.base + SPI_DATA {
        value := card.miso(io.clock);
        io := ReadData(card, io);
      } else {
        value := io.plain[port];
        io := Read(io, port);
      }
    }

    method Outb(value: bv8, port: nat)
      requires Valid() && port < PORTS
      modifies this
      ensures Valid()
      ensures port == card.base + GPOR ==> io == WriteGpor(card, old(io), value)
      ensures port == card.base + SPI_CTRL ==> io == WriteCtrl(card, old(io), value)
      ensures port == card.base + SPI_DATA ==> io == WriteData(card, old(io), value)
      ensures !IsSpiPort(card, port) ==> io == WritePlain(old(io), value, port)
    {
      if port == card.base + GPOR {
        io := WriteGpor(card, io, value);
      } else if port == card.base + SPI_CTRL {
        io := WriteCtrl(card, io, value);
      } else if port == card.base + SPI_DATA {
        io := WriteData(card, io, value);
      } else {
        io := WritePlain(io, value, port);
      }
    }
  }
}
