/** What one SPI transfer of the 2021 driver does to port space, as functions. */
module SpiTransfer {
  import opened PortIo

  const FREQ: bv8 := 0x20
  const SLT_SDI: bv8 := 0x40
  const NEWTRAN: bv8 := 0x80
  const SDX_DIR: bv8 := 0x40
  const SDX: bv8 := 0x80
  const KEPT: bv8 := 0x39

  const ENOMEM := -12

  predicate Bit0(mode: nat) { mode % 2 == 1 }
  predicate Bit1(mode: nat) { mode / 2 % 2 == 1 }

  /** The control byte a transfer starts with. */
  function CtrlByte(mode: nat): bv8 {
    NEWTRAN | (if Bit0(mode) then FREQ else 0) | (if Bit1(mode) then SLT_SDI else 0)
  }

  lemma CtrlByteCases(mode: nat)
    ensures Bit0(mode) && Bit1(mode) ==> CtrlByte(mode) == NEWTRAN | FREQ | SLT_SDI
    ensures Bit0(mode) && !Bit1(mode) ==> CtrlByte(mode) == NEWTRAN | FREQ
    ensures !Bit0(mode) && Bit1(mode) ==> CtrlByte(mode) == NEWTRAN | SLT_SDI
    ensures !Bit0(mode) && !Bit1(mode) ==> CtrlByte(mode) == NEWTRAN
  {
  }

  /** `gpor` is the general output register as found; `ok` says that chip select went down. */
  datatype Started = Started(io: Io, gpor: bv8, ok: bool)

  function SetControl(card: Card, io: Io, mode: nat): Io {
    WriteCtrl(card, Read(io, card.base + SPI_CTRL), CtrlByte(mode))
  }

  /** Chip select is raised first if it was found down, then lowered and read back. */
  function Select(card: Card, io: Io): Started {
    var g := io.gpor;
    var found := Read(io, card.base + GPOR);
    var raised := if g & SCS == 0 then WriteGpor(card, found, g | SCS) else found;
    var lowered := WriteGpor(card, raised, (g & KEPT) | SDX_DIR);
    Started(Read(lowered, card.base + GPOR), g, lowered.gpor & SCS == 0)
  }

  function Start(card: Card, io: Io, mode: nat): Started {
    Select(card, SetControl(card, io, mode))
  }

  function PutAll(card: Card, io: Io, bytes: seq<bv8>): Io {
    if bytes == [] then io else WriteData(card, PutAll(card, io, bytes[..|bytes| - 1]), bytes[|bytes| - 1])
  }

  /** The bytes the card will deliver to the next n reads of the SPI data register. */
  function Incoming(card: Card, io: Io, n: nat): (r: seq<bv8>)
    ensures |r| == n
  {
    seq(n, k requires 0 <= k < n => card.miso(io.clock + k))
  }

  function GetAll(card: Card, io: Io, n: nat): (r: Io)
    ensures r.clock == io.clock + n
  {
    if n == 0 then io else ReadData(card, GetAll(card, io, n - 1))
  }

  /** The port that the write meant to turn the data line round really goes to: its value and port
      arguments are exchanged, so it lands among the lowest 0x3A ports of the machine. */
  function StrayPort(gpor: bv8): (p: nat)
    ensures p <= 0x39
  {
    (gpor & KEPT) as int
  }

  function StrayValue(card: Card): bv8 {
    ((card.base + GPOR) % 0x100) as bv8
  }

  function TurnRound(card: Card, io: Io, mode: nat, gpor: bv8): Io
    requires |io.plain| == PORTS
  {
    if Bit1(mode) then WritePlain(io, StrayValue(card), StrayPort(gpor)) else io
  }

  function Stop(card: Card, io: Io, g: bv8): Io {
    var freq := WriteCtrl(card, Read(io, card.base + SPI_CTRL), io.ctrl & FREQ);
    Read(WriteGpor(card, freq, (g & KEPT) | SDX | SCS), card.base + GPOR)
  }

  lemma {:induction false} PutAllKeeps(card: Card, io: Io, bytes: seq<bv8>)
    ensures var r := PutAll(card, io, bytes); r == io.(clock := r.clock, pins := r.pins, log := r.log)
  {
    if bytes != [] {
      PutAllKeeps(card, io, bytes[..|bytes| - 1]);
    }
  }

  lemma {:induction false} GetAllKeeps(card: Card, io: Io, n: nat)
    ensures var r := GetAll(card, io, n); r == io.(clock := r.clock, pins := r.pins, log := r.log)
  {
    if n != 0 {
      GetAllKeeps(card, io, n - 1);
    }
  }

  /** `got` holds the bytes read; a transfer that could not start has read none. */
  datatype Moved = Moved(io: Io, started: bool, got: seq<bv8>)

  /** Everything a started transfer does after chip select has gone down. */
  function Body(card: Card, io: Io, mode: nat, g: bv8, ibuf: seq<bv8>, olen: nat): (m: Moved)
    requires |io.plain| == PORTS
    ensures m.started && |m.got| == olen
  {
    PutAllKeeps(card, io, ibuf);
    var put := PutAll(card, io, ibuf);
    var turned := if olen != 0 then TurnRound(card, put, mode, g) else put;
    Moved(Stop(card, GetAll(card, turned, olen), g), true, Incoming(card, turned, olen))
  }

  function Transfer(card: Card, io: Io, mode: nat, ibuf: seq<bv8>, olen: nat): (m: Moved)
    requires |io.plain| == PORTS
    ensures m.started ==> |m.got| == olen
  {
    var s := Start(card, io, mode);
    if s.ok then Body(card, s.io, mode, s.gpor, ibuf, olen) else Moved(s.io, false, [])
  }

  lemma TransferKeepsPorts(card: Card, io: Io, mode: nat, ibuf: seq<bv8>, olen: nat)
    requires |io.plain| == PORTS
    ensures |Transfer(card, io, mode, ibuf, olen).io.plain| == PORTS
  {
    var s := Start(card, io, mode);
    if s.ok {
      PutAllKeeps(card, s.io, ibuf);
      var put := PutAll(card, s.io, ibuf);
      GetAllKeeps(card, if olen != 0 then TurnRound(card, put, mode, s.gpor) else put, olen);
    }
  }

  /** What the kernel's services do during one ioctl: whether the buffer could be had, and
      how many bytes each user-memory copy leaves uncopied. */
  datatype Fate = Fate(hasBuffer: bool, inLeft: nat, outLeft: nat)

  /** What the caller gets back: the return value, and the part of the output buffer written. */
  datatype Reply = Reply(ret: int, obuf: seq<bv8>)

  predicate Reaches(fate: Fate) { fate.hasBuffer && fate.inLeft == 0 }

  function StreamIo(card: Card, io: Io, mode: nat, ibuf: seq<bv8>, olen: nat, fate: Fate): (r: Io)
    requires |io.plain| == PORTS
    ensures |r.plain| == PORTS
  {
    TransferKeepsPorts(card, io, mode, ibuf, olen);
    if Reaches(fate) then Transfer(card, io, mode, ibuf, olen).io else io
  }

  function StreamReply(card: Card, io: Io, mode: nat, ibuf: seq<bv8>, olen: nat, fate: Fate): Reply
    requires |io.plain| == PORTS && fate.outLeft <= olen
  {
    if !fate.hasBuffer then Reply(ENOMEM, [])
    else if fate.inLeft != 0 then Reply(fate.inLeft, [])
    else
      var m := Transfer(card, io, mode, ibuf, olen);
      if !m.started then Reply(0, []) else Reply(fate.outLeft, m.got[..olen - fate.outLeft])
  }
}
