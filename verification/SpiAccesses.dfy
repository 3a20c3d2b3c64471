/** Every port access of an SPI transfer, in order. */
module SpiAccesses {
  import opened PortIo
  import opened SpiTransfer
  import opened SpiFraming
  import opened SpiRuns

  /** The two mode bits choose among four control bytes, and the second alone decides whether the
      data line is to be turned round. */
  lemma {:induction false} ModeBits(card: Card, io: Io, mode: nat, g: bv8)
    requires |io.plain| == PORTS
    ensures CtrlByte(mode) == [0x80, 0xa0, 0xc0, 0xe0][mode % 4]
    ensures TurnRound(card, io, mode, g) == io <==> mode % 4 < 2
  {
    CtrlByteCases(mode);
    ModeCases(mode);
    if Bit1(mode) {
      assert |TurnRound(card, io, mode, g).log| == |io.log| + 1;
    }
  }

  lemma ModeCases(mode: nat)
    ensures Bit0(mode) <==> mode % 4 == 1 || mode % 4 == 3
    ensures Bit1(mode) <==> mode % 4 == 2 || mode % 4 == 3
  {
  }

  function PutAccesses(port: nat, bytes: seq<bv8>): (r: seq<Access>)
    ensures |r| == |bytes| && forall i :: 0 <= i < |bytes| ==> r[i] == Out(port, bytes[i])
  {
    seq(|bytes|, i requires 0 <= i < |bytes| => Out(port, bytes[i]))
  }

  function GetAccesses(port: nat, n: nat): (r: seq<Access>)
    ensures |r| == n && forall i :: 0 <= i < n ==> r[i] == In(port)
  {
    seq(n, _ => In(port))
  }

  lemma {:induction false} PutsLogged(card: Card, io: Io, bytes: seq<bv8>)
    ensures PutAll(card, io, bytes).log == io.log + PutAccesses(card.base + 0xFE, bytes)
  {
    if bytes != [] {
      var last := |bytes| - 1;
      PutsLogged(card, io, bytes[..last]);
      assert PutAccesses(card.base + 0xFE, bytes)
        == PutAccesses(card.base + 0xFE, bytes[..last]) + [Out(card.base + 0xFE, bytes[last])];
    }
  }

  lemma {:induction false} GetsLogged(card: Card, io: Io, n: nat)
    ensures GetAll(card, io, n).log == io.log + GetAccesses(card.base + 0xFE, n)
  {
    if n != 0 {
      GetsLogged(card, io, n - 1);
      assert GetAccesses(card.base + 0xFE, n) == GetAccesses(card.base + 0xFE, n - 1) + [In(card.base + 0xFE)];
    }
  }

  lemma SetControlAccesses(card: Card, io: Io, mode: nat)
    ensures SetControl(card, io, mode).log
            == io.log + [In(card.base + 0xFD), Out(card.base + 0xFD, CtrlByte(mode))]
  {
  }

  lemma SelectAccesses(card: Card, io: Io)
    ensures var b, g := card.base, io.gpor;
            Select(card, io).io.log
            == io.log + [In(b + 0xE8)] + (if g & 0x04 == 0 then [Out(b + 0xE8, g | 0x04)] else [])
               + [Out(b + 0xE8, (g & 0x39) | 0x40), In(b + 0xE8)]
  {
  }

  lemma ControlByte(mode: nat)
    ensures CtrlByte(mode) == [0x80, 0xa0, 0xc0, 0xe0][mode % 4]
  {
    CtrlByteCases(mode);
    ModeCases(mode);
  }

  /** A start reads and writes the control register, reads the output register, raises chip select if
      it is down, lowers it, and reads back. */
  lemma StartAccesses(card: Card, io: Io, mode: nat)
    ensures var b, g := card.base, io.gpor;
            Start(card, io, mode).io.log
            == io.log
               + [In(b + 0xFD), Out(b + 0xFD, [0x80, 0xa0, 0xc0, 0xe0][mode % 4])]
               + [In(b + 0xE8)] + (if g & 0x04 == 0 then [Out(b + 0xE8, g | 0x04)] else [])
               + [Out(b + 0xE8, (g & 0x39) | 0x40), In(b + 0xE8)]
  {
    ControlByte(mode);
    SetControlAccesses(card, io, mode);
    SelectAccesses(card, SetControl(card, io, mode));
  }

  /** The write meant to turn the data line round. */
  lemma TurnRoundAccess(card: Card, io: Io, mode: nat, g: bv8)
    requires |io.plain| == PORTS
    ensures TurnRound(card, io, mode, g).log
            == io.log + if mode % 4 < 2 then []
                        else [Out((g & 0x39) as int, ((card.base + 0xE8) % 0x100) as bv8)]
  {
    ModeCases(mode);
    if Bit1(mode) {
      assert TurnRound(card, io, mode, g).log == io.log + [Out(StrayPort(g), StrayValue(card))];
    }
  }

  /** A stop keeps the clock bit of the control register, and deselects. */
  lemma StopAccesses(card: Card, io: Io, g: bv8)
    ensures var b := card.base;
            Stop(card, io, g).log
            == io.log + [In(b + 0xFD), Out(b + 0xFD, io.ctrl & 0x20), Out(b + 0xE8, (g & 0x39) | 0x84), In(b + 0xE8)]
  {
    OutputBits(g);
  }

  /** What a transfer does between start and stop, and the state it stops from. */
  lemma MovedAccesses(card: Card, io: Io, mode: nat, g: bv8, ibuf: seq<bv8>, olen: nat) returns (t: Io)
    requires |io.plain| == PORTS
    ensures Body(card, io, mode, g, ibuf, olen).io == Stop(card, t, g) && t.ctrl == io.ctrl
    ensures var b := card.base;
            t.log
            == io.log + PutAccesses(b + 0xFE, ibuf)
               + (if olen == 0 || mode % 4 < 2 then [] else [Out((g & 0x39) as int, ((b + 0xE8) % 0x100) as bv8)])
               + GetAccesses(b + 0xFE, olen)
  {
    PutsLogged(card, io, ibuf);
    PutAllKeeps(card, io, ibuf);
    var put := PutAll(card, io, ibuf);
    var turned := put;
    if olen != 0 {
      TurnRoundAccess(card, put, mode, g);
      turned := TurnRound(card, put, mode, g);
    }
    GetsLogged(card, turned, olen);
    GetAllKeeps(card, turned, olen);
    t := GetAll(card, turned, olen);
  }

  /** A transfer that starts: after the start, the bytes to send, the turn-round if there is something
      to receive, the reads, and the stop. One that cannot start makes no access after its start. */
  lemma TransferAccesses(card: Card, io: Io, mode: nat, ibuf: seq<bv8>, olen: nat)
    requires |io.plain| == PORTS
    ensures var m := Transfer(card, io, mode, ibuf, olen);
            var b, g, started := card.base, io.gpor, Start(card, io, mode).io.log;
            m.io.log
            == if !m.started then started
               else started + PutAccesses(b + 0xFE, ibuf)
                    + (if olen == 0 || mode % 4 < 2 then [] else [Out((g & 0x39) as int, ((b + 0xE8) % 0x100) as bv8)])
                    + GetAccesses(b + 0xFE, olen)
                    + [In(b + 0xFD), Out(b + 0xFD, if mode % 2 == 1 then 0x20 else 0),
                       Out(b + 0xE8, (g & 0x39) | 0x84), In(b + 0xE8)]
  {
    var s := Start(card, io, mode);
    if s.ok {
      var t := MovedAccesses(card, s.io, mode, s.gpor, ibuf, olen);
      StopAccesses(card, t, s.gpor);
      ClockBit(card, io, mode);
    }
  }

  lemma ClockBit(card: Card, io: Io, mode: nat)
    ensures Start(card, io, mode).io.ctrl & 0x20 == if mode % 2 == 1 then 0x20 else 0
  {
    ControlBits(mode);
    assert Start(card, io, mode).io.ctrl == CtrlByte(mode);
  }
}
