/** The 2021 driver's per-card record and the operations that drive the card's registers. */
module Ch36xDevice {
  import opened PortIo
  import opened SpiTransfer
  import opened InterruptModes
  import opened InterruptPorts

  class Ch36xDev {
    // Where the record lives, the card it is for, and the card's numbers.
    ghost const addr: nat
    const pdev: nat
    const chiptype: Chip
    const ioaddr: nat
    const minor: nat
    ghost const serial: nat

    var intmode: Mode
    var spimode: nat
    // Byte 0x42 of the card's configuration space, and the signals sent to its listeners.
    var config: bv8
    var signals: nat

    /** A zeroed record, filled in with what a probe finds out about the card. */
    constructor (ghost addr: nat, pdev: nat, chiptype: Chip, ioaddr: nat, minor: nat, ghost serial: nat, config: bv8)
      ensures this.addr == addr && this.pdev == pdev && this.chiptype == chiptype && this.ioaddr == ioaddr
      ensures this.minor == minor && this.serial == serial
      ensures intmode == INT_NONE && spimode == 0 && this.config == config && signals == 0
    {
      this.addr := addr;
      this.pdev := pdev;
      this.chiptype := chiptype;
      this.ioaddr := ioaddr;
      this.minor := minor;
      this.serial := serial;
      intmode := INT_NONE;
      spimode := 0;
      this.config := config;
      signals := 0;
    }

    ghost predicate Drives(bus: Bus)
      reads bus
    {
      bus.Valid() && bus.card.base == ioaddr
    }

    /** The card's interrupt registers are plain ports of this bus. */
    ghost predicate OnBus(bus: Bus)
      reads bus
    {
      && bus.Valid() && ioaddr <= PORTS - WINDOW
      && !IsSpiPort(bus.card, ioaddr + INTCR) && !IsSpiPort(bus.card, ioaddr + STATUS)
    }

    // ---------------------------------------------------------- interrupts

    /** The card's interrupt registers and what the driver remembers of them. */
    ghost function Registers(bus: Bus): Regs
      reads this, bus
      requires OnBus(bus)
    {
      RegsIn(bus.io, ioaddr, config, intmode)
    }

    /** The handler's test of the status byte it has read. */
    method IsOurs(intval: bv8) returns (ours: bool)
      ensures ours <==> Claims(chiptype, intval, intmode)
    {
      if chiptype == CH365 {
        return intval & INTA != 0;
      }
      if intmode == INT_RISING || intmode == INT_FALLING {
        return intval & INTA != 0;
      } else if intmode == INT_HIGH {
        return intval & INTS != 0;
      } else if intmode == INT_LOW {
        return intval & INTS == 0;
      }
      return false;
    }

    /** The interrupt handler: claims the interrupt or leaves everything as it was. */
    method Isr(bus: Bus) returns (handled: bool)
      requires OnBus(bus)
      modifies bus, `signals
      ensures OnBus(bus)
      ensures handled <==> Claims(chiptype, old(bus.io.plain[ioaddr + STATUS]), intmode)
      ensures bus.io == IsrIo(chiptype, old(bus.io), ioaddr, intmode)
      ensures OnlyInterruptRegisters(old(bus.io), bus.io, ioaddr)
      ensures Registers(bus) == AfterIsr(chiptype, old(Registers(bus)))
      ensures signals == old(signals) + if handled then 1 else 0
    {
      ghost var before := bus.io;
      var intval := bus.Inb(ioaddr + STATUS);
      handled := IsOurs(intval);
      if handled {
        signals := signals + 1;
        bus.Outb(intval & 0xfb, ioaddr + STATUS);
      }
      IsrRegisters(chiptype, before, ioaddr, config, intmode);
    }

    method AcknowledgeLatch(bus: Bus)
      requires OnBus(bus)
      modifies bus
      ensures OnBus(bus) && bus.io == ClearLatch(old(bus.io), ioaddr)
    {
      var intval := bus.Inb(ioaddr + STATUS);
      bus.Outb(intval & 0xfb, ioaddr + STATUS);
    }

    /** The switch over the mode; any other number selects nothing. */
    static method TriggerBits(mode: Mode) returns (known: bool, bits: bv8)
      ensures known <==> RealMode(mode)
      ensures known ==> bits == Trigger(mode)
    {
      match mode {
        case 1 => return true, 0xe0;
        case 2 => return true, 0xe4;
        case 3 => return true, 0xe8;
        case 4 => return true, 0xec;
        case _ => return false, 0;
      }
    }

    method SelectTrigger(bus: Bus, mode: Mode)
      requires OnBus(bus)
      modifies bus
      ensures OnBus(bus)
      ensures bus.io == TriggerIo(old(bus.io), ioaddr, mode)
    {
      var ctrlval := bus.Inb(ioaddr + INTCR);
      var known, bits := TriggerBits(mode);
      if known {
        bus.Outb(ctrlval | bits, ioaddr + INTCR);
      }
    }

    method EnableInterrupts(bus: Bus, mode: Mode)
      requires OnBus(bus)
      modifies bus, `config, `intmode
      ensures OnBus(bus)
      ensures bus.io == EnableIo(chiptype, old(bus.io), ioaddr, mode)
      ensures OnlyInterruptRegisters(old(bus.io), bus.io, ioaddr)
      ensures Registers(bus) == Enable(chiptype, old(Registers(bus)), mode)
    {
      EnableRegisters(chiptype, bus.io, ioaddr, config, intmode, mode);
      ModeChangePorts(chiptype, bus.io, ioaddr, mode);
      if chiptype == CH365 {
        config := config | CH365_ENABLE;
      } else {
        SelectTrigger(bus, mode);
        var ctrlval := bus.Inb(ioaddr + INTCR);
        bus.Outb(ctrlval | INT_ENABLE, ioaddr + INTCR);
        AcknowledgeLatch(bus);
      }
      intmode := mode;
    }

    method DisableInterrupts(bus: Bus)
      requires OnBus(bus)
      modifies bus, `config, `intmode
      ensures OnBus(bus)
      ensures bus.io == DisableIo(chiptype, old(bus.io), ioaddr)
      ensures OnlyInterruptRegisters(old(bus.io), bus.io, ioaddr)
      ensures Registers(bus) == Disable(chiptype, old(Registers(bus)))
    {
      ghost var before, was := bus.io, config;
      DisableRegisters(chiptype, before, ioaddr, was, intmode);
      if chiptype == CH365 {
        config := config & 0x7f;
      } else {
        var ctrlval := bus.Inb(ioaddr + INTCR);
        bus.Outb(ctrlval & 0xf1, ioaddr + INTCR);
        AcknowledgeLatch(bus);
      }
      intmode := INT_NONE;
      ModeChangePorts(chiptype, before, ioaddr, INT_NONE);
    }

    // ---------------------------------------------------------- SPI

    method StartSpiDataIn(bus: Bus, regGPOR: bv8)
      requires Drives(bus)
      modifies bus
      ensures Drives(bus) && bus.io == TurnRound(bus.card, old(bus.io), spimode, regGPOR)
    {
      if spimode / 2 % 2 == 1 {
        bus.Outb(((ioaddr + GPOR) % 0x100) as bv8, (regGPOR & 0x39) as int);
      }
    }

    method SetSpiControl(bus: Bus)
      requires Drives(bus)
      modifies bus
      ensures Drives(bus) && bus.io == SetControl(bus.card, old(bus.io), spimode)
    {
      CtrlByteCases(spimode);
      var regval := bus.Inb(ioaddr + SPI_CTRL);
      if spimode % 2 == 1 {
        if spimode / 2 % 2 == 1 {
          bus.Outb(NEWTRAN | FREQ | SLT_SDI, ioaddr + SPI_CTRL);
        } else {
          bus.Outb(NEWTRAN | FREQ, ioaddr + SPI_CTRL);
        }
      } else {
        if spimode / 2 % 2 == 1 {
          bus.Outb(NEWTRAN | SLT_SDI, ioaddr + SPI_CTRL);
        } else {
          bus.Outb(NEWTRAN, ioaddr + SPI_CTRL);
        }
      }
    }

    method StartSpi(bus: Bus) returns (ret: int, regGPOR: bv8)
      requires Drives(bus)
      modifies bus
      ensures Drives(bus)
      ensures var s := Start(bus.card, old(bus.io), spimode);
              bus.io == s.io && regGPOR == s.gpor && ret == if s.ok then 0 else -1
    {
      SetSpiControl(bus);
      regGPOR := bus.Inb(ioaddr + GPOR);
      if regGPOR & SCS == 0 {
        bus.Outb(regGPOR | SCS, ioaddr + GPOR);
      }
      bus.Outb((regGPOR & 0x39) | SDX_DIR, ioaddr + GPOR);
      var regval := bus.Inb(ioaddr + GPOR);
      ret := if regval & SCS != 0 then -1 else 0;
    }

    method StopSpi(bus: Bus, regGPOR: bv8) returns (ret: int)
      requires Drives(bus)
      modifies bus
      ensures Drives(bus) && bus.io == Stop(bus.card, old(bus.io), regGPOR)
      ensures ret == if Up(bus.io.gpor) then 0 else -1
    {
      var regval := bus.Inb(ioaddr + SPI_CTRL);
      bus.Outb(regval & FREQ, ioaddr + SPI_CTRL);
      bus.Outb((regGPOR & 0x39) | SDX | SCS, ioaddr + GPOR);
      regval := bus.Inb(ioaddr + GPOR);
      ret := if regval & SCS == 0 then -1 else 0;
    }

    /** One SPI transfer. The one kernel buffer first holds the bytes to send and is then overwritten
        by the bytes received; `ret` may be zero although nothing was transferred. */
    method StreamSpi(bus: Bus, ibuf: seq<bv8>, olen: nat, fate: Fate) returns (ret: int, obuf: seq<bv8>)
      requires Drives(bus)
      requires fate.hasBuffer ==> |ibuf| < 0x8000_0000 && olen < 0x8000_0000
      requires fate.inLeft <= |ibuf| && fate.outLeft <= olen
      modifies bus
      ensures Drives(bus) && bus.io == StreamIo(bus.card, old(bus.io), spimode, ibuf, olen, fate)
      ensures Reply(ret, obuf) == StreamReply(bus.card, old(bus.io), spimode, ibuf, olen, fate)
    {
      obuf := [];
      if !fate.hasBuffer {
        return ENOMEM, obuf;
      }
      var buf := new bv8[if |ibuf| > olen then |ibuf| else olen];
      forall k | 0 <= k < |ibuf| - fate.inLeft {
        buf[k] := ibuf[k];
      }
      ret := fate.inLeft;
      if ret != 0 {
        return;
      }
      assert buf[..|ibuf|] == ibuf;
      var started := Exchange(bus, buf, |ibuf|, olen);
      if started {
        ret := fate.outLeft;
        obuf := buf[..olen - fate.outLeft];
        assert obuf == buf[..olen][..olen - fate.outLeft];
      }
    }

    /** The part of a transfer between the two user-memory copies. */
    method Exchange(bus: Bus, buf: array<bv8>, ilen: nat, olen: nat) returns (started: bool)
      requires Drives(bus) && ilen <= buf.Length && olen <= buf.Length
      modifies bus, buf
      ensures Drives(bus)
      ensures var m := Transfer(bus.card, old(bus.io), spimode, old(buf[..ilen]), olen);
              bus.io == m.io && started == m.started && (started ==> buf[..olen] == m.got)
    {
      var failed, regGPOR := StartSpi(bus);
      if failed != 0 {
        return false;
      }
      SendAll(bus, buf, ilen);
      if olen != 0 {
        StartSpiDataIn(bus, regGPOR);
        ReceiveAll(bus, buf, olen);
      }
      var ignored := StopSpi(bus, regGPOR);
      return true;
    }

    method SendAll(bus: Bus, buf: array<bv8>, ilen: nat)
      requires Drives(bus) && ilen <= buf.Length
      modifies bus
      ensures Drives(bus) && bus.io == PutAll(bus.card, old(bus.io), buf[..ilen])
    {
      ghost var before := bus.io;
      for i := 0 to ilen
        invariant Drives(bus) && bus.io == PutAll(bus.card, before, buf[..i])
      {
        assert buf[..i + 1][..i] == buf[..i];
        bus.Outb(buf[i], ioaddr + SPI_DATA);
      }
    }

    method ReceiveAll(bus: Bus, buf: array<bv8>, olen: nat)
      requires Drives(bus) && olen <= buf.Length
      modifies bus, buf
      ensures Drives(bus) && bus.io == GetAll(bus.card, old(bus.io), olen)
      ensures buf[..olen] == Incoming(bus.card, old(bus.io), olen)
    {
      ghost var before := bus.io;
      for i := 0 to olen
        invariant Drives(bus) && bus.io == GetAll(bus.card, before, i)
        invariant buf[..i] == Incoming(bus.card, before, i)
      {
        buf[i] := bus.Inb(ioaddr + SPI_DATA);
      }
    }
  }
}
