/** The interrupt operations as sequences of port accesses, and the registers they amount to. */
module InterruptPorts {
  import opened PortIo
  import opened InterruptModes

  ghost predicate InPorts(io: Io, base: nat) {
    |io.plain| == PORTS && base <= PORTS - WINDOW
  }

  /** Read the status register, write it back with the latch cleared. */
  function ClearLatch(io: Io, base: nat): (r: Io)
    requires InPorts(io, base)
    ensures InPorts(r, base)
  {
    WritePlain(Read(io, base + STATUS), ClearInta(io.plain[base + STATUS]), base + STATUS)
  }

  /** Read the control register, write it back with some bits added. */
  function OrControl(io: Io, base: nat, bits: bv8): (r: Io)
    requires InPorts(io, base)
    ensures InPorts(r, base)
  {
    WritePlain(Read(io, base + INTCR), io.plain[base + INTCR] | bits, base + INTCR)
  }

  /** A mode that is none of the four is read for but not written. */
  function TriggerIo(io: Io, base: nat, mode: Mode): (r: Io)
    requires InPorts(io, base)
    ensures InPorts(r, base)
  {
    if RealMode(mode) then OrControl(io, base, Trigger(mode)) else Read(io, base + INTCR)
  }

  function EnableIo(chip: Chip, io: Io, base: nat, mode: Mode): (r: Io)
    requires InPorts(io, base)
    ensures InPorts(r, base)
  {
    if chip == CH365 then io
    else ClearLatch(OrControl(TriggerIo(io, base, mode), base, INT_ENABLE), base)
  }

  function DisableIo(chip: Chip, io: Io, base: nat): (r: Io)
    requires InPorts(io, base)
    ensures InPorts(r, base)
  {
    if chip == CH365 then io
    else ClearLatch(WritePlain(Read(io, base + INTCR), io.plain[base + INTCR] & 0xf1, base + INTCR), base)
  }

  function IsrIo(chip: Chip, io: Io, base: nat, intmode: Mode): (r: Io)
    requires InPorts(io, base)
    ensures InPorts(r, base)
  {
    if Claims(chip, io.plain[base + STATUS], intmode) then ClearLatch(io, base) else Read(io, base + STATUS)
  }

  /** The card's interrupt registers in a state of port space. */
  function RegsIn(io: Io, base: nat, config: bv8, intmode: Mode): Regs
    requires InPorts(io, base)
  {
    Regs(io.plain[base + INTCR], io.plain[base + STATUS], config, intmode)
  }

  /** Nothing but the two interrupt registers differs, apart from the record of accesses. */
  predicate OnlyInterruptRegisters(before: Io, after: Io, base: nat) {
    && |after.plain| == |before.plain|
    && (forall p :: 0 <= p < |before.plain| && p != base + INTCR && p != base + STATUS ==>
          after.plain[p] == before.plain[p])
    && after == before.(plain := after.plain, clock := after.clock, log := after.log)
  }

  /** Enabling and disabling touch no port but the two interrupt registers. */
  lemma ModeChangePorts(chip: Chip, io: Io, base: nat, mode: Mode)
    requires InPorts(io, base)
    ensures OnlyInterruptRegisters(io, EnableIo(chip, io, base, mode), base)
    ensures OnlyInterruptRegisters(io, DisableIo(chip, io, base), base)
    ensures forall p :: 0 <= p < |io.plain| && p != base + 0xEB && p != base + 0xF8 ==>
              EnableIo(chip, io, base, mode).plain[p] == io.plain[p] == DisableIo(chip, io, base).plain[p]
  {
  }

  lemma TriggerRegisters(io: Io, base: nat, mode: Mode)
    requires InPorts(io, base)
    ensures var after := TriggerIo(io, base, mode);
            && InPorts(after, base)
            && after.plain[base + INTCR] == io.plain[base + INTCR] | Trigger(mode)
            && after.plain[base + STATUS] == io.plain[base + STATUS]
  {
    if !RealMode(mode) {
      assert io.plain[base + INTCR] | 0 == io.plain[base + INTCR];
    }
  }

  lemma EnableFromTrigger(io: Io, base: nat)
    requires InPorts(io, base)
    ensures var after := ClearLatch(OrControl(io, base, INT_ENABLE), base);
            && after.plain[base + INTCR] == io.plain[base + INTCR] | INT_ENABLE
            && after.plain[base + STATUS] == ClearInta(io.plain[base + STATUS])
  {
  }

  lemma EnableRegisters(chip: Chip, io: Io, base: nat, config: bv8, intmode: Mode, mode: Mode)
    requires InPorts(io, base)
    ensures RegsIn(EnableIo(chip, io, base, mode), base, if chip == CH365 then config | CH365_ENABLE else config, mode)
            == Enable(chip, RegsIn(io, base, config, intmode), mode)
  {
    TriggerRegisters(io, base, mode);
    EnableFromTrigger(TriggerIo(io, base, mode), base);
  }

  lemma DisableRegisters(chip: Chip, io: Io, base: nat, config: bv8, intmode: Mode)
    requires InPorts(io, base)
    ensures RegsIn(DisableIo(chip, io, base), base, if chip == CH365 then config & 0x7f else config, INT_NONE)
            == Disable(chip, RegsIn(io, base, config, intmode))
  {
  }

  lemma IsrRegisters(chip: Chip, io: Io, base: nat, config: bv8, intmode: Mode)
    requires InPorts(io, base)
    ensures var after := IsrIo(chip, io, base, intmode);
            && OnlyInterruptRegisters(io, after, base)
            && RegsIn(after, base, config, intmode) == AfterIsr(chip, RegsIn(io, base, config, intmode))
  {
  }

  // ------------------------------------------------------------ every access, in order

  lemma TriggerAccesses(io: Io, base: nat, mode: Mode)
    requires InPorts(io, base)
    ensures TriggerIo(io, base, mode).log
            == io.log + [In(base + 0xEB)]
               + if 1 <= mode <= 4 then [Out(base + 0xEB, io.plain[base + 0xEB] | Trigger(mode))] else []
  {
    if RealMode(mode) {
      OrControlAccesses(io, base, Trigger(mode));
    } else {
      assert TriggerIo(io, base, mode) == Read(io, base + INTCR);
    }
  }

  lemma OrControlAccesses(io: Io, base: nat, bits: bv8)
    requires InPorts(io, base)
    ensures OrControl(io, base, bits).log
            == io.log + [In(base + 0xEB)] + [Out(base + 0xEB, io.plain[base + 0xEB] | bits)]
    ensures OrControl(io, base, bits).plain[base + 0xF8] == io.plain[base + 0xF8]
  {
  }

  lemma ClearLatchAccesses(io: Io, base: nat)
    requires InPorts(io, base)
    ensures ClearLatch(io, base).log
            == io.log + [In(base + 0xF8), Out(base + 0xF8, io.plain[base + 0xF8] & 0xfb)]
  {
  }

  /** Enabling selects the mode in one read and write of the control register, unless it is none of
      the four, enables in another, and then clears the latch. */
  lemma {:induction false} EnableAccesses(chip: Chip, io: Io, base: nat, mode: Mode)
    requires InPorts(io, base) && chip != CH365
    ensures var intcr, status := io.plain[base + 0xEB], io.plain[base + 0xF8];
            EnableIo(chip, io, base, mode).log
            == io.log + [In(base + 0xEB)]
               + (if 1 <= mode <= 4 then [Out(base + 0xEB, intcr | Trigger(mode))] else [])
               + [In(base + 0xEB)] + [Out(base + 0xEB, (intcr | Trigger(mode)) | 0x02)]
               + [In(base + 0xF8), Out(base + 0xF8, status & 0xfb)]
  {
    TriggerRegisters(io, base, mode);
    TriggerAccesses(io, base, mode);
    var selected := TriggerIo(io, base, mode);
    OrControlAccesses(selected, base, 0x02);
    ClearLatchAccesses(OrControl(selected, base, 0x02), base);
  }

  lemma DisableAccesses(chip: Chip, io: Io, base: nat)
    requires InPorts(io, base) && chip != CH365
    ensures var intcr, status := io.plain[base + 0xEB], io.plain[base + 0xF8];
            DisableIo(chip, io, base).log
            == io.log + [In(base + 0xEB), Out(base + 0xEB, intcr & 0xf1)]
               + [In(base + 0xF8), Out(base + 0xF8, status & 0xfb)]
  {
  }

  /** The handler reads once, and writes only if it claims. On a CH365 mode changes touch no port. */
  lemma IsrAccesses(chip: Chip, io: Io, base: nat, intmode: Mode)
    requires InPorts(io, base)
    ensures var status := io.plain[base + 0xF8];
            IsrIo(chip, io, base, intmode).log
            == io.log + [In(base + 0xF8)]
               + if Claims(chip, status, intmode) then [Out(base + 0xF8, status & 0xfb)] else []
    ensures EnableIo(CH365, io, base, intmode) == io && DisableIo(CH365, io, base) == io
  {
  }
}
