/** The interrupt registers of one card and the driver's memory of the trigger mode: what each
    operation does to them, and what any sequence of mode changes leaves. */
module InterruptModes {

  datatype Chip = CH365 | CH367 | CH368

  const INT_NONE := 0
  const INT_LOW := 1
  const INT_HIGH := 2
  const INT_RISING := 3
  const INT_FALLING := 4

  const INTA: bv8 := 0x04         // status: interrupt latched
  const INTS: bv8 := 0x08         // status: level of the interrupt pin
  const INT_ENABLE: bv8 := 0x02   // control: global enable
  const POLAR: bv8 := 0x04        // control: polarity
  const TYPE: bv8 := 0x08         // control: edge rather than level
  const CH365_ENABLE: bv8 := 0x80 // configuration space of the CH365

  const ENUM := 0x1_0000_0000

  /** A mode as an enum holds it. */
  type Mode = n: nat | n < ENUM

  /** `config` is byte 0x42 of PCI configuration space, which only the CH365 uses for interrupts. */
  datatype Regs = Regs(intcr: bv8, status: bv8, config: bv8, intmode: Mode)

  /** The bits an enable call ORs into the control register for its mode. */
  function Trigger(mode: Mode): bv8 {
    if mode == INT_LOW then 0xe0
    else if mode == INT_HIGH then 0xe4
    else if mode == INT_RISING then 0xe8
    else if mode == INT_FALLING then 0xec
    else 0
  }

  function ClearInta(status: bv8): bv8 { status & 0xfb }

  function Enable(chip: Chip, r: Regs, mode: Mode): Regs {
    if chip == CH365 then r.(config := r.config | CH365_ENABLE, intmode := mode)
    else r.(intcr := (r.intcr | Trigger(mode)) | INT_ENABLE, status := ClearInta(r.status), intmode := mode)
  }

  function Disable(chip: Chip, r: Regs): Regs {
    if chip == CH365 then r.(config := r.config & 0x7f, intmode := INT_NONE)
    else r.(intcr := r.intcr & 0xf1, status := ClearInta(r.status), intmode := INT_NONE)
  }

  /** Whether the handler claims an interrupt of this card. */
  predicate Claims(chip: Chip, status: bv8, intmode: Mode) {
    if chip == CH365 || intmode == INT_RISING || intmode == INT_FALLING then status & INTA != 0
    else if intmode == INT_HIGH then status & INTS != 0
    else if intmode == INT_LOW then status & INTS == 0
    else false
  }

  function AfterIsr(chip: Chip, r: Regs): Regs {
    if Claims(chip, r.status, r.intmode) then r.(status := ClearInta(r.status)) else r
  }

  // ------------------------------------------------------------ bit by bit

  predicate BitTwo(b: bv8) { b as int / 4 % 2 == 1 }

  predicate BitThree(b: bv8) { b as int / 8 % 2 == 1 }

  lemma BitTwoMeans(b: bv8)
    ensures BitTwo(b) <==> b & 0x04 != 0
    ensures BitTwo(b) <==> b & 0xfb != b
  {
  }

  lemma BitThreeMeans(b: bv8)
    ensures BitThree(b) <==> b & 0x08 != 0
  {
  }

  /** Who is claimed: on a CH365, and in the edge modes 3 and 4, exactly a card on which acknowledging
      changes something, that is, whose bit 2 is set; in mode 2 one whose bit 3 is set, in mode 1 one
      whose bit 3 is not, and in any other mode none. */
  lemma WhoIsClaimed(chip: Chip, status: bv8, intmode: Mode)
    ensures chip == CH365 || intmode == 3 || intmode == 4 ==>
              (Claims(chip, status, intmode) <==> BitTwo(status))
              && (Claims(chip, status, intmode) <==> ClearInta(status) != status)
    ensures chip != CH365 && intmode == 2 ==> (Claims(chip, status, intmode) <==> BitThree(status))
    ensures chip != CH365 && intmode == 1 ==> (Claims(chip, status, intmode) <==> !BitThree(status))
    ensures chip != CH365 && (intmode == 0 || intmode > 4) ==> !Claims(chip, status, intmode)
  {
    BitTwoMeans(status);
    BitThreeMeans(status);
  }

  /** What each mode asks for: 0xe0, and 4 more for each mode after the first. */
  lemma TriggersInSteps(mode: Mode)
    ensures 1 <= mode <= 4 ==> Trigger(mode) as int == 0xe0 + 4 * (mode - 1)
    ensures mode == 0 || mode > 4 ==> Trigger(mode) == 0
  {
  }

  lemma OrTwice(v: bv8)
    ensures (v | 0xe0) | 0x02 == v | 0xe2 && (v | 0xe4) | 0x02 == v | 0xe6
    ensures (v | 0xe8) | 0x02 == v | 0xea && (v | 0xec) | 0x02 == v | 0xee
    ensures v | 0 == v
  {
  }

  /** What enabling writes to each register, and that it leaves the others alone. */
  lemma WhatEnableWrites(chip: Chip, r: Regs, mode: Mode)
    ensures chip == CH365 ==> Enable(chip, r, mode) == Regs(r.intcr, r.status, r.config | 0x80, mode)
    ensures var e := Enable(chip, r, mode);
            chip != CH365 ==>
              && e == Regs(e.intcr, r.status & 0xfb, r.config, mode)
              && (mode == 1 ==> e.intcr == r.intcr | 0xe2)
              && (mode == 2 ==> e.intcr == r.intcr | 0xe6)
              && (mode == 3 ==> e.intcr == r.intcr | 0xea)
              && (mode == 4 ==> e.intcr == r.intcr | 0xee)
              && (mode == 0 || mode > 4 ==> e.intcr == r.intcr | 0x02)
  {
    OrTwice(r.intcr);
  }

  /** The same for disabling and for the handler. */
  lemma WhatTheOthersWrite(chip: Chip, r: Regs)
    ensures Disable(chip, r)
            == if chip == CH365 then Regs(r.intcr, r.status, r.config & 0x7f, 0)
               else Regs(r.intcr & 0xf1, r.status & 0xfb, r.config, 0)
    ensures AfterIsr(chip, r)
            == if Claims(chip, r.status, r.intmode) then Regs(r.intcr, r.status & 0xfb, r.config, r.intmode) else r
  {
  }

  // ------------------------------------------------------------ runs of mode changes

  datatype Op = On(mode: Mode) | Off

  function Apply(chip: Chip, r: Regs, op: Op): Regs {
    match op
    case On(m) => Enable(chip, r, m)
    case Off => Disable(chip, r)
  }

  function Run(chip: Chip, r: Regs, ops: seq<Op>): Regs {
    if ops == [] then r else Apply(chip, Run(chip, r, ops[..|ops| - 1]), ops[|ops| - 1])
  }

  /** The call at position i enables, and no disable has come since. */
  predicate StillOn(ops: seq<Op>, i: nat) {
    i < |ops| && forall j :: i <= j < |ops| ==> ops[j].On?
  }

  predicate NeverOff(ops: seq<Op>) {
    forall j :: 0 <= j < |ops| ==> ops[j].On?
  }

  /** Some call since the last disable asked for this bit, or it was there before the first call and
      nothing has been disabled. */
  predicate Asked(start: bv8, ops: seq<Op>, bit: bv8) {
    || (exists i :: 0 <= i < |ops| && StillOn(ops, i) && Trigger(ops[i].mode) & bit != 0)
    || (NeverOff(ops) && start & bit != 0)
  }

  lemma StillOnSnoc(init: seq<Op>, op: Op, i: nat)
    requires i < |init|
    ensures StillOn(init + [op], i) <==> op.On? && StillOn(init, i)
    ensures NeverOff(init + [op]) <==> op.On? && NeverOff(init)
  {
    var ops := init + [op];
    if StillOn(ops, i) || NeverOff(ops) {
      assert ops[|init|].On?;
      assert forall j :: 0 <= j < |init| ==> ops[j] == init[j];
    }
  }

  lemma AskedSnoc(start: bv8, init: seq<Op>, op: Op, bit: bv8)
    ensures Asked(start, init + [op], bit)
            <==> op.On? && (Asked(start, init, bit) || Trigger(op.mode) & bit != 0)
  {
    var ops := init + [op];
    assert ops[|init|] == op;
    forall i | 0 <= i < |init|
      ensures StillOn(ops, i) <==> op.On? && StillOn(init, i)
    {
      StillOnSnoc(init, op, i);
    }
    assert NeverOff(ops) <==> op.On? && NeverOff(init) by {
      if init != [] { StillOnSnoc(init, op, 0); }
    }
    assert StillOn(ops, |init|) <==> op.On?;
    if i :| 0 <= i < |init| && StillOn(init, i) && Trigger(init[i].mode) & bit != 0 {
      assert ops[i] == init[i];
    }
  }

  lemma ControlBits(intcr: bv8, trigger: bv8, bit: bv8)
    requires bit == POLAR || bit == TYPE
    ensures ((intcr | trigger) | INT_ENABLE) & bit != 0 <==> intcr & bit != 0 || trigger & bit != 0
    ensures (intcr & 0xf1) & bit == 0
  {
  }

  /** The polarity and type bits are the OR of everything asked for since the last disable. */
  lemma {:induction false} ModeBitsAccumulate(chip: Chip, r: Regs, ops: seq<Op>, bit: bv8)
    requires chip != CH365 && (bit == POLAR || bit == TYPE)
    ensures Run(chip, r, ops).intcr & bit != 0 <==> Asked(r.intcr, ops, bit)
  {
    if ops != [] {
      var init, op := ops[..|ops| - 1], ops[|ops| - 1];
      ModeBitsAccumulate(chip, r, init, bit);
      AskedSnoc(r.intcr, init, op, bit);
      assert init + [op] == ops;
      ControlBits(Run(chip, r, init).intcr, if op.On? then Trigger(op.mode) else 0, bit);
    }
  }

  /** The enable bit shows the last call, and so does `intmode`. */
  lemma LastCallShows(chip: Chip, r: Regs, ops: seq<Op>)
    requires chip != CH365 && ops != []
    ensures var t, op := Run(chip, r, ops), ops[|ops| - 1];
            && (t.intcr & INT_ENABLE != 0 <==> op.On?)
            && t.intmode == (if op.On? then op.mode else INT_NONE)
            && t.status & INTA == 0
  {
    var s := Run(chip, r, ops[..|ops| - 1]);
    assert ((s.intcr | Trigger(if ops[|ops| - 1].On? then ops[|ops| - 1].mode else 0)) | INT_ENABLE) & INT_ENABLE != 0;
  }

  /** The CH365 keeps its enable bit in configuration space, and that one shows the last call too. */
  lemma Ch365LastCallShows(r: Regs, ops: seq<Op>)
    requires ops != []
    ensures var t, op := Run(CH365, r, ops), ops[|ops| - 1];
            && (t.config & CH365_ENABLE != 0 <==> op.On?)
            && t.config & 0x7f == Run(CH365, r, ops[..|ops| - 1]).config & 0x7f
            && t.intmode == (if op.On? then op.mode else INT_NONE)
  {
  }

  /** So the enable bit agrees with `intmode` exactly when the last call was not an enable with
      mode INT_NONE, which the driver accepts. */
  lemma EnableBitMeansModeIff(chip: Chip, r: Regs, ops: seq<Op>)
    requires chip != CH365 && ops != []
    ensures var t := Run(chip, r, ops);
            (t.intcr & INT_ENABLE != 0 <==> t.intmode != INT_NONE) <==> ops[|ops| - 1] != On(INT_NONE)
  {
    LastCallShows(chip, r, ops);
  }

  /** The bits of the control and status registers that mode changes leave alone; bits 5 to 7 of the
      control register go up with the first real mode and never come down again. */
  lemma {:induction false} OtherBitsKept(chip: Chip, r: Regs, ops: seq<Op>)
    requires chip != CH365
    ensures var t := Run(chip, r, ops);
            && t.intcr & 0x11 == r.intcr & 0x11
            && t.status & 0xfb == r.status & 0xfb
            && t.config == r.config
            && t.intcr & 0xe0 == if exists i :: 0 <= i < |ops| && ops[i].On? && Trigger(ops[i].mode) != 0
                                 then 0xe0 else r.intcr & 0xe0
  {
    if ops != [] {
      var init, op := ops[..|ops| - 1], ops[|ops| - 1];
      OtherBitsKept(chip, r, init);
      var s := Run(chip, r, init);
      OneCallKeeps(chip, s, op);
      assert forall i :: 0 <= i < |init| ==> ops[i] == init[i];
    }
  }

  lemma OneCallKeeps(chip: Chip, s: Regs, op: Op)
    requires chip != CH365
    ensures var t := Apply(chip, s, op);
            && t.intcr & 0x11 == s.intcr & 0x11
            && t.status & 0xfb == s.status & 0xfb
            && t.config == s.config
            && t.intcr & 0xe0 == if op.On? && Trigger(op.mode) != 0 then 0xe0 else s.intcr & 0xe0
  {
  }

  // ------------------------------------------------------------ does the card use the mode asked for?

  /** The mode the card acts on, read off its control register. */
  function Decoded(intcr: bv8): Mode {
    if intcr & TYPE == 0 then (if intcr & POLAR == 0 then INT_LOW else INT_HIGH)
    else (if intcr & POLAR == 0 then INT_RISING else INT_FALLING)
  }

  predicate RealMode(m: Mode) { INT_LOW <= m <= INT_FALLING }

  /** `m` needs every bit that `bits` contains. */
  predicate Within(bits: bv8, m: Mode) {
    (bits & POLAR != 0 ==> Trigger(m) & POLAR != 0) && (bits & TYPE != 0 ==> Trigger(m) & TYPE != 0)
  }

  /** After enabling a real mode, the card acts on the mode the driver remembers exactly when that
      mode has all the bits left over since the last disable: those of every mode enabled in
      between, and those present at the start if nothing was ever disabled. */
  lemma DecodesIff(chip: Chip, r: Regs, ops: seq<Op>)
    requires chip != CH365 && ops != [] && ops[|ops| - 1].On? && RealMode(ops[|ops| - 1].mode)
    ensures var t, m := Run(chip, r, ops), ops[|ops| - 1].mode;
            Decoded(t.intcr) == t.intmode
            <==> (forall i :: 0 <= i < |ops| && StillOn(ops, i) ==> Within(Trigger(ops[i].mode), m))
                 && (NeverOff(ops) ==> Within(r.intcr, m))
  {
    ModeBitsAccumulate(chip, r, ops, POLAR);
    ModeBitsAccumulate(chip, r, ops, TYPE);
    LastCallShows(chip, r, ops);
    var m := ops[|ops| - 1].mode;
    assert StillOn(ops, |ops| - 1);
    assert Trigger(m) & POLAR != 0 ==> Asked(r.intcr, ops, POLAR);
    assert Trigger(m) & TYPE != 0 ==> Asked(r.intcr, ops, TYPE);
  }

  /** In particular it does when the enable directly follows a disable. */
  lemma DisableFirst(chip: Chip, r: Regs, ops: seq<Op>)
    requires chip != CH365 && |ops| >= 2 && ops[|ops| - 2] == Off
    requires ops[|ops| - 1].On? && RealMode(ops[|ops| - 1].mode)
    ensures Decoded(Run(chip, r, ops).intcr) == Run(chip, r, ops).intmode
  {
    assert forall i :: StillOn(ops, i) ==> i == |ops| - 1;
    DecodesIff(chip, r, ops);
  }

  /** Otherwise it may not: a rising edge asked for on top of a high level becomes a falling edge. */
  lemma WithoutDisableTheModeCanBeWrong(chip: Chip)
    requires chip != CH365
    ensures var t := Run(chip, Regs(0, 0, 0, 0), [On(INT_HIGH), On(INT_RISING)]);
            t.intmode == INT_RISING && Decoded(t.intcr) == INT_FALLING
  {
    var ops := [On(INT_HIGH), On(INT_RISING)];
    assert ops[..1] == [On(INT_HIGH)] && ops[..1][..0] == [];
    assert Run(chip, Regs(0, 0, 0, 0), ops[..1]).intcr == 0xe6;
  }
}
