/** Closing a file switches a card's interrupts off without taking the lock that an enable holds, so
    the two can run beside each other on two processors. What that leaves, for every interleaving. */
module ReleaseRace {
  import opened InterruptModes
  import opened InterruptRaces

  /** How many steps of a thread have been taken. */
  function Gos(acts: seq<Action>, t: nat): nat {
    if acts == [] then 0 else Gos(acts[..|acts| - 1], t) + if acts[|acts| - 1] == Go(t) then 1 else 0
  }

  /** The i-th step of t comes after the j-th step of u. */
  predicate After(acts: seq<Action>, t: nat, i: nat, u: nat, j: nat) {
    && acts != []
    && var init := acts[..|acts| - 1];
       || After(init, t, i, u, j)
       || (acts[|acts| - 1] == Go(t) && Gos(init, t) + 1 == i && Gos(init, u) >= j)
  }

  /** An enable's accesses of the control register are its steps 1 to 4, and step 7 sets the mode; a
      disable's are its steps 1 and 2, and step 5 resets the mode. Which steps of the enable come
      after the disable's write, and whose mode comes last. */
  datatype Order = Order(read: bool, write: bool, reread: bool, enable: bool, mode: bool)

  function OrderOf(acts: seq<Action>, t: nat, u: nat): Order {
    Order(After(acts, t, 1, u, 2), After(acts, t, 2, u, 2), After(acts, t, 3, u, 2), After(acts, t, 4, u, 2),
          After(acts, t, 7, u, 5))
  }

  /** Where an enable stands after k steps, and a disable after j. */
  predicate EnableAt(c: Call, k: nat, m: Mode) {
    match c
    case ReadCtrl(n) => k == 0 && n == m
    case WriteTrigger(n, _) => k == 1 && n == m
    case RereadCtrl(n) => k == 2 && n == m
    case WriteEnable(n, _) => k == 3 && n == m
    case ReadStatus(n) => k == 4 && n == m
    case WriteStatus(n, _) => k == 5 && n == m
    case SetMode(n) => k == 6 && n == m
    case _ => false
  }

  predicate DisableAt(c: Call, j: nat) {
    match c
    case OffReadCtrl => j == 0
    case OffWriteCtrl(_) => j == 1
    case OffReadStatus => j == 2
    case OffWriteStatus(_) => j == 3
    case OffSetMode => j == 4
    case _ => false
  }

  predicate Stand(x: State, t: nat, u: nat, m: Mode, k: nat, j: nat) {
    && x.calls.Keys <= {t, u}
    && (t in x.calls <==> k < 7) && (t in x.calls ==> EnableAt(x.calls[t], k, m))
    && (u in x.calls <==> j < 5) && (u in x.calls ==> DisableAt(x.calls[u], j))
  }

  predicate Sensible(o: Order, k: nat, j: nat) {
    && (o.read || o.write || o.reread || o.enable ==> j >= 2) && (o.mode ==> j >= 5)
    && (o.read ==> k >= 1) && (o.write ==> k >= 2) && (o.reread ==> k >= 3)
    && (o.enable ==> k >= 4) && (o.mode ==> k >= 7)
    && (o.read && k >= 2 ==> o.write) && (o.write && k >= 3 ==> o.reread) && (o.reread && k >= 4 ==> o.enable)
  }

  /** Who set the mode last. */
  predicate ModeBy(x: State, m: Mode, k: nat, j: nat, o: Order) {
    && (k >= 7 ==> x.intmode == if j >= 5 && !o.mode then INT_NONE else m)
    && (k < 7 && j >= 5 ==> x.intmode == INT_NONE)
  }

  predicate Has(v: bv8, bit: bv8) { v & bit != 0 }

  /** The enable bit, once the enable has written it. */
  predicate EnabledBy(reg: bool, k: nat, j: nat, o: Order) {
    k >= 4 ==> (reg <==> j < 2 || o.enable)
  }

  /** A mode bit of the control register, and of the byte an enable holds between a read and a write.
      `before` says that it was set before the race, `asked` that the mode asks for it. */
  predicate BitBy(reg: bool, held: bool, before: bool, asked: bool, k: nat, j: nat, o: Order) {
    var found := (before && !o.read) || asked;
    var kept := found && (o.write || !o.reread);
    && (k <= 1 ==> (reg <==> before && j < 2))
    && (k == 1 ==> (held <==> before && !o.read))
    && (2 <= k <= 3 ==> (reg <==> found && (j < 2 || o.write)))
    && (k == 3 ==> (held <==> kept))
    && (k >= 4 ==> (reg <==> kept && (j < 2 || o.enable)))
  }

  /** The control byte that an enable has read and not yet written back. */
  function HeldIn(c: Call): bv8 {
    if c.WriteTrigger? || c.WriteEnable? then c.ctrl else 0
  }

  function HeldBy(x: State, t: nat): bv8 {
    if t in x.calls then HeldIn(x.calls[t]) else 0
  }

  lemma BitOps(v: bv8, w: bv8, bit: bv8)
    requires bit == POLAR || bit == TYPE
    ensures Has(v | w, bit) <==> Has(v, bit) || Has(w, bit)
    ensures Has(v | INT_ENABLE, bit) <==> Has(v, bit)
    ensures !Has(v & 0xf1, bit)
  {
  }

  lemma EnableOps(v: bv8)
    ensures Has(v | INT_ENABLE, INT_ENABLE) && !Has(v & 0xf1, INT_ENABLE)
  {
  }

  lemma EnableAccess(c: Call, k: nat, m: Mode, intcr: bv8, status: Status)
    requires RealMode(m) && EnableAt(c, k, m) && !Last(c)
    ensures CtrlAfter(c, intcr)
            == if k == 1 then HeldIn(c) | Trigger(m) else if k == 3 then HeldIn(c) | INT_ENABLE else intcr
    ensures k == 0 || k == 2 ==> HeldIn(Following(c, intcr, status)) == intcr
  {
  }

  /** The control register after a step of the enable, and what the enable then holds of it. */
  lemma EnableStep(x: State, t: nat, u: nat, m: Mode, k: nat, j: nat)
    requires t != u && RealMode(m) && Stand(x, t, u, m, k, j)
    ensures var y, held := Next(x, Go(t)), HeldBy(x, t);
            && y.intcr == (if k == 1 then held | Trigger(m) else if k == 3 then held | INT_ENABLE else x.intcr)
            && (k == 0 || k == 2 ==> HeldBy(y, t) == x.intcr)
  {
    if t in x.calls {
      var c := x.calls[t];
      if !Last(c) {
        EnableAccess(c, k, m, x.intcr, x.status);
        assert Next(x, Go(t)).intcr == CtrlAfter(c, x.intcr);
        assert Next(x, Go(t)).calls[t] == Following(c, x.intcr, x.status);
      }
    }
  }

  /** The same for a step of the disable; `read` is the byte it read before. */
  lemma DisableStep(x: State, t: nat, u: nat, m: Mode, k: nat, j: nat) returns (read: bv8)
    requires t != u && Stand(x, t, u, m, k, j)
    ensures var y := Next(x, Go(u));
            && y.intcr == (if j == 1 then read & 0xf1 else x.intcr)
            && HeldBy(y, t) == HeldBy(x, t)
  {
    read := if u in x.calls && x.calls[u].OffWriteCtrl? then x.calls[u].ctrl else x.intcr;
  }

  lemma NoStep(x: State, a: Action, t: nat, u: nat, m: Mode, k: nat, j: nat)
    requires t != u && Stand(x, t, u, m, k, j) && !a.Begin? && a != Go(t) && a != Go(u)
    ensures Next(x, a).intcr == x.intcr && HeldBy(Next(x, a), t) == HeldBy(x, t)
  {
  }

  function Later(o: Order, a: Action, t: nat, k: nat, j: nat): Order {
    if a != Go(t) then o
    else Order(o.read || (k == 0 && j >= 2), o.write || (k == 1 && j >= 2), o.reread || (k == 2 && j >= 2),
               o.enable || (k == 3 && j >= 2), o.mode || (k == 6 && j >= 5))
  }

  function Plus(n: nat, a: Action, t: nat): nat { n + if a == Go(t) then 1 else 0 }

  lemma StandByEnable(x: State, t: nat, u: nat, m: Mode, k: nat, j: nat)
    requires t != u && Stand(x, t, u, m, k, j)
    ensures Stand(Next(x, Go(t)), t, u, m, k + 1, j)
  {
  }

  lemma StandByDisable(x: State, t: nat, u: nat, m: Mode, k: nat, j: nat)
    requires t != u && Stand(x, t, u, m, k, j)
    ensures Stand(Next(x, Go(u)), t, u, m, k, j + 1)
  {
  }

  lemma StandByStep(x: State, a: Action, t: nat, u: nat, m: Mode, k: nat, j: nat)
    requires t != u && !a.Begin? && Stand(x, t, u, m, k, j)
    ensures Stand(Next(x, a), t, u, m, Plus(k, a, t), Plus(j, a, u))
  {
    if a == Go(t) {
      StandByEnable(x, t, u, m, k, j);
    } else if a == Go(u) {
      StandByDisable(x, t, u, m, k, j);
    }
  }

  lemma SensibleByStep(o: Order, a: Action, t: nat, u: nat, k: nat, j: nat)
    requires t != u && Sensible(o, k, j)
    ensures Sensible(Later(o, a, t, k, j), Plus(k, a, t), Plus(j, a, u))
  {
  }

  lemma ModeByStep(x: State, a: Action, t: nat, u: nat, m: Mode, k: nat, j: nat, o: Order)
    requires t != u && !a.Begin? && Stand(x, t, u, m, k, j) && Sensible(o, k, j) && ModeBy(x, m, k, j, o)
    ensures ModeBy(Next(x, a), m, Plus(k, a, t), Plus(j, a, u), Later(o, a, t, k, j))
  {
  }

  lemma EnabledByStep(x: State, a: Action, t: nat, u: nat, m: Mode, k: nat, j: nat, o: Order)
    requires t != u && RealMode(m) && !a.Begin? && Stand(x, t, u, m, k, j) && Sensible(o, k, j)
    requires EnabledBy(Has(x.intcr, INT_ENABLE), k, j, o)
    ensures EnabledBy(Has(Next(x, a).intcr, INT_ENABLE), Plus(k, a, t), Plus(j, a, u), Later(o, a, t, k, j))
  {
    if a == Go(t) {
      EnableStep(x, t, u, m, k, j);
      EnableOps(HeldBy(x, t));
    } else if a == Go(u) {
      var read := DisableStep(x, t, u, m, k, j);
      EnableOps(read);
    } else {
      NoStep(x, a, t, u, m, k, j);
    }
  }

  lemma BitByEnable(reg: bool, held: bool, before: bool, asked: bool, t: nat, k: nat, j: nat, o: Order,
                    reg2: bool, held2: bool)
    requires Sensible(o, k, j) && BitBy(reg, held, before, asked, k, j, o)
    requires reg2 == if k == 1 then held || asked else if k == 3 then held else reg
    requires k == 0 || k == 2 ==> held2 == reg
    ensures BitBy(reg2, held2, before, asked, k + 1, j, Later(o, Go(t), t, k, j))
  {
  }

  lemma BitByDisable(reg: bool, held: bool, before: bool, asked: bool, k: nat, j: nat, o: Order, reg2: bool)
    requires Sensible(o, k, j) && BitBy(reg, held, before, asked, k, j, o)
    requires reg2 == if j == 1 then false else reg
    ensures BitBy(reg2, held, before, asked, k, j + 1, o)
  {
  }

  lemma EnableBits(x: State, t: nat, u: nat, m: Mode, bit: bv8, k: nat, j: nat)
    requires t != u && RealMode(m) && (bit == POLAR || bit == TYPE) && Stand(x, t, u, m, k, j)
    ensures var y, held := Next(x, Go(t)), Has(HeldBy(x, t), bit);
            && Has(y.intcr, bit)
               == (if k == 1 then held || Has(Trigger(m), bit) else if k == 3 then held else Has(x.intcr, bit))
            && (k == 0 || k == 2 ==> Has(HeldBy(y, t), bit) == Has(x.intcr, bit))
  {
    EnableStep(x, t, u, m, k, j);
    BitOps(HeldBy(x, t), Trigger(m), bit);
  }

  lemma BitAfterEnable(x: State, t: nat, u: nat, m: Mode, bit: bv8, before: bool, k: nat, j: nat, o: Order)
    requires t != u && RealMode(m) && (bit == POLAR || bit == TYPE) && Stand(x, t, u, m, k, j) && Sensible(o, k, j)
    requires BitBy(Has(x.intcr, bit), Has(HeldBy(x, t), bit), before, Has(Trigger(m), bit), k, j, o)
    ensures var y, later := Next(x, Go(t)), Later(o, Go(t), t, k, j);
            BitBy(Has(y.intcr, bit), Has(HeldBy(y, t), bit), before, Has(Trigger(m), bit), k + 1, j, later)
  {
    var y := Next(x, Go(t));
    EnableBits(x, t, u, m, bit, k, j);
    BitByEnable(Has(x.intcr, bit), Has(HeldBy(x, t), bit), before, Has(Trigger(m), bit), t, k, j, o,
                Has(y.intcr, bit), Has(HeldBy(y, t), bit));
  }

  lemma BitAfterDisable(x: State, t: nat, u: nat, m: Mode, bit: bv8, before: bool, k: nat, j: nat, o: Order)
    requires t != u && (bit == POLAR || bit == TYPE) && Stand(x, t, u, m, k, j) && Sensible(o, k, j)
    requires BitBy(Has(x.intcr, bit), Has(HeldBy(x, t), bit), before, Has(Trigger(m), bit), k, j, o)
    ensures var y := Next(x, Go(u));
            BitBy(Has(y.intcr, bit), Has(HeldBy(y, t), bit), before, Has(Trigger(m), bit), k, j + 1, o)
  {
    var read := DisableStep(x, t, u, m, k, j);
    BitOps(read, 0, bit);
    BitByDisable(Has(x.intcr, bit), Has(HeldBy(x, t), bit), before, Has(Trigger(m), bit), k, j, o,
                 Has(Next(x, Go(u)).intcr, bit));
  }

  lemma BitByStep(x: State, a: Action, t: nat, u: nat, m: Mode, bit: bv8, before: bool, k: nat, j: nat, o: Order)
    requires t != u && RealMode(m) && (bit == POLAR || bit == TYPE) && !a.Begin?
    requires Stand(x, t, u, m, k, j) && Sensible(o, k, j)
    requires BitBy(Has(x.intcr, bit), Has(HeldBy(x, t), bit), before, Has(Trigger(m), bit), k, j, o)
    ensures var y := Next(x, a);
            BitBy(Has(y.intcr, bit), Has(HeldBy(y, t), bit), before, Has(Trigger(m), bit),
                  Plus(k, a, t), Plus(j, a, u), Later(o, a, t, k, j))
  {
    if a == Go(t) {
      BitAfterEnable(x, t, u, m, bit, before, k, j, o);
    } else if a == Go(u) {
      BitAfterDisable(x, t, u, m, bit, before, k, j, o);
    } else {
      NoStep(x, a, t, u, m, k, j);
    }
  }

  /** The invariant of the race, at a state reached by some steps. */
  predicate Racing(x: State, acts: seq<Action>, t: nat, u: nat, m: Mode, bit: bv8, before: bool) {
    var k, j, o := Gos(acts, t), Gos(acts, u), OrderOf(acts, t, u);
    && Stand(x, t, u, m, k, j) && Sensible(o, k, j) && ModeBy(x, m, k, j, o)
    && EnabledBy(Has(x.intcr, INT_ENABLE), k, j, o)
    && BitBy(Has(x.intcr, bit), Has(HeldBy(x, t), bit), before, Has(Trigger(m), bit), k, j, o)
  }

  lemma OrderSnoc(acts: seq<Action>, t: nat, u: nat)
    requires acts != []
    ensures var init, a := acts[..|acts| - 1], acts[|acts| - 1];
            && OrderOf(acts, t, u) == Later(OrderOf(init, t, u), a, t, Gos(init, t), Gos(init, u))
            && Gos(acts, t) == Plus(Gos(init, t), a, t) && Gos(acts, u) == Plus(Gos(init, u), a, u)
  {
  }

  lemma {:induction false} RacingByRun(s: State, acts: seq<Action>, t: nat, u: nat, m: Mode, bit: bv8)
    requires t != u && RealMode(m) && (bit == POLAR || bit == TYPE)
    requires s.calls == map[t := Start(On(m)), u := Start(Off)]
    requires forall i :: 0 <= i < |acts| ==> !acts[i].Begin?
    ensures Racing(InterruptRaces.Run(s, acts), acts, t, u, m, bit, Has(s.intcr, bit))
  {
    if acts != [] {
      var init, a := acts[..|acts| - 1], acts[|acts| - 1];
      RacingByRun(s, init, t, u, m, bit);
      RacingByStep(InterruptRaces.Run(s, init), init, a, t, u, m, bit, Has(s.intcr, bit));
      assert init + [a] == acts;
    }
  }

  lemma RacingByStep(x: State, init: seq<Action>, a: Action, t: nat, u: nat, m: Mode, bit: bv8, before: bool)
    requires t != u && RealMode(m) && (bit == POLAR || bit == TYPE) && !a.Begin?
    requires Racing(x, init, t, u, m, bit, before)
    ensures Racing(Next(x, a), init + [a], t, u, m, bit, before)
  {
    var k, j, o := Gos(init, t), Gos(init, u), OrderOf(init, t, u);
    OrderSnoc(init + [a], t, u);
    assert (init + [a])[..|init|] == init;
    StandByStep(x, a, t, u, m, k, j);
    SensibleByStep(o, a, t, u, k, j);
    ModeByStep(x, a, t, u, m, k, j, o);
    EnabledByStep(x, a, t, u, m, k, j, o);
    BitByStep(x, a, t, u, m, bit, before, k, j, o);
  }

  /** What an enable and a disable leave when both are through, whatever the handler and the card did
      meanwhile: the enable bit, the mode, and each mode bit, by the order of their steps. A mode bit
      asked for is lost if the disable's write falls between the enable's first write and its second
      read; one left from before survives if the enable read it before the disable's write. */
  lemma WhatARaceLeaves(s: State, acts: seq<Action>, t: nat, u: nat, m: Mode, bit: bv8)
    requires t != u && RealMode(m) && (bit == POLAR || bit == TYPE)
    requires s.calls == map[t := Start(On(m)), u := Start(Off)]
    requires forall i :: 0 <= i < |acts| ==> !acts[i].Begin?
    requires InterruptRaces.Run(s, acts).calls == map[]
    ensures var x, o := InterruptRaces.Run(s, acts), OrderOf(acts, t, u);
            && (Has(x.intcr, INT_ENABLE) <==> o.enable)
            && x.intmode == (if o.mode then m else INT_NONE)
            && (Has(x.intcr, bit) <==>
                  o.enable && (o.write || !o.reread) && (Has(Trigger(m), bit) || (Has(s.intcr, bit) && !o.read)))
  {
    RacingByRun(s, acts, t, u, m, bit);
  }

  /** The enable bit and the mode disagree if and only if one of the two operations wrote the control
      register last and the other set the mode last. */
  lemma AgreesIff(s: State, acts: seq<Action>, t: nat, u: nat, m: Mode)
    requires t != u && RealMode(m)
    requires s.calls == map[t := Start(On(m)), u := Start(Off)]
    requires forall i :: 0 <= i < |acts| ==> !acts[i].Begin?
    requires InterruptRaces.Run(s, acts).calls == map[]
    ensures var x := InterruptRaces.Run(s, acts);
            (Has(x.intcr, INT_ENABLE) <==> x.intmode != INT_NONE)
            <==> (After(acts, t, 4, u, 2) <==> After(acts, t, 7, u, 5))
  {
    WhatARaceLeaves(s, acts, t, u, m, POLAR);
  }

  // ------------------------------------------------------------ both ways of disagreeing

  lemma {:induction false} GosConcat(xs: seq<Action>, ys: seq<Action>, t: nat)
    ensures Gos(xs + ys, t) == Gos(xs, t) + Gos(ys, t)
  {
    if ys == [] {
      assert xs + ys == xs;
    } else {
      assert (xs + ys)[..|xs + ys| - 1] == xs + ys[..|ys| - 1];
      GosConcat(xs, ys[..|ys| - 1], t);
    }
  }

  lemma {:induction false} GosOfGoes(t: nat, n: nat, u: nat)
    ensures Gos(Goes(t, n), u) == if u == t then n else 0
  {
    if n != 0 {
      assert Goes(t, n)[..n - 1] == Goes(t, n - 1);
      GosOfGoes(t, n - 1, u);
    }
  }

  lemma {:induction false} AfterNeeds(acts: seq<Action>, t: nat, i: nat, u: nat, j: nat)
    ensures After(acts, t, i, u, j) ==> Gos(acts, u) >= j && Gos(acts, t) >= i
  {
    if acts != [] {
      AfterNeeds(acts[..|acts| - 1], t, i, u, j);
    }
  }

  /** A step already taken has its place already; one still to come, after enough steps of the other,
      comes after them. */
  lemma {:induction false} AfterConcat(xs: seq<Action>, ys: seq<Action>, t: nat, i: nat, u: nat, j: nat)
    ensures Gos(xs, t) >= i ==> (After(xs + ys, t, i, u, j) <==> After(xs, t, i, u, j))
    ensures Gos(xs, t) < i <= Gos(xs + ys, t) && Gos(xs, u) >= j ==> After(xs + ys, t, i, u, j)
  {
    if ys == [] {
      assert xs + ys == xs;
    } else {
      var init := ys[..|ys| - 1];
      assert (xs + ys)[..|xs + ys| - 1] == xs + init;
      AfterConcat(xs, init, t, i, u, j);
      GosConcat(xs, init, t);
      GosConcat(xs, init, u);
    }
  }

  lemma OnlyGoes(acts: seq<Action>, s: State, t: nat, u: nat, m: Mode)
    requires t != u && RealMode(m) && s.calls == map[t := Start(On(m)), u := Start(Off)]
    requires Gos(acts, t) == 7 && Gos(acts, u) == 5
    requires forall i :: 0 <= i < |acts| ==> acts[i].Go?
    ensures var x, o := InterruptRaces.Run(s, acts), OrderOf(acts, t, u);
            && x.calls == map[] && (Has(x.intcr, INT_ENABLE) <==> o.enable)
            && x.intmode == (if o.mode then m else INT_NONE)
  {
    RacingByRun(s, acts, t, u, m, POLAR);
    assert InterruptRaces.Run(s, acts).calls.Keys == {};
    WhatARaceLeaves(s, acts, t, u, m, POLAR);
  }

  lemma InsideEnable(t: nat, u: nat)
    requires t != u
    ensures var acts := Goes(t, 6) + Goes(u, 5) + Goes(t, 1);
            Gos(acts, t) == 7 && Gos(acts, u) == 5 && !After(acts, t, 4, u, 2) && After(acts, t, 7, u, 5)
  {
    GosOfGoes(t, 6, t);
    GosOfGoes(t, 6, u);
    GosOfGoes(u, 5, t);
    GosOfGoes(u, 5, u);
    GosOfGoes(t, 1, t);
    GosOfGoes(t, 1, u);
    GosConcat(Goes(t, 6), Goes(u, 5), t);
    GosConcat(Goes(t, 6), Goes(u, 5), u);
    GosConcat(Goes(t, 6) + Goes(u, 5), Goes(t, 1), t);
    GosConcat(Goes(t, 6) + Goes(u, 5), Goes(t, 1), u);
    AfterNeeds(Goes(t, 6), t, 4, u, 2);
    AfterConcat(Goes(t, 6), Goes(u, 5), t, 4, u, 2);
    AfterConcat(Goes(t, 6) + Goes(u, 5), Goes(t, 1), t, 4, u, 2);
    AfterConcat(Goes(t, 6) + Goes(u, 5), Goes(t, 1), t, 7, u, 5);
  }

  lemma InsideDisable(t: nat, u: nat)
    requires t != u
    ensures var acts := Goes(u, 2) + Goes(t, 7) + Goes(u, 3);
            Gos(acts, t) == 7 && Gos(acts, u) == 5 && After(acts, t, 4, u, 2) && !After(acts, t, 7, u, 5)
  {
    GosOfGoes(t, 7, t);
    GosOfGoes(t, 7, u);
    GosOfGoes(u, 2, t);
    GosOfGoes(u, 2, u);
    GosOfGoes(u, 3, t);
    GosOfGoes(u, 3, u);
    GosConcat(Goes(u, 2), Goes(t, 7), t);
    GosConcat(Goes(u, 2), Goes(t, 7), u);
    GosConcat(Goes(u, 2) + Goes(t, 7), Goes(u, 3), t);
    GosConcat(Goes(u, 2) + Goes(t, 7), Goes(u, 3), u);
    AfterConcat(Goes(u, 2), Goes(t, 7), t, 4, u, 2);
    AfterNeeds(Goes(u, 2) + Goes(t, 7), t, 7, u, 5);
    AfterConcat(Goes(u, 2) + Goes(t, 7), Goes(u, 3), t, 4, u, 2);
    AfterConcat(Goes(u, 2) + Goes(t, 7), Goes(u, 3), t, 7, u, 5);
  }

  // ------------------------------------------------------------ the release as a whole

  /** A release tests the remembered mode first, and does nothing more if that is INT_NONE. */
  function Release(p: State, u: nat): State {
    if p.intmode == INT_NONE then p else Next(p, Begin(u, Off))
  }

  /** Steps of the enable, the handler and the card, of which none starts another call. */
  predicate NoBegin(acts: seq<Action>) {
    forall i :: 0 <= i < |acts| ==> !acts[i].Begin?
  }

  predicate NoGo(acts: seq<Action>, u: nat) {
    forall i :: 0 <= i < |acts| ==> acts[i] != Go(u)
  }

  /** A call that does not move yet makes no difference to the rest. */
  function Waiting(x: State, u: nat, c: Call): State { x.(calls := x.calls[u := c]) }

  lemma WaitingByStep(x: State, a: Action, u: nat, c: Call)
    requires u !in x.calls && !a.Begin? && a != Go(u)
    ensures u !in Next(x, a).calls && Next(Waiting(x, u, c), a) == Waiting(Next(x, a), u, c)
  {
    if a.Go? && a.t in x.calls {
      var d := x.calls[a.t];
      if Last(d) {
        assert x.calls[u := c] - {a.t} == (x.calls - {a.t})[u := c];
      } else {
        var f := Following(d, x.intcr, x.status);
        assert x.calls[u := c][a.t := f] == x.calls[a.t := f][u := c];
      }
    }
  }

  lemma {:induction false} WaitingByRun(x: State, acts: seq<Action>, u: nat, c: Call)
    requires u !in x.calls && NoBegin(acts) && NoGo(acts, u)
    ensures var y := InterruptRaces.Run(x, acts);
            u !in y.calls && InterruptRaces.Run(Waiting(x, u, c), acts) == Waiting(y, u, c)
  {
    if acts != [] {
      var last := |acts| - 1;
      WaitingByRun(x, acts[..last], u, c);
      assert acts[last] != Go(u);
      WaitingByStep(InterruptRaces.Run(x, acts[..last]), acts[last], u, c);
    }
  }

  /** A release that passes its test is a disable that has been waiting from the start. */
  lemma BegunIsWaiting(s: State, early: seq<Action>, late: seq<Action>, t: nat, u: nat, m: Mode)
    requires t != u && s.calls == map[t := Start(On(m))] && NoBegin(early) && NoGo(early, u)
    requires InterruptRaces.Run(s, early).intmode != INT_NONE
    ensures InterruptRaces.Run(Release(InterruptRaces.Run(s, early), u), late)
            == InterruptRaces.Run(Waiting(s, u, Start(Off)), early + late)
  {
    WaitingByRun(s, early, u, Start(Off));
    RunConcat(Waiting(s, u, Start(Off)), early, late);
  }

  /** The test passes if a mode was set before, or the enable has already set its own. */
  lemma TestPassesIff(s: State, early: seq<Action>, t: nat, u: nat, m: Mode)
    requires t != u && RealMode(m) && s.calls == map[t := Start(On(m))] && NoBegin(early) && NoGo(early, u)
    ensures InterruptRaces.Run(s, early).intmode != INT_NONE <==> s.intmode != INT_NONE || Gos(early, t) >= 7
  {
    var w := Waiting(s, u, Start(Off));
    WaitingByRun(s, early, u, Start(Off));
    NoGoNone(early, u);
    ModeBeforeDisable(w, early, t, u, m);
  }

  lemma {:induction false} NoGoNone(acts: seq<Action>, u: nat)
    requires NoGo(acts, u)
    ensures Gos(acts, u) == 0
  {
    if acts != [] {
      var last := |acts| - 1;
      NoGoNone(acts[..last], u);
      assert acts[last] != Go(u);
    }
  }

  lemma ModeStands(x: State, a: Action, t: nat, u: nat, m: Mode, k: nat, j: nat)
    requires t != u && !a.Begin? && a != Go(u) && Stand(x, t, u, m, k, j)
    ensures Next(x, a).intmode == if a == Go(t) && k == 6 then m else x.intmode
  {
  }

  lemma {:induction false} ModeBeforeDisable(w: State, acts: seq<Action>, t: nat, u: nat, m: Mode)
    requires t != u && RealMode(m) && w.calls == map[t := Start(On(m)), u := Start(Off)]
    requires NoBegin(acts) && NoGo(acts, u)
    ensures InterruptRaces.Run(w, acts).intmode == if Gos(acts, t) >= 7 then m else w.intmode
  {
    if acts != [] {
      var last := |acts| - 1;
      ModeBeforeDisable(w, acts[..last], t, u, m);
      RacingByRun(w, acts[..last], t, u, m, POLAR);
      assert acts[last] != Go(u);
      ModeStands(InterruptRaces.Run(w, acts[..last]), acts[last], t, u, m, Gos(acts[..last], t), Gos(acts[..last], u));
    }
  }

  /** When the test fails there is no disable, and the enable alone leaves what it asks for. */
  lemma EnableAlone(s: State, acts: seq<Action>, t: nat, m: Mode)
    requires RealMode(m) && s.calls == map[t := Start(On(m))] && NoBegin(acts)
    requires InterruptRaces.Run(s, acts).calls == map[]
    ensures var x := InterruptRaces.Run(s, acts); Has(x.intcr, INT_ENABLE) && x.intmode == m
  {
    PreemptionSafeModeChange(s, t, On(m), acts);
    EnableOps(s.intcr | Trigger(m));
  }

  /** What an enable and a release leave when both are through, whatever the handler and the card did
      meanwhile. The enable has taken the steps in `early` when the release makes its test. If that
      passes, enable bit, mode and mode bits are decided by the order of their steps; if not, the
      enable has its way. */
  lemma WhatAReleaseLeaves(s: State, early: seq<Action>, late: seq<Action>, t: nat, u: nat, m: Mode, bit: bv8)
    requires t != u && RealMode(m) && (bit == POLAR || bit == TYPE) && s.calls == map[t := Start(On(m))]
    requires NoBegin(early) && NoGo(early, u) && NoBegin(late)
    requires InterruptRaces.Run(Release(InterruptRaces.Run(s, early), u), late).calls == map[]
    ensures var x := InterruptRaces.Run(Release(InterruptRaces.Run(s, early), u), late);
            var o := OrderOf(early + late, t, u);
            if s.intmode != INT_NONE || Gos(early, t) >= 7 then
              && (Has(x.intcr, INT_ENABLE) <==> o.enable)
              && x.intmode == (if o.mode then m else INT_NONE)
              && (Has(x.intcr, bit) <==>
                    o.enable && (o.write || !o.reread) && (Has(Trigger(m), bit) || (Has(s.intcr, bit) && !o.read)))
            else Has(x.intcr, INT_ENABLE) && x.intmode == m
  {
    TestPassesIff(s, early, t, u, m);
    if InterruptRaces.Run(s, early).intmode != INT_NONE {
      BegunIsWaiting(s, early, late, t, u, m);
      WhatARaceLeaves(Waiting(s, u, Start(Off)), early + late, t, u, m, bit);
    } else {
      RunConcat(s, early, late);
      EnableAlone(s, early + late, t, m);
    }
  }

  /** The enable bit and the mode disagree if and only if the release passed its test and one of the two
      operations wrote the control register last while the other set the mode last. */
  lemma ReleaseAgreesIff(s: State, early: seq<Action>, late: seq<Action>, t: nat, u: nat, m: Mode)
    requires t != u && RealMode(m) && s.calls == map[t := Start(On(m))]
    requires NoBegin(early) && NoGo(early, u) && NoBegin(late)
    requires InterruptRaces.Run(Release(InterruptRaces.Run(s, early), u), late).calls == map[]
    ensures var x := InterruptRaces.Run(Release(InterruptRaces.Run(s, early), u), late);
            var acts := early + late;
            (Has(x.intcr, INT_ENABLE) <==> x.intmode != INT_NONE)
            <==> (s.intmode != INT_NONE || Gos(early, t) >= 7
                  ==> (After(acts, t, 4, u, 2) <==> After(acts, t, 7, u, 5)))
  {
    WhatAReleaseLeaves(s, early, late, t, u, m, POLAR);
  }

  /** Both disagreements happen. With a mode set before, a release that runs just before an enable sets
      its own leaves the card silent and the driver thinking otherwise; an enable that runs between a
      release's two writes leaves the card interrupting and the handler claiming nothing. */
  lemma BothDisagreementsHappen(s: State, t: nat, u: nat, m: Mode)
    requires t != u && RealMode(m) && s.calls == map[t := Start(On(m))] && s.intmode != INT_NONE
    ensures var x := InterruptRaces.Run(Release(s, u), Goes(t, 6) + Goes(u, 5) + Goes(t, 1));
            x.calls == map[] && !Has(x.intcr, INT_ENABLE) && x.intmode == m
    ensures var x := InterruptRaces.Run(Release(s, u), Goes(u, 2) + Goes(t, 7) + Goes(u, 3));
            x.calls == map[] && Has(x.intcr, INT_ENABLE) && x.intmode == INT_NONE
  {
    var w := Waiting(s, u, Start(Off));
    assert Release(s, u) == w;
    InsideEnable(t, u);
    OnlyGoes(Goes(t, 6) + Goes(u, 5) + Goes(t, 1), w, t, u, m);
    InsideDisable(t, u);
    OnlyGoes(Goes(u, 2) + Goes(t, 7) + Goes(u, 3), w, t, u, m);
  }
}
