/** The interrupt operations of a CH367 or CH368 taken apart into single port accesses. The handler,
    any number of threads changing the mode, and the card's own pin move in any interleaving. */
module InterruptRaces {
  import opened InterruptModes

  /** A status byte with its latch and pin level bits taken out. */
  datatype Status = Status(latch: bool, level: bool, rest: bv8)

  function Unpack(b: bv8): Status { Status(b & INTA != 0, b & INTS != 0, b & 0xf3) }

  function Cleared(v: Status): Status { v.(latch := false) }

  /** The handler's test, on an unpacked byte of a CH367 or CH368. */
  predicate Ours(v: Status, intmode: Mode) {
    if intmode == INT_RISING || intmode == INT_FALLING then v.latch
    else if intmode == INT_HIGH then v.level
    else if intmode == INT_LOW then !v.level
    else false
  }

  /** Unpacking loses nothing, and commutes with what the driver does to a status byte. */
  lemma UnpackedFaithfully(chip: Chip, b: bv8, c: bv8, intmode: Mode)
    requires chip != CH365
    ensures Unpack(b) == Unpack(c) <==> b == c
    ensures Unpack(ClearInta(b)) == Cleared(Unpack(b))
    ensures Claims(chip, b, intmode) <==> Ours(Unpack(b), intmode)
  {
  }

  /** Where a mode change stands; `ctrl` and `stat` are bytes read and not yet written back. */
  datatype Call =
    | ReadCtrl(mode: Mode)
    | WriteTrigger(mode: Mode, ctrl: bv8)
    | RereadCtrl(mode: Mode)
    | WriteEnable(mode: Mode, ctrl: bv8)
    | ReadStatus(mode: Mode)
    | WriteStatus(mode: Mode, stat: Status)
    | SetMode(mode: Mode)
    | OffReadCtrl
    | OffWriteCtrl(ctrl: bv8)
    | OffReadStatus
    | OffWriteStatus(stat: Status)
    | OffSetMode

  datatype Isr = Out | Deciding(stat: Status) | Signalling(stat: Status) | Clearing(stat: Status)

  /** `latched` counts the times the latch went from clear to set, `signals` the signals sent, `cleared`
      the set latches cleared by mode changes, and `twice` the handler's writes that found no latch
      left to clear. */
  datatype State = State(intcr: bv8, status: Status, intmode: Mode, calls: map<nat, Call>, isr: Isr,
                         latched: nat, signals: nat, cleared: nat, twice: nat)

  datatype Action = Begin(t: nat, op: Op) | Go(t: nat) | Handler | Pin(level: bool, latch: bool)

  /** The pin level cannot be written. */
  function Written(status: Status, value: Status): Status { value.(level := status.level) }

  function Start(op: Op): Call {
    match op
    case On(m) => ReadCtrl(m)
    case Off => OffReadCtrl
  }

  function Count(b: bool): nat { if b then 1 else 0 }

  function ClearedBy(s: State, stat: Status): State {
    s.(status := Written(s.status, Cleared(stat)), cleared := s.cleared + Count(s.status.latch))
  }

  function At(s: State, t: nat, c: Call): State { s.(calls := s.calls[t := c]) }

  function Done(s: State, t: nat, mode: Mode): State { s.(intmode := mode, calls := s.calls - {t}) }

  predicate Last(c: Call) { c.SetMode? || c.OffSetMode? }

  predicate WritesStatus(c: Call) { c.WriteStatus? || c.OffWriteStatus? }

  /** Where a call stands after its next access. */
  function Following(c: Call, intcr: bv8, status: Status): Call
    requires !Last(c)
  {
    match c
    case ReadCtrl(m) => WriteTrigger(m, intcr)
    case WriteTrigger(m, ctrl) => RereadCtrl(m)
    case RereadCtrl(m) => WriteEnable(m, intcr)
    case WriteEnable(m, ctrl) => ReadStatus(m)
    case ReadStatus(m) => WriteStatus(m, status)
    case WriteStatus(m, stat) => SetMode(m)
    case OffReadCtrl => OffWriteCtrl(intcr)
    case OffWriteCtrl(ctrl) => OffReadStatus
    case OffReadStatus => OffWriteStatus(status)
    case OffWriteStatus(stat) => OffSetMode
  }

  /** The control register after a call's next access. */
  function CtrlAfter(c: Call, intcr: bv8): bv8 {
    match c
    case WriteTrigger(m, ctrl) => if RealMode(m) then ctrl | Trigger(m) else intcr
    case WriteEnable(m, ctrl) => ctrl | INT_ENABLE
    case OffWriteCtrl(ctrl) => ctrl & 0xf1
    case _ => intcr
  }

  /** The mode a call sets when it is done. */
  function ModeOf(c: Call): Mode {
    if c.OffReadCtrl? || c.OffWriteCtrl? || c.OffReadStatus? || c.OffWriteStatus? || c.OffSetMode? then INT_NONE
    else c.mode
  }

  /** The next port access of a mode change, or its final assignment. */
  function CallStep(s: State, t: nat, c: Call): State {
    if Last(c) then Done(s, t, ModeOf(c))
    else
      var r := s.(intcr := CtrlAfter(c, s.intcr), calls := s.calls[t := Following(c, s.intcr, s.status)]);
      if WritesStatus(c) then ClearedBy(r, c.stat) else r
  }

  function IsrStep(s: State): State {
    match s.isr
    case Out => s.(isr := Deciding(s.status))
    case Deciding(stat) => s.(isr := if Ours(stat, s.intmode) then Signalling(stat) else Out)
    case Signalling(stat) => s.(isr := Clearing(stat), signals := s.signals + 1)
    case Clearing(stat) =>
      s.(isr := Out, status := Written(s.status, Cleared(stat)), twice := s.twice + Count(!s.status.latch))
  }

  /** The card: the pin takes a level, and the latch may be set. */
  function PinStep(s: State, level: bool, latch: bool): State {
    s.(status := s.status.(latch := s.status.latch || latch, level := level),
       latched := s.latched + Count(latch && !s.status.latch))
  }

  function Next(s: State, a: Action): State {
    match a
    case Begin(t, op) => if t in s.calls then s else At(s, t, Start(op))
    case Go(t) => if t in s.calls then CallStep(s, t, s.calls[t]) else s
    case Handler => IsrStep(s)
    case Pin(level, latch) => PinStep(s, level, latch)
  }

  function Run(s: State, acts: seq<Action>): State {
    if acts == [] then s else Next(Run(s, acts[..|acts| - 1]), acts[|acts| - 1])
  }

  predicate Fresh(s: State) {
    s.isr == Out && s.calls == map[] && !s.status.latch && s.latched == s.signals == s.cleared == s.twice == 0
  }

  // ------------------------------------------------------------ the ledger of latches

  /** The counts balance: each write that clears the latch bit accounts for one latching, except that
      a handler write arriving too late (`twice`) is counted among the signals all the same. */
  predicate Balanced(s: State) {
    s.latched + s.twice + Count(s.isr.Clearing?) == s.signals + s.cleared + Count(s.status.latch)
  }

  lemma BalancedByCall(s: State, t: nat, c: Call)
    requires Balanced(s)
    ensures Balanced(CallStep(s, t, c))
  {
  }

  lemma BalancedByHandler(s: State)
    requires Balanced(s)
    ensures Balanced(IsrStep(s))
  {
  }

  lemma BalancedByStep(s: State, a: Action)
    requires Balanced(s)
    ensures Balanced(Next(s, a))
  {
    match a
    case Begin(t, op) =>
    case Go(t) => if t in s.calls { BalancedByCall(s, t, s.calls[t]); }
    case Handler => BalancedByHandler(s);
    case Pin(level, latch) =>
  }

  /** The ledger balances in every run, in every mode, with any number of threads. */
  lemma {:induction false} LedgerBalances(s: State, acts: seq<Action>)
    requires Fresh(s)
    ensures Balanced(Run(s, acts))
  {
    if acts != [] {
      LedgerBalances(s, acts[..|acts| - 1]);
      BalancedByStep(Run(s, acts[..|acts| - 1]), acts[|acts| - 1]);
    }
  }

  /** So whenever the handler is idle there are no more latchings than signals, clears and the latch
      still set, and as many when no handler write came too late. These are totals: one latching can
      count twice and make up for another that is lost, see LatchCanBeLost. */
  lemma LatchesAccountedFor(s: State, acts: seq<Action>)
    requires Fresh(s) && Run(s, acts).isr == Out
    ensures var t := Run(s, acts);
            && t.latched <= t.signals + t.cleared + Count(t.status.latch)
            && (t.latched == t.signals + t.cleared + Count(t.status.latch) <==> t.twice == 0)
  {
    LedgerBalances(s, acts);
  }

  // ------------------------------------------------------------ what becomes of one latch

  /** The latch set in `s` has been followed by a signal or a mode change that cleared a latch, or it
      is still set. */
  predicate Kept(s: State, t: State) {
    t.signals > s.signals || t.cleared > s.cleared || t.status.latch
  }

  /** What preserves it: a handler about to write has signalled since. */
  predicate Keeping(s: State, t: State) {
    t.signals > s.signals || t.cleared > s.cleared || (t.status.latch && !t.isr.Clearing?)
  }

  lemma KeepingByStep(s: State, t: State, a: Action)
    requires Keeping(s, t) && t.signals >= s.signals && t.cleared >= s.cleared
    ensures var u := Next(t, a); Keeping(s, u) && u.signals >= s.signals && u.cleared >= s.cleared
  {
  }

  lemma {:induction false} KeepingByRun(s: State, t: State, more: seq<Action>)
    requires Keeping(s, t) && t.signals >= s.signals && t.cleared >= s.cleared
    ensures var u := Run(t, more); Keeping(s, u) && u.signals >= s.signals && u.cleared >= s.cleared
  {
    if more != [] {
      KeepingByRun(s, t, more[..|more| - 1]);
      KeepingByStep(s, Run(t, more[..|more| - 1]), more[|more| - 1]);
    }
  }

  /** A latch set now will be signalled, cleared by a mode change, or stay set, in every continuation,
      with any number of threads and in every mode, if and only if the handler is not on the point of
      writing back a status byte it read before. */
  lemma LatchKeptIff(s: State, level: bool)
    requires !s.status.latch
    ensures var t := Next(s, Pin(level, true));
            (forall more :: Kept(s, Run(t, more))) <==> !s.isr.Clearing?
  {
    var t := Next(s, Pin(level, true));
    if s.isr.Clearing? {
      RunSnoc(t, [], Handler);
      assert [] + [Handler] == [Handler];
      assert !Kept(s, Run(t, [Handler]));
    } else {
      forall more ensures Kept(s, Run(t, more)) {
        KeepingByRun(s, t, more);
      }
    }
  }

  /** On two processors one can be lost. An enable has read the status register. The card latches, the
      handler reads that and signals, the enable's write clears it, the card latches again, and the
      handler's write wipes this second latch: it is neither signalled nor cleared by a mode change,
      though the totals balance. */
  lemma LatchCanBeLost(s: State, t: nat, m: Mode, level: bool)
    requires Fresh(s) && (s.intmode == INT_RISING || s.intmode == INT_FALLING)
    ensures var u := Run(s, [Begin(t, On(m))] + Goes(t, 5) + [Pin(level, true), Handler, Handler, Handler, Go(t)]);
            var w := Run(Next(u, Pin(level, true)), [Handler]);
            && !u.status.latch && !Kept(u, w)
            && w.isr == Out && w.latched == 2 && w.signals == 1 && w.cleared == 1 && !w.status.latch
  {
    ToStatusWrite(s, t, m);
    var c := Run(s, [Begin(t, On(m))] + Goes(t, 5));
    RunConcat(s, [Begin(t, On(m))] + Goes(t, 5), [Pin(level, true), Handler, Handler, Handler, Go(t)]);
    Overtaken(c, t, m, level);
  }

  lemma ToStatusWrite(s: State, t: nat, m: Mode)
    requires Fresh(s)
    ensures var c := Run(s, [Begin(t, On(m))] + Goes(t, 5));
            c == s.(intcr := c.intcr, calls := map[t := WriteStatus(m, s.status)])
  {
    RunSnoc(s, [], Begin(t, On(m)));
    assert [] + [Begin(t, On(m))] == [Begin(t, On(m))];
    var b := Next(s, Begin(t, On(m)));
    assert b == s.(calls := map[t := ReadCtrl(m)]);
    UpToStatusWrite(b, t, m);
    RunConcat(s, [Begin(t, On(m))], Goes(t, 5));
  }

  lemma Overtaken(s: State, t: nat, m: Mode, level: bool)
    requires s.isr == Out && !s.status.latch && (s.intmode == INT_RISING || s.intmode == INT_FALLING)
    requires s.calls == map[t := WriteStatus(m, s.status)]
    ensures var u := Run(s, [Pin(level, true), Handler, Handler, Handler, Go(t)]);
            var w := Run(Next(u, Pin(level, true)), [Handler]);
            && !u.status.latch && !Kept(u, w) && w.isr == Out && !w.status.latch
            && w.latched == s.latched + 2 && w.signals == s.signals + 1 && w.cleared == s.cleared + 1
  {
    RunFive(s, Pin(level, true), Handler, Handler, Handler, Go(t));
    var p := Next(s, Pin(level, true));
    var h := Next(Next(Next(p, Handler), Handler), Handler);
    assert h == p.(isr := Clearing(p.status), signals := s.signals + 1);
    var u := Next(h, Go(t));
    assert u.isr == h.isr && !u.status.latch && u.cleared == s.cleared + 1 && u.signals == s.signals + 1;
    var v := Next(u, Pin(level, true));
    RunSnoc(v, [], Handler);
    assert [] + [Handler] == [Handler];
  }

  lemma RunFive(s: State, a: Action, b: Action, c: Action, d: Action, e: Action)
    ensures Run(s, [a, b, c, d, e]) == Next(Next(Next(Next(Next(s, a), b), c), d), e)
  {
    RunSnoc(s, [], a);
    RunSnoc(s, [a], b);
    RunSnoc(s, [a, b], c);
    RunSnoc(s, [a, b, c], d);
    RunSnoc(s, [a, b, c, d], e);
    assert [a] + [b] == [a, b] && [a, b] + [c] == [a, b, c];
    assert [a, b, c] + [d] == [a, b, c, d] && [a, b, c, d] + [e] == [a, b, c, d, e];
  }

  lemma RunSnoc(s: State, acts: seq<Action>, a: Action)
    ensures Run(s, acts + [a]) == Next(Run(s, acts), a)
  {
    assert (acts + [a])[..|acts|] == acts;
  }

  // ------------------------------------------------------------ preempted mode changes

  /** What the control register will hold once this call has finished on its own. */
  function Finish(c: Call, intcr: bv8): bv8 {
    match c
    case ReadCtrl(m) => (intcr | Trigger(m)) | INT_ENABLE
    case WriteTrigger(m, ctrl) => (if RealMode(m) then ctrl | Trigger(m) else intcr) | INT_ENABLE
    case RereadCtrl(m) => intcr | INT_ENABLE
    case WriteEnable(m, ctrl) => ctrl | INT_ENABLE
    case OffReadCtrl => intcr & 0xf1
    case OffWriteCtrl(ctrl) => ctrl & 0xf1
    case _ => intcr
  }

  lemma FinishIsApply(chip: Chip, op: Op, r: Regs)
    requires chip != CH365
    ensures Finish(Start(op), r.intcr) == Apply(chip, r, op).intcr
    ensures ModeOf(Start(op)) == Apply(chip, r, op).intmode
  {
  }

  lemma ApplyClears(chip: Chip, op: Op, r: Regs)
    requires chip != CH365
    ensures Unpack(Apply(chip, r, op).status) == Cleared(Unpack(r.status))
  {
    assert Apply(chip, r, op).status == ClearInta(r.status);
    UnpackedFaithfully(chip, r.status, r.status, r.intmode);
  }

  /** A thread takes its next n steps with nothing in between. */
  function Goes(t: nat, n: nat): seq<Action> {
    seq(n, _ => Go(t))
  }

  /** How many steps a call has left. */
  function Left(c: Call): nat {
    match c
    case ReadCtrl(_) => 7
    case WriteTrigger(_, _) => 6
    case RereadCtrl(_) => 5
    case WriteEnable(_, _) => 4
    case ReadStatus(_) => 3
    case WriteStatus(_, _) => 2
    case SetMode(_) => 1
    case OffReadCtrl => 5
    case OffWriteCtrl(_) => 4
    case OffReadStatus => 3
    case OffWriteStatus(_) => 2
    case OffSetMode => 1
  }

  lemma {:induction false} RunConcat(s: State, xs: seq<Action>, ys: seq<Action>)
    ensures Run(s, xs + ys) == Run(Run(s, xs), ys)
  {
    if ys == [] {
      assert xs + ys == xs;
    } else {
      assert (xs + ys)[..|xs + ys| - 1] == xs + ys[..|ys| - 1];
      RunConcat(s, xs, ys[..|ys| - 1]);
    }
  }

  lemma FirstGo(s: State, t: nat, n: nat)
    requires n > 0
    ensures Run(s, Goes(t, n)) == Run(Next(s, Go(t)), Goes(t, n - 1))
  {
    assert Goes(t, n) == [Go(t)] + Goes(t, n - 1);
    RunConcat(s, [Go(t)], Goes(t, n - 1));
    RunSnoc(s, [], Go(t));
    assert [] + [Go(t)] == [Go(t)];
  }

  /** One step of the only call under way, when what it holds of the status register is current. */
  lemma AloneStep(s: State, t: nat, c: Call)
    requires s.calls == map[t := c] && !Last(c) && (WritesStatus(c) ==> c.stat == s.status)
    ensures var u, d := Next(s, Go(t)), Following(c, s.intcr, s.status);
            && u == s.(intcr := CtrlAfter(c, s.intcr), calls := map[t := d],
                       status := if WritesStatus(c) then Cleared(s.status) else s.status,
                       cleared := s.cleared + if WritesStatus(c) then Count(s.status.latch) else 0)
            && (WritesStatus(d) ==> d.stat == u.status) && Left(d) == Left(c) - 1
            && (Last(d) <==> WritesStatus(c))
  {
    var d := Following(c, s.intcr, s.status);
    FollowingStands(c, s.intcr, s.status);
    assert s.calls[t := d] == map[t := d];
  }

  lemma FollowingStands(c: Call, intcr: bv8, status: Status)
    requires !Last(c)
    ensures var d := Following(c, intcr, status);
            && Left(d) == Left(c) - 1 && (Last(d) <==> WritesStatus(c))
            && (WritesStatus(d) ==> d.stat == status && !WritesStatus(c))
  {
  }

  lemma {:induction false} AloneFrom(s: State, t: nat, c: Call)
    requires s.calls == map[t := c] && (WritesStatus(c) ==> c.stat == s.status)
    ensures Run(s, Goes(t, Left(c)))
            == s.(intcr := Finish(c, s.intcr), intmode := ModeOf(c), calls := map[],
                  status := if Last(c) then s.status else Cleared(s.status),
                  cleared := s.cleared + if Last(c) then 0 else Count(s.status.latch))
    decreases Left(c)
  {
    FirstGo(s, t, Left(c));
    var u := Next(s, Go(t));
    if Last(c) {
      assert map[t := c] - {t} == map[];
    } else {
      AloneStep(s, t, c);
      FinishKept(c, s.intcr, s.status);
      ModeKept(c, s.intcr, s.status);
      AloneFrom(u, t, Following(c, s.intcr, s.status));
    }
  }

  /** Taken in a row, the seven steps of an enable, or the five of a disable, do to the registers and
      the mode what the whole operation does, and nothing else but count a latch they clear. */
  lemma StepsAreTheOperation(chip: Chip, s: State, t: nat, op: Op, r: Regs)
    requires chip != CH365 && s.calls == map[t := Start(op)]
    requires s.intcr == r.intcr && s.status == Unpack(r.status) && s.intmode == r.intmode
    ensures var whole := Apply(chip, r, op);
            Run(s, Goes(t, if op.On? then 7 else 5))
            == s.(intcr := whole.intcr, status := Unpack(whole.status), intmode := whole.intmode, calls := map[],
                  cleared := s.cleared + Count(s.status.latch))
  {
    AloneFrom(s, t, Start(op));
    assert Left(Start(op)) == if op.On? then 7 else 5;
    FinishIsApply(chip, op, r);
    ApplyClears(chip, op, r);
  }

  lemma UpToEnable(s: State, t: nat, m: Mode)
    requires s.calls == map[t := ReadCtrl(m)]
    ensures var u := Run(s, Goes(t, 3));
            u == s.(intcr := u.intcr, calls := map[t := WriteEnable(m, u.intcr)])
  {
    var s1 := Next(s, Go(t));
    var s2 := Next(s1, Go(t));
    AloneStep(s, t, ReadCtrl(m));
    AloneStep(s1, t, WriteTrigger(m, s.intcr));
    AloneStep(s2, t, RereadCtrl(m));
    FirstGo(s, t, 3);
    FirstGo(s1, t, 2);
    FirstGo(s2, t, 1);
  }

  lemma UpToStatusWrite(s: State, t: nat, m: Mode)
    requires s.calls == map[t := ReadCtrl(m)]
    ensures var u := Run(s, Goes(t, 5));
            u == s.(intcr := u.intcr, calls := map[t := WriteStatus(m, s.status)])
  {
    UpToEnable(s, t, m);
    var s3 := Run(s, Goes(t, 3));
    var s4 := Next(s3, Go(t));
    AloneStep(s3, t, WriteEnable(m, s3.intcr));
    AloneStep(s4, t, ReadStatus(m));
    FirstGo(s3, t, 2);
    FirstGo(s4, t, 1);
    RunConcat(s, Goes(t, 3), Goes(t, 2));
    assert Goes(t, 5) == Goes(t, 3) + Goes(t, 2);
  }

  lemma ModeKept(c: Call, intcr: bv8, status: Status)
    requires !Last(c)
    ensures ModeOf(Following(c, intcr, status)) == ModeOf(c)
  {
  }

  lemma FinishKept(c: Call, intcr: bv8, status: Status)
    requires !Last(c)
    ensures Finish(Following(c, intcr, status), CtrlAfter(c, intcr)) == Finish(c, intcr)
  {
    if c.ReadCtrl? && !RealMode(c.mode) {
      assert intcr | 0 == intcr;
    }
  }

  /** The one thread in the middle of a mode change, or what it has left behind. */
  predicate OnCourse(t: nat, intcr: bv8, mode: Mode, u: State) {
    if u.calls == map[] then u.intcr == intcr && u.intmode == mode
    else u.calls.Keys == {t} && Finish(u.calls[t], u.intcr) == intcr && ModeOf(u.calls[t]) == mode
  }

  lemma OnCourseByStep(t: nat, intcr: bv8, mode: Mode, u: State, a: Action)
    requires OnCourse(t, intcr, mode, u) && !a.Begin?
    ensures OnCourse(t, intcr, mode, Next(u, a))
  {
    if a.Go? && a.t in u.calls {
      assert a.t == t;
      var c := u.calls[t];
      if Last(c) {
        assert (u.calls - {t}).Keys == {};
      } else {
        FinishKept(c, u.intcr, u.status);
        ModeKept(c, u.intcr, u.status);
        assert t in Next(u, a).calls;
      }
    }
  }

  /** A mode change that the handler and the card interrupt any number of times, between any of its
      accesses, leaves the same control register and mode as one that runs undisturbed. */
  lemma {:induction false} PreemptionSafeModeChange(s: State, t: nat, op: Op, acts: seq<Action>)
    requires s.calls == map[t := Start(op)]
    requires forall i :: 0 <= i < |acts| ==> !acts[i].Begin?
    ensures var whole := Apply(CH367, Regs(s.intcr, 0, 0, s.intmode), op);
            OnCourse(t, whole.intcr, whole.intmode, Run(s, acts))
  {
    FinishIsApply(CH367, op, Regs(s.intcr, 0, 0, s.intmode));
    if acts == [] {
      assert t in s.calls;
    } else {
      PreemptionSafeModeChange(s, t, op, acts[..|acts| - 1]);
      var whole := Apply(CH367, Regs(s.intcr, 0, 0, s.intmode), op);
      OnCourseByStep(t, whole.intcr, whole.intmode, Run(s, acts[..|acts| - 1]), acts[|acts| - 1]);
    }
  }

  /** Right after the status write of a mode change the latch is clear. */
  lemma LatchClearAfterStatusWrite(s: State, t: nat)
    requires t in s.calls && WritesStatus(s.calls[t])
    ensures var u := Next(s, Go(t));
            !u.status.latch && t in u.calls && Last(u.calls[t])
  {
  }

  // ------------------------------------------------------------ the other status bits

  /** Every status byte in anybody's hands has these bits outside latch and pin level. */
  predicate RestIs(s: State, rest: bv8) {
    && s.status.rest == rest
    && (s.isr != Out ==> s.isr.stat.rest == rest)
    && (forall t :: t in s.calls ==> HoldsRest(s.calls[t], rest))
  }

  /** What one call holds. */
  predicate HoldsRest(c: Call, rest: bv8) {
    WritesStatus(c) ==> c.stat.rest == rest
  }

  lemma RestFollowing(c: Call, intcr: bv8, status: Status, rest: bv8)
    requires !Last(c) && HoldsRest(c, rest) && status.rest == rest
    ensures HoldsRest(Following(c, intcr, status), rest)
  {
  }

  lemma RestByCall(s: State, t: nat, rest: bv8)
    requires RestIs(s, rest) && t in s.calls
    ensures RestIs(CallStep(s, t, s.calls[t]), rest)
  {
    var c := s.calls[t];
    assert HoldsRest(c, rest);
    if !Last(c) {
      RestFollowing(c, s.intcr, s.status, rest);
    }
  }

  lemma RestByHandler(s: State, rest: bv8)
    requires RestIs(s, rest)
    ensures RestIs(IsrStep(s), rest)
  {
  }

  lemma RestByStep(s: State, a: Action, rest: bv8)
    requires RestIs(s, rest)
    ensures RestIs(Next(s, a), rest)
  {
    match a
    case Begin(t, op) => assert HoldsRest(Start(op), rest);
    case Go(t) => if t in s.calls { RestByCall(s, t, rest); }
    case Handler => RestByHandler(s, rest);
    case Pin(level, latch) =>
  }

  /** No interleaving of handler and mode changes alters any other bit of the status register. */
  lemma {:induction false} OtherStatusBitsKept(s: State, acts: seq<Action>)
    requires s.isr == Out && s.calls == map[]
    ensures RestIs(Run(s, acts), s.status.rest)
  {
    if acts != [] {
      OtherStatusBitsKept(s, acts[..|acts| - 1]);
      RestByStep(Run(s, acts[..|acts| - 1]), acts[|acts| - 1], s.status.rest);
    }
  }

  /** The handler, undisturbed, does to the card what the whole operation does. */
  lemma HandlerAlone(chip: Chip, s: State, r: Regs)
    requires chip != CH365 && s.isr == Out && s.status == Unpack(r.status) && s.intmode == r.intmode
    ensures var two := Next(Next(s, Handler), Handler);
            var four := Next(Next(two, Handler), Handler);
            if Claims(chip, r.status, r.intmode) then
              four == s.(status := Unpack(AfterIsr(chip, r).status), signals := s.signals + 1, twice := four.twice)
            else two == s && r == AfterIsr(chip, r)
  {
    UnpackedFaithfully(chip, r.status, r.status, r.intmode);
  }
}
