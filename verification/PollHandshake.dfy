/** The 2013 driver's hand-over from interrupt handler to poll(): an unlocked `poll_flag` shared by
    one handler and any number of pollers. Every access of shared state is one step; a run is any
    interleaving of steps. */
module PollHandshake {

  /** Where the handler of the device's interrupt line stands. The kernel never enters it twice. */
  datatype HandlerPc =
    | Out
    | Checked(sawInta: bool)  // status register read, latch bit tested
    | FlagSet                 // poll_flag raised
    | Woken                   // wait queue woken, latch still to be cleared

  /** Where one poll() call stands. */
  datatype PollerPc =
    | Queued   // on the wait queue, about to test poll_flag
    | Saw      // found poll_flag raised, about to clear it
    | Cleared  // cleared it, about to return POLLIN
    | Asleep   // found it down; sleeps unless triggered

  datatype Poller = Poller(pc: PollerPc, triggered: bool)

  /** `Pulsed(late)`: the card raised its interrupt; `late` if the handler had already raised the
      flag for an earlier one and not yet cleared the latch. */
  datatype Event = Pulsed(late: bool) | Handled | Pollin(p: nat)

  datatype State = State(inta: bool, flag: bool, handler: HandlerPc, pollers: map<nat, Poller>, log: seq<Event>)

  datatype Action =
    | Pulse             // the card latches an interrupt
    | Handler           // the handler takes its next step
    | Register(p: nat)  // p enters poll() and joins the wait queue
    | Advance(p: nat)   // p takes its next step
    | Timeout(p: nat)   // p gives up sleeping

  const Initial := State(false, false, Out, map[], [])

  predicate PastFlag(h: HandlerPc) { h.FlagSet? || h.Woken? }

  function WakeAll(pollers: map<nat, Poller>): map<nat, Poller> {
    map p | p in pollers :: pollers[p].(triggered := true)
  }

  function HandlerStep(s: State): State {
    match s.handler
    case Out => s.(handler := Checked(s.inta))
    case Checked(saw) =>
      if saw then s.(flag := true, handler := FlagSet, log := s.log + [Handled]) else s.(handler := Out)
    case FlagSet => s.(pollers := WakeAll(s.pollers), handler := Woken)
    case Woken => s.(inta := false, handler := Out)
  }

  function PollerStep(s: State, p: nat): State
    requires p in s.pollers
  {
    var me := s.pollers[p];
    match me.pc
    case Queued => s.(pollers := s.pollers[p := me.(pc := if s.flag then Saw else Asleep)])
    case Saw => s.(flag := false, pollers := s.pollers[p := me.(pc := Cleared)])
    case Cleared => s.(pollers := s.pollers - {p}, log := s.log + [Pollin(p)])
    case Asleep => if me.triggered then s.(pollers := s.pollers[p := Poller(Queued, false)]) else s
  }

  /** One step; an action that is not possible leaves the state alone. */
  function Next(s: State, a: Action): State {
    match a
    case Pulse => s.(inta := true, log := s.log + [Pulsed(PastFlag(s.handler))])
    case Handler => HandlerStep(s)
    case Register(p) => if p in s.pollers then s else s.(pollers := s.pollers[p := Poller(Queued, false)])
    case Advance(p) => if p in s.pollers then PollerStep(s, p) else s
    case Timeout(p) => if p in s.pollers && s.pollers[p].pc.Asleep? then s.(pollers := s.pollers - {p}) else s
  }

  function Run(s: State, acts: seq<Action>): State {
    if acts == [] then s else Next(Run(s, acts[..|acts| - 1]), acts[|acts| - 1])
  }

  // ------------------------------------------------------------ no lost event

  predicate PollinAfter(log: seq<Event>, i: nat) {
    exists j :: i < j < |log| && log[j].Pollin?
  }

  predicate HandledAfter(log: seq<Event>, i: nat) {
    exists j :: i < j < |log| && log[j].Handled?
  }

  /** Some poll() has seen the flag and will still return POLLIN. */
  predicate PollinPending(s: State) {
    exists p :: p in s.pollers && (s.pollers[p].pc.Saw? || s.pollers[p].pc.Cleared?)
  }

  /** The event at position i of the log has reached a poller, or is on its way to one. */
  predicate Delivered(s: State, i: nat) {
    PollinAfter(s.log, i) || s.flag || PollinPending(s)
  }

  ghost predicate EventsKept(s: State) {
    && (forall i :: 0 <= i < |s.log| && s.log[i] == Handled ==> Delivered(s, i))
    && (forall i :: 0 <= i < |s.log| && s.log[i] == Pulsed(false) ==>
          (s.inta && !PastFlag(s.handler)) || HandledAfter(s.log, i))
    && (s.handler == Checked(true) ==> s.inta)
  }

  lemma LogGrows(s: State, a: Action)
    ensures s.log <= Next(s, a).log
  {
  }

  lemma EventsKeptByStep(s: State, a: Action)
    requires EventsKept(s)
    ensures EventsKept(Next(s, a))
  {
    var t := Next(s, a);
    LogGrows(s, a);
    forall i | 0 <= i < |t.log| && t.log[i] == Handled
      ensures Delivered(t, i)
    {
      DeliveredByStep(s, a, i);
    }
    forall i | 0 <= i < |t.log| && t.log[i] == Pulsed(false)
      ensures (t.inta && !PastFlag(t.handler)) || HandledAfter(t.log, i)
    {
      if i < |s.log| && HandledAfter(s.log, i) {
        var j :| i < j < |s.log| && s.log[j].Handled?;
        assert t.log[j].Handled?;
      } else if s.handler == Checked(true) && a == Handler {
        assert t.log[|s.log|].Handled?;
      }
    }
  }

  lemma DeliveredByStep(s: State, a: Action, i: nat)
    requires i < |Next(s, a).log|
    requires if i < |s.log| then Delivered(s, i) else Next(s, a).log[i] == Handled
    ensures Delivered(Next(s, a), i)
  {
    var t := Next(s, a);
    if i < |s.log| {
      LogGrows(s, a);
      if PollinAfter(s.log, i) {
        var j :| i < j < |s.log| && s.log[j].Pollin?;
        assert t.log[j].Pollin?;
      } else if PollinPending(s) {
        var p :| p in s.pollers && (s.pollers[p].pc.Saw? || s.pollers[p].pc.Cleared?);
        if a == Advance(p) && s.pollers[p].pc.Cleared? {
          assert t.log[|s.log|].Pollin?;
        } else {
          assert p in t.pollers && (t.pollers[p].pc.Saw? || t.pollers[p].pc.Cleared?);
        }
      }
    }
  }

  lemma {:induction false} EventsKeptByRun(acts: seq<Action>)
    ensures EventsKept(Run(Initial, acts))
  {
    if acts != [] {
      EventsKeptByRun(acts[..|acts| - 1]);
      EventsKeptByStep(Run(Initial, acts[..|acts| - 1]), acts[|acts| - 1]);
    }
  }

  /** After any interleaving, every handled interrupt has been followed by a POLLIN return, or the
      flag is up, or some poll() that saw the flag has yet to return. */
  lemma NoHandledInterruptLost(acts: seq<Action>, i: nat)
    requires i < |Run(Initial, acts).log| && Run(Initial, acts).log[i] == Handled
    ensures Delivered(Run(Initial, acts), i)
  {
    EventsKeptByRun(acts);
  }

  /** End to end: a pulse that did not fall between the handler's raising the flag and its clearing
      the latch is still latched for the handler to find, or delivered in the sense above. */
  lemma NoTimelyPulseLost(acts: seq<Action>, i: nat)
    requires i < |Run(Initial, acts).log| && Run(Initial, acts).log[i] == Pulsed(false)
    ensures var s := Run(Initial, acts); (s.inta && !PastFlag(s.handler)) || Delivered(s, i)
  {
    EventsKeptByRun(acts);
    var s := Run(Initial, acts);
    if HandledAfter(s.log, i) {
      var j :| i < j < |s.log| && s.log[j].Handled?;
      assert Delivered(s, j);
      if PollinAfter(s.log, j) {
        var k :| j < k < |s.log| && s.log[k].Pollin?;
        assert s.log[k].Pollin?;
      }
    }
  }

  lemma RunSnoc(s: State, acts: seq<Action>, a: Action)
    ensures Run(s, acts + [a]) == Next(Run(s, acts), a)
  {
    assert (acts + [a])[..|acts|] == acts;
  }

  lemma RunTwo(s: State, a: Action, b: Action)
    ensures Run(s, [a, b]) == Next(Next(s, a), b)
  {
    RunSnoc(s, [], a);
    RunSnoc(s, [a], b);
    assert [a] + [b] == [a, b];
  }

  lemma RunFour(s: State, a: Action, b: Action, c: Action, d: Action)
    ensures Run(s, [a, b, c, d]) == Next(Next(Next(Next(s, a), b), c), d)
  {
    RunTwo(s, a, b);
    RunSnoc(s, [a, b], c);
    RunSnoc(s, [a, b, c], d);
    assert [a, b] + [c] == [a, b, c] && [a, b, c] + [d] == [a, b, c, d];
  }

  lemma {:induction false} RunConcat(s: State, xs: seq<Action>, ys: seq<Action>)
    ensures Run(s, xs + ys) == Run(Run(s, xs), ys)
  {
    if ys == [] {
      assert xs + ys == xs;
    } else {
      assert (xs + ys)[..|xs + ys| - 1] == xs + ys[..|ys| - 1];
      RunConcat(s, xs, ys[..|ys| - 1]);
    }
  }

  // ------------------------------------------------------------ what becomes of one pulse

  /** The pulse at position i of the log is latched for the handler to find, or delivered. */
  predicate Kept(s: State, i: nat) {
    (s.inta && !PastFlag(s.handler)) || Delivered(s, i)
  }

  /** And so it is in every continuation. */
  ghost predicate KeptForever(s: State, i: nat) {
    forall more :: Kept(Run(s, more), i)
  }

  lemma {:induction false} LogGrowsByRun(s: State, more: seq<Action>)
    ensures s.log <= Run(s, more).log
  {
    if more != [] {
      LogGrowsByRun(s, more[..|more| - 1]);
      LogGrows(Run(s, more[..|more| - 1]), more[|more| - 1]);
    }
  }

  lemma {:induction false} DeliveredByRun(s: State, more: seq<Action>, i: nat)
    requires i < |s.log| && Delivered(s, i)
    ensures Delivered(Run(s, more), i)
  {
    if more != [] {
      var init := more[..|more| - 1];
      DeliveredByRun(s, init, i);
      LogGrowsByRun(s, init);
      LogGrows(Run(s, init), more[|more| - 1]);
      DeliveredByStep(Run(s, init), more[|more| - 1], i);
    }
  }

  lemma TimelyPulseKept(acts: seq<Action>, more: seq<Action>)
    requires !PastFlag(Run(Initial, acts).handler)
    ensures Kept(Run(Next(Run(Initial, acts), Pulse), more), |Run(Initial, acts).log|)
  {
    var s := Run(Initial, acts);
    RunSnoc(Initial, acts, Pulse);
    RunConcat(Initial, acts + [Pulse], more);
    LogGrowsByRun(Next(s, Pulse), more);
    assert Next(s, Pulse).log[|s.log|] == Pulsed(false);
    NoTimelyPulseLost(acts + [Pulse] + more, |s.log|);
  }

  lemma LatePulseNotKept(s: State)
    requires PastFlag(s.handler) && !s.flag && !PollinPending(s)
    ensures !Kept(Next(s, Pulse), |s.log|)
  {
    assert Next(s, Pulse).pollers == s.pollers;
  }

  /** A pulse arriving after any interleaving stays latched for the handler to find, or is delivered,
      in every continuation, if and only if, when it arrives, the handler is not between raising the
      flag and clearing the latch, or the flag is up, or some poll() that saw it has yet to return. */
  lemma PulseKeptIff(acts: seq<Action>)
    ensures var s := Run(Initial, acts);
            KeptForever(Next(s, Pulse), |s.log|) <==> !PastFlag(s.handler) || s.flag || PollinPending(s)
  {
    var s := Run(Initial, acts);
    var t := Next(s, Pulse);
    if !PastFlag(s.handler) {
      forall more ensures Kept(Run(t, more), |s.log|) {
        TimelyPulseKept(acts, more);
      }
    } else if s.flag || PollinPending(s) {
      PendingStays(s);
      forall more ensures Kept(Run(t, more), |s.log|) {
        DeliveredByRun(t, more, |s.log|);
      }
    } else {
      LatePulseNotKept(s);
      var none: seq<Action> := [];
      assert Run(t, none) == t;
    }
  }

  lemma PendingStays(s: State)
    requires s.flag || PollinPending(s)
    ensures Delivered(Next(s, Pulse), |s.log|)
  {
    if PollinPending(s) {
      var p :| p in s.pollers && (s.pollers[p].pc.Saw? || s.pollers[p].pc.Cleared?);
      assert p in Next(s, Pulse).pollers;
    }
  }

  lemma PendingAfterHandler(s: State)
    requires PastFlag(s.handler)
    ensures PollinPending(HandlerStep(s)) <==> PollinPending(s)
  {
    var t := HandlerStep(s);
    assert t.pollers.Keys == s.pollers.Keys;
    assert forall p :: p in s.pollers ==> t.pollers[p].pc == s.pollers[p].pc;
    if PollinPending(s) {
      var p :| p in s.pollers && (s.pollers[p].pc.Saw? || s.pollers[p].pc.Cleared?);
      assert p in t.pollers;
    }
    if PollinPending(t) {
      var p :| p in t.pollers && (t.pollers[p].pc.Saw? || t.pollers[p].pc.Cleared?);
      assert p in s.pollers;
    }
  }

  /** Otherwise it is lost for good: once the handler has finished, alone, the latch and the flag are
      down and nobody is about to report anything. */
  lemma LatePulseIsWiped(s: State)
    requires PastFlag(s.handler) && !s.flag && !PollinPending(s)
    ensures var t := Next(s, Pulse);
            var u := if s.handler == FlagSet then HandlerStep(HandlerStep(t)) else HandlerStep(t);
            u.handler == Out && !u.inta && !u.flag && !Delivered(u, |s.log|)
  {
    LatePulseNotKept(s);
    var t := Next(s, Pulse);
    PendingAfterHandler(t);
    if s.handler == FlagSet {
      PendingAfterHandler(HandlerStep(t));
    }
  }

  /** A pulse inside that window can be lost: here the first pulse is handled and its POLLIN
      returned before the handler clears the latch, and the clear wipes the second pulse too. */
  lemma LatePulseCanBeLost(p: nat)
    ensures Run(Initial, [Pulse, Handler, Handler, Handler]
                         + [Register(p), Advance(p), Advance(p), Advance(p)]
                         + [Pulse, Handler])
            == State(false, false, Out, map[], [Pulsed(false), Handled, Pollin(p), Pulsed(true)])
  {
    var handled := [Pulse, Handler, Handler, Handler];
    var polled := [Register(p), Advance(p), Advance(p), Advance(p)];
    RunConcat(Initial, handled + polled, [Pulse, Handler]);
    RunConcat(Initial, handled, polled);
    HandledUpToClear();
    var s := State(true, true, Woken, map[], [Pulsed(false), Handled]);
    PollAlone(s, p);
    RunTwo(s.(flag := false, log := s.log + [Pollin(p)]), Pulse, Handler);
  }

  lemma HandledUpToClear()
    ensures Run(Initial, [Pulse, Handler, Handler, Handler])
            == State(true, true, Woken, map[], [Pulsed(false), Handled])
  {
    RunFour(Initial, Pulse, Handler, Handler, Handler);
    assert WakeAll(map[]) == map[];
  }

  // ------------------------------------------------------------ no lost wake-up

  /** A poller that found the flag down and has not been triggered sleeps through a raised flag
      only in the moment between the handler's raising it and its wake-up call. */
  predicate NoSleepThroughFlag(s: State) {
    s.flag && s.handler != FlagSet ==>
      forall p :: p in s.pollers && s.pollers[p].pc.Asleep? ==> s.pollers[p].triggered
  }

  lemma {:induction false} NoWakeupLost(acts: seq<Action>)
    ensures NoSleepThroughFlag(Run(Initial, acts))
  {
    if acts != [] {
      NoWakeupLost(acts[..|acts| - 1]);
      var s, a := Run(Initial, acts[..|acts| - 1]), acts[|acts| - 1];
      var t := Next(s, a);
      assert a == Handler && s.handler == FlagSet ==> forall p :: p in t.pollers ==> t.pollers[p].triggered;
    }
  }

  /** A sleeper that was triggered tests the flag again, and if it is up returns POLLIN after its next
      steps; one that was not triggered sleeps on. */
  lemma WokenReports(s: State, p: nat)
    requires p in s.pollers && s.pollers[p].pc.Asleep?
    ensures s.pollers[p].triggered && s.flag ==>
              Run(s, [Advance(p), Advance(p), Advance(p), Advance(p)])
              == s.(flag := false, pollers := s.pollers - {p}, log := s.log + [Pollin(p)])
    ensures s.pollers[p].triggered && !s.flag ==>
              Run(s, [Advance(p), Advance(p)]) == s.(pollers := s.pollers[p := Poller(Asleep, false)])
    ensures !s.pollers[p].triggered ==> Next(s, Advance(p)) == s
  {
    RunTwo(s, Advance(p), Advance(p));
    RunFour(s, Advance(p), Advance(p), Advance(p), Advance(p));
    var queued := s.pollers[p := Poller(Queued, false)];
    assert queued[p := Poller(Saw, false)][p := Poller(Cleared, false)] - {p} == s.pollers - {p};
    assert queued[p := Poller(Asleep, false)] == s.pollers[p := Poller(Asleep, false)];
  }

  // ------------------------------------------------------------ no invented event

  function CountHandled(log: seq<Event>): nat {
    if log == [] then 0 else CountHandled(log[..|log| - 1]) + if log[|log| - 1].Handled? then 1 else 0
  }

  function CountPollin(log: seq<Event>): nat {
    if log == [] then 0 else CountPollin(log[..|log| - 1]) + if log[|log| - 1].Pollin? then 1 else 0
  }

  lemma CountSnoc(log: seq<Event>, e: Event)
    ensures CountHandled(log + [e]) == CountHandled(log) + (if e.Handled? then 1 else 0)
    ensures CountPollin(log + [e]) == CountPollin(log) + (if e.Pollin? then 1 else 0)
  {
    assert (log + [e])[..|log|] == log;
  }

  /** POLLIN returns still owed to poller p. */
  function Owed(s: State, p: nat): nat {
    (if s.flag then 1 else 0) + if p in s.pollers && s.pollers[p].pc.Cleared? then 1 else 0
  }

  predicate OnlyPoller(s: State, p: nat) {
    && (forall q :: q in s.pollers ==> q == p)
    && (p in s.pollers && s.pollers[p].pc.Saw? ==> s.flag)
  }

  predicate By(a: Action, p: nat) {
    (a.Register? || a.Advance? || a.Timeout?) ==> a.p == p
  }

  predicate Accounted(s: State, p: nat) {
    OnlyPoller(s, p) && CountPollin(s.log) + Owed(s, p) <= CountHandled(s.log)
  }

  lemma AccountedByHandler(s: State, p: nat)
    requires Accounted(s, p)
    ensures Accounted(HandlerStep(s), p)
  {
    CountSnoc(s.log, Handled);
    assert Owed(HandlerStep(s), p) <= Owed(s, p) + if s.handler == Checked(true) then 1 else 0;
  }

  lemma AccountedByPoller(s: State, p: nat)
    requires Accounted(s, p) && p in s.pollers
    ensures Accounted(PollerStep(s, p), p)
  {
    CountSnoc(s.log, Pollin(p));
  }

  lemma AccountedByStep(s: State, a: Action, p: nat)
    requires Accounted(s, p) && By(a, p)
    ensures Accounted(Next(s, a), p)
  {
    if a.Handler? {
      AccountedByHandler(s, p);
    } else if a.Advance? {
      if p in s.pollers { AccountedByPoller(s, p); }
    } else if a.Pulse? {
      CountSnoc(s.log, Pulsed(PastFlag(s.handler)));
    }
  }

  /** If only one thread polls, it gets no more POLLIN returns than interrupts were handled. */
  lemma {:induction false} OnePollerSeesNoMoreThanHandled(acts: seq<Action>, p: nat)
    requires forall i :: 0 <= i < |acts| ==> By(acts[i], p)
    ensures Accounted(Run(Initial, acts), p)
  {
    if acts != [] {
      OnePollerSeesNoMoreThanHandled(acts[..|acts| - 1], p);
      AccountedByStep(Run(Initial, acts[..|acts| - 1]), acts[|acts| - 1], p);
    }
  }

  predicate HandledBefore(log: seq<Event>, j: nat) {
    exists i :: 0 <= i < |log| && i < j && log[i].Handled?
  }

  /** With any number of pollers, a raised flag or a pending return comes from a handled interrupt,
      and so does every POLLIN return already made. */
  ghost predicate Founded(s: State) {
    && (s.flag || PollinPending(s) ==> HandledBefore(s.log, |s.log|))
    && (forall j :: 0 <= j < |s.log| && s.log[j].Pollin? ==> HandledBefore(s.log, j))
  }

  lemma FoundedStaysFounded(s: State, t: State, j: nat)
    requires s.log <= t.log && HandledBefore(s.log, j)
    ensures forall k :: k >= j ==> HandledBefore(t.log, k)
  {
    var i :| 0 <= i < |s.log| && i < j && s.log[i].Handled?;
    assert t.log[i].Handled?;
  }

  lemma PendingFromFlag(s: State, a: Action)
    requires PollinPending(Next(s, a))
    ensures s.flag || PollinPending(s)
  {
    var t := Next(s, a);
    var p :| p in t.pollers && (t.pollers[p].pc.Saw? || t.pollers[p].pc.Cleared?);
    assert s.flag || (p in s.pollers && (s.pollers[p].pc.Saw? || s.pollers[p].pc.Cleared?));
  }

  lemma FoundedByStep(s: State, a: Action)
    requires Founded(s)
    ensures Founded(Next(s, a))
  {
    var t := Next(s, a);
    LogGrows(s, a);
    forall j | 0 <= j < |t.log| && t.log[j].Pollin? ensures HandledBefore(t.log, j) {
      if j < |s.log| {
        FoundedStaysFounded(s, t, j);
      } else {
        assert s.pollers[a.p].pc.Cleared?;
        assert PollinPending(s);
        FoundedStaysFounded(s, t, |s.log|);
      }
    }
    if a == Handler && s.handler == Checked(true) {
      assert t.log[|s.log|].Handled?;
    } else if t.flag || PollinPending(t) {
      if PollinPending(t) { PendingFromFlag(s, a); }
      FoundedStaysFounded(s, t, |s.log|);
    }
  }

  lemma {:induction false} NoPollinWithoutInterrupt(acts: seq<Action>)
    ensures Founded(Run(Initial, acts))
  {
    if acts != [] {
      NoPollinWithoutInterrupt(acts[..|acts| - 1]);
      FoundedByStep(Run(Initial, acts[..|acts| - 1]), acts[|acts| - 1]);
    }
  }

  lemma BothSee(s: State, p: nat, q: nat)
    requires p != q && s.flag && p !in s.pollers && q !in s.pollers
    ensures Run(s, [Register(p), Register(q), Advance(p), Advance(q)])
            == s.(pollers := s.pollers[p := Poller(Saw, false)][q := Poller(Saw, false)])
  {
    RunFour(s, Register(p), Register(q), Advance(p), Advance(q));
    var queued := s.pollers[p := Poller(Queued, false)][q := Poller(Queued, false)];
    assert queued[p := Poller(Saw, false)][q := Poller(Saw, false)]
      == s.pollers[p := Poller(Saw, false)][q := Poller(Saw, false)];
  }

  lemma BothReport(s: State, p: nat, q: nat, pollers: map<nat, Poller>)
    requires p != q && p !in pollers && q !in pollers
    requires s.pollers == pollers[p := Poller(Saw, false)][q := Poller(Saw, false)]
    ensures Run(s, [Advance(p), Advance(q), Advance(p), Advance(q)])
            == s.(pollers := pollers, flag := false, log := s.log + [Pollin(p), Pollin(q)])
  {
    RunFour(s, Advance(p), Advance(q), Advance(p), Advance(q));
    var cleared := Next(Next(s, Advance(p)), Advance(q));
    assert cleared == s.(flag := false, pollers := pollers[p := Poller(Cleared, false)][q := Poller(Cleared, false)]);
    assert cleared.pollers - {p} - {q} == pollers;
  }

  /** Two pollers can both report one interrupt: both test the flag before either clears it. */
  lemma TwoPollersCanShareOneInterrupt(s: State, p: nat, q: nat)
    requires p != q && s.flag && p !in s.pollers && q !in s.pollers
    ensures var t := Run(s, [Register(p), Register(q), Advance(p), Advance(q)]
                            + [Advance(p), Advance(q), Advance(p), Advance(q)]);
            t == s.(flag := false, log := s.log + [Pollin(p), Pollin(q)])
  {
    BothSee(s, p, q);
    var both := s.(pollers := s.pollers[p := Poller(Saw, false)][q := Poller(Saw, false)]);
    BothReport(both, p, q, s.pollers);
    RunConcat(s, [Register(p), Register(q), Advance(p), Advance(q)], [Advance(p), Advance(q), Advance(p), Advance(q)]);
  }

  /** Every step of a poll() is one by a thread of this set. */
  predicate ByAny(acts: seq<Action>, who: set<nat>) {
    forall i :: 0 <= i < |acts| && (acts[i].Register? || acts[i].Advance? || acts[i].Timeout?) ==> acts[i].p in who
  }

  lemma TwoReportOne(p: nat, q: nat)
    requires p != q
    ensures Run(Initial, [Pulse, Handler, Handler]
                         + ([Register(p), Register(q), Advance(p), Advance(q)]
                            + [Advance(p), Advance(q), Advance(p), Advance(q)]))
            == State(true, false, FlagSet, map[], [Pulsed(false), Handled, Pollin(p), Pollin(q)])
  {
    var handled := [Pulse, Handler, Handler];
    var polled := [Register(p), Register(q), Advance(p), Advance(q)] + [Advance(p), Advance(q), Advance(p), Advance(q)];
    RunConcat(Initial, handled, polled);
    RunTwo(Initial, Pulse, Handler);
    RunSnoc(Initial, [Pulse, Handler], Handler);
    assert [Pulse, Handler] + [Handler] == handled;
    var s := State(true, true, FlagSet, map[], [Pulsed(false), Handled]);
    assert Run(Initial, handled) == s;
    TwoPollersCanShareOneInterrupt(s, p, q);
  }

  lemma CountTwoReports(p: nat, q: nat)
    ensures CountPollin([Pulsed(false), Handled, Pollin(p), Pollin(q)]) == 2
    ensures CountHandled([Pulsed(false), Handled, Pollin(p), Pollin(q)]) == 1
  {
    CountSnoc([], Pulsed(false));
    CountSnoc([Pulsed(false)], Handled);
    CountSnoc([Pulsed(false), Handled], Pollin(p));
    CountSnoc([Pulsed(false), Handled, Pollin(p)], Pollin(q));
    assert [] + [Pulsed(false)] == [Pulsed(false)] && [Pulsed(false)] + [Handled] == [Pulsed(false), Handled];
    assert [Pulsed(false), Handled] + [Pollin(p)] == [Pulsed(false), Handled, Pollin(p)];
    assert [Pulsed(false), Handled, Pollin(p)] + [Pollin(q)] == [Pulsed(false), Handled, Pollin(p), Pollin(q)];
  }

  lemma AtMostOne(who: set<nat>, p: nat, q: nat)
    requires |who| <= 1 && p in who && q in who
    ensures p == q
  {
    assert |who - {p}| == |who| - 1;
    assert q !in who - {p};
  }

  lemma BoundByFew(who: set<nat>, acts: seq<Action>)
    requires |who| <= 1 && ByAny(acts, who)
    ensures CountPollin(Run(Initial, acts).log) <= CountHandled(Run(Initial, acts).log)
  {
    var p := if who == {} then 0 else var q :| q in who; q;
    forall i | 0 <= i < |acts| ensures By(acts[i], p) {
      if acts[i].Register? || acts[i].Advance? || acts[i].Timeout? {
        AtMostOne(who, acts[i].p, p);
      }
    }
    OnePollerSeesNoMoreThanHandled(acts, p);
  }

  /** In all runs of the pollers of a set there are no more POLLIN returns than handled interrupts, if
      and only if the set has at most one poller. */
  lemma NoMoreThanHandledIff(who: set<nat>)
    ensures (forall acts :: ByAny(acts, who) ==>
               CountPollin(Run(Initial, acts).log) <= CountHandled(Run(Initial, acts).log))
            <==> |who| <= 1
  {
    if |who| <= 1 {
      forall acts | ByAny(acts, who)
        ensures CountPollin(Run(Initial, acts).log) <= CountHandled(Run(Initial, acts).log)
      {
        BoundByFew(who, acts);
      }
    } else {
      var p :| p in who;
      assert |who - {p}| == |who| - 1;
      var q :| q in who - {p};
      var acts := [Pulse, Handler, Handler]
                  + ([Register(p), Register(q), Advance(p), Advance(q)]
                     + [Advance(p), Advance(q), Advance(p), Advance(q)]);
      TwoReportOne(p, q);
      CountTwoReports(p, q);
      assert ByAny(acts, who);
    }
  }

  // ------------------------------------------------------------ the driver's own code

  lemma HandlerAlone(s: State)
    requires s.handler == Out
    ensures s.inta ==> Run(s, [Handler, Handler, Handler, Handler])
                       == State(false, true, Out, WakeAll(s.pollers), s.log + [Handled])
    ensures !s.inta ==> Run(s, [Handler, Handler]) == s
  {
    RunTwo(s, Handler, Handler);
    RunFour(s, Handler, Handler, Handler, Handler);
  }

  lemma PollAlone(s: State, p: nat)
    requires p !in s.pollers
    ensures s.flag ==> Run(s, [Register(p), Advance(p), Advance(p), Advance(p)])
                       == s.(flag := false, log := s.log + [Pollin(p)])
    ensures !s.flag ==> Run(s, [Register(p), Advance(p)])
                        == s.(pollers := s.pollers[p := Poller(Asleep, false)])
  {
    RunTwo(s, Register(p), Advance(p));
    RunFour(s, Register(p), Advance(p), Advance(p), Advance(p));
    var queued := s.pollers[p := Poller(Queued, false)];
    assert queued[p := Poller(Saw, false)][p := Poller(Cleared, false)] - {p} == s.pollers;
    assert s.pollers[p := Poller(Queued, false)][p := Poller(Asleep, false)] == s.pollers[p := Poller(Asleep, false)];
  }

  const INTA: bv8 := 0x04
  const POLLIN := 1

  lemma ClearsLatch(status: bv8)
    ensures (status & 0xfb) & INTA == 0
    ensures status & INTA == 0 ==> status & 0xfb == status
  {
  }

  /** The driver's record of one card, with the card's interrupt status register. */
  class Card {
    var status: bv8
    var pollFlag: bool
    ghost var pollers: map<nat, Poller>
    ghost var log: seq<Event>

    ghost function Model(): State
      reads this
    {
      State(status & INTA != 0, pollFlag, Out, pollers, log)
    }

    constructor (status: bv8)
      requires status & INTA == 0
      ensures Model() == Initial
    {
      this.status := status;
      pollFlag := false;
      pollers := map[];
      log := [];
    }

    /** The handler, undisturbed. It takes its two or four steps, and of the status register it
        changes the latch bit alone. */
    method InterruptHandler() returns (handled: bool)
      modifies this
      ensures handled <==> old(status & INTA != 0)
      ensures Model() == Run(old(Model()), if handled then [Handler, Handler, Handler, Handler] else [Handler, Handler])
      ensures status == old(status) & 0xfb
    {
      ghost var s := Model();
      HandlerAlone(s);
      ClearsLatch(status);
      var readByte := status;
      if readByte & INTA == 0 {
        return false;
      }
      pollFlag := true;
      log := log + [Handled];
      pollers := WakeAll(pollers);
      status := readByte & 0xfb;
      return true;
    }

    /** One undisturbed call of the poll operation for a thread not already waiting. */
    method FopsPoll(p: nat) returns (mask: nat)
      requires p !in pollers
      modifies this
      ensures mask == if old(pollFlag) then 0x0001 else 0
      ensures Model() == Run(old(Model()), if mask == 0x0001 then [Register(p), Advance(p), Advance(p), Advance(p)]
                                           else [Register(p), Advance(p)])
      ensures status == old(status) && !pollFlag
    {
      ghost var s := Model();
      PollAlone(s, p);
      mask := 0;
      if pollFlag {
        mask := POLLIN;
        pollFlag := false;
        log := log + [Pollin(p)];
      } else {
        pollers := pollers[p := Poller(Asleep, false)];
      }
    }
  }
}
