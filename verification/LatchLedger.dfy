/** Does the number of interrupts latched equal the number signalled, plus the latches cleared by mode
    changes, plus the one still set? Exactly on which schedules of edge-triggered runs. */
module LatchLedger {
  import Modes = InterruptModes
  import opened InterruptRaces

  /** Edge modes, and modes in which the handler claims nothing. */
  predicate NoLevel(m: Modes.Mode) { m != Modes.INT_LOW && m != Modes.INT_HIGH }

  predicate EdgeOnly(acts: seq<Action>) {
    forall i :: 0 <= i < |acts| && acts[i].Begin? && acts[i].op.On? ==> NoLevel(acts[i].op.mode)
  }

  predicate ModesHaveNoLevel(s: State) {
    NoLevel(s.intmode) && forall t :: t in s.calls ==> NoLevel(ModeOf(s.calls[t]))
  }

  lemma ModesByCall(s: State, t: nat)
    requires ModesHaveNoLevel(s) && t in s.calls
    ensures ModesHaveNoLevel(CallStep(s, t, s.calls[t]))
  {
    if !Last(s.calls[t]) {
      ModeKept(s.calls[t], s.intcr, s.status);
    }
  }

  lemma ModesByStep(s: State, a: Action)
    requires ModesHaveNoLevel(s)
    requires a.Begin? && a.op.On? ==> NoLevel(a.op.mode)
    ensures ModesHaveNoLevel(Next(s, a))
  {
    if a.Go? && a.t in s.calls {
      ModesByCall(s, a.t);
    }
  }

  lemma {:induction false} ModesByRun(s: State, acts: seq<Action>)
    requires Fresh(s) && NoLevel(s.intmode) && EdgeOnly(acts)
    ensures ModesHaveNoLevel(Run(s, acts))
  {
    if acts != [] {
      ModesByRun(s, acts[..|acts| - 1]);
      ModesByStep(Run(s, acts[..|acts| - 1]), acts[|acts| - 1]);
    }
  }

  // ------------------------------------------------------------ letting the handler finish

  function HandlerLeft(h: Isr): nat {
    match h
    case Out => 0
    case Deciding(_) => 3
    case Signalling(_) => 2
    case Clearing(_) => 1
  }

  /** The handler runs to its end with nothing in between. */
  function Settle(x: State): (y: State)
    ensures y.isr == Out
    decreases HandlerLeft(x.isr)
  {
    if x.isr == Out then x else Settle(IsrStep(x))
  }

  predicate Even(x: State) {
    x.latched == x.signals + x.cleared + Count(x.status.latch)
  }

  /** The handler has claimed a latch, or is about to. */
  predicate HasClaimed(x: State) {
    x.isr.Signalling? || x.isr.Clearing? || (x.isr.Deciding? && Ours(x.isr.stat, x.intmode))
  }

  /** The latch it has claimed is no longer set. */
  predicate Stale(x: State) { HasClaimed(x) && !x.status.latch }

  lemma {:induction false} SettleCounts(x: State)
    requires Balanced(x)
    ensures Balanced(Settle(x)) && Settle(x).twice == x.twice + Count(Stale(x))
    decreases HandlerLeft(x.isr)
  {
    if x.isr != Out {
      BalancedByHandler(x);
      SettleCounts(IsrStep(x));
    }
  }

  predicate Sound(x: State) { x.twice == 0 && !Stale(x) }

  lemma EvenIffSound(x: State)
    requires Balanced(x)
    ensures Even(Settle(x)) <==> Sound(x)
  {
    SettleCounts(x);
  }

  // ------------------------------------------------------------ the steps that spoil it

  /** A mode change writes the status register after the handler has claimed a latch; or it is set
      while the handler decides on a latch already cleared, and makes it claim that. */
  predicate Spoils(x: State, a: Action) {
    && a.Go? && a.t in x.calls
    && var c := x.calls[a.t];
       if WritesStatus(c) then HasClaimed(x)
       else Last(c) && x.isr.Deciding? && !x.status.latch && Ours(x.isr.stat, ModeOf(c))
  }

  predicate SpoilsNth(s: State, acts: seq<Action>, i: nat)
    requires i < |acts|
  {
    Spoils(Run(s, acts[..i]), acts[i])
  }

  predicate NoSpoil(s: State, acts: seq<Action>) {
    forall i :: 0 <= i < |acts| ==> !SpoilsNth(s, acts, i)
  }

  lemma SoundByCall(x: State, t: nat)
    requires Sound(x) && t in x.calls
    ensures Sound(CallStep(x, t, x.calls[t])) <==> !Spoils(x, Go(t))
  {
  }

  lemma SoundByHandler(x: State)
    requires Sound(x) && NoLevel(x.intmode)
    ensures Sound(IsrStep(x))
  {
  }

  lemma SoundByStep(x: State, a: Action)
    requires Sound(x) && ModesHaveNoLevel(x)
    ensures Sound(Next(x, a)) <==> !Spoils(x, a)
  {
    match a
    case Begin(t, op) =>
    case Go(t) => if t in x.calls { SoundByCall(x, t); }
    case Handler => SoundByHandler(x);
    case Pin(level, latch) =>
  }

  lemma SamePrefix(s: State, acts: seq<Action>, n: nat, i: nat)
    requires i < n <= |acts|
    ensures SpoilsNth(s, acts[..n], i) == SpoilsNth(s, acts, i)
  {
    assert acts[..n][..i] == acts[..i];
  }

  lemma NoSpoilPrefix(s: State, acts: seq<Action>, n: nat)
    requires NoSpoil(s, acts) && n <= |acts|
    ensures NoSpoil(s, acts[..n])
  {
    forall i | 0 <= i < n ensures !SpoilsNth(s, acts[..n], i) {
      SamePrefix(s, acts, n, i);
    }
  }

  lemma {:induction false} SoundByRun(s: State, acts: seq<Action>)
    requires Fresh(s) && NoLevel(s.intmode) && EdgeOnly(acts) && NoSpoil(s, acts)
    ensures Sound(Run(s, acts))
  {
    if acts != [] {
      var last := |acts| - 1;
      NoSpoilPrefix(s, acts, last);
      SoundByRun(s, acts[..last]);
      ModesByRun(s, acts[..last]);
      assert !SpoilsNth(s, acts, last);
      SoundByStep(Run(s, acts[..last]), acts[last]);
    }
  }

  /** The counts agree once the handler has finished, from where the run stands after j steps. */
  predicate EvenAt(s: State, acts: seq<Action>, j: nat)
    requires j <= |acts|
  {
    Even(Settle(Run(s, acts[..j])))
  }

  lemma EvenAtIff(s: State, acts: seq<Action>, j: nat)
    requires Fresh(s) && j <= |acts|
    ensures EvenAt(s, acts, j) <==> Sound(Run(s, acts[..j]))
  {
    LedgerBalances(s, acts[..j]);
    EvenIffSound(Run(s, acts[..j]));
  }

  lemma OneStepOn(s: State, acts: seq<Action>, i: nat)
    requires i < |acts|
    ensures Run(s, acts[..i + 1]) == Next(Run(s, acts[..i]), acts[i])
  {
    assert acts[..i + 1][..i] == acts[..i];
  }

  lemma SpoiltAt(s: State, acts: seq<Action>, i: nat)
    requires Fresh(s) && NoLevel(s.intmode) && EdgeOnly(acts)
    requires i < |acts| && SpoilsNth(s, acts, i) && EvenAt(s, acts, i)
    ensures !EvenAt(s, acts, i + 1)
  {
    EvenAtIff(s, acts, i);
    EvenAtIff(s, acts, i + 1);
    ModesByRun(s, acts[..i]);
    OneStepOn(s, acts, i);
    SoundByStep(Run(s, acts[..i]), acts[i]);
  }

  lemma EvenUnlessSpoilt(s: State, acts: seq<Action>, j: nat)
    requires Fresh(s) && NoLevel(s.intmode) && EdgeOnly(acts) && NoSpoil(s, acts) && j <= |acts|
    ensures EvenAt(s, acts, j)
  {
    NoSpoilPrefix(s, acts, j);
    SoundByRun(s, acts[..j]);
    EvenAtIff(s, acts, j);
  }

  /** With edge modes only, on any number of processors: at every point of a run latches equal signals
      sent, plus the latch still set, plus latches cleared by mode changes, once the handler has
      finished, if and only if no step of the run spoils it. */
  lemma ConservationIff(s: State, acts: seq<Action>)
    requires Fresh(s) && NoLevel(s.intmode) && EdgeOnly(acts)
    ensures (forall j :: 0 <= j <= |acts| ==> EvenAt(s, acts, j)) <==> NoSpoil(s, acts)
  {
    if NoSpoil(s, acts) {
      forall j | 0 <= j <= |acts| ensures EvenAt(s, acts, j) {
        EvenUnlessSpoilt(s, acts, j);
      }
    } else {
      var i :| 0 <= i < |acts| && SpoilsNth(s, acts, i);
      if EvenAt(s, acts, i) {
        SpoiltAt(s, acts, i);
      }
    }
  }

  /** In particular latches equal signals, clears and the latch still set whenever the handler is idle. */
  lemma SignalConservation(s: State, acts: seq<Action>)
    requires Fresh(s) && NoLevel(s.intmode) && EdgeOnly(acts) && NoSpoil(s, acts) && Run(s, acts).isr == Out
    ensures var t := Run(s, acts); t.latched == t.signals + t.cleared + Count(t.status.latch)
  {
    EvenUnlessSpoilt(s, acts, |acts|);
    assert acts[..|acts|] == acts;
  }

  /** And then no latch is lost: every one is signalled, cleared by a mode change, or stays set,
      whatever follows. */
  lemma EveryLatchKept(s: State, acts: seq<Action>, level: bool, more: seq<Action>)
    requires Fresh(s) && NoLevel(s.intmode) && EdgeOnly(acts) && NoSpoil(s, acts) && !Run(s, acts).status.latch
    ensures Kept(Run(s, acts), Run(Next(Run(s, acts), Pin(level, true)), more))
  {
    SoundByRun(s, acts);
    LatchKeptIff(Run(s, acts), level);
  }

  // ------------------------------------------------------------ one processor and two

  /** Mode changes move only while the handler is idle, as when it preempts them on one processor. */
  predicate Nested(s: State, acts: seq<Action>) {
    forall i :: 0 <= i < |acts| && acts[i].Go? ==> Run(s, acts[..i]).isr == Out
  }

  /** On one processor nothing is spoilt. */
  lemma NestedSpoilsNothing(s: State, acts: seq<Action>)
    requires Nested(s, acts)
    ensures NoSpoil(s, acts)
  {
    forall i | 0 <= i < |acts| ensures !SpoilsNth(s, acts, i) {
      assert acts[i].Go? ==> Run(s, acts[..i]).isr == Out;
    }
  }

  /** On two it can be: an enable's status write clears the latch that the handler, running beside it,
      has claimed already. One latch is both signalled and counted as cleared. */
  lemma OneLatchCanCountTwice(s: State, t: nat, m: Modes.Mode, level: bool)
    requires Fresh(s) && (s.intmode == Modes.INT_RISING || s.intmode == Modes.INT_FALLING)
    ensures var u := Run(s, [Begin(t, Modes.On(m))] + Goes(t, 5)
                            + [Pin(level, true), Handler, Handler, Go(t), Handler]);
            var w := Next(u, Handler);
            w.isr == Out && !w.status.latch && w.latched == 1 && w.signals == 1 && w.cleared == 1 && w.twice == 1
  {
    ToStatusWrite(s, t, m);
    var c := Run(s, [Begin(t, Modes.On(m))] + Goes(t, 5));
    RunConcat(s, [Begin(t, Modes.On(m))] + Goes(t, 5), [Pin(level, true), Handler, Handler, Go(t), Handler]);
    ClearedUnderHandler(c, t, m, level);
  }

  lemma ClearedUnderHandler(s: State, t: nat, m: Modes.Mode, level: bool)
    requires s.isr == Out && !s.status.latch && (s.intmode == Modes.INT_RISING || s.intmode == Modes.INT_FALLING)
    requires s.calls == map[t := WriteStatus(m, s.status)]
    ensures var w := Next(Run(s, [Pin(level, true), Handler, Handler, Go(t), Handler]), Handler);
            && w.isr == Out && !w.status.latch && w.latched == s.latched + 1
            && w.signals == s.signals + 1 && w.cleared == s.cleared + 1 && w.twice == s.twice + 1
  {
    RunFive(s, Pin(level, true), Handler, Handler, Go(t), Handler);
    var p := Next(s, Pin(level, true));
    var h := Next(Next(p, Handler), Handler);
    assert h == p.(isr := Signalling(p.status));
    var u := Next(h, Go(t));
    assert u.isr == h.isr && !u.status.latch && u.cleared == s.cleared + 1 && u.signals == s.signals;
    assert u.twice == s.twice && u.latched == s.latched + 1;
    HandlerTooLate(u, p.status);
  }

  lemma HandlerTooLate(s: State, stat: Status)
    requires s.isr == Signalling(stat) && !s.status.latch
    ensures var u := Next(Next(s, Handler), Handler);
            && u.isr == Out && !u.status.latch && u.signals == s.signals + 1 && u.twice == s.twice + 1
            && u.latched == s.latched && u.cleared == s.cleared
  {
  }
}
