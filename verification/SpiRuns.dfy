/** Whole runs of SPI ioctls on one card. */
module SpiRuns {
  import opened PortIo
  import opened SpiTransfer
  import opened SpiFraming

  datatype Request = SetStream(mode: nat) | Stream(ibuf: seq<bv8>, olen: nat, fate: Fate)

  /** Port space, and the mode the driver remembers between ioctls. */
  datatype State = State(io: Io, mode: nat)

  function Serve(card: Card, s: State, r: Request): (t: State)
    requires |s.io.plain| == PORTS
    ensures |t.io.plain| == PORTS
  {
    match r
    case SetStream(m) => s.(mode := m)
    case Stream(ibuf, olen, fate) => s.(io := StreamIo(card, s.io, s.mode, ibuf, olen, fate))
  }

  function Run(card: Card, s: State, rs: seq<Request>): (t: State)
    requires |s.io.plain| == PORTS
    ensures |t.io.plain| == PORTS
  {
    if rs == [] then s else Serve(card, Run(card, s, rs[..|rs| - 1]), rs[|rs| - 1])
  }

  predicate Attempts(r: Request) { r.Stream? && Reaches(r.fate) }

  /** Some request of the run got as far as the card. */
  predicate Touched(rs: seq<Request>) {
    exists i :: 0 <= i < |rs| && Attempts(rs[i])
  }

  /** The transfer a request amounts to, if it is one that started. */
  function FrameOf(card: Card, s: State, r: Request): Option<Frame>
    requires |s.io.plain| == PORTS
  {
    if !Attempts(r) then None
    else
      var m := Transfer(card, s.io, s.mode, r.ibuf, r.olen);
      if m.started then Some(Frame(r.ibuf, m.got)) else None
  }

  function Extend(fs: seq<Frame>, f: Option<Frame>): seq<Frame> {
    if f.Some? then fs + [f.value] else fs
  }

  function FramesOf(card: Card, s: State, rs: seq<Request>): seq<Frame>
    requires |s.io.plain| == PORTS
  {
    if rs == [] then []
    else
      var init := rs[..|rs| - 1];
      Extend(FramesOf(card, s, init), FrameOf(card, Run(card, s, init), rs[|rs| - 1]))
  }

  lemma TouchedSnoc(rs: seq<Request>)
    requires rs != []
    ensures Touched(rs) <==> Touched(rs[..|rs| - 1]) || Attempts(rs[|rs| - 1])
  {
    if Touched(rs) {
      var i :| 0 <= i < |rs| && Attempts(rs[i]);
      assert i < |rs| - 1 ==> Attempts(rs[..|rs| - 1][i]);
    }
    if Touched(rs[..|rs| - 1]) {
      var i :| 0 <= i < |rs| - 1 && Attempts(rs[..|rs| - 1][i]);
      assert Attempts(rs[i]);
    }
  }

  // ------------------------------------------------------------ which transfers start

  /** Whether the card lets a start succeed: the write that lowers chip select is the fourth access
      of a transfer, or the fifth after one that raises it; a line that cannot be raised is down. */
  predicate LetsStart(card: Card, io: Io) {
    if Up(io.gpor) then !card.holdsUp(io.clock + 3)
    else card.holdsDown(io.clock + 3) || !card.holdsUp(io.clock + 4)
  }

  lemma StartsIff(card: Card, io: Io, mode: nat, ibuf: seq<bv8>, olen: nat)
    requires |io.plain| == PORTS
    ensures Transfer(card, io, mode, ibuf, olen).started <==> LetsStart(card, io)
  {
    GporBits(io.gpor);
  }

  /** The requests of a run that ask for a transfer, as bytes to send and number to receive. */
  function Asked(rs: seq<Request>): seq<(seq<bv8>, nat)> {
    if rs == [] then []
    else
      var init, r := Asked(rs[..|rs| - 1]), rs[|rs| - 1];
      if r.Stream? then init + [(r.ibuf, r.olen)] else init
  }

  /** When every buffer is had and copied in and the card never holds chip select up, the frames are
      the requests one for one: same bytes sent, and as many received as were asked for. */
  lemma {:induction false} EveryRequestFramed(card: Card, s: State, rs: seq<Request>)
    requires |s.io.plain| == PORTS
    requires forall n :: !card.holdsUp(n)
    requires forall i :: 0 <= i < |rs| && rs[i].Stream? ==> Reaches(rs[i].fate)
    ensures var fs, asked := FramesOf(card, s, rs), Asked(rs);
            |fs| == |asked| && forall k :: 0 <= k < |fs| ==> (fs[k].sent, |fs[k].got|) == asked[k]
  {
    if rs != [] {
      var init, r := rs[..|rs| - 1], rs[|rs| - 1];
      EveryRequestFramed(card, s, init);
      if r.Stream? {
        var u := Run(card, s, init);
        StartsIff(card, u.io, u.mode, r.ibuf, r.olen);
        TransferOnTheLine(card, u.io, u.mode, r.ibuf, r.olen);
      }
    }
  }

  // ------------------------------------------------------------ the mode in force

  lemma {:induction false} RunConcat(card: Card, s: State, xs: seq<Request>, ys: seq<Request>)
    requires |s.io.plain| == PORTS
    ensures Run(card, s, xs + ys) == Run(card, Run(card, s, xs), ys)
  {
    if ys == [] {
      assert xs + ys == xs;
    } else {
      var last := |ys| - 1;
      assert (xs + ys)[..|xs + ys| - 1] == xs + ys[..last];
      RunConcat(card, s, xs, ys[..last]);
    }
  }

  /** Transfers never change the mode. */
  lemma {:induction false} ModeStays(card: Card, s: State, rs: seq<Request>)
    requires |s.io.plain| == PORTS && forall i :: 0 <= i < |rs| ==> rs[i].Stream?
    ensures Run(card, s, rs).mode == s.mode
  {
    if rs != [] {
      ModeStays(card, s, rs[..|rs| - 1]);
    }
  }

  /** A request is served in the mode set last. */
  lemma LastModeInForce(card: Card, s: State, before: seq<Request>, m: nat, after: seq<Request>)
    requires |s.io.plain| == PORTS && forall i :: 0 <= i < |after| ==> after[i].Stream?
    ensures Run(card, s, before + [SetStream(m)] + after).mode == m
  {
    RunConcat(card, s, before + [SetStream(m)], after);
    assert (before + [SetStream(m)])[..|before|] == before;
    ModeStays(card, Run(card, s, before + [SetStream(m)]), after);
  }

  // ------------------------------------------------------------ what a caller gets

  /** The bytes handed to the caller are the beginning of the frame's received bytes, all of them
      when the copy out is complete. Zero is returned exactly if the copy in was complete and the
      card did not let the transfer start, or it did and the copy out was complete. Once a transfer
      has started, return value and bytes handed over add up to what was asked for. */
  lemma ReplyMatchesFrame(card: Card, s: State, ibuf: seq<bv8>, olen: nat, fate: Fate)
    requires |s.io.plain| == PORTS && fate.outLeft <= olen
    ensures var reply := StreamReply(card, s.io, s.mode, ibuf, olen, fate);
            var f := FrameOf(card, s, Stream(ibuf, olen, fate));
            && (f != None <==> Reaches(fate) && LetsStart(card, s.io))
            && reply.obuf == (if f == None then [] else f.value.got[..olen - fate.outLeft])
            && (f != None && reply.ret == 0 ==> reply.obuf == f.value.got)
            && (reply.ret == 0 <==> Reaches(fate) && (LetsStart(card, s.io) ==> fate.outLeft == 0))
            && (f != None ==> reply.ret + |reply.obuf| == olen)
            && (!fate.hasBuffer ==> reply.ret == -12)
            && (fate.hasBuffer && fate.inLeft != 0 ==> reply.ret == fate.inLeft)
  {
    StartsIff(card, s.io, s.mode, ibuf, olen);
  }

  /** Zero is no proof of a transfer: on a card that holds chip select up, a request for n bytes
      returns zero, hands over none, and puts nothing on the line. */
  lemma ZeroWithoutTransfer(s: State, ibuf: seq<bv8>, olen: nat)
    requires |s.io.plain| == PORTS && Up(s.io.gpor)
    ensures var card := Card(0x1000, n => 0, n => true, n => false);
            var fate := Fate(true, 0, 0);
            && StreamReply(card, s.io, s.mode, ibuf, olen, fate) == Reply(0, [])
            && FrameOf(card, s, Stream(ibuf, olen, fate)) == None
            && Serve(card, s, Stream(ibuf, olen, fate)).io.pins == s.io.pins
  {
    var card := Card(0x1000, n => 0, n => true, n => false);
    StartsIff(card, s.io, s.mode, ibuf, olen);
    TransferOnTheLine(card, s.io, s.mode, ibuf, olen);
    ReplyMatchesFrame(card, s, ibuf, olen, Fate(true, 0, 0));
  }

  // ------------------------------------------------------------ what a transfer leaves behind

  lemma OutputBits(g: bv8)
    ensures (((g & KEPT) | SDX_DIR) | SCS) & KEPT == g & KEPT
    ensures ((g & KEPT) | SDX_DIR) | SCS == (g & KEPT) | 0x44
    ensures ((g & KEPT) | SDX | SCS) & KEPT == g & KEPT
    ensures (g & KEPT) | SDX | SCS == (g & KEPT) | 0x84
    ensures ((g & KEPT) | SDX | SCS) & 0xfb == (g & KEPT) | 0x80
    ensures ((g & KEPT) | 0x80) & KEPT == g & KEPT
    ensures (((g & KEPT) | 0x84) & KEPT) | 0x84 == (g & KEPT) | 0x84
  {
  }

  lemma ControlBits(mode: nat)
    ensures CtrlByte(mode) & FREQ == if Bit0(mode) then FREQ else 0
  {
    CtrlByteCases(mode);
  }

  lemma OutputAfterStop(g: bv8, left: bv8)
    requires left == if Up(left) then (g & KEPT) | SDX | SCS else ((g & KEPT) | SDX | SCS) & 0xfb
    ensures left == (g & 0x39) | if left & 0x04 != 0 then 0x84 else 0x80
  {
    OutputBits(g);
  }

  lemma RegistersIfStarted(card: Card, io: Io, mode: nat, ibuf: seq<bv8>, olen: nat)
    requires |io.plain| == PORTS && Transfer(card, io, mode, ibuf, olen).started
    ensures var m := Transfer(card, io, mode, ibuf, olen);
            && m.io.gpor == (io.gpor & 0x39) | (if m.io.gpor & 0x04 != 0 then 0x84 else 0x80)
            && m.io.ctrl == if mode % 2 == 1 then 0x20 else 0
  {
    ControlBits(mode);
    var s := Start(card, io, mode);
    BodyKeeps(card, s.io, mode, s.gpor, ibuf, olen);
    OutputAfterStop(io.gpor, Transfer(card, io, mode, ibuf, olen).io.gpor);
  }

  lemma RegistersIfNot(card: Card, io: Io, mode: nat)
    requires !Start(card, io, mode).ok
    ensures var s := Start(card, io, mode);
            s.io.gpor == (io.gpor & 0x39) | 0x44 && s.io.ctrl == CtrlByte(mode)
  {
    GporBits(io.gpor);
    OutputBits(io.gpor);
  }

  /** A started transfer leaves the output register at (g & 0x39) | 0x84, less the chip select bit if
      deselecting failed, and of the control register only the clock bit of the mode; one that could
      not start leaves the data line turned. */
  lemma RegistersAfterTransfer(card: Card, io: Io, mode: nat, ibuf: seq<bv8>, olen: nat)
    requires |io.plain| == PORTS
    ensures var m := Transfer(card, io, mode, ibuf, olen);
            if m.started then
              && m.io.gpor == (io.gpor & 0x39) | (if m.io.gpor & 0x04 != 0 then 0x84 else 0x80)
              && m.io.ctrl == if mode % 2 == 1 then 0x20 else 0
            else
              m.io.gpor == (io.gpor & 0x39) | 0x44 && m.io.ctrl == CtrlByte(mode)
  {
    if Transfer(card, io, mode, ibuf, olen).started {
      RegistersIfStarted(card, io, mode, ibuf, olen);
    } else {
      RegistersIfNot(card, io, mode);
    }
  }

  lemma BodyKeeps(card: Card, io: Io, mode: nat, g: bv8, ibuf: seq<bv8>, olen: nat)
    requires |io.plain| == PORTS && !Up(io.gpor)
    ensures var r := Body(card, io, mode, g, ibuf, olen).io;
            && r.gpor == (if Up(r.gpor) then (g & KEPT) | SDX | SCS else ((g & KEPT) | SDX | SCS) & 0xfb)
            && r.ctrl == io.ctrl & FREQ
            && r.plain == (if Bit1(mode) && olen != 0 then io.plain[StrayPort(g) := StrayValue(card)] else io.plain)
  {
    PutAllKeeps(card, io, ibuf);
    var put := PutAll(card, io, ibuf);
    GetAllKeeps(card, if olen != 0 then TurnRound(card, put, mode, g) else put, olen);
    GporBits(g);
  }

  /** Beyond its three SPI registers a transfer changes at most one port, the one hit by the
      exchanged arguments of the turn-round write, and only when bit 1 of the mode is set and bytes
      are to be received. That port lies outside the card's own window if the window begins above
      it, and never is one of the card's own registers. */
  lemma OtherPortsAfterTransfer(card: Card, io: Io, mode: nat, ibuf: seq<bv8>, olen: nat)
    requires |io.plain| == PORTS && ValidCard(card)
    ensures var m := Transfer(card, io, mode, ibuf, olen);
            var stray := StrayPort(io.gpor);
            && m.io.plain == (if m.started && Bit1(mode) && olen != 0 then io.plain[stray := StrayValue(card)]
                              else io.plain)
            && stray < card.base + GPOR
            && (card.base > 0x39 ==> stray < card.base)
  {
    var s := Start(card, io, mode);
    if s.ok {
      BodyKeeps(card, s.io, mode, s.gpor, ibuf, olen);
    }
  }

  /** Over any run bits 0, 3, 4 and 5 of the output register never change. */
  lemma {:induction false} KeptBitsNeverChange(card: Card, s: State, rs: seq<Request>)
    requires |s.io.plain| == PORTS
    ensures Run(card, s, rs).io.gpor & KEPT == s.io.gpor & KEPT
  {
    if rs != [] {
      var init, r := rs[..|rs| - 1], rs[|rs| - 1];
      KeptBitsNeverChange(card, s, init);
      if Attempts(r) {
        var u := Run(card, s, init);
        OutputBits(u.io.gpor);
        RegistersAfterTransfer(card, u.io, u.mode, r.ibuf, r.olen);
      }
    }
  }

  /** On a card that never holds chip select, the first transfer settles the output register
      and no later one moves it. */
  lemma {:induction false} OutputRegisterSettles(card: Card, s: State, rs: seq<Request>)
    requires |s.io.plain| == PORTS
    requires forall n :: !card.holdsUp(n) && !card.holdsDown(n)
    ensures var g := s.io.gpor;
            Run(card, s, rs).io.gpor == if Touched(rs) then (g & KEPT) | 0x84 else g
  {
    if rs != [] {
      var init, r := rs[..|rs| - 1], rs[|rs| - 1];
      OutputRegisterSettles(card, s, init);
      TouchedSnoc(rs);
      if Attempts(r) {
        var u := Run(card, s, init);
        OutputBits(s.io.gpor);
        StartsIff(card, u.io, u.mode, r.ibuf, r.olen);
        TransferOnTheLine(card, u.io, u.mode, r.ibuf, r.olen);
        RegistersAfterTransfer(card, u.io, u.mode, r.ibuf, r.olen);
      }
    }
  }
}
