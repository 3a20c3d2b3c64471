/** Reading whole runs of transfers back from the SPI pins, on cards that may refuse to let chip
    select fall or rise. */
module SpiReadback {
  import opened PortIo
  import opened SpiTransfer
  import opened SpiFraming
  import opened SpiRuns

  /** A transfer of this request would find chip select down and be unable to raise it. */
  predicate JoinsAt(card: Card, u: State, r: Request) {
    Attempts(r) && Joins(card, u.io)
  }

  predicate JoinsNth(card: Card, s: State, rs: seq<Request>, i: nat)
    requires |s.io.plain| == PORTS && i < |rs|
  {
    JoinsAt(card, Run(card, s, rs[..i]), rs[i])
  }

  /** Every transfer that finds chip select down manages to raise it. */
  predicate NoJoins(card: Card, s: State, rs: seq<Request>)
    requires |s.io.plain| == PORTS
  {
    forall i :: 0 <= i < |rs| ==> !JoinsNth(card, s, rs, i)
  }

  function CountJoins(card: Card, s: State, rs: seq<Request>): nat
    requires |s.io.plain| == PORTS
  {
    if rs == [] then 0
    else
      var init := rs[..|rs| - 1];
      CountJoins(card, s, init) + if JoinsAt(card, Run(card, s, init), rs[|rs| - 1]) then 1 else 0
  }

  lemma SamePrefix(card: Card, s: State, rs: seq<Request>, i: nat)
    requires |s.io.plain| == PORTS && i < |rs| - 1
    ensures JoinsNth(card, s, rs[..|rs| - 1], i) == JoinsNth(card, s, rs, i)
  {
    assert rs[..|rs| - 1][..i] == rs[..i];
  }

  lemma NoJoinsSnoc(card: Card, s: State, rs: seq<Request>)
    requires |s.io.plain| == PORTS && rs != []
    ensures NoJoins(card, s, rs)
            <==> NoJoins(card, s, rs[..|rs| - 1]) && !JoinsAt(card, Run(card, s, rs[..|rs| - 1]), rs[|rs| - 1])
  {
    var init, last := rs[..|rs| - 1], |rs| - 1;
    assert JoinsNth(card, s, rs, last) == JoinsAt(card, Run(card, s, init), rs[last]);
    if NoJoins(card, s, rs) {
      forall i | 0 <= i < |init| ensures !JoinsNth(card, s, init, i) {
        SamePrefix(card, s, rs, i);
      }
    } else {
      var i :| 0 <= i < |rs| && JoinsNth(card, s, rs, i);
      if i < last {
        SamePrefix(card, s, rs, i);
      }
    }
  }

  lemma {:induction false} NoJoinsIff(card: Card, s: State, rs: seq<Request>)
    requires |s.io.plain| == PORTS
    ensures NoJoins(card, s, rs) <==> CountJoins(card, s, rs) == 0
  {
    if rs != [] {
      NoJoinsIff(card, s, rs[..|rs| - 1]);
      NoJoinsSnoc(card, s, rs);
    }
  }

  // ------------------------------------------------------------ sessions

  /** The sessions after one more transfer, if there is one. */
  function Grown(ss: seq<seq<Frame>>, joins: bool, f: Option<Frame>): seq<seq<Frame>> {
    if f.None? then ss
    else if joins && ss != [] then ss[..|ss| - 1] + [ss[|ss| - 1] + [f.value]]
    else ss + [[f.value]]
  }

  /** The transfers of a run, grouped by the stretch between a fall and a rise of chip select that
      they share. Chip select found down at the beginning is a stretch already begun. */
  function SessionsOf(card: Card, s: State, rs: seq<Request>): seq<seq<Frame>>
    requires |s.io.plain| == PORTS
  {
    if rs == [] then (if Up(s.io.gpor) then [] else [[]])
    else
      var init, r := rs[..|rs| - 1], rs[|rs| - 1];
      var u := Run(card, s, init);
      Grown(SessionsOf(card, s, init), JoinsAt(card, u, r), FrameOf(card, u, r))
  }

  function InsideAll(fs: seq<Frame>): seq<Line> {
    if fs == [] then [] else InsideAll(fs[..|fs| - 1]) + Inside(fs[|fs| - 1])
  }

  function RenderSession(fs: seq<Frame>): seq<Line> {
    [Fall] + InsideAll(fs) + [Rise]
  }

  function RenderSessions(ss: seq<seq<Frame>>): seq<Line> {
    if ss == [] then [] else RenderSessions(ss[..|ss| - 1]) + RenderSession(ss[|ss| - 1])
  }

  /** The fall that must have come before a record that begins with chip select down. */
  function Opening(gpor: bv8): seq<Line> {
    if Up(gpor) then [] else [Fall]
  }

  /** The whole record from the last time everything was closed to the next. */
  function Completed(g0: bv8, io: Io): seq<Line> {
    Opening(g0) + (io.pins + Lead(io.gpor))
  }

  lemma SessionsSnoc(ss: seq<seq<Frame>>, fs: seq<Frame>)
    ensures RenderSessions(ss + [fs]) == RenderSessions(ss) + RenderSession(fs)
  {
    assert (ss + [fs])[..|ss|] == ss;
  }

  lemma SingleSession(f: Frame)
    ensures RenderSession([f]) == Render(f)
  {
    assert InsideAll([f]) == InsideAll([]) + Inside(f);
  }

  lemma InsideSnoc(fs: seq<Frame>, f: Frame)
    ensures InsideAll(fs + [f]) == InsideAll(fs) + Inside(f)
  {
    assert (fs + [f])[..|fs|] == fs;
  }

  lemma CancelRise(a: seq<Line>, b: seq<Line>)
    requires a + [Rise] == b + [Rise]
    ensures a == b
  {
    assert (a + [Rise])[..|a|] == a && (b + [Rise])[..|b|] == b;
  }

  lemma JoinedSession(g0: bv8, io: Io, ss: seq<seq<Frame>>, f: Frame, after: Io)
    requires ss != [] && !Up(io.gpor) && Completed(g0, io) == RenderSessions(ss)
    requires after.pins + Lead(after.gpor) == io.pins + (Inside(f) + [Rise])
    ensures Completed(g0, after) == RenderSessions(Grown(ss, true, Some(f)))
  {
    var before, last := ss[..|ss| - 1], ss[|ss| - 1];
    var line := RenderSessions(before) + ([Fall] + InsideAll(last));
    Associate(Opening(g0), io.pins, [Rise]);
    Associate(RenderSessions(before), [Fall] + InsideAll(last), [Rise]);
    CancelRise(Opening(g0) + io.pins, line);
    Associate(Opening(g0), io.pins, Inside(f) + [Rise]);
    SessionsSnoc(before, last + [f]);
    InsideSnoc(last, f);
    SpreadOut(RenderSessions(before), InsideAll(last), Inside(f));
  }

  lemma SpreadOut(before: seq<Line>, last: seq<Line>, more: seq<Line>)
    ensures before + ([Fall] + last) + (more + [Rise]) == before + ([Fall] + (last + more) + [Rise])
  {
  }

  lemma NewSession(g0: bv8, io: Io, ss: seq<seq<Frame>>, f: Option<Frame>, after: Io)
    requires Completed(g0, io) == RenderSessions(ss)
    requires after.pins + Lead(after.gpor) == io.pins + (Lead(io.gpor) + if f.Some? then Render(f.value) else [])
    ensures Completed(g0, after) == RenderSessions(Grown(ss, false, f))
  {
    var more := if f.Some? then Render(f.value) else [];
    Associate(io.pins, Lead(io.gpor), more);
    Associate(Opening(g0), io.pins + Lead(io.gpor), more);
    if f.Some? {
      SingleSession(f.value);
      SessionsSnoc(ss, [f.value]);
    }
  }

  lemma SessionsNext(card: Card, g0: bv8, u: State, ss: seq<seq<Frame>>, r: Request)
    requires |u.io.plain| == PORTS && Completed(g0, u.io) == RenderSessions(ss) && (!Up(u.io.gpor) ==> ss != [])
    ensures var t, after := Serve(card, u, r), Grown(ss, JoinsAt(card, u, r), FrameOf(card, u, r));
            Completed(g0, t.io) == RenderSessions(after) && (!Up(t.io.gpor) ==> after != [])
  {
    if Attempts(r) {
      TransferOnTheLine(card, u.io, u.mode, r.ibuf, r.olen);
      var f := FrameOf(card, u, r);
      if Joins(card, u.io) {
        JoinedSession(g0, u.io, ss, f.value, Serve(card, u, r).io);
      } else {
        NewSession(g0, u.io, ss, f, Serve(card, u, r).io);
      }
    }
  }

  /** Over any run, on any card, the pins show exactly the sessions of the transfers that started:
      all bytes of all of them, in order, between the falls and rises that really happened. */
  lemma {:induction false} SessionsOnTheLine(card: Card, s: State, rs: seq<Request>)
    requires |s.io.plain| == PORTS && s.io.pins == []
    ensures var t, ss := Run(card, s, rs), SessionsOf(card, s, rs);
            Completed(s.io.gpor, t.io) == RenderSessions(ss) && (!Up(t.io.gpor) ==> ss != [])
  {
    if rs == [] {
      if !Up(s.io.gpor) {
        SessionsSnoc([], []);
      }
    } else {
      var init := rs[..|rs| - 1];
      SessionsOnTheLine(card, s, init);
      SessionsNext(card, s.io.gpor, Run(card, s, init), SessionsOf(card, s, init), rs[|rs| - 1]);
    }
  }

  /** There are as many sessions as transfers, less one for each that joined another. */
  lemma {:induction false} SessionsCount(card: Card, s: State, rs: seq<Request>)
    requires |s.io.plain| == PORTS && s.io.pins == []
    ensures |SessionsOf(card, s, rs)| + CountJoins(card, s, rs)
            == |FramesOf(card, s, rs)| + |Opening(s.io.gpor)|
  {
    if rs != [] {
      var init, r := rs[..|rs| - 1], rs[|rs| - 1];
      SessionsCount(card, s, init);
      SessionsOnTheLine(card, s, init);
      if Attempts(r) {
        var u := Run(card, s, init);
        TransferOnTheLine(card, u.io, u.mode, r.ibuf, r.olen);
      }
    }
  }

  // ------------------------------------------------------------ reading a run back

  lemma RenderSnoc(fs: seq<Frame>, f: Frame)
    ensures RenderAll(fs + [f]) == RenderAll(fs) + Render(f)
  {
    assert (fs + [f])[..|fs|] == fs;
  }

  lemma ShownNext(lead: seq<Line>, io: Io, fs: seq<Frame>, after: Io, f: Option<Frame>)
    requires io.pins + Lead(io.gpor) == lead + RenderAll(fs)
    requires after.pins + Lead(after.gpor) == io.pins + (Lead(io.gpor) + if f.Some? then Render(f.value) else [])
    ensures after.pins + Lead(after.gpor) == lead + RenderAll(Extend(fs, f))
  {
    var more := if f.Some? then Render(f.value) else [];
    Associate(io.pins, Lead(io.gpor), more);
    Associate(lead, RenderAll(fs), more);
    if f.Some? {
      RenderSnoc(fs, f.value);
    }
  }

  lemma ShownByNext(card: Card, lead: seq<Line>, u: State, fs: seq<Frame>, r: Request)
    requires |u.io.plain| == PORTS && !JoinsAt(card, u, r)
    requires u.io.pins + Lead(u.io.gpor) == lead + RenderAll(fs)
    ensures var t := Serve(card, u, r);
            t.io.pins + Lead(t.io.gpor) == lead + RenderAll(Extend(fs, FrameOf(card, u, r)))
  {
    if Attempts(r) {
      TransferOnTheLine(card, u.io, u.mode, r.ibuf, r.olen);
      ShownNext(lead, u.io, fs, Serve(card, u, r).io, FrameOf(card, u, r));
    }
  }

  /** If every transfer that finds chip select down can raise it, the pins show exactly the frames of
      the transfers that started: a deselect that failed is made up for by the next start. */
  lemma {:induction false} FramesOnTheLine(card: Card, s: State, rs: seq<Request>)
    requires |s.io.plain| == PORTS && s.io.pins == [] && NoJoins(card, s, rs)
    ensures var t := Run(card, s, rs);
            t.io.pins + Lead(t.io.gpor) == Lead(s.io.gpor) + RenderAll(FramesOf(card, s, rs))
  {
    if rs != [] {
      var init := rs[..|rs| - 1];
      NoJoinsSnoc(card, s, rs);
      FramesOnTheLine(card, s, init);
      ShownByNext(card, Lead(s.io.gpor), Run(card, s, init), FramesOf(card, s, init), rs[|rs| - 1]);
    }
  }

  function Falls(ls: seq<Line>): nat {
    if ls == [] then 0 else Falls(ls[..|ls| - 1]) + if ls[|ls| - 1].Fall? then 1 else 0
  }

  lemma {:induction false} FallsConcat(a: seq<Line>, b: seq<Line>)
    ensures Falls(a + b) == Falls(a) + Falls(b)
  {
    if b == [] {
      assert a + b == a;
    } else {
      assert (a + b)[..|a + b| - 1] == a + b[..|b| - 1];
      FallsConcat(a, b[..|b| - 1]);
    }
  }

  lemma {:induction false} NoFalls(ls: seq<Line>)
    requires forall i :: 0 <= i < |ls| ==> !ls[i].Fall?
    ensures Falls(ls) == 0
  {
    if ls != [] {
      NoFalls(ls[..|ls| - 1]);
    }
  }

  lemma {:induction false} InsideHasNoFall(fs: seq<Frame>)
    ensures forall i :: 0 <= i < |InsideAll(fs)| ==> !InsideAll(fs)[i].Fall?
  {
    if fs != [] {
      InsideHasNoFall(fs[..|fs| - 1]);
    }
  }

  lemma FallsOfOne(l: Line)
    ensures Falls([l]) == if l.Fall? then 1 else 0
  {
    assert [l][..0] == [];
  }

  lemma OneFall(fs: seq<Frame>)
    ensures Falls(RenderSession(fs)) == 1
  {
    FallsConcat([Fall] + InsideAll(fs), [Rise]);
    FallsConcat([Fall], InsideAll(fs));
    InsideHasNoFall(fs);
    NoFalls(InsideAll(fs));
    FallsOfOne(Fall);
    FallsOfOne(Rise);
  }

  lemma {:induction false} OneFallEach(ss: seq<seq<Frame>>)
    ensures Falls(RenderSessions(ss)) == |ss|
  {
    if ss != [] {
      OneFallEach(ss[..|ss| - 1]);
      FallsConcat(RenderSessions(ss[..|ss| - 1]), RenderSession(ss[|ss| - 1]));
      OneFall(ss[|ss| - 1]);
    }
  }

  lemma {:induction false} OneFallPerFrame(fs: seq<Frame>)
    ensures Falls(RenderAll(fs)) == |fs|
  {
    if fs != [] {
      OneFallPerFrame(fs[..|fs| - 1]);
      FallsConcat(RenderAll(fs[..|fs| - 1]), Render(fs[|fs| - 1]));
      SingleSession(fs[|fs| - 1]);
      OneFall([fs[|fs| - 1]]);
    }
  }

  lemma DecodedFalls(ls: seq<Line>, fs: seq<Frame>)
    requires Decode(ls) == Some(fs)
    ensures Falls(ls) == |fs|
  {
    DecodeIff(ls, fs);
    OneFallPerFrame(fs);
    FallsConcat(ls, [Rise]);
    FallsConcat([Rise], RenderAll(fs));
    FallsOfOne(Rise);
  }

  lemma CompletedFalls(g0: bv8, io: Io)
    ensures Falls(Completed(g0, io)) == |Opening(g0)| + Falls(io.pins)
  {
    FallsConcat(Opening(g0), io.pins + Lead(io.gpor));
    FallsConcat(io.pins, Lead(io.gpor));
    FallsOfOne(Fall);
    FallsOfOne(Rise);
  }

  /** Whatever frames the pins of a run read back as, there are as many as transfers that started,
      less one for each that joined another. */
  lemma {:induction false} DecodedCount(card: Card, s: State, rs: seq<Request>, fs: seq<Frame>)
    requires |s.io.plain| == PORTS && s.io.pins == []
    requires Decode(Run(card, s, rs).io.pins) == Some(fs)
    ensures |fs| + CountJoins(card, s, rs) == |FramesOf(card, s, rs)|
  {
    SessionsOnTheLine(card, s, rs);
    SessionsCount(card, s, rs);
    OneFallEach(SessionsOf(card, s, rs));
    CompletedFalls(s.io.gpor, Run(card, s, rs).io);
    DecodedFalls(Run(card, s, rs).io.pins, fs);
  }

  lemma ShownIsDecoded(g0: bv8, io: Io, fs: seq<Frame>)
    requires io.pins + Lead(io.gpor) == Lead(g0) + RenderAll(fs)
    ensures Decode(io.pins) == Some(fs)
  {
    assert [] + RenderAll(fs) == RenderAll(fs) && io.pins + [] == io.pins;
    DecodeIff(io.pins, fs);
  }

  /** Round trip: reading the pins back gives exactly the transfers that started, whatever state chip
      select was in to begin with, if and only if every transfer that finds chip select down manages
      to raise it. */
  lemma {:induction false} FramingRoundTrip(card: Card, s: State, rs: seq<Request>)
    requires |s.io.plain| == PORTS && s.io.pins == []
    ensures Decode(Run(card, s, rs).io.pins) == Some(FramesOf(card, s, rs)) <==> NoJoins(card, s, rs)
  {
    NoJoinsIff(card, s, rs);
    if NoJoins(card, s, rs) {
      FramesOnTheLine(card, s, rs);
      ShownIsDecoded(s.io.gpor, Run(card, s, rs).io, FramesOf(card, s, rs));
    } else if Decode(Run(card, s, rs).io.pins) == Some(FramesOf(card, s, rs)) {
      DecodedCount(card, s, rs, FramesOf(card, s, rs));
    }
  }

  /** A card that lets chip select rise whenever it is told to never joins transfers. */
  lemma {:induction false} RisesAlwaysWork(card: Card, s: State, rs: seq<Request>)
    requires |s.io.plain| == PORTS && s.io.pins == [] && forall n :: !card.holdsDown(n)
    ensures Decode(Run(card, s, rs).io.pins) == Some(FramesOf(card, s, rs))
  {
    FramingRoundTrip(card, s, rs);
  }

  // ------------------------------------------------------------ two transfers in one

  lemma {:induction false} BadStays(ls: seq<Line>, more: seq<Line>)
    requires Parse(ls) == Bad
    ensures Parse(ls + more) == Bad
  {
    if more == [] {
      assert ls + more == ls;
    } else {
      BadStays(ls, more[..|more| - 1]);
      ParseSnoc(ls + more[..|more| - 1], more[|more| - 1]);
      assert ls + more == ls + more[..|more| - 1] + [more[|more| - 1]];
    }
  }

  /** Two transfers that share a session read back as one if the first receives nothing or the second
      sends nothing, and as nothing sensible otherwise. */
  lemma JoinedReadAsOne(ls: seq<Line>, a: Frame, b: Frame)
    requires ls + [Rise] == RenderSession([a, b]) || ls == RenderSession([a, b])
    ensures Decode(ls) == if a.got == [] || b.sent == [] then Some([Frame(a.sent + b.sent, a.got + b.got)]) else None
  {
    TwoInside(a, b);
    var line := [Fall] + (Inside(a) + Inside(b));
    assert RenderSession([a, b]) == line + [Rise];
    assert ls == line || ls == line + [Rise] by {
      if ls + [Rise] == line + [Rise] { CancelRise(ls, line); }
    }
    if a.got == [] || b.sent == [] {
      var f := Frame(a.sent + b.sent, a.got + b.got);
      JoinedInside(a, b);
      assert line + [Rise] == Render(f);
      RenderSnoc([], f);
      DecodeIff(ls, [f]);
    } else {
      ParseClash(a, b);
      ParseSnoc(line, Rise);
      assert line[0] == Fall && (line + [Rise])[0] == Fall;
    }
  }

  lemma JoinedInside(a: Frame, b: Frame)
    requires a.got == [] || b.sent == []
    ensures Inside(a) + Inside(b) == Inside(Frame(a.sent + b.sent, a.got + b.got))
  {
  }

  lemma ClashOnTheLine(a: Frame, b: bv8, more: seq<Line>)
    requires a.got != []
    ensures Parse([Fall] + Puts(a.sent) + Gets(a.got) + [Put(b)] + more) == Bad
  {
    assert Parse([Fall]) == At([], Sending([])) by {
      ParseSnoc([], Fall);
      assert [] + [Fall] == [Fall];
    }
    ParsePuts([Fall], a.sent);
    ParseGets([Fall] + Puts(a.sent), a.sent, a.got);
    ParseSnoc([Fall] + Puts(a.sent) + Gets(a.got), Put(b));
    BadStays([Fall] + Puts(a.sent) + Gets(a.got) + [Put(b)], more);
  }

  lemma PutsFirst(bs: seq<bv8>)
    requires bs != []
    ensures Puts(bs) == [Put(bs[0])] + Puts(bs[1..])
  {
  }

  lemma Flatten(p: seq<Line>, g: seq<Line>, first: seq<Line>, rest: seq<Line>, h: seq<Line>)
    ensures [Fall] + ((p + g) + ((first + rest) + h)) == [Fall] + p + g + first + (rest + h)
  {
  }

  /** A byte sent after one received does not belong to any frame. */
  lemma ParseClash(a: Frame, b: Frame)
    requires a.got != [] && b.sent != []
    ensures Parse([Fall] + (Inside(a) + Inside(b))) == Bad
  {
    ClashOnTheLine(a, b.sent[0], Puts(b.sent[1..]) + Gets(b.got));
    PutsFirst(b.sent);
    Flatten(Puts(a.sent), Gets(a.got), [Put(b.sent[0])], Puts(b.sent[1..]), Gets(b.got));
  }

  lemma BothInOneSession(first: Io, second: Io, a: Frame, b: Frame)
    requires !Up(first.gpor) && first.pins + [Rise] == Render(a)
    requires second.pins + Lead(second.gpor) == first.pins + (Inside(b) + [Rise])
    ensures second.pins + Lead(second.gpor) == RenderSession([a, b])
  {
    RenderInside(a);
    Associate([Fall], Inside(a), [Rise]);
    CancelRise(first.pins, [Fall] + Inside(a));
    TwoInside(a, b);
  }

  lemma TwoInside(a: Frame, b: Frame)
    ensures InsideAll([a, b]) == Inside(a) + Inside(b)
    ensures RenderSession([a, b]) == [Fall] + Inside(a) + (Inside(b) + [Rise])
  {
    assert [a] + [b] == [a, b] && [] + [a] == [a];
    InsideSnoc([a], b);
    InsideSnoc([], a);
  }

  /** So a deselect that fails, followed by a start that cannot raise the line, merges two requests. */
  lemma TwoTransfersMerge(card: Card, io: Io, mode: nat, first: seq<bv8>, second: seq<bv8>, n: nat, k: nat)
    requires |io.plain| == PORTS && io.pins == [] && Up(io.gpor)
    requires Transfer(card, io, mode, first, n).started
    requires Joins(card, Transfer(card, io, mode, first, n).io)
    ensures var m := Transfer(card, io, mode, first, n);
            |m.io.plain| == PORTS &&
            var l := Transfer(card, m.io, mode, second, k);
            Decode(l.io.pins) == if n == 0 || second == [] then Some([Frame(first + second, m.got + l.got)]) else None
  {
    TransferKeepsPorts(card, io, mode, first, n);
    var m := Transfer(card, io, mode, first, n);
    var l := Transfer(card, m.io, mode, second, k);
    TransferOnTheLine(card, io, mode, first, n);
    TransferOnTheLine(card, m.io, mode, second, k);
    assert [] + ([] + Render(Frame(first, m.got))) == Render(Frame(first, m.got));
    BothInOneSession(m.io, l.io, Frame(first, m.got), Frame(second, l.got));
    JoinedReadAsOne(l.io.pins, Frame(first, m.got), Frame(second, l.got));
  }

  /** There are such cards: one that holds chip select down once it is down merges any two requests. */
  lemma StuckCardMerges(io: Io, mode: nat, first: seq<bv8>, second: seq<bv8>, n: nat, k: nat)
    requires |io.plain| == PORTS && io.pins == [] && Up(io.gpor)
    ensures var card := Card(0x1000, k => 0, k => false, k => true);
            var m := Transfer(card, io, mode, first, n);
            |m.io.plain| == PORTS && m.started &&
            var l := Transfer(card, m.io, mode, second, k);
            && l.started
            && Decode(l.io.pins)
               == if n == 0 || second == [] then Some([Frame(first + second, m.got + l.got)]) else None
  {
    var card := Card(0x1000, k => 0, k => false, k => true);
    var m := Transfer(card, io, mode, first, n);
    StartsIff(card, io, mode, first, n);
    TransferOnTheLine(card, io, mode, first, n);
    TransferKeepsPorts(card, io, mode, first, n);
    StartsIff(card, m.io, mode, second, k);
    TwoTransfersMerge(card, io, mode, first, second, n, k);
  }

  /** So on that card the pins of two requests do not read back as the two transfers that started. */
  lemma RoundTripCanFail(s: State, first: seq<bv8>, second: seq<bv8>)
    requires |s.io.plain| == PORTS && s.io.pins == [] && Up(s.io.gpor)
    ensures var card := Card(0x1000, k => 0, k => false, k => true);
            var rs := [Stream(first, 0, Fate(true, 0, 0)), Stream(second, 0, Fate(true, 0, 0))];
            Decode(Run(card, s, rs).io.pins) != Some(FramesOf(card, s, rs))
  {
    var card := Card(0x1000, k => 0, k => false, k => true);
    var one := [Stream(first, 0, Fate(true, 0, 0))];
    var rs := one + [Stream(second, 0, Fate(true, 0, 0))];
    assert one[..0] == [] && rs[..1] == one;
    StartsIff(card, s.io, s.mode, first, 0);
    TransferOnTheLine(card, s.io, s.mode, first, 0);
    assert Run(card, s, one).io == Transfer(card, s.io, s.mode, first, 0).io;
    assert JoinsNth(card, s, rs, 1);
    FramingRoundTrip(card, s, rs);
  }
}
