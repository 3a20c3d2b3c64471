/** The activity on the card's SPI pins, and why the transfers can always be read back from it. */
module SpiFraming {
  import opened PortIo
  import opened SpiTransfer

  // ------------------------------------------------------------ frames

  datatype Frame = Frame(sent: seq<bv8>, got: seq<bv8>)

  function Puts(bs: seq<bv8>): (r: seq<Line>)
    ensures |r| == |bs|
  {
    seq(|bs|, i requires 0 <= i < |bs| => Put(bs[i]))
  }

  function Gets(bs: seq<bv8>): (r: seq<Line>)
    ensures |r| == |bs|
  {
    seq(|bs|, i requires 0 <= i < |bs| => Get(bs[i]))
  }

  /** Select, all the bytes sent, all the bytes received, deselect. */
  function Render(f: Frame): seq<Line> {
    [Fall] + Puts(f.sent) + Gets(f.got) + [Rise]
  }

  function RenderAll(fs: seq<Frame>): seq<Line> {
    if fs == [] then [] else RenderAll(fs[..|fs| - 1]) + Render(fs[|fs| - 1])
  }

  // ------------------------------------------------------------ one transfer

  lemma GporBits(g: bv8)
    ensures !Up((g & KEPT) | SDX_DIR)
    ensures Up(g | SCS) && Up((g & KEPT) | SDX | SCS) && Up(((g & KEPT) | SDX_DIR) | SCS)
    ensures !Up(((g & KEPT) | SDX | SCS) & 0xfb) && !Up((g | SCS) & 0xfb)
  {
  }

  /** The edge that makes up for a chip select line found down. */
  function Lead(gpor: bv8): seq<Line> {
    if Up(gpor) then [] else [Rise]
  }

  /** A start that finds chip select down and cannot raise it goes on with whatever is open. */
  predicate Joins(card: Card, io: Io) {
    !Up(io.gpor) && card.holdsDown(io.clock + 3)
  }

  lemma SelectOnTheLine(card: Card, io: Io)
    ensures var s := Select(card, io);
            var joins := !Up(io.gpor) && card.holdsDown(io.clock + 1);
            && s.gpor == io.gpor
            && s.ok == !Up(s.io.gpor)
            && (joins ==> s.ok)
            && s.io.pins == io.pins + (if joins then [] else Lead(io.gpor) + if s.ok then [Fall] else [])
  {
    GporBits(io.gpor);
  }

  lemma {:induction false} PutsOnTheLine(card: Card, io: Io, bytes: seq<bv8>)
    ensures PutAll(card, io, bytes).pins == io.pins + Puts(bytes)
  {
    if bytes != [] {
      PutsOnTheLine(card, io, bytes[..|bytes| - 1]);
      assert Puts(bytes) == Puts(bytes[..|bytes| - 1]) + [Put(bytes[|bytes| - 1])];
    }
  }

  lemma {:induction false} GetsOnTheLine(card: Card, io: Io, n: nat)
    ensures GetAll(card, io, n).pins == io.pins + Gets(Incoming(card, io, n))
  {
    if n != 0 {
      GetsOnTheLine(card, io, n - 1);
      assert Gets(Incoming(card, io, n)) == Gets(Incoming(card, io, n - 1)) + [Get(card.miso(io.clock + n - 1))];
    }
  }

  /** Deselecting works unless the card holds the line down at the last access but one; a line left
      down owes one rise. */
  lemma StopOnTheLine(card: Card, io: Io, g: bv8)
    requires !Up(io.gpor)
    ensures var t := Stop(card, io, g);
            && t.clock >= 2 && (Up(t.gpor) <==> !card.holdsDown(t.clock - 2))
            && t.pins + Lead(t.gpor) == io.pins + [Rise]
  {
    GporBits(g);
  }

  function Inside(f: Frame): seq<Line> {
    Puts(f.sent) + Gets(f.got)
  }

  lemma MovedOnTheLine(card: Card, io: Io, mode: nat, g: bv8, ibuf: seq<bv8>, olen: nat) returns (t: Io)
    requires |io.plain| == PORTS && !Up(io.gpor)
    ensures !Up(t.gpor) && t.pins == io.pins + Inside(Frame(ibuf, Body(card, io, mode, g, ibuf, olen).got))
    ensures Body(card, io, mode, g, ibuf, olen).io == Stop(card, t, g)
  {
    PutsOnTheLine(card, io, ibuf);
    PutAllKeeps(card, io, ibuf);
    var put := PutAll(card, io, ibuf);
    var turned := if olen != 0 then TurnRound(card, put, mode, g) else put;
    GetsOnTheLine(card, turned, olen);
    GetAllKeeps(card, turned, olen);
    t := GetAll(card, turned, olen);
    assert turned.pins == put.pins;
    Associate(io.pins, Puts(ibuf), Gets(Incoming(card, turned, olen)));
  }

  lemma Associate(a: seq<Line>, b: seq<Line>, c: seq<Line>)
    ensures a + b + c == a + (b + c)
  {
  }

  lemma BodyOnTheLine(card: Card, io: Io, mode: nat, g: bv8, ibuf: seq<bv8>, olen: nat)
    requires |io.plain| == PORTS && !Up(io.gpor)
    ensures var m := Body(card, io, mode, g, ibuf, olen);
            && m.io.pins + Lead(m.io.gpor) == io.pins + (Inside(Frame(ibuf, m.got)) + [Rise])
            && m.io.clock >= 2 && (Up(m.io.gpor) <==> !card.holdsDown(m.io.clock - 2))
  {
    var t := MovedOnTheLine(card, io, mode, g, ibuf, olen);
    StopOnTheLine(card, t, g);
    Associate(io.pins, Inside(Frame(ibuf, Body(card, io, mode, g, ibuf, olen).got)), [Rise]);
  }

  /** A transfer that starts puts one frame on the line, after the edge that closes whatever was
      open; if it could not make that edge, its bytes follow those of the open frame instead. One
      that cannot start puts no frame. A line left down owes one rise at the end. */
  lemma TransferOnTheLine(card: Card, io: Io, mode: nat, ibuf: seq<bv8>, olen: nat)
    requires |io.plain| == PORTS
    ensures var m := Transfer(card, io, mode, ibuf, olen);
            var f := Frame(ibuf, m.got);
            && (Joins(card, io) ==> m.started)
            && (if m.started then m.io.clock >= 2 && (Up(m.io.gpor) <==> !card.holdsDown(m.io.clock - 2))
                else Up(m.io.gpor))
            && m.io.pins + Lead(m.io.gpor)
               == io.pins + if Joins(card, io) then Inside(f) + [Rise]
                            else Lead(io.gpor) + if m.started then Render(f) else []
  {
    SelectOnTheLine(card, SetControl(card, io, mode));
    var s := Start(card, io, mode);
    if s.ok {
      BodyOnTheLine(card, s.io, mode, s.gpor, ibuf, olen);
      var f := Frame(ibuf, Body(card, s.io, mode, s.gpor, ibuf, olen).got);
      if !Joins(card, io) {
        Reassociate(io.pins, Lead(io.gpor), Inside(f) + [Rise]);
        RenderInside(f);
      }
    }
  }

  lemma Reassociate(before: seq<Line>, lead: seq<Line>, rest: seq<Line>)
    ensures before + (lead + [Fall]) + rest == before + (lead + ([Fall] + rest))
  {
  }

  lemma RenderInside(f: Frame)
    ensures [Fall] + (Inside(f) + [Rise]) == Render(f)
  {
  }

  // ------------------------------------------------------------ reading frames back

  datatype Scan = Idle | Sending(sent: seq<bv8>) | Getting(sent: seq<bv8>, got: seq<bv8>)

  datatype Parsed = Bad | At(frames: seq<Frame>, scan: Scan)

  function ParseLine(p: Parsed, l: Line): Parsed {
    match p
    case Bad => Bad
    case At(fs, Idle) => if l.Fall? then At(fs, Sending([])) else Bad
    case At(fs, Sending(s)) =>
      (match l
       case Put(b) => At(fs, Sending(s + [b]))
       case Get(b) => At(fs, Getting(s, [b]))
       case Rise => At(fs + [Frame(s, [])], Idle)
       case Fall => Bad)
    case At(fs, Getting(s, g)) =>
      (match l
       case Get(b) => At(fs, Getting(s, g + [b]))
       case Rise => At(fs + [Frame(s, g)], Idle)
       case _ => Bad)
  }

  function Parse(ls: seq<Line>): Parsed {
    if ls == [] then At([], Idle) else ParseLine(Parse(ls[..|ls| - 1]), ls[|ls| - 1])
  }

  lemma ParseSnoc(ls: seq<Line>, l: Line)
    ensures Parse(ls + [l]) == ParseLine(Parse(ls), l)
  {
    assert (ls + [l])[..|ls|] == ls;
  }

  lemma PutsSnoc(ls: seq<Line>, bs: seq<bv8>, b: bv8)
    ensures ls + Puts(bs + [b]) == ls + Puts(bs) + [Put(b)]
  {
  }

  lemma GetsSnoc(ls: seq<Line>, bs: seq<bv8>, b: bv8)
    ensures ls + Gets(bs + [b]) == ls + Gets(bs) + [Get(b)]
  {
  }

  lemma {:induction false} ParsePuts(ls: seq<Line>, bs: seq<bv8>)
    requires Parse(ls).At? && Parse(ls).scan == Sending([])
    ensures Parse(ls + Puts(bs)) == At(Parse(ls).frames, Sending(bs))
  {
    if bs == [] {
      assert ls + Puts(bs) == ls;
    } else {
      var init, b := bs[..|bs| - 1], bs[|bs| - 1];
      assert init + [b] == bs;
      ParsePuts(ls, init);
      PutsSnoc(ls, init, b);
      ParseSnoc(ls + Puts(init), Put(b));
    }
  }

  lemma {:induction false} ParseGets(ls: seq<Line>, s: seq<bv8>, bs: seq<bv8>)
    requires Parse(ls).At? && Parse(ls).scan == Sending(s)
    ensures Parse(ls + Gets(bs)) == At(Parse(ls).frames, if bs == [] then Sending(s) else Getting(s, bs))
  {
    if bs == [] {
      assert ls + Gets(bs) == ls;
    } else {
      var init, b := bs[..|bs| - 1], bs[|bs| - 1];
      assert init + [b] == bs;
      ParseGets(ls, s, init);
      GetsSnoc(ls, init, b);
      ParseSnoc(ls + Gets(init), Get(b));
    }
  }

  lemma {:induction false} ParseRendered(fs: seq<Frame>)
    ensures Parse(RenderAll(fs)) == At(fs, Idle)
  {
    if fs != [] {
      var init, f := fs[..|fs| - 1], fs[|fs| - 1];
      ParseRendered(init);
      ParseFrame(RenderAll(init), init, f);
      assert init + [f] == fs;
    }
  }

  lemma FrameOnto(ls: seq<Line>, f: Frame)
    ensures ls + Render(f) == ls + [Fall] + Puts(f.sent) + Gets(f.got) + [Rise]
  {
  }

  lemma ParseFrame(ls: seq<Line>, fs: seq<Frame>, f: Frame)
    requires Parse(ls) == At(fs, Idle)
    ensures Parse(ls + Render(f)) == At(fs + [f], Idle)
  {
    var sent, got := Puts(f.sent), Gets(f.got);
    ParseSnoc(ls, Fall);
    ParsePuts(ls + [Fall], f.sent);
    ParseGets(ls + [Fall] + sent, f.sent, f.got);
    ParseSnoc(ls + [Fall] + sent + got, Rise);
    FrameOnto(ls, f);
  }

  function Unfinished(scan: Scan): seq<Line> {
    match scan
    case Idle => []
    case Sending(s) => [Fall] + Puts(s)
    case Getting(s, g) => [Fall] + Puts(s) + Gets(g)
  }

  lemma {:induction false} ParsedIsRendered(ls: seq<Line>)
    ensures var p := Parse(ls); p.At? ==> ls == RenderAll(p.frames) + Unfinished(p.scan)
  {
    if ls != [] {
      var init, l := ls[..|ls| - 1], ls[|ls| - 1];
      ParsedIsRendered(init);
      var p, q := Parse(init), Parse(ls);
      if q.At? {
        assert ls == RenderAll(p.frames) + Unfinished(p.scan) + [l];
        ParseLineExact(p, l);
      }
    }
  }

  lemma ParseLineExact(p: Parsed, l: Line)
    requires p.At? && ParseLine(p, l).At?
    ensures var q := ParseLine(p, l);
            RenderAll(p.frames) + Unfinished(p.scan) + [l] == RenderAll(q.frames) + Unfinished(q.scan)
  {
    var q := ParseLine(p, l);
    match p.scan
    case Idle =>
      assert [Fall] + Puts([]) == [Fall];
    case Sending(s) =>
      if l.Put? {
        assert Puts(s + [l.b]) == Puts(s) + [l];
      } else if l.Get? {
        assert Gets([l.b]) == [l];
      } else {
        assert q.frames[..|q.frames| - 1] == p.frames;
        assert Gets([]) == [];
        assert [Fall] + Puts(s) + [Rise] == Render(Frame(s, []));
      }
    case Getting(s, g) =>
      if l.Get? {
        assert Gets(g + [l.b]) == Gets(g) + [l];
      } else {
        assert q.frames[..|q.frames| - 1] == p.frames;
      }
  }

  datatype Option<T> = None | Some(value: T)

  /** The frames of a parse, counting one left open at the end. */
  function Closed(p: Parsed): Option<seq<Frame>> {
    match p
    case Bad => None
    case At(fs, Idle) => Some(fs)
    case At(fs, Sending(sent)) => Some(fs + [Frame(sent, [])])
    case At(fs, Getting(sent, got)) => Some(fs + [Frame(sent, got)])
  }

  /** The analyser ignores one rising edge before the first frame and closes an open last one. */
  function Decode(ls: seq<Line>): Option<seq<Frame>> {
    Closed(Parse(if ls != [] && ls[0] == Rise then ls[1..] else ls))
  }

  /** The line shows these frames, perhaps after a rise, perhaps with the last rise still to come. */
  predicate Traces(ls: seq<Line>, fs: seq<Frame>) {
    || ls == RenderAll(fs) || ls + [Rise] == RenderAll(fs)
    || ls == [Rise] + RenderAll(fs) || ls + [Rise] == [Rise] + RenderAll(fs)
  }

  lemma RenderedStartsWithFall(fs: seq<Frame>)
    ensures fs != [] ==> RenderAll(fs) != [] && RenderAll(fs)[0] == Fall
  {
    if fs != [] {
      RenderedStartsWithFall(fs[..|fs| - 1]);
    }
  }

  lemma ParseIff(ls: seq<Line>, fs: seq<Frame>)
    ensures Parse(ls) == At(fs, Idle) <==> ls == RenderAll(fs)
  {
    ParseRendered(fs);
    ParsedIsRendered(ls);
    if Parse(ls) == At(fs, Idle) {
      assert RenderAll(fs) + Unfinished(Idle) == RenderAll(fs);
    }
  }

  lemma ClosedByRise(ls: seq<Line>)
    ensures var p := Parse(ls);
            Parse(ls + [Rise]) == if p.At? && p.scan != Idle then At(Closed(p).value, Idle) else Bad
  {
    ParseSnoc(ls, Rise);
  }

  lemma ClosedIff(ls: seq<Line>, fs: seq<Frame>)
    ensures Closed(Parse(ls)) == Some(fs) <==> ls == RenderAll(fs) || ls + [Rise] == RenderAll(fs)
  {
    ParseIff(ls, fs);
    ParseIff(ls + [Rise], fs);
    ClosedByRise(ls);
  }

  lemma LeadingRise(rest: seq<Line>, fs: seq<Frame>)
    ensures Traces([Rise] + rest, fs) <==> rest == RenderAll(fs) || rest + [Rise] == RenderAll(fs)
  {
    RenderedStartsWithFall(fs);
    var ls := [Rise] + rest;
    assert ls[0] == Rise && ls[1..] == rest && (ls + [Rise])[0] == Rise && (ls + [Rise])[1..] == rest + [Rise];
    assert ([Rise] + RenderAll(fs))[1..] == RenderAll(fs);
  }

  lemma NoLeadingRise(ls: seq<Line>, fs: seq<Frame>)
    requires ls == [] || ls[0] != Rise
    ensures Traces(ls, fs) <==> ls == RenderAll(fs) || ls + [Rise] == RenderAll(fs)
  {
    if ls == [] {
      assert [] + [Rise] == [Rise];
      assert [Rise] == [Rise] + RenderAll(fs) ==> |RenderAll(fs)| == 0;
    } else {
      assert (ls + [Rise])[0] == ls[0] && ([Rise] + RenderAll(fs))[0] == Rise;
    }
  }

  /** Decoding is exact: it yields `fs` for the traces of `fs` and for nothing else. */
  lemma DecodeIff(ls: seq<Line>, fs: seq<Frame>)
    ensures Decode(ls) == Some(fs) <==> Traces(ls, fs)
  {
    if ls != [] && ls[0] == Rise {
      assert ls == [Rise] + ls[1..];
      ClosedIff(ls[1..], fs);
      LeadingRise(ls[1..], fs);
    } else {
      ClosedIff(ls, fs);
      NoLeadingRise(ls, fs);
    }
  }
}
