/** Several cards on one interrupt line: the kernel runs the handler of every one of them, in an
    order the driver cannot choose. */
module SharedLine {
  import opened PortIo
  import opened InterruptModes
  import opened InterruptPorts

  datatype Dev = Dev(base: nat, chip: Chip, intmode: Mode)

  predicate Apart(a: Dev, b: Dev) {
    a.base + WINDOW <= b.base || b.base + WINDOW <= a.base
  }

  /** The cards' windows lie in port space and do not overlap. */
  predicate Placed(devs: seq<Dev>) {
    && (forall i :: 0 <= i < |devs| ==> devs[i].base <= PORTS - WINDOW)
    && (forall i, j :: 0 <= i < j < |devs| ==> Apart(devs[i], devs[j]))
  }

  predicate ClaimsIn(io: Io, d: Dev)
    requires |io.plain| == PORTS && d.base <= PORTS - WINDOW
  {
    Claims(d.chip, io.plain[d.base + STATUS], d.intmode)
  }

  /** Port space after the handlers have run in this order. */
  function Interrupt(io: Io, devs: seq<Dev>): (r: Io)
    requires |io.plain| == PORTS && Placed(devs)
    ensures |r.plain| == PORTS
  {
    if devs == [] then io
    else
      var d := devs[|devs| - 1];
      IsrIo(d.chip, Interrupt(io, devs[..|devs| - 1]), d.base, d.intmode)
  }

  /** The cards whose listeners are signalled. */
  function Signalled(io: Io, devs: seq<Dev>): set<Dev>
    requires |io.plain| == PORTS && Placed(devs)
  {
    if devs == [] then {}
    else
      var init, d := devs[..|devs| - 1], devs[|devs| - 1];
      Signalled(io, init) + if ClaimsIn(Interrupt(io, init), d) then {d} else {}
  }

  /** What a port ends up with, said without any order. */
  function Settled(io: Io, devs: seq<Dev>, p: nat): bv8
    requires |io.plain| == PORTS && Placed(devs) && p < PORTS
  {
    if exists d :: d in devs && d.base + STATUS == p && ClaimsIn(io, d) then ClearInta(io.plain[p]) else io.plain[p]
  }

  lemma DistinctBases(devs: seq<Dev>, e: Dev)
    requires devs != [] && Placed(devs) && e in devs[..|devs| - 1]
    ensures e.base != devs[|devs| - 1].base
  {
    var i :| 0 <= i < |devs| - 1 && devs[i] == e;
    assert Apart(devs[i], devs[|devs| - 1]);
  }

  lemma SettledSnoc(io: Io, devs: seq<Dev>, p: nat)
    requires |io.plain| == PORTS && devs != [] && Placed(devs) && p < PORTS
    ensures var init, d := devs[..|devs| - 1], devs[|devs| - 1];
            Settled(io, devs, p) == if p == d.base + STATUS && ClaimsIn(io, d) then ClearInta(io.plain[p])
                                    else Settled(io, init, p)
    ensures p == devs[|devs| - 1].base + STATUS ==> Settled(io, devs[..|devs| - 1], p) == io.plain[p]
  {
    var init, d := devs[..|devs| - 1], devs[|devs| - 1];
    assert forall e :: e in devs <==> e in init || e == d;
    forall e | e in init ensures e.base != d.base {
      DistinctBases(devs, e);
    }
  }

  lemma IsrPort(io: Io, d: Dev, p: nat)
    requires |io.plain| == PORTS && d.base <= PORTS - WINDOW && p < PORTS
    ensures IsrIo(d.chip, io, d.base, d.intmode).plain[p]
            == if p == d.base + STATUS && ClaimsIn(io, d) then ClearInta(io.plain[p]) else io.plain[p]
  {
  }

  lemma {:induction false} InterruptSettles(io: Io, devs: seq<Dev>, p: nat)
    requires |io.plain| == PORTS && Placed(devs) && p < PORTS
    ensures Interrupt(io, devs).plain[p] == Settled(io, devs, p)
  {
    if devs != [] {
      var init, d := devs[..|devs| - 1], devs[|devs| - 1];
      InterruptSettles(io, init, p);
      IsrPort(Interrupt(io, init), d, p);
      SettledSnoc(io, devs, p);
    }
  }

  lemma {:induction false} SignalledAreClaimers(io: Io, devs: seq<Dev>)
    requires |io.plain| == PORTS && Placed(devs)
    ensures Signalled(io, devs) == set d | d in devs && ClaimsIn(io, d)
  {
    if devs != [] {
      var init, d := devs[..|devs| - 1], devs[|devs| - 1];
      SignalledAreClaimers(io, init);
      InterruptSettles(io, init, d.base + STATUS);
      SettledSnoc(io, devs, d.base + STATUS);
      assert forall e :: e in devs <==> e in init || e == d;
    }
  }

  /** The order of the handlers does not matter: the same cards are signalled, and every port holds
      the same value afterwards. (Placed cards are all different, so two lists with the same elements
      are permutations of each other.) */
  lemma {:induction false} OrderDoesNotMatter(io: Io, devs: seq<Dev>, shuffled: seq<Dev>)
    requires |io.plain| == PORTS && Placed(devs) && Placed(shuffled)
    requires forall d :: d in devs <==> d in shuffled
    ensures Signalled(io, devs) == Signalled(io, shuffled)
    ensures Interrupt(io, devs).plain == Interrupt(io, shuffled).plain
  {
    SignalledAreClaimers(io, devs);
    SignalledAreClaimers(io, shuffled);
    forall p | 0 <= p < PORTS
      ensures Interrupt(io, devs).plain[p] == Interrupt(io, shuffled).plain[p]
    {
      InterruptSettles(io, devs, p);
      InterruptSettles(io, shuffled, p);
    }
  }

  lemma WindowHasOneOwner(devs: seq<Dev>, d: Dev, e: Dev, offset: nat)
    requires Placed(devs) && d in devs && e in devs && offset < WINDOW && e.base + STATUS == d.base + offset
    ensures e == d
  {
    var i :| 0 <= i < |devs| && devs[i] == e;
    var k :| 0 <= k < |devs| && devs[k] == d;
    assert i < k ==> Apart(e, d);
    assert k < i ==> Apart(d, e);
  }

  /** A card that does not claim the interrupt keeps its whole window, whoever else shares the line;
      one that does loses the latch bit and nothing else. */
  lemma OnlyClaimersTouched(io: Io, devs: seq<Dev>, d: Dev, offset: nat)
    requires |io.plain| == PORTS && Placed(devs) && d in devs && offset < WINDOW && d.base <= PORTS - WINDOW
    ensures Interrupt(io, devs).plain[d.base + offset]
            == if ClaimsIn(io, d) && offset == STATUS then ClearInta(io.plain[d.base + offset])
               else io.plain[d.base + offset]
  {
    InterruptSettles(io, devs, d.base + offset);
    forall e | e in devs && e.base + STATUS == d.base + offset ensures e == d {
      WindowHasOneOwner(devs, d, e, offset);
    }
  }
}
