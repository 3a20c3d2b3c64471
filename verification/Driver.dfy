/** The 2021 driver's global state: the list of bound cards, their numbering, and the calls the
    kernel makes into it. */
module Driver {
  import opened PortIo
  import opened InterruptModes
  import opened InterruptPorts
  import opened RegistryModel
  import opened Ch36xDevice

  const CH365_DID := 0x5049
  const CH367_DID_SID_HIGH := 0x5831
  const CH367_DID_SID_LOW := 0x5830
  const CH368_DID := 0x5834

  /** The device ids in the driver's table. */
  predicate Known(device: nat) {
    device == CH365_DID || device == CH367_DID_SID_HIGH || device == CH367_DID_SID_LOW || device == CH368_DID
  }

  function ChipOf(device: nat): Chip {
    if device == CH365_DID then CH365 else if device == CH368_DID then CH368 else CH367
  }

  /** A step of a probe takes a resource. */
  ghost function Acquire(taken: seq<Res>, r: Res): seq<Res> { taken + [r] }

  /** Unwinding gives back what was taken last; anything else cannot be given back here. */
  ghost function Release(taken: seq<Res>, r: Res): seq<Res>
    requires taken != [] && taken[|taken| - 1] == r
  {
    taken[..|taken| - 1]
  }

  class Ch36xDriver {
    var list: seq<Ch36xDev>
    var gDevCount: nat
    var drvdata: map<nat, Ch36xDev>
    // The kernel's books on this driver, and what has happened so far.
    ghost var held: multiset<Res>
    ghost var made: nat
    ghost var gone: seq<nat>

    ghost function Snapshot(): Model
      reads this
    {
      Model.Model(EntriesOf(list), gDevCount, held, made, gone)
    }

    ghost predicate Valid()
      reads this
    {
      DataMatches(list, drvdata)
    }

    constructor ()
      ensures Valid() && Snapshot() == Initial && drvdata == map[]
    {
      held := multiset{};
      list := [];
      gDevCount := 0;
      drvdata := map[];
      made := 0;
      gone := [];
    }

    /** Mapping fails for a card without I/O ports, and if its memory cannot be mapped. */
    method MapDevice(ghost addr: nat, fate: Fate, ghost before: seq<Res>) returns (ret: int, ghost taken: seq<Res>)
      ensures ret == if fate.ioStart != 0 && fate.mapped then 0 else -12
      ensures taken == if ret == 0 then before + [Mapping(addr)] else before
    {
      ret, taken := ENOMEM, before;
      if fate.ioStart == 0 {
        return;
      }
      if !fate.mapped {
        return;
      }
      taken := Acquire(taken, Mapping(addr));
      ret := 0;
    }

    /** The acquiring steps of a probe after the record is allocated: a step that fails gives back
        what the steps before it acquired, in reverse. */
    method Attach(dev: Ch36xDev, fate: Fate, ghost before: seq<Res>) returns (retval: int, ghost taken: seq<Res>)
      requires fate.memory
      modifies `drvdata
      ensures retval == Verdict(fate)
      ensures retval != 0 ==> taken == before
      ensures retval == 0 ==>
                taken == before + [Enabled(dev.pdev), Regions(dev.pdev), Mapping(dev.addr)]
                         + [Irq(dev.addr), Cdev(dev.addr)]
      ensures drvdata == if ReachesIrq(fate) then old(drvdata)[dev.pdev := dev] else old(drvdata)
    {
      taken := before;
      label outStep: {
        retval := fate.enable;
        if retval != 0 { break outStep; }
        taken := Acquire(taken, Enabled(dev.pdev));
        label disableStep: {
          retval := fate.regions;
          if retval != 0 { break disableStep; }
          taken := Acquire(taken, Regions(dev.pdev));
          label regionsStep: {
            retval, taken := MapDevice(dev.addr, fate, taken);
            if retval != 0 { break regionsStep; }
            drvdata := drvdata[dev.pdev := dev];
            label unmapStep: {
              retval := fate.irq;
              if retval != 0 { break unmapStep; }
              taken := Acquire(taken, Irq(dev.addr));
              label isrStep: {
                retval := fate.cdev;
                if retval != 0 { break isrStep; }
                taken := Acquire(taken, Cdev(dev.addr));
                return;
              }
              taken := Release(taken, Irq(dev.addr));
            }
            taken := Release(taken, Mapping(dev.addr));
          }
          taken := Release(taken, Regions(dev.pdev));
        }
        taken := Release(taken, Enabled(dev.pdev));
      }
    }

    /** The whole probe. A card that is attached joins the end of the list and takes the next number;
        a failed probe leaves the card's driver data pointing at the freed record if it got as far as
        the interrupt request, and changes nothing else. */
    method PciProbe(pdev: nat, device: nat, ghost addr: nat, config: bv8, fate: Fate) returns (retval: int)
      requires Valid() && Known(device)
      requires Legal(Snapshot(), Probe(pdev, addr, ChipOf(device), fate))
      modifies this
      ensures Valid() && retval == Verdict(fate)
      ensures Snapshot() == AfterProbe(old(Snapshot()), pdev, addr, ChipOf(device), fate)
      ensures if ReachesIrq(fate) then drvdata.Keys == old(drvdata).Keys + {pdev} else drvdata == old(drvdata)
      ensures retval != 0 ==> list == old(list)
      ensures retval == 0 ==> |list| == |old(list)| + 1 && list[..|old(list)|] == old(list)
      ensures retval == 0 ==>
                var d := list[|old(list)|];
                && fresh(d) && d.pdev == pdev && d.chiptype == ChipOf(device) && d.ioaddr == fate.ioStart
                && d.minor == old(gDevCount) && d.config == config
                && d.intmode == INT_NONE && d.spimode == 0 && d.signals == 0
    {
      retval := ENOMEM;
      if !fate.memory {
        return;
      }
      ghost var taken := Acquire([], Memory(addr));
      var chip := ChipFor(device);
      var dev := new Ch36xDev(addr, pdev, chip, fate.ioStart, gDevCount, made, config);
      DataMatchesUpdate(list, drvdata, dev);
      retval, taken := Attach(dev, fate, taken);
      if retval != 0 {
        taken := Release(taken, Memory(addr));
        assert taken == [];
        return;
      }
      Enlist(dev, taken);
    }

    /** The end of a successful probe. */
    method Enlist(dev: Ch36xDev, ghost taken: seq<Res>)
      requires DataMatches(list + [dev], drvdata)
      requires taken == TakenBy(EntryOf(dev)) && dev.minor == gDevCount && dev.serial == made
      modifies `list, `gDevCount, `held, `made
      ensures Valid() && list == old(list) + [dev]
      ensures forall fate :: Verdict(fate) == 0 ==>
                Snapshot() == AfterProbe(old(Snapshot()), dev.pdev, dev.addr, dev.chiptype, fate)
    {
      ListedLast(list, dev);
      TakesHolding(EntryOf(dev));
      held := held + multiset(taken);
      list := list + [dev];
      gDevCount := (gDevCount + 1) % U8;
      made := made + 1;
    }

    /** Removing a card gives back everything but its reference on the enabled device. A card without
        driver data is not one of this driver's, and nothing happens. */
    method PciRemove(pdev: nat)
      requires Valid() && Inv(Snapshot())
      requires pdev in drvdata ==> Legal(Snapshot(), Remove(pdev))
      modifies `list, `held, `gone
      ensures Valid() && Snapshot() == AfterRemove(old(Snapshot()), pdev)
      ensures forall d :: d in list ==> d in old(list)
    {
      if pdev !in drvdata {
        NotBound(list, drvdata, Snapshot(), pdev);
        return;
      }
      var dev := drvdata[pdev];
      ghost var freed := GiveUp(dev);
      var i := PlaceOf(dev);
      Delist(i, pdev, freed);
    }

    /** Where a record is listed; all that its card holds is in the books. */
    method PlaceOf(dev: Ch36xDev) returns (i: nat)
      requires Valid() && Inv(Snapshot()) && Bound(Snapshot(), dev.pdev)
      requires dev.pdev in drvdata && drvdata[dev.pdev] == dev
      ensures i < |list| && list[i] == dev && i == Position(EntriesOf(list), dev.pdev)
      ensures Freed(EntryOf(dev)) <= held
    {
      ghost var k := BoundAt(Snapshot(), list, drvdata, dev.pdev);
      i :| 0 <= i < |list| && list[i] == dev;
      OnlyPlace(Snapshot(), list, i, k);
      HoldingIsHeld(Snapshot(), i);
    }

    /** Gives back, one by one, what a card being removed holds. */
    static method GiveUp(dev: Ch36xDev) returns (ghost freed: multiset<Res>)
      ensures freed == Freed(EntryOf(dev))
    {
      ghost var steps := [Cdev(dev.addr)];
      steps := steps + [Irq(dev.addr)];
      steps := steps + [Mapping(dev.addr)];
      steps := steps + [Regions(dev.pdev)];
      steps := steps + [Memory(dev.addr)];
      FreesAllButEnabled(EntryOf(dev), steps);
      freed := multiset(steps);
    }

    /** Takes a card off the list and its resources out of the books. */
    method Delist(i: nat, pdev: nat, ghost freed: multiset<Res>)
      requires Valid() && Bound(Snapshot(), pdev) && i < |list| && i == Position(EntriesOf(list), pdev)
      requires freed == Freed(EntryOf(list[i])) && freed <= held
      modifies `list, `held, `gone
      ensures Valid() && Snapshot() == AfterRemove(old(Snapshot()), pdev)
      ensures forall d :: d in list ==> d in old(list)
    {
      Removed(Snapshot(), pdev, EntryOf(list[i]), freed);
      Unlink(i);
      held := held - freed;
      gone := gone + [pdev];
    }

    method Unlink(i: nat)
      requires Valid() && i < |list|
      modifies `list
      ensures Valid() && EntriesOf(list) == Without(old(EntriesOf(list)), i)
      ensures forall d :: d in list ==> d in old(list)
    {
      EntriesWithout(list, drvdata, i);
      list := list[..i] + list[i + 1..];
    }

    /** The scan that open, release, ioctl and fasync share. */
    method Lookup(minor: nat) returns (dev: Ch36xDev?)
      ensures dev == null ==> forall i :: 0 <= i < |list| ==> list[i].minor != minor
      ensures dev != null ==> exists i :: 0 <= i < |list| && list[i] == dev && Finds(EntriesOf(list), minor, i)
    {
      for pos := 0 to |list|
        invariant forall k :: 0 <= k < pos ==> list[k].minor != minor
      {
        if minor == list[pos].minor {
          assert Finds(EntriesOf(list), minor, pos);
          return list[pos];
        }
      }
      return null;
    }

    method FopsOpen(minor: nat) returns (ret: int)
      ensures ret == if exists i :: 0 <= i < |list| && list[i].minor == minor then 0 else -19
    {
      var dev := Lookup(minor);
      if dev == null {
        return ENODEV;
      }
      return 0;
    }

    /** Closing any file of a card switches its interrupts off, for everybody, and touches no other
        record; with no such card nothing happens. */
    method FopsRelease(minor: nat, bus: Bus) returns (ret: int, ghost dev: Ch36xDev?)
      requires bus.Valid() && forall i :: 0 <= i < |list| ==> list[i].OnBus(bus)
      modifies bus, list
      ensures ret == if dev == null then -19 else 0
      ensures dev == null ==> forall i :: 0 <= i < |list| ==> list[i].minor != minor
      ensures dev == null ==> bus.io == old(bus.io)
      ensures dev != null ==> exists i :: 0 <= i < |list| && list[i] == dev && Finds(EntriesOf(list), minor, i)
      ensures dev != null ==> dev.intmode == INT_NONE
      ensures dev != null && old(dev.intmode) == INT_NONE ==> bus.io == old(bus.io)
      ensures dev != null && old(dev.intmode) != INT_NONE ==>
                InPorts(old(bus.io), dev.ioaddr) && bus.io == DisableIo(dev.chiptype, old(bus.io), dev.ioaddr)
      ensures forall d :: d in list && d != dev ==> d.intmode == old(d.intmode) && d.config == old(d.config)
      ensures forall d :: d in list ==> d.spimode == old(d.spimode) && d.signals == old(d.signals)
      ensures dev != null ==>
                dev.config == if old(dev.intmode) != INT_NONE && dev.chiptype == CH365 then old(dev.config) & 0x7f
                              else old(dev.config)
    {
      var found := Lookup(minor);
      if found == null {
        return ENODEV, null;
      }
      if found.intmode != INT_NONE {
        found.DisableInterrupts(bus);
      }
      return 0, found;
    }

    /** The chip type is chosen from the device id alone. */
    static method ChipFor(device: nat) returns (chip: Chip)
      requires Known(device)
      ensures chip == ChipOf(device)
    {
      if device == CH365_DID {
        return CH365;
      } else if device == CH367_DID_SID_HIGH || device == CH367_DID_SID_LOW {
        return CH367;
      }
      return CH368;
    }
  }

  /** The ids in the driver's table, and the chip each stands for. */
  lemma ChipsById(device: nat)
    ensures Known(device) <==> device in {0x5049, 0x5830, 0x5831, 0x5834}
    ensures ChipOf(0x5049) == CH365 && ChipOf(0x5830) == ChipOf(0x5831) == CH367 && ChipOf(0x5834) == CH368
  {
  }

  ghost function EntryOf(d: Ch36xDev): Entry {
    Entry(d.addr, d.pdev, d.chiptype, d.minor, d.serial)
  }

  ghost function EntriesOf(ds: seq<Ch36xDev>): (es: seq<Entry>)
    ensures |es| == |ds|
  {
    seq(|ds|, i requires 0 <= i < |ds| => EntryOf(ds[i]))
  }

  /** Every listed record is the driver data of its card. */
  ghost predicate DataMatches(ds: seq<Ch36xDev>, records: map<nat, Ch36xDev>) {
    forall i :: 0 <= i < |ds| ==> ds[i].pdev in records && records[ds[i].pdev] == ds[i]
  }

  lemma DataMatchesUpdate(ds: seq<Ch36xDev>, records: map<nat, Ch36xDev>, d: Ch36xDev)
    requires DataMatches(ds, records)
    requires forall i :: 0 <= i < |ds| ==> EntriesOf(ds)[i].pdev != d.pdev
    ensures DataMatches(ds, records[d.pdev := d])
    ensures DataMatches(ds + [d], records[d.pdev := d])
  {
    forall i | 0 <= i < |ds| ensures ds[i].pdev != d.pdev {
      assert EntriesOf(ds)[i].pdev == ds[i].pdev;
    }
  }

  /** What a successful probe takes, in the order it is taken. */
  ghost function TakenBy(e: Entry): seq<Res> {
    [Memory(e.addr), Enabled(e.pdev), Regions(e.pdev), Mapping(e.addr), Irq(e.addr), Cdev(e.addr)]
  }

  lemma TakesHolding(e: Entry)
    ensures multiset(TakenBy(e)) == Holding(e)
  {
  }

  /** All of it is held, so all of it can be given back. */
  lemma FreesAllButEnabled(e: Entry, freed: seq<Res>)
    requires freed == [Cdev(e.addr), Irq(e.addr), Mapping(e.addr), Regions(e.pdev), Memory(e.addr)]
    ensures multiset(freed) == Freed(e)
  {
    assert multiset(freed) == multiset{Cdev(e.addr), Irq(e.addr), Mapping(e.addr), Regions(e.pdev), Memory(e.addr)};
  }

  lemma Removed(m: Model, pdev: nat, e: Entry, freed: multiset<Res>)
    requires Bound(m, pdev) && e == m.list[Position(m.list, pdev)] && freed == Freed(e)
    ensures AfterRemove(m, pdev)
            == Model.Model(Without(m.list, Position(m.list, pdev)), m.count, m.held - freed, m.made, m.gone + [pdev])
  {
  }

  lemma ListedLast(ds: seq<Ch36xDev>, d: Ch36xDev)
    ensures EntriesOf(ds + [d]) == EntriesOf(ds) + [EntryOf(d)]
  {
  }

  lemma NotBound(ds: seq<Ch36xDev>, records: map<nat, Ch36xDev>, m: Model, pdev: nat)
    requires m.list == EntriesOf(ds) && DataMatches(ds, records) && pdev !in records
    ensures !Bound(m, pdev)
  {
    forall i | 0 <= i < |m.list| ensures m.list[i].pdev != pdev {
      assert m.list[i] == EntryOf(ds[i]);
    }
  }

  /** Where a bound card is listed; its driver data is that record. */
  lemma BoundAt(m: Model, ds: seq<Ch36xDev>, records: map<nat, Ch36xDev>, pdev: nat) returns (k: nat)
    requires m.list == EntriesOf(ds) && DataMatches(ds, records) && Bound(m, pdev)
    ensures k == Position(m.list, pdev) && ds[k].pdev == pdev && pdev in records && records[pdev] == ds[k]
  {
    k := Position(m.list, pdev);
    assert EntriesOf(ds)[k] == EntryOf(ds[k]);
  }

  lemma OnlyPlace(m: Model, ds: seq<Ch36xDev>, i: nat, k: nat)
    requires m.list == EntriesOf(ds) && InOrder(m.list) && i < |ds| && k < |ds| && ds[i] == ds[k]
    ensures i == k
  {
    assert m.list[i] == EntryOf(ds[i]) && m.list[k] == EntryOf(ds[k]);
  }

  lemma EntriesWithout(ds: seq<Ch36xDev>, records: map<nat, Ch36xDev>, i: nat)
    requires i < |ds| && DataMatches(ds, records)
    ensures EntriesOf(ds[..i] + ds[i + 1..]) == Without(EntriesOf(ds), i)
    ensures DataMatches(ds[..i] + ds[i + 1..], records)
  {
  }
}
