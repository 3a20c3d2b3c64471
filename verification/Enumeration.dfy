/** Numbering of cards in the 2013 driver, and the demo's search for them by device node name. */
module Enumeration {

  const ENODEV := -19
  const ENOMEM := -12
  const U8 := 0x100
  const MAX_SEARCHED := 0x10

  type Major = m: nat | m != 0 witness 1

  /** The kernel's answer to a request for a range of device numbers. */
  datatype Region = Refused | Got(major: Major, minor: nat)

  /** What the kernel answers at each step of a probe; zero and true are success. */
  datatype Fate = Fate(enable: bool, memory: bool, ioPorts: bool, ioMemory: bool, regions: int, ioMap: bool,
                       memMap: bool, region: Region, classMade: bool, cdev: int, node: bool)

  /** A listed card: its minor, and the code of the character its device name ends in. */
  datatype Card = Card(minor: nat, suffix: nat)

  /** `nodes` holds the device nodes by the last character of their names; numbers are dynamic, and
      `major` is zero until a range has been allotted. `classUp` says that the class the nodes are
      made in exists: it is made with the range, and a registration that fails later destroys it. */
  datatype State = State(list: seq<Card>, count: nat, major: nat, base: nat, nodes: map<nat, nat>, classUp: bool)

  const Initial := State([], 0, 0, 0, map[], false)

  /** '0' plus a count, as the `%c` of the formatted name converts it. */
  function Suffix(count: nat): nat {
    ('0' as int + count) % U8
  }

  /** The last character of the i-th name the demo tries. */
  function Digit(i: nat): nat {
    '0' as int + i
  }

  predicate ReachesNumbering(f: Fate) {
    f.enable && f.memory && f.ioPorts && f.ioMemory && f.regions == 0 && f.ioMap && f.memMap
  }

  predicate Registers(s: State, f: Fate) {
    ReachesNumbering(f) && (s.major == 0 ==> f.classMade && f.region.Got?) && f.cdev >= 0
  }

  function Allotted(s: State, f: Fate): State {
    if s.major != 0 then s
    else match f.region
         case Refused => s.(major := 0, base := 0, classUp := f.classMade)
         case Got(major, minor) => s.(major := major, base := minor, classUp := f.classMade)
  }

  /** A registration that has its numbers and fails to add the device destroys the class. */
  predicate DropsClass(s: State, f: Fate) {
    f.cdev < 0 && (s.major != 0 || (f.classMade && f.region.Got?))
  }

  /** The state after one probe. */
  function Probe(s: State, f: Fate): State {
    if !ReachesNumbering(f) then s
    else
      var t := Allotted(s, f);
      if !Registers(s, f) then (if DropsClass(s, f) then t.(classUp := false) else t)
      else
        var minor := if s.major == 0 then t.base else t.base + t.count;
        var suffix := Suffix(t.count);
        State(t.list + [Card(minor, suffix)], (t.count + 1) % U8, t.major, t.base,
              if f.node && t.classUp && suffix !in t.nodes then t.nodes[suffix := minor] else t.nodes, t.classUp)
  }

  function Verdict(s: State, f: Fate): int {
    if !f.enable then ENODEV else if !f.memory then ENOMEM else if Registers(s, f) then 0 else -1
  }

  function Run(fates: seq<Fate>): State {
    if fates == [] then Initial else Probe(Run(fates[..|fates| - 1]), fates[|fates| - 1])
  }

  class OldDriver {
    var list: seq<Card>
    var gDevCount: nat
    var major: nat
    var base: nat
    // The kernel's device nodes of this driver's class, and whether the class exists.
    var nodes: map<nat, nat>
    var classUp: bool

    function Snapshot(): State
      reads this
    {
      State(list, gDevCount, major, base, nodes, classUp)
    }

    constructor ()
      ensures Snapshot() == Initial
      ensures list == [] && gDevCount == major == base == 0 && nodes == map[] && !classUp
    {
      list, gDevCount, major, base, nodes, classUp := [], 0, 0, 0, map[], false;
    }

    method RegisterChrdev(f: Fate) returns (retval: int, minor: nat, suffix: nat)
      requires ReachesNumbering(f)
      modifies `major, `base, `nodes, `classUp
      ensures retval == if Registers(old(Snapshot()), f) then 0 else -1
      ensures retval == 0 ==>
                Probe(old(Snapshot()), f)
                == Snapshot().(list := list + [Card(minor, suffix)], count := (gDevCount + 1) % U8)
      ensures retval != 0 ==> Probe(old(Snapshot()), f) == Snapshot()
    {
      retval, minor, suffix := 0, 0, 0;
      if major != 0 {
        minor := base + gDevCount;
      } else {
        match f.region {
          case Refused => retval, major, base := -1, 0, 0;
          case Got(got, first) => major, base := got, first;
        }
        minor, classUp := base, f.classMade;
        if !f.classMade {
          return -1, minor, suffix;
        }
      }
      if retval < 0 {
        return -1, minor, suffix;
      }
      if f.cdev < 0 {
        classUp := false;
        return -1, minor, suffix;
      }
      suffix := Suffix(gDevCount);
      if f.node && classUp && suffix !in nodes {
        nodes := nodes[suffix := minor];
      }
      return 0, minor, suffix;
    }

    method PciProbe(f: Fate) returns (retval: int)
      modifies this
      ensures retval == Verdict(old(Snapshot()), f)
      ensures Snapshot() == Probe(old(Snapshot()), f)
      ensures retval == 0 <==> |list| == |old(list)| + 1
      ensures retval != 0 ==> list == old(list) && retval == if !f.enable then -19 else if !f.memory then -12 else -1
    {
      if !f.enable {
        return ENODEV;
      }
      if !f.memory {
        return ENOMEM;
      }
      if !f.ioPorts || !f.ioMemory || f.regions != 0 || !f.ioMap || !f.memMap {
        return -1;
      }
      var registered, minor, suffix := RegisterChrdev(f);
      if registered != 0 {
        return -1;
      }
      list := list + [Card(minor, suffix)];
      gDevCount := (gDevCount + 1) % U8;
      return 0;
    }

    /** Removal is reserved and does nothing. */
    method PciRemove() {
    }

    method FopsOpen(minor: nat) returns (ret: int)
      ensures ret == if exists k :: 0 <= k < |list| && list[k].minor == minor then 0 else -19
    {
      for pos := 0 to |list|
        invariant forall k :: 0 <= k < pos ==> list[k].minor != minor
      {
        if list[pos].minor == minor {
          return 0;
        }
      }
      return ENODEV;
    }

    /** Opening a device node by the last character of its name. */
    method Open(suffix: nat) returns (ok: bool)
      ensures ok == Opens(Snapshot(), suffix)
    {
      if suffix !in nodes {
        return false;
      }
      var ret := FopsOpen(nodes[suffix]);
      ok := ret == 0;
    }

    /** The demo's search: opens the nodes in turn up to the first that does not open. */
    method GetCh36xDevList() returns (retval: int, found: nat)
      ensures found == Search(Snapshot(), 0)
      ensures retval == if found == 0 then -1 else 0
    {
      found := 0;
      while found < MAX_SEARCHED
        invariant found <= MAX_SEARCHED && Search(Snapshot(), 0) == Search(Snapshot(), found)
      {
        var ok := Open(Digit(found));
        if !ok {
          break;
        }
        found := found + 1;
      }
      retval := if found == 0 then -1 else 0;
    }
  }

  predicate Known(s: State, minor: nat) {
    exists k :: 0 <= k < |s.list| && s.list[k].minor == minor
  }

  predicate Opens(s: State, suffix: nat) {
    suffix in s.nodes && Known(s, s.nodes[suffix])
  }

  /** The first of the names from `i` on that does not open. */
  function Search(s: State, i: nat): (n: nat)
    requires i <= MAX_SEARCHED
    ensures i <= n <= MAX_SEARCHED
    ensures forall k :: i <= k < n ==> Opens(s, Digit(k))
    ensures n < MAX_SEARCHED ==> !Opens(s, Digit(n))
    decreases MAX_SEARCHED - i
  {
    if i < MAX_SEARCHED && Opens(s, Digit(i)) then Search(s, i + 1) else i
  }

  // ------------------------------------------------------------ every run

  function AtPlace(base: nat, k: nat): Card {
    Card(base + k % U8, Suffix(k % U8))
  }

  /** Cards are numbered as they come, round the 8-bit counter. */
  predicate Numbered(s: State) {
    && (forall k :: 0 <= k < |s.list| ==> s.list[k] == AtPlace(s.base, k))
    && s.count == |s.list| % U8
    && (s.major == 0 ==> s.list == [])
  }

  /** A node belongs to a card on the list. */
  predicate NodesListed(s: State) {
    forall c :: c in s.nodes ==> exists k :: 0 <= k < |s.list| && s.list[k] == Card(s.nodes[c], c)
  }

  lemma NewPlace(base: nat, n: nat)
    ensures AtPlace(base, n) == Card(base + n % U8, Suffix(n % U8)) && (n % U8 + 1) % U8 == (n + 1) % U8
  {
  }

  /** A registration only allots numbers while there are no cards to be renumbered. */
  lemma AllottedKeepsNumbered(s: State, f: Fate)
    requires Numbered(s)
    ensures Numbered(Allotted(s, f))
    ensures Allotted(s, f).list == s.list && Allotted(s, f).count == s.count
    ensures s.major == 0 ==> s.list == [] && s.count == 0
  {
  }

  lemma ListedKeepsNumbered(t: State, nodes: map<nat, nat>)
    requires Numbered(t) && t.major != 0
    ensures Numbered(State(t.list + [Card(t.base + t.count, Suffix(t.count))], (t.count + 1) % U8, t.major, t.base,
                           nodes, t.classUp))
  {
    NewPlace(t.base, |t.list|);
  }

  lemma ProbeKeepsNumbered(s: State, f: Fate)
    requires Numbered(s)
    ensures Numbered(Probe(s, f))
  {
    AllottedKeepsNumbered(s, f);
    if Registers(s, f) {
      ListedKeepsNumbered(Allotted(s, f), Probe(s, f).nodes);
    }
  }

  lemma ProbeKeepsNodes(s: State, f: Fate)
    requires Numbered(s) && NodesListed(s)
    ensures NodesListed(Probe(s, f))
  {
    var t := Probe(s, f);
    assert |s.list| > 0 ==> s.major != 0;
    forall c | c in t.nodes ensures exists k :: 0 <= k < |t.list| && t.list[k] == Card(t.nodes[c], c) {
      if c in s.nodes {
        var k :| 0 <= k < |s.list| && s.list[k] == Card(s.nodes[c], c);
        assert t.list[k] == Card(t.nodes[c], c);
      } else {
        assert t.list[|t.list| - 1] == Card(t.nodes[c], c);
      }
    }
  }

  lemma {:induction false} EveryRunIsNumbered(fates: seq<Fate>)
    ensures Numbered(Run(fates)) && NodesListed(Run(fates))
  {
    if fates != [] {
      EveryRunIsNumbered(fates[..|fates| - 1]);
      ProbeKeepsNumbered(Run(fates[..|fates| - 1]), fates[|fates| - 1]);
      ProbeKeepsNodes(Run(fates[..|fates| - 1]), fates[|fates| - 1]);
    }
  }

  /** Up to 256 cards, each has the number and the name of its place. */
  predicate OnePerPlace(s: State) {
    && (forall k :: 0 <= k < |s.list| ==> s.list[k] == Card(s.base + k, Suffix(k)))
    && s.count == if |s.list| < U8 then |s.list| else 0
  }

  lemma OneTurnOnePerPlace(s: State)
    requires Numbered(s) && |s.list| <= U8
    ensures OnePerPlace(s)
  {
    forall k | 0 <= k < |s.list| ensures s.list[k] == Card(s.base + k, Suffix(k)) {
      assert s.list[k] == AtPlace(s.base, k) && k % U8 == k;
    }
  }

  lemma PlaceIsNumber(fates: seq<Fate>, k: nat)
    requires k < |Run(fates).list| <= 256
    ensures var s := Run(fates);
            && s.list[k].minor == s.base + k
            && s.list[k].suffix == (if k < 208 then '0' as int + k else k - 208)
            && s.count == if |s.list| < 256 then |s.list| else 0
  {
    EveryRunIsNumbered(fates);
    OneTurnOnePerPlace(Run(fates));
    SuffixesOnce(k);
  }

  lemma SuffixesOnce(k: nat)
    requires k < 256
    ensures Suffix(k) == if k < 208 then '0' as int + k else k - 208
  {
  }

  /** A card is listed by exactly the probes in which every step succeeds, numbering included. */
  lemma ListedIff(s: State, f: Fate)
    ensures |Probe(s, f).list| > |s.list|
            <==> f.enable && f.memory && f.ioPorts && f.ioMemory && f.regions == 0 && f.ioMap && f.memMap
                 && (s.major == 0 ==> f.classMade && f.region.Got?) && f.cdev >= 0
  {
  }

  /** A name the demo tries is that of the card at the same place, and of cards a whole turn later. */
  lemma SearchedSuffix(k: nat, i: nat)
    requires i < MAX_SEARCHED
    ensures Suffix(k % U8) == Digit(i) <==> k % U8 == i
  {
  }

  /** The card a node belongs to. */
  lemma CardOfNode(s: State, c: nat) returns (k: nat)
    requires NodesListed(s) && c in s.nodes
    ensures k < |s.list| && s.list[k] == Card(s.nodes[c], c)
  {
    k :| 0 <= k < |s.list| && s.list[k] == Card(s.nodes[c], c);
  }

  lemma PlaceReached(s: State, k: nat, i: nat)
    requires Numbered(s) && k < |s.list| && s.list[k].suffix == Digit(i) && i < MAX_SEARCHED
    ensures i <= k
  {
    assert s.list[k] == AtPlace(s.base, k);
    SearchedSuffix(k, i);
  }

  lemma OpensAtPlace(s: State, i: nat)
    requires NodesListed(s) && Numbered(s) && i < MAX_SEARCHED
    ensures Opens(s, Digit(i)) <==> i < |s.list| && Digit(i) in s.nodes
  {
    if Digit(i) in s.nodes {
      var k := CardOfNode(s, Digit(i));
      PlaceReached(s, k, i);
    }
  }

  function Min(a: nat, b: nat): nat { if a < b then a else b }

  /** Whether the nodes of all the cards the demo can see were made. */
  predicate NodesMade(s: State) {
    forall i: nat :: i < Min(|s.list|, MAX_SEARCHED) ==> Digit(i) in s.nodes
  }

  lemma SearchCounts(s: State)
    requires NodesListed(s) && Numbered(s)
    ensures Search(s, 0) <= Min(|s.list|, MAX_SEARCHED)
    ensures Search(s, 0) == Min(|s.list|, MAX_SEARCHED) <==> NodesMade(s)
  {
    var n := Search(s, 0);
    if n > 0 {
      OpensAtPlace(s, n - 1);
    }
    if n < Min(|s.list|, MAX_SEARCHED) {
      OpensAtPlace(s, n);
      assert Digit(n) !in s.nodes;
    } else {
      forall i: nat | i < n ensures Digit(i) in s.nodes {
        assert Opens(s, Digit(i));
      }
    }
  }

  /** The demo never counts a card too many, over any run of probes, failed or not and however many;
      it counts them all, up to sixteen, exactly when the nodes of those cards were made. */
  lemma SearchAgreesIff(fates: seq<Fate>)
    ensures Search(Run(fates), 0) <= |Run(fates).list| && Search(Run(fates), 0) <= 16
    ensures Search(Run(fates), 0) == Min(|Run(fates).list|, 16) <==> NodesMade(Run(fates))
  {
    EveryRunIsNumbered(fates);
    SearchCounts(Run(fates));
  }

  /** The kernel makes every node asked of it, and no registration fails once it has its numbers. */
  predicate NodesWork(fates: seq<Fate>) {
    forall i :: 0 <= i < |fates| ==>
      fates[i].node && (ReachesNumbering(fates[i]) ==> fates[i].classMade && fates[i].cdev >= 0)
  }

  predicate NodesComplete(s: State) {
    (s.major != 0 ==> s.classUp) && forall i: nat :: i < |s.list| ==> Suffix(i % U8) in s.nodes
  }

  lemma CompleteByProbe(s: State, f: Fate)
    requires Numbered(s) && NodesComplete(s) && f.node && (ReachesNumbering(f) ==> f.classMade && f.cdev >= 0)
    ensures NodesComplete(Probe(s, f))
  {
  }

  lemma {:induction false} NodesWorkMade(fates: seq<Fate>)
    requires NodesWork(fates)
    ensures NodesComplete(Run(fates))
  {
    if fates != [] {
      var before := fates[..|fates| - 1];
      EveryRunIsNumbered(before);
      NodesWorkMade(before);
      CompleteByProbe(Run(before), fates[|fates| - 1]);
    }
  }

  lemma DigitMade(fates: seq<Fate>, i: nat)
    requires NodesWork(fates) && i < |Run(fates).list| && i < MAX_SEARCHED
    ensures Digit(i) in Run(fates).nodes
  {
    NodesWorkMade(fates);
    assert i % U8 == i;
    assert Suffix(i) == Digit(i);
  }

  lemma AllNodesMade(fates: seq<Fate>)
    requires NodesWork(fates)
    ensures NodesMade(Run(fates))
  {
    var s := Run(fates);
    forall i: nat | i < Min(|s.list|, MAX_SEARCHED) ensures Digit(i) in s.nodes {
      DigitMade(fates, i);
    }
  }

  /** With the kernel making every node and no registration failing late, the demo finds exactly the
      cards there are, up to sixteen. */
  lemma SearchFindsAll(fates: seq<Fate>)
    requires forall i :: 0 <= i < |fates| ==>
               fates[i].node && (ReachesNumbering(fates[i]) ==> fates[i].classMade && fates[i].cdev >= 0)
    ensures Search(Run(fates), 0) == if |Run(fates).list| < 16 then |Run(fates).list| else 16
  {
    AllNodesMade(fates);
    SearchAgreesIff(fates);
  }

  // ------------------------------------------------------------ the lost class

  /** Numbers are asked for until a range has been got, and never again. */
  lemma NumbersGotOnce(s: State, f: Fate)
    ensures s.major == 0 && ReachesNumbering(f) ==>
              match f.region
              case Refused => Probe(s, f) == s.(major := 0, base := 0, classUp := f.classMade)
              case Got(major, minor) => Probe(s, f).major == major && Probe(s, f).base == minor
    ensures s.major != 0 ==> Probe(s, f).major == s.major && Probe(s, f).base == s.base
  {
  }

  /** The class is made with the numbers, survives every probe that stops before its registration or
      succeeds, and is gone for good after a registration that fails once it has its numbers. */
  lemma ClassLostIff(s: State, f: Fate)
    ensures s.major != 0 && s.classUp ==> (!Probe(s, f).classUp <==> ReachesNumbering(f) && f.cdev < 0)
    ensures s.major != 0 && !s.classUp ==> !Probe(s, f).classUp
    ensures s.major == 0 && ReachesNumbering(f) ==>
              (Probe(s, f).classUp <==> f.classMade && (f.region.Got? ==> f.cdev >= 0))
    ensures !ReachesNumbering(f) ==> Probe(s, f) == s
  {
  }

  const Works := Fate(true, true, true, true, 0, true, true, Got(1, 0), true, 0, true)

  /** One late failure hides every card probed after it: a card is listed, and the demo finds none. */
  lemma LateFailureHidesCards()
    ensures var s := Run([Works.(cdev := -1), Works]);
            s.list == [Card(0, Suffix(0))] && Search(s, 0) == 0
  {
    var failing := Works.(cdev := -1);
    assert [failing, Works][..1] == [failing] && [failing][..0] == [];
    assert Run([failing]) == State([], 0, 1, 0, map[], false);
    assert Run([failing, Works]) == State([Card(0, Suffix(0))], 1, 1, 0, map[], false);
  }
}
