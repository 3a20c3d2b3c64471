/** The list of bound cards, their numbers, and the kernel resources behind them, over any run of
    the 2021 driver's probe and remove. */
module RegistryModel {
  import opened InterruptModes

  const ENOMEM := -12
  const ENODEV := -19
  const U8 := 0x100

  datatype Res =
    | Memory(addr: nat)   // the record itself
    | Enabled(pdev: nat)  // one reference on the enabled PCI device
    | Regions(pdev: nat)
    | Mapping(addr: nat)
    | Irq(addr: nat)
    | Cdev(addr: nat)

  /** A listed card. `serial` numbers the successful probes, wrapped or not. */
  datatype Entry = Entry(addr: nat, pdev: nat, chip: Chip, minor: nat, serial: nat)

  /** `made` counts successful probes and `gone` lists the cards removed. */
  datatype Model = Model(list: seq<Entry>, count: nat, held: multiset<Res>,
                         made: nat, gone: seq<nat>)

  const Initial := Model([], 0, multiset{}, 0, [])

  /** What the kernel answers at each acquiring step of a probe; zero is success. */
  datatype Fate = Fate(memory: bool, enable: int, regions: int, ioStart: nat, mapped: bool, irq: int, cdev: int)

  predicate ReachesIrq(f: Fate) {
    f.memory && f.enable == 0 && f.regions == 0 && f.ioStart != 0 && f.mapped
  }

  /** The answer of the first step that fails, or zero. */
  function Verdict(f: Fate): int {
    if !f.memory then ENOMEM
    else if f.enable != 0 then f.enable
    else if f.regions != 0 then f.regions
    else if f.ioStart == 0 || !f.mapped then ENOMEM
    else if f.irq != 0 then f.irq
    else f.cdev
  }

  datatype Op = Probe(pdev: nat, addr: nat, chip: Chip, fate: Fate) | Remove(pdev: nat)

  predicate Bound(m: Model, pdev: nat) {
    exists i :: 0 <= i < |m.list| && m.list[i].pdev == pdev
  }

  /** What the PCI core guarantees: only unbound cards are probed, and only bound ones removed. */
  predicate Legal(m: Model, op: Op) {
    match op
    case Probe(pdev, _, _, _) => !Bound(m, pdev)
    case Remove(pdev) => Bound(m, pdev)
  }

  /** Everything a bound card holds. */
  function Holding(e: Entry): multiset<Res> {
    multiset{Memory(e.addr), Enabled(e.pdev), Regions(e.pdev), Mapping(e.addr), Irq(e.addr), Cdev(e.addr)}
  }

  /** What its removal gives back. */
  function Freed(e: Entry): multiset<Res> {
    Holding(e) - multiset{Enabled(e.pdev)}
  }

  function HeldFor(list: seq<Entry>): multiset<Res> {
    if list == [] then multiset{} else HeldFor(list[..|list| - 1]) + Holding(list[|list| - 1])
  }

  /** One leftover reference for every removal. */
  function Leftover(gone: seq<nat>): multiset<Res> {
    if gone == [] then multiset{} else Leftover(gone[..|gone| - 1]) + multiset{Enabled(gone[|gone| - 1])}
  }

  function Position(list: seq<Entry>, pdev: nat): (i: nat)
    requires exists k :: 0 <= k < |list| && list[k].pdev == pdev
    ensures i < |list| && list[i].pdev == pdev
  {
    if list[0].pdev == pdev then 0 else
    assert exists k :: 0 <= k < |list[1..]| && list[1..][k].pdev == pdev by {
      var k :| 0 <= k < |list| && list[k].pdev == pdev;
      assert list[1..][k - 1].pdev == pdev;
    }
    1 + Position(list[1..], pdev)
  }

  function Without(list: seq<Entry>, i: nat): seq<Entry>
    requires i < |list|
  {
    list[..i] + list[i + 1..]
  }

  /** A probe that fails changes nothing. */
  function AfterProbe(m: Model, pdev: nat, addr: nat, chip: Chip, fate: Fate): Model {
    if Verdict(fate) != 0 then m
    else
      var e := Entry(addr, pdev, chip, m.count, m.made);
      m.(list := m.list + [e], count := (m.count + 1) % U8, held := m.held + Holding(e), made := m.made + 1)
  }

  /** Removing a card gives back all it holds but the reference on the enabled device. */
  function AfterRemove(m: Model, pdev: nat): Model {
    if !Bound(m, pdev) then m
    else
      var i := Position(m.list, pdev);
      m.(list := Without(m.list, i), held := m.held - Freed(m.list[i]), gone := m.gone + [pdev])
  }

  function Apply(m: Model, op: Op): Model {
    match op
    case Probe(pdev, addr, chip, fate) => AfterProbe(m, pdev, addr, chip, fate)
    case Remove(pdev) => AfterRemove(m, pdev)
  }

  function Run(ops: seq<Op>): Model {
    if ops == [] then Initial else Apply(Run(ops[..|ops| - 1]), ops[|ops| - 1])
  }

  predicate LegalRun(ops: seq<Op>) {
    forall i :: 0 <= i < |ops| ==> Legal(Run(ops[..i]), ops[i])
  }

  // ------------------------------------------------------------ invariant

  /** Listed cards are different cards, in the order of their probes. */
  predicate InOrder(list: seq<Entry>) {
    forall i, j :: 0 <= i < j < |list| ==> list[i].pdev != list[j].pdev && list[i].serial < list[j].serial
  }

  /** A card's minor is the wrapped number of its probe. */
  predicate Filed(e: Entry, made: nat) {
    e.serial < made && e.minor == e.serial % U8
  }

  predicate Listed(m: Model) {
    && InOrder(m.list)
    && (forall i :: 0 <= i < |m.list| ==> Filed(m.list[i], m.made))
    && m.count == m.made % U8
  }

  /** Resources held are exactly those of the listed cards and the leftover references. */
  predicate Conserved(m: Model) {
    m.held == HeldFor(m.list) + Leftover(m.gone)
  }

  predicate Inv(m: Model) { Listed(m) && Conserved(m) }

  lemma Swap(a: multiset<Res>, b: multiset<Res>, c: multiset<Res>)
    ensures (a + b) + c == (a + c) + b
  {
  }

  lemma HeldForSnoc(list: seq<Entry>, e: Entry)
    ensures HeldFor(list + [e]) == HeldFor(list) + Holding(e)
  {
    assert (list + [e])[..|list|] == list;
  }

  lemma WithoutSnoc(init: seq<Entry>, e: Entry, i: nat)
    requires i < |init|
    ensures Without(init + [e], i) == Without(init, i) + [e]
  {
  }

  lemma {:induction false} HeldForWithout(list: seq<Entry>, i: nat)
    requires i < |list|
    ensures HeldFor(list) == HeldFor(Without(list, i)) + Holding(list[i])
  {
    var last := |list| - 1;
    var init, e := list[..last], list[last];
    assert list == init + [e];
    HeldForSnoc(init, e);
    if i == last {
      assert Without(list, i) == init;
    } else {
      HeldForWithout(init, i);
      WithoutSnoc(init, e, i);
      HeldForSnoc(Without(init, i), e);
      Swap(HeldFor(Without(init, i)), Holding(list[i]), Holding(e));
    }
  }

  /** Whatever a listed card holds is held. */
  lemma HoldingIsHeld(m: Model, i: nat)
    requires Conserved(m) && i < |m.list|
    ensures Holding(m.list[i]) <= m.held && Freed(m.list[i]) <= m.held
  {
    HeldForWithout(m.list, i);
  }

  lemma ProbeConserves(m: Model, pdev: nat, addr: nat, chip: Chip, fate: Fate)
    requires Conserved(m)
    ensures Conserved(AfterProbe(m, pdev, addr, chip, fate))
  {
    if Verdict(fate) == 0 {
      var e := Entry(addr, pdev, chip, m.count, m.made);
      HeldForSnoc(m.list, e);
      Swap(HeldFor(m.list), Leftover(m.gone), Holding(e));
    }
  }

  lemma ProbeKeepsListed(m: Model, pdev: nat, addr: nat, chip: Chip, fate: Fate)
    requires Listed(m) && !Bound(m, pdev)
    ensures Listed(AfterProbe(m, pdev, addr, chip, fate))
  {
    var t := AfterProbe(m, pdev, addr, chip, fate);
    forall i | 0 <= i < |t.list| ensures Filed(t.list[i], t.made) {
      if i < |m.list| {
        assert Filed(m.list[i], m.made) && m.list[i].pdev != pdev;
      }
    }
  }

  lemma LeftoverSnoc(gone: seq<nat>, pdev: nat)
    ensures Leftover(gone + [pdev]) == Leftover(gone) + multiset{Enabled(pdev)}
  {
    assert (gone + [pdev])[..|gone|] == gone;
  }

  lemma HeldAfterRemove(m: Model, i: nat)
    requires Conserved(m) && i < |m.list|
    ensures var pdev := m.list[i].pdev;
            m.held - Freed(m.list[i])
            == HeldFor(Without(m.list, i)) + Leftover(m.gone + [pdev])
  {
    var e := m.list[i];
    HeldForWithout(m.list, i);
    LeftoverSnoc(m.gone, e.pdev);
    GiveBack(HeldFor(Without(m.list, i)), Holding(e), Leftover(m.gone), Enabled(e.pdev));
  }

  lemma RemoveConserves(m: Model, pdev: nat)
    requires Conserved(m) && Bound(m, pdev)
    ensures Conserved(AfterRemove(m, pdev))
  {
    HeldAfterRemove(m, Position(m.list, pdev));
  }

  lemma GiveBack(rest: multiset<Res>, mine: multiset<Res>, left: multiset<Res>, kept: Res)
    requires kept in mine
    ensures (rest + mine + left) - (mine - multiset{kept}) == rest + (left + multiset{kept})
  {
  }

  lemma RemoveKeepsListed(m: Model, pdev: nat)
    requires Listed(m) && Bound(m, pdev)
    ensures Listed(AfterRemove(m, pdev))
  {
    WithoutKeeps(m, Position(m.list, pdev));
  }

  lemma WithoutKeeps(m: Model, i: nat)
    requires Listed(m) && i < |m.list|
    ensures InOrder(Without(m.list, i))
    ensures forall k :: 0 <= k < |m.list| - 1 ==> Filed(Without(m.list, i)[k], m.made)
  {
    var rest := Without(m.list, i);
    assert forall k :: 0 <= k < |rest| ==> rest[k] == m.list[if k < i then k else k + 1];
  }

  lemma LegalSoFar(ops: seq<Op>)
    requires ops != [] && LegalRun(ops)
    ensures LegalRun(ops[..|ops| - 1]) && Legal(Run(ops[..|ops| - 1]), ops[|ops| - 1])
  {
    var init := ops[..|ops| - 1];
    forall i | 0 <= i < |init| ensures Legal(Run(init[..i]), init[i]) {
      assert init[..i] == ops[..i];
    }
  }

  lemma {:induction false} InvHolds(ops: seq<Op>)
    requires LegalRun(ops)
    ensures Inv(Run(ops))
  {
    if ops != [] {
      LegalSoFar(ops);
      InvHolds(ops[..|ops| - 1]);
      var m, op := Run(ops[..|ops| - 1]), ops[|ops| - 1];
      match op
      case Probe(pdev, addr, chip, fate) =>
        ProbeConserves(m, pdev, addr, chip, fate);
        ProbeKeepsListed(m, pdev, addr, chip, fate);
      case Remove(pdev) =>
        RemoveConserves(m, pdev);
        RemoveKeepsListed(m, pdev);
    }
  }

  /** Over any run, the resources held are exactly memory, PCI enable, regions, mapping, interrupt and
      character device of each listed card, plus one PCI enable for each removal so far. */
  lemma {:induction false} ResourcesConserved(ops: seq<Op>)
    requires LegalRun(ops)
    ensures Conserved(Run(ops))
  {
    InvHolds(ops);
  }

  /** The answer of a probe: the first step that fails decides, in the order of the steps. */
  lemma FirstFailureDecides(f: Fate)
    ensures !f.memory ==> Verdict(f) == -12
    ensures f.memory && f.enable != 0 ==> Verdict(f) == f.enable
    ensures f.memory && f.enable == 0 && f.regions != 0 ==> Verdict(f) == f.regions
    ensures f.memory && f.enable == f.regions == 0 && (f.ioStart == 0 || !f.mapped) ==> Verdict(f) == -12
    ensures ReachesIrq(f) <==> f.memory && f.enable == f.regions == 0 && f.ioStart != 0 && f.mapped
    ensures ReachesIrq(f) && f.irq != 0 ==> Verdict(f) == f.irq
    ensures ReachesIrq(f) && f.irq == 0 ==> Verdict(f) == f.cdev
  {
  }

  /** A card is listed by exactly the probes in which every step succeeds. */
  lemma ListedIff(m: Model, pdev: nat, addr: nat, chip: Chip, f: Fate)
    ensures |AfterProbe(m, pdev, addr, chip, f).list| > |m.list|
            <==> f.memory && f.enable == f.regions == 0 && f.ioStart != 0 && f.mapped && f.irq == f.cdev == 0
  {
  }

  lemma HoldsSix(e: Entry)
    ensures |Holding(e)| == 6
    ensures Holding(e)
            == multiset([Memory(e.addr), Enabled(e.pdev), Regions(e.pdev)])
               + multiset([Mapping(e.addr), Irq(e.addr), Cdev(e.addr)])
  {
  }

  lemma {:induction false} SizeHeldFor(list: seq<Entry>)
    ensures |HeldFor(list)| == 6 * |list|
  {
    if list != [] {
      SizeHeldFor(list[..|list| - 1]);
      HoldsSix(list[|list| - 1]);
    }
  }

  lemma {:induction false} SizeLeftover(gone: seq<nat>)
    ensures |Leftover(gone)| == |gone|
  {
    if gone != [] {
      SizeLeftover(gone[..|gone| - 1]);
    }
  }

  /** Six resources for each listed card and one for each removal so far; none for failed probes. */
  lemma {:induction false} HeldCount(ops: seq<Op>)
    requires LegalRun(ops)
    ensures |Run(ops).held| == 6 * |Run(ops).list| + |Run(ops).gone|
  {
    ResourcesConserved(ops);
    SizeHeldFor(Run(ops).list);
    SizeLeftover(Run(ops).gone);
  }

  // ------------------------------------------------------------ minor numbers

  /** Which listed card a lookup by minor finds: the first with that minor. */
  predicate Finds(list: seq<Entry>, minor: nat, i: nat) {
    && i < |list| && list[i].minor == minor
    && forall k :: 0 <= k < i ==> list[k].minor != minor
  }

  /** Until 256 probes have succeeded, a card's minor is the number of its probe: minors strictly
      increase along the list and lie below the next one. */
  predicate NumberedInOrder(m: Model) {
    && m.count == m.made
    && (forall i :: 0 <= i < |m.list| ==> m.list[i].minor == m.list[i].serial < m.count)
    && (forall i, j :: 0 <= i < j < |m.list| ==> m.list[i].minor < m.list[j].minor)
  }

  lemma ListedInOrder(m: Model)
    requires Listed(m) && m.made < U8
    ensures NumberedInOrder(m)
  {
    forall i | 0 <= i < |m.list| ensures m.list[i].minor == m.list[i].serial < m.count {
      assert Filed(m.list[i], m.made);
    }
  }

  lemma {:induction false} MinorsWithoutWrap(ops: seq<Op>)
    requires LegalRun(ops) && Run(ops).made < 256
    ensures NumberedInOrder(Run(ops))
    ensures var m := Run(ops);
            && m.count == m.made
            && (forall i :: 0 <= i < |m.list| ==> m.list[i].minor < m.count)
            && (forall i, j :: 0 <= i < j < |m.list| ==> m.list[i].minor < m.list[j].minor)
  {
    InvHolds(ops);
    ListedInOrder(Run(ops));
  }

  /** A card was listed under this minor at some point of the run. */
  ghost predicate Given(ops: seq<Op>, minor: nat) {
    exists j :: 0 <= j <= |ops| && ListedAs(Run(ops[..j]).list, minor)
  }

  predicate ListedAs(list: seq<Entry>, minor: nat) {
    exists i :: 0 <= i < |list| && list[i].minor == minor
  }

  lemma LegalPrefix(ops: seq<Op>, j: nat)
    requires LegalRun(ops) && j <= |ops|
    ensures LegalRun(ops[..j])
  {
    forall i | 0 <= i < j ensures Legal(Run(ops[..j][..i]), ops[..j][i]) {
      assert ops[..j][..i] == ops[..i];
    }
  }

  /** The k-th successful probe's card was listed at some point of the run. */
  ghost predicate WasListed(ops: seq<Op>, k: nat) {
    exists j :: 0 <= j <= |ops| && Lists(Run(ops[..j]).list, k)
  }

  predicate Lists(list: seq<Entry>, k: nat) {
    exists i :: 0 <= i < |list| && list[i].serial == k
  }

  lemma StepLists(m: Model, op: Op)
    ensures var t := Apply(m, op);
            m.made <= t.made <= m.made + 1 && (t.made > m.made ==> Lists(t.list, m.made))
  {
    var t := Apply(m, op);
    if t.made > m.made {
      assert t.list[|t.list| - 1].serial == m.made;
    }
  }

  lemma {:induction false} MadeGrows(ops: seq<Op>, j: nat)
    requires j <= |ops|
    ensures Run(ops[..j]).made <= Run(ops).made
  {
    if j == |ops| {
      assert ops[..j] == ops;
    } else {
      var init := ops[..|ops| - 1];
      MadeGrows(init, j);
      assert init[..j] == ops[..j];
      StepLists(Run(init), ops[|ops| - 1]);
    }
  }

  lemma ListedLater(ops: seq<Op>, k: nat)
    requires ops != [] && WasListed(ops[..|ops| - 1], k)
    ensures WasListed(ops, k)
  {
    var init := ops[..|ops| - 1];
    var j :| 0 <= j <= |init| && Lists(Run(init[..j]).list, k);
    assert init[..j] == ops[..j];
  }

  /** Each successful probe listed a card, whether or not it is still there. */
  lemma {:induction false} EveryProbeListed(ops: seq<Op>, k: nat)
    requires k < Run(ops).made
    ensures WasListed(ops, k)
  {
    var init := ops[..|ops| - 1];
    StepLists(Run(init), ops[|ops| - 1]);
    if k < Run(init).made {
      EveryProbeListed(init, k);
      ListedLater(ops, k);
    } else {
      assert ops[..|ops|] == ops;
    }
  }

  lemma ListedAsWrapped(m: Model, k: nat)
    requires Listed(m) && Lists(m.list, k)
    ensures ListedAs(m.list, k % U8)
  {
    var i :| 0 <= i < |m.list| && m.list[i].serial == k;
    assert Filed(m.list[i], m.made);
  }

  lemma WasGiven(ops: seq<Op>, k: nat)
    requires LegalRun(ops) && WasListed(ops, k)
    ensures Given(ops, k % U8)
  {
    var j :| 0 <= j <= |ops| && Lists(Run(ops[..j]).list, k);
    LegalPrefix(ops, j);
    InvHolds(ops[..j]);
    ListedAsWrapped(Run(ops[..j]), k);
  }

  lemma GivenWasMade(ops: seq<Op>, minor: nat)
    requires LegalRun(ops) && Run(ops).made < U8 && Given(ops, minor)
    ensures minor < Run(ops).made
  {
    var j :| 0 <= j <= |ops| && ListedAs(Run(ops[..j]).list, minor);
    LegalPrefix(ops, j);
    MadeGrows(ops, j);
    MinorsWithoutWrap(ops[..j]);
  }

  predicate WrapsTo(made: nat, count: nat) {
    if made < U8 then count == made else count == (made - U8) % U8
  }

  lemma CountWraps(m: Model)
    requires Listed(m)
    ensures WrapsTo(m.made, m.count)
  {
    if m.made >= U8 {
      assert (m.made - U8) % U8 == m.made % U8;
    }
  }

  lemma CountIsMade(ops: seq<Op>)
    requires LegalRun(ops)
    ensures WrapsTo(Run(ops).made, Run(ops).count)
  {
    InvHolds(ops);
    CountWraps(Run(ops));
  }

  lemma TurnBefore(made: nat, count: nat, k: nat)
    requires WrapsTo(made, count) && made == k + U8
    ensures k % U8 == count
  {
  }

  lemma ReusedAfterTurn(ops: seq<Op>, k: nat)
    requires LegalRun(ops) && Run(ops).made == k + U8
    ensures Given(ops, Run(ops).count)
  {
    CountIsMade(ops);
    TurnBefore(Run(ops).made, Run(ops).count, k);
    EveryProbeListed(ops, k);
    WasGiven(ops, k);
  }

  lemma NewInFirstTurn(ops: seq<Op>)
    requires LegalRun(ops) && Run(ops).made < U8
    ensures !Given(ops, Run(ops).count)
  {
    CountIsMade(ops);
    if Given(ops, Run(ops).count) {
      GivenWasMade(ops, Run(ops).count);
    }
  }

  /** The minor the next probe would use has never been given to any card, listed or removed, if and
      only if fewer than 256 probes have succeeded. */
  lemma {:induction false} NextMinorIsNewIff(ops: seq<Op>)
    requires LegalRun(ops)
    ensures !Given(ops, Run(ops).count) <==> Run(ops).made < 256
  {
    if Run(ops).made < U8 {
      NewInFirstTurn(ops);
    } else {
      ReusedAfterTurn(ops, Run(ops).made - U8);
    }
  }

  lemma WithinOneRound(a: nat, b: nat, low: nat)
    requires low <= a < low + U8 && low <= b < low + U8 && a % U8 == b % U8
    ensures a == b
  {
  }

  predicate OneRound(list: seq<Entry>) {
    list == [] || list[|list| - 1].serial - list[0].serial < U8
  }

  lemma SerialsBetween(list: seq<Entry>, i: nat)
    requires InOrder(list) && i < |list|
    ensures list[0].serial <= list[i].serial <= list[|list| - 1].serial
  {
  }

  lemma OnlyOneHas(m: Model, i: nat, j: nat)
    requires Listed(m) && OneRound(m.list) && i < |m.list| && j < |m.list| && m.list[i].minor == m.list[j].minor
    ensures i == j
  {
    SerialsBetween(m.list, i);
    SerialsBetween(m.list, j);
    assert Filed(m.list[i], m.made) && Filed(m.list[j], m.made);
    WithinOneRound(m.list[i].serial, m.list[j].serial, m.list[0].serial);
  }

  /** While the first and the last listed card are less than 256 successful probes apart, as they are
      if there have not been more in all, a lookup by a card's minor finds that card and no other. */
  lemma {:induction false} EveryCardCanBeFound(ops: seq<Op>, i: nat)
    requires LegalRun(ops) && i < |Run(ops).list| && OneRound(Run(ops).list)
    ensures forall j: nat :: Finds(Run(ops).list, Run(ops).list[i].minor, j) <==> j == i
  {
    InvHolds(ops);
    var m := Run(ops);
    forall j | 0 <= j < |m.list| && m.list[j].minor == m.list[i].minor ensures j == i {
      OnlyOneHas(m, i, j);
    }
  }

  lemma WholeTurns(a: nat, b: nat)
    requires a <= b
    ensures a % U8 == b % U8 <==> (b - a) % U8 == 0
  {
  }

  lemma SameMinorIff(m: Model, i: nat, j: nat)
    requires Listed(m) && i < j < |m.list|
    ensures m.list[i].minor == m.list[j].minor <==> (m.list[j].serial - m.list[i].serial) % U8 == 0
  {
    assert Filed(m.list[i], m.made) && Filed(m.list[j], m.made);
    WholeTurns(m.list[i].serial, m.list[j].serial);
  }

  /** Some lookup finds the card at this place. */
  ghost predicate Reachable(list: seq<Entry>, j: nat) {
    exists minor: nat :: Finds(list, minor, j)
  }

  /** No card listed earlier was probed a whole number of turns before this one. */
  predicate NotShadowed(list: seq<Entry>, j: nat)
    requires j < |list|
  {
    forall i :: 0 <= i < j ==> (list[j].serial - list[i].serial) % U8 != 0
  }

  lemma ReachableUnlessShadowed(m: Model, j: nat)
    requires Listed(m) && j < |m.list|
    ensures Reachable(m.list, j) <==> NotShadowed(m.list, j)
  {
    forall i | 0 <= i < j
      ensures m.list[i].minor == m.list[j].minor <==> (m.list[j].serial - m.list[i].serial) % U8 == 0
    {
      SameMinorIff(m, i, j);
    }
    if NotShadowed(m.list, j) {
      assert Finds(m.list, m.list[j].minor, j);
    }
  }

  /** However often the count has wrapped, a card can be reached if and only if no card still listed
      was probed a multiple of 256 successful probes before it. */
  lemma {:induction false} ReachableIff(ops: seq<Op>, j: nat)
    requires LegalRun(ops) && j < |Run(ops).list|
    ensures Reachable(Run(ops).list, j) <==> NotShadowed(Run(ops).list, j)
  {
    InvHolds(ops);
    ReachableUnlessShadowed(Run(ops), j);
  }

  // ------------------------------------------------------------ a card that cannot be reached

  const Good := Fate(true, 0, 0, 1, true, 0, 0)

  /** n cards are probed one after the other, and all attach. */
  function Many(n: nat): seq<Op> {
    if n == 0 then [] else Many(n - 1) + [Probe(n - 1, n - 1, CH365, Good)]
  }

  predicate AllAttached(m: Model, n: nat) {
    |m.list| == m.made == n && forall k :: 0 <= k < n ==> m.list[k].pdev == m.list[k].serial == k
  }

  lemma OneMoreAttaches(m: Model, n: nat)
    requires AllAttached(m, n)
    ensures var op := Probe(n, n, CH365, Good);
            Legal(m, op) && AllAttached(Apply(m, op), n + 1)
  {
  }

  lemma {:induction false} ManyAttach(n: nat)
    ensures LegalRun(Many(n)) && AllAttached(Run(Many(n)), n)
  {
    if n != 0 {
      ManyAttach(n - 1);
      AttachesAfter(Many(n - 1), n - 1);
    }
  }

  lemma AttachesAfter(ops: seq<Op>, n: nat)
    requires LegalRun(ops) && AllAttached(Run(ops), n)
    ensures var more := ops + [Probe(n, n, CH365, Good)];
            LegalRun(more) && AllAttached(Run(more), n + 1)
  {
    OneMoreAttaches(Run(ops), n);
    LegalSnoc(ops, Probe(n, n, CH365, Good));
    assert (ops + [Probe(n, n, CH365, Good)])[..|ops|] == ops;
  }

  lemma LegalSnoc(ops: seq<Op>, op: Op)
    requires LegalRun(ops) && Legal(Run(ops), op)
    ensures LegalRun(ops + [op])
  {
    forall i | 0 <= i < |ops| + 1 ensures Legal(Run((ops + [op])[..i]), (ops + [op])[i]) {
      if i < |ops| {
        assert (ops + [op])[..i] == ops[..i];
      } else {
        assert (ops + [op])[..i] == ops;
      }
    }
  }

  /** With 257 cards the last can never be opened: its minor is the first card's. */
  lemma LastOf257IsUnreachable()
    ensures LegalRun(Many(257)) && |Run(Many(257)).list| == 257 && !Reachable(Run(Many(257)).list, 256)
  {
    ManyAttach(257);
    ShadowedBy(Many(257), 0, 256);
  }

  lemma ShadowedBy(ops: seq<Op>, i: nat, j: nat)
    requires LegalRun(ops) && i < j < |Run(ops).list|
    requires (Run(ops).list[j].serial - Run(ops).list[i].serial) % U8 == 0
    ensures !Reachable(Run(ops).list, j)
  {
    ReachableIff(ops, j);
  }
}
