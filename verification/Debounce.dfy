/** The GPIO button driver: software debouncing on a wrapping tick counter, and the output pin
    that each accepted press toggles. */
module Debounce {

  const HOLD_OFF := 20

  predicate IsWord(word: nat) {
    word == 0x1_0000_0000 || word == 0x1_0000_0000_0000_0000
  }

  /** The tick counter as the driver sees it: the true number of ticks, modulo the word. */
  function Counter(ticks: nat, word: nat): nat
    requires IsWord(word)
  {
    ticks % word
  }

  /** Subtraction of two unsigned words. */
  function Minus(a: nat, b: nat, word: nat): (d: nat)
    requires IsWord(word)
    ensures d < word
  {
    (a - b) % word
  }

  /** One interrupt: the true times at which the handler reads the counter, the second time only
      if it accepts the press. */
  datatype Reading = Reading(first: nat, second: nat)

  datatype Event = Press(r: Reading) | Write(c: char)

  /** `since` is the true time the hold-off is counted from; `accepted` counts accepted presses. */
  datatype State = State(since: nat, accepted: nat, pin: bool)

  predicate Accepts(since: nat, r: Reading, word: nat)
    requires IsWord(word)
  {
    (r.first - since) % word >= HOLD_OFF
  }

  function Step(s: State, e: Event, word: nat): State
    requires IsWord(word)
  {
    match e
    case Press(r) =>
      if Accepts(s.since, r, word) then State(r.second, s.accepted + 1, s.accepted % 2 == 0) else s
    case Write(c) =>
      s.(pin := if c == '1' then true else if c == '0' then false else s.pin)
  }

  class Button {
    const word: nat
    var oldJiffie: nat
    var ledToggle: nat
    var pin: bool
    // The true time that `oldJiffie` abbreviates, and the presses accepted so far.
    ghost var since: nat
    ghost var accepted: nat

    ghost predicate Valid()
      reads this
    {
      && IsWord(word)
      && oldJiffie == Counter(since, word)
      && ledToggle == accepted % 2
    }

    ghost function Model(): State
      reads this
    {
      State(since, accepted, pin)
    }

    constructor (word: nat)
      requires IsWord(word)
      ensures Valid() && this.word == word && Model() == State(0, 0, false)
    {
      this.word := word;
      oldJiffie := 0;
      ledToggle := 0;
      pin := false;
      since := 0;
      accepted := 0;
    }

    /** The interrupt handler. It decides on wrapped readings only; the contract is in true time. */
    method IrqHandler(r: Reading)
      requires Valid() && since <= r.first <= r.second
      modifies this
      ensures Valid() && Model() == Step(old(Model()), Press(r), word)
    {
      CounterDistance(since, r.first, word);
      var diff := Minus(Counter(r.first, word), oldJiffie, word);
      if diff < HOLD_OFF {
        return;
      }
      oldJiffie := Counter(r.second, word);
      ledToggle := if ledToggle % 2 == 0 then ledToggle + 1 else ledToggle - 1;
      pin := ledToggle != 0;
      since, accepted := r.second, accepted + 1;
    }

    /** A write to the device file; `c` is the first byte received. */
    method EtxWrite(c: char)
      requires Valid()
      modifies this
      ensures Valid() && Model() == Step(old(Model()), Write(c), word)
    {
      if c == '1' {
        pin := true;
      } else if c == '0' {
        pin := false;
      }
    }
  }

  lemma WholeTurns32(a: int, k: int)
    ensures (a + k * 0x1_0000_0000) % 0x1_0000_0000 == a % 0x1_0000_0000
  {
  }

  lemma WholeTurns64(a: int, k: int)
    ensures (a + k * 0x1_0000_0000_0000_0000) % 0x1_0000_0000_0000_0000 == a % 0x1_0000_0000_0000_0000
  {
  }

  lemma WholeTurns(a: int, k: int, word: nat)
    requires IsWord(word)
    ensures (a + k * word) % word == a % word
  {
    if word == 0x1_0000_0000 {
      WholeTurns32(a, k);
    } else {
      WholeTurns64(a, k);
    }
  }

  /** The wrapped difference of two wrapped readings is the true difference, wrapped. */
  lemma CounterDistance(earlier: nat, later: nat, word: nat)
    requires IsWord(word) && earlier <= later
    ensures Minus(Counter(later, word), Counter(earlier, word), word) == (later - earlier) % word
  {
    var p, q := earlier / word, later / word;
    assert earlier == earlier % word + p * word;
    assert later == later % word + q * word;
    Distribute(q, p, word);
    WholeTurns(later % word - earlier % word, q - p, word);
  }

  lemma Distribute(q: int, p: int, w: int)
    ensures (q - p) * w == q * w - p * w
  {
  }

  // ------------------------------------------------------------ whole runs

  function Run(s: State, es: seq<Event>, word: nat): State
    requires IsWord(word)
  {
    if es == [] then s else Step(Run(s, es[..|es| - 1], word), es[|es| - 1], word)
  }

  function Presses(es: seq<Event>): seq<Reading> {
    if es == [] then []
    else
      var init, e := Presses(es[..|es| - 1]), es[|es| - 1];
      if e.Press? then init + [e.r] else init
  }

  /** The presses the handler accepts, in order. */
  function Taken(since: nat, rs: seq<Reading>, word: nat): seq<Reading>
    requires IsWord(word)
    decreases rs
  {
    if rs == [] then []
    else if Accepts(since, rs[0], word) then [rs[0]] + Taken(rs[0].second, rs[1..], word)
    else Taken(since, rs[1..], word)
  }

  /** Interrupts come one after the other, and time does not run backwards. */
  predicate Ordered(since: nat, rs: seq<Reading>)
    decreases rs
  {
    rs == [] || (since <= rs[0].first <= rs[0].second && Ordered(rs[0].second, rs[1..]))
  }

  /** Each chosen press comes at least the hold-off after the one before. */
  predicate Spaced(since: nat, picks: seq<Reading>)
    decreases picks
  {
    picks == [] || (picks[0].first >= since + HOLD_OFF && Spaced(picks[0].second, picks[1..]))
  }

  predicate Subsequence(picks: seq<Reading>, rs: seq<Reading>) {
    picks == []
    || (rs != [] && ((picks[0] == rs[0] && Subsequence(picks[1..], rs[1..])) || Subsequence(picks, rs[1..])))
  }

  function LastSince(since: nat, picks: seq<Reading>): nat {
    if picks == [] then since else picks[|picks| - 1].second
  }

  lemma OrderedLater(since: nat, later: nat, rs: seq<Reading>)
    requires since <= later && Ordered(later, rs)
    ensures Ordered(since, rs)
  {
  }

  /** Accepted presses are at least the hold-off apart in true time, over any number of counter
      overflows and even if the clock ticks between the handler's two readings. */
  lemma {:induction false} AcceptedAreApart(since: nat, rs: seq<Reading>, word: nat)
    requires IsWord(word) && Ordered(since, rs)
    ensures Spaced(since, Taken(since, rs, word))
    ensures Subsequence(Taken(since, rs, word), rs)
    decreases rs
  {
    if rs != [] {
      if Accepts(since, rs[0], word) {
        AcceptedAreApart(rs[0].second, rs[1..], word);
      } else {
        OrderedLater(since, rs[0].second, rs[1..]);
        AcceptedAreApart(since, rs[1..], word);
      }
    }
  }

  lemma {:induction false} TakenSnoc(since: nat, rs: seq<Reading>, r: Reading, word: nat)
    requires IsWord(word)
    ensures var t := Taken(since, rs, word);
            Taken(since, rs + [r], word) == if Accepts(LastSince(since, t), r, word) then t + [r] else t
    decreases rs
  {
    if rs != [] {
      assert (rs + [r])[1..] == rs[1..] + [r];
      TakenSnoc(if Accepts(since, rs[0], word) then rs[0].second else since, rs[1..], r, word);
    }
  }

  /** The state after a run depends on the presses alone, except for the pin. */
  lemma {:induction false} RunAccepts(s: State, es: seq<Event>, word: nat)
    requires IsWord(word)
    ensures var t := Taken(s.since, Presses(es), word);
            && Run(s, es, word).accepted == s.accepted + |t|
            && Run(s, es, word).since == LastSince(s.since, t)
  {
    if es != [] {
      var init, e := es[..|es| - 1], es[|es| - 1];
      RunAccepts(s, init, word);
      if e.Press? {
        TakenSnoc(s.since, Presses(init), e.r, word);
      }
    }
  }

  lemma PressShowsParity(s: State, r: Reading, word: nat)
    requires IsWord(word) && Accepts(s.since, r, word)
    ensures Step(s, Press(r), word).pin <==> (s.accepted + 1) % 2 == 1
  {
  }

  /** Just after an accepted press the pin shows the parity of the accepted presses, whatever was
      written to the device file in between. */
  lemma PinShowsParity(es: seq<Event>, r: Reading, word: nat)
    requires IsWord(word)
    requires |Taken(0, Presses(es) + [r], word)| > |Taken(0, Presses(es), word)|
    ensures Run(State(0, 0, false), es + [Press(r)], word).pin
            <==> |Taken(0, Presses(es) + [r], word)| % 2 == 1
  {
    var s := State(0, 0, false);
    assert (es + [Press(r)])[..|es|] == es;
    RunAccepts(s, es, word);
    TakenSnoc(0, Presses(es), r, word);
    PressShowsParity(Run(s, es, word), r, word);
  }

  /** What the pin shows in between: '1' puts it high, '0' low, and any other write, and any press that
      is not accepted, leaves it as it was. */
  lemma PinAfterOthers(s: State, es: seq<Event>, e: Event, word: nat)
    requires IsWord(word)
    ensures e == Write('1') ==> Run(s, es + [e], word).pin
    ensures e == Write('0') ==> !Run(s, es + [e], word).pin
    ensures e.Write? && e.c != '0' && e.c != '1' ==> Run(s, es + [e], word) == Run(s, es, word)
    ensures e.Press? && !Accepts(Run(s, es, word).since, e.r, word) ==> Run(s, es + [e], word) == Run(s, es, word)
    ensures e.Write? ==>
              var before, after := Run(s, es, word), Run(s, es + [e], word);
              after.since == before.since && after.accepted == before.accepted
  {
    assert (es + [e])[..|es|] == es;
  }

  /** The hold-off is 20 ticks: that many after the last accepted press one is accepted, and not one
      tick earlier, nor in the 20 ticks after each whole turn. */
  lemma HoldOffIsTwenty(since: nat, r: Reading, word: nat)
    requires IsWord(word) && since <= r.first < since + word
    ensures Accepts(since, r, word) <==> r.first - since >= 20
    ensures Accepts(since, Reading(r.first + word, r.second + word), word) == Accepts(since, r, word)
  {
    SmallMod(r.first - since, word);
    OneTurnMore(r.first - since, word);
  }

  lemma SmallMod(a: nat, word: nat)
    requires IsWord(word) && a < word
    ensures a % word == a
  {
  }

  lemma OneTurnMore(a: nat, word: nat)
    requires IsWord(word)
    ensures (a + word) % word == a % word
  {
    WholeTurns(a, 1, word);
  }

  /** Spaced presses, said by position. */
  lemma {:induction false} SpacedMeans(since: nat, picks: seq<Reading>)
    requires Spaced(since, picks)
    ensures picks != [] ==> picks[0].first >= since + 20
    ensures forall k :: 0 <= k < |picks| - 1 ==> picks[k + 1].first >= picks[k].second + 20
    decreases picks
  {
    if picks != [] {
      SpacedMeans(picks[0].second, picks[1..]);
      forall k | 0 <= k < |picks| - 1 ensures picks[k + 1].first >= picks[k].second + 20 {
        if k > 0 {
          assert picks[1..][k].first >= picks[1..][k - 1].second + 20;
        }
      }
    }
  }

  // ------------------------------------------------------------ optimality

  /** The rule the driver is after: take a press as soon as the hold-off has passed. */
  function Greedy(since: nat, rs: seq<Reading>): seq<Reading>
    decreases rs
  {
    if rs == [] then []
    else if rs[0].first >= since + HOLD_OFF then [rs[0]] + Greedy(rs[0].second, rs[1..])
    else Greedy(since, rs[1..])
  }

  /** No press falls into the first HOLD_OFF ticks after a whole number of counter turns since
      the last accepted press. */
  predicate NoPressAtTurn(since: nat, rs: seq<Reading>, word: nat)
    requires IsWord(word)
    decreases rs
  {
    if rs == [] then true
    else if rs[0].first < since + HOLD_OFF then NoPressAtTurn(since, rs[1..], word)
    else Accepts(since, rs[0], word) && NoPressAtTurn(rs[0].second, rs[1..], word)
  }

  /** The handler follows the rule exactly when no press falls just after a whole counter turn. */
  lemma {:induction false} TakenIsGreedyIff(since: nat, rs: seq<Reading>, word: nat)
    requires IsWord(word) && Ordered(since, rs)
    ensures Taken(since, rs, word) == Greedy(since, rs) <==> NoPressAtTurn(since, rs, word)
    decreases rs
  {
    if rs != [] {
      var r, rest := rs[0], rs[1..];
      if r.first < since + HOLD_OFF {
        OrderedLater(since, r.second, rest);
        TakenIsGreedyIff(since, rest, word);
      } else if Accepts(since, r, word) {
        TakenIsGreedyIff(r.second, rest, word);
        assert ([r] + Taken(r.second, rest, word))[1..] == Taken(r.second, rest, word);
        assert ([r] + Greedy(r.second, rest))[1..] == Greedy(r.second, rest);
      } else {
        RejectedIsGone(since, rs, word);
      }
    }
  }

  lemma RejectedIsGone(since: nat, rs: seq<Reading>, word: nat)
    requires IsWord(word) && rs != []
    requires !Accepts(since, rs[0], word) && rs[0].first >= since + HOLD_OFF
    ensures Taken(since, rs, word) != Greedy(since, rs)
  {
    FirstTakenIsAccepted(since, rs[1..], word);
    assert Greedy(since, rs)[0] == rs[0];
  }

  lemma {:induction false} FirstTakenIsAccepted(since: nat, rs: seq<Reading>, word: nat)
    requires IsWord(word)
    ensures Taken(since, rs, word) != [] ==> Accepts(since, Taken(since, rs, word)[0], word)
  {
    if rs != [] {
      FirstTakenIsAccepted(since, rs[1..], word);
    }
  }

  /** Every press comes less than one counter turn after the last accepted one before it. */
  predicate GapsShort(since: nat, rs: seq<Reading>, word: nat)
    requires IsWord(word)
    decreases rs
  {
    rs == []
    || (rs[0].first < since + word
        && GapsShort(if Accepts(since, rs[0], word) then rs[0].second else since, rs[1..], word))
  }

  /** In particular the rule is followed as long as the gap to the last accepted press stays below
      one turn of the counter. */
  lemma {:induction false} WithinOneTurn(since: nat, rs: seq<Reading>, word: nat)
    requires IsWord(word) && Ordered(since, rs) && GapsShort(since, rs, word)
    ensures NoPressAtTurn(since, rs, word)
    decreases rs
  {
    if rs != [] {
      assert (rs[0].first - since) % word == rs[0].first - since;
      if rs[0].first < since + HOLD_OFF {
        OrderedLater(since, rs[0].second, rs[1..]);
        WithinOneTurn(since, rs[1..], word);
      } else {
        WithinOneTurn(rs[0].second, rs[1..], word);
      }
    }
  }

  /** Starting the hold-off later can cost at most one press, and never gains one. */
  lemma {:induction false} GreedyStaysAhead(since: nat, later: nat, rs: seq<Reading>)
    requires since <= later && Ordered(later, rs)
    ensures |Greedy(later, rs)| <= |Greedy(since, rs)| <= 1 + |Greedy(later, rs)|
    decreases rs
  {
    if rs != [] {
      var r, rest := rs[0], rs[1..];
      if r.first >= since + HOLD_OFF && r.first < later + HOLD_OFF {
        GreedyStaysAhead(later, r.second, rest);
      } else if r.first < since + HOLD_OFF {
        OrderedLater(later, r.second, rest);
        GreedyStaysAhead(since, later, rest);
      }
    }
  }

  lemma {:induction false} GreedyIsLargest(since: nat, rs: seq<Reading>, picks: seq<Reading>)
    requires Ordered(since, rs) && Subsequence(picks, rs) && Spaced(since, picks)
    ensures |picks| <= |Greedy(since, rs)|
    decreases rs
  {
    if picks != [] {
      var r, rest := rs[0], rs[1..];
      if picks[0] == r && Subsequence(picks[1..], rest) {
        GreedyIsLargest(r.second, rest, picks[1..]);
      } else {
        OrderedLater(since, r.second, rest);
        GreedyIsLargest(since, rest, picks);
        if r.first >= since + HOLD_OFF {
          GreedyStaysAhead(since, r.second, rest);
        }
      }
    }
  }

  /** The handler accepts as many presses as any selection that keeps the hold-off, provided no
      press falls just after a whole turn of the counter. */
  lemma TakenIsLargest(since: nat, rs: seq<Reading>, picks: seq<Reading>, word: nat)
    requires IsWord(word) && Ordered(since, rs) && NoPressAtTurn(since, rs, word)
    requires Subsequence(picks, rs) && Spaced(since, picks)
    ensures |picks| <= |Taken(since, rs, word)|
  {
    TakenIsGreedyIff(since, rs, word);
    GreedyIsLargest(since, rs, picks);
  }

  /** The presses turned away although the hold-off had passed. */
  function TurnedAway(since: nat, rs: seq<Reading>, word: nat): nat
    requires IsWord(word)
    decreases rs
  {
    if rs == [] then 0
    else if Accepts(since, rs[0], word) then TurnedAway(rs[0].second, rs[1..], word)
    else TurnedAway(since, rs[1..], word) + if rs[0].first >= since + HOLD_OFF then 1 else 0
  }

  /** None is turned away exactly if no press falls just after a whole turn. */
  lemma {:induction false} NoneTurnedAwayIff(since: nat, rs: seq<Reading>, word: nat)
    requires IsWord(word) && Ordered(since, rs)
    ensures TurnedAway(since, rs, word) == 0 <==> NoPressAtTurn(since, rs, word)
    ensures TurnedAway(since, rs, word) + |Taken(since, rs, word)| <= |rs|
    decreases rs
  {
    if rs != [] {
      if Accepts(since, rs[0], word) {
        EarlyIsRejected(since, rs[0], word);
        NoneTurnedAwayIff(rs[0].second, rs[1..], word);
      } else {
        OrderedLater(since, rs[0].second, rs[1..]);
        NoneTurnedAwayIff(since, rs[1..], word);
      }
    }
  }

  lemma EarlyIsRejected(since: nat, r: Reading, word: nat)
    requires IsWord(word) && since <= r.first
    ensures Accepts(since, r, word) ==> r.first >= since + HOLD_OFF
  {
    if r.first < since + HOLD_OFF {
      SmallMod(r.first - since, word);
    }
  }

  lemma {:induction false} GreedyShortfall(since: nat, rs: seq<Reading>, word: nat)
    requires IsWord(word) && Ordered(since, rs)
    ensures |Greedy(since, rs)| <= |Taken(since, rs, word)| + TurnedAway(since, rs, word)
    decreases rs
  {
    if rs != [] {
      var r, rest := rs[0], rs[1..];
      if Accepts(since, r, word) {
        GreedyShortfall(r.second, rest, word);
      } else {
        OrderedLater(since, r.second, rest);
        GreedyShortfall(since, rest, word);
        GreedyStaysAhead(since, r.second, rest);
      }
    }
  }

  /** Whatever the gaps, no selection that keeps the hold-off beats the handler by more than the
      number of presses it turned away just after a whole turn of the counter. */
  lemma ShortfallIsBounded(since: nat, rs: seq<Reading>, picks: seq<Reading>, word: nat)
    requires IsWord(word) && Ordered(since, rs) && Subsequence(picks, rs) && Spaced(since, picks)
    ensures |picks| <= |Taken(since, rs, word)| + TurnedAway(since, rs, word)
  {
    GreedyShortfall(since, rs, word);
    GreedyIsLargest(since, rs, picks);
  }

  /** The bound is met: a single press five ticks after a whole turn is dropped. */
  lemma DroppedAfterWholeTurn(word: nat)
    requires IsWord(word)
    ensures var r := Reading(word + 5, word + 5);
            Ordered(0, [r]) && Spaced(0, [r]) && Subsequence([r], [r]) && Taken(0, [r], word) == []
            && TurnedAway(0, [r], word) == 1
    ensures Taken(0, [Reading(0x1_0000_0005, 0x1_0000_0005)], 0x1_0000_0000) == []
    ensures Taken(0, [Reading(0x1_0000_0000_0000_0005, 0x1_0000_0000_0000_0005)], 0x1_0000_0000_0000_0000) == []
  {
    var r := Reading(word + 5, word + 5);
    assert (word + 5) % word == 5;
    assert [r][1..] == [];
  }
}
