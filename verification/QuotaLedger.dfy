/** The persisted day and month counters against the reservations behind them, one store transaction at a time. */
module QuotaLedger {
  import opened Channel
  import opened Quota

  /** What became of one unit taken from a counter. A lost one is a release the store refused to write. */
  datatype Fate = Held | Charged | Stranded | Lost

  datatype Stage = Asking | Holding | Releasing | Done

  /** A reservation's units, by the period they were taken from; one given back is gone from here. */
  datatype Claim = Claim(units: map<Period, Fate>, stage: Stage)

  datatype Book = Book(counts: map<Period, nat>, claims: map<nat, Claim>)

  /** Every transaction of every delivery's reservation, freely interleaved; up says whether the store answered. */
  datatype Event =
    | AskDay(r: nat, day: nat, up: bool)
    | AskMonth(r: nat, month: nat, up: bool)
    | Withhold(r: nat)
    | Answer(r: nat, cls: ResultClass)
    | GiveBack(r: nat, key: Period, up: bool)

  function Limit(l: Limits, k: Period): nat {
    if k.Day? then l.perDay else l.perMonth
  }

  predicate At(b: Book, r: nat, stage: Stage) {
    r in b.claims && b.claims[r].stage == stage
  }

  predicate Holds(b: Book, r: nat, k: Period) {
    r in b.claims && k in b.claims[r].units && b.claims[r].units[k] == Held
  }

  /** The day comes first when asking and when giving back; a channel that was called has an answer. */
  predicate Enabled(b: Book, e: Event) {
    match e
    case AskDay(r, _, _) => r !in b.claims
    case AskMonth(r, _, _) => At(b, r, Asking)
    case Withhold(r) => At(b, r, Holding)
    case Answer(r, cls) => At(b, r, Holding) && cls != NotAttempted
    case GiveBack(r, k, _) =>
      && At(b, r, Releasing) && Holds(b, r, k)
      && (k.Month? ==> forall d :: d in b.claims[r].units && d.Day? ==> !Holds(b, r, d))
  }

  function AllTo(units: map<Period, Fate>, f: Fate): map<Period, Fate> {
    map k | k in units :: f
  }

  function Put(b: Book, r: nat, c: Claim): Book {
    b.(claims := b.claims[r := c])
  }

  /**
   * A store that cannot be read lets the reservation through without a unit. A month that is used up refuses
   * it, and leaves the day unit already taken where it is.
   */
  function Apply(b: Book, l: Limits, e: Event): Book
    requires Enabled(b, e)
  {
    match e
    case AskDay(r, day, up) =>
      var k := Day(day);
      if l.perDay == 0 || !up then Put(b, r, Claim(map[], Asking))
      else if CountOf(b.counts, k) >= l.perDay then Put(b, r, Claim(map[], Done))
      else Put(b.(counts := Consumed(b.counts, k)), r, Claim(map[k := Held], Asking))
    case AskMonth(r, month, up) =>
      var c, k := b.claims[r], Month(month);
      if l.perMonth == 0 || !up then Put(b, r, c.(stage := Holding))
      else if CountOf(b.counts, k) >= l.perMonth then Put(b, r, Claim(AllTo(c.units, Stranded), Done))
      else Put(b.(counts := Consumed(b.counts, k)), r, Claim(c.units[k := Held], Holding))
    case Withhold(r) => Put(b, r, b.claims[r].(stage := Releasing))
    case Answer(r, cls) =>
      if cls == ConnectError then Put(b, r, b.claims[r].(stage := Releasing))
      else Put(b, r, Claim(AllTo(b.claims[r].units, Charged), Done))
    case GiveBack(r, k, up) =>
      var c := b.claims[r];
      if up then Put(b.(counts := GivenBack(b.counts, k)), r, c.(units := c.units - {k}))
      else Put(b, r, c.(units := c.units[k := Lost]))
  }

  function Outstanding(b: Book, k: Period): set<nat> {
    set r | r in b.claims && k in b.claims[r].units
  }

  function InFate(b: Book, k: Period, f: Fate): set<nat> {
    set r | r in b.claims && k in b.claims[r].units && b.claims[r].units[k] == f
  }

  // --------------------------------------------------------------- balance

  ghost predicate BalancedAt(b: Book, l: Limits, k: Period) {
    CountOf(b.counts, k) == |Outstanding(b, k)| && (Limit(l, k) > 0 ==> CountOf(b.counts, k) <= Limit(l, k))
  }

  /** A claim in its first stage has no month unit yet. */
  ghost predicate Balanced(b: Book, l: Limits) {
    && (forall k :: BalancedAt(b, l, k))
    && (forall r, k :: At(b, r, Asking) && k in b.claims[r].units ==> k.Day? && Holds(b, r, k))
  }

  function Units(b: Book, r: nat): set<Period> {
    if r in b.claims then b.claims[r].units.Keys else {}
  }

  /** One claim changed: the counter follows if it moves by as much as the claim's hold on the period. */
  lemma PutKeepsBalance(b: Book, l: Limits, r: nat, b': Book, k: Period)
    requires BalancedAt(b, l, k) && r in b'.claims && b'.claims == b.claims[r := b'.claims[r]]
    requires CountOf(b'.counts, k) + (if k in Units(b, r) then 1 else 0) ==
             CountOf(b.counts, k) + (if k in Units(b', r) then 1 else 0)
    requires CountOf(b'.counts, k) <= CountOf(b.counts, k) || CountOf(b'.counts, k) <= Limit(l, k)
    ensures BalancedAt(b', l, k)
  {
    if k in Units(b', r) {
      assert Outstanding(b', k) == Outstanding(b, k) + {r};
    } else {
      assert Outstanding(b', k) == Outstanding(b, k) - {r};
    }
  }

  lemma StepKeepsBalanceAt(b: Book, l: Limits, e: Event, k: Period)
    requires Balanced(b, l) && Enabled(b, e)
    ensures BalancedAt(Apply(b, l, e), l, k)
  {
    assert BalancedAt(b, l, k);
    if e.GiveBack? && k == e.key {
      assert e.r in Outstanding(b, k);
    }
    hide Outstanding;
    PutKeepsBalance(b, l, e.r, Apply(b, l, e), k);
  }

  lemma StepKeepsBalance(b: Book, l: Limits, e: Event)
    requires Balanced(b, l) && Enabled(b, e)
    ensures Balanced(Apply(b, l, e), l)
  {
    hide BalancedAt;
    var b' := Apply(b, l, e);
    forall k
      ensures BalancedAt(b', l, k)
    {
      StepKeepsBalanceAt(b, l, e, k);
    }
    forall r, k | At(b', r, Asking) && k in b'.claims[r].units
      ensures k.Day? && Holds(b', r, k)
    {
      if r != e.r {
        assert At(b, r, Asking) && k in b.claims[r].units;
      }
    }
  }

  const EMPTY := Book(map[], map[])

  ghost predicate Run(l: Limits, es: seq<Event>, b: Book) {
    if es == [] then b == EMPTY
    else
      var n := |es| - 1;
      exists before: Book :: Run(l, es[..n], before) && Enabled(before, es[n]) && b == Apply(before, l, es[n])
  }

  /** In every run each counter is the units taken less the units given back in that period, and within its limit. */
  lemma {:induction false} CountersBalance(l: Limits, es: seq<Event>, b: Book)
    requires Run(l, es, b)
    ensures Balanced(b, l)
  {
    if es == [] {
      forall k
        ensures BalancedAt(b, l, k)
      {
        assert Outstanding(b, k) == {};
      }
    } else {
      var n := |es| - 1;
      var before :| Run(l, es[..n], before) && Enabled(before, es[n]) && b == Apply(before, l, es[n]);
      CountersBalance(l, es[..n], before);
      StepKeepsBalance(before, l, es[n]);
    }
  }

  // -------------------------------------------------- what is in a counter

  lemma SizeOfSplit(a: set<nat>, b: set<nat>, c: set<nat>, d: set<nat>)
    requires a !! b !! c !! d
    ensures |a + b + c + d| == |a| + |b| + |c| + |d|
  {
    assert |a + b| == |a| + |b|;
    assert |a + b + c| == |a + b| + |c|;
  }

  /** Every outstanding unit has exactly one of the four fates. */
  lemma FatesPartition(b: Book, k: Period)
    ensures |Outstanding(b, k)| ==
            |InFate(b, k, Charged)| + |InFate(b, k, Held)| + |InFate(b, k, Stranded)| + |InFate(b, k, Lost)|
  {
    var charged, held, stranded, lost :=
      InFate(b, k, Charged), InFate(b, k, Held), InFate(b, k, Stranded), InFate(b, k, Lost);
    forall r
      ensures r in Outstanding(b, k) <==> r in charged + held + stranded + lost
    {
    }
    assert Outstanding(b, k) == charged + held + stranded + lost;
    SizeOfSplit(charged, held, stranded, lost);
  }

  ghost predicate StoreUp(es: seq<Event>) {
    forall i :: 0 <= i < |es| && es[i].GiveBack? ==> es[i].up
  }

  /** Only the release of a unit loses one, only a refused month strands one. */
  lemma FateHasACause(b: Book, l: Limits, e: Event, k: Period, r: nat)
    requires Enabled(b, e)
    ensures r in InFate(Apply(b, l, e), k, Lost) && r !in InFate(b, k, Lost) ==> e.GiveBack? && !e.up
    ensures r in InFate(Apply(b, l, e), k, Stranded) && r !in InFate(b, k, Stranded) ==>
              e.AskMonth? && e.r == r && l.perMonth > 0 && k in b.claims[r].units
  {
  }

  lemma {:induction false} NothingLost(l: Limits, es: seq<Event>, b: Book, k: Period)
    requires Run(l, es, b) && StoreUp(es)
    ensures InFate(b, k, Lost) == {}
  {
    if es != [] {
      var n := |es| - 1;
      var before :| Run(l, es[..n], before) && Enabled(before, es[n]) && b == Apply(before, l, es[n]);
      NothingLost(l, es[..n], before, k);
      forall r
        ensures r !in InFate(b, k, Lost)
      {
        FateHasACause(before, l, es[n], k, r);
        hide Run, Apply, InFate;
      }
    }
  }

  /** Without a day limit an asking reservation has no unit yet. */
  ghost predicate AsksEmptyHanded(b: Book) {
    forall r :: At(b, r, Asking) ==> b.claims[r].units == map[]
  }

  lemma StepAsksEmptyHanded(b: Book, l: Limits, e: Event)
    requires AsksEmptyHanded(b) && Enabled(b, e) && l.perDay == 0
    ensures AsksEmptyHanded(Apply(b, l, e))
  {
    forall r | At(Apply(b, l, e), r, Asking)
      ensures Apply(b, l, e).claims[r].units == map[]
    {
      assert r != e.r ==> At(b, r, Asking);
    }
  }

  lemma {:induction false} AlwaysAsksEmptyHanded(l: Limits, es: seq<Event>, b: Book)
    requires Run(l, es, b) && l.perDay == 0
    ensures AsksEmptyHanded(b)
  {
    if es != [] {
      var n := |es| - 1;
      var before :| Run(l, es[..n], before) && Enabled(before, es[n]) && b == Apply(before, l, es[n]);
      hide AsksEmptyHanded, Apply;
      AlwaysAsksEmptyHanded(l, es[..n], before);
      StepAsksEmptyHanded(before, l, es[n]);
    }
  }

  /** Without two limits there is no unit to leave behind when the second refuses. */
  lemma {:induction false} NothingStranded(l: Limits, es: seq<Event>, b: Book, k: Period)
    requires Run(l, es, b) && (l.perDay == 0 || l.perMonth == 0)
    ensures InFate(b, k, Stranded) == {}
  {
    if es != [] {
      var n := |es| - 1;
      var before :| Run(l, es[..n], before) && Enabled(before, es[n]) && b == Apply(before, l, es[n]);
      NothingStranded(l, es[..n], before, k);
      if l.perDay == 0 {
        AlwaysAsksEmptyHanded(l, es[..n], before);
      }
      forall r
        ensures r !in InFate(b, k, Stranded)
      {
        FateHasACause(before, l, es[n], k, r);
        hide Run, Apply, InFate;
      }
    }
  }

  // ------------------------------------------------------ when one is stranded

  ghost predicate Reachable(l: Limits, b: Book) {
    exists es :: Run(l, es, b)
  }

  ghost predicate NeverStrands(l: Limits) {
    forall b: Book, k: Period :: Reachable(l, b) ==> InFate(b, k, Stranded) == {}
  }

  lemma Extend(l: Limits, b: Book, e: Event)
    requires Reachable(l, b) && Enabled(b, e)
    ensures Reachable(l, Apply(b, l, e))
  {
    var es :| Run(l, es, b);
    assert (es + [e])[..|es|] == es;
    assert Run(l, es + [e], Apply(b, l, e));
  }

  /** j reservations of one day have given their day unit back and not yet their month unit. */
  ghost predicate MonthBehind(l: Limits, b: Book, j: nat) {
    && Reachable(l, b) && CountOf(b.counts, Day(0)) == 0 && CountOf(b.counts, Month(0)) == j
    && forall r :: r in b.claims ==> r < j
  }

  lemma OneMoreBehind(l: Limits, b: Book, j: nat) returns (b': Book)
    requires l.perDay > 0 && j < l.perMonth && MonthBehind(l, b, j)
    ensures MonthBehind(l, b', j + 1)
  {
    hide Reachable;
    Extend(l, b, AskDay(j, 0, true));
    var b1 := Apply(b, l, AskDay(j, 0, true));
    Extend(l, b1, AskMonth(j, 0, true));
    var b2 := Apply(b1, l, AskMonth(j, 0, true));
    Extend(l, b2, Withhold(j));
    var b3 := Apply(b2, l, Withhold(j));
    Extend(l, b3, GiveBack(j, Day(0), true));
    b' := Apply(b3, l, GiveBack(j, Day(0), true));
  }

  lemma {:induction false} MonthUsedUp(l: Limits, j: nat) returns (b: Book)
    requires l.perDay > 0 && j <= l.perMonth
    ensures MonthBehind(l, b, j)
  {
    if j == 0 {
      b := EMPTY;
      assert Run(l, [], b);
    } else {
      var before := MonthUsedUp(l, j - 1);
      b := OneMoreBehind(l, before, j - 1);
    }
  }

  lemma DayUnitLeft(l: Limits) returns (b: Book)
    requires l.perDay > 0 && l.perMonth > 0
    ensures Reachable(l, b) && InFate(b, Day(0), Stranded) != {}
  {
    var r: nat := l.perMonth;
    var b0 := MonthUsedUp(l, r);
    hide Reachable;
    Extend(l, b0, AskDay(r, 0, true));
    var b1 := Apply(b0, l, AskDay(r, 0, true));
    Extend(l, b1, AskMonth(r, 0, true));
    b := Apply(b1, l, AskMonth(r, 0, true));
    assert r in InFate(b, Day(0), Stranded);
  }

  /** No refusal ever leaves a unit behind, in any run, exactly when at most one of day and month is limited. */
  lemma StrandsExactly(l: Limits)
    ensures NeverStrands(l) <==> l.perDay == 0 || l.perMonth == 0
  {
    if l.perDay == 0 || l.perMonth == 0 {
      forall b: Book, k: Period | Reachable(l, b)
        ensures InFate(b, k, Stranded) == {}
      {
        var es :| Run(l, es, b);
        NothingStranded(l, es, b, k);
      }
    } else {
      var b := DayUnitLeft(l);
    }
  }

  /**
   * A counter is the calls answered, the units still held, those a refused month left behind and those whose
   * release the store refused: never less than the calls answered. With at most one of day and month limited,
   * and every release written, it is the calls answered and the units held, and nothing else.
   */
  lemma CounterSplits(l: Limits, es: seq<Event>, b: Book, k: Period)
    requires Run(l, es, b)
    ensures CountOf(b.counts, k) ==
            |InFate(b, k, Charged)| + |InFate(b, k, Held)| + |InFate(b, k, Stranded)| + |InFate(b, k, Lost)|
    ensures (l.perDay == 0 || l.perMonth == 0) && StoreUp(es) ==>
              CountOf(b.counts, k) == |InFate(b, k, Charged)| + |InFate(b, k, Held)|
  {
    CountersBalance(l, es, b);
    assert BalancedAt(b, l, k);
    FatesPartition(b, k);
    if (l.perDay == 0 || l.perMonth == 0) && StoreUp(es) {
      NothingStranded(l, es, b, k);
      NothingLost(l, es, b, k);
    }
  }

  // --------------------------------------------- the limiter's calls as runs

  /** A reservation asking for its units, undisturbed. */
  function Asked(b: Book, l: Limits, r: nat, day: nat, month: nat, dayUp: bool, monthUp: bool): Book
    requires r !in b.claims
  {
    var asked := Apply(b, l, AskDay(r, day, dayUp));
    if At(asked, r, Asking) then Apply(asked, l, AskMonth(r, month, monthUp)) else asked
  }

  lemma AskDayDoes(b: Book, l: Limits, r: nat, day: nat, up: bool, k: Period)
    requires r !in b.claims
    ensures var b', d := Apply(b, l, AskDay(r, day, up)), Day(day);
            var full := l.perDay > 0 && up && CountOf(b.counts, d) >= l.perDay;
            var charged := k == d && l.perDay > 0 && up && !full;
            && (if full then At(b', r, Done) else At(b', r, Asking))
            && (Holds(b', r, k) <==> charged)
            && CountOf(b'.counts, k) == CountOf(b.counts, k) + (if charged then 1 else 0)
  {
  }

  lemma AskMonthDoes(b: Book, l: Limits, r: nat, month: nat, up: bool, k: Period)
    requires At(b, r, Asking)
    ensures var b', m := Apply(b, l, AskMonth(r, month, up)), Month(month);
            var full := l.perMonth > 0 && up && CountOf(b.counts, m) >= l.perMonth;
            var charged := k == m && l.perMonth > 0 && up && !full;
            && (if full then At(b', r, Done) else At(b', r, Holding))
            && (!full ==> (Holds(b', r, k) <==> Holds(b, r, k) || charged))
            && CountOf(b'.counts, k) == CountOf(b.counts, k) + (if charged then 1 else 0)
  {
  }

  /**
   * Asking the day and then the month grants, refuses and charges as one call of the limiter does: granted if each
   * limited period the store answers for is below its limit, with one unit of each of those; refused with nothing
   * charged but the day, when it is the month that refuses.
   */
  lemma AskingReserves(b: Book, l: Limits, r: nat, day: nat, month: nat, dayUp: bool, monthUp: bool, k: Period)
    requires r !in b.claims
    ensures var b', d, m := Asked(b, l, r, day, month, dayUp, monthUp), Day(day), Month(month);
            var dayFull := l.perDay > 0 && dayUp && CountOf(b.counts, d) >= l.perDay;
            var monthFull := l.perMonth > 0 && monthUp && CountOf(b.counts, m) >= l.perMonth;
            && (At(b', r, Holding) <==> !dayFull && !monthFull)
            && (At(b', r, Holding) ==>
                  (Holds(b', r, k) <==> (k == d && l.perDay > 0 && dayUp) || (k == m && l.perMonth > 0 && monthUp)))
            && CountOf(b'.counts, k) == CountOf(b.counts, k) +
                 (if || (At(b', r, Holding) && Holds(b', r, k))
                     || (!At(b', r, Holding) && k == d && l.perDay > 0 && dayUp && !dayFull) then 1 else 0)
  {
    hide Apply, CountOf, Holds;
    var asked := Apply(b, l, AskDay(r, day, dayUp));
    AskDayDoes(b, l, r, day, dayUp, k);
    AskDayDoes(b, l, r, day, dayUp, Month(month));
    if At(asked, r, Asking) {
      AskMonthDoes(asked, l, r, month, monthUp, k);
    }
  }

  /** A reservation giving its units back, the day first, undisturbed. */
  function GivenUp(b: Book, l: Limits, r: nat, d: Period, m: Period, up: Period -> bool): Book
    requires At(b, r, Releasing) && d.Day? && m.Month?
    requires forall k :: k in b.claims[r].units ==> k == d || k == m
  {
    var dayBack := if Holds(b, r, d) then Apply(b, l, GiveBack(r, d, up(d))) else b;
    if Holds(dayBack, r, m) then Apply(dayBack, l, GiveBack(r, m, up(m))) else dayBack
  }

  /** It takes every unit held from its counter where the store allows it, as one settlement does. */
  lemma GivingUpSettles(b: Book, l: Limits, r: nat, d: Period, m: Period, up: Period -> bool, k: Period)
    requires At(b, r, Releasing) && d.Day? && m.Month?
    requires forall j :: j in b.claims[r].units ==> j == d || j == m
    ensures var b' := GivenUp(b, l, r, d, m, up);
            && !Holds(b', r, k)
            && CountOf(b'.counts, k) ==
               if Holds(b, r, k) && up(k) then Fewer(CountOf(b.counts, k), 1) else CountOf(b.counts, k)
  {
  }
}
