/** One delivery through the three guards: the breaker, the allowance and the pacing, part by part. */
module Router {
  import opened Channel
  import opened Message
  import opened Overflow

  /** What a channel's Send, or the router in its place, reports. */
  datatype Result = Result(cls: ResultClass, detail: string)

  datatype TargetResult = TargetResult(cls: ResultClass, skip: SkipReason, detail: string)

  /** What the world holds for one part: an allowance or none, a slot in time or none, and the channel's answer. */
  datatype PartWorld = PartWorld(allowance: bool, paced: bool, reply: Result)

  /** What a delivery does to the breaker, the allowance and the channel, in order. */
  datatype Event =
    | Admitted
    | TurnedAway
    | Reserved(part: nat)
    | NoAllowance(part: nat)
    | GaveBack(part: nat)
    | Called(part: nat, cls: ResultClass)
    | Charged(part: nat)
    | Reported(cls: ResultClass)
    | Abandoned

  /** A channel that ran cannot have "not attempted" anything: it tried and did not get there. */
  function Normal(r: Result): Result {
    if r.cls == NotAttempted then r.(cls := ConnectError) else r
  }

  /** The more severe of two; the earlier one when they are equally severe. */
  function Combine(a: Result, b: Result): Result {
    if Rank(b.cls) > Rank(a.cls) then b else a
  }

  predicate RecipientsAllowed(count: nat, max: nat) {
    count == 0 || (max != 0 && count <= max)
  }

  // ---------------------------------------------------------- the reference

  predicate Stops(w: PartWorld) {
    !w.allowance || !w.paced
  }

  /** How many of the first n parts reach the channel: all before the first that is held back. */
  function Sends(world: nat -> PartWorld, n: nat): (k: nat)
    ensures k <= n
    ensures forall i: nat :: i < k ==> !Stops(world(i))
    ensures k < n ==> Stops(world(k))
  {
    if n == 0 then 0
    else
      var k := Sends(world, n - 1);
      if k < n - 1 || Stops(world(n - 1)) then k else n
  }

  function PartEvents(w: PartWorld, i: nat): seq<Event> {
    if !w.allowance then [NoAllowance(i)]
    else if !w.paced then [Reserved(i), GaveBack(i)]
    else
      var cls := Normal(w.reply).cls;
      [Reserved(i), Called(i, cls), if cls == ConnectError then GaveBack(i) else Charged(i)]
  }

  /** The first n parts, one after the other. */
  function Through(world: nat -> PartWorld, n: nat): seq<Event> {
    if n == 0 then [] else Through(world, n - 1) + PartEvents(world(n - 1), n - 1)
  }

  /** The parts of a delivery, up to and including the first held back. */
  function PartsTrace(world: nat -> PartWorld, n: nat): seq<Event> {
    var k := Sends(world, n);
    Through(world, if k < n then k + 1 else n)
  }

  /** The first of the most severe answers among the parts sent. */
  function Worst(world: nat -> PartWorld, k: nat): (r: Result)
    requires k > 0
    ensures forall i: nat :: i < k ==> Rank(Normal(world(i).reply).cls) <= Rank(r.cls)
    ensures exists i: nat :: i < k && r == Normal(world(i).reply) &&
                             forall j: nat :: j < i ==> Rank(Normal(world(j).reply).cls) < Rank(r.cls)
  {
    if k == 1 then Normal(world(0).reply) else Combine(Worst(world, k - 1), Normal(world(k - 1).reply))
  }

  function Refusal(w: PartWorld): SkipReason {
    if !w.allowance then QuotaExhausted else RateLimited
  }

  /** How many parts the length limits made of a message; none when they refused it. */
  function PartCount(a: Applied): nat {
    if a.TooLong? then 0 else |a.parts|
  }

  /** Class, reason and trace of an admitted delivery of n parts, or of none because it was too long. */
  function Outcome(guarded: bool, n: nat, world: nat -> PartWorld): (ResultClass, SkipReason, seq<Event>) {
    var k := Sends(world, n);
    var cls := if n == 0 then Permanent else if k == 0 then NotAttempted else Worst(world, k).cls;
    var skip := if n > 0 && k == 0 then Refusal(world(0)) else NoSkip;
    (cls, skip, Framed(guarded, PartsTrace(world, n), if k > 0 then Reported(cls) else Abandoned))
  }

  /** The breaker's half, around the parts. */
  function Framed(guarded: bool, parts: seq<Event>, last: Event): seq<Event> {
    if guarded then [Admitted] + parts + [last] else parts
  }

  // -------------------------------------------------------------- the method

  method Deliver(pinned: bool, recipients: nat, maxRecipients: nat, guarded: bool, admit: bool,
                 m: Message, cap: Capability, world: nat -> PartWorld)
    returns (res: TargetResult, trace: seq<Event>)
    ensures !pinned || (recipients > 0 && (maxRecipients == 0 || recipients > maxRecipients)) ==>
              res.cls == Permanent && res.skip == NoSkip && trace == []
    ensures pinned && (recipients == 0 || 0 < recipients <= maxRecipients) ==>
              if guarded && !admit then res.cls == NotAttempted && res.skip == BreakerOpen && trace == [TurnedAway]
              else
                (match Apply(m, cap)
                 case TooLong =>
                   && res.cls == Permanent && res.skip == NoSkip
                   && trace == (if guarded then [Admitted, Abandoned] else [])
                 case Parts(_) =>
                   if !world(0).allowance then
                     && res.cls == NotAttempted && res.skip == QuotaExhausted
                     && trace == (if guarded then [Admitted, NoAllowance(0), Abandoned] else [NoAllowance(0)])
                   else if !world(0).paced then
                     && res.cls == NotAttempted && res.skip == RateLimited
                     && trace == (if guarded then [Admitted, Reserved(0), GaveBack(0), Abandoned]
                                  else [Reserved(0), GaveBack(0)])
                   else res.cls != NotAttempted && res.skip == NoSkip)
    ensures pinned && RecipientsAllowed(recipients, maxRecipients) && (guarded ==> admit) ==>
              (res.cls, res.skip, trace) == Outcome(guarded, PartCount(Apply(m, cap)), world)
    ensures res.skip != NoSkip <==> res.cls == NotAttempted
  {
    if !pinned || !RecipientsAllowed(recipients, maxRecipients) {
      return TargetResult(Permanent, NoSkip, "target refused"), [];
    }
    if guarded && !admit {
      return TargetResult(NotAttempted, BreakerOpen, "channel is not accepting deliveries"), [TurnedAway];
    }
    var applied := ApplyLimits(m, cap);
    res, trace := DeliverParts(guarded, PartCount(applied), world);
    SkipIffNotAttempted(guarded, PartCount(applied), world);
    FirstPartDecides(guarded, PartCount(applied), world);
  }

  /** No parts, a first part held back, or one that goes out. */
  lemma FirstPartDecides(guarded: bool, n: nat, world: nat -> PartWorld)
    ensures var (cls, skip, tr) := Outcome(guarded, n, world);
            if n == 0 then cls == Permanent && skip == NoSkip && tr == Framed(guarded, [], Abandoned)
            else if !world(0).allowance then
              cls == NotAttempted && skip == QuotaExhausted && tr == Framed(guarded, [NoAllowance(0)], Abandoned)
            else if !world(0).paced then
              cls == NotAttempted && skip == RateLimited && tr == Framed(guarded, [Reserved(0), GaveBack(0)], Abandoned)
            else skip == NoSkip && Sends(world, n) > 0
  {
    if n > 0 {
      HeldBack(world, 0, n);
      if Stops(world(0)) {
        assert Through(world, 1) == PartEvents(world(0), 0);
      } else {
        GoesOut(world, n);
      }
    }
  }

  lemma {:induction false} GoesOut(world: nat -> PartWorld, n: nat)
    requires n > 0 && !Stops(world(0))
    ensures Sends(world, n) > 0
  {
    if n > 1 {
      GoesOut(world, n - 1);
    }
  }

  /** From the admission on: the settlement with the breaker comes last on every path. */
  method DeliverParts(guarded: bool, n: nat, world: nat -> PartWorld) returns (res: TargetResult, trace: seq<Event>)
    ensures (res.cls, res.skip, trace) == Outcome(guarded, n, world)
    ensures Sends(world, n) > 0 ==> res.detail == Worst(world, Sends(world, n)).detail
  {
    var overall := Result(NotAttempted, "");
    var called, skipped, parts := false, NoSkip, [];
    if n == 0 {
      res := TargetResult(Permanent, NoSkip, "over the channel's limits");
    } else {
      overall, called, skipped, parts := SendParts(n, world);
      if !called {
        res := TargetResult(NotAttempted, skipped, overall.detail);
      } else {
        res := TargetResult(overall.cls, NoSkip, overall.detail);
      }
    }
    trace := parts;
    if guarded {
      trace := [Admitted] + parts;
      if called {
        trace := trace + [Reported(overall.cls)];
      } else {
        trace := trace + [Abandoned];
      }
    }
  }

  /** One part: reserve, wait for a slot, call, settle. */
  method TryPart(w: PartWorld, i: nat) returns (sent: bool, one: Result, skipped: SkipReason, events: seq<Event>)
    ensures sent == !Stops(w) && events == PartEvents(w, i)
    ensures sent ==> one == Normal(w.reply)
    ensures !sent ==> one.cls == NotAttempted && skipped == Refusal(w)
  {
    skipped := NoSkip;
    if !w.allowance {
      return false, Result(NotAttempted, "allowance spent"), QuotaExhausted, [NoAllowance(i)];
    }
    events := [Reserved(i)];
    if !w.paced {
      events := events + [GaveBack(i)];
      return false, Result(NotAttempted, "gave up waiting for the channel's rate limit"), RateLimited, events;
    }
    one := w.reply;
    if one.cls == NotAttempted {
      one := one.(cls := ConnectError);
    }
    events := events + [Called(i, one.cls)];
    if one.cls == ConnectError || one.cls == NotAttempted {
      events := events + [GaveBack(i)];
    } else {
      events := events + [Charged(i)];
    }
    sent := true;
  }

  /** Part after part until one is held back, keeping the most severe outcome. */
  method SendParts(n: nat, world: nat -> PartWorld)
    returns (overall: Result, called: bool, skipped: SkipReason, trace: seq<Event>)
    requires n > 0
    ensures trace == PartsTrace(world, n)
    ensures called <==> Sends(world, n) > 0
    ensures called ==> overall == Worst(world, Sends(world, n))
    ensures !called ==> skipped == Refusal(world(0))
  {
    overall, called, skipped, trace := Result(NotAttempted, ""), false, NoSkip, [];
    for i := 0 to n
      invariant Sends(world, i) == i && trace == Through(world, i)
      invariant called <==> i > 0
      invariant i > 0 ==> overall == Worst(world, i)
    {
      HeldBack(world, i, n);
      var sent, one, why, events := TryPart(world(i), i);
      trace := trace + events;
      overall := if i == 0 then one else Combine(overall, one);
      if !sent {
        skipped := why;
        return;
      }
      called := true;
    }
  }

  lemma {:induction false} HeldBack(world: nat -> PartWorld, i: nat, n: nat)
    requires i < n && Sends(world, i) == i
    ensures Stops(world(i)) ==> Sends(world, n) == i
  {
    if Stops(world(i)) && n > i + 1 {
      HeldBack(world, i, n - 1);
    }
  }

  // -------------------------------------------------------------- invariants

  /** A reason is given exactly when nothing was attempted, for every message, channel and world. */
  lemma SkipIffNotAttempted(guarded: bool, n: nat, world: nat -> PartWorld)
    ensures var (cls, skip, _) := Outcome(guarded, n, world);
            skip != NoSkip <==> cls == NotAttempted
  {
    if n > 0 && Sends(world, n) > 0 {
      WorstIsAnAnswer(world, Sends(world, n));
    }
  }

  lemma WorstIsAnAnswer(world: nat -> PartWorld, k: nat)
    requires k > 0
    ensures Worst(world, k).cls != NotAttempted
  {
    var i: nat :| i < k && Worst(world, k) == Normal(world(i).reply);
  }

  /** The calls among the first m parts are the answers of those not held back. */
  lemma {:induction false} CallsThrough(world: nat -> PartWorld, m: nat, e: Event)
    requires e.Called?
    ensures e in Through(world, m) <==>
            e.part < m && !Stops(world(e.part)) && e.cls == Normal(world(e.part).reply).cls
  {
    if m > 0 {
      CallsThrough(world, m - 1, e);
      var turn := PartEvents(world(m - 1), m - 1);
      assert e in turn <==> !Stops(world(m - 1)) && e == Called(m - 1, Normal(world(m - 1).reply).cls);
    }
  }

  lemma CallsFramed(guarded: bool, parts: seq<Event>, last: Event, e: Event)
    requires e.Called? && !last.Called?
    ensures e in Framed(guarded, parts, last) <==> e in parts
  {
  }

  lemma CallsInParts(n: nat, world: nat -> PartWorld, e: Event)
    requires e.Called?
    ensures e in PartsTrace(world, n) <==>
            e.part < Sends(world, n) && e.cls == Normal(world(e.part).reply).cls
  {
    var k := Sends(world, n);
    CallsThrough(world, if k < n then k + 1 else n, e);
    hide Through, Sends, Normal;
    assert e.part == k < n ==> Stops(world(k));
  }

  lemma CallsOf(guarded: bool, n: nat, world: nat -> PartWorld, e: Event)
    requires e.Called?
    ensures e in Outcome(guarded, n, world).2 <==>
            e.part < Sends(world, n) && e.cls == Normal(world(e.part).reply).cls
  {
    var last := if Sends(world, n) > 0 then Reported(Outcome(guarded, n, world).0) else Abandoned;
    assert Outcome(guarded, n, world).2 == Framed(guarded, PartsTrace(world, n), last);
    hide Worst, Refusal, Framed, Sends, PartsTrace, Outcome;
    CallsInParts(n, world, e);
    CallsFramed(guarded, PartsTrace(world, n), last, e);
  }

  /**
   * What is reported is the most severe answer of all the calls made, one of which gave it; with no call made
   * it is the router's own verdict.
   */
  lemma ReportsMostSevereCall(guarded: bool, n: nat, world: nat -> PartWorld)
    ensures var (cls, _, tr) := Outcome(guarded, n, world);
            && (forall e :: e in tr && e.Called? ==> Rank(e.cls) <= Rank(cls))
            && (Sends(world, n) > 0 <==> exists e :: e in tr && e.Called? && e.cls == cls)
  {
    var k := Sends(world, n);
    var (cls, _, tr) := Outcome(guarded, n, world);
    assert k > 0 ==> cls == Worst(world, k).cls;
    forall e: Event | e.Called?
      ensures e in tr <==> e.part < k && e.cls == Normal(world(e.part).reply).cls
    {
      CallsOf(guarded, n, world, e);
    }
    hide Outcome, Sends;
    if k > 0 {
      var i: nat :| i < k && Worst(world, k) == Normal(world(i).reply);
      assert Called(i, cls) in tr;
    }
  }

  predicate Concerns(e: Event, i: nat) {
    (e.Reserved? || e.NoAllowance? || e.GaveBack? || e.Called? || e.Charged?) && e.part == i
  }

  predicate Unconcerned(tr: seq<Event>, i: nat) {
    forall j :: 0 <= j < |tr| ==> !Concerns(tr[j], i)
  }

  /** Part i gets its turn if every part before it had an allowance and a slot. */
  ghost predicate GetsTurn(n: nat, world: nat -> PartWorld, i: nat) {
    i < n && forall j: nat :: j < i ==> world(j).allowance && world(j).paced
  }

  /**
   * One part, start to finish: turned down for want of an allowance; reserved and given back for want of a slot; or
   * called, and then given back if the peer was not reached and charged if it was.
   */
  predicate SettledOnce(es: seq<Event>, w: PartWorld, i: nat) {
    var cls := if w.reply.cls == NotAttempted then ConnectError else w.reply.cls;
    es == if !w.allowance then [NoAllowance(i)]
          else if !w.paced then [Reserved(i), GaveBack(i)]
          else if cls == ConnectError then [Reserved(i), Called(i, cls), GaveBack(i)]
          else [Reserved(i), Called(i, cls), Charged(i)]
  }

  lemma PartSettledOnce(w: PartWorld, i: nat)
    ensures SettledOnce(PartEvents(w, i), w, i)
    ensures forall j: nat :: j != i ==> Unconcerned(PartEvents(w, i), j)
  {
  }

  lemma UnconcernedConcat(a: seq<Event>, b: seq<Event>, i: nat)
    requires Unconcerned(a, i) && Unconcerned(b, i)
    ensures Unconcerned(a + b, i)
  {
  }

  /** Parts that have not had their turn do not show. */
  lemma {:induction false} NotYet(world: nat -> PartWorld, n: nat, i: nat)
    requires i >= n
    ensures Unconcerned(Through(world, n), i)
  {
    if n > 0 {
      NotYet(world, n - 1, i);
      PartSettledOnce(world(n - 1), n - 1);
      UnconcernedConcat(Through(world, n - 1), PartEvents(world(n - 1), n - 1), i);
    }
  }

  /** A part's turn is one stretch of the trace. */
  lemma {:induction false} OneTurn(world: nat -> PartWorld, n: nat, i: nat) returns (after: seq<Event>)
    requires i < n
    ensures Through(world, n) == Through(world, i) + PartEvents(world(i), i) + after
    ensures forall j: nat :: j <= i ==> Unconcerned(after, j)
    decreases n
  {
    after := [];
    if i < n - 1 {
      var rest := OneTurn(world, n - 1, i);
      var last := PartEvents(world(n - 1), n - 1);
      PartSettledOnce(world(n - 1), n - 1);
      forall j: nat | j <= i
        ensures Unconcerned(rest + last, j)
      {
        UnconcernedConcat(rest, last, j);
      }
      after := rest + last;
      Regroup(Through(world, i), PartEvents(world(i), i), rest, last);
    }
  }

  lemma Regroup(a: seq<Event>, b: seq<Event>, c: seq<Event>, d: seq<Event>)
    ensures a + b + c + d == a + b + (c + d)
  {
  }

  lemma {:induction false} SendsUpTo(world: nat -> PartWorld, n: nat, i: nat)
    requires i < n
    ensures i <= Sends(world, n) <==> GetsTurn(n, world, i)
  {
    if i == n - 1 {
      assert i <= Sends(world, n) <==> Sends(world, n - 1) == n - 1;
      if Sends(world, n - 1) < n - 1 {
        assert Stops(world(Sends(world, n - 1)));
      }
    } else {
      SendsUpTo(world, n - 1, i);
    }
  }

  lemma PartsSettledOnce(n: nat, world: nat -> PartWorld, i: nat)
    returns (before: seq<Event>, turn: seq<Event>, after: seq<Event>)
    ensures PartsTrace(world, n) == before + turn + after
    ensures if GetsTurn(n, world, i) then SettledOnce(turn, world(i), i) else turn == []
    ensures forall j: nat :: j >= i ==> Unconcerned(before, j)
    ensures forall j: nat :: j <= i ==> Unconcerned(after, j)
  {
    var k := Sends(world, n);
    var tried := if k < n then k + 1 else n;
    if i < n {
      SendsUpTo(world, n, i);
    }
    hide Sends, Through, PartEvents, SettledOnce, Unconcerned;
    before, turn, after := Through(world, tried), [], [];
    if i < tried {
      after := OneTurn(world, tried, i);
      before, turn := Through(world, i), PartEvents(world(i), i);
      PartSettledOnce(world(i), i);
    } else {
      NothingMissing(i);
    }
    forall j: nat | j >= i
      ensures Unconcerned(before, j)
    {
      NotYet(world, if i < tried then i else tried, j);
    }
  }

  lemma NothingMissing(i: nat)
    ensures forall j: nat :: j <= i ==> Unconcerned([], j)
  {
  }

  /**
   * On every path the trace is the parts' turns in order, each a stretch of its own in which what was reserved is
   * settled exactly once, and a part gets its turn exactly when no part before it was held back.
   */
  lemma EveryPartSettledOnce(guarded: bool, n: nat, world: nat -> PartWorld, i: nat)
    returns (before: seq<Event>, turn: seq<Event>, after: seq<Event>)
    ensures Outcome(guarded, n, world).2 == before + turn + after
    ensures if GetsTurn(n, world, i) then SettledOnce(turn, world(i), i) else turn == []
    ensures forall j: nat :: j >= i ==> Unconcerned(before, j)
    ensures forall j: nat :: j <= i ==> Unconcerned(after, j)
  {
    before, turn, after := PartsSettledOnce(n, world, i);
    if guarded {
      var last := if Sends(world, n) > 0 then Reported(Outcome(guarded, n, world).0) else Abandoned;
      FramedAround(before, turn, after, last);
      EndsUnconcerned(before, after, last, i);
      hide Sends, PartsTrace, SettledOnce, GetsTurn, Unconcerned;
      before, after := [Admitted] + before, after + [last];
    }
  }

  lemma EndsUnconcerned(before: seq<Event>, after: seq<Event>, last: Event, i: nat)
    requires last.Reported? || last.Abandoned?
    requires forall j: nat :: j >= i ==> Unconcerned(before, j)
    requires forall j: nat :: j <= i ==> Unconcerned(after, j)
    ensures forall j: nat :: j >= i ==> Unconcerned([Admitted] + before, j)
    ensures forall j: nat :: j <= i ==> Unconcerned(after + [last], j)
  {
    forall j: nat | j >= i
      ensures Unconcerned([Admitted] + before, j)
    {
      UnconcernedConcat([Admitted], before, j);
    }
    forall j: nat | j <= i
      ensures Unconcerned(after + [last], j)
    {
      UnconcernedConcat(after, [last], j);
    }
  }

  lemma FramedAround(a: seq<Event>, b: seq<Event>, c: seq<Event>, last: Event)
    ensures Framed(true, a + b + c, last) == [Admitted] + a + b + (c + [last])
  {
  }

  /** Units a delivery keeps. */
  function ChargedUnits(tr: seq<Event>): nat {
    if tr == [] then 0 else ChargedUnits(tr[..|tr| - 1]) + (if tr[|tr| - 1].Charged? then 1 else 0)
  }

  function Answered(world: nat -> PartWorld, k: nat): nat {
    if k == 0 then 0
    else Answered(world, k - 1) + (if Normal(world(k - 1).reply).cls != ConnectError then 1 else 0)
  }

  lemma {:induction false} ChargedConcat(a: seq<Event>, b: seq<Event>)
    ensures ChargedUnits(a + b) == ChargedUnits(a) + ChargedUnits(b)
  {
    if b == [] {
      assert a + b == a;
    } else {
      var n := |b| - 1;
      ChargedConcat(a, b[..n]);
      assert (a + b)[..|a + b| - 1] == a + b[..n];
    }
  }

  lemma ChargedOne(e: Event)
    ensures ChargedUnits([e]) == if e.Charged? then 1 else 0
  {
    assert [e][..0] == [];
  }

  lemma ChargedPart(w: PartWorld, i: nat)
    ensures ChargedUnits(PartEvents(w, i)) ==
            if !Stops(w) && Normal(w.reply).cls != ConnectError then 1 else 0
  {
    var es := PartEvents(w, i);
    ChargedOne(es[0]);
    if |es| > 1 {
      ChargedOne(es[1]);
      ChargedConcat([es[0]], [es[1]]);
      if |es| == 3 {
        ChargedOne(es[2]);
        ChargedConcat([es[0]] + [es[1]], [es[2]]);
        assert es == [es[0]] + [es[1]] + [es[2]];
      } else {
        assert es == [es[0]] + [es[1]];
      }
    }
  }

  lemma {:induction false} ChargedThrough(world: nat -> PartWorld, k: nat)
    requires forall i: nat :: i < k ==> !Stops(world(i))
    ensures ChargedUnits(Through(world, k)) == Answered(world, k)
  {
    if k > 0 {
      ChargedThrough(world, k - 1);
      ChargedPart(world(k - 1), k - 1);
      ChargedConcat(Through(world, k - 1), PartEvents(world(k - 1), k - 1));
    }
  }

  lemma ChargedFramed(guarded: bool, parts: seq<Event>, last: Event)
    requires last.Reported? || last.Abandoned?
    ensures ChargedUnits(Framed(guarded, parts, last)) == ChargedUnits(parts)
  {
    if guarded {
      ChargedOne(Admitted);
      ChargedOne(last);
      ChargedConcat([Admitted], parts);
      ChargedConcat([Admitted] + parts, [last]);
    }
  }

  /** The allowance a delivery keeps is the number of its calls that were answered, and nothing else. */
  lemma ChargedForAnswers(guarded: bool, n: nat, world: nat -> PartWorld)
    ensures ChargedUnits(Outcome(guarded, n, world).2) == Answered(world, Sends(world, n))
  {
    var k := Sends(world, n);
    ChargedThrough(world, k);
    if k < n {
      ChargedPart(world(k), k);
      ChargedConcat(Through(world, k), PartEvents(world(k), k));
    }
    var cls := Outcome(guarded, n, world).0;
    ChargedFramed(guarded, PartsTrace(world, n), if k > 0 then Reported(cls) else Abandoned);
  }

  /**
   * An admitted delivery settles with the breaker exactly once, last: with the class it reports when the channel
   * was called, and by giving the slot back when it was not. It never reports "not attempted".
   */
  lemma BreakerSettledOnce(n: nat, world: nat -> PartWorld)
    ensures var (cls, _, tr) := Outcome(true, n, world);
            && |tr| >= 2 && tr[0] == Admitted
            && (forall i :: 0 < i < |tr| - 1 ==> OfParts(tr[i]))
            && tr[|tr| - 1] == (if Sends(world, n) > 0 then Reported(cls) else Abandoned)
            && (tr[|tr| - 1].Reported? ==> cls != NotAttempted)
  {
    var k := Sends(world, n);
    var cls := Outcome(true, n, world).0;
    PartsOnly(world, if k < n then k + 1 else n);
    FramedShape(PartsTrace(world, n), if k > 0 then Reported(cls) else Abandoned);
    if k > 0 {
      WorstIsAnAnswer(world, k);
    }
  }

  predicate OfParts(e: Event) {
    !e.Admitted? && !e.Reported? && !e.Abandoned?
  }

  lemma FramedShape(parts: seq<Event>, last: Event)
    requires forall i :: 0 <= i < |parts| ==> OfParts(parts[i])
    ensures var tr := Framed(true, parts, last);
            |tr| == |parts| + 2 && tr[0] == Admitted && tr[|tr| - 1] == last &&
            forall i :: 0 < i < |tr| - 1 ==> OfParts(tr[i])
  {
    var tr := Framed(true, parts, last);
    forall i | 0 < i < |tr| - 1
      ensures OfParts(tr[i])
    {
      assert tr[i] == parts[i - 1];
    }
  }

  lemma {:induction false} PartsOnly(world: nat -> PartWorld, n: nat)
    ensures forall i :: 0 <= i < |Through(world, n)| ==> OfParts(Through(world, n)[i])
  {
    if n > 0 {
      PartsOnly(world, n - 1);
    }
  }
}
