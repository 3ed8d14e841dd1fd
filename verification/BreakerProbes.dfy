/** When exactly the half-open limit holds: a delivery has to be settled before the open timeout can pass. */
module BreakerProbes {
  import opened Channel
  import opened RetryPolicy
  import opened Breaker
  import opened BreakerSystem

  /** A breaker with a clock, and the instant each delivery in flight was admitted. */
  datatype Clocked = Clocked(node: Node, now: Time, since: map<nat, Time>)

  datatype Step = Tick(to: Time) | Do(e: Event)

  /** What happens happens now, settings are left alone, and no delivery is out for longer than hold. */
  predicate Timely(hold: nat, c: Clocked, s: Step) {
    match s
    case Tick(to) => to >= c.now && forall d :: d in c.since ==> to <= c.since[d] + hold
    case Do(e) =>
      && Enabled(c.node, e) && !e.SetSettings?
      && (e.Arrive? || e.Settle? || e.Reset? ==> e.now == c.now)
  }

  function Next(c: Clocked, s: Step): Clocked
    requires s.Do? ==> Enabled(c.node, s.e)
  {
    match s
    case Tick(to) => c.(now := to)
    case Do(e) =>
      var n := Apply(c.node, e);
      Clocked(n, c.now, map d | d in n.flight :: if d in c.since then c.since[d] else c.now)
  }

  function Begin(settings: Settings): Clocked {
    Clocked(Start(settings), 1, map[])
  }

  ghost predicate TimelyRun(settings: Settings, hold: nat, steps: seq<Step>, c: Clocked) {
    if steps == [] then c == Begin(settings)
    else
      var k := |steps| - 1;
      exists m: Clocked ::
        TimelyRun(settings, hold, steps[..k], m) && Timely(hold, m, steps[k]) && c == Next(m, steps[k])
  }

  ghost predicate Reachable(settings: Settings, hold: nat, c: Clocked) {
    exists steps :: TimelyRun(settings, hold, steps, c)
  }

  /** No half-open breaker ever has more probes of its phase in flight than it is set to. */
  ghost predicate ProbeLimitKept(settings: Settings, hold: nat) {
    forall c: Clocked :: Reachable(settings, hold, c) && c.node.View().mode == HalfOpen ==>
                           |ProbesOut(c.node)| <= settings.halfOpenProbes
  }

  lemma BeginIsReachable(settings: Settings, hold: nat)
    ensures Reachable(settings, hold, Begin(settings))
  {
    assert TimelyRun(settings, hold, [], Begin(settings));
  }

  lemma NextIsReachable(settings: Settings, hold: nat, c: Clocked, s: Step)
    requires Reachable(settings, hold, c) && Timely(hold, c, s)
    ensures Reachable(settings, hold, Next(c, s))
  {
    var steps :| TimelyRun(settings, hold, steps, c);
    assert (steps + [s])[..|steps|] == steps;
    assert TimelyRun(settings, hold, steps + [s], Next(c, s));
  }

  // ------------------------------------------------- fast enough: no strays

  /** Whoever is out of an open breaker was admitted before it opened; of a half-open one, is its probe. */
  ghost predicate NoStrays(settings: Settings, hold: nat, c: Clocked) {
    var n := c.node;
    && Paced(n, settings)
    && c.since.Keys == n.flight.Keys
    && (forall d :: d in c.since ==> c.since[d] <= c.now <= c.since[d] + hold)
    && (!n.pair.mem.loaded ==> n.strays == 0)
    && (n.View().mode == Open ==> forall d :: d in c.since ==> c.since[d] <= n.View().openedAt)
    && (n.View().mode == HalfOpen ==> n.strays == 0 && forall d :: d in n.flight ==> n.flight[d] == Some(n.phase))
  }

  lemma ArriveKeepsNoStrays(settings: Settings, hold: nat, c: Clocked, d: nat)
    requires hold < settings.openTimeout && NoStrays(settings, hold, c) && Timely(hold, c, Do(Arrive(d, c.now)))
    ensures NoStrays(settings, hold, Next(c, Do(Arrive(d, c.now))))
  {
    ArriveKeepsPaced(c.node, settings, d, c.now);
    hide Paced;
    var n := c.node;
    if Admits(n.pair, c.now) && n.View().mode == Open {
      assert c.now - n.View().openedAt >= settings.openTimeout;
      assert n.flight.Keys == {};
    }
  }

  lemma SettleKeepsNoStrays(settings: Settings, hold: nat, c: Clocked, e: Event)
    requires NoStrays(settings, hold, c) && Timely(hold, c, Do(e)) && e.Settle?
    ensures NoStrays(settings, hold, Next(c, Do(e)))
  {
    SettleKeepsPaced(c.node, settings, e);
    hide Paced;
  }

  lemma StepKeepsNoStrays(settings: Settings, hold: nat, c: Clocked, s: Step)
    requires hold < settings.openTimeout && NoStrays(settings, hold, c) && Timely(hold, c, s)
    ensures NoStrays(settings, hold, Next(c, s))
  {
    if s.Do? {
      if s.e.Arrive? {
        ArriveKeepsNoStrays(settings, hold, c, s.e.delivery);
      } else if s.e.Settle? {
        SettleKeepsNoStrays(settings, hold, c, s.e);
      } else {
        StepKeepsPaced(c.node, settings, s.e);
        hide Paced;
      }
    }
  }

  lemma {:induction false} AlwaysNoStrays(settings: Settings, hold: nat, steps: seq<Step>, c: Clocked)
    requires settings.Complete() && hold < settings.openTimeout && TimelyRun(settings, hold, steps, c)
    ensures NoStrays(settings, hold, c)
  {
    if steps != [] {
      var k := |steps| - 1;
      var m :| TimelyRun(settings, hold, steps[..k], m) && Timely(hold, m, steps[k]) && c == Next(m, steps[k]);
      AlwaysNoStrays(settings, hold, steps[..k], m);
      StepKeepsNoStrays(settings, hold, m, steps[k]);
    }
  }

  // -------------------------------------------- slow enough: one probe too many

  /** One delivery is out and f others have failed meanwhile. */
  function Failing(s: Settings, f: nat): Clocked {
    Clocked(Node(Pair(Memory(s, true, Closed, f, 0, 0, 0), None, true), map[0 := None], 0, f, f, 0), 1, map[0 := 1])
  }

  /** The last failure allowed has opened the breaker, and the first delivery is still out. */
  function Opened(s: Settings): Clocked
    requires s.Complete()
  {
    var f: nat := s.failureThreshold;
    Clocked(Node(Pair(Memory(s, true, Open, f, 1, 0, 0), Some(Saved(Open, f, 1, 0)), true), map[0 := None], 0, f, f, 0),
            1, map[0 := 1])
  }

  /** Delivery 0 from before, and k probes. */
  function Crew(k: nat): (m: map<nat, Option<nat>>)
    ensures forall d: nat :: d in m <==> d <= k
    ensures forall d: nat :: d in m ==> m[d] == if d == 0 then None else Some(1)
  {
    if k == 0 then map[0 := None] else Crew(k - 1)[k := Some(1)]
  }

  function CrewSince(k: nat, now: Time): (m: map<nat, Time>)
    ensures forall d: nat :: d in m <==> d <= k
    ensures forall d: nat :: d in m ==> m[d] == if d == 0 then 1 else now
  {
    if k == 0 then map[0 := 1] else CrewSince(k - 1, now)[k := now]
  }

  /** The timeout has passed and k probes are out beside it. */
  function Probing(s: Settings, k: nat): Clocked
    requires s.Complete()
  {
    var f: nat, now: nat := s.failureThreshold, 1 + s.openTimeout;
    Clocked(Node(Pair(Memory(s, true, HalfOpen, f, 1, k, 0), Some(Saved(HalfOpen, f, 1, 0)), true),
                 Crew(k), 1, 0, f, 0), now, CrewSince(k, now))
  }

  lemma OneMoreFault(s: Settings, hold: nat, f: nat)
    requires s.Complete() && f < s.failureThreshold && Reachable(s, hold, Failing(s, f))
    ensures f + 1 < s.failureThreshold ==> Reachable(s, hold, Failing(s, f + 1))
    ensures f + 1 == s.failureThreshold ==> Reachable(s, hold, Opened(s))
  {
    hide Reachable;
    var c := Failing(s, f);
    var c1 := Next(c, Do(Arrive(1, 1)));
    NextIsReachable(s, hold, c, Do(Arrive(1, 1)));
    var fault := Do(Settle(1, true, Transient, 1));
    NextIsReachable(s, hold, c1, fault);
    var c2 := Next(c1, fault);
    assert c2.node.flight == map[0 := None] && c2.since == map[0 := 1];
  }

  lemma {:induction false} FailsUpTo(s: Settings, hold: nat, f: nat)
    requires s.Complete() && f < s.failureThreshold
    ensures Reachable(s, hold, Failing(s, f))
  {
    hide Reachable;
    if f == 0 {
      BeginIsReachable(s, hold);
      NextIsReachable(s, hold, Begin(s), Do(Arrive(0, 1)));
      assert Next(Begin(s), Do(Arrive(0, 1))).since == map[0 := 1];
    } else {
      FailsUpTo(s, hold, f - 1);
      OneMoreFault(s, hold, f - 1);
    }
  }

  lemma {:induction false} ProbesUpTo(s: Settings, hold: nat, k: nat)
    requires s.Complete() && hold >= s.openTimeout && 1 <= k <= s.halfOpenProbes
    ensures Reachable(s, hold, Probing(s, k))
  {
    hide Reachable;
    var now: nat := 1 + s.openTimeout;
    var arrive := Do(Arrive(k, now));
    if k == 1 {
      FailsUpTo(s, hold, s.failureThreshold - 1);
      OneMoreFault(s, hold, s.failureThreshold - 1);
      NextIsReachable(s, hold, Opened(s), Tick(now));
      var waited := Opened(s).(now := now);
      NextIsReachable(s, hold, waited, arrive);
      assert Next(waited, arrive).node.flight == Crew(1);
      assert Next(waited, arrive).since == CrewSince(1, now);
    } else {
      ProbesUpTo(s, hold, k - 1);
      NextIsReachable(s, hold, Probing(s, k - 1), arrive);
      assert Next(Probing(s, k - 1), arrive).node.flight == Crew(k);
      assert Next(Probing(s, k - 1), arrive).since == CrewSince(k, now);
    }
  }

  lemma {:induction false} CountUpTo(n: nat, s: set<nat>)
    requires forall d :: d in s <==> 1 <= d <= n
    ensures |s| == n
  {
    if n == 0 {
      assert s == {};
    } else {
      CountUpTo(n - 1, s - {n});
    }
  }

  /**
   * Whatever the settings: a delivery admitted before the breaker opened and still out when the timeout has
   * passed is given back beside a full set of probes, frees a slot none of it was holding, and one more goes out.
   */
  lemma StrayLetsOneMoreOut(s: Settings, hold: nat) returns (c: Clocked)
    requires s.Complete() && hold >= s.openTimeout
    ensures Reachable(s, hold, c) && c.node.View().mode == HalfOpen
    ensures |ProbesOut(c.node)| == s.halfOpenProbes + 1
  {
    hide Reachable;
    var p: nat, now: nat := s.halfOpenProbes, 1 + s.openTimeout;
    ProbesUpTo(s, hold, p);
    var abandon, arrive := Do(Settle(0, false, NotAttempted, now)), Do(Arrive(p + 1, now));
    NextIsReachable(s, hold, Probing(s, p), abandon);
    var c1 := Next(Probing(s, p), abandon);
    NextIsReachable(s, hold, c1, arrive);
    c := Next(c1, arrive);
    CountUpTo(p + 1, ProbesOut(c.node));
  }

  /**
   * The half-open limit holds in every interleaving exactly when no delivery is out for as long as the open
   * timeout: resets, restarts and store failures do not matter, how long a delivery may take does.
   */
  lemma ProbeLimitExactly(settings: Settings, hold: nat)
    requires settings.Complete()
    ensures ProbeLimitKept(settings, hold) <==> hold < settings.openTimeout
  {
    if hold < settings.openTimeout {
      forall c: Clocked | Reachable(settings, hold, c) && c.node.View().mode == HalfOpen
        ensures |ProbesOut(c.node)| <= settings.halfOpenProbes
      {
        var steps :| TimelyRun(settings, hold, steps, c);
        AlwaysNoStrays(settings, hold, steps, c);
      }
    } else {
      var c := StrayLetsOneMoreOut(settings, hold);
    }
  }
}
