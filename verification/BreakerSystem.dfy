/** A breaker under concurrent deliveries, operator resets, settings changes, restarts and a store that may fail. */
module BreakerSystem {
  import opened Channel
  import opened RetryPolicy
  import opened Breaker

  /**
   * flight holds every delivery admitted and not yet settled, with the half-open phase it is a probe of, if any.
   * The remaining fields only watch: how many half-open phases there have been, how many deliveries that are not
   * its probes have settled in the current one, the run of failures since the last answer, reset or restart, and
   * the answers of the current phase. A failure is a transient or connect error of a channel that was called; an
   * answer is an acceptance or a permanent rejection.
   */
  datatype Node = Node(
    pair: Pair, flight: map<nat, Option<nat>>,
    phase: nat, strays: nat, streak: nat, healthy: nat)
  {
    function View(): Memory { Load(pair).mem }
  }

  function Start(settings: Settings): Node {
    Node(Pair(Fresh(settings), None, true), map[], 0, 0, 0, 0)
  }

  datatype Event =
    | Arrive(delivery: nat, now: Time)
    | Settle(delivery: nat, called: bool, cls: ResultClass, now: Time)
    | Reset(now: Time)
    | SetSettings(settings: Settings)
    | Restart
    | StoreTurns(up: bool)

  /** The router settles what it was admitted for, once; a delivery that called its channel has an outcome. */
  predicate Enabled(n: Node, e: Event) {
    match e
    case Arrive(d, _) => d !in n.flight
    case Settle(d, called, cls, _) => d in n.flight && (called ==> cls != NotAttempted)
    case _ => true
  }

  function Apply(n: Node, e: Event): Node
    requires Enabled(n, e)
  {
    match e
    case Arrive(d, now) =>
      var after := Breaker.Allow(n.pair, now);
      if !Admits(n.pair, now) then n.(pair := after)
      else
        var begins := n.View().mode == Open;
        var phase := if begins then n.phase + 1 else n.phase;
        Node(after, n.flight[d := if after.mem.mode == HalfOpen then Some(phase) else None], phase,
             if begins then 0 else n.strays, n.streak, if begins then 0 else n.healthy)
    case Settle(d, called, cls, now) =>
      n.(pair := if called then Record(n.pair, cls, now) else Abandon(n.pair),
         flight := n.flight - {d},
         strays := n.strays + (if n.flight[d] == Some(n.phase) then 0 else 1),
         streak := if called && (cls == Transient || cls == ConnectError) then n.streak + 1
                   else if called && (cls == Sent || cls == Permanent) then 0 else n.streak,
         healthy := if called && (cls == Sent || cls == Permanent) then n.healthy + 1
                    else if called && (cls == Transient || cls == ConnectError) then 0 else n.healthy)
    case Reset(now) => n.(pair := Breaker.Reset(n.pair, now), streak := 0)
    case SetSettings(s) => n.(pair := n.pair.(mem := n.pair.mem.(settings := s.Normalize())))
    case Restart =>
      n.(pair := n.pair.(mem := Fresh(n.pair.mem.settings)), flight := map[],
         phase := n.phase + 1, strays := 0, streak := 0, healthy := 0)
    case StoreTurns(up) => n.(pair := n.pair.(up := up))
  }

  ghost predicate Run(n: Node, es: seq<Event>, n': Node) {
    if es == [] then n' == n
    else
      var k := |es| - 1;
      exists m: Node :: Run(n, es[..k], m) && Enabled(m, es[k]) && n' == Apply(m, es[k])
  }

  // -------------------------------------------------- no stranded half-open slot

  /** Slots taken are slots of deliveries still out, and there are none outside the half-open mode. */
  predicate SlotsAccounted(n: Node) {
    Slots(n.pair, |n.flight|)
  }

  predicate Slots(p: Pair, out: nat) {
    && p.mem.settings.Complete()
    && p.mem.probes <= out && Load(p).mem.probes <= out
    && (p.mem.mode != HalfOpen ==> p.mem.probes == 0)
    && (Load(p).mem.mode != HalfOpen ==> Load(p).mem.probes == 0)
  }

  lemma AllowSlots(p: Pair, now: Time, out: nat)
    requires Slots(p, out)
    ensures Slots(Breaker.Allow(p, now), if Admits(p, now) then out + 1 else out)
  {
  }

  lemma RecordSlots(p: Pair, cls: ResultClass, now: Time, out: nat)
    requires Slots(p, out) && out > 0 && cls != NotAttempted
    ensures Slots(Record(p, cls, now), out - 1)
  {
  }

  lemma AbandonSlots(p: Pair, out: nat)
    requires Slots(p, out) && out > 0
    ensures Slots(Abandon(p), out - 1)
  {
  }

  lemma OneFewer(flight: map<nat, Option<nat>>, d: nat)
    requires d in flight
    ensures |flight - {d}| == |flight| - 1
  {
    assert flight.Keys == (flight - {d}).Keys + {d};
  }

  lemma StepAccountsSlots(n: Node, e: Event)
    requires SlotsAccounted(n) && Enabled(n, e)
    ensures SlotsAccounted(Apply(n, e))
  {
    match e {
      case Arrive(d, now) =>
        AllowSlots(n.pair, now, |n.flight|);
        hide Slots, Breaker.Allow;
      case Settle(d, called, cls, now) =>
        OneFewer(n.flight, d);
        if called {
          RecordSlots(n.pair, cls, now, |n.flight|);
        } else {
          AbandonSlots(n.pair, |n.flight|);
        }
        hide Slots, Record, Abandon;
      case _ =>
    }
  }

  /**
   * Across every interleaving of deliveries, resets, settings changes, restarts and store failures no slot is
   * stranded: with nothing in flight every breaker that is not inside its open timeout admits the next delivery.
   */
  lemma {:induction false} NoStrandedSlot(settings: Settings, es: seq<Event>, n: Node, now: Time)
    requires settings.Complete() && Run(Start(settings), es, n)
    ensures SlotsAccounted(n)
    ensures n.flight == map[] ==>
              (Admits(n.pair, now) <==>
               !(n.View().mode == Open && now - n.View().openedAt < n.View().settings.openTimeout))
  {
    if es != [] {
      var k := |es| - 1;
      var m :| Run(Start(settings), es[..k], m) && Enabled(m, es[k]) && n == Apply(m, es[k]);
      NoStrandedSlot(settings, es[..k], m, now);
      StepAccountsSlots(m, es[k]);
    }
  }

  // ------------------------------------------------------ how many probes at once

  function ProbesOut(n: Node): set<nat> {
    set d | d in n.flight && n.flight[d] == Some(n.phase)
  }

  /** Settings left alone: the slot count trails the probes out by at most the strays that settled meanwhile. */
  ghost predicate Paced(n: Node, settings: Settings) {
    && SlotsAccounted(n) && n.pair.mem.settings == settings
    && (!n.pair.mem.loaded ==> n.flight == map[] && n.pair.mem.probes == 0)
    && (forall d :: d in n.flight && n.flight[d].Some? ==> n.flight[d].value <= n.phase)
    && n.View().probes <= settings.halfOpenProbes
    && (n.View().mode == HalfOpen ==>
          n.View().probes <= |ProbesOut(n)| <= n.View().probes + n.strays)
  }

  lemma ArriveKeepsPaced(n: Node, settings: Settings, d: nat, now: Time)
    requires Paced(n, settings) && Enabled(n, Arrive(d, now))
    ensures Paced(Apply(n, Arrive(d, now)), settings)
  {
    var n' := Apply(n, Arrive(d, now));
    StepAccountsSlots(n, Arrive(d, now));
    if Admits(n.pair, now) && n.View().mode == HalfOpen {
      assert ProbesOut(n') == ProbesOut(n) + {d};
    } else if Admits(n.pair, now) && n.View().mode == Open {
      assert ProbesOut(n') == {d};
    }
  }

  /** Settling either way frees one slot of a phase that goes on, and never begins one. */
  lemma SettlingFreesOne(p: Pair, called: bool, cls: ResultClass, now: Time)
    ensures var v, q := Load(p).mem, if called then Record(p, cls, now) else Abandon(p);
            && q.mem.loaded && q.mem.settings == p.mem.settings
            && (q.mem.mode == HalfOpen ==>
                  v.mode == HalfOpen && ((called && cls == NotAttempted) || q.mem.probes == Less(v.probes)))
            && (q.mem.mode != HalfOpen ==> q.mem.probes == 0 || q.mem.probes == v.probes)
  {
  }

  lemma SettleKeepsPaced(n: Node, settings: Settings, e: Event)
    requires Paced(n, settings) && Enabled(n, e) && e.Settle?
    ensures Paced(Apply(n, e), settings)
  {
    var n' := Apply(n, e);
    StepAccountsSlots(n, e);
    SettlingFreesOne(n.pair, e.called, e.cls, e.now);
    hide Slots, Record, Abandon;
    if n.flight[e.delivery] == Some(n.phase) {
      assert ProbesOut(n) == ProbesOut(n') + {e.delivery};
    } else {
      assert ProbesOut(n) == ProbesOut(n');
    }
  }

  lemma StepKeepsPaced(n: Node, settings: Settings, e: Event)
    requires Paced(n, settings) && Enabled(n, e) && !e.SetSettings?
    ensures Paced(Apply(n, e), settings)
  {
    if e.Arrive? {
      ArriveKeepsPaced(n, settings, e.delivery, e.now);
    } else if e.Settle? {
      SettleKeepsPaced(n, settings, e);
    } else {
      StepAccountsSlots(n, e);
      if e.Restart? {
        assert ProbesOut(Apply(n, e)) == {};
      } else {
        assert ProbesOut(Apply(n, e)) == ProbesOut(n);
      }
    }
  }

  ghost predicate SettingsLeftAlone(es: seq<Event>) {
    forall i :: 0 <= i < |es| ==> !es[i].SetSettings?
  }

  /**
   * While half-open, the probes of the current phase in flight number at most the configured limit plus the
   * deliveries from before it that have settled in it; with none of those, the slot count is exact.
   */
  lemma {:induction false} ProbesBounded(settings: Settings, es: seq<Event>, n: Node)
    requires settings.Complete() && Run(Start(settings), es, n) && SettingsLeftAlone(es)
    ensures Paced(n, settings)
    ensures n.View().mode == HalfOpen ==> |ProbesOut(n)| <= settings.halfOpenProbes + n.strays
    ensures n.View().mode == HalfOpen && n.strays == 0 ==> |ProbesOut(n)| == n.View().probes
  {
    if es != [] {
      var k := |es| - 1;
      var m :| Run(Start(settings), es[..k], m) && Enabled(m, es[k]) && n == Apply(m, es[k]);
      ProbesBounded(settings, es[..k], m);
      StepKeepsPaced(m, settings, es[k]);
    }
  }

  /** What abandoning a delivery does to an exact count: kept for a probe of this phase, or with no slot to free. */
  lemma AbandonKeepsExactCount(n: Node, d: nat, now: Time)
    requires SlotsAccounted(n) && n.View().mode == HalfOpen && |ProbesOut(n)| == n.View().probes && d in n.flight
    ensures var n' := Apply(n, Settle(d, false, NotAttempted, now));
            |ProbesOut(n')| == n'.View().probes <==> n.flight[d] == Some(n.phase) || n.View().probes == 0
  {
    var n' := Apply(n, Settle(d, false, NotAttempted, now));
    if n.flight[d] == Some(n.phase) {
      assert ProbesOut(n) == ProbesOut(n') + {d};
    } else {
      assert ProbesOut(n) == ProbesOut(n');
    }
  }

  // ------------------------------------------------------------ why it moves

  /** A working store holds what memory holds, but for counts a restart may forget. Nothing saved reads as closed. */
  predicate Agreed(p: Pair) {
    && p.up
    && (p.saved.None? ==> p.mem.mode == Closed && p.mem.openedAt == 0)
    && (p.saved.Some? && p.mem.loaded ==>
          p.saved.value.mode == p.mem.mode && p.saved.value.openedAt == p.mem.openedAt &&
          (p.mem.mode != Closed ==> p.saved.value.failures == p.mem.failures))
    && (p.saved.Some? && p.saved.value.mode == Closed ==> p.saved.value.failures == 0)
    && (!p.mem.loaded ==> p.mem == Fresh(p.mem.settings))
  }

  /** What the counters amount to in terms of the history alone. */
  predicate Counted(n: Node) {
    && (n.View().mode == Closed ==> n.View().failures == n.streak)
    && (n.View().mode == HalfOpen ==> n.View().successes == n.healthy)
  }

  ghost predicate StoreStaysUp(es: seq<Event>) {
    forall i :: 0 <= i < |es| ==> !es[i].StoreTurns?
  }

  lemma RecordAgrees(p: Pair, cls: ResultClass, now: Time)
    requires Agreed(p)
    ensures Agreed(Record(p, cls, now))
  {
  }

  lemma StepAgrees(n: Node, e: Event)
    requires SlotsAccounted(n) && Agreed(n.pair) && Enabled(n, e) && !e.StoreTurns?
    ensures Agreed(Apply(n, e).pair)
  {
    if e.Settle? {
      RecordAgrees(n.pair, e.cls, e.now);
      hide Record;
    }
  }

  lemma StepCounted(n: Node, e: Event)
    requires Agreed(n.pair) && Counted(n) && Enabled(n, e) && !e.StoreTurns?
    ensures Counted(Apply(n, e))
  {
  }

  /** In every run of a working store, settings changed at any time, memory and store agree after every step. */
  lemma {:induction false} AlwaysAgreed(settings: Settings, es: seq<Event>, n: Node)
    requires settings.Complete() && Run(Start(settings), es, n) && StoreStaysUp(es)
    ensures SlotsAccounted(n) && Agreed(n.pair) && Counted(n)
  {
    if es != [] {
      var k := |es| - 1;
      var m :| Run(Start(settings), es[..k], m) && Enabled(m, es[k]) && n == Apply(m, es[k]);
      AlwaysAgreed(settings, es[..k], m);
      hide Run, Apply, Agreed, Counted, SlotsAccounted;
      StepAccountsSlots(m, es[k]);
      StepAgrees(m, es[k]);
      StepCounted(m, es[k]);
    }
  }

  /** With the settings left alone a phase ends as soon as it has had enough healthy outcomes. */
  predicate NotYetEnough(n: Node, settings: Settings) {
    && n.pair.mem.settings == settings
    && (n.View().mode == HalfOpen ==> n.View().successes < settings.successThreshold)
  }

  lemma {:induction false} NeverEnough(settings: Settings, es: seq<Event>, n: Node)
    requires settings.Complete() && Run(Start(settings), es, n) && StoreStaysUp(es) && SettingsLeftAlone(es)
    ensures NotYetEnough(n, settings)
  {
    if es != [] {
      var k := |es| - 1;
      var m :| Run(Start(settings), es[..k], m) && Enabled(m, es[k]) && n == Apply(m, es[k]);
      NeverEnough(settings, es[..k], m);
      AlwaysAgreed(settings, es[..k], m);
      hide Run, SlotsAccounted, Counted;
      StepNotYetEnough(m, settings, es[k]);
    }
  }

  lemma StepNotYetEnough(n: Node, settings: Settings, e: Event)
    requires settings.Complete() && NotYetEnough(n, settings) && Agreed(n.pair)
    requires Enabled(n, e) && !e.SetSettings? && !e.StoreTurns?
    ensures NotYetEnough(Apply(n, e), settings)
  {
  }

  /** From closed: opened at once by the failure that completes a run of failureThreshold of them. */
  predicate LeavesClosedRight(n: Node, e: Event)
    requires Enabled(n, e)
  {
    var n', now := Apply(n, e), n.pair.mem.settings;
    n.View().mode == Closed ==>
      if && e.Settle? && e.called && (e.cls == Transient || e.cls == ConnectError)
         && n.streak + 1 >= now.failureThreshold
      then n'.View().mode == Open && n'.View().openedAt == e.now
      else n'.View().mode == Closed
  }

  /** From half-open: a failure opens it again at once, and enough answers in the phase, or a reset, close it. */
  predicate LeavesHalfOpenRight(n: Node, e: Event)
    requires Enabled(n, e)
  {
    var n', now := Apply(n, e), n.pair.mem.settings;
    n.View().mode == HalfOpen ==>
      if e.Settle? && e.called && (e.cls == Transient || e.cls == ConnectError) then
        n'.View().mode == Open && n'.View().openedAt == e.now
      else if || e.Reset?
              || (e.Settle? && e.called && (e.cls == Sent || e.cls == Permanent) &&
                  n.healthy + 1 >= now.successThreshold)
      then n'.View().mode == Closed && n'.View().openedAt == 0
      else n'.View().mode == HalfOpen && n'.View().openedAt == n.View().openedAt
  }

  /** From open: an arrival after the timeout makes it half-open, a reset closes it, and nothing else moves it. */
  predicate LeavesOpenRight(n: Node, e: Event)
    requires Enabled(n, e)
  {
    var n', now := Apply(n, e), n.pair.mem.settings;
    n.View().mode == Open ==>
      if e.Arrive? && e.now >= n.View().openedAt + now.openTimeout then n'.View().mode == HalfOpen
      else if e.Reset? then n'.View().mode == Closed && n'.View().openedAt == 0
      else n'.View().mode == Open && n'.View().openedAt == n.View().openedAt
  }

  /** Who is let in: everybody, nobody before the timeout, or as many as the phase has slots left. */
  predicate LetsInRight(n: Node, t: Time) {
    var v := n.View();
    match v.mode
    case Closed => Admits(n.pair, t)
    case Open => Admits(n.pair, t) <==> t >= v.openedAt + v.settings.openTimeout
    case HalfOpen => Admits(n.pair, t) <==> v.probes < v.settings.halfOpenProbes
  }

  lemma StepMovesRight(n: Node, e: Event)
    requires Agreed(n.pair) && Counted(n) && Enabled(n, e) && !e.StoreTurns?
    ensures LeavesClosedRight(n, e) && LeavesHalfOpenRight(n, e) && LeavesOpenRight(n, e)
  {
  }

  /**
   * With a working store, restarts and settings changes included, the breaker moves exactly when it should, event
   * by event and both ways; and with the settings left alone a phase closes on exactly successThreshold answers.
   */
  lemma MovesExactly(settings: Settings, es: seq<Event>, n: Node, e: Event, t: Time)
    requires settings.Complete() && Run(Start(settings), es, n) && StoreStaysUp(es)
    requires Enabled(n, e) && !e.StoreTurns?
    ensures LeavesClosedRight(n, e) && LeavesHalfOpenRight(n, e) && LeavesOpenRight(n, e)
    ensures LetsInRight(n, t) && LetsInRight(Apply(n, e), t)
    ensures SettingsLeftAlone(es) && n.View().mode == HalfOpen && Apply(n, e).View().mode == Closed ==>
              e.Reset? || n.healthy + 1 == settings.successThreshold
  {
    AlwaysAgreed(settings, es, n);
    StepMovesRight(n, e);
    if SettingsLeftAlone(es) {
      NeverEnough(settings, es, n);
    }
    hide Run;
  }

  /** Outcomes reported one after the other, each at its own instant. */
  function Reported(p: Pair, outcomes: seq<(ResultClass, Time)>): Pair {
    if outcomes == [] then p
    else
      var k := |outcomes| - 1;
      Record(Reported(p, outcomes[..k]), outcomes[k].0, outcomes[k].1)
  }

  /** The other direction: faulty outcomes, of any kind and at any instants, open a closed breaker at the threshold. */
  lemma {:induction false} FaultsOpen(p: Pair, outcomes: seq<(ResultClass, Time)>)
    requires p.mem.loaded && p.mem.mode == Closed && p.mem.settings.Complete()
    requires p.mem.failures < p.mem.settings.failureThreshold
    requires forall i :: 0 <= i < |outcomes| ==> outcomes[i].0 == Transient || outcomes[i].0 == ConnectError
    ensures var m, sum := Reported(p, outcomes).mem, p.mem.failures + |outcomes|;
            if sum < p.mem.settings.failureThreshold then m == p.mem.(failures := sum)
            else m.loaded && m.mode == Open && m.settings == p.mem.settings &&
                 m.openedAt == outcomes[p.mem.settings.failureThreshold - p.mem.failures - 1].1
    decreases |outcomes|
  {
    if outcomes != [] {
      FaultsOpen(p, outcomes[..|outcomes| - 1]);
    }
  }

  // ------------------------------------------------------------- restart safety

  function Forgetful(v: Memory): Memory {
    v.(probes := 0, successes := 0, failures := if v.mode == Closed then 0 else v.failures)
  }

  lemma RestartForgets(n: Node)
    requires Agreed(n.pair)
    ensures Apply(n, Restart).View() == Forgetful(n.View())
  {
  }

  /** All a restart forgets is counts: the mode and the opening instant come back from the store as they were. */
  lemma RestartForgetsCountsOnly(settings: Settings, es: seq<Event>, n: Node)
    requires settings.Complete() && Run(Start(settings), es, n) && StoreStaysUp(es)
    ensures Apply(n, Restart).View() == Forgetful(n.View())
  {
    AlwaysAgreed(settings, es, n);
    RestartForgets(n);
  }

  /** No reset, no store failure, and nobody arrives once the timeout, as it is set at the time, is up. */
  predicate Early(n: Node, e: Event) {
    && !e.Reset? && !e.StoreTurns?
    && (e.Arrive? ==> e.now < n.View().openedAt + n.pair.mem.settings.openTimeout)
  }

  ghost predicate EarlyRun(n: Node, fs: seq<Event>, n': Node) {
    if fs == [] then n' == n
    else
      var k := |fs| - 1;
      exists m: Node :: EarlyRun(n, fs[..k], m) && Enabled(m, fs[k]) && Early(m, fs[k]) && n' == Apply(m, fs[k])
  }

  lemma StepStaysOpen(n: Node, e: Event)
    requires Agreed(n.pair) && Enabled(n, e) && n.View().mode == Open && Early(n, e)
    ensures Apply(n, e).View().mode == Open && Apply(n, e).View().openedAt == n.View().openedAt
    ensures Apply(n, e).flight.Keys <= n.flight.Keys
  {
  }

  /**
   * An open breaker refuses every delivery that arrives before its timeout is up, however often the process is
   * restarted and the settings are changed, before or meanwhile, and whatever is still settling from before.
   */
  lemma {:induction false} OpenRefusesAcrossRestarts(settings: Settings, es: seq<Event>, n: Node,
                                                     fs: seq<Event>, n': Node)
    requires settings.Complete() && Run(Start(settings), es, n) && StoreStaysUp(es)
    requires n.View().mode == Open && EarlyRun(n, fs, n')
    ensures n'.View().mode == Open && n'.View().openedAt == n.View().openedAt
    ensures n'.flight.Keys <= n.flight.Keys
    ensures SlotsAccounted(n') && Agreed(n'.pair)
  {
    if fs == [] {
      AlwaysAgreed(settings, es, n);
    } else {
      var k := |fs| - 1;
      var m :| EarlyRun(n, fs[..k], m) && Enabled(m, fs[k]) && Early(m, fs[k]) && n' == Apply(m, fs[k]);
      OpenRefusesAcrossRestarts(settings, es, n, fs[..k], m);
      hide Run, EarlyRun, Apply, SlotsAccounted, Agreed;
      StepAccountsSlots(m, fs[k]);
      StepAgrees(m, fs[k]);
      StepStaysOpen(m, fs[k]);
    }
  }
}
