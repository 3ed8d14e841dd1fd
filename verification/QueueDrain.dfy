/** The loop a worker runs over its batch is a run of the queue: one clock tick and one settled head per item. */
module QueueDrain {
  import opened QueueWorker
  import opened QueueSystem

  /** What the world's moment makes of the item then at the head of a worker's hand. */
  function HeadEvent(w: nat, h: Hand, m: Moment): Event {
    if m.stopping then HandBackHead(w, m.storeUp)
    else if m.unreadable || !h.loaded then SettleHead(w, Unreadable("spool file could not be read"), m.storeUp)
    else SettleHead(w, Answer(m.cls, m.error, m.detail, m.skip), m.storeUp)
  }

  /** Worker w goes from s to s' through these moments, one item each, and nothing else happens. */
  ghost predicate Works(cfg: Config, s: State, w: nat, ms: seq<Moment>, s': State)
    requires s.WellFormed()
    ensures Works(cfg, s, w, ms, s') ==> s'.WellFormed()
  {
    if ms == [] then s' == s
    else
      var n := |ms| - 1;
      exists before: State ::
        && Works(cfg, s, w, ms[..n], before) && Enabled(cfg, before, Tick(ms[n].now)) && w in before.hands
        && var at, e := Apply(cfg, before, Tick(ms[n].now)), HeadEvent(w, before.hands[w], ms[n]);
           Enabled(cfg, at, e) && s' == Apply(cfg, at, e)
  }

  ghost predicate InOrder(from: nat, ms: seq<Moment>) {
    && (forall i :: 0 <= i < |ms| ==> from <= ms[i].now)
    && (forall i, j :: 0 <= i < j < |ms| ==> ms[i].now <= ms[j].now)
  }

  /** Where worker w stands when the first n items of the hand it had are done. */
  ghost predicate Done(s: State, w: nat, s': State, n: nat)
    requires w in s.hands && n <= |s.hands[w].items|
  {
    var items := s.hands[w].items;
    if n == |items| then s'.hands == s.hands - {w}
    else
      && s'.hands.Keys == s.hands.Keys && s'.hands - {w} == s.hands - {w}
      && s'.hands[w].items == items[n..] && (s'.hands[w].loaded <==> items[n].id in s'.disk.spool)
  }

  /** One item more. */
  lemma OneMoreHead(cfg: Config, s: State, w: nat, m: Moment) returns (s': State)
    requires s.WellFormed() && m.now >= s.now && w in s.hands && s.hands[w].items != []
    requires s.hands[w].loaded <==> s.hands[w].items[0].id in s.disk.spool
    ensures var at, e := Apply(cfg, s, Tick(m.now)), HeadEvent(w, s.hands[w], m);
            Enabled(cfg, s, Tick(m.now)) && Enabled(cfg, at, e) && s' == Apply(cfg, at, e)
    ensures s'.now == m.now && Done(s, w, s', 1)
    ensures s'.disk == StepItem(cfg.policy, cfg.releaseDelay, s.disk, s.hands[w].items[0], m)
  {
    hide Decide, AttemptFor, Record, Settle, HandBack;
    var e := HeadEvent(w, s.hands[w], m);
    s' := Apply(cfg, Apply(cfg, s, Tick(m.now)), e);
  }

  lemma WorksOn(cfg: Config, s: State, w: nat, ms: seq<Moment>, before: State, s': State)
    requires ms != [] && s.WellFormed() && Works(cfg, s, w, ms[..|ms| - 1], before) && w in before.hands
    requires var m := ms[|ms| - 1];
             && Enabled(cfg, before, Tick(m.now))
             && var at, e := Apply(cfg, before, Tick(m.now)), HeadEvent(w, before.hands[w], m);
                Enabled(cfg, at, e) && s' == Apply(cfg, at, e)
    ensures Works(cfg, s, w, ms, s')
  {
    hide Apply, Enabled, HeadEvent;
  }

  lemma DoneOn(s: State, w: nat, before: State, s': State, n: nat)
    requires w in s.hands && n < |s.hands[w].items| && Done(s, w, before, n) && Done(before, w, s', 1)
    ensures Done(s, w, s', n + 1)
  {
    assert s.hands[w].items[n..][1..] == s.hands[w].items[n + 1..];
    assert s'.hands - {w} == s.hands - {w};
  }

  lemma DrainedOn(cfg: Config, disk: Disk, items: seq<Item>, ms: seq<Moment>)
    requires ms != [] && disk.table.Valid() && |items| >= |ms|
    ensures var n := |ms| - 1;
            Drained(cfg.policy, cfg.releaseDelay, disk, items[..|ms|], ms) ==
            StepItem(cfg.policy, cfg.releaseDelay,
                     Drained(cfg.policy, cfg.releaseDelay, disk, items[..n], ms[..n]), items[n], ms[n])
  {
    assert items[..|ms|][..|ms| - 1] == items[..|ms| - 1];
  }

  /**
   * A batch drained as the loop drains it, the first |ms| items of it, is worker w going through the same moments
   * in the queue, to the same disk.
   */
  lemma {:induction false} DrainIsARun(cfg: Config, s: State, w: nat, ms: seq<Moment>) returns (s': State)
    requires s.WellFormed() && InOrder(s.now, ms)
    requires w in s.hands && |ms| <= |s.hands[w].items| && s.hands[w].items != []
    requires s.hands[w].loaded <==> s.hands[w].items[0].id in s.disk.spool
    ensures Works(cfg, s, w, ms, s') && Done(s, w, s', |ms|)
    ensures s'.now == if ms == [] then s.now else ms[|ms| - 1].now
    ensures s'.disk == Drained(cfg.policy, cfg.releaseDelay, s.disk, s.hands[w].items[..|ms|], ms)
  {
    if ms == [] {
      s' := s;
    } else {
      hide Works, Drained, StepItem, Apply, Enabled, HeadEvent;
      var n := |ms| - 1;
      var before := DrainIsARun(cfg, s, w, ms[..n]);
      s' := OneMoreHead(cfg, before, w, ms[n]);
      DoneOn(s, w, before, s', n);
      WorksOn(cfg, s, w, ms, before, s');
      DrainedOn(cfg, s.disk, s.hands[w].items, ms);
    }
  }

  /** The moments in which the worker was not told to stop. */
  function Going(ms: seq<Moment>): set<nat> {
    set i: nat | i < |ms| && !ms[i].stopping
  }

  lemma OneMoreGoing(ms: seq<Moment>)
    requires ms != []
    ensures var n := |ms| - 1;
            |Going(ms)| == |Going(ms[..n])| + (if ms[n].stopping then 0 else 1)
  {
    var n := |ms| - 1;
    assert Going(ms) == Going(ms[..n]) + (if ms[n].stopping then {} else {n});
  }

  /** The number the loop reports is how many items it processed. */
  lemma {:induction false} TakenCounts(ms: seq<Moment>)
    ensures Taken(ms) == |Going(ms)|
  {
    if ms != [] {
      var n := |ms| - 1;
      TakenCounts(ms[..n]);
      OneMoreGoing(ms);
      hide Going;
    }
  }
}
