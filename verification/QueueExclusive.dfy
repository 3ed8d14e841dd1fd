/** No delivery is in two live workers' hands, as long as a whole batch fits inside one claim. */
module QueueExclusive {
  import opened RetryPolicy
  import opened Deliveries
  import opened QueueWorker
  import opened QueueSystem

  /** The condition: the last item of a full batch is still done before its claim runs out. */
  predicate BatchFitsClaim(cfg: Config) {
    cfg.batch * cfg.deliverTimeout <= cfg.claimTimeout
  }

  predicate InHand(s: State, w: nat, i: int) {
    w in s.hands && 0 <= i < |s.hands[w].items|
  }

  /** The row is in flight under exactly this worker's claim, and the worker's copy of it is current. */
  predicate Held(s: State, w: nat, i: int)
    requires InHand(s, w, i)
  {
    var h, item := s.hands[w], s.hands[w].items[i];
    item.id in s.Rows() &&
    var r := s.Rows()[item.id];
    r.status == Sending && r.claimedAt == h.claimedAt && r.nextAttemptAt <= h.claimedAt &&
    r.attempts == item.attempts && r.createdAt == item.createdAt
  }

  /** The worker's copy is current, of a row that is still pending and was due. */
  predicate Copied(s: State, w: nat, i: int)
    requires InHand(s, w, i)
  {
    var item := s.hands[w].items[i];
    item.id in s.Rows() &&
    var r := s.Rows()[item.id];
    !Terminal(r) && r.nextAttemptAt <= s.now && r.attempts == item.attempts && r.createdAt == item.createdAt
  }

  ghost predicate AllCopied(s: State) {
    forall w, i :: InHand(s, w, i) ==> Copied(s, w, i)
  }

  ghost predicate AllHeld(s: State) {
    forall w, i :: InHand(s, w, i) ==> Held(s, w, i)
  }

  ghost predicate OneHandEach(s: State) {
    forall w, i, x, j :: InHand(s, w, i) && InHand(s, x, j) && s.hands[w].items[i].id == s.hands[x].items[j].id ==>
                           w == x && i == j
  }

  /** Where a worker is within its claim: each item finished so far took at most one deliver timeout. */
  predicate HandInTime(cfg: Config, now: Time, h: Hand) {
    && 1 <= |h.items| <= cfg.batch
    && 0 < h.claimedAt <= h.startedAt <= now <= h.startedAt + cfg.deliverTimeout
    && h.startedAt <= h.claimedAt + (cfg.batch - |h.items|) * cfg.deliverTimeout
  }

  /** A row in flight says since when, so the sweep can find it, and was due by then. */
  ghost predicate Stamped(rows: map<Id, Row>) {
    forall id :: id in rows && rows[id].status == Sending ==>
                   rows[id].claimedAt > 0 && rows[id].nextAttemptAt <= rows[id].claimedAt
  }

  ghost predicate Exclusive(cfg: Config, s: State) {
    && s.WellFormed() && s.now >= 1
    && (forall w :: w in s.hands ==> HandInTime(cfg, s.now, s.hands[w]))
    && AllHeld(s) && OneHandEach(s)
    && Stamped(s.Rows())
  }

  // ------------------------------------------------------------ creation

  ghost predicate CreatedInPast(s: State) {
    forall id :: id in s.Rows() ==> s.Rows()[id].createdAt <= s.now
  }

  lemma RecordKeepsCreated(t: Table, item: Item, d: Decision, a: Attempt, now: Time)
    requires t.Valid()
    ensures forall id :: id in t.rows ==> Record(t, item, d, a, now).rows[id].createdAt == t.rows[id].createdAt
  {
  }

  lemma SettleKeepsCreated(cfg: Config, s: State, e: Event)
    requires s.WellFormed() && CreatedInPast(s) && Enabled(cfg, s, e) && e.SettleHead?
    ensures CreatedInPast(Apply(cfg, s, e))
  {
    var item := s.hands[e.worker].items[0];
    var d, a := Decide(cfg.policy, cfg.releaseDelay, item, e.verdict, s.now), AttemptFor(item, e.verdict, s.now);
    hide Decide, AttemptFor;
    RecordKeepsCreated(s.disk.table, item, d, a, s.now);
    var s' := Apply(cfg, s, e);
    assert s'.disk.table == if e.storeUp then Record(s.disk.table, item, d, a, s.now) else s.disk.table;
    hide Record, Settle, Apply;
    forall id | id in s'.Rows()
      ensures s'.Rows()[id].createdAt <= s'.now
    {
      assert id in s.Rows();
    }
  }

  lemma CreatedStaysInPast(cfg: Config, s: State, e: Event)
    requires s.WellFormed() && CreatedInPast(s) && Enabled(cfg, s, e)
    ensures CreatedInPast(Apply(cfg, s, e))
  {
    if e.SettleHead? {
      SettleKeepsCreated(cfg, s, e);
    } else {
      hide Settle;
      var s' := Apply(cfg, s, e);
      forall id | id in s'.Rows()
        ensures s'.Rows()[id].createdAt <= s'.now
      {
        if id in s.Rows() && !e.InsertRows? {
          assert s'.Rows()[id].createdAt == s.Rows()[id].createdAt;
        }
      }
    }
  }

  // -------------------------------------------------------------- timing

  /** A worker on schedule is inside its claim however far through the batch it is. */
  lemma WithinClaim(cfg: Config, now: Time, h: Hand)
    requires BatchFitsClaim(cfg) && HandInTime(cfg, now, h)
    ensures now <= h.claimedAt + cfg.claimTimeout
  {
    var n, d := |h.items|, cfg.deliverTimeout;
    assert (cfg.batch - n) * d + d == (cfg.batch - n + 1) * d;
    assert (cfg.batch - n + 1) * d <= cfg.batch * d;
  }

  /** Moving on to the next item keeps the schedule. */
  lemma NextInTime(cfg: Config, now: Time, h: Hand, loaded: bool)
    requires HandInTime(cfg, now, h) && |h.items| > 1
    ensures HandInTime(cfg, now, Hand(h.claimedAt, now, loaded, h.items[1..]))
  {
    var n, d := |h.items|, cfg.deliverTimeout;
    assert (cfg.batch - n) * d + d == (cfg.batch - (n - 1)) * d;
  }

  // --------------------------------------------------------------- steps

  /** A step that only drops hands, and leaves every row still in one alone, keeps the claims exclusive. */
  lemma FewerHands(cfg: Config, s: State, s': State)
    requires Exclusive(cfg, s) && s'.WellFormed() && s'.now == s.now
    requires forall w :: w in s'.hands ==> w in s.hands && s'.hands[w] == s.hands[w]
    requires forall w, i :: InHand(s', w, i) ==>
               s'.hands[w].items[i].id in s'.Rows() && s'.hands[w].items[i].id in s.Rows() &&
               s'.Rows()[s'.hands[w].items[i].id] == s.Rows()[s'.hands[w].items[i].id]
    requires Stamped(s'.Rows())
    ensures Exclusive(cfg, s')
  {
    forall w, i | InHand(s', w, i)
      ensures Held(s', w, i)
    {
      assert InHand(s, w, i) && Held(s, w, i);
    }
    forall w, i, x, j | InHand(s', w, i) && InHand(s', x, j) && s'.hands[w].items[i].id == s'.hands[x].items[j].id
      ensures w == x && i == j
    {
      assert InHand(s, w, i) && InHand(s, x, j);
    }
  }

  /** A worker writes its head item's row, whatever it writes, and moves on. */
  lemma HeadWritten(cfg: Config, s: State, s': State, w: nat)
    requires Exclusive(cfg, s) && s'.WellFormed() && s'.now == s.now && InHand(s, w, 0)
    requires s'.hands == NextItem(s, s'.disk.spool, w)
    requires forall id :: id in s.Rows() && id != s.hands[w].items[0].id ==>
               id in s'.Rows() && s'.Rows()[id] == s.Rows()[id]
    requires Stamped(s'.Rows())
    ensures Exclusive(cfg, s')
  {
    if |s.hands[w].items| > 1 {
      NextInTime(cfg, s.now, s.hands[w], s'.hands[w].loaded);
    }
    forall x, i | InHand(s', x, i)
      ensures Held(s', x, i)
    {
      var i0 := if x == w then i + 1 else i;
      assert InHand(s, x, i0) && Held(s, x, i0);
      assert s'.hands[x].items[i] == s.hands[x].items[i0];
      assert s'.hands[x].items[i].id != s.hands[w].items[0].id;
    }
    forall x, i, y, j | InHand(s', x, i) && InHand(s', y, j) && s'.hands[x].items[i].id == s'.hands[y].items[j].id
      ensures x == y && i == j
    {
      var i0, j0 := if x == w then i + 1 else i, if y == w then j + 1 else j;
      assert InHand(s, x, i0) && InHand(s, y, j0);
      assert s'.hands[x].items[i] == s.hands[x].items[i0] && s'.hands[y].items[j] == s.hands[y].items[j0];
    }
  }

  lemma SettleKeepsExclusive(cfg: Config, s: State, w: nat, v: Verdict, storeUp: bool)
    requires Exclusive(cfg, s) && Enabled(cfg, s, SettleHead(w, v, storeUp))
    ensures Exclusive(cfg, Apply(cfg, s, SettleHead(w, v, storeUp)))
  {
    assert InHand(s, w, 0) && Held(s, w, 0);
    HeadWritten(cfg, s, Apply(cfg, s, SettleHead(w, v, storeUp)), w);
  }

  lemma HandBackKeepsExclusive(cfg: Config, s: State, w: nat, storeUp: bool)
    requires Exclusive(cfg, s) && Enabled(cfg, s, HandBackHead(w, storeUp))
    ensures Exclusive(cfg, Apply(cfg, s, HandBackHead(w, storeUp)))
  {
    assert InHand(s, w, 0) && Held(s, w, 0);
    HeadWritten(cfg, s, Apply(cfg, s, HandBackHead(w, storeUp)), w);
  }

  /** What a claim leaves in each hand: the new batch in its own, none of the batch in any other. */
  lemma ClaimHolds(cfg: Config, s: State, w: nat, ids: seq<Id>, x: nat, i: int)
    requires Exclusive(cfg, s) && Enabled(cfg, s, TakeBatch(w, ids))
    requires InHand(Apply(cfg, s, TakeBatch(w, ids)), x, i)
    ensures var s' := Apply(cfg, s, TakeBatch(w, ids));
            && Held(s', x, i)
            && (x == w ==> i < |ids| && s'.hands[x].items[i].id == ids[i])
            && (x != w ==> InHand(s, x, i) && s'.hands[x] == s.hands[x] && s.hands[x].items[i].id !in ids)
  {
    if x == w {
      assert Due(s.Rows(), ids[i], s.now) && ids[i] in ids;
    } else {
      assert InHand(s, x, i) && Held(s, x, i);
    }
  }

  lemma ClaimStamps(cfg: Config, s: State, w: nat, ids: seq<Id>)
    requires Exclusive(cfg, s) && Enabled(cfg, s, TakeBatch(w, ids))
    ensures Stamped(Apply(cfg, s, TakeBatch(w, ids)).Rows())
  {
    forall id | id in ids
      ensures Due(s.Rows(), id, s.now)
    {
      var i :| 0 <= i < |ids| && ids[i] == id;
    }
  }

  lemma ClaimOneHandEach(cfg: Config, s: State, w: nat, ids: seq<Id>, x: nat, i: int, y: nat, j: int)
    requires Exclusive(cfg, s) && Enabled(cfg, s, TakeBatch(w, ids))
    requires var s' := Apply(cfg, s, TakeBatch(w, ids));
             InHand(s', x, i) && InHand(s', y, j) && s'.hands[x].items[i].id == s'.hands[y].items[j].id
    ensures x == y && i == j
  {
    assert Distinct(ids);
    ClaimHolds(cfg, s, w, ids, x, i);
    ClaimHolds(cfg, s, w, ids, y, j);
    hide Apply, Enabled, Held, Stamped, Claimable;
  }

  /** A batch just claimed is on schedule. */
  lemma FreshInTime(cfg: Config, now: Time, h: Hand)
    requires now > 0 && h.claimedAt == h.startedAt == now && 1 <= |h.items| <= cfg.batch
    ensures HandInTime(cfg, now, h)
  {
    assert (cfg.batch - |h.items|) * cfg.deliverTimeout >= 0;
  }

  lemma ClaimInTime(cfg: Config, s: State, w: nat, ids: seq<Id>)
    requires Exclusive(cfg, s) && Enabled(cfg, s, TakeBatch(w, ids))
    ensures var s' := Apply(cfg, s, TakeBatch(w, ids));
            forall x :: x in s'.hands ==> HandInTime(cfg, s'.now, s'.hands[x])
  {
    hide HandInTime, AllHeld, OneHandEach, Stamped;
    FreshInTime(cfg, s.now, Apply(cfg, s, TakeBatch(w, ids)).hands[w]);
  }

  lemma ClaimKeepsExclusive(cfg: Config, s: State, w: nat, ids: seq<Id>)
    requires cfg.Valid() && Exclusive(cfg, s) && Enabled(cfg, s, TakeBatch(w, ids))
    ensures Exclusive(cfg, Apply(cfg, s, TakeBatch(w, ids)))
  {
    var s' := Apply(cfg, s, TakeBatch(w, ids));
    assert s'.now == s.now && s'.WellFormed();
    hide Apply, Enabled, Held, Stamped, HandInTime;
    ClaimInTime(cfg, s, w, ids);
    ClaimStamps(cfg, s, w, ids);
    forall x, i | InHand(s', x, i)
      ensures Held(s', x, i)
    {
      ClaimHolds(cfg, s, w, ids, x, i);
    }
    forall x, i, y, j | InHand(s', x, i) && InHand(s', y, j) && s'.hands[x].items[i].id == s'.hands[y].items[j].id
      ensures x == y && i == j
    {
      ClaimOneHandEach(cfg, s, w, ids, x, i, y, j);
    }
  }

  lemma SweepKeepsExclusive(cfg: Config, s: State)
    requires Exclusive(cfg, s) && BatchFitsClaim(cfg)
    ensures Exclusive(cfg, Apply(cfg, s, Sweep))
  {
    var s' := Apply(cfg, s, Sweep);
    forall w, i | InHand(s', w, i)
      ensures s'.hands[w].items[i].id in s'.Rows() && s'.hands[w].items[i].id in s.Rows()
      ensures s'.Rows()[s'.hands[w].items[i].id] == s.Rows()[s'.hands[w].items[i].id]
    {
      assert InHand(s, w, i) && Held(s, w, i);
      WithinClaim(cfg, s.now, s.hands[w]);
    }
    FewerHands(cfg, s, s');
  }

  lemma TickKeepsExclusive(cfg: Config, s: State, to: Time)
    requires Exclusive(cfg, s) && Enabled(cfg, s, Tick(to)) && OnTime(cfg, s, Tick(to))
    ensures Exclusive(cfg, Apply(cfg, s, Tick(to)))
  {
    var s' := Apply(cfg, s, Tick(to));
    forall w, i | InHand(s', w, i)
      ensures Held(s', w, i)
    {
      assert InHand(s, w, i) && Held(s, w, i);
    }
    forall w, i, x, j | InHand(s', w, i) && InHand(s', x, j) && s'.hands[w].items[i].id == s'.hands[x].items[j].id
      ensures w == x && i == j
    {
      assert InHand(s, w, i) && InHand(s, x, j);
    }
  }

  /** Enqueues, operators, retention and crashes never touch a row in flight. */
  lemma OthersKeepExclusive(cfg: Config, s: State, e: Event)
    requires Exclusive(cfg, s) && Enabled(cfg, s, e)
    requires e.PutBody? || e.DropBody? || e.InsertRows? || e.Crash? || e.Replay? || e.PruneRows? || e.PruneBodies?
    ensures Exclusive(cfg, Apply(cfg, s, e))
  {
    var s' := Apply(cfg, s, e);
    forall w, i | InHand(s', w, i)
      ensures s'.hands[w].items[i].id in s'.Rows() && s'.hands[w].items[i].id in s.Rows()
      ensures s'.Rows()[s'.hands[w].items[i].id] == s.Rows()[s'.hands[w].items[i].id]
    {
      assert InHand(s, w, i) && Held(s, w, i);
    }
    FewerHands(cfg, s, s');
  }

  lemma StepKeepsExclusive(cfg: Config, s: State, e: Event)
    requires cfg.Valid() && BatchFitsClaim(cfg)
    requires Exclusive(cfg, s) && Enabled(cfg, s, e) && OnTime(cfg, s, e)
    ensures Exclusive(cfg, Apply(cfg, s, e))
  {
    match e {
      case Tick(to) => TickKeepsExclusive(cfg, s, to);
      case TakeBatch(w, ids) => ClaimKeepsExclusive(cfg, s, w, ids);
      case SettleHead(w, v, storeUp) => SettleKeepsExclusive(cfg, s, w, v, storeUp);
      case HandBackHead(w, storeUp) => HandBackKeepsExclusive(cfg, s, w, storeUp);
      case Sweep => SweepKeepsExclusive(cfg, s);
      case _ => OthersKeepExclusive(cfg, s, e);
    }
  }

  /**
   * In every timely run every live worker holds the current claim of every delivery still in its hands, and
   * no delivery is in hand twice.
   */
  lemma {:induction false} ClaimsAreExclusive(cfg: Config, es: seq<Event>, s: State)
    requires cfg.Valid() && BatchFitsClaim(cfg) && Run(cfg, es, true, s)
    ensures Exclusive(cfg, s)
  {
    if es != [] {
      var n := |es| - 1;
      var before :| Run(cfg, es[..n], true, before) && Enabled(cfg, before, es[n]) &&
                    OnTime(cfg, before, es[n]) && s == Apply(cfg, before, es[n]);
      ClaimsAreExclusive(cfg, es[..n], before);
      StepKeepsExclusive(cfg, before, es[n]);
    }
  }
}
