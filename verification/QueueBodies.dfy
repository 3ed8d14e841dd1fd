/** When exactly every delivery that may still be sent, or replayed, has its body. */
module QueueBodies {
  import opened Channel
  import opened RetryPolicy
  import opened Deliveries
  import opened QueueWorker
  import opened QueueSystem
  import opened QueueExclusive
  import opened QueueFinality

  /** Every row that may still be sent, or replayed, has its body, until the body outlives its retention. */
  ghost predicate BodiesKept(cfg: Config, s: State) {
    s.WellFormed() && forall id :: id in s.Rows() && s.Rows()[id].status != Delivered ==> BodyKept(cfg, s, id)
  }

  predicate BodyKept(cfg: Config, s: State, id: Id)
    requires id in s.Rows()
  {
    if id in s.disk.spool then s.Rows()[id].createdAt <= s.disk.spool[id].modified else Outlived(cfg, s, id)
  }

  /** Spool retention may have run on whatever was written when the row was. */
  predicate Outlived(cfg: Config, s: State, id: Id)
    requires id in s.Rows()
  {
    s.Rows()[id].createdAt + cfg.failedRetention < s.now
  }

  /** A body is written before its row. */
  ghost predicate Dated(s: State) {
    s.WellFormed() && forall id :: id in s.Rows() && id in s.disk.spool ==>
                                     s.Rows()[id].createdAt <= s.disk.spool[id].modified
  }

  /** A sent delivery that a worker still holds, and could bring back, has outlived its body's retention. */
  ghost predicate OnlyOldSentHeld(cfg: Config, s: State) {
    forall w, i :: InHand(s, w, i) && Sent(s, s.hands[w].items[i].id) ==> Outlived(cfg, s, s.hands[w].items[i].id)
  }

  predicate Sent(s: State, id: Id) {
    id in s.Rows() && s.Rows()[id].status == Delivered
  }

  // ------------------------------------------------------------ every step

  lemma StepKeepsDated(cfg: Config, s: State, e: Event)
    requires Dated(s) && Enabled(cfg, s, e)
    ensures Dated(Apply(cfg, s, e))
  {
    if e.SettleHead? {
      SettleKeepsDated(cfg, s, e);
    } else {
      hide Settle;
    }
  }

  lemma SettleKeepsDated(cfg: Config, s: State, e: Event)
    requires Dated(s) && Enabled(cfg, s, e) && e.SettleHead?
    ensures Dated(Apply(cfg, s, e))
  {
    var item := s.hands[e.worker].items[0];
    var d, a := Decide(cfg.policy, cfg.releaseDelay, item, e.verdict, s.now), AttemptFor(item, e.verdict, s.now);
    hide Decide, AttemptFor;
    RecordKeepsCreated(s.disk.table, item, d, a, s.now);
    hide Record;
  }

  lemma SettleKeepsBodies(cfg: Config, s: State, e: Event)
    requires Dated(s) && BodiesKept(cfg, s) && OnlyOldSentHeld(cfg, s)
    requires Enabled(cfg, s, e) && !LosesRecord(e) && (e.SettleHead? || e.HandBackHead?)
    ensures BodiesKept(cfg, Apply(cfg, s, e))
  {
    var s' := Apply(cfg, s, e);
    assert InHand(s, e.worker, 0);
    forall id | id in s'.Rows() && s'.Rows()[id].status != Delivered
      ensures BodyKept(cfg, s', id)
    {
      assert id in s.Rows() && s'.Rows()[id].createdAt == s.Rows()[id].createdAt;
      if s.Rows()[id].status != Delivered {
        assert BodyKept(cfg, s, id);
      }
    }
  }

  lemma ClaimKeepsBodies(cfg: Config, s: State, e: Event)
    requires BodiesKept(cfg, s) && Enabled(cfg, s, e) && e.TakeBatch?
    ensures BodiesKept(cfg, Apply(cfg, s, e))
  {
    var s' := Apply(cfg, s, e);
    forall id | id in s'.Rows() && s'.Rows()[id].status != Delivered
      ensures BodyKept(cfg, s', id)
    {
      if id in e.ids {
        var i :| 0 <= i < |e.ids| && e.ids[i] == id;
        assert Due(s.Rows(), e.ids[i], s.now);
      }
      assert s'.Rows()[id].createdAt == s.Rows()[id].createdAt && BodyKept(cfg, s, id);
    }
  }

  lemma OtherStepsKeepBodies(cfg: Config, s: State, e: Event)
    requires BodiesKept(cfg, s) && Enabled(cfg, s, e) && !e.SettleHead? && !e.HandBackHead? && !e.TakeBatch?
    ensures BodiesKept(cfg, Apply(cfg, s, e))
  {
    hide Settle, HandBack, Deliveries.Claim;
    var s' := Apply(cfg, s, e);
    forall id | id in s'.Rows() && s'.Rows()[id].status != Delivered
      ensures BodyKept(cfg, s', id)
    {
      if id in s.Rows() && !(e.InsertRows? && id in e.ids) {
        assert s'.Rows()[id].createdAt == s.Rows()[id].createdAt && BodyKept(cfg, s, id);
      }
    }
  }

  lemma StepKeepsBodies(cfg: Config, s: State, e: Event)
    requires Dated(s) && BodiesKept(cfg, s) && OnlyOldSentHeld(cfg, s) && Enabled(cfg, s, e) && !LosesRecord(e)
    ensures Dated(Apply(cfg, s, e)) && BodiesKept(cfg, Apply(cfg, s, e))
  {
    StepKeepsDated(cfg, s, e);
    if e.SettleHead? || e.HandBackHead? {
      SettleKeepsBodies(cfg, s, e);
    } else if e.TakeBatch? {
      ClaimKeepsBodies(cfg, s, e);
    } else {
      OtherStepsKeepBodies(cfg, s, e);
    }
  }

  // ------------------------------------------------- a claim outlives the body

  /** Too young for any claim on it to have run out. */
  predicate Young(cfg: Config, s: State, id: Id) {
    id in s.Rows() && s.now <= s.Rows()[id].createdAt + cfg.claimTimeout
  }

  predicate HeldOnce(s: State, w: nat, i: int, x: nat, j: int)
    requires InHand(s, w, i) && InHand(s, x, j)
  {
    s.hands[w].items[i].id == s.hands[x].items[j].id ==> w == x && i == j
  }

  /** Whatever the timeouts, a young delivery is in one worker's hands at most, and in flight while it is. */
  ghost predicate YoungHeld(cfg: Config, s: State) {
    && s.WellFormed() && CreatedInPast(s)
    && (forall id :: id in s.Rows() && s.Rows()[id].status == Sending ==>
          s.Rows()[id].claimedAt >= s.Rows()[id].createdAt)
    && (forall w, i :: InHand(s, w, i) && Young(cfg, s, s.hands[w].items[i].id) ==>
          s.Rows()[s.hands[w].items[i].id].status == Sending)
    && (forall w, i, x, j :: InHand(s, w, i) && InHand(s, x, j) && Young(cfg, s, s.hands[w].items[i].id) ==>
          HeldOnce(s, w, i, x, j))
  }

  /** A step that hands nothing out, and leaves every young row in flight so, keeps young deliveries held once. */
  lemma YoungStayHeld(cfg: Config, s: State, s': State)
    requires YoungHeld(cfg, s) && s'.WellFormed() && CreatedInPast(s') && s'.now >= s.now
    requires forall w :: w in s'.hands ==> w in s.hands && s'.hands[w] == s.hands[w]
    requires forall w, i :: InHand(s, w, i) && Young(cfg, s', s.hands[w].items[i].id) ==>
               && s.hands[w].items[i].id in s.Rows()
               && s'.Rows()[s.hands[w].items[i].id].createdAt == s.Rows()[s.hands[w].items[i].id].createdAt
               && (s.Rows()[s.hands[w].items[i].id].status == Sending ==>
                     s'.Rows()[s.hands[w].items[i].id].status == Sending)
    requires forall id :: id in s'.Rows() && s'.Rows()[id].status == Sending ==>
               s'.Rows()[id].claimedAt >= s'.Rows()[id].createdAt
    ensures YoungHeld(cfg, s')
  {
    forall w, i | InHand(s', w, i) && Young(cfg, s', s'.hands[w].items[i].id)
      ensures s'.Rows()[s'.hands[w].items[i].id].status == Sending
    {
      assert InHand(s, w, i) && Young(cfg, s, s.hands[w].items[i].id);
    }
    forall w, i, x, j | InHand(s', w, i) && InHand(s', x, j) && Young(cfg, s', s'.hands[w].items[i].id)
      ensures HeldOnce(s', w, i, x, j)
    {
      assert InHand(s, w, i) && InHand(s, x, j) && Young(cfg, s, s.hands[w].items[i].id) && HeldOnce(s, w, i, x, j);
    }
  }

  /** A worker writes its head item's row and moves on; nobody else held that one if it is young. */
  lemma HeadWrittenYoung(cfg: Config, s: State, s': State, w: nat)
    requires YoungHeld(cfg, s) && s'.WellFormed() && CreatedInPast(s') && s'.now == s.now && InHand(s, w, 0)
    requires s'.hands == NextItem(s, s'.disk.spool, w)
    requires forall id :: id in s'.Rows() ==> id in s.Rows() && s'.Rows()[id].createdAt == s.Rows()[id].createdAt
    requires forall id :: id in s'.Rows() && id != s.hands[w].items[0].id ==> s'.Rows()[id] == s.Rows()[id]
    requires forall id :: id in s'.Rows() && s'.Rows()[id].status == Sending ==>
               s'.Rows()[id].claimedAt >= s'.Rows()[id].createdAt
    ensures YoungHeld(cfg, s')
  {
    forall x, i | InHand(s', x, i) && Young(cfg, s', s'.hands[x].items[i].id)
      ensures s'.Rows()[s'.hands[x].items[i].id].status == Sending
    {
      var i0 := if x == w then i + 1 else i;
      assert InHand(s, x, i0) && s'.hands[x].items[i] == s.hands[x].items[i0];
      assert Young(cfg, s, s.hands[x].items[i0].id) && HeldOnce(s, x, i0, w, 0);
    }
    forall x, i, y, j | InHand(s', x, i) && InHand(s', y, j) && Young(cfg, s', s'.hands[x].items[i].id)
      ensures HeldOnce(s', x, i, y, j)
    {
      var i0, j0 := if x == w then i + 1 else i, if y == w then j + 1 else j;
      assert InHand(s, x, i0) && InHand(s, y, j0);
      assert s'.hands[x].items[i] == s.hands[x].items[i0] && s'.hands[y].items[j] == s.hands[y].items[j0];
      assert Young(cfg, s, s.hands[x].items[i0].id) && HeldOnce(s, x, i0, y, j0);
    }
  }

  lemma RecordKeepsClaims(t: Table, item: Item, d: Decision, a: Attempt, now: Time)
    requires t.Valid()
    requires forall id :: id in t.rows && t.rows[id].status == Sending ==> t.rows[id].claimedAt >= t.rows[id].createdAt
    ensures var rows := Record(t, item, d, a, now).rows;
            forall id :: id in rows && rows[id].status == Sending ==> rows[id].claimedAt >= rows[id].createdAt
  {
  }

  lemma SettleKeepsYoung(cfg: Config, s: State, e: Event)
    requires YoungHeld(cfg, s) && Enabled(cfg, s, e) && e.SettleHead?
    ensures YoungHeld(cfg, Apply(cfg, s, e))
  {
    CreatedStaysInPast(cfg, s, e);
    assert InHand(s, e.worker, 0);
    var item := s.hands[e.worker].items[0];
    var d, a := Decide(cfg.policy, cfg.releaseDelay, item, e.verdict, s.now), AttemptFor(item, e.verdict, s.now);
    hide Decide, AttemptFor;
    RecordKeepsCreated(s.disk.table, item, d, a, s.now);
    RecordKeepsClaims(s.disk.table, item, d, a, s.now);
    hide YoungHeld, CreatedInPast;
    HeadWrittenYoung(cfg, s, Apply(cfg, s, e), e.worker);
  }

  lemma HandBackKeepsYoung(cfg: Config, s: State, e: Event)
    requires YoungHeld(cfg, s) && Enabled(cfg, s, e) && e.HandBackHead?
    ensures YoungHeld(cfg, Apply(cfg, s, e))
  {
    CreatedStaysInPast(cfg, s, e);
    assert InHand(s, e.worker, 0);
    var s' := Apply(cfg, s, e);
    assert forall id :: id in s'.Rows() && s'.Rows()[id].status == Sending ==>
                          s'.Rows()[id].claimedAt >= s'.Rows()[id].createdAt;
    hide YoungHeld, CreatedInPast;
    HeadWrittenYoung(cfg, s, s', e.worker);
  }

  lemma ClaimKeepsYoung(cfg: Config, s: State, e: Event)
    requires YoungHeld(cfg, s) && Enabled(cfg, s, e) && e.TakeBatch?
    ensures YoungHeld(cfg, Apply(cfg, s, e))
  {
    var s' := Apply(cfg, s, e);
    CreatedStaysInPast(cfg, s, e);
    forall x, i | InHand(s', x, i)
      ensures x == e.worker ==> i < |e.ids| && s'.hands[x].items[i].id == e.ids[i]
      ensures x == e.worker ==> s'.Rows()[s'.hands[x].items[i].id].status == Sending
      ensures x != e.worker ==> InHand(s, x, i) && s'.hands[x] == s.hands[x]
      ensures x != e.worker && Young(cfg, s', s'.hands[x].items[i].id) ==>
                s'.hands[x].items[i].id !in e.ids && Young(cfg, s, s.hands[x].items[i].id)
    {
      if x == e.worker {
        assert Due(s.Rows(), e.ids[i], s.now) && e.ids[i] in e.ids;
      } else {
        assert InHand(s, x, i);
        var id := s.hands[x].items[i].id;
        if id in e.ids {
          var n :| 0 <= n < |e.ids| && e.ids[n] == id;
          assert Due(s.Rows(), e.ids[n], s.now);
        }
      }
    }
    forall x, i, y, j | InHand(s', x, i) && InHand(s', y, j) && Young(cfg, s', s'.hands[x].items[i].id)
      ensures HeldOnce(s', x, i, y, j)
    {
      if x != e.worker && y != e.worker {
        assert HeldOnce(s, x, i, y, j);
      }
    }
  }

  /** The sweep only takes back what has been claimed for a whole claim timeout. */
  lemma SweepKeepsYoung(cfg: Config, s: State)
    requires YoungHeld(cfg, s)
    ensures YoungHeld(cfg, Apply(cfg, s, Sweep))
  {
    CreatedStaysInPast(cfg, s, Sweep);
    YoungStayHeld(cfg, s, Apply(cfg, s, Sweep));
  }

  /** New identifiers are in nobody's hands. */
  lemma NewRowsKeepYoung(cfg: Config, s: State, e: Event)
    requires YoungHeld(cfg, s) && Enabled(cfg, s, e) && e.InsertRows?
    ensures YoungHeld(cfg, Apply(cfg, s, e))
  {
    CreatedStaysInPast(cfg, s, e);
    hide CreatedInPast;
    YoungStayHeld(cfg, s, Apply(cfg, s, e));
  }

  lemma OtherStepsKeepYoung(cfg: Config, s: State, e: Event)
    requires YoungHeld(cfg, s) && Enabled(cfg, s, e)
    requires !e.SettleHead? && !e.HandBackHead? && !e.TakeBatch? && !e.Sweep? && !e.InsertRows?
    ensures YoungHeld(cfg, Apply(cfg, s, e))
  {
    CreatedStaysInPast(cfg, s, e);
    hide Settle, HandBack, Deliveries.Claim, RecoverOrphans, Insert, CreatedInPast;
    YoungStayHeld(cfg, s, Apply(cfg, s, e));
  }

  lemma StepKeepsYoung(cfg: Config, s: State, e: Event)
    requires YoungHeld(cfg, s) && Enabled(cfg, s, e)
    ensures YoungHeld(cfg, Apply(cfg, s, e))
  {
    hide YoungHeld, Apply;
    match e {
      case SettleHead(_, _, _) => SettleKeepsYoung(cfg, s, e);
      case HandBackHead(_, _) => HandBackKeepsYoung(cfg, s, e);
      case TakeBatch(_, _) => ClaimKeepsYoung(cfg, s, e);
      case Sweep => SweepKeepsYoung(cfg, s);
      case InsertRows(_, _) => NewRowsKeepYoung(cfg, s, e);
      case _ => OtherStepsKeepYoung(cfg, s, e);
    }
  }

  lemma {:induction false} AlwaysYoungHeld(cfg: Config, es: seq<Event>, timely: bool, s: State)
    requires Run(cfg, es, timely, s)
    ensures YoungHeld(cfg, s)
  {
    if es != [] {
      var n := |es| - 1;
      var before :| Run(cfg, es[..n], timely, before) && Enabled(cfg, before, es[n]) && s == Apply(cfg, before, es[n]);
      AlwaysYoungHeld(cfg, es[..n], timely, before);
      hide YoungHeld, Run, Apply;
      StepKeepsYoung(cfg, before, es[n]);
    }
  }

  // ------------------------------------------------------------- the theorem

  /** A sent delivery stays sent, or by the time it can come back its body's retention is over. */
  predicate KeepsBodies(cfg: Config) {
    cfg.workers == 1 || BatchFitsClaim(cfg) || cfg.failedRetention <= cfg.claimTimeout
  }

  lemma SentHeldAreOld(cfg: Config, es: seq<Event>, s: State)
    requires cfg.Valid() && KeepsBodies(cfg) && Run(cfg, es, true, s)
    ensures OnlyOldSentHeld(cfg, s)
  {
    if cfg.workers == 1 || BatchFitsClaim(cfg) {
      CopiesAreCurrent(cfg, es, s);
      hide Run;
      assert forall w, i :: InHand(s, w, i) ==> Copied(s, w, i);
    } else {
      AlwaysYoungHeld(cfg, es, true, s);
      hide Run;
      forall w, i | InHand(s, w, i) && Sent(s, s.hands[w].items[i].id)
        ensures Outlived(cfg, s, s.hands[w].items[i].id)
      {
        assert !Young(cfg, s, s.hands[w].items[i].id);
      }
    }
  }

  lemma {:induction false} BodiesStay(cfg: Config, es: seq<Event>, s: State)
    requires cfg.Valid() && KeepsBodies(cfg) && Run(cfg, es, true, s) && NeverLosesRecord(es)
    ensures Dated(s) && BodiesKept(cfg, s)
  {
    if es != [] {
      var n := |es| - 1;
      var before :| Run(cfg, es[..n], true, before) && Enabled(cfg, before, es[n]) && s == Apply(cfg, before, es[n]);
      BodiesStay(cfg, es[..n], before);
      SentHeldAreOld(cfg, es[..n], before);
      hide Run, Apply, Dated, BodiesKept, OnlyOldSentHeld;
      StepKeepsBodies(cfg, before, es[n]);
    }
  }

  /** Every timely run that writes every completion keeps the bodies. */
  ghost predicate BodiesAlwaysKept(cfg: Config) {
    forall s: State :: Lossless(cfg, s) ==> BodiesKept(cfg, s)
  }

  /** The stale answer that brings a sent delivery back brings it back without its body. */
  lemma BodyGone(cfg: Config)
    requires cfg.Valid() && !KeepsBodies(cfg)
    ensures !BodiesAlwaysKept(cfg)
  {
    var s, e, id := StaleFinish(cfg);
    StepIsLossless(cfg, s, e);
    var s' := Apply(cfg, s, e);
    hide Lossless;
    assert id !in s'.disk.spool;
    assert !BodyKept(cfg, s', id);
  }

  /**
   * As long as every completion is written, every delivery that may still be sent or replayed has its body, for
   * as long as failed ones are retained, exactly when there is one worker, or a batch fits in a claim, or the
   * retention does not outlast a claim.
   */
  lemma BodiesKeptExactly(cfg: Config)
    requires cfg.Valid()
    ensures BodiesAlwaysKept(cfg) <==>
            cfg.workers == 1 || BatchFitsClaim(cfg) || cfg.failedRetention <= cfg.claimTimeout
  {
    if KeepsBodies(cfg) {
      forall s: State | Lossless(cfg, s)
        ensures BodiesKept(cfg, s)
      {
        var es :| Run(cfg, es, true, s) && NeverLosesRecord(es);
        BodiesStay(cfg, es, s);
      }
    } else {
      BodyGone(cfg);
    }
  }

  /**
   * After a pending delivery went out, row and body agree, sent and discarded, if and only if the completion was
   * written; otherwise the row is pending as before, with nothing left to send.
   */
  lemma BodySurvivesExactlyWhenRecorded(cfg: Config, s: State, w: nat, v: Verdict, storeUp: bool)
    requires s.WellFormed() && Enabled(cfg, s, SettleHead(w, v, storeUp)) && v.Answer? && v.cls == ResultClass.Sent
    requires s.hands[w].items[0].id in s.Rows() && !Terminal(s.Rows()[s.hands[w].items[0].id])
    ensures var s', id := Apply(cfg, s, SettleHead(w, v, storeUp)), s.hands[w].items[0].id;
            && id in s'.Rows() && id !in s'.disk.spool
            && (s'.Rows()[id].status == Delivered <==> storeUp)
            && (!Terminal(s'.Rows()[id]) <==> !storeUp)
            && (!storeUp ==> s'.Rows()[id] == s.Rows()[id])
  {
  }
}
