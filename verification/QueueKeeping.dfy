/** No accepted delivery is lost: its row stays, and it never stops being reachable. */
module QueueKeeping {
  import opened RetryPolicy
  import opened Deliveries
  import opened QueueWorker
  import opened QueueSystem
  import opened QueueExclusive

  // ----------------------------------------------------------- never stuck

  /** A pending row is either waiting for a known instant or in flight since one. */
  ghost predicate Findable(s: State) {
    && s.WellFormed() && s.now >= 1 && Stamped(s.Rows())
  }

  lemma ClaimKeepsFindable(cfg: Config, s: State, e: Event)
    requires Findable(s) && Enabled(cfg, s, e) && e.TakeBatch?
    ensures Findable(Apply(cfg, s, e))
  {
    forall id | id in e.ids
      ensures Due(s.Rows(), id, s.now)
    {
      var i :| 0 <= i < |e.ids| && e.ids[i] == id;
    }
    hide Claimable;
  }

  /** No record leaves a row in flight that was not, or was under another claim. */
  lemma RecordStamps(t: Table, item: Item, d: Decision, a: Attempt, now: Time)
    requires t.Valid() && Stamped(t.rows)
    ensures Stamped(Record(t, item, d, a, now).rows)
  {
  }

  lemma SettleKeepsFindable(cfg: Config, s: State, e: Event)
    requires Findable(s) && Enabled(cfg, s, e) && (e.SettleHead? || e.HandBackHead?)
    ensures Findable(Apply(cfg, s, e))
  {
    if e.SettleHead? {
      var item := s.hands[e.worker].items[0];
      var d, a := Decide(cfg.policy, cfg.releaseDelay, item, e.verdict, s.now), AttemptFor(item, e.verdict, s.now);
      hide Decide, AttemptFor, Stamped, Record;
      RecordStamps(s.disk.table, item, d, a, s.now);
    }
  }

  lemma OtherStepsKeepFindable(cfg: Config, s: State, e: Event)
    requires Findable(s) && Enabled(cfg, s, e) && !e.TakeBatch? && !e.SettleHead? && !e.HandBackHead?
    ensures Findable(Apply(cfg, s, e))
  {
    hide Settle, HandBack, Deliveries.Claim;
  }

  lemma StepKeepsFindable(cfg: Config, s: State, e: Event)
    requires Findable(s) && Enabled(cfg, s, e)
    ensures Findable(Apply(cfg, s, e))
  {
    if e.TakeBatch? {
      ClaimKeepsFindable(cfg, s, e);
    } else if e.SettleHead? || e.HandBackHead? {
      SettleKeepsFindable(cfg, s, e);
    } else {
      OtherStepsKeepFindable(cfg, s, e);
    }
  }

  lemma {:induction false} AlwaysFindable(cfg: Config, es: seq<Event>, timely: bool, s: State)
    requires Run(cfg, es, timely, s)
    ensures Findable(s)
  {
    if es != [] {
      var n := |es| - 1;
      var before :| Run(cfg, es[..n], timely, before) && Enabled(cfg, before, es[n]) && s == Apply(cfg, before, es[n]);
      AlwaysFindable(cfg, es[..n], timely, before);
      StepKeepsFindable(cfg, before, es[n]);
    }
  }

  /** From when on a pending row is due, counting on the sweep for one whose worker is gone. */
  function ReadyAt(cfg: Config, r: Row): Time {
    if r.status == Queued then r.nextAttemptAt else r.claimedAt + cfg.claimTimeout + 1
  }

  /**
   * In every run, once its instant has come a sweep leaves a pending delivery due, whatever became of the
   * worker that had it; the next claim is then not empty, and takes it unless it fills up with rows that do
   * not come after it.
   */
  lemma NeverStuck(cfg: Config, es: seq<Event>, timely: bool, s: State, id: Id, ids: seq<Id>)
    requires cfg.Valid() && Run(cfg, es, timely, s)
    requires id in s.Rows() && !Terminal(s.Rows()[id]) && s.now >= ReadyAt(cfg, s.Rows()[id])
    requires Claimable(Apply(cfg, s, Sweep).Rows(), cfg.batch, s.now, ids)
    ensures var rows := Apply(cfg, s, Sweep).Rows();
            && Due(rows, id, s.now) && ids != []
            && (id in ids ||
                (|ids| == cfg.batch && forall i :: 0 <= i < |ids| ==> !Before(rows[id], rows[ids[i]])))
  {
    AlwaysFindable(cfg, es, timely, s);
    var rows := Apply(cfg, s, Sweep).Rows();
    assert Due(rows, id, s.now);
  }

  // ------------------------------------------------------------ rows stay

  /** In every run the only step that removes a row is retention, and only a terminal one kept its full time. */
  lemma RowsLeaveByRetention(cfg: Config, s: State, e: Event, id: Id)
    requires s.WellFormed() && Enabled(cfg, s, e) && id in s.Rows()
    ensures id in Apply(cfg, s, e).Rows() <==>
            !(e.PruneRows? && Prunable(s.Rows()[id], s.now - cfg.sentRetention, s.now - cfg.failedRetention))
    ensures id !in Apply(cfg, s, e).Rows() ==>
              Terminal(s.Rows()[id]) &&
              s.Rows()[id].updatedAt +
              (if s.Rows()[id].status == Delivered then cfg.sentRetention else cfg.failedRetention) < s.now
  {
  }
}
