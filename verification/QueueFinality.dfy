/** When exactly a recorded delivery stays recorded: the claim bound, or a single worker. */
module QueueFinality {
  import opened Deliveries
  import opened QueueWorker
  import opened QueueSystem
  import opened QueueExclusive
  import opened QueueRace

  /** No step of any timely run takes a row out of the sent state, other than by retention removing it. */
  ghost predicate SentIsFinal(cfg: Config) {
    forall s: State, e: Event, id: Id ::
      Reachable(cfg, true, s) && s.WellFormed() && Enabled(cfg, s, e) && OnTime(cfg, s, e) ==>
        StaysSent(s, Apply(cfg, s, e), id)
  }

  predicate StaysSent(s: State, s': State, id: Id) {
    id in s.Rows() && s.Rows()[id].status == Delivered && id in s'.Rows() ==> s'.Rows()[id].status == Delivered
  }

  ghost predicate NoneHolds(s: State, id: Id) {
    forall w, i :: InHand(s, w, i) ==> s.hands[w].items[i].id != id
  }

  lemma SettlingOthers(cfg: Config, s: State, e: Event, id: Id)
    requires s.WellFormed() && Enabled(cfg, s, e) && NoneHolds(s, id) && (e.SettleHead? || e.HandBackHead?)
    ensures StaysSent(s, Apply(cfg, s, e), id)
  {
    hide Decide, AttemptFor;
    assert InHand(s, e.worker, 0);
  }

  /** Only a worker still holding a sent delivery can overwrite it. */
  lemma OnlyHoldersOverwrite(cfg: Config, s: State, e: Event, id: Id)
    requires s.WellFormed() && Enabled(cfg, s, e) && NoneHolds(s, id)
    ensures StaysSent(s, Apply(cfg, s, e), id)
  {
    match e {
      case SettleHead(_, _, _) => SettlingOthers(cfg, s, e, id);
      case HandBackHead(_, _) => SettlingOthers(cfg, s, e, id);
      case TakeBatch(_, ids) =>
        assert id in ids ==> exists i :: 0 <= i < |ids| && ids[i] == id && Due(s.Rows(), ids[i], s.now);
      case _ =>
        hide Settle, HandBack, Deliveries.Claim;
    }
  }

  // -------------------------------------------------------- a lone worker

  /** With one worker nobody else can finish what it holds, swept or not. */
  ghost predicate Lone(s: State) {
    && s.WellFormed()
    && (forall w :: w in s.hands ==> w == 0)
    && (forall i, j :: InHand(s, 0, i) && InHand(s, 0, j) ==>
          s.hands[0].items[i].id == s.hands[0].items[j].id ==> i == j)
    && (forall i :: InHand(s, 0, i) ==> Copied(s, 0, i))
  }

  lemma LoneHeadWritten(s: State, s': State)
    requires Lone(s) && s'.WellFormed() && InHand(s, 0, 0) && s'.now == s.now
    requires s'.hands == NextItem(s, s'.disk.spool, 0)
    requires forall id :: id in s.Rows() && id != s.hands[0].items[0].id ==>
               id in s'.Rows() && s'.Rows()[id] == s.Rows()[id]
    ensures Lone(s')
  {
    forall i | InHand(s', 0, i)
      ensures Copied(s', 0, i)
    {
      assert InHand(s, 0, i + 1) && Copied(s, 0, i + 1);
      assert s'.hands[0].items[i] == s.hands[0].items[i + 1];
    }
    forall i, j | InHand(s', 0, i) && InHand(s', 0, j) && s'.hands[0].items[i].id == s'.hands[0].items[j].id
      ensures i == j
    {
      assert InHand(s, 0, i + 1) && s'.hands[0].items[i] == s.hands[0].items[i + 1];
      assert InHand(s, 0, j + 1) && s'.hands[0].items[j] == s.hands[0].items[j + 1];
    }
  }

  lemma LoneClaim(cfg: Config, s: State, ids: seq<Id>)
    requires cfg.workers == 1 && Lone(s) && Enabled(cfg, s, TakeBatch(0, ids))
    ensures Lone(Apply(cfg, s, TakeBatch(0, ids)))
  {
    var s' := Apply(cfg, s, TakeBatch(0, ids));
    forall i | InHand(s', 0, i)
      ensures Copied(s', 0, i)
    {
      assert Due(s.Rows(), ids[i], s.now) && ids[i] in ids;
    }
  }

  lemma LoneSettle(cfg: Config, s: State, e: Event)
    requires cfg.workers == 1 && Lone(s) && Enabled(cfg, s, e) && (e.SettleHead? || e.HandBackHead?)
    ensures Lone(Apply(cfg, s, e))
  {
    hide Decide, AttemptFor;
    assert InHand(s, 0, 0) && Copied(s, 0, 0);
    LoneHeadWritten(s, Apply(cfg, s, e));
  }

  lemma LoneStep(cfg: Config, s: State, e: Event)
    requires cfg.workers == 1 && Lone(s) && Enabled(cfg, s, e)
    ensures Lone(Apply(cfg, s, e))
  {
    var s' := Apply(cfg, s, e);
    if e.SettleHead? || e.HandBackHead? {
      LoneSettle(cfg, s, e);
    } else if e.TakeBatch? {
      LoneClaim(cfg, s, e.ids);
    } else {
      forall i | InHand(s', 0, i)
        ensures InHand(s, 0, i) && s'.hands[0].items[i] == s.hands[0].items[i]
        ensures Copied(s', 0, i)
      {
        assert InHand(s, 0, i) && Copied(s, 0, i);
      }
    }
  }

  lemma {:induction false} LoneRun(cfg: Config, es: seq<Event>, timely: bool, s: State)
    requires cfg.workers == 1 && Run(cfg, es, timely, s)
    ensures Lone(s)
  {
    if es != [] {
      var n := |es| - 1;
      var before :| Run(cfg, es[..n], timely, before) && Enabled(cfg, before, es[n]) && s == Apply(cfg, before, es[n]);
      LoneRun(cfg, es[..n], timely, before);
      hide Lone, Apply, Run;
      LoneStep(cfg, before, es[n]);
    }
  }

  // ------------------------------------------------- the bound is enough

  /** Either way every worker's copy of what it holds is current, of a row still pending. */
  lemma CopiesAreCurrent(cfg: Config, es: seq<Event>, s: State)
    requires cfg.Valid() && (cfg.workers == 1 || BatchFitsClaim(cfg)) && Run(cfg, es, true, s)
    ensures s.WellFormed() && AllCopied(s)
  {
    if cfg.workers == 1 {
      LoneRun(cfg, es, true, s);
    } else {
      ClaimsAreExclusive(cfg, es, s);
    }
    hide Run;
    forall w, i | InHand(s, w, i)
      ensures Copied(s, w, i)
    {
      if cfg.workers == 1 {
        assert InHand(s, 0, i);
      } else {
        assert Held(s, w, i);
      }
    }
  }

  lemma SentStaysSent(cfg: Config)
    requires cfg.Valid() && (cfg.workers == 1 || BatchFitsClaim(cfg))
    ensures SentIsFinal(cfg)
  {
    forall s: State, e: Event, id: Id |
      Reachable(cfg, true, s) && s.WellFormed() && Enabled(cfg, s, e) && OnTime(cfg, s, e)
      ensures StaysSent(s, Apply(cfg, s, e), id)
    {
      var es :| Run(cfg, es, true, s);
      CopiesAreCurrent(cfg, es, s);
      hide Apply, Run, Enabled;
      if id in s.Rows() && s.Rows()[id].status == Delivered {
        assert forall w, i :: InHand(s, w, i) ==> Copied(s, w, i);
        OnlyHoldersOverwrite(cfg, s, e, id);
      }
    }
  }

  // ------------------------------------------------- and it is necessary

  /**
   * Worker 1 sends it, and worker 0's late answer takes it back out of the sent state: into the queue again if
   * the policy has a try left.
   */
  lemma StaleFinish(cfg: Config) returns (s: State, e: Event, id: Id)
    requires cfg.Valid() && cfg.workers >= 2 && !BatchFitsClaim(cfg)
    ensures Lossless(cfg, s) && s.WellFormed() && Enabled(cfg, s, e) && OnTime(cfg, s, e) && !LosesRecord(e)
    ensures s.now == cfg.claimTimeout + 2 && id !in s.disk.spool
    ensures id in s.Rows() && s.Rows()[id].status == Delivered && s.Rows()[id].createdAt == 1
    ensures id in Apply(cfg, s, e).Rows() && Apply(cfg, s, e).Rows()[id].createdAt == 1
    ensures Apply(cfg, s, e).Rows()[id].status ==
            if cfg.policy.maxAttempts > 1 && cfg.policy.maxAge > cfg.claimTimeout + 1 then Queued else Failed
  {
    hide Lossless;
    var o := Untried();
    var s0 := ContestedLate(cfg, o);
    s := FirstAnswer(cfg, s0, o, SENT);
    e, id := SettleHead(0, TRY_LATER, true), Last(cfg, o).id;
    LateDecision(cfg);
    assert s.Rows()[id].status == Delivered;
    hide Decide;
  }

  /** What a late "try again" decides: another try if the policy has one left, the dead letter otherwise. */
  lemma LateDecision(cfg: Config)
    requires cfg.Valid()
    ensures var d := Decide(cfg.policy, cfg.releaseDelay, Last(cfg, Untried()), TRY_LATER, cfg.claimTimeout + 2);
            if cfg.policy.maxAttempts > 1 && cfg.policy.maxAge > cfg.claimTimeout + 1 then d.Again? else d.GiveUp?
  {
  }

  lemma SentNotFinal(cfg: Config)
    requires cfg.Valid() && cfg.workers >= 2 && !BatchFitsClaim(cfg)
    ensures !SentIsFinal(cfg)
  {
    var s, e, id := StaleFinish(cfg);
    LosslessIsReachable(cfg, s);
    hide Apply, Enabled, OnTime, Reachable, Lossless;
    assert !StaysSent(s, Apply(cfg, s, e), id);
  }

  /**
   * Sent is final in every timely run exactly when there is a single worker or a whole batch fits in a claim.
   * The configured rule, claim timeout above deliver timeout, secures that only for a batch of one.
   */
  lemma SentIsFinalExactly(cfg: Config)
    requires cfg.Valid()
    ensures SentIsFinal(cfg) <==> cfg.workers == 1 || BatchFitsClaim(cfg)
    ensures cfg.batch == 1 ==> SentIsFinal(cfg)
  {
    hide SentIsFinal;
    if cfg.workers == 1 || BatchFitsClaim(cfg) {
      SentStaysSent(cfg);
    } else {
      SentNotFinal(cfg);
    }
  }
}
