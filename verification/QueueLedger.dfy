/** The attempt counter against the audit trail, in every run, stale writers included. */
module QueueLedger {
  import opened Channel
  import opened RetryPolicy
  import opened Deliveries
  import opened QueueWorker
  import opened QueueSystem

  /** What an attempt record may count towards. */
  datatype Kind = Charged | PeerVerdict | NoRoom

  predicate Counts(a: Attempt, k: Kind) {
    match k
    case Charged => a.cls != Released
    case PeerVerdict => a.cls == Outcome(Transient)
    case NoRoom => a.cls == Released && a.error.NoCapacity?
  }

  function Tally(l: seq<Attempt>, k: Kind): (n: nat)
    ensures n <= |l|
  {
    if l == [] then 0
    else Tally(l[..|l| - 1], k) + (if Counts(l[|l| - 1], k) then 1 else 0)
  }

  lemma TallyAppend(l: seq<Attempt>, a: Attempt, k: Kind)
    ensures Tally(l + [a], k) == Tally(l, k) + (if Counts(a, k) then 1 else 0)
  {
    assert (l + [a])[..|l|] == l;
  }

  /** attempts is a cache of the audit trail of the current life. */
  ghost predicate Balanced(s: State) {
    s.WellFormed() && forall id :: id in s.Rows() ==> s.Rows()[id].attempts == Tally(s.Life(id), Charged)
  }

  /** A write to one row appends one record to its life and touches nobody else's. */
  lemma LifeAfter(s: State, s': State, id: Id, a: Attempt)
    requires s.WellFormed() && s'.WellFormed() && id in s.Rows() && id in s'.Rows()
    requires s'.lives[id] == s.lives[id] && s'.disk.table.log[id] == s.disk.table.log[id] + [a]
    ensures s'.Life(id) == s.Life(id) + [a]
  {
  }

  lemma FinishKeepsBalance(s: State, s': State, id: Id, status: Status, a: Attempt, r: Reason, next: Option<Time>)
    requires Balanced(s) && s'.WellFormed() && s'.lives == s.lives && a.cls != Released
    requires s'.disk.table == Finish(s.disk.table, id, status, a, r, next, s.now)
    ensures Balanced(s')
  {
    if id in s.Rows() {
      LifeAfter(s, s', id, a);
      TallyAppend(s.Life(id), a, Charged);
    }
    forall o | o in s'.Rows() && o != id
      ensures s'.Rows()[o].attempts == Tally(s'.Life(o), Charged)
    {
      assert s'.Life(o) == s.Life(o);
    }
  }

  lemma ReleaseKeepsBalance(s: State, s': State, id: Id, r: Reason, skip: SkipReason, next: Time)
    requires Balanced(s) && s'.WellFormed() && s'.lives == s.lives
    requires s'.disk.table == Release(s.disk.table, id, r, skip, next, s.now)
    ensures Balanced(s')
  {
    if Releasable(s.disk.table, id) {
      var a := Attempt(s.Rows()[id].attempts, Released, r, skip, s.now);
      LifeAfter(s, s', id, a);
      TallyAppend(s.Life(id), a, Charged);
    }
    forall o | o in s'.Rows() && o != id
      ensures s'.Rows()[o].attempts == Tally(s'.Life(o), Charged)
    {
      assert s'.Life(o) == s.Life(o);
    }
  }

  lemma SettleKeepsBalance(cfg: Config, s: State, w: nat, v: Verdict, storeUp: bool)
    requires Balanced(s) && Enabled(cfg, s, SettleHead(w, v, storeUp))
    ensures Balanced(Apply(cfg, s, SettleHead(w, v, storeUp)))
  {
    var s' := Apply(cfg, s, SettleHead(w, v, storeUp));
    var item := s.hands[w].items[0];
    var a := AttemptFor(item, v, s.now);
    if storeUp {
      match Decide(cfg.policy, cfg.releaseDelay, item, v, s.now) {
        case Finished => FinishKeepsBalance(s, s', item.id, Delivered, a, NoReason, Some(s.now));
        case Again(next) => FinishKeepsBalance(s, s', item.id, Queued, a, NoReason, Some(next));
        case GiveUp(reason) => FinishKeepsBalance(s, s', item.id, Failed, a, reason, None);
        case PutBack(reason, skip, next) => ReleaseKeepsBalance(s, s', item.id, reason, skip, next);
      }
    } else {
      SameLives(s, s');
    }
  }

  /** Steps that leave counters, records and life marks alone, row by row, keep the balance. */
  lemma SameLives(s: State, s': State)
    requires Balanced(s) && s'.WellFormed()
    requires forall id :: id in s'.Rows() ==>
               id in s.Rows() && s'.Rows()[id].attempts == s.Rows()[id].attempts &&
               s'.lives[id] == s.lives[id] && s'.disk.table.log[id] == s.disk.table.log[id]
    ensures Balanced(s')
  {
    forall id | id in s'.Rows()
      ensures s'.Rows()[id].attempts == Tally(s'.Life(id), Charged)
    {
      assert s'.Life(id) == s.Life(id);
    }
  }

  /** New rows and replayed ones begin a life with nothing charged. */
  lemma NewLives(s: State, s': State)
    requires Balanced(s) && s'.WellFormed()
    requires forall id :: id in s'.Rows() ==>
               || (s'.Rows()[id].attempts == 0 && s'.lives[id] == |s'.disk.table.log[id]|)
               || (id in s.Rows() && s'.Rows()[id] == s.Rows()[id] &&
                   s'.lives[id] == s.lives[id] && s'.disk.table.log[id] == s.disk.table.log[id])
    ensures Balanced(s')
  {
    forall id | id in s'.Rows()
      ensures s'.Rows()[id].attempts == Tally(s'.Life(id), Charged)
    {
      if s'.lives[id] == |s'.disk.table.log[id]| && s'.Rows()[id].attempts == 0 {
        assert s'.Life(id) == [];
      } else {
        assert s'.Life(id) == s.Life(id);
      }
    }
  }

  lemma HandBackKeepsBalance(cfg: Config, s: State, w: nat, storeUp: bool)
    requires Balanced(s) && Enabled(cfg, s, HandBackHead(w, storeUp))
    ensures Balanced(Apply(cfg, s, HandBackHead(w, storeUp)))
  {
    var s' := Apply(cfg, s, HandBackHead(w, storeUp));
    if storeUp {
      ReleaseKeepsBalance(s, s', s.hands[w].items[0].id, ShuttingDown, NoSkip, s.now);
    } else {
      SameLives(s, s');
    }
  }

  lemma NewRowsKeepBalance(cfg: Config, s: State, e: Event)
    requires Balanced(s) && Enabled(cfg, s, e) && e.InsertRows?
    ensures Balanced(Apply(cfg, s, e))
  {
    hide Tally, Settle;
    NewLives(s, Apply(cfg, s, e));
  }

  lemma ReplayKeepsBalance(cfg: Config, s: State, e: Event)
    requires Balanced(s) && Enabled(cfg, s, e) && e.Replay?
    ensures Balanced(Apply(cfg, s, e))
  {
    hide Tally, Settle;
    NewLives(s, Apply(cfg, s, e));
  }

  lemma OtherKeepsBalance(cfg: Config, s: State, e: Event)
    requires Balanced(s) && Enabled(cfg, s, e)
    requires !e.SettleHead? && !e.HandBackHead? && !e.InsertRows? && !e.Replay?
    ensures Balanced(Apply(cfg, s, e))
  {
    SameLives(s, Apply(cfg, s, e));
  }

  lemma StepKeepsBalance(cfg: Config, s: State, e: Event)
    requires Balanced(s) && Enabled(cfg, s, e)
    ensures Balanced(Apply(cfg, s, e))
  {
    match e {
      case SettleHead(w, v, storeUp) => SettleKeepsBalance(cfg, s, w, v, storeUp);
      case HandBackHead(w, storeUp) => HandBackKeepsBalance(cfg, s, w, storeUp);
      case InsertRows(_, _) => NewRowsKeepBalance(cfg, s, e);
      case Replay(_) => ReplayKeepsBalance(cfg, s, e);
      case _ => OtherKeepsBalance(cfg, s, e);
    }
  }

  /**
   * In every interleaving, timely or not, a row's attempt counter is the number of its attempt records since
   * its enqueue or last replay that are not releases.
   */
  lemma {:induction false} AttemptLedger(cfg: Config, es: seq<Event>, timely: bool, s: State)
    requires Run(cfg, es, timely, s)
    ensures Balanced(s)
  {
    if es != [] {
      var n := |es| - 1;
      var before :| Run(cfg, es[..n], timely, before) && Enabled(cfg, before, es[n]) && s == Apply(cfg, before, es[n]);
      AttemptLedger(cfg, es[..n], timely, before);
      StepKeepsBalance(cfg, before, es[n]);
    }
  }
}
