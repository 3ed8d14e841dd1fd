/** How much trying one life of a delivery can hold, and what "attempts exhausted" is evidence of. */
module QueueBudget {
  import opened Channel
  import opened RetryPolicy
  import opened Deliveries
  import opened QueueWorker
  import opened QueueSystem
  import opened QueueExclusive
  import opened QueueFinality
  import opened QueueRace
  import opened QueueLedger
  import opened Arithmetic

  /** The charged records of a life are numbered one, two, three: each attempt was answered for once. */
  predicate Numbered(l: seq<Attempt>) {
    l == [] ||
    (Numbered(l[..|l| - 1]) && (Counts(l[|l| - 1], Charged) ==> l[|l| - 1].attemptNo == Tally(l, Charged)))
  }

  lemma NumberedAppend(l: seq<Attempt>, a: Attempt)
    ensures Numbered(l + [a]) <==> Numbered(l) && (Counts(a, Charged) ==> a.attemptNo == Tally(l, Charged) + 1)
  {
    assert (l + [a])[..|l|] == l;
    TallyAppend(l, a, Charged);
  }

  /**
   * What a row and the records of its current life say about each other. While the delivery is pending, every
   * charged attempt was a transient verdict and each release for want of capacity pushed the next try one
   * release delay further from the creation time.
   */
  predicate RowInBudget(cfg: Config, r: Row, l: seq<Attempt>) {
    var c, t, n := Tally(l, Charged), Tally(l, PeerVerdict), Tally(l, NoRoom);
    && Numbered(l)
    && (n > 0 ==> (n - 1) * cfg.releaseDelay < cfg.policy.maxAge)
    && (if Terminal(r)
        then c <= cfg.policy.maxAttempts && t <= c &&
             (t == cfg.policy.maxAttempts <==> r.status == Failed && r.lastError == AttemptsExhausted)
        else c == t == r.attempts < cfg.policy.maxAttempts &&
             r.createdAt + n * cfg.releaseDelay <= r.nextAttemptAt)
  }

  ghost predicate InBudget(cfg: Config, s: State) {
    s.WellFormed() && forall id :: id in s.Rows() ==> RowInBudget(cfg, s.Rows()[id], s.Life(id))
  }

  // ------------------------------------------------------------- one row

  function RowAfter(r: Row, d: Decision, a: Attempt, now: Time): Row {
    match d
    case Finished => Deliveries.Finished(r, Delivered, a, NoReason, now, now)
    case Again(next) => Deliveries.Finished(r, Queued, a, NoReason, next, now)
    case GiveUp(reason) => Deliveries.Finished(r, Failed, a, reason, now, now)
    case PutBack(reason, _, next) =>
      r.(status := Queued, nextAttemptAt := next, lastError := reason, lastClass := Some(Released), updatedAt := now)
  }

  function RecordAfter(r: Row, d: Decision, a: Attempt, now: Time): Attempt {
    if d.PutBack? then Attempt(r.attempts, Released, d.reason, d.skip, now) else a
  }

  lemma RecordShape(t: Table, item: Item, d: Decision, a: Attempt, now: Time)
    requires t.Valid() && item.id in t.rows && (d.PutBack? ==> t.rows[item.id].status == Sending)
    ensures Record(t, item, d, a, now) ==
            Table(t.rows[item.id := RowAfter(t.rows[item.id], d, a, now)],
                  t.log[item.id := t.log[item.id] + [RecordAfter(t.rows[item.id], d, a, now)]])
  {
  }

  /** One more release: it happened before the maximum age, and the next try is one delay later. */
  lemma OneMoreRelease(created: Time, n: nat, delay: nat, maxAge: int, now: Time)
    requires created + n * delay <= now && now - created < maxAge
    ensures (n + 1 - 1) * delay < maxAge
    ensures created + (n + 1) * delay <= now + delay
  {
    assert (n + 1) * delay == n * delay + delay;
  }

  lemma VerdictKeepsRow(cfg: Config, r: Row, l: seq<Attempt>, item: Item, v: Verdict, now: Time)
    requires cfg.Valid() && RowInBudget(cfg, r, l)
    requires !Terminal(r) && r.nextAttemptAt <= now
    requires item.attempts == r.attempts && item.createdAt == r.createdAt
    ensures var d, a := Decide(cfg.policy, cfg.releaseDelay, item, v, now), AttemptFor(item, v, now);
            RowInBudget(cfg, RowAfter(r, d, a, now), l + [RecordAfter(r, d, a, now)])
  {
    var d, a := Decide(cfg.policy, cfg.releaseDelay, item, v, now), AttemptFor(item, v, now);
    var x := RecordAfter(r, d, a, now);
    TallyAppend(l, x, Charged);
    TallyAppend(l, x, PeerVerdict);
    TallyAppend(l, x, NoRoom);
    NumberedAppend(l, x);
    hide Numbered, Tally;
    var n := Tally(l, NoRoom);
    if d.PutBack? {
      OneMoreRelease(r.createdAt, n, cfg.releaseDelay, cfg.policy.maxAge, now);
    }
  }

  lemma HandBackKeepsRow(cfg: Config, r: Row, l: seq<Attempt>, now: Time)
    requires RowInBudget(cfg, r, l) && r.status == Sending && r.nextAttemptAt <= now
    ensures var d := PutBack(ShuttingDown, NoSkip, now);
            var a := Attempt(r.attempts, Released, ShuttingDown, NoSkip, now);
            RowInBudget(cfg, RowAfter(r, d, a, now), l + [a])
  {
    var a := Attempt(r.attempts, Released, ShuttingDown, NoSkip, now);
    TallyAppend(l, a, Charged);
    TallyAppend(l, a, PeerVerdict);
    TallyAppend(l, a, NoRoom);
    NumberedAppend(l, a);
    hide Numbered, Tally;
  }

  // --------------------------------------------------------------- steps

  lemma NewRowInBudget(cfg: Config, r: Row)
    requires cfg.policy.Complete() && !Terminal(r) && r.attempts == 0 && r.createdAt <= r.nextAttemptAt
    ensures RowInBudget(cfg, r, [])
  {
  }

  lemma SameRowInBudget(cfg: Config, r: Row, r': Row, l: seq<Attempt>)
    requires RowInBudget(cfg, r, l)
    requires r'.attempts == r.attempts && r'.createdAt == r.createdAt
    requires r'.nextAttemptAt == r.nextAttemptAt && r'.lastError == r.lastError
    requires r'.status == r.status || (!Terminal(r') && !Terminal(r))
    ensures RowInBudget(cfg, r', l)
  {
    hide Numbered, Tally;
  }

  /** Rows whose budget fields are unchanged stay in budget; rows starting a life are. */
  lemma OtherRows(cfg: Config, s: State, s': State, written: set<Id>)
    requires cfg.policy.Complete() && InBudget(cfg, s) && s'.WellFormed()
    requires forall id :: id in s'.Rows() && id in written ==> RowInBudget(cfg, s'.Rows()[id], s'.Life(id))
    requires forall id :: id in s'.Rows() && id !in written ==>
               || SameBudget(s, s', id)
               || (!Terminal(s'.Rows()[id]) && s'.Rows()[id].attempts == 0 &&
                   s'.lives[id] == |s'.disk.table.log[id]| && s'.Rows()[id].createdAt <= s'.Rows()[id].nextAttemptAt)
    ensures InBudget(cfg, s')
  {
    forall id | id in s'.Rows() && id !in written
      ensures RowInBudget(cfg, s'.Rows()[id], s'.Life(id))
    {
      hide RowInBudget;
      if SameBudget(s, s', id) {
        assert s'.Life(id) == s.Life(id);
        SameRowInBudget(cfg, s.Rows()[id], s'.Rows()[id], s.Life(id));
      } else {
        assert s'.Life(id) == [];
        NewRowInBudget(cfg, s'.Rows()[id]);
      }
    }
  }

  predicate SameBudget(s: State, s': State, id: Id)
    requires s'.WellFormed() && s.WellFormed() && id in s'.Rows()
  {
    && id in s.Rows()
    && s'.Rows()[id].attempts == s.Rows()[id].attempts && s'.Rows()[id].createdAt == s.Rows()[id].createdAt
    && s'.Rows()[id].nextAttemptAt == s.Rows()[id].nextAttemptAt && s'.Rows()[id].lastError == s.Rows()[id].lastError
    && (s'.Rows()[id].status == s.Rows()[id].status || (!Terminal(s'.Rows()[id]) && !Terminal(s.Rows()[id])))
    && s'.lives[id] == s.lives[id] && s'.disk.table.log[id] == s.disk.table.log[id]
  }

  /** A put-back of a row that is not in flight any more changes nothing; everything else is recorded. */
  lemma SettleKeepsBudget(cfg: Config, s: State, w: nat, v: Verdict, storeUp: bool)
    requires cfg.Valid() && AllCopied(s) && InBudget(cfg, s) && Enabled(cfg, s, SettleHead(w, v, storeUp))
    ensures InBudget(cfg, Apply(cfg, s, SettleHead(w, v, storeUp)))
  {
    hide RowInBudget;
    var s' := Apply(cfg, s, SettleHead(w, v, storeUp));
    var item := s.hands[w].items[0];
    assert InHand(s, w, 0) && Copied(s, w, 0);
    var d, a := Decide(cfg.policy, cfg.releaseDelay, item, v, s.now), AttemptFor(item, v, s.now);
    VerdictKeepsRow(cfg, s.Rows()[item.id], s.Life(item.id), item, v, s.now);
    hide Decide, AttemptFor;
    if storeUp && (d.PutBack? ==> s.Rows()[item.id].status == Sending) {
      RecordShape(s.disk.table, item, d, a, s.now);
      LifeAfter(s, s', item.id, RecordAfter(s.Rows()[item.id], d, a, s.now));
      OtherRows(cfg, s, s', {item.id});
    } else {
      OtherRows(cfg, s, s', {});
    }
  }

  lemma HandBackKeepsBudget(cfg: Config, s: State, w: nat, storeUp: bool)
    requires cfg.Valid() && AllCopied(s) && InBudget(cfg, s) && Enabled(cfg, s, HandBackHead(w, storeUp))
    ensures InBudget(cfg, Apply(cfg, s, HandBackHead(w, storeUp)))
  {
    hide RowInBudget;
    var s' := Apply(cfg, s, HandBackHead(w, storeUp));
    var id := s.hands[w].items[0].id;
    assert InHand(s, w, 0) && Copied(s, w, 0);
    if storeUp && s.Rows()[id].status == Sending {
      LifeAfter(s, s', id, Attempt(s.Rows()[id].attempts, Released, ShuttingDown, NoSkip, s.now));
      HandBackKeepsRow(cfg, s.Rows()[id], s.Life(id), s.now);
      OtherRows(cfg, s, s', {id});
    } else {
      OtherRows(cfg, s, s', {});
    }
  }

  lemma NewRowsKeepBudget(cfg: Config, s: State, e: Event)
    requires cfg.Valid() && InBudget(cfg, s) && Enabled(cfg, s, e) && e.InsertRows?
    ensures InBudget(cfg, Apply(cfg, s, e))
  {
    hide RowInBudget, Settle;
    OtherRows(cfg, s, Apply(cfg, s, e), {});
  }

  lemma ReplayKeepsBudget(cfg: Config, s: State, e: Event)
    requires cfg.Valid() && CreatedInPast(s) && InBudget(cfg, s) && Enabled(cfg, s, e) && e.Replay?
    ensures InBudget(cfg, Apply(cfg, s, e))
  {
    hide RowInBudget, Settle;
    OtherRows(cfg, s, Apply(cfg, s, e), {});
  }

  lemma ClaimKeepsBudget(cfg: Config, s: State, w: nat, ids: seq<Id>)
    requires cfg.Valid() && InBudget(cfg, s) && Enabled(cfg, s, TakeBatch(w, ids))
    ensures InBudget(cfg, Apply(cfg, s, TakeBatch(w, ids)))
  {
    hide RowInBudget;
    forall id | id in ids
      ensures Due(s.Rows(), id, s.now)
    {
      var i :| 0 <= i < |ids| && ids[i] == id;
    }
    hide Claimable;
    OtherRows(cfg, s, Apply(cfg, s, TakeBatch(w, ids)), {});
  }

  lemma OtherStepsKeepBudget(cfg: Config, s: State, e: Event)
    requires cfg.Valid() && InBudget(cfg, s) && Enabled(cfg, s, e)
    requires !e.SettleHead? && !e.HandBackHead? && !e.InsertRows? && !e.Replay? && !e.TakeBatch?
    ensures InBudget(cfg, Apply(cfg, s, e))
  {
    hide RowInBudget, Settle, HandBack, Deliveries.Claim, Insert;
    OtherRows(cfg, s, Apply(cfg, s, e), {});
  }

  lemma StepKeepsBudget(cfg: Config, s: State, e: Event)
    requires cfg.Valid() && AllCopied(s) && InBudget(cfg, s) && CreatedInPast(s) && Enabled(cfg, s, e)
    ensures InBudget(cfg, Apply(cfg, s, e))
  {
    match e {
      case SettleHead(w, v, storeUp) => SettleKeepsBudget(cfg, s, w, v, storeUp);
      case HandBackHead(w, storeUp) => HandBackKeepsBudget(cfg, s, w, storeUp);
      case InsertRows(_, _) => NewRowsKeepBudget(cfg, s, e);
      case Replay(_) => ReplayKeepsBudget(cfg, s, e);
      case TakeBatch(w, ids) => ClaimKeepsBudget(cfg, s, w, ids);
      case _ => OtherStepsKeepBudget(cfg, s, e);
    }
  }

  lemma {:induction false} RunsStayInBudget(cfg: Config, es: seq<Event>, s: State)
    requires cfg.Valid() && (cfg.workers == 1 || BatchFitsClaim(cfg)) && Run(cfg, es, true, s)
    ensures InBudget(cfg, s) && CreatedInPast(s)
  {
    if es != [] {
      var n := |es| - 1;
      var before :| Run(cfg, es[..n], true, before) && Enabled(cfg, before, es[n]) &&
                    OnTime(cfg, before, es[n]) && s == Apply(cfg, before, es[n]);
      RunsStayInBudget(cfg, es[..n], before);
      CopiesAreCurrent(cfg, es[..n], before);
      hide Run, Apply, InBudget, CreatedInPast;
      StepKeepsBudget(cfg, before, es[n]);
      CreatedStaysInPast(cfg, before, es[n]);
    }
  }

  // ------------------------------------------------------------ theorems

  /**
   * One life, enqueue or replay to terminal, holds at most maxAttempts + ceil(maxAge / releaseDelay) recorded
   * verdicts, releases at shutdown aside.
   */
  predicate Bounded(cfg: Config, l: seq<Attempt>)
    requires cfg.releaseDelay > 0 && cfg.policy.maxAge >= 0
  {
    Tally(l, Charged) + Tally(l, NoRoom) <= cfg.policy.maxAttempts + CeilDiv(cfg.policy.maxAge, cfg.releaseDelay)
  }

  ghost predicate LivesBounded(cfg: Config)
    requires cfg.Valid()
  {
    forall s: State, id: Id :: Reachable(cfg, true, s) && s.WellFormed() && id in s.Rows() ==> Bounded(cfg, s.Life(id))
  }

  lemma LifeIsBounded(cfg: Config)
    requires cfg.Valid() && (cfg.workers == 1 || BatchFitsClaim(cfg))
    ensures LivesBounded(cfg)
  {
    forall s: State, id: Id | Reachable(cfg, true, s) && s.WellFormed() && id in s.Rows()
      ensures Bounded(cfg, s.Life(id))
    {
      var es :| Run(cfg, es, true, s);
      RunsStayInBudget(cfg, es, s);
      assert RowInBudget(cfg, s.Rows()[id], s.Life(id));
      hide Run, Tally, Numbered;
      CountBelowCeil(Tally(s.Life(id), NoRoom), cfg.releaseDelay, cfg.policy.maxAge);
    }
  }

  /**
   * Dead-lettered as exhausted exactly when this life has drawn maxAttempts transient verdicts; a pending one
   * always has attempts to spare, and has spent exactly one per transient verdict.
   */
  predicate Earned(policy: Policy, r: Row, l: seq<Attempt>) {
    var verdicts := Tally(l, PeerVerdict);
    && (r.status == Failed && r.lastError == AttemptsExhausted <==> verdicts == policy.maxAttempts)
    && (!Terminal(r) ==> r.attempts == verdicts < policy.maxAttempts)
  }

  ghost predicate AlwaysEarned(cfg: Config) {
    forall s: State, id: Id :: Reachable(cfg, true, s) && s.WellFormed() && id in s.Rows() ==>
                                 Earned(cfg.policy, s.Rows()[id], s.Life(id))
  }

  ghost predicate AlwaysNumbered(cfg: Config) {
    forall s: State, id: Id :: Reachable(cfg, true, s) && s.WellFormed() && id in s.Rows() ==> Numbered(s.Life(id))
  }

  lemma ExhaustedMeansVerdicts(cfg: Config)
    requires cfg.Valid() && (cfg.workers == 1 || BatchFitsClaim(cfg))
    ensures AlwaysEarned(cfg) && AlwaysNumbered(cfg)
  {
    forall s: State, id: Id | Reachable(cfg, true, s) && s.WellFormed() && id in s.Rows()
      ensures Earned(cfg.policy, s.Rows()[id], s.Life(id)) && Numbered(s.Life(id))
    {
      var es :| Run(cfg, es, true, s);
      RunsStayInBudget(cfg, es, s);
      assert RowInBudget(cfg, s.Rows()[id], s.Life(id));
    }
  }

  // ----------------------------------------------------- and it is necessary

  /** An answer recorded, whatever the row has become since the copy it is decided on was taken. */
  lemma AnswerRecorded(cfg: Config, s: State, w: nat, v: Verdict)
    requires cfg.Valid() && s.WellFormed() && Enabled(cfg, s, SettleHead(w, v, true)) && Recorded(v)
    requires s.hands[w].items[0].id in s.Rows() && s.lives[s.hands[w].items[0].id] == 0
    ensures var s', item := Apply(cfg, s, SettleHead(w, v, true)), s.hands[w].items[0];
            var a := AttemptFor(item, v, s.now);
            && item.id in s'.Rows() && s'.lives[item.id] == 0
            && s'.Rows()[item.id] ==
               RowAfter(s.Rows()[item.id], Decide(cfg.policy, cfg.releaseDelay, item, v, s.now), a, s.now)
            && s'.disk.table.log[item.id] == s.disk.table.log[item.id] + [a]
  {
  }

  predicate Recorded(v: Verdict) {
    v.Answer? && (v.cls == ResultClass.Sent || v.cls == Transient)
  }

  /** What the second answer leaves of the row and the log, the first having been recorded. */
  lemma SecondAnswer(cfg: Config, s0: State, s1: State, o: Origin, v1: Verdict, v0: Verdict)
    requires cfg.Valid() && Contested(cfg, s0, o) && Recorded(v1) && Recorded(v0)
    requires Enabled(cfg, s0, SettleHead(1, v1, true)) && s1 == Apply(cfg, s0, SettleHead(1, v1, true))
    requires s1.hands.Keys == {0} && s1.hands[0] == s0.hands[0] && s1.now == s0.now
    ensures Enabled(cfg, s1, SettleHead(0, v0, true))
    ensures var s, item, now := Apply(cfg, s1, SettleHead(0, v0, true)), Last(cfg, o), s0.now;
            var a1, a0 := AttemptFor(item, v1, now), AttemptFor(item, v0, now);
            && item.id in s.Rows() && s.lives[item.id] == 0 && s.disk.table.log[item.id] == o.log + [a1] + [a0]
            && s.Rows()[item.id] ==
               RowAfter(RowAfter(s0.Rows()[item.id], Decide(cfg.policy, cfg.releaseDelay, item, v1, now), a1, now),
                        Decide(cfg.policy, cfg.releaseDelay, item, v0, now), a0, now)
  {
    hide Decide, AttemptFor, RowAfter, Settle;
    AnswerRecorded(cfg, s0, 1, v1);
    AnswerRecorded(cfg, s1, 0, v0);
  }

  /**
   * Two workers hold one copy of a waiting delivery, and worker 1 and then worker 0 answer for it: the row and the
   * life that leaves.
   */
  lemma BothAnswerFrom(cfg: Config, first: State, o: Origin, v1: Verdict, v0: Verdict) returns (s: State, r: Row)
    requires cfg.Valid() && cfg.workers >= 2 && !BatchFitsClaim(cfg) && Recorded(v1) && Recorded(v0)
    requires Lossless(cfg, first) && Alone(cfg, first, o) && Waiting(o)
    ensures r.attempts == o.row.attempts && Reachable(cfg, true, s) && s.WellFormed() && Last(cfg, o).id in s.Rows()
    ensures var item, now := Last(cfg, o), o.at + cfg.claimTimeout + 1;
            var a1, a0 := AttemptFor(item, v1, now), AttemptFor(item, v0, now);
            && s.Life(item.id) == o.log + [a1] + [a0]
            && s.Rows()[item.id] ==
               RowAfter(RowAfter(r, Decide(cfg.policy, cfg.releaseDelay, item, v1, now), a1, now),
                        Decide(cfg.policy, cfg.releaseDelay, item, v0, now), a0, now)
  {
    hide Lossless, Decide, AttemptFor, RowAfter, Alone, Apply, Enabled;
    var s0 := Contest(cfg, first, o);
    r := s0.Rows()[Last(cfg, o).id];
    var s1 := FirstAnswer(cfg, s0, o, v1);
    SecondAnswer(cfg, s0, s1, o, v1, v0);
    StepIsLossless(cfg, s1, SettleHead(0, v0, true));
    s := Apply(cfg, s1, SettleHead(0, v0, true));
    LosslessIsReachable(cfg, s);
  }

  /** The same after k quick transient answers. */
  lemma BothAnswer(cfg: Config, k: nat, v1: Verdict, v0: Verdict) returns (s: State, o: Origin, r: Row)
    requires cfg.Valid() && cfg.workers >= 2 && !BatchFitsClaim(cfg) && Recorded(v1) && Recorded(v0)
    requires k < cfg.policy.maxAttempts && (k > 0 ==> Waited(cfg.policy, k - 1) < cfg.policy.maxAge)
    ensures Tried(cfg, o, k) && (k == 0 ==> o == Untried()) && r.attempts == k
    ensures Reachable(cfg, true, s) && s.WellFormed() && Last(cfg, o).id in s.Rows()
    ensures var item, now := Last(cfg, o), o.at + cfg.claimTimeout + 1;
            var a1, a0 := AttemptFor(item, v1, now), AttemptFor(item, v0, now);
            && s.Life(item.id) == o.log + [a1] + [a0]
            && s.Rows()[item.id] ==
               RowAfter(RowAfter(r, Decide(cfg.policy, cfg.releaseDelay, item, v1, now), a1, now),
                        Decide(cfg.policy, cfg.releaseDelay, item, v0, now), a0, now)
  {
    hide Lossless, Decide, AttemptFor, RowAfter, Alone, Waited, Apply, Enabled, Reachable;
    var first;
    first, o := TriedAlone(cfg, k);
    s, r := BothAnswerFrom(cfg, first, o, v1, v0);
  }

  lemma {:induction false} AllVerdicts(l: seq<Attempt>)
    requires forall i :: 0 <= i < |l| ==> l[i].cls == Outcome(Transient)
    ensures Tally(l, PeerVerdict) == |l|
  {
    if l != [] {
      AllVerdicts(l[..|l| - 1]);
    }
  }

  lemma SameNumberTwice(a: Attempt, b: Attempt)
    requires Counts(a, Charged) && Counts(b, Charged) && b.attemptNo == a.attemptNo
    ensures !Numbered([] + [a] + [b])
  {
    NumberedAppend([] + [a], b);
    NumberedAppend([], a);
    TallyAppend([], a, Charged);
  }

  lemma NotNumbered(cfg: Config)
    requires cfg.Valid() && cfg.workers >= 2 && !BatchFitsClaim(cfg)
    ensures !AlwaysNumbered(cfg)
  {
    var s, o, r := BothAnswer(cfg, 0, SENT, TRY_LATER);
    hide Reachable;
    var now := o.at + cfg.claimTimeout + 1;
    SameNumberTwice(AttemptFor(Last(cfg, o), SENT, now), AttemptFor(Last(cfg, o), TRY_LATER, now));
    assert !Numbered(s.Life(Last(cfg, o).id));
  }

  /** Where a row ends up whose one attempt is answered for twice by "try later". */
  lemma ToldTwice(cfg: Config, item: Item, r: Row, now: Time)
    requires cfg.Valid() && item.attempts == r.attempts < cfg.policy.maxAttempts
    ensures var d, a := Decide(cfg.policy, cfg.releaseDelay, item, TRY_LATER, now), AttemptFor(item, TRY_LATER, now);
            var f := RowAfter(RowAfter(r, d, a, now), d, a, now);
            && f.attempts == r.attempts + 2 && (Terminal(f) ==> f.status == Failed)
            && (f.status == Failed && f.lastError == AttemptsExhausted <==> r.attempts + 1 == cfg.policy.maxAttempts)
  {
  }

  /** And of one that is answered for by "sent" first, when the age limit is not yet reached. */
  lemma SentThenTold(cfg: Config, item: Item, r: Row, now: Time)
    requires cfg.Valid() && item.attempts == r.attempts == 0 && cfg.policy.maxAttempts > 1
    requires Age(item, now) < cfg.policy.maxAge
    ensures var sent, told := Decide(cfg.policy, cfg.releaseDelay, item, SENT, now),
                              Decide(cfg.policy, cfg.releaseDelay, item, TRY_LATER, now);
            var f := RowAfter(RowAfter(r, sent, AttemptFor(item, SENT, now), now),
                              told, AttemptFor(item, TRY_LATER, now), now);
            f.attempts == 2 && f.status == Queued
  {
  }

  lemma Unearned(p: Policy, r: Row, l: seq<Attempt>, k: nat)
    requires Tally(l, PeerVerdict) == r.attempts == k + 2 && k == (if p.maxAttempts <= 2 then 0 else p.maxAttempts - 2)
    requires p.maxAttempts > 0 && (r.status == Failed && r.lastError == AttemptsExhausted <==> k + 1 == p.maxAttempts)
    requires Terminal(r) ==> r.status == Failed
    ensures !Earned(p, r, l)
  {
  }

  /** Two late answers make up what was missing to all of a life's attempts, and do not exhaust the delivery. */
  lemma TwoTooMany(cfg: Config, k: nat)
    requires cfg.Valid() && cfg.workers >= 2 && !BatchFitsClaim(cfg)
    requires k == (if cfg.policy.maxAttempts <= 2 then 0 else cfg.policy.maxAttempts - 2)
    requires k > 0 ==> Waited(cfg.policy, k - 1) < cfg.policy.maxAge
    ensures !AlwaysEarned(cfg)
  {
    hide Reachable, Waited, Decide, RowAfter, Numbered;
    var s, o, r := BothAnswer(cfg, k, TRY_LATER, TRY_LATER);
    var item, now := Last(cfg, o), o.at + cfg.claimTimeout + 1;
    var a := AttemptFor(item, TRY_LATER, now);
    AllVerdicts(o.log);
    TallyAppend(o.log, a, PeerVerdict);
    TallyAppend(o.log + [a], a, PeerVerdict);
    hide Tally;
    ToldTwice(cfg, item, r, now);
    hide AttemptFor;
    Unearned(cfg.policy, s.Rows()[item.id], s.Life(item.id), k);
    hide Earned;
  }

  /** A delivery sent and then told to come back has spent two attempts on one verdict. */
  lemma SentComesBack(cfg: Config)
    requires cfg.Valid() && cfg.workers >= 2 && !BatchFitsClaim(cfg)
    requires cfg.policy.maxAttempts > 1 && cfg.policy.maxAge > cfg.claimTimeout + 1
    ensures !AlwaysEarned(cfg)
  {
    hide Reachable, Waited, Decide, RowAfter, Numbered;
    var s, o, r := BothAnswer(cfg, 0, SENT, TRY_LATER);
    var item, now := Last(cfg, o), cfg.claimTimeout + 2;
    var a1, a0 := AttemptFor(item, SENT, now), AttemptFor(item, TRY_LATER, now);
    TallyAppend([], a1, PeerVerdict);
    TallyAppend([] + [a1], a0, PeerVerdict);
    assert Tally(s.Life(item.id), PeerVerdict) == 1;
    hide Tally;
    SentThenTold(cfg, item, r, now);
    assert !Earned(cfg.policy, s.Rows()[item.id], s.Life(item.id));
  }

  /**
   * Two late answers show: at most three attempts, or backoffs that let all but the last three retries be waited
   * for within the age limit, or an age limit a late answer does not reach.
   */
  predicate ShowsTwoAnswers(cfg: Config) {
    || cfg.policy.maxAttempts <= 3
    || Waited(cfg.policy, cfg.policy.maxAttempts - 3) < cfg.policy.maxAge
    || cfg.policy.maxAge > cfg.claimTimeout + 1
  }

  lemma NotEarned(cfg: Config)
    requires cfg.Valid() && cfg.workers >= 2 && !BatchFitsClaim(cfg) && ShowsTwoAnswers(cfg)
    ensures !AlwaysEarned(cfg)
  {
    hide AlwaysEarned;
    var m := cfg.policy.maxAttempts;
    if m <= 2 {
      TwoTooMany(cfg, 0);
    } else if m == 3 || Waited(cfg.policy, m - 3) < cfg.policy.maxAge {
      TwoTooMany(cfg, m - 2);
    } else {
      SentComesBack(cfg);
    }
  }

  /**
   * Under any policy, attempts are answered for once and exhaustion is earned exactly when there is a single
   * worker or a whole batch fits in a claim. Exhaustion by itself is secured by workers, batch and timeouts,
   * whatever the policy, exactly then; and by each policy by itself, other than one of four attempts or more
   * whose backoffs outlast its age limit and whose age limit does not outlast a claim.
   */
  lemma EarnedExactly(cfg: Config)
    requires cfg.Valid()
    ensures AlwaysNumbered(cfg) && AlwaysEarned(cfg) <==> cfg.workers == 1 || BatchFitsClaim(cfg)
    ensures AlwaysNumbered(cfg) <==> cfg.workers == 1 || BatchFitsClaim(cfg)
    ensures (forall p: Policy :: p.Complete() ==> AlwaysEarned(cfg.(policy := p)))
            <==> cfg.workers == 1 || BatchFitsClaim(cfg)
    ensures ShowsTwoAnswers(cfg) ==> (AlwaysEarned(cfg) <==> cfg.workers == 1 || BatchFitsClaim(cfg))
  {
    hide AlwaysEarned, AlwaysNumbered;
    if cfg.workers == 1 || BatchFitsClaim(cfg) {
      ExhaustedMeansVerdicts(cfg);
      forall p: Policy | p.Complete()
        ensures AlwaysEarned(cfg.(policy := p))
      {
        ExhaustedMeansVerdicts(cfg.(policy := p));
      }
    } else {
      NotNumbered(cfg);
      NotEarned(cfg.(policy := cfg.policy.(maxAttempts := 1)));
      if ShowsTwoAnswers(cfg) {
        NotEarned(cfg);
      }
    }
  }

  // ------------------------------------------------ the bound is overrun as well

  /** One attempt, and an age limit that one release uses up. */
  function Hasty(p: Policy): Policy {
    Policy(1, p.backoff, 1)
  }

  /** Released once for want of capacity, then answered for twice: three outcomes where two are the most. */
  lemma Overrun(cfg: Config)
    requires cfg.Valid() && cfg.workers >= 2 && !BatchFitsClaim(cfg) && cfg.policy == Hasty(cfg.policy)
    ensures !LivesBounded(cfg)
  {
    hide Lossless, Alone, Reachable, Decide, RowAfter, Numbered;
    var first, o := ReleasedAlone(cfg);
    var s, r := BothAnswerFrom(cfg, first, o, TRY_LATER, TRY_LATER);
    var item, now := Last(cfg, o), o.at + cfg.claimTimeout + 1;
    var a := AttemptFor(item, TRY_LATER, now);
    ReleaseAndTwo(o.log, a);
    OneRelease(cfg.releaseDelay);
    hide Tally, AttemptFor, CeilDiv;
    assert s.Life(item.id) == o.log + [a] + [a];
    assert !Bounded(cfg, s.Life(item.id));
  }

  lemma ReleaseAndTwo(l: seq<Attempt>, a: Attempt)
    requires |l| == 1 && Counts(l[0], NoRoom) && Counts(a, Charged)
    ensures Tally(l + [a] + [a], Charged) == 2 && Tally(l + [a] + [a], NoRoom) == 1
  {
    TallyAppend(l, a, Charged);
    TallyAppend(l + [a], a, Charged);
    TallyAppend(l, a, NoRoom);
    TallyAppend(l + [a], a, NoRoom);
    assert l[..0] == [];
  }

  lemma OneRelease(delay: nat)
    requires delay > 0
    ensures CeilDiv(1, delay) == 1
  {
  }

  /**
   * A life is bounded whatever the retry policy exactly when there is one worker or a whole batch fits in a
   * claim.
   */
  lemma LifeIsBoundedExactly(cfg: Config)
    requires cfg.Valid()
    ensures (forall p: Policy :: p.Complete() ==> LivesBounded(cfg.(policy := p)))
            <==> cfg.workers == 1 || BatchFitsClaim(cfg)
  {
    hide LivesBounded;
    if cfg.workers == 1 || BatchFitsClaim(cfg) {
      forall p: Policy | p.Complete()
        ensures LivesBounded(cfg.(policy := p))
      {
        LifeIsBounded(cfg.(policy := p));
      }
    } else {
      Overrun(cfg.(policy := Hasty(cfg.policy)));
    }
  }
}
