/** Where every step leaves the rows, the records and the bodies, field by field; and how a life ends. */
module QueueOutcomes {
  import opened Channel
  import opened RetryPolicy
  import opened Deliveries
  import opened QueueWorker
  import opened QueueSystem
  import opened QueueExclusive
  import opened QueueFinality
  import opened QueueRace
  import opened QueueBudget

  /** Worker w's turn to settle its head item, of which it has a current copy, with a given answer. */
  ghost predicate Turn(cfg: Config, s: State, w: nat, v: Verdict) {
    && cfg.Valid() && s.WellFormed() && Enabled(cfg, s, SettleHead(w, v, true))
    && InHand(s, w, 0) && Copied(s, w, 0)
  }

  /** Nothing but one delivery's row, records and body differs. */
  ghost predicate OnlyTouches(s: State, s': State, id: Id) {
    && s'.now == s.now && s'.lives == s.lives
    && s'.Rows().Keys == s.Rows().Keys && s'.disk.table.log.Keys == s.disk.table.log.Keys
    && (forall o :: o in s.Rows() && o != id ==> s'.Rows()[o] == s.Rows()[o])
    && (forall o :: o in s.disk.table.log && o != id ==> s'.disk.table.log[o] == s.disk.table.log[o])
    && (forall o :: o != id ==> (o in s'.disk.spool <==> o in s.disk.spool))
    && (forall o :: o in s'.disk.spool && o in s.disk.spool ==> s'.disk.spool[o] == s.disk.spool[o])
  }

  /** One delivery settled: its new row, its one new record, and whether its body is still there. */
  ghost predicate Settled(s: State, s': State, id: Id, r: Row, a: Attempt, bodyKept: bool) {
    && OnlyTouches(s, s', id) && id in s.Rows() && id in s'.Rows() && id in s.disk.table.log && id in s'.disk.table.log
    && s'.Rows()[id] == r && s'.disk.table.log[id] == s.disk.table.log[id] + [a]
    && (id in s'.disk.spool <==> bodyKept && id in s.disk.spool)
  }

  /** A decision that is recorded settles the delivery. */
  lemma DecisionSettles(cfg: Config, s: State, w: nat, v: Verdict, d: Decision)
    requires Turn(cfg, s, w, v)
    requires d == Decide(cfg.policy, cfg.releaseDelay, s.hands[w].items[0], v, s.now)
    requires d.PutBack? ==> s.Rows()[s.hands[w].items[0].id].status == Sending
    ensures var s', id := Apply(cfg, s, SettleHead(w, v, true)), s.hands[w].items[0].id;
            var r, a := s.Rows()[id], AttemptFor(s.hands[w].items[0], v, s.now);
            Settled(s, s', id, RowAfter(r, d, a, s.now), RecordAfter(r, d, a, s.now), !d.Finished?)
  {
    hide Decide, AttemptFor, RowAfter, RecordAfter;
    var item := s.hands[w].items[0];
    RecordShape(s.disk.table, item, d, AttemptFor(item, v, s.now), s.now);
  }

  // ------------------------------------------------------------- the five classes

  /** Sent: delivered now, and the body goes. */
  lemma SentGoes(cfg: Config, s: State, w: nat, v: Verdict)
    requires Turn(cfg, s, w, v) && v.Answer? && v.cls == ResultClass.Sent
    ensures var s', id := Apply(cfg, s, SettleHead(w, v, true)), s.hands[w].items[0].id;
            var r, said := s.Rows()[id], if v.error == "" then NoReason else Said(v.error);
            Settled(s, s', id,
                    r.(status := Delivered, attempts := r.attempts + 1, nextAttemptAt := s.now, lastError := said,
                       lastClass := Some(Outcome(ResultClass.Sent)), updatedAt := s.now, sentAt := s.now),
                    Attempt(r.attempts + 1, Outcome(ResultClass.Sent), said, v.skip, s.now), false)
  {
    var item := s.hands[w].items[0];
    var r := s.Rows()[item.id];
    var d := Decide(cfg.policy, cfg.releaseDelay, item, v, s.now);
    DecisionSettles(cfg, s, w, v, d);
    hide Apply, Settled, Decide;
  }

  /** A permanent rejection: dead-lettered at once with its own reason, whatever the attempts and the age. */
  lemma PermanentGoes(cfg: Config, s: State, w: nat, v: Verdict)
    requires Turn(cfg, s, w, v) && v.Answer? && v.cls == Permanent
    ensures var s', id := Apply(cfg, s, SettleHead(w, v, true)), s.hands[w].items[0].id;
            var r, said := s.Rows()[id], if v.error == "" then NoReason else Said(v.error);
            Settled(s, s', id,
                    r.(status := Failed, attempts := r.attempts + 1, nextAttemptAt := s.now, lastError := said,
                       lastClass := Some(Outcome(Permanent)), updatedAt := s.now),
                    Attempt(r.attempts + 1, Outcome(Permanent), said, v.skip, s.now), true)
  {
    var item := s.hands[w].items[0];
    var r := s.Rows()[item.id];
    var d := Decide(cfg.policy, cfg.releaseDelay, item, v, s.now);
    DecisionSettles(cfg, s, w, v, d);
    hide Apply, Settled, Decide;
  }

  /** A body that cannot be read: dead-lettered as such. */
  lemma UnreadableGoes(cfg: Config, s: State, w: nat, v: Verdict)
    requires Turn(cfg, s, w, v) && v.Unreadable?
    ensures var s', id := Apply(cfg, s, SettleHead(w, v, true)), s.hands[w].items[0].id;
            var r, said := s.Rows()[id], if v.error == "" then NoReason else Said(v.error);
            Settled(s, s', id,
                    r.(status := Failed, attempts := r.attempts + 1, nextAttemptAt := s.now, lastError := PayloadGone,
                       lastClass := Some(PayloadMissing), updatedAt := s.now),
                    Attempt(r.attempts + 1, PayloadMissing, said, NoSkip, s.now), true)
  {
    var item := s.hands[w].items[0];
    var r := s.Rows()[item.id];
    var d := Decide(cfg.policy, cfg.releaseDelay, item, v, s.now);
    DecisionSettles(cfg, s, w, v, d);
    hide Apply, Settled, Decide;
  }

  /** How long the retry after the given number of attempts waits. */
  function Backoff(p: Policy, attempts: nat): nat
    requires p.backoff != []
  {
    p.backoff[if attempts < |p.backoff| then attempts else |p.backoff| - 1]
  }

  /** A transient failure: back in the queue after its backoff exactly while attempts and age allow it. */
  lemma TransientGoes(cfg: Config, s: State, w: nat, v: Verdict)
    requires Turn(cfg, s, w, v) && v.Answer? && v.cls == Transient
    ensures var s', id := Apply(cfg, s, SettleHead(w, v, true)), s.hands[w].items[0].id;
            var r, said := s.Rows()[id], if v.error == "" then NoReason else Said(v.error);
            var again := r.attempts + 1 < cfg.policy.maxAttempts && s.now - r.createdAt < cfg.policy.maxAge;
            Settled(s, s', id,
                    r.(status := if again then Queued else Failed, attempts := r.attempts + 1,
                       nextAttemptAt := if again then s.now + Backoff(cfg.policy, r.attempts + 1) else s.now,
                       lastError := if again then said
                                    else if r.attempts + 1 >= cfg.policy.maxAttempts then AttemptsExhausted
                                    else ExpiredInQueue,
                       lastClass := Some(Outcome(Transient)), updatedAt := s.now),
                    Attempt(r.attempts + 1, Outcome(Transient), said, v.skip, s.now), true)
  {
    var item := s.hands[w].items[0];
    var r := s.Rows()[item.id];
    var d := Decide(cfg.policy, cfg.releaseDelay, item, v, s.now);
    var again := r.attempts + 1 < cfg.policy.maxAttempts && s.now - r.createdAt < cfg.policy.maxAge;
    assert d == if again then Again(s.now + Backoff(cfg.policy, r.attempts + 1))
                else GiveUp(if r.attempts + 1 >= cfg.policy.maxAttempts then AttemptsExhausted else ExpiredInQueue);
    DecisionSettles(cfg, s, w, v, d);
    hide Apply, Settled, Decide;
  }

  /** No capacity, or no connection: back unspent after the release delay exactly while attempts and age allow it. */
  lemma NoRoomGoes(cfg: Config, s: State, w: nat, v: Verdict)
    requires Turn(cfg, s, w, v) && v.Answer? && (v.cls == ConnectError || v.cls == NotAttempted)
    requires s.Rows()[s.hands[w].items[0].id].status == Sending
    ensures var s', id := Apply(cfg, s, SettleHead(w, v, true)), s.hands[w].items[0].id;
            var r, said := s.Rows()[id], if v.error == "" then NoReason else Said(v.error);
            var full := NoCapacity(if v.detail != "" then v.detail else v.error);
            if r.attempts < cfg.policy.maxAttempts && s.now - r.createdAt < cfg.policy.maxAge then
              Settled(s, s', id,
                      r.(status := Queued, nextAttemptAt := s.now + cfg.releaseDelay, lastError := full,
                         lastClass := Some(Released), updatedAt := s.now),
                      Attempt(r.attempts, Released, full, v.skip, s.now), true)
            else
              Settled(s, s', id,
                      r.(status := Failed, attempts := r.attempts + 1, nextAttemptAt := s.now,
                         lastError := if r.attempts >= cfg.policy.maxAttempts then AttemptsExhausted
                                      else ExpiredInQueue,
                         lastClass := Some(Outcome(v.cls)), updatedAt := s.now),
                      Attempt(r.attempts + 1, Outcome(v.cls), said, v.skip, s.now), true)
  {
    var item := s.hands[w].items[0];
    var r := s.Rows()[item.id];
    var d := Decide(cfg.policy, cfg.releaseDelay, item, v, s.now);
    var again := r.attempts < cfg.policy.maxAttempts && s.now - r.createdAt < cfg.policy.maxAge;
    assert d == if again then PutBack(NoCapacity(if v.detail != "" then v.detail else v.error), v.skip,
                                      s.now + cfg.releaseDelay)
                else GiveUp(if r.attempts >= cfg.policy.maxAttempts then AttemptsExhausted else ExpiredInQueue);
    DecisionSettles(cfg, s, w, v, d);
    hide Apply, Settled, Decide;
  }

  /** A put-back for a row somebody else took back meanwhile, or any answer for one that is gone, changes no table. */
  lemma TooLateGoes(cfg: Config, s: State, w: nat, v: Verdict)
    requires cfg.Valid() && s.WellFormed() && Enabled(cfg, s, SettleHead(w, v, true))
    ensures var s', item := Apply(cfg, s, SettleHead(w, v, true)), s.hands[w].items[0];
            var full := v.Answer? && (v.cls == ConnectError || v.cls == NotAttempted) &&
                        item.attempts < cfg.policy.maxAttempts && s.now - item.createdAt < cfg.policy.maxAge;
            (item.id in s.Rows() ==> full && s.Rows()[item.id].status != Sending) ==>
              s'.disk.table == s.disk.table
  {
    hide AttemptFor;
    var item := s.hands[w].items[0];
    var d := Decide(cfg.policy, cfg.releaseDelay, item, v, s.now);
    var full := v.Answer? && (v.cls == ConnectError || v.cls == NotAttempted) &&
                item.attempts < cfg.policy.maxAttempts && s.now - item.createdAt < cfg.policy.maxAge;
    assert full ==> d.PutBack?;
    hide Decide;
  }

  /** Told to stop: what is still in flight goes back due at once, unspent. */
  lemma HandedBackGoes(cfg: Config, s: State, w: nat)
    requires cfg.Valid() && s.WellFormed() && Enabled(cfg, s, HandBackHead(w, true)) && InHand(s, w, 0)
    requires s.hands[w].items[0].id in s.Rows()
    ensures var s', id := Apply(cfg, s, HandBackHead(w, true)), s.hands[w].items[0].id;
            var r := s.Rows()[id];
            if r.status == Sending then
              Settled(s, s', id,
                      r.(status := Queued, nextAttemptAt := s.now, lastError := ShuttingDown,
                         lastClass := Some(Released), updatedAt := s.now),
                      Attempt(r.attempts, Released, ShuttingDown, NoSkip, s.now), true)
            else s'.disk == s.disk
  {
  }

  /** A write the store refuses leaves the tables alone; the body of what went out is gone all the same. */
  lemma RefusedGoes(cfg: Config, s: State, w: nat, v: Verdict)
    requires s.WellFormed() && Enabled(cfg, s, SettleHead(w, v, false)) && Enabled(cfg, s, HandBackHead(w, false))
    ensures var s', id := Apply(cfg, s, SettleHead(w, v, false)), s.hands[w].items[0].id;
            && s'.disk.table == s.disk.table
            && s'.disk.spool == if v.Answer? && v.cls == ResultClass.Sent then s.disk.spool - {id} else s.disk.spool
    ensures Apply(cfg, s, HandBackHead(w, false)).disk == s.disk
  {
  }

  /** Either way the worker goes on with the rest of its batch, at once, and the others with theirs. */
  lemma MovesOn(cfg: Config, s: State, e: Event, x: nat)
    requires s.WellFormed() && Enabled(cfg, s, e) && (e.SettleHead? || e.HandBackHead?)
    ensures var s', h := Apply(cfg, s, e), s.hands[e.worker];
            if x != e.worker then
              (x in s'.hands <==> x in s.hands) && (x in s.hands ==> s'.hands[x] == s.hands[x])
            else
              && (x in s'.hands <==> |h.items| > 1)
              && (x in s'.hands ==>
                    && s'.hands[x].items == h.items[1..] && s'.hands[x].claimedAt == h.claimedAt
                    && s'.hands[x].startedAt == s.now
                    && (s'.hands[x].loaded <==> h.items[1].id in s'.disk.spool))
  {
    hide Decide, AttemptFor, Record, Release;
  }

  // ------------------------------------------------------------- the other steps

  /** A new row is queued, due when it was created, and has no attempts and no records; the others are as they were. */
  lemma EnqueuedGoes(cfg: Config, s: State, ids: seq<Id>, created: Time, id: Id)
    requires s.WellFormed() && Enabled(cfg, s, InsertRows(ids, created))
    ensures var s' := Apply(cfg, s, InsertRows(ids, created));
            && (id in s'.Rows() <==> id in s.Rows() || id in ids)
            && (id in ids ==> s'.Rows()[id] == Row(Queued, 0, created, NoReason, None, created, created, 0, 0))
            && (id in ids ==> s'.disk.table.log[id] == [] && s'.lives[id] == 0)
            && (id in s.Rows() ==> s'.Rows()[id] == s.Rows()[id] && s'.disk.table.log[id] == s.disk.table.log[id])
            && s'.disk.spool == s.disk.spool
  {
  }

  /** A claimed row is in flight since now and otherwise as it was, and the worker has a copy of each in order. */
  lemma ClaimedGoes(cfg: Config, s: State, w: nat, ids: seq<Id>, id: Id)
    requires s.WellFormed() && Enabled(cfg, s, TakeBatch(w, ids)) && id in s.Rows()
    ensures var s' := Apply(cfg, s, TakeBatch(w, ids));
            && s'.Rows().Keys == s.Rows().Keys
            && s'.Rows()[id] == (if id in ids
                                 then s.Rows()[id].(status := Sending, updatedAt := s.now, claimedAt := s.now)
                                 else s.Rows()[id])
            && s'.disk.table.log == s.disk.table.log && s'.disk.spool == s.disk.spool && s'.lives == s.lives
            && w in s'.hands && |s'.hands[w].items| == |ids|
            && (forall i :: 0 <= i < |ids| ==>
                  ids[i] in s.Rows() &&
                  s'.hands[w].items[i] == Item(ids[i], s.Rows()[ids[i]].attempts, s.Rows()[ids[i]].createdAt))
  {
  }

  /** A batch is what is due, longest due first and oldest first among equals, up to the limit and none overtaken. */
  lemma ClaimedInOrder(cfg: Config, s: State, w: nat, ids: seq<Id>)
    requires s.WellFormed() && Enabled(cfg, s, TakeBatch(w, ids))
    ensures 0 < |ids| <= cfg.batch && forall i, j :: 0 <= i < j < |ids| ==> ids[i] != ids[j]
    ensures forall i :: 0 <= i < |ids| ==>
              ids[i] in s.Rows() && s.Rows()[ids[i]].status == Queued && s.Rows()[ids[i]].nextAttemptAt <= s.now
    ensures forall i, j :: 0 <= i < j < |ids| ==>
              var a, b := s.Rows()[ids[i]], s.Rows()[ids[j]];
              a.nextAttemptAt < b.nextAttemptAt ||
              (a.nextAttemptAt == b.nextAttemptAt && a.createdAt <= b.createdAt)
    ensures forall id :: id in s.Rows() && id !in ids ==>
              var b := s.Rows()[id];
              b.status == Queued && b.nextAttemptAt <= s.now ==>
                |ids| == cfg.batch &&
                forall i :: 0 <= i < |ids| ==>
                  s.Rows()[ids[i]].nextAttemptAt < b.nextAttemptAt ||
                  (s.Rows()[ids[i]].nextAttemptAt == b.nextAttemptAt && s.Rows()[ids[i]].createdAt <= b.createdAt)
  {
    hide Minted;
    assert Distinct(ids);
    forall i | 0 <= i < |ids|
      ensures Due(s.Rows(), ids[i], s.now)
    {
    }
  }

  /** The sweep requeues what has been in flight for longer than the claim timeout, due as it was, and nothing else. */
  lemma SweptGoes(cfg: Config, s: State, id: Id)
    requires s.WellFormed() && id in s.Rows()
    ensures var s', r := Apply(cfg, s, Sweep), s.Rows()[id];
            && s'.Rows().Keys == s.Rows().Keys
            && s'.Rows()[id] == (if r.status == Sending && 0 < r.claimedAt < s.now - cfg.claimTimeout
                                 then r.(status := Queued, updatedAt := s.now) else r)
            && s'.disk.table.log == s.disk.table.log && s'.disk.spool == s.disk.spool && s'.lives == s.lives
  {
  }

  /** A replay gives a failed delivery a new life, due at once, its creation time and its records kept. */
  lemma ReplayedGoes(cfg: Config, s: State, id: Id, o: Id)
    requires s.WellFormed() && o in s.Rows()
    ensures var s', r := Apply(cfg, s, Event.Replay(id)), s.Rows()[o];
            && s'.Rows().Keys == s.Rows().Keys
            && s'.Rows()[o] == (if o == id && r.status == Failed
                                then Row(Queued, 0, s.now, NoReason, None, r.createdAt, s.now, 0, r.sentAt) else r)
            && s'.lives[o] == (if o == id && r.status == Failed then |s.disk.table.log[o]| else s.lives[o])
            && s'.disk.table.log == s.disk.table.log && s'.disk.spool == s.disk.spool
  {
    hide Settle, HandBack, Deliveries.Claim, Insert, Prune;
  }

  /** Retention removes what was sent or failed longer ago than it is kept, with its records, and nothing else. */
  lemma PrunedGoes(cfg: Config, s: State, id: Id)
    requires s.WellFormed() && id in s.Rows()
    ensures var s', r := Apply(cfg, s, PruneRows), s.Rows()[id];
            && (id in s'.Rows() <==>
                  !(r.status == Delivered && r.updatedAt + cfg.sentRetention < s.now) &&
                  !(r.status == Failed && r.updatedAt + cfg.failedRetention < s.now))
            && (id in s'.Rows() ==> s'.Rows()[id] == r && s'.disk.table.log[id] == s.disk.table.log[id])
            && s'.Rows().Keys <= s.Rows().Keys && s'.disk.spool == s.disk.spool
  {
  }

  /** Bodies go by their own age alone. */
  lemma PrunedBodies(cfg: Config, s: State, id: Id)
    requires s.WellFormed()
    ensures var s' := Apply(cfg, s, PruneBodies);
            && (id in s'.disk.spool <==>
                  id in s.disk.spool && s.disk.spool[id].modified + cfg.failedRetention >= s.now)
            && (id in s'.disk.spool ==> s'.disk.spool[id] == s.disk.spool[id])
            && s'.disk.table == s.disk.table
  {
  }

  // --------------------------------------------------------- how a life ends

  /** After these a delivery is not tried again. */
  predicate Final(a: Attempt) {
    a.cls == Outcome(ResultClass.Sent) || a.cls == Outcome(Permanent) || a.cls == PayloadMissing
  }

  /**
   * A final record is the last of its life and the row says which it was; a delivery is sent on such a record
   * only, and given up on such a record or when its attempts or its age have run out.
   */
  predicate EndsWell(r: Row, l: seq<Attempt>) {
    && (forall i :: 0 <= i < |l| && Final(l[i]) ==>
          i == |l| - 1 && r.status == if l[i].cls == Outcome(ResultClass.Sent) then Delivered else Failed)
    && (r.status == Delivered ==> l != [] && l[|l| - 1].cls == Outcome(ResultClass.Sent))
    && (r.status == Failed ==>
          l != [] && (Final(l[|l| - 1]) || r.lastError == AttemptsExhausted || r.lastError == ExpiredInQueue))
  }

  ghost predicate AllEndWell(s: State) {
    s.WellFormed() && forall id :: id in s.Rows() ==> EndsWell(s.Rows()[id], s.Life(id))
  }

  /** What a new record must say of the row it leaves. */
  predicate Explains(a: Attempt, r: Row) {
    && (Final(a) ==> r.status == if a.cls == Outcome(ResultClass.Sent) then Delivered else Failed)
    && (r.status == Delivered ==> a.cls == Outcome(ResultClass.Sent))
    && (r.status == Failed ==> Final(a) || r.lastError == AttemptsExhausted || r.lastError == ExpiredInQueue)
  }

  /** One more record on a pending row. */
  lemma OneMoreEndsWell(r: Row, l: seq<Attempt>, r': Row, a: Attempt)
    requires EndsWell(r, l) && !Terminal(r) && Explains(a, r')
    ensures EndsWell(r', l + [a])
  {
  }

  lemma SettledEndsWell(s: State, s': State, id: Id, r: Row, a: Attempt, bodyKept: bool)
    requires AllEndWell(s) && s'.WellFormed() && Settled(s, s', id, r, a, bodyKept)
    requires !Terminal(s.Rows()[id]) && Explains(a, r)
    ensures AllEndWell(s')
  {
    hide EndsWell, Explains;
    forall o | o in s'.Rows()
      ensures EndsWell(s'.Rows()[o], s'.Life(o))
    {
      if o == id {
        assert s'.Life(o) == s.Life(o) + [a];
        OneMoreEndsWell(s.Rows()[o], s.Life(o), r, a);
      } else {
        assert s'.Life(o) == s.Life(o);
      }
    }
  }

  /** A life unchanged under a row that is as terminal as it was, or one just begun. */
  predicate SameEnd(s: State, s': State, id: Id)
    requires s.WellFormed() && s'.WellFormed() && id in s'.Rows()
  {
    || (s'.lives[id] == |s'.disk.table.log[id]| && s'.Rows()[id].status == Queued)
    || (id in s.Rows() && s'.lives[id] == s.lives[id] && s'.disk.table.log[id] == s.disk.table.log[id] &&
        ((s'.Rows()[id].status == s.Rows()[id].status && s'.Rows()[id].lastError == s.Rows()[id].lastError) ||
         (!Terminal(s'.Rows()[id]) && !Terminal(s.Rows()[id]))))
  }

  lemma SameEndsWell(s: State, s': State)
    requires AllEndWell(s) && s'.WellFormed()
    requires forall id :: id in s'.Rows() ==> SameEnd(s, s', id)
    ensures AllEndWell(s')
  {
    forall id | id in s'.Rows()
      ensures EndsWell(s'.Rows()[id], s'.Life(id))
    {
      if s'.lives[id] == |s'.disk.table.log[id]| && s'.Rows()[id].status == Queued {
        assert s'.Life(id) == [];
      } else {
        assert s'.Life(id) == s.Life(id);
      }
    }
  }

  lemma VerdictExplains(cfg: Config, r: Row, item: Item, v: Verdict, now: Time)
    requires cfg.Valid()
    ensures var d, a := Decide(cfg.policy, cfg.releaseDelay, item, v, now), AttemptFor(item, v, now);
            Explains(RecordAfter(r, d, a, now), RowAfter(r, d, a, now))
  {
  }

  lemma SettleEndsWell(cfg: Config, s: State, w: nat, v: Verdict)
    requires cfg.Valid() && AllCopied(s) && AllEndWell(s) && Enabled(cfg, s, SettleHead(w, v, true))
    ensures AllEndWell(Apply(cfg, s, SettleHead(w, v, true)))
  {
    hide EndsWell, Explains;
    assert InHand(s, w, 0) && Copied(s, w, 0);
    var s', item := Apply(cfg, s, SettleHead(w, v, true)), s.hands[w].items[0];
    var r, d, a := s.Rows()[item.id], Decide(cfg.policy, cfg.releaseDelay, item, v, s.now), AttemptFor(item, v, s.now);
    hide Decide, AttemptFor;
    if d.PutBack? && r.status != Sending {
      SameEndsWell(s, s');
    } else {
      DecisionSettles(cfg, s, w, v, d);
      VerdictExplains(cfg, r, item, v, s.now);
      hide Apply, Settled, RowAfter, RecordAfter;
      SettledEndsWell(s, s', item.id, RowAfter(r, d, a, s.now), RecordAfter(r, d, a, s.now), !d.Finished?);
    }
  }

  lemma HandBackEndsWell(cfg: Config, s: State, w: nat)
    requires cfg.Valid() && AllCopied(s) && AllEndWell(s) && Enabled(cfg, s, HandBackHead(w, true))
    ensures AllEndWell(Apply(cfg, s, HandBackHead(w, true)))
  {
    hide EndsWell;
    assert InHand(s, w, 0) && Copied(s, w, 0);
    var s', id := Apply(cfg, s, HandBackHead(w, true)), s.hands[w].items[0].id;
    var r := s.Rows()[id];
    HandedBackGoes(cfg, s, w);
    hide Apply, Settled;
    if r.status == Sending {
      var a := Attempt(r.attempts, Released, ShuttingDown, NoSkip, s.now);
      SettledEndsWell(s, s', id, r.(status := Queued, nextAttemptAt := s.now, lastError := ShuttingDown,
                                    lastClass := Some(Released), updatedAt := s.now), a, true);
    } else {
      assert s'.lives == s.lives;
      SameEndsWell(s, s');
    }
  }

  lemma ClaimEndsWell(cfg: Config, s: State, w: nat, ids: seq<Id>)
    requires AllEndWell(s) && Enabled(cfg, s, TakeBatch(w, ids))
    ensures AllEndWell(Apply(cfg, s, TakeBatch(w, ids)))
  {
    hide EndsWell;
    forall id | id in ids
      ensures Due(s.Rows(), id, s.now)
    {
      var i :| 0 <= i < |ids| && ids[i] == id;
    }
    hide Claimable;
    SameEndsWell(s, Apply(cfg, s, TakeBatch(w, ids)));
  }

  /** A write the store refuses changes no life. */
  lemma RefusedEndsWell(cfg: Config, s: State, e: Event)
    requires AllEndWell(s) && Enabled(cfg, s, e) && (e.SettleHead? || e.HandBackHead?) && !e.storeUp
    ensures AllEndWell(Apply(cfg, s, e))
  {
    hide EndsWell, Decide, AttemptFor, Record, Release;
    SameEndsWell(s, Apply(cfg, s, e));
  }

  lemma BegunEndsWell(cfg: Config, s: State, e: Event)
    requires AllEndWell(s) && Enabled(cfg, s, e) && (e.InsertRows? || e.Replay?)
    ensures AllEndWell(Apply(cfg, s, e))
  {
    hide EndsWell, Settle, HandBack, Deliveries.Claim, RecoverOrphans, Prune, Minted;
    SameEndsWell(s, Apply(cfg, s, e));
  }

  lemma OthersEndWell(cfg: Config, s: State, e: Event)
    requires AllEndWell(s) && Enabled(cfg, s, e)
    requires !e.TakeBatch? && !e.SettleHead? && !e.HandBackHead? && !e.InsertRows? && !e.Replay?
    ensures AllEndWell(Apply(cfg, s, e))
  {
    hide EndsWell, Settle, HandBack, Deliveries.Claim, Insert, Deliveries.Replay;
    SameEndsWell(s, Apply(cfg, s, e));
  }

  lemma StepEndsWell(cfg: Config, s: State, e: Event)
    requires cfg.Valid() && AllCopied(s) && AllEndWell(s) && Enabled(cfg, s, e)
    ensures AllEndWell(Apply(cfg, s, e))
  {
    match e {
      case SettleHead(w, v, true) => SettleEndsWell(cfg, s, w, v);
      case HandBackHead(w, true) => HandBackEndsWell(cfg, s, w);
      case SettleHead(_, _, false) => RefusedEndsWell(cfg, s, e);
      case HandBackHead(_, false) => RefusedEndsWell(cfg, s, e);
      case TakeBatch(w, ids) => ClaimEndsWell(cfg, s, w, ids);
      case InsertRows(_, _) => BegunEndsWell(cfg, s, e);
      case Replay(_) => BegunEndsWell(cfg, s, e);
      case _ => OthersEndWell(cfg, s, e);
    }
  }

  lemma {:induction false} RunsEndWell(cfg: Config, es: seq<Event>, s: State)
    requires cfg.Valid() && (cfg.workers == 1 || BatchFitsClaim(cfg)) && Run(cfg, es, true, s)
    ensures AllEndWell(s)
  {
    if es != [] {
      var n := |es| - 1;
      var before :| Run(cfg, es[..n], true, before) && Enabled(cfg, before, es[n]) &&
                    OnTime(cfg, before, es[n]) && s == Apply(cfg, before, es[n]);
      RunsEndWell(cfg, es[..n], before);
      CopiesAreCurrent(cfg, es[..n], before);
      hide Run, Apply, AllEndWell;
      StepEndsWell(cfg, before, es[n]);
    }
  }

  ghost predicate LivesEndWell(cfg: Config) {
    forall s: State, id: Id :: Reachable(cfg, true, s) && s.WellFormed() && id in s.Rows() ==>
                                 EndsWell(s.Rows()[id], s.Life(id))
  }

  lemma EveryLifeEndsWell(cfg: Config)
    requires cfg.Valid() && (cfg.workers == 1 || BatchFitsClaim(cfg))
    ensures LivesEndWell(cfg)
  {
    forall s: State, id: Id | Reachable(cfg, true, s) && s.WellFormed() && id in s.Rows()
      ensures EndsWell(s.Rows()[id], s.Life(id))
    {
      var es :| Run(cfg, es, true, s);
      RunsEndWell(cfg, es, s);
      hide Run;
    }
  }

  /** Sent, and then told to come back: a final record with another after it. */
  lemma EndsTwice(cfg: Config)
    requires cfg.Valid() && cfg.workers >= 2 && !BatchFitsClaim(cfg)
    ensures !LivesEndWell(cfg)
  {
    hide Reachable, Decide, RowAfter;
    var s, o, r := BothAnswer(cfg, 0, SENT, TRY_LATER);
    var id := Last(cfg, o).id;
    assert Final(s.Life(id)[0]);
    assert !EndsWell(s.Rows()[id], s.Life(id));
  }

  /**
   * In every timely run no delivery is tried again once it was sent, permanently rejected or found without its
   * body, and none is given up before that but for its attempts or its age, exactly when there is a single worker
   * or a whole batch fits in a claim.
   */
  lemma EndsWellExactly(cfg: Config)
    requires cfg.Valid()
    ensures LivesEndWell(cfg) <==> cfg.workers == 1 || BatchFitsClaim(cfg)
  {
    hide LivesEndWell;
    if cfg.workers == 1 || BatchFitsClaim(cfg) {
      EveryLifeEndsWell(cfg);
    } else {
      EndsTwice(cfg);
    }
  }
}
