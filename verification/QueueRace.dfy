/**
 * How two workers come to hold one delivery when a batch outlasts a claim: a run that meets every deadline and
 * loses no record, for any workers from two on, any batch and any timeouts.
 */
module QueueRace {
  import opened Channel
  import opened RetryPolicy
  import opened Deliveries
  import opened QueueWorker
  import opened QueueSystem
  import opened QueueExclusive

  const SENT := Answer(ResultClass.Sent, "", "", NoSkip)
  const TRY_LATER := Answer(Transient, "later", "later", NoSkip)

  function UpTo(n: nat): (ids: seq<Id>)
    ensures |ids| == n && forall i :: 0 <= i < n ==> ids[i] == i
  {
    seq(n, i => i)
  }

  /** n bodies spooled at the first instant, nothing else done yet. */
  lemma {:induction false} Spooled(cfg: Config, n: nat) returns (s: State)
    ensures Lossless(cfg, s) && s.WellFormed()
    ensures s.now == 1 && s.Rows() == map[] && s.hands == map[]
    ensures forall id :: 0 <= id < n ==> id in s.disk.spool && s.disk.spool[id].modified == 1
  {
    hide Lossless;
    if n == 0 {
      s := START;
      StartIsLossless(cfg);
    } else {
      var before := Spooled(cfg, n - 1);
      var e := PutBody(n - 1, "body");
      StepIsLossless(cfg, before, e);
      s := Apply(cfg, before, e);
    }
  }

  // ------------------------------------------------- the delivery in question

  /** The delivery that will be contested, queued and due at an instant, with the records of its life so far. */
  datatype Origin = Origin(at: Time, row: Row, log: seq<Attempt>)

  predicate Waiting(o: Origin) {
    o.row.status == Queued && o.row.createdAt == 1 <= o.row.nextAttemptAt <= o.at
  }

  /** It goes last in its batch. */
  function Last(cfg: Config, o: Origin): Item
    requires cfg.batch >= 1
  {
    Item(cfg.batch - 1, o.row.attempts, o.row.createdAt)
  }

  /** The row as it stands, its body, and its whole log. */
  predicate Stands(s: State, id: Id, r: Row, l: seq<Attempt>)
    requires s.WellFormed()
  {
    && id in s.Rows() && s.Rows()[id] == r && s.disk.table.log[id] == l && s.lives[id] == 0
    && id in s.disk.spool
  }

  /** That delivery alone in the tables, and bodies for a whole batch. */
  ghost predicate Alone(cfg: Config, s: State, o: Origin) {
    && cfg.batch >= 1 && s.WellFormed() && s.now == o.at && s.hands == map[]
    && s.Rows().Keys == {cfg.batch - 1} && Stands(s, cfg.batch - 1, o.row, o.log)
    && forall id :: 0 <= id < cfg.batch ==> id in s.disk.spool && s.disk.spool[id].modified == 1
  }

  /** Just enqueued, at the first instant. */
  function Untried(): Origin {
    Origin(1, NewRow(1), [])
  }

  lemma EnqueuedAlone(cfg: Config) returns (s: State)
    requires cfg.Valid()
    ensures Lossless(cfg, s) && Alone(cfg, s, Untried())
  {
    hide Lossless;
    var s0 := Spooled(cfg, cfg.batch);
    var e := InsertRows([cfg.batch - 1], 1);
    StepIsLossless(cfg, s0, e);
    s := Apply(cfg, s0, e);
    assert s.Rows().Keys == {cfg.batch - 1};
  }

  /** How long the first k retries wait. */
  function Waited(p: Policy, k: nat): nat {
    if k == 0 then 0 else Waited(p, k - 1) + p.Delay(k)
  }

  /** Tried k times, each time as soon as it was due, and told to come back each time. */
  ghost predicate Tried(cfg: Config, o: Origin, k: nat) {
    && Waiting(o) && o.at == 1 + Waited(cfg.policy, k) && o.row.attempts == k == |o.log|
    && forall i :: 0 <= i < k ==> o.log[i].cls == Outcome(Transient)
  }

  /** That delivery alone in worker 0's hands. */
  ghost predicate InTry(cfg: Config, s: State, o: Origin) {
    && cfg.batch >= 1 && s.WellFormed() && s.now == o.at
    && s.hands == map[0 := Hand(o.at, o.at, true, [Last(cfg, o)])]
    && s.Rows().Keys == {cfg.batch - 1} && Stands(s, cfg.batch - 1, Claimed(o.row, o.at), o.log)
    && forall id :: 0 <= id < cfg.batch ==> id in s.disk.spool && s.disk.spool[id].modified == 1
  }

  lemma TakenAlone(cfg: Config, s: State, o: Origin)
    requires cfg.Valid() && Alone(cfg, s, o) && Waiting(o)
    ensures Enabled(cfg, s, TakeBatch(0, [cfg.batch - 1]))
    ensures InTry(cfg, Apply(cfg, s, TakeBatch(0, [cfg.batch - 1])), o)
  {
    assert Claimable(s.Rows(), cfg.batch, s.now, [cfg.batch - 1]);
    var s1 := Apply(cfg, s, TakeBatch(0, [cfg.batch - 1]));
    assert s1.hands[0].items == [Last(cfg, o)];
  }

  /** What "try later" leaves, at the instant it names. */
  function ComesBack(cfg: Config, o: Origin, k: nat): Origin
    requires cfg.batch >= 1
  {
    var a, to := AttemptFor(Last(cfg, o), TRY_LATER, o.at), o.at + cfg.policy.Delay(k + 1);
    Origin(to, Deliveries.Finished(Claimed(o.row, o.at), Queued, a, NoReason, to, o.at), o.log + [a])
  }

  lemma ToldToComeBack(cfg: Config, s: State, o: Origin, k: nat)
    requires cfg.Valid() && InTry(cfg, s, o) && Tried(cfg, o, k)
    requires k + 1 < cfg.policy.maxAttempts && Waited(cfg.policy, k) < cfg.policy.maxAge
    ensures var s', o' := Apply(cfg, s, SettleHead(0, TRY_LATER, true)), ComesBack(cfg, o, k);
            s'.now == o.at && Alone(cfg, s'.(now := o'.at), o') && Tried(cfg, o', k + 1)
  {
    assert Decide(cfg.policy, cfg.releaseDelay, Last(cfg, o), TRY_LATER, o.at) == Again(o.at + cfg.policy.Delay(k + 1));
    hide Decide;
    assert Apply(cfg, s, SettleHead(0, TRY_LATER, true)).hands == map[];
  }

  lemma OneMoreTry(cfg: Config, s: State, o: Origin, k: nat) returns (s': State, o': Origin)
    requires cfg.Valid() && Lossless(cfg, s) && Alone(cfg, s, o) && Tried(cfg, o, k)
    requires k + 1 < cfg.policy.maxAttempts && Waited(cfg.policy, k) < cfg.policy.maxAge
    ensures Lossless(cfg, s') && Alone(cfg, s', o') && Tried(cfg, o', k + 1)
  {
    hide Lossless, Settle, Waited;
    TakenAlone(cfg, s, o);
    StepIsLossless(cfg, s, TakeBatch(0, [cfg.batch - 1]));
    var s1 := Apply(cfg, s, TakeBatch(0, [cfg.batch - 1]));
    ToldToComeBack(cfg, s1, o, k);
    StepIsLossless(cfg, s1, SettleHead(0, TRY_LATER, true));
    var s2 := Apply(cfg, s1, SettleHead(0, TRY_LATER, true));
    o' := ComesBack(cfg, o, k);
    StepIsLossless(cfg, s2, Tick(o'.at));
    s' := s2.(now := o'.at);
  }

  lemma {:induction false} TriedAlone(cfg: Config, k: nat) returns (s: State, o: Origin)
    requires cfg.Valid() && k < cfg.policy.maxAttempts && (k > 0 ==> Waited(cfg.policy, k - 1) < cfg.policy.maxAge)
    ensures Lossless(cfg, s) && Alone(cfg, s, o) && Tried(cfg, o, k)
    ensures k == 0 ==> o == Untried()
  {
    hide Lossless, Alone;
    if k == 0 {
      o := Untried();
      s := EnqueuedAlone(cfg);
    } else {
      var s0, o0 := TriedAlone(cfg, k - 1);
      s, o := OneMoreTry(cfg, s0, o0, k - 1);
    }
  }

  const NO_ROOM := Answer(NotAttempted, "", "full", QuotaExhausted)

  /** What a release for want of capacity leaves, at the instant it names. */
  function PutOff(cfg: Config): Origin {
    var o, to := Untried(), 1 + cfg.releaseDelay;
    Origin(to, Claimed(o.row, 1).(status := Queued, nextAttemptAt := to, lastError := NoCapacity("full"),
                                  lastClass := Some(Released), updatedAt := 1),
           [Attempt(0, Released, NoCapacity("full"), QuotaExhausted, 1)])
  }

  lemma PutOffOnce(cfg: Config, s: State)
    requires cfg.Valid() && InTry(cfg, s, Untried())
    ensures var s', o' := Apply(cfg, s, SettleHead(0, NO_ROOM, true)), PutOff(cfg);
            s'.now == 1 && Waiting(o') && Alone(cfg, s'.(now := o'.at), o')
  {
    assert Apply(cfg, s, SettleHead(0, NO_ROOM, true)).hands == map[];
  }

  /** Released once, as soon as it was enqueued. */
  lemma ReleasedAlone(cfg: Config) returns (s: State, o: Origin)
    requires cfg.Valid()
    ensures Lossless(cfg, s) && Alone(cfg, s, o) && Waiting(o) && o.row.attempts == 0
    ensures |o.log| == 1 && o.log[0].cls == Released && o.log[0].error.NoCapacity?
  {
    hide Lossless, Settle;
    var s0 := EnqueuedAlone(cfg);
    TakenAlone(cfg, s0, Untried());
    StepIsLossless(cfg, s0, TakeBatch(0, [cfg.batch - 1]));
    var s1 := Apply(cfg, s0, TakeBatch(0, [cfg.batch - 1]));
    PutOffOnce(cfg, s1);
    StepIsLossless(cfg, s1, SettleHead(0, NO_ROOM, true));
    var s2 := Apply(cfg, s1, SettleHead(0, NO_ROOM, true));
    o := PutOff(cfg);
    StepIsLossless(cfg, s2, Tick(o.at));
    s := s2.(now := o.at);
  }

  // ------------------------------------------------------- a full batch of it

  /** The rest of a batch enqueued beside it, older than it or as old. */
  ghost predicate Enqueued(cfg: Config, s: State, o: Origin) {
    && cfg.batch >= 1 && Waiting(o) && s.WellFormed() && s.now == o.at && s.hands == map[]
    && (forall id :: id in s.Rows() <==> 0 <= id < cfg.batch)
    && (forall id :: id in s.Rows() ==> id in s.disk.spool)
    && (forall id :: id in s.Rows() && id < cfg.batch - 1 ==> s.Rows()[id] == NewRow(1))
    && Stands(s, cfg.batch - 1, o.row, o.log)
  }

  lemma RestEnqueued(cfg: Config, s0: State, o: Origin)
    requires Alone(cfg, s0, o) && Waiting(o)
    ensures Enabled(cfg, s0, InsertRows(UpTo(cfg.batch - 1), 1))
    ensures Enqueued(cfg, Apply(cfg, s0, InsertRows(UpTo(cfg.batch - 1), 1)), o)
  {
    var ids := UpTo(cfg.batch - 1);
    var s := Apply(cfg, s0, InsertRows(ids, 1));
    forall id
      ensures id in s.Rows() <==> 0 <= id < cfg.batch
    {
      assert 0 <= id < cfg.batch - 1 ==> ids[id] == id;
    }
  }

  lemma EnqueueRest(cfg: Config, s0: State, o: Origin) returns (s: State)
    requires Lossless(cfg, s0) && Alone(cfg, s0, o) && Waiting(o)
    ensures Lossless(cfg, s) && Enqueued(cfg, s, o)
  {
    RestEnqueued(cfg, s0, o);
    hide Lossless, Apply, Enabled, Enqueued;
    var e := InsertRows(UpTo(cfg.batch - 1), 1);
    StepIsLossless(cfg, s0, e);
    s := Apply(cfg, s0, e);
  }

  lemma WholeBatchClaimable(cfg: Config, s: State, o: Origin)
    requires Enqueued(cfg, s, o)
    ensures Claimable(s.Rows(), cfg.batch, s.now, UpTo(cfg.batch))
  {
    var ids := UpTo(cfg.batch);
    forall i | 0 <= i < |ids|
      ensures Due(s.Rows(), ids[i], s.now)
    {
      assert ids[i] in s.Rows();
    }
    forall id: Id | Due(s.Rows(), id, s.now)
      ensures id in ids
    {
      assert ids[id] == id;
    }
  }

  // ------------------------------------------------------------ falling behind

  /** When worker 0 is done with its first k items: at their deadlines, but in time to begin the last one as planned. */
  function Pace(cfg: Config, o: Origin, k: nat): int {
    var planned := o.at + cfg.claimTimeout + 1 - cfg.deliverTimeout;
    if o.at + k * cfg.deliverTimeout <= planned then o.at + k * cfg.deliverTimeout else planned
  }

  lemma NextPace(cfg: Config, o: Origin, k: nat)
    requires cfg.Valid()
    ensures o.at <= Pace(cfg, o, k) <= Pace(cfg, o, k + 1) <= Pace(cfg, o, k) + cfg.deliverTimeout
  {
    assert (k + 1) * cfg.deliverTimeout == k * cfg.deliverTimeout + cfg.deliverTimeout;
  }

  lemma LastPace(cfg: Config, o: Origin)
    requires cfg.Valid() && !BatchFitsClaim(cfg)
    ensures Pace(cfg, o, cfg.batch - 1) + cfg.deliverTimeout == o.at + cfg.claimTimeout + 1
  {
    assert cfg.batch * cfg.deliverTimeout == (cfg.batch - 1) * cfg.deliverTimeout + cfg.deliverTimeout;
  }

  /** Worker 0 has claimed the full batch at the starting instant and finished its first k items. */
  ghost predicate Behind(cfg: Config, s: State, o: Origin, k: nat) {
    && k < cfg.batch && s.WellFormed() && s.now == Pace(cfg, o, k)
    && HandBehind(cfg, s, o, k) && RowsBehind(cfg, s, o, k)
  }

  ghost predicate HandBehind(cfg: Config, s: State, o: Origin, k: nat)
    requires k < cfg.batch
  {
    && s.hands.Keys == {0}
    && s.hands[0].startedAt == s.now && s.hands[0].loaded
    && |s.hands[0].items| == cfg.batch - k
    && (forall i :: 0 <= i < cfg.batch - k ==> s.hands[0].items[i].id == k + i)
    && s.hands[0].items[cfg.batch - 1 - k] == Last(cfg, o)
  }

  ghost predicate RowsBehind(cfg: Config, s: State, o: Origin, k: nat)
    requires k < cfg.batch && s.WellFormed()
  {
    && (forall id :: id in s.Rows() <==> 0 <= id < cfg.batch)
    && (forall id :: id in s.Rows() && id < k ==> s.Rows()[id].status == Delivered)
    && (forall id :: id in s.Rows() && id >= k ==> id in s.disk.spool)
    && Stands(s, cfg.batch - 1, Claimed(o.row, o.at), o.log)
  }

  lemma BatchTaken(cfg: Config, s1: State, o: Origin)
    requires cfg.Valid() && Enqueued(cfg, s1, o) && Enabled(cfg, s1, TakeBatch(0, UpTo(cfg.batch)))
    ensures Behind(cfg, Apply(cfg, s1, TakeBatch(0, UpTo(cfg.batch))), o, 0)
  {
    hide Claimable;
    var ids := UpTo(cfg.batch);
    assert ids[0] == 0 && ids[cfg.batch - 1] == cfg.batch - 1;
  }

  lemma FullBatch(cfg: Config, s0: State, o: Origin) returns (s: State)
    requires cfg.Valid() && Lossless(cfg, s0) && Alone(cfg, s0, o) && Waiting(o)
    ensures Lossless(cfg, s) && Behind(cfg, s, o, 0)
  {
    hide Lossless, Claimable, Behind;
    var ids := UpTo(cfg.batch);
    var s1 := EnqueueRest(cfg, s0, o);
    WholeBatchClaimable(cfg, s1, o);
    assert Enabled(cfg, s1, TakeBatch(0, ids));
    StepIsLossless(cfg, s1, TakeBatch(0, ids));
    s := Apply(cfg, s1, TakeBatch(0, ids));
    BatchTaken(cfg, s1, o);
  }

  /** What a sent head item leaves behind: the rest of the batch, and the rest of the rows. */
  lemma SettledSent(cfg: Config, s0: State, s1: State, o: Origin, k: nat)
    requires k + 1 < cfg.batch && Behind(cfg, s0, o, k) && Pace(cfg, o, k + 1) >= 0
    requires s1 == s0.(now := Pace(cfg, o, k + 1)) && Enabled(cfg, s1, SettleHead(0, SENT, true))
    ensures Behind(cfg, Apply(cfg, s1, SettleHead(0, SENT, true)), o, k + 1)
  {
    var s := Apply(cfg, s1, SettleHead(0, SENT, true));
    hide Pace;
    assert s.disk.spool == s1.disk.spool - {k};
    SentRows(cfg, s1, s, o, k);
    SentHand(cfg, s0, s1, s, o, k);
    hide RowsBehind, HandBehind, Settle;
  }

  lemma SentHand(cfg: Config, s0: State, s1: State, s: State, o: Origin, k: nat)
    requires k + 1 < cfg.batch && HandBehind(cfg, s0, o, k) && s1.hands == s0.hands && s.now == s1.now
    requires s.hands == NextItem(s1, s.disk.spool, 0) && k + 1 in s.disk.spool
    ensures HandBehind(cfg, s, o, k + 1)
  {
    assert s.hands[0].items == s1.hands[0].items[1..];
  }

  lemma SentDisk(cfg: Config, disk: Disk, item: Item, now: Time)
    requires disk.table.Valid()
    ensures Settle(cfg.policy, cfg.releaseDelay, disk, item, SENT, now, true) ==
            Disk(Complete(disk.table, item.id, AttemptFor(item, SENT, now), now), disk.spool - {item.id})
  {
  }

  lemma SentRows(cfg: Config, s1: State, s: State, o: Origin, k: nat)
    requires k + 1 < cfg.batch && s1.WellFormed() && s.WellFormed() && RowsBehind(cfg, s1, o, k)
    requires s1.hands.Keys == {0} && s1.hands[0].items != [] && s1.hands[0].items[0].id == k
    requires s.disk == Settle(cfg.policy, cfg.releaseDelay, s1.disk, s1.hands[0].items[0], SENT, s1.now, true)
    requires s.lives == s1.lives
    ensures RowsBehind(cfg, s, o, k + 1)
  {
    SentDisk(cfg, s1.disk, s1.hands[0].items[0], s1.now);
    hide Settle, AttemptFor;
  }

  /** One more item sent. */
  lemma OneMoreItem(cfg: Config, s0: State, o: Origin, k: nat) returns (s: State)
    requires cfg.Valid() && k + 1 < cfg.batch && Lossless(cfg, s0) && Behind(cfg, s0, o, k)
    ensures Lossless(cfg, s) && Behind(cfg, s, o, k + 1)
  {
    hide Lossless;
    NextPace(cfg, o, k);
    var e := Tick(Pace(cfg, o, k + 1));
    StepIsLossless(cfg, s0, e);
    var s1 := s0.(now := e.to);
    assert Apply(cfg, s0, e) == s1;
    SettledSent(cfg, s0, s1, o, k);
    hide Apply;
    StepIsLossless(cfg, s1, SettleHead(0, SENT, true));
    s := Apply(cfg, s1, SettleHead(0, SENT, true));
  }

  lemma {:induction false} FallBehind(cfg: Config, first: State, o: Origin, k: nat) returns (s: State)
    requires cfg.Valid() && k < cfg.batch && Lossless(cfg, first) && Alone(cfg, first, o) && Waiting(o)
    ensures Lossless(cfg, s) && Behind(cfg, s, o, k)
  {
    hide Lossless, Alone, Behind;
    if k == 0 {
      s := FullBatch(cfg, first, o);
    } else {
      var s0 := FallBehind(cfg, first, o, k - 1);
      s := OneMoreItem(cfg, s0, o, k - 1);
    }
  }

  // ----------------------------------------------------------- being overtaken

  /** Worker 0 is still on time with its last item, and that item is back in the queue. */
  ghost predicate Swept(cfg: Config, s: State, o: Origin) {
    && cfg.batch >= 1 && s.WellFormed() && s.now == o.at + cfg.claimTimeout + 1 && s.hands.Keys == {0}
    && s.hands[0].loaded && s.hands[0].items == [Last(cfg, o)]
    && Stands(s, Last(cfg, o).id, Claimed(o.row, o.at).(status := Queued, updatedAt := s.now), o.log)
    && forall id :: id in s.Rows() && id != Last(cfg, o).id ==> s.Rows()[id].status == Delivered
  }

  lemma SweepFrees(cfg: Config, s0: State, s1: State, o: Origin)
    requires cfg.Valid() && Waiting(o) && Behind(cfg, s0, o, cfg.batch - 1)
    requires s1 == s0.(now := o.at + cfg.claimTimeout + 1)
    ensures Swept(cfg, Apply(cfg, s1, Sweep), o)
  {
    assert Expired(s1.Rows()[cfg.batch - 1], cfg.claimTimeout, s1.now);
    assert s0.hands[0].items == [Last(cfg, o)];
  }

  lemma SweptLate(cfg: Config, first: State, o: Origin) returns (s: State)
    requires cfg.Valid() && !BatchFitsClaim(cfg) && Lossless(cfg, first) && Alone(cfg, first, o) && Waiting(o)
    ensures Lossless(cfg, s) && Swept(cfg, s, o)
  {
    hide Lossless, Alone;
    var s0 := FallBehind(cfg, first, o, cfg.batch - 1);
    LastPace(cfg, o);
    var e := Tick(o.at + cfg.claimTimeout + 1);
    StepIsLossless(cfg, s0, e);
    var s1 := s0.(now := e.to);
    assert Apply(cfg, s0, e) == s1;
    SweepFrees(cfg, s0, s1, o);
    StepIsLossless(cfg, s1, Sweep);
    s := Apply(cfg, s1, Sweep);
  }

  /** Two workers, both on time, have the same delivery in hand as it was. */
  ghost predicate Contested(cfg: Config, s: State, o: Origin) {
    && cfg.batch >= 1 && s.WellFormed() && s.now == o.at + cfg.claimTimeout + 1 && s.hands.Keys == {0, 1}
    && (forall w :: w in s.hands ==> s.hands[w].loaded && s.hands[w].items == [Last(cfg, o)])
    && Last(cfg, o).id in s.Rows() && Stands(s, Last(cfg, o).id, s.Rows()[Last(cfg, o).id], o.log)
    && var r := s.Rows()[Last(cfg, o).id];
       r.status == Sending && r.attempts == o.row.attempts && r.createdAt == o.row.createdAt
  }

  lemma Contest(cfg: Config, first: State, o: Origin) returns (s: State)
    requires cfg.Valid() && cfg.workers >= 2 && !BatchFitsClaim(cfg)
    requires Lossless(cfg, first) && Alone(cfg, first, o) && Waiting(o)
    ensures Lossless(cfg, s) && Contested(cfg, s, o)
  {
    hide Lossless, Alone;
    var s2 := SweptLate(cfg, first, o);
    var ids := [Last(cfg, o).id];
    assert Claimable(s2.Rows(), cfg.batch, s2.now, ids);
    StepIsLossless(cfg, s2, TakeBatch(1, ids));
    s := Apply(cfg, s2, TakeBatch(1, ids));
    assert s.hands[1].items == [Last(cfg, o)];
  }

  lemma ContestedLate(cfg: Config, o: Origin) returns (s: State)
    requires cfg.Valid() && cfg.workers >= 2 && !BatchFitsClaim(cfg) && o == Untried()
    ensures Lossless(cfg, s) && Contested(cfg, s, o)
  {
    var first := EnqueuedAlone(cfg);
    s := Contest(cfg, first, o);
  }

  /** Worker 1 answers first. */
  lemma FirstAnswer(cfg: Config, s0: State, o: Origin, v: Verdict) returns (s: State)
    requires cfg.Valid() && Lossless(cfg, s0) && Contested(cfg, s0, o) && v.Answer?
    ensures Enabled(cfg, s0, SettleHead(1, v, true))
    ensures Lossless(cfg, s) && s == Apply(cfg, s0, SettleHead(1, v, true))
    ensures s.hands.Keys == {0} && s.hands[0] == s0.hands[0] && s.now == s0.now
  {
    hide Lossless;
    StepIsLossless(cfg, s0, SettleHead(1, v, true));
    s := Apply(cfg, s0, SettleHead(1, v, true));
    assert s.hands == s0.hands - {1};
  }
}
