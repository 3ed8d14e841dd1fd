/**
 * The queue as it runs: several workers, a sweep, retention, operators and crashes, interleaved at the
 * granularity of one store transaction or one spool operation, against a clock that never goes back.
 */
module QueueSystem {
  import opened Channel
  import opened RetryPolicy
  import opened Deliveries
  import opened QueueWorker
  import Spool

  datatype Config = Config(
    workers: nat, batch: nat,
    deliverTimeout: nat, claimTimeout: nat, releaseDelay: nat,
    sentRetention: nat, failedRetention: nat,
    policy: Policy)
  {
    /** What configuration validation and the defaults guarantee; note the one relation between the timeouts. */
    predicate Valid() {
      && workers >= 1 && batch >= 1
      && 0 < deliverTimeout < claimTimeout
      && releaseDelay > 0 && sentRetention > 0 && failedRetention > 0
      && policy.Complete()
    }
  }

  /**
   * A worker's batch: when it was claimed, when the item now in progress was begun, whether that item's body
   * was there to be read then, and what is left.
   */
  datatype Hand = Hand(claimedAt: Time, startedAt: Time, loaded: bool, items: seq<Item>)

  /**
   * lives is a history variable: how many attempt records each delivery already had when its current life
   * began, that is, at its enqueue or its last replay.
   */
  datatype State = State(now: Time, disk: Disk, hands: map<nat, Hand>, lives: map<Id, nat>) {
    function Rows(): map<Id, Row> { disk.table.rows }

    predicate WellFormed() {
      && disk.table.log.Keys == disk.table.rows.Keys
      && lives.Keys == disk.table.rows.Keys
      && forall id :: id in lives ==> lives[id] <= |disk.table.log[id]|
    }

    /** The attempt records of the current life. */
    function Life(id: Id): seq<Attempt>
      requires WellFormed() && id in Rows()
    {
      disk.table.log[id][lives[id]..]
    }
  }

  const START := State(1, Disk(Table(map[], map[]), map[]), map[], map[])

  datatype Event =
    | Tick(to: Time)
    | PutBody(id: Id, body: string)
    | DropBody(id: Id)
    | InsertRows(ids: seq<Id>, created: Time)
    | TakeBatch(worker: nat, ids: seq<Id>)
    | SettleHead(worker: nat, verdict: Verdict, storeUp: bool)
    | HandBackHead(worker: nat, storeUp: bool)
    | Crash(worker: nat)
    | Sweep
    | Replay(id: Id)
    | PruneRows
    | PruneBodies

  /** Identifiers are minted unique: nobody has one in hand from an earlier row. */
  ghost predicate Minted(s: State, ids: seq<Id>) {
    forall w, i :: w in s.hands && 0 <= i < |s.hands[w].items| ==> s.hands[w].items[i].id !in ids
  }

  ghost predicate Enabled(cfg: Config, s: State, e: Event) {
    match e
    case Tick(to) => to >= s.now
    case PutBody(id, _) => id !in s.Rows()
    case DropBody(id) => id !in s.Rows()
    case InsertRows(ids, created) =>
      && created <= s.now && Insertable(s.disk.table, ids) && Minted(s, ids)
      && forall id :: id in ids ==> id in s.disk.spool && created <= s.disk.spool[id].modified
    case TakeBatch(w, ids) =>
      w < cfg.workers && w !in s.hands && ids != [] && Claimable(s.Rows(), cfg.batch, s.now, ids)
    case SettleHead(w, v, _) =>
      && w in s.hands && s.hands[w].items != []
      && (!s.hands[w].loaded ==> v.Unreadable?)
    case HandBackHead(w, _) => w in s.hands && s.hands[w].items != []
    case Crash(w) => w in s.hands
    case Sweep => true
    case Replay(_) => true
    case PruneRows => true
    case PruneBodies => true
  }

  /** One process() takes at most the deliver timeout: time does not pass a worker's deadline for its current item. */
  predicate OnTime(cfg: Config, s: State, e: Event) {
    e.Tick? ==> forall w :: w in s.hands ==> e.to <= s.hands[w].startedAt + cfg.deliverTimeout
  }

  function ItemsOf(rows: map<Id, Row>, ids: seq<Id>): (items: seq<Item>)
    requires forall i :: 0 <= i < |ids| ==> ids[i] in rows
    ensures |items| == |ids|
    ensures forall i :: 0 <= i < |ids| ==> items[i] == Item(ids[i], rows[ids[i]].attempts, rows[ids[i]].createdAt)
  {
    seq(|ids|, i requires 0 <= i < |ids| => Item(ids[i], rows[ids[i]].attempts, rows[ids[i]].createdAt))
  }

  /** The worker moves on to its next item, or is idle again. */
  function NextItem(s: State, spool: map<Id, Spool.File>, w: nat): map<nat, Hand>
    requires w in s.hands && s.hands[w].items != []
  {
    var h := s.hands[w];
    if |h.items| == 1 then s.hands - {w}
    else s.hands[w := Hand(h.claimedAt, s.now, h.items[1].id in spool, h.items[1..])]
  }

  /** Worker w writes its head item down as the disk then stands, and moves on. */
  function Written(s: State, w: nat, disk: Disk): (s': State)
    requires s.WellFormed() && w in s.hands && s.hands[w].items != []
    requires disk.table.log.Keys == disk.table.rows.Keys == s.disk.table.rows.Keys
    requires forall id :: id in s.lives ==> |disk.table.log[id]| >= |s.disk.table.log[id]|
    ensures s'.WellFormed()
  {
    s.(disk := disk, hands := NextItem(s, disk.spool, w))
  }

  ghost function Apply(cfg: Config, s: State, e: Event): (s': State)
    requires s.WellFormed() && Enabled(cfg, s, e)
    ensures s'.WellFormed()
    ensures s'.now == if e.Tick? then e.to else s.now
  {
    var t := s.disk.table;
    match e
    case Tick(to) => s.(now := to)
    case PutBody(id, body) => s.(disk := s.disk.(spool := s.disk.spool[id := Spool.File(body, s.now)]))
    case DropBody(id) => s.(disk := s.disk.(spool := s.disk.spool - {id}))
    case InsertRows(ids, created) =>
      var added := Elements(ids);
      s.(disk := s.disk.(table := Insert(t, added, created)),
         lives := map id | id in s.lives.Keys + added :: if id in added then 0 else s.lives[id])
    case TakeBatch(w, ids) =>
      s.(disk := s.disk.(table := Claim(t, ids, s.now)),
         hands := s.hands[w := Hand(s.now, s.now, ids[0] in s.disk.spool, ItemsOf(t.rows, ids))])
    case SettleHead(w, v, storeUp) =>
      var disk := Settle(cfg.policy, cfg.releaseDelay, s.disk, s.hands[w].items[0], v, s.now, storeUp);
      Written(s, w, disk)
    case HandBackHead(w, storeUp) =>
      var disk := HandBack(s.disk, s.hands[w].items[0], s.now, storeUp);
      Written(s, w, disk)
    case Crash(w) => s.(hands := s.hands - {w})
    case Sweep => s.(disk := s.disk.(table := RecoverOrphans(t, cfg.claimTimeout, s.now)))
    case Replay(id) =>
      s.(disk := s.disk.(table := Deliveries.Replay(t, id, s.now)),
         lives := if Replayable(t, id) then s.lives[id := |t.log[id]|] else s.lives)
    case PruneRows =>
      var pruned := Prune(t, s.now - cfg.sentRetention, s.now - cfg.failedRetention);
      s.(disk := s.disk.(table := pruned), lives := map id | id in pruned.rows :: s.lives[id])
    case PruneBodies =>
      s.(disk := s.disk.(spool := Spool.Kept(s.disk.spool, s.now - cfg.failedRetention)))
  }

  // ---------------------------------------------------------------- runs

  /** A history of events from an empty store; a timely one also meets every deadline. */
  ghost predicate Run(cfg: Config, es: seq<Event>, timely: bool, s: State)
    ensures Run(cfg, es, timely, s) ==> s.WellFormed()
  {
    if es == [] then s == START
    else
      var n := |es| - 1;
      exists before: State ::
        Run(cfg, es[..n], timely, before) && Enabled(cfg, before, es[n]) &&
        (timely ==> OnTime(cfg, before, es[n])) && s == Apply(cfg, before, es[n])
  }

  ghost predicate Reachable(cfg: Config, timely: bool, s: State) {
    exists es :: Run(cfg, es, timely, s)
  }

  /** The store refused to record a delivery that went out. */
  predicate LosesRecord(e: Event) {
    e.SettleHead? && e.verdict.Answer? && e.verdict.cls == ResultClass.Sent && !e.storeUp
  }

  ghost predicate NeverLosesRecord(es: seq<Event>) {
    forall i :: 0 <= i < |es| ==> !LosesRecord(es[i])
  }

  lemma ExtendRun(cfg: Config, es: seq<Event>, timely: bool, s: State, e: Event)
    requires Run(cfg, es, timely, s) && Enabled(cfg, s, e) && (timely ==> OnTime(cfg, s, e))
    ensures Run(cfg, es + [e], timely, Apply(cfg, s, e))
  {
    assert (es + [e])[..|es|] == es;
  }

  lemma ExtendLossless(es: seq<Event>, e: Event)
    requires NeverLosesRecord(es) && !LosesRecord(e)
    ensures NeverLosesRecord(es + [e])
  {
  }

  /** Reached by a timely run in which every completion was written. */
  ghost predicate Lossless(cfg: Config, s: State) {
    exists es :: Run(cfg, es, true, s) && NeverLosesRecord(es)
  }

  lemma StartIsLossless(cfg: Config)
    ensures Lossless(cfg, START)
  {
    assert Run(cfg, [], true, START) && NeverLosesRecord([]);
  }

  lemma StepIsLossless(cfg: Config, s: State, e: Event)
    requires Lossless(cfg, s) && s.WellFormed() && Enabled(cfg, s, e) && OnTime(cfg, s, e) && !LosesRecord(e)
    ensures Lossless(cfg, Apply(cfg, s, e))
  {
    var es :| Run(cfg, es, true, s) && NeverLosesRecord(es);
    ExtendRun(cfg, es, true, s, e);
    ExtendLossless(es, e);
    hide Run, Apply, LosesRecord, NeverLosesRecord;
  }

  lemma LosslessIsReachable(cfg: Config, s: State)
    requires Lossless(cfg, s)
    ensures Reachable(cfg, true, s)
  {
    var es :| Run(cfg, es, true, s) && NeverLosesRecord(es);
  }
}
