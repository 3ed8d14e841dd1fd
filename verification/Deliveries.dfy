/** The two tables of the durable queue, and what each transaction does to them. */
module Deliveries {
  import opened Channel
  import opened RetryPolicy

  /** Identifiers are minted unique; nothing reads inside one. */
  type Id = nat

  datatype Status = Queued | Sending | Delivered | Failed

  /** What an attempt record is filed under. */
  datatype AttemptClass = Outcome(result: ResultClass) | Released | PayloadMissing

  /** One delivery. The fields that never change after enqueue, other than the creation time, are left off. */
  datatype Row = Row(
    status: Status,
    attempts: nat,
    nextAttemptAt: Time,
    lastError: Reason,
    lastClass: Option<AttemptClass>,
    createdAt: Time,
    updatedAt: Time,
    claimedAt: Time,
    sentAt: Time)

  datatype Attempt = Attempt(
    attemptNo: nat,
    cls: AttemptClass,
    error: Reason,
    skip: SkipReason,
    at: Time)

  /** The deliveries table and, per delivery, its attempt records in order. */
  datatype Table = Table(rows: map<Id, Row>, log: map<Id, seq<Attempt>>) {
    /** The foreign key: attempt records belong to rows that exist. */
    ghost predicate Valid() {
      log.Keys == rows.Keys
    }
  }

  predicate Terminal(r: Row) {
    r.status == Delivered || r.status == Failed
  }

  // ------------------------------------------------------------- Enqueue

  function NewRow(created: Time): Row {
    Row(Queued, 0, created, NoReason, None, created, created, 0, 0)
  }

  ghost predicate Distinct<T>(s: seq<T>) {
    forall i, j :: 0 <= i < j < |s| ==> s[i] != s[j]
  }

  function Elements<T(==)>(s: seq<T>): set<T> {
    set x | x in s
  }

  ghost predicate Insertable(t: Table, ids: seq<Id>) {
    Distinct(ids) && Elements(ids) !! t.rows.Keys
  }

  function Insert(t: Table, ids: set<Id>, created: Time): Table {
    Table(
      map id | id in t.rows.Keys + ids :: if id in ids then NewRow(created) else t.rows[id],
      map id | id in t.log.Keys + ids :: if id in ids then [] else t.log[id])
  }

  /** One more row of the batch. */
  lemma InsertStep(t: Table, ids: set<Id>, id: Id, created: Time)
    ensures Insert(t, ids + {id}, created) ==
            Table(Insert(t, ids, created).rows[id := NewRow(created)], Insert(t, ids, created).log[id := []])
  {
    assert t.rows.Keys + (ids + {id}) == (t.rows.Keys + ids) + {id};
    assert t.log.Keys + (ids + {id}) == (t.log.Keys + ids) + {id};
  }

  // --------------------------------------------------------------- Claim

  predicate Due(rows: map<Id, Row>, id: Id, now: Time) {
    id in rows && rows[id].status == Queued && rows[id].nextAttemptAt <= now
  }

  /** The claim order: earliest due first, oldest first among equals. */
  predicate Before(a: Row, b: Row) {
    a.nextAttemptAt < b.nextAttemptAt ||
    (a.nextAttemptAt == b.nextAttemptAt && a.createdAt < b.createdAt)
  }

  /** What the select of a claim may return: at most limit due rows, in order, none overtaken. */
  ghost predicate Claimable(rows: map<Id, Row>, limit: nat, now: Time, ids: seq<Id>) {
    && |ids| <= limit
    && Distinct(ids)
    && (forall i :: 0 <= i < |ids| ==> Due(rows, ids[i], now))
    && (forall i, j :: 0 <= i < j < |ids| ==> !Before(rows[ids[j]], rows[ids[i]]))
    && (forall id :: Due(rows, id, now) && id !in ids ==>
          |ids| == limit && forall i :: 0 <= i < |ids| ==> !Before(rows[id], rows[ids[i]]))
  }

  function Claimed(r: Row, now: Time): Row {
    r.(status := Sending, updatedAt := now, claimedAt := now)
  }

  function Claim(t: Table, ids: seq<Id>, now: Time): Table {
    t.(rows := map id | id in t.rows :: if id in ids then Claimed(t.rows[id], now) else t.rows[id])
  }

  // -------------------------------------------------------------- Finish

  /** The update half of a finish. It asks nothing of the row it overwrites. */
  function Finished(r: Row, status: Status, a: Attempt, lastError: Reason, next: Time, now: Time): Row {
    r.(status := status,
       attempts := r.attempts + 1,
       nextAttemptAt := next,
       lastError := if lastError == NoReason then a.error else lastError,
       lastClass := Some(a.cls),
       updatedAt := now,
       sentAt := if status == Delivered then now else r.sentAt)
  }

  /** Attempt record and state change in one transaction; a missing row fails the foreign key and changes nothing. */
  function Finish(t: Table, id: Id, status: Status, a: Attempt, lastError: Reason, next: Option<Time>, now: Time): Table
    requires t.Valid()
  {
    if id !in t.rows then t
    else
      var n := if next.Some? then next.value else now;
      Table(t.rows[id := Finished(t.rows[id], status, a, lastError, n, now)], t.log[id := t.log[id] + [a]])
  }

  function Complete(t: Table, id: Id, a: Attempt, now: Time): Table
    requires t.Valid()
  {
    Finish(t, id, Delivered, a, NoReason, Some(now), now)
  }

  function Reschedule(t: Table, id: Id, a: Attempt, next: Time, now: Time): Table
    requires t.Valid()
  {
    Finish(t, id, Queued, a, NoReason, Some(next), now)
  }

  function DeadLetter(t: Table, id: Id, a: Attempt, reason: Reason, now: Time): Table
    requires t.Valid()
  {
    Finish(t, id, Failed, a, reason, None, now)
  }

  // ------------------------------------------------------------- Release

  /** Only a row in flight is released; the attempt counter stays. */
  predicate Releasable(t: Table, id: Id) {
    id in t.rows && t.rows[id].status == Sending
  }

  function Release(t: Table, id: Id, reason: Reason, skip: SkipReason, next: Time, now: Time): Table
    requires t.Valid()
  {
    if !Releasable(t, id) then t
    else
      var r := t.rows[id];
      Table(
        t.rows[id := r.(status := Queued, nextAttemptAt := next, lastError := reason,
                        lastClass := Some(Released), updatedAt := now)],
        t.log[id := t.log[id] + [Attempt(r.attempts, Released, reason, skip, now)]])
  }

  // ----------------------------------------------- Sweep, replay, retention

  predicate Expired(r: Row, timeout: nat, now: Time) {
    r.status == Sending && r.claimedAt > 0 && r.claimedAt + timeout < now
  }

  function RecoverOrphans(t: Table, timeout: nat, now: Time): Table {
    t.(rows := map id | id in t.rows ::
         if Expired(t.rows[id], timeout, now)
         then t.rows[id].(status := Queued, updatedAt := now) else t.rows[id])
  }

  predicate Replayable(t: Table, id: Id) {
    id in t.rows && t.rows[id].status == Failed
  }

  /** Back to queued with a fresh attempt budget; the creation time and the records stay. */
  function Replay(t: Table, id: Id, now: Time): Table {
    if !Replayable(t, id) then t
    else t.(rows := t.rows[id := t.rows[id].(
                      status := Queued, attempts := 0, nextAttemptAt := now, lastError := NoReason,
                      lastClass := None, claimedAt := 0, updatedAt := now)])
  }

  predicate Prunable(r: Row, sentBefore: int, failedBefore: int) {
    || (r.status == Delivered && r.updatedAt < sentBefore)
    || (r.status == Failed && r.updatedAt < failedBefore)
  }

  /** Terminal rows past their retention go, and their attempt records with them. */
  function Prune(t: Table, sentBefore: int, failedBefore: int): Table
    requires t.Valid()
  {
    Table(
      map id | id in t.rows && !Prunable(t.rows[id], sentBefore, failedBefore) :: t.rows[id],
      map id | id in t.rows && !Prunable(t.rows[id], sentBefore, failedBefore) :: t.log[id])
  }

  lemma FewerEntries<K, V>(m: map<K, V>, gone: set<K>)
    requires gone <= m.Keys
    ensures |m - gone| == |m| - |gone|
  {
    assert (m - gone).Keys == m.Keys - gone;
  }

  /** Deleting the sent rows and then the failed ones is one prune. */
  lemma PruneInTurn(t: Table, sentBefore: int, failedBefore: int, sent: set<Id>, failed: set<Id>)
    requires t.Valid()
    requires sent == set id | id in t.rows && t.rows[id].status == Delivered && t.rows[id].updatedAt < sentBefore
    requires failed == set id | id in t.rows - sent && t.rows[id].status == Failed &&
                                t.rows[id].updatedAt < failedBefore
    ensures Prune(t, sentBefore, failedBefore) == Table(t.rows - sent - failed, t.log - sent - failed)
  {
  }

  // ------------------------------------------------------- About claiming

  /** A non-empty set of due rows has one that nothing in it comes before. */
  lemma {:induction false} FirstDue(rows: map<Id, Row>, due: set<Id>) returns (first: Id)
    requires due != {} && due <= rows.Keys
    ensures first in due
    ensures forall id :: id in due ==> !Before(rows[id], rows[first])
  {
    first :| first in due;
    var rest := due - {first};
    assert due == rest + {first};
    if rest != {} {
      var other := FirstDue(rows, rest);
      if Before(rows[other], rows[first]) {
        first := other;
      }
    }
  }
}
