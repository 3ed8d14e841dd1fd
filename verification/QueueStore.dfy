/** The store's queue methods, each one transaction over the two tables. */
module QueueStore {
  import opened Channel
  import opened RetryPolicy
  import opened Deliveries

  /** The select of a claim: due rows in claim order, cut off at the limit. */
  method SelectDue(rows: map<Id, Row>, limit: nat, now: Time) returns (ids: seq<Id>)
    ensures Claimable(rows, limit, now, ids)
  {
    ids := [];
    var due := set id | id in rows && Due(rows, id, now);
    while due != {} && |ids| < limit
      invariant |ids| <= limit && Distinct(ids)
      invariant forall i :: 0 <= i < |ids| ==> Due(rows, ids[i], now)
      invariant forall id :: id in due <==> Due(rows, id, now) && id !in ids
      invariant forall i, id :: 0 <= i < |ids| && id in due ==> !Before(rows[id], rows[ids[i]])
      invariant forall i, j :: 0 <= i < j < |ids| ==> !Before(rows[ids[j]], rows[ids[i]])
    {
      ghost var least := FirstDue(rows, due);
      var first :| first in due && forall id :: id in due ==> !Before(rows[id], rows[first]);
      ids := ids + [first];
      due := due - {first};
    }
  }

  class Store {
    var rows: map<Id, Row>
    var log: map<Id, seq<Attempt>>

    ghost function Tables(): Table
      reads this
    {
      Table(rows, log)
    }

    ghost predicate Valid()
      reads this
    {
      Tables().Valid()
    }

    constructor ()
      ensures Valid() && Tables() == Table(map[], map[])
    {
      rows, log := map[], map[];
    }

    /** All rows or none: a duplicate key anywhere in the batch rolls the whole transaction back. */
    method Enqueue(ids: seq<Id>, created: Time) returns (ok: bool)
      requires Valid()
      modifies this
      ensures Valid()
      ensures ok <==> old(Insertable(Tables(), ids))
      ensures Tables() == if ok then Insert(old(Tables()), Elements(ids), created) else old(Tables())
    {
      var rows0, log0 := rows, log;
      ghost var t0, added := Tables(), {};
      assert Insert(t0, added, created) == t0;
      for i := 0 to |ids|
        invariant added == Elements(ids[..i])
        invariant Insertable(t0, ids[..i])
        invariant Tables() == Insert(t0, added, created)
      {
        assert ids[..i + 1] == ids[..i] + [ids[i]];
        if ids[i] in rows {
          assert ids[i] in Elements(ids);
          assert ids[i] in t0.rows || exists j :: 0 <= j < i && ids[j] == ids[i];
          rows, log := rows0, log0;
          return false;
        }
        InsertStep(t0, added, ids[i], created);
        rows, log, added := rows[ids[i] := NewRow(created)], log[ids[i] := []], added + {ids[i]};
      }
      assert ids[..|ids|] == ids;
      return true;
    }

    /** Select and mark inside one transaction: the rows handed out are due, first in order, and nobody else's. */
    method Claim(limit: int, now: Time) returns (ids: seq<Id>, claimed: seq<Row>)
      requires Valid()
      modifies this
      ensures Valid()
      ensures Claimable(old(rows), if limit < 0 then 0 else limit, now, ids)
      ensures Tables() == Deliveries.Claim(old(Tables()), ids, now)
      ensures |claimed| == |ids|
      ensures forall i :: 0 <= i < |ids| ==> ids[i] in rows && claimed[i] == rows[ids[i]]
    {
      ids := SelectDue(rows, if limit < 0 then 0 else limit, now);
      claimed := seq(|ids|, i requires 0 <= i < |ids| && ids[i] in rows reads this => Claimed(rows[ids[i]], now));
      rows := map id | id in rows :: if id in ids then Claimed(rows[id], now) else rows[id];
    }

    /** The transition shared by Complete, Reschedule and DeadLetter: record the attempt, then overwrite the row. */
    method Finish(id: Id, status: Status, a: Attempt, lastError: Reason, next: Option<Time>, now: Time)
      returns (ok: bool)
      requires Valid()
      modifies this
      ensures Valid() && ok == (id in old(rows))
      ensures Tables() == Deliveries.Finish(old(Tables()), id, status, a, lastError, next, now)
    {
      var reason := lastError;
      if reason == NoReason {
        reason := a.error;
      }
      if id !in rows {
        return false;
      }
      log := log[id := log[id] + [a]];
      var due := if next.Some? then next.value else now;
      var r := rows[id];
      rows := rows[id := r.(status := status, attempts := r.attempts + 1, nextAttemptAt := due,
                            lastError := reason, lastClass := Some(a.cls), updatedAt := now)];
      if status == Delivered {
        rows := rows[id := rows[id].(sentAt := now)];
      }
      return true;
    }

    method Complete(id: Id, a: Attempt, now: Time) returns (ok: bool)
      requires Valid()
      modifies this
      ensures Valid() && ok == (id in old(rows))
      ensures Tables() == Deliveries.Complete(old(Tables()), id, a, now)
    {
      ok := Finish(id, Delivered, a, NoReason, Some(now), now);
    }

    method Reschedule(id: Id, a: Attempt, next: Time, now: Time) returns (ok: bool)
      requires Valid()
      modifies this
      ensures Valid() && ok == (id in old(rows))
      ensures Tables() == Deliveries.Reschedule(old(Tables()), id, a, next, now)
    {
      ok := Finish(id, Queued, a, NoReason, Some(next), now);
    }

    method DeadLetter(id: Id, a: Attempt, reason: Reason, now: Time) returns (ok: bool)
      requires Valid()
      modifies this
      ensures Valid() && ok == (id in old(rows))
      ensures Tables() == Deliveries.DeadLetter(old(Tables()), id, a, reason, now)
    {
      ok := Finish(id, Failed, a, reason, None, now);
    }

    /** Guarded update first; the record is written only when the update found a row in flight. */
    method Release(id: Id, reason: Reason, skip: SkipReason, next: Time, now: Time) returns (released: bool)
      requires Valid()
      modifies this
      ensures Valid() && released == old(Releasable(Tables(), id))
      ensures Tables() == Deliveries.Release(old(Tables()), id, reason, skip, next, now)
    {
      if id !in rows || rows[id].status != Sending {
        return false;
      }
      rows := rows[id := rows[id].(status := Queued, nextAttemptAt := next, lastError := reason,
                                   lastClass := Some(Released), updatedAt := now)];
      log := log[id := log[id] + [Attempt(rows[id].attempts, Released, reason, skip, now)]];
      return true;
    }

    method RecoverOrphans(timeout: nat, now: Time) returns (n: nat)
      requires Valid()
      modifies this
      ensures Valid()
      ensures Tables() == Deliveries.RecoverOrphans(old(Tables()), timeout, now)
      ensures n == |set id | id in old(rows) && Expired(old(rows)[id], timeout, now)|
    {
      n := |set id | id in rows && Expired(rows[id], timeout, now)|;
      rows := map id | id in rows ::
        if Expired(rows[id], timeout, now) then rows[id].(status := Queued, updatedAt := now) else rows[id];
    }

    method Replay(id: Id, now: Time) returns (replayed: bool)
      requires Valid()
      modifies this
      ensures Valid() && replayed == old(Replayable(Tables(), id))
      ensures Tables() == Deliveries.Replay(old(Tables()), id, now)
    {
      if id !in rows || rows[id].status != Failed {
        return false;
      }
      rows := rows[id := rows[id].(status := Queued, attempts := 0, nextAttemptAt := now, lastError := NoReason,
                                   lastClass := None, claimedAt := 0, updatedAt := now)];
      return true;
    }

    /** Two deletes, one per terminal status, each cascading to the attempt records. */
    method Prune(sentBefore: int, failedBefore: int) returns (removed: nat)
      requires Valid()
      modifies this
      ensures Valid() && removed == |old(rows)| - |rows|
      ensures Tables() == Deliveries.Prune(old(Tables()), sentBefore, failedBefore)
    {
      ghost var t := Tables();
      hide Deliveries.Prune;
      var sent := set id | id in rows && rows[id].status == Delivered && rows[id].updatedAt < sentBefore;
      rows, log := rows - sent, log - sent;
      var failed := set id | id in rows && rows[id].status == Failed && rows[id].updatedAt < failedBefore;
      PruneInTurn(t, sentBefore, failedBefore, sent, failed);
      FewerEntries(t.rows, sent);
      FewerEntries(t.rows - sent, failed);
      rows, log, removed := rows - failed, log - failed, |sent| + |failed|;
    }
  }
}
