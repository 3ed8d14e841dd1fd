/** What a worker does with the deliveries it has claimed. */
module QueueWorker {
  import opened Channel
  import opened RetryPolicy
  import opened Deliveries
  import QueueStore
  import Spool

  /** A claimed delivery as the worker holds it: a copy taken at the claim, not the row itself. */
  datatype Item = Item(id: Id, attempts: nat, createdAt: Time)

  /** What processing one item came to: no body to send, or the router's answer. */
  datatype Verdict =
    | Unreadable(error: string)
    | Answer(cls: ResultClass, error: string, detail: string, skip: SkipReason)

  datatype Decision =
    | Finished
    | Again(next: Time)
    | GiveUp(reason: Reason)
    | PutBack(reason: Reason, skip: SkipReason, next: Time)

  datatype Disk = Disk(table: Table, spool: map<Id, Spool.File>)

  function Text(s: string): Reason {
    if s == "" then NoReason else Said(s)
  }

  function AttemptFor(item: Item, v: Verdict, now: Time): Attempt {
    match v
    case Unreadable(e) => Attempt(item.attempts + 1, PayloadMissing, Text(e), NoSkip, now)
    case Answer(cls, e, _, skip) => Attempt(item.attempts + 1, Outcome(cls), Text(e), skip, now)
  }

  function Age(item: Item, now: Time): int {
    now - item.createdAt
  }

  /** Where a verdict sends the delivery. Only a transient answer spends an attempt and comes back. */
  function Decide(policy: Policy, releaseDelay: nat, item: Item, v: Verdict, now: Time): Decision {
    match v
    case Unreadable(_) => GiveUp(PayloadGone)
    case Answer(Sent, _, _, _) => Finished
    case Answer(Permanent, e, _, _) => GiveUp(Text(e))
    case Answer(Transient, _, _, _) =>
      var spent := policy.ExhaustedReason(item.attempts + 1, Age(item, now));
      if spent != NoReason then GiveUp(spent)
      else
        var next := policy.Retry(item.attempts + 1, Age(item, now), now);
        if next.None? then GiveUp(AttemptsExhausted) else Again(next.value)
    case Answer(_, e, detail, skip) =>
      var spent := policy.ExhaustedReason(item.attempts, Age(item, now));
      if spent != NoReason then GiveUp(spent)
      else PutBack(NoCapacity(if detail != "" then detail else e), skip, now + releaseDelay)
  }

  function Record(t: Table, item: Item, d: Decision, a: Attempt, now: Time): Table
    requires t.Valid()
  {
    match d
    case Finished => Complete(t, item.id, a, now)
    case Again(next) => Reschedule(t, item.id, a, next, now)
    case GiveUp(reason) => DeadLetter(t, item.id, a, reason, now)
    case PutBack(reason, skip, next) => Release(t, item.id, reason, skip, next, now)
  }

  /** One item settled. A write the store refuses changes no table, and a sent body is discarded all the same. */
  function Settle(policy: Policy, releaseDelay: nat, disk: Disk, item: Item, v: Verdict, now: Time, storeUp: bool)
    : (d: Disk)
    requires disk.table.Valid()
    ensures d.table.Valid() && d.table.rows.Keys == disk.table.rows.Keys
    ensures forall id :: id in disk.table.log ==> |d.table.log[id]| >= |disk.table.log[id]|
  {
    var d := Decide(policy, releaseDelay, item, v, now);
    Disk(
      if storeUp then Record(disk.table, item, d, AttemptFor(item, v, now), now) else disk.table,
      if d == Finished then disk.spool - {item.id} else disk.spool)
  }

  /** An item in hand when the process is told to stop. */
  function HandBack(disk: Disk, item: Item, now: Time, storeUp: bool): Disk
    requires disk.table.Valid()
  {
    if storeUp
    then disk.(table := Release(disk.table, item.id, ShuttingDown, NoSkip, now, now))
    else disk
  }

  /** What the world does while one item is in hand. */
  datatype Moment = Moment(
    stopping: bool, unreadable: bool,
    cls: ResultClass, error: string, detail: string, skip: SkipReason,
    now: Time, storeUp: bool)

  function VerdictOf(disk: Disk, item: Item, m: Moment): Verdict {
    if m.unreadable || item.id !in disk.spool then Unreadable("spool file could not be read")
    else Answer(m.cls, m.error, m.detail, m.skip)
  }

  function StepItem(policy: Policy, releaseDelay: nat, disk: Disk, item: Item, m: Moment): (d: Disk)
    requires disk.table.Valid()
    ensures d.table.Valid()
  {
    if m.stopping then HandBack(disk, item, m.now, m.storeUp)
    else Settle(policy, releaseDelay, disk, item, VerdictOf(disk, item, m), m.now, m.storeUp)
  }

  /** A batch is worked through one item at a time, in claim order. */
  function Drained(policy: Policy, releaseDelay: nat, disk: Disk, items: seq<Item>, ms: seq<Moment>): (d: Disk)
    requires disk.table.Valid() && |items| == |ms|
    ensures d.table.Valid()
  {
    if items == [] then disk
    else
      var n := |items| - 1;
      StepItem(policy, releaseDelay, Drained(policy, releaseDelay, disk, items[..n], ms[..n]), items[n], ms[n])
  }

  /** How many items were processed rather than handed back. */
  function Taken(ms: seq<Moment>): nat {
    if ms == [] then 0 else Taken(ms[..|ms| - 1]) + (if ms[|ms| - 1].stopping then 0 else 1)
  }

  class Worker {
    const store: QueueStore.Store
    const spool: Spool.Store
    const releaseDelay: nat
    var policy: Policy

    constructor (store: QueueStore.Store, spool: Spool.Store, policy: Policy, releaseDelay: nat)
      ensures this.store == store && this.spool == spool && this.releaseDelay == releaseDelay
      ensures this.policy == policy.Normalize()
    {
      this.store, this.spool, this.releaseDelay := store, spool, releaseDelay;
      this.policy := policy.Normalize();
    }

    method SetPolicy(p: Policy)
      modifies this
      ensures policy == p.Normalize()
    {
      policy := p.Normalize();
    }

    ghost function OnDisk(): Disk
      reads store, spool
    {
      Disk(store.Tables(), spool.files)
    }

    /** Bodies first, then the rows: no row is ever without its body, whatever fails in between. */
    method Enqueue(ids: seq<Id>, body: string, now: Time, writes: nat, storeUp: bool) returns (ok: bool)
      requires store.Valid()
      modifies store, spool
      ensures store.Valid()
      ensures ok <==> ids != [] && writes >= |ids| && storeUp && old(Insertable(store.Tables(), ids))
      ensures store.Tables() ==
              if ok then Insert(old(store.Tables()), Elements(ids), now) else old(store.Tables())
      ensures ok ==> forall id :: id in ids ==> id in spool.files && spool.files[id] == Spool.File(body, now)
      ensures !ok && writes >= |ids| ==> forall id :: id in ids ==> id !in spool.files
      ensures forall id :: id !in ids ==>
                (id in spool.files <==> id in old(spool.files)) &&
                (id in spool.files ==> spool.files[id] == old(spool.files)[id])
    {
      if ids == [] {
        return false;
      }
      for i := 0 to |ids|
        invariant unchanged(store) && i <= writes
        invariant forall j :: 0 <= j < i ==> ids[j] in spool.files && spool.files[ids[j]] == Spool.File(body, now)
        invariant forall id :: id !in ids ==>
                    (id in spool.files <==> id in old(spool.files)) &&
                    (id in spool.files ==> spool.files[id] == old(spool.files)[id])
      {
        var written := spool.Put(ids[i], body, now, i < writes);
        if !written {
          return false;
        }
      }
      ok := false;
      if storeUp {
        ok := store.Enqueue(ids, now);
      }
      if !ok {
        for i := 0 to |ids|
          invariant store.Tables() == old(store.Tables())
          invariant forall j :: 0 <= j < i ==> ids[j] !in spool.files
          invariant forall id :: id !in ids ==>
                      (id in spool.files <==> id in old(spool.files)) &&
                      (id in spool.files ==> spool.files[id] == old(spool.files)[id])
        {
          spool.Delete(ids[i]);
        }
      }
    }

    /** Deliver one item and write down what came of it. */
    method Process(item: Item, m: Moment)
      requires store.Valid() && !m.stopping
      modifies store, spool
      ensures store.Valid()
      ensures OnDisk() == StepItem(policy, releaseDelay, old(OnDisk()), item, m)
    {
      var body := spool.Get(item.id);
      if m.unreadable || body.None? {
        var a := AttemptFor(item, Unreadable("spool file could not be read"), m.now);
        WriteDeadLetter(item, a, PayloadGone, m);
        return;
      }
      var v := Answer(m.cls, m.error, m.detail, m.skip);
      var a := AttemptFor(item, v, m.now);
      match m.cls {
        case Sent =>
          if m.storeUp {
            var _ := store.Complete(item.id, a, m.now);
          }
          spool.Delete(item.id);
        case Permanent =>
          WriteDeadLetter(item, a, Text(m.error), m);
        case Transient =>
          RetryOrGiveUp(item, a, m);
        case _ =>
          ReleaseNoCapacity(item, a, m);
      }
    }

    method RetryOrGiveUp(item: Item, a: Attempt, m: Moment)
      requires store.Valid() && m.cls == Transient
      modifies store
      ensures store.Valid()
      ensures store.Tables() ==
              if !m.storeUp then old(store.Tables())
              else Record(old(store.Tables()), item,
                          Decide(policy, releaseDelay, item, Answer(m.cls, m.error, m.detail, m.skip), m.now), a, m.now)
    {
      var age := m.now - item.createdAt;
      var spent := policy.ExhaustedReason(item.attempts + 1, age);
      if spent != NoReason {
        WriteDeadLetter(item, a, spent, m);
        return;
      }
      var next := policy.Retry(item.attempts + 1, age, m.now);
      if next.None? {
        WriteDeadLetter(item, a, AttemptsExhausted, m);
        return;
      }
      if m.storeUp {
        var _ := store.Reschedule(item.id, a, next.value, m.now);
      }
    }

    method ReleaseNoCapacity(item: Item, a: Attempt, m: Moment)
      requires store.Valid() && (m.cls == ConnectError || m.cls == NotAttempted)
      modifies store
      ensures store.Valid()
      ensures store.Tables() ==
              if !m.storeUp then old(store.Tables())
              else Record(old(store.Tables()), item,
                          Decide(policy, releaseDelay, item, Answer(m.cls, m.error, m.detail, m.skip), m.now), a, m.now)
    {
      var spent := policy.ExhaustedReason(item.attempts, m.now - item.createdAt);
      if spent != NoReason {
        WriteDeadLetter(item, a, spent, m);
        return;
      }
      var detail := if m.detail != "" then m.detail else m.error;
      if m.storeUp {
        var _ := store.Release(item.id, NoCapacity(detail), m.skip, m.now + releaseDelay, m.now);
      }
    }

    method WriteDeadLetter(item: Item, a: Attempt, reason: Reason, m: Moment)
      requires store.Valid()
      modifies store
      ensures store.Valid()
      ensures store.Tables() ==
              if m.storeUp then DeadLetter(old(store.Tables()), item.id, a, reason, m.now) else old(store.Tables())
    {
      if m.storeUp {
        var _ := store.DeadLetter(item.id, a, reason, m.now);
      }
    }

    /** The inner loop of drain: a claimed batch, item by item, handing back what is left once told to stop. */
    method DrainBatch(items: seq<Item>, ms: seq<Moment>) returns (processed: nat)
      requires store.Valid() && |items| == |ms|
      modifies store, spool
      ensures store.Valid()
      ensures OnDisk() == Drained(policy, releaseDelay, old(OnDisk()), items, ms)
      ensures processed == Taken(ms)
    {
      processed := 0;
      for i := 0 to |items|
        invariant store.Valid() && processed == Taken(ms[..i])
        invariant OnDisk() == Drained(policy, releaseDelay, old(OnDisk()), items[..i], ms[..i])
      {
        assert items[..i + 1][..i] == items[..i] && ms[..i + 1][..i] == ms[..i];
        if ms[i].stopping {
          if ms[i].storeUp {
            var _ := store.Release(items[i].id, ShuttingDown, NoSkip, ms[i].now, ms[i].now);
          }
        } else {
          Process(items[i], ms[i]);
          processed := processed + 1;
        }
      }
      assert items[..|items|] == items && ms[..|ms|] == ms;
    }
  }
}
