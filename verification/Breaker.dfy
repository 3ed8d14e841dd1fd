/** One channel's circuit breaker, written through to a store. */
module Breaker {
  import opened Channel
  import opened RetryPolicy

  datatype Mode = Closed | Open | HalfOpen

  datatype Settings = Settings(failureThreshold: int, successThreshold: int, openTimeout: int, halfOpenProbes: int) {
    predicate Complete() {
      failureThreshold > 0 && successThreshold > 0 && openTimeout > 0 && halfOpenProbes > 0
    }

    function Normalize(): (s: Settings)
      ensures s.Complete() && (Complete() ==> s == this)
    {
      Settings(
        if failureThreshold <= 0 then 5 else failureThreshold,
        if successThreshold <= 0 then 2 else successThreshold,
        if openTimeout <= 0 then 60 * SECOND else openTimeout,
        if halfOpenProbes <= 0 then 1 else halfOpenProbes)
    }
  }

  /** Five failures open it, two answers close it, a minute apart, one probe at a time, unless set otherwise. */
  lemma Defaults(s: Settings)
    ensures s.Normalize().failureThreshold == if s.failureThreshold >= 1 then s.failureThreshold else 5
    ensures s.Normalize().successThreshold == if s.successThreshold >= 1 then s.successThreshold else 2
    ensures s.Normalize().openTimeout == if s.openTimeout >= 1 then s.openTimeout else 60_000_000_000
    ensures s.Normalize().halfOpenProbes == if s.halfOpenProbes >= 1 then s.halfOpenProbes else 1
  {
  }

  /** The persisted half. */
  datatype Saved = Saved(mode: Mode, failures: nat, openedAt: Time, probes: nat)

  /** The in-memory half. An openedAt of zero is "never". */
  datatype Memory = Memory(
    settings: Settings, loaded: bool, mode: Mode, failures: nat, openedAt: Time, probes: nat, successes: nat)

  /** Both halves, and whether the store answers. */
  datatype Pair = Pair(mem: Memory, saved: Option<Saved>, up: bool)

  function Fresh(settings: Settings): Memory {
    Memory(settings, false, Closed, 0, 0, 0, 0)
  }

  function Less(n: nat): nat {
    if n > 0 then n - 1 else 0
  }

  // ------------------------------------------------- what each call does

  function Load(p: Pair): Pair {
    if p.mem.loaded then p
    else
      var m := p.mem.(loaded := true);
      if !p.up || p.saved.None? then p.(mem := m)
      else p.(mem := m.(mode := p.saved.value.mode, failures := p.saved.value.failures,
                        openedAt := p.saved.value.openedAt, probes := 0))
  }

  function Transition(p: Pair, next: Mode, now: Time): Pair {
    var m := p.mem;
    var moved := m.(
      mode := next, successes := 0, probes := 0,
      failures := if next == Closed then 0 else m.failures,
      openedAt := if next == Open then now else if next == Closed then 0 else m.openedAt);
    p.(mem := moved,
       saved := if p.up then Some(Saved(moved.mode, moved.failures, moved.openedAt, moved.probes)) else p.saved)
  }

  predicate Admits(p: Pair, now: Time) {
    var m := Load(p).mem;
    match m.mode
    case Closed => true
    case Open => now - m.openedAt >= m.settings.openTimeout
    case HalfOpen => m.probes < m.settings.halfOpenProbes
  }

  function Allow(p: Pair, now: Time): Pair {
    var q := Load(p);
    if !Admits(p, now) then q
    else
      var r := if q.mem.mode == Open then Transition(q, HalfOpen, now) else q;
      if r.mem.mode == HalfOpen then r.(mem := r.mem.(probes := r.mem.probes + 1)) else r
  }

  function Abandon(p: Pair): Pair {
    var q := Load(p);
    if q.mem.mode == HalfOpen then q.(mem := q.mem.(probes := Less(q.mem.probes))) else q
  }

  function Success(q: Pair, now: Time): Pair {
    match q.mem.mode
    case HalfOpen =>
      var r := q.(mem := q.mem.(probes := Less(q.mem.probes), successes := q.mem.successes + 1));
      if r.mem.successes >= r.mem.settings.successThreshold then Transition(r, Closed, now) else r
    case Closed => q.(mem := q.mem.(failures := 0))
    case Open => q
  }

  function Failure(q: Pair, now: Time): Pair {
    match q.mem.mode
    case HalfOpen => Transition(q.(mem := q.mem.(probes := Less(q.mem.probes))), Open, now)
    case Closed =>
      var r := q.(mem := q.mem.(failures := q.mem.failures + 1));
      if r.mem.failures >= r.mem.settings.failureThreshold then Transition(r, Open, now) else r
    case Open => q
  }

  /** Whether an outcome speaks against the channel; a permanent rejection speaks for it. */
  predicate Healthy(cls: ResultClass) { cls == Sent || cls == Permanent }
  predicate Faulty(cls: ResultClass) { cls == Transient || cls == ConnectError }

  function Record(p: Pair, cls: ResultClass, now: Time): Pair {
    var q := Load(p);
    if Healthy(cls) then Success(q, now)
    else if Faulty(cls) then Failure(q, now)
    else q
  }

  function Reset(p: Pair, now: Time): Pair {
    Transition(Load(p), Closed, now)
  }

  // ------------------------------------------------------------ the object

  class Store {
    var saved: Option<Saved>
    var up: bool

    constructor ()
      ensures saved == None && up
    {
      saved, up := None, true;
    }
  }

  class ChannelBreaker {
    const store: Store
    var settings: Settings
    var loaded: bool
    var mode: Mode
    var failures: nat
    var openedAt: Time
    var probes: nat
    var successes: nat

    ghost function State(): Pair
      reads this, store
    {
      Pair(Memory(settings, loaded, mode, failures, openedAt, probes, successes), store.saved, store.up)
    }

    constructor (store: Store, settings: Settings)
      ensures this.store == store
      ensures State() == Pair(Fresh(settings), store.saved, store.up)
    {
      this.store, this.settings := store, settings;
      loaded, mode, failures, openedAt, probes, successes := false, Closed, 0, 0, 0, 0;
    }

    method SetSettings(s: Settings)
      modifies this`settings
      ensures settings == s.Normalize()
    {
      settings := s.Normalize();
    }

    method LoadOnce()
      modifies this
      ensures State() == Load(old(State()))
    {
      if loaded {
        return;
      }
      loaded := true;
      if !store.up || store.saved.None? {
        return;
      }
      var rec := store.saved.value;
      mode, failures, openedAt, probes := rec.mode, rec.failures, rec.openedAt, 0;
    }

    method Persist()
      modifies store`saved
      ensures store.saved == if store.up then Some(Saved(mode, failures, openedAt, probes)) else old(store.saved)
    {
      if store.up {
        store.saved := Some(Saved(mode, failures, openedAt, probes));
      }
    }

    method MoveTo(next: Mode, now: Time)
      modifies this, store`saved
      ensures State() == Transition(old(State()), next, now)
    {
      mode, successes, probes := next, 0, 0;
      match next {
        case Open => openedAt := now;
        case Closed => failures, openedAt := 0, 0;
        case HalfOpen => probes := 0;
      }
      Persist();
    }

    method Admit(now: Time) returns (ok: bool)
      modifies this, store`saved
      ensures ok == old(Admits(State(), now)) && State() == Allow(old(State()), now)
    {
      LoadOnce();
      match mode {
        case Open =>
          if now - openedAt < settings.openTimeout {
            return false;
          }
          MoveTo(HalfOpen, now);
        case HalfOpen =>
          if probes >= settings.halfOpenProbes {
            return false;
          }
        case Closed =>
      }
      if mode == HalfOpen {
        probes := probes + 1;
      }
      return true;
    }

    method GiveBack()
      modifies this
      ensures State() == Abandon(old(State()))
    {
      LoadOnce();
      if mode == HalfOpen && probes > 0 {
        probes := probes - 1;
      }
    }

    method Report(cls: ResultClass, now: Time)
      modifies this, store`saved
      ensures State() == Record(old(State()), cls, now)
    {
      LoadOnce();
      match cls {
        case Sent => ReportSuccess(now);
        case Permanent => ReportSuccess(now);
        case Transient => ReportFailure(now);
        case ConnectError => ReportFailure(now);
        case NotAttempted =>
      }
    }

    method ReportSuccess(now: Time)
      modifies this, store`saved
      ensures State() == Success(old(State()), now)
    {
      match mode {
        case HalfOpen =>
          if probes > 0 {
            probes := probes - 1;
          }
          successes := successes + 1;
          if successes >= settings.successThreshold {
            MoveTo(Closed, now);
          }
        case Closed =>
          failures := 0;
        case Open =>
      }
    }

    method ReportFailure(now: Time)
      modifies this, store`saved
      ensures State() == Failure(old(State()), now)
    {
      match mode {
        case HalfOpen =>
          if probes > 0 {
            probes := probes - 1;
          }
          MoveTo(Open, now);
        case Closed =>
          failures := failures + 1;
          if failures >= settings.failureThreshold {
            MoveTo(Open, now);
          }
        case Open =>
      }
    }

    /** Reports the mode it replaced, read from the store first if this process had not done so. */
    method ResetNow(now: Time) returns (was: Mode)
      modifies this, store`saved
      ensures was == old(Load(State())).mem.mode && State() == Reset(old(State()), now)
    {
      LoadOnce();
      was := mode;
      MoveTo(Closed, now);
    }
  }
}
