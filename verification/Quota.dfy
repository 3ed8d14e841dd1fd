/** One channel's send allowance: reserve before the call, settle after it. */
module Quota {
  import opened RetryPolicy

  /** Zero means unlimited. */
  datatype Limits = Limits(perSecond: nat, perMinute: nat, perHour: nat, perDay: nat, perMonth: nat)

  datatype ShortWindow = InSecond | InMinute | InHour

  const SPANS: seq<ShortWindow> := [InSecond, InMinute, InHour]

  function Width(w: ShortWindow): nat {
    match w
    case InSecond => SECOND
    case InMinute => MINUTE
    case InHour => HOUR
  }

  function LimitOf(l: Limits, w: ShortWindow): nat {
    match w
    case InSecond => l.perSecond
    case InMinute => l.perMinute
    case InHour => l.perHour
  }

  /** The storage key of a fixed period; which day and month an instant falls in is the calendar's business. */
  datatype Period = Day(n: nat) | Month(n: nat)

  datatype Instant = Instant(now: Time, day: nat, month: nat)

  // ---------------------------------------------------------- short windows

  /** Entries strictly after the cutoff, in order. */
  function Recent(s: seq<Time>, cutoff: int): (r: seq<Time>)
    ensures forall t :: t in r <==> t in s && t > cutoff
    ensures |r| <= |s|
  {
    if s == [] then []
    else
      var n := |s| - 1;
      Recent(s[..n], cutoff) + (if s[n] > cutoff then [s[n]] else [])
  }

  function Looked(l: seq<Time>, now: Time, width: nat): seq<Time> {
    Recent(l, now - width)
  }

  function Taken(l: seq<Time>, now: Time, width: nat): seq<Time> {
    Looked(l, now, width) + [now]
  }

  /** A release drops the oldest entry there is, whichever reservation that was. */
  function Dropped(l: seq<Time>): seq<Time> {
    if l == [] then [] else l[1..]
  }

  class ChannelWindows {
    var entries: map<ShortWindow, seq<Time>>

    constructor ()
      ensures forall w :: List(w) == []
    {
      entries := map[];
    }

    function List(w: ShortWindow): seq<Time>
      reads this
    {
      if w in entries then entries[w] else []
    }

    method Count(w: ShortWindow, now: Time, width: nat) returns (n: nat)
      modifies this
      ensures List(w) == Looked(old(List(w)), now, width) && n == |List(w)|
      ensures forall v :: v != w ==> List(v) == old(List(v))
    {
      var cutoff := now - width;
      var all, kept := List(w), [];
      for i := 0 to |all|
        invariant kept == Recent(all[..i], cutoff)
      {
        assert all[..i + 1][..i] == all[..i];
        if all[i] > cutoff {
          kept := kept + [all[i]];
        }
      }
      assert all[..|all|] == all;
      entries := entries[w := kept];
      n := |kept|;
    }

    method Add(w: ShortWindow, now: Time)
      modifies this
      ensures List(w) == old(List(w)) + [now]
      ensures forall v :: v != w ==> List(v) == old(List(v))
    {
      entries := entries[w := List(w) + [now]];
    }

    method Remove(w: ShortWindow)
      modifies this
      ensures List(w) == Dropped(old(List(w)))
      ensures forall v :: v != w ==> List(v) == old(List(v))
    {
      if w in entries && |entries[w]| > 0 {
        entries := entries[w := entries[w][1..]];
      }
    }
  }

  // --------------------------------------------------------------- counters

  function CountOf(counts: map<Period, nat>, k: Period): nat {
    if k in counts then counts[k] else 0
  }

  function Consumed(counts: map<Period, nat>, k: Period): map<Period, nat> {
    counts[k := CountOf(counts, k) + 1]
  }

  function GivenBack(counts: map<Period, nat>, k: Period): map<Period, nat> {
    if CountOf(counts, k) > 0 then counts[k := CountOf(counts, k) - 1] else counts
  }

  class Counters {
    var counts: map<Period, nat>

    constructor ()
      ensures counts == map[]
    {
      counts := map[];
    }

    /** Check and increment in one transaction, unless the store cannot be reached. */
    method TryConsume(k: Period, limit: nat, up: bool) returns (ok: bool, failed: bool)
      modifies this
      ensures failed <==> !up
      ensures ok <==> up && (limit == 0 || CountOf(old(counts), k) < limit)
      ensures counts == if ok then Consumed(old(counts), k) else old(counts)
    {
      if !up {
        return false, true;
      }
      failed := false;
      var count := CountOf(counts, k);
      if limit > 0 && count >= limit {
        return false, false;
      }
      counts := counts[k := count + 1];
      ok := true;
    }

    method Release(k: Period, up: bool)
      modifies this
      ensures counts == if up then GivenBack(old(counts), k) else old(counts)
    {
      if up && k in counts && counts[k] > 0 {
        counts := counts[k := counts[k] - 1];
      }
    }
  }

  // ------------------------------------------------------------ reservations

  class Reservation {
    const short: seq<ShortWindow>
    const long: seq<Period>
    var settled: bool

    constructor (short: seq<ShortWindow>, long: seq<Period>)
      ensures this.short == short && this.long == long && !settled
    {
      this.short, this.long, settled := short, long, false;
    }
  }

  /** The windows among the first i that are limited. */
  function Limited(l: Limits, i: nat): (s: seq<ShortWindow>)
    requires i <= |SPANS|
    ensures forall w :: w in s <==> w in SPANS[..i] && LimitOf(l, w) > 0
    ensures forall j, k :: 0 <= j < k < |s| ==> s[j] != s[k]
  {
    if i == 0 then []
    else
      assert SPANS[..i] == SPANS[..i - 1] + [SPANS[i - 1]];
      Limited(l, i - 1) + (if LimitOf(l, SPANS[i - 1]) > 0 then [SPANS[i - 1]] else [])
  }

  lemma AllSpans()
    ensures SPANS[..|SPANS|] == SPANS && forall w :: w in SPANS
  {
    forall w ensures w in SPANS {
      assert w == SPANS[0] || w == SPANS[1] || w == SPANS[2];
    }
  }

  lemma SpanStep(i: nat)
    requires i < |SPANS|
    ensures SPANS[..i + 1] == SPANS[..i] + [SPANS[i]] && SPANS[i] !in SPANS[..i]
  {
  }

  predicate HasRoom(list: seq<Time>, l: Limits, w: ShortWindow, now: Time) {
    LimitOf(l, w) == 0 || |Looked(list, now, Width(w))| < LimitOf(l, w)
  }

  /** Whether a counter is asked, and answers. */
  predicate Charges(limit: nat, up: Period -> bool, k: Period) {
    limit > 0 && up(k)
  }

  class Limiter {
    const windows: ChannelWindows
    const counters: Counters

    constructor (counters: Counters)
      ensures this.counters == counters && fresh(windows)
      ensures forall w :: windows.List(w) == []
    {
      this.counters := counters;
      windows := new ChannelWindows();
    }

    /** The limited windows, looked at in turn until one has no room. */
    method LookShort(l: Limits, now: Time) returns (pending: seq<ShortWindow>, ok: bool)
      modifies windows
      ensures ok <==> forall w :: HasRoom(old(windows.List(w)), l, w, now)
      ensures ok ==> pending == Limited(l, |SPANS|)
      ensures ok ==> forall w :: windows.List(w) ==
                                 if LimitOf(l, w) > 0 then Looked(old(windows.List(w)), now, Width(w))
                                 else old(windows.List(w))
      ensures !ok ==> forall w :: windows.List(w) == old(windows.List(w)) ||
                                  windows.List(w) == Looked(old(windows.List(w)), now, Width(w))
    {
      hide Recent;
      pending := [];
      for i := 0 to |SPANS|
        invariant pending == Limited(l, i)
        invariant forall w :: w in SPANS[..i] ==> HasRoom(old(windows.List(w)), l, w, now)
        invariant forall w :: windows.List(w) ==
                              if w in pending then Looked(old(windows.List(w)), now, Width(w)) else old(windows.List(w))
      {
        var w := SPANS[i];
        SpanStep(i);
        if LimitOf(l, w) > 0 {
          var count := windows.Count(w, now, Width(w));
          if count >= LimitOf(l, w) {
            return pending, false;
          }
          pending := pending + [w];
        }
      }
      AllSpans();
      ok := true;
    }

    /** All or nothing: the windows are taken from only when every limited one of them has room. */
    method TakeShort(l: Limits, now: Time) returns (pending: seq<ShortWindow>, ok: bool)
      modifies windows
      ensures ok <==> forall w :: HasRoom(old(windows.List(w)), l, w, now)
      ensures ok ==> pending == Limited(l, |SPANS|)
      ensures ok ==> forall w :: windows.List(w) ==
                                 if LimitOf(l, w) > 0 then Taken(old(windows.List(w)), now, Width(w))
                                 else old(windows.List(w))
      ensures !ok ==> forall w :: windows.List(w) == old(windows.List(w)) ||
                                  windows.List(w) == Looked(old(windows.List(w)), now, Width(w))
    {
      hide Recent, Limited;
      pending, ok := LookShort(l, now);
      if !ok {
        return;
      }
      label looked:
      for i := 0 to |pending|
        invariant forall w :: windows.List(w) ==
                              if w in pending[..i] then old@looked(windows.List(w)) + [now]
                              else old@looked(windows.List(w))
      {
        assert pending[..i + 1] == pending[..i] + [pending[i]];
        assert pending[i] !in pending[..i];
        windows.Add(pending[i], now);
      }
      assert pending[..|pending|] == pending;
      AllSpans();
    }

    /** Every window the reservation was counted in loses its oldest entry. */
    method ReleaseShort(short: seq<ShortWindow>)
      requires forall j, k :: 0 <= j < k < |short| ==> short[j] != short[k]
      modifies windows
      ensures forall w :: windows.List(w) ==
                          if w in short then Dropped(old(windows.List(w))) else old(windows.List(w))
    {
      for i := 0 to |short|
        invariant forall w :: windows.List(w) ==
                              if w in short[..i] then Dropped(old(windows.List(w))) else old(windows.List(w))
      {
        assert short[..i + 1] == short[..i] + [short[i]];
        assert short[i] !in short[..i];
        windows.Remove(short[i]);
      }
      assert short[..|short|] == short;
    }

    /**
     * One unit of the allowance, or none. A counter that cannot be read does not hold a send up. A refusal by
     * the month, after the day had been charged, is the one refusal that leaves a counter changed.
     */
    method TryReserve(l: Limits, t: Instant, up: Period -> bool) returns (res: Reservation?)
      modifies windows, counters
      ensures res != null ==> fresh(res) && !res.settled && res.short == Limited(l, |SPANS|)
      ensures var counts, d, m := old(counters.counts), Day(t.day), Month(t.month);
              var room := forall w :: HasRoom(old(windows.List(w)), l, w, t.now);
              var day := !Charges(l.perDay, up, d) || CountOf(counts, d) < l.perDay;
              var month := !Charges(l.perMonth, up, m) || CountOf(counts, m) < l.perMonth;
              var afterDay := if room && day && Charges(l.perDay, up, d) then Consumed(counts, d) else counts;
              && (res != null <==> room && day && month)
              && (counters.counts ==
                  if res != null && Charges(l.perMonth, up, m) then Consumed(afterDay, m) else afterDay)
              && (res != null ==> res.long == (if Charges(l.perDay, up, d) then [d] else []) +
                                              (if Charges(l.perMonth, up, m) then [m] else []))
              && (res == null ==> (counters.counts != counts <==> room && day && Charges(l.perDay, up, d) && !month))
              && (forall k :: CountOf(counters.counts, k) ==
                    if res != null && k in res.long then CountOf(counts, k) + 1
                    else if res == null && k == d && room && day && !month && l.perDay > 0 && up(d)
                    then CountOf(counts, k) + 1
                    else CountOf(counts, k))
      ensures res != null ==>
                forall w :: windows.List(w) ==
                            if LimitOf(l, w) > 0 then Taken(old(windows.List(w)), t.now, Width(w))
                            else old(windows.List(w))
      ensures res == null ==>
                forall w :: || windows.List(w) == old(windows.List(w))
                            || windows.List(w) == Looked(old(windows.List(w)), t.now, Width(w))
                            || (LimitOf(l, w) > 0 &&
                                windows.List(w) == Dropped(Taken(old(windows.List(w)), t.now, Width(w))))
    {
      hide Recent, Limited, HasRoom;
      var pending, ok := TakeShort(l, t.now);
      AllSpans();
      if !ok {
        return null;
      }
      var long: seq<Period> := [];
      if l.perDay > 0 {
        var charged, failed := counters.TryConsume(Day(t.day), l.perDay, up(Day(t.day)));
        if !failed && !charged {
          ReleaseShort(pending);
          return null;
        }
        if !failed {
          long := [Day(t.day)];
        }
      }
      if l.perMonth > 0 {
        var charged, failed := counters.TryConsume(Month(t.month), l.perMonth, up(Month(t.month)));
        if !failed && !charged {
          ReleaseShort(pending);
          return null;
        }
        if !failed {
          long := long + [Month(t.month)];
        }
      }
      res := new Reservation(pending, long);
    }

    /** Settled once: a second settlement, either way, changes nothing. A release takes every unit back it can. */
    method Settle(res: Reservation, release: bool, up: Period -> bool)
      requires forall j, k :: 0 <= j < k < |res.short| ==> res.short[j] != res.short[k]
      modifies windows, counters, res`settled
      ensures res.settled
      ensures old(res.settled) || !release ==>
                counters.counts == old(counters.counts) && forall w :: windows.List(w) == old(windows.List(w))
      ensures !old(res.settled) && release ==>
                && counters.counts.Keys == old(counters.counts.Keys)
                && (forall k :: CountOf(counters.counts, k) ==
                      if up(k) then Fewer(CountOf(old(counters.counts), k), multiset(res.long)[k])
                      else CountOf(old(counters.counts), k))
                && (forall w :: windows.List(w) ==
                      if w in res.short then Dropped(old(windows.List(w))) else old(windows.List(w)))
    {
      if res.settled {
        return;
      }
      res.settled := true;
      if release {
        ReleaseShort(res.short);
        for i := 0 to |res.long|
          invariant res.settled && counters.counts.Keys == old(counters.counts.Keys)
          invariant forall k :: CountOf(counters.counts, k) ==
                      if up(k) then Fewer(CountOf(old(counters.counts), k), multiset(res.long[..i])[k])
                      else CountOf(old(counters.counts), k)
          invariant forall w :: windows.List(w) ==
                                if w in res.short then Dropped(old(windows.List(w))) else old(windows.List(w))
        {
          assert res.long[..i + 1] == res.long[..i] + [res.long[i]];
          counters.Release(res.long[i], up(res.long[i]));
        }
        assert res.long[..|res.long|] == res.long;
      }
    }

    /**
     * The whole life of a reservation around one call: a call that reached the peer costs one unit of every
     * limited period the store could be asked about, and one that did not costs only what the store then refuses
     * to take back.
     */
    method Spend(l: Limits, t: Instant, up: Period -> bool, reached: bool, upLater: Period -> bool)
      returns (granted: bool)
      modifies windows, counters
      ensures granted ==>
                forall k :: CountOf(counters.counts, k) ==
                  if || (k == Day(t.day) && l.perDay > 0 && up(k) && (reached || !upLater(k)))
                     || (k == Month(t.month) && l.perMonth > 0 && up(k) && (reached || !upLater(k)))
                  then CountOf(old(counters.counts), k) + 1
                  else CountOf(old(counters.counts), k)
      ensures granted && !reached && (forall k :: upLater(k)) ==>
                forall k :: CountOf(counters.counts, k) == CountOf(old(counters.counts), k)
      ensures granted ==>
                forall w :: windows.List(w) ==
                  var after := Looked(old(windows.List(w)), t.now, Width(w)) + [t.now];
                  if LimitOf(l, w) == 0 then old(windows.List(w)) else if reached then after else after[1..]
    {
      hide Recent;
      var res := TryReserve(l, t, up);
      granted := res != null;
      if granted {
        Settle(res, !reached, upLater);
        AllSpans();
      }
    }
  }

  /** n less, but never below zero. */
  function Fewer(count: nat, n: nat): nat {
    if count >= n then count - n else 0
  }

  // -------------------------------------------------------------- what is counted

  /** Where a list has entries strictly after an instant. */
  function After(s: seq<Time>, cutoff: int): set<nat> {
    set i: nat | i < |s| && s[i] > cutoff
  }

  lemma {:induction false} RecentCounts(s: seq<Time>, cutoff: int)
    ensures |Recent(s, cutoff)| == |After(s, cutoff)|
  {
    if s != [] {
      var n := |s| - 1;
      RecentCounts(s[..n], cutoff);
      assert After(s, cutoff) == After(s[..n], cutoff) + (if s[n] > cutoff then {n} else {});
    }
  }

  /** Room in a window: it is unlimited, or fewer sends than its limit came in the second, minute or hour up to now. */
  lemma RoomExactly(list: seq<Time>, l: Limits, now: Time)
    ensures HasRoom(list, l, InSecond, now) <==>
            l.perSecond == 0 || |After(list, now - 1_000_000_000)| < l.perSecond
    ensures HasRoom(list, l, InMinute, now) <==>
            l.perMinute == 0 || |After(list, now - 60_000_000_000)| < l.perMinute
    ensures HasRoom(list, l, InHour, now) <==>
            l.perHour == 0 || |After(list, now - 3_600_000_000_000)| < l.perHour
  {
    RecentCounts(list, now - SECOND);
    RecentCounts(list, now - MINUTE);
    RecentCounts(list, now - HOUR);
  }
}
