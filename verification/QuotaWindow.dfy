/** One sliding window: what dropping the oldest entry on a release does to the bound it enforces. */
module QuotaWindow {
  import opened RetryPolicy
  import opened Quota

  /** How many entries come strictly after an instant. */
  function Above(s: seq<Time>, c: int): (n: nat)
    ensures n <= |s|
  {
    if s == [] then 0
    else Above(s[..|s| - 1], c) + (if s[|s| - 1] > c then 1 else 0)
  }

  ghost predicate Sorted(s: seq<Time>) {
    forall i, j :: 0 <= i < j < |s| ==> s[i] <= s[j]
  }

  function Without(s: seq<Time>, i: nat): seq<Time>
    requires i < |s|
  {
    s[..i] + s[i + 1..]
  }

  // ------------------------------------------------------ counting lemmas

  lemma AboveAppend(s: seq<Time>, t: Time, c: int)
    ensures Above(s + [t], c) == Above(s, c) + (if t > c then 1 else 0)
  {
    assert (s + [t])[..|s|] == s;
  }

  lemma {:induction false} AboveWithout(s: seq<Time>, i: nat, c: int)
    requires i < |s|
    ensures Above(Without(s, i), c) == Above(s, c) - (if s[i] > c then 1 else 0)
  {
    var n := |s| - 1;
    if i == n {
      assert Without(s, i) == s[..n];
    } else {
      AboveWithout(s[..n], i, c);
      assert Without(s, i) == Without(s[..n], i) + [s[n]];
      AboveAppend(Without(s[..n], i), s[n], c);
    }
  }

  lemma {:induction false} AboveMonotone(s: seq<Time>, c: int, d: int)
    requires c <= d
    ensures Above(s, d) <= Above(s, c)
  {
    if s != [] {
      AboveMonotone(s[..|s| - 1], c, d);
    }
  }

  lemma {:induction false} AboveAll(s: seq<Time>, c: int)
    requires forall i :: 0 <= i < |s| ==> s[i] > c
    ensures Above(s, c) == |s|
  {
    if s != [] {
      AboveAll(s[..|s| - 1], c);
    }
  }

  lemma {:induction false} AboveNone(s: seq<Time>, c: int)
    requires forall i :: 0 <= i < |s| ==> s[i] <= c
    ensures Above(s, c) == 0
  {
    if s != [] {
      AboveNone(s[..|s| - 1], c);
    }
  }

  lemma {:induction false} AboveRecent(s: seq<Time>, cutoff: int, c: int)
    requires cutoff <= c
    ensures Above(Recent(s, cutoff), c) == Above(s, c)
  {
    if s != [] {
      var n := |s| - 1;
      AboveRecent(s[..n], cutoff, c);
      if s[n] > cutoff {
        AboveAppend(Recent(s[..n], cutoff), s[n], c);
      } else {
        assert Recent(s, cutoff) == Recent(s[..n], cutoff);
      }
    }
  }

  lemma {:induction false} RecentSorted(s: seq<Time>, cutoff: int)
    requires Sorted(s)
    ensures Sorted(Recent(s, cutoff))
  {
    if s != [] {
      var n := |s| - 1;
      RecentSorted(s[..n], cutoff);
      var r := Recent(s[..n], cutoff);
      forall i | 0 <= i < |r|
        ensures r[i] <= s[n]
      {
        assert r[i] in s[..n];
      }
    }
  }

  // ------------------------------------------------------------ the window

  /**
   * list is what the limiter keeps; charged is the exact ledger it stands for, the instants of the reservations
   * not given back, in order; horizon is the latest cutoff the list has been pruned to.
   */
  datatype Window = Window(list: seq<Time>, charged: seq<Time>, horizon: int, now: Time)

  datatype Event =
    | Pass(to: Time)
    | Look
    | Take
    | GiveBack(i: nat)

  ghost predicate Enabled(w: Window, limit: nat, width: nat, e: Event) {
    match e
    case Pass(to) => to >= w.now
    case Look => true
    case Take => |Looked(w.list, w.now, width)| < limit
    case GiveBack(i) => i < |w.charged|
  }

  function Apply(w: Window, width: nat, e: Event): Window
    requires e.GiveBack? ==> e.i < |w.charged|
  {
    match e
    case Pass(to) => w.(now := to)
    case Look => w.(list := Looked(w.list, w.now, width), horizon := w.now - width)
    case Take => Window(Taken(w.list, w.now, width), w.charged + [w.now], w.now - width, w.now)
    case GiveBack(i) => w.(list := Dropped(w.list), charged := Without(w.charged, i))
  }

  /** At every cutoff not yet pruned away the list counts at least as many entries as the ledger. */
  ghost predicate Dominates(list: seq<Time>, charged: seq<Time>, horizon: int) {
    forall c: int :: c >= horizon ==> Above(charged, c) <= Above(list, c)
  }

  /** Charged reservations in the half-open span of one width that starts just after a. */
  function InSpan(charged: seq<Time>, a: int, width: nat): int {
    Above(charged, a) - Above(charged, a + width)
  }

  ghost predicate Bounded(charged: seq<Time>, limit: nat, width: nat) {
    forall a: int :: InSpan(charged, a, width) <= limit
  }

  ghost predicate Inv(w: Window, limit: nat, width: nat) {
    && Sorted(w.list)
    && (forall i :: 0 <= i < |w.list| ==> w.horizon < w.list[i] <= w.now)
    && (forall i :: 0 <= i < |w.charged| ==> w.charged[i] <= w.now)
    && w.horizon <= w.now - width
    && Dominates(w.list, w.charged, w.horizon)
    && Bounded(w.charged, limit, width)
  }

  // ----------------------------------------------- dropping the oldest entry

  /** The argument at one cutoff: only one between the entry given back and the list's oldest needs any. */
  lemma DropAt(list: seq<Time>, charged: seq<Time>, i: nat, c: int)
    requires Sorted(list) && list != [] && i < |charged|
    requires Above(charged, c) <= Above(list, c)
    requires Above(charged, charged[i] as int - 1) <= |list|
    ensures Above(Without(charged, i), c) <= Above(Dropped(list), c)
  {
    AboveWithout(charged, i, c);
    AboveDropped(list, c);
    if charged[i] <= c && list[0] > c {
      AboveSorted(list, c);
      FewerAbove(charged, i, c);
    }
  }

  lemma AboveDropped(list: seq<Time>, c: int)
    requires list != []
    ensures Above(Dropped(list), c) == Above(list, c) - (if list[0] > c then 1 else 0)
  {
    AboveWithout(list, 0, c);
    assert Without(list, 0) == Dropped(list);
  }

  lemma AboveSorted(list: seq<Time>, c: int)
    requires Sorted(list) && list != [] && list[0] > c
    ensures Above(list, c) == |list|
  {
    AboveAll(list, c);
  }

  lemma FewerAbove(charged: seq<Time>, i: nat, c: int)
    requires i < |charged| && charged[i] <= c
    ensures Above(charged, c) < Above(charged, charged[i] as int - 1)
  {
    var t: int := charged[i];
    AboveWithout(charged, i, c);
    AboveWithout(charged, i, t - 1);
    AboveMonotone(Without(charged, i), t - 1, c);
  }

  lemma HasEntryAbove(charged: seq<Time>, i: nat)
    requires i < |charged|
    ensures Above(charged, charged[i] as int - 1) > 0
  {
    AboveWithout(charged, i, charged[i] as int - 1);
  }

  /** Giving back an entry still inside the window: the oldest goes in its place and every cutoff still dominates. */
  lemma DropDominates(list: seq<Time>, charged: seq<Time>, horizon: int, i: nat)
    requires Sorted(list) && Dominates(list, charged, horizon)
    requires i < |charged| && charged[i] > horizon
    ensures list != [] && Dominates(Dropped(list), Without(charged, i), horizon)
  {
    HasEntryAbove(charged, i);
    assert Above(charged, charged[i] as int - 1) <= Above(list, charged[i] as int - 1) <= |list|;
    forall c: int | c >= horizon
      ensures Above(Without(charged, i), c) <= Above(Dropped(list), c)
    {
      DropAt(list, charged, i, c);
    }
  }

  /** One that has already aged out takes a live entry with it, unless there is none to take. */
  lemma LateDropBreaks(list: seq<Time>, horizon: int, t: Time)
    requires Sorted(list) && list != [] && (forall i :: 0 <= i < |list| ==> list[i] > horizon) && t <= horizon
    ensures Dominates(list, list + [t], horizon)
    ensures !Dominates(Dropped(list), Without(list + [t], |list|), horizon)
  {
    forall c: int | c >= horizon
      ensures Above(list + [t], c) <= Above(list, c)
    {
      AboveAppend(list, t, c);
    }
    assert Without(list + [t], |list|) == list;
    AboveAll(list, list[0] - 1);
    assert Above(list, list[0] - 1) > Above(Dropped(list), list[0] - 1);
  }

  /**
   * A release of an entry made at t keeps the list dominating, whatever ledger it was dominating, exactly when
   * t is still inside the window or the list has nothing left to lose.
   */
  lemma ReleaseDominatesExactly(list: seq<Time>, horizon: int, t: Time)
    requires Sorted(list) && forall i :: 0 <= i < |list| ==> list[i] > horizon
    ensures (forall charged: seq<Time>, i: nat ::
               i < |charged| && charged[i] == t && Dominates(list, charged, horizon) ==>
                 Dominates(Dropped(list), Without(charged, i), horizon))
            <==> t > horizon || list == []
  {
    if t > horizon || list == [] {
      forall charged: seq<Time>, i: nat |
        i < |charged| && charged[i] == t && Dominates(list, charged, horizon)
        ensures Dominates(Dropped(list), Without(charged, i), horizon)
      {
        if t > horizon {
          DropDominates(list, charged, horizon, i);
        } else {
          forall c: int | c >= horizon
            ensures Above(Without(charged, i), c) <= Above(Dropped(list), c)
          {
            AboveWithout(charged, i, c);
            assert Above(charged, c) <= Above(list, c);
          }
        }
      }
    } else {
      LateDropBreaks(list, horizon, t);
      assert (list + [t])[|list|] == t;
    }
  }

  // ----------------------------------------------------------------- steps

  lemma LookKeeps(w: Window, limit: nat, width: nat)
    requires Inv(w, limit, width)
    ensures Inv(Apply(w, width, Look), limit, width)
  {
    hide Recent, Above, InSpan;
    var cutoff := w.now - width;
    RecentSorted(w.list, cutoff);
    var r := Looked(w.list, w.now, width);
    forall i | 0 <= i < |r|
      ensures cutoff < r[i] <= w.now
    {
      assert r[i] in r;
    }
    forall c: int | c >= cutoff
      ensures Above(w.charged, c) <= Above(r, c)
    {
      AboveRecent(w.list, cutoff, c);
    }
  }

  /** A span that takes in the new entry ends at or after now, so it held only what the window counted. */
  lemma TakeInSpan(charged: seq<Time>, r: seq<Time>, now: Time, limit: nat, width: nat, a: int)
    requires forall i :: 0 <= i < |charged| ==> charged[i] <= now
    requires Above(charged, now - width) <= |r| < limit
    requires InSpan(charged, a, width) <= limit
    ensures InSpan(charged + [now], a, width) <= limit
  {
    AboveAppend(charged, now, a);
    AboveAppend(charged, now, a + width);
    if a < now <= a + width {
      AboveNone(charged, a + width);
      AboveMonotone(charged, now - width, a);
    }
  }

  lemma AppendDominates(r: seq<Time>, charged: seq<Time>, t: Time, horizon: int)
    requires Dominates(r, charged, horizon)
    ensures Dominates(r + [t], charged + [t], horizon)
  {
    forall c: int | c >= horizon
      ensures Above(charged + [t], c) <= Above(r + [t], c)
    {
      AboveAppend(charged, t, c);
      AboveAppend(r, t, c);
      assert Above(charged, c) <= Above(r, c);
    }
  }

  lemma TakeKeeps(w: Window, limit: nat, width: nat)
    requires Inv(w, limit, width) && Enabled(w, limit, width, Take) && width > 0
    ensures Inv(Apply(w, width, Take), limit, width)
  {
    hide Recent, Above;
    LookKeeps(w, limit, width);
    var r, cutoff := Looked(w.list, w.now, width), w.now - width;
    AppendDominates(r, w.charged, w.now, cutoff);
    assert Above(w.charged, cutoff) <= Above(r, cutoff) <= |r|;
    forall a: int
      ensures InSpan(w.charged + [w.now], a, width) <= limit
    {
      assert InSpan(w.charged, a, width) <= limit;
      TakeInSpan(w.charged, r, w.now, limit, width, a);
    }
  }

  lemma GiveBackKeeps(w: Window, limit: nat, width: nat, i: nat)
    requires Inv(w, limit, width) && i < |w.charged| && w.charged[i] > w.now - width
    ensures Inv(Apply(w, width, GiveBack(i)), limit, width)
  {
    DropDominates(w.list, w.charged, w.horizon, i);
    forall a: int
      ensures InSpan(Without(w.charged, i), a, width) <= limit
    {
      AboveWithout(w.charged, i, a);
      AboveWithout(w.charged, i, a + width);
      assert InSpan(w.charged, a, width) <= limit;
    }
  }

  // ------------------------------------------------------------------ runs

  const EMPTY := Window([], [], -1, 0)

  /** A run in which no reservation is given back later than hold after it was made. */
  ghost predicate Run(limit: nat, width: nat, hold: nat, es: seq<Event>, w: Window) {
    if es == [] then w == EMPTY.(horizon := 0 - width)
    else
      var n := |es| - 1;
      exists before: Window ::
        Run(limit, width, hold, es[..n], before) && Enabled(before, limit, width, es[n]) &&
        HeldAtMost(hold, before, es[n]) && w == Apply(before, width, es[n])
  }

  predicate HeldAtMost(hold: nat, w: Window, e: Event) {
    e.GiveBack? ==> e.i < |w.charged| && w.now <= w.charged[e.i] + hold
  }

  /** Given back inside the window, no span of one window width ever holds more charged reservations than the limit. */
  lemma {:induction false} WindowBound(limit: nat, width: nat, hold: nat, es: seq<Event>, w: Window)
    requires hold < width && Run(limit, width, hold, es, w)
    ensures Inv(w, limit, width) && Bounded(w.charged, limit, width)
  {
    if es != [] {
      var n := |es| - 1;
      var before :| Run(limit, width, hold, es[..n], before) && Enabled(before, limit, width, es[n]) &&
                    HeldAtMost(hold, before, es[n]) && w == Apply(before, width, es[n]);
      WindowBound(limit, width, hold, es[..n], before);
      match es[n] {
        case Pass(to) =>
        case Look => LookKeeps(before, limit, width);
        case Take => TakeKeeps(before, limit, width);
        case GiveBack(i) => GiveBackKeeps(before, limit, width, i);
      }
    }
  }

  // ----------------------------------------------------- the late release

  ghost predicate Reachable(limit: nat, width: nat, hold: nat, w: Window) {
    exists es :: Run(limit, width, hold, es, w)
  }

  lemma Extend(limit: nat, width: nat, hold: nat, w: Window, e: Event)
    requires Reachable(limit, width, hold, w) && Enabled(w, limit, width, e) && HeldAtMost(hold, w, e)
    ensures Reachable(limit, width, hold, Apply(w, width, e))
  {
    var es :| Run(limit, width, hold, es, w);
    assert (es + [e])[..|es|] == es;
    assert Run(limit, width, hold, es + [e], Apply(w, width, e));
  }

  /** k entries made at the same instant. */
  function Together(t: Time, k: nat): (s: seq<Time>)
    ensures |s| == k && forall i :: 0 <= i < k ==> s[i] == t
  {
    seq(k, i => t)
  }

  lemma {:induction false} RecentKeepsAll(s: seq<Time>, cutoff: int)
    requires forall i :: 0 <= i < |s| ==> s[i] > cutoff
    ensures Recent(s, cutoff) == s
  {
    if s != [] {
      RecentKeepsAll(s[..|s| - 1], cutoff);
    }
  }

  /** One reservation at the very start has aged out by the time k others are made, one width later. */
  function AgedOut(width: nat, k: nat): Window {
    Window(Together(width, k), [0] + Together(width, k), 0, width)
  }

  lemma OneMoreTogether(t: Time, k: nat)
    ensures Together(t, k) + [t] == Together(t, k + 1) && Dropped(Together(t, k + 1)) == Together(t, k)
  {
  }

  /** A reservation at an instant whose entries are all still there joins them. */
  lemma TakeJoins(limit: nat, width: nat, k: nat, charged: seq<Time>)
    requires width > 0 && k < limit
    ensures var w := Window(Together(width, k), charged, 0, width);
            && Enabled(w, limit, width, Take)
            && Apply(w, width, Take) == Window(Together(width, k + 1), charged + [width], 0, width)
  {
    RecentKeepsAll(Together(width, k), width - width);
    OneMoreTogether(width, k);
  }

  lemma FirstAgesOut(limit: nat, width: nat, hold: nat)
    requires limit > 0 && width > 0
    ensures Reachable(limit, width, hold, Window([0], [0], 0 - width, width))
  {
    var w0 := EMPTY.(horizon := 0 - width);
    assert Run(limit, width, hold, [], w0);
    hide Run, Reachable;
    assert Looked(w0.list, 0, width) == [];
    Extend(limit, width, hold, w0, Take);
    var w1 := Apply(w0, width, Take);
    assert w1 == Window([0], [0], 0 - width, 0);
    Extend(limit, width, hold, w1, Pass(width));
  }

  lemma {:induction false} TakenTogether(limit: nat, width: nat, hold: nat, k: nat)
    requires width > 0 && 1 <= k <= limit
    ensures Reachable(limit, width, hold, AgedOut(width, k))
  {
    hide Run, Reachable;
    if k == 1 {
      FirstAgesOut(limit, width, hold);
      var w := Window([0], [0], 0 - width, width);
      assert Looked([0], width, width) == [];
      Extend(limit, width, hold, w, Take);
      assert Apply(w, width, Take) == AgedOut(width, 1);
    } else {
      TakenTogether(limit, width, hold, k - 1);
      var charged := [0] + Together(width, k - 1);
      TakeJoins(limit, width, k - 1, charged);
      OneMoreTogether(width, k - 1);
      Extend(limit, width, hold, AgedOut(width, k - 1), Take);
      assert charged + [width] == [0] + Together(width, k);
    }
  }

  lemma TogetherInSpan(t: Time, k: nat, width: nat)
    requires width > 0
    ensures InSpan(Together(t, k), t - 1, width) == k
  {
    hide Above;
    AboveAll(Together(t, k), t - 1);
    AboveNone(Together(t, k), t - 1 + width);
  }

  /** Given back only now, the first reservation takes one of the others' entries with it. */
  lemma LateGiveBack(width: nat, k: nat)
    requires k > 0
    ensures Apply(AgedOut(width, k), width, GiveBack(0)) ==
            Window(Together(width, k - 1), Together(width, k), 0, width)
  {
    OneMoreTogether(width, k - 1);
    assert Without([0] + Together(width, k), 0) == Together(width, k);
  }

  /** And one more is granted at the same instant. */
  lemma LateReleaseOverspends(limit: nat, width: nat, hold: nat) returns (w: Window)
    requires limit > 0 && 0 < width <= hold
    ensures Reachable(limit, width, hold, w)
    ensures InSpan(w.charged, width - 1, width) == limit + 1
  {
    hide Run, Reachable, InSpan, Together;
    TakenTogether(limit, width, hold, limit);
    assert AgedOut(width, limit).charged[0] == 0;
    Extend(limit, width, hold, AgedOut(width, limit), GiveBack(0));
    LateGiveBack(width, limit);
    var charged := Together(width, limit);
    TakeJoins(limit, width, limit - 1, charged);
    hide Apply, Enabled;
    Extend(limit, width, hold, Window(Together(width, limit - 1), charged, 0, width), Take);
    OneMoreTogether(width, limit);
    w := Window(Together(width, limit), Together(width, limit + 1), 0, width);
    TogetherInSpan(width, limit + 1, width);
  }

  ghost predicate BoundKept(limit: nat, width: nat, hold: nat) {
    forall w: Window :: Reachable(limit, width, hold, w) ==> Bounded(w.charged, limit, width)
  }

  /** The window keeps its limit in every run exactly when a reservation is always given back inside the window. */
  lemma WindowBoundExactly(limit: nat, width: nat, hold: nat)
    requires limit > 0 && width > 0
    ensures BoundKept(limit, width, hold) <==> hold < width
  {
    if hold < width {
      forall w: Window | Reachable(limit, width, hold, w)
        ensures Bounded(w.charged, limit, width)
      {
        var es :| Run(limit, width, hold, es, w);
        WindowBound(limit, width, hold, es, w);
      }
    } else {
      var w := LateReleaseOverspends(limit, width, hold);
      hide Run, Reachable, InSpan;
      assert InSpan(w.charged, width - 1, width) > limit;
    }
  }
}
