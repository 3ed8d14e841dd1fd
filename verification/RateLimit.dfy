/** Evenly spaced slots per channel, claimed before they are waited for. */
module RateLimit {
  import opened RetryPolicy
  import opened Arithmetic

  /** The spacing a declared rate asks for, never less than the clock's own step. */
  function Interval(perSec: real): (d: nat)
    requires perSec > 0.0
    ensures d >= 1
  {
    var d := (SECOND as real / perSec).Floor;
    if d <= 0 then 1 else d
  }

  /** The longest whole number of nanoseconds that fits the rate, or one when none does. */
  lemma IntervalExactly(perSec: real)
    requires perSec > 0.0
    ensures var d, exact := Interval(perSec), 1_000_000_000.0 / perSec;
            (d == 1 || d as real <= exact) && exact < (d + 1) as real
  {
  }

  lemma NotMore(a: real, b: real, c: real)
    requires a <= b && c > 0.0
    ensures a * c <= b * c
  {
  }

  lemma Less(a: real, b: real, c: real)
    requires a < b && c > 0.0
    ensures a * c < b * c
  {
  }

  function SlotAt(next: Time, now: Time): (slot: Time)
    ensures slot >= now && slot >= next && (slot == now || slot == next)
  {
    if next < now then now else next
  }

  class Bucket {
    var interval: nat
    var next: Time

    constructor ()
      ensures interval == 0 && next == 0
    {
      interval, next := 0, 0;
    }

    method SetInterval(d: int)
      modifies this
      ensures interval == (if d <= 0 then 1 else d) && next == old(next)
    {
      interval := if d <= 0 then 1 else d;
    }

    /** The slot is taken by the time the wait for it is known. */
    method Reserve(now: Time) returns (wait: nat)
      modifies this
      ensures interval == old(interval)
      ensures next == SlotAt(old(next), now) + interval && wait == SlotAt(old(next), now) - now
    {
      if next < now {
        next := now;
      }
      var slot := next;
      next := slot + interval;
      wait := if slot > now then slot - now else 0;
    }
  }

  class Limiter {
    var buckets: map<string, Bucket>

    constructor ()
      ensures buckets == map[]
    {
      buckets := map[];
    }

    /** Granted or given up, the slot is gone: a caller that keeps timing out gets no extra ones. */
    method Wait(key: string, perSec: real, now: Time, patience: nat) returns (granted: bool)
      modifies this, if key in buckets then {buckets[key]} else {}
      ensures perSec <= 0.0 ==> granted && buckets == old(buckets) && (key in buckets ==> unchanged(buckets[key]))
      ensures perSec > 0.0 ==>
                key in buckets && buckets == old(buckets)[key := buckets[key]] &&
                (key in old(buckets) ==> buckets[key] == old(buckets)[key]) &&
                var b := buckets[key];
                var slot := SlotAt(if key in old(buckets) then old(buckets[key].next) else 0, now);
                b.interval == Interval(perSec) && b.next == slot + b.interval && (granted <==> slot <= now + patience)
    {
      if perSec <= 0.0 {
        return true;
      }
      var b: Bucket;
      if key in buckets {
        b := buckets[key];
      } else {
        b := new Bucket();
        buckets := buckets[key := b];
      }
      b.SetInterval((SECOND as real / perSec).Floor);
      var wait := b.Reserve(now);
      return wait <= patience;
    }
  }

  // ------------------------------------------------------------ over a run

  /** The slots handed to a sequence of callers, by the instants they asked at, whether or not they stayed. */
  function Slots(asked: seq<Time>, interval: nat): (slots: seq<Time>)
    ensures |slots| == |asked|
  {
    if asked == [] then []
    else
      var n := |asked| - 1;
      var before := Slots(asked[..n], interval);
      before + [SlotAt(if n == 0 then 0 else before[n - 1] + interval, asked[n])]
  }

  /** Each slot is the asking instant or one interval after the previous slot, whichever is later. */
  lemma {:induction false} SlotsSpaced(asked: seq<Time>, interval: nat, i: nat)
    requires i < |asked|
    ensures var slots := Slots(asked, interval);
            && (i == 0 ==> slots[i] == asked[i])
            && (i > 0 ==> slots[i] == if slots[i - 1] + interval >= asked[i] then slots[i - 1] + interval else asked[i])
  {
    var n := |asked| - 1;
    if i < n {
      SlotsSpaced(asked[..n], interval, i);
    }
  }

  /** Slots in the half-open span of a given length. */
  function InSpan(slots: seq<Time>, a: int, length: nat): nat {
    if slots == [] then 0
    else
      var n := |slots| - 1;
      InSpan(slots[..n], a, length) + (if a <= slots[n] < a + length then 1 else 0)
  }

  ghost predicate Spaced(slots: seq<Time>, interval: nat) {
    forall i, j :: 0 <= i < j < |slots| ==> slots[i] + interval <= slots[j]
  }

  lemma {:induction false} SlotsAreSpaced(asked: seq<Time>, interval: nat)
    ensures Spaced(Slots(asked, interval), interval)
  {
    if asked != [] {
      var n := |asked| - 1;
      SlotsAreSpaced(asked[..n], interval);
      var slots := Slots(asked, interval);
      forall i | 0 <= i < n
        ensures slots[i] + interval <= slots[n]
      {
        assert slots[i] <= slots[n - 1];
      }
    }
  }

  /** The last of k slots in a span is at least k - 1 intervals into it. */
  lemma {:induction false} FarIntoSpan(slots: seq<Time>, interval: nat, a: int, length: nat) returns (i: nat)
    requires Spaced(slots, interval) && InSpan(slots, a, length) > 0
    ensures i < |slots| && slots[i] < a + length
    ensures a + (InSpan(slots, a, length) - 1) * interval <= slots[i]
  {
    var n := |slots| - 1;
    var k := InSpan(slots[..n], a, length);
    if a <= slots[n] < a + length {
      i := n;
      if k > 0 {
        var j := FarIntoSpan(slots[..n], interval, a, length);
        assert slots[..n][j] == slots[j] && k * interval == (k - 1) * interval + interval;
      }
    } else {
      i := FarIntoSpan(slots[..n], interval, a, length);
    }
  }

  /**
   * However callers come, and however many of them give up, a span of any length sees at most its length over
   * the interval, rounded up.
   */
  lemma RateBound(asked: seq<Time>, interval: nat, a: int, length: nat)
    requires interval > 0
    ensures InSpan(Slots(asked, interval), a, length) <= CeilDiv(length, interval)
  {
    var slots := Slots(asked, interval);
    SlotsAreSpaced(asked, interval);
    var k := InSpan(slots, a, length);
    if k > 0 {
      var i := FarIntoSpan(slots, interval, a, length);
    }
    CountBelowCeil(k, interval, length);
  }

  // --------------------------------------------------- what the rate comes to

  /** Everybody at once, at the first instant. */
  function AtOnce(n: nat): (asked: seq<Time>)
    ensures |asked| == n && forall i :: 0 <= i < n ==> asked[i] == 0
  {
    seq(n, i => 0)
  }

  lemma {:induction false} AtOnceSlots(n: nat, interval: nat, i: nat)
    requires i < n
    ensures Slots(AtOnce(n), interval)[i] == i * interval
  {
    SlotsSpaced(AtOnce(n), interval, i);
    if i > 0 {
      AtOnceSlots(n, interval, i - 1);
      assert i * interval == (i - 1) * interval + interval;
    }
  }

  lemma {:induction false} AllInSpan(slots: seq<Time>, a: int, length: nat)
    requires forall i :: 0 <= i < |slots| ==> a <= slots[i] < a + length
    ensures InSpan(slots, a, length) == |slots|
  {
    if slots != [] {
      AllInSpan(slots[..|slots| - 1], a, length);
    }
  }

  /** The bound is met: enough callers at once fill the span. */
  lemma BoundIsMet(interval: nat, length: nat)
    requires interval > 0
    ensures InSpan(Slots(AtOnce(CeilDiv(length, interval)), interval), 0, length) == CeilDiv(length, interval)
  {
    var n := CeilDiv(length, interval);
    var slots := Slots(AtOnce(n), interval);
    forall i | 0 <= i < n
      ensures 0 <= slots[i] < length
    {
      AtOnceSlots(n, interval, i);
      CeilCovers(length, interval, i);
    }
    AllInSpan(slots, 0, length);
  }

  lemma CeilCovers(length: nat, interval: nat, i: nat)
    requires interval > 0 && i < CeilDiv(length, interval)
    ensures i * interval < length
  {
    var n, x := CeilDiv(length, interval), length + interval - 1;
    assert x == n * interval + x % interval;
    Steps(n - i - 1, interval);
    assert (n - i - 1) * interval == n * interval - i * interval - interval;
  }

  lemma Steps(k: nat, d: nat)
    ensures k * d >= 0
  {
  }

  /** A whole rate's interval is the whole quotient. */
  lemma WholeInterval(p: nat)
    requires p > 0
    ensures Interval(p as real) == if p <= 1_000_000_000 then 1_000_000_000 / p else 1
  {
    var q, r := SECOND / p, SECOND % p;
    assert SECOND == q * p + r;
    assert SECOND as real == q as real * p as real + r as real;
    QuotientFloor(q, p, r);
  }

  lemma QuotientFloor(q: nat, p: nat, r: nat)
    requires p > 0 && r < p
    ensures ((q as real * p as real + r as real) / p as real).Floor == q
  {
    var c, a, n := p as real, q as real, q as real * p as real + r as real;
    AtLeast(n, a, c);
    assert (a + 1.0) * c == a * c + c;
    Below(n, a + 1.0, c);
    FloorIs(n / c, q);
  }

  lemma AtLeast(n: real, a: real, c: real)
    requires c > 0.0 && n >= a * c
    ensures n / c >= a
  {
    var x := n / c;
    assert x * c == n;
    if x < a {
      Less(x, a, c);
    }
  }

  lemma Below(n: real, b: real, c: real)
    requires c > 0.0 && n < b * c
    ensures n / c < b
  {
    var x := n / c;
    assert x * c == n;
    if x >= b {
      NotMore(b, x, c);
    }
  }

  lemma FloorIs(x: real, q: int)
    requires q as real <= x < q as real + 1.0
    ensures x.Floor == q
  {
  }

  /** How many of the slots of a channel paced at p a second come in the second from a on. */
  function SlotsInSecond(p: nat, asked: seq<Time>, a: int): nat
    requires p > 0
  {
    InSpan(Slots(asked, Interval(p as real)), a, 1_000_000_000)
  }

  /** Every second of every run sees at most p slots. */
  ghost predicate RateKept(p: nat)
    requires p > 0
  {
    forall asked: seq<Time>, a: int :: SlotsInSecond(p, asked, a) <= p
  }

  /**
   * A rate of p a second is kept in every run exactly when the interval it asks for is a whole number of
   * nanoseconds: rounding the interval down lets one more through in some seconds.
   */
  lemma RateKeptExactly(p: nat)
    requires p > 0
    ensures RateKept(p) <==> p >= 1_000_000_000 || 1_000_000_000 % p == 0
  {
    WholeInterval(p);
    var d := Interval(p as real);
    RoundedDown(p, d);
    if CeilDiv(1_000_000_000, d) <= p {
      forall asked: seq<Time>, a: int
        ensures SlotsInSecond(p, asked, a) <= p
      {
        RateBound(asked, d, a, 1_000_000_000);
      }
    } else {
      BoundIsMet(d, 1_000_000_000);
      assert SlotsInSecond(p, AtOnce(CeilDiv(1_000_000_000, d)), 0) > p;
    }
  }

  lemma RoundedDown(p: nat, d: nat)
    requires p > 0 && d == if p <= 1_000_000_000 then 1_000_000_000 / p else 1
    ensures d > 0
    ensures CeilDiv(1_000_000_000, d) <= p <==> p >= 1_000_000_000 || 1_000_000_000 % p == 0
  {
    var n := 1_000_000_000;
    if p < n {
      assert n == d * p + n % p;
      CountSteps(n, d, p);
    }
  }

  /** A length takes at most p steps of d exactly when p of them cover it. */
  lemma CountSteps(length: nat, d: nat, p: nat)
    requires d > 0
    ensures CeilDiv(length, d) <= p <==> length <= d * p
  {
    var n := CeilDiv(length, d);
    if length <= d * p {
      assert length + d - 1 < d * p + d;
      assert n * d <= length + d - 1;
      assert (n - p) * d == n * d - d * p;
      LessThanOne(n - p, d);
    }
  }
}
