/** The timer that limits how often the daemon reads the battery. */
module Timer {
  datatype Time = Time(sec: int, usec: int)

  function Micros(t: Time): int {
    1000000 * t.sec + t.usec
  }

  // The comparison the daemon makes, in milliseconds.
  predicate Expired(now: Time, lastRead: Time, interval: int) {
    var seconds := (now.sec - lastRead.sec) as real;
    var useconds := (now.usec - lastRead.usec) as real;
    var diff := seconds * 1000.0 + useconds / 1000.0;
    !(diff < interval as real * 1000.0)
  }

  /** Taking seconds and microseconds apart and letting the microsecond difference go negative gives the
      true difference. */
  lemma ExpiredInMicros(now: Time, lastRead: Time, interval: int)
    ensures Expired(now, lastRead, interval) <==> Micros(now) - Micros(lastRead) >= 1000000 * interval
  {
    var ds, du := now.sec - lastRead.sec, now.usec - lastRead.usec;
    var diff := ds as real * 1000.0 + du as real / 1000.0;
    assert diff * 1000.0 == (1000000 * ds + du) as real;
    assert interval as real * 1000.0 * 1000.0 == (1000000 * interval) as real;
  }

  function Latest(t0: Time, ts: seq<Time>): Time {
    if ts == [] then t0 else ts[|ts| - 1]
  }

  // The polls that were accepted, starting from the time `t0` of construction.
  function Accepted(t0: Time, polls: seq<Time>, interval: int): (r: seq<Time>)
    ensures |r| <= |polls|
  {
    if polls == [] then []
    else
      var before := Accepted(t0, polls[..|polls| - 1], interval);
      var now := polls[|polls| - 1];
      if Expired(now, Latest(t0, before), interval) then before + [now] else before
  }

  // The accepted time before number `k`, or the start.
  function Previous(t0: Time, ts: seq<Time>, k: nat): Time
    requires k <= |ts|
  {
    if k == 0 then t0 else ts[k - 1]
  }

  // Every time is at least `gap` microseconds after the one before it.
  ghost predicate Spaced(t0: Time, a: seq<Time>, gap: int) {
    forall k: nat | k < |a| :: Micros(a[k]) - Micros(Previous(t0, a, k)) >= gap
  }

  /** Accepted polls are at least `interval` seconds apart. */
  lemma {:induction false} AtLeastIntervalApart(t0: Time, polls: seq<Time>, interval: int)
    ensures Spaced(t0, Accepted(t0, polls, interval), 1000000 * interval)
  {
    if polls == [] {
    } else {
      var before, now := polls[..|polls| - 1], polls[|polls| - 1];
      AtLeastIntervalApart(t0, before, interval);
      var a, b := Accepted(t0, polls, interval), Accepted(t0, before, interval);
      ExpiredInMicros(now, Latest(t0, b), interval);
      hide Expired, Micros;
      if a != b {
        forall k: nat | k < |a| ensures Micros(a[k]) - Micros(Previous(t0, a, k)) >= 1000000 * interval {
          if k < |b| {
            assert Previous(t0, a, k) == Previous(t0, b, k) && a[k] == b[k];
          }
        }
      }
    }
  }

  // Dropping the last time leaves the earlier ones and their predecessors.
  lemma DropLast(t0: Time, a: seq<Time>)
    requires a != []
    ensures var before := a[..|a| - 1];
            && Latest(t0, before) == Previous(t0, a, |a| - 1)
            && Latest(t0, a) == a[|a| - 1]
            && forall k: nat | k < |before| :: before[k] == a[k] && Previous(t0, before, k) == Previous(t0, a, k)
  {
  }

  lemma SpacedPrefix(t0: Time, a: seq<Time>, gap: int)
    requires a != [] && Spaced(t0, a, gap)
    ensures Spaced(t0, a[..|a| - 1], gap)
    ensures Micros(Latest(t0, a)) - Micros(Latest(t0, a[..|a| - 1])) >= gap
  {
    hide Micros;
    DropLast(t0, a);
  }

  lemma OneMore(n: nat, gap: int)
    ensures (n + 1) * gap == n * gap + gap
  {
  }

  lemma {:induction false} SpacedTimes(t0: Time, a: seq<Time>, gap: int)
    requires Spaced(t0, a, gap)
    ensures Micros(Latest(t0, a)) - Micros(t0) >= |a| * gap
  {
    hide Micros, Spaced;
    if a == [] {
    } else {
      SpacedPrefix(t0, a, gap);
      SpacedTimes(t0, a[..|a| - 1], gap);
      OneMore(|a| - 1, gap);
    }
  }

  lemma {:induction false} AcceptedArePolls(t0: Time, polls: seq<Time>, interval: int)
    ensures forall x | x in Accepted(t0, polls, interval) :: x in polls
  {
    if polls == [] {
    } else {
      AcceptedArePolls(t0, polls[..|polls| - 1], interval);
    }
  }

  lemma MultiplyMonotone(a: int, b: int, d: int)
    requires a <= b && d >= 0
    ensures a * d <= b * d
  {
    assert (b - a) * d >= 0;
  }

  lemma DivideCount(n: nat, d: int, total: int)
    requires d > 0 && n * d <= total
    ensures n <= total / d
  {
    var q := total / d;
    assert total < (q + 1) * d;
    if n > q {
      MultiplyMonotone(q + 1, n, d);
      assert false;
    }
  }

  lemma SpacedCount(t0: Time, a: seq<Time>, gap: int, t: Time)
    requires gap > 0 && Spaced(t0, a, gap) && Micros(Latest(t0, a)) <= Micros(t)
    ensures |a| <= (Micros(t) - Micros(t0)) / gap
  {
    SpacedTimes(t0, a, gap);
    hide Micros, Spaced, Latest;
    DivideCount(|a|, gap, Micros(t) - Micros(t0));
  }

  /** By any time `t` not before the last poll, at most (t - t0) / interval polls were accepted. */
  lemma AcceptedCount(t0: Time, polls: seq<Time>, interval: int, t: Time)
    requires interval > 0
    requires Micros(t0) <= Micros(t) && forall x | x in polls :: Micros(x) <= Micros(t)
    ensures |Accepted(t0, polls, interval)| <= (Micros(t) - Micros(t0)) / (1000000 * interval)
  {
    hide Micros, Expired, Spaced, Accepted;
    AtLeastIntervalApart(t0, polls, interval);
    AcceptedArePolls(t0, polls, interval);
    SpacedCount(t0, Accepted(t0, polls, interval), 1000000 * interval, t);
  }

  // Polls never go back and are at most `d` microseconds apart, counting from `t0`.
  ghost predicate Steady(t0: Time, polls: seq<Time>, d: int) {
    forall k: nat | k < |polls| ::
      0 <= Micros(polls[k]) - Micros(Previous(t0, polls, k)) <= d
  }

  // Every time is less than `gap` microseconds after the one before it.
  ghost predicate Within(t0: Time, a: seq<Time>, gap: int) {
    forall k: nat | k < |a| :: Micros(a[k]) - Micros(Previous(t0, a, k)) < gap
  }

  lemma WithinAppend(t0: Time, b: seq<Time>, now: Time, gap: int)
    requires Within(t0, b, gap) && Micros(now) - Micros(Latest(t0, b)) < gap
    ensures Within(t0, b + [now], gap)
  {
    hide Micros;
    DropLast(t0, b + [now]);
    assert (b + [now])[..|b|] == b;
  }

  lemma SteadyPrefix(t0: Time, polls: seq<Time>, d: int)
    requires polls != [] && Steady(t0, polls, d)
    ensures Steady(t0, polls[..|polls| - 1], d)
    ensures Micros(polls[|polls| - 1]) - Micros(Latest(t0, polls[..|polls| - 1])) <= d
  {
    hide Micros;
    DropLast(t0, polls);
  }

  /** With polls at most `d` apart, two successive accepted polls are less than interval + d apart, and
      the latest poll is never a whole interval past the latest accepted one. */
  lemma {:induction false} LessThanIntervalPlusDelay(t0: Time, polls: seq<Time>, interval: int, d: int)
    requires interval > 0 && Steady(t0, polls, d)
    ensures Micros(Latest(t0, polls)) - Micros(Latest(t0, Accepted(t0, polls, interval))) < 1000000 * interval
    ensures Within(t0, Accepted(t0, polls, interval), 1000000 * interval + d)
  {
    if polls == [] {
    } else {
      hide Steady, Within, Micros, Expired;
      var before, now := polls[..|polls| - 1], polls[|polls| - 1];
      SteadyPrefix(t0, polls, d);
      LessThanIntervalPlusDelay(t0, before, interval, d);
      var b := Accepted(t0, before, interval);
      ExpiredInMicros(now, Latest(t0, b), interval);
      WithinAppend(t0, b, now, 1000000 * interval + d);
    }
  }
}
