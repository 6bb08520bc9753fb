/** What one battery reading does to the board and which value it returns. */
module Measurement {
  import opened Hardware

  /** Access number `k` of a reading that never stops searching. Accesses 0 to 3 check for a charger
      and select the comparator, 4 to 195 are the 64 railing pulses, 196 to 200 turn the direction
      round and take the first sample, and every later group of three is one downward search pulse. */
  function OpAt(w: Wiring, k: nat): (op: Op)
    ensures op.Read? || op.Write?
  {
    if k == 0 then Read(w.pgood)
    else if k == 1 then Read(w.d2)
    else if k == 2 then Write(w.ud, true)
    else if k == 3 then Write(w.cs, false)
    else if k < 196 then
      (var r := (k - 4) % 3;
       if r == 0 then Write(w.ud, false) else if r == 1 then Write(w.ud, true) else Read(w.pgood))
    else if k == 196 then Write(w.cs, true)
    else if k == 197 then Read(w.pgood)
    else if k == 198 then Write(w.ud, false)
    else if k == 199 then Write(w.cs, false)
    else if k == 200 then Read(w.pgood)
    else
      (var r := (k - 201) % 3;
       if r == 0 then Write(w.ud, true) else if r == 1 then Write(w.ud, false) else Read(w.pgood))
  }

  // A reading writes no pins but CS and UD.
  lemma WritesCsAndUd(w: Wiring, k: nat)
    ensures OpAt(w, k).Read? || (OpAt(w, k).Write? && OpAt(w, k).pin in {w.cs, w.ud})
  {
  }

  // The board after the first `k` accesses.
  function After(w: Wiring, h: Hw, k: nat): (r: Hw)
    ensures r.mode == h.mode
  {
    if k == 0 then h else Effect(w, After(w, h, k - 1), OpAt(w, k - 1))
  }

  lemma AfterStep(w: Wiring, h: Hw, k: nat)
    ensures After(w, h, k + 1) == Effect(w, After(w, h, k), OpAt(w, k))
  {
  }

  // The PGOOD level sampled after `i` search pulses.
  predicate Sample(env: Env, w: Wiring, h: Hw, t: nat, i: nat) {
    Shows(env, After(w, h, 200 + 3 * i), t + 200 + 3 * i, w.pgood)
  }

  lemma SampleIsShown(env: Env, w: Wiring, h: Hw, t: nat, i: nat)
    ensures Sample(env, w, h, t, i) <==> Shows(env, After(w, h, 200 + 3 * i), t + 200 + 3 * i, w.pgood)
  {
  }

  /** The number of search pulses: the leading run of high samples, from sample `i` on, capped at 63. */
  function Pulses(env: Env, w: Wiring, h: Hw, t: nat, i: nat): (n: nat)
    requires i <= 63
    ensures i <= n <= 63
    decreases 63 - i
  {
    if i < 63 && Sample(env, w, h, t, i) then Pulses(env, w, h, t, i + 1) else i
  }

  lemma {:induction false} PulsesAreTheLeadingRun(env: Env, w: Wiring, h: Hw, t: nat, i: nat)
    requires i <= 63
    ensures var n := Pulses(env, w, h, t, i);
            && (forall j: nat | i <= j < n :: Sample(env, w, h, t, j))
            && (n < 63 ==> !Sample(env, w, h, t, n))
    decreases 63 - i
  {
    hide Sample;
    if i == 63 || !Sample(env, w, h, t, i) {
    } else {
      PulsesAreTheLeadingRun(env, w, h, t, i + 1);
    }
  }

  /** One whole reading started at access `t`. A failing D2 access counts as a charger being present,
      and every later fault leaves the accesses before it done. */
  function ReadBattery(env: Env, w: Wiring, h: Hw, t: nat): (o: Outcome)
    ensures o.value == GPIO_ERROR || o.value == CHARGING || 0 <= o.value <= 63
    ensures o.t > t && o.hw.mode == h.mode
  {
    var n := Pulses(env, w, h, t, 0);
    var k := Granted(env, t, 202 + 3 * n);
    if k == 0 then Outcome(h, t + 1, GPIO_ERROR)
    else if k == 1 || !Shows(env, h, t + 1, w.d2) then Outcome(h, t + 2, CHARGING)
    else if k < 202 + 3 * n then Outcome(After(w, h, k), t + k + 1, GPIO_ERROR)
    else Outcome(Effect(w, After(w, h, 201 + 3 * n), Write(w.cs, true)), t + k, 63 - n)
  }

  // The sleep that follows access `k`, for the two configured delays.
  function Nap(k: nat, gpioDelay: nat, pgoodDelay: nat): nat {
    if k == 196 then pgoodDelay
    else if 4 <= k < 196 && (k - 4) % 3 == 2 then 0
    else if 200 <= k && (k - 200) % 3 == 0 then 0
    else gpioDelay
  }

  lemma ThreeTimes(i: nat)
    ensures 3 * i % 3 == 0 && (3 * i + 1) % 3 == 1 && (3 * i + 2) % 3 == 2 && (3 * i + 3) % 3 == 0
  {
  }

  /** The accesses of a reading outside the pulses, and the naps after them. */
  lemma ReadingOps(w: Wiring, gpioDelay: nat, pgoodDelay: nat)
    ensures OpAt(w, 0) == Read(w.pgood) && OpAt(w, 1) == Read(w.d2)
    ensures OpAt(w, 2) == Write(w.ud, true) && OpAt(w, 3) == Write(w.cs, false)
    ensures OpAt(w, 196) == Write(w.cs, true) && OpAt(w, 197) == Read(w.pgood)
    ensures OpAt(w, 198) == Write(w.ud, false) && OpAt(w, 199) == Write(w.cs, false) && OpAt(w, 200) == Read(w.pgood)
    ensures forall k | k in {0, 1, 2, 3, 197, 198, 199} :: Nap(k, gpioDelay, pgoodDelay) == gpioDelay
    ensures Nap(196, gpioDelay, pgoodDelay) == pgoodDelay && Nap(200, gpioDelay, pgoodDelay) == 0
  {
  }

  // The accesses of one railing pulse, of one search pulse, and their naps.
  lemma RailPulseOps(w: Wiring, i: nat, gpioDelay: nat, pgoodDelay: nat)
    requires i < 64
    ensures var k := 4 + 3 * i;
            && OpAt(w, k) == Write(w.ud, false) && OpAt(w, k + 1) == Write(w.ud, true) && OpAt(w, k + 2) == Read(w.pgood)
            && Nap(k, gpioDelay, pgoodDelay) == Nap(k + 1, gpioDelay, pgoodDelay) == gpioDelay
            && Nap(k + 2, gpioDelay, pgoodDelay) == 0
  {
    ThreeTimes(i);
    assert 4 + 3 * i - 4 == 3 * i && 5 + 3 * i - 4 == 3 * i + 1 && 6 + 3 * i - 4 == 3 * i + 2;
  }

  lemma SearchPulseOps(w: Wiring, i: nat, gpioDelay: nat, pgoodDelay: nat)
    ensures var k := 201 + 3 * i;
            && OpAt(w, k) == Write(w.ud, true) && OpAt(w, k + 1) == Write(w.ud, false) && OpAt(w, k + 2) == Read(w.pgood)
            && Nap(k, gpioDelay, pgoodDelay) == Nap(k + 1, gpioDelay, pgoodDelay) == gpioDelay
            && Nap(k + 2, gpioDelay, pgoodDelay) == 0
  {
    ThreeTimes(i);
    assert 201 + 3 * i - 201 == 3 * i && 202 + 3 * i - 201 == 3 * i + 1 && 203 + 3 * i - 201 == 3 * i + 2;
    assert 203 + 3 * i - 200 == 3 * i + 3;
  }

  function Slept(k: nat, gpioDelay: nat, pgoodDelay: nat): (s: nat)
  {
    if k == 0 then 0 else Slept(k - 1, gpioDelay, pgoodDelay) + Nap(k - 1, gpioDelay, pgoodDelay)
  }

  /** What a reading of this outcome, begun at access `t`, sleeps: stopped by a fault, the sleep of the accesses
      before it; for a charger, that of the one read before D2; else that of the whole search. */
  function ReadingSleep(o: Outcome, t: nat, gpioDelay: nat, pgoodDelay: nat): nat
    requires o.t > t && o.value <= 63
  {
    if o.value >= 0 then (136 + 2 * (63 - o.value)) * gpioDelay + pgoodDelay
    else if o.value == CHARGING then gpioDelay
    else Slept(o.t - t - 1, gpioDelay, pgoodDelay)
  }

  // Pin writes among the first `k` accesses.
  function Writes(w: Wiring, k: nat): nat {
    if k == 0 then 0 else Writes(w, k - 1) + if OpAt(w, k - 1).Write? then 1 else 0
  }

  // Two more naps on top of `a` of them.
  lemma TwoNaps(a: nat, gpioDelay: nat)
    ensures (a + 2) * gpioDelay == a * gpioDelay + gpioDelay + gpioDelay
  {
  }

  // One railing pulse costs two writes and two naps.
  lemma RailPulseCost(w: Wiring, i: nat, gpioDelay: nat, pgoodDelay: nat)
    requires i < 64
    ensures Writes(w, 7 + 3 * i) == Writes(w, 4 + 3 * i) + 2
    ensures Slept(7 + 3 * i, gpioDelay, pgoodDelay) == Slept(4 + 3 * i, gpioDelay, pgoodDelay) + gpioDelay + gpioDelay
  {
    hide OpAt, Nap;
    RailPulseOps(w, i, gpioDelay, pgoodDelay);
    assert Writes(w, 5 + 3 * i) == Writes(w, 4 + 3 * i) + 1;
    assert Writes(w, 6 + 3 * i) == Writes(w, 5 + 3 * i) + 1;
    assert Slept(5 + 3 * i, gpioDelay, pgoodDelay) == Slept(4 + 3 * i, gpioDelay, pgoodDelay) + gpioDelay;
    assert Slept(6 + 3 * i, gpioDelay, pgoodDelay) == Slept(5 + 3 * i, gpioDelay, pgoodDelay) + gpioDelay;
  }

  lemma SetupCost(w: Wiring, gpioDelay: nat, pgoodDelay: nat)
    ensures Writes(w, 4) == 2
    ensures Slept(4, gpioDelay, pgoodDelay) == 4 * gpioDelay
  {
    assert Writes(w, 1) == 0 && Writes(w, 2) == 0 && Writes(w, 3) == 1;
    assert Slept(1, gpioDelay, pgoodDelay) == gpioDelay;
    assert Slept(2, gpioDelay, pgoodDelay) == 2 * gpioDelay && Slept(3, gpioDelay, pgoodDelay) == 3 * gpioDelay;
  }

  lemma {:induction false} RailCost(w: Wiring, i: nat, gpioDelay: nat, pgoodDelay: nat)
    requires i <= 64
    ensures Writes(w, 4 + 3 * i) == 2 + 2 * i
    ensures Slept(4 + 3 * i, gpioDelay, pgoodDelay) == (4 + 2 * i) * gpioDelay
  {
    hide Slept, Writes;
    if i == 0 {
      SetupCost(w, gpioDelay, pgoodDelay);
    } else {
      RailCost(w, i - 1, gpioDelay, pgoodDelay);
      RailPulseCost(w, i - 1, gpioDelay, pgoodDelay);
      TwoNaps(2 + 2 * i, gpioDelay);
    }
  }

  lemma ReselectCost(w: Wiring, gpioDelay: nat, pgoodDelay: nat)
    ensures Writes(w, 201) == 133
    ensures Slept(201, gpioDelay, pgoodDelay) == 135 * gpioDelay + pgoodDelay
  {
    RailCost(w, 64, gpioDelay, pgoodDelay);
    assert Writes(w, 197) == 131 && Writes(w, 198) == 131;
    assert Writes(w, 199) == 132 && Writes(w, 200) == 133;
    assert Slept(197, gpioDelay, pgoodDelay) == 132 * gpioDelay + pgoodDelay;
    assert Slept(198, gpioDelay, pgoodDelay) == 133 * gpioDelay + pgoodDelay;
    assert Slept(199, gpioDelay, pgoodDelay) == 134 * gpioDelay + pgoodDelay;
    assert Slept(200, gpioDelay, pgoodDelay) == 135 * gpioDelay + pgoodDelay;
  }

  // One search pulse costs two writes and two naps.
  lemma SearchPulseCost(w: Wiring, i: nat, gpioDelay: nat, pgoodDelay: nat)
    ensures Writes(w, 204 + 3 * i) == Writes(w, 201 + 3 * i) + 2
    ensures Slept(204 + 3 * i, gpioDelay, pgoodDelay)
         == Slept(201 + 3 * i, gpioDelay, pgoodDelay) + gpioDelay + gpioDelay
  {
    hide OpAt, Nap;
    SearchPulseOps(w, i, gpioDelay, pgoodDelay);
    assert Writes(w, 202 + 3 * i) == Writes(w, 201 + 3 * i) + 1;
    assert Writes(w, 203 + 3 * i) == Writes(w, 202 + 3 * i) + 1;
    assert Slept(202 + 3 * i, gpioDelay, pgoodDelay) == Slept(201 + 3 * i, gpioDelay, pgoodDelay) + gpioDelay;
    assert Slept(203 + 3 * i, gpioDelay, pgoodDelay) == Slept(202 + 3 * i, gpioDelay, pgoodDelay) + gpioDelay;
  }

  lemma {:induction false} SearchCost(w: Wiring, i: nat, gpioDelay: nat, pgoodDelay: nat)
    ensures Writes(w, 201 + 3 * i) == 133 + 2 * i
    ensures Slept(201 + 3 * i, gpioDelay, pgoodDelay) == (135 + 2 * i) * gpioDelay + pgoodDelay
  {
    hide Slept, Writes;
    if i == 0 {
      ReselectCost(w, gpioDelay, pgoodDelay);
    } else {
      SearchCost(w, i - 1, gpioDelay, pgoodDelay);
      SearchPulseCost(w, i - 1, gpioDelay, pgoodDelay);
      TwoNaps(133 + 2 * i, gpioDelay);
    }
  }

  lemma {:induction false} SleptMonotone(k: nat, m: nat, gpioDelay: nat, pgoodDelay: nat)
    requires k <= m
    ensures Slept(k, gpioDelay, pgoodDelay) <= Slept(m, gpioDelay, pgoodDelay)
    decreases m
  {
    if k == m {
    } else {
      SleptMonotone(k, m - 1, gpioDelay, pgoodDelay);
    }
  }

  lemma SleptBound(k: nat, gpioDelay: nat, pgoodDelay: nat)
    requires k <= 390
    ensures Slept(k, gpioDelay, pgoodDelay) <= 261 * gpioDelay + pgoodDelay
  {
    SleptMonotone(k, 390, gpioDelay, pgoodDelay);
    SearchCost(Wiring(0, 0, 0, 0, 0, 0, 0), 63, gpioDelay, pgoodDelay);
  }

  /** The sleep after any number of accesses, in closed form: up to and during the railing pulses, round the turn
      of direction, and during the search. */
  lemma SleptBefore(k: nat, gpioDelay: nat, pgoodDelay: nat)
    requires k <= 4
    ensures Slept(k, gpioDelay, pgoodDelay) == k * gpioDelay
  {
    assert Slept(1, gpioDelay, pgoodDelay) == gpioDelay;
    assert Slept(2, gpioDelay, pgoodDelay) == 2 * gpioDelay && Slept(3, gpioDelay, pgoodDelay) == 3 * gpioDelay;
    assert Slept(4, gpioDelay, pgoodDelay) == 4 * gpioDelay;
  }

  lemma SleptInRailing(w: Wiring, i: nat, j: nat, gpioDelay: nat, pgoodDelay: nat)
    requires i < 64 && j < 3
    ensures Slept(4 + 3 * i + j, gpioDelay, pgoodDelay) == (4 + 2 * i + j) * gpioDelay
  {
    hide OpAt, Nap, Writes;
    RailCost(w, i, gpioDelay, pgoodDelay);
    RailPulseOps(w, i, gpioDelay, pgoodDelay);
    TwoNaps(4 + 2 * i, gpioDelay);
    assert (4 + 2 * i + 1) * gpioDelay == (4 + 2 * i) * gpioDelay + gpioDelay;
    assert Slept(5 + 3 * i, gpioDelay, pgoodDelay) == Slept(4 + 3 * i, gpioDelay, pgoodDelay) + gpioDelay;
    assert Slept(6 + 3 * i, gpioDelay, pgoodDelay) == Slept(5 + 3 * i, gpioDelay, pgoodDelay) + gpioDelay;
  }

  lemma SleptAtTurn(w: Wiring, k: nat, gpioDelay: nat, pgoodDelay: nat)
    requires 196 <= k <= 200
    ensures Slept(k, gpioDelay, pgoodDelay) == if k == 196 then 132 * gpioDelay else (k - 65) * gpioDelay + pgoodDelay
  {
    hide Writes;
    RailCost(w, 64, gpioDelay, pgoodDelay);
    assert Slept(197, gpioDelay, pgoodDelay) == 132 * gpioDelay + pgoodDelay;
    assert Slept(198, gpioDelay, pgoodDelay) == 133 * gpioDelay + pgoodDelay;
    assert Slept(199, gpioDelay, pgoodDelay) == 134 * gpioDelay + pgoodDelay;
    assert Slept(200, gpioDelay, pgoodDelay) == 135 * gpioDelay + pgoodDelay;
  }

  lemma SleptInSearch(w: Wiring, i: nat, j: nat, gpioDelay: nat, pgoodDelay: nat)
    requires j < 3
    ensures Slept(201 + 3 * i + j, gpioDelay, pgoodDelay) == (135 + 2 * i + j) * gpioDelay + pgoodDelay
  {
    hide OpAt, Nap, Writes;
    SearchCost(w, i, gpioDelay, pgoodDelay);
    SearchPulseOps(w, i, gpioDelay, pgoodDelay);
    TwoNaps(135 + 2 * i, gpioDelay);
    assert (135 + 2 * i + 1) * gpioDelay == (135 + 2 * i) * gpioDelay + gpioDelay;
    assert Slept(202 + 3 * i, gpioDelay, pgoodDelay) == Slept(201 + 3 * i, gpioDelay, pgoodDelay) + gpioDelay;
    assert Slept(203 + 3 * i, gpioDelay, pgoodDelay) == Slept(202 + 3 * i, gpioDelay, pgoodDelay) + gpioDelay;
  }

  /** The exact cost of a reading that searched for `n` pulses, and its bound. */
  lemma CompleteCost(w: Wiring, n: nat, gpioDelay: nat, pgoodDelay: nat)
    requires n <= 63
    ensures Writes(w, 201 + 3 * n) + 1 == 134 + 2 * n
    ensures Slept(201 + 3 * n, gpioDelay, pgoodDelay) + gpioDelay == (136 + 2 * n) * gpioDelay + pgoodDelay
    ensures Slept(201 + 3 * n, gpioDelay, pgoodDelay) + gpioDelay <= 262 * gpioDelay + pgoodDelay
  {
    hide Slept, Writes;
    SearchCost(w, n, gpioDelay, pgoodDelay);
    SleptBound(201 + 3 * n, gpioDelay, pgoodDelay);
    assert (136 + 2 * n) * gpioDelay == (135 + 2 * n) * gpioDelay + gpioDelay;
  }

  // No reading sleeps longer than a search over all 63 positions.
  lemma ReadingSleepBound(env: Env, w: Wiring, h: Hw, t: nat, gpioDelay: nat, pgoodDelay: nat)
    ensures ReadingSleep(ReadBattery(env, w, h, t), t, gpioDelay, pgoodDelay) <= 262 * gpioDelay + pgoodDelay
  {
    hide After, Slept, Pulses;
    var o := ReadBattery(env, w, h, t);
    if o.value >= 0 {
      CompleteCost(w, 63 - o.value, gpioDelay, pgoodDelay);
    } else if o.value == GPIO_ERROR {
      SleptBound(o.t - t - 1, gpioDelay, pgoodDelay);
    }
  }
}
