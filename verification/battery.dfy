/** What a battery reading means: the software count against the comparator's hidden position, over
    every start, every pattern of faults and every sequence of readings. */
module Battery {
  import opened Hardware
  import opened Measurement

  // CS and UD are different pins and the daemon drives both.
  predicate Comparator(w: Wiring, h: Hw) {
    w.cs != w.ud && Drives(h, w.cs) && Drives(h, w.ud)
  }

  // UD pulses reach the comparator: CS is low during them, because it is driven or because it is stuck there.
  predicate Pulsed(w: Wiring, h: Hw) {
    w.cs != w.ud && Drives(h, w.ud) && (Drives(h, w.cs) || !High(h, w.cs))
  }

  // The 64 railing pulses drive the wiper to 63 exactly from here: CS released, or the up direction latched.
  predicate Safe(w: Wiring, h: Hw) {
    High(h, w.cs) || h.latch == Up
  }

  // Where the railing pulses leave the wiper.
  function Railed(w: Wiring, h: Hw): Position {
    if Safe(w, h) then 63 else 0
  }

  /** PGOOD shows the same predicate `good` of the position at every access from `t` up to `t'`. */
  ghost predicate Stable(env: Env, w: Wiring, good: Position -> bool, t: nat, t': nat) {
    forall x: nat, p: Position | t <= x < t' :: env.input(x, w.pgood, p) == good(p)
  }

  // The largest position that is 0 or at which PGOOD is low.
  ghost predicate Threshold(good: Position -> bool, v: int) {
    && 0 <= v <= 63
    && (v == 0 || !good(v))
    && forall p: Position | v < p :: good(p)
  }

  lemma ThresholdUnique(good: Position -> bool, v: Position, u: Position)
    requires Threshold(good, v) && Threshold(good, u)
    ensures v == u
  {
    assert v < u ==> good(u);
    assert u < v ==> good(v);
  }

  // ---------------------------------------------------------------- the comparator during a reading

  lemma AfterSetup(w: Wiring, h: Hw)
    requires Pulsed(w, h)
    ensures var a := After(w, h, 4);
            !High(a, w.cs) && High(a, w.ud) && a.latch == (if Safe(w, h) then Up else Down)
  {
    assert After(w, h, 1) == h && After(w, h, 2) == h;
    assert After(w, h, 3) == WriteEffect(w, h, w.ud, true);
    assert After(w, h, 4) == WriteEffect(w, After(w, h, 3), w.cs, false);
  }

  // With CS low a rising UD moves the wiper one step in the latched direction, a falling one moves nothing.
  lemma RaiseUd(w: Wiring, h: Hw)
    requires w.cs != w.ud && Drives(h, w.ud) && !High(h, w.cs) && !High(h, w.ud)
    ensures var h' := WriteEffect(w, h, w.ud, true);
            && !High(h', w.cs) && High(h', w.ud) && h'.latch == h.latch
            && h'.wiper == StepWiper(h.wiper, h.latch)
  {
  }

  lemma LowerUd(w: Wiring, h: Hw)
    requires w.cs != w.ud && Drives(h, w.ud) && !High(h, w.cs)
    ensures var h' := WriteEffect(w, h, w.ud, false);
            && !High(h', w.cs) && !High(h', w.ud) && h'.latch == h.latch && h'.wiper == h.wiper
  {
  }

  lemma RailPulse(w: Wiring, h: Hw, i: nat)
    requires w.cs != w.ud && Drives(h, w.ud) && i < 64
    requires !High(After(w, h, 4 + 3 * i), w.cs) && High(After(w, h, 4 + 3 * i), w.ud)
    ensures var a, a' := After(w, h, 4 + 3 * i), After(w, h, 7 + 3 * i);
            && !High(a', w.cs) && High(a', w.ud) && a'.latch == a.latch
            && a'.wiper == StepWiper(a.wiper, a.latch)
            && (forall m: nat | 4 + 3 * i <= m <= 7 + 3 * i ::
                  !High(After(w, h, m), w.cs) && After(w, h, m).latch == a.latch)
  {
    hide After, OpAt, WriteEffect;
    var k := 4 + 3 * i;
    RailPulseOps(w, i, 0, 0);
    AfterStep(w, h, k);
    AfterStep(w, h, k + 1);
    AfterStep(w, h, k + 2);
    LowerUd(w, After(w, h, k));
    RaiseUd(w, After(w, h, k + 1));
  }

  // Each railing pulse moves the wiper one step in the latched direction until it saturates.
  lemma {:induction false} AfterRailing(w: Wiring, h: Hw, i: nat)
    requires Pulsed(w, h) && i <= 64
    ensures var a := After(w, h, 4 + 3 * i);
            && !High(a, w.cs) && High(a, w.ud)
            && a.latch == (if Safe(w, h) then Up else Down)
            && (Safe(w, h) ==> a.wiper >= if i < 63 then i else 63)
            && (!Safe(w, h) ==> a.wiper <= if i < 63 then 63 - i else 0)
  {
    hide After, WriteEffect;
    if i == 0 {
      AfterSetup(w, h);
    } else {
      AfterRailing(w, h, i - 1);
      RailPulse(w, h, i - 1);
    }
  }

  lemma AfterReselect(w: Wiring, h: Hw)
    requires Comparator(w, h)
    ensures var a := After(w, h, 200);
            !High(a, w.cs) && !High(a, w.ud) && a.latch == Down && a.wiper == Railed(w, h)
    ensures After(w, h, 201) == After(w, h, 200)
    ensures forall k: nat | 197 <= k < 200 :: High(After(w, h, k), w.cs)
  {
    AfterRailing(w, h, 64);
    assert After(w, h, 197) == WriteEffect(w, After(w, h, 196), w.cs, true);
    assert After(w, h, 198) == After(w, h, 197);
    assert After(w, h, 199) == WriteEffect(w, After(w, h, 198), w.ud, false);
    assert After(w, h, 200) == WriteEffect(w, After(w, h, 199), w.cs, false);
  }

  lemma SearchPulse(w: Wiring, h: Hw, i: nat)
    requires w.cs != w.ud && Drives(h, w.ud)
    requires var a := After(w, h, 201 + 3 * i); !High(a, w.cs) && !High(a, w.ud)
    ensures var a, a' := After(w, h, 201 + 3 * i), After(w, h, 204 + 3 * i);
            && !High(a', w.cs) && !High(a', w.ud) && a'.latch == a.latch
            && a'.wiper == StepWiper(a.wiper, a.latch)
            && After(w, h, 203 + 3 * i).wiper == a'.wiper
            && (forall m: nat | 201 + 3 * i <= m <= 204 + 3 * i ::
                  !High(After(w, h, m), w.cs) && After(w, h, m).latch == a.latch)
  {
    hide After, OpAt, WriteEffect;
    var k := 201 + 3 * i;
    SearchPulseOps(w, i, 0, 0);
    AfterStep(w, h, k);
    AfterStep(w, h, k + 1);
    AfterStep(w, h, k + 2);
    RaiseUd(w, After(w, h, k));
    LowerUd(w, After(w, h, k + 1));
  }

  /** The counter mirrors the wiper: after `i` search pulses the hidden wiper is exactly `i` below where
      the railing left it, down to 0, at the sample and after it. */
  lemma {:induction false} AfterSearching(w: Wiring, h: Hw, i: nat)
    requires Comparator(w, h)
    ensures var a := After(w, h, 201 + 3 * i);
            && !High(a, w.cs) && !High(a, w.ud) && a.latch == Down
            && a.wiper == (if i <= Railed(w, h) then Railed(w, h) - i else 0)
    ensures After(w, h, 200 + 3 * i).wiper == After(w, h, 201 + 3 * i).wiper
  {
    hide After;
    if i == 0 {
      AfterReselect(w, h);
    } else {
      AfterSearching(w, h, i - 1);
      SearchPulse(w, h, i - 1);
    }
  }

  // ---------------------------------------------------------------- the value of one reading

  /** Every reading is GPIO_ERROR, CHARGING or 63 minus the length of the leading run of high samples,
      whatever the samples do. */
  lemma ReadingIsLeadingRun(env: Env, w: Wiring, h: Hw, t: nat)
    ensures var v := ReadBattery(env, w, h, t).value;
            || v == GPIO_ERROR
            || v == CHARGING
            || (0 <= v <= 63
                && (forall j: nat | j < 63 - v :: Sample(env, w, h, t, j))
                && (v > 0 ==> !Sample(env, w, h, t, 63 - v)))
  {
    hide After, Sample;
    PulsesAreTheLeadingRun(env, w, h, t, 0);
  }

  // A charging return touches nothing on the board; it needs D2 low or unreadable.
  lemma ChargingLeavesTheBoardAlone(env: Env, w: Wiring, h: Hw, t: nat)
    ensures var o := ReadBattery(env, w, h, t);
            o.value == CHARGING <==>
            !env.fails(t) && (env.fails(t + 1) || !Shows(env, h, t + 1, w.d2))
    ensures var o := ReadBattery(env, w, h, t);
            o.value == CHARGING ==> o.hw == h && o.t == t + 2
  {
    hide After;
  }

  // Releasing CS moves neither UD nor the wiper.
  lemma ReleaseKeepsUdAndWiper(w: Wiring, h: Hw)
    requires Comparator(w, h)
    ensures var h' := WriteEffect(w, h, w.cs, true);
            High(h', w.cs) && High(h', w.ud) == High(h, w.ud) && h'.wiper == h.wiper
  {
  }

  // A completed reading leaves CS released, UD low and the wiper at the returned value (if it was railed to 63).
  lemma CompletedReading(env: Env, w: Wiring, h: Hw, t: nat)
    requires Comparator(w, h)
    requires ReadBattery(env, w, h, t).value >= 0
    ensures var o := ReadBattery(env, w, h, t);
            && High(o.hw, w.cs) && !High(o.hw, w.ud)
            && (Safe(w, h) ==> o.hw.wiper == o.value)
            && (!Safe(w, h) ==> o.hw.wiper == 0)
            && o.t == t + 202 + 3 * (63 - o.value)
  {
    hide After, Pulses, WriteEffect;
    var n := 63 - ReadBattery(env, w, h, t).value;
    AfterSearching(w, h, n);
    ReleaseKeepsUdAndWiper(w, After(w, h, 201 + 3 * n));
  }

  // Sample `i` of a completed reading shows PGOOD at the position the search has reached by then.
  lemma SampleShowsPosition(env: Env, w: Wiring, h: Hw, t: nat, good: Position -> bool, i: nat)
    requires Comparator(w, h) && !Drives(h, w.pgood)
    requires ReadBattery(env, w, h, t).value >= 0 && i <= 63 - ReadBattery(env, w, h, t).value
    requires Stable(env, w, good, t, ReadBattery(env, w, h, t).t)
    ensures Sample(env, w, h, t, i) <==> good(if i <= Railed(w, h) then Railed(w, h) - i else 0)
  {
    hide After, ReadBattery;
    CompletedReading(env, w, h, t);
    AfterSearching(w, h, i);
  }

  /** Exact measurement: from a safe start and while PGOOD is a fixed predicate of the position, a
      completed reading is the largest position that is 0 or shows PGOOD low. */
  lemma SafeReadingIsExact(env: Env, w: Wiring, h: Hw, t: nat, good: Position -> bool)
    requires Comparator(w, h) && Safe(w, h) && !Drives(h, w.pgood)
    requires ReadBattery(env, w, h, t).value >= 0
    requires Stable(env, w, good, t, ReadBattery(env, w, h, t).t)
    ensures Threshold(good, ReadBattery(env, w, h, t).value)
  {
    hide After, ReadBattery, Sample;
    var v := ReadBattery(env, w, h, t).value;
    ReadingIsLeadingRun(env, w, h, t);
    forall p: Position | v < p ensures good(p) {
      SampleShowsPosition(env, w, h, t, good, 63 - p);
    }
    SampleShowsPosition(env, w, h, t, good, 63 - v);
  }

  // UD pulses never reach the comparator: it shares its pin with CS, it is not driven, or CS is stuck high.
  predicate Deaf(w: Wiring, h: Hw) {
    w.cs == w.ud || !Drives(h, w.ud) || (!Drives(h, w.cs) && High(h, w.cs))
  }

  lemma {:induction false} DeafNeverMoves(w: Wiring, h: Hw, k: nat)
    requires Deaf(w, h)
    ensures After(w, h, k).wiper == h.wiper && Deaf(w, After(w, h, k))
  {
    hide OpAt;
    if k == 0 {
    } else {
      WritesCsAndUd(w, k - 1);
      DeafNeverMoves(w, h, k - 1);
    }
  }

  lemma StuckReselect(w: Wiring, h: Hw)
    requires Pulsed(w, h) && !Drives(h, w.cs)
    ensures After(w, h, 200) == After(w, h, 201) == WriteEffect(w, After(w, h, 196), w.ud, false)
  {
    assert After(w, h, 197) == After(w, h, 196);
    assert After(w, h, 198) == After(w, h, 197);
    assert After(w, h, 199) == WriteEffect(w, After(w, h, 198), w.ud, false);
    assert After(w, h, 200) == After(w, h, 199);
    assert After(w, h, 201) == After(w, h, 200);
  }

  // With CS stuck low the direction cannot be turned round: the search pulses push against the end of the rail.
  lemma {:induction false} StuckSearching(w: Wiring, h: Hw, i: nat)
    requires Pulsed(w, h) && !Drives(h, w.cs)
    ensures var a := After(w, h, 201 + 3 * i);
            && !High(a, w.cs) && !High(a, w.ud) && a.latch == (if Safe(w, h) then Up else Down)
            && a.wiper == Railed(w, h)
    ensures After(w, h, 200 + 3 * i).wiper == Railed(w, h)
  {
    hide After, WriteEffect;
    if i == 0 {
      AfterRailing(w, h, 64);
      LowerUd(w, After(w, h, 196));
      StuckReselect(w, h);
    } else {
      StuckSearching(w, h, i - 1);
      SearchPulse(w, h, i - 1);
    }
  }

  // Where the wiper stands during the whole search when the start is no good one.
  function StuckAt(w: Wiring, h: Hw): Position {
    if Deaf(w, h) then h.wiper else Railed(w, h)
  }

  lemma StuckSample(env: Env, w: Wiring, h: Hw, t: nat, good: Position -> bool, i: nat)
    requires !(Comparator(w, h) && Safe(w, h)) && !Drives(h, w.pgood)
    requires ReadBattery(env, w, h, t).value >= 0 && i <= 63 - ReadBattery(env, w, h, t).value
    requires Stable(env, w, good, t, ReadBattery(env, w, h, t).t)
    ensures Sample(env, w, h, t, i) <==> good(StuckAt(w, h))
  {
    hide After, Pulses;
    if Deaf(w, h) {
      DeafNeverMoves(w, h, 200 + 3 * i);
    } else if Drives(h, w.cs) {
      AfterSearching(w, h, i);
    } else {
      StuckSearching(w, h, i);
    }
  }

  /** A completed reading from any other start is 63 or 0 and depends on one position alone: the one the wiper
      stands at when the pulses never reach it, or else the end of the rail it is driven to, which from an
      unsafe start is 0. */
  lemma StuckReading(env: Env, w: Wiring, h: Hw, t: nat, good: Position -> bool)
    requires !(Comparator(w, h) && Safe(w, h)) && !Drives(h, w.pgood)
    requires ReadBattery(env, w, h, t).value >= 0
    requires Stable(env, w, good, t, ReadBattery(env, w, h, t).t)
    ensures ReadBattery(env, w, h, t).value == if good(StuckAt(w, h)) then 0 else 63
  {
    hide After, ReadBattery, Sample;
    ReadingIsLeadingRun(env, w, h, t);
    StuckSample(env, w, h, t, good, 0);
    StuckSample(env, w, h, t, good, 63 - ReadBattery(env, w, h, t).value);
  }

  /** From an unsafe start (CS left low with the down direction latched) the 64 pulses rail the wiper to
      0 instead of 63, so a completed reading is 63 or 0 and depends on position 0 alone. */
  lemma UnsafeReading(env: Env, w: Wiring, h: Hw, t: nat, good: Position -> bool)
    requires Comparator(w, h) && !Safe(w, h) && !Drives(h, w.pgood)
    requires ReadBattery(env, w, h, t).value >= 0
    requires Stable(env, w, good, t, ReadBattery(env, w, h, t).t)
    ensures ReadBattery(env, w, h, t).value == if good(0) then 0 else 63
  {
    hide ReadBattery;
    StuckReading(env, w, h, t, good);
  }

  /** The configuration accepts CS and UD on one pin. Every completed reading is then 0 or 63 according to
      the position the wiper happens to stand at. */
  lemma SharedPinReading(env: Env, w: Wiring, h: Hw, t: nat, good: Position -> bool)
    requires w.cs == w.ud && !Drives(h, w.pgood)
    requires ReadBattery(env, w, h, t).value >= 0
    requires Stable(env, w, good, t, ReadBattery(env, w, h, t).t)
    ensures ReadBattery(env, w, h, t).value == if good(h.wiper) then 0 else 63
  {
    hide ReadBattery;
    StuckReading(env, w, h, t, good);
  }

  /** For one battery behind a PGOOD that is an input, a completed reading is exact if and only if CS and UD
      are different driven pins and the start was safe, or the level at the one position that decides it
      happens to call for the right one of 0 and 63. */
  lemma ExactReadingCondition(env: Env, w: Wiring, h: Hw, t: nat, good: Position -> bool)
    requires !Drives(h, w.pgood)
    requires ReadBattery(env, w, h, t).value >= 0
    requires Stable(env, w, good, t, ReadBattery(env, w, h, t).t)
    ensures Threshold(good, ReadBattery(env, w, h, t).value)
       <==> || (Comparator(w, h) && Safe(w, h))
            || (if good(StuckAt(w, h)) then Threshold(good, 0) else !good(63))
  {
    hide ReadBattery;
    if Comparator(w, h) && Safe(w, h) {
      SafeReadingIsExact(env, w, h, t, good);
    } else {
      StuckReading(env, w, h, t, good);
    }
  }

  // ---------------------------------------------------------------- faults and sequences of readings

  lemma AfterZero(w: Wiring, h: Hw)
    ensures After(w, h, 0) == h
  {
  }

  lemma RailingSafety(w: Wiring, h: Hw, k: nat)
    requires Pulsed(w, h) && 4 <= k < 197
    ensures !High(After(w, h, k), w.cs) && After(w, h, k).latch == (if Safe(w, h) then Up else Down)
  {
    hide After;
    var i := (k - 4) / 3;
    AfterRailing(w, h, i);
    if i < 64 {
      RailPulse(w, h, i);
    }
  }

  lemma SearchSafety(w: Wiring, h: Hw, k: nat)
    requires Comparator(w, h) && k >= 201
    ensures !High(After(w, h, k), w.cs) && After(w, h, k).latch == Down
  {
    hide After;
    var i := (k - 201) / 3;
    AfterSearching(w, h, i);
    SearchPulse(w, h, i);
    assert k == 201 + 3 * i || k == 202 + 3 * i || k == 203 + 3 * i;
  }

  lemma SafetyAt(w: Wiring, h: Hw, k: nat)
    requires Comparator(w, h)
    ensures Safe(w, After(w, h, k)) <==> k < 200 && (Safe(w, h) || k >= 197)
  {
    if k < 4 {
      assert After(w, h, 1) == h;
      assert After(w, h, 2) == h;
      assert After(w, h, 3) == WriteEffect(w, h, w.ud, true);
    } else if k < 197 {
      RailingSafety(w, h, k);
    } else if k <= 200 {
      AfterReselect(w, h);
    } else {
      SearchSafety(w, h, k);
    }
  }

  /** What a reading does to safety, for every pattern of faults: with `k` accesses granted before the
      fault, a reading stopped during its search leaves the board unsafe, one stopped between releasing
      CS and asserting it again leaves it safe, and an earlier fault or a charger changes nothing. */
  lemma SafetyAfterReading(env: Env, w: Wiring, h: Hw, t: nat)
    requires Comparator(w, h)
    ensures var o := ReadBattery(env, w, h, t);
            var k := o.t - t - 1;
            Safe(w, o.hw) <==>
            if o.value >= 0 then true
            else if o.value == CHARGING then Safe(w, h)
            else k < 200 && (Safe(w, h) || k >= 197)
  {
    hide After;
    var o := ReadBattery(env, w, h, t);
    if o.value >= 0 {
      CompletedReading(env, w, h, t);
    } else if o.value == GPIO_ERROR {
      var k := o.t - t - 1;
      assert o.hw == After(w, h, k) by {
        assert After(w, h, 0) == h by { AfterZero(w, h); }
      }
      SafetyAt(w, h, k);
    }
  }

  // The outcome of reading number `n` in an endless sequence of readings that starts on board `h` at access `t`.
  function Nth(env: Env, w: Wiring, h: Hw, t: nat, n: nat): (o: Outcome)
    ensures o.hw.mode == h.mode
  {
    if n == 0 then ReadBattery(env, w, h, t)
    else (var o := Nth(env, w, h, t, n - 1); ReadBattery(env, w, o.hw, o.t))
  }

  // Charging returns keep a safe board safe.
  lemma {:induction false} SafeThroughCharging(env: Env, w: Wiring, h: Hw, t: nat, i: nat, m: nat)
    requires Comparator(w, h) && i <= m
    requires Nth(env, w, h, t, i).value >= 0
    requires forall j: nat | i < j <= m :: Nth(env, w, h, t, j).value == CHARGING
    ensures Safe(w, Nth(env, w, h, t, m).hw)
    decreases m
  {
    hide After, ReadBattery;
    var o := if m == 0 then Outcome(h, t, 0) else Nth(env, w, h, t, m - 1);
    SafetyAfterReading(env, w, o.hw, o.t);
    if i == m {
    } else {
      SafeThroughCharging(env, w, h, t, i, m - 1);
    }
  }

  /** Recovery: over any sequence of readings, from any levels and under any faults, a completed reading
      is exact as soon as an earlier one completed and only charging returns came in between. */
  lemma RecoveredReadingIsExact(env: Env, w: Wiring, h: Hw, t: nat, i: nat, m: nat, good: Position -> bool)
    requires Comparator(w, h) && !Drives(h, w.pgood) && i < m
    requires Nth(env, w, h, t, i).value >= 0 && Nth(env, w, h, t, m).value >= 0
    requires forall j: nat | i < j < m :: Nth(env, w, h, t, j).value == CHARGING
    requires Stable(env, w, good, Nth(env, w, h, t, m - 1).t, Nth(env, w, h, t, m).t)
    ensures Threshold(good, Nth(env, w, h, t, m).value)
    ensures Nth(env, w, h, t, m).hw.wiper == Nth(env, w, h, t, m).value
  {
    hide After, ReadBattery;
    SafeThroughCharging(env, w, h, t, i, m - 1);
    var o := Nth(env, w, h, t, m - 1);
    SafeReadingIsExact(env, w, o.hw, o.t, good);
    CompletedReading(env, w, o.hw, o.t);
  }

  // ---------------------------------------------------------------- two batteries

  /** A battery that shows PGOOD high wherever another does never reads higher. */
  lemma StrongerBatteryReadsLower(good1: Position -> bool, good2: Position -> bool,
                                  v1: Position, v2: Position)
    requires forall p: Position | good1(p) :: good2(p)
    requires Threshold(good1, v1) && Threshold(good2, v2)
    ensures v2 <= v1
  {
    assert v1 < v2 ==> good1(v2) && good2(v2);
  }
}
