/** On which boards and on which wirings the battery reading can be relied on, exactly. */
module WiringCheck {
  import opened Hardware
  import opened Measurement
  import opened Battery
  import opened PowerCut
  import opened PinSetup

  /** The world of a reading begun at access `t` on board `h`, without charger or chance faults: an access
      fails when its pin is not exported, and PGOOD is `good`. */
  function Quiet(w: Wiring, h: Hw, t: nat, good: Position -> bool): Env {
    Env(x => x >= t && OpAt(w, x - t).pin !in h.exported,
        (_: nat, pin: int, p: Position) => if pin == w.pgood then good(p) else true)
  }

  // The pins a reading opens.
  function Opened(w: Wiring): set<int> {
    {w.pgood, w.d2, w.ud, w.cs}
  }

  lemma OpensOnly(w: Wiring, k: nat)
    ensures OpAt(w, k).pin in Opened(w)
  {
  }

  lemma QuietAccesses(w: Wiring, h: Hw, t: nat, good: Position -> bool, n: nat)
    requires n >= 4
    ensures var k := Granted(Quiet(w, h, t, good), t, n);
            k == n || k < 4
    ensures Granted(Quiet(w, h, t, good), t, n) == n <==> Opened(w) <= h.exported
  {
    var env := Quiet(w, h, t, good);
    var k := Granted(env, t, n);
    assert OpAt(w, 0).pin == w.pgood && OpAt(w, 1).pin == w.d2 && OpAt(w, 2).pin == w.ud && OpAt(w, 3).pin == w.cs;
    hide OpAt, Granted;
    assert k < n ==> env.fails(t + k) && OpAt(w, k).pin !in h.exported;
    assert k < n ==> OpAt(w, k).pin in Opened(w) by { OpensOnly(w, k); }
    assert env.fails(t) <==> w.pgood !in h.exported;
    assert env.fails(t + 1) <==> w.d2 !in h.exported;
    assert env.fails(t + 2) <==> w.ud !in h.exported;
    assert env.fails(t + 3) <==> w.cs !in h.exported;
  }

  lemma QuietReading(w: Wiring, h: Hw, t: nat, good: Position -> bool)
    ensures var o := ReadBattery(Quiet(w, h, t, good), w, h, t);
            && (o.value >= 0 <==> && Opened(w) <= h.exported
                                  && if Drives(h, w.d2) then High(h, w.d2) else w.d2 != w.pgood || good(h.wiper))
            && Stable(Quiet(w, h, t, good), w, good, t, o.t)
  {
    hide After, Pulses, Granted, OpAt;
    QuietAccesses(w, h, t, good, 202 + 3 * Pulses(Quiet(w, h, t, good), w, h, t, 0));
  }

  // ---------------------------------------------------------------- the pins a reading touches

  lemma {:induction false} OtherLevelsStay(w: Wiring, h: Hw, k: nat, pin: int)
    requires pin != w.cs && pin != w.ud
    ensures High(After(w, h, k), pin) == High(h, pin)
  {
    hide OpAt;
    if k == 0 {
    } else {
      WritesCsAndUd(w, k - 1);
      OtherLevelsStay(w, h, k - 1, pin);
    }
  }

  // When CS or UD is the pin sampled, it has just been driven low.
  lemma FirstSampleIsLow(w: Wiring, h: Hw)
    requires w.pgood == w.cs || w.pgood == w.ud
    requires Drives(h, w.pgood)
    ensures !High(After(w, h, 200), w.pgood)
  {
    assert After(w, h, 199) == WriteEffect(w, After(w, h, 198), w.ud, false);
    assert After(w, h, 200) == WriteEffect(w, After(w, h, 199), w.cs, false);
  }

  // A PGOOD that the daemon drives says nothing about the battery.
  lemma DrivenPgoodReading(env: Env, w: Wiring, h: Hw, t: nat)
    requires Drives(h, w.pgood) && ReadBattery(env, w, h, t).value >= 0
    ensures var v := ReadBattery(env, w, h, t).value; v == 0 || v == 63
  {
    hide After, ReadBattery;
    var v := ReadBattery(env, w, h, t).value;
    ReadingIsLeadingRun(env, w, h, t);
    if w.pgood == w.cs || w.pgood == w.ud {
      FirstSampleIsLow(w, h);
      assert !Sample(env, w, h, t, 0);
    } else {
      OtherLevelsStay(w, h, 200, w.pgood);
      OtherLevelsStay(w, h, 200 + 3 * (63 - v), w.pgood);
      assert Sample(env, w, h, t, 0) == Sample(env, w, h, t, 63 - v);
    }
  }

  // ---------------------------------------------------------------- power during a reading

  lemma {:induction false} PowerNeverRises(w: Wiring, h: Hw, j: nat, k: nat)
    requires j <= k
    ensures StepsToCut(After(w, h, k).power) <= StepsToCut(After(w, h, j).power)
    decreases k
  {
    hide OpAt;
    if j == k {
    } else {
      WritesCsAndUd(w, k - 1);
      PowerNeverRises(w, h, j, k - 1);
    }
  }

  lemma {:induction false} PowerStays(w: Wiring, h: Hw, k: nat)
    requires (w.off != w.cs && w.off != w.ud) || !Drives(h, w.off)
    ensures After(w, h, k).power == h.power
  {
    hide OpAt;
    if k == 0 {
    } else {
      WritesCsAndUd(w, k - 1);
      PowerStays(w, h, k - 1);
    }
  }

  lemma RailPulseToggles(w: Wiring, h: Hw, i: nat)
    requires w.off == w.ud && Drives(h, w.off) && i < 64
    ensures After(w, h, 7 + 3 * i).power == Toggle(After(w, h, 4 + 3 * i).power)
  {
    hide After, OpAt;
    var k := 4 + 3 * i;
    RailPulseOps(w, i, 0, 0);
    AfterStep(w, h, k);
    AfterStep(w, h, k + 1);
    AfterStep(w, h, k + 2);
  }

  // With OFF on UD the first two railing pulses are enough.
  lemma UdCutsPower(w: Wiring, h: Hw)
    requires w.off == w.ud && Drives(h, w.off)
    ensures After(w, h, 10).power == PowerOff
  {
    hide After;
    RailPulseToggles(w, h, 0);
    RailPulseToggles(w, h, 1);
  }

  lemma UdOnly(w: Wiring, k: nat)
    requires 4 <= k < 196 || k >= 200
    ensures OpAt(w, k).Read? || (OpAt(w, k).Write? && OpAt(w, k).pin == w.ud)
  {
  }

  // CS stays low while UD is pulsed.
  lemma {:induction false} CsStaysLow(w: Wiring, h: Hw, j: nat, k: nat)
    requires w.cs != w.ud && (4 <= j <= k <= 196 || 200 <= j <= k) && !High(After(w, h, j), w.cs)
    ensures !High(After(w, h, k), w.cs)
    decreases k
  {
    hide OpAt;
    if j == k {
    } else {
      assert OpAt(w, k - 1).Read? || (OpAt(w, k - 1).Write? && OpAt(w, k - 1).pin == w.ud) by { UdOnly(w, k - 1); }
      CsStaysLow(w, h, j, k - 1);
    }
  }

  // With OFF on CS the power is cut when CS is released for the second time.
  lemma CsCutsPower(w: Wiring, h: Hw, k: nat)
    requires w.off == w.cs && w.cs != w.ud && Drives(h, w.off) && k >= 200
    ensures WriteEffect(w, After(w, h, k), w.cs, true).power == PowerOff
  {
    assert After(w, h, 4) == WriteEffect(w, After(w, h, 3), w.cs, false);
    CsStaysLow(w, h, 4, 196);
    assert After(w, h, 197) == WriteEffect(w, After(w, h, 196), w.cs, true);
    assert After(w, h, 200) == WriteEffect(w, After(w, h, 199), w.cs, false);
    hide After;
    CsStaysLow(w, h, 200, k);
    PowerNeverRises(w, h, 197, k);
  }

  /** A completed reading leaves the board with power if and only if it had power and OFF is no output that
      shares its pin with CS or UD; the loader accepts such sharing. */
  lemma ReadingKeepsPower(env: Env, w: Wiring, h: Hw, t: nat)
    requires ReadBattery(env, w, h, t).value >= 0
    ensures ReadBattery(env, w, h, t).hw.power != PowerOff
       <==> h.power != PowerOff && !(Drives(h, w.off) && w.off in {w.cs, w.ud})
  {
    hide After, Pulses;
    var last := 201 + 3 * (63 - ReadBattery(env, w, h, t).value);
    PowerNeverRises(w, h, 0, last);
    AfterZero(w, h);
    if !(Drives(h, w.off) && w.off in {w.cs, w.ud}) {
      PowerStays(w, h, last);
    } else if w.off == w.ud {
      UdCutsPower(w, h);
      PowerNeverRises(w, h, 10, last);
    } else {
      CsCutsPower(w, h, last);
    }
  }

  // ---------------------------------------------------------------- the exact conditions

  // From this start the reading is the battery's level, and the board still has power after it.
  ghost predicate Works(w: Wiring, h: Hw, t: nat, good: Position -> bool) {
    var o := ReadBattery(Quiet(w, h, t, good), w, h, t);
    Threshold(good, o.value) && o.hw.power != PowerOff
  }

  predicate GoodStart(w: Wiring, h: Hw) {
    && Opened(w) <= h.exported && Comparator(w, h) && Safe(w, h)
    && h.power != PowerOff && w.off != w.cs && w.off != w.ud
    && !Drives(h, w.pgood) && w.pgood != w.d2
    && (Drives(h, w.d2) ==> High(h, w.d2))
  }

  // A battery whose answer is 1: PGOOD is low at positions 0 and 1 only.
  predicate AboveOne(p: Position) {
    p > 1
  }

  // That battery shows what a bad start gets wrong, unless D2 and PGOOD are one input.
  lemma BadStartFails(w: Wiring, h: Hw, t: nat)
    requires !GoodStart(w, h) && (w.pgood != w.d2 || Drives(h, w.d2))
    ensures !Works(w, h, t, AboveOne)
  {
    hide ReadBattery, Safe;
    QuietReading(w, h, t, AboveOne);
    assert !Threshold(AboveOne, 63) && !Threshold(AboveOne, 0) by {
      assert AboveOne(63) && !AboveOne(1);
    }
    if ReadBattery(Quiet(w, h, t, AboveOne), w, h, t).value >= 0 {
      ReadingKeepsPower(Quiet(w, h, t, AboveOne), w, h, t);
      if Drives(h, w.pgood) {
        DrivenPgoodReading(Quiet(w, h, t, AboveOne), w, h, t);
      } else if !(Comparator(w, h) && Safe(w, h)) {
        StuckReading(Quiet(w, h, t, AboveOne), w, h, t, AboveOne);
      }
    }
  }

  /** A start on any board and any wiring works for every battery if and only if its pins are
      exported, CS and UD are different driven pins without OFF on either, CS is high or the up direction is
      latched, PGOOD is an input other than D2, a driven D2 is high, and the board has power. */
  lemma SafeStartCondition(w: Wiring, h: Hw, t: nat)
    ensures GoodStart(w, h) <==> forall good: Position -> bool :: Works(w, h, t, good)
  {
    hide ReadBattery, Safe;
    if GoodStart(w, h) {
      forall good: Position -> bool ensures Works(w, h, t, good) {
        QuietReading(w, h, t, good);
        SafeReadingIsExact(Quiet(w, h, t, good), w, h, t, good);
        ReadingKeepsPower(Quiet(w, h, t, good), w, h, t);
      }
    } else if w.pgood == w.d2 && !Drives(h, w.d2) {
      QuietReading(w, h, t, p => false);
      assert !Works(w, h, t, p => false);
    } else {
      BadStartFails(w, h, t);
    }
  }

  // The sharing of pins that a reading cannot bear.
  predicate ReadableWiring(w: Wiring) {
    w.cs != w.ud && w.pgood != w.d2 && {w.cs, w.ud} !! {w.off, w.pgood, w.d1, w.d2}
  }

  /** Which wirings can be used: after a complete initialisation of a board with power the reading works for
      every battery if and only if CS and UD share a pin with nothing but REQ_OFF, and PGOOD none with D2. */
  lemma WiringCondition(w: Wiring, h: Hw, t: nat)
    requires h.power != PowerOff
    ensures ReadableWiring(w)
       <==> forall good: Position -> bool :: Works(w, Perform(w, h, InitScript(w)), t, good)
  {
    hide Perform, Works;
    InitDrives(w, h);
    InitSoFar(w, h, 7);
    AllPins(w);
    SafeStartCondition(w, Perform(w, h, InitScript(w)), t);
  }

  /** After the same initialisation a complete power-off call cuts the power if and only if OFF shares no pin
      with PGOOD, D1 or D2, and none with REQ_OFF unless that pin is CS or UD as well. */
  lemma PowerOffCondition(w: Wiring, h: Hw)
    requires Perform(w, h, InitScript(w)).power != PowerOff
    ensures Perform(w, Perform(w, h, InitScript(w)), OffScript(w)).power == PowerOff
       <==> w.off !in {w.pgood, w.d1, w.d2} && (w.off == w.reqOff ==> w.off in {w.cs, w.ud})
  {
    hide Perform;
    InitDrives(w, h);
    PowerAfterWrites(w, Perform(w, h, InitScript(w)), 6);
    assert OffScript(w)[..6] == OffScript(w);
  }
}
