/** Cutting the power: the OFF pulses against the board's three-state power controller. */
module PowerCut {
  import opened Hardware

  // `n` HIGH/LOW cycles on the OFF pin; a power-off request sends three.
  function Cycles(w: Wiring, n: nat): (ops: seq<Op>)
    ensures |ops| == 2 * n
    ensures forall i: nat | i < 2 * n :: ops[i] == Write(w.off, i % 2 == 0)
  {
    if n == 0 then [] else Cycles(w, n - 1) + [Write(w.off, true), Write(w.off, false)]
  }

  function OffScript(w: Wiring): seq<Op> {
    Cycles(w, 3)
  }

  // What the daemon did, with the user's button presses left out.
  function WithoutPresses(ops: seq<Op>): (r: seq<Op>)
    ensures |r| <= |ops|
  {
    if ops == [] then []
    else WithoutPresses(ops[..|ops| - 1]) + if ops[|ops| - 1].Press? then [] else [ops[|ops| - 1]]
  }

  // Rising edges on OFF.
  function Rises(w: Wiring, h: Hw, ops: seq<Op>): nat {
    if ops == [] then 0
    else
      var before := ops[..|ops| - 1];
      var last := ops[|ops| - 1];
      Rises(w, h, before)
      + if last == Write(w.off, true) && !High(Perform(w, h, before), w.off) then 1 else 0
  }

  ghost predicate CutBy(w: Wiring, h: Hw, ops: seq<Op>) {
    exists k: nat :: k <= |ops| && Perform(w, h, ops[..k]).power == PowerOff
  }

  // How many more steps of the controller until the power is cut.
  function StepsToCut(p: Power): nat {
    match p case PowerOn => 2 case ReqOff => 1 case PowerOff => 0
  }

  lemma {:induction false} PulsesKeepModes(w: Wiring, h: Hw, ops: seq<Op>, n: nat)
    requires WithoutPresses(ops) <= Cycles(w, n)
    ensures Perform(w, h, ops).mode == h.mode
  {
    hide Cycles;
    if ops == [] {
    } else {
      var before, last := ops[..|ops| - 1], ops[|ops| - 1];
      assert WithoutPresses(before) <= WithoutPresses(ops);
      PulsesKeepModes(w, h, before, n);
      if !last.Press? {
        var c := |WithoutPresses(before)|;
        assert WithoutPresses(ops)[c] == last;
        assert last == Cycles(w, n)[c];
      }
    }
  }

  /** `n` cycles give exactly `n` rising edges from a low pin and `n - 1` from a high one, however the
      button presses fall between them. */
  lemma {:induction false} CyclesRise(w: Wiring, h: Hw, ops: seq<Op>, n: nat)
    requires Drives(h, w.off)
    requires WithoutPresses(ops) <= Cycles(w, n)
    ensures var c := |WithoutPresses(ops)|;
            && Rises(w, h, ops) == (if High(h, w.off) then (if c == 0 then 0 else (c - 1) / 2) else (c + 1) / 2)
            && High(Perform(w, h, ops), w.off) == if c == 0 then High(h, w.off) else c % 2 == 1
  {
    hide Cycles;
    if ops == [] {
    } else {
      var before, last := ops[..|ops| - 1], ops[|ops| - 1];
      assert WithoutPresses(before) <= WithoutPresses(ops);
      CyclesRise(w, h, before, n);
      PulsesKeepModes(w, h, before, n);
      if !last.Press? {
        var c := |WithoutPresses(before)|;
        assert WithoutPresses(ops)[c] == last;
        assert last == Cycles(w, n)[c];
      }
    }
  }

  // Until the cut, every rising edge brings it at least one step nearer; so does every press.
  lemma {:induction false} EdgesAdvance(w: Wiring, h: Hw, ops: seq<Op>, n: nat)
    requires Drives(h, w.off)
    requires WithoutPresses(ops) <= Cycles(w, n) && !CutBy(w, h, ops)
    ensures StepsToCut(Perform(w, h, ops).power) + Rises(w, h, ops) <= StepsToCut(h.power)
    ensures Perform(w, h, ops).power != PowerOff
  {
    hide Cycles;
    assert ops[..|ops|] == ops;
    if ops == [] {
    } else {
      var before, last := ops[..|ops| - 1], ops[|ops| - 1];
      assert WithoutPresses(before) <= WithoutPresses(ops);
      assert !CutBy(w, h, before) by {
        forall k: nat | k <= |before| ensures Perform(w, h, before[..k]).power != PowerOff {
          assert before[..k] == ops[..k];
        }
      }
      EdgesAdvance(w, h, before, n);
      PulsesKeepModes(w, h, before, n);
      if !last.Press? {
        var c := |WithoutPresses(before)|;
        assert WithoutPresses(ops)[c] == last;
        assert last == Cycles(w, n)[c];
      }
    }
  }

  /** Power cut: when OFF is an output, whatever its level, from POWER_ON or REQ_OFF and with any button presses
      in between, the three pulses drive the board through POWER_OFF. */
  lemma ThreePulsesCutPower(w: Wiring, h: Hw, ops: seq<Op>)
    requires h.power != PowerOff && Drives(h, w.off)
    requires WithoutPresses(ops) == OffScript(w)
    ensures CutBy(w, h, ops)
  {
    if !CutBy(w, h, ops) {
      CyclesRise(w, h, ops, 3);
      EdgesAdvance(w, h, ops, 3);
      assert false;
    }
  }

  // The place of a state in the cycle POWER_OFF, POWER_ON, REQ_OFF.
  function PlaceInCycle(p: Power): nat {
    match p case PowerOff => 0 case PowerOn => 1 case ReqOff => 2
  }

  function Presses(ops: seq<Op>): nat {
    if ops == [] then 0 else Presses(ops[..|ops| - 1]) + if ops[|ops| - 1].Press? then 1 else 0
  }

  /** While nothing writes OFF every press of the button moves the controller one state round its cycle. */
  lemma {:induction false} PressesCycle(w: Wiring, h: Hw, ops: seq<Op>)
    requires forall op | op in ops && op.Write? :: op.pin != w.off
    ensures PlaceInCycle(Perform(w, h, ops).power) == (PlaceInCycle(h.power) + Presses(ops)) % 3
  {
    if ops == [] {
    } else {
      assert ops[|ops| - 1] in ops;
      PressesCycle(w, h, ops[..|ops| - 1]);
    }
  }

  lemma {:induction false} OwnPulsesOnly(w: Wiring, n: nat, k: nat)
    requires k <= 2 * n
    ensures WithoutPresses(Cycles(w, n)[..k]) == Cycles(w, n)[..k]
    decreases k
  {
    hide Cycles;
    if k == 0 {
    } else {
      var ops := Cycles(w, n)[..k];
      assert ops[..k - 1] == Cycles(w, n)[..k - 1];
      assert ops[k - 1] == Write(w.off, (k - 1) % 2 == 0);
      OwnPulsesOnly(w, n, k - 1);
    }
  }

  lemma WriteAdvances(w: Wiring, h: Hw, val: bool)
    requires Drives(h, w.off)
    ensures var left := StepsToCut(h.power);
            StepsToCut(WriteEffect(w, h, w.off, val).power) == if val && !High(h, w.off) && left > 0 then left - 1 else left
  {
  }

  // Without presses the controller moves on exactly the rising edges.
  lemma {:induction false} WritesAdvance(w: Wiring, h: Hw, ops: seq<Op>)
    requires Drives(h, w.off) && forall op | op in ops :: op.Write? && op.pin == w.off
    ensures var left, r := StepsToCut(h.power), Rises(w, h, ops);
            StepsToCut(Perform(w, h, ops).power) == if r <= left then left - r else 0
    ensures Perform(w, h, ops).mode == h.mode
  {
    hide WriteEffect, StepsToCut;
    if ops == [] {
    } else {
      var before, last := ops[..|ops| - 1], ops[|ops| - 1];
      assert last in ops && forall op | op in before :: op in ops;
      WritesAdvance(w, h, before);
      WriteAdvances(w, Perform(w, h, before), last.val);
    }
  }

  lemma PulsesAdvance(w: Wiring, h: Hw, n: nat, k: nat)
    requires k <= 2 * n && Drives(h, w.off)
    ensures var left, r := StepsToCut(h.power), Rises(w, h, Cycles(w, n)[..k]);
            StepsToCut(Perform(w, h, Cycles(w, n)[..k]).power) == if r <= left then left - r else 0
  {
    hide Cycles, Perform, Rises, StepsToCut;
    WritesAdvance(w, h, Cycles(w, n)[..k]);
  }

  // Pulses on a pin that is not an output do nothing.
  lemma {:induction false} UndrivenPulses(w: Wiring, h: Hw, n: nat, k: nat)
    requires k <= 2 * n && !Drives(h, w.off)
    ensures Perform(w, h, Cycles(w, n)[..k]) == h
    decreases k
  {
    hide Cycles;
    if k == 0 {
    } else {
      UndrivenPulses(w, h, n, k - 1);
      PerformStep(w, h, Cycles(w, n), k - 1);
    }
  }

  // The rising edges that `k` writes of a power-off call make on a driven OFF.
  function EdgesIn(h: Hw, off: int, k: nat): nat {
    if High(h, off) then (if k == 0 then 0 else (k - 1) / 2) else (k + 1) / 2
  }

  /** A power-off call that got through `k` of its six writes has cut the power exactly when OFF is an output
      and those writes held enough rising edges, or there was none to cut; a complete call needs no more than
      the output. */
  lemma PowerAfterWrites(w: Wiring, h: Hw, k: nat)
    requires k <= 6
    ensures Perform(w, h, OffScript(w)[..k]).power == PowerOff
       <==> h.power == PowerOff || (Drives(h, w.off) && EdgesIn(h, w.off, k) >= StepsToCut(h.power))
    ensures k == 6 ==> (Perform(w, h, OffScript(w)[..k]).power == PowerOff <==> h.power == PowerOff || Drives(h, w.off))
  {
    hide Perform, Cycles;
    if Drives(h, w.off) {
      OwnPulsesOnly(w, 3, k);
      assert Cycles(w, 3)[..k] <= Cycles(w, 3);
      CyclesRise(w, h, Cycles(w, 3)[..k], 3);
      PulsesAdvance(w, h, 3, k);
    } else {
      UndrivenPulses(w, h, 3, k);
    }
  }

  // Such a call leaves a board that was on asking for a shutdown exactly when they held one rising edge.
  lemma OneEdgeAsksToHalt(w: Wiring, h: Hw, k: nat)
    requires k <= 6 && h.power == PowerOn
    ensures Perform(w, h, OffScript(w)[..k]).power == ReqOff
            <==> Drives(h, w.off) && if High(h, w.off) then 3 <= k <= 4 else 1 <= k <= 2
  {
    hide Perform, Cycles;
    if Drives(h, w.off) {
      OwnPulsesOnly(w, 3, k);
      assert Cycles(w, 3)[..k] <= Cycles(w, 3);
      CyclesRise(w, h, Cycles(w, 3)[..k], 3);
      PulsesAdvance(w, h, 3, k);
    } else {
      UndrivenPulses(w, h, 3, k);
    }
  }

  lemma EnoughCycles(w: Wiring, h: Hw, n: nat)
    requires n >= 3 && Drives(h, w.off)
    ensures CutBy(w, h, Cycles(w, n))
  {
    hide Perform, Cycles;
    assert Cycles(w, n)[..2 * n] == Cycles(w, n);
    OwnPulsesOnly(w, n, 2 * n);
    CyclesRise(w, h, Cycles(w, n), n);
    PulsesAdvance(w, h, n, 2 * n);
  }

  // Two cycles give one rising edge when the pin starts high, and POWER_ON needs two.
  lemma TooFewCycles(w: Wiring, n: nat, h: Hw)
    requires n < 3 && Drives(h, w.off) && High(h, w.off) && h.power == PowerOn
    ensures !CutBy(w, h, Cycles(w, n))
  {
    hide Perform, Cycles;
    forall k: nat | k <= 2 * n ensures Perform(w, h, Cycles(w, n)[..k]).power != PowerOff {
      OwnPulsesOnly(w, n, k);
      assert Cycles(w, n)[..k] <= Cycles(w, n);
      CyclesRise(w, h, Cycles(w, n)[..k], n);
      PulsesAdvance(w, h, n, k);
    }
  }

  /** Three is the least number of cycles that cuts the power from every powered state in which OFF is an output. */
  lemma ThreeIsTheLeast(w: Wiring, n: nat)
    ensures (forall h: Hw | h.power != PowerOff && Drives(h, w.off) :: CutBy(w, h, Cycles(w, n))) <==> n >= 3
  {
    hide CutBy, Cycles;
    if n >= 3 {
      forall h: Hw | h.power != PowerOff && Drives(h, w.off) ensures CutBy(w, h, Cycles(w, n)) {
        EnoughCycles(w, h, n);
      }
    } else {
      TooFewCycles(w, n, Hw(map[w.off := true], {}, map[w.off := Output], Up, 0, PowerOn));
    }
  }

  /** The pulses leave the comparator alone when OFF is not one of its pins. */
  lemma {:induction false} PulsesKeepComparator(w: Wiring, h: Hw, n: nat, k: nat)
    requires w.off != w.cs && w.off != w.ud && k <= 2 * n
    ensures var h' := Perform(w, h, Cycles(w, n)[..k]);
            && High(h', w.cs) == High(h, w.cs) && High(h', w.ud) == High(h, w.ud)
            && h'.latch == h.latch && h'.wiper == h.wiper && h'.mode == h.mode
    decreases k
  {
    if k == 0 {
    } else {
      assert Cycles(w, n)[..k][..k - 1] == Cycles(w, n)[..k - 1];
      PulsesKeepComparator(w, h, n, k - 1);
    }
  }
}
