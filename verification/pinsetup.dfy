/** Exporting the seven pins at start-up and releasing them at the end. */
module PinSetup {
  import opened Hardware

  // The directions the daemon gives the pins, in the order of `Wiring.Pins`.
  const MODES: seq<PinMode> := [Output, Input, Output, Output, Input, Input, Input]

  // The accesses for the first `i` pins: export, set the direction, and release CS as soon as it is an output.
  function InitUpTo(w: Wiring, i: nat): (ops: seq<Op>)
    requires i <= 7
    ensures |ops| == 2 * i + if i > 2 then 1 else 0
  {
    if i == 0 then []
    else InitUpTo(w, i - 1) + [Export(w.Pins()[i - 1]), SetMode(w.Pins()[i - 1], MODES[i - 1])]
         + if i == 3 then [Write(w.cs, true)] else []
  }

  function InitScript(w: Wiring): seq<Op> {
    InitUpTo(w, 7)
  }

  function CleanupUpTo(w: Wiring, i: nat): (ops: seq<Op>)
    requires i <= 7
    ensures |ops| == i
    ensures forall j | 0 <= j < i :: ops[j] == Unexport(w.Pins()[j])
  {
    if i == 0 then [] else CleanupUpTo(w, i - 1) + [Unexport(w.Pins()[i - 1])]
  }

  function CleanupScript(w: Wiring): seq<Op> {
    CleanupUpTo(w, 7)
  }

  function PinsUpTo(w: Wiring, i: nat): (pins: set<int>)
    requires i <= 7
    ensures forall j | 0 <= j < i :: w.Pins()[j] in pins
  {
    if i == 0 then {} else PinsUpTo(w, i - 1) + {w.Pins()[i - 1]}
  }

  function PinSet(w: Wiring): set<int> {
    {w.off, w.reqOff, w.cs, w.ud, w.pgood, w.d1, w.d2}
  }

  lemma AllPins(w: Wiring)
    ensures PinsUpTo(w, 7) == PinSet(w)
  {
    assert PinsUpTo(w, 1) == {w.off};
    assert PinsUpTo(w, 2) == {w.off, w.reqOff};
    assert PinsUpTo(w, 3) == {w.off, w.reqOff, w.cs};
    assert PinsUpTo(w, 4) == {w.off, w.reqOff, w.cs, w.ud};
    assert PinsUpTo(w, 5) == {w.off, w.reqOff, w.cs, w.ud, w.pgood};
    assert PinsUpTo(w, 6) == {w.off, w.reqOff, w.cs, w.ud, w.pgood, w.d1};
  }

  lemma {:induction false} InitPrefix(w: Wiring, i: nat, n: nat)
    requires i <= n <= 7
    ensures InitUpTo(w, i) <= InitUpTo(w, n)
    decreases n
  {
    if i == n {
    } else {
      InitPrefix(w, i, n - 1);
    }
  }

  // The accesses made for pin number `i`, by their place in the whole script.
  lemma InitAt(w: Wiring, i: nat)
    requires i < 7
    ensures var ops, k := InitScript(w), |InitUpTo(w, i)|;
            && ops[k] == Export(w.Pins()[i]) && ops[k + 1] == SetMode(w.Pins()[i], MODES[i])
            && (i == 2 ==> ops[k + 2] == Write(w.cs, true))
  {
    InitPrefix(w, i + 1, 7);
    var k := |InitUpTo(w, i)|;
    assert InitUpTo(w, i + 1)[k] == Export(w.Pins()[i]) && InitUpTo(w, i + 1)[k + 1] == SetMode(w.Pins()[i], MODES[i]);
    assert i == 2 ==> InitUpTo(w, i + 1)[k + 2] == Write(w.cs, true);
  }

  // One pin's share of the script.
  lemma InitShare(w: Wiring, i: nat)
    requires 0 < i <= 7
    ensures var ops, k, pin := InitUpTo(w, i), |InitUpTo(w, i - 1)|, w.Pins()[i - 1];
            && ops[..k] == InitUpTo(w, i - 1)
            && ops[k] == Export(pin) && ops[k + 1] == SetMode(pin, MODES[i - 1])
            && (i == 3 ==> ops[k + 2] == Write(w.cs, true))
  {
  }

  // What it does.
  lemma PerformPin(w: Wiring, h: Hw, i: nat)
    requires 0 < i <= 7
    ensures var before, pin := Perform(w, h, InitUpTo(w, i - 1)), w.Pins()[i - 1];
            var both := before.(exported := before.exported + {pin}, mode := before.mode[pin := MODES[i - 1]]);
            Perform(w, h, InitUpTo(w, i)) == if i == 3 then WriteEffect(w, both, w.cs, true) else both
  {
    hide Perform, WriteEffect, InitUpTo;
    var ops, k := InitUpTo(w, i), |InitUpTo(w, i - 1)|;
    InitShare(w, i);
    PerformStep(w, h, ops, k);
    PerformStep(w, h, ops, k + 1);
    if i == 3 {
      PerformStep(w, h, ops, k + 2);
      assert ops[..k + 3] == ops;
    } else {
      assert ops[..k + 2] == ops;
    }
  }

  // The directions after the first `i` pins: of roles that share a pin the last one decides.
  function ModesUpTo(w: Wiring, mode: map<int, PinMode>, i: nat): map<int, PinMode>
    requires i <= 7
  {
    if i == 0 then mode else ModesUpTo(w, mode, i - 1)[w.Pins()[i - 1] := MODES[i - 1]]
  }

  // The seven pins set up one by one; distinct pins keep the direction they were given.
  lemma {:induction false} InitSoFar(w: Wiring, h: Hw, i: nat)
    requires i <= 7
    ensures var h' := Perform(w, h, InitUpTo(w, i));
            && h'.exported == h.exported + PinsUpTo(w, i)
            && h'.mode == ModesUpTo(w, h.mode, i)
            && (i > 2 ==> High(h', w.cs))
            && (w.off != w.cs ==> h'.power == h.power) && (h.power == PowerOff ==> h'.power == PowerOff)
            && (w.Distinct() ==> forall j | 0 <= j < i ::
                  w.Pins()[j] in h'.mode && h'.mode[w.Pins()[j]] == MODES[j])
  {
    hide Perform;
    if i == 0 {
      PerformNothing(w, h);
    } else {
      InitSoFar(w, h, i - 1);
      PerformPin(w, h, i);
    }
  }

  /** A complete initialisation exports exactly the seven pins, makes OFF, CS and UD outputs and the
      others inputs, and leaves CS high. */
  lemma InitSetsUpThePins(w: Wiring, h: Hw)
    requires w.Distinct()
    ensures var h' := Perform(w, h, InitScript(w));
            && h'.exported == h.exported + PinSet(w)
            && (forall p | p in {w.off, w.cs, w.ud} :: p in h'.mode && h'.mode[p] == Output)
            && (forall p | p in {w.reqOff, w.pgood, w.d1, w.d2} :: p in h'.mode && h'.mode[p] == Input)
            && High(h', w.cs)
  {
    hide Perform;
    InitSoFar(w, h, 7);
    AllPins(w);
    var p := w.Pins();
    assert p[0] == w.off && p[1] == w.reqOff && p[2] == w.cs && p[3] == w.ud
           && p[4] == w.pgood && p[5] == w.d1 && p[6] == w.d2;
  }

  /** The initialisation in full: no pin is set up before the one above it, and CS is released as soon as it is
      an output. */
  lemma InitInFull(w: Wiring)
    ensures InitScript(w)
         == [Export(w.off), SetMode(w.off, Output), Export(w.reqOff), SetMode(w.reqOff, Input),
             Export(w.cs), SetMode(w.cs, Output), Write(w.cs, true), Export(w.ud), SetMode(w.ud, Output),
             Export(w.pgood), SetMode(w.pgood, Input), Export(w.d1), SetMode(w.d1, Input),
             Export(w.d2), SetMode(w.d2, Input)]
  {
    var p := w.Pins();
    assert p[0] == w.off && p[1] == w.reqOff && p[2] == w.cs && p[3] == w.ud
           && p[4] == w.pgood && p[5] == w.d1 && p[6] == w.d2;
    assert InitUpTo(w, 1) == [Export(w.off), SetMode(w.off, Output)];
    assert InitUpTo(w, 2) == InitUpTo(w, 1) + [Export(w.reqOff), SetMode(w.reqOff, Input)];
    assert InitUpTo(w, 3) == InitUpTo(w, 2) + [Export(w.cs), SetMode(w.cs, Output), Write(w.cs, true)];
    assert InitUpTo(w, 4) == InitUpTo(w, 3) + [Export(w.ud), SetMode(w.ud, Output)];
    assert InitUpTo(w, 5) == InitUpTo(w, 4) + [Export(w.pgood), SetMode(w.pgood, Input)];
    assert InitUpTo(w, 6) == InitUpTo(w, 5) + [Export(w.d1), SetMode(w.d1, Input)];
    assert InitUpTo(w, 7) == InitUpTo(w, 6) + [Export(w.d2), SetMode(w.d2, Input)];
  }

  lemma CleanupInFull(w: Wiring)
    ensures CleanupScript(w)
         == [Unexport(w.off), Unexport(w.reqOff), Unexport(w.cs), Unexport(w.ud),
             Unexport(w.pgood), Unexport(w.d1), Unexport(w.d2)]
  {
    var p := w.Pins();
    assert p[0] == w.off && p[1] == w.reqOff && p[2] == w.cs && p[3] == w.ud
           && p[4] == w.pgood && p[5] == w.d1 && p[6] == w.d2;
  }

  lemma AllModes(w: Wiring, mode: map<int, PinMode>)
    ensures ModesUpTo(w, mode, 7)
         == mode[w.off := Output][w.reqOff := Input][w.cs := Output][w.ud := Output]
            [w.pgood := Input][w.d1 := Input][w.d2 := Input]
  {
    var p := w.Pins();
    assert p[0] == w.off && p[1] == w.reqOff && p[2] == w.cs && p[3] == w.ud
           && p[4] == w.pgood && p[5] == w.d1 && p[6] == w.d2;
    assert ModesUpTo(w, mode, 1) == mode[w.off := Output];
    assert ModesUpTo(w, mode, 2) == ModesUpTo(w, mode, 1)[w.reqOff := Input];
    assert ModesUpTo(w, mode, 3) == ModesUpTo(w, mode, 2)[w.cs := Output];
    assert ModesUpTo(w, mode, 4) == ModesUpTo(w, mode, 3)[w.ud := Output];
    assert ModesUpTo(w, mode, 5) == ModesUpTo(w, mode, 4)[w.pgood := Input];
    assert ModesUpTo(w, mode, 6) == ModesUpTo(w, mode, 5)[w.d1 := Input];
  }

  /** Which pins a complete initialisation leaves as outputs, on any wiring: the directions of PGOOD, D1 and D2
      are written last and make inputs of the pins they share. */
  lemma InitDrives(w: Wiring, h: Hw)
    ensures var h' := Perform(w, h, InitScript(w));
            && !Drives(h', w.pgood) && !Drives(h', w.d1) && !Drives(h', w.d2)
            && (Drives(h', w.cs) <==> w.cs !in {w.pgood, w.d1, w.d2})
            && (Drives(h', w.ud) <==> w.ud !in {w.pgood, w.d1, w.d2})
            && (Drives(h', w.reqOff) <==> w.reqOff in {w.cs, w.ud} && w.reqOff !in {w.pgood, w.d1, w.d2})
            && (Drives(h', w.off) <==> w.off !in {w.pgood, w.d1, w.d2} && (w.off == w.reqOff ==> w.off in {w.cs, w.ud}))
  {
    hide Perform, ModesUpTo;
    InitSoFar(w, h, 7);
    AllModes(w, h.mode);
  }

  // Any prefix of the initialisation exports some of the seven pins and takes none away.
  lemma {:induction false} ExportsGrow(w: Wiring, h: Hw, ops: seq<Op>, pins: set<int>)
    requires forall op | op in ops :: !op.Unexport? && (op.Export? ==> op.pin in pins)
    ensures h.exported <= Perform(w, h, ops).exported <= h.exported + pins
  {
    if ops == [] {
    } else {
      ExportsGrow(w, h, ops[..|ops| - 1], pins);
    }
  }

  lemma {:induction false} InitOps(w: Wiring, i: nat)
    requires i <= 7
    ensures forall op | op in InitUpTo(w, i) :: !op.Unexport? && (op.Export? ==> op.pin in PinsUpTo(w, i))
  {
    if i == 0 {
    } else {
      InitOps(w, i - 1);
    }
  }

  lemma {:induction false} CleanupSoFar(w: Wiring, h: Hw, i: nat)
    requires i <= 7
    ensures Perform(w, h, CleanupUpTo(w, i)).exported == h.exported - PinsUpTo(w, i)
  {
    hide Perform;
    if i == 0 {
      PerformNothing(w, h);
    } else {
      var ops := CleanupUpTo(w, i);
      assert ops[..i - 1] == CleanupUpTo(w, i - 1) && ops[..i] == ops;
      CleanupSoFar(w, h, i - 1);
      PerformStep(w, h, ops, i - 1);
    }
  }

  /** However far the initialisation got, a complete clean-up afterwards leaves the pins that were exported
      before minus the seven: exactly the old set if and only if none of the seven was in it. */
  lemma CleanupUndoesInit(env: Env, w: Wiring, h: Hw, t: nat)
    ensures var h1 := RunScript(env, w, h, t, InitScript(w)).hw;
            var h2 := Perform(w, h1, CleanupScript(w));
            && h2.exported == h.exported - PinSet(w)
            && (h2.exported == h.exported <==> PinSet(w) !! h.exported)
  {
    hide Perform;
    var ops, pins := InitScript(w), PinsUpTo(w, 7);
    AllPins(w);
    InitOps(w, 7);
    ExportsGrow(w, h, ops[..Granted(env, t, |ops|)], pins);
    ExportsGrow(w, h, ops, pins);
    CleanupSoFar(w, RunScript(env, w, h, t, ops).hw, 7);
    forall p | p in pins && p in h.exported ensures h.exported != h.exported - pins {
      assert p !in h.exported - pins;
    }
  }
}
