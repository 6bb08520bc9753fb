/** The other three multi-step calls of the GPIO layer: set up, release, and power off. Each works
    through a fixed script and gives up at the first fault. */
module GpioControl {
  import opened Hardware
  import opened Gpio
  import opened PowerCut
  import opened PinSetup

  // `k` accesses of a script that was started on board `h0` at access `t0` are done.
  ghost predicate InScript(b: Board, h0: Hw, t0: nat, ops: seq<Op>, k: nat)
    reads b
  {
    && k <= |ops|
    && b.t == t0 + k
    && b.State() == Perform(b.wiring, h0, ops[..k])
    && (forall x: nat | t0 <= x < t0 + k :: !b.env.fails(x))
  }

  // A call's end: complete, or stopped at the first fault.
  ghost predicate Ended(b: Board, h0: Hw, t0: nat, ops: seq<Op>, status: int)
    reads b
  {
    Outcome(b.State(), b.t, status) == RunScript(b.env, b.wiring, h0, t0, ops)
  }

  lemma EndedHere(b: Board, h0: Hw, t0: nat, ops: seq<Op>)
    requires InScript(b, h0, t0, ops, |ops|)
    ensures Ended(b, h0, t0, ops, GPIO_SUCCESS)
  {
    assert ops[..|ops|] == ops;
  }

  method WriteStep(b: Board, pin: int, val: bool, ghost h0: Hw, ghost t0: nat, ghost ops: seq<Op>, ghost k: nat)
    returns (status: int)
    requires InScript(b, h0, t0, ops, k) && k < |ops| && ops[k] == Write(pin, val)
    modifies b
    ensures b.slept == old(b.slept)
    ensures status == GPIO_ERROR ==> Ended(b, h0, t0, ops, status) && Granted(b.env, t0, |ops|) == k
    ensures status != GPIO_ERROR ==> InScript(b, h0, t0, ops, k + 1)
  {
    hide Perform;
    PerformStep(b.wiring, h0, ops, k);
    status := b.DigitalWrite(pin, val);
  }

  lemma BeginsHere(b: Board, ops: seq<Op>)
    ensures InScript(b, b.State(), b.t, ops, 0)
  {
    assert ops[..0] == [];
  }

  /** Three HIGH/LOW cycles on OFF, 200 ms each half. */
  method WriteOff(b: Board) returns (status: int)
    modifies b
    ensures Ended(b, old(b.State()), old(b.t), OffScript(b.wiring), status)
    ensures b.slept == old(b.slept) + 200000 * Granted(b.env, old(b.t), 6)
    ensures status == GPIO_SUCCESS ==> b.slept == old(b.slept) + 1200000
  {
    hide Perform, Cycles;
    ghost var h0, t0, ops := b.State(), b.t, OffScript(b.wiring);
    BeginsHere(b, ops);
    var i := 0;
    while i < 3
      invariant 0 <= i <= 3
      invariant InScript(b, h0, t0, ops, 2 * i)
      invariant b.slept == old(b.slept) + i * 400000
    {
      status := WriteStep(b, b.wiring.off, true, h0, t0, ops, 2 * i);
      if status == GPIO_ERROR { return status; }
      b.Delay(200000);
      status := WriteStep(b, b.wiring.off, false, h0, t0, ops, 2 * i + 1);
      if status == GPIO_ERROR { return status; }
      b.Delay(200000);
      i := i + 1;
    }
    EndedHere(b, h0, t0, ops);
    return GPIO_SUCCESS;
  }

  // Exports one pin and sets its direction.
  method InitRole(b: Board, pin: int, dir: PinMode, ghost i: nat, ghost h0: Hw, ghost t0: nat) returns (status: int)
    requires i < 7 && pin == b.wiring.Pins()[i] && dir == MODES[i]
    requires InScript(b, h0, t0, InitScript(b.wiring), |InitUpTo(b.wiring, i)|)
    modifies b
    ensures b.slept == old(b.slept)
    ensures status == GPIO_ERROR ==> Ended(b, h0, t0, InitScript(b.wiring), status)
    ensures status != GPIO_ERROR ==> InScript(b, h0, t0, InitScript(b.wiring), |InitUpTo(b.wiring, i)| + 2)
  {
    hide Perform, InitUpTo;
    ghost var ops, k := InitScript(b.wiring), |InitUpTo(b.wiring, i)|;
    InitAt(b.wiring, i);
    PerformStep(b.wiring, h0, ops, k);
    PerformStep(b.wiring, h0, ops, k + 1);
    status := b.InitPin(pin);
    if status == GPIO_ERROR { return status; }
    status := b.SetPinDirection(pin, dir);
  }

  method Init(b: Board) returns (status: int)
    modifies b
    ensures b.slept == old(b.slept)
    ensures Ended(b, old(b.State()), old(b.t), InitScript(b.wiring), status)
  {
    hide Perform, InitUpTo, InScript, Ended;
    ghost var h0, t0, ops := b.State(), b.t, InitScript(b.wiring);
    BeginsHere(b, ops);

    status := InitRole(b, b.wiring.off, Output, 0, h0, t0);
    if status == GPIO_ERROR { return status; }

    status := InitRole(b, b.wiring.reqOff, Input, 1, h0, t0);
    if status == GPIO_ERROR { return status; }

    status := InitRole(b, b.wiring.cs, Output, 2, h0, t0);
    if status == GPIO_ERROR { return status; }
    InitAt(b.wiring, 2);
    status := WriteStep(b, b.wiring.cs, true, h0, t0, ops, 6);
    if status == GPIO_ERROR { return status; }

    status := InitRole(b, b.wiring.ud, Output, 3, h0, t0);
    if status == GPIO_ERROR { return status; }

    status := InitRole(b, b.wiring.pgood, Input, 4, h0, t0);
    if status == GPIO_ERROR { return status; }

    status := InitRole(b, b.wiring.d1, Input, 5, h0, t0);
    if status == GPIO_ERROR { return status; }

    status := InitRole(b, b.wiring.d2, Input, 6, h0, t0);
    if status == GPIO_ERROR { return status; }

    EndedHere(b, h0, t0, ops);
    return GPIO_SUCCESS;
  }

  method CleanupRole(b: Board, pin: int, ghost i: nat, ghost h0: Hw, ghost t0: nat) returns (status: int)
    requires i < 7 && pin == b.wiring.Pins()[i]
    requires InScript(b, h0, t0, CleanupScript(b.wiring), i)
    modifies b
    ensures b.slept == old(b.slept)
    ensures status == GPIO_ERROR ==> Ended(b, h0, t0, CleanupScript(b.wiring), status)
    ensures status != GPIO_ERROR ==> InScript(b, h0, t0, CleanupScript(b.wiring), i + 1)
  {
    hide Perform, CleanupUpTo;
    PerformStep(b.wiring, h0, CleanupScript(b.wiring), i);
    status := b.CleanupPin(pin);
  }

  method Cleanup(b: Board) returns (status: int)
    modifies b
    ensures b.slept == old(b.slept)
    ensures Ended(b, old(b.State()), old(b.t), CleanupScript(b.wiring), status)
  {
    hide Perform, CleanupUpTo, Ended;
    ghost var h0, t0, ops := b.State(), b.t, CleanupScript(b.wiring);
    BeginsHere(b, ops);

    status := CleanupRole(b, b.wiring.off, 0, h0, t0);
    if status == GPIO_ERROR { return status; }

    status := CleanupRole(b, b.wiring.reqOff, 1, h0, t0);
    if status == GPIO_ERROR { return status; }

    status := CleanupRole(b, b.wiring.cs, 2, h0, t0);
    if status == GPIO_ERROR { return status; }

    status := CleanupRole(b, b.wiring.ud, 3, h0, t0);
    if status == GPIO_ERROR { return status; }

    status := CleanupRole(b, b.wiring.pgood, 4, h0, t0);
    if status == GPIO_ERROR { return status; }

    status := CleanupRole(b, b.wiring.d1, 5, h0, t0);
    if status == GPIO_ERROR { return status; }

    status := CleanupRole(b, b.wiring.d2, 6, h0, t0);
    if status == GPIO_ERROR { return status; }

    EndedHere(b, h0, t0, ops);
    return GPIO_SUCCESS;
  }
}
