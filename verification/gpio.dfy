/** The GPIO layer of the daemon, access for access, over a board that changes in place. */
module Gpio {
  import opened Hardware
  import opened Measurement

  class Board {
    const wiring: Wiring
    const env: Env
    var level: map<int, bool>
    var exported: set<int>
    var mode: map<int, PinMode>
    var latch: Direction
    var wiper: Position
    var power: Power
    var t: nat        // accesses so far
    var writes: nat   // successful pin writes so far
    var slept: nat    // microseconds slept so far

    function State(): Hw
      reads this
    {
      Hw(level, exported, mode, latch, wiper, power)
    }

    constructor (wiring: Wiring, env: Env, hw: Hw, t: nat)
      ensures this.wiring == wiring && this.env == env && State() == hw && this.t == t
      ensures writes == 0 && slept == 0
    {
      this.wiring, this.env, this.t := wiring, env, t;
      level, exported, mode := hw.level, hw.exported, hw.mode;
      latch, wiper, power := hw.latch, hw.wiper, hw.power;
      writes, slept := 0, 0;
    }

    // The level of an output changes, and the board reacts to the edge.
    method Drive(pin: int, val: bool)
      requires Drives(State(), pin)
      modifies this`level, this`wiper, this`latch, this`power
      ensures State() == Effect(wiring, old(State()), Write(pin, val))
    {
      var was := pin in level && level[pin];
      level := level[pin := val];
      if pin == wiring.ud && !was && val && !(wiring.cs in level && level[wiring.cs]) {
        wiper := StepWiper(wiper, latch);
      }
      if pin == wiring.cs && was && !val {
        latch := if wiring.ud in level && level[wiring.ud] then Up else Down;
      }
      if pin == wiring.off && !was && val {
        power := Toggle(power);
      }
    }

    // Every access draws its fate from the environment; a failed one changes nothing. A write that reaches a
    // pin which is not an output is refused without the code noticing.
    method DigitalWrite(pin: int, val: bool) returns (status: int)
      modifies this
      ensures t == old(t) + 1 && slept == old(slept)
      ensures env.fails(old(t)) ==>
                status == GPIO_ERROR && State() == old(State()) && writes == old(writes)
      ensures !env.fails(old(t)) ==>
                status == GPIO_SUCCESS && State() == Effect(wiring, old(State()), Write(pin, val))
                && writes == old(writes) + 1
    {
      t := t + 1;
      if env.fails(t - 1) {
        return GPIO_ERROR;
      }
      if pin in mode && mode[pin].Output? {
        Drive(pin, val);
      }
      writes := writes + 1;
      return GPIO_SUCCESS;
    }

    method DigitalRead(pin: int) returns (status: int)
      modifies this`t
      ensures t == old(t) + 1
      ensures status == if env.fails(old(t)) then GPIO_ERROR
                        else if Shows(env, State(), old(t), pin) then 1 else 0
    {
      t := t + 1;
      if env.fails(t - 1) {
        return GPIO_ERROR;
      }
      var high := if pin in mode && mode[pin].Output? then pin in level && level[pin] else env.input(t - 1, pin, wiper);
      return if high then 1 else 0;
    }

    method InitPin(pin: int) returns (status: int)
      modifies this`t, this`exported
      ensures t == old(t) + 1
      ensures env.fails(old(t)) ==> status == GPIO_ERROR && State() == old(State())
      ensures !env.fails(old(t)) ==>
                status == GPIO_SUCCESS && State() == Effect(wiring, old(State()), Export(pin))
    {
      t := t + 1;
      if env.fails(t - 1) {
        return GPIO_ERROR;
      }
      exported := exported + {pin};
      return GPIO_SUCCESS;
    }

    method CleanupPin(pin: int) returns (status: int)
      modifies this`t, this`exported
      ensures t == old(t) + 1
      ensures env.fails(old(t)) ==> status == GPIO_ERROR && State() == old(State())
      ensures !env.fails(old(t)) ==>
                status == GPIO_SUCCESS && State() == Effect(wiring, old(State()), Unexport(pin))
    {
      t := t + 1;
      if env.fails(t - 1) {
        return GPIO_ERROR;
      }
      exported := exported - {pin};
      return GPIO_SUCCESS;
    }

    method SetPinDirection(pin: int, dir: PinMode) returns (status: int)
      modifies this`t, this`mode
      ensures t == old(t) + 1
      ensures env.fails(old(t)) ==> status == GPIO_ERROR && State() == old(State())
      ensures !env.fails(old(t)) ==>
                status == GPIO_SUCCESS && State() == Effect(wiring, old(State()), SetMode(pin, dir))
    {
      t := t + 1;
      if env.fails(t - 1) {
        return GPIO_ERROR;
      }
      mode := mode[pin := dir];
      return GPIO_SUCCESS;
    }

    method Delay(us: nat)
      modifies this`slept
      ensures slept == old(slept) + us
    {
      slept := slept + us;
    }
  }

  /** 1 when the user has asked for power off, 0 when not, GPIO_ERROR when the pin cannot be read. */
  method ReadReqOff(b: Board) returns (r: int)
    modifies b`t
    ensures b.t == old(b.t) + 1
    ensures r == if b.env.fails(old(b.t)) then GPIO_ERROR
                 else if Shows(b.env, b.State(), old(b.t), b.wiring.reqOff) then 0 else 1
  {
    var status := b.DigitalRead(b.wiring.reqOff);
    if status == GPIO_ERROR {
      return status;
    }
    r := if status == 0 then 1 else 0;
  }

  /** 1 when external power is connected, 0 when not, GPIO_ERROR when the pin cannot be read. */
  method ReadD2(b: Board) returns (r: int)
    modifies b`t
    ensures b.t == old(b.t) + 1
    ensures r == if b.env.fails(old(b.t)) then GPIO_ERROR
                 else if Shows(b.env, b.State(), old(b.t), b.wiring.d2) then 0 else 1
  {
    var status := b.DigitalRead(b.wiring.d2);
    if status == GPIO_ERROR {
      return status;
    }
    r := if status == 0 then 1 else 0;
  }

  // Where a reading began, and the delays it was configured with.
  datatype Start = Start(hw: Hw, t: nat, writes: nat, slept: nat, gpioDelay: nat, pgoodDelay: nat)

  /** A reading begun at `s` is `k` accesses in: no fault so far, and the board and the costs are where
      the protocol says. */
  ghost predicate InStep(b: Board, s: Start, k: nat)
    reads b
  {
    && b.t == s.t + k
    && b.State() == After(b.wiring, s.hw, k)
    && b.writes == s.writes + Writes(b.wiring, k)
    && b.slept == s.slept + Slept(k, s.gpioDelay, s.pgoodDelay)
    && (forall x: nat | s.t <= x < s.t + k :: !b.env.fails(x))
  }

  // The access just made, number `k`, was the reading's first fault.
  ghost predicate Stopped(b: Board, s: Start, k: nat)
    reads b
  {
    && b.t == s.t + k + 1
    && b.State() == After(b.wiring, s.hw, k)
    && b.slept == s.slept + Slept(k, s.gpioDelay, s.pgoodDelay)
    && b.env.fails(s.t + k)
    && (forall x: nat | s.t <= x < s.t + k :: !b.env.fails(x))
  }

  // One write of the reading followed by its delay.
  method WriteAndWait(b: Board, pin: int, val: bool, delay: nat, ghost s: Start, ghost k: nat)
    returns (status: int)
    requires InStep(b, s, k)
    requires OpAt(b.wiring, k) == Write(pin, val) && delay == Nap(k, s.gpioDelay, s.pgoodDelay)
    modifies b
    ensures if b.env.fails(s.t + k) then status == GPIO_ERROR && Stopped(b, s, k)
            else status == GPIO_SUCCESS && InStep(b, s, k + 1)
  {
    status := b.DigitalWrite(pin, val);
    if status == GPIO_ERROR { return status; }
    b.Delay(delay);
  }

  // One read of PGOOD within the reading, followed by its delay if it has one.
  method ReadPgood(b: Board, delay: nat, ghost s: Start, ghost k: nat) returns (pgood: int)
    requires InStep(b, s, k)
    requires OpAt(b.wiring, k) == Read(b.wiring.pgood) && delay == Nap(k, s.gpioDelay, s.pgoodDelay)
    modifies b
    ensures if b.env.fails(s.t + k) then pgood == GPIO_ERROR && Stopped(b, s, k)
            else pgood == (if Shows(b.env, After(b.wiring, s.hw, k), s.t + k, b.wiring.pgood) then 1 else 0)
                 && InStep(b, s, k + 1)
  {
    pgood := b.DigitalRead(b.wiring.pgood);
    if pgood == GPIO_ERROR { return pgood; }
    b.Delay(delay);
  }

  /** Rails the comparator: UD high, CS asserted, 64 pulses on UD. */
  method ResetComparator(b: Board, gpioDelay: nat, ghost s: Start) returns (status: int)
    requires InStep(b, s, 2) && s.gpioDelay == gpioDelay
    modifies b
    ensures status == GPIO_ERROR ==> exists k: nat :: 2 <= k < 196 && Stopped(b, s, k)
    ensures status != GPIO_ERROR ==> InStep(b, s, 196)
  {
    hide After, InStep, Stopped;
    status := WriteAndWait(b, b.wiring.ud, true, gpioDelay, s, 2);
    if status == GPIO_ERROR { return; }
    status := WriteAndWait(b, b.wiring.cs, false, gpioDelay, s, 3);
    if status == GPIO_ERROR { return; }

    var i := 0;
    while i <= 63
      invariant 0 <= i <= 64
      invariant InStep(b, s, 4 + 3 * i)
    {
      hide OpAt, Nap;
      ghost var k := 4 + 3 * i;
      RailPulseOps(b.wiring, i, gpioDelay, s.pgoodDelay);
      status := WriteAndWait(b, b.wiring.ud, false, gpioDelay, s, k);
      if status == GPIO_ERROR { return; }
      status := WriteAndWait(b, b.wiring.ud, true, gpioDelay, s, k + 1);
      if status == GPIO_ERROR { return; }
      var pgood := ReadPgood(b, 0, s, k + 2);
      if pgood == GPIO_ERROR { return pgood; }
      i := i + 1;
    }
    return GPIO_SUCCESS;
  }

  /** Deselects the comparator, lets PGOOD settle and selects it again for counting down. The result
      is the first sample of the search. */
  method Reselect(b: Board, gpioDelay: nat, pgoodDelay: nat, ghost s: Start) returns (pgood: int)
    requires InStep(b, s, 196) && s.gpioDelay == gpioDelay && s.pgoodDelay == pgoodDelay
    modifies b
    ensures pgood == GPIO_ERROR ==> exists k: nat :: 196 <= k < 201 && Stopped(b, s, k)
    ensures pgood != GPIO_ERROR ==>
              InStep(b, s, 201) && pgood == if Sample(b.env, b.wiring, s.hw, s.t, 0) then 1 else 0
  {
    hide After, Slept, Writes;
    var status := WriteAndWait(b, b.wiring.cs, true, pgoodDelay, s, 196);
    if status == GPIO_ERROR { return status; }
    pgood := ReadPgood(b, gpioDelay, s, 197);
    if pgood == GPIO_ERROR { return pgood; }
    status := WriteAndWait(b, b.wiring.ud, false, gpioDelay, s, 198);
    if status == GPIO_ERROR { return status; }
    status := WriteAndWait(b, b.wiring.cs, false, gpioDelay, s, 199);
    if status == GPIO_ERROR { return status; }
    pgood := ReadPgood(b, 0, s, 200);
  }

  // One pulse of the search and the sample after it.
  method SearchStep(b: Board, gpioDelay: nat, ghost s: Start, ghost i: nat) returns (pgood: int)
    requires InStep(b, s, 201 + 3 * i) && s.gpioDelay == gpioDelay
    modifies b
    ensures pgood == GPIO_ERROR ==> exists k: nat :: 201 + 3 * i <= k < 204 + 3 * i && Stopped(b, s, k)
    ensures pgood != GPIO_ERROR ==>
              && InStep(b, s, 201 + 3 * (i + 1))
              && pgood == if Sample(b.env, b.wiring, s.hw, s.t, i + 1) then 1 else 0
  {
    hide After, InStep, Stopped, Sample, OpAt, Nap;
    ghost var k := 201 + 3 * i;
    SearchPulseOps(b.wiring, i, gpioDelay, s.pgoodDelay);
    var status := WriteAndWait(b, b.wiring.ud, true, gpioDelay, s, k);
    if status == GPIO_ERROR { return status; }
    status := WriteAndWait(b, b.wiring.ud, false, gpioDelay, s, k + 1);
    if status == GPIO_ERROR { return status; }
    SampleIsShown(b.env, b.wiring, s.hw, s.t, i + 1);
    pgood := ReadPgood(b, 0, s, k + 2);
  }

  /** Counts down from 63 while the samples stay high. */
  method Search(b: Board, first: int, gpioDelay: nat, ghost s: Start) returns (r: int)
    requires InStep(b, s, 201) && s.gpioDelay == gpioDelay
    requires first == if Sample(b.env, b.wiring, s.hw, s.t, 0) then 1 else 0
    modifies b
    ensures r == GPIO_ERROR ==>
              exists k: nat :: 201 <= k < 201 + 3 * Pulses(b.env, b.wiring, s.hw, s.t, 0) && Stopped(b, s, k)
    ensures r != GPIO_ERROR ==>
              && 0 <= r <= 63
              && 63 - r == Pulses(b.env, b.wiring, s.hw, s.t, 0)
              && InStep(b, s, 201 + 3 * (63 - r))
  {
    hide InStep, Pulses, Sample;
    ghost var n := Pulses(b.env, b.wiring, s.hw, s.t, 0);
    PulsesAreTheLeadingRun(b.env, b.wiring, s.hw, s.t, 0);
    var pgood := first;
    var battlevel := 63;
    while pgood == 1 && battlevel > 0
      invariant 0 <= battlevel <= 63
      invariant 63 - battlevel <= n
      invariant InStep(b, s, 201 + 3 * (63 - battlevel))
      invariant pgood == if Sample(b.env, b.wiring, s.hw, s.t, 63 - battlevel) then 1 else 0
      decreases battlevel
    {
      pgood := SearchStep(b, gpioDelay, s, 63 - battlevel);
      if pgood == GPIO_ERROR { return pgood; }
      battlevel := battlevel - 1;
    }
    return battlevel;
  }

  // A reading stopped by a fault after the charger check has the outcome that `ReadBattery` gives it.
  lemma StoppedReading(b: Board, s: Start)
    requires Shows(b.env, s.hw, s.t + 1, b.wiring.d2)
    requires exists k: nat :: 2 <= k < 202 + 3 * Pulses(b.env, b.wiring, s.hw, s.t, 0) && Stopped(b, s, k)
    ensures Outcome(b.State(), b.t, GPIO_ERROR) == ReadBattery(b.env, b.wiring, s.hw, s.t)
    ensures b.slept == s.slept + ReadingSleep(Outcome(b.State(), b.t, GPIO_ERROR), s.t, s.gpioDelay, s.pgoodDelay)
  {
    hide After, Slept, Pulses;
    var k: nat :| 2 <= k < 202 + 3 * Pulses(b.env, b.wiring, s.hw, s.t, 0) && Stopped(b, s, k);
  }

  // A reading that got through all its accesses has the outcome that `ReadBattery` gives it.
  lemma FinishedReading(b: Board, s: Start, level: int)
    requires Shows(b.env, s.hw, s.t + 1, b.wiring.d2)
    requires 0 <= level <= 63 && 63 - level == Pulses(b.env, b.wiring, s.hw, s.t, 0)
    requires var last := 201 + 3 * (63 - level);
             && b.t == s.t + last + 1
             && b.State() == Effect(b.wiring, After(b.wiring, s.hw, last), Write(b.wiring.cs, true))
             && forall x: nat | s.t <= x < s.t + last + 1 :: !b.env.fails(x)
    ensures Outcome(b.State(), b.t, level) == ReadBattery(b.env, b.wiring, s.hw, s.t)
  {
    hide After, Pulses, WriteEffect, Shows;
  }

  lemma FinishedSleep(hw: Hw, t': nat, t: nat, level: int, gpioDelay: nat, pgoodDelay: nat)
    requires t' > t && 0 <= level <= 63
    ensures ReadingSleep(Outcome(hw, t', level), t, gpioDelay, pgoodDelay) == (136 + 2 * (63 - level)) * gpioDelay + pgoodDelay
  {
  }

  // Deselects the comparator after a search that returned `level`.
  method Finish(b: Board, level: int, gpioDelay: nat, ghost s: Start) returns (r: int)
    requires 0 <= level <= 63 && 63 - level == Pulses(b.env, b.wiring, s.hw, s.t, 0)
    requires InStep(b, s, 201 + 3 * (63 - level)) && Shows(b.env, s.hw, s.t + 1, b.wiring.d2)
    requires s.gpioDelay == gpioDelay
    modifies b
    ensures Outcome(b.State(), b.t, r) == ReadBattery(b.env, b.wiring, s.hw, s.t)
    ensures r >= 0 ==> b.writes == s.writes + 134 + 2 * (63 - r)
    ensures b.slept == s.slept + ReadingSleep(Outcome(b.State(), b.t, r), s.t, gpioDelay, s.pgoodDelay)
  {
    hide After, Slept, Writes, Pulses, OpAt, ReadBattery, ReadingSleep, WriteEffect, Shows, Drives;
    CompleteCost(b.wiring, 63 - level, gpioDelay, s.pgoodDelay);
    var status := b.DigitalWrite(b.wiring.cs, true);
    if status == GPIO_ERROR {
      assert Stopped(b, s, 201 + 3 * (63 - level));
      StoppedReading(b, s);
      return status;
    }
    b.Delay(gpioDelay);
    FinishedReading(b, s, level);
    FinishedSleep(b.State(), b.t, s.t, level, gpioDelay, s.pgoodDelay);
    return level;
  }

  // The two checks that come before anything is written.
  method CheckPower(b: Board, gpioDelay: nat, ghost s: Start) returns (r: int)
    requires s == Start(b.State(), b.t, b.writes, b.slept, gpioDelay, s.pgoodDelay)
    modifies b
    ensures r < 0 ==> Outcome(b.State(), b.t, r) == ReadBattery(b.env, b.wiring, old(b.State()), old(b.t))
                      && b.slept == s.slept + ReadingSleep(Outcome(b.State(), b.t, r), s.t, gpioDelay, s.pgoodDelay)
    ensures r >= 0 ==> InStep(b, s, 2) && Shows(b.env, s.hw, s.t + 1, b.wiring.d2)
  {
    hide Pulses, WriteEffect;
    var pgood := ReadPgood(b, gpioDelay, s, 0);
    if pgood == GPIO_ERROR { return pgood; }

    var d2 := ReadD2(b);
    if d2 != 0 {
      return CHARGING;
    }
    b.Delay(gpioDelay);
    return 0;
  }

  /** The battery reading. Its value, its effect on the board under every pattern of faults and its
      cost in writes and sleeping time are those of the closed form `ReadBattery`. */
  method ReadBatteryLevelRaw(b: Board, gpioDelay: nat, pgoodDelay: nat) returns (r: int)
    modifies b
    ensures Outcome(b.State(), b.t, r) == ReadBattery(b.env, b.wiring, old(b.State()), old(b.t))
    ensures r >= 0 ==> b.writes == old(b.writes) + 134 + 2 * (63 - r)
    ensures r >= 0 ==> b.slept == old(b.slept) + (136 + 2 * (63 - r)) * gpioDelay + pgoodDelay
    ensures r == CHARGING ==> b.slept == old(b.slept) + gpioDelay
    ensures r == GPIO_ERROR ==> b.slept == old(b.slept) + Slept(b.t - old(b.t) - 1, gpioDelay, pgoodDelay)
    ensures b.slept <= old(b.slept) + 262 * gpioDelay + pgoodDelay
  {
    hide After, Slept, Writes, Pulses, OpAt, ReadBattery;
    ghost var s := Start(b.State(), b.t, b.writes, b.slept, gpioDelay, pgoodDelay);

    ReadingSleepBound(b.env, b.wiring, b.State(), b.t, gpioDelay, pgoodDelay);
    r := CheckPower(b, gpioDelay, s);
    if r < 0 { return; }

    var status := ResetComparator(b, gpioDelay, s);
    if status == GPIO_ERROR { StoppedReading(b, s); return status; }

    var pgood := Reselect(b, gpioDelay, pgoodDelay, s);
    if pgood == GPIO_ERROR { StoppedReading(b, s); return pgood; }

    r := Search(b, pgood, gpioDelay, s);
    if r == GPIO_ERROR { StoppedReading(b, s); return; }
    r := Finish(b, r, gpioDelay, s);
  }
}
