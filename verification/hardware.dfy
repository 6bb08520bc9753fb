/** The power board as the GPIO lines see it: pin levels, the battery comparator and the
    power controller, with one pure effect for each thing a line can do. */
module Hardware {
  const GPIO_ERROR := -2
  const CHARGING := -1
  const GPIO_SUCCESS := 7

  // The comparator has 64 discrete positions.
  type Position = p: int | 0 <= p <= 63

  datatype Direction = Up | Down
  datatype PinMode = Input | Output
  datatype Power = PowerOff | PowerOn | ReqOff

  // The pin number behind each role of the configuration file.
  datatype Wiring = Wiring(off: int, reqOff: int, cs: int, ud: int, pgood: int, d1: int, d2: int)
  {
    function Pins(): seq<int> {
      [off, reqOff, cs, ud, pgood, d1, d2]
    }

    ghost predicate Distinct() {
      forall i, j | 0 <= i < j < |Pins()| :: Pins()[i] != Pins()[j]
    }
  }

  // `latch` is the direction taken from UD when CS was last asserted.
  datatype Hw = Hw(level: map<int, bool>, exported: set<int>, mode: map<int, PinMode>,
                   latch: Direction, wiper: Position, power: Power)

  // What a line can do; Press is the user's push button, the rest are accesses of the daemon.
  datatype Op =
    | Export(pin: int)
    | Unexport(pin: int)
    | SetMode(pin: int, mode: PinMode)
    | Write(pin: int, val: bool)
    | Read(pin: int)
    | Press

  /** The world outside the daemon: whether access number `t` fails, and which level a pin that is not
      driven shows at access `t` while the comparator stands at a given position. */
  datatype Env = Env(fails: nat -> bool, input: (nat, int, Position) -> bool)

  predicate High(h: Hw, pin: int) {
    pin in h.level && h.level[pin]
  }

  // The direction set for the pin lets the daemon drive it.
  predicate Drives(h: Hw, pin: int) {
    pin in h.mode && h.mode[pin].Output?
  }

  // What a read of the pin at access `t` finds: its own level when it is driven, the world's otherwise.
  predicate Shows(env: Env, h: Hw, t: nat, pin: int) {
    if Drives(h, pin) then High(h, pin) else env.input(t, pin, h.wiper)
  }

  function StepWiper(p: Position, d: Direction): (r: Position)
    ensures r - p == (if d.Up? then (if p < 63 then 1 else 0) else (if p > 0 then -1 else 0))
  {
    match d
    case Up => if p < 63 then p + 1 else p
    case Down => if p > 0 then p - 1 else p
  }

  // OFF toggled high only matters while the board has power.
  function Toggle(p: Power): Power {
    match p
    case PowerOn => ReqOff
    case ReqOff => PowerOff
    case PowerOff => PowerOff
  }

  function Button(p: Power): Power {
    if p.PowerOff? then PowerOn else Toggle(p)
  }

  // A write to a pin that is not an output changes nothing, and nothing tells the writer.
  function WriteEffect(w: Wiring, h: Hw, pin: int, val: bool): (r: Hw)
    ensures r.mode == h.mode
  {
    if !Drives(h, pin) then h
    else
      var rising := val && !High(h, pin);
      var falling := !val && High(h, pin);
      var h' := h.(level := h.level[pin := val]);
      h'.(latch := if pin == w.cs && falling then (if High(h', w.ud) then Up else Down) else h.latch,
          wiper := if pin == w.ud && rising && !High(h', w.cs) then StepWiper(h.wiper, h.latch) else h.wiper,
          power := if pin == w.off && rising then Toggle(h.power) else h.power)
  }

  function Effect(w: Wiring, h: Hw, op: Op): Hw {
    match op
    case Export(pin) => h.(exported := h.exported + {pin})
    case Unexport(pin) => h.(exported := h.exported - {pin})
    case SetMode(pin, m) => h.(mode := h.mode[pin := m])
    case Write(pin, val) => WriteEffect(w, h, pin, val)
    case Read(_) => h
    case Press => h.(power := Button(h.power))
  }

  // The board after a list of operations.
  function Perform(w: Wiring, h: Hw, ops: seq<Op>): Hw {
    if ops == [] then h else Effect(w, Perform(w, h, ops[..|ops| - 1]), ops[|ops| - 1])
  }

  lemma PerformNothing(w: Wiring, h: Hw)
    ensures Perform(w, h, []) == h
  {
  }

  lemma PerformStep(w: Wiring, h: Hw, ops: seq<Op>, k: nat)
    requires k < |ops|
    ensures Perform(w, h, ops[..k + 1]) == Effect(w, Perform(w, h, ops[..k]), ops[k])
  {
    assert ops[..k + 1][..k] == ops[..k];
  }

  /** How many of the next `n` accesses, counted from access `t`, succeed before the first fault. */
  function Granted(env: Env, t: nat, n: nat): (k: nat)
    ensures k <= n
    ensures forall x: nat | t <= x < t + k :: !env.fails(x)
    ensures k < n ==> env.fails(t + k)
    decreases n
  {
    if n == 0 || env.fails(t) then 0 else 1 + Granted(env, t + 1, n - 1)
  }

  /** The result of a call that works through a fixed list of accesses and gives up at the first
      fault: exactly a prefix of the list has happened. */
  datatype Outcome = Outcome(hw: Hw, t: nat, value: int)

  function RunScript(env: Env, w: Wiring, h: Hw, t: nat, ops: seq<Op>): Outcome {
    var k := Granted(env, t, |ops|);
    if k < |ops| then Outcome(Perform(w, h, ops[..k]), t + k + 1, GPIO_ERROR)
    else Outcome(Perform(w, h, ops), t + k, GPIO_SUCCESS)
  }
}
