/** The daemon's main loop as a transition system over the board, the clock and the clients. */
module DaemonSpec {
  import opened Hardware
  import opened Measurement
  import opened PowerCut
  import opened Timer
  import opened Server
  import opened Logger

  type RawLevel = r: int | -2 <= r <= 63
  type PowerMap = pm: seq<int> | |pm| >= 64 witness seq(64, _ => 0)

  /** Percentage of a raw reading: the powermap entry, or -1 for charging and errors alike. */
  function MapBatteryLevel(pm: PowerMap, raw: RawLevel): int {
    if raw >= 0 then pm[raw] else -1
  }

  datatype Settings = Settings(w: Wiring, env: Env, interval: int, gpioDelay: nat, pgoodDelay: nat,
                               powermap: PowerMap, logging: bool)

  // One turn of the loop: the clock at its timer check, whether a log write would succeed, the clients.
  datatype Tick = Tick(now: Time, logOk: bool, poll: Poll)

  // A reading, the board it started on, the accesses it spans and the time it left in the timer.
  datatype Taken = Taken(raw: RawLevel, hw: Hw, from: nat, upto: nat, at: Time)

  datatype Cache = Cache(percent: int, raw: int, powerOff: bool)

  datatype LogState = LogState(lines: seq<Line>, failed: bool)

  // A reply, and how many in-loop readings had been taken when it was sent.
  datatype Served = Served(reply: Reply, asOf: nat)

  // `slept` counts the microseconds since the first reading began.
  datatype State = State(hw: Hw, t: nat, slept: int, lastRead: Time, first: Taken, readings: seq<Taken>,
                         cache: Cache, log: LogState, served: seq<Served>, halted: bool)

  function Take(c: Settings, hw: Hw, t: nat, at: Time): Taken {
    var o := ReadBattery(c.env, c.w, hw, t);
    Taken(o.value, hw, t, o.t, at)
  }

  // The daemon after its first reading, before the loop.
  function Started(c: Settings, hw: Hw, t: nat, lastRead: Time): State {
    var first := Take(c, hw, t, lastRead);
    var o := ReadBattery(c.env, c.w, hw, t);
    State(o.hw, o.t, ReadingSleep(o, t, c.gpioDelay, c.pgoodDelay), lastRead, first, [], Cache(MapBatteryLevel(c.powermap, first.raw), first.raw, false),
          LogState([], false), [], false)
  }

  // REQ_OFF is asserted or cannot be read.
  predicate AskedToHalt(c: Settings, s: State) {
    c.env.fails(s.t) || !Shows(c.env, s.hw, s.t, c.w.reqOff)
  }

  function Logged(c: Settings, log: LogState, line: Line, ok: bool): LogState {
    if !c.logging then log
    else if !log.failed && ok then log.(lines := log.lines + [line])
    else log.(failed := true)
  }

  // The timed part of the loop body.
  function TakeReading(c: Settings, s: State, tick: Tick): State {
    var o := ReadBattery(c.env, c.w, s.hw, s.t);
    var percent := MapBatteryLevel(c.powermap, o.value);
    s.(hw := o.hw, t := o.t, slept := s.slept + ReadingSleep(o, s.t, c.gpioDelay, c.pgoodDelay), lastRead := tick.now,
       readings := s.readings + [Take(c, s.hw, s.t, tick.now)],
       cache := s.cache.(percent := percent, raw := o.value),
       log := Logged(c, s.log, Line(o.value, percent), tick.logOk),
       halted := percent == 0)
  }

  function Stamped(replies: seq<Reply>, asOf: nat): (r: seq<Served>)
    ensures |r| == |replies|
    ensures forall i | 0 <= i < |r| :: r[i] == Served(replies[i], asOf)
  {
    if replies == [] then [] else Stamped(replies[..|replies| - 1], asOf) + [Served(replies[|replies| - 1], asOf)]
  }

  // The last part of the loop body: serve the clients, then cut the power if one has asked for it.
  function Serve(c: Settings, s: State, poll: Poll): State {
    var percent, raw := s.cache.percent, s.cache.raw;
    var off := s.cache.powerOff || PollAsksOff(poll, percent, raw);
    var s' := s.(cache := s.cache.(powerOff := off),
                 served := s.served + Stamped(PollReplies(poll, percent, raw), |s.readings|));
    if PollOk(poll, percent, raw) && off then
      var o := RunScript(c.env, c.w, s.hw, s.t, OffScript(c.w));
      s'.(hw := o.hw, t := o.t, slept := s.slept + 200000 * Granted(c.env, s.t, 6))
    else s'
  }

  function Timed(c: Settings, s: State, tick: Tick): State {
    if Expired(tick.now, s.lastRead, c.interval) then TakeReading(c, s, tick) else s
  }

  // One whole turn; a halted daemon has exited.
  function Step(c: Settings, s: State, tick: Tick): State {
    if s.halted then s
    else if AskedToHalt(c, s) then s.(t := s.t + 1, halted := true)
    else
      var s' := Timed(c, s.(t := s.t + 1), tick);
      if s'.halted then s' else Serve(c, s', tick.poll)
  }

  function Run(c: Settings, s: State, ticks: seq<Tick>): State {
    if ticks == [] then s else Step(c, Run(c, s, ticks[..|ticks| - 1]), ticks[|ticks| - 1])
  }

  // Reading number `n`: 0 is the one before the loop.
  function ReadingAt(s: State, n: nat): Taken
    requires n <= |s.readings|
  {
    if n == 0 then s.first else s.readings[n - 1]
  }

  function PercentAt(c: Settings, s: State, n: nat): int
    requires n <= |s.readings|
  {
    MapBatteryLevel(c.powermap, ReadingAt(s, n).raw)
  }

  // ---------------------------------------------------------------- cache coherence and low battery

  ghost predicate Truthful(c: Settings, s: State, x: Served) {
    && x.asOf <= |s.readings|
    && (x.reply == Percent(PercentAt(c, s, x.asOf)) || x.reply == Raw(ReadingAt(s, x.asOf).raw))
  }

  /** The cached pair is the latest reading with its percentage, and every reply ever sent was the one or
      the other of the reading that was the latest when it was sent. */
  ghost predicate Coherent(c: Settings, s: State) {
    && s.cache.raw == ReadingAt(s, |s.readings|).raw
    && s.cache.percent == PercentAt(c, s, |s.readings|)
    && (forall i | 0 <= i < |s.served| :: Truthful(c, s, s.served[i]))
  }

  lemma TimedKeepsCoherent(c: Settings, s: State, tick: Tick)
    requires Coherent(c, s)
    ensures Coherent(c, Timed(c, s, tick))
  {
    hide ReadBattery, Expired;
    var s' := Timed(c, s, tick);
    forall i | 0 <= i < |s'.served| ensures Truthful(c, s', s'.served[i]) {
      assert Truthful(c, s, s.served[i]);
    }
  }

  lemma ServeKeepsCoherent(c: Settings, s: State, poll: Poll)
    requires Coherent(c, s)
    ensures Coherent(c, Serve(c, s, poll))
  {
    hide RunScript, PollReplies, PollOk;
    var s' := Serve(c, s, poll);
    var replies := PollReplies(poll, s.cache.percent, s.cache.raw);
    RepliesFromCache(poll, s.cache.percent, s.cache.raw);
    forall i | 0 <= i < |s'.served| ensures Truthful(c, s', s'.served[i]) {
      if i < |s.served| {
        assert Truthful(c, s, s.served[i]);
      } else {
        assert replies[i - |s.served|] in replies;
      }
    }
  }

  lemma RunStep(c: Settings, s: State, ticks: seq<Tick>)
    requires ticks != []
    ensures Run(c, s, ticks) == Step(c, Run(c, s, ticks[..|ticks| - 1]), ticks[|ticks| - 1])
  {
  }

  lemma StepKeepsCoherent(c: Settings, s: State, tick: Tick)
    requires Coherent(c, s)
    ensures Coherent(c, Step(c, s, tick))
  {
    hide Timed, Serve, AskedToHalt;
    var s1 := s.(t := s.t + 1);
    var s2 := s.(t := s.t + 1, halted := true);
    assert Coherent(c, s1) && Coherent(c, s2) by {
      forall i | 0 <= i < |s.served| ensures Truthful(c, s1, s.served[i]) && Truthful(c, s2, s.served[i]) {
        assert Truthful(c, s, s.served[i]);
      }
    }
    TimedKeepsCoherent(c, s1, tick);
    ServeKeepsCoherent(c, Timed(c, s1, tick), tick.poll);
  }

  lemma {:induction false} CacheCoherence(c: Settings, hw: Hw, t: nat, lastRead: Time, ticks: seq<Tick>)
    ensures Coherent(c, Run(c, Started(c, hw, t, lastRead), ticks))
  {
    hide ReadBattery;
    if ticks == [] {
      assert Run(c, Started(c, hw, t, lastRead), ticks) == Started(c, hw, t, lastRead);
    } else {
      var before := ticks[..|ticks| - 1];
      CacheCoherence(c, hw, t, lastRead, before);
      var s, tick := Run(c, Started(c, hw, t, lastRead), before), ticks[|ticks| - 1];
      hide Timed, Serve, Run;
      StepKeepsCoherent(c, s, tick);
      assert Run(c, Started(c, hw, t, lastRead), ticks) == Step(c, s, tick) by { RunStep(c, Started(c, hw, t, lastRead), ticks); }
    }
  }
}
