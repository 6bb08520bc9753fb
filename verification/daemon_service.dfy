/** What the daemon does for its clients, and what it costs: replies, power, sleep. */
module DaemonService {
  import opened Hardware
  import opened Measurement
  import opened PowerCut
  import opened Server
  import opened Logger
  import opened Timer
  import opened WiringCheck
  import opened DaemonSpec
  import opened DaemonRuns

  // ---------------------------------------------------------------- replies

  /** A turn that does not halt sends its battery client one reply for each recognised command, in order, as many
      as can be written, all of them from the pair cached in that turn; without such a client, and in a turn
      that halts, nothing is sent. */
  lemma TurnServes(c: Settings, s: State, tick: Tick) returns (replies: seq<Reply>)
    ensures var s' := Step(c, s, tick);
            && s'.served == s.served + Stamped(replies, |s'.readings|)
            && (if !s'.halted && tick.poll.Ready? && tick.poll.battery.Some? && tick.poll.battery.value.accepted
                then Answered(tick.poll.battery.value.commands, tick.poll.battery.value.writable, replies,
                              s'.cache.percent, s'.cache.raw)
                else replies == [])
  {
    hide Answered, ReadBattery, Expired, RunScript, PollReplies, PollOk, PollAsksOff, AskedToHalt;
    var s' := Step(c, s, tick);
    PollRepliesInOrder(tick.poll, s'.cache.percent, s'.cache.raw);
    replies := if s'.halted then [] else PollReplies(tick.poll, s'.cache.percent, s'.cache.raw);
  }

  /** In every run a charging or failed reading counts as -1 %: in the cache, in the log and in every reply. */
  lemma NegativeIsMinusOne(c: Settings, hw: Hw, t: nat, lastRead: Time, ticks: seq<Tick>)
    ensures var s := Run(c, Started(c, hw, t, lastRead), ticks);
            && (s.cache.raw < 0 ==> s.cache.percent == -1)
            && (forall k: nat | k < |s.log.lines| && s.log.lines[k].raw < 0 :: s.log.lines[k].percent == -1)
            && (forall i: nat | i < |s.served| && s.served[i].asOf <= |s.readings| && ReadingAt(s, s.served[i].asOf).raw < 0 ::
                  s.served[i].reply == Percent(-1) || s.served[i].reply == Raw(ReadingAt(s, s.served[i].asOf).raw))
  {
    var s := Run(c, Started(c, hw, t, lastRead), ticks);
    CacheCoherence(c, hw, t, lastRead, ticks);
    LogIsTheReadings(c, hw, t, lastRead, ticks);
    hide Run, Started;
    forall i: nat | i < |s.served| && s.served[i].asOf <= |s.readings| && ReadingAt(s, s.served[i].asOf).raw < 0
      ensures s.served[i].reply == Percent(-1) || s.served[i].reply == Raw(ReadingAt(s, s.served[i].asOf).raw)
    {
      assert Truthful(c, s, s.served[i]);
    }
  }

  // ---------------------------------------------------------------- power

  // Nothing fails while the clients are served.
  predicate GoodPoll(p: Poll) {
    && p.Ready?
    && (p.battery.Some? ==> AllWritten(p.battery.value))
    && (p.off.Some? ==> p.off.value.accepted)
  }

  // A client on the off socket sends a command.
  predicate AsksOff(p: Poll) {
    p.Ready? && p.off.Some? && |p.off.value.commands| > 0
  }

  /** Serving clients, under every pattern of faults: the flag is set exactly by a good poll that asks for power
      off; with the flag set a good poll makes the power-off call, whose faults decide how far it gets; and in
      every other case nothing on the board is touched. */
  lemma PowerAfterServing(c: Settings, s: State, poll: Poll)
    ensures var s' := Serve(c, s, poll);
            var off := s.cache.powerOff || (GoodPoll(poll) && AsksOff(poll));
            var k := Granted(c.env, s.t, 6);
            && s'.cache.powerOff == off
            && (if GoodPoll(poll) && off
                then && s'.slept == s.slept + 200000 * k
                     && s'.t == s.t + (if k < 6 then k + 1 else 6)
                     && (s'.hw.power == PowerOff
                         <==> || s.hw.power == PowerOff
                              || (Drives(s.hw, c.w.off) && EdgesIn(s.hw, c.w.off, k) >= StepsToCut(s.hw.power)))
                else s'.hw == s.hw && s'.t == s.t && s'.slept == s.slept)
  {
    hide PollReplies, PollOk, PollAsksOff, AllWritten, Perform, Cycles, EdgesIn, StepsToCut;
    PollEnds(poll, s.cache.percent, s.cache.raw);
    PowerAfterWrites(c.w, s.hw, Granted(c.env, s.t, 6));
    assert OffScript(c.w)[..6] == OffScript(c.w);
  }

  lemma ReadingLeavesPower(env: Env, w: Wiring, h: Hw, t: nat)
    requires w.off != w.cs && w.off != w.ud
    ensures ReadBattery(env, w, h, t).hw.power == h.power
  {
    hide After, Pulses;
    var n := Pulses(env, w, h, t, 0);
    PowerStays(w, h, Granted(env, t, 202 + 3 * n));
    PowerStays(w, h, 201 + 3 * n);
  }

  lemma TimedLeavesPower(c: Settings, s: State, tick: Tick)
    requires c.w.off != c.w.cs && c.w.off != c.w.ud
    ensures Timed(c, s, tick).hw.power == s.hw.power && Timed(c, s, tick).cache.powerOff == s.cache.powerOff
  {
    hide ReadBattery, Expired;
    ReadingLeavesPower(c.env, c.w, s.hw, s.t);
  }

  lemma StepLeavesPower(c: Settings, s: State, tick: Tick)
    requires c.w.off != c.w.cs && c.w.off != c.w.ud
    requires !AsksOff(tick.poll) && !s.cache.powerOff
    ensures Step(c, s, tick).hw.power == s.hw.power && !Step(c, s, tick).cache.powerOff
  {
    hide Timed, Serve, AskedToHalt, AsksOff, GoodPoll;
    TimedLeavesPower(c, s.(t := s.t + 1), tick);
    PowerAfterServing(c, Timed(c, s.(t := s.t + 1), tick), tick.poll);
  }

  /** The daemon cuts the power only when a client has asked for it: in every run whose polls hold no command on
      the off socket the power controller stays where it was, and the flag stays clear. */
  lemma {:induction false} NoRequestNoPowerOff(c: Settings, hw: Hw, t: nat, lastRead: Time, ticks: seq<Tick>)
    requires c.w.off != c.w.cs && c.w.off != c.w.ud
    requires forall i | 0 <= i < |ticks| :: !AsksOff(ticks[i].poll)
    ensures var s := Run(c, Started(c, hw, t, lastRead), ticks);
            s.hw.power == hw.power && !s.cache.powerOff
  {
    hide Step, ReadBattery, AsksOff;
    if ticks == [] {
      ReadingLeavesPower(c.env, c.w, hw, t);
    } else {
      var before := ticks[..|ticks| - 1];
      NoRequestNoPowerOff(c, hw, t, lastRead, before);
      StepLeavesPower(c, Run(c, Started(c, hw, t, lastRead), before), ticks[|ticks| - 1]);
    }
  }

  // ---------------------------------------------------------------- sleep

  // The longest sleep of one reading.
  function LongestReading(c: Settings): nat {
    262 * c.gpioDelay + c.pgoodDelay
  }

  lemma LongestIs(c: Settings)
    ensures LongestReading(c) == 262 * c.gpioDelay + c.pgoodDelay
  {
  }

  lemma ServeTakesNoReading(c: Settings, s: State, poll: Poll)
    ensures Serve(c, s, poll).readings == s.readings
  {
  }

  lemma TimedSleeps(c: Settings, s: State, tick: Tick)
    ensures var s' := Timed(c, s, tick);
            && s.slept <= s'.slept <= s.slept + LongestReading(c) && s'.cache.powerOff == s.cache.powerOff
            && ((s'.readings == s.readings && s'.slept == s.slept) || |s'.readings| == |s.readings| + 1)
  {
    hide ReadBattery, ReadingSleep, Expired;
    ReadingSleepBound(c.env, c.w, s.hw, s.t, c.gpioDelay, c.pgoodDelay);
  }

  lemma ServeSleeps(c: Settings, s: State, poll: Poll)
    ensures var s' := Serve(c, s, poll);
            && s.slept <= s'.slept <= s.slept + 1200000 && s'.readings == s.readings
            && (s.cache.powerOff ==> s'.cache.powerOff) && (!s'.cache.powerOff ==> s'.slept == s.slept)
  {
    hide RunScript, PollReplies, PollOk, PollAsksOff, Stamped;
  }

  // A turn sleeps for the reading it takes and for the power-off call it makes, and for nothing else.
  lemma StepSleeps(c: Settings, s: State, tick: Tick)
    ensures var s' := Step(c, s, tick);
            && (|s'.readings| == |s.readings| || |s'.readings| == |s.readings| + 1)
            && s.slept <= s'.slept
                       <= s.slept + (if |s'.readings| == |s.readings| then 0 else LongestReading(c)) + 1200000
            && (|s'.readings| == |s.readings| && !s'.cache.powerOff ==> s'.slept == s.slept)
  {
    hide Timed, Serve, AskedToHalt, LongestReading;
    var s1 := Timed(c, s.(t := s.t + 1), tick);
    TimedSleeps(c, s.(t := s.t + 1), tick);
    ServeSleeps(c, s1, tick.poll);
  }

  lemma StartedSleeps(c: Settings, hw: Hw, t: nat, lastRead: Time)
    ensures var s := Started(c, hw, t, lastRead); 0 <= s.slept <= LongestReading(c) && s.readings == []
  {
    hide ReadBattery, ReadingSleep;
    ReadingSleepBound(c.env, c.w, hw, t, c.gpioDelay, c.pgoodDelay);
  }

  lemma MoreReadings(n: nat, m: nat, longest: nat)
    ensures (n + m) * longest == n * longest + m * longest
  {
  }

  /** The loop is never long away from its clients: over any run the daemon sleeps at most 262 gpio delays and one
      settling delay for each reading, and 1.2 s for each turn. */
  lemma {:induction false} RunSleeps(c: Settings, hw: Hw, t: nat, lastRead: Time, ticks: seq<Tick>)
    ensures var s := Run(c, Started(c, hw, t, lastRead), ticks);
            0 <= s.slept <= (|s.readings| + 1) * LongestReading(c) + 1200000 * |ticks|
  {
    hide Step, Started, LongestReading;
    if ticks == [] {
      StartedSleeps(c, hw, t, lastRead);
    } else {
      var before := Run(c, Started(c, hw, t, lastRead), ticks[..|ticks| - 1]);
      RunSleeps(c, hw, t, lastRead, ticks[..|ticks| - 1]);
      StepSleeps(c, before, ticks[|ticks| - 1]);
      var s := Run(c, Started(c, hw, t, lastRead), ticks);
      MoreReadings(|before.readings| + 1, |s.readings| - |before.readings|, LongestReading(c));
    }
  }
}
