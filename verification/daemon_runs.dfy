/** What every run of the daemon keeps. */
module DaemonRuns {
  import opened Hardware
  import opened Optional
  import opened Measurement
  import opened Battery
  import opened PinSetup
  import opened PowerCut
  import opened Timer
  import opened Server
  import opened Logger
  import opened DaemonSpec

  // ---------------------------------------------------------------- halting and low battery

  // REQ_OFF is asserted or unreadable, or a reading due in this turn maps to 0 %.
  ghost predicate HaltReason(c: Settings, s: State, tick: Tick) {
    || c.env.fails(s.t) || !Shows(c.env, s.hw, s.t, c.w.reqOff)
    || (Expired(tick.now, s.lastRead, c.interval)
        && MapBatteryLevel(c.powermap, ReadBattery(c.env, c.w, s.hw, s.t + 1).value) == 0)
  }

  lemma HaltingTurn(c: Settings, s: State, tick: Tick)
    ensures s.halted ==> Step(c, s, tick) == s
    ensures !s.halted ==> (Step(c, s, tick).halted <==> HaltReason(c, s, tick))
  {
    hide ReadBattery, Expired, RunScript, PollReplies, PollOk;
  }

  // Turn `k` gives one of the three reasons to a daemon still running, and the state it halts in is final.
  ghost predicate HaltsAt(c: Settings, s: State, ticks: seq<Tick>, k: nat)
    requires k < |ticks|
  {
    var before := Run(c, s, ticks[..k]);
    !before.halted && HaltReason(c, before, ticks[k]) && Run(c, s, ticks) == Step(c, before, ticks[k])
  }

  // One more turn, whether the run has halted before it or not.
  lemma HaltsAtNext(c: Settings, s: State, ticks: seq<Tick>, k: nat)
    requires k < |ticks|
    ensures var last := |ticks| - 1;
            var before := Run(c, s, ticks[..last]);
            if before.halted then k < last ==> (HaltsAt(c, s, ticks, k) <==> HaltsAt(c, s, ticks[..last], k))
            else k == last ==> (HaltsAt(c, s, ticks, k) <==> HaltReason(c, before, ticks[last]))
  {
    hide HaltReason;
    RunStep(c, s, ticks);
    HaltingTurn(c, Run(c, s, ticks[..|ticks| - 1]), ticks[|ticks| - 1]);
    hide Run, Step;
    if k < |ticks| - 1 {
      assert ticks[..|ticks| - 1][..k] == ticks[..k];
    }
  }

  lemma HaltedThen(c: Settings, s: State, ticks: seq<Tick>, k: nat)
    requires k < |ticks| && HaltsAt(c, s, ticks, k)
    ensures Run(c, s, ticks).halted
  {
    HaltingTurn(c, Run(c, s, ticks[..k]), ticks[k]);
  }

  /** A run ends halted exactly when some turn of a daemon still running gave one of the three reasons; the
      state it halted in is final. */
  lemma {:induction false} HaltReasons(c: Settings, s: State, ticks: seq<Tick>)
    requires !s.halted
    ensures Run(c, s, ticks).halted <==> exists k: nat :: k < |ticks| && HaltsAt(c, s, ticks, k)
  {
    if ticks == [] {
    } else {
      var before, last := ticks[..|ticks| - 1], |ticks| - 1;
      HaltReasons(c, s, before);
      HaltingTurn(c, Run(c, s, before), ticks[last]);
      RunStep(c, s, ticks);
      hide Run, Step, HaltReason, HaltsAt;
      if Run(c, s, before).halted {
        var k: nat :| k < |before| && HaltsAt(c, s, before, k);
        HaltsAtNext(c, s, ticks, k);
      } else {
        HaltsAtNext(c, s, ticks, last);
        forall k: nat | k < |ticks| && HaltsAt(c, s, ticks, k) ensures Run(c, s, ticks).halted {
          HaltedThen(c, s, ticks, k);
        }
      }
    }
  }

  // The reading behind a reply was not 0 %, unless it was the one before the loop.
  ghost predicate NotEmpty(c: Settings, s: State, x: Served) {
    x.asOf <= |s.readings| && (x.asOf > 0 ==> PercentAt(c, s, x.asOf) != 0)
  }

  /** Only the last in-loop reading can map to 0 %, and then the daemon has halted; every reply sent after the
      first in-loop reading repeats a reading that does not. */
  ghost predicate NeverServesEmpty(c: Settings, s: State) {
    && (forall n: nat | 0 < n <= |s.readings| && PercentAt(c, s, n) == 0 :: n == |s.readings| && s.halted)
    && (forall i | 0 <= i < |s.served| :: NotEmpty(c, s, s.served[i]))
  }

  lemma SamePast(c: Settings, s: State, s': State)
    requires s'.first == s.first && s.readings <= s'.readings
    ensures forall n: nat | n <= |s.readings| ::
              ReadingAt(s', n) == ReadingAt(s, n) && PercentAt(c, s', n) == PercentAt(c, s, n)
  {
  }

  lemma TimedNeverServesEmpty(c: Settings, s: State, tick: Tick)
    requires NeverServesEmpty(c, s) && !s.halted
    ensures NeverServesEmpty(c, Timed(c, s, tick))
  {
    hide ReadBattery, Expired;
    var s' := Timed(c, s, tick);
    SamePast(c, s, s');
    forall i | 0 <= i < |s'.served| ensures NotEmpty(c, s', s'.served[i]) {
      assert NotEmpty(c, s, s.served[i]);
    }
  }

  lemma ServeNeverServesEmpty(c: Settings, s: State, poll: Poll)
    requires NeverServesEmpty(c, s) && !s.halted
    ensures NeverServesEmpty(c, Serve(c, s, poll))
  {
    hide RunScript, PollReplies, PollOk;
    var s' := Serve(c, s, poll);
    SamePast(c, s, s');
    forall i | 0 <= i < |s'.served| ensures NotEmpty(c, s', s'.served[i]) {
      if i < |s.served| {
        assert NotEmpty(c, s, s.served[i]);
      }
    }
  }

  lemma StepNeverServesEmpty(c: Settings, s: State, tick: Tick)
    requires NeverServesEmpty(c, s)
    ensures NeverServesEmpty(c, Step(c, s, tick))
  {
    hide Timed, Serve, AskedToHalt;
    if !s.halted {
      var s1 := s.(t := s.t + 1);
      var s2 := s.(t := s.t + 1, halted := true);
      SamePast(c, s, s1);
      SamePast(c, s, s2);
      assert NeverServesEmpty(c, s1) && NeverServesEmpty(c, s2) by {
        forall i | 0 <= i < |s.served| ensures NotEmpty(c, s1, s.served[i]) && NotEmpty(c, s2, s.served[i]) {
          assert NotEmpty(c, s, s.served[i]);
        }
      }
      TimedNeverServesEmpty(c, s1, tick);
      var s3 := Timed(c, s1, tick);
      if !s3.halted {
        ServeNeverServesEmpty(c, s3, tick.poll);
      }
    }
  }

  lemma {:induction false} RunNeverServesEmpty(c: Settings, hw: Hw, t: nat, lastRead: Time, ticks: seq<Tick>)
    ensures NeverServesEmpty(c, Run(c, Started(c, hw, t, lastRead), ticks))
  {
    hide ReadBattery, Step, PercentAt;
    if ticks == [] {
    } else {
      var before := ticks[..|ticks| - 1];
      RunNeverServesEmpty(c, hw, t, lastRead, before);
      StepNeverServesEmpty(c, Run(c, Started(c, hw, t, lastRead), before), ticks[|ticks| - 1]);
    }
  }

  /** Low-battery safety: in every run an in-loop reading of 0 % is the last one and has halted the daemon, and
      no reply sent after the first in-loop reading shows 0 %. */
  lemma LowBatterySafety(c: Settings, hw: Hw, t: nat, lastRead: Time, ticks: seq<Tick>)
    ensures var s := Run(c, Started(c, hw, t, lastRead), ticks);
            && (forall n: nat | 0 < n <= |s.readings| && PercentAt(c, s, n) == 0 :: n == |s.readings| && s.halted)
            && (forall x | x in s.served && x.asOf > 0 :: x.reply != Percent(0))
  {
    var s := Run(c, Started(c, hw, t, lastRead), ticks);
    RunNeverServesEmpty(c, hw, t, lastRead, ticks);
    CacheCoherence(c, hw, t, lastRead, ticks);
    hide Run, Started, PercentAt;
    forall x | x in s.served && x.asOf > 0 ensures x.reply != Percent(0) {
      assert Truthful(c, s, x) && NotEmpty(c, s, x);
    }
  }

  lemma StepKeepsFirst(c: Settings, s: State, tick: Tick)
    ensures Step(c, s, tick).first == s.first
  {
    hide ReadBattery, Expired, RunScript, PollReplies, PollOk, PollAsksOff, AskedToHalt;
  }

  lemma {:induction false} FirstNeverChanges(c: Settings, s: State, ticks: seq<Tick>)
    ensures Run(c, s, ticks).first == s.first
  {
    if ticks == [] {
    } else {
      FirstNeverChanges(c, s, ticks[..|ticks| - 1]);
      StepKeepsFirst(c, Run(c, s, ticks[..|ticks| - 1]), ticks[|ticks| - 1]);
    }
  }

  // A daemon asked to halt before its first turn ends serves nobody.
  lemma {:induction false} AskedAtOnceServesNobody(c: Settings, s: State, ticks: seq<Tick>)
    requires AskedToHalt(c, s) && s.served == [] && !s.halted
    ensures var s' := Run(c, s, ticks);
            s'.served == [] && (ticks == [] || s'.halted)
  {
    hide AskedToHalt, Timed, Serve;
    if ticks == [] {
    } else {
      AskedAtOnceServesNobody(c, s, ticks[..|ticks| - 1]);
      assert |ticks| == 1 ==> ticks[..|ticks| - 1] == [];
    }
  }

  // A client with one question is told the cached percentage.
  lemma OneQuestion(percent: int, raw: int)
    ensures var poll := Ready(Some(Connection(true, [SEND_POWER_LEVEL_PERCENT], 1)), None);
            && PollOk(poll, percent, raw) && !PollAsksOff(poll, percent, raw)
            && PollReplies(poll, percent, raw) == [Percent(percent)]
  {
    assert [SEND_POWER_LEVEL_PERCENT][..0] == [];
    assert Answers([SEND_POWER_LEVEL_PERCENT], percent, raw) == [Percent(percent)];
  }

  // A first reading of 0 % does not halt the daemon, and a client that asks before the interval is over is told.
  lemma FirstEmptyReadingIsServed(c: Settings, hw: Hw, t: nat, lastRead: Time, tick: Tick)
    requires var s := Started(c, hw, t, lastRead);
             s.cache.percent == 0 && !AskedToHalt(c, s) && !Expired(tick.now, lastRead, c.interval)
    requires tick.poll == Ready(Some(Connection(true, [SEND_POWER_LEVEL_PERCENT], 1)), None)
    ensures var s' := Step(c, Started(c, hw, t, lastRead), tick);
            !s'.halted && s'.served == [Served(Percent(0), 0)]
  {
    hide ReadBattery, Expired, RunScript, PollReplies, PollOk, PollAsksOff, AskedToHalt;
    OneQuestion(0, Started(c, hw, t, lastRead).cache.raw);
    assert Stamped([Percent(0)], 0) == [Served(Percent(0), 0)];
  }

  // Some client has been told 0 %.
  ghost predicate ShowedEmpty(s: State) {
    exists x :: x in s.served && x.reply == Percent(0)
  }

  lemma ToldEmpty(s: State, i: nat)
    requires i < |s.served| && s.served[i].reply == Percent(0)
    ensures ShowedEmpty(s)
  {
    assert s.served[i] in s.served;
  }

  lemma ShowsNoEmpty(c: Settings, hw: Hw, t: nat, lastRead: Time, ticks: seq<Tick>)
    requires var s := Started(c, hw, t, lastRead); s.cache.percent != 0 || AskedToHalt(c, s)
    ensures !ShowedEmpty(Run(c, Started(c, hw, t, lastRead), ticks))
  {
    var s0 := Started(c, hw, t, lastRead);
    var s := Run(c, s0, ticks);
    if AskedToHalt(c, s0) {
      AskedAtOnceServesNobody(c, s0, ticks);
    } else {
      LowBatterySafety(c, hw, t, lastRead, ticks);
      CacheCoherence(c, hw, t, lastRead, ticks);
      FirstNeverChanges(c, s0, ticks);
      hide Run, ReadBattery, AskedToHalt;
      forall x | x in s.served ensures x.reply != Percent(0) {
        assert Truthful(c, s, x);
      }
    }
  }

  lemma OneTurn(c: Settings, s: State, tick: Tick)
    ensures Run(c, s, [tick]) == Step(c, s, tick)
  {
    assert [tick][..0] == [];
  }

  /** Exactly when the daemon can never tell a client 0 %: its first reading is not 0 %, or it is asked to halt
      before it has served anybody. */
  lemma NobodyIsToldEmpty(c: Settings, hw: Hw, t: nat, lastRead: Time)
    requires c.interval > 0
    ensures var s := Started(c, hw, t, lastRead);
            (forall ticks :: !ShowedEmpty(Run(c, s, ticks))) <==> s.cache.percent != 0 || AskedToHalt(c, s)
  {
    var s := Started(c, hw, t, lastRead);
    hide Started, AskedToHalt, ShowedEmpty;
    if s.cache.percent != 0 || AskedToHalt(c, s) {
      forall ticks ensures !ShowedEmpty(Run(c, s, ticks)) {
        ShowsNoEmpty(c, hw, t, lastRead, ticks);
      }
    } else {
      var tick := Tick(lastRead, true, Ready(Some(Connection(true, [SEND_POWER_LEVEL_PERCENT], 1)), None));
      ExpiredInMicros(lastRead, lastRead, c.interval);
      FirstEmptyReadingIsServed(c, hw, t, lastRead, tick);
      OneTurn(c, s, tick);
      ToldEmpty(Run(c, s, [tick]), 0);
    }
  }

  // ---------------------------------------------------------------- exactness over whole runs

  /** Whether reading number `n` started on a safe board, told from the readings before it alone: a completed
      one makes the board safe, a charging one leaves it as it was, and a faulted one does what its number of
      accesses says. */
  predicate SafeBefore(c: Settings, s: State, n: nat)
    requires n <= |s.readings| + 1
  {
    if n == 0 then Safe(c.w, s.first.hw)
    else
      var r := ReadingAt(s, n - 1);
      var k := r.upto - r.from - 1;
      if r.raw >= 0 then true
      else if r.raw == CHARGING then SafeBefore(c, s, n - 1)
      else k < 200 && (k >= 197 || SafeBefore(c, s, n - 1))
  }

  lemma {:induction false} SafePast(c: Settings, s: State, s': State, n: nat)
    requires s'.first == s.first && s.readings <= s'.readings && n <= |s.readings| + 1
    ensures SafeBefore(c, s', n) <==> SafeBefore(c, s, n)
  {
    hide Safe;
    if n == 0 {
    } else {
      SafePast(c, s, s', n - 1);
    }
  }

  // The reading is what the board it started on gives.
  ghost predicate Genuine(c: Settings, r: Taken) {
    r == Take(c, r.hw, r.from, r.at)
  }

  ghost predicate TrackedAt(c: Settings, s: State, n: nat)
    requires n <= |s.readings|
  {
    && Genuine(c, ReadingAt(s, n)) && ReadingAt(s, n).hw.mode == s.first.hw.mode
    && (SafeBefore(c, s, n) <==> Safe(c.w, ReadingAt(s, n).hw))
  }

  // The history tells the safety of every reading's board, and of the board as it is now; no pin changes direction.
  ghost predicate SafetyTracked(c: Settings, s: State) {
    && (forall n: nat | n <= |s.readings| :: TrackedAt(c, s, n))
    && (SafeBefore(c, s, |s.readings| + 1) <==> Safe(c.w, s.hw)) && s.hw.mode == s.first.hw.mode
  }

  // A turn that takes a reading, by what the reading maps to.
  lemma ReadingTurn(c: Settings, s: State, tick: Tick)
    requires !s.halted && !AskedToHalt(c, s) && Expired(tick.now, s.lastRead, c.interval)
    ensures var r := TakeReading(c, s.(t := s.t + 1), tick);
            Step(c, s, tick) == if r.halted then r else Serve(c, r, tick.poll)
  {
    hide TakeReading, Expired, Serve, AskedToHalt;
  }

  // CS and UD are different driven pins and OFF is neither of them.
  predicate ComparatorApart(w: Wiring, h: Hw) {
    Comparator(w, h) && w.off != w.cs && w.off != w.ud
  }

  lemma SameReadingsTracked(c: Settings, s: State, s': State)
    requires SafetyTracked(c, s) && s'.first == s.first && s'.readings == s.readings
    requires (Safe(c.w, s.hw) <==> Safe(c.w, s'.hw)) && s'.hw.mode == s.hw.mode
    ensures SafetyTracked(c, s')
  {
    hide Safe, Genuine;
    SamePast(c, s, s');
    SafePast(c, s, s', |s.readings| + 1);
    forall n: nat | n <= |s'.readings| ensures TrackedAt(c, s', n) {
      SafePast(c, s, s', n);
      assert TrackedAt(c, s, n);
    }
  }

  lemma TimedTracksSafety(c: Settings, s: State, tick: Tick)
    requires ComparatorApart(c.w, s.first.hw) && SafetyTracked(c, s)
    ensures SafetyTracked(c, Timed(c, s, tick))
  {
    hide ReadBattery, Safe, Expired;
    if Expired(tick.now, s.lastRead, c.interval) {
      var s' := Timed(c, s, tick);
      var last := |s'.readings|;
      SamePast(c, s, s');
      assert ReadingAt(s', last) == Take(c, s.hw, s.t, tick.now);
      SafePast(c, s, s', last);
      SafetyAfterReading(c.env, c.w, s.hw, s.t);
      forall n: nat | n <= last ensures TrackedAt(c, s', n) {
        if n < last {
          SafePast(c, s, s', n);
          assert TrackedAt(c, s, n);
        }
      }
    }
  }

  lemma ServeTracksSafety(c: Settings, s: State, poll: Poll)
    requires ComparatorApart(c.w, s.first.hw) && SafetyTracked(c, s)
    ensures SafetyTracked(c, Serve(c, s, poll))
  {
    hide SafetyTracked, PollReplies, PollOk, PollAsksOff, Perform, Cycles;
    var k := Granted(c.env, s.t, 6);
    PulsesKeepComparator(c.w, s.hw, 3, k);
    assert OffScript(c.w)[..6] == OffScript(c.w);
    SameReadingsTracked(c, s, Serve(c, s, poll));
  }

  lemma StepTracksSafety(c: Settings, s: State, tick: Tick)
    requires ComparatorApart(c.w, s.first.hw) && SafetyTracked(c, s)
    ensures SafetyTracked(c, Step(c, s, tick))
  {
    hide SafetyTracked, Serve, AskedToHalt, ReadBattery, Expired;
    SameReadingsTracked(c, s, s.(t := s.t + 1));
    SameReadingsTracked(c, s, s.(t := s.t + 1, halted := true));
    TimedTracksSafety(c, s.(t := s.t + 1), tick);
    ServeTracksSafety(c, Timed(c, s.(t := s.t + 1), tick), tick.poll);
  }

  lemma StartTracksSafety(c: Settings, hw: Hw, t: nat, lastRead: Time)
    requires ComparatorApart(c.w, hw)
    ensures SafetyTracked(c, Started(c, hw, t, lastRead))
  {
    hide ReadBattery, Safe;
    var s := Started(c, hw, t, lastRead);
    SafetyAfterReading(c.env, c.w, hw, t);
    assert ReadingAt(s, 0) == Take(c, hw, t, lastRead);
    assert TrackedAt(c, s, 0);
  }

  lemma StartsOn(c: Settings, hw: Hw, t: nat, lastRead: Time)
    ensures Started(c, hw, t, lastRead).first.hw == hw
  {
  }

  lemma {:induction false} RunTracksSafety(c: Settings, hw: Hw, t: nat, lastRead: Time, ticks: seq<Tick>)
    requires ComparatorApart(c.w, hw)
    ensures SafetyTracked(c, Run(c, Started(c, hw, t, lastRead), ticks))
  {
    hide SafetyTracked, Started, Step;
    if ticks == [] {
      StartTracksSafety(c, hw, t, lastRead);
    } else {
      var before := ticks[..|ticks| - 1];
      RunTracksSafety(c, hw, t, lastRead, before);
      FirstNeverChanges(c, Started(c, hw, t, lastRead), before);
      assert Started(c, hw, t, lastRead).first.hw == hw by { StartsOn(c, hw, t, lastRead); }
      StepTracksSafety(c, Run(c, Started(c, hw, t, lastRead), before), ticks[|ticks| - 1]);
    }
  }

  // A completed reading makes the board safe, and so does one stopped while CS was released.
  predicate Restores(r: Taken) {
    r.raw >= 0 || (r.raw == GPIO_ERROR && 197 <= r.upto - r.from - 1 < 200)
  }

  // A reading stopped during its search.
  predicate Spoils(r: Taken) {
    r.raw == GPIO_ERROR && r.upto - r.from - 1 >= 200
  }

  ghost predicate NoneSpoils(s: State, from: nat, upto: nat)
    requires upto <= |s.readings| + 1
  {
    forall j: nat | from <= j < upto :: !Spoils(ReadingAt(s, j))
  }

  lemma SafeStep(c: Settings, s: State, n: nat)
    requires 0 < n <= |s.readings| + 1
    ensures var last := ReadingAt(s, n - 1);
            SafeBefore(c, s, n) <==> Restores(last) || (SafeBefore(c, s, n - 1) && !Spoils(last))
  {
    hide Safe;
  }

  /** What `SafeBefore` says of a history: no search has been stopped since the board was last made safe. */
  lemma {:induction false} SafeSinceRestored(c: Settings, s: State, n: nat)
    requires n <= |s.readings| + 1
    ensures SafeBefore(c, s, n)
       <==> || (Safe(c.w, s.first.hw) && NoneSpoils(s, 0, n))
            || exists m: nat :: m < n && Restores(ReadingAt(s, m)) && NoneSpoils(s, m + 1, n)
  {
    hide Safe;
    if n == 0 {
    } else {
      SafeStep(c, s, n);
      SafeSinceRestored(c, s, n - 1);
      hide SafeBefore, ReadingAt, Restores, Spoils;
      assert NoneSpoils(s, n, n);
      assert forall m: nat | m < n :: NoneSpoils(s, m, n) <==> NoneSpoils(s, m, n - 1) && !Spoils(ReadingAt(s, n - 1));
    }
  }

  /** In every run, from any board with a working comparator, under any faults and whatever the clients ask: a
      completed reading is the threshold of the battery that kept PGOOD fixed during it if and only if its
      board was safe, or the battery's level at 0 happens to call for the end it then returns. */
  lemma ReadingsAreExact(c: Settings, hw: Hw, t: nat, lastRead: Time, ticks: seq<Tick>, n: nat,
                         good: Position -> bool)
    requires ComparatorApart(c.w, hw) && !Drives(hw, c.w.pgood)
    requires var s := Run(c, Started(c, hw, t, lastRead), ticks);
             n <= |s.readings| && ReadingAt(s, n).raw >= 0
             && Stable(c.env, c.w, good, ReadingAt(s, n).from, ReadingAt(s, n).upto)
    ensures var s := Run(c, Started(c, hw, t, lastRead), ticks);
            var raw := ReadingAt(s, n).raw;
            && (Threshold(good, raw) <==> SafeBefore(c, s, n) || (if good(0) then Threshold(good, 0) else !good(63)))
            && (!SafeBefore(c, s, n) ==> raw == if good(0) then 0 else 63)
  {
    var s := Run(c, Started(c, hw, t, lastRead), ticks);
    RunTracksSafety(c, hw, t, lastRead, ticks);
    FirstNeverChanges(c, Started(c, hw, t, lastRead), ticks);
    hide Run, ReadBattery, Safe, Threshold, Stable;
    assert TrackedAt(c, s, n);
    var r := ReadingAt(s, n);
    ExactReadingCondition(c.env, c.w, r.hw, r.from, good);
    if !SafeBefore(c, s, n) {
      UnsafeReading(c.env, c.w, r.hw, r.from, good);
    }
  }

  /** When a low-battery halt is right: a reading says 0 % of a battery that is not empty exactly when its
      board was unsafe and the end it then returns maps to 0 %; it hides an empty battery exactly when its
      board was unsafe and that end does not. An in-loop reading of 0 %, right or wrong, has halted the daemon. */
  lemma EmptyReadingsAreRight(c: Settings, hw: Hw, t: nat, lastRead: Time, ticks: seq<Tick>, n: nat,
                              good: Position -> bool, v: Position)
    requires ComparatorApart(c.w, hw) && !Drives(hw, c.w.pgood)
    requires var s := Run(c, Started(c, hw, t, lastRead), ticks);
             n <= |s.readings| && ReadingAt(s, n).raw >= 0
             && Stable(c.env, c.w, good, ReadingAt(s, n).from, ReadingAt(s, n).upto)
    requires Threshold(good, v)
    ensures var s := Run(c, Started(c, hw, t, lastRead), ticks);
            var empty, stuck := c.powermap[v] == 0, c.powermap[if good(0) then 0 else 63] == 0;
            && (PercentAt(c, s, n) == 0 && !empty <==> !SafeBefore(c, s, n) && stuck && !empty)
            && (PercentAt(c, s, n) != 0 && empty <==> !SafeBefore(c, s, n) && !stuck && empty)
            && (n > 0 && PercentAt(c, s, n) == 0 ==> n == |s.readings| && s.halted)
  {
    ReadingsAreExact(c, hw, t, lastRead, ticks, n, good);
    LowBatterySafety(c, hw, t, lastRead, ticks);
    hide Run, Started, SafeBefore, Threshold, Stable;
    var raw := ReadingAt(Run(c, Started(c, hw, t, lastRead), ticks), n).raw;
    if Threshold(good, raw) {
      ThresholdUnique(good, v, raw);
    }
  }

  /** End to end: in every run, from any board with a working comparator, under any faults and whatever the clients ask, every reply
      that repeats a completed reading started on a safe board is exact: the raw level is the threshold of
      any battery that kept PGOOD fixed during the reading, the percentage its powermap entry. */
  lemma RepliesAreExact(c: Settings, hw: Hw, t: nat, lastRead: Time, ticks: seq<Tick>, i: nat,
                        good: Position -> bool)
    requires ComparatorApart(c.w, hw) && !Drives(hw, c.w.pgood)
    requires var s := Run(c, Started(c, hw, t, lastRead), ticks);
             i < |s.served| && s.served[i].asOf <= |s.readings|
             && SafeBefore(c, s, s.served[i].asOf)
             && ReadingAt(s, s.served[i].asOf).raw >= 0
             && Stable(c.env, c.w, good, ReadingAt(s, s.served[i].asOf).from, ReadingAt(s, s.served[i].asOf).upto)
    ensures var s := Run(c, Started(c, hw, t, lastRead), ticks);
            match s.served[i].reply
            case Raw(v) => Threshold(good, v)
            case Percent(p) => exists v: RawLevel :: Threshold(good, v) && p == MapBatteryLevel(c.powermap, v)
  {
    var s := Run(c, Started(c, hw, t, lastRead), ticks);
    var n := s.served[i].asOf;
    ReadingsAreExact(c, hw, t, lastRead, ticks, n, good);
    CacheCoherence(c, hw, t, lastRead, ticks);
    hide Run, Started, SafeBefore, Threshold, Stable, ComparatorApart;
    assert Truthful(c, s, s.served[i]);
  }

  /** The other side: from a board left unsafe by a faulted search, the next completed in-loop reading of
      any battery with PGOOD low at position 0 is 63, however full it is, and the daemon halts if the
      powermap says 0 there. */
  lemma UnsafeReadingHaltsTheDaemon(c: Settings, s: State, tick: Tick, good: Position -> bool)
    requires Comparator(c.w, s.hw) && !Drives(s.hw, c.w.pgood) && !Safe(c.w, s.hw)
    requires !s.halted && !AskedToHalt(c, s)
    requires Expired(tick.now, s.lastRead, c.interval)
    requires var o := ReadBattery(c.env, c.w, s.hw, s.t + 1);
             o.value >= 0 && Stable(c.env, c.w, good, s.t + 1, o.t)
    requires !good(0) && c.powermap[63] == 0
    ensures var s' := Step(c, s, tick);
            s'.cache.raw == 63 && s'.cache.percent == 0 && s'.halted
  {
    hide ReadBattery, Stable, Safe, AskedToHalt, Expired, Step, Serve;
    UnsafeReading(c.env, c.w, s.hw, s.t + 1, good);
    ReadingTurn(c, s, tick);
  }

  lemma ServeKeepsSafety(c: Settings, s: State, poll: Poll)
    requires ComparatorApart(c.w, s.hw)
    ensures var s' := Serve(c, s, poll);
            && Safe(c.w, s'.hw) == Safe(c.w, s.hw) && s'.hw.mode == s.hw.mode && s'.t >= s.t
            && s'.halted == s.halted && s'.lastRead == s.lastRead
  {
    hide PollReplies, PollOk, PollAsksOff, Perform, Cycles;
    PulsesKeepComparator(c.w, s.hw, 3, Granted(c.env, s.t, 6));
    assert OffScript(c.w)[..6] == OffScript(c.w);
  }

  // The comparator is driven and the inputs are inputs, as a complete initialisation of distinct pins leaves them.
  predicate SetUp(w: Wiring, h: Hw) {
    ComparatorApart(w, h) && !Drives(h, w.pgood) && !Drives(h, w.d2) && !Drives(h, w.reqOff)
  }

  // From access `t` on nothing fails, no charger is present and nobody asks to halt.
  ghost predicate CalmFrom(c: Settings, t: nat, good: Position -> bool) {
    && (forall x: nat | x >= t :: !c.env.fails(x))
    && (forall x: nat, p: Position | x >= t :: c.env.input(x, c.w.d2, p))
    && (forall x: nat, p: Position | x >= t :: c.env.input(x, c.w.reqOff, p))
    && (forall x: nat, p: Position | x >= t :: c.env.input(x, c.w.pgood, p) == good(p))
  }

  lemma CalmReadingCompletes(c: Settings, h: Hw, t: nat, good: Position -> bool)
    requires CalmFrom(c, t, good) && !Drives(h, c.w.d2)
    ensures var o := ReadBattery(c.env, c.w, h, t); o.value >= 0 && Stable(c.env, c.w, good, t, o.t)
  {
    hide After, Pulses, Sample;
  }

  lemma CalmLater(c: Settings, t: nat, t': nat, good: Position -> bool)
    requires CalmFrom(c, t, good) && t <= t'
    ensures CalmFrom(c, t', good)
  {
  }

  lemma CalmNotAsked(c: Settings, s: State, good: Position -> bool)
    requires CalmFrom(c, s.t, good) && !Drives(s.hw, c.w.reqOff)
    ensures !AskedToHalt(c, s)
  {
  }

  // The turn in which the search stops at a fault: the daemon goes on, with the board left unsafe.
  lemma FaultedTurn(c: Settings, s: State, tick: Tick)
    requires ComparatorApart(c.w, s.hw) && !s.halted && !AskedToHalt(c, s)
    requires Expired(tick.now, s.lastRead, c.interval)
    requires var o := ReadBattery(c.env, c.w, s.hw, s.t + 1);
             o.value == GPIO_ERROR && o.t - (s.t + 1) - 1 >= 200
    ensures var s' := Step(c, s, tick);
            && !s'.halted && !Safe(c.w, s'.hw) && s'.hw.mode == s.hw.mode && s'.lastRead == tick.now
            && s'.t >= ReadBattery(c.env, c.w, s.hw, s.t + 1).t
  {
    hide ReadBattery, Expired, Serve, Step, Safe, AskedToHalt;
    SafetyAfterReading(c.env, c.w, s.hw, s.t + 1);
    ReadingTurn(c, s, tick);
    ServeKeepsSafety(c, TakeReading(c, s.(t := s.t + 1), tick), tick.poll);
  }

  /** One failed access is enough to shut the machine down: when the search of an in-loop reading stops at
      a fault, and nothing fails ever after, the next timed reading reports an empty battery for every
      battery with PGOOD low at position 0, and the daemon halts. */
  lemma OneFaultShutsDown(c: Settings, s: State, tick1: Tick, tick2: Tick, good: Position -> bool)
    requires SetUp(c.w, s.hw) && !s.halted && !AskedToHalt(c, s)
    requires Expired(tick1.now, s.lastRead, c.interval) && Expired(tick2.now, tick1.now, c.interval)
    requires var o := ReadBattery(c.env, c.w, s.hw, s.t + 1);
             o.value == GPIO_ERROR && o.t - (s.t + 1) - 1 >= 200 && CalmFrom(c, o.t, good)
    requires !good(0) && c.powermap[63] == 0
    ensures var s1 := Step(c, s, tick1);
            var s2 := Step(c, s1, tick2);
            !s1.halted && s2.halted && s2.cache.raw == 63 && s2.cache.percent == 0
  {
    hide ReadBattery, Expired, Step, Safe, CalmFrom, AskedToHalt;
    FaultedTurn(c, s, tick1);
    var s1, t := Step(c, s, tick1), ReadBattery(c.env, c.w, s.hw, s.t + 1).t;
    CalmLater(c, t, s1.t, good);
    CalmLater(c, t, s1.t + 1, good);
    CalmNotAsked(c, s1, good);
    CalmReadingCompletes(c, s1.hw, s1.t + 1, good);
    UnsafeReadingHaltsTheDaemon(c, s1, tick2, good);
  }

  // ---------------------------------------------------------------- one fault in a run

  /** A board on which everything is calm but for one access: only access `f` fails. */
  function OneFault(w: Wiring, good: Position -> bool, f: nat): Env {
    Env(x => x == f, (_: nat, pin: int, p: Position) => if pin == w.pgood then good(p) else true)
  }

  // From a safe start the number of search pulses is told by the battery, whether or not the reading completes.
  lemma PulsesToThreshold(env: Env, w: Wiring, h: Hw, t: nat, good: Position -> bool, v: Position)
    requires Comparator(w, h) && !Drives(h, w.pgood) && Safe(w, h) && Threshold(good, v)
    requires forall x: nat, p: Position :: env.input(x, w.pgood, p) == good(p)
    ensures Pulses(env, w, h, t, 0) == 63 - v
  {
    hide After, Pulses, Safe;
    var n := Pulses(env, w, h, t, 0);
    PulsesAreTheLeadingRun(env, w, h, t, 0);
    forall j: nat | j <= 63 ensures Sample(env, w, h, t, j) <==> good(63 - j) {
      AfterSearching(w, h, j);
    }
    hide Sample;
    assert n < 63 ==> !good(63 - n);
    assert v != 0 ==> !Sample(env, w, h, t, 63 - v);
  }

  lemma GrantedToTheFault(w: Wiring, good: Position -> bool, f: nat, t: nat, n: nat)
    ensures Granted(OneFault(w, good, f), t, n) == if t <= f < t + n then f - t else n
  {
    assert OneFault(w, good, f).fails(f);
  }

  // The two outcomes such a reading can have.
  lemma ReadingWithOneFault(w: Wiring, h: Hw, t: nat, good: Position -> bool, v: Position, f: nat)
    requires SetUp(w, h) && w.pgood != w.d2 && Safe(w, h) && Threshold(good, v)
    ensures var o := ReadBattery(OneFault(w, good, f), w, h, t);
            var len := 202 + 3 * (63 - v);
            && (f >= t + len ==> o.value == v && o.t == t + len)
            && (t + 2 <= f < t + len ==> o.value == GPIO_ERROR && o.t == f + 1)
  {
    hide After, Pulses, Safe, Threshold, Granted;
    PulsesToThreshold(OneFault(w, good, f), w, h, t, good, v);
    GrantedToTheFault(w, good, f, t, 202 + 3 * (63 - v));
  }

  lemma CalmAfterFault(c: Settings, good: Position -> bool, f: nat)
    requires c.env == OneFault(c.w, good, f) && c.w.pgood != c.w.d2 && c.w.pgood != c.w.reqOff
    ensures CalmFrom(c, f + 1, good)
  {
  }

  // What the first reading leaves behind when it has no fault.
  lemma StartedExactly(c: Settings, hw: Hw, t: nat, lastRead: Time, good: Position -> bool, v: Position, f: nat)
    requires SetUp(c.w, hw) && c.w.pgood != c.w.d2 && Safe(c.w, hw) && Threshold(good, v)
    requires c.env == OneFault(c.w, good, f) && f >= t + 202 + 3 * (63 - v)
    ensures var s := Started(c, hw, t, lastRead);
            && s.first.raw == v && s.t == t + 202 + 3 * (63 - v) && s.lastRead == lastRead
            && !s.halted && Safe(c.w, s.hw) && SetUp(c.w, s.hw)
  {
    hide ReadBattery, Threshold, Safe;
    ReadingWithOneFault(c.w, hw, t, good, v, f);
    SafetyAfterReading(c.env, c.w, hw, t);
  }

  lemma NotAskedBeforeFault(c: Settings, s: State, good: Position -> bool, f: nat)
    requires c.env == OneFault(c.w, good, f) && c.w.pgood != c.w.reqOff && !Drives(s.hw, c.w.reqOff) && s.t < f
    ensures !AskedToHalt(c, s)
  {
  }

  // The fault hits the search of the next timed reading.
  lemma OneFaultInTheNextSearch(c: Settings, s: State, tick1: Tick, tick2: Tick, good: Position -> bool, v: Position,
                                f: nat)
    requires SetUp(c.w, s.hw) && c.w.pgood != c.w.d2 && c.w.pgood != c.w.reqOff && Safe(c.w, s.hw) && !s.halted
    requires Threshold(good, v) && !good(0) && c.powermap[63] == 0
    requires c.env == OneFault(c.w, good, f) && s.t + 201 <= f < s.t + 203 + 3 * (63 - v)
    requires Expired(tick1.now, s.lastRead, c.interval) && Expired(tick2.now, tick1.now, c.interval)
    ensures var s2 := Step(c, Step(c, s, tick1), tick2);
            s2.halted && s2.cache.raw == 63 && s2.cache.percent == 0
  {
    hide ReadBattery, Expired, Step, Threshold, CalmFrom, Safe, AskedToHalt, OneFault;
    NotAskedBeforeFault(c, s, good, f);
    ReadingWithOneFault(c.w, s.hw, s.t + 1, good, v, f);
    CalmAfterFault(c, good, f);
    OneFaultShutsDown(c, s, tick1, tick2, good);
  }

  lemma PgoodApart(w: Wiring)
    requires w.Distinct()
    ensures w.pgood != w.d2 && w.pgood != w.reqOff
  {
    var p := w.Pins();
    assert p[1] == w.reqOff && p[4] == w.pgood && p[6] == w.d2;
  }

  lemma TwoTurns(c: Settings, s: State, tick1: Tick, tick2: Tick)
    ensures Run(c, s, [tick1, tick2]) == Step(c, Step(c, s, tick1), tick2)
  {
    hide Step;
    assert [tick1, tick2][..1] == [tick1];
    OneTurn(c, s, tick1);
  }

  lemma OneFaultFromSetUp(c: Settings, hw: Hw, t: nat, lastRead: Time, tick1: Tick, tick2: Tick,
                          good: Position -> bool, v: Position, off: nat)
    requires c.w.pgood != c.w.d2 && c.w.pgood != c.w.reqOff && SetUp(c.w, hw) && Safe(c.w, hw)
    requires Threshold(good, v) && !good(0) && c.powermap[63] == 0
    requires 200 <= off < 202 + 3 * (63 - v)
    requires c.env == OneFault(c.w, good, t + 202 + 3 * (63 - v) + 1 + off)
    requires Expired(tick1.now, lastRead, c.interval) && Expired(tick2.now, tick1.now, c.interval)
    ensures var s := Run(c, Started(c, hw, t, lastRead), [tick1, tick2]);
            && s.first.raw == v
            && s.halted && s.cache.raw == 63 && s.cache.percent == 0
  {
    var s := Started(c, hw, t, lastRead);
    var f := t + 202 + 3 * (63 - v) + 1 + off;
    hide Started, Step, Expired, Threshold, Safe, OneFault, SetUp;
    StartedExactly(c, hw, t, lastRead, good, v, f);
    FirstNeverChanges(c, s, [tick1, tick2]);
    TwoTurns(c, s, tick1, tick2);
    OneFaultInTheNextSearch(c, s, tick1, tick2, good, v, f);
  }

  /** A run in which one failed access shuts the machine down: it begins on any safe board, with any battery
      that has PGOOD low at position 0; the first reading is exact, and the only fault is any one access of
      the search in the first timed reading. The second timed reading reports 63 and halts the daemon. */
  lemma OneFaultInARun(c: Settings, hw: Hw, t: nat, lastRead: Time, tick1: Tick, tick2: Tick,
                       good: Position -> bool, v: Position, off: nat)
    requires c.w.Distinct() && SetUp(c.w, hw) && Safe(c.w, hw)
    requires Threshold(good, v) && !good(0) && c.powermap[63] == 0
    requires 200 <= off < 202 + 3 * (63 - v)
    requires c.env == OneFault(c.w, good, t + 202 + 3 * (63 - v) + 1 + off)
    requires Expired(tick1.now, lastRead, c.interval) && Expired(tick2.now, tick1.now, c.interval)
    ensures var s := Run(c, Started(c, hw, t, lastRead), [tick1, tick2]);
            && s.first.raw == v
            && s.halted && s.cache.raw == 63 && s.cache.percent == 0
  {
    PgoodApart(c.w);
    hide Started, Run, ReadBattery, Expired, Threshold, Safe, OneFault, SetUp;
    OneFaultFromSetUp(c, hw, t, lastRead, tick1, tick2, good, v, off);
  }

  /** Monotone end to end: of two batteries measured from safe starts, one that shows PGOOD high wherever
      the other does gets the smaller raw level and, under a non-increasing powermap, no smaller percentage. */
  lemma StrongerBatteryHasMore(c1: Settings, h1: Hw, t1: nat, good1: Position -> bool,
                               c2: Settings, h2: Hw, t2: nat, good2: Position -> bool, at: Time)
    requires Comparator(c1.w, h1) && Safe(c1.w, h1) && !Drives(h1, c1.w.pgood)
    requires Comparator(c2.w, h2) && Safe(c2.w, h2) && !Drives(h2, c2.w.pgood)
    requires c1.powermap == c2.powermap && forall i, j | 0 <= i <= j < |c1.powermap| :: c1.powermap[i] >= c1.powermap[j]
    requires var r := Take(c1, h1, t1, at); r.raw >= 0 && Stable(c1.env, c1.w, good1, t1, r.upto)
    requires var r := Take(c2, h2, t2, at); r.raw >= 0 && Stable(c2.env, c2.w, good2, t2, r.upto)
    requires forall p: Position | good1(p) :: good2(p)
    ensures Take(c2, h2, t2, at).raw <= Take(c1, h1, t1, at).raw
    ensures MapBatteryLevel(c2.powermap, Take(c2, h2, t2, at).raw) >= MapBatteryLevel(c1.powermap, Take(c1, h1, t1, at).raw)
  {
    hide ReadBattery, Safe, Stable, Threshold;
    SafeReadingIsExact(c1.env, c1.w, h1, t1, good1);
    SafeReadingIsExact(c2.env, c2.w, h2, t2, good2);
    StrongerBatteryReadsLower(good1, good2, Take(c1, h1, t1, at).raw, Take(c2, h2, t2, at).raw);
  }

  /** A complete initialisation makes the next reading start safe, whatever the board was like before, and
      when the pins are distinct it sets up what the theorems about runs ask for. */
  lemma SafeAfterInit(env: Env, w: Wiring, h: Hw, t: nat)
    ensures var o := RunScript(env, w, h, t, InitScript(w));
            o.value == GPIO_SUCCESS ==> Safe(w, o.hw) && (w.Distinct() ==> SetUp(w, o.hw))
  {
    hide Perform;
    InitSoFar(w, h, 7);
    if w.Distinct() {
      InitSetsUpThePins(w, h);
      var p := w.Pins();
      assert p[0] == w.off && p[1] == w.reqOff && p[2] == w.cs && p[3] == w.ud && p[4] == w.pgood && p[6] == w.d2;
    }
  }

  // ---------------------------------------------------------------- log, timer, power off

  /** The log holds the in-loop readings in order with their percentages: all of them while logging is on
      and no write has failed, a prefix of them after a failure, none when logging is off. */
  ghost predicate LogFaithful(c: Settings, s: State) {
    && |s.log.lines| <= |s.readings|
    && (forall k: nat | k < |s.log.lines| :: s.log.lines[k] == Line(s.readings[k].raw, PercentAt(c, s, k + 1)))
    && (c.logging && !s.log.failed ==> |s.log.lines| == |s.readings|)
    && (!c.logging ==> s.log.lines == [])
  }

  lemma StepKeepsLog(c: Settings, s: State, tick: Tick)
    requires LogFaithful(c, s)
    ensures LogFaithful(c, Step(c, s, tick))
    ensures tick.logOk && !s.log.failed ==> !Step(c, s, tick).log.failed
  {
    hide ReadBattery, Expired, RunScript, PollReplies, PollOk, AskedToHalt;
    var s' := Step(c, s, tick);
    SamePast(c, s, s');
    forall k: nat | k < |s'.log.lines|
      ensures s'.log.lines[k] == Line(s'.readings[k].raw, PercentAt(c, s', k + 1))
    {
      if k < |s.log.lines| {
        assert s.log.lines[k] == Line(s.readings[k].raw, PercentAt(c, s, k + 1));
      }
    }
  }

  lemma {:induction false} LogIsTheReadings(c: Settings, hw: Hw, t: nat, lastRead: Time, ticks: seq<Tick>)
    ensures var s := Run(c, Started(c, hw, t, lastRead), ticks);
            && LogFaithful(c, s)
            && ((forall k | 0 <= k < |ticks| :: ticks[k].logOk) ==> !s.log.failed)
  {
    hide ReadBattery, Step;
    if ticks == [] {
    } else {
      var before := ticks[..|ticks| - 1];
      LogIsTheReadings(c, hw, t, lastRead, before);
      StepKeepsLog(c, Run(c, Started(c, hw, t, lastRead), before), ticks[|ticks| - 1]);
    }
  }

  function Clock(ticks: seq<Tick>): (r: seq<Time>)
    ensures |r| == |ticks|
  {
    if ticks == [] then [] else Clock(ticks[..|ticks| - 1]) + [ticks[|ticks| - 1].now]
  }

  // The poll times of readings, in order.
  function Times(rs: seq<Taken>): (ts: seq<Time>)
    ensures |ts| == |rs|
    ensures forall k | 0 <= k < |rs| :: ts[k] == rs[k].at
  {
    if rs == [] then [] else Times(rs[..|rs| - 1]) + [rs[|rs| - 1].at]
  }

  lemma StepFollowsTheTimer(c: Settings, s: State, tick: Tick)
    requires !Step(c, s, tick).halted
    ensures var s' := Step(c, s, tick);
            && !s.halted
            && (if Expired(tick.now, s.lastRead, c.interval)
                then Times(s'.readings) == Times(s.readings) + [tick.now] && s'.lastRead == tick.now
                else s'.readings == s.readings && s'.lastRead == s.lastRead)
  {
    hide ReadBattery, Expired, RunScript, PollReplies, PollOk, PollAsksOff, AskedToHalt, Stamped;
  }

  /** While the daemon runs, the poll times of its in-loop readings are exactly the polls the timer accepts,
      so the rate limits of the timer are those of the readings. */
  lemma {:induction false} ReadingsFollowTheTimer(c: Settings, hw: Hw, t: nat, lastRead: Time, ticks: seq<Tick>)
    requires !Run(c, Started(c, hw, t, lastRead), ticks).halted
    ensures var s := Run(c, Started(c, hw, t, lastRead), ticks);
            var a := Accepted(lastRead, Clock(ticks), c.interval);
            Times(s.readings) == a && s.lastRead == Latest(lastRead, a)
  {
    hide ReadBattery, Expired, Step;
    if ticks == [] {
    } else {
      var before := ticks[..|ticks| - 1];
      assert Clock(ticks)[..|ticks| - 1] == Clock(before);
      StepFollowsTheTimer(c, Run(c, Started(c, hw, t, lastRead), before), ticks[|ticks| - 1]);
      ReadingsFollowTheTimer(c, hw, t, lastRead, before);
    }
  }

  /** Once a client has asked for power off the daemon never forgets it. */
  lemma OffRequestsStick(c: Settings, s: State, tick: Tick)
    ensures s.cache.powerOff ==> Step(c, s, tick).cache.powerOff
  {
    hide ReadBattery, Expired, RunScript, PollReplies, PollOk, AskedToHalt;
  }

  /** A turn that serves its clients without an exception or a fault once power off has been asked for leaves the
      board without power exactly when OFF is an output, or there was no power before. */
  lemma OffRequestCutsPower(c: Settings, s: State, poll: Poll)
    requires PollOk(poll, s.cache.percent, s.cache.raw)
    requires s.cache.powerOff || PollAsksOff(poll, s.cache.percent, s.cache.raw)
    requires forall x: nat | s.t <= x < s.t + 6 :: !c.env.fails(x)
    ensures Serve(c, s, poll).hw.power == PowerOff <==> s.hw.power == PowerOff || Drives(s.hw, c.w.off)
  {
    hide PollReplies, PollOk, PollAsksOff, Perform, Cycles;
    PowerAfterWrites(c.w, s.hw, 6);
    assert OffScript(c.w)[..6] == OffScript(c.w);
  }

  // The controller's REQ_OFF state drives the REQ_OFF pin low, and nothing else does.
  ghost predicate ReqOffDriven(c: Settings, s: State) {
    !Drives(s.hw, c.w.reqOff) && (c.env.input(s.t, c.w.reqOff, s.hw.wiper) <==> s.hw.power != ReqOff)
  }

  /** A power-off call from POWER_ON leaves the board asking for a shutdown exactly when a fault stops it with
      one rising edge done, and then the next turn halts the daemon. */
  lemma InterruptedPowerOffHalts(c: Settings, s: State, poll: Poll, tick: Tick)
    requires PollOk(poll, s.cache.percent, s.cache.raw) && !s.halted
    requires s.cache.powerOff || PollAsksOff(poll, s.cache.percent, s.cache.raw)
    requires s.hw.power == PowerOn
    requires ReqOffDriven(c, Serve(c, s, poll))
    ensures var s' := Serve(c, s, poll);
            var k := Granted(c.env, s.t, 6);
            && (s'.hw.power == ReqOff <==> Drives(s.hw, c.w.off) && if High(s.hw, c.w.off) then 3 <= k <= 4 else 1 <= k <= 2)
            && (s'.hw.power == ReqOff ==> Step(c, s', tick).halted)
  {
    hide PollReplies, PollOk, PollAsksOff, Perform, Cycles, Timed;
    var k := Granted(c.env, s.t, 6);
    OneEdgeAsksToHalt(c.w, s.hw, k);
    assert OffScript(c.w)[..6] == OffScript(c.w);
  }
}
