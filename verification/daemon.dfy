/** The daemon: its loop body over the board, the server and the log it owns. */
module Daemon {
  import opened Hardware
  import opened Gpio
  import opened GpioControl
  import opened Measurement
  import opened PowerCut
  import opened Timer
  import opened Server
  import opened Logger
  import opened Optional
  import opened Config
  import opened DaemonSpec

  // A halted daemon makes no more turns.
  lemma {:induction false} HaltedRun(c: Settings, s: State, ticks: seq<Tick>, i: nat)
    requires i <= |ticks| && Run(c, s, ticks[..i]).halted
    ensures Run(c, s, ticks) == Run(c, s, ticks[..i])
  {
    if i == |ticks| {
      assert ticks[..i] == ticks;
    } else {
      var before := ticks[..|ticks| - 1];
      assert before[..i] == ticks[..i];
      HaltedRun(c, s, before, i);
    }
  }

  class Rocpmd {
    const interval: int
    const gpioDelay: nat
    const pgoodDelay: nat
    const powermap: PowerMap
    const board: Board
    const ud: UdServer
    const log: BatteryLog
    var createPowerLog: bool
    var lastRead: Time
    var batteryLevelRaw: int
    var batteryLevelPercent: int
    var halted: bool
    ghost var began: nat   // what the board had slept before the first reading
    ghost var first: Taken
    ghost var readings: seq<Taken>
    ghost var served: seq<Served>

    ghost predicate Valid()
      reads this, log, ud
    {
      && (createPowerLog ==> log.Valid())
      && batteryLevelRaw == ud.batteryLevelRaw && batteryLevelPercent == ud.batteryLevelPercent
    }

    ghost function Conf(): Settings
      reads this
    {
      Settings(board.wiring, board.env, interval, gpioDelay, pgoodDelay, powermap, createPowerLog)
    }

    ghost function Log(): LogState
      reads this, log
    {
      if createPowerLog then LogState(log.written, log.failed) else LogState([], false)
    }

    ghost function Abstract(): State
      reads this, board, ud, log
    {
      State(board.State(), board.t, board.slept - began, lastRead, first, readings,
            Cache(ud.batteryLevelPercent, ud.batteryLevelRaw, ud.powerOffFlag), Log(), served, halted)
    }

    constructor (conf: Reader, powermap: PowerMap, board: Board, log: BatteryLog, now: Time)
      requires conf.interval > 0 && conf.gpioDelay > 0 && conf.pgoodDelay > 0
      ensures this.board == board && this.log == log && fresh(ud) && !ud.powerOffFlag
      ensures interval == conf.interval && gpioDelay == conf.gpioDelay && pgoodDelay == conf.pgoodDelay
      ensures this.powermap == powermap
      ensures lastRead == now && createPowerLog == conf.log && !halted
      ensures readings == [] && served == []
    {
      interval, gpioDelay, pgoodDelay := conf.interval, conf.gpioDelay, conf.pgoodDelay;
      this.powermap, this.board, this.log := powermap, board, log;
      ud := new UdServer();
      createPowerLog, lastRead, halted := conf.log, now, false;
      readings, served := [], [];
    }

    method BatteryLevelReadIntervalExpired(now: Time) returns (r: bool)
      modifies this`lastRead
      ensures r == Expired(now, old(lastRead), interval)
      ensures lastRead == if r then now else old(lastRead)
    {
      if !Expired(now, lastRead, interval) {
        return false;
      }
      lastRead := now;
      return true;
    }

    // The terminal state: shutdown has been asked for and the process exits.
    method HaltSystem()
      modifies this`halted
      ensures halted
    {
      halted := true;
    }

    // Reads the battery and hands the pair to the server.
    method UpdateLevel()
      modifies this`batteryLevelRaw, this`batteryLevelPercent, board, ud`batteryLevelRaw, ud`batteryLevelPercent
      ensures var r := Take(Conf(), old(board.State()), old(board.t), lastRead);
              && batteryLevelRaw == ud.batteryLevelRaw == r.raw
              && batteryLevelPercent == ud.batteryLevelPercent == MapBatteryLevel(powermap, r.raw)
              && board.t == r.upto
              && board.slept == old(board.slept) + ReadingSleep(ReadBattery(board.env, board.wiring, old(board.State()),
                                                                            old(board.t)), old(board.t), gpioDelay, pgoodDelay)
              && board.State() == ReadBattery(board.env, board.wiring, old(board.State()), old(board.t)).hw
    {
      hide ReadBattery;
      batteryLevelRaw := ReadBatteryLevelRaw(board, gpioDelay, pgoodDelay);
      batteryLevelPercent := MapBatteryLevel(powermap, batteryLevelRaw);
      ud.SetBatteryLevelPercent(batteryLevelPercent);
      ud.SetBatteryLevelRaw(batteryLevelRaw);
    }

    /** Opens the log when it is wanted, and takes the first reading. */
    method Start(dirWritable: bool, openOk: bool)
      requires !halted && readings == [] && served == [] && !ud.powerOffFlag
      modifies this, board, ud, log
      ensures Valid()
      ensures createPowerLog == (old(createPowerLog) && dirWritable && openOk
                                 && Rotated(old(log.dir)).log != Some(Directory))
      ensures createPowerLog ==> log.dir == Truncate(Rotated(old(log.dir)))
      ensures Abstract() == Started(Conf(), old(board.State()), old(board.t), old(lastRead))
    {
      hide ReadBattery;
      if createPowerLog {
        createPowerLog := log.Open(dirWritable, openOk);
      }
      began := board.slept;
      first := Take(Conf(), board.State(), board.t, lastRead);
      UpdateLevel();
    }

    // Writes one line of the log when it is wanted; a failed write is reported and the daemon goes on.
    method WriteLog(writeOk: bool)
      requires Valid()
      modifies log
      ensures Valid()
      ensures Log() == Logged(Conf(), old(Log()), Line(batteryLevelRaw, batteryLevelPercent), writeOk)
    {
      if createPowerLog {
        var ok := log.Log(Line(batteryLevelRaw, batteryLevelPercent), writeOk);
      }
    }

    method TimedReading(tick: Tick)
      requires Valid() && !halted
      modifies this, board, ud, log
      ensures Valid() && createPowerLog == old(createPowerLog)
      ensures Abstract() == Timed(Conf(), old(Abstract()), tick)
    {
      hide ReadBattery, Expired;
      ghost var s := Abstract();
      var expired := BatteryLevelReadIntervalExpired(tick.now);
      if expired {
        readings := readings + [Take(Conf(), board.State(), board.t, tick.now)];
        UpdateLevel();
        WriteLog(tick.logOk);
        if batteryLevelPercent == 0 {
          HaltSystem();
        }
      }
    }

    method ServeClients(poll: Poll)
      requires Valid()
      modifies this`served, board, ud`powerOffFlag
      ensures Valid()
      ensures Abstract() == Serve(Conf(), old(Abstract()), poll)
    {
      hide RunScript, OffScript, Granted, Stamped, PollReplies, PollOk, PollAsksOff;
      var ok, sent := ud.HandleRequests(poll);
      served := served + Stamped(sent, |readings|);
      if ok && ud.powerOffFlag {
        var status := WriteOff(board);
      }
    }

    /** One turn of the main loop. */
    method Turn(tick: Tick)
      requires Valid() && !halted
      modifies this, board, ud, log
      ensures Valid() && createPowerLog == old(createPowerLog)
      ensures Abstract() == Step(Conf(), old(Abstract()), tick)
    {
      hide Timed, Serve;
      var reqOff := ReadReqOff(board);
      if reqOff != 0 {
        HaltSystem();
        return;
      }
      TimedReading(tick);
      if !halted {
        ServeClients(tick.poll);
      }
    }

    /** The main loop over any finite stretch of turns, stopping when the daemon halts. */
    method DaemonMain(ticks: seq<Tick>, dirWritable: bool, openOk: bool)
      requires !halted && readings == [] && served == [] && !ud.powerOffFlag
      modifies this, board, ud, log
      ensures Valid()
      ensures createPowerLog == (old(createPowerLog) && dirWritable && openOk
                                 && Rotated(old(log.dir)).log != Some(Directory))
      ensures Abstract() == Run(Conf(), Started(Conf(), old(board.State()), old(board.t), old(lastRead)), ticks)
    {
      hide Started, Step;
      Start(dirWritable, openOk);
      ghost var c, s0 := Conf(), Abstract();
      var i := 0;
      while i < |ticks| && !halted
        invariant 0 <= i <= |ticks|
        invariant Valid() && Conf() == c
        invariant Abstract() == Run(c, s0, ticks[..i])
      {
        Turn(ticks[i]);
        assert ticks[..i + 1][..i] == ticks[..i];
        i := i + 1;
      }
      assert ticks[..|ticks|] == ticks;
      if halted {
        HaltedRun(c, s0, ticks, i);
      }
    }
  }
}
