/** The battery options of the command line, answered by a running daemon or by reading the board. */
module CommandLine {
  import opened Gpio
  import opened Measurement
  import opened Server
  import opened DaemonSpec

  const COMM_ERROR := -2
  const SEND_OFF := 1

  datatype Options = Options(batteryLevelRaw: bool, batteryLevel: bool)

  datatype OutLine = RawPowerLevel(raw: int) | PercentagePowerLevel(percent: int) | ChargingDots

  // How far a client's call gets: its command may not reach the server, or the reply may not be readable.
  datatype Link = Unreachable | ReplyLost | Healthy

  // What is printed when the daemon path has received these two values.
  function DaemonLines(o: Options, raw: int, percent: int): seq<OutLine> {
    (if o.batteryLevelRaw then [if raw >= 0 then RawPowerLevel(raw) else ChargingDots] else [])
    + (if o.batteryLevel then [if percent >= 0 then PercentagePowerLevel(percent) else ChargingDots] else [])
  }

  // What is printed when the board is read directly.
  function DirectLines(o: Options, pm: PowerMap, raw: RawLevel): seq<OutLine> {
    if raw < 0 then [ChargingDots]
    else (if o.batteryLevelRaw then [RawPowerLevel(raw)] else [])
         + (if o.batteryLevel then [PercentagePowerLevel(pm[raw])] else [])
  }

  /** One command of the client. Commands it does not know, and calls that fail on the way, give
      ROCPMD_COMM_ERROR; the server still acts on a command that has reached it. The off command is answered
      with a single byte, which leaves most of the client's integer undefined: `leftover` is what it then holds. */
  method SendCommand(ud: UdServer, command: int, link: Link, leftover: int) returns (level: int)
    modifies ud`powerOffFlag
    ensures command !in {SEND_OFF, SEND_POWER_LEVEL_PERCENT, SEND_POWER_LEVEL_RAW} || !link.Healthy?
            ==> level == COMM_ERROR
    ensures link.Healthy? && command == SEND_POWER_LEVEL_PERCENT ==> level == ud.batteryLevelPercent
    ensures link.Healthy? && command == SEND_POWER_LEVEL_RAW ==> level == ud.batteryLevelRaw
    ensures link.Healthy? && command == SEND_OFF ==> level == leftover
    ensures ud.powerOffFlag == (old(ud.powerOffFlag) || (!link.Unreachable? && command == SEND_OFF))
  {
    if command != SEND_OFF && command != SEND_POWER_LEVEL_PERCENT && command != SEND_POWER_LEVEL_RAW {
      return COMM_ERROR;
    }
    if link.Unreachable? {
      return COMM_ERROR;
    }
    if command == SEND_OFF {
      var ok, acknowledged := ud.HandleOffRequests(Connection(true, [command], 1));
      level := leftover;
    } else {
      assert [command][..0] == [];
      assert Answers([command], ud.batteryLevelPercent, ud.batteryLevelRaw)
          == Answer(command, ud.batteryLevelPercent, ud.batteryLevelRaw);
      var ok, sent := ud.HandleBatteryLevelRequests(Connection(true, [command], 1));
      level := sent[0].value;
    }
    if link.ReplyLost? {
      level := COMM_ERROR;
    }
  }

  /** The daemon path: two separate requests, `first` and `second` being the server as each one finds it. A
      request that fails prints the charging line. */
  method PrintFromDaemon(first: UdServer, firstLink: Link, second: UdServer, secondLink: Link, o: Options)
    returns (out: seq<OutLine>)
    modifies first`powerOffFlag, second`powerOffFlag
    ensures out == DaemonLines(o, if firstLink.Healthy? then first.batteryLevelRaw else COMM_ERROR,
                                  if secondLink.Healthy? then second.batteryLevelPercent else COMM_ERROR)
    ensures |out| == (if o.batteryLevelRaw then 1 else 0) + (if o.batteryLevel then 1 else 0)
    ensures o.batteryLevelRaw ==>
              out[0] == if firstLink.Healthy? && first.batteryLevelRaw >= 0 then RawPowerLevel(first.batteryLevelRaw)
                        else ChargingDots
    ensures o.batteryLevel ==>
              out[|out| - 1] == if secondLink.Healthy? && second.batteryLevelPercent >= 0
                                then PercentagePowerLevel(second.batteryLevelPercent) else ChargingDots
    ensures first.powerOffFlag == old(first.powerOffFlag) && second.powerOffFlag == old(second.powerOffFlag)
  {
    out := [];
    if o.batteryLevelRaw {
      var raw := SendCommand(first, SEND_POWER_LEVEL_RAW, firstLink, 0);
      out := out + [if raw >= 0 then RawPowerLevel(raw) else ChargingDots];
    }
    if o.batteryLevel {
      var percent := SendCommand(second, SEND_POWER_LEVEL_PERCENT, secondLink, 0);
      out := out + [if percent >= 0 then PercentagePowerLevel(percent) else ChargingDots];
    }
  }

  method PrintFromSysfs(b: Board, gpioDelay: nat, pgoodDelay: nat, pm: PowerMap, o: Options)
    returns (out: seq<OutLine>)
    modifies b
    ensures out == DirectLines(o, pm, ReadBattery(b.env, b.wiring, old(b.State()), old(b.t)).value)
    ensures var raw := ReadBattery(b.env, b.wiring, old(b.State()), old(b.t)).value;
            && (raw < 0 ==> out == [ChargingDots])
            && (raw >= 0 ==>
                  && |out| == (if o.batteryLevelRaw then 1 else 0) + (if o.batteryLevel then 1 else 0)
                  && (o.batteryLevelRaw ==> out[0] == RawPowerLevel(raw))
                  && (o.batteryLevel ==> out[|out| - 1] == PercentagePowerLevel(pm[raw])))
  {
    hide ReadBattery;
    var raw := ReadBatteryLevelRaw(b, gpioDelay, pgoodDelay);
    if raw < 0 {
      return [ChargingDots];
    }
    out := [];
    if o.batteryLevelRaw {
      out := out + [RawPowerLevel(raw)];
    }
    if o.batteryLevel {
      out := out + [PercentagePowerLevel(pm[raw])];
    }
  }

  /** For one reading, both paths print the same lines except in two cases: both options at once during
      charging (the daemon path says so twice), and a negative powermap entry (which the daemon path takes
      for charging and the direct path prints). */
  lemma PathsAgree(o: Options, pm: PowerMap, raw: RawLevel)
    requires o.batteryLevelRaw || o.batteryLevel
    ensures DaemonLines(o, raw, MapBatteryLevel(pm, raw)) == DirectLines(o, pm, raw)
       <==> if raw < 0 then !(o.batteryLevelRaw && o.batteryLevel) else !(o.batteryLevel && pm[raw] < 0)
  {
    var d, s := DaemonLines(o, raw, MapBatteryLevel(pm, raw)), DirectLines(o, pm, raw);
    if raw < 0 && o.batteryLevelRaw && o.batteryLevel {
      assert |d| == 2 && |s| == 1;
    } else if raw >= 0 && o.batteryLevel {
      assert d[|d| - 1] == s[|s| - 1] <==> pm[raw] >= 0;
    }
  }
}
