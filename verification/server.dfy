/** The Unix-socket server: a cache of the last reading, and the power-off flag. */
module Server {
  import opened Optional

  const SEND_POWER_LEVEL_PERCENT := 2
  const SEND_POWER_LEVEL_RAW := 3

  datatype Reply = Percent(value: int) | Raw(value: int)

  /** One client connection: whether accept succeeds, the commands read before the stream ends or fails,
      and how many replies can be written before a write fails. */
  datatype Connection = Connection(accepted: bool, commands: seq<int>, writable: nat)

  // What one call of select finds: an error, or possibly a client on each socket.
  datatype Poll = SelectFailed | Ready(battery: Option<Connection>, off: Option<Connection>)

  // The answer to one command; commands the server does not know get none.
  function Answer(command: int, percent: int, raw: int): seq<Reply> {
    if command == SEND_POWER_LEVEL_PERCENT then [Percent(percent)]
    else if command == SEND_POWER_LEVEL_RAW then [Raw(raw)]
    else []
  }

  function Answers(commands: seq<int>, percent: int, raw: int): seq<Reply> {
    if commands == [] then []
    else Answers(commands[..|commands| - 1], percent, raw) + Answer(commands[|commands| - 1], percent, raw)
  }

  // The replies that reach a battery-level client, and whether serving it ended without an exception.
  function Replies(c: Connection, percent: int, raw: int): seq<Reply> {
    var all := Answers(c.commands, percent, raw);
    if !c.accepted then [] else if |all| <= c.writable then all else all[..c.writable]
  }

  predicate ServedWhole(c: Connection, percent: int, raw: int) {
    c.accepted && |Answers(c.commands, percent, raw)| <= c.writable
  }

  // A whole poll: battery clients first; an exception there leaves the off client waiting.
  function PollReplies(p: Poll, percent: int, raw: int): seq<Reply> {
    if p.Ready? && p.battery.Some? then Replies(p.battery.value, percent, raw) else []
  }

  predicate PollOk(p: Poll, percent: int, raw: int) {
    p.Ready?
    && (p.battery.Some? ==> ServedWhole(p.battery.value, percent, raw))
    && (p.off.Some? ==> p.off.value.accepted)
  }

  predicate PollAsksOff(p: Poll, percent: int, raw: int) {
    PollOk(p, percent, raw) && p.off.Some? && p.off.value.commands != []
  }

  lemma {:induction false} AnswersGrow(commands: seq<int>, i: nat, percent: int, raw: int)
    requires i <= |commands|
    ensures Answers(commands[..i], percent, raw) <= Answers(commands, percent, raw)
  {
    if i == |commands| {
      assert commands[..i] == commands;
    } else {
      var before := commands[..|commands| - 1];
      assert before[..i] == commands[..i];
      AnswersGrow(before, i, percent, raw);
    }
  }

  class UdServer {
    var powerOffFlag: bool
    var batteryLevelPercent: int
    var batteryLevelRaw: int

    constructor ()
      ensures !powerOffFlag
    {
      powerOffFlag := false;
    }

    method SetBatteryLevelPercent(percent: int)
      modifies this`batteryLevelPercent
      ensures batteryLevelPercent == percent
    {
      batteryLevelPercent := percent;
    }

    method SetBatteryLevelRaw(raw: int)
      modifies this`batteryLevelRaw
      ensures batteryLevelRaw == raw
    {
      batteryLevelRaw := raw;
    }

    method HandleOffRequests(c: Connection) returns (ok: bool, acknowledged: nat)
      modifies this`powerOffFlag
      ensures ok == c.accepted
      ensures powerOffFlag == (old(powerOffFlag) || (c.accepted && c.commands != []))
      ensures acknowledged == if c.accepted then |c.commands| else 0
    {
      acknowledged := 0;
      if !c.accepted {
        return false, 0;
      }
      var i := 0;
      while i < |c.commands|
        invariant 0 <= i <= |c.commands|
        invariant powerOffFlag == (old(powerOffFlag) || i > 0)
        invariant acknowledged == i
      {
        powerOffFlag := true;
        acknowledged := acknowledged + 1;
        i := i + 1;
      }
      return true, acknowledged;
    }

    method HandleBatteryLevelRequests(c: Connection) returns (ok: bool, sent: seq<Reply>)
      ensures ok == ServedWhole(c, batteryLevelPercent, batteryLevelRaw)
      ensures sent == Replies(c, batteryLevelPercent, batteryLevelRaw)
    {
      sent := [];
      if !c.accepted {
        return false, [];
      }
      var i := 0;
      while i < |c.commands|
        invariant 0 <= i <= |c.commands|
        invariant sent == Answers(c.commands[..i], batteryLevelPercent, batteryLevelRaw)
        invariant |sent| <= c.writable
      {
        var command := c.commands[i];
        assert c.commands[..i + 1][..i] == c.commands[..i];
        AnswersGrow(c.commands, i + 1, batteryLevelPercent, batteryLevelRaw);
        if command == SEND_POWER_LEVEL_PERCENT {
          if |sent| == c.writable { return false, sent; }
          sent := sent + [Percent(batteryLevelPercent)];
        } else if command == SEND_POWER_LEVEL_RAW {
          if |sent| == c.writable { return false, sent; }
          sent := sent + [Raw(batteryLevelRaw)];
        }
        i := i + 1;
      }
      assert c.commands[..i] == c.commands;
      return true, sent;
    }

    method HandleRequests(p: Poll) returns (ok: bool, sent: seq<Reply>)
      modifies this`powerOffFlag
      ensures ok == PollOk(p, batteryLevelPercent, batteryLevelRaw)
      ensures sent == PollReplies(p, batteryLevelPercent, batteryLevelRaw)
      ensures powerOffFlag == (old(powerOffFlag) || PollAsksOff(p, batteryLevelPercent, batteryLevelRaw))
    {
      if p.SelectFailed? {
        return false, [];
      }
      sent := [];
      if p.battery.Some? {
        ok, sent := HandleBatteryLevelRequests(p.battery.value);
        if !ok { return; }
      }
      if p.off.Some? {
        var acknowledged;
        ok, acknowledged := HandleOffRequests(p.off.value);
        return;
      }
      return true, sent;
    }
  }

  predicate Known(command: int) {
    command == SEND_POWER_LEVEL_PERCENT || command == SEND_POWER_LEVEL_RAW
  }

  // How many of the first `i` commands the server answers.
  function KnownBefore(commands: seq<int>, i: nat): nat
    requires i <= |commands|
  {
    if i == 0 then 0 else KnownBefore(commands, i - 1) + if Known(commands[i - 1]) then 1 else 0
  }

  lemma {:induction false} KnownBeforePrefix(commands: seq<int>, before: seq<int>, i: nat)
    requires before <= commands && i <= |before|
    ensures KnownBefore(commands, i) == KnownBefore(before, i)
  {
    if i == 0 {
    } else {
      KnownBeforePrefix(commands, before, i - 1);
    }
  }

  /** The replies are the answers to the recognised commands, one each and in order: command `i`, when
      recognised, is answered by the reply whose place is the number of recognised commands before it. */
  lemma {:induction false} RepliesInOrder(commands: seq<int>, percent: int, raw: int)
    ensures var r := Answers(commands, percent, raw);
            && |r| == KnownBefore(commands, |commands|)
            && forall i: nat | i < |commands| && Known(commands[i]) ::
                 && KnownBefore(commands, i) < |r|
                 && [r[KnownBefore(commands, i)]] == Answer(commands[i], percent, raw)
  {
    if commands == [] {
    } else {
      var before := commands[..|commands| - 1];
      RepliesInOrder(before, percent, raw);
      forall i: nat | i <= |before| ensures KnownBefore(commands, i) == KnownBefore(before, i) {
        KnownBeforePrefix(commands, before, i);
      }
      forall i: nat | i < |before| ensures commands[i] == before[i] {
      }
    }
  }

  // What a recognised command is answered with.
  function ReplyTo(command: int, percent: int, raw: int): Reply
    requires Known(command)
  {
    if command == 2 then Percent(percent) else Raw(raw)
  }

  // The replies go to the recognised commands in order until no more can be written.
  ghost predicate Answered(commands: seq<int>, writable: nat, replies: seq<Reply>, percent: int, raw: int) {
    && (var known := KnownBefore(commands, |commands|); |replies| == if known <= writable then known else writable)
    && forall i: nat | i < |commands| && Known(commands[i]) && KnownBefore(commands, i) < |replies| ::
         replies[KnownBefore(commands, i)] == ReplyTo(commands[i], percent, raw)
  }

  /** What a poll sends: nothing without an accepted client on the battery socket; to such a client one reply for
      each recognised command, in order, as many as can be written. */
  lemma PollRepliesInOrder(p: Poll, percent: int, raw: int)
    ensures var r := PollReplies(p, percent, raw);
            if p.Ready? && p.battery.Some? && p.battery.value.accepted
            then Answered(p.battery.value.commands, p.battery.value.writable, r, percent, raw)
            else r == []
  {
    if p.Ready? && p.battery.Some? {
      RepliesInOrder(p.battery.value.commands, percent, raw);
    }
  }

  // Every recognised command of the client can be answered.
  predicate AllWritten(c: Connection) {
    c.accepted && KnownBefore(c.commands, |c.commands|) <= c.writable
  }

  /** A poll ends without an exception if and only if select succeeds, the battery client, if there is one, gets
      all its answers, and the off client, if there is one, is accepted; it asks for power off if and only if
      there is such an off client and it sends a command. */
  lemma PollEnds(p: Poll, percent: int, raw: int)
    ensures var battery := p.Ready? && (p.battery.Some? ==> AllWritten(p.battery.value));
            && (PollOk(p, percent, raw) <==> battery && (p.off.Some? ==> p.off.value.accepted))
            && (PollAsksOff(p, percent, raw)
                <==> battery && p.off.Some? && p.off.value.accepted && |p.off.value.commands| > 0)
  {
    if p.Ready? && p.battery.Some? {
      RepliesInOrder(p.battery.value.commands, percent, raw);
    }
  }

  // Every reply of a poll repeats the cached pair.
  lemma {:induction false} AnswersFromCache(commands: seq<int>, percent: int, raw: int)
    ensures forall r | r in Answers(commands, percent, raw) :: r == Percent(percent) || r == Raw(raw)
  {
    if commands == [] {
    } else {
      AnswersFromCache(commands[..|commands| - 1], percent, raw);
    }
  }

  lemma RepliesFromCache(p: Poll, percent: int, raw: int)
    ensures forall r | r in PollReplies(p, percent, raw) :: r == Percent(percent) || r == Raw(raw)
  {
    if p.Ready? && p.battery.Some? {
      AnswersFromCache(p.battery.value.commands, percent, raw);
      forall r | r in PollReplies(p, percent, raw) ensures r in Answers(p.battery.value.commands, percent, raw) {
      }
    }
  }
}
