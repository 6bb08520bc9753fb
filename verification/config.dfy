/** Loading the configuration file, from an already parsed list of documents, and its validators. */
module Config {
  import opened Hardware
  import opened Optional
  import opened PinSetup

  datatype Role = CsB | Off | PgoodB | UdB | ReqOffB | D1B | D2B
  datatype Resistor = PullUp | PullDown | NoResistor

  // A parsed item of the GPIOS section, and what the daemon keeps of it.
  datatype GpioNode = GpioNode(pin: int, role: string, direction: Option<string>, resistor: Option<string>)
  datatype Gpio = Gpio(pin: int, role: Role, direction: Option<PinMode>, resistor: Option<Resistor>)

  datatype ReaderNode = ReaderNode(interval: int, gpioDelay: int, pgoodDelay: int, log: string)
  datatype Reader = Reader(interval: int, gpioDelay: int, pgoodDelay: int, log: bool)

  // One key of a document with its value; sections the daemon never uses again keep only what is checked.
  datatype Entry =
    | Gpios(nodes: seq<GpioNode>)
    | GpiosNotASequence
    | Powermap(values: seq<int>)
    | BatteryLevelReader(reader: ReaderNode)
    | WebSocket(port: int, directoryReadable: bool)
    | Socket(port: int)
    | OtherKey

  datatype Error = BadSequence | BadPin | BadRole | BadDirection | BadResistor | BadPort | BadDirectory | BadDelay

  const LEGAL_PINS: seq<int> :=
    [2, 3, 4, 17, 27, 22, 10, 9, 11, 5, 6, 13, 19, 26, 14, 15, 18, 23, 24, 25, 8, 7, 12, 16, 20, 21]

  function RoleOf(s: string): Option<Role> {
    if s == "CS_B" then Some(CsB)
    else if s == "OFF" then Some(Off)
    else if s == "PGOOD_B" then Some(PgoodB)
    else if s == "UD_B" then Some(UdB)
    else if s == "REQ_OFF_B" then Some(ReqOffB)
    else if s == "D1_B" then Some(D1B)
    else if s == "D2_B" then Some(D2B)
    else None
  }

  function DirectionOf(s: string): Option<PinMode> {
    if s == "input" then Some(Input) else if s == "output" then Some(Output) else None
  }

  function ResistorOf(s: string): Option<Resistor> {
    if s == "pull_up" then Some(PullUp)
    else if s == "pull_down" then Some(PullDown)
    else if s == "none" then Some(NoResistor)
    else None
  }

  // ---------------------------------------------------------------- what a configuration means

  function CheckNode(n: GpioNode): Option<Error> {
    if n.pin !in LEGAL_PINS then Some(BadPin)
    else if RoleOf(n.role).None? then Some(BadRole)
    else if n.direction.Some? && DirectionOf(n.direction.value).None? then Some(BadDirection)
    else if n.resistor.Some? && ResistorOf(n.resistor.value).None? then Some(BadResistor)
    else None
  }

  function ToGpio(n: GpioNode): Gpio
    requires CheckNode(n).None?
  {
    Gpio(n.pin, RoleOf(n.role).value,
         if n.direction.Some? then DirectionOf(n.direction.value) else None,
         if n.resistor.Some? then ResistorOf(n.resistor.value) else None)
  }

  function CheckNodes(nodes: seq<GpioNode>): Option<Error> {
    if nodes == [] then None
    else
      var before := CheckNodes(nodes[..|nodes| - 1]);
      if before.Some? then before else CheckNode(nodes[|nodes| - 1])
  }

  function CheckReader(r: ReaderNode): Option<Error> {
    if r.interval <= 0 || r.gpioDelay <= 0 || r.pgoodDelay <= 0 then Some(BadDelay) else None
  }

  function CheckEntry(e: Entry): Option<Error> {
    match e
    case Gpios(nodes) => if |nodes| > 40 then Some(BadSequence) else CheckNodes(nodes)
    case GpiosNotASequence => Some(BadSequence)
    case Powermap(_) => None
    case BatteryLevelReader(r) => CheckReader(r)
    case WebSocket(port, readable) =>
      if !(0 <= port <= 0xFFFF) then Some(BadPort) else if !readable then Some(BadDirectory) else None
    case Socket(port) => if !(0 <= port <= 0xFFFF) then Some(BadPort) else None
    case OtherKey => None
  }

  // The first error of a list of entries, in file order.
  function CheckEntries(es: seq<Entry>): Option<Error> {
    if es == [] then None
    else
      var before := CheckEntries(es[..|es| - 1]);
      if before.Some? then before else CheckEntry(es[|es| - 1])
  }

  function NodesOf(es: seq<Entry>): seq<GpioNode> {
    if es == [] then []
    else
      var last := es[|es| - 1];
      NodesOf(es[..|es| - 1]) + if last.Gpios? then last.nodes else []
  }

  function PowermapOf(es: seq<Entry>): seq<int> {
    if es == [] then []
    else
      var last := es[|es| - 1];
      PowermapOf(es[..|es| - 1]) + if last.Powermap? then last.values else []
  }

  function ReaderOf(es: seq<Entry>): Option<Reader> {
    if es == [] then None
    else
      var last := es[|es| - 1];
      if last.BatteryLevelReader? then
        Some(Reader(last.reader.interval, last.reader.gpioDelay, last.reader.pgoodDelay, last.reader.log == "true"))
      else ReaderOf(es[..|es| - 1])
  }

  function Flatten(docs: seq<seq<Entry>>): seq<Entry> {
    if docs == [] then [] else Flatten(docs[..|docs| - 1]) + docs[|docs| - 1]
  }

  // The last node with role `r`, if there is one.
  ghost predicate IsLast(nodes: seq<GpioNode>, r: Role, i: nat) {
    i < |nodes| && RoleOf(nodes[i].role) == Some(r)
    && forall j | i < j < |nodes| :: RoleOf(nodes[j].role) != Some(r)
  }

  ghost predicate Assigned(nodes: seq<GpioNode>, r: Role, got: Option<Gpio>) {
    match got
    case None => forall i | 0 <= i < |nodes| :: RoleOf(nodes[i].role) != Some(r)
    case Some(g) => exists i: nat :: IsLast(nodes, r, i) && CheckNode(nodes[i]).None? && g == ToGpio(nodes[i])
  }

  lemma AssignedNext(nodes: seq<GpioNode>, r: Role, got: Option<Gpio>, n: GpioNode)
    requires Assigned(nodes, r, got) && CheckNode(n).None?
    ensures Assigned(nodes + [n], r, if RoleOf(n.role) == Some(r) then Some(ToGpio(n)) else got)
  {
    var all := nodes + [n];
    if RoleOf(n.role) == Some(r) {
      assert IsLast(all, r, |nodes|);
    } else if got.Some? {
      var i: nat :| IsLast(nodes, r, i) && CheckNode(nodes[i]).None? && got.value == ToGpio(nodes[i]);
      assert IsLast(all, r, i) && all[i] == nodes[i];
    }
  }

  // ---------------------------------------------------------------- the same, by position

  // The legal pins are the user pins of the header, BCM 2 to 27.
  lemma LegalPins(pin: int)
    ensures pin in LEGAL_PINS <==> 2 <= pin <= 27
  {
    assert forall i | 0 <= i < |LEGAL_PINS| :: 2 <= LEGAL_PINS[i] <= 27;
    var place := [0, 1, 2, 9, 10, 21, 20, 7, 6, 8, 22, 11, 14, 15, 23, 3, 16, 12, 24, 25, 5, 17, 18, 19, 13, 4];
    if 2 <= pin <= 27 {
      assert LEGAL_PINS[place[pin - 2]] == pin;
    }
  }

  /** The error of a node: pin, role, direction and resistor are checked in this order. */
  lemma NodeErrors(n: GpioNode)
    ensures var pinOk := 2 <= n.pin <= 27;
            var roleOk := n.role in {"CS_B", "OFF", "PGOOD_B", "UD_B", "REQ_OFF_B", "D1_B", "D2_B"};
            var directionOk := n.direction.Some? ==> n.direction.value in {"input", "output"};
            var resistorOk := n.resistor.Some? ==> n.resistor.value in {"pull_up", "pull_down", "none"};
            CheckNode(n) == if !pinOk then Some(BadPin) else if !roleOk then Some(BadRole)
                            else if !directionOk then Some(BadDirection) else if !resistorOk then Some(BadResistor)
                            else None
  {
    LegalPins(n.pin);
  }

  /** What is kept of an accepted node: each text becomes the value of its name. */
  lemma NodeKept(n: GpioNode)
    requires CheckNode(n).None?
    ensures var g := ToGpio(n);
            && g.pin == n.pin
            && n.role == (match g.role case CsB => "CS_B" case Off => "OFF" case PgoodB => "PGOOD_B" case UdB => "UD_B"
                          case ReqOffB => "REQ_OFF_B" case D1B => "D1_B" case D2B => "D2_B")
            && n.direction == (match g.direction case None => None case Some(Input) => Some("input")
                               case Some(Output) => Some("output"))
            && n.resistor == (match g.resistor case None => None case Some(PullUp) => Some("pull_up")
                              case Some(PullDown) => Some("pull_down") case Some(NoResistor) => Some("none"))
  {
  }

  /** The error of a list is that of its first faulty member. */
  lemma {:induction false} FirstNodeError(nodes: seq<GpioNode>)
    ensures CheckNodes(nodes).None? <==> forall i | 0 <= i < |nodes| :: CheckNode(nodes[i]).None?
    ensures forall i | 0 <= i < |nodes| && CheckNode(nodes[i]).Some? && (forall j | 0 <= j < i :: CheckNode(nodes[j]).None?) ::
              CheckNodes(nodes) == CheckNode(nodes[i])
  {
    hide CheckNode;
    if nodes == [] {
    } else {
      var before := nodes[..|nodes| - 1];
      FirstNodeError(before);
      assert forall i | 0 <= i < |before| :: before[i] == nodes[i];
    }
  }

  lemma {:induction false} FirstEntryError(es: seq<Entry>)
    ensures CheckEntries(es).None? <==> forall i | 0 <= i < |es| :: CheckEntry(es[i]).None?
    ensures forall i | 0 <= i < |es| && CheckEntry(es[i]).Some? && (forall j | 0 <= j < i :: CheckEntry(es[j]).None?) ::
              CheckEntries(es) == CheckEntry(es[i])
  {
    hide CheckEntry;
    if es == [] {
    } else {
      var before := es[..|es| - 1];
      FirstEntryError(before);
      assert forall i | 0 <= i < |before| :: before[i] == es[i];
    }
  }

  /** An entry is refused for these reasons alone. */
  lemma EntryErrors(e: Entry)
    ensures CheckEntry(e).None? <==>
            && !e.GpiosNotASequence?
            && (e.Gpios? ==> |e.nodes| <= 40 && forall i | 0 <= i < |e.nodes| :: CheckNode(e.nodes[i]).None?)
            && (e.BatteryLevelReader? ==> e.reader.interval > 0 && e.reader.gpioDelay > 0 && e.reader.pgoodDelay > 0)
            && (e.WebSocket? ==> 0 <= e.port <= 65535 && e.directoryReadable)
            && (e.Socket? ==> 0 <= e.port <= 65535)
  {
    if e.Gpios? {
      FirstNodeError(e.nodes);
    }
  }

  // No reader section comes after entry `i`.
  ghost predicate NoReaderAfter(es: seq<Entry>, i: int) {
    forall j | i < j < |es| && j >= 0 :: !es[j].BatteryLevelReader?
  }

  /** The reader that counts is the last one in the file, each value under its own name. */
  lemma {:induction false} ReaderIsTheLast(es: seq<Entry>, i: nat)
    requires i < |es| && es[i].BatteryLevelReader? && NoReaderAfter(es, i)
    ensures ReaderOf(es).Some?
    ensures var r, text := ReaderOf(es).value, es[i].reader;
            && r.interval == text.interval && r.gpioDelay == text.gpioDelay && r.pgoodDelay == text.pgoodDelay
            && (r.log <==> text.log == "true")
  {
    if i == |es| - 1 {
    } else {
      assert !es[|es| - 1].BatteryLevelReader?;
      ReaderIsTheLast(es[..|es| - 1], i);
    }
  }

  lemma {:induction false} NoReader(es: seq<Entry>)
    ensures ReaderOf(es).None? <==> NoReaderAfter(es, -1)
  {
    if es == [] {
    } else {
      var before := es[..|es| - 1];
      NoReader(before);
      assert NoReaderAfter(es, -1) <==> NoReaderAfter(before, -1) && !es[|es| - 1].BatteryLevelReader?;
    }
  }

  // How many powermap elements, and how many nodes, the first `i` entries hold.
  function ElementsBefore(es: seq<Entry>, i: nat): nat
    requires i <= |es|
  {
    if i == 0 then 0 else ElementsBefore(es, i - 1) + if es[i - 1].Powermap? then |es[i - 1].values| else 0
  }

  function NodesBefore(es: seq<Entry>, i: nat): nat
    requires i <= |es|
  {
    if i == 0 then 0 else NodesBefore(es, i - 1) + if es[i - 1].Gpios? then |es[i - 1].nodes| else 0
  }

  lemma {:induction false} BeforeInPrefix(es: seq<Entry>, before: seq<Entry>, i: nat)
    requires before <= es && i <= |before|
    ensures ElementsBefore(es, i) == ElementsBefore(before, i) && NodesBefore(es, i) == NodesBefore(before, i)
  {
    if i == 0 {
    } else {
      BeforeInPrefix(es, before, i - 1);
    }
  }

  lemma {:induction false} NothingElse(es: seq<Entry>)
    ensures |PowermapOf(es)| == ElementsBefore(es, |es|) && |NodesOf(es)| == NodesBefore(es, |es|)
  {
    if es == [] {
    } else {
      NothingElse(es[..|es| - 1]);
      BeforeInPrefix(es, es[..|es| - 1], |es| - 1);
    }
  }

  /** Element `k` of powermap section `i` stands behind all the elements of the sections before it, and there
      are no others. */
  lemma {:induction false} PowermapByPosition(es: seq<Entry>, i: nat, k: nat)
    requires i < |es| && es[i].Powermap? && k < |es[i].values|
    ensures |PowermapOf(es)| == ElementsBefore(es, |es|)
    ensures ElementsBefore(es, i) + k < |PowermapOf(es)| && PowermapOf(es)[ElementsBefore(es, i) + k] == es[i].values[k]
  {
    var before := es[..|es| - 1];
    NothingElse(es);
    NothingElse(before);
    BeforeInPrefix(es, before, |before|);
    hide ElementsBefore;
    if i < |before| {
      BeforeInPrefix(es, before, i);
      PowermapByPosition(before, i, k);
    }
  }

  /** The same for the nodes of the GPIO sections. */
  lemma {:induction false} NodesByPosition(es: seq<Entry>, i: nat, k: nat)
    requires i < |es| && es[i].Gpios? && k < |es[i].nodes|
    ensures |NodesOf(es)| == NodesBefore(es, |es|)
    ensures NodesBefore(es, i) + k < |NodesOf(es)| && NodesOf(es)[NodesBefore(es, i) + k] == es[i].nodes[k]
  {
    var before := es[..|es| - 1];
    NothingElse(es);
    NothingElse(before);
    BeforeInPrefix(es, before, |before|);
    hide NodesBefore;
    if i < |before| {
      BeforeInPrefix(es, before, i);
      NodesByPosition(before, i, k);
    }
  }

  // How many entries the first `d` documents hold.
  function EntriesBefore(docs: seq<seq<Entry>>, d: nat): nat
    requires d <= |docs|
  {
    if d == 0 then 0 else EntriesBefore(docs, d - 1) + |docs[d - 1]|
  }

  lemma {:induction false} EntriesInPrefix(docs: seq<seq<Entry>>, before: seq<seq<Entry>>, d: nat)
    requires before <= docs && d <= |before|
    ensures EntriesBefore(docs, d) == EntriesBefore(before, d)
  {
    if d == 0 {
    } else {
      EntriesInPrefix(docs, before, d - 1);
    }
  }

  lemma {:induction false} NoOtherEntries(docs: seq<seq<Entry>>)
    ensures |Flatten(docs)| == EntriesBefore(docs, |docs|)
  {
    if docs == [] {
    } else {
      NoOtherEntries(docs[..|docs| - 1]);
      EntriesInPrefix(docs, docs[..|docs| - 1], |docs| - 1);
    }
  }

  /** And for the entries of the documents. */
  lemma {:induction false} EntriesByPosition(docs: seq<seq<Entry>>, d: nat, k: nat)
    requires d < |docs| && k < |docs[d]|
    ensures |Flatten(docs)| == EntriesBefore(docs, |docs|)
    ensures EntriesBefore(docs, d) + k < |Flatten(docs)| && Flatten(docs)[EntriesBefore(docs, d) + k] == docs[d][k]
  {
    var before := docs[..|docs| - 1];
    NoOtherEntries(docs);
    NoOtherEntries(before);
    EntriesInPrefix(docs, before, |before|);
    hide EntriesBefore;
    if d < |before| {
      EntriesInPrefix(docs, before, d);
      EntriesByPosition(before, d, k);
    }
  }

  // ---------------------------------------------------------------- the loader

  datatype Parsed = Good(gpio: Gpio) | Bad(error: Error)

  method ValidateGpioPin(pin: int) returns (ok: bool)
    ensures ok <==> pin in LEGAL_PINS
    ensures ok <==> 2 <= pin <= 27
  {
    LegalPins(pin);
    for i := 0 to |LEGAL_PINS|
      invariant forall j | 0 <= j < i :: LEGAL_PINS[j] != pin
    {
      if pin == LEGAL_PINS[i] {
        return true;
      }
    }
    return false;
  }

  method ParseNode(n: GpioNode) returns (p: Parsed)
    ensures match CheckNode(n) case Some(e) => p == Bad(e) case None => p == Good(ToGpio(n))
  {
    var legal := ValidateGpioPin(n.pin);
    if !legal { return Bad(BadPin); }
    var role := RoleOf(n.role);
    if role.None? { return Bad(BadRole); }
    var direction := None;
    if n.direction.Some? {
      direction := DirectionOf(n.direction.value);
      if direction.None? { return Bad(BadDirection); }
    }
    var resistor := None;
    if n.resistor.Some? {
      resistor := ResistorOf(n.resistor.value);
      if resistor.None? { return Bad(BadResistor); }
    }
    return Good(Gpio(n.pin, role.value, direction, resistor));
  }

  lemma NothingLoaded()
    ensures NodesOf([]) == [] && PowermapOf([]) == [] && ReaderOf([]) == None
  {
  }

  lemma {:induction false} ErrorStays(nodes: seq<GpioNode>, i: nat)
    requires i <= |nodes| && CheckNodes(nodes[..i]).Some?
    ensures CheckNodes(nodes) == CheckNodes(nodes[..i])
  {
    if i == |nodes| {
      assert nodes[..i] == nodes;
    } else {
      assert nodes[..|nodes| - 1][..i] == nodes[..i];
      ErrorStays(nodes[..|nodes| - 1], i);
    }
  }

  lemma {:induction false} FirstErrorStays(es: seq<Entry>, before: seq<Entry>)
    requires before <= es && CheckEntries(before).Some?
    ensures CheckEntries(es) == CheckEntries(before)
  {
    if before == es {
    } else {
      FirstErrorStays(es[..|es| - 1], before);
    }
  }

  lemma {:induction false} FlattenPrefix(docs: seq<seq<Entry>>, d: nat)
    requires d <= |docs|
    ensures Flatten(docs[..d]) <= Flatten(docs)
  {
    if d == |docs| {
      assert docs[..d] == docs;
    } else {
      assert docs[..|docs| - 1][..d] == docs[..d];
      FlattenPrefix(docs[..|docs| - 1], d);
    }
  }

  class ConfigFile {
    var off: Option<Gpio>
    var reqOff: Option<Gpio>
    var cs: Option<Gpio>
    var ud: Option<Gpio>
    var pgood: Option<Gpio>
    var d1: Option<Gpio>
    var d2: Option<Gpio>
    var powermap: seq<int>
    var reader: Option<Reader>

    function GetGpioByRole(r: Role): Option<Gpio>
      reads this`off, this`reqOff, this`cs, this`ud, this`pgood, this`d1, this`d2
    {
      match r
      case Off => off
      case ReqOffB => reqOff
      case CsB => cs
      case UdB => ud
      case PgoodB => pgood
      case D1B => d1
      case D2B => d2
    }

    // The roles, powermap and reader are those of the entries read so far.
    ghost predicate Holds(nodes: seq<GpioNode>, pm: seq<int>, rd: Option<Reader>)
      reads this
    {
      && (forall r :: Assigned(nodes, r, GetGpioByRole(r)))
      && powermap == pm
      && reader == rd
    }

    constructor ()
      ensures Holds([], [], None)
    {
      off, reqOff, cs, ud, pgood, d1, d2 := None, None, None, None, None, None, None;
      powermap, reader := [], None;
    }

    method Store(gpio: Gpio)
      modifies this`off, this`reqOff, this`cs, this`ud, this`pgood, this`d1, this`d2
      ensures forall r :: GetGpioByRole(r) == if r == gpio.role then Some(gpio) else old(GetGpioByRole(r))
    {
      match gpio.role {
        case Off => off := Some(gpio);
        case ReqOffB => reqOff := Some(gpio);
        case CsB => cs := Some(gpio);
        case UdB => ud := Some(gpio);
        case PgoodB => pgood := Some(gpio);
        case D1B => d1 := Some(gpio);
        case D2B => d2 := Some(gpio);
      }
    }

    method AddGpio(n: GpioNode, ghost nodes: seq<GpioNode>) returns (err: Option<Error>)
      requires Holds(nodes, powermap, reader)
      modifies this`off, this`reqOff, this`cs, this`ud, this`pgood, this`d1, this`d2
      ensures err == CheckNode(n)
      ensures err.None? ==> Holds(nodes + [n], powermap, reader)
    {
      hide Assigned;
      var parsed := ParseNode(n);
      if parsed.Bad? { return Some(parsed.error); }
      Store(parsed.gpio);
      forall r ensures Assigned(nodes + [n], r, GetGpioByRole(r)) {
        AssignedNext(nodes, r, old(GetGpioByRole(r)), n);
      }
      return None;
    }

    method AddGpios(nodes: seq<GpioNode>, ghost before: seq<GpioNode>) returns (err: Option<Error>)
      requires Holds(before, powermap, reader)
      modifies this`off, this`reqOff, this`cs, this`ud, this`pgood, this`d1, this`d2
      ensures err == CheckNodes(nodes)
      ensures err.None? ==> Holds(before + nodes, powermap, reader)
    {
      assert before + nodes[..0] == before;
      for i := 0 to |nodes|
        invariant CheckNodes(nodes[..i]).None?
        invariant Holds(before + nodes[..i], powermap, reader)
      {
        assert nodes[..i + 1][..i] == nodes[..i];
        assert before + nodes[..i] + [nodes[i]] == before + nodes[..i + 1];
        err := AddGpio(nodes[i], before + nodes[..i]);
        if err.Some? {
          ErrorStays(nodes, i + 1);
          return;
        }
      }
      assert nodes[..|nodes|] == nodes;
      return None;
    }

    method AddEntry(e: Entry, ghost es: seq<Entry>) returns (err: Option<Error>)
      requires Holds(NodesOf(es), PowermapOf(es), ReaderOf(es))
      modifies this
      ensures err == CheckEntry(e)
      ensures err.None? ==> Holds(NodesOf(es + [e]), PowermapOf(es + [e]), ReaderOf(es + [e]))
    {
      assert (es + [e])[..|es|] == es;
      assert !e.Gpios? ==> NodesOf(es + [e]) == NodesOf(es);
      assert !e.Powermap? ==> PowermapOf(es + [e]) == PowermapOf(es);
      match e {
        case Gpios(nodes) =>
          if |nodes| > 40 { return Some(BadSequence); }
          err := AddGpios(nodes, NodesOf(es));
        case GpiosNotASequence =>
          return Some(BadSequence);
        case Powermap(values) =>
          powermap := powermap + values;
          return None;
        case BatteryLevelReader(r) =>
          if r.interval <= 0 || r.gpioDelay <= 0 || r.pgoodDelay <= 0 { return Some(BadDelay); }
          reader := Some(Reader(r.interval, r.gpioDelay, r.pgoodDelay, r.log == "true"));
          return None;
        case WebSocket(port, readable) =>
          if !(0 <= port <= 0xFFFF) { return Some(BadPort); }
          if !readable { return Some(BadDirectory); }
          return None;
        case Socket(port) =>
          if !(0 <= port <= 0xFFFF) { return Some(BadPort); }
          return None;
        case OtherKey =>
          return None;
      }
    }

    method LoadDocument(doc: seq<Entry>, ghost before: seq<Entry>) returns (err: Option<Error>)
      requires CheckEntries(before).None? && Holds(NodesOf(before), PowermapOf(before), ReaderOf(before))
      modifies this
      ensures err == CheckEntries(before + doc)
      ensures err.None? ==>
                var es := before + doc; Holds(NodesOf(es), PowermapOf(es), ReaderOf(es))
    {
      hide Assigned, CheckEntry, NodesOf, PowermapOf, ReaderOf;
      assert before + doc[..0] == before;
      for i := 0 to |doc|
        invariant var es := before + doc[..i];
                  CheckEntries(es).None? && Holds(NodesOf(es), PowermapOf(es), ReaderOf(es))
      {
        ghost var es := before + doc[..i];
        err := AddEntry(doc[i], es);
        assert before + doc[..i + 1] == es + [doc[i]];
        assert (es + [doc[i]])[..|es|] == es;
        if err.Some? {
          FirstErrorStays(before + doc, es + [doc[i]]);
          return;
        }
      }
      assert doc[..|doc|] == doc;
      return None;
    }

    /** Reads every entry of every document. It reports the first error in file order; without one, every
        role holds its last node and the powermap is the concatenation of all its sections. */
    method Load(docs: seq<seq<Entry>>) returns (err: Option<Error>)
      requires Holds([], [], None)
      modifies this
      ensures err == CheckEntries(Flatten(docs))
      ensures err.None? ==>
                var es := Flatten(docs); Holds(NodesOf(es), PowermapOf(es), ReaderOf(es))
    {
      hide Assigned, CheckEntry, NodesOf, PowermapOf, ReaderOf;
      assert Flatten(docs[..0]) == [] && NodesOf([]) == [] && PowermapOf([]) == [] && ReaderOf([]) == None by {
        NothingLoaded();
      }
      for d := 0 to |docs|
        invariant var es := Flatten(docs[..d]);
                  CheckEntries(es).None? && Holds(NodesOf(es), PowermapOf(es), ReaderOf(es))
      {
        assert docs[..d + 1][..d] == docs[..d];
        err := LoadDocument(docs[d], Flatten(docs[..d]));
        if err.Some? {
          FlattenPrefix(docs, d + 1);
          FirstErrorStays(Flatten(docs), Flatten(docs[..d + 1]));
          return;
        }
      }
      assert docs[..|docs|] == docs;
      return None;
    }
  }

  // ---------------------------------------------------------------- validators

  ghost predicate NoSharedPin(gpios: seq<Gpio>) {
    forall i, j | 0 <= i < j < |gpios| :: gpios[i].pin != gpios[j].pin
  }

  /** Compares every ordered pair of different indices; it accepts exactly the lists without a shared pin. */
  method ValidateGpioDuplicatePins(gpios: seq<Gpio>) returns (ok: bool)
    ensures ok <==> NoSharedPin(gpios)
  {
    for i := 0 to |gpios|
      invariant forall a, b | 0 <= a < i && 0 <= b < |gpios| && a != b :: gpios[a].pin != gpios[b].pin
    {
      for j := 0 to |gpios|
        invariant forall b | 0 <= b < j && b != i :: gpios[i].pin != gpios[b].pin
      {
        if gpios[i].pin == gpios[j].pin && i != j {
          return false;
        }
      }
    }
    return true;
  }

  // The direction the configuration validator wants for each role.
  function WantedDirection(r: Role): PinMode {
    if r == CsB || r == Off then Output else Input
  }

  method ValidateGpioRolesVsDirection(gpios: seq<Gpio>) returns (ok: bool)
    ensures ok <==> forall i | 0 <= i < |gpios| :: gpios[i].direction == Some(WantedDirection(gpios[i].role))
  {
    for i := 0 to |gpios|
      invariant forall j | 0 <= j < i :: gpios[j].direction == Some(WantedDirection(gpios[j].role))
    {
      if gpios[i].direction != Some(WantedDirection(gpios[i].role)) {
        return false;
      }
    }
    return true;
  }

  // ---------------------------------------------------------------- pins: at most 26, and one for each role

  function LegalPinSet(): set<int> {
    set p | p in LEGAL_PINS
  }

  lemma {:induction false} SeqSetSize(s: seq<int>)
    ensures |set x | x in s| <= |s|
  {
    var all := set x | x in s;
    if s == [] {
      assert all == {};
    } else {
      var before := s[..|s| - 1];
      SeqSetSize(before);
      assert all == (set x | x in before) + {s[|s| - 1]};
    }
  }

  lemma {:induction false} PinsOfDistinctList(gpios: seq<Gpio>)
    requires NoSharedPin(gpios)
    ensures |set g | g in gpios :: g.pin| == |gpios|
  {
    if gpios == [] {
      assert (set g | g in gpios :: g.pin) == {};
    } else {
      var before, last := gpios[..|gpios| - 1], gpios[|gpios| - 1];
      PinsOfDistinctList(before);
      var pins := set g | g in before :: g.pin;
      assert (set g | g in gpios :: g.pin) == pins + {last.pin};
      assert last.pin !in pins;
    }
  }

  lemma SubsetSize(a: set<int>, b: set<int>)
    requires a <= b
    ensures |a| <= |b|
  {
    assert b == a + (b - a);
  }

  /** Pigeonhole: a list of legal pins without a shared pin has at most 26 entries. */
  lemma AtMost26Pins(gpios: seq<Gpio>)
    requires NoSharedPin(gpios) && forall g | g in gpios :: g.pin in LEGAL_PINS
    ensures |gpios| <= 26
  {
    PinsOfDistinctList(gpios);
    SeqSetSize(LEGAL_PINS);
    SubsetSize(set g | g in gpios :: g.pin, LegalPinSet());
  }

  ghost predicate LastOn(nodes: seq<GpioNode>, r: Role, pin: int) {
    exists i: nat :: IsLast(nodes, r, i) && nodes[i].pin == pin
  }

  function PinOf(w: Wiring, r: Role): int {
    match r
    case CsB => w.cs
    case Off => w.off
    case PgoodB => w.pgood
    case UdB => w.ud
    case ReqOffB => w.reqOff
    case D1B => w.d1
    case D2B => w.d2
  }

  // The pin the loader gives each role, for a configuration in which every role appears.
  ghost predicate WiredBy(nodes: seq<GpioNode>, w: Wiring) {
    forall r :: LastOn(nodes, r, PinOf(w, r))
  }

  function RoleAt(i: nat): Role {
    if i == 0 then Off else if i == 1 then ReqOffB else if i == 2 then CsB else if i == 3 then UdB
    else if i == 4 then PgoodB else if i == 5 then D1B else D2B
  }

  function PlaceOf(r: Role): (i: nat)
    ensures i < 7 && RoleAt(i) == r
  {
    match r case Off => 0 case ReqOffB => 1 case CsB => 2 case UdB => 3 case PgoodB => 4 case D1B => 5 case D2B => 6
  }

  // The node decides a pin: it is the last one of its role.
  ghost predicate InForce(nodes: seq<GpioNode>, i: nat) {
    i < |nodes| && RoleOf(nodes[i].role).Some? && IsLast(nodes, RoleOf(nodes[i].role).value, i)
  }

  lemma PinInForce(nodes: seq<GpioNode>, w: Wiring, i: nat)
    requires WiredBy(nodes, w) && InForce(nodes, i)
    ensures nodes[i].pin == PinOf(w, RoleOf(nodes[i].role).value)
  {
    var r := RoleOf(nodes[i].role).value;
    assert LastOn(nodes, r, PinOf(w, r));
    var j: nat :| IsLast(nodes, r, j) && nodes[j].pin == PinOf(w, r);
    assert i == j;
  }

  lemma RolesDiffer(nodes: seq<GpioNode>, r: Role, s: Role, p: int, q: int)
    requires forall i, j | 0 <= i < j < |nodes| && InForce(nodes, i) && InForce(nodes, j) :: nodes[i].pin != nodes[j].pin
    requires LastOn(nodes, r, p) && LastOn(nodes, s, q) && r != s
    ensures p != q
  {
    var i: nat :| IsLast(nodes, r, i) && nodes[i].pin == p;
    var j: nat :| IsLast(nodes, s, j) && nodes[j].pin == q;
    assert i != j && InForce(nodes, i) && InForce(nodes, j);
  }

  lemma DistinctPins(w: Wiring, r: Role, s: Role)
    requires w.Distinct() && r != s
    ensures PinOf(w, r) != PinOf(w, s)
  {
    assert w.Pins()[PlaceOf(r)] == PinOf(w, r) && w.Pins()[PlaceOf(s)] == PinOf(w, s);
    assert RoleAt(PlaceOf(r)) == r && RoleAt(PlaceOf(s)) == s;
  }

  lemma {:induction false} CheckedNode(nodes: seq<GpioNode>, i: nat)
    requires i < |nodes| && CheckNodes(nodes).None?
    ensures CheckNode(nodes[i]).None?
  {
    if i == |nodes| - 1 {
    } else {
      CheckedNode(nodes[..|nodes| - 1], i);
    }
  }

  lemma LastPinIsLegal(nodes: seq<GpioNode>, r: Role, p: int)
    requires CheckNodes(nodes).None? && LastOn(nodes, r, p)
    ensures p in LEGAL_PINS
  {
    var i: nat :| IsLast(nodes, r, i) && nodes[i].pin == p;
    CheckedNode(nodes, i);
  }

  lemma DistinctRoles(w: Wiring)
    requires forall r, s: Role | r != s :: PinOf(w, r) != PinOf(w, s)
    ensures w.Distinct()
  {
    forall i, j | 0 <= i < j < |w.Pins()| ensures w.Pins()[i] != w.Pins()[j] {
      assert w.Pins()[i] == PinOf(w, RoleAt(i)) && w.Pins()[j] == PinOf(w, RoleAt(j));
    }
  }

  /** The seven roles are wired to seven different pins if and only if no two nodes in force share one, and all
      of the pins are legal. When each role has a single node, that is every node. */
  lemma WiringIsDistinct(nodes: seq<GpioNode>, w: Wiring)
    requires CheckNodes(nodes).None? && WiredBy(nodes, w)
    ensures w.Distinct()
       <==> forall i, j | 0 <= i < j < |nodes| && InForce(nodes, i) && InForce(nodes, j) :: nodes[i].pin != nodes[j].pin
    ensures (forall i, j | 0 <= i < j < |nodes| :: RoleOf(nodes[i].role) != RoleOf(nodes[j].role))
            ==> forall i: nat | i < |nodes| :: InForce(nodes, i)
    ensures forall r :: PinOf(w, r) in LEGAL_PINS
  {
    hide PinOf, LastOn, CheckNodes;
    forall r ensures PinOf(w, r) in LEGAL_PINS {
      LastPinIsLegal(nodes, r, PinOf(w, r));
    }
    forall i: nat | i < |nodes| ensures RoleOf(nodes[i].role).Some? {
      CheckedNode(nodes, i);
    }
    if w.Distinct() {
      forall i, j | 0 <= i < j < |nodes| && InForce(nodes, i) && InForce(nodes, j) ensures nodes[i].pin != nodes[j].pin {
        PinInForce(nodes, w, i);
        PinInForce(nodes, w, j);
        DistinctPins(w, RoleOf(nodes[i].role).value, RoleOf(nodes[j].role).value);
      }
    } else if forall i, j | 0 <= i < j < |nodes| && InForce(nodes, i) && InForce(nodes, j) :: nodes[i].pin != nodes[j].pin {
      forall r, s: Role | r != s ensures PinOf(w, r) != PinOf(w, s) {
        RolesDiffer(nodes, r, s, PinOf(w, r), PinOf(w, s));
      }
      DistinctRoles(w);
    }
  }

  lemma {:induction false} CheckedAll(nodes: seq<GpioNode>)
    requires forall n | n in nodes :: CheckNode(n).None?
    ensures CheckNodes(nodes).None?
  {
    if nodes == [] {
    } else {
      CheckedAll(nodes[..|nodes| - 1]);
    }
  }

  function NameOf(r: Role): (s: string)
    ensures RoleOf(s) == Some(r)
  {
    match r
    case CsB => "CS_B"
    case Off => "OFF"
    case PgoodB => "PGOOD_B"
    case UdB => "UD_B"
    case ReqOffB => "REQ_OFF_B"
    case D1B => "D1_B"
    case D2B => "D2_B"
  }

  // A GPIOS section with one plain node for each role.
  function NodesFor(w: Wiring, n: nat): (nodes: seq<GpioNode>)
    requires n <= 7
    ensures |nodes| == n
    ensures forall i: nat | i < n :: nodes[i] == GpioNode(PinOf(w, RoleAt(i)), NameOf(RoleAt(i)), None, None)
  {
    if n == 0 then []
    else NodesFor(w, n - 1) + [GpioNode(PinOf(w, RoleAt(n - 1)), NameOf(RoleAt(n - 1)), None, None)]
  }

  lemma PlaceInverse(i: nat)
    requires i < 7
    ensures PlaceOf(RoleAt(i)) == i
  {
  }

  lemma NodeOfRole(w: Wiring, r: Role)
    ensures LastOn(NodesFor(w, 7), r, PinOf(w, r))
  {
    hide NodesFor, NameOf, PlaceOf, RoleOf;
    var nodes, i := NodesFor(w, 7), PlaceOf(r);
    forall j: nat | i < j < 7 ensures RoleAt(j) != r {
      assert PlaceOf(RoleAt(j)) == j by { PlaceInverse(j); }
    }
    assert IsLast(nodes, r, i) && nodes[i].pin == PinOf(w, r);
  }

  /** The loader never compares pins: it accepts the seven roles on any legal pins, shared ones included. */
  lemma EveryLegalWiringLoads(w: Wiring)
    requires forall r :: PinOf(w, r) in LEGAL_PINS
    ensures CheckEntries([Gpios(NodesFor(w, 7))]).None? && WiredBy(NodesFor(w, 7), w)
  {
    hide NodesFor, NameOf, RoleAt, LastOn, PinOf;
    var nodes := NodesFor(w, 7);
    forall n | n in nodes ensures CheckNode(n).None? {
      var i: nat :| i < 7 && nodes[i] == n;
    }
    CheckedAll(nodes);
    assert [Gpios(nodes)][..0] == [];
    forall r ensures LastOn(nodes, r, PinOf(w, r)) {
      NodeOfRole(w, r);
    }
  }

  /** What a loaded configuration gives: the seven roles, once all present, are the last node of each. */
  lemma LoadedRoles(nodes: seq<GpioNode>, r: Role, got: Option<Gpio>)
    requires Assigned(nodes, r, got)
    ensures got.Some? <==> exists i: nat :: IsLast(nodes, r, i)
    ensures forall i: nat | IsLast(nodes, r, i) ::
              got.Some? && got.value.pin == nodes[i].pin && got.value.pin in LEGAL_PINS && got.value.role == r
  {
    forall i: nat | IsLast(nodes, r, i)
      ensures got.Some? && got.value.pin == nodes[i].pin && got.value.pin in LEGAL_PINS && got.value.role == r
    {
      var j: nat :| IsLast(nodes, r, j) && CheckNode(nodes[j]).None? && got == Some(ToGpio(nodes[j]));
      assert i == j;
    }
  }

  /** A loaded configuration in which every role has a pin wires the roles as `WiringIsDistinct` wants. */
  lemma LoadedWiring(nodes: seq<GpioNode>, w: Wiring, got: Role -> Option<Gpio>)
    requires forall r :: Assigned(nodes, r, got(r)) && got(r).Some? && got(r).value.pin == PinOf(w, r)
    ensures WiredBy(nodes, w)
  {
    hide PinOf;
    forall r ensures LastOn(nodes, r, PinOf(w, r)) {
      assert Assigned(nodes, r, got(r));
    }
  }

  // An accepted battery-level-reader section has positive delays.
  lemma {:induction false} AcceptedReaderIsPositive(es: seq<Entry>)
    requires CheckEntries(es).None? && ReaderOf(es).Some?
    ensures var r := ReaderOf(es).value; r.interval > 0 && r.gpioDelay > 0 && r.pgoodDelay > 0
  {
    if es[|es| - 1].BatteryLevelReader? {
    } else {
      AcceptedReaderIsPositive(es[..|es| - 1]);
    }
  }

  /** A complete initialisation and the configuration validator agree on the direction of every role but UD,
      which the one makes an output and the other wants to be an input. */
  lemma DirectionsDisagreeOnUd(w: Wiring, h: Hw, r: Role)
    requires w.Distinct()
    ensures var mode := Perform(w, h, InitScript(w)).mode;
            && PinOf(w, r) in mode
            && (mode[PinOf(w, r)] == WantedDirection(r) <==> r != UdB)
  {
    hide Perform;
    InitSoFar(w, h, 7);
    assert w.Pins()[PlaceOf(r)] == PinOf(w, r);
  }
}
