/** The acquisition window: the serial connection and the enable flags of its
    controls, the command driver that writes one command and checks its
    reply, and the sequencer that runs one acquisition. */
module App {
  import opened Text
  import opened Protocol

  /** A message box: a warning or a critical error, with its title and text. */
  datatype Alert = Warning(title: string, text: string) | Critical(title: string, text: string)

  /** The enable flag of each of the ten controls the window switches. */
  datatype Controls = Controls(
    ports: bool, baudRate: bool, connect: bool,
    objective: bool, exposure: bool, nx: bool, ny: bool, rx: bool, ry: bool, launch: bool)
  {
    /** The three controls used to open a connection all have flag `b`. */
    predicate ConnectionIs(b: bool) {
      ports == b && baudRate == b && connect == b
    }

    /** The seven acquisition controls all have flag `b`. */
    predicate AcquisitionIs(b: bool) {
      objective == b && exposure == b && nx == b && ny == b && rx == b && ry == b && launch == b
    }

    /** These flags with the seven acquisition controls set to `b`. */
    function WithAcquisition(b: bool): (c: Controls)
      ensures c.AcquisitionIs(b)
      ensures c.ports == ports && c.baudRate == baudRate && c.connect == connect
    {
      this.(objective := b, exposure := b, nx := b, ny := b, rx := b, ry := b, launch := b)
    }

    /** These flags with the three connection controls enabled. */
    function WithConnectionEnabled(): (c: Controls)
      ensures c.ConnectionIs(true)
      ensures c.(ports := ports, baudRate := baudRate, connect := connect) == this
    {
      this.(ports := true, baudRate := true, connect := true)
    }
  }

  const AllDisabled := Controls(false, false, false, false, false, false, false, false, false, false)

  /** The entries of the baud-rate selector, in order. */
  const BaudItems: seq<string> := ["9600", "19200", "28800", "115200"]

  /** The baud rate each entry of the selector reads as. */
  const BaudRates: seq<int> := [9600, 19200, 28800, 115200]

  /** Every baud-rate entry parses as an integer, the one it spells. */
  lemma BaudItemsParse()
    ensures forall i :: 0 <= i < |BaudItems| ==> ParseInt(BaudItems[i]) == Some(BaudRates[i])
  {
    Parse9600();
    Parse19200();
    Parse28800();
    Parse115200();
  }

  /** A selector entry that `str` would print for `n` parses back as `n`:
      `IntToStringRoundTrip` at a given spelling, the step each baud-rate
      lemma below ends with. */
  lemma Spells(n: int, s: string)
    requires IntToString(n) == s
    ensures ParseInt(s) == Some(n)
  {
    IntToStringRoundTrip(n);
  }

  // Each spelling below is evaluated one digit at a time.

  lemma Parse9600()
    ensures ParseInt("9600") == Some(9600)
  {
    assert NatDigits(96) == "96" && NatDigits(960) == "960";
    Spells(9600, "9600");
  }

  lemma Parse19200()
    ensures ParseInt("19200") == Some(19200)
  {
    assert NatDigits(19) == "19" && NatDigits(192) == "192" && NatDigits(1920) == "1920";
    Spells(19200, "19200");
  }

  lemma Parse28800()
    ensures ParseInt("28800") == Some(28800)
  {
    assert NatDigits(28) == "28" && NatDigits(288) == "288" && NatDigits(2880) == "2880";
    Spells(28800, "28800");
  }

  lemma Parse115200()
    ensures ParseInt("115200") == Some(115200)
  {
    assert NatDigits(11) == "11" && NatDigits(115) == "115" && NatDigits(1152) == "1152";
    assert NatDigits(11520) == "11520";
    Spells(115200, "115200");
  }

  // ---------------------------------------------------------------------------
  // Log lines and alert texts
  // ---------------------------------------------------------------------------

  function ConnectedLine(port: string, rate: int): string {
    "Connected to " + port + " at " + IntToString(rate)
  }

  const DisconnectedLine := "Disconnected from serial port."

  function SentLine(cmd: string): string {
    "> " + cmd
  }

  const AckedLine := "< " + Ack

  function UnexpectedReply(reply: string): Alert {
    Critical("Error", "Unexpected response: " + reply)
  }

  const NotConnected := Warning("Error", "Serial port not connected.")

  const NoObjective := Warning("Error", "No objective selected.")

  function ConnectionError(reason: string): Alert {
    Critical("Connection Error", reason)
  }

  function FileError(reason: string): Alert {
    Critical("File Error", "Could not load objectives: " + reason)
  }

  /** The entries of the objective selector for a loaded table. */
  function Names(rows: seq<Objective>): (names: seq<string>)
    ensures |names| == |rows|
    ensures forall i :: 0 <= i < |rows| ==> names[i] == rows[i].name
  {
    seq(|rows|, i requires 0 <= i < |rows| => rows[i].name)
  }

  // ---------------------------------------------------------------------------
  // The reply script and what the driver does with it
  // ---------------------------------------------------------------------------

  /** The `i`-th line the controller answers; past the end of the script a
      read times out and gives the empty line. */
  function ReplyAt(script: seq<string>, i: nat): string {
    if i < |script| then script[i] else ""
  }

  /** The replies still unread after `k` reads. */
  function Drop(script: seq<string>, k: nat): (rest: seq<string>)
    ensures forall i: nat :: ReplyAt(rest, i) == ReplyAt(script, k + i)
  {
    if k <= |script| then script[k..] else []
  }

  lemma DropStep(script: seq<string>, k: nat)
    ensures ReplyAt(Drop(script, k), 0) == ReplyAt(script, k)
    ensures Drop(Drop(script, k), 1) == Drop(script, k + 1)
  {
  }

  /** The replies as the driver compares them, each line stripped. */
  function Stripped(script: seq<string>): (answers: seq<string>)
    ensures |answers| == |script|
    ensures forall i :: 0 <= i < |script| ==> answers[i] == Strip(script[i])
  {
    seq(|script|, i requires 0 <= i < |script| => Strip(script[i]))
  }

  /** A reply is accepted exactly when its stripped answer is `:A`; a read
      past the script's end gives the empty answer and is refused. */
  lemma StrippedReplyAt(script: seq<string>, k: nat)
    ensures ReplyAt(Stripped(script), k) == Strip(ReplyAt(script, k))
    ensures ReplyAt(Stripped(script), k) == Ack <==> IsAck(ReplyAt(script, k))
  {
    assert Strip("") == "";
  }

  /** What sending a list of commands in order leaves behind: how many were
      written, the answer that stopped the run if one did, and the log lines
      added. */
  datatype Transcript = Transcript(sent: nat, rejected: Option<string>, log: seq<string>)

  /** The driver run over `cmds` against the stripped answers `answers`, one
      command at a time: a command is only written while no earlier answer
      was refused, and a refused answer disconnects. */
  function Drive(cmds: seq<string>, answers: seq<string>): (t: Transcript)
    ensures t.sent <= |cmds| && |t.log| == 2 * t.sent
    ensures t.rejected.None? ==> t.sent == |cmds|
    ensures t.rejected.Some? ==> t.sent >= 1
    decreases |cmds|
  {
    if cmds == [] then Transcript(0, None, [])
    else
      var t := Drive(cmds[..|cmds| - 1], answers);
      if t.rejected.Some? then t
      else
        var k := |cmds| - 1;
        var reply := ReplyAt(answers, k);
        if reply == Ack then Transcript(k + 1, None, t.log + [SentLine(cmds[k]), AckedLine])
        else Transcript(k + 1, Some(reply), t.log + [SentLine(cmds[k]), DisconnectedLine])
  }

  /** One more command extends the run by one step, unless it already stopped. */
  lemma DriveStep(cmds: seq<string>, answers: seq<string>, i: nat)
    requires i < |cmds|
    ensures var t := Drive(cmds[..i], answers);
            Drive(cmds[..i + 1], answers) ==
              if t.rejected.Some? then t
              else if ReplyAt(answers, i) == Ack then
                Transcript(i + 1, None, t.log + [SentLine(cmds[i]), AckedLine])
              else
                Transcript(i + 1, Some(ReplyAt(answers, i)), t.log + [SentLine(cmds[i]), DisconnectedLine])
  {
    assert cmds[..i + 1][..i] == cmds[..i];
  }

  lemma AppendAssoc<T>(a: seq<T>, b: seq<T>, c: seq<T>)
    ensures a + (b + c) == a + b + c
  {
  }

  lemma FramesStep(cmds: seq<string>, i: nat)
    requires i < |cmds|
    ensures Frames(cmds[..i + 1]) == Frames(cmds[..i]) + [Frame(cmds[i])]
  {
    assert cmds[..i + 1][..i] == cmds[..i];
  }

  function RejectionAlerts(t: Transcript): seq<Alert> {
    if t.rejected.Some? then [UnexpectedReply(t.rejected.value)] else []
  }

  /** The run writes every command when, and only when, every answer is an
      acknowledgement; otherwise the last command written is the first one
      whose answer was refused, every earlier one was acknowledged, and no
      later one is written. */
  lemma {:induction false} DriveStopsAtFirstRejection(cmds: seq<string>, answers: seq<string>)
    ensures Drive(cmds, answers).rejected.None? <==>
            forall j :: 0 <= j < |cmds| ==> ReplyAt(answers, j) == Ack
    ensures var t := Drive(cmds, answers);
            t.rejected.Some? ==>
              (forall j :: 0 <= j < t.sent - 1 ==> ReplyAt(answers, j) == Ack)
              && t.rejected.value == ReplyAt(answers, t.sent - 1) != Ack
    decreases |cmds|
  {
    if cmds != [] {
      DriveStopsAtFirstRejection(cmds[..|cmds| - 1], answers);
    }
  }

  /** When every answer is an acknowledgement the whole list is written. */
  lemma AllAcknowledged(cmds: seq<string>, answers: seq<string>)
    requires forall j :: 0 <= j < |cmds| ==> ReplyAt(answers, j) == Ack
    ensures var t := Drive(cmds, answers);
            t.rejected.None? && t.sent == |cmds| && cmds[..t.sent] == cmds
  {
    DriveStopsAtFirstRejection(cmds, answers);
  }

  /** The log a run adds: for the `i`-th command written, `> cmd` and then
      `< :A` when it was acknowledged, or the disconnection line after the
      refused one. */
  ghost predicate LogShape(cmds: seq<string>, t: Transcript)
    requires t.sent <= |cmds| && |t.log| == 2 * t.sent
  {
    forall k :: 0 <= k < |t.log| ==>
      t.log[k] == if k % 2 == 0 then SentLine(cmds[k / 2])
                  else if t.rejected.Some? && k == |t.log| - 1 then DisconnectedLine
                  else AckedLine
  }

  lemma {:induction false} DriveLog(cmds: seq<string>, answers: seq<string>)
    ensures LogShape(cmds, Drive(cmds, answers))
    decreases |cmds|
  {
    if cmds != [] {
      var init := cmds[..|cmds| - 1];
      DriveLog(init, answers);
      var t := Drive(init, answers);
      if t.rejected.None? {
        var n := |cmds| - 1;
        var t' := Drive(cmds, answers);
        var last := if ReplyAt(answers, n) == Ack then AckedLine else DisconnectedLine;
        assert t'.log == t.log + [SentLine(cmds[n]), last];
        assert |t.log| == 2 * n;
        forall k | 0 <= k < |t'.log|
          ensures t'.log[k] == if k % 2 == 0 then SentLine(cmds[k / 2])
                               else if t'.rejected.Some? && k == |t'.log| - 1 then DisconnectedLine
                               else AckedLine
        {
          if k < |t.log| {
            assert t'.log[k] == t.log[k];
            assert k % 2 == 0 ==> init[k / 2] == cmds[k / 2];
          } else if k == 2 * n {
            assert k / 2 == n && k % 2 == 0;
          } else {
            assert k == 2 * n + 1 && k % 2 == 1;
          }
        }
      }
    }
  }

  /** Running a longer list extends the run on its first part: the commands
      after a refusal change nothing. */
  lemma {:induction false} DriveAfterRejection(cmds: seq<string>, more: seq<string>, answers: seq<string>)
    requires Drive(cmds, answers).rejected.Some?
    ensures Drive(cmds + more, answers) == Drive(cmds, answers)
    decreases |more|
  {
    if more != [] {
      var init := more[..|more| - 1];
      assert (cmds + more)[..|cmds + more| - 1] == cmds + init;
      DriveAfterRejection(cmds, init, answers);
    } else {
      assert cmds + more == cmds;
    }
  }

  // ---------------------------------------------------------------------------
  // The serial port
  // ---------------------------------------------------------------------------

  /** An open serial connection as the driver sees it: the lines the
      controller will answer, in order, and every payload written so far. */
  class Port {
    const name: string
    const baudRate: int
    var isOpen: bool
    var replies: seq<string>
    var written: seq<string>

    constructor (name: string, baudRate: int, replies: seq<string>)
      ensures this.name == name && this.baudRate == baudRate
      ensures isOpen && this.replies == replies && written == []
    {
      this.name := name;
      this.baudRate := baudRate;
      this.replies := replies;
      isOpen := true;
      written := [];
    }

    method Write(data: string)
      requires isOpen
      modifies this
      ensures isOpen && written == old(written) + [data] && replies == old(replies)
    {
      written := written + [data];
    }

    /** Reads one reply line; once the script is used up the read times out
        and gives the empty line. */
    method ReadLine() returns (line: string)
      requires isOpen
      modifies this
      ensures line == ReplyAt(old(replies), 0) && replies == Drop(old(replies), 1)
      ensures isOpen && written == old(written)
    {
      if replies == [] {
        line := "";
      } else {
        line := replies[0];
        replies := replies[1..];
      }
    }

    method Close()
      modifies this
      ensures !isOpen && written == old(written) && replies == old(replies)
    {
      isOpen := false;
    }
  }

  /** The outcome of opening the port chosen in the window. */
  datatype OpenResult = Opened(port: Port) | OpenFailed(reason: string)

  /** The outcome of reading the objective table from its file. */
  datatype LoadResult = Loaded(rows: seq<Objective>) | LoadFailed(reason: string)

  // ---------------------------------------------------------------------------
  // The window
  // ---------------------------------------------------------------------------

  class SerialApp {
    var conn: Port?
    var log: seq<string>
    var alerts: seq<Alert>
    var enabled: Controls
    var portItems: seq<string>
    var portIndex: int
    var baudIndex: nat
    var objectives: seq<Objective>
    var objectiveItems: seq<string>
    var objectiveIndex: int
    var form: Form

    /** A connection is only ever held open; the acquisition controls are
        enabled exactly while it is held; the three connection controls switch
        together; each selector's current index is -1 exactly when it is
        empty; the objective selector lists the loaded table's names. */
    ghost predicate Valid()
      reads this, conn
    {
      && (conn != null ==> conn.isOpen)
      && enabled.AcquisitionIs(conn != null)
      && Selectors()
    }

    /** The part of `Valid` about the window's own widgets. */
    ghost predicate Selectors()
      reads this`enabled, this`portItems, this`portIndex, this`baudIndex
      reads this`objectives, this`objectiveItems, this`objectiveIndex
    {
      && (enabled.ConnectionIs(true) || enabled.ConnectionIs(false))
      && -1 <= portIndex < |portItems| && (portIndex == -1 <==> portItems == [])
      && baudIndex < |BaudItems|
      && objectiveItems == Names(objectives)
      && -1 <= objectiveIndex < |objectives| && (objectiveIndex == -1 <==> objectives == [])
    }

    /** What the user picked or typed, which the connection logic never changes. */
    ghost function Choices(): (seq<string>, int, nat, Form)
      reads this
    {
      (portItems, portIndex, baudIndex, form)
    }

    /** The loaded objective table and its selector. */
    ghost function Table(): ObjectiveTable
      reads this
    {
      ObjectiveTable(objectives, objectiveItems, objectiveIndex)
    }

    predicate Connected()
      reads this, conn
    {
      conn != null && conn.isOpen
    }

    /** The text of the port selector; empty when it lists nothing. */
    function CurrentPort(): string
      reads this
    {
      if 0 <= portIndex < |portItems| then portItems[portIndex] else ""
    }

    /** `int()` of the baud-rate selector's text. */
    function CurrentBaudRate(): (rate: int)
      reads this
      requires baudIndex < |BaudItems|
      ensures rate in BaudRates && rate == BaudRates[baudIndex]
    {
      BaudItemsParse();
      ParseInt(BaudItems[baudIndex]).value
    }

    /** Every control disabled and nothing connected or loaded. */
    constructor (initial: Form)
      ensures Valid()
      ensures conn == null && log == [] && alerts == [] && enabled == AllDisabled
      ensures portItems == [] && portIndex == -1 && baudIndex == 0 && form == initial
      ensures objectives == [] && objectiveItems == [] && objectiveIndex == -1
    {
      conn := null;
      log := [];
      alerts := [];
      enabled := AllDisabled;
      portItems := [];
      portIndex := -1;
      baudIndex := 0;
      objectives := [];
      objectiveItems := [];
      objectiveIndex := -1;
      form := initial;
    }

    /** Refills the port selector from the ports found; only a non-empty list
        enables the connection controls, an empty one leaves them as they were. */
    method ScanPorts(ports: seq<string>)
      requires Valid()
      modifies this
      ensures Valid()
      ensures portItems == ports && portIndex == (if ports == [] then -1 else 0)
      ensures enabled == if ports == [] then old(enabled) else old(enabled).WithConnectionEnabled()
      ensures conn == old(conn) && log == old(log) && alerts == old(alerts)
      ensures baudIndex == old(baudIndex) && form == old(form) && Table() == old(Table())
    {
      portItems := ports;
      portIndex := if ports == [] then -1 else 0;
      if ports != [] {
        enabled := enabled.WithConnectionEnabled();
      }
    }

    /** Disconnects when a connection is open, connects otherwise. */
    method ToggleConnection(attempt: OpenResult, table: LoadResult)
      requires Valid()
      requires attempt.Opened? ==> PortFits(attempt.port)
      modifies this, conn
      ensures Valid()
      ensures Choices() == old(Choices())
      ensures old(Connected()) ==> Disconnected(old(conn), old(log), old(alerts), old(enabled), old(Table()))
      ensures !old(Connected()) ==>
                ConnectedFrom(attempt, table, old(CurrentPort()), old(CurrentBaudRate()),
                              old(conn), old(log), old(alerts), old(enabled), old(Table()))
    {
      if conn != null && conn.isOpen {
        DisconnectFromSerial();
      } else {
        ConnectToSerial(attempt, table);
      }
    }

    /** The port that was opened is the one selected, at the selected rate. */
    ghost predicate PortFits(p: Port)
      reads this, p
    {
      p.isOpen && p.name == CurrentPort() && baudIndex < |BaudItems| && p.baudRate == CurrentBaudRate()
    }

    /** The state a successful or failed open leads to. */
    ghost predicate ConnectedFrom(attempt: OpenResult, table: LoadResult, port: string, rate: int,
                                  conn0: Port?, log0: seq<string>, alerts0: seq<Alert>,
                                  enabled0: Controls, table0: ObjectiveTable)
      reads this
    {
      match attempt
      case OpenFailed(reason) =>
        conn == conn0 && log == log0 && enabled == enabled0 && Table() == table0
        && alerts == alerts0 + [ConnectionError(reason)]
      case Opened(p) =>
        conn == p && log == log0 + [ConnectedLine(port, rate)]
        && enabled == enabled0.WithAcquisition(true)
        && (Table(), alerts) == AfterLoad(table, table0, alerts0)
    }

    /** The state a disconnection leads to. */
    ghost predicate Disconnected(conn0: Port?, log0: seq<string>, alerts0: seq<Alert>,
                                 enabled0: Controls, table0: ObjectiveTable)
      reads this, conn0
    {
      conn == null && alerts == alerts0 && Table() == table0
      && (conn0 == null ==> log == log0 && enabled == enabled0)
      && (conn0 != null ==>
            !conn0.isOpen && log == log0 + [DisconnectedLine]
            && enabled == enabled0.WithAcquisition(false))
    }

    /** Opens the selected port at the selected rate (the open itself is
        `attempt`), enables the acquisition controls and loads the objective
        table; a failed open leaves everything as it was and raises an alert. */
    method ConnectToSerial(attempt: OpenResult, table: LoadResult)
      requires Valid()
      requires attempt.Opened? ==> PortFits(attempt.port)
      modifies this
      ensures Valid()
      ensures Choices() == old(Choices())
      ensures ConnectedFrom(attempt, table, old(CurrentPort()), old(CurrentBaudRate()),
                            old(conn), old(log), old(alerts), old(enabled), old(Table()))
    {
      var port := CurrentPort();
      var baudrate := CurrentBaudRate();
      match attempt
      case Opened(p) =>
        conn := p;
        log := log + [ConnectedLine(port, baudrate)];
        enabled := enabled.WithAcquisition(true);
        LoadObjectives(table);
      case OpenFailed(reason) =>
        alerts := alerts + [ConnectionError(reason)];
    }

    /** Closes and drops the connection and disables the acquisition
        controls; without a connection it does nothing at all. */
    method DisconnectFromSerial()
      requires Valid()
      modifies this, conn
      ensures Valid()
      ensures Choices() == old(Choices())
      ensures Disconnected(old(conn), old(log), old(alerts), old(enabled), old(Table()))
      ensures old(conn) == null ==> unchanged(this)
      ensures old(conn) != null ==>
                old(conn).written == old(conn.written) && old(conn).replies == old(conn.replies)
    {
      if conn != null {
        conn.Close();
        conn := null;
        log := log + [DisconnectedLine];
        enabled := enabled.WithAcquisition(false);
      }
    }

    /** Replaces the objective table and refills its selector with the
        table's names; a table that cannot be read only raises an alert. */
    method LoadObjectives(table: LoadResult)
      requires Valid()
      modifies this
      ensures Valid()
      ensures conn == old(conn) && log == old(log) && enabled == old(enabled)
      ensures Choices() == old(Choices())
      ensures (Table(), alerts) == AfterLoad(table, old(Table()), old(alerts))
    {
      match table
      case Loaded(rows) =>
        objectives := rows;
        objectiveItems := [];
        objectiveIndex := -1;
        for i := 0 to |rows|
          invariant objectives == rows && objectiveItems == Names(rows[..i])
          invariant objectiveIndex == if i == 0 then -1 else 0
          invariant conn == old(conn) && log == old(log) && enabled == old(enabled)
          invariant alerts == old(alerts) && Choices() == old(Choices())
        {
          // The selector shows its first entry once it holds one.
          objectiveItems := objectiveItems + [rows[i].name];
          if i == 0 {
            objectiveIndex := 0;
          }
          assert rows[..i + 1][..i] == rows[..i];
        }
        assert rows[..|rows|] == rows;
      case LoadFailed(reason) =>
        alerts := alerts + [FileError(reason)];
    }

    /** What `SendCommand` does with a refused reply: raise the alert that
        shows it, then disconnect. */
    method Refuse(response: string)
      requires Valid() && conn != null
      modifies this, conn
      ensures Valid() && Choices() == old(Choices()) && Table() == old(Table())
      ensures conn == null && !old(conn).isOpen
      ensures old(conn).written == old(conn.written) && old(conn).replies == old(conn.replies)
      ensures log == old(log) + [DisconnectedLine]
      ensures alerts == old(alerts) + [UnexpectedReply(response)]
      ensures enabled == old(enabled).WithAcquisition(false)
    {
      alerts := alerts + [UnexpectedReply(response)];
      DisconnectFromSerial();
    }

    /** Writes `cmd` with its terminator and reads one reply; an
        acknowledgement is logged, anything else raises an alert and
        disconnects. Without a connection nothing happens. */
    method SendCommand(cmd: string)
      requires Valid()
      modifies this, conn
      ensures Valid()
      ensures Choices() == old(Choices()) && Table() == old(Table())
      ensures old(conn) == null ==> unchanged(this)
      ensures old(conn) != null ==>
                var reply := Strip(ReplyAt(old(conn.replies), 0));
                && old(conn).written == old(conn.written) + [Frame(cmd)]
                && old(conn).replies == Drop(old(conn.replies), 1)
                && (reply == Ack ==>
                      conn == old(conn) && log == old(log) + [SentLine(cmd), AckedLine]
                      && alerts == old(alerts) && enabled == old(enabled))
                && (reply != Ack ==>
                      conn == null && !old(conn).isOpen
                      && log == old(log) + [SentLine(cmd), DisconnectedLine]
                      && alerts == old(alerts) + [UnexpectedReply(reply)]
                      && enabled == old(enabled).WithAcquisition(false))
    {
      if conn != null {
        ghost var reply := Strip(ReplyAt(conn.replies, 0));
        conn.Write(Frame(cmd));
        var line := conn.ReadLine();
        var response := Strip(line);
        assert response == reply;
        log := log + [SentLine(cmd)];
        if response != Ack {
          Refuse(response);
          AppendAssoc(old(log), [SentLine(cmd)], [DisconnectedLine]);
          return;
        }
        assert "< " + response == AckedLine;
        log := log + ["< " + response];
        AppendAssoc(old(log), [SentLine(cmd)], [AckedLine]);
      }
    }

    /** The state `SendAll` has reached after the first `i` of `cmds`, started
        on port `p` with the reply script `script` and the values in `s0`. */
    ghost predicate Reached(cmds: seq<string>, i: nat, p: Port, script: seq<string>, s0: RunStart)
      requires i <= |cmds|
      reads this, p
    {
      var t := Drive(cmds[..i], Stripped(script));
      && p.written == s0.written + Frames(cmds[..t.sent])
      && p.replies == Drop(script, t.sent)
      && log == s0.log + t.log
      && alerts == s0.alerts + RejectionAlerts(t)
      && (t.rejected.None? ==> conn == p && enabled == s0.enabled)
      && (t.rejected.Some? ==> conn == null && !p.isOpen && enabled == s0.enabled.WithAcquisition(false))
    }

    /** One turn of `SendAll`: `commands[i]` goes out unless the run was
        already refused, and the state moves on by one step of `Drive`. */
    method SendNext(commands: seq<string>, i: nat, ghost p: Port, ghost script: seq<string>, ghost s0: RunStart)
      requires i < |commands| && Valid() && Reached(commands, i, p, script, s0)
      modifies this, p
      ensures Valid() && Choices() == old(Choices()) && Table() == old(Table())
      ensures Reached(commands, i + 1, p, script, s0)
    {
      ghost var answers := Stripped(script);
      ghost var t := Drive(commands[..i], answers);
      ghost var log1 := log;
      DriveStep(commands, answers, i);
      if t.rejected.None? {
        FramesStep(commands, i);
        DropStep(script, i);
        StrippedReplyAt(script, i);
      }
      SendCommand(commands[i]);
      if t.rejected.None? {
        var added := [SentLine(commands[i]), if ReplyAt(answers, i) == Ack then AckedLine else DisconnectedLine];
        assert log == log1 + added;
        AppendAssoc(s0.log, t.log, added);
        AppendAssoc(s0.written, Frames(commands[..i]), [Frame(commands[i])]);
      }
    }

    /** Sends `commands` in order through `SendCommand`; once a reply is
        refused the connection is gone and the remaining sends do nothing. */
    method SendAll(commands: seq<string>)
      requires Valid() && Connected()
      modifies this, conn
      ensures Valid()
      ensures Choices() == old(Choices()) && Table() == old(Table())
      ensures var t := Drive(commands, Stripped(old(conn.replies)));
              && old(conn).written == old(conn.written) + Frames(commands[..t.sent])
              && old(conn).replies == Drop(old(conn.replies), t.sent)
              && log == old(log) + t.log
              && alerts == old(alerts) + RejectionAlerts(t)
              && (t.rejected.None? ==> conn == old(conn) && enabled == old(enabled))
              && (t.rejected.Some? ==>
                    conn == null && !old(conn).isOpen && enabled == old(enabled).WithAcquisition(false))
    {
      ghost var p := conn;
      ghost var script := conn.replies;
      ghost var s0 := RunStart(conn.written, log, alerts, enabled);
      for i := 0 to |commands|
        invariant Valid()
        invariant Choices() == old(Choices()) && Table() == old(Table())
        invariant Reached(commands, i, p, script, s0)
      {
        SendNext(commands, i, p, script, s0);
      }
      assert commands[..|commands|] == commands;
    }

    /** Runs one acquisition: refuses without an open connection or a
        selected objective, writing nothing; otherwise sends the nine
        commands for the form and the selected objective in order, stopping
        at the first one whose reply is refused. */
    method LaunchMeasure()
      requires Valid()
      modifies this, conn
      ensures Valid()
      ensures Choices() == old(Choices()) && Table() == old(Table())
      ensures !old(Connected()) ==>
                conn == old(conn) && log == old(log) && enabled == old(enabled)
                && alerts == old(alerts) + [NotConnected]
      ensures old(Connected()) && objectiveIndex < 0 ==>
                conn == old(conn) && unchanged(conn) && log == old(log) && enabled == old(enabled)
                && alerts == old(alerts) + [NoObjective]
      ensures old(Connected()) && objectiveIndex >= 0 ==>
                var lines := MeasureLines(form, objectives[objectiveIndex]);
                var t := Drive(lines, Stripped(old(conn.replies)));
                && old(conn).written == old(conn.written) + Frames(lines[..t.sent])
                && old(conn).replies == Drop(old(conn.replies), t.sent)
                && log == old(log) + t.log
                && alerts == old(alerts) + RejectionAlerts(t)
                && (t.rejected.None? ==> conn == old(conn) && enabled == old(enabled))
                && (t.rejected.Some? ==>
                      conn == null && !old(conn).isOpen && enabled == old(enabled).WithAcquisition(false))
    {
      if conn == null || !conn.isOpen {
        alerts := alerts + [NotConnected];
        return;
      }
      if objectiveIndex < 0 {
        alerts := alerts + [NoObjective];
        return;
      }
      var commands := MeasureLines(form, objectives[objectiveIndex]);
      SendAll(commands);
    }

    // -------------------------------------------------------------------------
    // What the user enters through the widgets
    // -------------------------------------------------------------------------

    method SelectPort(i: int)
      requires Valid() && 0 <= i < |portItems|
      modifies this`portIndex
      ensures Valid() && portIndex == i
    {
      portIndex := i;
    }

    method SelectBaudRate(i: nat)
      requires Valid() && i < |BaudItems|
      modifies this`baudIndex
      ensures Valid() && baudIndex == i
    {
      baudIndex := i;
    }

    method SelectObjective(i: int)
      requires Valid() && 0 <= i < |objectives|
      modifies this`objectiveIndex
      ensures Valid() && objectiveIndex == i
    {
      objectiveIndex := i;
    }

    method EditForm(f: Form)
      requires Valid()
      modifies this`form
      ensures Valid() && form == f
    {
      form := f;
    }
  }

  /** What `SendAll` started from: the bytes already written and the log,
      alerts and controls before the first send. */
  datatype RunStart = RunStart(written: seq<string>, log: seq<string>, alerts: seq<Alert>, enabled: Controls)

  /** The objective table and its selector. */
  datatype ObjectiveTable = ObjectiveTable(rows: seq<Objective>, names: seq<string>, index: int)

  /** The table and alerts after reading `table`: a table read replaces the
      old one and selects its first row, if any; a failed read keeps the old
      table and raises a file-error alert. */
  function AfterLoad(table: LoadResult, table0: ObjectiveTable, alerts0: seq<Alert>): (after: (ObjectiveTable, seq<Alert>))
    ensures table.Loaded? ==> after.1 == alerts0 && after.0.rows == table.rows && after.0.names == Names(table.rows)
    ensures table.Loaded? ==> after.0.index == (if table.rows == [] then -1 else 0)
    ensures table.LoadFailed? ==> after.0 == table0 && after.1 == alerts0 + [FileError(table.reason)]
  {
    match table
    case Loaded(rows) => (ObjectiveTable(rows, Names(rows), if rows == [] then -1 else 0), alerts0)
    case LoadFailed(reason) => (table0, alerts0 + [FileError(reason)])
  }
}
