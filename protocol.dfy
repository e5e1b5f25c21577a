/** The line protocol of the stage controller: the commands the acquisition
    sends, how each is spelled on the wire, the `\r\n` framing, and the
    acknowledgement test applied to a reply line. */
module Protocol {
  import opened Text

  /** The only reply that counts as success. */
  const Ack := ":A"

  /** Every written command is followed by carriage return and line feed. */
  const Terminator := "\r\n"

  /** One row of the objective table: the name shown in the selector and the
      stage offset of that objective. */
  datatype Objective = Objective(name: string, dx: real, dy: real)

  /** The acquisition parameters as the form holds them: exposure time, grid
      counts and grid steps. */
  datatype Form = Form(exposure: real, nx: int, ny: int, rx: real, ry: real)

  /** The commands of one acquisition, one constructor per opcode. */
  datatype Command =
    | ScanPattern                                 // SN X=2 Y=1
    | Exposure(seconds: real)                     // RT Z=<t>
    | ArmTrigger                                  // TTL Y=2
    | Backlash                                    // B X=0.1 Y=0.1
    | MoveRelative(dx: real, dy: real)            // R X=<dx> Y=<dy>
    | Zero                                        // Z
    | Grid(nx: int, ny: int, rx: real, ry: real)  // AR X=<nx> Y=<ny> Z=<rx> F=<ry>
    | MoveToStart(x: real, y: real)               // AH X=<x> Y=<y>
    | Start                                       // AR

  predicate NoLineBreak(s: string) {
    forall i :: 0 <= i < |s| ==> s[i] != '\r' && s[i] != '\n'
  }

  lemma {:induction false} NoLineBreakJoin(parts: seq<string>)
    requires forall k :: 0 <= k < |parts| ==> NoLineBreak(parts[k])
    ensures NoLineBreak(Join(parts))
  {
    if parts != [] {
      NoLineBreakJoin(parts[..|parts| - 1]);
    }
  }

  function Join(parts: seq<string>): string {
    if parts == [] then "" else Join(parts[..|parts| - 1]) + parts[|parts| - 1]
  }

  /** The pieces a command's text is made of: literal keywords and the
      rendered arguments. */
  function Words(c: Command): seq<string> {
    match c
    case ScanPattern => ["SN X=2 Y=1"]
    case Exposure(t) => ["RT Z=", Fmt4(t)]
    case ArmTrigger => ["TTL Y=2"]
    case Backlash => ["B X=0.1 Y=0.1"]
    case MoveRelative(dx, dy) => ["R X=", Fmt4(dx), " Y=", Fmt4(dy)]
    case Zero => ["Z"]
    case Grid(nx, ny, rx, ry) =>
      ["AR X=", IntToString(nx), " Y=", IntToString(ny), " Z=", Fmt4(rx), " F=", Fmt4(ry)]
    case MoveToStart(x, y) => ["AH X=", Fmt4(x), " Y=", Fmt4(y)]
    case Start => ["AR"]
  }

  lemma NumeralNoLineBreak(s: string)
    requires forall i :: 0 <= i < |s| ==> IsNumeral(s[i])
    ensures NoLineBreak(s)
  {
  }

  lemma IntNoLineBreak(i: int)
    ensures NoLineBreak(IntToString(i))
  {
  }

  lemma FmtNoLineBreak(r: real)
    ensures NoLineBreak(Fmt4(r))
  {
    NumeralNoLineBreak(Fmt4(r));
  }

  predicate WordsOk(parts: seq<string>) {
    forall k :: 0 <= k < |parts| ==> NoLineBreak(parts[k])
  }

  lemma WordsNoLineBreak(c: Command)
    ensures WordsOk(Words(c))
  {
    match c
    case Exposure(t) => ExposureWordsOk(t);
    case MoveRelative(dx, dy) => PointWordsOk("R X=", dx, dy);
    case Grid(nx, ny, rx, ry) => GridWordsOk(nx, ny, rx, ry);
    case MoveToStart(x, y) => PointWordsOk("AH X=", x, y);
    case ScanPattern =>
    case ArmTrigger =>
    case Backlash =>
    case Zero =>
    case Start =>
  }

  lemma ExposureWordsOk(t: real)
    ensures WordsOk(Words(Exposure(t)))
  {
    FmtNoLineBreak(t);
  }

  lemma PointWordsOk(key: string, x: real, y: real)
    requires NoLineBreak(key)
    ensures WordsOk([key, Fmt4(x), " Y=", Fmt4(y)])
  {
    FmtNoLineBreak(x);
    FmtNoLineBreak(y);
  }

  lemma GridWordsOk(nx: int, ny: int, rx: real, ry: real)
    ensures WordsOk(Words(Grid(nx, ny, rx, ry)))
  {
    IntNoLineBreak(nx);
    IntNoLineBreak(ny);
    FmtNoLineBreak(rx);
    FmtNoLineBreak(ry);
  }

  /** The text of a command as the acquisition writes it, real arguments
      with four decimals and counts as plain integers. */
  function Render(c: Command): (line: string)
    ensures NoLineBreak(line)
  {
    WordsNoLineBreak(c);
    NoLineBreakJoin(Words(c));
    Join(Words(c))
  }

  /** A command's text is its keyword followed by its arguments, exactly as
      the acquisition spells each line. */
  lemma RenderSpelling(c: Command)
    ensures Render(c) ==
      match c
      case ScanPattern => "SN X=2 Y=1"
      case Exposure(t) => "RT Z=" + Fmt4(t)
      case ArmTrigger => "TTL Y=2"
      case Backlash => "B X=0.1 Y=0.1"
      case MoveRelative(dx, dy) => "R X=" + Fmt4(dx) + " Y=" + Fmt4(dy)
      case Zero => "Z"
      case Grid(nx, ny, rx, ry) =>
        "AR X=" + IntToString(nx) + " Y=" + IntToString(ny) + " Z=" + Fmt4(rx) + " F=" + Fmt4(ry)
      case MoveToStart(x, y) => "AH X=" + Fmt4(x) + " Y=" + Fmt4(y)
      case Start => "AR"
  {
    match c
    case Exposure(t) => JoinTwo("RT Z=", Fmt4(t));
    case MoveRelative(dx, dy) => JoinFour("R X=", Fmt4(dx), " Y=", Fmt4(dy));
    case Grid(nx, ny, rx, ry) =>
      JoinEight("AR X=", IntToString(nx), " Y=", IntToString(ny), " Z=", Fmt4(rx), " F=", Fmt4(ry));
    case MoveToStart(x, y) => JoinFour("AH X=", Fmt4(x), " Y=", Fmt4(y));
    case ScanPattern => JoinOne("SN X=2 Y=1");
    case ArmTrigger => JoinOne("TTL Y=2");
    case Backlash => JoinOne("B X=0.1 Y=0.1");
    case Zero => JoinOne("Z");
    case Start => JoinOne("AR");
  }

  lemma JoinOne(a: string)
    ensures Join([a]) == a
  {
    assert [a][..0] == [];
  }

  lemma JoinTwo(a: string, b: string)
    ensures Join([a, b]) == a + b
  {
    assert [a, b][..1] == [a];
    JoinOne(a);
  }

  lemma JoinFour(a: string, b: string, c: string, d: string)
    ensures Join([a, b, c, d]) == a + b + c + d
  {
    assert [a, b, c, d][..3] == [a, b, c];
    assert [a, b, c][..2] == [a, b];
    JoinTwo(a, b);
  }

  lemma JoinEight(a: string, b: string, c: string, d: string, e: string, f: string, g: string, h: string)
    ensures Join([a, b, c, d, e, f, g, h]) == a + b + c + d + e + f + g + h
  {
    assert [a, b, c, d, e, f, g, h][..7] == [a, b, c, d, e, f, g];
    assert [a, b, c, d, e, f, g][..6] == [a, b, c, d, e, f];
    assert [a, b, c, d, e, f][..5] == [a, b, c, d, e];
    assert [a, b, c, d, e][..4] == [a, b, c, d];
    JoinFour(a, b, c, d);
    assert Join([a, b, c, d, e]) == a + b + c + d + e;
    assert Join([a, b, c, d, e, f]) == a + b + c + d + e + f;
    assert Join([a, b, c, d, e, f, g]) == a + b + c + d + e + f + g;
  }

  /** The first grid point, half the grid's extent before the current
      position on each axis. */
  function GridStart(f: Form): (p: (real, real))
    ensures p.0 + (f.nx as real) * f.rx == -p.0
    ensures p.1 + (f.ny as real) * f.ry == -p.1
  {
    (-(f.nx as real) * f.rx / 2.0, -(f.ny as real) * f.ry / 2.0)
  }

  /** The first grid point of a grid of 3 points with step 0.1 on the X axis
      is spelt with its sign. */
  lemma GridStartSpelled(f: Form)
    requires f.nx == 3 && f.rx == 0.1
    ensures Fmt4(GridStart(f).0) == "-0.1500"
  {
    assert GridStart(f).0 == -0.15;
    Fmt4NegativeExample();
  }

  /** The acquisition sequence for form `f` and objective `o`, in the order
      it is sent. */
  function MeasureCommands(f: Form, o: Objective): (cmds: seq<Command>)
    ensures |cmds| == 9
  {
    var start := GridStart(f);
    [ ScanPattern,
      Exposure(f.exposure),
      ArmTrigger,
      Backlash,
      MoveRelative(o.dx, o.dy),
      Zero,
      Grid(f.nx, f.ny, f.rx, f.ry),
      MoveToStart(start.0, start.1),
      Start ]
  }

  /** The same sequence as text lines. */
  function MeasureLines(f: Form, o: Objective): (lines: seq<string>)
    ensures |lines| == 9
    ensures forall k :: 0 <= k < 9 ==> NoLineBreak(lines[k])
  {
    var cmds := MeasureCommands(f, o);
    seq(9, k requires 0 <= k < 9 => Render(cmds[k]))
  }

  /** The five lines of an acquisition that carry no argument, at their
      places in the sequence. */
  lemma MeasureLinesFixed(f: Form, o: Objective)
    ensures var lines := MeasureLines(f, o);
            && lines[0] == "SN X=2 Y=1"
            && lines[2] == "TTL Y=2"
            && lines[3] == "B X=0.1 Y=0.1"
            && lines[5] == "Z"
            && lines[8] == "AR"
  {
    LineOf(f, o, 0, ScanPattern);
    LineOf(f, o, 2, ArmTrigger);
    LineOf(f, o, 3, Backlash);
    LineOf(f, o, 5, Zero);
    LineOf(f, o, 8, Start);
    FixedSpelling();
  }

  /** The four lines of an acquisition that carry the form's and the
      objective's values, the grid's first point being `GridStart(f)`. */
  lemma MeasureLinesArguments(f: Form, o: Objective)
    ensures var lines := MeasureLines(f, o);
            && lines[1] == "RT Z=" + Fmt4(f.exposure)
            && lines[4] == "R X=" + Fmt4(o.dx) + " Y=" + Fmt4(o.dy)
            && lines[6] == "AR X=" + IntToString(f.nx) + " Y=" + IntToString(f.ny)
                           + " Z=" + Fmt4(f.rx) + " F=" + Fmt4(f.ry)
            && lines[7] == "AH X=" + Fmt4(GridStart(f).0) + " Y=" + Fmt4(GridStart(f).1)
  {
    LineOf(f, o, 1, Exposure(f.exposure));
    LineOf(f, o, 4, MoveRelative(o.dx, o.dy));
    LineOf(f, o, 6, Grid(f.nx, f.ny, f.rx, f.ry));
    LineOf(f, o, 7, MoveToStart(GridStart(f).0, GridStart(f).1));
    RenderSpelling(Exposure(f.exposure));
    RenderSpelling(MoveRelative(o.dx, o.dy));
    RenderSpelling(Grid(f.nx, f.ny, f.rx, f.ry));
    RenderSpelling(MoveToStart(GridStart(f).0, GridStart(f).1));
  }

  lemma LineOf(f: Form, o: Objective, k: nat, c: Command)
    requires k < 9 && MeasureCommands(f, o)[k] == c
    ensures MeasureLines(f, o)[k] == Render(c)
  {
  }

  /** The texts of the commands without arguments. */
  lemma FixedSpelling()
    ensures Render(ScanPattern) == "SN X=2 Y=1" && Render(ArmTrigger) == "TTL Y=2"
    ensures Render(Backlash) == "B X=0.1 Y=0.1" && Render(Zero) == "Z" && Render(Start) == "AR"
  {
    RenderSpelling(ScanPattern);
    RenderSpelling(ArmTrigger);
    RenderSpelling(Backlash);
    RenderSpelling(Zero);
    RenderSpelling(Start);
  }

  // ---------------------------------------------------------------------------
  // Framing
  // ---------------------------------------------------------------------------

  /** What one `write` puts on the wire for command text `cmd`. */
  function Frame(cmd: string): string {
    cmd + Terminator
  }

  /** The payloads of writing `cmds` one after another. */
  function Frames(cmds: seq<string>): (ws: seq<string>)
    ensures |ws| == |cmds|
    ensures forall k :: 0 <= k < |cmds| ==> ws[k] == Frame(cmds[k])
  {
    if cmds == [] then [] else Frames(cmds[..|cmds| - 1]) + [Frame(cmds[|cmds| - 1])]
  }

  /** Index of the first line feed in `s`, or `|s|` when there is none. */
  function LineEnd(s: string): (k: nat)
    ensures k <= |s|
    ensures forall i :: 0 <= i < k ==> s[i] != '\n'
    ensures k < |s| ==> s[k] == '\n'
  {
    if s == [] || s[0] == '\n' then 0 else 1 + LineEnd(s[1..])
  }

  function DropCR(line: string): string {
    if line != [] && line[|line| - 1] == '\r' then line[..|line| - 1] else line
  }

  /** How the controller, reading the stream the window writes, splits it
      into command lines: at each line feed, with one carriage return before
      it removed. */
  function ReceivedLines(stream: string): seq<string>
    decreases |stream|
  {
    if stream == [] then []
    else
      var k := LineEnd(stream);
      if k == |stream| then [stream]
      else [DropCR(stream[..k])] + ReceivedLines(stream[k + 1..])
  }

  /** The byte stream a sequence of separate writes produces. */
  function Wire(payloads: seq<string>): string {
    if payloads == [] then "" else payloads[0] + Wire(payloads[1..])
  }

  lemma {:induction false} FramesSplit(cmds: seq<string>)
    requires cmds != []
    ensures Frames(cmds) == [Frame(cmds[0])] + Frames(cmds[1..])
    decreases |cmds|
  {
    if |cmds| > 1 {
      var init := cmds[..|cmds| - 1];
      assert init[1..] == cmds[1..][..|cmds[1..]| - 1];
      assert init[0] == cmds[0];
      FramesSplit(init);
    }
  }

  /** Framing is unambiguous: the controller, reading the written stream,
      recovers exactly the commands written, because no command contains a
      line break. */
  lemma {:induction false} WireRoundTrip(cmds: seq<string>)
    requires forall k :: 0 <= k < |cmds| ==> NoLineBreak(cmds[k])
    ensures ReceivedLines(Wire(Frames(cmds))) == cmds
    decreases |cmds|
  {
    if cmds != [] {
      FramesSplit(cmds);
      var ws := Frames(cmds);
      assert ws[0] == Frame(cmds[0]) && ws[1..] == Frames(cmds[1..]);
      assert Wire(ws) == Frame(cmds[0]) + Wire(Frames(cmds[1..]));
      ReceivedFrame(cmds[0], Wire(Frames(cmds[1..])));
      WireRoundTrip(cmds[1..]);
      assert [cmds[0]] + cmds[1..] == cmds;
    }
  }

  /** A reader of one framed command followed by more of the stream reads
      the command back and then goes on with the rest. */
  lemma ReceivedFrame(c: string, rest: string)
    requires NoLineBreak(c)
    ensures ReceivedLines(Frame(c) + rest) == [c] + ReceivedLines(rest)
  {
    var stream := Frame(c) + rest;
    assert stream[|c|] == '\r' && stream[|c| + 1] == '\n';
    assert forall i :: 0 <= i < |c| + 1 ==> stream[i] != '\n';
    var k := LineEnd(stream);
    assert k == |c| + 1;
    assert stream[..k] == c + "\r";
    assert DropCR(c + "\r") == c;
    assert stream[k + 1..] == rest;
  }

  /** A controller reply line counts as an acknowledgement when, stripped of
      surrounding whitespace, it is exactly `:A`. */
  predicate IsAck(line: string) {
    Strip(line) == Ack
  }

  /** Any whitespace around `:A`, such as the reply's own `\r\n`, is accepted. */
  lemma AckWithWhitespace(pre: string, post: string)
    requires AllSpace(pre) && AllSpace(post)
    ensures IsAck(pre + Ack + post)
  {
    StripSurrounded(pre, Ack, post);
  }
}
