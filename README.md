# MS200 map: serial acquisition sequencer

A Dafny model of the `SerialApp` window of the MS200 map controller
(`Main/main.py`). The window drives a motorised microscope stage over a
serial line. It scans for ports and opens one at a chosen baud rate, which
enables the acquisition controls. It loads the objective table. It then runs
one raster acquisition: nine controller commands, each written with a
`\r\n` terminator. Each command must be answered with `:A`. Any other answer
raises an error and closes the connection, and every later command of the
sequence is then skipped.

The project has three modules:

- `Text` (`text.dfy`) models the Python text primitives the window relies on:
  - `str.strip()` on reply lines;
  - `str(int)` and `int(str)` for grid counts and baud rates;
  - `format(r, ".4f")` for every real-valued argument.
- `Protocol` (`protocol.dfy`) holds the controller protocol:
  - the nine commands of an acquisition and their text;
  - the first grid point;
  - the CR-LF framing and its unambiguous reading;
  - the acknowledgement test.
- `App` (`app.dfy`) holds the window itself:
  - `Port` is the open serial connection. It keeps the scripted reply lines and every payload written.
  - `SerialApp` has the connection, the log, the alerts and the enable flags of the ten controls. It also has the port, baud-rate and objective selectors and the form.
  - `Drive` is the specification function. It gives the outcome of sending a list of commands against a reply script. `SendAll`, the `for` loop of the acquisition, is proved against it.

`SerialApp.Valid()` is the invariant every method keeps:

- a connection is held only while it is open;
- the seven acquisition controls are enabled exactly while a connection is held;
- the three connection controls switch together;
- each selector's index is -1 exactly when the selector is empty;
- the objective selector lists the loaded table's names.

The foreign calls are parameters:

- The result of `serial.Serial(...)` is an `OpenResult`: an open `Port` or the text of the exception.
- The result of reading the objective spreadsheet is a `LoadResult`.
- The port list of `comports()` is a `seq<string>`.
- The controller's replies are the `Port`'s reply script. A read past its end gives the empty line, as the one-second read timeout does.
- Message boxes are entries of the `alerts` log.

The acquisition sends exactly these nine commands, in this order (`Main/main.py:118-128`): `SN X=2 Y=1`, `RT Z=…`, `TTL Y=2`, `B X=0.1 Y=0.1`, `R X=… Y=…`, `Z`, `AR X=… Y=… Z=… F=…`, `AH X=… Y=…` and `AR`. Nothing polls the controller for a busy state: each command is sent as soon as the previous one has been acknowledged.

## Model

The proof steps of the acquisition loop, such as `DriveStep`, `DropStep` and `FramesStep`, and the helper `AfterLoad` that `LoadObjectives` is proved against, have no row of their own; what they serve is stated by the rows of `SendAll` and `LoadObjectives`.

| member | source | states |
|---|---|---|
| Text.StripTrims | Main/main.py:136 | `strip()` returns a slice of the reply with only whitespace before and after it, and the result neither starts nor ends with whitespace |
| Text.StripSurrounded | Main/main.py:136 | for any text wrapped in whitespace whose own ends are not whitespace, `strip()` gives back exactly that text |
| Text.IntToString | Main/main.py:125 | `str(n)` is non-empty and has only digits, with a minus sign in front for negative counts |
| Text.NatDigitsValue | Main/main.py:125 | the decimal digits printed for a count denote that count |
| Text.ParseInt | Main/main.py:54 | `int()` of a text with a leading minus is never positive, and of a text starting with a digit never negative |
| Text.IntToStringRoundTrip | Main/main.py:54 | `int(str(n)) == n` for every integer |
| Text.RoundHalfEven | Main/main.py:120 | the rounding used by `:.4f` is the nearest integer, with ties going to the even one |
| Text.Pad4 | Main/main.py:120 | the fractional part of `:.4f` is exactly four digits |
| Text.Pad4Value | Main/main.py:120 | the four fractional digits denote the fraction in units of 0.0001 |
| Text.Fmt4 | Main/main.py:120-126 | `:.4f` text has only digits, a point and a sign, and ends in a point followed by four digits |
| Text.Fmt4RoundTrip | Main/main.py:120-126 | reading back the `:.4f` text of `r` gives `r` rounded to four decimals |
| Text.Rounded4Error | Main/main.py:120-126 | the printed value is within 0.00005 of `r` |
| Text.Fmt4Exact | Main/main.py:120-126 | a value with at most four decimals prints as its integer part, a point and its four decimals, after a minus when negative |
| Text.Fmt4NegativeExample | Main/main.py:126 | the start coordinate -0.15 prints as `-0.1500` |
| Protocol.Render | Main/main.py:118-128 | no command text contains a carriage return or a line feed |
| Protocol.RenderSpelling | Main/main.py:118-128 | each command's text is its opcode and `KEY=value` fields, real values in `:.4f` and counts as `str(int)` |
| Protocol.FixedSpelling | Main/main.py:119-127 | the texts of the five commands without arguments are `SN X=2 Y=1`, `TTL Y=2`, `B X=0.1 Y=0.1`, `Z` and `AR` |
| Protocol.GridStart | Main/main.py:115-116 | the first grid point is centred: adding the grid's extent `nx*Rx` (resp. `ny*Ry`) to it gives its negation |
| Protocol.GridStartSpelled | Main/main.py:115-126 | with 3 grid points at step 0.1, the first grid point goes out as `-0.1500` |
| Protocol.MeasureCommands | Main/main.py:118-128 | an acquisition is nine commands |
| Protocol.MeasureLines | Main/main.py:118-128 | an acquisition is nine lines, none containing a line break |
| Protocol.MeasureLinesFixed | Main/main.py:118-128 | lines 1, 3, 4, 6 and 9 of the acquisition are the five fixed commands, in that order |
| Protocol.MeasureLinesArguments | Main/main.py:118-128 | lines 2, 5, 7 and 8 carry the exposure, the objective offset, the grid counts and steps, and the first grid point, spelt with `:.4f` and `str(int)` |
| Protocol.Frames | Main/main.py:135 | one payload per command, in order: payload k is command k followed by `\r\n` |
| Protocol.LineEnd | Main/main.py:135 | the controller, reading the stream the window writes, ends a line at the first line feed, or at the end of the stream |
| Protocol.WireRoundTrip | Main/main.py:135 | the controller, reading the CR-LF framed stream the window writes, recovers exactly the commands written, because no command contains a line break |
| Protocol.ReceivedFrame | Main/main.py:135 | the controller, reading one framed command followed by more of the stream, reads the command back and goes on with the rest |
| Protocol.AckWithWhitespace | Main/main.py:136-139 | a reply of `:A` surrounded by any whitespace, such as its own `\r\n`, is accepted |
| App.BaudItemsParse | Main/main.py:34 | every entry of the baud-rate selector parses as the rate it spells |
| App.Drop | Main/main.py:136 | after `k` reads the reader sees the rest of the script from the `k`-th line on |
| App.StrippedReplyAt | Main/main.py:136-139 | an answer is accepted exactly when the reply line is an acknowledgement; a timed-out read gives the empty answer |
| App.Drive | Main/main.py:130-142 | a run writes at most one command per list entry and logs two lines per command written; a run that was never refused writes the whole list |
| App.DriveStopsAtFirstRejection | Main/main.py:130-142 | every command is written iff every answer is `:A`; otherwise the last command written is the first refused one, and every earlier answer was `:A` |
| App.AllAcknowledged | Main/main.py:130-131 | when every answer is `:A` the whole list is written and nothing is refused |
| App.DriveLog | Main/main.py:137-144 | for each command written the log gains `> cmd`, then `< :A`, or the disconnection line after the refused one, which gets no `<` line |
| App.DriveAfterRejection | Main/main.py:134 | once a command is refused, the commands after it change nothing |
| App.Port.Write | Main/main.py:135 | writing appends one payload and consumes no reply |
| App.Port.ReadLine | Main/main.py:136 | a read returns the next scripted reply, or the empty line once the script is used up |
| App.Port.Close | Main/main.py:75 | closing leaves what was written and the unread replies untouched |
| App.SerialApp.CurrentBaudRate | Main/main.py:54 | the baud rate the window opens the port at is the number the selected entry spells, one of 9600, 19200, 28800 and 115200 |
| App.SerialApp.constructor | Main/main.py:10-34 | the window starts with all ten controls disabled, no connection, an empty log, empty port and objective selectors, and the baud-rate selector on the first of its four entries |
| App.SerialApp.ScanPorts | Main/main.py:36-44 | the port selector lists exactly the ports found; only a non-empty list enables the three connection controls, and an empty one leaves every flag as it was |
| App.SerialApp.ToggleConnection | Main/main.py:46-50 | with an open connection it disconnects, otherwise it connects |
| App.SerialApp.ConnectToSerial | Main/main.py:52-71 | an open port becomes the connection, the log gains `Connected to <port> at <rate>`, the acquisition controls are enabled and the table is loaded; a failed open only raises a connection-error alert |
| App.SerialApp.DisconnectFromSerial | Main/main.py:73-84 | the port is closed and dropped, the log gains the disconnection line and the acquisition controls are disabled; without a connection nothing changes at all |
| App.SerialApp.LoadObjectives | Main/main.py:86-96 | a table read becomes the objectives, and the selector, cleared and then filled one row at a time, lists each row's name in order and shows the first; a failed read only raises the file-error alert; the connection, log and flags are untouched |
| App.SerialApp.Refuse | Main/main.py:139-141 | a refused reply raises the `Unexpected response` alert and then disconnects |
| App.SerialApp.SendCommand | Main/main.py:133-144 | it writes `cmd\r\n` and reads one reply; `:A` logs `> cmd` and `< :A`; anything else logs `> cmd`, raises the alert and disconnects; without a connection nothing happens |
| App.SerialApp.SendNext | Main/main.py:130-131 | one turn of the loop advances the state by exactly one step of `Drive` |
| App.SerialApp.SendAll | Main/main.py:130-131 | the payloads written are exactly the framed commands up to the first refused one; the replies consumed, the log, the alerts, the connection and the flags are those `Drive` gives |
| App.SerialApp.LaunchMeasure | Main/main.py:98-131 | without an open connection it only raises a warning; without a selected objective it only raises a warning and writes nothing; otherwise the nine lines for the form and the objective go out as `SendAll` states |
| App.SerialApp.SelectPort | Main/main.py:53 | picking a listed port keeps the invariant |
| App.SerialApp.SelectBaudRate | Main/main.py:54 | picking a listed baud rate keeps the invariant |
| App.SerialApp.SelectObjective | Main/main.py:103 | picking a listed objective keeps the invariant |
| App.SerialApp.EditForm | Main/main.py:108-112 | editing the form keeps the invariant and changes only the form |

## Left out

- The Qt signal wiring of the buttons (`Main/main.py:29-31`) and the `__main__` bootstrap (`Main/main.py:146-150`) are event-loop plumbing. The methods they call are modelled directly.
- The widgets are reduced to their enable flags, the selectors' entries and indices, and the form's values. Whatever is drawn is not modelled.
- pyserial is not modelled.
  - `serial.Serial(...)` becomes the `OpenResult` parameter of `ConnectToSerial`.
  - `comports()` becomes the port list given to `ScanPorts`.
  - `write`, `readline` and `close` become the `Port` class.
  - Bytes are not distinguished from text, and `.encode()` and `.decode()` are the identity. A reply that is not valid UTF-8, which would raise in `.decode()`, is not modelled.
- Reading `objectives.xlsx` with pandas, and finding its path from `__file__`, are file I/O. They become the `LoadResult` parameter. A table row is its name and its two offsets.
- `QMessageBox` dialogs become entries of the `alerts` sequence. Their modality is not modelled.
- The form holds reals and integers. `float()` of a text field that is not a number raises a `ValueError` outside any handler in `launch_measure`. That path is not modelled.
- Python floats are IEEE doubles; the model computes on exact reals.
  - Python prints a tie exactly as stored in binary; the model rounds half to even on the exact value.
  - Python's `-nx * float(deltax) / 2` is `-0.0` whenever one factor is zero and the other has the opposite sign. That happens for an empty grid with a negative step, and for a non-empty grid with a zero step: with `Ny=1` and `Ry=0` Python sends `Y=-0.0000`. The model computes `0.0` in both cases and prints `0.0000`.
- Text.ParseInt: accepts only an optional sign followed by decimal digits. The whitespace, underscores and non-ASCII digits that Python's `int()` also accepts are not modelled. The baud-rate entries never contain them.
- Protocol.MeasureCommands: its own contract states only the length. The content of each line is stated by `MeasureLinesFixed` and `MeasureLinesArguments`.
- App.SerialApp.ScanPorts: clearing the port selector before refilling it is one assignment, and the selector's first entry is taken as selected, as Qt's combo box does.
- App.SerialApp.SendCommand: the model's `Port` never fails. In the code, `write` and `readline` (`Main/main.py:135-136`) can raise pyserial's `SerialException`, for example when the device is unplugged, and neither `send_command` nor `launch_measure` catches it. The loop at `Main/main.py:130-131` then stops with the connection still set and the seven acquisition controls still enabled, and no disconnection line or alert is produced. The model has no such path.
- App.SerialApp.ConnectToSerial: an exception raised by the table load is caught inside the load, as in the code. An exception from the log append or from enabling the widgets is not modelled.
