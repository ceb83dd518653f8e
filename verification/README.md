# Batch switch-port renamer (port_name.py), modelled in Dafny

`port_name.py` renames ports on cloud-managed switches. Its `main` reads
the options `-k <api_key> -o <org_id> -f <csv_file>`. Then it reads the CSV
file: a header row, then rows of port number, port name and switch serial.
Each data row becomes one `update_switch_port` call. That call is a PUT of
the body `{"name": "<name>"}` to the switch port's dashboard address.

The model has five modules:

- `ArgOptions` (`arg_options.dfy`) folds the pairs that getopt returns into
  the three required arguments. Each argument starts as the text `null`.
  `Configure` states the result without the loop. `ParseArgs` is the loop
  itself, proved equal to `Configure`.
- `Payload` (`payload.dfy`) builds the body by text substitution, as
  `main` does. A JSON string-literal scanner (`ClosingQuote`) and a decoder
  (`DecodeString`, after section 7 of RFC 8259) show what the missing
  escaping does to names that contain `"` or `\`.
- `SwitchApi` (`switch_api.dfy`) models the dashboard as a `Dashboard`
  object. It logs every `update_switch_port` call, whether or not the PUT
  got through, and answers each PUT through a fixed reply function.
  `UpdateSwitchPort` catches a `RequestException` and returns `None`, as
  `update_switch_port` does.
- `PortName` (`port_name.dfy`) holds `RenamePorts`, the script's `main`: the option handling, then the
  nested loop over the rows. `Run` states the whole run without loops, as
  an ending plus the ordered list of calls; `RunRows` is its part after the
  options. `RenamePorts` is proved to produce exactly that.
- `Wrappers` (`wrappers.dfy`) holds `Option`, which stands in for Python's `None`.

The code repeats the batch. The outer `for i in portsAndNames` never uses
`i`, so every data row is sent once per row of the file, header included.
A file of n rows therefore makes n * (n - 1) calls. A data row with fewer
than three fields raises an uncaught `IndexError`. That ends the run during
the first pass, after the calls for the rows before it. The comment above the
loop, `#FOR each portNumber, Assign #name` (line 168), points to one call
per data row instead. The model follows the code.

The file does not compile as written, so the model follows its evident intent:

- Lines 129-130 indent with spaces amid tabs. They are read as the
  `elif opt == '-f'` branch of the option chain.
- Line 156 indents with spaces under the tab-indented `if debug > 1:` on
  line 155. It is read as that branch's body, which is dead.
- Lines 179-181 hold an `except IOError` with no `try` and no colon. It is
  dropped: the call on line 178 is followed directly by the next row.

## Model

| member | source | states |
|---|---|---|
| `ArgOptions.ParseArgs` | port_name.py:110-135 | The option loop gives what `Configure` gives. An unknown option exits 2. A `-h` exits 0 as soon as it is reached. Otherwise each argument is the last one given, and a missing or `null` argument exits 2. |
| `ArgOptions.LastArgWitness` | port_name.py:121-130 | The value the fold keeps for a flag is either `null` (the flag never occurs) or the argument of its last occurrence. |
| `ArgOptions.LastArgAt` | port_name.py:121-130 | A later `-k`/`-o`/`-f` overrides an earlier one: the argument of the last occurrence is the one kept. |
| `ArgOptions.StartTakesLastOccurrences` | port_name.py:121-135 | The run gets past the options iff every option is accepted, none is `-h`, and `-k`, `-o`, `-f` each end with a non-`null` argument. The values kept are those of their last occurrences. |
| `ArgOptions.HelpExitsZero` | port_name.py:116-124 | When getopt accepts the options, the exit is status 0 exactly when `-h` occurs, wherever it stands. |
| `ArgOptions.UnknownOptionExitsTwo` | port_name.py:116-120 | An option outside `hk:o:f:` (such as `-s`, `-t`, `-p`) exits with status 2. |
| `ArgOptions.LiteralNullIsMissing` | port_name.py:133-135 | A required argument whose last value is literally `null` counts as missing, so the run exits. |
| `Payload.NameRoundTrip` | port_name.py:174 | The body is `{"name": "` + name + `"}`. `NameOf` reads the name back, and the two are inverse in both directions. |
| `Payload.NamePayloadInjective` | port_name.py:174 | Different names give different bodies. |
| `Payload.ClosingQuote` | port_name.py:174 | Where a JSON reader ends the string that holds the name: always at a quote character, or nowhere. |
| `Payload.PlainNameIntact` | port_name.py:174 | For a name with no `"` and no `\`, the JSON string closes exactly at the end of the name. |
| `Payload.QuoteEndsNameEarly` | port_name.py:174 | No escaping: for a name `a"b` where `a` has no `"` and no `\`, the string closes after `a`, so `b` is read as JSON outside the string. |
| `Payload.TrailingBackslashUnterminated` | port_name.py:174 | A name with no `"` and no `\`, followed by one `\`, escapes the closing quote, so the string never closes and the body is not JSON. |
| `Payload.DoubledBackslashCloses` | port_name.py:174 | A name with no `"` and no `\`, followed by two `\`, closes normally: the string ends right after the name. |
| `Payload.DecodeString` | port_name.py:174 | What a JSON reader decodes from the string holding the name: it ends at a quote, the decoded text is never longer than the source text, and it is as long only when it is a verbatim copy (no `"`, `\` or control character). Unknown escapes, raw control characters and an unclosed string give `None`. |
| `Payload.DecodeClosesWhereScanned` | port_name.py:174 | Where decoding succeeds, the string ends where `ClosingQuote` says. |
| `Payload.DecodeVerbatim` | port_name.py:174 | Text without `"`, `\` or control characters decodes to itself. |
| `Payload.NameReadsBackIff` | port_name.py:174 | For a name taken as Unicode text (a UTF-8 file), the body reads back as the object holding exactly that name iff the name has no `"`, no `\` and no control character. Any other name reaches the dashboard changed, or not as that object. |
| `Payload.EscapeRenames` | port_name.py:174 | The name `C:\temp` reads back with a tab in place of `\t`. |
| `Payload.UnknownEscapeUnreadable` | port_name.py:174 | The name `Desk\12` holds `\1`, which is no JSON escape, so the body does not read back as a name. |
| `Payload.NameInjectsMember` | port_name.py:174 | A name can inject a second member into the body object. |
| `SwitchApi.SwitchPortUrlInjective` | port_name.py:85 | For serials without `/`, the PUT address identifies exactly one (serial, port) pair. |
| `SwitchApi.Dashboard.UpdateSwitchPort` | port_name.py:84-97 | Every call appends one (key, serial, port, body) entry to the log. The PUT goes to `SwitchPortUrl(serial, number)` with the key and the body. A response is returned. A `RequestException` is swallowed and the result is `None`. |
| `PortName.BatchCalls` | port_name.py:170-178 | One pass over well-formed data rows issues one call per row, in file order. Data row q gives serial `q[2]`, port `q[0]` and the body built from `q[1]`. |
| `PortName.FirstMalformed` | port_name.py:170-173 | Finds the first data row with fewer than three fields (the one where `j[0..2]` raises), or reports that there is none. |
| `PortName.ApplyNames` | port_name.py:170-178 | The inner loop appends to the log the calls of the data rows before the first short row. It reports whether it got through every row. |
| `PortName.RenamePorts` | port_name.py:108-178 | The whole run: its ending and the log it appends are those of `Run`. They are the same whatever the dashboard replies, so a caught `RequestException` never stops the loop. A response that is not JSON is not modelled (see below). |
| `PortName.ApplyEveryPass` | port_name.py:169-178 | The outer loop runs the inner loop once per row of the file. It ends and logs as `RunRows` says: the batch repeated, or an `IndexError` in the first pass. |
| `PortName.RunCallCount` | port_name.py:169-178 | Past the options, a file of n well-formed rows ends normally after n * (n - 1) calls. An empty or header-only file makes none. |
| `PortName.RunCallAt` | port_name.py:169-178 | Pass p (one per row of the file, header included) sends data row q + 1 as call p * (n - 1) + q. So the header is never sent, each pass follows file order, and all passes are identical. |
| `PortName.HeaderOnlySendsNothing` | port_name.py:169-170 | Past the options, an empty or header-only file makes no call and ends normally. |
| `PortName.ShortRowAborts` | port_name.py:170-178 | The first data row k with fewer than three fields ends the run with an `IndexError` (process status 1) after exactly k - 1 calls: rows 1 to k - 1, once each, in order. |
| `PortName.SetupFailureSendsNothing` | port_name.py:133-135 | When the option handling exits, no call is made and the process status is the exit code. |
| `PortName.ExtraColumnsIgnored` | port_name.py:171-174 | Columns after the third never affect a run. |
| `PortName.SampleFileSentThreeTimes` | port_name.py:169-178 | A header plus two rows for switch `Q2XX-0000-0001` gives six calls: the two rows, three times over. |

## Left out

- getopt's tokenising of argv is not modelled. The input is the list of
  (option, argument) pairs. Only getopt's unknown-option error is kept.
  A missing option argument and the stop at the first non-option are not.
- CSV parsing and the `'rU'` universal-newline open (lines 158-160) are
  not modelled. The rows arrive already split into fields. A file that
  cannot be opened raises an uncaught `IOError`; that is not modelled.
- The HTTP transport of `update_switch_port` is not modelled. The reply is
  a fixed function of the request. `json.loads` is not modelled: a response
  stands for its decoded JSON by its text.
- `PortName.RenamePorts`: does not model the abort on a response that is
  not JSON. `json.loads` (line 95) then raises a `ValueError`, which the
  `except` on line 96 does not catch, so the source ends the run there. The
  model goes on with the next call.
- `Payload.NameReadsBackIff`: names are taken as Unicode text, as if decoded
  from a UTF-8 file. The script (Python 2) reads the CSV's raw bytes (lines
  158-160) and sends them unchanged (lines 88, 174). A name saved in another
  encoding, such as cp1252 `Büro` with byte 0xFC, gives a body that is not
  UTF-8 JSON text (section 8.1 of RFC 8259). The model does not show that.
- `Payload.SoleName`: recognises only the object laid out as the template
  lays it out, with the string closed just before the final `}`. A body in
  which a quote closes the string early, and which is still JSON (as in
  `NameInjectsMember`), gives `None` rather than the object it is.
- `Payload.Escape`: a `\u` escape of a lone surrogate gives `None`. A Dafny
  string holds only Unicode scalar values, so it cannot hold the result, even
  though some JSON readers accept such an escape.
- `list_networks`, `get_inventory`, `list_switch_ports`, `get_port_details`
  and `list_clients` (lines 51-82, 99-105) are left out. `main` never calls them.
- The search-parameter block (lines 138-147) is left out. `ARG_SEARCH`
  stays `null` because `-s` is not an accepted option, and the block has no
  effect on the run.
- The `debug` branches, the help text, the error message printed for a
  `RequestException`, timestamps and other printing are left out. `debug`
  is fixed at 0, and the rest is output only.
- `ORG_ID` is required and checked, but the rest of the run never uses it.
  The model does the same.
- The malformed `except IOError` block (lines 179-181) is left out. It has
  no `try`, so it has no behaviour to model.
