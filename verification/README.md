# DP832 client — a Dafny model

This project models the core of a small Go client for the Rigol DP832 bench
power supply (`main.go`). The client talks SCPI over a TCP socket. It sends the
`*IDN?` query once and refuses any model other than `DP832`. Then, on every
timer tick, it sends `MEAS:ALL? CH1`, `MEAS:ALL? CH2` and `MEAS:ALL? CH3`, in
that order. It decodes each reply (current, voltage and power, in that order)
and logs the reading. The loop stops at the first error.

Modules, one per concern of the client:

- `Wrappers`: `Option`, `Result` and `Outcome`, with failure propagation.
- `Errors`: every way an operation can fail.
  - The client's own `panic`s are errors here, so they can be stated and proved about:
    - an index out of range when a reply has too few fields;
    - a slice out of bounds when a reply line is shorter than two bytes;
    - the `default` branch of `Channel.String`.
- `Text`: what the client relies on from the Go library.
  - comma splitting (`strings.Split`) and its inverse, joining;
  - reading one line (`bufio.Reader.ReadString('\n')`).
- `Channels`: the channel enumeration.
  - its `iota` codes;
  - the protocol tokens (`chStrMap`);
  - the display names (`Channel.String`);
  - the table of rated ranges (`chRanges`).
- `Transport`: one command/response exchange (`command`). A device is a function. It takes the number of exchanges made so far and the bytes written. It returns whether the write succeeded and which bytes arrive afterwards.
- `Handshake`: the `*IDN?` decoding (`IDN`) and the model check (`Connect`).
- `Measuring`: the measurement query and reply decoding (`Measure`).
- `Polling`: the program as a whole (`main`).
  - One pass over Ch1, Ch2, Ch3 is a function (`Pass`). The loop that computes it is `PollChannels`, and `PollPass` runs that loop on Ch1, Ch2, Ch3.
  - A run of several ticks is `Run`.
  - Dial, handshake and run together are `Session`.
  - Each is a `Trace`: the requests sent, the readings logged and the error that stopped the run.

Three behaviours of the code are easy to misread, and the model follows the code in each:

- A channel has two different strings. `chStrMap` gives the query argument
  (`CH1`) and `Channel.String` gives the logged name (`Ch1`).
  `Channels.Token` and `Channels.Name` model the two tables, and
  `Channels.NameIsNotToken` proves that they never agree.
- A measurement reply is not checked to have exactly three fields. The code
  reads fields 0, 1 and 2 and ignores any further fields
  (`Measuring.ExtraFieldsIgnored`). A reply with fewer fields makes it panic
  on the missing index, which this model reports as `FieldMissing`.
- An identification reply is not checked to have exactly four fields. The
  code reads fields 0 to 3 and ignores any further fields
  (`Handshake.ExtraFieldsIgnored`). A reply with fewer fields panics, which
  this model reports as `FieldMissing`.

## Model

| member | source | states |
|---|---|---|
| Channels.Code | main.go:40-47 | each channel's `iota` value is its position in declaration order (ChCur, Ch1, Ch2, Ch3), so it lies in 0..3 |
| Channels.FromCode | main.go:40-47 | an integer denotes a channel exactly when it is in 0..3, and then the channel's code is that integer |
| Channels.TokenOfCode | main.go:49-56 | looking up a code yields the channel's token, and yields the empty string (Go's missing-key value) for a code that is not a channel |
| Channels.TokenShape | main.go:49-56 | only the aggregate channel's token is empty; output n's token is "CH" followed by the digit n |
| Channels.TokenInjective | main.go:49-56 | distinct channels are sent with distinct tokens |
| Channels.UnknownCodeToken | main.go:146 | an out-of-range channel value produces the same query as the aggregate channel |
| Channels.Name | main.go:58-71 | a display name is "Ch" and one character: 'C' for the aggregate channel, the output's digit otherwise |
| Channels.NameInjective | main.go:58-71 | distinct channels have distinct display names |
| Channels.NameOfCode | main.go:58-71 | a name exists exactly for the four channel values; every other value is an InvalidChannel error carrying that value |
| Channels.NameIsNotToken | main.go:49-71 | no channel is logged under the token it is queried with |
| Channels.RangeOf | main.go:73-99 | outputs 1–3 have a range and the aggregate channel has none; every range is non-negative with min ≤ max; current max is 3.2 A; voltage max is 5.3 V on channel 3 and 32 V on channels 1 and 2 |
| Text.Split | main.go:136 | splitting on a separator gives one field more than there are separators, and no field contains the separator |
| Text.JoinSplit | main.go:136 | joining the comma-split fields gives the original text back |
| Text.SplitJoin | main.go:136 | splitting a join of comma-free fields gives those fields back |
| Text.SplitAppend | main.go:153 | splitting `a` + "," + `b` gives the fields of `a` followed by the fields of `b` |
| Text.ReadLine | main.go:106 | a line is read exactly when the input holds a line feed, and the line is the input up to and including its first line feed |
| Transport.FrameShape | main.go:102 | the bytes written are the command and then one line feed (for commands without `%`) |
| Transport.FrameInjective | main.go:102 | different commands put different bytes on the wire (for commands without `%`) |
| Transport.FrameIsOneLine | main.go:102 | a command without a line feed (and without `%`) arrives as exactly one line |
| Transport.Command | main.go:101-112 | a failed write is WriteFailed; a read with no line feed is ReadFailed; the result is a payload exactly when the write succeeds and a line longer than a bare line feed arrives; the payload is that line minus its last two bytes; a line that is only a line feed gives the error ShortLine("\n"), and that is the only way to get ShortLine |
| Transport.CommandPayload | main.go:106-111 | for a reply line `p` + any non-line-feed byte + line feed, the payload is `p`, whatever follows |
| Transport.CommandOk | main.go:110 | the reply "OK\r\n" yields the payload "OK" |
| Transport.BareLineFeedTruncates | main.go:110 | a line that ends in a bare line feed loses its last payload character |
| Handshake.EncodeFlat | main.go:136-140 | an identity's reply is its four fields, in order, separated by commas |
| Handshake.Decode | main.go:136-141 | an identification reply decodes exactly when it has at least four comma-separated fields; the identity is the reply's first four fields; otherwise the error names the missing index and the field count |
| Handshake.DecodeEncode | main.go:136-141 | any comma-free identity survives encoding and decoding |
| Handshake.ExtraFieldsIgnored | main.go:136-141 | fields after the fourth do not change the identity |
| Handshake.DecodeFields | main.go:136-141 | four comma-free fields map, in order, to manufacturer, model, serial and version |
| Handshake.DecodeRigol | main.go:130-141 | the reply of a Rigol DP832 decodes to its identity |
| Handshake.Identify | main.go:130-142 | a failed exchange of `*IDN?` is passed through; otherwise the result is the decoded reply |
| Handshake.Connect | main.go:114-128 | connecting succeeds exactly when the dial succeeds, identification succeeds and the model is exactly DP832; a dial failure, an identification error and a wrong model (carrying the reported model) are its three errors |
| Handshake.ConnectVerdict | main.go:120-127 | a device that identifies with comma-free fields is accepted exactly when its reported model is DP832 |
| Handshake.RefuseDP831 | main.go:124-126 | a DP831 is refused, and the error names DP831 |
| Measuring.QueryShape | main.go:146 | a measurement query is "MEAS:ALL? " followed by the channel's token, on one line |
| Measuring.QueryInjective | main.go:146 | different channels are queried with different commands |
| Measuring.AggregateQuery | main.go:146 | the aggregate query ends in a bare space |
| Measuring.ParseField | main.go:155-177 | a field is missing (its index is past the field count), or not a number, or yields its parsed value |
| Measuring.Decode | main.go:153-178 | a reply decodes exactly when fields 0, 1 and 2 all parse; the reading is current := field 0, voltage := field 1, power := field 2, and the channel is the queried one; otherwise the error belongs to the first of the three fields that is missing or does not parse |
| Measuring.FewFieldsFail | main.go:153-177 | a reply with fewer than three fields never decodes |
| Measuring.DecodeFields | main.go:153-178 | three comma-free numbers decode in the order current, voltage, power |
| Measuring.ExtraFieldsIgnored | main.go:153-177 | fields after the third never change the result |
| Measuring.ChannelFromArgument | main.go:178 | the same reply read for two channels gives the same numbers; only the channel label differs |
| Measuring.FirstFieldFirst | main.go:155-159 | an unparsable first field is the error, whatever the other fields hold |
| Measuring.Measure | main.go:144-181 | every reading is labelled with the channel asked for; exchange errors pass through; otherwise the result is the decoded payload |
| Measuring.MeasureFields | main.go:144-181 | a device that answers with three comma-free numbers yields the reading they spell, current first |
| Measuring.MeasureExample | main.go:144-181 | the reply "1.234,5.678,9.012" on channel 1 reads as current 1.234, voltage 5.678 and power 9.012 |
| Polling.NoFormatVerbs | main.go:102 | neither the identification query nor any measurement query contains `%`, so Go's formatted write sends each one unchanged |
| Polling.BytesInjective | main.go:132-146 | the identification query and the three measurement queries are pairwise distinct on the wire |
| Polling.MeasurerLabels | main.go:178 | the client's measurement step labels every reading with the channel it queried |
| Polling.Pass | main.go:195-201 | a pass sends at most one query per channel; a complete pass logs one reading per channel; a stopped pass sends one more query than it logs |
| Polling.PassSent | main.go:195-196 | a pass queries its channels in order, one per exchange |
| Polling.PassLogged | main.go:196-200 | the `i`-th logged reading of a pass is what channel `i` returned on the pass's `i`-th exchange |
| Polling.PassStopped | main.go:196-199 | a stopped pass ends with the error of the measurement right after the last logged one |
| Polling.PollChannels | main.go:195-201 | the loop over the channels, sending, logging and stopping at the first error, produces exactly the pass |
| Polling.PassLabels | main.go:196-200 | with a step that labels readings faithfully, each reading a pass logs carries the channel queried for it |
| Polling.PollPass | main.go:195-201 | one tick queries Ch1, Ch2, Ch3 in that order, never the aggregate channel, and labels each reading with the channel queried |
| Polling.Run | main.go:194-202 | a run without errors makes three exchanges per tick and logs a reading for each; a run that stops makes one exchange more than it logs |
| Polling.RunSentAt | main.go:194-202 | across ticks, exchange `i` queries channel 1, 2, 3 for `i` mod 3 = 0, 1, 2 |
| Polling.RunLoggedAt | main.go:194-202 | across ticks, reading `i` is what that channel returned on exchange `i` |
| Polling.RunStopped | main.go:194-202 | a failing run stops with the error of the first measurement it did not log |
| Polling.RunOrder | main.go:194-202 | a whole run queries 1, 2, 3, 1, 2, 3, … and logs, at each position, the reading returned for the channel queried there |
| Polling.RunChannels | main.go:194-202 | a run never queries the aggregate channel, and each logged reading carries the channel queried for it |
| Polling.Session | main.go:183-202 | a failed dial sends nothing; otherwise the first exchange is identification; a refused handshake stops right there with its error |
| Polling.PollAfterHandshake | main.go:194-202 | after the identification exchange, exchange `i` queries channel (`i` − 1) mod 3 + 1 |
| Polling.SessionOrder | main.go:189-202 | after a successful handshake the identification query is not sent again, and measurement queries follow the cyclic channel order |
| Polling.SessionRefusesDP831 | main.go:189-192 | a device reporting DP831 never receives a measurement query |

## Left out

- The socket is not modelled: dialling is a boolean, and each exchange's write
  result and incoming bytes come from the `Device` function. The address flag
  and its default `192.168.0.200:5555` are not modelled either.
- The code makes a fresh `bufio.Reader` per command, so buffered bytes after
  the first line are lost. This model drops them too: each exchange gets its
  own input, and everything after the first line is ignored.
- `strconv.ParseFloat` is the `parse` parameter, which maps text to a real or
  to no value; 64-bit floating point rounding is not modelled.
- Measuring.Decode: `strconv.ParseFloat` also accepts `NaN`, `Inf` and
  `-Infinity`, which have no real value. A reply such as `NaN,1,2` decodes in
  Go but has no faithful image here: `parse` must either reject it or give it
  some real.
- Transport.FrameShape: holds of Go's write only for commands without `%`.
  Go writes a command with `fmt.Fprintf(conn, fmt.Sprintf("%s\n", command))`,
  so the command becomes a format string. Any `%` in it is rewritten: `%%`
  becomes `%`, and `%d` becomes `%!d(MISSING)`. `Frame` sends the command
  unchanged. Go's formatting verbs are not modelled, and every command the
  client sends is free of `%` (`Polling.NoFormatVerbs`).
- Transport.FrameInjective: not true of Go for commands with `%`. For
  example, `%d` and `%%!d(MISSING)` are written as the same bytes. The reason
  is the one given for Transport.FrameShape.
- Transport.FrameIsOneLine: not true of Go for commands with `%`. For
  example, `a%` is written as `a%!\n(MISSING)`, with no final line feed. The
  reason is the one given for Transport.FrameShape.
- Transport.Command: the bytes it writes are those of `Frame`, so for commands
  with `%` they differ from Go's, as described for Transport.FrameShape.
- Transport.Command: a reply that never contains a line feed is `ReadFailed`.
  In Go, `ReadString` returns an error only when the connection is closed or
  fails. A device that neither sends a line feed nor closes the connection
  blocks the client forever, because there is no read timeout; the model
  cannot express that.
- Characters stand for bytes. Each `char` of a command or reply is one byte on
  the wire, so replies are byte strings, and text outside ASCII is not
  modelled. For example, cutting the last two bytes of a line at main.go:110
  can split a multi-byte UTF-8 character, and the model cannot show that.
- The timer (`time.Tick`, 100 ms, dropping ticks that come late) is not
  modelled. A run is a given number of ticks, and time is not represented.
- `log.Printf`, `log.Fatal` and `panic` are not modelled. A log line is an
  entry in `Trace.logged`, and a fatal error or panic is the `stop` error that
  ends the trace.
- `Measurement.String` (the log line format) is not modelled.
- Alongside an error, the Go functions return an empty string or a zero or
  partly filled struct, which callers ignore. Here such results are only the
  error.
- Go's exact error texts are not modelled, such as the "Epected model DP832"
  message; each error is a constructor of `Errors.Error`.
- `chRanges` is modelled as data (`Channels.RangeOf`). No reading is checked
  against it, and the client does not check readings against it either.
