# hdmimatrix in Dafny

A model of `hdmimatrix`, a Python driver for AVGear 4x4 HDMI matrix switches. The driver
talks to the device over a raw TCP connection. It sends ASCII command strings such as
`OUT03:02.` and reads back whatever text the device emits until the line goes quiet.

The driver has two clients: `HDMIMatrix`, which uses blocking sockets, and
`AsyncHDMIMatrix`, which uses asyncio streams. Here both are one class, `Driver.Matrix`,
parameterised by a `Variant` (`Sync` or `Async`). The places where the two differ are
explicit case splits.

The model is organised as follows.

- **`Text`** (text.dfy): bytes; `str.encode("ascii")`; `bytes.decode('ascii', errors='ignore')`; `str.strip()` and `str.split('\n')` on ASCII text; and the decimal strings written by `{:02d}` and read by `int()`.
- **`Commands`** (commands.dfy) covers the `Commands` enumeration and the fixed table of generated query methods (`_SIMPLE_COMMANDS`). It also covers the `{:02d}` templates, port validation against the fixed 4x4 size, and the three payload builders. Each builder is paired with a decoder, and the round trip is proved.
- **`StatusParser`** (status_parser.dfy) and **`StatusLines`** (status_lines.dfy) cover `parse_video_status`.
  - The regular expression `Output\s+(\d+)\s+Switch\s+To\s+In\s+(\d+)!` is a token sequence.
  - A greedy scanner is proved equivalent to the pattern's declarative meaning.
  - A leftmost search, like `re.search`, is built on the scanner.
  - The parsing loop is a method proved against a fold over the lines, in which later lines win.
- **`ResponseReader`** (response_reader.dfy) covers `_read_response`'s polling loop.
  - Its environment is a script of read results and clock readings in integer milliseconds.
  - The loop is a method proved equal to a functional specification, pass by pass.
  - The reply is proved to be the received bytes, joined, decoded and stripped.
- **`Session`** (connection.dfy): the connection fields (`connection`, or `reader`/`writer` plus `_connection_lock`); `connect`, `disconnect` and `is_connected` for both clients; and reading on a link.
- **`Requests`** (transaction.dfy): the policy of `_process_request`, as a function of the link, the `auto_reconnect` flag and what the network does. It returns the result, the link afterwards and the transport calls made, in order.
- **`Driver`** (matrix.dfy): the class.
  - Its methods update the connection fields in place, and a ghost field records the transport calls.
  - Each method is proved to produce what `Session` and `Requests` specify, so their properties hold for the object.

Three behaviours of the code, as written, differ from the obvious design. The model
follows the code in each case.

1. The blocking client counts a timed-out greeting read as a failed `connect`. That read sits inside the `try` whose handler closes the socket and returns False. The asyncio client ignores a greeting timeout.
2. An empty read keeps the blocking reader polling. It ends the asyncio reader at once.
3. After a failed send and a successful reconnect, the retry's own send failure is not turned into "Connection lost". It propagates as is (`RetrySendFailed`).

One further consequence of the code is proved rather than corrected.

- When the asyncio client's greeting read raises something other than a timeout, `connect` returns False but leaves the streams and the lock assigned. An asyncio stream read raises only after its transport has lost the connection, and by then the writer reports `is_closing()`. So the client does not count as connected (`Session.AsyncHalfOpen`), and its next request connects again or fails with "Not connected" (`Requests.HalfOpenThenRequest`).

The network, the clock and the wire are parameters of the model:

- a `ConnectAttempt` says how each connect goes;
- a `SendOutcome` says whether each send raises;
- a `ReadScript` gives each read's result and each clock reading;
- a `Network` bundles the ones one request can meet.

## Model

| member | source | states |
|---|---|---|
| Text.Encode | hdmimatrix/hdmimatrix.py:117 | Encoding an ASCII string gives one byte per character |
| Text.Decode | hdmimatrix/hdmimatrix.py:327 | Decoding with errors ignored yields ASCII text no longer than the bytes |
| Text.DecodeEncode | hdmimatrix/hdmimatrix.py:117 | Decoding the ASCII encoding of an ASCII string gives the string back |
| Text.DecodeAppend | hdmimatrix/hdmimatrix.py:327 | Decoding two byte strings one after the other equals decoding their concatenation |
| Text.HighByteDropped | hdmimatrix/hdmimatrix.py:327 | `errors='ignore'`: a byte above 127 anywhere in the input leaves the decoded text as if it were not there |
| Text.DecodeFlatten | hdmimatrix/hdmimatrix.py:352 | Decoding each chunk and joining the results equals decoding the joined chunks |
| Text.TrimStart | hdmimatrix/hdmimatrix.py:174 | The result is a suffix of the input, everything dropped is whitespace, and the result does not start with whitespace |
| Text.TrimEnd | hdmimatrix/hdmimatrix.py:174 | The result is a prefix of the input, everything dropped is whitespace, and the result does not end with whitespace |
| Text.Strip | hdmimatrix/hdmimatrix.py:352 | The result is a contiguous slice of the input with only whitespace around it, neither starting nor ending with whitespace |
| Text.Flatten | hdmimatrix/hdmimatrix.py:352 | `''.join`: no chunks give the empty text and one chunk gives that chunk |
| Text.FlattenAppend | hdmimatrix/hdmimatrix.py:352 | Joining two runs of chunks is joining each and concatenating, so the join is the concatenation of all chunks in order |
| Text.StripUnique | hdmimatrix/hdmimatrix.py:174 | There is only one such slice, so the characterisation of `Strip` determines it |
| Text.StripIdempotent | hdmimatrix/hdmimatrix.py:173-174 | Stripping an already stripped string changes nothing |
| Text.StripTrimmed | hdmimatrix/hdmimatrix.py:174 | A string that neither starts nor ends with whitespace is its own strip |
| Text.StripAscii | hdmimatrix/hdmimatrix.py:352 | Stripping ASCII text leaves ASCII text |
| Text.StripChars | hdmimatrix/hdmimatrix.py:352 | Stripping adds no character that was not there |
| Text.SplitLines | hdmimatrix/hdmimatrix.py:173 | Splitting on line feeds gives at least one piece, no piece contains a line feed, and joining the pieces with line feeds rebuilds the input |
| Text.SplitLinesSingle | hdmimatrix/hdmimatrix.py:173 | A string without a line feed splits into itself alone |
| Text.JoinLinesChars | hdmimatrix/hdmimatrix.py:173 | A character of any piece occurs in the joined text |
| Text.DigitChar | hdmimatrix/hdmimatrix.py:30 | A digit below ten is written as the decimal digit with that value |
| Text.DecimalString | hdmimatrix/hdmimatrix.py:30 | The decimal representation is a non-empty digit string whose value is the number, and it is one digit long exactly when the number is below ten |
| Text.LeadingZero | hdmimatrix/hdmimatrix.py:181-182 | A leading zero does not change the value `int()` reads from a digit string |
| Text.Pad2 | hdmimatrix/hdmimatrix.py:30-32 | `{:02d}` writes at least two digits whose value is the number, and exactly two below 100 |
| Commands.Value | hdmimatrix/hdmimatrix.py:17-32 | Every command string is non-empty and ASCII, and ends in `.` |
| Commands.Format | hdmimatrix/hdmimatrix.py:141 | Formatting keeps an ASCII template ASCII, and leaves a template without fields unchanged |
| Commands.RouteTemplate | hdmimatrix/hdmimatrix.py:30 | The route template has two fields and formats to `OUT` + pad2(first) + `:` + pad2(second) + `.` |
| Commands.SwitchTemplate | hdmimatrix/hdmimatrix.py:31-32 | The on and off templates have one field each and format to `@OUT`/`$OUT` + pad2(output) + `.` |
| Commands.FixedMembers | hdmimatrix/hdmimatrix.py:17-32 | A member is a fixed string exactly when it has no field; the route template has two fields and the on/off templates one |
| Commands.ValidateRouting | hdmimatrix/hdmimatrix.py:130-136 | Accepts exactly 1..4 for both ports; input out of range gives the input error, and output out of range with a good input gives the output error |
| Commands.ValidateOutput | hdmimatrix/hdmimatrix.py:145-146 | Accepts exactly outputs 1..4, and otherwise fails with the output error |
| Commands.DecodeRouteOf | hdmimatrix/hdmimatrix.py:141 | A route payload is ASCII and decodes back to its (input, output) pair |
| Commands.DecodeSwitchOf | hdmimatrix/hdmimatrix.py:147 | An on/off payload is ASCII and decodes back to its switch direction and output |
| Commands.BuildRouteCommand | hdmimatrix/hdmimatrix.py:138-141 | Succeeds exactly for ports in 1..4 and otherwise returns validation's error. The payload is `OUT`+pad2(output)+`:`+pad2(input)+`.` (output first) and decodes back to (input, output) |
| Commands.BuildSwitchCommand | hdmimatrix/hdmimatrix.py:143-153 | Succeeds exactly for outputs 1..4 and otherwise fails with the output error. The payload is `@`/`$` + `OUT` + pad2(output) + `.` and decodes back to (on, output) |
| Commands.BuildOutputOnCommand | hdmimatrix/hdmimatrix.py:143-147 | Succeeds exactly for outputs 1..4 and otherwise fails with the output error; the payload is the ASCII bytes of `@OUT`, the two-digit output and `.`, and decodes back to (on, output) |
| Commands.BuildOutputOffCommand | hdmimatrix/hdmimatrix.py:149-153 | Succeeds exactly for outputs 1..4 and otherwise fails with the output error; the payload is the ASCII bytes of `$OUT`, the two-digit output and `.`, and decodes back to (off, output) |
| Commands.RoutePayloadInjective | hdmimatrix/hdmimatrix.py:138-141 | Two accepted routings with the same payload have the same input and the same output |
| Commands.RouteExampleOutputFirst | hdmimatrix/hdmimatrix.py:138-141 | Routing input 2 to output 3 sends `OUT03:02.` |
| Commands.RouteExampleLowest | hdmimatrix/hdmimatrix.py:138-141 | Routing input 1 to output 1 sends `OUT01:01.` |
| Commands.RouteExampleRejected | hdmimatrix/hdmimatrix.py:130-136 | (0, 0) is rejected for its input, because input is checked first; (1, 5) is rejected for its output |
| Commands.OutputOnExample | hdmimatrix/hdmimatrix.py:143-147 | Enabling output 2 sends `@OUT02.` |
| Commands.OutputOffExample | hdmimatrix/hdmimatrix.py:149-153 | Disabling output 4 sends `$OUT04.` |
| Commands.SwitchRejected | hdmimatrix/hdmimatrix.py:143-153 | Outputs 0, -1 and 5 are rejected |
| Commands.LookupIn | hdmimatrix/hdmimatrix.py:115-116 | A name is found exactly when the table has an entry with that name, and what is found is that entry's command |
| Commands.SimplePayload | hdmimatrix/hdmimatrix.py:115-123 | A generated method exists exactly for the table's names; its payload is the ASCII encoding of its member's value, and decodes back to that value |
| Commands.LookupSimple | hdmimatrix/hdmimatrix.py:115-116 | A command is found exactly for a name in the table, and it is never one of the parameterised commands |
| Commands.SimpleNamesDistinct | hdmimatrix/hdmimatrix.py:97-110 | No method name appears twice in the fixed table |
| Commands.SimpleTableWellFormed | hdmimatrix/hdmimatrix.py:97-110 | Each table entry's name looks up its own command, and no entry uses a template |
| StatusParser.SpanSpaces | hdmimatrix/hdmimatrix.py:179 | A `\s+` run consumes whitespace only and stops at the first non-space |
| StatusParser.SpanDigits | hdmimatrix/hdmimatrix.py:179 | A `(\d+)` run consumes digits only and stops at the first non-digit |
| StatusParser.Scan | hdmimatrix/hdmimatrix.py:179 | A match at a position yields exactly one number per capture group |
| StatusParser.ScanSound | hdmimatrix/hdmimatrix.py:179 | What the greedy scanner matches, the pattern derives, with the same captures |
| StatusParser.ScanComplete | hdmimatrix/hdmimatrix.py:179 | Whatever the pattern derives at a position, the scanner finds with the same captures, so greedy matching loses nothing for this pattern |
| StatusParser.StatusSearchLeftmost | hdmimatrix/hdmimatrix.py:179 | The search returns the captures of the leftmost match of the status pattern, and finds nothing exactly when no position matches |
| StatusParser.SearchLeftmost | hdmimatrix/hdmimatrix.py:179 | For any pattern of this shape the search returns the captures of a match with no match before it, and finds none exactly when there is none |
| StatusParser.StatusPatternSeparated | hdmimatrix/hdmimatrix.py:179 | The status pattern has the shape for which greedy scanning is complete |
| StatusParser.LineEntry | hdmimatrix/hdmimatrix.py:174-176 | A blank line contributes nothing |
| StatusParser.EntryFromSearch | hdmimatrix/hdmimatrix.py:174-182 | A line contributes an entry exactly when its stripped text contains a match, and the entry is that match's (output, input) |
| StatusParser.EntryOfCleanLine | hdmimatrix/hdmimatrix.py:179-182 | A stripped line that matches from its first character contributes (first number, second number) |
| StatusParser.EntriesFromSearch | hdmimatrix/hdmimatrix.py:173-182 | Line `i` of the reply contributes an entry exactly when it is not blank and the status pattern is found in its stripped text, and the entry is that match's (output, input) |
| StatusParser.ParseVideoStatus | hdmimatrix/hdmimatrix.py:170-185 | Returns the routing map the reply describes: the entries of the stripped reply's lines written in order into an empty map |
| StatusParser.Routing | hdmimatrix/hdmimatrix.py:170-185 | A reply that is blank after stripping describes no routing |
| StatusParser.Search | hdmimatrix/hdmimatrix.py:179 | A match yields one number per capture group of the pattern |
| StatusParser.SearchFrom | hdmimatrix/hdmimatrix.py:179 | Searching from a position on, a match yields one number per capture group |
| StatusParser.FillRouting | hdmimatrix/hdmimatrix.py:173-183 | The loop over the lines leaves the map obtained by writing each line's entry in order, later lines over earlier ones |
| StatusParser.FoldKeys | hdmimatrix/hdmimatrix.py:183 | An output is a key of the map exactly when some entry names it |
| StatusParser.FoldLastWins | hdmimatrix/hdmimatrix.py:183 | An output maps to the input of the last entry that names it |
| StatusParser.RoutingKeys | hdmimatrix/hdmimatrix.py:170-185 | An output is in the parsed routing exactly when some line of the stripped reply names it |
| StatusParser.RoutingLastWins | hdmimatrix/hdmimatrix.py:170-185 | A later line overrides an earlier one: an output maps to the input from the last line that names it |
| StatusParser.EmptyReply | hdmimatrix/hdmimatrix.py:170-185 | An empty reply parses to the empty map |
| StatusParser.SearchNeedsBang | hdmimatrix/hdmimatrix.py:179 | Text without `!` never matches |
| StatusParser.EntryNeedsBang | hdmimatrix/hdmimatrix.py:179 | A line without `!` contributes nothing |
| StatusParser.NoBangNoRouting | hdmimatrix/hdmimatrix.py:170-185 | A reply without `!` parses to the empty map |
| StatusLines.StatusLineScan | hdmimatrix/hdmimatrix.py:179 | `Output a Switch To In b!` with single spaces matches from its start, capturing the values of a and b |
| StatusLines.LayoutEntry | hdmimatrix/hdmimatrix.py:174-183 | Such a line contributes (a, b) |
| StatusLines.LayoutRouting | hdmimatrix/hdmimatrix.py:170-185 | A reply that is one such line parses to the single entry a to b |
| StatusLines.StatusLineEntry | hdmimatrix/hdmimatrix.py:174-183 | The line built from any two numerals contributes their values, with no range check (so 10 and 12 give 10 to 12) |
| StatusLines.StatusLineRouting | hdmimatrix/hdmimatrix.py:170-185 | The reply built from any two numerals parses to the map from the first value to the second |
| ResponseReader.Step | hdmimatrix/hdmimatrix.py:322-347 | One pass either continues, having consumed one read (and kept its data, if any) before the deadline without a failure, or stops. A stop is either the deadline, a failed read, an empty asyncio read, or a read without data after more than 500 ms of silence following kept data |
| ResponseReader.PollFrom | hdmimatrix/hdmimatrix.py:322-347 | The loop only extends the kept chunks. It stops at the deadline, on a failed read, on an empty asyncio read, or after more than 500 ms of silence following data. No earlier read failed, and no earlier asyncio read was empty |
| ResponseReader.Poll | hdmimatrix/hdmimatrix.py:318-347 | The read loop from its start: it reads the clock at least twice; it stops at the deadline only after the full timeout has passed since the start, on a failed read only when the last read failed, on an empty read only in the asyncio client, and for silence only with data kept and more than 500 ms since the last chunk |
| ResponseReader.PollFromParts | hdmimatrix/hdmimatrix.py:325-327 | The chunks kept are exactly the decoded non-empty reads the loop consumed, in order |
| ResponseReader.ReplyText | hdmimatrix/hdmimatrix.py:352-358 | With nothing kept, the reply is the empty string |
| ResponseReader.ReplyIsReceivedText | hdmimatrix/hdmimatrix.py:352 | The reply is the strip of the decoded concatenation of every received chunk the loop consumed |
| ResponseReader.ReplyIsAscii | hdmimatrix/hdmimatrix.py:327 | The reply is ASCII |
| ResponseReader.NoDataNoReply | hdmimatrix/hdmimatrix.py:352-358 | If no read carries data, the reply is the empty string |
| ResponseReader.SyncNeverSeesClose | hdmimatrix/hdmimatrix.py:330-335 | The blocking reader never stops because of an empty read |
| ResponseReader.ReadLoop | hdmimatrix/hdmimatrix.py:318-347 | The polling loop ends in the state the specification function gives: the same chunks, reason, reads and clock readings consumed |
| ResponseReader.DataPass | hdmimatrix/hdmimatrix.py:325-328 | A non-empty read before the deadline is kept, stamped with a fresh clock reading, and polling goes on |
| ResponseReader.QuietPass | hdmimatrix/hdmimatrix.py:337-341 | A timed-out read after data, more than 500 ms after the last chunk, ends the loop with the chunks kept |
| ResponseReader.ClosePass | hdmimatrix/hdmimatrix.py:532-534 | An empty asyncio read ends the loop at once |
| ResponseReader.IdlePass | hdmimatrix/hdmimatrix.py:330-342 | On the blocking client an empty or timed-out read within 500 ms of the last chunk only moves on to the next read |
| ResponseReader.SyncTwoChunks | hdmimatrix/hdmimatrix.py:322-352 | Two chunks followed by silence give both chunks joined and stripped, the loop ending for silence |
| ResponseReader.ChunkThenEmptyRead | hdmimatrix/hdmimatrix.py:330-335 | A chunk then an empty read: the asyncio reader stops at the empty read, while the blocking reader polls on until the silence limit; both return the chunk stripped |
| Session.Connect | hdmimatrix/hdmimatrix.py:212-231 | `connect` returns True exactly on a greeted connection (asyncio: also on a greeting timeout), and then the client is connected. A failed blocking connect leaves no socket, and the blocking client never holds a lock; a refused asyncio connect changes nothing, and a failed asyncio greeting leaves the streams and lock with the writer closing, so the client is not connected. The connection stays well formed |
| Session.IsConnected | hdmimatrix/hdmimatrix.py:207-210 | `is_connected`: a client is connected only if it holds a connection; a blocking client holding a socket is connected, and an asyncio client whose writer is closing is not |
| Session.Disconnect | hdmimatrix/hdmimatrix.py:233-238 | Afterwards nothing is held and the client is not connected; with nothing held nothing changes; a well-formed link ends up as the initial one |
| Session.DisconnectIdempotent | hdmimatrix/hdmimatrix.py:233-238 | Disconnecting twice is disconnecting once |
| Session.SyncFailedConnectLeavesNothing | hdmimatrix/hdmimatrix.py:226-231 | A blocking connect that fails leaves the client not connected, whatever it held before |
| Session.AsyncHalfOpen | hdmimatrix/hdmimatrix.py:403-417 | An asyncio greeting read that raises something other than a timeout makes `connect` return False with the streams and lock assigned but the writer closing, so the client does not count as connected |
| Session.AsyncLockTracksStreams | hdmimatrix/hdmimatrix.py:393-427 | On the asyncio client the lock is present exactly when the streams are, before and after connect and disconnect |
| Session.ReadReply | hdmimatrix/hdmimatrix.py:310-311 | Without a connection a read returns the empty string |
| Session.ReadReplyIsReceivedText | hdmimatrix/hdmimatrix.py:352 | With a connection a read returns the received bytes joined, decoded and stripped |
| Session.ReadReplyIsAscii | hdmimatrix/hdmimatrix.py:327 | What a read returns is ASCII |
| Session.Receive | hdmimatrix/hdmimatrix.py:310-358 | The read on a link returns the reader specification's text |
| Requests.Observe | hdmimatrix/hdmimatrix.py:283-285 | The text each read of a request returns is the received bytes of that read joined, decoded and stripped, and is ASCII |
| Requests.Recover | hdmimatrix/hdmimatrix.py:286-296 | After a failed send the handler first closes the link. It fails with "connection lost" exactly when reconnecting is off or the reconnect fails, fails with the raw send error exactly when it reconnected and the resend failed, and otherwise returns the retry's reply |
| Requests.Transact | hdmimatrix/hdmimatrix.py:273-296 | `_process_request`: a request that makes no call fails with "not connected" and leaves the link as it was; a reply returned is the reply to the first send or to the resend |
| Requests.RecoverCalls | hdmimatrix/hdmimatrix.py:288-296 | After a failed send the handler reconnects once exactly when allowed, resends once exactly when that reconnect succeeds, and sends nothing but the request |
| Requests.RecoverReads | hdmimatrix/hdmimatrix.py:291-295 | The handler reads exactly when it succeeds, and then the read is its last call, right after the resend |
| Requests.Prepare | hdmimatrix/hdmimatrix.py:274-280 | Before sending, connect only when not connected and allowed to. "auto-reconnect failed" exactly when that connect fails. "Not connected" exactly when not connected and not allowed, or (asyncio) when the lock is missing. Otherwise the client is connected |
| Requests.AtMostOneRetry | hdmimatrix/hdmimatrix.py:273-296 | A request connects at most twice and sends at most twice |
| Requests.SendsOnlyRequest | hdmimatrix/hdmimatrix.py:283-293 | Every send of a request puts that request on the wire |
| Requests.SucceedsIffRead | hdmimatrix/hdmimatrix.py:283-295 | A request succeeds exactly when it reads; the read is its last call, straight after a send |
| Requests.RetryNeedsReconnect | hdmimatrix/hdmimatrix.py:289-295 | A second send happens only when reconnection is allowed, the first send failed and the reconnect after it succeeded |
| Requests.SuccessReply | hdmimatrix/hdmimatrix.py:283-295 | A successful request leaves the client connected and returns its only read's text: the first reply after one send, the retry's after two |
| Requests.FailureKinds | hdmimatrix/hdmimatrix.py:274-296 | Each error has one cause. "Connection lost": the first send failed and there was no successful reconnect. The raw retry error: reconnected, then the resend failed. "auto-reconnect failed": only a failed connect was made. "Not connected": at most a connect was made. Conversely, once the first send fails, no reconnect (off, or failed) gives "connection lost" and a successful reconnect with a failed resend gives the raw retry error |
| Requests.NotConnectedRules | hdmimatrix/hdmimatrix.py:274-280 | Not connected and not allowed: "Not connected", no call, nothing changed. Allowed: connect first, and if that fails, "auto-reconnect failed" with no other call |
| Requests.HalfOpenThenRequest | hdmimatrix/hdmimatrix.py:471-478 | After an asyncio `connect` whose greeting read failed, the next request connects again when auto-reconnect is on, and otherwise fails with "Not connected" before any call, leaving the link as it was |
| Requests.ConnectedRequest | hdmimatrix/hdmimatrix.py:282-285 | Connected and the send goes through: send, read, return the read's text, link unchanged |
| Requests.TransactValid | hdmimatrix/hdmimatrix.py:471-500 | A request keeps the link well formed, and "Not connected" occurs exactly when the client was not connected and not allowed to reconnect, so the asyncio lock check never fires |
| Requests.SyncFailureDisconnects | hdmimatrix/hdmimatrix.py:286-296 | A failed blocking request holds no socket afterwards, except after the raw retry error, when the new socket stays connected |
| Driver.Matrix.constructor | hdmimatrix/hdmimatrix.py:199-204 | A new client holds no connection and no lock and has made no call |
| Driver.Matrix.Connect | hdmimatrix/hdmimatrix.py:212-231 | Updates the connection fields and returns the flag as `Session.Connect` says, recording one connect |
| Driver.Matrix.Disconnect | hdmimatrix/hdmimatrix.py:233-238 | Updates the connection fields as `Session.Disconnect` says, recording a close only when something was held |
| Driver.Matrix.Send | hdmimatrix/hdmimatrix.py:283 | Reports whether the send went through, leaves the connection alone, and records the send |
| Driver.Matrix.ReadResponse | hdmimatrix/hdmimatrix.py:298-362 | Returns the reader's text for the current link. The blocking client's changed socket timeout is restored, so the connection fields end as they began; a read is recorded only when connected |
| Driver.Matrix.ConnectIfNeeded | hdmimatrix/hdmimatrix.py:274-281 | Performs the checks before sending exactly as `Requests.Prepare` specifies: error, fields and calls |
| Driver.Matrix.Resend | hdmimatrix/hdmimatrix.py:293-295 | The retry returns the raw send error or the reply of its read, leaving the fields unchanged and recording the send and the read |
| Driver.Matrix.RetryAfterFailure | hdmimatrix/hdmimatrix.py:286-296 | The handler's result, fields and calls are those `Requests.Recover` gives; the connection stays well formed |
| Driver.Matrix.ProcessRequest | hdmimatrix/hdmimatrix.py:273-296 | `_process_request` returns the result, leaves the fields and makes the calls that `Requests.Transact` gives, so every property of `Requests` holds for it; the connection stays well formed |
| Driver.Matrix.CallSimple | hdmimatrix/hdmimatrix.py:119-123 | A generated method performs the request whose payload is its table entry's value |
| Driver.Matrix.GetVideoStatusParsed | hdmimatrix/hdmimatrix.py:243-245 | Sends `STA_VIDEO.` and returns the routing parsed from the reply, or the request's error |
| Driver.Matrix.RouteInputToOutput | hdmimatrix/hdmimatrix.py:247-248 | A rejected port pair fails with validation's error, makes no call and changes nothing; otherwise it performs the route payload's request |
| Driver.Matrix.SwitchOutput | hdmimatrix/hdmimatrix.py:250-270 | A rejected output fails with the output error, makes no call and changes nothing; otherwise it performs the on/off payload's request |
| Driver.Matrix.Enter | hdmimatrix/hdmimatrix.py:365-369 | Entering the context connects; it fails ("Failed to connect") exactly when `connect` returns False |
| Driver.Matrix.Exit | hdmimatrix/hdmimatrix.py:371-373 | Leaving the context disconnects, so the client is no longer connected |
| Driver.VideoStatusPayload | hdmimatrix/hdmimatrix.py:102 | `get_video_status` is a generated method and sends `STA_VIDEO.` |

## Left out

- The sockets and asyncio streams (`socket.socket`, `open_connection`, `recv`, `read`, `send`, `write`, `drain`, `close`, `wait_closed`) are not modelled as objects. Their outcomes are parameters: a `ConnectAttempt`, a `SendOutcome` and a `ReadScript`. `host` and `port` play no part.
- Session.Connect, Driver.Matrix.Connect: asyncio's transport is not modelled. That a greeting read which raised leaves the writer closing is taken from asyncio's stream design, where a read raises only the error stored when the connection was lost.
- The asyncio reader and writer are always assigned and cleared together, so they are one `Streams` handle. A writer closes by itself only after a greeting read that raised, or as the state the model starts from; the transport's own close is not modelled further.
- Concurrency: the `asyncio.Lock` is a flag saying whether it is set. Holding it is not modelled, and neither is the serialisation of concurrent requests.
- Time: float seconds become integer milliseconds read from a script. `time.sleep`/`asyncio.sleep` are not modelled; they only let the script's clock advance.
  - Each script must reach the deadline (`RunsOut`), which stands in for time passing. Past its end a script's reads time out, and its last clock reading repeats.
- `_read_response` is modelled only with its default 2-second timeout, the only one the driver uses. The reader's general `timeout` parameter is kept in `ResponseReader`.
- The outer exception handlers of `_read_response` (`gettimeout`/`settimeout` raising, lines 360-362 and 556-558) are left out. As modelled, the read never raises.
  - Consequently, only a failed send leads into the recovery path of `_process_request`.
  - The retry's read is not a source of errors either.
- A send raising anything other than `OSError`/timeout is left out. Partial sends by `socket.send` are left out too: a send either goes through whole or raises.
- Session.Disconnect, Driver.Matrix.Disconnect, Driver.Matrix.Exit, Requests.Recover: `await self.writer.wait_closed()` (hdmimatrix/hdmimatrix.py:423) raising is left out wherever a disconnect happens: a direct `disconnect()`, `__aexit__` (lines 567-569) or the recovery handler. Every disconnect is modelled as clearing the fields, whereas the asyncio client would propagate that error with `writer`, `reader` and `_connection_lock` still assigned.
- When `socket.socket()` itself raises, the handler clears whatever socket was held. The model gives the same final state: no socket.
- The logger setup (lines 60-75), every logging call, the error-message texts and `__repr__` are left out. The errors are the `RequestError` and `RangeError` values.
- The read-only `input_count`/`output_count` properties and their raising setters are left out. The counts are the constants 4 and 4.
- `__init_subclass__` is modelled as a static table from method name to command (`SimplePayload`) plus one method that performs its request (`Driver.Matrix.CallSimple`). The generated functions' names, docstrings and annotations are left out.
- `Driver.Matrix.trace` is a record the model keeps of the transport calls, so that their order can be stated. The Python objects keep no such record.
- `StatusParser`: the pattern is matched over ASCII text only. Unicode whitespace and Unicode digits, which Python's `\s` and `\d` would also accept, are left out. The reply text the driver parses is ASCII because it is decoded with `errors='ignore'`.
- `parse_video_status`'s `routing` is a Python `dict`. Its key order is not modelled: `map` has none.
- The test scripts, the example scripts and `test.py` are not part of this model.
- `Driver.Matrix.Connect`: a connect made while a connection is held replaces it without closing it, on both clients. This covers the blocking socket (hdmimatrix/hdmimatrix.py:215) and the asyncio streams (line 396). It happens on a second `connect`, and on the asyncio auto-reconnect from a writer that is closing (lines 472-474). The model shows only the replacement; the leaked socket or writer is not modelled.
