# hlld client protocol, modelled in Dafny

This project models the client side of hlld's line protocol, as implemented by the Go package
`hlld` (armon/go-hlld). hlld is a HyperLogLog server; its clients talk to it over plain text.

The model covers:

- **Input checks.** Set names and list prefixes must match `validWord` (`[a-zA-Z0-9_-]+`). Keys must
  match `validKey` (no space, tab, CR or LF). Each `New*Command` constructor applies these checks.
- **Request encoding.** Each command writes exactly one request line.
- **Response decoding.** Each `Decode` reads one line, or a `START` … `END` block, from a buffered
  reader. Each `Result` turns what was stored into a typed answer or an error.
- **The write-once `Future`.** A caller waits on it while the command is in flight.
- **Client configuration.** `Config.Validate`, `DefaultConfig`, and how `NewClient` picks and checks
  its configuration.

How the Go code maps to Dafny:

- Each command is a `class` whose fields change as the Go object's do. The single-line decoders
  store `result`. The block decoders append to `lines` and set `done` and `notExist`.
- Encoders only read the fields. They are functions returning the request line.
- The inbound stream is a `Wire.LineReader`. Its `unread` text shrinks as Go's
  `bufio.Reader.ReadString('\n')` consumes it.
- Go's `(T, error)` results become `Result` values; a bare `error` becomes an `Outcome`.

Modules:

| module | file | contents |
|---|---|---|
| `Wrappers` | wrappers.dfy | `Option`, `Result`, `Outcome` |
| `Text` | text.dfy | the `strconv`/`fmt` subset used: `%d`, `ParseUint`, `ParseInt`, `%f` on integer millionths, splitting at spaces |
| `Wire` | wire.dfy | the line reader, and scanning a block body up to `END` |
| `Protocol` | protocol.dfy | the errors, `validWord`/`validKey`, request lines, and the literal response lines |
| `Commands` | commands.dfy | create, drop/close/clear, set keys (`b`) and flush |
| `Listing` | listing.dfy | list and its entries |
| `Info` | info.dfy | info and `SetInfo` |
| `Futures` | future.dfy | `Future` |
| `ClientConfig` | config.dfy | `Config`, `Validate`, `DefaultConfig`, and the configuration step of `NewClient` |

Every encoder is proved against a partner: splitting its request line at spaces gives back exactly the
command's fields (`ParseRequestLine`). Each decoder comes with a round-trip proof. For well-formed
server responses, decoding then asking for the result gives back the sets or the `SetInfo` the server
wrote, and leaves the text after the response unread.

Where the code and the package's own tests disagree, the model follows the code. `validWord`
(commands.go:13) accepts a hyphen, so `foo123-123` is a valid name here, although the test table at
commands_test.go:21 expects it to be refused.

The "not proxied" line makes drop, close and clear report `false` with no error
(commands.go:276-277), as the code does.

## Model

| member | source | states |
|---|---|---|
| Protocol.ValidWordCases | commands_test.go:16-23 | The names of the validWord test table are accepted or refused as the code's character class decides, including the hyphenated name the code accepts |
| Protocol.RequestLineRoundTrip | commands.go:127-138 | Fields with no space or newline, joined by single spaces and ended by a newline, form exactly one line, and splitting that line gives the fields back in order |
| Protocol.OptionalArgRequest | commands.go:374-385 | A verb with an optional argument (omitted when empty) is written as one line and reads back as the verb, plus the argument when it is present |
| Protocol.TwoFieldRequest | commands.go:244-253 | A request of two fields is `a b` plus newline and reads back as those two fields |
| Protocol.WordIsField | commands.go:13 | A name that passes validWord holds no space and no newline |
| Protocol.ResponseLines | commands.go:88-101 | Every response line a decoder compares against is one newline-ended line, and no two of them are equal |
| Protocol.ReadResponseLine | commands.go:79-86 | A known response line at the front of the input is read whole, and reading stops right after it |
| Protocol.BlockResponse | commands.go:140-167 | A `START` line, complete body lines other than `END`, then `END`: the first line read is `START`, the body is scanned to exactly those lines, and what follows `END` is left |
| Protocol.LineText | commands.go:186 | A line without its final newline, with the newline put back, is the line |
| Commands.CreateCommand.constructor | commands.go:48-50 | A new create command has the given name, no options and no stored response |
| Commands.CreateCommand.Encode | commands.go:54-77 | The create request is newline-terminated |
| Commands.CreateCommand.Decode | commands.go:79-86 | Reads one line and stores it verbatim, replacing the previous response, and consumes exactly that line; at end of input it fails, keeps the old response and consumes the partial line |
| Commands.CreateCommand.Result | commands.go:88-101 | No response gives "not decoded"; true exactly for Done or Exists; false exactly for a delete in progress; any other line is an invalid-response error carrying that line |
| Commands.NewCreateCommand | commands.go:44-52 | Succeeds exactly for a valid name, with the set-name error otherwise; the new command holds the name and no options |
| Commands.CreateRequest | commands.go:54-77 | The create line is `create <name>`, then each set option as a field in the order precision, eps, in_memory; splitting it gives exactly those fields |
| Commands.CreateLine | commands.go:54-77 | The same, on the values of the command's fields |
| Commands.CreateOptionsWritten | commands.go:61-75 | Writing each set option after a space gives the option fields, each preceded by a space; none of the option fields holds a space or newline |
| Commands.CreateCommandExample | commands_test.go:32-52 | The name `foo 123` is refused, and `foo` with precision 12, threshold 0.05 and in-memory encodes to `create foo precision=12 eps=0.050000 in_memory=true` |
| Commands.CreateResponsesExample | commands_test.go:54-82 | Done and Exists give true for create; a delete in progress gives false without an error |
| Commands.SetCommand.constructor | commands.go:213-216 | A new set command has the given verb and name, and no stored response |
| Commands.SetCommand.Encode | commands.go:244-253 | The request is newline-terminated |
| Commands.SetCommand.Decode | commands.go:255-262 | One line is read and stored, as for create |
| Commands.SetCommand.Result | commands.go:264-281 | No response gives "not decoded". True exactly for Done, or for "does not exist" on drop. False exactly for "does not exist" on close or clear, or for "not proxied". Anything else is an invalid-response error |
| Commands.NewSetCommand | commands.go:209-242 | Succeeds exactly for a valid name, with the set-name error otherwise; the command holds the verb and name |
| Commands.NewDropCommand | commands.go:209-218 | The same check, with the verb `drop` |
| Commands.NewCloseCommand | commands.go:221-230 | The same check, with the verb `close` |
| Commands.NewClearCommand | commands.go:233-242 | The same check, with the verb `clear` |
| Commands.SetRequest | commands.go:244-253 | `<verb> <name>` on one line, read back as the verb and the name |
| Commands.MissingSetExample | commands.go:270-275 | The line "Set does not exist" means true for drop and false for close |
| Commands.SetVerbsDone | commands.go:268-269 | Drop, close and clear report true on Done and leave what follows unread |
| Commands.SetKeysCommand.constructor | commands.go:308-311 | A new set-keys command holds the name and keys, and no response |
| Commands.SetKeysCommand.Encode | commands.go:315-329 | The request is newline-terminated |
| Commands.SetKeysCommand.Decode | commands.go:331-338 | One line is read and stored, as for create |
| Commands.SetKeysCommand.Result | commands.go:340-351 | No response gives "not decoded"; true exactly for Done; false exactly for "does not exist"; anything else is an invalid-response error |
| Commands.CheckKeys | commands.go:303-307 | Passes exactly when every key passes validKey; otherwise it reports the first key, in order, that fails |
| Commands.NewSetKeysCommand | commands.go:296-313 | Succeeds exactly for a valid name, at least one key and valid keys. The errors come in the code's order: name, then missing keys, then the first bad key |
| Commands.SetKeysRequest | commands.go:315-329 | `b <name> <k1> … <kn>` on one line, read back as the verb, the name and every key in order |
| Commands.FlushCommand.constructor | commands.go:368-370 | A new flush command holds the name (possibly empty) and no response |
| Commands.FlushCommand.Encode | commands.go:374-385 | The request is newline-terminated |
| Commands.FlushCommand.Decode | commands.go:387-394 | One line is read and stored, as for create |
| Commands.FlushCommand.Result | commands.go:396-407 | No response gives "not decoded"; true exactly for Done; false exactly for "does not exist"; anything else is an invalid-response error |
| Commands.NewFlushCommand | commands.go:364-372 | Succeeds exactly for the empty name or a valid one, with the set-name error otherwise |
| Commands.FlushRequest | commands.go:374-385 | `flush`, or `flush <name>`, on one line, read back as those fields |
| Commands.DoneRoundTrip | commands.go:92-93 | Create, set keys and flush report true on Done and leave what follows unread |
| Listing.ListCommand.constructor | commands.go:121-123 | A new list command holds the prefix, no lines, and is not done |
| Listing.ListCommand.Encode | commands.go:127-138 | The request is newline-terminated |
| Listing.ListCommand.Decode | commands.go:140-167 | A first line other than START is an error (that line consumed). After START, body lines are appended in order through END, which marks the command done and leaves what follows. If the input runs out, the lines read stay appended, done is unchanged and the read fails |
| Listing.ListCommand.Result | commands.go:178-194 | Not done gives "not decoded". Otherwise the result is one entry per stored line, in order, exactly when every line parses; else the error names the first line that does not |
| Listing.ParseEach | commands.go:183-193 | The per-line loop: succeeds exactly when every line parses, with one result per line in order, and otherwise reports the first failing line |
| Listing.NewListCommand | commands.go:117-125 | Succeeds exactly for the empty prefix or a valid one, with the prefix error otherwise |
| Listing.ListRequest | commands.go:127-138 | `list`, or `list <prefix>`, on one line, read back as those fields |
| Listing.ListEntryRoundTrip | commands.go:186-187 | An entry with a one-field name and a decimal threshold, written as the server writes it, is one line that parses back to the same entry |
| Listing.FormatEntries | commands.go:184 | The server's lines for a list of entries: one line per entry, in order |
| Listing.EntryLines | commands.go:157-164 | No entry line is END, so each one is stored as a body line |
| Listing.ListResponse | commands.go:140-167 | The server's list response for well-formed entries opens with START; its body is scanned to exactly the entries' lines, and what follows END is left |
| Listing.ListRoundTrip | commands.go:140-194 | Decoding the server's list response for well-formed entries succeeds; the result is exactly those entries in order; what follows END is left unread |
| Listing.DecodeListResponse | commands.go:140-167 | Decoding such a response stores exactly the entry lines, marks the command done and stops after END |
| Listing.ListRequestExample | commands_test.go:85-100 | The prefix `foo 123` is refused, and `foo` encodes to `list foo` |
| Listing.ListResponseExample | commands_test.go:103-123 | The test's list response decodes to its two entries, foo and baz, in order |
| Listing.ExampleEntries | commands_test.go:105-106 | The server writes the test's two entries as the test's two body lines |
| Info.InfoCommand.constructor | commands.go:429-431 | A new info command holds the name, no lines, and is neither done nor marked missing |
| Info.InfoCommand.Encode | commands.go:435-443 | The request is newline-terminated |
| Info.InfoCommand.Decode | commands.go:445-479 | A first line "Set does not exist" marks done and missing and consumes only that line. START clears the missing mark and reads the body through END as list does. Any other first line is an invalid-response error |
| Info.InfoCommand.Result | commands.go:508-578 | Not done gives "not decoded". A missing set gives no information and no error. Otherwise the stored lines are applied in order to an empty record, and the first refused line's error is returned |
| Info.NewInfoCommand | commands.go:425-433 | Succeeds exactly for a valid name, with the set-name error otherwise |
| Info.InfoRequest | commands.go:435-443 | `info <name>` on one line, read back as the verb and the name |
| Info.ValueText | commands.go:525 | A value is what lies between the key's fixed offset and the last character. A line too short for that slice is an index-out-of-range error (the Go code panics) |
| Info.ApplyDependsOnLine | commands.go:520-575 | Whether a body line is accepted, and the error if it is not, depend only on the line |
| Info.InfoLinesResult | commands.go:518-577 | The body is accepted exactly when every line is; otherwise the error is the first refused line's |
| Info.InMemoryLine | commands.go:521-522 | An `in_memory` line sets the flag from the character after the key and space |
| Info.PageInsLine | commands.go:524-529 | A `page_ins` line sets the count it carries |
| Info.PageOutsLine | commands.go:531-536 | A `page_outs` line sets the count it carries, although its key starts like `page_ins` |
| Info.EpsLine | commands.go:538-543 | An `eps` line with a decimal value sets the threshold text |
| Info.PrecisionLine | commands.go:545-550 | A `precision` line sets the precision it carries |
| Info.SetsLine | commands.go:552-557 | A `sets` line sets the count it carries |
| Info.SizeLine | commands.go:559-564 | A `size` line sets the size it carries |
| Info.StorageLine | commands.go:566-571 | A `storage` line sets the storage it carries |
| Info.UnknownKeyRefused | commands.go:573-574 | A body line that starts with none of the eight keys is refused with a parse failure naming the line |
| Info.BadCountRefused | commands.go:524-571 | A page_ins, page_outs, precision, sets, size or storage line whose value `ParseUint` refuses is refused with a parse failure naming the line |
| Info.BadThresholdRefused | commands.go:538-543 | An eps line whose value is not a decimal number is refused with a parse failure naming the line |
| Info.PageKeyChosen | commands.go:524-550 | A page_ins, page_outs or precision line takes its own key's branch, although the earlier keys share first letters with it, and sets that field from the value after the key |
| Info.SetsKeyChosen | commands.go:552-571 | A sets, size or storage line takes its own key's branch, and sets that field from the value after the key |
| Info.InfoBodyRoundTrip | commands.go:518-577 | The server's body for a set, one line per key, is read back as that set's record, whatever the starting record |
| Info.InfoBodyLines | commands.go:469-476 | No line of that body is END, so each one is stored as a body line |
| Info.InfoRoundTrip | commands.go:445-578 | Decoding the server's info response for a set succeeds, the result is exactly that set's record, and what follows END is left unread |
| Info.MissingInfoExample | commands.go:455-459 | "Set does not exist" decodes without error to no information, and nothing after it is read |
| Wire.NextLine | commands.go:80 | What `ReadString('\n')` returns: the shortest newline-ended prefix of the input, which is a single line, or nothing exactly when the input holds no newline |
| Wire.NextLineOfLine | commands.go:143 | A complete line at the front of the input is exactly what is read next |
| Wire.LineReader.ReadLine | commands.go:143-146 | Returns the next line and consumes exactly it; at end of input it returns nothing and consumes the rest |
| Wire.LineReader.ReadBlock | commands.go:142-165 | The lines read before END, then END itself consumed and the rest left; or, if the input runs out first, the complete lines read and nothing left |
| Wire.ScanBlockLines | commands.go:157-164 | Every stored body line is a complete line other than END |
| Wire.ScanBlockEnded | commands.go:157-161 | A scan that finds END has consumed exactly the body lines and END |
| Wire.ScanBlockTruncated | commands.go:143-146 | A scan that runs out of input has consumed the body lines and then only a fragment with no newline |
| Wire.ScanWellFormedBlock | commands.go:157-164 | Complete lines other than END, followed by END, are scanned to exactly those lines, whatever follows |
| Text.DigitsValueOfFormat | commands.go:62 | The `%d` digits of a natural number have that number as their value |
| Text.ParseUintOfFormat | commands.go:526 | `ParseUint` reads back what `%d` writes for any 64-bit unsigned value |
| Text.ParseUintRejects | commands.go:526 | `ParseUint` refuses empty text and text with a non-digit |
| Text.ParseIntOfFormat | commands.go:186 | The `%d` reading of a signed 64-bit integer gives back the integer `%d` wrote |
| Text.FixedRoundTrip | commands.go:67 | Six-decimal fixed-point text holds its value exactly: reading it back gives the same count of millionths |
| Text.FixedIsDecimal | commands.go:67 | The threshold text a create request sends is a decimal number |
| Text.SplitJoin | commands.go:186 | Joining fields that hold no space and splitting at spaces gives the fields back, empty ones included |
| Text.JoinSpaceEach | commands.go:322-327 | Writing the fixed fields and then a space and each key in turn is the same as joining all of them |
| Text.DecimalIsToken | commands.go:186 | A decimal threshold is one non-empty field |
| Futures.Future.constructor | future.go:11-16 | A new future holds its command, has no error and is not complete |
| Futures.Future.Error | future.go:24-27 | On a completed future, returns the stored error |
| Futures.Future.Respond | future.go:30-33 | Completes the future with the given error and changes nothing else; allowed only once |
| Futures.FutureExample | future_test.go:13-30 | A future keeps its command, and after it is completed every wait returns the same error |
| ClientConfig.Validate | client.go:50-58 | Passes exactly when both settings are positive; a non-positive pipeline bound is reported first, then a non-positive timeout |
| ClientConfig.DefaultConfigValid | client.go:61-66 | The default configuration (8192, five seconds) passes the check |
| ClientConfig.ClientConfiguration | client.go:69-76 | No configuration means the default. A given one is used exactly when it passes the check; otherwise the check's error is returned. The configuration used always passes |

## Left out

- The client's pipelining (client.go:90-184) is left out: the reader goroutine, the channels and locks,
  deadlines and `conn.Close`. Its point is concurrency over a network connection. `Close` is not
  modelled either: at client.go:93 it defers `closedLock.Lock()` instead of `Unlock()`.
- Write errors from `bufio.Writer` are not modelled. Encoders are functions that return the request
  line.
- The server side is not part of this model. `ParseRequestLine` (split at single spaces) and the
  `Format*` functions stand in for the other end when stating round trips.
- Commands.CreateCommand.Encode: the threshold is a count of millionths, not a `float64`. `%f` is
  modelled as exact six-decimal text of that count, so rounding of other floats is not captured.
- Listing.ParseListEntry: models `Sscanf("%s %f %d %d %d\n")` only as five fields separated by single
  spaces. The threshold is kept as decimal text and the integers are plain decimal. Sscanf's freer
  spacing, and the other float syntaxes that `%f` accepts, are not captured.
- Info.ApplyInfoLine: `strconv.ParseFloat` on the eps value is modelled as "is a plain decimal number"
  (optional sign, digits, at most one point). Exponents, `inf` and `nan` are not captured, and the
  threshold is kept as text.
- Info.ValueText: the Go slices on short info lines panic at run time (commands.go:522, 525-567). Here
  they return an explicit `IndexOutOfRange` error instead.
- Info.ApplyInfoLine: strings are sequences of characters, and the fixed offsets (`line[10]`,
  `line[9:]` and so on, commands.go:522-567) count characters. Go counts bytes. The two agree on
  ASCII lines only: `in_memory` followed by a multi-byte character is read differently. The character
  checks on names, prefixes and keys likewise work on characters rather than bytes.
- Commands.SetKeysCommand.constructor: the keys are held as a value. Go keeps the caller's slice
  (commands.go:310), so a later change to it by the caller changes what `Encode` sends; that aliasing
  is not captured.
- Futures.Future.Error: the wait for completion on `doneCh` is modelled as the precondition that the
  future is complete.
- Futures.Future.Respond: closing a closed channel panics in Go; this is modelled as the precondition
  that the future is not yet complete.
- Futures.Future.Command has no contract: it returns the stored command, which FutureExample states.
- The time unit of `Config.Timeout` is nanoseconds held in 64 bits; the clock is not modelled.
