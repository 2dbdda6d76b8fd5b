# flexlib-go session core in Dafny

This project models the session logic of `obj/radio.go` in flexlib-go, a client for a
software-defined radio. A session talks to the radio over two transports.

- **A TCP command connection.** Commands go out as `C<seq>|<command>\r`, numbered by a counter
  in the `RadioContext`. Reads come back as text. Each read is split into lines. While the handle is
  still empty, a non-blank line starting with `h`/`H` sets it to the rest of the line. A bare `H`
  line leaves it empty, so a later such line sets it again. Every other non-blank line goes to the
  response channel, if that channel is bound, and is then parsed as a status message. A message containing
  `display pan` patches the panadapter registry. Otherwise a message containing `daxiq ` patches
  the DAX IQ stream registry.
- **A UDP stream of VITA-49 packets.** Each datagram is parsed into a preamble and a payload,
  handed to the raw-data channel if bound, and dispatched by packet type and class code to one of
  five telemetry sinks.

The sockets are removed:

- A command write appends its frame to `outbound`.
- A read of the command connection is a string given to `HandleRead`.
- A datagram is a byte sequence given to `ReceiveDatagram`.
- Each channel is a flag, fixed when the context is built, saying whether it is bound, plus a
  log of everything sent on it.

Modules, one per piece of the program:

| file | module | what |
|---|---|---|
| `wrappers.dfy` | `Wrappers` | `Option` |
| `go_strings.dfy` | `GoStrings` | the parts of Go's `strings` and `strconv` the core uses: `Split`, `Join`, `Count`, `Contains`, `Trim`, `Itoa`, `Atoi` |
| `key_value.dfy` | `KeyValue` | `parseKeyValueString`, as a specification function and as the loop itself |
| `registry.dfy` | `Registry` | the two registries, `LoadOrStore`, and the merge of one patch |
| `reply.dfy` | `Reply` | `parseReplyStringPrefix` and the routing decision of `parseResponseLine` |
| `session.dfy` | `Session` | one response line and one read, as functions on the reader's state |
| `commands.dfy` | `Commands` | the wire form of commands |
| `vita.dfy` | `Vita` | packet preambles, the dispatch table, the sink logs |
| `radio.dfy` | `Radio` | `class RadioContext`: the methods that update the context in place |

Each imperative method (those of `RadioContext`, and `KeyValue.ParseKeyValueString`) is proved
against the specification function of the same operation. For example:

- `HandleRead` ends in the state `StepRead` gives.
- `ParseKeyValueString` returns exactly `ParseKeyValue`.
- `SendRadioCommand` keeps `outbound` equal to the frames of all commands sent so far.

The properties of those functions are lemmas in the module that defines them.

Behaviour followed exactly as the code has it:

- **No carry-over between reads.** Each read is split on `'\n'` on its own. A line cut across two
  reads becomes two lines, and the `'\r'` of a `\r\n` ending stays on the line. A reader that
  carried the unfinished last line over to the next read would see one line there; this one does
  not.
- **IF-narrow and waterfall packets publish nothing.** They are decoded when their sink is bound,
  and the result is then dropped, so the IF-data sink never sees IF-narrow data and the
  waterfall sink never receives a tile. `Vita.WaterfallNeverPublished` states the waterfall half.
- **A status message with no `=` is not skipped.** `parseKeyValueString` reports "not a key value
  list" for it, but its callers ignore the error. So a `display pan` message without `=` creates a
  panadapter entry under the empty identifier (`Session.MalformedPanadapterStatus`), and likewise
  for `daxiq `. The registry is changed even though the parse failed.
- **The "no tokens found" branch is dead.** `strings.Split` always yields at least one piece, so
  this branch of `parseKeyValueString` is never taken. The method keeps the branch, and its
  contract shows it is unreachable.
- **The handle test is exact.** `strings.ToUpper` maps rune by rune and only `h` becomes `H`, so
  the test is "the first character is `h` or `H`" (`Session.HasHandlePrefix`).
- **Empty tokens are bare words.** They come from repeated spaces, cannot split on `=`, and so
  count towards the skipped words.

## Model

| member | source | states |
|---|---|---|
| GoStrings.Split | obj/radio.go:238 | splitting always yields at least one piece, and no piece contains the separator |
| GoStrings.SplitCount | obj/radio.go:252-255 | a split yields one piece more than there are separators, so a split is never empty |
| GoStrings.JoinSplit | obj/radio.go:238-242 | the pieces of a split, joined with the separator, give back the original text |
| GoStrings.SplitJoin | obj/radio.go:238-242 | splitting the join of separator-free pieces gives back exactly those pieces |
| GoStrings.SplitWithoutSeparator | obj/radio.go:266 | text without the separator splits into itself alone, so each space-separated token re-split on ' ' is itself |
| GoStrings.ContainsOccurrence | obj/radio.go:169-171 | `Contains` holds exactly when the substring occurs at some index |
| GoStrings.Trim | obj/radio.go:139 | trimming spaces gives the empty string exactly when the line consists of spaces only |
| GoStrings.ItoaAtoi | obj/radio.go:42 | the decimal form of a sequence number is well formed and reads back as the same number |
| GoStrings.ItoaCharacters | obj/radio.go:42 | the decimal form contains no bar, space or '=' |
| KeyValue.PairAndBareByCount | obj/radio.go:270-274 | a token is an attribute exactly when it has one '=', and a bare word exactly when it has none |
| KeyValue.PairShape | obj/radio.go:270-273 | an attribute token is its key, '=', and its value, neither containing '=' |
| KeyValue.BareTokens | obj/radio.go:274-280 | no more bare words than tokens, and each one really splits into one piece on '=' |
| KeyValue.BareTokensMembers | obj/radio.go:274-280 | a string is among the bare words exactly when it is one of the tokens and bare, empty tokens included |
| KeyValue.BareTokensConcat | obj/radio.go:264-281 | the bare words of two token runs in a row are those of the first followed by those of the second |
| KeyValue.BareTokenPosition | obj/radio.go:274-280 | every bare token is kept, in order: the one at index i is the bare word numbered by how many bare tokens precede it |
| KeyValue.ParseKeyValue | obj/radio.go:252-260 | the result is an error exactly when the input has no '='; that error is never "no tokens found"; on error the map and the identifier are empty |
| KeyValue.PairsOfKeys | obj/radio.go:270-273 | a key is in the attribute map exactly when some one-'=' token carries it |
| KeyValue.PairsOfLastWins | obj/radio.go:272-273 | the value stored for a key is the value of the last token carrying that key |
| KeyValue.Append | obj/radio.go:264-282 | one more token adds its pair to the map, adds one to the bare count when bare, and replaces the identifier when bare and past the threshold |
| KeyValue.IdentifierIsLastBare | obj/radio.go:262-281 | the identifier is the last bare word, once at least `words` bare words come before it |
| KeyValue.IdentifierEmpty | obj/radio.go:262-285 | with no more than `words` bare words the identifier is the empty string |
| KeyValue.ParseKeyValueString | obj/radio.go:247-286 | the loop over the tokens returns exactly the error, map and identifier of `ParseKeyValue` |
| Registry.LoadOrStore | obj/radio.go:186-190 | the key is stored afterwards; an existing value is returned and kept, otherwise the default is stored; other keys are untouched |
| Registry.PatchPanadapter | obj/radio.go:176-201 | the identifier is present afterwards, every other entry is unchanged, a new entry has `Id` set, and only `center` is overwritten, when given |
| Registry.PatchIqStream | obj/radio.go:203-232 | the identifier is present afterwards, every other entry is unchanged, a new entry has `Id = Atoi(identifier)`, and only `pan` and `rate` are overwritten, each when given |
| Registry.PanadapterUnrecognisedIsNoOp | obj/radio.go:192-200 | a patch without `center` leaves a known panadapter registry exactly as it was |
| Registry.IqStreamUnrecognisedIsNoOp | obj/radio.go:219-231 | a patch without `pan` or `rate` leaves a known IQ stream registry exactly as it was |
| Registry.PanadapterPatchIdempotent | obj/radio.go:186-200 | applying the same panadapter patch twice is the same as applying it once |
| Registry.IqStreamPatchIdempotent | obj/radio.go:213-231 | applying the same IQ stream patch twice is the same as applying it once |
| Reply.ParseReplyStringPrefix | obj/radio.go:234-245 | a line with exactly one bar is split into the text before and after it; any other line gives two empty strings |
| Reply.ParseReplyRoundTrip | obj/radio.go:238-242 | a prefix and a message without a bar, joined by a bar, are read back as themselves |
| Reply.RouteOf | obj/radio.go:165-174 | a line is routed only if it has exactly one bar; to the panadapter registry exactly when its message contains `display pan`, otherwise to the IQ registry exactly when it contains `daxiq ` |
| Reply.NoSeparatorIsUnrouted | obj/radio.go:165-174 | a line without a bar, such as a handle line, never reaches a registry |
| Session.ApplyResponseLine | obj/radio.go:165-174 | a response line never changes the handle or the response log; a line without exactly one bar changes nothing; the registry not routed to is unchanged |
| Session.StepLine | obj/radio.go:139-157 | a blank line changes nothing; the handle is set to `line[1:]` only when empty and the line starts with h/H; other lines are logged only when the response channel is bound; unbound, only the handle can change |
| Session.StepLinesPrefix | obj/radio.go:137 | the lines of a read are taken one after another, in order |
| Session.HandleAssignedOnce | obj/radio.go:143-145 | once the handle is non-empty, no sequence of lines changes it |
| Session.UnboundChangesOnlyHandle | obj/radio.go:148-149 | without a bound response channel a read changes the handle and nothing else |
| Session.NonBlank | obj/radio.go:139-141 | no more lines are kept than the read has, and none of them is blank |
| Session.NonBlankMembers | obj/radio.go:139-141 | a line is kept exactly when it is one of the read's lines and not blank |
| Session.NonBlankConcat | obj/radio.go:137-141 | the non-blank lines of two runs of lines in a row are those of the first followed by those of the second |
| Session.NonBlankPosition | obj/radio.go:137-141 | every non-blank line is kept, in order: the one at index i comes right after the non-blank lines that precede it |
| Session.ResponseBoundPreserved | obj/radio.go:148 | whether the response channel is bound never changes |
| Session.ForwardedAfterHandle | obj/radio.go:137-152 | once the handle is set and the channel bound, the response log grows by exactly the read's non-blank lines, in order |
| Session.ApplyResponseLineKeepsEntries | obj/radio.go:176-232 | a routed patch removes no registry entry and replaces no entry's identifier |
| Session.StepLineKeepsEntries | obj/radio.go:137-157 | one response line removes no registry entry and replaces no entry's identifier |
| Session.EntriesPersist | obj/radio.go:135-158 | across a read, no registry entry is removed and no entry's identifier is replaced |
| Session.MalformedPanadapterStatus | obj/radio.go:180-190 | a `display pan` message without '=' still creates, or keeps, the entry under the empty identifier |
| Commands.CommandFrameDecodes | obj/radio.go:42-48 | a frame for a command without a bar splits on a bar into `C` plus the decimal sequence number, and the command followed by '\r' |
| Commands.Frames | obj/radio.go:45-48 | the i-th command sent from a zero counter is written as the frame numbered i+1 |
| Commands.FramesAppend | obj/radio.go:45-48 | sending one more command adds its frame, numbered one past the previous count, at the end |
| Vita.Dispatch | obj/radio.go:325-381 | no decoder runs and nothing is published for an unbound sink; discovery, IF-narrow, waterfall, unknown codes and other packet types publish nothing; FFT and meter publish their decoded record, Opus the payload less its cutoff bytes, all four IF-wide codes the decoded IF data; a handled packet whose own sink is unbound, any other packet type, an extension-data packet of an unhandled class and any other IF-data class do nothing at all |
| Vita.Deliver | obj/radio.go:333-376 | a publication is appended to its own sink's log and every other log is unchanged; the waterfall log never grows |
| Vita.UnboundSinkReceivesNothing | obj/radio.go:325-381 | whatever the packet, the log of an unbound sink is unchanged |
| Vita.WaterfallNeverPublished | obj/radio.go:355-359 | whatever the packet, the waterfall sink receives nothing |
| Radio.RadioContext.constructor | obj/radio.go:21-38 | a zero-initialised context: counter 0, no handle, empty registries and logs, the given channels bound |
| Radio.RadioContext.GetNextCommandPrefix | obj/radio.go:40-43 | the counter goes up by exactly one, and the new value and its prefix (`C`, the number, a bar) are returned |
| Radio.RadioContext.SendRadioCommand | obj/radio.go:45-55 | the command's frame is written with the next number, which is returned and equals the count of commands sent; the written log stays the frames of all commands so far |
| Radio.RadioContext.ParsePanAdapterParams | obj/radio.go:176-201 | the panadapter registry becomes `PatchPanadapter` of the parsed identifier and attributes |
| Radio.RadioContext.ParseDaxIqStatusParams | obj/radio.go:203-232 | the IQ stream registry becomes `PatchIqStream` of the parsed identifier and attributes |
| Radio.RadioContext.ParseResponseLine | obj/radio.go:165-174 | the context's text state becomes `ApplyResponseLine` of the line |
| Radio.RadioContext.HandleResponseLine | obj/radio.go:139-157 | the context's text state becomes `StepLine` of the line |
| Radio.RadioContext.HandleRead | obj/radio.go:129-158 | after one read, the context's text state is `StepRead` of the read |
| Radio.RadioContext.DispatchDataToChannels | obj/radio.go:325-381 | the sink logs and the decoder calls grow by exactly what `Dispatch` says |
| Radio.RadioContext.ReceiveDatagram | obj/radio.go:314-321 | the parsed packet goes to the raw-data log exactly when that channel is bound, and is then dispatched as `Dispatch` says |

## Left out

- Connection setup: `InitRadioContext`, `GetOutboundIP`, the UDP resolve and listen, and the blocking `forever` channel (obj/radio.go:57-115, 288-311). They are network setup and process bootstrap. The fixed list of `sub ... all` commands is therefore not modelled. Any list of commands sent from a fresh context is described by `Commands.Frames`.
- Socket I/O and its failures: `conn.Read`, `ReadFromUDP`, the error `continue`, and the `panic` on a failed write. A read is a given string, a datagram a given byte sequence, and a write an append that always succeeds.
- The 4096-byte read buffer and the 64000-byte datagram buffer. The model takes reads and datagrams of any length. Payloads are modelled as copies: the Go loop reuses one buffer for every datagram, so a packet sent on `ChannelRadioData`, or an Opus slice, may share bytes that the next read overwrites (depending on whether the preamble parser copies), and that reuse is not captured.
- Concurrency: the two goroutines, channel blocking and back-pressure, and the atomicity of `sync.Map`. The registries are plain maps and the channels append-only logs.
- Radio.RadioContext.ParsePanAdapterParams: `strconv.ParseFloat` and the `int32(x*1000000)` scaling of `center` are the opaque parameter `centerOf`. Floating point and the conversion's overflow behaviour are not modelled.
- GoStrings.Atoi: the decimal value of an optional sign and digits, otherwise 0. The 64-bit range clamp of `strconv.Atoi` is not modelled, because integers are unbounded.
- Vita.Dispatch: the preamble parser and the payload decoders of the external `vita` package are uninterpreted. Their records are abstract types, and the preamble parser is a parameter of `ReceiveDatagram`.
- Vita.Dispatch: a nil preamble after a parse error is out of scope, so a packet always has a preamble. The class codes are a datatype, which assumes the numeric codes are distinct.
- Vita.Dispatch: requires the Opus cutoff to fit in the payload whenever the Opus branch is taken. With a larger cutoff the Go slice would panic.
- Logging: every `log`/`l.Println` line and the `Debug` flag.
- The channel bindings are fixed when the context is built. Binding a channel while the session runs is not modelled.
