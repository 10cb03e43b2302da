# eslgo command serialisation, modelled in Dafny

This project models the command serialisation layer of the eslgo FreeSWITCH
Event Socket client. This is the code that turns typed commands into the
text sent over the socket:

- `SendMessage.BuildMessage` writes the `sendmsg <uuid>` frame. It holds the
  lock lines, a computed `Content-Length`, one `key: value` line per header
  value, and an optional body after one blank line. It also fixes up the
  receiver's header map in place.
- `FormatHeaderString` writes a header map deterministically. Keys are sorted
  byte-wise, values are sanitised, and the final CRLF is dropped. Its helper
  `estimateSize` computes the builder's capacity.
- The call commands map their fields onto a `SendMessage`:
  - `Execute` puts its argument in a header or in the body (the 2048-byte
    switch) and defaults `Loops` to 1.
  - `Set`, `Export` and `Push` are an `Execute` of `set`, `export` or `push`.
  - `Hangup`, `Transfer` and `NoMedia` each send two headers.
- `BuildVars` writes channel variables as comma-separated `key=value` entries.

Modules, one per source file or shared concept:

| module | file | models |
|---|---|---|
| `GoMaps` | gomaps.dfy | nil maps (`Option`), map iteration order as an enumeration of the key set, sums that do not depend on that order |
| `Text` | text.dfy | `strings.Join`, `strconv.Itoa` with its inverse, the CRLF→LF `strings.Replacer`, `textproto.TrimString`, Go string order, `fmt.Sprintf` with one `%s` |
| `Mime` | mime.dfy | a `textproto.MIMEHeader` and its `key: value` lines for a given key order |
| `SendMsg` | sendmsg.dfy | command/sendmsg.go |
| `HeaderFormat` | format.dfy | command/command.go |
| `Call` | call.dfy | command/call/execute.go, hangup.go, transfer.go, nomedia.go |
| `Vars` | vars.dfy | utils.go |

How the model is built:

- Go leaves map iteration order unspecified. A loop over a map is modelled as
  a loop that picks any key not yet visited (`:|`). Where the result depends
  on that order, the method returns the order it used as a ghost
  out-parameter: `MapHeaderLines`, every `BuildMessage` (`SendMessage`,
  `Execute`, `Set`, `Export`, `Push`, `Hangup`, `Transfer`, `NoMedia`),
  `BuildVars`, and `FormatHeaderString` (its `keys`, which the sort makes
  unique). `CollectKeys` returns the order as the contents of the array it
  fills. `EstimateSize` keeps the order in a local ghost variable; its result
  is an order-free sum. Specification functions take the order as a
  parameter constrained by `IsEnumeration(order, keys)`. Nothing assumes a
  particular order except where the code sorts.
- Code that changes things in place is imperative Dafny:
  - `SendMessage` and `Execute` are classes whose `BuildMessage` methods update
    their fields.
  - `FormatHeaderString` fills an array of keys, sorts it in place, and writes
    the lines in nested loops.
  - `estimateSize` and `BuildVars` accumulate in loops.
- Each method is proved against a specification function:
  - `Frame` for a `sendmsg` frame;
  - `ExecuteFrame` and `TwoHeaderMessage` for the call commands;
  - `Lines`/`Join` with `Sanitise` for the formatter;
  - `EstimatedSize` for `estimateSize`;
  - `VarsText` for `BuildVars`.

  Lemmas state the properties of those functions.
- The value-receiver commands (`Set`, `Export`, `Push`, `Hangup`, `Transfer`,
  `NoMedia`) are datatypes. Like the Go code, their `BuildMessage` methods
  build a fresh `Execute` or `SendMessage` and call its `BuildMessage`.

Three behaviours of the code worth stating explicitly:

- `SendMessage` does not sort its header lines. They come in map iteration
  order. Only `FormatHeaderString` sorts.
- Header keys are stored in canonical MIME form (`Call-Command`,
  `Hangup-Cause`, `Event-Uuid`), not lower-case. The lock lines stay
  lower-case.
- With a body, the computed `Content-Length` line does not replace a
  caller-supplied `Content-Length` entry. Both are written
  (`CallerContentLengthKept`).

## Model

| member | source | states |
|---|---|---|
| SendMsg.SendMessage.BuildMessage | command/sendmsg.go:28-65 | returns the frame `Frame(...)` for the fields and the iteration order used. The map becomes non-nil and loses Content-Length exactly when the body is empty. UUID, Body, Sync and SyncPri are unchanged |
| SendMsg.MapHeaderLines | command/sendmsg.go:53-57 | the nested range loop yields one verbatim `key: value` line per value, key after key, along an enumeration of the keys |
| SendMsg.FrameWithBody | command/sendmsg.go:45-47 | with a body: lock lines, then `Content-Length: <len>`, then the map lines. The frame is `sendmsg uuid CRLF H CRLF CRLF body`, ends in a blank line plus the body, and the length field parses back to the body length |
| SendMsg.FrameWithoutBody | command/sendmsg.go:48-50 | with no body: no Content-Length key is left and no length line is computed. The frame is `sendmsg uuid CRLF` followed by the lock lines and the map lines joined by CRLF, with no blank line and no body after them |
| SendMsg.LockLinesOrder | command/sendmsg.go:35-43 | `event-lock: true` comes first, and `event-lock-pri: true` after it. Each is present exactly when its flag is set, and there is one line per flag |
| SendMsg.FrameLineCount | command/sendmsg.go:36-57 | number of header lines = Sync + SyncPri + (body non-empty) + the total number of map values, for any iteration order |
| SendMsg.FrameCarriesEveryValue | command/sendmsg.go:53-57 | value j of the i-th visited key is the line `key: value` at the position after the lock lines, the length line and the earlier keys' lines |
| SendMsg.FrameLineOrigin | command/sendmsg.go:53-57 | every line after the lock and length lines is `key: value` for a stored value |
| SendMsg.FrameLinesOrderFree | command/sendmsg.go:53 | the multiset of header lines is the same for every iteration order |
| SendMsg.FrameHasValueLine | command/sendmsg.go:53-57 | every stored value of every key has its `key: value` line |
| SendMsg.CallerContentLengthKept | command/sendmsg.go:46-57 | with a body, a caller's Content-Length entry stays in the map; the computed Content-Length line sits right after the lock lines, and the caller's value has its own line at a later, distinct position, so the frame has two Content-Length lines |
| HeaderFormat.FormatHeaderString | command/command.go:27-52 | needs at least one value (otherwise the final slice panics). Returns the sanitised lines joined by CRLF, with the keys in strictly ascending order and each key visited once |
| HeaderFormat.CollectKeys | command/command.go:31-36 | the keys slice holds every map key exactly once |
| HeaderFormat.SortStrings | command/command.go:37 | sorts the array in place. The result is ascending and a permutation of the input |
| HeaderFormat.InsertAt | command/command.go:37 | one insertion step makes the prefix up to i sorted, holding exactly the elements it held before (the old sorted prefix plus a[i]); the elements after i are left as they were |
| HeaderFormat.WriteLines | command/command.go:39-47 | the builder holds every value of every key in key order, each line ended by CRLF |
| HeaderFormat.WriteValues | command/command.go:40-46 | the inner loop writes one terminated line per value, in stored order, with the value sanitised |
| HeaderFormat.EstimateValues | command/command.go:58-60 | the inner loop adds len(key)+len(value)+4 for every value of one key |
| HeaderFormat.EstimateSize | command/command.go:55-62 | returns the sum over all values of len(key)+len(value)+4, for any iteration order |
| HeaderFormat.SanitiseClean | command/command.go:41-42 | a sanitised value is no longer than the stored one and has no ASCII white space at either end |
| HeaderFormat.TerminatedIsJoin | command/command.go:46-51 | cutting the last two bytes off the CRLF-terminated lines gives the lines joined by CRLF |
| HeaderFormat.SortedEnumerationUnique | command/command.go:31-37 | a key set has exactly one strictly ascending enumeration |
| HeaderFormat.SortedEnumerationStrict | command/command.go:31-37 | a sorted enumeration of distinct map keys is strictly ascending |
| HeaderFormat.FormatDeterministic | command/command.go:31-47 | all runs produce the same key order and the same text, whatever the map iteration order |
| HeaderFormat.FormatCarriesEveryValue | command/command.go:39-47 | every stored value appears, sanitised, as a line of its own key |
| HeaderFormat.FormatKeysAscending | command/command.go:37-47 | all lines of a key that sorts lower precede all lines of a key that sorts higher |
| HeaderFormat.FormatWithinEstimate | command/command.go:29 | the estimate is at least the result length plus the 2 bytes of the dropped CRLF |
| HeaderFormat.LinesWithinEstimate | command/command.go:55-62 | the terminated lines of any key sequence fit in the sum of those keys' estimates |
| HeaderFormat.FormatNoTrailingNewline | command/command.go:49-51 | the result is non-empty and its last byte is neither CR nor LF |
| Call.Execute.BuildMessage | command/call/execute.go:71-98 | sets Loops to 1 if it was 0 and changes no other field. Returns `ExecuteFrame` of the fields |
| Call.ExecuteHeadersContents | command/call/execute.go:81-95 | the map has Call-Command `execute`, the app name and the Loops text. Event-Uuid is present iff AppUUID is non-empty. Content-Type text/plain is present iff the args go in the body, Execute-App-Arg otherwise. There is no Content-Length key |
| Call.ExecuteHeadersSize | command/call/execute.go:81-95 | four keys, five with an AppUUID, each holding one value |
| Call.ExecuteLoopsLine | command/call/execute.go:72-74 | the Loops line is the decimal text of the effective count (1 when unset), and it parses back to that count |
| Call.ExecuteNamesApplication | command/call/execute.go:81-82 | the frame has `Call-Command: execute` and `Execute-App-Name: <AppName>` |
| Call.ExecuteEventUuidLine | command/call/execute.go:85-87 | a non-empty AppUUID is sent as `Event-Uuid: <AppUUID>` |
| Call.ExecuteArgsInHeader | command/call/execute.go:89-95 | args of at most 2048 bytes without ForceBody go in `Execute-App-Arg`. There is no Content-Type and the frame has no body |
| Call.FillHeaders | command/call/execute.go:81-95 | run after Loops has been defaulted, the successive `Headers.Set` calls and the `Body` assignment give exactly the map `ExecuteHeaders` (whose keys and values `ExecuteHeadersContents` states) and the body `ExecuteBody` |
| Call.ExecuteArgsInBody | command/call/execute.go:89-93 | args longer than 2048 bytes, or non-empty forced args, become the body, with `Content-Type: text/plain` and their Content-Length. There is no Execute-App-Arg |
| Call.ExecuteBodyEnds | command/call/execute.go:89-97 | with args in the body, the frame is `sendmsg uuid`, the header lines joined by CRLF, a blank line, and then exactly the args |
| Call.ExecuteForcedEmptyBody | command/call/execute.go:90-92 | ForceBody with empty args sends Content-Type but no Content-Length and no blank line |
| Call.ExecuteLineCount | command/call/execute.go:81-97 | line count = Sync + SyncPri + (body non-empty) + 4 + (AppUUID non-empty) |
| Call.Set.BuildMessageAs | command/call/execute.go:47-57 | an Execute of the named app with `Key=Value`, ForceBody, Loops unset and no AppUUID |
| Call.Set.BuildMessage | command/call/execute.go:59-61 | a Set is the `set` application |
| Call.Export.BuildMessage | command/call/execute.go:63-65 | an Export is the Set of its fields through the `export` application |
| Call.Push.BuildMessage | command/call/execute.go:67-69 | a Push is the Set of its fields through the `push` application |
| Call.SetFrameHeaders | command/call/execute.go:47-57 | a Set frame names its application and has `Loops: 1` |
| Call.SetFrameBody | command/call/execute.go:51-54 | a Set frame has `Content-Type: text/plain` and `Content-Length: len(Key)+len(Value)+1` |
| Call.SetFrameEnds | command/call/execute.go:51-54 | a Set frame is `sendmsg uuid`, its header lines, a blank line, and then exactly `Key=Value` |
| Call.SetVariantsDifferInAppName | command/call/execute.go:63-69 | the Set, Export and Push maps differ only in Execute-App-Name |
| Call.TwoHeaderFrame | command/sendmsg.go:59-64 | a two-key map with no body is written as the lock lines and its two lines in one of the two orders, 2 + Sync + SyncPri lines, with no Content-Length and no blank line |
| Call.Hangup.BuildMessage | command/call/hangup.go:26-37 | the frame of the map {Call-Command: hangup, Hangup-Cause: Cause} with no body |
| Call.HangupMessage | command/call/hangup.go:33-34 | the hangup frame is `sendmsg uuid CRLF`, the lock lines, then `Call-Command: hangup` and `Hangup-Cause: <Cause>` in either order |
| Call.Transfer.BuildMessage | command/call/transfer.go:27-38 | the frame of the map {Call-Command: xferext, Application: Application} with no body |
| Call.TransferMessage | command/call/transfer.go:34-35 | the transfer frame is the lock lines, then `Call-Command: xferext` and `Application: <Application>` in either order |
| Call.NoMedia.BuildMessage | command/call/nomedia.go:26-37 | the frame of the map {Call-Command: nomedia, Nomedia-Uuid: NoMediaUUID} with no body |
| Call.NoMediaMessage | command/call/nomedia.go:33-34 | the nomedia frame is the lock lines, then `Call-Command: nomedia` and `Nomedia-Uuid: <NoMediaUUID>` in either order |
| Call.NoMediaTestMessage | command/call/nomedia_test.go:20-29 | for `none`/`test` the frame is the test's expected text, up to the order of the two header lines |
| Vars.BuildVars | utils.go:19-41 | a nil or empty map gives "". Otherwise the result is the format with `%s` replaced by the entries joined by commas, in the iteration order used |
| Vars.WriteVar | utils.go:27-38 | one loop step adds a comma when the builder is non-empty, then `key=value`, quoted when the value holds a space |
| Vars.VarsTextSeparators | utils.go:27-29 | each further entry adds exactly one comma before itself. The first has none, and the text is never empty after an entry |
| Vars.ParseRenderVar | utils.go:30-38 | an entry parses back to its key and value when the key has no `=`: quotes are added exactly when the value holds a space |
| Vars.VarsTextDecodes | utils.go:26-39 | without `=` in keys and `,` in keys or values, splitting at commas gives one entry per map key, each parsing back to that key and its value |
| Vars.SplitAtJoin | utils.go:27-29 | splitting comma-joined pieces that hold no comma gives the pieces back |
| Vars.BuildVarsFormat | utils.go:40 | for a format `P%sS` the result is P, the entries, then S |
| Text.ItoaRoundTrip | command/sendmsg.go:47 | `strconv.Itoa` text is valid integer text and parses back to the number |
| Text.ItoaInjective | command/sendmsg.go:47 | different lengths give different Content-Length texts |
| Text.ReplaceCRLFIsSplitJoin | command/command.go:24 | the replacer is split at CRLF, then join with LF |
| Text.ReplaceCRLFSinglePass | command/command.go:24 | the replacer makes one left-to-right pass: `\r\r\n` becomes `\r\n` |
| Text.ReplaceCRLFWithout | command/command.go:41 | text without CRLF is left unchanged |
| Text.TrimStringSpec | command/command.go:42 | the trimmed text is the input minus white-space runs at both ends, and it starts and ends with a non-space |
| Text.BelowTotal | command/command.go:37 | Go's byte-wise string order is total on distinct strings |
| Text.BelowTransitive | command/command.go:37 | that order is transitive |
| Text.SprintfSubstitutes | utils.go:40 | `%s` is replaced by the argument and the text around it is kept |
| Text.JoinSnoc | command/sendmsg.go:59 | joining one more part adds exactly one separator before it |
| Mime.LinesPermutation | command/sendmsg.go:53-57 | the multiset of lines does not depend on the key order |
| Mime.LinesCountAnyOrder | command/sendmsg.go:53-57 | there is one line per stored value, for any order |
| Mime.LineAt | command/command.go:39-47 | value j of the i-th key sits right after the earlier keys' lines |
| Mime.KeyLinesPrecede | command/command.go:39-47 | all lines of an earlier key come before all lines of a later key |
| GoMaps.EnumerationDistinct | command/sendmsg.go:53 | a map range visits no key twice |
| GoMaps.SumByEnumerations | command/command.go:57-61 | a sum accumulated over a map range is the same for every iteration order |

## Left out

- helper.go, example/events/events.go, the connection, the reply correlator,
  the event registry and the frame decoder: these are I/O and concurrency,
  and they are not part of this model. Unicast is not part of this model:
  its builder source is not available.
- `textproto.CanonicalMIMEHeaderKey` is not modelled in general. The keys the
  commands set are written as their canonical constants.
- `strconv.Itoa` and byte lengths: strings are sequences of characters, one
  character per byte. UTF-8 encoding is not modelled.
- Go's `int` is unbounded here. The 64-bit overflow of `Loops` or of the size
  estimate is not modelled.
- `ws.Grow` and `make(..., 4)` only reserve capacity. They change no result
  and are not modelled beyond computing the estimate.
- HeaderFormat.SortStrings: sorts by insertion, not Go's pattern-defeating
  quicksort. Only the result is modelled (ascending, and a permutation of the
  input), and that result is the same for both algorithms.
- HeaderFormat.FormatHeaderString: requires at least one stored value,
  because the Go code panics on `str[:len(str)-2]` when there is none. The
  panic itself is not modelled.
- Vars.BuildVars: only formats with exactly one `%s` and no other `%` are
  modelled. Go's `fmt.Sprintf` accepts any format and reports missing or
  extra operands inline.
- Call.Set.BuildMessageAs: `fmt.Sprintf("%s=%s", Key, Value)` is written as
  the concatenation `Key + "=" + Value`, which is what that call produces.
- SendMsg.SendMessage.BuildMessage: the header map is a value here. In Go a
  `textproto.MIMEHeader` is a reference, so deleting `Content-Length` when the
  body is empty also changes the map seen by any caller still holding it; the
  model does not capture that aliasing, only the receiver's new map.
- Call.Execute.BuildMessage: the header map is filled as a local map and
  handed to the `SendMessage` constructor. The Go code sets it on the
  freshly made struct's map. Nothing outside the method can observe the
  difference.
