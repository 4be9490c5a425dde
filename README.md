# uhttpd2 core, modelled in Dafny

This project models the core of uhttpd2, a small embedded HTTP server, and
proves properties of that model. uhttpd2 serves one connection at a time
through callbacks from an event loop. It frames responses with the chunked
transfer coding of section 4.1 of RFC 7230, and it decodes and encodes
URLs with the percent-encoding of section 2.1 of RFC 3986. It decodes
base64 with the alphabet of section 4 of RFC 4648. It forwards JSON-RPC 2.0
calls carried in POST bodies to a message bus, rewrites URLs through an
alias table, and redirects clients to a captive portal.

The modules follow the C files:

| file | module | models |
|---|---|---|
| `chunked.dfy` | `Chunked` | `uh_use_chunked`, chunk framing and the end marker, with a de-chunker that undoes them |
| `urlcodec.dfy` | `UrlCodec` | `uh_urldecode` and `uh_urlencode`, as methods over the caller's byte array |
| `base64.dfy` | `Base64` | `uh_b64decode`: a method over the caller's byte array |
| `format.dfy` | `Format` | the decimal numerals `%i` and `%03i` print |
| `client.dfy` | `Connection` | `class Client`: the request-line and header parsers, the read loop, response heads, chunked output, request completion, the idle timeout and stream teardown |
| `dispatch.dfy` | `Dispatch` | the gateway's per-request record (`struct dispatch_ubus`) and `uh_ubus_request_free` |
| `json.dfy` | `Json` | JSON values and their compact rendering |
| `ubus.dfy` | `Gateway` | the JSON-RPC gateway: error table, envelopes, call validation, single calls and batches, timeouts, the body callbacks and the request gate |
| `alias.dfy` | `Alias` | `class AliasTable`: `uh_alias_add` and `uh_alias_transform` |
| `captive.dfy` | `Captive` | `class CaptivePortal` and `uh_captive_redirect` |

Functions that only compute a value are modelled as Dafny functions. Code
that updates state is modelled as methods:
- on a `Client` object whose fields are the connection's state;
- on arrays where the C code writes into a caller's buffer.

Each method's `ensures` ties the new state to a function of the old one.
The output stream is the string `out`. Each response head also appends
its status code to the ghost log `statuses`. Timers are `Armed(ms)` or
`Disarmed`.

The gateway methods are specified through `Snapshot(cl)`, a value holding
every field they touch. Non-recursive step functions give the snapshot
after each C function:
- `Headed`, `Printed` and `Ended` for the head, one chunk, and the end of a request;
- `Answered`, `SingleErrored` and `Handled` for answering a call;
- `BatchOpened`, `Completed` and `TimedOut` for batches, bus completion and the call timeout.

Lemmas then state what those steps write and leave behind. The bus and
json-c are an oracle value, `Backend`. It says:
- whether a call object converts to a blob;
- which object names exist;
- what the session service answers;
- whether an asynchronous invocation can be issued.

## Model

| member | source | states |
|---|---|---|
| Chunked.HexUpper | utils.c:40 | `%X` prints at least one digit and only hexadecimal digits |
| Chunked.ParseHexUpper | utils.c:40 | the size line `%X` prints reads back as the length that was printed |
| Chunked.EmptyWriteIsEof | utils.c:40-43 | a zero-length chunked write emits exactly the `0\r\n\r\n` end marker |
| Chunked.DechunkChunkedBody | utils.c:34-44 | reading back a body of non-empty chunked writes followed by the end marker, with a chunked-coding reader, returns exactly those payloads in order |
| Chunked.DechunkStep | utils.c:39-43 | one framed chunk is consumed by one step of the reader, whatever follows it |
| Chunked.DechunkEof | utils.c:79-85 | the end marker alone reads back as no chunks |
| Chunked.SizeLineOfFrame | utils.c:40 | the size line of a framed chunk parses to the payload length, followed by the payload |
| Connection.Client.ChunkWrite | utils.c:34-44 | the output grows by the frame of the payload (chunked exactly when `uh_use_chunked` says so), and the idle timer is re-armed with the network timeout |
| Connection.Client.ChunkPrintf | utils.c:46-77 | the formatted text is framed with its full length, including texts of 256 bytes or more, and the idle timer is re-armed |
| Connection.Client.ChunkEof | utils.c:79-85 | the output grows by the end marker in chunked mode and by nothing otherwise |
| UrlCodec.UrlDecode | utils.c:90-116 | the return code and the bytes stored in `buf` are those of a step function that follows the loop; the NUL is stored only when it fits inside the buffer, and not at all on a malformed escape (-2); every other byte past the output is untouched |
| UrlCodec.DecodeRunShape | utils.c:99-115 | only the decoded length, -1 and -2 are returned, a non-negative result is the number of bytes stored, and at most `blen` bytes are stored |
| UrlCodec.DecodeRunSucceeds | utils.c:99-115 | the result is non-negative exactly when the input is well formed and its decoding fits `blen`; the bytes stored are then the reference decoding |
| UrlCodec.DecodeRunOverflows | utils.c:99-115 | a well-formed input whose decoding does not fit returns -1 |
| UrlCodec.DecodeRunNeverMalformed | utils.c:106-107 | a well-formed input never returns -2 |
| UrlCodec.DecodeRunMalformed | utils.c:106-107 | a malformed input with room for all of it returns -2 |
| UrlCodec.EscapeDecodes | utils.c:109 | `%XY` decodes to the byte 16·hex(X)+hex(Y) |
| UrlCodec.Hex | utils.c:94-97 | the `hex()` macro maps a hexadecimal digit below 16 |
| UrlCodec.PercentDecodeShorter | utils.c:99-115 | decoding never produces more bytes than it reads |
| UrlCodec.NulPastEndAsWritten | utils.c:113 | decoding "a" into a one-byte buffer returns 1, and the source then stores its NUL at index 1, one past the buffer |
| UrlCodec.StoreEscape | utils.c:136-138 | one escape stores `%` and its two digits right after the output so far, keeping the bytes before them and leaving the bytes after them untouched |
| UrlCodec.UrlEncode | utils.c:121-148 | the return code and the bytes stored are those of a step function that follows the loop; bytes past the output are untouched |
| UrlCodec.Escape | utils.c:136-138 | an escape is `%` and two lower-case hexadecimal digits whose value is the byte |
| UrlCodec.LowerHexDigit | utils.c:125 | each nibble's digit is a hexadecimal digit of that value |
| UrlCodec.EncodeRunShape | utils.c:127-147 | only -1 and the output length are returned, and at most `blen` bytes are stored |
| UrlCodec.EncodeRunSucceeds | utils.c:127-147 | the result is non-negative exactly when the reference encoding fits `blen`; the bytes stored are then that encoding |
| UrlCodec.PercentEncodeLength | utils.c:129-139 | the encoding takes one byte per unreserved byte and three per escaped byte |
| UrlCodec.DecodeEncode | utils.c:90-148 | decoding the encoding of any byte string gives it back |
| UrlCodec.UrlRoundTrip | utils.c:90-148 | when both buffers are large enough, `uh_urldecode` of what `uh_urlencode` stored returns the original bytes and their length |
| Base64.B64Decode | utils.c:150-197 | the bytes stored, the NUL after them and the returned length (which counts the NUL, so 1 ≤ r ≤ blen) are those of a step function that follows the loop; the rest of the buffer is untouched |
| Base64.Sextet | utils.c:161-176 | each alphabet byte stands for six bits and `=` for zero; every other byte is skipped |
| Base64.Shift6 | utils.c:178 | the accumulator stays within 32 bits |
| Base64.B64DecodedBound | utils.c:180-196 | the output grows three bytes at a time and stops before `len + 3 ≥ blen`, so with its NUL it fits the buffer |
| Base64.B64RunBound | utils.c:159-193 | from any loop state the output keeps its prefix, grows by whole groups and stays below `blen` |
| Base64.B64RunStore | utils.c:180-187 | a valid byte at an index ≡ 3 (mod 4) with room left stores the three octets of the accumulator |
| Base64.B64RunShift | utils.c:178-180 | a valid byte at any other index only shifts the accumulator |
| Base64.GroupFromAccumulator | utils.c:178-186 | after four sextets the octets stored are exactly that group, whatever the accumulator held before |
| Base64.B64DecodedCanonical | utils.c:150-197 | on whole four-character groups of the alphabet or `=`, with room in the buffer, the decoder stores the group-by-group decoding in which `=` counts as zero bits; on input without `=` that is the decoding of section 4 of RFC 4648 |
| Base64.GroupOctets | utils.c:178-186 | a group's three octets are laid out as RFC 4648 splits 24 bits: the first sextet and the high two bits of the second, then the low four of the second and the high four of the third, then the low two of the third and the fourth |
| Base64.B64DecodedFinalGroup | utils.c:159-196 | appending one group to a canonical input appends exactly its three octets to what is stored |
| Base64.PadTwoGroup | utils.c:174-186 | a final group `xy==` stores the one octet RFC 4648 decodes, then the low four bits of `y` (zero in a canonical encoding) and a zero byte, instead of stopping after one octet |
| Base64.PadOneGroup | utils.c:174-186 | a final group `xyz=` stores the two octets RFC 4648 decodes, then the low two bits of `z` (zero in a canonical encoding) as a third byte |
| Base64.PaddedQuantum | utils.c:159-196 | `QQ==` is stored as `A` followed by two zero bytes, so the result reads as the C string `A` but its length counts three bytes before the NUL |
| Format.Padded3 | client.c:48-50 | `%03i` prints at least three decimal digits whose value is the code |
| Format.DecimalValueOfDecimal | client.c:48-50 | `%i` prints a numeral whose value is the number |
| Connection.VersionTable | client.c:29-33 | each version's label is its table entry, and no two entries are equal |
| Connection.MethodNamed | client.c:131-138 | the method names are exactly GET, POST and HEAD |
| Connection.Tokens | client.c:124-126 | every token `strtok` returns is a non-empty run without spaces |
| Connection.TokensOfJoined | client.c:124-126 | a line of single-space-separated words, with any trailing spaces, tokenises back into those words |
| Connection.TokensSkip | client.c:124-126 | leading spaces never change the tokens |
| Connection.TokensCons | client.c:124-126 | a token ends at the next space or at the end of the line |
| Connection.VersionIndex | client.c:140-147 | the downward search finds the table index of an exact label, and -1 exactly when the token is no label |
| Connection.Client.FindVersion | client.c:140-147 | the loop returns that index |
| Connection.ClassifyAccepts | client.c:118-152 | a request line is accepted exactly when it has at least three tokens, a known method and an exact version label; the method, path and version come from those tokens |
| Connection.AcceptsWellFormedLine | client.c:118-152 | `METHOD SP path SP version`, with any trailing tokens, is accepted as exactly that request |
| Connection.MethodNameOf | client.c:131-136 | each method's name is recognised as that method |
| Connection.VersionLabelOf | client.c:140-147 | each version's label is found at that version's index |
| Connection.StoredVersionAsWritten | client.c:140-149 | the version slot the source leaves is -1 exactly for an unknown version token |
| Connection.UnknownVersionIndexesOutsideTable | client.c:140-149 | a line such as `GET / HTTP/2.0` is rejected for its version with the slot left at -1, outside the version table |
| Connection.StoredVersionSlot | client.c:140-148 | read as a signed field the slot is negative exactly for an unknown version; read as an unsigned 32-bit field it is never negative, and lies outside the table exactly for an unknown version |
| Connection.ParseOutcomeAsWritten | client.c:124-151 | as written, the line moves to HEADER exactly when it is accepted under the signed reading, and whenever it has three tokens and a known method under the unsigned one |
| Connection.UnknownVersionUnsignedGoesOn | client.c:140-151 | with an unsigned field `GET / HTTP/2.0` is not rejected: it moves to HEADER with the slot at 4294967295 |
| Connection.Client.ParseRequest | client.c:118-152 | too few tokens leave the request as it was; an unknown method records only the URL; an unknown version records URL and method and, as the corrected half of the client.c:140-149 finding, stores HTTP/1.0 where the source leaves -1; an accepted line records all three and moves to HEADER, every rejection to DONE |
| Connection.FindCrlf | client.c:158-160 | the index `strstr` finds leaves room for the CRLF |
| Connection.FindCrlfFirst | client.c:158-160 | the index found is the first CRLF, with no NUL before it (the read buffer holds string data, so the search ends at a NUL); none is found only when every CRLF has a NUL before it, so a line holding a NUL is never handled |
| Connection.Client.InitCb | client.c:154-171 | without a whole line nothing changes; otherwise the line and its CRLF are consumed and stored as REQUEST; an accepted line moves to HEADER without output; a rejected one gets a 400 and closes (DONE, `eof`) |
| Connection.Lowered | client.c:199-201 | the name keeps its length with every upper-case letter lower-cased |
| Connection.Client.LowerName | client.c:199-201 | the loop produces that name |
| Connection.SkipSpace | client.c:196-197 | the value is a suffix whose skipped prefix is all white space and which starts with none |
| Connection.Client.SkipValueSpace | client.c:196-197 | the loop produces that value |
| Connection.IndexOf | client.c:189 | `strchr` finds the first occurrence, and none only when there is none |
| Connection.FieldLine | client.c:189-205 | a `name: value` line yields the lower-cased name and the value without its leading white space |
| Connection.MalformedLine | client.c:189-191 | a line is malformed exactly when it is non-empty and has no colon |
| Connection.Client.SplitHeader | client.c:178-206 | the pure part of `client_parse_header` classifies the line as that function does |
| Connection.Client.ParseHeader | client.c:178-206 | an empty line cancels the idle timer, hands the header block on and moves to DATA; a malformed line moves to DONE and sends nothing; a field is appended to `hdr` and the state stays HEADER |
| Connection.Client.HeaderCb | client.c:213-230 | without a whole line nothing changes; otherwise exactly the line and its CRLF are consumed and the state, header list and timer are the parse's outcome |
| Connection.Client.DataCb | client.c:208-211 | the body callback never takes any bytes |
| Connection.Client.ReadCb | client.c:239-259 | the cursor and the output only grow; in DATA nothing is consumed; afterwards INIT or HEADER never still holds a whole line, and a live state never holds a full buffer; at most one error status is logged per call, 400 or 413, and the connection is then done; when the current callback cannot progress, a full buffer is answered 413 and closed, and otherwise nothing changes |
| Connection.Client.Deliver | client.c:273-278 | bytes arriving on the stream are appended to the read buffer and the read loop's guarantees hold, including the 413 answer when the bytes fill the buffer and the current callback cannot progress |
| Connection.StatusHeadFields | client.c:36-52 | the status line starts with the version label, a space, a three-digit code field and a space |
| Connection.StatusHeadConnection | client.c:36-52 | the head ends with `Connection: keep-alive` exactly for HTTP/1.1 (else `close`), then `Transfer-Encoding: chunked` exactly when `uh_use_chunked` holds (HTTP/1.1 and not HEAD) |
| Connection.Client.HttpHeader | client.c:36-52 | the output grows by that head, and the status code is logged |
| Connection.Client.ErrorHeader | client.c:54-58 | the head followed by the plain-text content type |
| Connection.Client.ConnectionClose | client.c:60-65 | the state becomes DONE, `eof` is set and a state change is signalled |
| Connection.Client.DispatchDone | client.c:67-72 | the free hook runs at most once: it is cleared after the call, and running it releases the gateway record and cancels the idle timer |
| Connection.Client.RequestDone | client.c:74-88 | the end marker is written and the free hook run at most once; HTTP/1.1 with keep-alive returns to INIT with the keep-alive timer, anything else closes |
| Connection.Client.ClientError | client.c:90-102 | head, plain-text type, the message as one chunk, then the request is done |
| Connection.Client.HeaderError | client.c:104-108 | a client error whose message is the summary, after which the connection is closed whatever keep-alive says |
| Connection.Client.Reject | client.c:104-108 | the same error seen from the read path: one more head with that status, output that only grows, and a closed connection |
| Connection.Client.Timeout | client.c:110-116 | the idle timeout closes the connection: DONE, `eof` set, timer spent |
| Connection.Client.PeerClosed | client.c:293 | the peer closing its end sets the end-of-input flag and a state change, which the teardown test reads |
| Connection.Client.NotifyState | client.c:288-295 | the connection is torn down exactly when the state is CLOSE, or `eof` is set with nothing left to write, or a write failed; teardown runs the free hook and cancels the timer, otherwise nothing changes |
| Connection.Client.constructor | client.c:297-332 | a new connection starts in INIT with empty buffers, no free hook, a zeroed gateway record and the idle timer armed with the network timeout |
| Dispatch.RequestFree | ubus.c:213-228 | the reply buffer, parsed value and tokener are released, and the bus call is aborted exactly when one was issued; the pointer to the parsed value and the body byte count stay as they were |
| Gateway.ErrorCode | ubus.c:84-98 | the standard JSON-RPC errors have codes -32700 or -32600…-32603, the gateway's own -32000…-32099 |
| Gateway.ErrorCodeDetermines | ubus.c:84-98 | no two errors share a code, so each error is recovered from its code |
| Gateway.Envelope | ubus.c:138-153 | a response object has three members: `jsonrpc` "2.0", `id` echoing the call's id (null when it has none) and the payload |
| Gateway.ErrorEnvelopeShape | ubus.c:155-165 | an error envelope echoes the id, carries no result, and its `error` holds the error's code and message |
| Gateway.ResultEnvelopeShape | ubus.c:175-192 | a result envelope echoes the id, carries no error, and its `result` is the return code followed by the data blobs in arrival order |
| Gateway.PickParams | ubus.c:267-296 | the array policy fills its slots with the first string, the first string after it and the first object after that, skipping elements of the wrong type |
| Gateway.PickParamsThree | ubus.c:293-296 | the policy fills all three slots exactly when the array holds a string, a later string and a later object |
| Gateway.ParseJsonRpcAccepts | ubus.c:265-303 | a call object is accepted exactly when `jsonrpc` is "2.0", `method` is a string and `params` is an array holding a string, a later string and a later object |
| Gateway.ParseJsonRpcFields | ubus.c:285-302 | an accepted call carries the `method` string and the object name, method name and arguments the array policy picks |
| Gateway.AllowedNeedsGrant | ubus.c:320-351 | access is granted exactly when the session object is found and its reply carries `access: true` |
| Gateway.RouteOrder | ubus.c:353-391 | each error is returned exactly when every earlier check passed and its own failed: parse error, method not found, object not found, access denied |
| Gateway.RouteIssues | ubus.c:353-391 | a call reaches the bus exactly when every check passes, and it carries the call's own object id, function and arguments |
| Gateway.RouteNeverInvalid | ubus.c:357-368 | malformed envelopes are never reported as invalid request or invalid parameters; those codes, with session-not-found, timeout and internal error, never come out of validation |
| Gateway.RouteNoauth | ubus.c:382-386 | with authentication off the session service is never consulted and access is never denied |
| Gateway.HandledIssues | ubus.c:237-263 | a call that passes the checks is issued with its timeout armed and the request pending, or answered with an internal error when the bus refuses it |
| Gateway.Print | utils.c:70-77 | one chunk of output, with the idle timer re-armed |
| Gateway.End | client.c:74-88 | the connection after the request is done |
| Gateway.SendHeader | ubus.c:110-114 | a 200 head and the JSON content type |
| Gateway.SendResponse | ubus.c:116-136 | the answer with its separator; in a batch the next element is scheduled, otherwise a newline follows and the request is done |
| Gateway.JsonError | ubus.c:155-165 | the error envelope for the current call, answered |
| Gateway.SingleError | ubus.c:230-235 | a head, the error answer, then the request done once more |
| Gateway.SendRequest | ubus.c:237-263 | the invocation is handed to the bus with its timeout, or answered with an internal error |
| Gateway.HandleRequestObject | ubus.c:353-391 | the call object is validated and then answered with the first failing check's error, or issued |
| Gateway.RequestDataCb | ubus.c:167-173 | one more data blob is kept, after the earlier ones |
| Gateway.RequestCb | ubus.c:175-192 | the call's timeout is cancelled and `[ret, data…]` is answered |
| Gateway.TimeoutCb | ubus.c:194-202 | the bus call is aborted and the timeout error answered |
| Gateway.InitBatch | ubus.c:305-312 | the record is marked as a batch, a head is sent and `[\n\t` opens the answer array |
| Gateway.CompleteBatch | ubus.c:314-318 | `\n]\n` closes the array and the request is done |
| Gateway.NextBatched | ubus.c:393-406 | past the last element the array is closed and the request done; otherwise the index advances and the next element is handled |
| Gateway.BatchTextJoins | ubus.c:120-124 | the answers of a batch, each with the separator `uh_ubus_send_response` chooses, are the answers joined by `", "` |
| Gateway.BatchTextAfterFirst | ubus.c:120-124 | every answer after the first is preceded by `", "` |
| Gateway.DataDone | ubus.c:408-425 | an object gets a head and is handled as one call, a non-empty array opens a batch, anything else is a single parse error |
| Gateway.OpenBatch | ubus.c:417-423 | the batch is opened and its first element scheduled; an empty array falls through to the parse error |
| Gateway.EmptyBatchAnswer | ubus.c:417-423 | an empty batch gets two response heads, the record is released, and the batch timer is left scheduled on it |
| Gateway.DataSend | ubus.c:427-444 | once a value is parsed or without a tokener the bytes are refused with a parse error; otherwise they are counted first, and refused with a parse error when the total passes 4096; only accepted bytes are taken |
| Gateway.AddBodyLen | ubus.c:434 | the body byte count grows by exactly the new bytes, and nothing else in the connection changes |
| Gateway.StoreValue | ubus.c:438 | the parsed value becomes the tokener's outcome, and nothing else in the connection changes |
| Gateway.CountBody | ubus.c:436-443 | the bytes are counted, then either accepted with the tokener's value or refused once the total passes 4096 |
| Gateway.SessionFromUrl | ubus.c:456-465 | the loops skip the slashes after the prefix and cut at the next slash, giving the session id of the rest of the URL |
| Gateway.SessionOfPath | ubus.c:456-465 | after any number of slashes, a slash-free segment followed by nothing or a slash is the session id |
| Gateway.SessionOfBounds | ubus.c:456-465 | a session id never holds a slash and is never longer than the URL |
| Gateway.RequestSidOfPath | ubus.c:450-470 | with authentication, `prefix + slashes + sid + tail` runs under `sid`, and it is admitted exactly when `sid` has 32 characters and the method is POST |
| Gateway.RequestSidNoauth | ubus.c:450-452 | without authentication every request runs under the 32-zero session id and is admitted exactly when it is a POST |
| Gateway.HandleRequest | ubus.c:446-478 | an admitted request gets the free hook, a new tokener and its session id, and every other field of the record stays as it was; any other is answered 400 "Bad Request" |
| Gateway.Admit | ubus.c:467-477 | the 32-character / POST gate |
| Gateway.BadRequest | ubus.c:467-469 | `uh_client_error(400, "Bad Request", "Invalid Request")` on the connection |
| Gateway.Install | ubus.c:471-477 | the free hook installed and only the tokener and the session id of the record set, the rest kept |
| Gateway.LeftoverValueRefusesNextBody | ubus.c:431-432 | on a keep-alive connection, a body value parsed by the previous request is still in the record (neither `uh_ubus_request_free` nor `uh_ubus_handle_request` clears it), so every byte of the next request's body is refused |
| Gateway.BodyCountCarriesOver | ubus.c:434-436 | the body byte count also carries over: the next request's bytes are accepted exactly when no value is left and the two bodies together stay within 4096 bytes |
| Gateway.AnsweredSingle | ubus.c:116-136 | outside a batch an answer writes its rendering, a newline and the end marker; the record is released when the free hook ran |
| Gateway.AnsweredInBatch | ubus.c:116-136 | inside a batch an answer writes its separator and rendering as one chunk and schedules the next element; the connection stays open |
| Gateway.SingleErrorEndsTwice | ubus.c:230-235 | outside a batch a single error writes a head, the error envelope, the newline and the end marker twice, because the request is done twice |
| Gateway.TimeoutThenFreeAbortsTwice | ubus.c:194-228 | a call that times out is aborted by the timeout and again by the free hook, because `req_pending` is never cleared |
| Alias.AliasTable.constructor | alias.c:5 | the table starts empty |
| Alias.AliasTable.Add | alias.c:15-23 | the new alias is appended at the tail and the earlier ones are unchanged |
| Alias.FirstMatch | alias.c:28-29 | the index found is the first alias, in insertion order, whose `from` is a prefix of the URL; none is found only when no alias matches |
| Alias.AddKeepsEarlierMatch | alias.c:15-33 | adding an alias never changes a match an earlier alias already makes; the new one matches only URLs no earlier alias takes |
| Alias.AliasTable.Transform | alias.c:25-40 | the result is true exactly when some alias matches; the buffer holds the rewritten URL (or the URL itself) truncated to `dest_l - 1` characters, then a NUL, and its last byte is a NUL; after a match the bytes past the NUL are untouched, otherwise they are NUL |
| Alias.PrintBounded | alias.c:30-31 | `snprintf` stores as much of the text as fits, then a NUL, and nothing else |
| Alias.CopyPadded | alias.c:37-38 | `strncpy` stores the URL as far as it fits and pads the buffer with NULs |
| Alias.TransformReadsBack | alias.c:25-40 | read back as a C string, the buffer is the rewritten URL truncated to `dest_l - 1` characters |
| Alias.ExpandPlain | alias.c:30 | a pattern without conversions is printed as it is |
| Alias.ExpandOne | alias.c:30 | a pattern `a%sb` with plain `a` and `b` prints `a`, the rest of the URL, then `b` |
| Alias.Fit | alias.c:30-38 | the characters kept fit the buffer with its NUL, and are all of them or `dest_l - 1` |
| Alias.CStringOf | alias.c:31 | a buffer holding a NUL-free text and then a NUL reads back as that text |
| Captive.CaptivePortal.constructor | captive.c:5-6 | no portal is configured at first |
| Captive.CaptivePortal.SetHost | captive.c:8-11 | both globals are set, so the portal counts as configured; afterwards exactly the requests not addressed to the portal host are redirected |
| Captive.CaptivePortal.CheckHost | captive.c:13-25 | a request is redirected exactly when a host and a URL are configured and the request does not name that host (including a request without a host); a redirect therefore always has a URL |
| Captive.UnconfiguredNeverRedirects | captive.c:15-16 | without both globals nothing is redirected |
| Captive.ConfiguredRedirectsOthers | captive.c:19-24 | a configured portal lets requests to its own host through and redirects any other host and a missing one |
| Captive.Redirect | captive.c:27-33 | a 302 "Found" head, `Content-Length: 0`, `Location: <url>` and an empty line, then the request is done, and true is returned |
| Captive.RedirectHead | captive.c:28-30 | the bytes of the redirect's head |

## Left out

- arduino.c is not part of this model: it is socket and process plumbing.
- Connection bootstrap and teardown are not modelled beyond the connection's own fields:
  - `uh_accept_client`'s accept, getsockname and list insertion;
  - `client_close`'s freeing, `close` and `list_del`;
  - `uh_ubus_init`, `uh_ubus_plugin_init` and `uh_ubus_post_init`;
  - `uh_ubus_close_fds`.
- Callees whose source is not part of this model:
  - `uh_handle_file_request`: the end of the header block is recorded as a counter, `headersCompleted`;
  - `uh_ubus_check_url` and `ops->path_match`: `HandleRequest`'s requires states that the URL starts with the prefix, which is what the route match ensures;
  - `uh_auth_check`.
- Foreign libraries are modelled abstractly:
  - ustream is an append-only output string and a read buffer with a consumed cursor;
  - `uloop_timeout_*` is `Armed(ms)`/`Disarmed`, and the 1 ms batch reschedule is the `NextBatch` timer;
  - real time and interleaving between connections are not modelled;
  - the json-c tokener's result is a parameter of `DataSend`;
  - blobmsg conversion is the `converts` oracle;
  - the bus (`ubus_lookup_id`, `ubus_invoke` with its 250 ms, `ubus_invoke_async`) is an oracle value.
- `blobmsg_format_json_indent`: the rendering is compact; the indentation of batch answers is not modelled.
- `uh_request_done` clears `cl->data` (client.c:79). The gateway's record is `cl->dispatch.ubus` (ubus.c:215), and the layout of `struct client` is not part of this model. The record is taken to lie outside `cl->data`, as the different names suggest. It therefore carries over between the requests of a keep-alive connection, and `uh_ubus_handle_request` sets only its tokener and session id (Gateway.Install, Gateway.LeftoverValueRefusesNextBody). If the record is in fact inside `cl->data`, a later request starts from a zeroed record instead.
- The gateway installs its free hook as `d->free` (ubus.c:473), while the connection runs `cl->dispatch_free` (client.c:69-71). The model takes the two to be the same hook, a flag `dispatchFree` on the connection.
- `blobmsg_parse_array` is part of libubox and not of this model. Gateway.PickParams follows its documented matching: policy slots are filled in order, and an element whose type does not fit the next slot is skipped.
- ustream's end-of-input detection is reduced to the event Connection.Client.PeerClosed; reads of zero bytes and socket errors are not modelled.
- Gateway.NextBatched: requires the request that armed the batch timer to be still in progress (its free hook not yet run). After an empty batch the source leaves the batch timer scheduled on a freed record (see Gateway.EmptyBatchAnswer); what that later use of freed memory does is not modelled.
- Gateway.RequestCb: requires a call outstanding on the bus, because the bus only completes calls it holds.
- Gateway.TimeoutCb: requires the call timeout to be the armed callback.
- Captive.Redirect: requires the portal URL to be set; the source only redirects after `uh_captive_check_host` said yes, which implies it (Captive.CaptivePortal.CheckHost).
- Connection.Client.Deliver: requires the new bytes to fit the stream's read buffer, which ustream guarantees.
- Connection.Client.Reject: states the status code and that the output only grows, not the bytes; the bytes are Connection.Client.HeaderError's contract.
- Connection.Client.InitCb: for a rejected line states the 400 status, the closed connection and growing output, not the response bytes (those are Connection.Client.HeaderError's).
- Connection.Client.ReadCb: when several lines are handled in one call, states the loop's guarantees and the error logged, not the effect of each iteration in turn; the effect of one line is Connection.Client.InitCb's and Connection.Client.HeaderCb's contract.
- Alias.Expand handles `%s` and `%%` only. A second `%s` would read an argument the source never passes (undefined in C); the model prints it literally. Other conversions and field widths are not modelled.
- Strings may hold NUL characters in the model, but C strings stop at the first one; Alias.TransformReadsBack therefore requires a NUL-free rewrite.
- Base64.B64Decode: requires a buffer of at least one byte. With `blen` 0 the source still stores its NUL at `buf[0]` (utils.c:195), a write outside the buffer; the model does not cover that call.
- The type of `cl->request.version` is declared in uhttpd.h, which is not part of this model. Connection.Client.ParseRequest and the client.c:140-149 finding take it to be signed, so that the `< 0` test at client.c:148 rejects an unknown version. If the field is an enum that GCC makes unsigned, the test never fires and the line moves on to HEADER with the slot at 4294967295 (Connection.UnknownVersionUnsignedGoesOn).
- Alias.AliasTable.Transform: requires a buffer of at least one byte, and so does Alias.PrintBounded. With `dest_l` 0 the source writes `dest[-1]` (alias.c:31, alias.c:38), and with a negative `dest_l` `snprintf` is handed a huge size; the model does not cover `dest_l < 1`.
- Allocation failure is not modelled. Gateway.Install always installs a tokener, although `json_tokener_new` (ubus.c:476) can return NULL, after which the source refuses every body through `!du->jstok` (ubus.c:431). The unchecked `malloc` and `strdup` of alias.c:16-19 and captive.c:9-10, and the `calloc` of client.c:306, are taken to succeed.
- Integer widths:
  - the base64 accumulator wraps at 32 bits;
  - the other `int`s never come near their limits on the modelled inputs, and are unbounded here.

## Findings

| source | as written | input that shows it | evidently intended | confidence | as-written member | corrected member |
|---|---|---|---|---|---|---|
| utils.c:113 | the NUL terminator is stored at `buf[len]` after the loop, and `len` can equal `blen` | decoding "a" into a one-byte buffer returns 1 and writes `buf[1]` | the NUL is stored only when it fits, or the loop keeps a byte free for it | high; not executed | UrlCodec.NulPastEndAsWritten | UrlCodec.UrlDecode |
| client.c:140-149 | the version slot is set to -1 before the search, and an unknown version leaves it there; the 400 answer then indexes `http_versions[-1]` in `uh_http_header` | the request line `GET / HTTP/2.0` | the rejection is answered with a valid version label; the model keeps HTTP/1.0 | high if `request.version` is signed, as assumed; with an unsigned field the line is not rejected and later reads the table at 4294967295 instead (Connection.UnknownVersionUnsignedGoesOn); not executed | Connection.UnknownVersionIndexesOutsideTable | Connection.Client.ParseRequest |
