# CatSurf: a verified model of the HTTP server

CatSurf is a single-threaded, event-driven HTTP server in C++. This project models the parts of it that carry state
across events, and proves what holds for every input, every cutting of the input into reads, and every order of events.

## What is modelled

- `Text`, `Http`: byte strings, 64-bit sums, reads and how they are cut; status codes and the parser's states.
- `ChunkedCoding`, `Multipart`, `Upload`: the incremental decoder of chunked bodies, the multipart splitter and the
  upload writer. The specifications are functions on values; the methods of `Upload` work on the connection's fields.
- `UriCoding`, `RequestParser`, `RequestReads`, `RequestMeaning`, `HttpRequests`: percent coding and the incremental
  request parser; `RequestReads` says when its result depends on how the kernel cuts the stream into reads of up to 4096
  bytes, `RequestMeaning` what the encoding of a request is parsed to.
- `PathNormalization`, `Routing`: dot-segment removal and the search for the script in a URI; `stat` is an oracle.
- `CaptchaBypasses`: the token store with its lifetime and its eviction, against the history of its calls.
- `RequestHistory`: the sliding history behind bot detection, and the asset scan over it.
- `CgiOutput`, `CgiProcesses`, `CgiTables`, `CgiManagement`: the CGI manager. `CgiTables` proves on values that every
  step keeps the agreement of the five tables, the poller and the open descriptors; `CgiManagement` holds the class
  itself, whose invariant adds, for every script ever launched, either everything a live script must satisfy (bytes in,
  bytes out, flags, backpressure, keep-alive) or everything an ended one must (closed once, answered once).
- `Connection`, `EventPolling`, `ResponseWriting`, `Servers`: connections, the poller, the response and static-file
  writers, the feed of request bodies to scripts, and the event loop. `Server.Handle` takes any event and states what
  it does and what it leaves alone, `Server.Run` any sequence of them, and `Server.RunPast` what any sequence makes of
  a response that is on its way; what the kernel returns (partial sends, short reads, failures, exit codes, fresh
  numbers) and what the request says about keeping the connection comes with each event.
- `ConnectionReuse`: two concrete runs of that server, from its start, that end where something one would expect does
  not hold.

Ghost fields record what the program itself does not keep: the bytes on the wire, the reads taken from a script, the
bytes it was fed, how often each pipe end was closed, how many response heads were queued, which descriptors are open,
which connections that no script serves wait to be written to, and which scripts have lost their entry under their pid.

Bytes are `char` values, one per byte. The kernel's part is an assumption: a launch is given pipe ends that are not
open and a pid that is not that of a child still to be waited for, an accepted connection a descriptor that is not
open, reads and writes return no more than they were offered, and clocks do not run backwards where a member says so.
Requests are taken up on a connection that no script serves and that has nothing left to send.

## What the code does, where one might expect otherwise

- A line break in front of a request is not skipped, although `parseSL` means to: it ends the first line, which is
  refused with 400 (`RequestMeaning.LeadingLineBreak`).
- The Content-Length check catches its own 413 and reports 400 (`RequestParser.NeverPayloadTooLarge`).
- The 64000-byte limit of the request parser is applied to what has arrived, so near it the result depends on the
  cutting. `RequestParser.CutIndependence` gives the exact condition for reads of any size and
  `RequestReads.ReadSizeIndependence` for reads of up to 4096 bytes. A read beyond the limit is not answered with an
  error: the exception is raised outside the parser's try block (httpRequest.cpp:423), neither `read_client` nor `run`
  catches it, and `main` ends the whole server (main.cpp:16-20). `RequestReads.LargeRequestDepends` gives a request
  that is complete, or ends the server, as the kernel cuts it. The header block of a script depends on the cutting in
  the same way, but there the result is a 502 (`CgiOutput.ReadSizeIndependence`).
- A call of the chunked decoder that comes to a bad chunk drops what it has decoded itself, but what earlier calls
  have decoded has been passed on: the output of a stream in error depends on the cutting
  (`ChunkedCoding.ErrorBehindChunk`).
- The two bytes behind the size line of the last chunk are taken with it, whatever they are
  (`ChunkedCoding.DecodeLast`); there are no trailers.
- A chunk size is read modulo 2^64, so a size line may be negative or so large that the sums of the chunk's bounds
  wrap. The code then takes all bytes that are there as the chunk's data, and what it passes on depends on the cutting
  (`ChunkedCoding.OverrunHappens`). `ChunkedCoding.CutIndependenceExactly` gives the exact condition for both cases.
- A multipart read that ends between the boundary and its closing dashes is taken for the start of another part
  (`Multipart.BadCut`), and the upload never completes.
- A query that ends in a percent sign makes the decoder read the terminating NUL and one byte beyond it; the result
  does not depend on that byte (`UriCoding.DecodeQueryBytes`).
- A script's stdin is closed as soon as its buffer is drained, even if more of the body is due; what is fed later is
  dropped. A script is therefore given a prefix of its body, not always all of it.
- Once the head of a script's response has been queued, its client is watched for writing only, and for nothing once
  that has been sent (`Servers.Server.FinalizeResponseWrite`): until the script has ended, what is still due of the
  request's body is not read.
- Elapsed time is cast to an unsigned number: a clock that runs back behind the launch of a script, if only by a second,
  ends the script if it has a limit (`CgiProcesses.CgiProcess.ClockRunsBack`).
- `cgi_streaming` is not reset when a script ends. If a script answers before its request's body has come and the
  connection is kept, a following request whose body is complete finds the flag set: fed plus remaining bytes do not
  add up to the announced length (`ConnectionReuse.StaleRun`), and the next bytes on the connection are taken for that
  body (`ConnectionReuse.TakeNext`). `Servers.Server.SetUpStreaming` gives the exact condition under which they add up.
- A script whose child has been reaped keeps its pid until its output ends. If the kernel gives that pid to the child
  of a new script, the end of the old one erases the new one's entry in `pid_map` (`ConnectionReuse.PidRun`), so the
  exit of its child goes unnoticed; the code also signals that child, which is not part of this model.
  `CgiTables.DropKeepsPids` gives the exact condition, and the ghost field `lost` holds the scripts to which it has
  happened: for every other script, earlier or later, and in all other tables, the agreement is kept even then.
- The branches of `handleChildExit` for a script whose stdout is closed are unreachable: only `cleanupProcess` removes
  a script, and stdout is closed just before or inside it. Nor does a live script ever use chunked mode.
- `uploaded_bytes` is counted both by the chunked decoder and by the writer for chunked uploads.

## Model

| member | source | states |
|---|---|---|
| ChunkedCoding.NextStep | srcs/requirements/bonus/webserv/tools/src/server/server.cpp:1140-1176 | the head of the buffer: wait for more, a failure (a bad size line, or a chunk without its line end), the last chunk, one complete chunk, or a size whose bounds wrap, for which all that is there is taken; each step that takes anything shortens the buffer |
| ChunkedCoding.StoulReads | srcs/requirements/bonus/webserv/tools/src/server/server.cpp:1148-1154 | what std::stoul(…, 16) makes of a size line, by its parts: blanks, sign, prefix and trailing text are skipped; no digits, or a number beyond 64 bits, is an error; a minus sign negates modulo 2^64 |
| ChunkedCoding.SizeTextOf | srcs/requirements/bonus/webserv/tools/src/server/server.cpp:1148-1154 | every size line has such parts, so that the reading of every line is known |
| ChunkedCoding.DecodeExtend | srcs/requirements/bonus/webserv/tools/src/server/server.cpp:1132-1180 | decoding a buffer and later its leftover with new bytes is decoding both at once |
| ChunkedCoding.FeedAllIsDecode | srcs/requirements/bonus/webserv/tools/src/server/server.cpp:1132-1180 | pieces fed until COMPLETE or ERROR reach the state and leftover of one decoding of their concatenation, and, if no size line makes the code overrun its chunk, its output; in ERROR a prefix of it |
| ChunkedCoding.RestIsStuck | srcs/requirements/bonus/webserv/tools/src/server/server.cpp:1132-1180 | an incomplete decoding leaves a buffer from which nothing more can be decoded |
| ChunkedCoding.CutIndependence | srcs/requirements/bonus/webserv/tools/src/server/server.cpp:1132-1180 | for every cutting of every stream: same final state and leftover as one call, and the same output if the first step already fails or decoding neither fails nor overruns a chunk; in ERROR one call hands out nothing and several, without an overrun, a prefix of what has been decoded |
| ChunkedCoding.CutIndependenceExactly | srcs/requirements/bonus/webserv/tools/src/server/server.cpp:1132-1180 | all cuttings of a stream give the state, leftover and output of one call, if and only if the very first step fails, or decoding neither fails nor overruns a chunk |
| ChunkedCoding.ErrorBehindChunk | srcs/requirements/bonus/webserv/tools/src/server/server.cpp:1148-1154 | a concrete family: a chunk, and a line that is no size; read one by one the chunk is handed out before the error, read at once nothing is |
| ChunkedCoding.OverrunHappens | srcs/requirements/bonus/webserv/tools/src/server/server.cpp:1148-1170 | a concrete family: the size -2, and any bytes without a line break |
| ChunkedCoding.DecodeChunk | srcs/requirements/bonus/webserv/tools/src/cgi/cgiManager.cpp:833-840 | the chunk that forwardBody writes for a non-empty block decodes to that block, whatever follows |
| ChunkedCoding.DecodeTerminator | srcs/requirements/bonus/webserv/tools/src/cgi/cgiManager.cpp:851-856 | the terminator of finalizeChunk completes a body and leaves what follows |
| ChunkedCoding.DecodeEmptyChunk | srcs/requirements/bonus/webserv/tools/src/cgi/cgiManager.cpp:833-840 | an empty block would be written as a terminator and end the body early |
| ChunkedCoding.DecodeSized | srcs/requirements/bonus/webserv/tools/src/server/server.cpp:1158-1176 | a size line and what is behind it: fewer bytes than the size and a line break wait, a chunk that is not followed by a line break is an error, and any other gives exactly its data, the rest being decoded after it |
| ChunkedCoding.DecodeLast | srcs/requirements/bonus/webserv/tools/src/server/server.cpp:1158-1165 | the size 0 ends the body and takes the next two bytes with it, whatever they are |
| ChunkedCoding.DecodeLine | srcs/requirements/bonus/webserv/tools/src/server/server.cpp:1140-1156 | a line that is no size is an error, and nothing is decoded before its line break has come |
| ChunkedCoding.RoundTrip | srcs/requirements/bonus/webserv/tools/src/cgi/cgiManager.cpp:828-859 | any blocks that fit a string, encoded and terminated, then re-cut anyhow, decode to their concatenation with an empty buffer if and only if no block is empty |
| Upload.ProcessChunkedBody | srcs/requirements/bonus/webserv/tools/src/server/server.cpp:1132-1180 | the loop over chunk_buf computes the decoding, with its 64-bit sums, and answers 400 on an error, when it also drops what it had decoded |
| Upload.WriteBody | srcs/requirements/bonus/webserv/tools/src/server/server.cpp:245-268 | write_body on the connection's fields is the specification's step: remaining size, 413 and 500 cases, file contents |
| Multipart.WriteMeans | srcs/requirements/bonus/webserv/tools/src/server/server.cpp:245-268 | a write succeeds exactly if the total stays within the limit and the file can be written, and then appends just those bytes; otherwise the file is gone and the answer is 413 beyond the limit and 500 else |
| Multipart.LimitKept | srcs/requirements/bonus/webserv/tools/src/server/server.cpp:245-268 | however a plain upload is cut, no more than the limit is ever counted or lies in the file |
| Upload.ParseMultipart | srcs/requirements/bonus/webserv/tools/src/server/server.cpp:949-1013 | the splitter loop over multipart.buffer is the specification's step |
| Upload.SplitBody | srcs/requirements/bonus/webserv/tools/src/server/server.cpp:978-1011 | one round in the body: content before the boundary, guard bytes kept, end or next part |
| Upload.OpenUploadFile | srcs/requirements/bonus/webserv/tools/src/server/server.cpp:1015-1026 | opening the file of the next part, and the 500 answer when that fails |
| Upload.ProcessBody | srcs/requirements/bonus/webserv/tools/src/server/server.cpp:270-309 | the choice between chunked, multipart and fixed-length bodies, and the min that limits a write |
| Multipart.OnePartUpload | srcs/requirements/bonus/webserv/tools/src/server/server.cpp:949-1013 | for every one-part body (section 5.1.1 of RFC 2046) and every cutting: MP_END is reached if and only if no cut falls between the end of the boundary and the end of its closing dashes, and then the file is exactly the content, closed, without an error |
| Multipart.OnlyContentWritten | srcs/requirements/bonus/webserv/tools/src/server/server.cpp:245-309 | at every moment of such an upload the file holds a prefix of the content: no delimiter byte is ever written |
| Multipart.ComposedIsOnePart | srcs/requirements/bonus/webserv/tools/src/server/server.cpp:949-1013 | a body built from a boundary, header lines without a blank line and a content without the boundary (section 5.1.1 of RFC 2046) is a one-part body with just that content |
| Multipart.ComposedUpload | srcs/requirements/bonus/webserv/tools/src/server/server.cpp:949-1013 | so that its upload leaves exactly that content in the file, if and only if no cut falls between the end of the boundary and the end of its closing dashes |
| Multipart.ClearStep | srcs/requirements/bonus/webserv/tools/src/server/server.cpp:295-303 | one clear read keeps the upload on course, and the min of line 295 does not cut it short |
| Multipart.BadCut | srcs/requirements/bonus/webserv/tools/src/server/server.cpp:991-1000 | a read that ends between the boundary and its closing dashes takes the next-part branch |
| Multipart.StaysDerailed | srcs/requirements/bonus/webserv/tools/src/server/server.cpp:949-1013 | after such a read no later bytes lead to MP_END |
| Multipart.PlainUpload | srcs/requirements/bonus/webserv/tools/src/server/server.cpp:245-268 | a fixed-length upload writes exactly the announced number of bytes, in order, under any cutting, and hands on the others |
| UriCoding.ValidateEncodedURI | srcs/requirements/bonus/webserv/tools/src/httpRequest/httpRequest.cpp:152-173 | the loop accepts exactly the absolute, length-limited URIs of allowed characters whose percent signs start complete escapes |
| UriCoding.DecodeURIBytes | srcs/requirements/bonus/webserv/tools/src/httpRequest/httpRequest.cpp:201-222 | the decoding loop stays in bounds on every well-escaped URI and computes its decoding |
| UriCoding.DecodeMeaning | srcs/requirements/bonus/webserv/tools/src/httpRequest/httpRequest.cpp:201-222 | decoding fails exactly on a forbidden byte; otherwise the result holds no control byte, DEL or backslash and is two bytes shorter per percent sign |
| UriCoding.DecodeQueryBytes | srcs/requirements/bonus/webserv/tools/src/httpRequest/httpRequest.cpp:175-198 | the query decoder's loop: a percent sign at the end makes it read the terminating NUL and one byte that does not belong to the string, and the result is the same whatever that byte is |
| UriCoding.PlainQuery | srcs/requirements/bonus/webserv/tools/src/httpRequest/httpRequest.cpp:175-198 | a query without escapes only has its plus signs turned into spaces |
| UriCoding.HexPairIsStrtol | srcs/requirements/bonus/webserv/tools/src/httpRequest/httpRequest.cpp:184-185 | the two characters of an escape are read as std::strtol(…, 16) reads them: blanks, sign, digits, and a byte of what comes out |
| UriCoding.EncodeDecodeQuery | srcs/requirements/bonus/webserv/tools/src/httpRequest/httpRequest.cpp:175-198 | encoding a query without NUL, spaces as plus signs, and decoding it gives the query back |
| UriCoding.EncodeDecode | srcs/requirements/bonus/webserv/tools/src/httpRequest/httpRequest.cpp:201-222 | percent-encoding (section 2.1 of RFC 3986) a path free of forbidden bytes and decoding it gives the path back |
| UriCoding.EncodedPathAccepted | srcs/requirements/bonus/webserv/tools/src/httpRequest/httpRequest.cpp:152-173 | an encoded absolute path passes the validator exactly when it is not too long |
| RequestParser.FeedInTwo | srcs/requirements/bonus/webserv/tools/src/httpRequest/httpRequest.cpp:398-470 | two reads leave the parser where one read of both would, as long as no single read would exceed the size limit |
| RequestParser.FeedPieces | srcs/requirements/bonus/webserv/tools/src/httpRequest/httpRequest.cpp:398-470 | the same for any number of pieces and any reachable parser |
| RequestParser.CutIndependence | srcs/requirements/bonus/webserv/tools/src/httpRequest/httpRequest.cpp:398-470 | every cutting of a stream gives the state, method, URI, query, version, headers, length, chunked flag, error code and (outside BODY) leftover of one call, if and only if the whole does not exceed the size limit |
| RequestParser.CutIndependenceUpToLimit | srcs/requirements/bonus/webserv/tools/src/httpRequest/httpRequest.cpp:398-470 | in particular for every stream of up to 64000 bytes |
| RequestParser.LimitDependsOnCut | srcs/requirements/bonus/webserv/tools/src/httpRequest/httpRequest.cpp:419-425 | beyond the limit there are always two cuttings with different results |
| RequestReads.ReadSizeIndependence | srcs/requirements/bonus/webserv/tools/src/server/server.cpp:312-332 | for reads of up to 4096 bytes: all cuttings of a stream end as its single bytes do if and only if no header block ends within the last 4095 bytes before the limit of a stream that goes beyond it |
| RequestReads.SinglesReach | srcs/requirements/bonus/webserv/tools/src/httpRequest/httpRequest.cpp:398-470 | byte by byte every stream ends as its request line and its block say |
| RequestReads.LargeReadThrows | srcs/requirements/bonus/webserv/tools/src/httpRequest/httpRequest.cpp:419-425 | near the limit there are reads of up to 4096 bytes that make the parser throw |
| RequestReads.LargeRequestDepends | srcs/requirements/bonus/webserv/tools/src/httpRequest/httpRequest.cpp:419-425 | a concrete request that is complete when read byte by byte, and that makes the parser throw under other reads of up to 4096 bytes |
| RequestMeaning.NumberReads | srcs/requirements/bonus/webserv/tools/src/httpRequest/httpRequest.cpp:323-343 | a Content-Length is accepted as a number exactly if it is a decimal numeral, leading zeros allowed, and is read as the number it stands for |
| RequestMeaning.LineMeans | srcs/requirements/bonus/webserv/tools/src/httpRequest/httpRequest.cpp:272-321 | the request line of a method, a percent-encoded path and query, and a version gives exactly those fields, or 501, 414, 400 or 505, each under its own condition |
| RequestMeaning.LinesMean | srcs/requirements/bonus/webserv/tools/src/httpRequest/httpRequest.cpp:345-372 | header lines give the map from lower-cased names to first values without leading blanks, unless one is too long, holds a character that is not allowed, or is a second host or content length |
| RequestMeaning.BlockMeans | srcs/requirements/bonus/webserv/tools/src/httpRequest/httpRequest.cpp:345-396 | a header block gives its headers, the host without its port, its content type, whether it is chunked, and its length, or the code of the first check that fails |
| RequestMeaning.RequestMeans | srcs/requirements/bonus/webserv/tools/src/httpRequest/httpRequest.cpp:398-470 | however the encoding of a request is cut into reads that do not come near the limit, the parser ends with exactly its method, path, query, version, headers and length, or with the code it deserves; without a body what follows stays in the buffer |
| RequestMeaning.BodyMeans | srcs/requirements/bonus/webserv/tools/src/httpRequest/httpRequest.cpp:455-467 | of what comes behind the block in the same read, the announced length is handed out as body and the rest is kept; all of it if the body is chunked |
| RequestMeaning.LeadingLineBreak | srcs/requirements/bonus/webserv/tools/src/httpRequest/httpRequest.cpp:274-281 | a stream that begins with a line break is refused with 400, however it is read |
| RequestParser.HeaderKeeps | srcs/requirements/bonus/webserv/tools/src/httpRequest/httpRequest.cpp:345-396 | parsing a header block changes no field of the request line, nor any other but the headers and what is derived from them, and fails with one of the codes the checks raise |
| RequestParser.LineKeeps | srcs/requirements/bonus/webserv/tools/src/httpRequest/httpRequest.cpp:272-321 | parsing the request line changes neither headers nor lengths, nor any other field but those of the line, and fails with one of its codes |
| RequestParser.ReadsCode | srcs/requirements/bonus/webserv/tools/src/httpRequest/httpRequest.cpp:327-341 | no sequence of reads makes the parser report any code but those: 400, 414, 501 and 505 |
| RequestParser.NeverPayloadTooLarge | srcs/requirements/bonus/webserv/tools/src/httpRequest/httpRequest.cpp:327-341 | in particular from a new connection: a long Content-Length is never reported as 413 |
| HttpRequests.HttpRequest.Clear | srcs/requirements/bonus/webserv/tools/src/httpRequest/httpRequest.cpp:132-146 | clear() resets the request but keeps buffer, content type and the multipart flag |
| HttpRequests.HttpRequest.ParseTarget | srcs/requirements/bonus/webserv/tools/src/httpRequest/httpRequest.cpp:295-316 | query and URI are split and decoded into the fields, or 400 is set and nothing after the failing step is; the new fields are the specification's function of the old ones |
| HttpRequests.HttpRequest.ParseRest | srcs/requirements/bonus/webserv/tools/src/httpRequest/httpRequest.cpp:286-320 | target and version behind the method: 414 for a long target, 400 for a long or malformed line, 505 for an unknown version; the new fields are the specification's function of the old ones |
| HttpRequests.HttpRequest.ParseSL | srcs/requirements/bonus/webserv/tools/src/httpRequest/httpRequest.cpp:272-321 | the whole request line, blank lines before it included: the new fields, error code included, are the specification's function of the old ones |
| HttpRequests.HttpRequest.CheckTransferEnc | srcs/requirements/bonus/webserv/tools/src/httpRequest/httpRequest.cpp:386-396 | a coding that mentions chunked sets the flag, but 501 on HTTP/1.0; any other coding ends in 400; without the header nothing changes |
| HttpRequests.HttpRequest.CheckHost | srcs/requirements/bonus/webserv/tools/src/httpRequest/httpRequest.cpp:249-266 | 400 for a missing host on HTTP/1.1 and for an ill-formed one; a port is cut off the stored host; nothing else changes |
| HttpRequests.HttpRequest.CheckContLen | srcs/requirements/bonus/webserv/tools/src/httpRequest/httpRequest.cpp:323-343 | the length is set from a decimal number; anything else, and a number above the limit, ends in 400 |
| HttpRequests.HttpRequest.ParseLines | srcs/requirements/bonus/webserv/tools/src/httpRequest/httpRequest.cpp:345-372 | the loop inserts the lines in order and stops with 400 at the first bad, repeated or overlong one |
| HttpRequests.HttpRequest.ParseHeader | srcs/requirements/bonus/webserv/tools/src/httpRequest/httpRequest.cpp:345-384 | lines, then the three checks in the source's order: the new fields are the specification's function of the old ones |
| HttpRequests.HttpRequest.RequestLineStep | srcs/requirements/bonus/webserv/tools/src/httpRequest/httpRequest.cpp:403-418 | the REQUEST_LINE branch takes one line off the buffer, or waits for one |
| HttpRequests.HttpRequest.HeadersStep | srcs/requirements/bonus/webserv/tools/src/httpRequest/httpRequest.cpp:419-454 | the HEADERS branch takes the block off the buffer and moves to BODY or COMPLETE, waits, or hits the size limit |
| HttpRequests.HttpRequest.BodyStep | srcs/requirements/bonus/webserv/tools/src/httpRequest/httpRequest.cpp:455-467 | the BODY branch takes at most the announced length, all of the buffer if chunked |
| HttpRequests.HttpRequest.ParseRequest | srcs/requirements/bonus/webserv/tools/src/httpRequest/httpRequest.cpp:398-470 | one call of the incremental parser on the object's fields is one step of the specification, the size-limit exception included |
| PathNormalization.NormalizePath | srcs/requirements/bonus/webserv/tools/src/router/router.cpp:35-80 | the character loop with its vector of parts computes the fold of the segments over a stack |
| PathNormalization.JoinParts | srcs/requirements/bonus/webserv/tools/src/router/router.cpp:68-80 | the parts joined under one leading slash |
| PathNormalization.NormalizeIsCanonical | srcs/requirements/bonus/webserv/tools/src/router/router.cpp:35-80 | the result is absolute and has no empty, dot or dot-dot segment |
| PathNormalization.Idempotent | srcs/requirements/bonus/webserv/tools/src/router/router.cpp:35-80 | normalising twice is normalising once |
| PathNormalization.FixedPoints | srcs/requirements/bonus/webserv/tools/src/router/router.cpp:35-80 | exactly the canonical paths are left as they are |
| PathNormalization.NormalizePrefix | srcs/requirements/bonus/webserv/tools/src/router/router.cpp:35-80 | normalising the front of a path first changes nothing (compare section 5.2.4 of RFC 3986) |
| PathNormalization.DotDotPops | srcs/requirements/bonus/webserv/tools/src/router/router.cpp:46-50 | a proper segment and a ".." behind it may be left out, whatever stands before and behind them |
| PathNormalization.DotDotAtRoot | srcs/requirements/bonus/webserv/tools/src/router/router.cpp:46-50 | ".." at the root may be left out |
| PathNormalization.DotIsDropped | srcs/requirements/bonus/webserv/tools/src/router/router.cpp:51-52 | so may "." |
| PathNormalization.SlashesMerge | srcs/requirements/bonus/webserv/tools/src/router/router.cpp:42-44 | two slashes are one |
| PathNormalization.OuterSlashes | srcs/requirements/bonus/webserv/tools/src/router/router.cpp:68-80 | a slash in front or at the end makes no difference |
| PathNormalization.LawsDetermine | srcs/requirements/bonus/webserv/tools/src/router/router.cpp:35-80 | any function that leaves canonical paths as they are and obeys the five laws above gives the same result for every path |
| Routing.Router.MapURI | srcs/requirements/bonus/webserv/tools/src/router/router.cpp:240-266 | the file a URI is mapped to, under the location's root or, without a location, the server's |
| Routing.Router.MappedUnderRoot | srcs/requirements/bonus/webserv/tools/src/router/router.cpp:240-266 | whatever slashes stand between them, a URI is mapped to the normalised sum of the root, a slash and what is behind the location's path |
| Routing.Router.MappedFile | srcs/requirements/bonus/webserv/tools/src/router/router.cpp:240-266 | proper segments behind the location's path are put behind those of the root, in order |
| Routing.Router.IsCGI | srcs/requirements/bonus/webserv/tools/src/router/router.cpp:15-33 | whether a path ends in one of the location's script extensions; never without a location |
| Routing.Router.FinalizeCgiRoute | srcs/requirements/bonus/webserv/tools/src/router/router.cpp:293-307 | the fields of a CGI route, and nothing else, are set; without a location the interpreter is empty |
| Routing.Router.SearchScript | srcs/requirements/bonus/webserv/tools/src/router/router.cpp:318-346 | the search from the longest prefix down ends, and finds the longest tested prefix that is a regular script file, or none |
| Routing.Router.ResolveCgiPathInfo | srcs/requirements/bonus/webserv/tools/src/router/router.cpp:309-350 | on success script name followed by path info is the normalised URI, path info is empty or starts with a slash, and no longer tested prefix is a script (sections 4.1.5 and 4.1.13 of RFC 3875); on failure no tested prefix is and the route is untouched |
| CaptchaBypasses.SinceCreation | srcs/requirements/bonus/webserv/tools/src/captchaBypass/captchaBypass.cpp:95-126 | the use stamps of a token are those since its latest creation, for its latest owner |
| CaptchaBypasses.CaptchaBypass.CleanupExpired | srcs/requirements/bonus/webserv/tools/src/captchaBypass/captchaBypass.cpp:39-50 | exactly the entries older than the lifetime are erased |
| CaptchaBypasses.CaptchaBypass.Oldest | srcs/requirements/bonus/webserv/tools/src/captchaBypass/captchaBypass.cpp:57-68 | a least recently used entry is found |
| CaptchaBypasses.CaptchaBypass.EvictOldestIfNeeded | srcs/requirements/bonus/webserv/tools/src/captchaBypass/captchaBypass.cpp:52-70 | room for one more entry is made: no more entries go than have to, and every evicted entry is no newer than any kept one |
| CaptchaBypasses.CaptchaBypass.HasValidBypass | srcs/requirements/bonus/webserv/tools/src/captchaBypass/captchaBypass.cpp:95-111 | over every history: the answer is yes if and only if the latest creation of the token was for this fingerprint and no gap between accepted uses exceeded the lifetime, unless the token was evicted; an accepted use renews the stamp |
| CaptchaBypasses.CaptchaBypass.CreateBypass | srcs/requirements/bonus/webserv/tools/src/captchaBypass/captchaBypass.cpp:113-126 | expired entries go, room is made, and the first generated token that is not in use is taken, or the ninth if all are; its size bound is max(1, max_entries), and the store keeps agreeing with the history |
| RequestHistory.WindowOfWindow | srcs/requirements/bonus/webserv/tools/src/botDetection/botDetection.cpp:222-248 | trimming before and after each request is the same as trimming the complete history once |
| RequestHistory.RecentIsSuffix | srcs/requirements/bonus/webserv/tools/src/botDetection/botDetection.cpp:228-236 | on a sorted history the recent samples are a suffix |
| RequestHistory.TrimRequestHistory | srcs/requirements/bonus/webserv/tools/src/botDetection/botDetection.cpp:222-248 | the in-place trim keeps exactly the newest samples within the retention and the count limit |
| RequestHistory.CountRequestsInLastMinute | srcs/requirements/bonus/webserv/tools/src/botDetection/botDetection.cpp:161-171 | the loop counts the places in the history whose time is within the last minute |
| RequestHistory.CollectPrimaryRequestTimes | srcs/requirements/bonus/webserv/tools/src/botDetection/botDetection.cpp:147-159 | the times of the primary requests, in order |
| RequestHistory.AnalyzeAssetFollowup | srcs/requirements/bonus/webserv/tools/src/botDetection/botDetection.cpp:178-220 | on a sorted history the early-exit scan gives the number of mature documents, and of those that no asset follows in time, as a full scan of all later samples finds them |
| RequestHistory.ScanFollowup | srcs/requirements/bonus/webserv/tools/src/botDetection/botDetection.cpp:190-212 | the inner loop decides whether any later sample follows up in time |
| RequestHistory.BotDetection.TrackRequest | srcs/requirements/bonus/webserv/tools/src/botDetection/botDetection.cpp:357-370 | after each request with a non-decreasing clock the stored history is sorted and is the last min(120, k) of the k samples of the past ten minutes |
| CgiOutput.ReadHeaderLines | srcs/requirements/bonus/webserv/tools/src/cgi/cgiManager.cpp:396-415 | the header lines of a block: keys lower-cased, leading blanks dropped, failure on a line without a colon |
| CgiOutput.BlockMeans | srcs/requirements/bonus/webserv/tools/src/cgi/cgiManager.cpp:396-415 | for any lines ended by LF or CRLF, blank ones among them: the block is refused exactly if a line that is not empty has no colon, and is else the map from lower-cased names to values without leading blanks, the last line of a name winning |
| CgiOutput.FinalNewline | srcs/requirements/bonus/webserv/tools/src/cgi/cgiManager.cpp:399-402 | whether the last line is ended makes no difference |
| CgiOutput.LinesOf | srcs/requirements/bonus/webserv/tools/src/cgi/cgiManager.cpp:399-404 | every block whose last line is ended is made of such lines, so that what every block means is known |
| CgiOutput.OutputMeans | srcs/requirements/bonus/webserv/tools/src/cgi/cgiManager.cpp:369-447 | a script that prints header lines, a blank line and a body is relayed as the head built from its fields and the body, under all reads of up to 4096 bytes, or refused if a line has no colon |
| CgiOutput.TakeAllSnoc | srcs/requirements/bonus/webserv/tools/src/cgi/cgiManager.cpp:376-429 | one more read acts on what the reads before it amount to |
| CgiOutput.ReadSizeIndependence | srcs/requirements/bonus/webserv/tools/src/cgi/cgiManager.cpp:369-447 | what the client is sent does not depend on how the output is cut into reads of up to 4096 bytes, if and only if no good header block ends within the last 4095 bytes before the 64000-byte limit of an output that goes beyond it |
| CgiOutput.SinglesDeliver | srcs/requirements/bonus/webserv/tools/src/cgi/cgiManager.cpp:369-447 | reading one byte at a time always gives the ideal result |
| CgiOutput.LargeReadFails | srcs/requirements/bonus/webserv/tools/src/cgi/cgiManager.cpp:384-389 | near the limit there are reads that end in 502 |
| CgiOutput.EarlyBlockDelivered | srcs/requirements/bonus/webserv/tools/src/cgi/cgiManager.cpp:390-425 | a good block that ends by offset 59905: head built from it, then exactly the remaining output, under all reads |
| CgiOutput.LateBlockRefused | srcs/requirements/bonus/webserv/tools/src/cgi/cgiManager.cpp:384-389 | no block within 64000 bytes: every read pattern ends in 502 |
| EventPolling.EventPoller.Add | srcs/requirements/bonus/webserv/tools/src/poller/poller.cpp:80-89 | a descriptor that is not registered yet is registered for what is asked, and no other entry changes |
| EventPolling.EventPoller.Update | srcs/requirements/bonus/webserv/tools/src/poller/poller.cpp:91-110 | the watch on one descriptor is replaced, or added again if it had been lost |
| EventPolling.EventPoller.Remove | srcs/requirements/bonus/webserv/tools/src/poller/poller.cpp:112-121 | one descriptor is not watched any more |
| Connection.ClientCon.constructor | srcs/requirements/bonus/webserv/tools/include/server.hpp:84-102 | a new connection has nothing queued, nothing streamed and no script |
| Connection.ClientCon.FallbackError | srcs/requirements/bonus/webserv/tools/src/server/server.cpp:548-600 | an error response, built for the connection's keep-alive flag, replaces what was queued, and the connection is watched for writing; without a server block it is not kept |
| CgiProcesses.CgiProcess.constructor | srcs/requirements/bonus/webserv/tools/src/cgi/cgiManager.cpp:130-149 | a new script: nothing read, nothing written, its body at hand |
| CgiProcesses.CgiProcess.ExpiredMeans | srcs/requirements/bonus/webserv/tools/src/cgi/cgiManager.cpp:166-176 | as long as the clock does not run backwards, a script is expired exactly if more milliseconds have passed than its idle limit since it was last active, or than its absolute limit since its launch; a limit of 0 is none |
| CgiProcesses.CgiProcess.ClockRunsBack | srcs/requirements/bonus/webserv/tools/src/cgi/cgiManager.cpp:172-176 | a clock that runs backwards expires a script that has an absolute limit |
| CgiTables.Apart | srcs/requirements/bonus/webserv/tools/src/cgi/cgiManager.cpp:327-351 | two owned scripts share no descriptor and no client, and no pid as long as both are running and neither has lost its entry |
| CgiTables.WatchClientKeeps | srcs/requirements/bonus/webserv/tools/src/cgi/cgiManager.cpp:823-825 | watching a client otherwise keeps the agreement of tables, descriptors and poller, what connections without a script wait for included |
| CgiTables.PendingKeeps | srcs/requirements/bonus/webserv/tools/src/server/server.cpp:659-671 | sending bytes keeps it without a word to the poller |
| CgiTables.SetPausedKeeps | srcs/requirements/bonus/webserv/tools/src/cgi/cgiManager.cpp:566-581 | pausing and resuming a script keeps it |
| CgiTables.CloseStdinKeeps | srcs/requirements/bonus/webserv/tools/src/cgi/cgiManager.cpp:457-494 | closing a script's stdin keeps it |
| CgiTables.CloseStderrKeeps | srcs/requirements/bonus/webserv/tools/src/cgi/cgiManager.cpp:517-524 | closing a script's stderr keeps it |
| CgiTables.ReapKeeps | srcs/requirements/bonus/webserv/tools/src/cgi/cgiManager.cpp:533-540 | reaping a child that is filed under its pid keeps it |
| CgiTables.DropKeeps | srcs/requirements/bonus/webserv/tools/src/cgi/cgiManager.cpp:625-694 | dropping a script from all five tables, its pid's entry included whoever has it now, keeps the agreement, apart from its client, which is still to be answered and watched, and from the running scripts with the same pid, which are noted as lost |
| CgiTables.DropKeepsPids | srcs/requirements/bonus/webserv/tools/src/cgi/cgiManager.cpp:668-672 | a drop leaves every other running script filed under its pid if and only if none of them has the dropped script's pid; one whose child has not been reaped never does harm |
| CgiTables.FiledUnlessLost | srcs/requirements/bonus/webserv/tools/src/cgi/cgiManager.cpp:348-351 | every running script is filed under its pid, unless it is noted that just this one has lost its entry |
| CgiTables.PidReuse | srcs/requirements/bonus/webserv/tools/src/cgi/cgiManager.cpp:668-672 | registered, reaped, and its pid given to a new script: all tables agree, and the drop of the first takes the second one's entry |
| CgiTables.RegisterKeeps | srcs/requirements/bonus/webserv/tools/src/cgi/cgiManager.cpp:327-351 | filing a script keeps it, given pipe ends that are not open and a pid that no running script is filed under |
| CgiTables.OutsideKeeps | srcs/requirements/bonus/webserv/tools/src/cgi/cgiManager.cpp:742-753 | watching an open connection that no script serves for reading or writing keeps it, once it is noted what that connection waits for |
| CgiTables.SocketAdded | srcs/requirements/bonus/webserv/tools/src/server/server.cpp:166-171 | accepting a connection keeps it; so does taking a connection back that a script has ceased to serve, watched for what it then waits for |
| CgiTables.SocketLost | srcs/requirements/bonus/webserv/tools/src/server/server.cpp:229-235 | giving up a connection that no script serves keeps it |
| CgiTables.Deregistered | srcs/requirements/bonus/webserv/tools/src/server/server.cpp:229-235 | and so does closing it, which takes it out of the poller |
| CgiManagement.CgiManager.Agreement | srcs/requirements/bonus/webserv/tools/src/cgi/cgiManager.cpp:327-351 | in every valid state an owned script's open pipe ends are in their tables and registered, closed ones in none, its stdout is open, its client is filed; its pid is filed if it runs and has not lost its entry, and never if it has been reaped |
| CgiManagement.CgiManager.PipesAreOwned | srcs/requirements/bonus/webserv/tools/src/cgi/cgiManager.cpp:330-346 | in every valid state the open pipe ends are exactly those of owned scripts, and what is registered in the poller is exactly the open pipe ends and the open connections, which are apart: nothing that is closed stays registered |
| CgiManagement.CgiManager.PausedHasWriter | srcs/requirements/bonus/webserv/tools/src/cgi/cgiManager.cpp:861-877 | in every valid state a script is paused exactly when its stdout is not watched, and its client then has more than 131072 unsent bytes, is ready and watched for writing |
| CgiManagement.CgiManager.LiveOutput | srcs/requirements/bonus/webserv/tools/src/cgi/cgiManager.cpp:369-447 | in every valid state what a live script's client has been sent and is still to be sent is, byte for byte, what the reads amount to; one head once the block is complete; the script has been given a prefix of its body |
| CgiManagement.CgiManager.NormalOutput | srcs/requirements/bonus/webserv/tools/src/cgi/cgiManager.cpp:430-442 | a script that ended normally was relayed in full: the ideal result of its whole output, unless its block came near the limit |
| CgiManagement.CgiManager.EndedAnswer | srcs/requirements/bonus/webserv/tools/src/cgi/cgiManager.cpp:625-755 | a script that has left the tables: at most one head, exactly one unless the client or the server had gone; 504 for a timeout, 502 for exec failure and bad headers; every pipe end closed once; in no table |
| CgiManagement.CgiManager.EmitResponse | srcs/requirements/bonus/webserv/tools/src/cgi/cgiManager.cpp:757-826 | the head, built from the headers and the connection's keep-alive flag, is queued; chunked mode is off, and without a length the connection is to be closed |
| CgiManagement.CgiManager.ForwardBody | srcs/requirements/bonus/webserv/tools/src/cgi/cgiManager.cpp:828-849 | body bytes are queued, as one chunk in chunked mode, only between head and end |
| CgiManagement.CgiManager.FinalizeChunk | srcs/requirements/bonus/webserv/tools/src/cgi/cgiManager.cpp:851-859 | between head and end the terminator is queued once, and the client is ready and watched for writing; otherwise nothing changes |
| CgiManagement.CgiManager.Retire | srcs/requirements/bonus/webserv/tools/src/cgi/cgiManager.cpp:625-703 | all five entries are erased, and every open pipe end is unregistered and closed, once: none of the old descriptors is left in the poller |
| CgiManagement.CgiManager.AnswerOnEnd | srcs/requirements/bonus/webserv/tools/src/cgi/cgiManager.cpp:705-755 | the client is left with exactly one head: its own, or an error page with the right status; whether it is kept, and that it is watched for writing exactly if there is something to send |
| CgiManagement.CgiManager.CleanupProcess | srcs/requirements/bonus/webserv/tools/src/cgi/cgiManager.cpp:625-755 | from a state that is valid but for one script: the script ends for the given reason, closed and answered, its old descriptors unregistered, its client watched for writing exactly if there is something to send and for reading if not, and the whole state is valid again |
| CgiManagement.CgiManager.CollectHeader | srcs/requirements/bonus/webserv/tools/src/cgi/cgiManager.cpp:382-426 | one read of the header block does what the specification of a read says, to the script and to its client |
| CgiManagement.CgiManager.ForwardRead | srcs/requirements/bonus/webserv/tools/src/cgi/cgiManager.cpp:427-428 | one read of the body is queued behind what is unsent |
| CgiManagement.CgiManager.TakeRead | srcs/requirements/bonus/webserv/tools/src/cgi/cgiManager.cpp:378-429 | one read keeps everything valid, or ends the script with 502 |
| CgiManagement.CgiManager.StdoutEof | srcs/requirements/bonus/webserv/tools/src/cgi/cgiManager.cpp:430-442 | end of output: a normal end with everything queued, or 502 if the block was incomplete |
| CgiManagement.CgiManager.EnforceBackpressure | srcs/requirements/bonus/webserv/tools/src/cgi/cgiManager.cpp:861-877 | a script is paused exactly when its client has more than 131072 unsent bytes |
| CgiManagement.CgiManager.HandleStdout | srcs/requirements/bonus/webserv/tools/src/cgi/cgiManager.cpp:367-447 | a readable event: all reads are taken in order and are the script's last activity, and it is paused beyond the threshold; or they end it with 502, and then what has been read amounts to a refusal; at the end of output it ends normally, with everything sent or queued; its input and stderr are untouched |
| CgiManagement.CgiManager.WriteStdin | srcs/requirements/bonus/webserv/tools/src/cgi/cgiManager.cpp:457-494 | one write advances the offset by what was taken; the pipe is closed when the buffer is drained or the write fails, even if more of the body is due |
| CgiManagement.CgiManager.HandleStdin | srcs/requirements/bonus/webserv/tools/src/cgi/cgiManager.cpp:451-496 | a writable event on stdin: what was taken, the activity, and whether it is closed; output and stderr are untouched |
| CgiManagement.CgiManager.FeedStdin | srcs/requirements/bonus/webserv/tools/src/cgi/cgiManager.cpp:879-897 | fed blocks are appended in order while stdin is open, which counts as activity, and are counted but dropped afterwards; nothing else about the script changes |
| CgiManagement.CgiManager.FinishStdin | srcs/requirements/bonus/webserv/tools/src/cgi/cgiManager.cpp:899-916 | a stdin is closed at once exactly if it is drained; nothing else about the script changes |
| CgiManagement.CgiManager.LogLines | srcs/requirements/bonus/webserv/tools/src/cgi/cgiManager.cpp:508-515 | complete lines are logged without loss or change; the rest of the last line is kept |
| CgiManagement.CgiManager.HandleStderr | srcs/requirements/bonus/webserv/tools/src/cgi/cgiManager.cpp:498-530 | a readable event on stderr: logged lines and kept bytes together are what was read; closed at its end; input, output and activity are untouched |
| CgiManagement.CgiManager.HandleEvent | srcs/requirements/bonus/webserv/tools/src/cgi/cgiManager.cpp:367-531 | the dispatch: stdout before stdin before stderr, each with its own effect on bytes, tables and connection, the logged lines included; only the script behind the descriptor and its client are touched, unknown descriptors change nothing |
| CgiManagement.CgiManager.HandleChildExit | srcs/requirements/bonus/webserv/tools/src/cgi/cgiManager.cpp:533-556 | the pid is forgotten; the script ends here exactly if it exited with a failure before its block was complete, and else nothing about it or its client changes; the branches for a closed stdout are never taken |
| CgiManagement.CgiManager.HandleClientClose | srcs/requirements/bonus/webserv/tools/src/cgi/cgiManager.cpp:558-564 | the script of a lost client ends, and the client and the script's pid are forgotten |
| CgiManagement.CgiManager.NotifyClientWritable | srcs/requirements/bonus/webserv/tools/src/cgi/cgiManager.cpp:566-581 | after a send the script of the client is unpaused and its stdout watched again |
| CgiManagement.CgiManager.CheckTimeouts | srcs/requirements/bonus/webserv/tools/src/cgi/cgiManager.cpp:583-594 | exactly the expired scripts end, with a timeout; every other one is untouched |
| CgiManagement.CgiManager.ExpiredInMs | srcs/requirements/bonus/webserv/tools/src/cgi/cgiManager.cpp:583-594 | in every valid state those are the scripts for which more milliseconds have passed than their limits allow |
| CgiManagement.CgiManager.Shutdown | srcs/requirements/bonus/webserv/tools/src/cgi/cgiManager.cpp:596-604 | every script ends, all tables are empty, no pipe end is open |
| CgiManagement.CgiManager.EnterPipes | srcs/requirements/bonus/webserv/tools/src/cgi/cgiManager.cpp:327-343 | the parent's pipe ends are registered; a stdin for which no byte is due is closed at once |
| CgiManagement.CgiManager.Launch | srcs/requirements/bonus/webserv/tools/src/cgi/cgiManager.cpp:186-354 | a script is filed under the numbers it is given, with its body, its two limits and the time of its launch, live and unread, its stdin closed exactly if no byte is due; or nothing changes |
| ResponseWriting.SendQueued | srcs/requirements/bonus/webserv/tools/src/server/server.cpp:651-671 | a partial send moves bytes from the front of what is pending to the wire |
| ResponseWriting.StartStaticFileStream | srcs/requirements/bonus/webserv/tools/src/server/server.cpp:753-828 | after the start exactly the head and the whole file, or one error response, are pending |
| ResponseWriting.FillBuffer | srcs/requirements/bonus/webserv/tools/src/server/server.cpp:835-863 | a short read moves file bytes into the buffer and changes nothing that is pending |
| ResponseWriting.SendBuffered | srcs/requirements/bonus/webserv/tools/src/server/server.cpp:865-880 | a partial send of the buffer moves bytes from the front of what is pending to the wire |
| ResponseWriting.WriteStaticFileChunk | srcs/requirements/bonus/webserv/tools/src/server/server.cpp:830-885 | one step conserves sent plus pending bytes; each successful send puts that many more on the wire; it ends only when nothing is pending, and fails only on an error or a file that is too short |
| ResponseWriting.StreamAccounts | srcs/requirements/bonus/webserv/tools/src/server/server.cpp:830-885 | while a file is streamed, after any number of steps: delivered, buffered and remaining bytes add up to its size, and each is the right part of the file |
| Servers.Server.Watched | srcs/requirements/bonus/webserv/tools/src/server/server.cpp:699-723 | in every reachable state a connection that no script serves is watched for writing exactly if there is something to do for it, and for reading otherwise; one that a script serves is watched for writing as long as bytes are queued |
| Servers.Server.PendingIsWatched | srcs/requirements/bonus/webserv/tools/src/server/server.cpp:638-697 | in every reachable state the poller waits to write to a connection as long as bytes are pending for it, in its queue or in the file that is streamed: no response stalls |
| Servers.Server.Registered | srcs/requirements/bonus/webserv/tools/src/server/server.cpp:166-171 | in every reachable state of the server exactly the open pipe ends of its scripts and its connections are registered in the poller, and no number is both |
| Servers.Server.SendAndDrain | srcs/requirements/bonus/webserv/tools/src/server/server.cpp:657-663 | a successful send keeps the state valid and resumes the script behind the connection |
| Servers.Server.FinalizeResponseWrite | srcs/requirements/bonus/webserv/tools/src/server/server.cpp:699-723 | nothing pending: the connection waits for its script (unwatched), is closed, or waits for the next request |
| Servers.Server.CloseClient | srcs/requirements/bonus/webserv/tools/src/server/server.cpp:217-239 | a connection is closed with its registration, its stream, the file of an upload that is not complete, and its script, and everything else stays valid |
| Servers.Server.ClientWrite | srcs/requirements/bonus/webserv/tools/src/server/server.cpp:638-697 | sent plus pending bytes are conserved while the connection is kept, and a positive send puts that many more on the wire and resumes the script behind it; as long as something is pending the write watch stays; it is closed without an error only when everything is sent and it is the last response, and kept for the next request otherwise |
| Servers.Server.Deliver | srcs/requirements/bonus/webserv/tools/src/server/server.cpp:638-697 | the same over any run of partial sends and short reads, each of which happens only if the poller watches for it: always a prefix, all of it on a normal end, and all of it after as many willing steps as bytes |
| Servers.Server.DispatchCgiEvent | srcs/requirements/bonus/webserv/tools/src/server/server.cpp:1303-1311 | a script's event has the manager's effect and keeps the connections valid with it |
| Servers.Server.OnChildExit | srcs/requirements/bonus/webserv/tools/src/server/server.cpp:1292-1301 | so does a reaped child |
| Servers.Server.CheckScriptTimeouts | srcs/requirements/bonus/webserv/tools/src/server/server.cpp:193-215 | so do the script timeouts, which touch none but the expired scripts and their clients |
| Servers.Server.NewConnection | srcs/requirements/bonus/webserv/tools/src/server/server.cpp:151-180 | an accepted connection is new, registered, watched and known |
| Servers.Server.ServeFile | srcs/requirements/bonus/webserv/tools/src/server/server.cpp:469-475 | a request for a file replaces what was queued, and the connection is watched for writing until all is sent |
| Servers.Server.FallbackError | srcs/requirements/bonus/webserv/tools/src/server/server.cpp:548-600 | an error response replaces what was queued, and the connection is watched for writing until all is sent; without a server block the connection is not kept |
| Servers.Server.DecodeRead | srcs/requirements/bonus/webserv/tools/src/server/server.cpp:333-342 | one read of a chunked body on its way to a script is decoded; after an error the script can only be given up |
| Servers.Server.FeedFixed | srcs/requirements/bonus/webserv/tools/src/server/server.cpp:353-364 | what is fed and what is taken off the remaining length are the same bytes, never more than is due |
| Servers.Server.ReadFixedBody | srcs/requirements/bonus/webserv/tools/src/server/server.cpp:353-364 | the same, and once nothing is due a drained stdin is closed; fed plus remaining stays the announced length; nothing else about the script or about what the client is sent changes |
| Servers.Server.FeedDecoded | srcs/requirements/bonus/webserv/tools/src/server/server.cpp:343-350 | decoded bytes are fed in order; streaming ends with the body |
| Servers.Server.ReadChunkedBody | srcs/requirements/bonus/webserv/tools/src/server/server.cpp:333-351 | what the bytes decode to is passed on and the rest is kept, and at the end of the body a drained stdin is closed, nothing else about the script changing; an error in the coding closes the connection and ends the script |
| Servers.Server.SetUpStreaming | srcs/requirements/bonus/webserv/tools/src/server/server.cpp:1108-1127 | while a body is streamed, fed plus remaining bytes equal the announced length, if and only if the body is due, or no fixed-length streaming flag was left over from an earlier script, or the leftover count happens to fit |
| ConnectionReuse.StaleRun | srcs/requirements/bonus/webserv/tools/src/server/server.cpp:1108-1127 | a run from the start of the server after which they do not: accept, a request for a script with five bytes due, a complete response, its delivery, a complete second request |
| ConnectionReuse.TakeNext | srcs/requirements/bonus/webserv/tools/src/server/server.cpp:352-364 | the next five bytes on that connection, whatever they are, are taken for the body of the second request, which has none |
| ConnectionReuse.OutputIsComplete | srcs/requirements/bonus/webserv/tools/src/cgi/cgiManager.cpp:384-425 | that the first script's output is a whole response of known length |
| ConnectionReuse.PidRun | srcs/requirements/bonus/webserv/tools/src/cgi/cgiManager.cpp:668-672 | a run from the start of the server after which a running script is filed under no pid: a child is reaped, its pid is given to a second script, the first one's client is lost |
| Servers.Server.InitialBody | srcs/requirements/bonus/webserv/tools/src/server/server.cpp:1088-1101 | the bytes at hand at launch: decoded if chunked, refused if they cannot be |
| Servers.Server.HandleCgiRequest | srcs/requirements/bonus/webserv/tools/src/server/server.cpp:1085-1130 | a launched script is filed, has been fed exactly the bytes at hand, has the limits of the request and the time of its launch, and the connection is set up for the rest of the body; otherwise the client gets 400 or 502 and is watched for writing; the connection is kept as the request asks; no other script is touched |
| Servers.Server.Handle | srcs/requirements/bonus/webserv/tools/src/server/server.cpp:116-148 | any event in any state keeps the whole state valid, and does what that event is for: which connections and scripts change, how, and what is logged; every connection and script it is not for stays exactly as it was |
| Servers.Server.Run | srcs/requirements/bonus/webserv/tools/src/server/server.cpp:116-148 | any sequence of events in any order, reused connections among them, keeps the whole state valid; scripts that have ended are never touched again |
| Servers.Server.RunPast | srcs/requirements/bonus/webserv/tools/src/server/server.cpp:638-697 | any events in any order while a response that no script adds to is on its way, up to the next request on its descriptor: the peer has been sent a prefix of that response; while the connection is open all the rest is pending, the poller waits to write as long as something is, and each event that offers to take a byte has put one on the wire |
| Servers.Server.ServeThrough | srcs/requirements/bonus/webserv/tools/src/server/server.cpp:469-475 | the same from a request for a file on: through any other events the peer is sent a prefix of head and file, or of the error response, and while the connection is open the rest is pending and waited for; as many events that offer to take a byte as the response has bytes are enough for all of it |
| Servers.Server.RunUntil | srcs/requirements/bonus/webserv/tools/src/cgi/cgiManager.cpp:583-594 | any events that leave a script alone, and then a look at the clock: it ends with a timeout if more milliseconds have passed than allowed since its launch or its last activity, and is untouched if not |
| Servers.Server.LaunchUntil | srcs/requirements/bonus/webserv/tools/src/cgi/cgiManager.cpp:144-148 | the same from its launch on, with the two limits of the request in milliseconds: the idle and the absolute limit are told apart, and 0 is none |
| Servers.Server.Stop | srcs/requirements/bonus/webserv/tools/src/server/server.cpp:61-64 | at the end every script ever launched has ended properly and no pipe end is open |
| Servers.Serve | srcs/requirements/bonus/webserv/tools/src/server/server.cpp:48-148 | a whole run, from start over any events to stop: every script launched on the way was answered and closed exactly as required |

## Left out

- Upload.ProcessChunkedBody: excludes size lines for which the code would read in front of its buffer, which C++ does not define, and buffers longer than a string can be.
- Upload.ProcessBody: the same for a chunked upload.
- ChunkedCoding.CutIndependenceExactly: where a size line makes the code read in front of its buffer, which C++ does not define, it speaks of the model, which takes such a line for a bad one.
- ChunkedCoding.CutIndependence: the same.
- ChunkedCoding.FeedAllIsDecode: the same.
- ChunkedCoding.RoundTrip: blocks longer than a string can be are excluded.
- RequestMeaning.RequestMeans: the lines of the encoding have a colon, the first line no stray space or CR, and the reads do not come near the size limit, where RequestReads.ReadSizeIndependence says what happens; header lines without a colon are covered by RequestParser.ReadsCode only.
- RequestMeaning.BodyMeans: of one read; what later reads hand out as body depends on the server taking it in between.
- CgiOutput.OutputMeans: the lines are ended by CRLF, hold no other CR, and end by offset 59905; CgiOutput.EarlyBlockDelivered and CgiOutput.BlockMeans say the same of any block.
- Servers.Server.LaunchUntil: of a body that is not chunked.
- Servers.Server.DecodeRead: the same as Upload.ProcessChunkedBody, for a body on its way to a script; Servers.Server.Run skips such reads.
- Servers.Server.ReadChunkedBody: the same.
- Servers.Server.InitialBody: the same.
- Servers.Server.HandleCgiRequest: the same; a request on a connection that is not free, or with numbers that are in use, is skipped by Servers.Server.Run.
- Uploads are not events of Servers.Server.Run: Upload.ProcessBody is proved by itself, and an upload is never active in a run.
- Requests that a client sends ahead while a script is running for it or while a response is pending: the server would overwrite the queue.
- The child side of fork and the environment it builds; kill, waitpid and the signal pipe, of which only the exit report remains, so that a signal to a pid that is used again is not seen.
- The listening sockets, which are registered as long as the server runs.
- Poller back ends, poller exceptions and the failure of a single pipe or fcntl call, which appear as one flag at launch; that the pipe ends already opened are never closed when a later pipe call fails is not seen.
- Response heads, dates, status texts, MIME types, error pages and captcha pages: arbitrary functions of what they depend on.
- The file system: `stat`, the contents of files and the outcome of open are parameters; a file does not change while it is streamed; write errors of an upload are a flag.
- Domain names, IP addresses and ports in the Host header: one parameter decides whether a host is well formed.
- Multipart bodies of more than one part, and chunked uploads across the request pipeline, where bytes also reach the request parser.
- The floating-point timing scores of bot detection, and the classification of a request by its URI, which is a parameter.
- Configuration parsing, location matching, directory listings, static routes other than CGI, and the token generator, whose output is a parameter.
- The idle time of a connection: any connection may be found idle at any time.
- Error texts and the bookkeeping fields that no behaviour depends on.
