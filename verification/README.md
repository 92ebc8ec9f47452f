# truenas_ros: a model of the HTTP/1.1 codec, the INI codec and their neighbours

The project models the parts of `truenas_ros` that decide what bytes mean, and proves what those parts promise
over all inputs and over every run.

**The chunked coding** (section 7.1 of RFC 9112). The library reads a chunked body four ways: a resumable
scanner, a chunk-by-chunk walker for streamed bodies, a copying decoder, and an in-place compactor.
`Chunked.dfy` states the scanner's loop as one function of the unread bytes and the scanner's memory;
`ChunkedGrammar.dfy` defines what a chunked message is without mentioning the scanner; `ChunkedReaders.dfy`
and `ChunkWalk.dfy` hold the readers and prove that they agree with each other and with the grammar, byte for
byte.

**The connection.** The framer and the protocol glue share one phase machine. `HttpCodec.dfy` gives both as
functions on values, `HttpConnection.dfy` gives the mutable connection object with its methods and proves each
method against those functions, and `Connection.dfy` puts the pump around them: bytes arrive in any pieces,
the pump frames and delivers, handlers choose freely among answering, reading on and parking, workers answer,
resume, redrive or abandon, and the server may start draining at any point. `ConnectionInvariant.dfy`,
`ConnectionSteps.dfy`, `ConnectionStreams.dfy` and `ConnectionSafety.dfy` prove one invariant over every
sequence of these actions; `ConnectionTheorems.dfy`, `ConnectionFallbacks.dfy`, `ConnectionBounds.dfy` and
`ScanSegmentation.dfy` draw the consequences. `ConnectionAnswers.dfy` says who decides each response and when
a connection is kept, and `ConnectionRefusals.dfy` which heads are refused with which status and when a client
is told to go on. `ConnectionProgress.dfy` and `ConnectionArrivals.dfy` show that a request cut into any
pieces is read to its end, and `ConnectionService.dfy` that a stream of requests is served one behind the
other, through parks, resumptions and redrives. `ConnectionLink.dfy` drives the connection object itself,
action by action, so that all of this holds of the object.

**The neighbours.** `HttpHead.dfy` has the body-framing and connection rules of the head, `HttpDate.dfy` the
calendar and the date cache, `HttpResponse.dfy` the response writer, `HttpClient.dfy` what a client reads in a
response, `AuditRecord.dfy` the audit record, `FsCallbacks.dfy` and `FsReactor.dfy` the callback reactor with
its crash-safe `put`. The `Ini*.dfy` files hold the INI reader, writer, ordered map, merging and
interpolation; `IniConfig.dfy` has the configuration object on its nested ordered maps. `IniGrammar.dfy`,
`IniWritten.dfy` and `IniTemplates.dfy` say what a document, a written configuration and a value with
references are, independently of the code that reads and writes them, and `IniLaws.dfy` what each operation
changes.

## What the code does that its documentation does not say

- **The refusing status can depend on how the bytes were cut.** A test in `src/http/framer.rs:1580` is named
  for the opposite. Acceptance, refusal and the extent never depend on the cuts, but the framer checks its
  caps only where a scan stops, so a body that passes the wire cap while its decoded size is still in bounds
  is refused with 400 at one cut and with 413 at a later one. `ScanSegmentation.CutsDoNotDecide` gives the
  exact condition for two runs over the same bytes, and `ScanSegmentation.StatusIsStableIff` shows that no
  body is affected if and only if the configured body limit is at most 62 bytes.
- **The walker refuses one byte earlier than the scanner.** Behind a payload, a single byte that is not CR is
  refused at once by the walker and only with the next byte by the scanner. `ChunkWalk.VerdictAgrees` shows
  that this is the only disagreement and that the scanner refuses every continuation.
- **The stream cap's counter saturates**, so some run has a chunk refused for the cap if and only if the cap
  is below the largest machine word (`ConnectionBounds.CapBindsIff`).
- **The interpolation cap is not the output bound.** It is looked at before each push, so a value without
  references is read at any size (`IniInterp.LimitIsNoBound`). A substitution is read if and only if the
  largest size seen by one of the looks is within the cap (`IniInterp.PeakDecides`), and what is read is at
  most the cap plus two raw values (`IniInterp.BeforeGetIsSubstitution`).
- **What `set` screens is not what reading can parse.** `%(a)%%s` is accepted and then unreadable; `%(%%)s` is
  read and refused (`IniInterp.EscapesPartTheTwo`). Over any view, `IniInterp.AdmittedIsReadable` says exactly
  which accepted values are read, and `IniInterp.ReadableIsAdmitted` which values that are read are accepted.
  `IniReachable.SetThenGet` says it of `set` followed by `get` on every configuration the operations can
  produce.
- **A value given to `set` need not survive being written and read**: a leading blank is lost
  (`IniReachable.LeadingSpaceIsLost`). `IniReachable.ValueReadsBackIff` says exactly which values survive.
  Every value that came from a read does, multi-line values included.
- **A `put` can answer success without all of its bytes.** The write is one call, and any count that is not
  negative passes, so a short write followed by three successes is answered as a success, whatever its length
  (`FsCallbacks.ShortWriteSucceeds`). That a success means the whole body was written can be relied on if and
  only if the body is empty (`FsCallbacks.WholeBodyIff`).

## What is taken as given

The tokenizer of request heads is a parameter. `HttpTypes.Sound` lists what the codec relies on: a verdict on
a prefix is kept when more bytes arrive, a parsed head is read from its own bytes alone, its recorded parts
lie inside it, its declared length fits a machine word, and neither a rejection nor a bad body uses the status
kept for codec bugs. What is said of the method `HEAD` also relies on `ConnectionAnswers.WholeHeads`: a head
that tokenizes has a line and ends in a line break. Handlers, workers, drains, arrivals, the clock and the
results of system calls are arbitrary. `BUG` is status 500, which the codec sends only from the arms that mean
"this cannot happen".

## Model

| member | source | states |
|---|---|---|
| Chunked.RunExtends | src/http/chunked.rs:202-290 | a final verdict is kept whatever follows, and an unfinished scan resumed on more bytes gives exactly the verdict, position, memory, payload and trailer lines of one scan over all of them |
| Chunked.SegmentationIndependent | src/http/chunked.rs:294-299 | for every cutting of a body into arrivals, the resumed scans end where a single scan of the whole would |
| Chunked.FeedFrom | src/http/chunked.rs:202-299 | the same from any point: feeding the remaining arrivals completes the one-shot scan |
| Chunked.RunStops | src/http/chunked.rs:202-290 | a scan never waits once it is done, and refuses only with 400 or 431 |
| Chunked.OnlySurfacedLines | src/http/chunked.rs:174-193 | no forbidden trailer field is ever surfaced |
| Chunked.Fields | src/http/chunked.rs:147-157 | a list of trailer lines splits into fields exactly when every line is a trailer field |
| ChunkedGrammar.SizeLineReads | src/http/chunked.rs:110-132 | a line of hex digits, lower and upper case mixed and with leading zeros, then blanks and an extension, reads as the number those digits denote, digit by digit from two literal tables, or fails exactly when it does not fit a machine word |
| ChunkedGrammar.SizeLineShape | src/http/chunked.rs:110-132 | conversely a line that reads has that shape, and denotes the number it reads as |
| ChunkedGrammar.HexDigitIff | src/http/chunked.rs:110-132 | a byte is the digit `d` if and only if it is character `d` of `0123456789abcdef` or of `0123456789ABCDEF` |
| ChunkedGrammar.DenotesIff | src/http/chunked.rs:110-132 | the value accumulated over a run of digits is the number it denotes |
| ChunkedGrammar.TrailerReads | src/http/chunked.rs:147-157 | a token, a colon, and a value between blanks reads as that name and that value, without the blanks |
| ChunkedGrammar.TrailerShape | src/http/chunked.rs:147-157 | conversely every line that reads has that shape |
| ChunkedGrammar.ForbiddenIff | src/http/chunked.rs:174-193 | a name is dropped if and only if it is one of six names, letter case aside |
| ChunkedGrammar.ChunksRefused | src/http/chunked.rs:202-290 | a size line that does not end in time or is not of the grammar is refused with 400, and so is a payload not followed by CRLF |
| ChunkedGrammar.TrailersRefused | src/http/chunked.rs:202-290 | a trailer line or section that is too long is refused with 431, and a line that is not a field with 400 |
| Bytes.TokenByteIff | src/http/head.rs:924-945 | a byte is of a token if and only if it is visible and no delimiter (section 5.6.2 of RFC 9110) |
| Bytes.EqIgnoreCaseIff | src/http/head.rs:839-851 | ignoring case is comparing byte by byte, taking `A` to `Z` for `a` to `z` and nothing else |
| Bytes.AsciiSpaceIff | src/http/head.rs:839-851 | the white space trimmed from an element: blank, tab, line feed, form feed and carriage return |
| Bytes.FieldBreakIff | src/http/head.rs:952-956 | a byte breaks a field value if and only if it is none a value may hold (section 5.5 of RFC 9110) |
| ChunkedGrammar.RenderIsAccepted | src/http/chunked.rs:202-290 | every message of the grammar is scanned to its exact extent, whatever bytes follow, yielding its entity and its permitted trailers in order |
| ChunkedGrammar.ScanAcceptsExactlyTheGrammar | src/http/chunked.rs:202-290 | the scan completes at an extent if and only if the bytes up to it are a message of the grammar |
| ChunkedGrammar.GrammarIsUnambiguous | src/http/chunked.rs:202-290 | two messages that begin the same byte string are the same bytes with the same entity and trailers |
| ChunkedReaders.ReadSizeLine | src/http/chunked.rs:110-132 | the digit loop with its overflow check computes the size line's value, which `SizeLineReads` and `SizeLineShape` say is the number denoted by its digits |
| ChunkedReaders.ChunkScan.TakeOne | src/http/chunked.rs:202-290 | one turn of the mutable scanner is one turn of the specification, and reports the span and line it passed |
| ChunkedReaders.ChunkScan.Loop | src/http/chunked.rs:202-290 | the scanner's loop ends in the specified verdict and memory, with spans that are in order, disjoint and gather to the payload |
| ChunkedReaders.ChunkScan.Advance | src/http/chunked.rs:294-299 | a resumed call continues where the last one stopped, answers Complete again once done, and changes nothing when its position lies past the buffer |
| ChunkedReaders.DecodeIsRun | src/http/chunked.rs:395-439 | decoding succeeds exactly on wires the scan consumes in full, with the scan's payload and trailers |
| ChunkedReaders.DeclaredExtentDecodes | src/http/chunked.rs:395-439 | the decoder never fails on an extent the scan declared complete |
| ChunkedReaders.DecodeRender | src/http/chunked.rs:395-439 | decoding a rendered message gives back its entity and its permitted trailers |
| ChunkedReaders.DecodeWire | src/http/chunked.rs:395-439 | the copying decoder, with its spans and loops, computes the specified decoding on every wire |
| ChunkedReaders.CopyDown | src/http/chunked.rs:478-524 | a move never overtakes its source: the destination receives the old source bytes and nothing outside the two is touched |
| ChunkedReaders.Append | src/http/chunked.rs:478-524 | one more span is packed behind the packed prefix, and the bytes not yet read are intact |
| ChunkedReaders.Squeeze | src/http/chunked.rs:478-524 | packing ascending spans leaves their concatenation behind the first span's start |
| ChunkedReaders.Compact | src/http/chunked.rs:478-524 | in-place compaction succeeds exactly where decoding does, the reported slice of the mutated array is the entity, the trailers are equal, the length is the scan's decoded count, and a refused wire is untouched |
| ChunkWalk.ChunkAgrees | src/http/chunked.rs:335-374 | a chunk the walker finds is the one the scanner is in after the same header bytes, and re-reading that header alone finds it again |
| ChunkWalk.LastAgrees | src/http/chunked.rs:335-374 | the walker's terminal block completes the scan at the same byte, and read on its own it has the same trailers |
| ChunkWalk.VerdictAgrees | src/http/chunked.rs:335-374 | waiting and refusal agree with the scanner, status included, except for one lone byte behind a payload, after which the scanner refuses every continuation |
| ChunkWalk.NextExtends | src/http/chunked.rs:335-374 | a chunk, a terminal block or a refusal, once found, is found again whatever bytes follow |
| ChunkWalk.RunPrefix | src/http/chunked.rs:294-299 | a complete scan depends on its own extent only |
| ChunkWalk.Chain | src/http/chunked.rs:202-290 | a scan that used everything can be resumed on the next bytes alone |
| ChunkWalk.InFlightLine | src/http/chunked.rs:85-95 | what a waiting scan has left unconsumed is at most one line |
| ChunkWalk.TrailerSectionCapped | src/http/chunked.rs:202-290 | the trailer section never exceeds its cap, counted across resumptions |
| ChunkWalk.WalkBounds | src/http/chunked.rs:335-374 | the walker waits only on a bounded buffer, and its terminal block is bounded |
| ScanSegmentation.StepJudges | src/http/framer.rs:853-938 | one framing call on a buffered chunked body, resumed at any recorded position, says what one scan of the whole region with the caps says |
| ScanSegmentation.CapsAre | src/http/framer.rs:853-938 | the two caps: 413 past the body limit, 400 past that limit and 16 KiB of framing |
| ScanSegmentation.DriveJudges | src/http/framer.rs:853-938 | the same over any sequence of arrivals, up to the call that decides |
| ScanSegmentation.JudgementExtends | src/http/framer.rs:853-938 | acceptance is final, refusal is final, and the status changes exactly when the decoded cap is passed only by later bytes, then from 400 to 413 |
| ScanSegmentation.CutsDoNotDecide | src/http/framer.rs:853-938 | any cutting accepts or refuses the same body with the same extent as one arrival, and the statuses differ exactly when the wire cap was met while the decoded size was in bounds |
| ScanSegmentation.SmallLimitsAreStable | src/http/framer.rs:853-938 | with a body limit of at most 62 bytes the status never depends on the cuts |
| ScanSegmentation.LargerLimitsAreNot | src/http/framer.rs:853-938 | for every larger limit a body is given whose status does |
| ScanSegmentation.StatusIsStableIff | src/http/framer.rs:853-938 | the status is independent of segmentation for every body if and only if the limit is at most 62 bytes |
| HttpConnection.HttpConn.constructor | src/http/framer.rs:412-447 | a connection starts at a head with nothing indexed |
| HttpConnection.HttpConn.Fail | src/http/framer.rs:461-472 | failing takes over the whole buffer and records the status to answer with |
| HttpConnection.HttpConn.KnownStep | src/http/framer.rs:743-780 | the known-length framing step refines its specification |
| HttpConnection.HttpConn.StreamStep | src/http/framer.rs:782-851 | the chunked streaming step refines its specification |
| HttpConnection.HttpConn.ScanStep | src/http/framer.rs:853-938 | the resumed scan with its two caps refines its specification |
| HttpConnection.HttpConn.Frame | src/http/framer.rs:476-724 | framing the buffer, in every phase, refines its specification, which `ConnectionRefusals` and the theorems over runs say is right |
| HttpConnection.HttpConn.Settle | src/http/protocol.rs:721-741 | a handler's verdict on a whole request becomes an answer, a park or a close |
| HttpConnection.HttpConn.OpenStream | src/http/protocol.rs:896-950 | opening a stream refines its specification, parks and the withheld interim included |
| HttpConnection.HttpConn.ChunkWindow | src/http/protocol.rs:954-1023 | delivering a chunked window refines its specification |
| HttpConnection.HttpConn.KnownWindow | src/http/protocol.rs:1030-1095 | delivering a known-length window, with the End behind the last one, refines its specification |
| HttpConnection.HttpConn.Finish | src/http/protocol.rs:1098-1125 | the End of a chunked stream carries the terminal block's trailers |
| HttpConnection.HttpConn.Scanned | src/http/protocol.rs:808-866 | a scanned body is handed over decoded, by copying from borrowed storage and in place in owned storage, with one result |
| HttpConnection.HttpConn.Resolve | src/http/protocol.rs:1126-1257 | every worker outcome on every park refines its specification |
| HttpConnection.HttpConn.Step | src/http/protocol.rs:706-1259 | the glue, in every phase, refines its specification |
| Connection.PushCall | src/http/protocol.rs:612-677 | a call that may follow keeps a log legal and adds exactly its window |
| Connection.PushSent | src/http/protocol.rs:460-527 | a reply that may be sent keeps a log legal, adds no window, and ends the request exactly when it answers or closes |
| ConnectionInvariant.ViewFound | src/http/head.rs:602-613 | at every dispatch, indexed or re-tokenized, the head is seen as it tokenizes |
| ConnectionInvariant.FinalCall | src/http/protocol.rs:612-677 | the call that completes a request keeps the invariant, whatever the handler chooses |
| ConnectionInvariant.StreamCall | src/http/protocol.rs:896-1095 | a call inside a stream keeps the invariant, whatever the handler chooses |
| ConnectionSteps.PumpHead | src/http/framer.rs:560-724 | framing and delivering at a head keeps the invariant |
| ConnectionSteps.PumpScan | src/http/framer.rs:853-938 | scanning and delivering a buffered chunked body keeps the invariant |
| ConnectionSteps.PumpExpect | src/http/protocol.rs:766-807 | the invited body keeps the invariant |
| ConnectionSteps.WholeServed | src/http/protocol.rs:780-894 | a Whole call over a request's exact bytes serves it in full |
| ConnectionStreams.KnownMoves | src/http/protocol.rs:1030-1095 | a window more is so many bytes less to come: handed over plus remaining is the declared length |
| ConnectionStreams.PumpKnown | src/http/framer.rs:743-780 | delivering from a known-length body keeps the invariant |
| ConnectionStreams.ChunkedMoves | src/http/protocol.rs:954-1023 | after a chunked window the stream stands where a scan of the bytes consumed so far stands, with that scan's payload handed over |
| ConnectionStreams.LastBlock | src/http/protocol.rs:1098-1125 | at the terminal block the body consumed decodes to the windows handed over and the block's trailers |
| ConnectionStreams.EndServed | src/http/protocol.rs:1098-1125 | the End call completes the service of the request |
| ConnectionStreams.PumpStream | src/http/framer.rs:782-851 | delivering from a chunked stream keeps the invariant |
| ConnectionSafety.ResolveFinal | src/http/protocol.rs:1126-1257 | resolving a parked whole request or End keeps the invariant, redrives included |
| ConnectionSafety.ResolveStream | src/http/protocol.rs:1126-1257 | resolving a parked Open or window keeps the invariant, re-parks included |
| ConnectionSafety.RedriveKeeps | src/http/protocol.rs:1172-1257 | a redrive repeats the last call exactly, and counts no window and no interim twice |
| ConnectionSafety.ArriveKeeps | src/net/core/reactor/io.rs:151-209 | the invariant survives bytes arriving at any moment, parked or not |
| ConnectionSafety.ActKeeps | src/http/protocol.rs:706-1259 | every action of the connection keeps the invariant |
| ConnectionSafety.EveryRun | src/http/protocol.rs:706-1259 | over every run: each request answered on the connection was one whole request of the stream, served in full, and the current one is legal so far |
| ConnectionTheorems.BytesConserved | src/net/core/reactor/io.rs:151-209 | answered requests, the current request and the buffer together are the bytes that arrived, in order, with none lost, repeated or invented |
| ConnectionTheorems.RequestsArePrefixFree | src/http/framer.rs:476-724 | at most one request begins a byte stream |
| ConnectionTheorems.BoundariesAreOfTheStream | src/http/framer.rs:476-724 | two runs over one stream put every request boundary in the same place, however the bytes were cut and whatever handlers and workers did |
| ConnectionTheorems.StagesInOrder | src/http/protocol.rs:706-1259 | the calls of a request are a Whole alone, or Open, then windows, then one End, all with one head and one view of it |
| ConnectionTheorems.RedriveRepeats | src/http/protocol.rs:1172-1257 | a redriven call equals a call already made, never moves a stage back, and skips none |
| ConnectionTheorems.NothingAfterTheAnswer | src/http/protocol.rs:434-527 | once a request is answered or closed nothing is called or sent for it |
| ConnectionTheorems.InterimOnce | src/http/protocol.rs:746-776 | at most one 100 Continue per request (section 10.1.1 of RFC 9110) |
| ConnectionTheorems.InterimComesFirst | src/http/protocol.rs:746-776 | no window or End precedes the interim |
| ConnectionTheorems.InterimWhenAccepted | src/http/protocol.rs:896-950 | a stream being read has sent the interim exactly when its client waits for one, and a parked Open that still owes it has not |
| ConnectionTheorems.NoBugAnswered | src/http/protocol.rs:808-866 | a legal log has no codec-bug answer in it |
| ConnectionTheorems.EveryLogIsLegal | src/http/protocol.rs:706-1259 | over every run every request's log is legal: no codec-bug answer is sent, at most one interim is sent, and nothing past the configured limits reaches a handler |
| ConnectionFallbacks.NoFallback | src/http/protocol.rs:808-1125 | over every run the arms for what cannot happen are dead, the silent one included: framing never fails with the codec-bug status, a scanned body and a terminal block decode, and re-reading a window's size line finds the chunk the window is cut from |
| ConnectionTheorems.EveryDispatchReadsItsHead | src/http/head.rs:602-613 | over every run, at every dispatch, the handler is given the head of the request it serves, viewed as that head tokenizes, through streams, parks and redrives |
| ConnectionTheorems.AnsweredMeansServed | src/http/protocol.rs:460-484 | a reply that keeps the connection open is sent only when exactly that request's bytes were consumed and its handler saw the decoded entity and trailers, with one interim if the head expects it and declares a body, and none otherwise |
| ConnectionTheorems.HandlersSeeTheRequest | src/http/protocol.rs:706-1259 | on connections that close as well: a handler told the request is complete saw all of its content, and one told of windows saw a prefix of its payload, none before the interim |
| ConnectionAnswers.EveryReply | src/http/protocol.rs:460-527 | over every run, for every delivery: an answer is that of the handler called last or of the worker, split exactly when it has a body; the connection is kept if and only if the request is complete, its head persists, the answer does not ask to close and the server is not draining; reading on and parking lead to nothing else |
| ConnectionAnswers.KeptHeads | src/http/protocol.rs:460-484 | over every run, each exchange behind which the connection was kept was complete, and its head does not say `close`, is of version 1.1 or asks to be kept, and does not have both a length line and a transfer-coding line |
| ConnectionAnswers.MethodIsHeadIff | src/http/head.rs:622-627 | the method is HEAD if and only if line breaks, then that word and a blank, come first |
| ConnectionAnswers.FarewellsNameTheMethod | src/http/protocol.rs:540-548 | over every run, a farewell sent once the head is known leaves out its body if and only if that head's method is HEAD, also when the head's bytes are long consumed |
| ConnectionRefusals.HeadRefusals | src/http/framer.rs:560-724 | for every buffer at a head, exactly when it is refused and with which status: 431 past the head limit, the tokenizer's or the body's own status, 413 for a length past the stream cap or the body limit, the scan's for a buffered chunked body, and never otherwise |
| ConnectionRefusals.StreamRefusals | src/http/framer.rs:782-851 | a stream is refused with 413 exactly when its next chunk would pass the cap, and otherwise as the coding is |
| ConnectionRefusals.RefusalIsSaid | src/http/protocol.rs:540-548 | a refusal is answered with its status, no handler is called, and the connection is closed |
| ConnectionRefusals.AloneFrames | src/http/framer.rs:560-724 | a head whose body streams, or whose client waits to send it, is delivered without its body, and the phase then says which |
| ConnectionRefusals.InterimAtOnce | src/http/protocol.rs:746-776 | wherever such a head is at the front of the buffer, a pump sends the interim at once and calls no handler |
| ConnectionRefusals.InterimOnAcceptance | src/http/protocol.rs:896-950 | for a body that streams, the handler's Open comes first, and the interim follows exactly when it reads on and the head expects one |
| ConnectionRefusals.DrainingRefuses | src/http/protocol.rs:766-776 | while draining, a head that would be invited or opened is refused with 503 instead |
| ConnectionRefusals.InterimOnlyWhenOwed | src/http/protocol.rs:746-776 | over every run, the current request has no interim in its log unless its head expects one and declares a body |
| ConnectionRefusals.FirstInterim | src/http/protocol.rs:746-776 | from a fresh connection, a head that expects `100 Continue` and declares a body within the limits that does not stream, arriving with anything behind it and pumped once, leaves exactly one event, the interim, and exactly the head consumed |
| Connection.PublishedBuffer | src/http/framer.rs:155-167 | the published minimum buffer is a head with the larger of a body with its framing and a window with its framing |
| ConnectionInvariant.PartsAre | src/http/head.rs:602-613 | the parts of a head are its bytes at the recorded places, one by one |
| ConnectionArrivals.FrameExtends | src/http/framer.rs:476-938 | in every reachable state, unless all of the bytes are refused, framing only some of them either waits or already says what framing all of them says |
| ConnectionArrivals.NeverRefusedEarly | src/http/framer.rs:476-938 | a connection holding any part of an admissible request never refuses it: a pump changes nothing that can be seen, and only while bytes are missing, or it calls the handler or invites the body without reaching past the request, and says it is complete exactly behind its last byte; whatever the handler chooses |
| ConnectionArrivals.StaysOnTrack | src/http/protocol.rs:706-1259 | from any such state, with a handler that reads on, every interleaving of arrivals and pumps keeps the connection open with every byte accounted for, until the request has been served in full |
| ConnectionArrivals.PumpsFinish | src/http/protocol.rs:706-1259 | once the request has arrived, one pump per byte still to be consumed is enough to serve it |
| ConnectionArrivals.RequestsInPieces | src/http/protocol.rs:706-1259 | from the start: however an admissible request and what follows it are cut into arrivals and interleaved with pumps, the connection is open and unanswered while the request is incomplete, as many further pumps as the request has bytes serve it, head to End with its windows, entity and trailers, and the bytes behind it are untouched |
| ConnectionService.HelpsOn | src/http/protocol.rs:706-1259 | in any state on the way of an admissible request whose head persists, parked or not: an arrival, a pump whose handler reads on, answers the complete request or parks, or a worker that answers, resumes or redrives, keeps it on its way with no byte lost, or answers it served in full and leaves the connection open for the bytes behind it |
| ConnectionService.ServesAll | src/http/protocol.rs:706-1259 | through every run of such actions the requests ahead are answered one behind the other, and until the last is the next one is under way |
| ConnectionService.PressingServes | src/http/protocol.rs:706-1259 | once they have arrived, one action per byte left, and one more for a park, answers them all, if each resolves the park or turns the pump and parks nothing |
| ConnectionService.CanPress | src/http/protocol.rs:706-1259 | in every such state there is an action of that kind |
| ConnectionService.PipelinedRequests | src/http/protocol.rs:706-1259 | from a fresh connection, for every pipelined stream of such requests, every cutting into arrivals and every interleaving with pumps, parks, resumptions, redrives and answers: in order, each served in full, the connection open and owing an answer with no byte lost until the last is, and all answered boundedly soon after they have arrived |
| ConnectionBounds.ScanBound | src/http/framer.rs:853-938 | the bound below while a chunked body is scanned, the unconsumed line included |
| ConnectionBounds.BufferBound | src/http/framer.rs:155-167 | in every reachable unparked state, the framer asks for more only while the buffer holds at most `min_request_bytes`, and declares messages of between 1 and that many bytes |
| ConnectionBounds.CapBindsIff | src/http/framer.rs:782-851 | for every deployment that streams and every chunked head it takes: some run, from a fresh connection on, has a chunk refused for the cap if and only if the cap is below the largest machine word |
| ConnectionLink.Link.constructor | src/http/framer.rs:412-447 | an accepted connection is in the state every run starts from |
| ConnectionLink.Link.Arrive | src/net/core/reactor/io.rs:151-209 | bytes appended to the receive buffer are the arrival action |
| ConnectionLink.Link.Pump | src/net/core/reactor/io.rs:151-209 | one pass over the connection object, framing, delivering in borrowed or in owned storage, consuming and sending, is the pump action |
| ConnectionLink.Link.Complete | src/http/protocol.rs:1126-1257 | a worker's outcome given to the connection object is the completion action |
| ConnectionLink.Link.Run | src/net/core/reactor/io.rs:151-209 | any sequence of actions on the object, whichever storage each body comes in, is that run, so every theorem over runs is one about the object |
| HttpHead.LengthReads | src/http/head.rs:958-970 | the decimal numeral of any number is read as that number, or refused exactly when it does not fit a machine word |
| HttpHead.ParseContentLength | src/http/head.rs:958-970 | the digit loop with its overflow check computes the length, or refuses the field |
| HttpHead.BodyOf | src/http/head.rs:857-918 | the one pass over the fields, with its counters, decides the body as the rules over all of them do |
| HttpHead.ChunkedExactlyWhen | src/http/head.rs:857-918 | a body is chunked if and only if the version is 1.1, exactly one element over all transfer-coding lines is not empty and it spells `chunked`, and there is no length line or one with a valid length |
| HttpHead.SizedExactlyWhen | src/http/head.rs:857-918 | over the lines of a head: a body has a length if and only if no line names a transfer coding, and no line names a length, meaning zero, or exactly one does, in digits that fit |
| HttpHead.RefusedExactlyWhen | src/http/head.rs:857-918 | a body is refused with 501 if and only if the version is 1.1, `chunked` comes last and nowhere else behind another coding, and there is no length or one valid length; every other refusal is 400 |
| HttpHead.ListedIff | src/http/head.rs:839-851 | a word is found in a list field exactly when some line of that name, letter case aside, has it among its elements |
| HttpHead.DispositionIs | src/http/head.rs:797-833 | line by line: the connection may be kept if and only if no `connection` line lists `close`, and the version is 1.1 or one lists `keep-alive`; and when a head has both a length and a coding |
| HttpHead.ListReads | src/http/head.rs:839-851 | a list with any white space around its elements reads as its elements |
| HttpHead.RepeatedLinesCombine | src/http/head.rs:839-851 | a field sent on two lines says what one line with the values joined by a comma says (section 5.3 of RFC 9110) |
| HttpHead.ResponseDisposition | src/http/head.rs:797-833 | the fused pass gives the separate answers to keeping the connection and to a length beside a coding |
| HttpDate.YearsFollow | src/http/date.rs:35-65 | the closed form for days before a year grows by that year's length and is anchored at 1970, so it counts days |
| HttpDate.CivilIs | src/http/date.rs:35-65 | every day number becomes a valid Gregorian date whose own day number it is, negative days included |
| HttpDate.FromUnixIsCalendar | src/http/date.rs:35-65 | for every second, a valid date and time whose independently defined inverse is that second |
| HttpDate.DaysGrow | src/http/date.rs:35-65 | the calendar's order is the order of day numbers |
| HttpDate.CalendarIsFromUnix | src/http/date.rs:35-65 | conversely every valid date and time is what its own second is turned into |
| HttpDate.WeekdaysFollow | src/http/date.rs:35-65 | weekdays advance by one a day from a Thursday at the epoch |
| HttpDate.RenderingFits | src/http/date.rs:67-82 | every 64-bit second renders in at most 40 bytes, and in exactly 29 for four-digit years |
| HttpDate.RenderingReads | src/http/date.rs:67-82 | for every 64-bit second, negative and longer years included, the rendering has its commas, blanks, colons and ` GMT` in place and can be read back field by field to the date (section 5.6.7 of RFC 9110) |
| HttpDate.MonthNamed | src/http/date.rs:24-28 | the twelve names of the months |
| HttpDate.WeekdayNamed | src/http/date.rs:24-28 | the seven names of the days |
| HttpDate.DateCache.constructor | src/http/date.rs:105-115 | an empty cache is consistent |
| HttpDate.DateCache.Render | src/http/date.rs:117-140 | through any sequence of calls the fixed buffer returns the rendering of the second asked for |
| HttpResponse.Headers.Push | src/http/response.rs:203-221 | fields keep insertion order across the inline array and the spill |
| HttpResponse.Headers.Header | src/http/response.rs:270-281 | an offered field is kept exactly when it is admitted |
| HttpResponse.OffersAdmitted | src/http/response.rs:398-416 | any sequence of offers leaves exactly the admitted ones, in order |
| HttpResponse.ResponseReads | src/http/response.rs:443-545 | splitting the output at CRLF gives back the status line, the codec's fields and the admitted fields in order, one blank line, and the body; `HttpClient.FieldsSay` says what those fields are |
| HttpResponse.DateIsUnbroken | src/http/date.rs:67-82 | the date of every 64-bit second is free of line breaks |
| HttpResponse.EveryResponseReads | src/http/response.rs:443-545 | for every status, sequence of offered fields, body and second, the response sent splits into its status line, the codec's fields and exactly the admitted offers in order, and its body; `HttpClient.EveryResponseSays` says it without the writer's functions |
| HttpClient.ReasonIs | src/http/response.rs:640-665 | the phrase of each status is that of the registry of section 15 of RFC 9110, or empty |
| HttpClient.StatusReads | src/http/response.rs:499-545 | the status line splits at its blanks into `HTTP/1.1`, the digits and the phrase |
| HttpClient.AdmittedAreSendable | src/http/response.rs:398-416 | an offered field is admitted if and only if its name is a token, not one of four the codec writes, and its value has no byte a field may not hold |
| HttpClient.FieldsSay | src/http/response.rs:499-545 | a client reads one Date, a Content-Length of the body to be sent unless the status has none, a Connection that says `close` or `keep-alive` as the connection is closed or kept, and then the handler's sendable fields in order |
| HttpClient.EveryResponseSays | src/http/response.rs:443-545 | for every response, whole: status, phrase, date, length, connection, the handler's fields and the body, read from the bytes sent |
| HttpResponse.OneLength | src/http/response.rs:499-545 | exactly one Content-Length is sent, and none with a bodyless status |
| HttpResponse.LengthIsWhatIsSent | src/http/response.rs:443-461 | that length is the number of body bytes sent, except that an answer to HEAD sends none |
| HttpResponse.StatusHasThreeDigits | src/http/response.rs:246-258 | whatever status is asked for, the status line carries three digits |
| HttpResponse.Reply.WriteHead | src/http/response.rs:499-545 | the head written piece by piece is the specified head, which a client reads as `HttpClient.EveryResponseSays` states |
| HttpResponse.Reply.SerializeReply | src/http/response.rs:601-636 | the split reply, flattened, is the plain serialization, and is split exactly when there is a body to send |
| Decimals.PushDecimal | src/http/response.rs:548-560 | digits extracted from the low end into a fixed buffer are the decimal numeral |
| Decimals.DecimalReads | src/http/response.rs:548-560 | a numeral is decimal digits, only zero begins with a zero, and its value is the number |
| AuditRecord.TokenReads | src/audit/record.rs:300-335 | a token, quoted or hex, decodes to its key and original value |
| AuditRecord.OpReads | src/audit/record.rs:227-272 | the operation decodes to its value whether bare or encoded |
| AuditRecord.SanitizedIs | src/audit/record.rs:277-343 | a name of letters, digits and underscores is kept, and in any other exactly the other characters become underscores |
| AuditRecord.EncodedIs | src/audit/record.rs:300-335 | a value is quoted if and only if it has no white space, control, byte past ASCII or quote of either kind, and otherwise is two upper-case hex digits a byte |
| AuditRecord.OpIs | src/audit/record.rs:227-247 | what was done is written bare if and only if both halves could be quoted |
| AuditRecord.RecordReads | src/audit/record.rs:227-272 | splitting a record at spaces gives one token per present field, they decode to the original values and sanitized keys in order with the outcome last, and every byte is printable and no apostrophe |
| AuditRecord.WriteMessage | src/audit/record.rs:227-272 | the writer appends exactly those tokens to whatever the buffer held |
| FsReactor.Core.Alloc | examples/fs_callback_layer0.rs:185-203 | a slot is taken from the free list or added, free and used slots still partition the table, and the token is live |
| FsReactor.Core.TakeOp | examples/fs_callback_layer0.rs:208-219 | a live token yields its operation once and frees its slot; a stale one yields nothing and changes nothing |
| FsReactor.FlushIsLegal | examples/fs_callback_layer0.rs:240-264 | whatever the system calls report, a flush gives each run real results up to its first failure and cancellation after it, makes exactly the calls up to that failure, and no failure leaks into the next run |
| FsReactor.DrainIsRound | examples/fs_callback_layer0.rs:269-282 | draining the completion queue one by one is one round of callbacks, run by run |
| FsReactor.RoundRanks | examples/fs_callback_layer0.rs:284-293 | each round stages only shallower callbacks, which is why running until idle ends |
| FsReactor.Reactor.Flush | examples/fs_callback_layer0.rs:240-264 | every staged operation is queued once, in order, with its result |
| FsReactor.Reactor.Drain | examples/fs_callback_layer0.rs:269-282 | every queued completion fires its own callback exactly once |
| FsReactor.Reactor.RunUntilIdle | examples/fs_callback_layer0.rs:284-293 | it terminates with nothing staged and no slot in use, having played legal rounds only; every put is settled, with exactly the log of its first failure or of success, and every lookup answered |
| FsCallbacks.RoundIsOwn | examples/fs_callback_layer0.rs:269-282 | a round does to each request what its own operations alone would: requests do not interfere |
| FsCallbacks.TailFires | examples/fs_callback_layer0.rs:408-482 | from the four results of the linked tail, in the order write, flush, rename, flush of the directory, the put answers once, with success exactly when all four succeeded, and stages the matching cleanup |
| FsCallbacks.ShortWriteSucceeds | examples/fs_callback_layer0.rs:329-340 | a write shorter than the body, followed by three successes, is answered as a success |
| FsCallbacks.WholeBodyIff | examples/fs_callback_layer0.rs:408-482 | over everything the system calls may report, a success of the put means its whole body was written if and only if the body is empty |
| FsCallbacks.PlayKeeps | examples/fs_callback_layer0.rs:378-482 | every legal play keeps every put at a point of its protocol |
| FsCallbacks.EveryPut | examples/fs_callback_layer0.rs:378-482 | over every play each put delivers at most once, and an idle one has delivered once and has exactly this log: the open; if that succeeded, write, fsync of the same descriptor, rename from the temporary to the final name, fsync of the directory, with their results; the unlink if one failed; and one close of the temporary file |
| FsCallbacks.PublishedIsFlushed | examples/fs_callback_layer0.rs:408-482 | over every play, before each rename that was carried out comes a write and behind it a flush of one descriptor, both successful |
| FsCallbacks.StatFires | examples/fs_callback_layer0.rs:485-533 | a directory is answered without being opened, a file is opened, answered and closed, and a failure is reported |
| FsCallbacks.EveryStat | examples/fs_callback_layer0.rs:485-533 | over every play each lookup delivers at most once, and an idle one has delivered once and has exactly the log of a lookup alone, of a failed open, or of an open and its close |
| IniFile.Ordered.Insert | src/configfile/mod.rs:131-139 | the indexed map inserts or replaces in place as the association list does |
| IniFile.Ordered.Remove | src/configfile/mod.rs:144-156 | removal with its position fix-up is removal from the list, order kept |
| IniModel.PutDistinct | src/configfile/mod.rs:131-139 | keys stay distinct, and the key now has the value |
| IniModel.DelDistinct | src/configfile/mod.rs:144-156 | keys stay distinct, and the key is gone |
| IniFile.Work.Line | src/configfile/parse.rs:158-271 | the reader's handling of one line, with its duplicate sets and current section, refines its specification, errors included |
| IniConfig.ConfigFile.ReadStr | src/configfile/parse.rs:132-282 | a read merges the whole text or changes nothing; what merging means is `IniLaws.ReadOverrides`, and what a text says is `IniGrammar.DocumentReads` |
| IniConfig.ConfigFile.Merge | src/configfile/parse.rs:407-453 | merging into the nested maps is the merging of the lists, which `IniLaws.MergeSectionsOverrides` and `MergeSectionsKeepsOrder` determine |
| IniGrammar.DocumentReads | src/configfile/parse.rs:132-282 | every document of the grammar, with its indents, comments, blank lines, continuations, either delimiter and headers with anything behind the bracket, reads as its sections and values |
| IniGrammar.SectionTwice | src/configfile/parse.rs:202-271 | behind any document, a section named again is refused as a duplicate |
| IniGrammar.OptionTwice | src/configfile/parse.rs:202-271 | so is an option named again, letter case aside |
| IniGrammar.OptionTooSoon | src/configfile/parse.rs:202-271 | an option before any section is refused for its missing header |
| IniGrammar.NothingToContinue | src/configfile/parse.rs:158-201 | an indented line behind an option without a value is refused as continuing nothing |
| IniGrammar.NeitherIsRefused | src/configfile/parse.rs:202-282 | a document with a line that is none of these is refused for its syntax, once all of it was read |
| IniLaws.MergeOverrides | src/configfile/parse.rs:407-453 | for every key, the merged options have the new value if there is one and the old one otherwise |
| IniLaws.MergeKeepsOrder | src/configfile/parse.rs:407-453 | the keys are the old ones in their places and then the new ones in their order |
| IniLaws.MergeSectionsOverrides | src/configfile/parse.rs:407-453 | the same section by section: one in both is merged, one in either alone is kept or taken |
| IniLaws.MergeSectionsKeepsOrder | src/configfile/parse.rs:407-453 | the sections are the old ones in their places and then the new ones in their order |
| IniLaws.ReadOverrides | src/configfile/parse.rs:132-282 | after a read that succeeded, every section and `DEFAULT` holds for every key what the text gives, or what it held |
| IniLaws.LookupAfterRead | src/configfile/mod.rs:839-854 | behind a read that succeeded, a lookup gives what the text gives the section, or what the section held, or what the text gives `DEFAULT`, or what that held; and nothing in a section neither has |
| IniLaws.DocumentOverrides | src/configfile/parse.rs:132-282 | for every document of the grammar that is what the document says |
| IniLaws.AddSectionDoes | src/configfile/mod.rs:686-704 | a section is added, empty and last, if and only if its name is good, not `DEFAULT`, and new; nothing else changes |
| IniLaws.SetDoes | src/configfile/mod.rs:727-754 | when an option is set, or with which error it is not, in the order of the screens; and that the one entry is set, in its place or last, and no other changes |
| IniLaws.RemoveOptionDoes | src/configfile/mod.rs:794-821 | that one entry goes, the others stay in their order, and no other section changes |
| IniLaws.RemoveSectionDoes | src/configfile/mod.rs:777-790 | that one section goes, the others stay in their order, and the defaults are untouched |
| IniLaws.RefusedNamesAreLost | src/configfile/parse.rs:63-85 | a line with the name and a value gives that option if and only if `set` would take the name, brackets and carriage returns aside |
| IniLaws.NamesIgnoreCase | src/configfile/mod.rs:910-912 | two spellings name one option if and only if they differ at most in the case of ASCII letters |
| IniWritten.WritesLines | src/configfile/write.rs:39-97 | a configuration is written as `DEFAULT` if it has options, then the sections in order, each a header, its options in order with further lines of a value behind a tab, and an empty line |
| IniConfig.ConfigFile.ToText | src/configfile/write.rs:39-97 | the writer produces the specified text, which `IniWritten.WritesLines` gives line by line |
| IniConfig.ConfigFile.NewSection | src/configfile/mod.rs:686-704 | adding a section succeeds or fails as specified and a failure changes nothing |
| IniConfig.ConfigFile.SetOption | src/configfile/mod.rs:727-754 | setting an option likewise, with its screens in order |
| IniConfig.ConfigFile.UnsetOption | src/configfile/mod.rs:794-821 | removing an option likewise, telling whether it was there |
| IniConfig.ConfigFile.DropSection | src/configfile/mod.rs:777-790 | removing a section takes it out with its options, the others in order, telling whether it was there |
| IniConfig.ConfigFile.GetOption | src/configfile/mod.rs:539-553 | reading an option builds the merged view, interpolates over it when asked to, and so gives the substitution over section, then defaults; an unknown section is an error and a missing value is none |
| IniRoundTrip.OptionClean | src/configfile/parse.rs:320-338 | a written option line reads as its key and first value line, whatever the key and value contain within the screens |
| IniRoundTrip.ContinuationLine | src/configfile/parse.rs:158-201 | an indented line continues the value, is dropped when it looks like a comment, and is kept when blank |
| IniRoundTrip.SectionRead | src/configfile/write.rs:60-97 | a written section reads back as that section with its options in order |
| IniRoundTrip.ReadsBack | src/configfile/write.rs:39-97 | writing and reading a good configuration, in either delimiter mode, gives back its sections and keys in order with each value as it reads |
| IniReachable.ReadValueIsNormal | src/configfile/parse.rs:388-399 | a value gathered by a read is written and read back unchanged |
| IniReachable.ValueReadsBackIff | src/configfile/write.rs:60-97 | any value is read back unchanged if and only if none of its lines needs stripping, no later line looks like a comment and it does not end in a line break; a missing value if and only if the flag allows it |
| IniReachable.LeadingSpaceIsLost | src/configfile/write.rs:60-97 | a value of a blank and a letter is read back as the letter alone |
| IniReachable.SetThenGet | src/configfile/mod.rs:727-754 | on every configuration the operations can produce, `get` behind a `set` that succeeded gives the substitution of the value if and only if no reference is bridged by an escape, its references resolve in that configuration, and the peak is within the cap |
| IniReachable.GoodLine | src/configfile/parse.rs:158-271 | reading any line keeps what is needed to write the result |
| IniReachable.ApplyKeeps | src/configfile/mod.rs:686-821 | so does every operation on a configuration |
| IniReachable.EveryConfigurationReadsBack | src/configfile/parse.rs:132-282 | every configuration reachable by reads, added sections, sets and removals is read back from its text into a fresh configuration with the same sections and keys in the same order, and every value not given to `set` unchanged |
| IniConfig.GetMerged | src/configfile/mod.rs:856-906 | in the merged view a section's value wins over the default |
| IniConfig.ViewIsLookup | src/configfile/mod.rs:839-906 | for every addressable section and key the merged view agrees with looking in the section and then in the defaults |
| IniConfig.ViewReads | src/configfile/mod.rs:539-553 | interpolating over the merged view is interpolating over that lookup |
| IniConfig.ConfigFile.MergedView | src/configfile/mod.rs:856-891 | the view is built over the indexed map, defaults first |
| IniFile.NormalizeNewlines | src/configfile/mod.rs:946-963 | in place, every CRLF and lone CR becomes LF |
| IniFile.UniversalOnce | src/configfile/mod.rs:946-963 | doing it twice changes nothing |
| IniFile.EndsAreOne | src/configfile/mod.rs:946-963 | lines ended in any mixture of LF, CR and CRLF become the same lines ended in LF |
| IniInterp.InterpolateSubstitutes | src/configfile/interp.rs:40-128 | on success the shared output buffer ends with what depth-bounded recursive substitution gives |
| IniInterp.SmallResultsSucceed | src/configfile/interp.rs:40-128 | a substitution whose result fits the cap is never refused |
| IniInterp.OutputBound | src/configfile/interp.rs:40-128 | the output is at most the cap plus twice the longest raw value |
| IniInterp.PeakDecides | src/configfile/interp.rs:40-128 | a substitution is given if and only if the largest size seen when the cap is looked at is within it, and is refused as too large otherwise |
| IniInterp.LimitIsNoBound | src/configfile/interp.rs:40-128 | for every size there is a value of that size that is read as it stands |
| IniInterp.BeforeGetIsSubstitution | src/configfile/interp.rs:29-38 | reading an option succeeds if and only if substitution does within that peak, then gives the substitution, at most the cap plus two raw values, and never refuses one that fits the cap |
| IniTemplates.TemplateReads | src/configfile/interp.rs:29-128 | a value written as text, `%%` and `%(name)s` reads as the text, percent signs and values meant, references followed at most ten deep; it fails whenever its meaning does and never when that is at most a mebibyte |
| IniTemplates.ReadableIsSpelled | src/configfile/interp.rs:40-128 | every value that can be read is written that way |
| IniConfig.Expand | src/configfile/interp.rs:40-128 | the loop with its recursion and shared buffer computes that, and terminates on cyclic and branching views |
| IniInterp.WithoutEscapesTheyAgree | src/configfile/interp.rs:140-166 | over any view, a value without escapes is read if and only if `set` accepts it, its references resolve, and the peak is within the cap |
| IniInterp.AdmittedIsReadable | src/configfile/interp.rs:140-166 | over any view, a value `set` accepts is read if and only if no reference has an escape right behind its closing parenthesis, its references resolve, and the peak is within the cap |
| IniInterp.ReadableIsAdmitted | src/configfile/interp.rs:140-166 | over any view, a value that is read is accepted by `set` if and only if no reference has a name made of escapes only |
| IniInterp.ReadableIsWellFormed | src/configfile/interp.rs:40-128 | over any view, reading succeeds only on well-formed values |
| IniText.SpaceIff | src/configfile/parse.rs:32-34 | the white space that is stripped is the 25 characters of Unicode and the four ASCII separators |
| IniInterp.WellFormedIsReadable | src/configfile/interp.rs:40-128 | over any view and at every depth, substitution succeeds if and only if the value is well formed and its references resolve: each names an option with a value, and a value with references of its own is well formed, resolves, and is not too deep |
| IniInterp.EscapesPartTheTwo | src/configfile/interp.rs:140-166 | both exceptions occur: one value is accepted and fails when read, the other is refused and is read as the option it names |

## Left out

- The head tokenizer, its version, target and Host screens, and the 32-bit limit on indexed offsets: a parameter and a flag, because the tokenizer is foreign code.
- The reactor proper, its rings, buffers, sockets and kernel TLS: the pump is the small part of `frame_step` that HTTP framing meets, without body placement and splicing.
- How a worker's answer reaches the connection: a park outcome is one atomic choice, made in a way the handle allows.
- Handler panics and their containment.
- The bytes of the interim and the text of a farewell: both are responses known by their kind and status.
- Response bodies taken from files, and the filesystem facade behind them.
- Recovery of the buffer behind a failed request: the connection closes.
- Scrubbing of secrets, file reading and atomic writing of configurations, typed getters, and error message texts.
- IniLaws.NamesIgnoreCase: option names are lowered over ASCII only; the case tables of Unicode are not modelled.
- IniConfig.ConfigFile.ReadStr: the flag for missing values is fixed when a configuration is made.
- HttpConnection.HttpConn.Step: storage handed over as owned is one array; splitting it off a receive buffer is not modelled.
- FsCallbacks.EveryPut: callbacks are the program's own six, not arbitrary functions, and buffers owned by operations are values.
- `src/audit/netlink.rs`, `src/log`, `src/mount`, `src/secrets.rs`, `src/signal.rs`, `src/clone3.rs`, `src/fd.rs`, `src/tempdir.rs`: system calls, tables and plumbing that would add easy members only.
- ACL, cursor, file handle, WebSocket and broker codecs: not part of this model.
