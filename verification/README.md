# WebTransport echo matrix: a verified model

A Dafny model of two parts of this repository and of how they fit together.

**The echo data path.** Two Rust backends (quinn, tokio-quiche), a Python backend (aioquic) and a Python
health client exchange WebTransport streams. The model has the variable-length integers of section 16 of
RFC 9000, the incremental reader of the stream preface, the tokio-quiche event loop over every interleaving
of its events, the echo loops of the other two backends, the request negotiation of both header
implementations, and the waiters of the health client. What each backend sends is stated as a function of
the history of each stream, independent of chunking and of other streams, and then a writer in one program
is composed with a reader in another.

**The matrix-to-store pipeline.** The browser page enumerates the power set of option axes, runs a case per
path and subset, analyses the outcomes, runs a GREASE pair and publishes a payload. The result store
validates everything again, derives the option signal and the verdict again, compares with the previous
result of the same browser family, and writes to disk through a promise queue. The theorems are generic in
the paths (any list without duplicates) and, where the code allows it, in the number of axes. Page and store
each write out their own lists; these are separate constants here, proved to coincide, and the agreement
theorem is instantiated with both (`Agreement.ListsCoincide`, `Agreement.DeployedAgreement`).

Loops and objects of the programs are methods and classes here, each tied by its `ensures` to a
specification function; the theorems are lemmas about those functions over all inputs or all runs. What the
main functions amount to is also spelled out in terms of inputs and events alone.

| file | content |
|---|---|
| Lists.dfy | filtering, counting, permutations, pigeonhole, sorting |
| Varint.dfy | bytes in network order; the integer codec of RFC 9000 |
| PrefixReader.dfy | preface reader and echo loops of the quinn backend |
| Headers.dfy | request parsing, accept decision and CONNECT responses of both backends |
| TokioQuiche.dfy | the tokio-quiche connection loop; what holds of every run |
| Aioquic.dfy | the aioquic handlers; what holds of every run |
| Backends.dfy | the responses of the two HTTP/3 backends on every request |
| Health.dfy | the health client; the composed bidirectional echo |
| Matrix.dfy | option masks and the list of variants |
| Results.dfy, Sanitize.dfy, Canonical.dfy | submissions, their validation, and the exact range of the validator |
| Acceptance.dfy | what is accepted and kept, in terms of the submitted JSON alone |
| Diff.dfy | differences between two results |
| Store.dfy, ResultStore.dfy | one record, the bounded log, the queue and the disk as a state machine; the store object |
| Page.dfy, Signals.dfy | one case, the matrix run, analysis, GREASE pair, payload; the meaning of the signal |
| Agreement.dfy | page and store together |
| EndToEnd.dfy | from what happened in each case to what is stored |

## Findings

- `write_varint` round-trips exactly for values below 2^62; above, the selector overwrites the top two bits
  (`Varint.RoundTripExactly`). A queued unidirectional echo therefore reads back exactly for session ids
  below 2^62 (`TokioRuns.FrameReadsBackExactly`).
- The two backends take the same decision on every request with lower-case header names except a `GET` whose
  path is `/healthz` followed by a query, which only the aioquic backend answers
  (`Negotiation.DecisionsAgreeExactly`).
- An accepted CONNECT gets the same response headers from both exactly under a condition on its path and its
  offer (`Negotiation.ResponsesAgreeExactly`). With a query in the path only the aioquic backend still recognises
  it, so the lists differ whenever the path before the query has headers of its own, as `/wt/protocol?x` does
  (`Negotiation.QueryResponsesDiffer`), or is `/wt/auto` with the protocol offered. Without a query they differ
  exactly on `/wt/auto` when the offer contains `quicast-wt-v0` only inside a longer token
  (`Negotiation.SubstringTestIsWeaker`). All other responses, rejections and health checks, always differ in
  their headers (`Backends.ResponsesAgreeExactly`).
- The aioquic handler drops whatever comes before its session is accepted, bytes and end alike. The echo of a
  stream is complete, bytes and end, exactly when no byte came early and the client ended the stream inside an
  accepted session (`Aioquic.EchoCompleteExactly`). With no byte and an early end all bytes are echoed, there
  being none, and the reply never ends (`Aioquic.LostEnd`).
- The quinn backend returns early when reading a bidirectional stream fails, and its send side is dropped. By
  quinn's documentation that ends the stream, so a reply cut short looks complete: the value the health client
  then takes is the payload exactly when all of it had arrived (`EchoChain.QuinnEchoRun`, with the instance
  `EchoChain.TruncatedReply`). This client never resets its streams, so such a read fails with the connection.
- The health client settles the waiter of a CONNECT response without looking whether it is done. Before the
  connection ends that never raises. Afterwards it does for a session still waiting when the connection ended
  (`HealthClient.LateResponseRaises`), and not for one opened later; `HealthClient.HealthProtocol.QuicEventReceived`
  has the exact condition.
- A second `datagram_echo` for a session, before the first is answered, leaves the first future pending for good,
  also when the connection ends (`HealthClient.DisplacedForever`).
- Two branches are unreachable: the last coverage check of `sanitizeCombinations`
  (`Sanitize.SanitizeCombinations`) and the `else { continue }` of the tokio-quiche loop
  (`TokioQuiche.EchoLoop.HandleUniData`).
- `slice(-maxChanges)` bounds the log for limits of at least 1. With 0 it keeps everything
  (`Store.LogIsSuffixOfHistory` covers both); with a negative limit a store that starts empty keeps no event
  at all, and trimming twice is not trimming once (`Store.NegativeLimitKeepsNothing`, `Store.TrimTwice`); the
  limit bounds the log of every run exactly when it is at least 1 (`Store.LogBoundedExactly`). This is about
  `createResultStore` with any limit; the server never passes one outside 1 to 500 (scripts/serve-page.mjs:47).
  The crash theorems ask for a limit that is not negative.
- The store does not compare effects with the option matrix, so a difference in effects alone is not reported
  (`Diff.EffectsGoUnnoticed`). Payloads of the page never differ that way (`Diff.DiffIsExactForPages`).
- `report.cancelled` is set before the GREASE pair runs. Pressing Stop between the two probes leaves the page
  at "not run" while the store records "affected" or "control-failed"; pressing it between ready and the last
  echo of a probe makes the store refuse the payload. Otherwise the two halves agree
  (`Agreement.PublishedIsAccepted`, with the instance `Agreement.StopBetweenProbesReadsAsAffected`).

## Model

| member | source | states |
|---|---|---|
| Varint.WriteVarint | src/main.rs:530-551 | Appends the RFC 9000 encoding: the smallest length whose capacity holds the value, with the selector above the value in network order; the tokio-quiche copy is the same function. |
| Varint.ReadVarint | src/main.rs:511-528 | Decodes the integer at the front of any byte string, or reports that bytes are missing. |
| Varint.DecodeEncode | src/bin/tokio_quiche_wt_echo.rs:583-604 | Reading back what was written, with anything after it, gives the value modulo 2^62 and the exact encoded length. |
| Varint.RoundTripExactly | src/main.rs:511-551 | The round trip returns the value if and only if it is below 2^62. |
| Varint.StrictPrefixUndecoded | src/main.rs:511-521 | No strict prefix of an encoding decodes, so a reader waits for the rest. |
| Varint.DecodeExtended | src/main.rs:511-528 | More input never changes an integer already decoded. |
| Varint.Reencode | src/main.rs:511-551 | Re-encoding any decoded form, minimal or not, keeps its value, never grows, and reproduces the bytes read exactly when they were of the shortest length. |
| Varint.EightByteExample | src/main.rs:511-551 | The first example of section A.1 of RFC 9000, read and written; the other examples are beside it. |
| Preface.PrefixReader.Push | src/main.rs:489-508 | For every chunking, values, pending bytes and payload are those of reading all bytes pushed so far at once; the inner loop ends because pending strictly shrinks. |
| Preface.Resume | src/main.rs:489-508 | Reading a string and scanning on with a further chunk is reading their concatenation. |
| Preface.Conservation | src/main.rs:489-508 | Consumed encodings, pending bytes and payload make up the input; the consumed bytes are exactly the encodings of the values delivered. |
| Preface.ParseFrame | src/main.rs:381-404 | A frame of two written integers and a payload is read back as these three. |
| QuinnEcho.EchoBidiStream | src/main.rs:289-347 | Verdict and bytes echoed depend on the bytes received, how the stream ended and how much the send side takes, not on chunk boundaries; the payload is echoed when the preface is complete and of type 0x41, up to a failed write; dropping the send side ends the reply on every return except a failed write. |
| QuinnEcho.Connection.EchoUniStream | src/main.rs:349-411 | One server stream with the re-framed payload, finished when all of it was written, for every accepted stream that ended well and could be answered; none when the preface, the type, the reading or the opening failed. |
| QuinnEcho.PayloadGrows | src/main.rs:316-342 | Once the preface is known every further byte is payload. |
| QuinnEcho.UniEchoRoundTrip | src/main.rs:381-404 | The echo frame reads back to the client's own stream type, session id and payload and is never longer than what the client sent. |
| QuinnEcho.BidiExactly | src/main.rs:289-347 | Any part of a preface and payload that arrives: nothing is echoed inside the preface or for another type than 0x41; otherwise exactly the payload that arrived, as far as the peer takes it, with the verdict for each case. |
| QuinnEcho.UniExactly | src/main.rs:349-411 | Any part of a preface and payload that arrives: one new stream with 0x54, the session id and the payload, ended if all fitted, when the type is 0x54, reading ended well and a stream could be opened; no stream in every other case. |
| Negotiation.FromHeaders | src/bin/tokio_quiche_wt_echo.rs:472-490 | Each of the five fields is the value of the last header of its name. |
| Negotiation.LastInAnyCase | scripts/aioquic-wt-echo.py:376-377 | A header is found whatever the case of its name, and the last one counts. |
| Negotiation.RustResponseHeaders | src/bin/tokio_quiche_wt_echo.rs:492-540 | A 404 carries its status alone; a 200 is the reference response for the path, the substring test and the origin. |
| Negotiation.PythonResponseHeaders | scripts/aioquic-wt-echo.py:314-355 | The same reference response, for the tokenizer in place of the substring test. |
| Negotiation.AvailableProtocolsContains | scripts/aioquic-wt-echo.py:358-363 | True if and only if some comma-separated item, without parameters, spaces and quotes, is the protocol. |
| Negotiation.TokenExactly | scripts/aioquic-wt-echo.py:360-361 | An item has a token if and only if it is a writing of it: quotes around it, spaces outside these, parameters from a semicolon on. |
| Negotiation.OffersExactly | scripts/aioquic-wt-echo.py:358-363 | A list joined by a comma offers what either part offers, and a single item the token it is a writing of. |
| Negotiation.QuotedTokenIsOffered | scripts/aioquic-wt-echo.py:358-363 | A quoted token, as browsers send it, is offered, with or without a space before it and parameters after it. |
| Negotiation.DecisionsAgreeExactly | scripts/aioquic-wt-echo.py:180-234 | Both backends decide alike on lower-case header names if and only if the request is not a health check with a query. |
| Negotiation.OffersRefinesContains | scripts/aioquic-wt-echo.py:358-363 | Whenever the tokenizer finds the protocol, the substring test does. |
| Negotiation.SubstringTestIsWeaker | src/bin/tokio_quiche_wt_echo.rs:498-502 | The converse fails on a longer token that embeds the protocol. |
| Negotiation.ResponsesAgreeExactly | src/bin/tokio_quiche_wt_echo.rs:492-531 | For every accepted CONNECT with lower-case names the two header lists are equal if and only if: with a query, the path before it has no headers of its own and is not `/wt/auto` with the protocol offered; without one, the path is not `/wt/auto` or both tests read the offer alike. |
| Negotiation.QueryResponsesDiffer | src/bin/tokio_quiche_wt_echo.rs:504-531 | `/wt/protocol?x` is accepted by both and answered differently. |
| Backends.ResponsesAgreeExactly | scripts/aioquic-wt-echo.py:180-234 | Over every request with lower-case names the two responses carry the same headers if and only if the request is an accepted CONNECT that meets that condition. |
| TokioQuiche.EchoLoop.HandleHeaders | src/bin/tokio_quiche_wt_echo.rs:295-373 | A session is opened exactly for an accepted CONNECT whose response could be sent; the frames sent are a bare 200 and the health body, a bare 404 and an empty body, or the reference response alone. |
| TokioQuiche.EchoLoop.HandleUniData | src/bin/tokio_quiche_wt_echo.rs:217-248 | After any history, one more unidirectional chunk keeps payload table, id allocator and queue equal to what the history determines; the missing-entry branch cannot be taken. |
| TokioQuiche.EchoLoop.ServeConnection | src/bin/tokio_quiche_wt_echo.rs:149-293 | For every event sequence the queue is a function of the events up to the first that stops the loop, and the way the loop ends is determined by that event. Without an error or shutdown of the connection and with every response sent, all events are served and the loop ends with the channel. |
| TokioQuiche.StopsExactly | src/bin/tokio_quiche_wt_echo.rs:295-361 | The loop stops exactly at an error or a shutdown of the connection, at headers that could not be sent, and at a health body that could not be sent; a 404 whose body was lost does not stop it. |
| TokioQuiche.FramesExactly | src/bin/tokio_quiche_wt_echo.rs:317-361 | The frames of the three kinds of response, from the last values of the request headers. |
| TokioQuiche.WaitingSnoc | src/bin/tokio_quiche_wt_echo.rs:217-246 | An event changes the waiting bytes of its own stream only: data extends them under the first session id, fin, reset and close clear them. |
| TokioRuns.OneCommandEach | src/bin/tokio_quiche_wt_echo.rs:211-246 | One queued command per bidirectional chunk and per unidirectional fin, nothing else. |
| TokioRuns.SessionOpenExactly | src/bin/tokio_quiche_wt_echo.rs:266-277 | A session is open if and only if a CONNECT for it was accepted and its stream was neither reset nor closed since. |
| TokioRuns.EchoExactly | src/bin/tokio_quiche_wt_echo.rs:217-246 | A fin echoes all bytes of its stream since the last fin, reset or close, its own included, for the session the stream began with. |
| TokioRuns.EchoOfFin | src/bin/tokio_quiche_wt_echo.rs:223-241 | The k-th fin queues, on server stream 15 + 4k, the stream type, the first session id and all bytes since the stream was opened or cleared, in order. |
| TokioRuns.EchoOfChunk | src/bin/tokio_quiche_wt_echo.rs:213-216 | Every bidirectional chunk has its own place in the queue, on its own stream, with its bytes and fin. |
| TokioRuns.StreamEcho | src/bin/tokio_quiche_wt_echo.rs:213-241 | What is queued on a stream that is not a server unidirectional one is exactly its own chunks in order, each with its fin. |
| TokioRuns.ReplyIsInput | src/bin/tokio_quiche_wt_echo.rs:213-216 | The reply to a bidirectional stream is its input, ended if and only if the client ended it. |
| TokioRuns.Isolation | src/bin/tokio_quiche_wt_echo.rs:217-277 | What waits on a stream and what its fin echoes is unchanged when all other streams' events are removed. |
| TokioRuns.ServerIdsIncrease | src/bin/tokio_quiche_wt_echo.rs:156-240 | Server stream ids are 3 modulo 4, strictly increasing and never reused. |
| TokioRuns.BytesConserved | src/bin/tokio_quiche_wt_echo.rs:217-277 | At every step bytes received = bytes echoed + bytes waiting + bytes dropped by reset or close. |
| TokioRuns.FrameReadsBackExactly | src/bin/tokio_quiche_wt_echo.rs:228-241 | A queued frame reads back as 0x54, session id and payload if and only if the session id is below 2^62. |
| TokioRuns.DeliverEcho | src/main.rs:489-508 | A tokio-quiche echo delivered in any chunks to the quinn backend's reader gives stream type, session id and payload, nothing pending. |
| Aioquic.EchoProtocol.HandleHeaders | scripts/aioquic-wt-echo.py:180-234 | Response and session table for health checks, accepted CONNECTs and everything else. |
| Aioquic.EchoProtocol.HandleEvent | scripts/aioquic-wt-echo.py:172-302 | Sessions, sent output and stream count are functions of the event history. |
| Aioquic.AnswerOfEvent | scripts/aioquic-wt-echo.py:172-302 | In every run each event has its answer at its own place among all outputs. |
| Aioquic.RequestAnswer | scripts/aioquic-wt-echo.py:180-234 | What a request is answered with: a health check with its headers, body and end, a session request with the headers of its path, anything else with a 404 that ends the stream. |
| Aioquic.DataAnswer | scripts/aioquic-wt-echo.py:236-302 | Datagrams and stream data come back unchanged if and only if their session was accepted before, unidirectional data on a new stream. |
| Aioquic.AcceptedExactly | scripts/aioquic-wt-echo.py:189-215 | A session is accepted if and only if a request on its stream was a CONNECT with one of the two protocols and a path under `/wt`, query cut off. |
| Aioquic.EchoOnlyInAcceptedSessions | scripts/aioquic-wt-echo.py:236-302 | In every run each output is caused by one event, and if it echoes anything its session was accepted before that event. |
| Aioquic.EchoIsInput | scripts/aioquic-wt-echo.py:255-302 | The answers to a stream, concatenated in creation order, are its bytes without those that came before the session was accepted. |
| Aioquic.OnlyLastEnded | scripts/aioquic-wt-echo.py:271-302 | All answers to a stream are of its own direction, none but the last is ended, and the last is if and only if the client ended the stream inside a session accepted by then. |
| Aioquic.EchoCompleteExactly | scripts/aioquic-wt-echo.py:255-302 | All bytes are answered and the reply is ended if and only if no byte came before the session was accepted and the client's end was accepted. |
| Aioquic.LostEnd | scripts/aioquic-wt-echo.py:268-269 | An end that overtakes the CONNECT: every byte echoed, no answer, no end. |
| Aioquic.RanksAreCreationOrder | scripts/aioquic-wt-echo.py:271-283 | Every unidirectional answer has a server stream of its own. |
| HealthClient.HealthProtocol.QuicEventReceived | scripts/aioquic-h3-health.py:84-163 | New dictionaries and futures, what the echo waiters observe and whether it raises are functions of the old state and the event; a settled waiter keeps its value; nothing raises before the connection has ended. |
| HealthClient.RunBidiEcho | scripts/aioquic-h3-health.py:69-163 | `bidi_echo` on a fresh stream and then any run of calls and events: its future is settled by what the event handler observed on that stream in that run, by nothing else, and once; on an open connection it is what the events themselves make of it, as for the next row. |
| HealthClient.RunCall | scripts/aioquic-h3-health.py:29-163 | Any of the four calls on an open connection and then any run of calls and events: the future is a function of the events alone. A response has the last status and all bytes up to its first end, an echo all bytes up to the first end, a CONNECT the session id for status 200 and a failure otherwise, a datagram the first one; the end of the connection fails what is still undecided, and a call that takes the place leaves the future pending. |
| HealthClient.CallOutcome | scripts/aioquic-h3-health.py:84-163 | The same of the transition functions: every byte that arrives counts, and nothing after the decision does. |
| HealthClient.RunDatagramEcho | scripts/aioquic-h3-health.py:77-118 | `datagram_echo` and then any run of calls and events: its future has the first datagram of its session, the connection's failure, or nothing, as its fate says. |
| HealthClient.DatagramOutcome | scripts/aioquic-h3-health.py:77-118 | Over every run: decided by the first datagram or the end of the connection while it holds its session's place, and by nothing once displaced. |
| HealthClient.DisplacedForever | scripts/aioquic-h3-health.py:77-118 | A second call before an answer leaves the first future pending in every continuation. |
| HealthClient.HealthProtocol.OnTerminated | scripts/aioquic-h3-health.py:95-109 | The end of the connection fails every registered waiter not yet settled and no other. |
| HealthClient.AllFollowData | scripts/aioquic-h3-health.py:84-94 | Data on an echo stream moves that echo's body and waiter as its own observations say, and no other echo. |
| HealthClient.LateResponseRaises | scripts/aioquic-h3-health.py:120-130 | A CONNECT response after the end finds its waiter done and raises. |
| EchoChain.ResultIsReply | scripts/aioquic-h3-health.py:69-109 | Over an ordered reliable stream the waiter holds the whole reply if the reply's end came before the connection's, has failed if the connection ended first, and is pending otherwise. |
| EchoChain.ReplyIsPromised | scripts/aioquic-h3-health.py:69-109 | The same over the events that reach the client: whatever is mixed in between, the future of an echo whose stream brings a reply holds that reply, has failed, or is pending. |
| EchoChain.AioquicBidiEcho | scripts/aioquic-wt-echo.py:255-302 | The aioquic reply to a payload in any segmentation inside an accepted session, delivered in any segmentation, gives exactly that outcome with the payload. |
| EchoChain.AioquicEchoRun | scripts/aioquic-h3-health.py:69-163 | The same of a run of the client's own event handler, with any other calls and events around it and the connection ending at any step; what the stream brings is stated over the events, and also over what the handler observed. |
| EchoChain.QuinnBidiEcho | src/main.rs:289-347 | What the client's library puts on the stream, in any chunks and up to any failure: the payload that arrived is echoed as far as the send side takes it, and ended unless a write failed. |
| EchoChain.TokioBidiEcho | src/bin/tokio_quiche_wt_echo.rs:213-216 | The tokio-quiche reply to a payload, delivered in any segmentation, gives the payload, the failure or a pending waiter, as for the aioquic backend. |
| EchoChain.TokioEchoRun | scripts/aioquic-h3-health.py:69-163 | The same of a run of the client's event handler. |
| EchoChain.QuinnEchoRun | scripts/aioquic-h3-health.py:69-163 | Quinn backend and a run of the client's event handler: the future holds what was echoed, which is the payload if and only if all of it had arrived; with a read that ended normally it is. |
| EchoChain.TruncatedReply | src/main.rs:326-342 | A read that fails after the preface: an empty reply, ended. |
| Masks.EverySubsetOnce | public/index.html:740-766 | Every subset of the axes is the option set of exactly one mask. |
| Masks.BitCount | public/index.html:732-738 | The loop counts the set bits. |
| Masks.PopCountIsOptions | public/index.html:732-773 | The bit count is the number of options. |
| Masks.IdRoundTrip | public/index.html:1642-1645 | Parsing the id without its prefix gives the mask back. |
| Masks.MaskExamples | public/index.html:740-766 | Mask 31 is named `exhaustive-1f`, and mask 5 takes the first and the third option. |
| Variants.BuildExhaustiveVariants | public/index.html:740-775 | The nested loops and the sort leave the variants of all masks, ordered by the comparator. |
| Variants.VariantsComplete | public/index.html:740-775 | For any number of axes: every mask exactly once, strictly increasing in the comparator, every id parses to its mask. |
| Variants.HashVariantsFirst | public/index.html:767-775 | With the certificate axis its variants come first, and inside each group they are ordered by number of options, then by mask. |
| Variants.SmallVariantsFirst | public/index.html:767-775 | Without the certificate axis: by number of options, then by mask. |
| Results.DeploymentIsValid | scripts/result-store.mjs:5-76 | The store's paths and option keys have no duplicates and the supported sizes, and every key has a label. |
| Results.JoinCons | scripts/result-store.mjs:447-452 | Joining puts the separator between the first text and the rest. |
| Sanitize.SanitizeCombinations | scripts/result-store.mjs:282-322 | Accepts exactly the legal matrices and returns them by mask; the coverage check after the sort never fails. |
| Sanitize.MatrixIsPermutation | scripts/result-store.mjs:282-322 | A list of supported size is accepted if and only if its masks are a permutation of 0..total-1, each with the options of its bits and legal outcomes. |
| Sanitize.SortedByMask | scripts/result-store.mjs:313-320 | By pigeonhole, masks below the bound without repetition are all masks, and sorting puts each at its own index. |
| Sanitize.SanitizeEffects | scripts/result-store.mjs:408-432 | Accepts exactly at most one effect per known option with ready not above total. |
| Sanitize.SanitizePaths | scripts/result-store.mjs:247-280 | Accepts exactly one item per configured path with matching counts and totals, and returns them in configured order; what matching means is in `Acceptance.AcceptedExactly` and `Acceptance.CountsAreMasks`. |
| Sanitize.SanitizeGreaseProbe | scripts/result-store.mjs:379-406 | Accepts exactly the outcome shapes one connection attempt can have. |
| Sanitize.SanitizeGrease | scripts/result-store.mjs:351-377 | Accepted pairs and their verdict. |
| Sanitize.SanitizeSubmission | scripts/result-store.mjs:165-193 | The whole validator against its declarative statement. |
| Acceptance.AcceptedExactly | scripts/result-store.mjs:165-193 | A submission is accepted if and only if its JSON meets every bound and shape asked of it: among others, that each of the six counts of a path is the number of entries of the submitted option matrix with that outcome. |
| Acceptance.WrongCountIsRejected | scripts/result-store.mjs:324-342 | One count of one path that differs from the submitted option matrix is enough to be rejected. |
| Acceptance.AcceptedIsKept | scripts/result-store.mjs:165-193 | What is stored of an accepted submission is its own values field by field, the matrix by mask. |
| Acceptance.CountsAreMasks | scripts/result-store.mjs:324-342 | In every stored result the six counts of every path are numbers of masks: where each of the five stages passed, and where the datagram API was unavailable. |
| Acceptance.SignalText | scripts/result-store.mjs:434-453 | The option signal for each case: no API, none ready, all ready, options on one list, on both, on neither. |
| Sanitize.BrowserIsNormalized | scripts/result-store.mjs:203-211 | The family of the name, and the longest run of at most four leading digits of the version. |
| Canonical.FamiliesExactly | scripts/result-store.mjs:16-22 | Five families by name in any case; every other name is "other". |
| Canonical.AcceptedIsCanonical | scripts/result-store.mjs:165-193 | Whatever is accepted is canonical: derived fields are determined by the others, indices equal masks, counts match the matrix. |
| Canonical.CanonicalIsFixed | scripts/result-store.mjs:165-193 | Every canonical result, submitted again with the schema version, is accepted unchanged: sanitizing is idempotent and the canonical results are its exact range. |
| Canonical.OrderInsensitive | scripts/result-store.mjs:247-322 | Neither the order of the submitted paths nor that of the combinations inside them matters. |
| Diff.DiffSnapshots | scripts/result-store.mjs:467-523 | The loops compute the specified list of differences, cut at 64. |
| Diff.LinesAreExact | scripts/result-store.mjs:467-523 | Before the cut, a line is listed if and only if what it claims of the two results is true. |
| Diff.PathLineIsExact | scripts/result-store.mjs:505-521 | A path line lists exactly the rates, signal and matrix that changed. |
| Diff.PathLineInOrder | scripts/result-store.mjs:505-521 | Inside a path line the rates come by metric, then the signal, then the matrix, each once. |
| Diff.LinesInOrder | scripts/result-store.mjs:467-523 | The lines come in one fixed order, each at most once. |
| Diff.NothingCut | scripts/result-store.mjs:522 | For up to 51 paths no line is cut. |
| Diff.DiffIsExact | scripts/result-store.mjs:467-523 | For two stored results of one family the difference is empty if and only if they are equal up to the time of receipt and the effects. |
| Diff.DiffIsExactForPages | scripts/result-store.mjs:467-523 | When effects come from the option matrix, as the page computes them: if and only if equal up to the time of receipt. |
| Diff.EffectsGoUnnoticed | scripts/result-store.mjs:505-521 | Two acceptable results that differ in effects alone and show no difference. |
| Store.Prepare | scripts/result-store.mjs:115-136 | What an operation computes before it touches the disk is the sequential record; what that leaves under each family is in `Store.LatestIsLastRecord`, what it logs and answers in `Store.ChangedIffLogged`. |
| Store.ChangedIffLogged | scripts/result-store.mjs:118-145 | `changed` is answered if and only if the family had no result or the difference to it is not empty, and exactly then the record adds an event, with the browser, the time and the difference that is answered. |
| Store.LatestIsLastRecord | scripts/result-store.mjs:115-136 | In every run, memory has under each family key the sanitized result of the last fulfilled record of that family in call order, and what was loaded where there is none; a load finds the result of the last record of the family that reached the disk. |
| Store.FulfilledIsAccepted | scripts/result-store.mjs:114-147 | In every run a fulfilled record had an acceptable submission, and was answered its family and its time. |
| Store.SliceLastExactly | scripts/result-store.mjs:103-129 | A positive limit keeps that many of the last elements, zero keeps all, a negative one drops that many from the front. |
| Store.TrimTwice | scripts/result-store.mjs:103-105 | Trimming a trimmed log changes nothing if and only if the limit is not negative. |
| Store.LogIsSuffixOfHistory | scripts/result-store.mjs:120-130 | After any records the log is the last `maxChanges` of all events ever: trimming at each step is trimming once. |
| Store.LogInEveryRun | scripts/result-store.mjs:84-149 | The same of the log a load finds at any moment of any run with failures and crashes. |
| Store.LogBoundedExactly | scripts/result-store.mjs:103-129 | `maxChanges` bounds the log of every run if and only if it is at least 1. |
| Store.NegativeLimitKeepsNothing | scripts/result-store.mjs:129 | With a negative limit a store that starts empty never keeps an event. |
| Store.InvRun | scripts/result-store.mjs:84-149 | The invariant of queue, memory, disk and history holds after every sequence of calls, begins, write stages, failures and crashes with load. |
| Store.OneWriterAtATime | scripts/result-store.mjs:114-147 | In every run at most one operation is persisting, all before it have settled, none after it has begun. |
| Store.MemoryIsCallOrderFold | scripts/result-store.mjs:114-147 | Memory is the left fold of the successful records in call order, and each was answered what the sequential store answers at its place. |
| Store.FileIsCommittedOrNext | scripts/result-store.mjs:536-541 | The file is never torn; it holds the committed state or its immediate successor. |
| Store.NoAcknowledgedRecordLost | scripts/result-store.mjs:84-149 | Disk and answers are those of a sequential replay, and an acknowledged record stays in it through any later failures and crashes. |
| Store.FailureLeavesNoTrace | scripts/result-store.mjs:114-147 | A rejected or failed record changes only its own outcome, and the next one can begin. |
| Store.NobodyIsBlocked | scripts/result-store.mjs:114-147 | From every world a run can reach, also behind failed records, with a disk that answers, every pending operation settles. |
| Store.LatestUnderOwnKey | scripts/result-store.mjs:132-136 | In every run each latest entry is a canonical result under its own family key, in memory and on disk. |
| ResultStores.ResultStore.Load | scripts/result-store.mjs:88-108 | Missing, complete and torn files. |
| ResultStores.ResultStore.Record | scripts/result-store.mjs:114-147 | Only appends to the promise chain. |
| ResultStores.ResultStore.StartOperation | scripts/result-store.mjs:114-137 | The begin step of the machine, with rejection. |
| ResultStores.ResultStore.RenameTemporary | scripts/result-store.mjs:536-541 | The rename step of the machine. |
| ResultStores.ResultStore.Finish | scripts/result-store.mjs:138-144 | The commit step of the machine and its answer. |
| ResultStores.ResultStore.RecordAlone | scripts/result-store.mjs:114-147 | On an idle store with a working disk one record moves memory and file as the sequential specification says; a rejected one moves neither. |
| Page.RunOne | public/index.html:1211-1292 | The stages filled in step by step are those the environment and the moment of Stop determine. |
| Page.CaseHasShape | public/index.html:1211-1292 | Which stage combinations can occur; a ready case has all its echo outcomes if and only if Stop was not seen before the last. |
| Page.RunCases | public/index.html:1932-1955 | The results are the planned cases in order, up to the one that saw Stop. |
| Page.RunGreaseDifferential | public/index.html:1766-1809 | Which probes ran and the page's verdict on them. |
| Page.RunMatrix | public/index.html:1843-1984 | The report of a run for every configuration, outcome assignment and moment of Stop. |
| Page.PublicationBlockReason | public/index.html:1716-1744 | There is no reason to keep a run local if and only if it is shared, complete, exhaustive, unstopped, on the own target, on all paths and with the GREASE pair it was configured with; a stopped run always has one. |
| Signals.EffectSums | public/index.html:1414-1429 | With and without an option add up to the totals, also among the ready cases. |
| Signals.SignalLists | public/index.html:1437-1456 | With some case ready, "ready only with" names exactly the axes in every ready option set, "ready only without" exactly those in none, and no axis is on both. |
| Signals.SignalText | public/index.html:1431-1456 | The text for each case: none ready, all ready, the titles on one list, on both, on neither. |
| Signals.HalfOnEachSide | public/index.html:1414-1429 | On the full power set of n axes each side of each effect has 2^(n-1) cases. |
| Rows.PathRow | public/index.html:1409-1412 | Filtering a full run by a path gives exactly that path's case per variant. |
| Rows.MatrixAccepted | public/index.html:1615-1655 | The option matrix the page publishes is accepted and kept by mask. |
| Rows.RowMatrixAgrees | public/index.html:1642-1655 | The stored entry of each mask has the options and published stages of the case of that mask, and every case has its entry. |
| Rows.UnavailableCounts | public/index.html:1463-1466 | The page counts a missing datagram API among ready cases, the store over the matrix: the same number. |
| Rows.SignalsAgree | scripts/result-store.mjs:434-453 | The store, looking up each label by key, derives the very text the page shows. |
| Rows.EffectsAreOfMatrix | public/index.html:1414-1429 | The published effects are those of the published matrix. |
| Agreement.RunExhaustive | public/index.html:1843-1984 | Variants, run and report of the page in sequence. |
| Agreement.GreaseAgrees | scripts/result-store.mjs:351-406 | The pair is accepted if and only if no probe that ran was interrupted after ready, and the verdicts agree if and only if both probes ran or there is no API. |
| Agreement.PublishedIsAccepted | public/index.html:1683-1744 | For every configuration, outcome assignment and moment of Stop: a published payload is accepted if and only if no probe was interrupted (and the pair is there if required); what is stored is what the page shows, entry by entry, under the family of the browser's name with the leading digits of its version; the verdicts agree if and only if Stop was not pressed between the probes. |
| Agreement.UnstoppedRunAgrees | scripts/result-store.mjs:165-193 | A full run with its full pair, never stopped, is published, accepted and stored as shown, verdict included. |
| Agreement.StopBetweenProbesReadsAsAffected | public/index.html:1787-1798 | Stop after a good control: the page has no verdict, the store records "affected". |
| Agreement.ListsCoincide | public/index.html:548-627 | The paths, keys and labels written out in the page are those written out in the store. |
| Agreement.DeployedAgreement | scripts/result-store.mjs:165-193 | The agreement theorem, all clauses, for the page with its own lists and the store with its own. |
| Agreement.FirefoxIsFiledAsFirefox | public/index.html:1687-1690 | A published result of Firefox 143.0 is stored under "firefox" with version "143". |
| Agreement.ChangedExactly | scripts/result-store.mjs:115-145 | Two publications of one browser family: the second is answered `changed` if and only if the two stored results differ in more than the time of receipt. |
| Agreement.DeployedSizes | public/index.html:589-627 | The deployed axes and paths give 128 or 256 cases. |
| EndToEnd.StoredMatrixIsWhatHappened | public/index.html:1211-1292 | For every published run, path and mask: the stored entry has the options of the mask and, stage by stage, what happened in the case of that path and mask, which is case number path times variants plus variant. |
| EndToEnd.StoredNumbersAreWhatHappened | public/index.html:1340-1407 | The stored metrics of every published run are numbers of cases in which something happened, and the stored conclusion follows from what happened in some case or in none. |
| EndToEnd.StoredGreaseIsWhatHappened | public/index.html:1766-1809 | The stored pair of every published run that ran both probes unstopped is what happened to the first and to the second probe, and the verdict compares the two. |
| EndToEnd.NoStopSeen | public/index.html:1716-1744 | In a published run of a browser with the API no case saw Stop. |

## Left out

- TokioQuiche.EchoLoop.SendOnFreshStream: does not model the 64-bit wrap-around of the server stream id counter, which no connection reaches.
- QuinnEcho.SendStream.Drop: what a dropped stream shows is taken from quinn's documentation; `finish` is taken to succeed, as it does on a stream neither finished nor reset before.
- ResultStores.ResultStore.RenameTemporary: a rename either takes effect and succeeds or fails without effect.
- Rows.UnavailableCounts: stated for cases a run can produce, the only ones the page counts.
- Page.RunOne: each echo probe is an outcome; what `testDatagram`, `testBidi` and `testUni` do with the browser API is not modelled.
- EchoChain.TokioBidiEcho: assumes that what is queued is sent.
- HealthClient.RunCall: takes from the library that streams are given out once and that the events derived from data of a stream with an echo on it concern that stream (`HealthClient.Keeps`), and speaks of calls made before the connection ends.
- `queue_stream_send` is a FIFO of commands; a short `stream_send`, which the code logs and does not retry, is outside.
- Datagram loops of the two Rust backends: verbatim forwarding.
- `expected_session_id` of the quinn backend is only logged, so no session check is claimed for the Rust backends.
- Header names and values are ASCII strings; lossy decoding of other bytes and Unicode case folding are outside.
- A CONNECT status is compared as a number; a status that is not numeric reads as none.
- Server streams of the aioquic backend are named by creation order; their ids are chosen inside aioquic.
- Raw JSON is modelled by the fields the store reads; JSON text, objects with getters, and `String(version)` of a version that is not text are outside.
- The store's log lines are structured values; their English wording and `display` are outside. A stored result without an option matrix, which only an older file could hold, is outside.
- `snapshot()` sorts and reverses for display; `resolveResultFile` and `browserKeyForSubmission` only pick values.
- A load that runs while a record is in progress; the server loads once, before it listens.
- Masks are mathematical integers: the 32-bit shifts of JavaScript matter from 32 axes on, the code has five.
- Wording of the page's conclusion, rendering, browser detection, timeouts, query strings.
- scripts/serve-page.mjs, certificate handling, command lines, logging, shell scripts and deployment files.
- QUIC, TLS and HTTP/3 inside quinn, h3, tokio-quiche, quiche and aioquic: ordered per-stream delivery and an event source here.
