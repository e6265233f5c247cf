# Verification of the cFE SNTP server and its test tools

A model, with proofs, of the SNTP server application for cFE (`fsw/src`) and of the standalone
test client and server (`tools`). Three parts build on each other:

* **Timestamps and packets.** `Words`, `Timestamps` and `Packets` give the 32-bit arithmetic of
  `getCurrentSntpTime` and of the conversion macros (for every workable scale, then for 4295),
  the era rollover of 2036, byte order on both kinds of host, and the packet in the format of
  section 4 of RFC 4330. `SntpUtils` holds the C functions themselves, writing through pointers.
* **The application.** `SntpApp` is the global data of the application as a class whose methods
  update it in place, up to the run loop. Each method is proved against the functions of
  `AppSpec`; `AppRefinement` and `AppProperties` prove those against a reference told from the
  inputs alone: a trace of what happened, unbounded counts, and cuts at resets. `AppInterface`
  tells the same from the raw messages and datagrams, in the numbers of the interface.
  `ServerTool` does the same for the test server and compares the two.
* **The exchange.** `Network` is a step system of any number of clients and servers over a network
  that loses, duplicates, delays and reorders datagrams, in true time. `ExchangeSafety` proves its
  invariant, `Accuracy` the arithmetic of the clock offset of section 5 of RFC 4330, and `EndToEnd`
  puts them together. `StaleReplies` says exactly when a client can be misled. `ClientTool` is the
  client program, and `Deployment` ties the step system to it and to the application, over runs.
  `Lifecycle` says what begins and ends a query and a server's handling, and that every exchange
  can happen.

Inputs from outside are parameters: what `recvfrom` delivers, whether `sendto` succeeds, what the
bus delivers and whether a poll succeeds, and what the clock reads. Constants of the coreSNTP
library, which is not part of this model, are those of section 4 of RFC 4330 (48-byte packet) and
section 6 of RFC 5905 (epoch shift 2208988800 s), with 4295 fraction units per microsecond (2^32 /
10^6 rounded up). cFE's base for command message ids (0x1800) and the size of a command header (8)
are its defaults. What the constants amount to on the wire and in the interface is stated in plain
numbers: `Timestamps.StampReading`, `Packets.RequestLayout`, `Packets.AcceptsBytes`,
`AppInterface.MessageDispatch`, `AppInterface.RepliesOnWire`.

Main results:

* An accepted reply measures the true offset of the clocks to within half the network time, half
  the random perturbation of the transmit time, and a rounding of less than 1 ms + 7.607 us for
  POSIX clocks on both sides, 1 ms for cFE time on the server (`EndToEnd.EndToEndAccuracy`,
  `Accuracy.PosixRounding`, `Accuracy.CfeServerRounding`). The bound is sharp to 1 ns
  (`Accuracy.PosixRoundingIsSharp`). The time the client shows is that of the server's clock when
  it sent the reply (`EndToEnd.ServerTimeIsDeparture`).
* The accuracy rests on the transmit stamps of one client's queries being distinct, which the code does not
  ensure. The condition is exact: of two queries of one client, the second can accept a reply that
  was not made for it if and only if both have the same stamp on the wire and are not the same
  question at the same instant (`StaleReplies.StaleAcceptance`). With equal perturbations a POSIX
  client's stamps are equal if and only if the two clock readings show the same millisecond of
  seconds that agree modulo 2^32 (`StaleReplies.StaleWithinMillisecond`,
  `Timestamps.StampCollision`); two queries 1 ns apart are an instance
  (`StaleReplies.StaleReplyAccepted`). What holds without any assumption on stamps is
  `ExchangeSafety.AcceptedReplyWasMade`.
* Over every run a query accepts at most one reply, and is over with the first datagram its client
  receives, good or bad (`Lifecycle.OneAcceptanceAQuery`, `Lifecycle.QueryEnds`); a server's reply
  carries the clock readings of the instants it took and answered the datagram, and a request whose
  reply could not be sent is never answered (`Lifecycle.TakenThenAnswered`,
  `Lifecycle.AnswerEndsHandling`).
* Over every run the application's counters, housekeeping payloads, replies and events are those of
  the reference trace (`AppRefinement.RunRefinesTrace`). Told from raw messages and datagrams, the
  five counters, the event log and the bytes on the wire are those of
  `AppInterface.CountersFromInputs`, `AppInterface.EventLog` and `AppInterface.RepliesOnWire`.
* Two more exact conditions: the 32-bit seconds are decoded correctly if and only if
  they lie in 1968-2104 (`Timestamps.EraRollover`), and the two servers send the same bytes if and
  only if the tool runs at stratum 15 or nothing is sent (`ServerTool.TwoServersAgree`).

Where comments and code of the repository disagree the code is followed: the "fractions value" that
must stay below 1000 (`core_sntp_config.h:45`) is the macro's millisecond argument; an unknown
command code is found only by the `default` case (`sntp.c:369`), so it raises an event and changes
no counter; `SNTP_PROCESS_CC` is declared but handled as unknown; a failing poll of the pipe raises
no event although an event id for it exists. `FRACTIONS_TO_MS` does not fit cFE's subseconds, of
which a microsecond has fewer than 4295: the millisecond it gives is one too small exactly when they
fall short of its scaled fraction, as at a full 1 ms (`Timestamps.CfeMilliseconds`).

The lines that `process_sntp_request` and `run_sntp_server` have in common, from the first clock
read to the second, are one method here, `SntpUtils.FillResponse`.

## Model

| member | source | states |
|---|---|---|
| Words.StoreLoad | fsw/src/sntp_utils.c:73-79 | memory keeps the words of a struct on big- and little-endian hosts, and any four bytes are the image of one word |
| Words.NetworkOrder | fsw/src/sntp_utils.h:9-12 | after htonl a word lies in memory most significant byte first on either host, and ntohl reads it so, byte by byte |
| Words.StoreAllNetworkOrder | fsw/src/sntp_utils.h:9-12 | the same for a whole run of struct fields |
| Timestamps.FractionAdjunction | fsw/src/core_sntp_config.h:40-48 | for every workable scale, FRACTIONS_TO_MS inverts MILLISECONDS_TO_SNTP_FRACTIONS on 0..999, stays in 0..999, and the two form an adjunction |
| Timestamps.RoundDownToMs | fsw/src/core_sntp_config.h:40-48 | fraction to ms and back gives the greatest representable fraction not above it |
| Timestamps.MsLimitIsExact | fsw/src/core_sntp_config.h:43-48 | the macro is strictly increasing on 0..limit if and only if the limit is below 1000 |
| Timestamps.QuantisationBound | fsw/src/sntp_utils.c:61 | for every nanosecond value and workable scale, the fraction is less than 1 ms early and late at most by the scale's excess |
| Timestamps.EraRollover | fsw/src/sntp_utils.c:60 | the 32-bit sum followed by the top-bit rule of section 3 of RFC 4330 returns the Unix second if and only if it is from -61505152 to 4233462143, that is, from January 1968 to February 2104 |
| Timestamps.ModularDifference | fsw/src/sntp_utils.c:60-61 | the signed 64-bit modular difference of two stamps is the true one if and only if that fits, across eras |
| Timestamps.StampIsUnits | fsw/src/sntp_utils.c:43-62 | a stamp, in both clock variants, is the unbounded count of 2^-32 s since 1900 modulo 2^64 |
| Timestamps.UnitsMonotone | fsw/src/sntp_utils.c:53-62 | truncation and scaling keep the order of clock readings, across second boundaries |
| Timestamps.StampReading | fsw/src/sntp_utils.c:43-62 | seconds and fraction of a reading in plain numbers: 70 years with 17 leap days added modulo 2^32, the millisecond times 4295000 and back, or the subseconds |
| Timestamps.CfeMilliseconds | tools/client_test.c:179 | FRACTIONS_TO_MS of cFE's subseconds is the millisecond, or one less exactly when they fall short of its scaled fraction |
| Timestamps.ReadingsInOrder | fsw/src/sntp_utils.c:43-62 | readings of a clock are in order if and only if the instants are, while a cFE clock's seconds do not wrap |
| Timestamps.StampCollision | fsw/src/sntp_utils.c:43-62 | two instants get one stamp if and only if their seconds agree modulo 2^32 and the millisecond (POSIX) or nanosecond (cFE) is the same |
| Timestamps.StampErrorBound | fsw/src/sntp_utils.c:43-62 | how early and how late the stamp of an instant can be, for POSIX and for cFE clocks |
| SntpUtils.GetCurrentSntpTime | fsw/src/sntp_utils.c:43-62 | the fields receive the stamp of the reading, equal to its unbounded value modulo 2^64; a failed read changes nothing |
| SntpUtils.EncodeTime | fsw/src/sntp_utils.h:9-12 | the output fields lie in memory in network order, also when input and output are the same struct |
| SntpUtils.DeserializeRequest | fsw/src/sntp_utils.c:69-81 | fails exactly on a null pointer; otherwise sets mode and transmit time to what the wire says and no other field |
| SntpUtils.FillResponse | fsw/src/sntp.c:90-114 | the filled struct's memory is the reply of the wire format, on either host |
| Packets.ImageOverlay | fsw/src/sntp_utils.c:73 | struct and 48-byte memory image determine each other in both directions on either host |
| Packets.PrintParse | fsw/src/sntp_utils.c:69-81 | printer and parser of the wire format undo each other in both directions |
| Packets.ImageIsPrint | fsw/src/sntp.c:90-117 | a struct with its words in network order is in memory the wire format, whatever the host |
| Packets.OverlayTransmitTime | fsw/src/sntp_utils.c:78-79 | ntohl of the overlaid transmit words is the wire's transmit time |
| Packets.StampPositions | fsw/src/sntp.c:94-114 | origin, receive and transmit stamps are bytes 24-31, 32-39 and 40-47 |
| Packets.FieldPositions | fsw/src/sntp.c:90-117 | where the header, root delay, root dispersion, reference id and reference time lie on the wire |
| Packets.ReplyImage | fsw/src/sntp.c:90-117 | the reply image does not depend on the host's byte order |
| Packets.WireEcho | fsw/src/sntp.c:105-106 | reply bytes 24-31 are request bytes 40-47 for every 48-byte request |
| Packets.ReplyLayout | fsw/src/sntp.c:90-117 | every byte of the reply, given outright |
| Packets.RequestLayout | tools/client_test.c:125-133 | every byte of the request: 0x23, 39 zeros and the transmit time |
| Packets.AcceptsBytes | tools/client_test.c:163-169 | acceptance of any 48 bytes as a condition on bytes 0, 1, 24-31 and 40-47, and on no others |
| Packets.AcceptsReply | tools/client_test.c:163-169 | a client accepts what a server made of a request if and only if the request carried its transmit time, the stratum is not 0 and the departure stamp is not zero |
| Sockets.RecvFrom | fsw/src/sntp.c:180 | the number returned and each byte of the buffer: a datagram is cut to 48 bytes, a shorter one leaves the old tail, an error leaves all of it |
| SntpApp.App.ProcessSntpRequest | fsw/src/sntp.c:86-124 | one reply, to the sender, made of the buffer and the two clock reads; none and an error status if the send fails |
| SntpApp.App.VerifyCmdLength | fsw/src/sntp.c:447-476 | true exactly for the expected length; otherwise one event and one command error |
| SntpApp.App.Noop | fsw/src/sntp.c:412-422 | new state: one more command, one event |
| SntpApp.App.ResetCounters | fsw/src/sntp.c:432-440 | new state: all counters zero, one event, nothing else changed |
| SntpApp.App.ReportHousekeeping | fsw/src/sntp.c:389-405 | new state: the packet holds the counters and is sent |
| SntpApp.App.ProcessGroundCommand | fsw/src/sntp.c:342-378 | new state after a ground command of any code and length |
| SntpApp.App.ProcessCommandPacket | fsw/src/sntp.c:311-335 | new state after a message of any id |
| SntpApp.App.Iterate | fsw/src/sntp.c:158-195 | one iteration of the run loop is one step of the specification |
| SntpApp.App.Init | fsw/src/sntp.c:213-301 | the steps are attempted in order up to the first failure, the housekeeping payload is cleared once events are registered, and the startup event is sent if and only if all succeed |
| SntpApp.App.RunApp | fsw/src/sntp.c:131-206 | after a failed initialisation nothing is received or sent; otherwise the state is that of the specification's run |
| AppInterface.MessageDispatch | fsw/src/sntp.c:311-476 | event, counters and payload for every message id, code and size, in the numbers of the interface |
| AppInterface.EventLog | fsw/src/sntp_events.h:28-35 | over every run, the event ids are 1 and then those of the messages taken, in order |
| AppInterface.CountersFromInputs | fsw/src/sntp.c:158-195 | over every run, each of the five counters counted from raw messages and datagrams since the last reset; the datagram of the reset's own turn counts |
| AppInterface.RepliesOnWire | fsw/src/sntp.c:86-124 | over every run, the bytes sent: 0x24, 15, 22 zeros, the echoed bytes and the two stamps |
| AppInterface.TakesOldest | fsw/src/sntp.c:166-177 | a turn handles the oldest message if and only if there is one and the poll succeeds |
| AppRefinement.RunRefinesTrace | fsw/src/sntp.c:158-195 | over every run, counters, payloads, replies and events are those of the trace of the inputs |
| AppRefinement.CounterRefinement | fsw/src/sntp_msg.h:61-68 | each counter is the unbounded count of its class since the last accepted reset, modulo its width |
| AppRefinement.ReplyConservation | fsw/src/sntp.c:182-186 | replies since the last reset equal SntpReqRcv - SntpBadRequests modulo 2^16, and exactly if and only if both counters have wrapped equally often, as they have while fewer than 2^16 requests came |
| AppRefinement.CommandEventAgreement | fsw/src/sntp.c:412-476 | both command counters can be told from the events since the last reset event |
| AppRefinement.CountersUnchanged | fsw/src/sntp.c:311-378 | which messages leave the counters as they are, in both directions |
| AppRefinement.ReplyLog | fsw/src/sntp.c:180-193 | the replies are the in-order answers to the full-size datagrams whose send succeeded, each to its sender |
| AppRefinement.RepliesIgnoreHistory | fsw/src/sntp.c:55 | two runs with equal socket traffic send equal replies, whatever their earlier history, buffers and commands |
| AppProperties.TelemetryReconstruction | fsw/src/sntp.c:389-403 | each payload is the tally of exactly what came before its request, without the datagram of its own iteration |
| AppProperties.TelemetryDifference | fsw/src/sntp_msg.h:61-68 | payload differences are the numbers of occurrences between them modulo the widths, exactly while they fit |
| AppProperties.PacketHoldsLastPayload | fsw/src/sntp.c:394 | over every run the housekeeping packet holds the last payload sent |
| AppProperties.ResetErasesHistory | fsw/src/sntp.c:361-367 | after an accepted reset, counters and later payloads depend only on what came after it |
| AppProperties.OnlyAcceptedResetErases | fsw/src/sntp.c:361-367 | a message erases the history if and only if it is a reset of the right length; one of the wrong length counts as a command error |
| AppProperties.CommandsFifo | fsw/src/sntp.c:166-180 | commands are handled first in first out, each once and none lost, at most one a turn; every turn receives from the socket once |
| AppProperties.PipeAccepts | fsw/src/sntp.c:251 | the pipe accepts arrivals in order, as many as 32 leave room for |
| AppProperties.BoundedDrain | fsw/src/sntp.c:158-195 | n pending commands are handled in order in n turns, and the pipe is empty if and only if as many turns have passed |
| AppProperties.ClockOrder | fsw/src/sntp.c:93-114 | with a clock that does not run backwards all server stamps on the wire are in order, shown by signed differences across seconds and eras |
| ServerTool.Tool.RunSntpServer | tools/server_test.c:92-147 | status and reply for every kind of receive, independent of what the buffer held; success if and only if a reply was sent |
| ServerTool.ToolStatusSays | tools/server_test.c:102-146 | each status against the number recvfrom returned and the outcome of sendto |
| ServerTool.Tool.Serve | tools/server_test.c:162-164 | what the loop sends is the in-order answers |
| ServerTool.TwoServersAgree | tools/server_test.c:92-147 | both servers send identical replies if and only if the tool's stratum is 15 or nothing is sent; timeouts and commands do not matter |
| ClientTool.Client.RunSntpQuery | tools/client_test.c:117-188 | every byte that is sent, and the result for every kind of receive, independent of what the shared buffer held |
| ClientTool.OutcomeSays | tools/client_test.c:135-169 | each result against the outcome of sendto, the number recvfrom returned and acceptance |
| ClientTool.AnswerReadsWire | tools/client_test.c:163-181 | the time shown is bytes 40-47 of the response, and the offset is made of bytes 32-47 and the client's own times |
| Accuracy.PerturbedCollision | tools/client_test.c:118-129 | two transmit times are equal on the wire if and only if the perturbations make up for the difference of the stamps |
| Accuracy.OffsetError | tools/client_test.c:163-169 | the offset errs by half the asymmetry of the delays, half the perturbation and a bounded rounding |
| Accuracy.OffsetAccuracy | tools/client_test.c:163-169 | the offset is within half the network time plus rounding plus half the perturbation of the true one |
| Accuracy.OffsetWithinMeasuredDelay | tools/client_test.c:163-169 | the same with the delay the client can compute itself |
| Accuracy.NetworkTimeIsMeasured | tools/client_test.c:163-169 | the delay the client can compute is the network time up to perturbation and stamp errors, on either side |
| Accuracy.PosixRounding | fsw/src/sntp_utils.c:53-62 | the rounding with POSIX clocks is between 1 ms and 1 ms + 7.607 us |
| Accuracy.CfeServerRounding | fsw/src/sntp_utils.c:43-50 | the rounding is 1 ms with cFE time on the server and one unit of 2^-32 s with cFE time on both sides |
| Accuracy.PosixRoundingIsSharp | fsw/src/sntp_utils.c:61 | an instantaneous exchange whose offset is wrong by the whole rounding of POSIX clocks but 1 ns |
| ExchangeSafety.Reachable | tools/client_test.c:117-188 | the invariant of the network holds in every reachable state |
| ExchangeSafety.AcceptedReplyWasMade | tools/client_test.c:145-169 | an accepted reply was made of a datagram of a query of the same client with the same stamp, between that query and the acceptance |
| ExchangeSafety.ExchangeIsSafe | tools/client_test.c:117-188 | with distinct stamps it was made by the queried server of that very query, its clock reads between the client's |
| EndToEnd.OwnReplyAccepted | tools/client_test.c:145-169 | the reply to a query's own datagram comes back to its client and is accepted if and only if the departure stamp is not zero |
| EndToEnd.EndToEndAccuracy | tools/client_test.c:123-169 | over every run, the result of an accepted reply is the server's departure stamp and the offset of the exchange, which is accurate |
| EndToEnd.ServerTimeIsDeparture | tools/client_test.c:175-181 | over every run, with no assumption on stamps, the time shown is that of the clock of the server that made the reply, when it did: its seconds modulo 2^32 and its millisecond |
| StaleReplies.StaleAcceptance | tools/client_test.c:118-169 | some run makes a client's second query accept a reply not made for it if and only if both queries have one stamp and differ in instant or server |
| StaleReplies.StaleWithinMillisecond | tools/client_test.c:118-169 | the same in terms of the two clock readings, for equal perturbations |
| StaleReplies.StaleReplyAccepted | tools/client_test.c:118-145 | an instance: unperturbed queries 1 ns apart |
| Deployment.ServerRunsApplication | fsw/src/sntp.c:158-195 | over every network run, a server's replies are those of the application's run on the datagrams it handled, and its clock readings never run backwards over it unless a cFE clock's seconds wrap |
| Deployment.HearingIsAnswering | tools/client_test.c:145-169 | hearing a datagram is accepting it if and only if the client program's result is an answer |
| Deployment.ClientRunsProgram | tools/client_test.c:117-188 | over every network run, each acceptance is an answer of the client program to the request it serialized |
| Lifecycle.OneAcceptanceAQuery | tools/client_test.c:145-155 | over every run, a query accepts at most one reply, however often replies are delivered |
| Lifecycle.QueryEnds | tools/client_test.c:135-155 | over every run, once the client has received anything, or failed to receive or send, nothing is accepted for that query or an earlier one |
| Lifecycle.AskedThenHeard | tools/client_test.c:118-169 | from any state and under any interleaving, the first datagram heard decides the query, with the clock readings of asking and hearing |
| Lifecycle.TakenThenAnswered | fsw/src/sntp.c:180-193 | from any state and under any interleaving, the reply is made of the datagram taken and the clock readings at taking and answering |
| Lifecycle.AnswerEndsHandling | fsw/src/sntp.c:116-120 | after answering, sent or not, a server handles nothing until it takes another datagram |
| Lifecycle.EveryExchangeHappens | tools/client_test.c:117-188 | for any clocks, perturbation and delays there is a run in which the exchange takes place, accepted if and only if the departure stamp is not zero |
| Lifecycle.EnabledInReachable | tools/client_test.c:135-155 | which steps are possible in a reachable state |
| Lifecycle.NothingForgotten | tools/client_test.c:145 | datagrams under way and the record of the past are kept by every run, so any datagram can be delivered again |

## Left out

- Socket creation, binding and options, and the bodies of `recvfrom` and `sendto`: their outcomes are parameters.
- cFE services: event text, system and performance logs, message headers and time stamps of telemetry; only event ids, a FIFO pipe of depth 32 and the run loop's contract are kept.
- SntpUtils.FillResponse: assumes both clock reads succeed, because after a failed first read the C code sends an uninitialised timestamp, of which nothing can be said.
- ClientTool.Client.RunSntpQuery: serializing and interpreting packets follow section 5 of RFC 4330, because coreSNTP's serializer is not part of this model; its millisecond offset is not modelled. The check that the leap indicator differs from 0 is not made: read literally it would reject every reply of a server that reports no leap second.
- Packets.AcceptsReply: the client passes no address to `recvfrom`, so no check of the sender is made; ExchangeSafety.ExchangeIsSafe therefore assumes that only the servers send to clients and nobody sends in a client's name.
- Accuracy.OffsetAccuracy: true time is a whole number of nanoseconds, the resolution of `clock_gettime`, and clocks do not drift; cFE subseconds are taken as units of 2^-32 s and its epoch as the Unix epoch, as the code does.
- SntpApp.App.ProcessSntpRequest: assumes both clock reads succeed, for the same reason.
- AppProperties.PipeAccepts: the limit cFE sets on the messages of one id pending on a pipe is not modelled; only the depth the application asks for is.
- SntpApp.App.RunApp: an endless run is modelled by all of its finite prefixes.
- Command-line arguments, usage text, logging, version strings and `sntp_util_status_to_str`: only easy properties.
- Tables, `SNTP_Process`, `SNTP_TblValidationFunc`, `SNTP_GetCrc`: declared but not implemented in the repository.
- Authentication, leap-second announcement and Kiss-o'-Death replies: the servers implement none of them.
