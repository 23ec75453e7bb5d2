# Models and proofs for the CDI SDK core

This project models the parts of the Cloud Digital Interface SDK whose correctness is hardest to see from the code,
and proves what they are for.

* **Ancillary data codec** (section 2.1 of RFC 8331). The reference is a dense bit stream, most significant bit first:
  header fields, then DID, SDID, data count, user data words and checksum as consecutive 10-bit words, then zero bits
  up to a whole 32-bit word (`AncPacket`). The five-phase writer and parser (`AncWriter`, `AncParser`) are proved
  to write and to read exactly that stream. Above it stand the payload as a list of packets (`AncPayload`), the public
  interface with its two-pass decoder and scattered input (`AncApi`), what the code detects and accepts (`AncIntegrity`,
  `AncBitErrors`), and what the consumer is told about errors (`AncErrors`).
* **EFA probe**. `ProbeTx` and `ProbeRx` give the reactions of transmitter and receiver, `ProbeControl` is the
  imperative form of the same code and is proved equal to them, method by method, up to the loop of the control
  thread. `ProbeSystem` lets both run over a channel that drops, duplicates and reorders, with an Endpoint Manager that
  posts whatever it is allowed to post. `ProbeRounds` proves that whole rounds of two control threads are
  sequences of steps of that system. `ProbeContracts` says what each handler keeps and promises, whatever its cases.
  `ProbeAnswers` says what each packet that is read leads to in a whole round. `ProbeAck` is about packet numbers,
  `ProbeTiming` about clocks, `ProbeWatch` about a connected receiver, `ProbeSilence` about a peer that no longer answers,
  `ProbeBurst` about the probe burst, `ProbeTellings` about the number of notifications. The order of notifications after a reset is in `ProbeOrder`, for single steps, and in
  `ProbeCarried`, `ProbeDisorder` and `ProbeBreaks`, for rounds of the threads. The runs constructed there and in
  `ProbeExamples` are runs of whole rounds (`ProbeMoves`), in which a probe packet arrives or is acknowledged only if it
  was queued.
* **Transmit in flight**. `InFlight` is the reference count of an endpoint, `PollThread` the sleep and wake-up protocol
  built on it without a lock, `PollSleep` when the thread sleeps and that no connection is left out.
* **Baseline configurations**. Printing and parsing of video and audio configurations of profile versions 01.00 and
  02.00 (`BaselineVideo`, `BaselineAudio`, `BaselineProfile`), over the C text functions they use (`Text`) and the
  tables of names (`BaselineKeys`). Beyond round trips: parameters in any order (`BaselineOrder`), what any text means and
  which texts are rejected (`BaselineMeaning`, `BaselineAudioMeaning`, `BaselineStatus`), and whole printed texts
  (`BaselineTexts`).
* **Receive buffers**. Memory layout (`RxBuffers`) and conservation (`RxConservation`).

Conventions. Imperative code is a method or a class, proved against a function; theorems are lemmas about that function.
Constants whose values do not matter for a property (retry counts, timeouts, the size of the probe burst) are positive
and otherwise unknown. Every lemma switches automatic induction off, so that each induction is written out in its body.

## What the code does not do

These are results about the code as it is.

* A payload of more than 65535 packets is written with a truncated count and is then rejected as a whole:
  `AncPayload.RoundTripIff`.
* An acknowledgement that is 2^16 packets old and names the same command as the pending one is taken for it.
  `ProbeExamples.StaleAckAccepted` gives a run; `ProbeAck.AcceptedIff` says exactly which acknowledgements are accepted.
* A video configuration whose frame rate does not fit (a number above INT_MAX, or a denominator other than one and more
  than 18 digits in both numbers) is printed without error, but the text is not sure to read back: for a number above
  INT_MAX the C language does not say what atoi returns, and otherwise the denominator has lost digits.
  `BaselineVideo.VideoRoundTrip` is an equivalence. The text of a language with a delimiter, or with characters behind a
  zero character, does not read back (`BaselineAudio.AudioRoundTrip`), nor does version 0.0, which prints as 01.00
  (`BaselineProfile.ConfigurationRoundTrip`).
* The order of the Connected notifications holds over the whole run, but not anew after each reset.
  `ProbeExamples.ConnectedAfterResetAlone` gives a run of the two control threads in which it fails: an acknowledged Ping
  leads to Connected from any state. `ProbeBreaks.OrderBreaksIff` says after which moments it can fail, for runs of whole
  rounds: exactly when the transmitter is in EfaConnected or EfaTxProbeAcks, has a move to Connected in its queue, or has a
  Ping pending, repeated or not, whose acknowledgement it can still read: nothing in front of it makes it send Reset, and
  the receiver has answered or can answer before its application is told Connected.
* Receive buffers are conserved exactly while posting succeeds; each failed post loses a buffer
  (`RxConservation.BuffersConserved`, with `RxConservation.FailedPostLoses` for one buffer).

## Model

| member | source | states |
|---|---|---|
| AncPacket.Parity8IsOddOnes | src/cdi/anc_payloads.h:86-93 | The shift into the constant 0x6996 computes the parity of the number of one bits of a byte. |
| AncPacket.WithParityIsOk | src/cdi/anc_payloads.h:102-106 | A byte with its parity bits added passes the parity check and keeps its value. |
| AncPacket.ParityOkIsOnBits | src/cdi/anc_payloads.h:116-123 | The parity check, on the bits of the word; exactly the words made by adding parity bits pass it. |
| AncPacket.ParityDetectsFlip | src/cdi/anc_payloads.h:116-123 | No two 10-bit words with correct parity differ in exactly one bit. |
| AncPacket.FinishIdempotent | src/cdi/anc_payloads.c:184-191 | Finishing a finished checksum changes nothing, and bit 9 is the complement of bit 8. |
| AncPacket.PacketSize | src/cdi/anc_payloads.c:514-520 | The word count is the least one that holds 72 bits and ten bits per user data word, and is at least 3. |
| AncPacket.ReadBack | src/cdi/anc_payloads.c:489-512 | Reading the stream of any packet, whatever follows it, gives the packet, no parity error and a matching checksum. |
| AncPacket.Canonical | src/cdi/anc_payloads.c:489-512 | A stream that shows no error is, up to the padding, the stream of the packet it denotes. |
| AncWriter.AncillaryDataPacket.constructor | src/cdi/anc_payloads.c:574-588 | The packet the code works on, with room for four words past the last user data word, all zero. |
| AncWriter.NextPhase | src/cdi/anc_payloads.c:340-433 | From each of the five phases the next one is 32 bits further in the stream. |
| AncWriter.WriteStep | src/cdi/anc_payloads.c:340-433 | A 32-bit word made of the rest of one 10-bit word, two whole ones and the leading bits of a fourth continues the dense stream. |
| AncWriter.WriteNextUdws | src/cdi/anc_payloads.c:340-433 | Each phase writes the next 32 bits of the dense stream, advances the running checksum and leaves every other word alone. |
| AncWriter.ChecksumAdvances | src/cdi/anc_payloads.c:311-328 | Adding a user data word once takes the sum of the words before it to the sum including it. |
| AncWriter.ChecksumUdw | src/cdi/anc_payloads.c:311-328 | Yields the user data word, then the checksum, then zeros; the running sum has each word exactly once, however often a word is visited. |
| AncWriter.WriteAncillaryDataPacketHeader | src/cdi/anc_payloads.c:535-572 | The two header words hold the header fields, DID, SDID, count and the two leading bits of the next 10-bit word, and the checksum starts with DID, SDID and count. |
| AncWriter.WrittenIsStream | src/cdi/anc_payloads.c:574-588 | At the first phase boundary past the checksum, what has been written is the whole zero padded stream. |
| AncWriter.WriteAncillaryDataPacket | src/cdi/anc_payloads.c:574-588 | For every packet and any count 0..255 the words written are exactly its dense stream, zero padded; nothing else in the buffer changes; the size returned is that of the size formula. |
| AncParser.CheckParityBits | src/cdi/anc_payloads.h:116-123 | Returns the low eight bits and counts one more error exactly when the parity is wrong. |
| AncParser.RawUdwsOfStream | src/cdi/anc_payloads.c:215-300 | The fields cut from a 32-bit word in each phase are the rest of one 10-bit word of the stream, two whole ones, and the start of the next. |
| AncParser.ParseAndChecksumUdw | src/cdi/anc_payloads.c:194-203 | Completes a split word and extends the parsed prefix by it; user data words, and no others, are added to the checksum. |
| AncParser.ParseNextUdws | src/cdi/anc_payloads.c:215-300 | Each phase extends the parsed prefix of the stream, keeps the sum of the user data so far, and leaves the split word half done. |
| AncParser.ParseAncillaryDataPacketHeader | src/cdi/anc_payloads.c:452-486 | Reads the header fields of the stream, counts its parity errors, and starts the checksum with the three raw words. |
| AncParser.ParseAncillaryDataPacket | src/cdi/anc_payloads.c:489-512 | For all input words the packet parsed is the one the stream denotes; one checksum error exactly when the checksum word does not match; the size is that of the data count read. |
| AncPayload.PublicRoundTrip | src/cdi/cdi_avm_payloads_api.c:105-159 | Adding parity bits and taking them off again is the identity and finds no parity error. |
| AncPayload.InternalRoundTrip | src/cdi/cdi_avm_payloads_api.c:105-142 | User data with correct parity is determined by its low eight bits. |
| AncPayload.DecodeIffWalk | src/cdi/cdi_avm_payloads_api.c:63-95 | The second pass decodes if and only if the walk of the precheck, which looks at data counts only, ends exactly at the end. |
| AncPayload.EncodedPrefix | src/cdi/cdi_avm_payloads_api.c:250-279 | Encoded packets in front of any words decode to themselves without error, and the rest decodes as it would alone. |
| AncPayload.RoundTrip | src/cdi/cdi_avm_payloads_api.c:175-284 | Unpacketizing a packetized list of at most 65535 packets calls the consumer with the same packets in order, the same field kind, no error flag, then with the end, and returns Ok. |
| AncPayload.RoundTripIff | src/cdi/cdi_avm_payloads_api.c:175-284 | A packetized list decodes if and only if it has at most 65535 packets; otherwise InvalidPayload. |
| AncPayload.CallsTile | src/cdi/cdi_avm_payloads_api.c:250-279 | The offsets and sizes given to the consumer tile the payload: the first follows the header word, each next one starts where the last ended, the last ends with the payload. |
| AncIntegrity.SingleBitErrorDetected | src/cdi/cdi_avm_payloads_api.c:213-284 | Flipping any one bit from the DID to the checksum of any packet of a packetized payload makes unpacketizing return InvalidPayload or RxPayloadError, also when a data count changes and the later packets move. |
| AncBitErrors.SingleBitErrors | src/cdi/cdi_avm_payloads_api.c:213-284 | Of all bits of a packetized payload, exactly those of its packet count and those between the DID and the checksum of a packet cannot be inverted unnoticed; field kind, reserved bits, C, line, offset, S, stream number and padding can. |
| AncIntegrity.AcceptsExactlyEncodings | src/cdi/cdi_avm_payloads_api.c:175-284 | A payload with zero reserved and padding bits is unpacketized without error if and only if it is what packetizing some list of packets writes. |
| AncApi.CopyInternalToPublicPacket | src/cdi/cdi_avm_payloads_api.c:105-121 | Copies all fields and the low eight bits of all user data words, and returns the number of words with wrong parity. |
| AncApi.CopyPublicToInternalPacket | src/cdi/cdi_avm_payloads_api.c:129-142 | Copies all fields and adds parity bits to the user data. |
| AncApi.CdiAvmCopyAncillaryDataPacket | src/cdi/cdi_avm_payloads_api.c:153-159 | Copying a public packet by way of the internal form gives the same packet and no parity error. |
| AncApi.CdiAvmGetAncillaryDataPayloadSize | src/cdi/cdi_avm_payloads_api.c:165-173 | The size computed from data counts is that of the payload of any packets with these counts. |
| AncApi.CdiAvmPacketizeAncillaryData | src/cdi/cdi_avm_payloads_api.c:175-210 | Writes exactly the encoded payload and returns its size, or fails: a negative buffer size leaves the buffer alone; an overflow writes the packets that fit, nothing past the given size, and stops at the first that does not fit. |
| AncApi.CopyToLinearBuffer | src/cdi/cdi_avm_payloads_api.c:41-52 | The linear buffer holds the bytes of the fragments in order. |
| AncApi.PrecheckAncillaryDataPayload | src/cdi/cdi_avm_payloads_api.c:63-95 | Ok exactly for the payloads that decode; a size that is not a multiple of four, or below four, is an invalid parameter. |
| AncApi.DecodePackets | src/cdi/cdi_avm_payloads_api.c:250-284 | After the precheck the second pass makes exactly the calls of the reference decoder, and its own InvalidPayload branch is never taken. |
| AncApi.CdiAvmUnpacketizeAncillaryData | src/cdi/cdi_avm_payloads_api.c:213-284 | Status and consumer calls are a function of the bytes alone, however they are fragmented, for well-formed and malformed payloads. |
| AncApi.WordsOfBytes | src/cdi/cdi_avm_payloads_api.c:218-229 | The bytes of a sequence of words are read back as these words. |
| AncApi.DeliveredThroughFragments | src/cdi/cdi_avm_payloads_api.c:213-284 | Whatever fragments carry the bytes of a packetized payload, the consumer receives the packets in order without error, then the end. |
| AncErrors.CallsReport | src/cdi/cdi_avm_payloads_api.c:250-284 | For every payload that decodes, said by positions in the bit stream: one call for each packet, in order and without gaps, with what stands there and a checksum flag exactly if its checksum word does not match; then the end, with a checksum error exactly if some packet has one, and a parity error exactly if some 10-bit word of some packet's header or user data has wrong parity. The status is an error exactly if one of these flags is set. |
| AncErrors.CallsMade | src/cdi/cdi_avm_payloads_api.c:213-284 | Whatever fragments carry the bytes: the consumer is called if and only if the status is Ok or RxPayloadError, its last call is the end, without error flags exactly if the status is Ok, and memory is needed only for fragments in the plural. |
| AncErrors.SingleBitFlags | src/cdi/cdi_avm_payloads_api.c:273-275 | One inverted bit in a packet, from DID to checksum but not in the data count: the payload is delivered with an error status, and the end is told with a parity error unless the bit is in the checksum word, and with a checksum error unless it is bit 9 of another word. So a bit of the checksum gives (no parity error, checksum error), and bit 9 of a user data word (parity error, no checksum error). |
| AncErrors.HeaderBits | src/cdi/anc_payloads.c:523-533 | The two bits of the payload header for each field kind, and the packet count, as they stand in the stream. |
| AncErrors.NetworkOrder | src/cdi/cdi_avm_payloads_api.c:218-229 | The bits of the words read from bytes are the bits of the bytes, in their order. |
| AncErrors.BytesInOrder | src/cdi/cdi_avm_payloads_api.c:175-210 | The bits of the bytes that are sent are the bits of the words, in their order. |
| InFlight.InvKept | src/cdi/adapter.c:1114-1126 | Starting a payload, queuing a packet and completing one keep the count equal to unfinished payloads plus open packets, with no failed assertion. |
| InFlight.CountBefore | src/cdi/adapter.c:1114-1126 | A completion always finds in the count what it takes away, two for the last packet of a payload. |
| InFlight.CountIsWorkInFlight | src/cdi/adapter_api.h:141-146 | For any order of completions the count is the number of unfinished payloads plus open packets, it is zero exactly when every packet of every payload has completed, and the assertions never fail. |
| PollThread.InvKept | src/cdi/adapter.c:440-460 | Work in flight is always announced: by the signal, by a producer that is about to set it, or because the thread has yet to read the count again. |
| PollThread.NoLostWakeup | src/cdi/adapter.c:440-482 | In every interleaving, while the thread sleeps and an endpoint has work in flight whose producers have set the signal, it can wake, and can still until it does. |
| PollThread.SleepsOnlyAnnounced | src/cdi/adapter.c:464-482 | While the thread sleeps, every endpoint with work in flight has its signal set or a producer about to set it. |
| PollSleep.FallsAsleep | src/cdi/adapter.c:426-482 | While polls find nothing, whatever others do in between, the thread can always take another step until it sleeps, and sleeps after a bounded number of them. |
| PollSleep.IdlePassSleeps | src/cdi/adapter.c:462-482 | From the beginning of any pass, the steps of a thread that finds nothing end asleep. |
| PollSleep.QuietPassClears | src/cdi/adapter.c:440-482 | With nothing in flight, an undisturbed idle pass clears every signal, so the thread then sleeps until something is announced. |
| PollSleep.SleepsOnlyWhenIdle | src/cdi/adapter.c:462-482 | In every run the thread falls asleep only at the end of a pass, begun at the first connection, in which every connection was polled or passed over and none had work. |
| PollSleep.EveryConnectionHasItsTurn | src/cdi/adapter.c:462-482 | Whatever its polls find, and whatever others do, each connection is polled or passed over within a bounded number of steps of the thread. |
| ProbeTx.TxRankFalls | src/cdi/adapter_efa_probe_tx.c:372-508 | Every transmitter state that asks for an immediate further step leads to a state of lower rank. |
| ProbeRx.RxRankFalls | src/cdi/adapter_efa_probe_rx.c:327-466 | The same for the receiver, reset and destroy paths included. |
| ProbeBurst.BurstCount | src/cdi/adapter_efa_probe_tx.c:175-201 | In every run, with anything in between, in which only queued packets are acknowledged, and as the packets they are: at most one probe packet is outstanding, the in-flight count is zero exactly when the whole burst is acknowledged, and no assertion on it fails. |
| ProbeBurst.LatestIsOutstanding | src/cdi/adapter_efa_probe_tx.c:98-101 | The mark for the last packet, which lowers the count once more, is on the outstanding packet exactly when that is the last one to be acknowledged. |
| ProbeBurst.ConnectsWhenAcked | src/cdi/adapter_efa_probe_tx.c:460-470 | In every run in which only queued packets are acknowledged, the transmitter queues its move to Connected only when the whole burst since its last start is acknowledged: packets were queued, none is outstanding, and the in-flight count is zero. |
| ProbeThread.ActUntilWait | src/cdi/adapter_efa_probe_control.c:451-459 | The loop over zero waits terminates from every state, with a positive wait. |
| ProbeSystem.InvKept | src/cdi/adapter_efa_probe_rx.c:244-466 | Each step of transmitter, receiver, network and Endpoint Manager keeps the causal invariant between Connected notifications, control packets and queued commands. |
| ProbeSystem.ConnectedInOrder | src/cdi/adapter_efa_probe_tx.c:346-361 | In every run the transmitter's application is told Connected only after the receiver's was, and the receiver's only after EFA_PROBE_PACKET_COUNT probe packets within one start. |
| ProbeTellings.OneTellingPerBurst | src/cdi/adapter_efa_probe_rx.c:142-163 | In every run the receiver's application is told Connected at most as often as a burst of probe packets has been completed. |
| ProbeSystem.NoUnexpectedCommand | src/cdi/adapter_efa_probe_tx.c:362-367 | No run reaches an assertion on an unexpected command, and the transmitter never sends an acknowledgement or Connected. |
| ProbeOrder.ConnectedAnewInOrder | src/cdi/adapter_efa_probe_tx.c:315-361 | From any moment at which the transmitter is not under way to Connected (a late state, a queued move to it, or a pending Ping), whatever single steps follow, its application is told Connected only after the receiver's was told anew, as long as it acts on no Connected packet from before. |
| ProbeDisorder.ThreadsStayInOrder | src/cdi/adapter_efa_probe_control.c:442-463 | The same for whole rounds of two control threads, under a weaker condition: a pending Ping may be left whose acknowledgement the transmitter cannot read any more, because something in front of it makes it send Reset, or because the receiver's application is told Connected before it can answer. |
| ProbeBreaks.OrderBreaksIff | src/cdi/adapter_efa_probe_tx.c:315-318 | That condition is exact for the threads: after any other moment a run of whole rounds, on a data path that invents nothing, breaks the order without acting on an older Connected packet. |
| ProbeBreaks.OldPacketsBreakIff | src/cdi/adapter_efa_probe_tx.c:346-361 | With packets of any age, some run of the threads breaks the order after a moment if and only if the receiver's application had ever been told Connected. |
| ProbeExamples.ConnectedAfterResetAlone | src/cdi/adapter_efa_probe_tx.c:315-318 | A run of two threads from their start, with the whole handshake and burst, in which both sides are reset and then only the transmitter's application is told Connected again, by the acknowledgement of an earlier Ping. |
| ProbeAck.AcceptedIff | src/cdi/adapter_efa_probe_tx.c:243-260 | An acknowledgement is accepted exactly if it names the pending command and its packet is a multiple of 2^16 packets away from it. |
| ProbeAck.AckFresh | src/cdi/adapter_efa_probe_tx.c:243-345 | An acknowledgement of one of the last 2^16 packets is accepted only for the latest packet, which is the pending command, and which the receiver has processed; any other acknowledgement leaves the state unchanged. |
| ProbeAck.AcceptedOnce | src/cdi/adapter_efa_probe_tx.c:243-260 | No command is acknowledged twice. |
| ProbeExamples.StaleAckAccepted | src/cdi/adapter_efa_probe_control.c:79 | A run of two threads from their start leads to a state that accepts an acknowledgement exactly one packet older than AckFresh allows, so that bound is sharp. |
| ProbeTiming.WaitGoesOn | src/cdi/adapter_efa_probe_control.c:442-463 | An ignored packet never brings a deadline forward, although elapsed time is truncated to milliseconds. |
| ProbeTiming.UnansweredCommand | src/cdi/adapter_efa_probe_tx.c:138-169 | From the moment the transmitter enters the state, a Ping or ProtocolVersion command without an answer is sent exactly TX_COMMAND_MAX_RETRIES times and then the connection is reset, no sooner than that many timeouts after the first sending, however many ignored packets interrupt. |
| ProbeTiming.EnteredWithoutRetries | src/cdi/adapter_efa_probe_tx.c:301-302 | The transmitter enters these states with no retries counted. |
| ProbeTiming.UnacknowledgedBurst | src/cdi/adapter_efa_probe_tx.c:460-484 | If the last acknowledgements of the burst stay away, the transmitter goes on waiting without sending anything, and resets the connection after it has looked exactly EFA_TX_PROBE_ACK_MAX_RETRIES times, no sooner than the waits between these looks. |
| ProbeWatch.WatchRound | src/cdi/adapter_efa_probe_rx.c:443-452 | One round of a connected receiver, with the clock: a Ping that is read gives it another timeout; when its time is up it goes on if packets were counted since it looked last, and is destroyed if none were. |
| ProbeWatch.DestroyedOnlyStarved | src/cdi/adapter_efa_probe_rx.c:443-452 | Over any run of rounds with a packet count that never falls: a connected receiver is destroyed only when a whole RX_PING_MONITOR_TIMEOUT_MSEC has brought no Ping and no packet was counted since it looked last. |
| ProbeWatch.FedLives | src/cdi/adapter_efa_probe_rx.c:443-452 | A connected receiver that gets a Ping or a packet in every timeout is never destroyed. |
| ProbeWatch.DestroyedIff | src/cdi/adapter_efa_probe_rx.c:443-452 | A connected receiver is destroyed in exactly the round in which its time is up and its packet count is still that of its last look. |
| ProbeSilence.GivesUpInTime | src/cdi/adapter_efa_probe_tx.c:372-508 | When its peer is silent, the transmitter asks for a reset after a bounded number of timeouts, whatever state it was in; the bound is given for each state. |
| ProbeSilence.GivesUpByReset | src/cdi/adapter_efa_probe_tx.c:372-508 | In the round in which it gives up, it resets its endpoint, tells its application that there is no connection, and sends the first Reset. |
| ProbeSilence.AsksForEver | src/cdi/adapter_efa_probe_tx.c:392-423 | From then on it sends one Reset at each timeout and nothing else, these being at least SEND_RESET_COMMAND_FREQUENCY_MSEC apart. |
| ProbeSilence.DestroyedInTime | src/cdi/adapter_efa_probe_rx.c:327-466 | A receiver that hears nothing and is not resetting its endpoint is destroyed when, and not before, as many timeouts have passed as its state allows. |
| ProbeSilence.AsksUntilDestroyed | src/cdi/adapter_efa_probe_rx.c:366-421 | A receiver that asks its peer for a reset sends one Reset at each timeout but the last, and at the last is destroyed and tells its application that there is no connection. |
| ProbeSilence.ResetsForEver | src/cdi/adapter_efa_probe_rx.c:353-365 | A receiver that waits for the reset of its endpoint sends one Reset at each timeout, no sooner than configured, and nothing else. |
| ProbeAnswers.TxObeysReset | src/cdi/adapter_efa_probe_tx.c:221-242 | A Reset that is read resets the endpoint and is told in every state; the transmitter then waits for its endpoint unless no version is or can be agreed. |
| ProbeAnswers.UnexpectedConnected | src/cdi/adapter_efa_probe_tx.c:346-361 | A Connected packet that was not waited for is answered with one Reset at once, and the application is told. |
| ProbeAnswers.ResetAcknowledged | src/cdi/adapter_efa_probe_tx.c:271-306 | A new peer's acknowledgement of the Reset is answered with the protocol version, once, before anything is started. |
| ProbeAnswers.OldPeerAcknowledges | src/cdi/adapter_efa_probe_tx.c:271-306 | An old peer's acknowledgement of the Reset starts the endpoint if its version is accepted, and otherwise nothing. |
| ProbeAnswers.VersionAcknowledged | src/cdi/adapter_efa_probe_tx.c:306-315 | The acknowledgement of the protocol version starts the endpoint if the version is accepted. |
| ProbeAnswers.PingAcknowledged | src/cdi/adapter_efa_probe_tx.c:315-326 | After the acknowledgement of a Ping nothing is sent before a whole period has passed. |
| ProbeAnswers.NextPing | src/cdi/adapter_efa_probe_tx.c:485-502 | When that period is over, the application is told Connected and the next Ping sent in the same round. |
| ProbeAnswers.RxObeysReset | src/cdi/adapter_efa_probe_rx.c:262-289 | A Reset that is read resets the receiver's endpoint and is told in every state; it is not answered yet, but saved. |
| ProbeAnswers.RxReadsVersion | src/cdi/adapter_efa_probe_rx.c:290-306 | A protocol version that is accepted starts the endpoint and is saved until then; another is ignored. |
| ProbeAnswers.RxStarted | src/cdi/adapter_efa_probe_rx.c:342-352 | When the endpoint is started the saved command is acknowledged, and probe packets are counted from zero. |
| ProbeAnswers.ResetAnsweredWhenDone | src/cdi/adapter_efa_probe_rx.c:327-466 | However long the reset of the endpoint takes, the Reset is not acknowledged before it is done; then it is the first thing acknowledged, for an old peer only after the start. |
| ProbeRounds.TxRoundReaches | src/cdi/adapter_efa_probe_control.c:378-470 | A whole round of the transmitter's thread, arrivals included, is a sequence of steps of the system. |
| ProbeRounds.RxRoundReaches | src/cdi/adapter_efa_probe_control.c:378-470 | The same for the receiver. |
| ProbeRounds.ThreadsRefineSystem | src/cdi/adapter_efa_probe_control.c:378-470 | Any run of two control threads stays within the states the system reaches, so the order of the Connected notifications and the absence of failed assertions hold for the threads. |
| ProbeContracts.SentNumbers | src/cdi/adapter_efa_probe_control.c:248-311 | Every packet has its position among the sender's packets, modulo 2^16, as its number, and a command that needs an acknowledgement becomes the only pending one. |
| ProbeContracts.AckNumbers | src/cdi/adapter_efa_probe_control.c:313-366 | An acknowledgement takes the next number too, and acknowledging a received command leaves no acknowledgement of anything else. |
| ProbeContracts.StartCounts | src/cdi/adapter_efa_probe_control.c:146-180 | After a start nothing is outstanding and nothing has been received, whatever was under way; the in-flight count is that of a payload without packets. |
| ProbeContracts.EnqueueAdds | src/cdi/adapter_efa_probe_tx.c:52-130 | An enqueued probe packet is one more outstanding packet and one more in flight. |
| ProbeContracts.AckedKeeps | src/cdi/adapter_efa_probe_tx.c:175-201 | Acknowledging the outstanding packet, successfully or not, keeps the account of the burst: the next packet replaces it, or the count drops to zero. |
| ProbeContracts.EnabledByBurst | src/cdi/adapter_efa_probe_rx.c:142-163 | The move to Connected is queued only when EFA_PROBE_PACKET_COUNT packets have been received since the last start, and ends the probing. |
| ProbeContracts.ErrorIsTold | src/cdi/adapter_efa_probe.c:180-195 | An endpoint error is told, and starts a reset, exactly if the application was told Connected last; otherwise it changes nothing. |
| ProbeContracts.KnowsWhatItTold | src/cdi/adapter_efa_probe.c:180-195 | In every run, the connected flag of each side is what its application was told last. |
| ProbeControl.ProbeEndpointState.ProbeTxControlProcessPacket | src/cdi/adapter_efa_probe_tx.c:214-370 | Whatever the state: a packet that may arrive keeps the order of the Connected notifications, packet numbers, the account of the burst and the flag for what was told; nothing is sent; an acknowledgement that is not accepted changes nothing. The whole new state is that of the transition system. |
| ProbeControl.ProbeEndpointState.ProbeTxControlProcessProbeState | src/cdi/adapter_efa_probe_tx.c:372-508 | Whatever the state: an action keeps the same invariants, sends at most one packet, which has the next number, and lowers the rank when it asks for another action immediately. The whole new state is that of the transition system. |
| ProbeControl.ProbeEndpointState.ProbeRxControlProcessPacket | src/cdi/adapter_efa_probe_rx.c:244-325 | Whatever the state: a packet that a transmitter sent keeps the invariants of the receiver, tells the application nothing, and leads to acknowledgements of received commands only. The whole new state is that of the transition system. |
| ProbeControl.ProbeEndpointState.ProbeRxControlProcessProbeState | src/cdi/adapter_efa_probe_rx.c:327-466 | Whatever the state: an action keeps the invariants of the receiver, sends at most one packet, Connected only together with the notification, and lowers the rank when it asks for another action immediately. The whole new state is that of the transition system. |
| ProbeControl.ProbeEndpointState.ProcessUntilWait | src/cdi/adapter_efa_probe_control.c:451-459 | The loop ends, in the state that the chain of immediate state changes leads to. |
| ProbeControl.ProbeEndpointState.ProbeControlThreadRound | src/cdi/adapter_efa_probe_control.c:405-463 | One round of the thread: a command or none, the time left of the wait, and the state changes when it is over. |
| Text.AtoiOfDecimal | src/cdi/baseline_profiles_2_00.c:525-546 | Printing a number and converting it back gives the number, as long as it fits in an int. |
| Text.StrTokR | src/cdi/baseline_profiles_2_00.c:465 | Each call returns the next token of the text, and together they return all of them. |
| Text.TokensOfJoin | src/cdi/baseline_profiles_2_00.c:268-277 | Taking a printed text apart gives the printed parameters. |
| Text.LookupRoundTrip | src/cdi/cdi_utility_api.c:120-154 | In a table of names that differ also without case, looking up the name of a value gives the value. |
| BaselineKeys.SamplingNamed | src/cdi/baseline_profiles_2_00.c:49-124 | Every sampling of either profile has a name that the tokenizer keeps and that leads back to it. |
| BaselineKeys.TcsNamed | src/cdi/baseline_profiles_2_00.c:49-124 | The same for transfer characteristics. |
| BaselineKeys.RangeNamed | src/cdi/baseline_profiles_2_00.c:49-124 | The same for ranges. |
| BaselineKeys.ColorimetryNamed | src/cdi/baseline_profiles_2_00.c:49-124 | The same for colorimetries. |
| BaselineKeys.GroupingNamed | src/cdi/baseline_profiles_2_00.c:49-124 | The same for audio channel groupings. |
| BaselineKeys.SampleRateNamed | src/cdi/baseline_profiles_2_00.c:49-124 | The same for audio sample rates. |
| BaselineKeys.VersionOfStringIs | src/cdi/baseline_profile.c:391-417 | A version string is accepted exactly if it is digits, a point and digits of at most five characters, and means these two numbers. |
| BaselineKeys.CdiAvmParseBaselineVersionString | src/cdi/baseline_profile.c:391-417 | The loop yields what the version string means. |
| BaselineVideo.RateReads | src/cdi/baseline_profiles_2_00.c:247-256 | A frame rate that fits is read back, with the denominator one left out or not. |
| BaselineVideo.RateLost | src/cdi/baseline_profiles_2_00.c:247-256 | A frame rate that does not fit: either C does not define what is read back for a number, or another denominator is read back, because digits were lost. |
| BaselineVideo.CreateOptionalParamsString | src/cdi/baseline_profiles_1_00.c:190-250 | The 512-byte buffer of optional parameters is never full, so no parameter is cut. |
| BaselineVideo.MakeBaselineVideoConfiguration | src/cdi/baseline_profiles_1_00.c:261-324 | Printing fails exactly for a zero pixel aspect ratio in profile 01.00, and the text always fits in 1024 bytes. |
| BaselineVideo.ParseBaselineVideoConfiguration | src/cdi/baseline_profiles_2_00.c:445-666 | The loop over parameters gives the configuration, or rejects it, as parameter by parameter parsing does. |
| BaselineVideo.VideoRoundTrip | src/cdi/baseline_profiles_2_00.c:191-666 | For every video configuration of either profile, parsing its text gives the configuration back if and only if its frame rate fits, and never rejects the text. |
| BaselineOrder.RearrangedReads | src/cdi/baseline_profiles_2_00.c:445-666 | The parameters of a printed text in any order, any of them repeated, with clean tokens that change nothing anywhere between them (alpha_included with another value than enabled, a value for interlace or segmented, an unknown name), are parsed as the configuration that was printed, if its frame rate fits. |
| BaselineOrder.MoreTokensIgnored | src/cdi/baseline_profiles_2_00.c:588-661 | In particular such tokens behind the printed text change nothing. |
| BaselineMeaning.RejectedIff | src/cdi/baseline_profiles_2_00.c:445-666 | Any text is rejected exactly if the first token that is not fine is a known parameter without a value that it needs, or with one outside its table in the version then in force; it is parsed exactly if all are fine. |
| BaselineMeaning.ParsedAsMeant | src/cdi/baseline_profiles_2_00.c:445-666 | Every field of the configuration that any text is parsed as, from its tokens: the last value given, looked up in the version in force there, the default where none was given, the flags set by a token alone, alpha by the value enabled in any case. |
| BaselineTexts.FilmText | src/cdi/baseline_profiles_2_00.c:191-277 | The whole text of a configuration with every optional parameter, in both profile versions. |
| BaselineTexts.Punctuation | src/cdi/baseline_profiles_2_00.c:268-277 | Parameters are written name=value, each with a semicolon behind it, and a space between them. |
| BaselineAudio.AudioRoundTrip | src/cdi/baseline_profiles_2_00.c:347-762 | For every audio configuration, parsing its text gives it back if and only if its language has no delimiter and is padded with zero characters, and never rejects the text. |
| BaselineAudioMeaning.AudioParsedAsMeant | src/cdi/baseline_profiles_2_00.c:678-762 | Any audio text is rejected exactly if some token is a known parameter without a value, or with one outside its table or longer than three characters; otherwise each field is the one its tokens give last, a short language leaving the characters behind it as they were. |
| BaselineTexts.NewsText | src/cdi/baseline_profiles_2_00.c:347-384 | The whole text of an audio configuration in both profile versions. |
| BaselineTexts.SameNames | src/cdi/baseline_profiles_2_00.c:49-124 | The names of the second profile version are those of the first, apart from case, and for channel groupings from the name of their standard around them. |
| BaselineAudio.MakeBaselineAudioConfiguration | src/cdi/baseline_profiles_2_00.c:347-384 | The checks on the length of the text never fail. |
| BaselineAudio.ParseBaselineAudioConfiguration | src/cdi/baseline_profiles_2_00.c:678-762 | The loop over parameters gives the configuration, or rejects it, as parameter by parameter parsing does. |
| BaselineProfile.CdiAvmMakeBaselineConfiguration2 | src/cdi/baseline_profile.c:241-262 | Finds the profile of the version and prints with it, or fails. |
| BaselineProfile.CdiAvmParseBaselineConfiguration2 | src/cdi/baseline_profile.c:270-331 | Checks URI and sizes, finds the version in the text and the profile for it, and parses with that, with the status of each failure. |
| BaselineProfile.ParseOfMake | src/cdi/baseline_profile.c:241-331 | What was printed is recognised by its URI and version, and goes to the parser of the same type and profile. |
| BaselineProfile.ConfigurationRoundTrip | src/cdi/baseline_profile.c:241-331 | A configuration that can be printed is parsed back exactly as it was if and only if its version is not 0.0 and its frame rate, or language, fits. |
| BaselineStatus.ParseIs | src/cdi/baseline_profile.c:270-331 | A configuration with a known URI and sizes within their limits, whose text names a version where the version parameter first stands, goes to the parser of its type with that version, or is told to be of an unsupported profile if the version is none of 0.0, 1.0 and 2.0. |
| BaselineStatus.RefusedUnless | src/cdi/baseline_profile.c:270-331 | Every other configuration is refused as a non-fatal error. |
| BaselineStatus.ResultIs | src/cdi/baseline_profile.c:270-331 | What comes out of a generic configuration, in terms of its tokens: parsed, refused or of an unsupported profile, and each field of the result. |
| RxBuffers.LayoutIsSound | src/cdi/adapter_efa_rx.c:183-224 | For every packet size, count, start address and page size the buffers are 8-aligned, pairwise disjoint and inside the registered region, which is inside the allocation. |
| RxBuffers.RxState.CreatePacketPool | src/cdi/adapter_efa_rx.c:168-245 | On success exactly the buffers of the layout are posted, at most one fewer than the receive queue holds. |
| RxBuffers.RxState.Poll | src/cdi/adapter_efa_rx.c:90-150 | Completed buffers move from posted to held; the addresses handed out lead back to them. |
| RxBuffers.RxState.EfaRxEndpointRxBuffersFree | src/cdi/adapter_efa_rx.c:343-376 | Every buffer of the list leaves the held ones, and those whose post succeeds are posted again. |
| RxBuffers.StripOfAdd | src/cdi/adapter_efa_rx.c:105-144 | The address handed to the application leads back to the posted buffer. |
| RxConservation.BuffersConserved | src/cdi/adapter_efa_rx.c:354-373 | Over any run, posted, held and lost buffers (those whose post failed) are together exactly those first posted; so posted plus held are all of them if and only if every post succeeds. |
| RxConservation.FailedPostLoses | src/cdi/adapter_efa_rx.c:360-371 | One buffer that is received and freed while posting fails is neither posted nor held any more. |

## Left out

- ProbeSystem.ConnectedInOrder: does not say that the order holds anew after each reset, because the code does not keep that; ProbeBreaks.OrderBreaksIff says exactly when it can fail.
- ProbeAck.AckFresh: covers acknowledgements of the last 2^16 packets only, because older ones can be mistaken (see ProbeExamples.StaleAckAccepted).
- ProbeSilence.DestroyedInTime: takes the packet count as constant, since a silent peer sends no packets; ProbeWatch has it change.
- BaselineMeaning.RejectedIff: a number too large for atoi in an earlier token leaves the rest of the text open, because C does not define it.
- ProbeBurst.BurstCount: assumes that each probe packet can be queued, because a failed enqueue raises the count without a packet in flight until the next reset.
- BaselineVideo.RateLost: says of a number above INT_MAX only that C does not define what is read back.
- AncWriter.AncillaryDataPacket.constructor: zero-initialises the internal packet that the writer copies a public packet to; the code leaves its first user data word unset when the packet has no user data.
- InFlight.CountIsWorkInFlight: the count is unbounded, so its wrap at 32 bits is not modelled.
- PollThread.NoLostWakeup: says that waking is possible and stays so; that the operating system then runs the thread is not part of the model. What DataPoll finds idle is an arbitrary answer, which includes every computation of it.
- AncApi.CdiAvmPacketizeAncillaryData: needs a buffer of at least one word, because the header is written before its size is looked at; sums of sizes near INT_MAX are not modelled.
- AncApi.PrecheckAncillaryDataPayload: fewer than two words left count as invalid; the code reads the next word and returns the same status.
- ProbeRounds.ThreadsRefineSystem: takes a round as one move; what the poll thread does in the middle of a round is covered by the system itself, whose steps are smaller.
- C byte order and bit fields: words are big-endian numbers; htonl and ntohl are left out.
- libfabric, sockets, threads, huge pages, logging, statistics, and the exhaustion of pools, queues and FIFOs.
- The Endpoint Manager is only an environment that posts ResetDone at any time and EfaStart when it is waited for. Answers of code outside the model (starting the adapter endpoint, protocol versions, packet counts) are inputs.
- Peers of older probe versions are a branch of the state machines; nothing is claimed about their code. Bookkeeping of remote addresses and the search for the endpoint of a packet are left out.
- CdiAdapterResetEndpoint, changes of a poll thread's connection list, the retry status of a send, and polling of the control interface.
- The build option that disables probe monitoring.
- The tokenizer writes zero characters into a copy of the text; the model takes slices instead. Configuration data with embedded zero characters is left out, and a number too large for atoi is a result of its own, because C does not define it.
- Ancillary data baseline configurations, unit sizes (every configuration of the model has one, so printing does not fail for them), and the registration of profiles.
- Freeing the packet pool and posting after an endpoint reset.
