# RetiMesh Node: protocols and bookkeeping, modelled in Dafny

A model of the parts of the firmware and its bench tool that carry real protocols
or exact bookkeeping, and proofs of what they promise. `dafny verify dfyconfig.toml`
checks all of it.

- `Bytes.dfy`: octets and sequence shorthands.
- `Hdlc.dfy`, `TxQueue.dfy`, `UartLink.dfy`: the framed serial link. The octet
  stuffing of section 4.2 of RFC 1662 without a frame check sequence, a streaming
  deframer that resynchronises from any state, a queue of frames packed with
  wrap-around into an arena, and the link that composes the three.
- `PppArbiter.dfy`, `PppHandover.dfy`, `PppTransmit.dfy`: the console and PPP on one
  port. The recogniser that holds back a candidate LCP Configure-Request (section 5.1
  of RFC 1661, with the address and control fields of section 3.1 of RFC 1662 or
  without them, section 6.6 of RFC 1661), the hand-over between the reader task and
  the loop task, and the gathering of frames on the way out.
- `UsbNcm.dfy`: the USB network link, a lock-free ring and a teardown by user counts
  and a barrier, across four contexts.
- `PppProgress.dfy`, `UsbProgress.dfy`: what the tasks of those two get done. Each
  theorem bounds a task's own steps and holds in every interleaving with the others.
- `Airtime.dfy`: the duty-cycle window and its unlock time.
- `HilSchedule.dfy`, `HilLedger.dfy`, `HilPvalue.dfy`: the bench experiment's step list,
  its resumable ledger and its exact p-value.
- `Clients.dfy`, `ApIdle.dfy`: client admission and ownership, and the latching idle
  timer of the access point.

Code that changes things in place is a class whose methods are proved against a
specification (the stream's frames, a list of frames, the log of transmissions, the
language of take-over words, the history of events) kept as ghost state. The two
protocols that run on several tasks at once, in `UsbNcm.dfy` and `PppHandover.dfy`,
are transition systems over values, one step an atomic access, a call into another
component or a change of something only one task uses; their theorems hold in every
interleaving. What the world decides (memory, room, bytes read, timers, the order of
tasks) is a parameter or a choice of step.

Where the code and its own comments disagree the model follows the code:

- `src/radio/Airtime.cpp:47` says the unsigned difference survives the clock's wrap. It
  does not: the minute goes back to 0 and every bin is cleared. `Airtimes.UtilAfter`
  gives the exact condition and `Airtimes.WrapForgets` an instance.
- `src/net/PppUart.cpp:543-546` says `finish` always runs before the reader leaves. It
  need not; the clean-up at 566-582 makes the end state true all the same.
  `PppHandover.FinishIsSkippedIff` says when, `PppHandover.FinishCanBeSkipped` shows it.
- `src/net/UsbNcm.cpp:499-501` rests the teardown on a generation stamp. The barrier
  stores the count it reads when it runs, so the stamp proves nothing; what carries the
  proof is that at most one barrier is ever out, and only while the teardown waits for
  it. The counter itself fails after a multiple of 2^32 refused posts
  (`UsbNcm.BarrierIsPassedByIff`, `UsbNcm.StaleBarrierDestroysEarly`).
- `tools/hil_frames.py:459-461` says an interrupted run loses at most the frame in
  flight. The next append is joined to the half-written line, so the frame after it is
  lost at the load after that, and a frame that lacked only its newline with it
  (`HilLedger.RecordIsKeptIff`, `HilLedger.OneInterruptLosesTwo`); `HilLedger.LackedIff`
  says exactly what is lost.
- `src/net/ApIdlePolicy.h:95-97` says the difference cannot outgrow the window. It can
  when the policy is not asked for a turn of the clock (`ApIdle.AskedTooSeldom`);
  `ApIdle.RightIff` says exactly when the answers are right.
- `src/net/UartTxQueue.h:81-91` leaves the depth gauge as it was, so it is in step with
  the queue after an attach only if it read nothing before it
  (`TxQueues.GaugeOutlivesAttach`). The serial link lets go of the queue before lending
  it memory again, so its gauge is always in step; that is part of `UartLinks.Link.Valid`.

## Model

| member | source | states |
|---|---|---|
| Bytes.FlipsBitFive | src/net/HDLC.h:41 | exclusive-or with 0x20, bit by bit: bit 5 is turned over and the others stay |
| Bytes.WordIs | src/net/UartTxQueue.h:114-131 | what a 32-bit counter holds of a count: below 2^32, small counts themselves, the same again after 2^32 |
| Bytes.GapIs | src/net/PppArbiter.h:136 | unsigned subtraction on a clock: added back it gives the later reading |
| Hdlc.FramedOnWire | src/net/HDLC.h:47-63 | a framed packet in numbers: 7E, then every byte itself but 7D 5E for a flag and 7D 5D for an escape, then 7E |
| Hdlc.EscapeTurnsBitFive | src/net/HDLC.h:86-93 | whatever byte follows an escape is delivered with 0x20 turned over: 5E as 7E, 5D as 7D |
| Hdlc.CapacityIsMet | src/net/HDLC.h:43-45 | the worst case is met for every length: no smaller capacity would do |
| Hdlc.SegmentsUnique | src/net/HDLC.h:71-94 | any way of writing a stream as a flag-free lead, flag-led flag-free segments and a flag-free tail is the one the specification `Closed`/`Open` reads: the segments of a stream are well defined |
| Hdlc.SegmentsExist | src/net/HDLC.h:71-94 | every stream with a flag in it can be cut that way |
| Hdlc.StuffIsSafe | src/net/HDLC.h:51-61 | stuffed bytes hold no flag, never end in an escape, and number between n and 2n |
| Hdlc.UnescapeStuff | src/net/HDLC.h:51-61 | undoing the stuffing of any packet gives the packet |
| Hdlc.FramedShape | src/net/HDLC.h:43-63 | a framed packet is at most 2 + 2n bytes and its flags are exactly its first and last byte |
| Hdlc.FeedFramed | src/net/HDLC.h:71-94 | after any history, one framed packet closes at most one stray segment and then delivers itself exactly if it fits, and is counted once if it is over the MTU |
| Hdlc.Resynchronises | src/net/HDLC.h:71-94 | from any deframer state, the framing of a list of packets delivers at most one stray frame and then exactly the packets of length 1..MTU, in order, each packet over the MTU counted once |
| Hdlc.RoundTrip | src/net/HDLC.h:43-94 | deframing the framing of any list of packets gives the deliverable ones, unaltered and in order |
| Hdlc.Frame | src/net/HDLC.h:47-63 | 0 exactly when the capacity is under 2 + 2n, and then the buffer is untouched; otherwise the framed packet (in numbers by `Hdlc.FramedOnWire`), and nothing past it changed |
| Hdlc.RemembersFlag | src/net/HDLC.h:74-85 | what a deframer holds decides what a flag delivers and counts |
| Hdlc.RemembersByte | src/net/HDLC.h:86-93 | what a deframer must remember of a stream, over one more byte that is no flag |
| Hdlc.Deframer.Feed | src/net/HDLC.h:74-94 | after every byte the frames handed over are the specification's frames of everything fed since the reset, well formed or not |
| Hdlc.Deframer.FeedChunk | src/net/HDLC.h:74-94 | the same for any chunk: how a stream is cut makes no difference |
| Hdlc.Deframer.Reset | src/net/HDLC.h:96 | nothing of the stream is remembered; the oversize count is kept |
| Hdlc.Deframer.OversizedCount | src/net/HDLC.h:99 | the number of segments that unescape to more than the MTU since the deframer was made, in a 32-bit word |
| TxQueues.TilesDisjoint | src/net/UartTxQueue.h:114-188 | the slots waiting name ranges of the arena that do not share a byte, round the wrap included |
| TxQueues.PackedPush | src/net/UartTxQueue.h:171-176 | writing a frame at the head byte, split at the end of the arena or not, leaves every byte queued before it in place and puts the frame after them |
| TxQueues.PackedPop | src/net/UartTxQueue.h:177-188 | taking the oldest frame's bytes leaves the rest packed from where it ended |
| TxQueues.TiledPush | src/net/UartTxQueue.h:119-129 | the new slot, at the tail, tiles on after the last |
| TxQueues.TiledPop | src/net/UartTxQueue.h:183-188 | without the first slot the others still tile |
| TxQueues.RingPush | src/net/UartTxQueue.h:114-130 | a ring that represents a list of frames represents the list and the new frame after a push |
| TxQueues.RingPop | src/net/UartTxQueue.h:134-151 | and its tail after a pop |
| TxQueues.BalancedMoves | src/net/UartTxQueue.h:114-151 | frames and bytes queued = sent + waiting + too big, each 32-bit counter following its total, over a push |
| TxQueues.BalancedPop | src/net/UartTxQueue.h:134-151 | the same over a pop, sent or too big |
| TxQueues.TxQueue.constructor | src/net/UartTxQueue.h:58-64 | a new queue is empty and has no memory |
| TxQueues.TxQueue.Attach | src/net/UartTxQueue.h:81-86 | an empty queue in the caller's arena; the counters go on; the depth gauge is in step from here only if it read nothing |
| TxQueues.GaugeOutlivesAttach | src/net/UartTxQueue.h:81-86 | new memory without a detach: an empty queue whose gauge shows one frame |
| TxQueues.TxQueue.Detach | src/net/UartTxQueue.h:98-104 | the memory is let go of and nothing waits |
| TxQueues.TxQueue.Push | src/net/UartTxQueue.h:114-131 | the frame joins the end of the queue exactly when there is a slot and there are bytes for it, it is not empty and its length fits 16 bits; otherwise one drop is counted and nothing else changes |
| TxQueues.TxQueue.Pop | src/net/UartTxQueue.h:134-151 | the oldest frame, byte for byte, if it fits the caller's buffer; one that does not is taken out and counted, and nothing beyond the buffer's part is touched |
| TxQueues.TxQueue.Consume | src/net/UartTxQueue.h:183-188 | the oldest frame and only it leaves |
| TxQueues.TxQueue.HeadByte | src/net/UartTxQueue.h:162-169 | where the bytes of the next frame go: just after the last one's, modulo the capacity |
| TxQueues.TxQueue.WriteWrapped | src/net/UartTxQueue.h:171-176 | each byte of the source at its place modulo the capacity, every other byte of the arena as it was |
| TxQueues.TxQueue.ReadWrapped | src/net/UartTxQueue.h:177-182 | each byte back from its place modulo the capacity |
| UartLinks.Link.Begin | src/net/UartLink.cpp:202-310 | a link that is up only says whether it is what was asked for; one that is down comes up exactly when the speed, the port, both arrays, the driver and the reader are all to be had, with an empty queue, and otherwise holds nothing |
| UartLinks.Link.Lend | src/net/UartLink.cpp:257-271 | the arrays are lent to an empty queue and the deframer starts anew |
| UartLinks.Link.Release | src/net/UartLink.cpp:280-284 | the link is down, the queue has let go of its memory, the memory is given back and nothing is held |
| UartLinks.Link.End | src/net/UartLink.cpp:312-349 | done exactly when the link was down, the reader had gone or it goes in time; until then the link stays up with its memory and its frames |
| UartLinks.Link.Send | src/net/UartLink.cpp:354-370 | accepted exactly when the link is up, the frame is 1..MTU and there is room; nothing accepted is ever too big to send |
| UartLinks.Link.Receive | src/net/UartLink.cpp:128-140 | whatever the reads return, in any chunks, delivers the stream's frames |
| UartLinks.Link.Transmit | src/net/UartLink.cpp:141-153 | the oldest frame, framed, is appended to the wire; the pop never drops |
| UartLinks.Link.ReaderPass | src/net/UartLink.cpp:95-160 | both halves of one pass |
| UartLinks.Link.FarEndHas | src/net/UartLink.cpp:124-152 | deframing the bytes on the wire yields exactly the frames popped; the accepted frames are those followed by the queue's contents |
| UartLinks.Link.Run | src/net/UartLink.cpp:95-160 | for any interleaving of sends and reader passes on one attachment, the frames accepted are what the far end deframes followed by what waits, and none was dropped for size |
| PppArbiters.SpellingFound | src/net/PppArbiter.h:98-133 | a decoded beginning comes from some choice of escapes after some flags |
| PppArbiters.TakeoverIsFinished | src/net/PppArbiter.h:98-133 | the recogniser finishes on exactly the words that are flags followed by an escaping of FF 03 C0 21 01 or C0 21 01 |
| PppArbiters.CandidateIsUnfinished | src/net/PppArbiter.h:98-133 | it is still undecided on exactly the words that some further bytes complete to such a word |
| PppArbiters.PrefixFree | src/net/PppArbiter.h:125-133 | no word that takes the port over begins another |
| PppArbiters.VerdictIsLanguage | src/net/PppArbiter.h:98-133 | what a byte routes, in terms of that language alone: takes over, holds, or releases everything |
| PppArbiters.RequestAsSent | src/net/PppArbiter.h:98-133 | the Configure-Request as pppd sends it, its control characters escaped, takes the port; so does the bare one |
| PppArbiters.Arbiter.constructor | src/net/PppArbiter.h:86-92 | the console owns the port and nothing is held |
| PppArbiters.Arbiter.Feed | src/net/PppArbiter.h:98-133 | bytes routed so far followed by the bytes held are the bytes fed, in order, each once; PPP takes the port exactly when it is allowed and the held bytes with this one are a take-over word; at most 15 are held and 4 decoded |
| PppArbiters.Arbiter.FeedConsole | src/net/PppArbiter.h:98-133 | the same for a port the console owns |
| PppArbiters.Arbiter.Idle | src/net/PppArbiter.h:136-140 | a candidate the port went quiet on is released whole to the console |
| PppArbiters.Arbiter.PppReceived | src/net/PppArbiter.h:143-147 | bytes of a session change no owner and hold nothing |
| PppArbiters.Arbiter.AllowPpp | src/net/PppArbiter.h:94 | the operator's switch; what is held stays held and the rest of the arbiter is as it was |
| PppArbiters.IdleDeadIff | src/net/PppArbiter.h:149-151 | a session reads as dead exactly when its host has been silent over 30 s, but for silences that end within 30 s after a whole number of turns of the clock |
| PppArbiters.Arbiter.PppDown | src/net/PppArbiter.h:155-161 | the console owns the port; a run the console held is left held; true exactly if PPP owned it |
| PppArbiters.Arbiter.FeedWord | src/net/PppArbiter.h:98-133 | any take-over word of at most 16 bytes, arriving with nothing held and PPP allowed, takes the port at its last byte and goes to PPP whole |
| PppTransmit.FramesCutUp | src/net/PppUart.cpp:230-240 | however each frame is cut into pieces, the frames completed are the frames handed over |
| PppTransmit.FrameCutUp | src/net/PppUart.cpp:236-240 | no cut of a frame ends it early: the opening flag alone does not |
| PppTransmit.SentOrDropped | src/net/PppUart.cpp:241-264 | every frame is sent or counted dropped, never both |
| PppTransmit.WholeSnoc | src/net/PppUart.cpp:248-263 | a frame written whole or dropped whole keeps the wire the frames sent, one after the other, and the 32-bit counters theirs |
| PppTransmit.Transmitter.constructor | src/net/PppUart.cpp:219-222 | nothing gathered, nothing on the wire |
| PppTransmit.Transmitter.Start | src/net/PppUart.cpp:328-333 | nothing of an earlier session precedes the next one's first frame, and a session that runs is left alone |
| PppTransmit.Transmitter.Stop | src/net/PppUart.cpp:346 | no piece is taken from here on |
| PppTransmit.Transmitter.Append | src/net/PppUart.cpp:233-236 | the buffer is what has been gathered, or marked as too long for 3200 bytes |
| PppTransmit.Transmitter.Write | src/net/PppUart.cpp:248-261 | written whole exactly when it fits and one of the 61 readings finds room for all of it |
| PppTransmit.Transmitter.Transmit | src/net/PppUart.cpp:230-265 | a piece joins the frame; the one that ends it sends or drops it whole and leaves nothing for the next |
| PppTransmit.SendAll | src/net/PppUart.cpp:219-265 | any frames in any pieces with any room: the wire is the concatenation of a subsequence of them, and sent + dropped = handed over |
| PppHandover.StepKeeps | src/net/PppUart.cpp:323-612 | every step of the reader, the loop task and the event task keeps the invariant |
| PppHandover.ReaderSessions | src/net/PppUart.cpp:323-428 | how far a session is open or closed at every place in the reader |
| PppHandover.LoopPhased | src/net/PppUart.cpp:463-612 | what is built and what is taken apart at every place in the loop task |
| PppHandover.CallsOnlyLive | src/net/PppUart.cpp:323-585 | esp_netif is only called on an interface that has not been destroyed |
| PppHandover.CallsAreAll | src/net/PppUart.cpp:323-385 | whatever starts, stops or destroys an interface is one of those calls, on the interface there is |
| PppHandover.StartsAndDestroysStopped | src/net/PppUart.cpp:323-585 | an interface is started only when stopped, and destroyed only when stopped and with no reader left |
| PppHandover.MutesWhatIsHeard | src/net/PppUart.cpp:192-202 | the log is muted only while its own handler is in place, so the handler put aside is never the silent one |
| PppHandover.AgreeBetweenPasses | src/net/PppUart.cpp:323-428 | between passes the published owner, the arbiter, `sStarted` and the muting of the log agree |
| PppHandover.IdleIsGivenBack | src/net/PppUart.cpp:537-612 | with nothing built: the console owns the port and reads it directly, the log's handler is back, no reader, no interface |
| PppHandover.TeardownGivesBack | src/net/PppUart.cpp:562-590 | the same at the step that ends a teardown |
| PppHandover.ReadersOwnIsSafe | src/net/PppUart.cpp:311-317 | the loop task changes the arbiter, the session flags and the log only when there is no reader |
| PppHandover.LastTakeover | src/net/PppUart.cpp:366-369 | after the switch has gone off PPP takes the port at most once more, and only in the pass under way |
| PppHandover.RunKeeps | src/net/PppUart.cpp:323-612 | the invariant on every run from nothing |
| PppHandover.EveryRunIsSafe | src/net/PppUart.cpp:323-612 | at every step of every interleaving: the calls, the agreement between passes, the muting, the reader's own variables, the end of a teardown, the state with nothing built and the last takeover, as in the rows above |
| PppHandover.FedIsDecided | src/net/PppArbiter.h:98-133 | what the arbiter makes of a byte after the run it holds is the verdict of the take-over language |
| PppHandover.ReaderWaits | src/net/PppArbiter.h:98-133 | what the arbiter holds is always a candidate of at most 15 bytes, and nothing while PPP has the port |
| PppHandover.TakesIff | src/net/PppArbiter.h:98-133 | a run held and the bytes to come take the port exactly when some byte completes a take-over word with what is held when it comes |
| PppHandover.WordTakes | src/net/PppArbiter.h:98-133 | a take-over word of at most 16 bytes whose beginning is held takes the port |
| PppHandover.FinishIsSkippedIff | src/net/PppUart.cpp:541-547 | asked to leave with the port the console's, the reader can leave a session open exactly when a byte has decided and not been told, or the bytes to come take the port in a pass whose `service` found the switch still on |
| PppHandover.FinishCanBeSkipped | src/net/PppUart.cpp:541-547 | a run from nothing on which it does, on one chunk of four bytes: `finish` does not always run, whatever the comment says |
| PppProgress.HangUpIsServed | src/net/PppUart.cpp:366-385 | a dead phase reported in a session is answered by `finish`: within 33 steps of the reader's own the console owns the port and the log is back, whatever the other tasks do between |
| PppProgress.SwitchOffIsServed | src/net/PppUart.cpp:366-385 | so is a switch-off or a restart, when the time the host was given is over |
| PppProgress.SessionLasts | src/net/PppUart.cpp:366-385 | and nothing else ends a session: switched on, the host there, it stays open |
| PppProgress.ReportIsSpent | src/net/PppUart.cpp:366-385 | a report of the dead phase ends one session at most: none that begins later finds it |
| PppProgress.BuildForgets | src/net/PppUart.cpp:493-503 | a new interface begins without the last one's reports |
| PppProgress.PermissionIff | src/net/PppUart.cpp:366-369 | the reader lets PPP have the port exactly when the switch is on, no restart is under way and nothing is being taken apart |
| PppProgress.RemainingIs | src/net/PppUart.cpp:408-428 | what is left of a chunk for PPP is what follows the first byte that completes a take-over word |
| PppProgress.ChunkIsRouted | src/net/PppUart.cpp:408-428 | a chunk for the console, allowed: the first byte that completes a word opens a session with the rest of the chunk for PPP; without one the console keeps the port and the run held is the language's |
| PppProgress.ChunkIsHandedOver | src/net/PppUart.cpp:357-364 | every chunk of a session is handed to the live interface exactly once, and a chunk that opens one exactly once before and once after the byte that decides |
| PppProgress.QuietIsReleased | src/net/PppUart.cpp:407 | a run held when the port goes quiet is released |
| PppProgress.OneTakeoverAtMost | src/net/PppUart.cpp:627-631 | counted along any run from the switch-off to the end of the teardown, PPP takes the port once at most |
| PppProgress.LaterPassesTakeNothing | src/net/PppUart.cpp:366-369 | and never in a pass that begins after it |
| PppProgress.ReaderLeaves | src/net/PppUart.cpp:386-400 | asked to leave, the reader is gone within a bounded number of its own steps, whatever it was in the middle of |
| PppProgress.RestartIsTold | src/net/PppUart.cpp:648-661 | a restart asks for the end of the session exactly when there is one |
| PppProgress.BuildGoesThrough | src/net/PppUart.cpp:614-626 | given memory and a task, a poll with the switch on builds interface, reader and console stream within 12 steps of the loop task |
| PppProgress.BuildEnds | src/net/PppUart.cpp:463-532 | whatever is refused on the way, the build ends whole or with everything given back and the failure remembered |
| PppProgress.SwitchOffIsTold | src/net/PppUart.cpp:614-632 | a poll with the switch off asks the reader to leave as soon as the session is over or out of time |
| PppProgress.SessionIsWaitedFor | src/net/PppUart.cpp:542-560 | and not before |
| PppProgress.TeardownCompletes | src/net/PppUart.cpp:562-595 | with the reader gone, the next poll gives everything back within 14 steps |
| PppProgress.FailureIsNotRetried | src/net/LazyStart.h:53-70 | a failed build is not tried again before a poll has found the switch off with nothing built |
| PppProgress.OffPollForgets | src/net/LazyStart.h:53-70 | such a poll forgets the failure |
| UsbNcm.StepKeeps | src/net/UsbNcm.cpp:222-704 | every step of the four contexts keeps the invariant, a barrier posted at a multiple of 2^32 askings apart |
| UsbNcm.TxKeeps | src/net/UsbNcm.cpp:259-284 | the part of it for `transmit`, one atomic access at a time |
| UsbNcm.UsbKeeps | src/net/UsbNcm.cpp:229-253 | the part for `drain` and `tud_network_recv_cb` |
| UsbNcm.MsgKeeps | src/net/UsbNcm.cpp:502-505 | the part for lwIP's mailbox and the barrier |
| UsbNcm.UpkeepKeeps | src/net/UsbNcm.cpp:354-616 | the part for building, up and down |
| UsbNcm.TeardownKeeps | src/net/UsbNcm.cpp:504-616 | the part for taking apart |
| UsbNcm.TouchesOnlyLive | src/net/UsbNcm.cpp:222-284 | no step reads or writes a ring that was freed or calls an interface that was destroyed |
| UsbNcm.TouchesAreAll | src/net/UsbNcm.cpp:229-284 | and nothing else is written, freed, sent from, posted for or destroyed |
| UsbNcm.ConsumedBeforeDestroyed | src/net/UsbNcm.cpp:521-556 | every frame posted for an interface has been consumed before it is destroyed, and nobody holds its handle |
| UsbNcm.NobodyInsideWhenFreed | src/net/UsbNcm.cpp:546-556 | no context holds the ring when it is freed |
| UsbNcm.AtMostOne | src/net/UsbNcm.cpp:354-424 | at most one interface and one ring exist |
| UsbNcm.RingIsInOrder | src/net/UsbNcm.cpp:229-284 | what is sent is a rising, unaltered selection of what was accepted; head - tail is the number unread and never over 4, 32-bit wrap included |
| UsbNcm.ProducerSparesUnread | src/net/UsbNcm.cpp:266-277 | the slot the producer writes is not one that holds an unread frame |
| UsbNcm.UnreadWrite | src/net/UsbNcm.cpp:271-277 | a frame written where the next one goes overwrites nothing unread |
| UsbNcm.WrappedSlot | src/net/UsbNcm.cpp:236-250 | the slot of a wrapped index is the slot of the count it stands for |
| UsbNcm.RunKeeps | src/net/UsbNcm.cpp:222-704 | the invariant on every run from nothing |
| UsbNcm.EveryRunIsSafe | src/net/UsbNcm.cpp:222-704 | at every step of every interleaving: what is touched is alive, one of each at most, the ring in order with its gap and its unread slots, and nothing held or waiting at a destroy or a free, as in the rows above |
| UsbNcm.BarrierIsPassedByIff | src/net/UsbNcm.cpp:528-545 | a barrier just posted behind a frame, waiting in the mailbox or in lwIP's hands, is passed by exactly when the askings since the last one ran are a multiple of 2^32 |
| UsbNcm.StaleBarrierDestroysEarly | src/net/UsbNcm.cpp:499-545 | a run of 2^32 - 1 refused posts and one taken that destroys the interface with a frame waiting |
| UsbNcm.LatchHolds | src/net/LazyStart.h:48-72 | a failed build latches, and nothing but a poll that finds the switch off and no interface lifts it |
| UsbNcm.FailureIsNotRetried | src/net/LazyStart.h:48-72 | between a build that failed and the next attempt there is a poll that found the switch off and no interface built |
| UsbProgress.RoomIff | src/net/UsbNcm.cpp:266-272 | the ring is full exactly when four frames are unread, the wrap of the counters included |
| UsbProgress.TransmitTakes | src/net/UsbNcm.cpp:259-284 | whatever the other tasks do between its steps, a `transmit` puts its packet into the ring, once, exactly when it finds the link up, a ring, a length of at most 1514 and fewer than four unread; otherwise nothing |
| UsbProgress.TransmitLeaves | src/net/UsbNcm.cpp:259-284 | a `transmit` is over after seven steps of its own, whatever it finds |
| UsbProgress.UsbTaskLeaves | src/net/UsbNcm.cpp:229-253 | the USB task is out of a drain or a receive again after four steps for each frame unread and four more |
| UsbProgress.DrainIff | src/net/UsbNcm.cpp:229-253 | a drain that looks goes on exactly when a frame is unread, and hands on the oldest |
| UsbProgress.DrainEmpties | src/net/UsbNcm.cpp:229-253 | left alone by the producer, and as long as the driver takes them, a drain leaves the ring empty; all that was unread is handed on, in order, if nothing was dropped as stale or for a link that is down |
| UsbProgress.FrameIsHandedIn | src/net/UsbNcm.cpp:672-697 | a frame that comes in while the link is up is posted to lwIP for the interface there is |
| UsbProgress.BuildGoesThrough | src/net/UsbNcm.cpp:354-427 | with memory, a poll that starts builds ring and interface within 5 steps more |
| UsbProgress.BuildEnds | src/net/UsbNcm.cpp:354-427 | and whatever is refused, nothing half built is left |
| UsbProgress.OffPollForgets | src/net/LazyStart.h:53-70 | after a failure a poll with the switch off lets the next one build; a poll with the switch on does not |
| UsbProgress.LinkTurns | src/net/UsbNcm.cpp:435-438 | the link comes up, or goes down, within 2 steps of the loop task |
| UsbProgress.SwitchOffWithdraws | src/net/UsbNcm.cpp:591-615 | switched off, the link is down and both handles are taken back within 3 steps |
| UsbProgress.QuiesceIff | src/net/UsbNcm.cpp:521-527 | the teardown goes on exactly when nobody is left inside |
| UsbProgress.BarrierIsPosted | src/net/UsbNcm.cpp:528-536 | and then posts the barrier behind every frame |
| UsbProgress.BarrierRuns | src/net/UsbNcm.cpp:504-505 | lwIP's task comes to the barrier, and it has run |
| UsbProgress.LwipIff | src/net/UsbNcm.cpp:538-544 | the wait for lwIP is over exactly when the barrier has run |
| UsbProgress.TeardownCompletes | src/net/UsbNcm.cpp:538-558 | and then the next polls destroy the interface, free the ring and leave nothing |
| Airtimes.WindowShifts | src/radio/Airtime.cpp:40-54 | a minute later the window is less by exactly the oldest minute |
| Airtimes.BinnedNext | src/radio/Airtime.cpp:51 | clearing the next bin makes the bins those of the log a minute later |
| Airtimes.BinnedAdd | src/radio/Airtime.cpp:56-60 | adding to the current bin is logging the transmission |
| Airtimes.BinsSumToWindow | src/radio/Airtime.cpp:69-74 | the sixty bins together are the log's last sixty minutes |
| Airtimes.StampIs | src/radio/Airtime.cpp:40-54 | minutes of the clock, from 0 to 71582 |
| Airtimes.AllowanceIs | src/radio/Airtime.cpp:222-230 | a basis point is a ten-thousandth of the hour |
| Airtimes.Airtime.constructor | src/radio/Airtime.h:367-369 | empty bins, no log |
| Airtimes.Airtime.Rollover | src/radio/Airtime.cpp:40-54 | the bins are the log's at the new minute; a minute that lies back empties the log, against the comment at line 47 |
| Airtimes.Airtime.AddTx | src/radio/Airtime.cpp:56-60 | the log gains the transmission; one of no length changes nothing |
| Airtimes.Airtime.Total | src/radio/Airtime.cpp:71-72 | the sum of the bins is the log's window |
| Airtimes.Airtime.LongTermUtil | src/radio/Airtime.cpp:69-74 | the share of the hour is the log's, for any run of calls |
| Airtimes.Airtime.ShortTermUtil | src/radio/Airtime.cpp:62-67 | the share of two minutes is what the log has for this minute and the last |
| Airtimes.Airtime.BudgetUsed | src/radio/Airtime.cpp:222-225 | the window over the limit's ten-thousandths of an hour, in numbers; all of it exactly when locked |
| Airtimes.Airtime.Locked | src/radio/Airtime.cpp:227-230 | locked exactly when the log's window reaches the limit's ten-thousandths of an hour, in numbers |
| Airtimes.ExactUnlock | src/radio/Airtime.cpp:240-247 | the first minute whose window is under the allowance begins exactly when the lock ends |
| Airtimes.Airtime.Search | src/radio/Airtime.cpp:232-250 | the loop always returns, with that minute |
| Airtimes.Airtime.RetryAfterS | src/radio/Airtime.cpp:232-250 | with nothing more sent, the channel is locked at every instant before now + r and free from now + r on, on a clock that runs on; r is 0 exactly when it is free now, and the answer is r in whole seconds |
| Airtimes.RetryAfter | src/radio/Airtime.cpp:232-250 | after any run of calls, in real time and with nothing more sent: locked until now + r or the next wrap of the clock, whichever is first, and never after |
| Airtimes.Airtime.Reset | src/radio/Airtime.cpp:343-347 | empty again |
| Airtimes.Replay | src/radio/Airtime.cpp:40-74 | after any calls in the order of time the log is exactly what was sent on this turn of the 32-bit clock |
| Airtimes.HourIsKeptAndForgotten | src/radio/Airtime.cpp:40-54 | what was really sent in the hour is what is counted and what was sent before the last wrap |
| Airtimes.UtilAfter | src/radio/Airtime.cpp:69-74 | the share is right exactly when nothing was sent in the hour before a wrap |
| Airtimes.WrapForgets | src/radio/Airtime.cpp:40-54 | air just before the wrap is not remembered just after it |
| HilSchedule.CompleteHolds | tools/hil_frames.py:416-440 | a complete list has every pair of an arm and a number below the frame count, and each once |
| HilSchedule.EvenAtEveryPrefix | tools/hil_frames.py:416-440 | at every prefix neither arm is more than a block ahead |
| HilSchedule.StepInBlock | tools/hil_frames.py:430-438 | the step at each place, in closed form: which block, which arm first, which number |
| HilSchedule.ArmsAlternate | tools/hil_frames.py:418-440 | in the list: the off arm begins, a block is all of one arm and then all of the other, and each block begins with the arm the one before ended with |
| HilSchedule.AddBlock | tools/hil_frames.py:433-437 | the inner loop adds a block of one arm, or what is left of it |
| HilSchedule.StepsFor | tools/hil_frames.py:416-440 | refused exactly when the block is under 1; otherwise each arm counts up to the frame count, evenly, every step in its place |
| HilLedger.AppendedReads | tools/hil_frames.py:484-510 | an append can be read back if the file ended with its line, and else is lost with what it was joined to |
| HilLedger.RecordIsKeptIff | tools/hil_frames.py:457-465 | a frame recorded survives a reload exactly when the file ended with its line; the frame after it always does: more than the frame in flight can be lost |
| HilLedger.OneInterruptLosesTwo | tools/hil_frames.py:457-465 | a frame whose newline was cut off is read on the resume, and lost with the next one at the load after it |
| HilLedger.LackedIff | tools/hil_frames.py:489-516 | of what was read from a file and what was then appended, exactly these cannot be read back: if the file ended in a half line and anything was appended, that line's frame (if it lacked only its newline) and the first append |
| HilLedger.RecordReflects | tools/hil_frames.py:512-516 | recording a step not recorded yet keeps file and memory without a step twice |
| HilLedger.Ledger.Load | tools/hil_frames.py:489-510 | the frames of every line that parses, in order |
| HilLedger.Ledger.Open | tools/hil_frames.py:471-477 | a header in an empty file, and nothing in any other |
| HilLedger.Ledger.Record | tools/hil_frames.py:512-516 | the row joins memory and file |
| HilLedger.Ledger.Interrupt | tools/hil_frames.py:457-465 | wherever the write stopped, what can be read has no step twice |
| HilLedger.DoneIsHas | tools/hil_frames.py:518-521 | `done` is the numbers that have a record |
| HilLedger.TallyGains | tools/hil_frames.py:523-549 | what one record more adds, result by result: sent and received for ok and extra, sent and missed for a miss, an exclusion and nothing else for the other two, and nothing for another channel or arm |
| HilLedger.TallyAddsUp | tools/hil_frames.py:523-549 | attempted = sent + excluded, sent = received + missed |
| HilLedger.AttemptedIsDone | tools/hil_frames.py:518-549 | with no step twice, attempted is the number of steps done |
| HilLedger.FinishedTally | tools/hil_frames.py:523-549 | once a channel is done, each arm attempted exactly its frames |
| HilLedger.RunPoint | tools/hil_frames.py:1321-1333 | the records gain the first steps of the list that had none, each with what its window came to: all of them unless the run is cut short, and then the file still has no step twice |
| HilLedger.RunFrom | tools/hil_frames.py:1449-1480 | one run over a file: refused as it is without `--resume` if it has frames; otherwise every new record is what its window came to, it finishes unless cut short or a block is refused, and then the file is the old one with those records appended and lacks exactly those lost to a half line |
| HilLedger.Campaign | tools/hil_frames.py:1321-1333 | over any number of runs, each cut short anywhere and finding quiet whichever channels it does, no step is twice in the file, and a run that finishes has every step of every channel quiet in it exactly once, of which the file lacks exactly the one or two lost to the half line it was resumed on |
| HilPvalue.TermsCount | tools/hil_frames.py:602-608 | the program's sum counts the choices of missed frames with at least so many in the on arm |
| HilPvalue.Vandermonde | tools/hil_frames.py:600-609 | with no demand on the arms the choices are all of them |
| HilPvalue.IsProbability | tools/hil_frames.py:587-609 | in (0, 1], and 1 when the on arm has no misses |
| HilPvalue.StrictlyFalls | tools/hil_frames.py:587-609 | strictly less when a miss moves from the off arm to the on arm |
| HilPvalue.OneIff | tools/hil_frames.py:587-609 | 1 exactly when the on arm has no misses or the off arm nothing but |
| HilPvalue.ExcessLossPvalue | tools/hil_frames.py:587-609 | the loop gives that probability, shortcuts included, and `min` takes nothing off |
| Clients.Server.Admit | src/net/ClientAdmit.h:162-192 | which answer when; on every answer but acceptance no context and no client is left behind, and before the cap is passed nothing is allocated |
| Clients.Server.Refuse | src/net/RetiTransportServer.cpp:221-224 | a refused client is freed at once or by the callback left with it, once |
| Clients.Server.OnRefusedGone | src/net/RetiTransportServer.cpp:221-224 | the second of these |
| Clients.Server.OnDisconnect | src/net/RetiTransportServer.cpp:420-438 | that context and no other leaves the list; it and its client are freed |
| Clients.Server.SendTo | src/net/RetiTransportServer.cpp:484-508 | the framed packet, whole, to the first context of that id in the list if its socket can take it, and to nobody else |
| Clients.Releases | src/net/RetiTransportServer.cpp:427-436 | taking a context out and deleting it keeps the accounts |
| Clients.Enrols | src/net/ClientAdmit.h:175-190 | so does making one and enrolling it, or making one and releasing it |
| Clients.SameIdIff | src/net/RetiTransportServer.cpp:283-288 | two contexts share an id exactly when a multiple of 2^32 were made between them |
| Clients.OneWithId | src/net/RetiTransportServer.cpp:283-288 | while fewer than 2^32 have been made an id names one context at most, gone ones included |
| Clients.AllGone | src/net/RetiTransportServer.cpp:420-438 | when everybody has gone every context made and every client handed over has been freed exactly once |
| Clients.SendWhole | src/net/RetiTransportServer.cpp:484-508 | every socket has carried whole framed packets and nothing else, and still has after a send |
| Clients.Run | src/net/RetiTransportServer.cpp:256-508 | over any run of connects with any failure, disconnects, late closes, sends and sockets filling and draining, the accounts hold, nothing is lost and only whole frames are written |
| ApIdle.SuppressedNext | src/net/ApIdlePolicy.h:65-100 | the declared rule (a verdict earned by empty asks over a window and not lifted since) as it goes, event by event |
| ApIdle.ArmedIsIt | src/net/ApIdlePolicy.h:86-94 | any start of the idle time with only empty asks after it is the one that counts |
| ApIdle.Policy.Ask | src/net/ApIdlePolicy.h:65-100 | the answer is what the three fields make of all that was told and asked so far, and, as long as no ask was missed, the declared rule's |
| ApIdle.Policy.Wake | src/net/ApIdlePolicy.h:106-110 | the verdict is lifted and the window starts anew |
| ApIdle.NextIsRightIff | src/net/ApIdlePolicy.h:95-98 | from fields that agree with the rule the next answer agrees exactly when the ask is not missed: not (the window has gone by and the clock has gone round to short of it) |
| ApIdle.MissedNoneAt | src/net/ApIdlePolicy.h:95-98 | no ask missed in a history, spelt out ask by ask |
| ApIdle.RightIff | src/net/ApIdlePolicy.h:65-110 | on any history in the order of time the answers are the rule's, all of them, exactly when no ask is missed |
| ApIdle.SteadyMissesNone | src/net/ApIdlePolicy.h:95-98 | none is when each gap and the window before it stay under 2^32 ms |
| ApIdle.Run | src/net/ApIdlePolicy.h:65-110 | over a whole run the policy's answers are those |
| ApIdle.AskedTooSeldom | src/net/ApIdlePolicy.h:95-98 | a miss: found empty a whole turn of the clock later, whatever the window |

## Left out

- PppHandover.EveryRunIsSafe: interfaces are numbers and esp_netif's start and stop take effect at the call, because esp_netif, lwIP's PPP and the event loop are not part of this model; clocks are a choice of step.
- PppHandover.FinishIsSkippedIff: says that a reader can leave a session open, not that it will, because the schedule is free.
- PppHandover.LastTakeover: bytes held back when the reader leaves stay in the arbiter, for the next reader to go on from; that they reach anybody is not claimed.
- UsbNcm.EveryRunIsSafe: interleavings of atomic accesses in one order for all tasks; the weaker ordering that acquire and release allow between a store and a later load of another variable is not modelled. Runs on which a barrier is posted at a multiple of 2^32 askings are excepted, and `UsbNcm.StaleBarrierDestroysEarly` shows why.
- UsbNcm.RingIsInOrder: claims order and content of what is sent, not the drop counters, which a switch-off and a drain can both count. A packet is a value, so a slot half written is not modelled; the publish after the write is.
- Rings, interfaces and contexts of `UsbNcm.dfy` and `PppHandover.dfy` are values and handles, not objects: update in place and aliasing are not captured there.
- TxQueues.TxQueue.Attach: slot counts to 65535 and arenas to 0xFFFF0000 bytes, because past them the source's 16- and 32-bit sums wrap.
- UartLinks.Link.Run: the sections the link's lock separates, one after another, while the reader is there; a sink that throws is not modelled.
- PppArbiters.Arbiter.FeedWord: no idle release in the middle of the word.
- PppTransmit.SendAll: calls do not overlap with a session's start on the reader task.
- Airtimes.Airtime.RetryAfterS: airtime is a real number, so rounding of floats is not modelled; the unlock is at `r` milliseconds, and the answer in seconds is up to 999 ms short of it. Instants past the clock's wrap are those of a clock that runs on; what the wrap does to the lock is `Airtimes.RetryAfter`.
- Airtimes.Replay: calls in the order of time and never 2^32 ms less a minute apart; a clock not looked at for a whole turn is not covered.
- HilLedger.Ledger.Load: JSON text is whole objects and beginnings of them; a line is read exactly when it is one whole object. The payload check of the header, times and extra facts of a row are not modelled.
- HilLedger.TallyAddsUp: counts; the sorted lists of sequence numbers beside them are not modelled.
- HilLedger.RunFrom: channels have one key each; which are quiet is given, one answer to a channel and run.
- HilPvalue.ExcessLossPvalue: exact numbers for the program's floats; counts are those the tally gives, misses not above frames.
- Clients.Server.Admit: whether the context, the list and the close succeed is given; an id is taken only when the context is made.
- Clients.Run: callbacks and sends one at a time, as the event task and the list's lock make them; the inbound path (`onData`), log lines and their rate limit are left out.
- ApIdle.RightIff: histories in the order of time.
- Time on air, regions, bands and contention windows of `src/radio/Airtime.cpp`: tables and formulas around the window.
- `src/net/LocalLinkState.h`, `src/net/UartPortPolicy.h`, `src/net/Mdns.h`: short case analyses.
- `src/net/CaptiveDns.cpp`, `src/net/ConsoleServer.cpp`: socket plumbing.
- The other tools, `src/Config.h`, board headers and boot order: configuration.
- Fairness: that a task is scheduled and that a host answers. `PppProgress` and `UsbProgress` count a task's own steps.
- UsbProgress.DrainEmpties: when a frame is stale and when the retry timer fires are choices of step; that a drain is queued again is not claimed.
