# Verified model of the door-intercom agent

This project models the part of the intercom agent that has to be right for a door to be
answered, opened and watched: the PENGUIN0 wire codec with its media path, the bounded buffers
behind the HTTP API, and the arbitration between the wall Pad and remote clients. Bytes are
mathematical integers below 256 and every cast, wrap-around and saturation of the source is
written out. State that the source updates in place is a class here, too, and each of its methods
is proved to compute a specification function; the laws are proved about those functions, over
every input, every run and every interleaving.

- **Media path** (`Protocol`, `Fragmenter`, `Gluing`, `Splitter`, `Reassembler`, `Reassembly`,
  `Interleaving`, `MediaPath`): fragment, pack, glue into datagrams, split, parse and reassemble
  in any order is the identity. `Gluing` holds the theory of splitting for any framing;
  `Splitter` shows which of the agent's messages fit it.
- **Framing below** (`Checksum`, `Ethernet`, `Pcap`): the one's-complement checksum, the frame
  builder, and two parsers.
- **Bounded buffers** (`EventLog`, `SseResume`, `MediaRing`, `CommandCache`): each agrees with
  the unbounded structure it stands for. `SseResume` lets pushers and a client that breaks off and
  resumes at any line interleave freely, with append and broadcast, subscribe and replay as separate
  steps.
- **Server input** (`ChunkedCoding`, `TalkBack`): section 7.1 of RFC 9112 and the 512-byte talk
  packets.
- **Arbitration** (`CallMachine`, `Identity`, `AgentModel`, `AgentRuns`, `AgentLog`, `AgentCommands`,
  `AgentSafety`): the call state machine, trust on first use, and whole runs of sightings, wire
  messages and remote commands whose sends and `nft` calls may each fail. Every handler is one
  atomic step.
- **The bytes** (`WireFormat`): what each packet and frame looks like, literally.
- **The tap** (`TapWire`, `Capture`, `CaptureLaws`, `CallAgent`): the agent object with its capture loop and its
  injected frames, which refines the model and joins all of the above, from Ethernet frames to
  events and video frames.

Where the code does not do what one would expect, the exact condition under which it does is
proved:

- `elevator_request` declares 32 bytes and is 74 long, so a list of built messages survives gluing
  if and only if it holds no elevator request (`Splitter.BuiltMessagesSplit`).
- A claim or hangup changes the machine before its packet is sent. The log goes on determining the
  call if and only if no such packet fails (`AgentLog.LogDeterminesTheCall`); `AgentLog.LogCanDiverge`
  is a run that parts them.
- `docs/ARCHITECTURE.md:121` promises that hanging up restores the Pad. It does so at every moment of a
  run if and only if no hangup of a silenced call fails to get out or to flush
  (`AgentSafety.RunFailsOpen`). `AgentSafety.LeftoverTableIsReachable` is a run that leaves the Pad
  silenced with the call over, and by `AgentSafety.TableGoesIff` only the hangup of a later call
  removes the table.
- `docs/ARCHITECTURE.md:13-14` and `docs/PENGUIN0.md:294` allow unlocking only for a remote owner of
  an answered call. That holds over all runs if and only if the policy is the strict one
  (`AgentSafety.UnlockRuleIsExact`, `CallMachine.StrictPolicyIsExact`); under the other one the first
  command after boot opens the door.
- Events are appended under the log's lock and broadcast after it is released, so a broadcast can
  overtake an earlier one. A client that resumes behind the later event then misses the earlier one
  for good: resuming is safe if and only if the client subscribes before it replays and, unless
  connections never break, broadcasts keep their order (`SseResume.ResumingIsExact`).
- A block whose door is wrong can still teach the room's address exactly as
  `Identity.RejectedBlockTeaches` says, and a door record with neither id nor address rejects a block
  that brings both (`Identity.AcceptedIffAgrees`); `Identity.BlankDoorIsReachable` reaches one.
- The capture loop pins a sender's MAC before the identity check, so that a message whose block is
  refused can decide the MAC of its side. It does so if and only if none was known for that side
  (`Capture.RefusedMessageTeaches`); `Capture.RefusedMessageCanTakeTheDoorsMac` is such a run.
- The reassembler is never reset, so slots of a frame that was lost stay under its number. A frame
  that reuses the number comes out intact if and only if the held one has another count or lacks the
  slot that arrives last (`Reassembly.NumberInUseIsExact`).
- An audio chunk and a later video frame with the same time stamp are evicted in the wrong order
  (`MediaRing.OrderIsExact`).
- A zero-length chunk is the end of a chunked body, so chunks survive if and only if none is empty
  and the body fits (`ChunkedCoding.ChunkedRoundTrip`).

## Model

| member | source | states |
|---|---|---|
| Protocol.StationRoundTrip | src/protocol.rs:63-84 | packing fails exactly for ids over 20 bytes; otherwise parsing gives the station cut at its first NUL, hence the same station iff the id has no NUL |
| Protocol.EndpointsRoundTrip | src/protocol.rs:104-119 | a packable endpoint block comes back unchanged iff neither id contains a NUL |
| Protocol.PacketParses | src/protocol.rs:142-161 | any packet, followed by any bytes, parses to exactly its family, opcode, declared size, reserved field and body |
| Protocol.SessionControlRoundTrip | src/protocol.rs:293-295 | a control packet parses to its opcode and its endpoint block |
| Protocol.MediaParses | src/protocol.rs:173-191 | a media packet yields exactly its fragment, whatever the slot size: padding never leaks into the data |
| Protocol.AudioRoundTrip | src/protocol.rs:403-417 | 512 bytes of PCM come back with their sequence number |
| WireFormat.HeaderBytes | src/protocol.rs:223-236 | the 32 header bytes, literally: the magic, family, opcode and declared size, little-endian, and zeros |
| WireFormat.BlockBytes | src/protocol.rs:63-109 | the block is the door's id in 20 bytes and its address, then the room's |
| WireFormat.CommandBytes | src/protocol.rs:293-295 | the claim, unlock and hangup packets byte by byte, with opcodes 05, 06 and 1E |
| WireFormat.JpegBytes | src/protocol.rs:265-291 | a JPEG packet byte by byte |
| WireFormat.AudioBytes | src/protocol.rs:403-417 | an audio packet byte by byte |
| WireFormat.FixedPackets | src/protocol.rs:392-401 | the page and bootstrap requests byte by byte |
| WireFormat.SetupBytes | src/protocol.rs:256-378 | header, block and tail of the call, view and ring packets |
| WireFormat.RoomBytes | src/protocol.rs:331-390 | the elevator request and the bootstrap reply byte by byte |
| WireFormat.FrameBytes | src/ethernet.rs:108-132 | a built Ethernet frame byte by byte |
| Fragmenter.ChunksJoin | src/protocol.rs:271-273 | cutting into 1200-byte chunks loses, repeats and reorders nothing |
| Fragmenter.JpegPackets | src/protocol.rs:265-291 | the loop emits one 1290-byte packet per chunk, in order, or fails exactly when a station id is too long |
| Fragmenter.JpegPacketParses | src/protocol.rs:265-291 | the receiver reads from packet i chunk i and its coordinates |
| Gluing.Framing.SplitInvertsGluing | src/protocol.rs:480-505 | for any framing, a list of framed messages is recovered from its concatenation |
| Gluing.Framing.EveryStartIsCovered | src/protocol.rs:480-505 | no start of a message falls outside the emitted slices |
| Gluing.Framing.FirstMisfit | src/protocol.rs:480-505 | a single message cut at a wrong length loses the list |
| Splitter.SplitCoalesced | src/protocol.rs:480-505 | the loop computes Split and terminates on every input |
| Splitter.SlicesOfArbitraryBytes | src/protocol.rs:480-505 | on arbitrary bytes the slices are ordered, disjoint, each starts with the magic, and every magic occurrence lies in one |
| Splitter.MediaSliceSize | src/protocol.rs:462-478 | the size of a media message comes from its real slot, whatever follows it in the datagram |
| Splitter.ClaimIs | src/protocol.rs:462-478 | which length a message claims: by type for media, else as declared, else 80 for a keepalive |
| Splitter.FieldsAre | src/protocol.rs:143-161 | a message keeps its family, opcode and declared size at bytes 8, 10 and 14, little-endian |
| Splitter.UnusableClaim | src/protocol.rs:489-498 | a message whose claim cannot be used ends at the first magic behind its own, or with the datagram |
| Splitter.KeepaliveIsFramed | src/protocol.rs:477-477 | a keepalive that declares less than a header is cut at 80 bytes |
| Splitter.BootstrapRequestIsFramed | src/protocol.rs:399-401 | the bootstrap request, which declares 20 of its 32 bytes, is recovered through the search for the next magic |
| Splitter.BuiltIsFramed | src/protocol.rs:223-417 | every builder's message except the elevator request is cut at its own length |
| Splitter.ElevatorIsCutShort | src/protocol.rs:331-349 | every elevator request is 74 bytes long and cut at 32 |
| Splitter.BuiltMessagesSplit | src/protocol.rs:462-505 | splitting recovers any list of built messages iff no elevator request is among them |
| Reassembler.LengthTestSuffices | src/protocol.rs:531-535 | with indices in 1..count, as many parts as count means that every part is there |
| Reassembler.JpegIsDelimited | src/protocol.rs:544-544 | the test on a complete frame is exactly that it starts with FF D8 and ends with FF D9, for data of any length |
| Reassembler.IgnoredFragments | src/protocol.rs:515-521 | a fragment of another type, or with an index outside 1..count, is ignored |
| Reassembler.NinthDrivesOutTheFirst | src/protocol.rs:547-553 | eight frames stay open, and a ninth drives out the one opened first |
| Reassembler.PushIsHealthy | src/protocol.rs:514-553 | every push keeps: at most 8 frames open, distinct sequences, each incomplete with indices in 1..count |
| Reassembler.PushByLookup | src/protocol.rs:514-553 | what one push does to every sequence: which frame changes, when one is returned, and which one is evicted, never the one just pushed |
| Reassembler.JpegReassembler.Push | src/protocol.rs:514-545 | the map and the order queue, updated in place, stay linked and do exactly what the list of open frames does |
| Reassembler.JpegReassembler.Trim | src/protocol.rs:547-553 | eviction pops the earliest opened frames, terminates, and keeps queue and map in step |
| Reassembly.RunIsHealthy | src/protocol.rs:513-553 | every reachable state satisfies that invariant |
| Reassembly.GatheringStaysOpen | src/protocol.rs:514-545 | while a slot is missing nothing comes out and everything received is kept |
| Reassembly.AnyArrivalOrder | src/protocol.rs:514-545 | in any arrival order and with repeats the frame comes out at the push of its last missing slot, byte-exact, and nothing earlier, unless an unfinished earlier frame of the same number and count left the slot that arrives last |
| Reassembly.NumberInUseIsExact | src/protocol.rs:514-545 | for a number in use and arrivals without repeats that holds iff the held frame has another count or lacks the slot that arrives last |
| Interleaving.BoundedRunAgrees | src/protocol.rs:514-553 | with at most 8 sequences incomplete at once, each sequence gets what a reassembler of its own would return |
| Interleaving.SharingIsExact | src/protocol.rs:547-553 | the shared reassembler agrees with separate ones at every moment iff never more than 8 are incomplete |
| Interleaving.InterleavedFrame | src/protocol.rs:514-553 | in an arbitrary interleaving every completed frame comes out once and byte-exact, also when its sequence number was used before and is used again |
| MediaPath.HandedByBuilt | src/protocol.rs:173-191 | of all built messages only a JPEG packet reaches the reassembler, with its own fragment |
| MediaPath.GroupingIsInvisible | src/protocol.rs:480-505 | the grouping of messages into datagrams does not change which fragments are received, nor their order |
| MediaPath.FeedMessage | src/agent.rs:582-603 | while a monitor is active, the fragment of a session-like media message goes to the reassembler whatever its block says, and audio does not |
| MediaPath.FrameSurvivesTheWire | src/protocol.rs:265-553 | the whole path: a frame sent in any order, repeated, mixed with other messages and grouped at will comes out unchanged at its last missing slot, and nothing earlier |
| MediaPath.InterleavedFrameSurvivesTheWire | src/protocol.rs:265-553 | the same for many frames at once, as long as at most 8 are incomplete, and with sequence numbers used again before and after |
| MediaPath.RoundTripIsExact | src/protocol.rs:271-280 | fragments pushed in order give a buffer back iff it is delimited like a JPEG and has 1 to 65535*1200 bytes, where the u16 casts are exact |
| Checksum.ComputeChecksum | src/ethernet.rs:135-147 | the running sum stays within 16 bits and the result is the one's complement of the word sum |
| Checksum.OnlyZerosSumToZero | src/ethernet.rs:135-147 | the checksum is all ones for all-zero data and for nothing else |
| Checksum.OddByteIsPadded | src/ethernet.rs:138-142 | an odd last byte counts as if a zero followed |
| Checksum.FieldVerifies | src/ethernet.rs:122-123 | a checksum field makes the total verify iff it holds the computed checksum, or all ones for a checksum of zero |
| Ethernet.ParseFrame | src/ethernet.rs:48-86 | the tag-skipping loop and the field reads compute Parse, error cases included |
| Ethernet.VlanTagsAreTransparent | src/ethernet.rs:52-60 | inserting any number of VLAN tags after the addresses changes the result for no frame |
| Ethernet.ParserIsExact | src/ethernet.rs:48-86 | a frame is accepted as a datagram iff it is that datagram laid out with some tags, options, checksum and padding |
| Ethernet.BuildUdpIpv4 | src/ethernet.rs:89-133 | the buffer filled in place is the specified frame, and the build fails exactly for payloads over 65507 bytes |
| Ethernet.FrameRoundTrip | src/ethernet.rs:89-133 | parsing a built frame, padded or not, gives back all inputs |
| Ethernet.BuiltHeaderVerifies | src/ethernet.rs:122-123 | the header of every built frame re-checksums to zero, and no other checksum value would but the second zero |
| Pcap.DecodeUdp | src/pcap.rs:73-108 | the second parser's loop computes Decode |
| Pcap.ParsersAgree | src/pcap.rs:73-108 | whatever the first parser accepts the second reads alike; the first accepts exactly what the second does with version 4 and an uncut datagram |
| Pcap.SecondTakesMore | src/pcap.rs:90-95 | a packet with version 6 that only the second parser takes |
| Pcap.CutCapture | src/pcap.rs:97-107 | a capture cut anywhere in the payload still yields the flow with the captured part |
| EventLog.GapIsOverflow | src/agent_api.rs:537-554 | an event after the given number has left the ring iff more than its capacity follow; otherwise ring and unbounded log agree |
| EventLog.EventLog.Push | src/agent_api.rs:508-525 | push appends to the unbounded log and keeps its newest events |
| EventLog.EventLog.Recent | src/agent_api.rs:537-554 | recent answers what the unbounded log would, or None exactly when an event it should return was evicted |
| SseResume.StepKeepsInvariant | src/agent_server.rs:770-845 | every step of every pusher, of the client and of a breaking connection keeps: a connected client without pending lag has or awaits every broadcast event above its base, the last snapshot or else its first id |
| SseResume.RunKeepsInvariant | src/agent_server.rs:770-845 | hence every interleaving over any number of connections does, given in-order broadcasts or a connection that never breaks |
| SseResume.ResumingIsExact | src/agent_api.rs:508-525 | no interleaving loses an event iff the client subscribes before it replays and either connections never break or no broadcast overtakes an earlier one |
| SseResume.OvertakingLoses | src/agent_api.rs:508-525 | a run of append, overtaking broadcast, disconnect and resume that loses an event, for every starting id and capacity |
| SseResume.RunLosesNothingIff | src/agent_server.rs:770-845 | run by run, in every configuration: nothing is lost at any moment iff no replay starts behind, and no late subscription leaves, a broadcast event above the base that the client lacks |
| SseResume.AfterASnapshot | src/agent_server.rs:780-808 | a client that broke off right behind a snapshot is replayed the whole log if the ring holds it, and else another snapshot |
| SseResume.AfterAnEvent | src/agent_server.rs:780-790 | a client that broke off behind an event is replayed exactly the later ones if the ring holds them, else a snapshot |
| SseResume.DrainedClientHasEverything | src/agent_server.rs:770-845 | a drained client, over all its connections, was sent exactly the log's events above its base |
| MediaRing.PushHoldsLongest | src/agent_api.rs:405-435 | eviction after a push leaves exactly the longest suffix of all pushes whose times plus the window reach the newest and whose bytes are within the cap |
| MediaRing.OrderIsExact | src/agent_api.rs:415-433 | for times that never decrease and non-empty video frames that holds under every window and cap iff no video frame follows an audio chunk, empty or not, of its own time |
| MediaRing.MediaRing.PushVideo | src/agent_api.rs:385-393 | the byte counter is exact and never underflows, the cap holds for any times, and the queues hold the longest suffix |
| MediaRing.MediaRing.PushAudio | src/agent_api.rs:395-403 | the same for audio |
| MediaRing.MediaRing.Evict | src/agent_api.rs:405-435 | the three loops compute the specified eviction for any two queues |
| MediaRing.SpanOfSuffix | src/agent_api.rs:456-476 | what buffered reports is the span of the suffix held, at most the window |
| MediaRing.NewerIsSuffix | src/agent_api.rs:437-454 | in a queue in time order the history since a time is exactly the suffix of later samples |
| CommandCache.StoredRemembers | src/agent_api.rs:585-594 | storing under a new id keeps map and queue at exactly the newest results, each id once |
| CommandCache.FoundIffRecent | src/agent_api.rs:572-583 | an id is found iff fewer than capacity results were stored since, and then with its own result, flagged as replayed |
| CommandCache.CommandCache.Store | src/agent_api.rs:585-594 | the method keeps map and queue as specified, for any state |
| ChunkedCoding.SizeRoundTrip | src/agent_server.rs:327-331 | printing a size in hexadecimal and parsing the line gives it back over the whole range of usize |
| ChunkedCoding.SizeOfIsExact | src/agent_server.rs:327-331 | a size line is read as a number iff it spells it: its hexadecimal digits in either case, with leading noughts, a plus sign, blanks around and an extension allowed and nothing else |
| ChunkedCoding.LongestLineIs | src/agent_server.rs:312-325 | a line of up to 1023 bytes is read, a longer one refused |
| ChunkedCoding.DecoderIsExact | src/agent_server.rs:290-331 | the decoder returns a body and a rest iff the input is a legal chunked body of that content within the limit, followed by the rest |
| ChunkedCoding.NothingBeyondIsRead | src/agent_server.rs:290-310 | bytes after the body change nothing and stay in the input |
| ChunkedCoding.DecodeConsumesAFront | src/agent_server.rs:290-331 | also when it fails, the decoder has consumed a front part of the input and left the rest |
| ChunkedCoding.EncodedIsRead | src/agent_server.rs:290-310 | what any encoder output decodes to: everything up to the first empty chunk, the rest left in place, or a refusal for length |
| ChunkedCoding.ChunkedRoundTrip | src/agent_server.rs:732-740 | encoding then decoding is exact, with following input untouched, iff no chunk is empty and the body fits the limit |
| ChunkedCoding.Reader.ReadLine | src/agent_server.rs:312-325 | the byte loop returns the line up to the first CRLF, or the right error for a closed input or a line too long, and leaves exactly the rest |
| ChunkedCoding.Reader.ReadChunked | src/agent_server.rs:290-310 | the reader's loops compute Decode, and leave exactly the rest in the input whether they succeed or fail |
| ChunkedCoding.Writer.WriteChunk | src/agent_server.rs:732-740 | a chunk is appended to the output as size line, data and CRLF |
| TalkBack.OneFrame | src/agent.rs:1113-1134 | a talk of 512 bytes puts one packet with the next number on the wire, or none if it is refused |
| TalkBack.FramesJoin | src/agent.rs:1121-1123 | the frames of any PCM join to it and fewer than 512 zeros |
| TalkBack.TalkAnswer | src/agent.rs:1113-1134 | which answer a talk gets, by the call, the endpoints and the wire |
| TalkBack.CutsAreInvisible | src/agent_server.rs:1234-1257 | where the stream is cut into messages makes no difference, also when a talk is refused |
| TalkBack.StreamIsHeard | src/agent_server.rs:1234-1262 | the packets carry, numbered consecutively modulo 65536, the stream's whole 512-byte frames up to the first refused talk; the socket ends iff one is refused |
| TalkBack.TalkSocket.OnBinary | src/agent_server.rs:1240-1262 | the drain loop computes Receive |
| CallMachine.RunIsConsistent | src/state.rs:78-143 | in every run the call has an owner exactly while it is connected |
| CallMachine.FirstAnswerWins | src/state.rs:90-112 | once connected, owner and session stay until a hangup or a new call |
| CallMachine.AnswersAcceptedIff | src/state.rs:90-112 | either side's answer is accepted iff the call rings, and then connects it to that side |
| CallMachine.UnlockAcceptedIff | src/state.rs:78-143 | an unlock is accepted iff the policy allows it and the call's last one is a cooldown back; a new call or a hangup clears the wait |
| CallMachine.UnlocksAreCounted | src/state.rs:126-127 | the machine counts exactly the unlocks it accepts |
| CallMachine.UnlocksAreSpaced | src/state.rs:114-129 | accepted unlocks come at least one cooldown apart |
| CallMachine.UnlockRateBound | src/state.rs:114-129 | n accepted unlocks without hangup or new call span at least n - 1 cooldowns |
| AgentSafety.RunUnlockRateBound | src/agent.rs:792-816 | over agent runs without a new call or a hangup, n accepted unlock commands span at least n - 1 cooldowns, whatever happens to their packets |
| CallMachine.StrictPolicyIsExact | src/state.rs:114-129 | in every run from boot each accepted unlock finds a connected call owned by the remote side iff the policy is the strict one |
| CallMachine.CallMachine.Unlock | src/state.rs:114-129 | the method refuses and changes exactly as specified |
| Identity.RunKeeps | src/agent.rs:437-558 | over any run no known address, door id or MAC ever changes |
| Identity.AcceptedIffAgrees | src/agent.rs:515-558 | a block is accepted iff it contradicts nothing known and does not bring both id and address to a blank door; then it equals the pinned endpoints |
| Identity.AddressBelievedIff | src/agent.rs:447-486 | a discovered address is believed iff it is one and none or the same is known, and then becomes the station's |
| Identity.MacAcceptedIff | src/agent.rs:491-511 | a MAC is accepted iff it is the first of its side or the same again |
| Identity.OwnAddressOnce | src/agent.rs:437-443 | the Pad's own address is learned once |
| Identity.RejectedBlockTeaches | src/agent.rs:515-558 | what accept_endpoints learns from a block it rejects: the room's address, and exactly when |
| Identity.BlankDoorIsReachable | src/agent.rs:515-558 | one all-zero door record, seen before the door is known, makes every complete block that nothing known contradicts rejected |
| Identity.AcceptedBlocksAreIdentical | src/agent.rs:515-558 | over any run every block accepted after a fully specified one is that very block |
| Identity.PeerTable.Accept | src/agent.rs:515-558 | the method learns and answers as specified |
| AgentLog.StepTracks | src/agent.rs:693-849 | the log determines phase, owner and session after a step iff the step is not a claim or hangup whose packet failed |
| AgentLog.LogDeterminesTheCall | src/agent.rs:693-849 | over whole runs the log determines the call at every moment iff no claim or hangup fails to get out |
| AgentLog.LogCanDiverge | src/agent.rs:801-842 | a run from any boot with a known door in which the machine is connected while the log tells of a ringing call |
| AgentLog.AnswersAreSeparated | src/agent.rs:715-730 | in every run from boot, failures included, a new call starts between two answers, so each call is answered at most once |
| AgentLog.CallsAreSeparated | src/agent.rs:693-762 | in every run from boot whose claims and hangups get out, a call ends before the next one starts |
| AgentLog.SessionsIncrease | src/agent.rs:693-713 | in every run from boot, failures included, session ids strictly increase, so a retransmitted ring never reuses one |
| AgentLog.PadAnswerIsTaken | src/agent.rs:715-730 | the Pad's answer to a ringing call connects it to the Pad, is logged, and makes a claim refused |
| AgentLog.PadUnlockIsLogged | src/agent.rs:732-744 | a Pad that opens the door is logged iff it owns the call |
| AgentLog.RingIsLogged | src/agent.rs:693-713 | a ring starts a call, with the two stations in the log, iff none is on |
| AgentLog.HangupIsHeard | src/agent.rs:746-762 | a hangup from either side ends any call and is logged iff there was one |
| AgentLog.OtherMessagesAreIgnored | src/agent.rs:645-690 | every message of another side or opcode, and every one whose block is refused, changes nothing but what is known of the stations |
| AgentLog.OnlySessionMessages | src/agent.rs:645-650 | only messages of the family B7 take part in calls |
| AgentLog.RunRings | src/agent.rs:693-713 | in every run every call in the log names this household's stations |
| AgentCommands.RunMatches | src/agent.rs:801-848 | in every run, with or without failures, command packets on the wire and command events in the log correspond one for one, in order, and every packet names the stations as they are pinned |
| AgentCommands.OneHouseholdPerRun | src/agent.rs:796-848 | all fully specified command packets of a run carry the same block |
| AgentCommands.AnswerIsTrue | src/agent.rs:836-848 | a new command is answered with its id, and ok iff its packet went out and its event was logged |
| AgentCommands.ErrorsByGuard | src/agent.rs:792-844 | which error a command gets, guard by guard, and that it passes iff no guard stops it |
| AgentCommands.PadKeepsItsCall | src/agent.rs:715-842 | after the Pad's answer every new claim is refused in any run until a hangup |
| AgentSafety.StepFailsOpen | src/agent.rs:746-835 | a step keeps the Pad silenced only during the remote side's call iff it is not a hangup, carried out while the table is installed, whose packet or flush fails; the condition reads only the state before the step |
| AgentSafety.RunFailsOpen | src/wire_tap.rs:184-223 | over whole runs the table is at every moment confined to a connected call owned by the remote side iff no such hangup occurs |
| AgentSafety.TableGoesIff | src/agent.rs:746-835 | the table goes in a step iff that step is a hangup of an active call that is carried out, gets out and flushes |
| AgentSafety.TableStaysIff | src/agent.rs:746-835 | an installed table stays all along a run iff the run has no such step |
| AgentSafety.LeftoverTableIsReachable | src/agent.rs:817-842 | a run from any boot that knows every address which ends with the call over and the Pad still silenced |
| AgentSafety.UnlockRuleIsExact | src/agent.rs:809-813 | over all runs an unlock packet goes out only in a connected call owned by the remote side iff the policy is the strict one |
| AgentSafety.RunResets | src/wire_tap.rs:204-215 | in every run the Pad is sent a reset at most once per claim that got out, with the block of a claim |
| AgentSafety.ClaimResetsThePad | src/wire_tap.rs:184-217 | a claim that gets out resets and silences the Pad iff every address is known and the reset or the table works |
| AgentSafety.RunKeepsPeers | src/agent.rs:437-558 | no handler and no sighting ever changes anything known about the household |
| AgentCommands.RunIsCacheSound | src/agent.rs:792-848 | in every run the cache holds exactly the newest 256 results |
| AgentCommands.EveryRunFromBoot | src/agent.rs:563-849 | the run laws from boot: log and call, silencing, cache and household |
| AgentCommands.RepeatedCommandIsReplayed | src/agent.rs:792-848 | after any run in which fewer than 256 results were stored, repeating an id returns its result flagged as replayed and changes no machine state, packet or event |
| Capture.FramesAreARun | src/wire_tap.rs:69-129 | whatever frames are captured, the agent makes turns of its model, none of them a command, so every law about runs holds of captured traffic |
| Capture.CapturedTrafficIsTracked | src/wire_tap.rs:69-129 | no captured traffic makes log and call differ |
| Capture.DoorMediaIsTaken | src/wire_tap.rs:69-129 | whatever traffic goes by, of the Pad, of other hosts, malformed or forged, attribution, MAC check and identity check let pass exactly the media that the known door sends under the household's own block |
| Capture.TrafficBrings | src/wire_tap.rs:69-129 | what that is for traffic in which the door's frames bring built messages and all other frames are foreign |
| Capture.RefusedMessageTeaches | src/wire_tap.rs:96-126 | a message whose block is refused still teaches its sender's MAC iff none was known for its side |
| Capture.RefusedMessageCanTakeTheDoorsMac | src/wire_tap.rs:96-126 | a run from a boot that knows the room's id alone in which a refused message decides the door's MAC, after which no message of another MAC is taken as the door's |
| Capture.FrameSurvivesTheTap | src/agent.rs:672-687 | from Ethernet frames, among any other hosts' traffic, to a video frame: a JPEG frame comes out unchanged at its last missing slot and is kept in the pre-roll buffer |
| Capture.InterleavedFrameSurvivesTheTap | src/agent.rs:672-687 | the same for many frames at once, as long as at most 8 are incomplete |
| Capture.EveryPictureIsKept | src/agent.rs:764-773 | over any captured traffic the pre-roll buffer is given exactly the frames that the reassembler returns, in order |
| CaptureLaws.DoorSoundIsKept | src/agent.rs:672-687 | whatever goes by, the pre-roll buffer is given exactly the door's own sound, in order |
| CaptureLaws.SoundOfBuilt | src/agent.rs:677-681 | of all built messages only an audio packet carries sound, its own PCM |
| CaptureLaws.KeptInTime | src/agent.rs:676-686 | what is kept is stamped with its message's time, so in order of time while the clock never runs back |
| CaptureLaws.DiscoveryRoundTrip | src/protocol.rs:419-460 | a discovery request and reply are recognised as what they are, for their room iff its id has no NUL |
| CaptureLaws.DiscoveryTeaches | src/wire_tap.rs:78-92 | a request for this room teaches the door's address and MAC, a reply the Pad's, each only where nothing else is known |
| CallAgent.CallAgent.OnFrame | src/wire_tap.rs:69-129 | the capture loop over one frame, discovery and control, refines the model |
| CallAgent.CallAgent.OnWire | src/agent.rs:645-691 | parsing, identity check, dispatch and the media arm, with sound and stamped frames stored in the pre-roll buffer, refine one step of the model |
| CallAgent.CallAgent.Execute | src/agent.rs:792-849 | a command, with its cache lookup, machine change, send, silence table, event and store, refines one step of the model |
| TapWire.TapWire.SendAsPad | src/wire_tap.rs:134-175 | a command packet that goes out is a frame from which the door parses that packet, between the two stations' addresses, and none goes out before every address is known |
| TapWire.TapWire.OnRemoteClaim | src/wire_tap.rs:184-217 | the table is installed and the Pad sent a frame from which it parses a hangup in the door's name, each only if every address is known and the call out succeeds |

## Left out

- Sockets, AF_PACKET, `nft` processes, timers, TLS, the accept loop and the WebSocket library: a send
  or an `nft` call succeeds or fails as the input of the step says.
- Concurrency inside a handler: each handler is atomic, although the source releases its locks before
  it pushes events. Two concurrent `execute` calls with one id can both miss the cache there.
- Monitor, outbound dial and elevator handling in `src/agent.rs`: no monitor and no outbound call is
  active in the model of the agent.
- The live broadcast and the preview that the media arm also feeds, `video_frames`, `door_audio` and
  `since_ms`: they touch nothing that the laws speak of.
- Handshake replies: in tap mode the agent sends none (`src/wire_tap.rs:168-170`), and no other mode is
  modelled.
- The broadcast channel behind `EventLog` beyond its promise: a full channel drops its oldest message
  and tells the receiver that it lagged.
- The stream's other contents (heartbeats, the retry line, the lifetime limit) and the body of a
  snapshot; JSON and event names.
- `EventLog` and `CommandCache` with capacity 0, `recent(u64::MAX)`, and the overflow of 64-bit
  counters and clocks.
- Lossy UTF-8 and non-ASCII whitespace in station ids and chunk lines: text is its bytes, as for ASCII.
- ChunkedCoding.Reader.ReadChunked: adds body length and chunk size without bound, where the source
  panics for sizes near 2^64.
- Talk uploads over plain HTTP, which share the drain loop but read only part of a chunk over 64 KiB.
- TalkBack.StreamIsHeard: takes the call as it stands at each talk as an input, because it may change
  between two talks.
- The contents of the fixed capability tables: they are parameters of the right length.
- Fragmenter.JpegPackets: wraps the index of a slot beyond 65535 as a release build does, because a
  debug build panics there.
- HomeKit, the web page, configuration, rule text, RTSP and the door, replay and emitter programs, which
  repeat the same command logic and codec around input and output.
