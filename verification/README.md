# cam-reverse: a verified model

cam-reverse is a client for cheap cameras that speak an unreliable UDP protocol ("iLnk/PPPP"). This
project models the parts of it that keep state across datagrams, and the byte layer under them, in
Dafny 4.11, and proves properties of whole runs. `dafny verify dfyconfig.toml` checks everything.

What is modelled, in the order of the data:

- **Bytes** (`Bytes.dfy`, `DataView.dfy`, `Crypto.dfy`, `Impl.dfy`, `ControlDecoding.dfy`): cursors that
  share one growing buffer, the in-place "Xq" obfuscation, control packets written field by field and
  decoded in place. `Decoded`, `ControlPacket` and `Splice` say on values what the methods do on buffers.
- **JPEG frames** (`RestartMarkers.dfy`, `FrameAssembler.dfy`, `DatagramKinds.dfy`, `AssemblerRuns.dfy`,
  `WholeFrames.dfy`, `AssemblerRepair.dfy`, `RepairedFrames.dfy`, `AssemblerRoundTrip.dfy`): `DatagramKinds`
  tells by the bytes of a datagram what it carries. The assembler is the function
  `Deliver` of its four fields and one input; `Handlers.DealWithData` is proved to compute it, and the run
  theorems are proved about it. The camera is a sequence of sent packets, the network an arbitrary sequence
  of deliveries of them, and every delivery may meet a listener that raises. Restart markers are those of
  ITU-T T.81 section B.1.1.3, Table B.1.
- **Commands** (`Channel.dfy`, `ChannelRuns.dfy`, `SessionChannel.dfy`): the dictionary of unacknowledged
  packets, in insertion order, as a state machine over an abstract command identity; its runs; and the runs
  that a session makes, in which every command is built, sent once and then left to the resend timer.
- **Session** (`Session.dfy`, `Answers.dfy`, `AnswerLaws.dfy`, `Handlers.dfy`, `Liveness.dfy`,
  `SessionEvents.dfy`, `SessionRuns.dfy`): the class
  `Session` keeps the commands in buffers that the resend timer rewrites in place; `Session.Chan()` is the
  abstract state of its channel. `Answers` says as functions what each datagram makes a session do,
  `Handlers.HandleIncoming` is proved to do it, and `AnswerLaws` says in the bytes of the wire what that is. The invariants `Valid()`, `TicketsOk()` and `Recorded()` are
  kept by every step; the last one says that the recorded history of the channel is a session run and leads to
  its present state. A ghost log records logins, first transmissions and resends, each resend with the place
  of its own command's first transmission. `SessionRuns.SessionRun` is the event loop over a new session, and
  brings the run theorems down to the object.
- **Server** (`Registry.dfy`, `HttpServer.dfy`, `ServerRuns.dfy`): the registry of sessions as steps on a map,
  and the class `Server` on session objects that share its dictionary: a Close or a timeout of any session
  runs all "disconnect" listeners. `ServerRuns.ServerRun` is the event loop over a server and all its sessions.
- **Around it** (`Wifi.dfy`, `WifiSettings.dfy`, `Discovery.dfy`, `Exif.dfy`, `Orientations.dfy`): Wi-Fi
  messages, discovery, the served JPEG, and the orientations of section 8 of TIFF 6.0 as what a reader does to
  the picture.

Every lemma switches automatic induction off, so that each induction is written out.

Time is a parameter. The resend round gets one reading for its start and a function for the later
readings made while sending. Exceptions are the `Raise` case of `Result`.

Properties that are false of the code, with the exact condition under which they hold (those about
`rcv_seq_id`, late copies and fixing are for ids that do not wrap):

- `rcv_seq_id` starts at 0, so a continuation with id 1 can get in before its start packet. Hence
  `rcv_seq_id` never decreases, and late copies change nothing, exactly if no start packet with id 0 has a
  continuation (`RcvSeqIdNeverDecreasesIff`, `LateCopiesInvisibleIff`).
- An emitted image need not be a whole frame: if no id wraps among the packets that arrive since its start
  packet, it is one exactly if no packet overtook an earlier one and the last one arrived
  (`EmittedIsWholeFrameIff`); a lost tail is not noticed (`LostTailIsEmitted`).
- With fixing off an image emitted before a start packet was accepted can mix frames when ids wrap
  (`HeadlessWrapMixesFrames`); no other image does (`FramesAreNeverMixed`).
- Ids on data packets are compared without modulo: a frame is assembled completely exactly if its ids do not
  wrap inside it (`FrameAssembledIff`).
- With fixing on, frames can be mixed: an image stays inside one frame exactly if no start packet was sent
  between the packet that it begins with and the packet accepted last. All images of all runs do exactly if no
  image can reach a continuation with a restart marker and go on with another frame's continuation with one;
  it can begin with a start packet or, before one was accepted, with the packet with id 1
  (`RepairedInOneFrameIff`, `NeverMixedIff`, `RepairMixesFrames`, `HeadlessRepairMixesFrames`).
- A resend round can hand out the id of a command still waiting, which is then lost: all survive exactly if
  nothing clashes (`TickKeepsAllIff`). Until 65536 ids have been handed out nothing does (`NoWrapRunIsOk`);
  with the next one it can happen, after the clock was set back (`WrapLosesCommand`).
- A camera entry in the configuration that is not a map breaks the registry: it stays sound exactly if the
  entry is a map (`EntryMustBeMapIff`). The end of a session that is dead already drops its device, even if a
  new session holds it (`DisconnectKeepsLiveStoredIff`, `DeadSessionDropsLiveDevice`).
- The PunchPkt is echoed exactly if its strings are padded with NULs (`ReadyEchoesIff`), Wi-Fi settings come
  back exactly if the strings fit and hold no NUL (`WifiRoundTripIff`), and the orientation is found in a
  served image exactly if its first chunk has two bytes (`ServedImage`).

One step of `rotate` is served as a quarter turn to the left (`OrientationObeys`).

Where code and comments differ the code is followed: the start code of control packets is 0x110A
(`cam_reverse/handlers.py:128`, its comment says 0xa11), and payloads are encoded from five bytes on
(`cam_reverse/impl.py:26`, the repository's README says "> 5").

## Model

| member | source | states |
|---|---|---|
| AssemblerRuns.FramesAreNeverMixed | cam_reverse/handlers.py:202-286 | With fixing off, under loss, repetition and reordering, and across id wraps, every emitted image is the payloads of consecutive packets of one sent frame from its start packet on; the only exception is an emission before any start packet was accepted, which without id wrap is consecutive packets of one frame, too |
| AssemblerRuns.HeadlessWrapMixesFrames | cam_reverse/handlers.py:251-286 | A run across an id wrap in which that emission does mix two frames |
| AssemblerRuns.ImageIsSentFrame | cam_reverse/handlers.py:251-286 | The invariant behind it: after any run the current image is exactly the payloads of the sent packets that the run accepted since the last start packet, and `rcv_seq_id` is the last one's id |
| AssemblerRuns.RcvSeqIdNeverDecreasesIff | cam_reverse/handlers.py:251-286 | Without id wrap and with start packets in send order, `rcv_seq_id` never decreases over any run if and only if no start packet with id 0 has a continuation |
| AssemblerRuns.LateCopiesInvisibleIff | cam_reverse/handlers.py:251-253 | Without id wrap and with start packets in send order, adding later copies of accepted continuations to a run changes neither the images emitted nor the final state, over all runs, if and only if no start packet with id 0 has a continuation |
| AssemblerRuns.EmittedIffNoGapLeft | cam_reverse/handlers.py:216-286 | With fixing on or off, the image begun by an accepted start packet is emitted at the next start packet if and only if no packet arrived in between across a gap that was left unrepaired, counting from the last repair on |
| AssemblerRuns.FixingOffKeepsGaps | cam_reverse/handlers.py:257-264 | With fixing off one gap since the start packet is enough |
| WholeFrames.EmittedIsWholeFrameIff | cam_reverse/handlers.py:216-264 | Between an accepted start packet and the next one to arrive, if the ids of what arrives in between do not wrap: something is emitted if and only if no packet arrived before one sent earlier in between, and it is the whole frame as sent if and only if its last packet arrived, too |
| WholeFrames.LostTailIsEmitted | cam_reverse/handlers.py:216-222 | The smallest run in which it is not: the next start packet emits the beginning of a frame whose tail was lost |
| AssemblerRepair.ImageHasProvenance | cam_reverse/handlers.py:255-286 | In every reachable state the image is a list of slices of delivered payloads, the first being the whole first chunk of the start packet accepted last or, before there was one, of a packet with id 1; a join is cut iff its ids are not consecutive, the left piece ending before its last restart marker and the right one starting at its first; the first chunk is never cut; `frame_was_fixed` holds iff some join was cut; with fixing off none is |
| AssemblerRepair.EmittedImageHasProvenance | cam_reverse/handlers.py:216-219 | The same for every image handed to the listeners: it is the image of the state in which it is emitted, which is not marked bad, and with `frame_was_fixed` and `rcv_seq_id` of that state |
| AssemblerRepair.IdsIncrease | cam_reverse/handlers.py:251-257 | The ids of the pieces increase strictly along the whole image |
| RepairedFrames.RepairedInOneFrameIff | cam_reverse/handlers.py:255-286 | With fixing on and no id wrap, all pieces of the image of any reachable state come from one frame if and only if no start packet was sent between the packet that it begins with and the packet accepted last |
| RepairedFrames.NeverMixedIff | cam_reverse/handlers.py:255-286 | With fixing on and no id wrap, over all runs of the packets of a stream no image, begun by a start packet or before one was accepted, takes in a packet from beyond the next start packet, if and only if no image can reach, from a start packet or the packet with id 1, a continuation of that frame with a restart marker that is followed by another frame's continuation with one |
| RepairedFrames.RepairMixesFrames | cam_reverse/handlers.py:266-286 | A run in which they do not: a start packet is lost, the next frame's continuation is spliced in, and the mixture is emitted |
| RepairedFrames.HeadlessRepairMixesFrames | cam_reverse/handlers.py:266-286 | The same in a run that begins in the middle of a frame, before any start packet was accepted |
| AssemblerRoundTrip.RoundTrip | cam_reverse/handlers.py:202-286 | Any frames, fragmented in any way, delivered in order with any datagrams in between that carry no video by their bytes: the images emitted are all frames but the last, chunk for chunk, and the current image is the last |
| AssemblerRoundTrip.FrameAssembledIff | cam_reverse/handlers.py:251-253 | In-order delivery of a frame assembles it if and only if its ids do not wrap inside it; otherwise the chunks before the wrap are kept |
| AssemblerRoundTrip.NoiseIsInvisible | cam_reverse/handlers.py:226-241 | Datagrams that carry no video by their bytes, sound among them, leave run and result as they are |
| AssemblerRoundTrip.FramesCarryVideo | cam_reverse/handlers.py:235-249 | Every datagram of a frame carries video by its bytes |
| AssemblerRoundTrip.ClassifyFirst | cam_reverse/handlers.py:203-249 | An encoded first packet, framed or raw, is recognised with its id and payload |
| AssemblerRoundTrip.ClassifyRest | cam_reverse/handlers.py:243-245 | An encoded continuation is recognised with its id and payload |
| DatagramKinds.VideoByBytes | cam_reverse/handlers.py:210-249 | Id and payload of a datagram with video, by its bytes: from byte 40 or 8 to where the length field says it ends, or to where it does |
| DatagramKinds.OthersAreNoVideo | cam_reverse/handlers.py:203-249 | A datagram that neither begins nor continues an image, by its bytes, leaves the assembler as it is and emits nothing, whatever listeners do |
| DatagramKinds.SoundAndOthers | cam_reverse/handlers.py:204-241 | By its bytes: stream type 6 is sound, handed to its listener; sound, a length field under 12, any stream type but 3 and a stream header without image leave the assembler as it is and emit nothing |
| DatagramKinds.MalformedIff | cam_reverse/handlers.py:203-229 | Reading a data datagram raises exactly if a field that is looked at is not there |
| RestartMarkers.FindAllResetMarkers | cam_reverse/handlers.py:193-199 | Returns all restart markers, in ascending order, and nothing else |
| RestartMarkers.Markers | cam_reverse/handlers.py:193-199 | The list of positions is ascending and holds exactly the marker positions |
| RestartMarkers.MarkerBytes | cam_reverse/handlers.py:193-199 | The markers are RST0 to RST7, and no other pair of bytes |
| RestartMarkers.JoinMarker | cam_reverse/handlers.py:269-281 | No marker of the joined bytes straddles a repaired join |
| RestartMarkers.JoinMarkers | cam_reverse/handlers.py:269-281 | The markers of the joined bytes are the left chunk's without its last, then the right chunk's, shifted, so their number is the sum minus one |
| Handlers.DealWithData | cam_reverse/handlers.py:202-286 | Computes the assembler's transition for the datagram, emits what it emits, and raises exactly for malformed datagrams and raising listeners |
| Handlers.StartNewFrame | cam_reverse/handlers.py:216-222 | Emits before it resets, so a raising listener leaves the old frame in place |
| Handlers.Continue | cam_reverse/handlers.py:251-286 | Drops, appends or repairs, as the assembler's transition says |
| ChannelRuns.HeldUntilAcked | cam_reverse/session.py:107-169 | From any state, over every interleaving of builds, sends, acks and resend rounds in which no id is shared, a waiting command is still waiting at the end if and only if no ack arrived for the id it had at that moment |
| SessionChannel.CommandHeldUntilAcked | cam_reverse/session.py:107-169 | In every run of a session in which no id is shared: a command sent at any step still waits at the end if and only if no ack arrived for the id it had at that moment; stale acks and acks of other commands never remove it |
| SessionChannel.NoWrapRunIsOk | cam_reverse/session.py:107-169 | Until 65536 ids have been handed out no session run shares an id, whatever is built, sent, acknowledged and sent again |
| SessionChannel.WrapLosesCommand | cam_reverse/session.py:161-169 | The bound is tight: a run of a new session, without any ack, in which the next id is that of a command still waiting, which is lost |
| SessionChannel.SessionRunFits | cam_reverse/session.py:107-169 | Over every session run, clashing ids or not, every command waits under at most one entry, every key belongs to one command, and nothing waits that was not sent |
| ChannelRuns.GoneStaysGone | cam_reverse/session.py:107-169 | A command that does not wait does not come back unless it is sent again |
| ChannelRuns.RunKeepsWellFormed | cam_reverse/session.py:107-169 | Over every run, clashing ids or not, a command waits under at most one entry and every key belongs to one command |
| ChannelRuns.StepHolds | cam_reverse/session.py:107-169 | One step makes a command wait iff it sends it, and ends its waiting iff it acknowledges its latest id |
| ChannelRuns.TickKeepsWellFormed | cam_reverse/session.py:157-169 | After any resend round, clashing ids or not, keys and commands are unique, no command is new, and with a clock that does not go back none was last sent more than 100 ms before the round |
| ChannelRuns.TickKeepsOrder | cam_reverse/session.py:157-169 | Without id wrap and with a monotone clock nothing clashes and the dictionary stays ascending in both id and sending time |
| ChannelRuns.TickByAge | cam_reverse/session.py:160-169 | In a round without a clash a command last sent at most 100 ms ago keeps its id and time; an older one was sent again in its turn |
| ChannelRuns.WaitIsBounded | cam_reverse/session.py:157-169 | Over every run, clashing ids or not, in which resend rounds are at most `period` apart and the clock does not go back: after each of its steps, at any time before the next round is due, no command that waits was last sent more than `period + 100` ms ago |
| Channel.TickKeepsAllIff | cam_reverse/session.py:161-169 | A resend round keeps the number of waiting commands if and only if no id it hands out is the id of a command still waiting; it never increases it |
| Channel.TickClosedForm | cam_reverse/session.py:161-169 | Without a clash the round leaves the un-aged entries in place and in order, followed by the aged ones in order under consecutive new ids |
| Channel.ClashLoses | cam_reverse/session.py:164-169 | A clash loses a command |
| Channel.SendKeepsAllIff | cam_reverse/session.py:114 | Sending under an id keeps all that wait iff none of them waits under that id |
| Sessions.Session.constructor | cam_reverse/session.py:66-97 | The initial state of a session |
| Sessions.Session.Send | cam_reverse/session.py:107-117 | A Drw command is remembered under the id in its buffer; everything is transmitted, and logged as a first transmission or as a resend of the one in that buffer; the invariants are kept |
| Sessions.Session.AckDrw | cam_reverse/session.py:119-121 | Removes the entry with that key, if there is one |
| Sessions.Session.Renumber | cam_reverse/session.py:162-169 | Rewrites bytes 6 and 7 of the packet in its own buffer, re-keys it and transmits it |
| Sessions.Session.ResendTick | cam_reverse/session.py:157-169 | One round computes the abstract round; every entry left is keyed by the id in its own buffer and no two share one; aged packets change in bytes 6 and 7 only, others not at all; exactly the aged ones are transmitted, in order, each as a resend of its own first transmission |
| Sessions.Session.OnDisconnect | cam_reverse/session.py:172-182 | A connected session is disconnected, its address cleared, its timers cancelled and its transport closed; a disconnected one is left alone |
| Sessions.Session.EmitDisconnect | cam_reverse/event_emitter.py:27-31 | Runs a snapshot of the listeners once each, in order: the session is disconnected if its own is among them, and exactly the devices of the others are dropped |
| Sessions.TransmittedTicket | cam_reverse/session.py:107-117 | Every video command ever transmitted, original or renumbered resend, carries the ticket of the login that was the last when this very command was transmitted for the first time, and differs from that transmission in its id at most |
| Sessions.LogOkMore | cam_reverse/session.py:107-117 | The log stays in order if the new entry is: a first transmission must carry the last login's ticket, a resend must be its own command's first transmission under another id |
| Handlers.HandleIncoming | cam_reverse/session.py:127-141 | For every datagram: when handling it raises, its effect on liveness, on the stored devices, on the assembler, on the ticket, all that is transmitted, which commands then wait under which ids, and what it does to those that waited; the invariants are kept |
| Handlers.Dispatch | cam_reverse/session.py:133-134 | The handler table: the same for a datagram whose command was read |
| Handlers.SessionTimerTick | cam_reverse/session.py:144-155 | One tick computes the liveness transition, sends a keepalive after 600 ms of silence, and on a timeout runs all "disconnect" listeners |
| Liveness.ConnectedIff | cam_reverse/session.py:140-155 | Over whole runs of a new session: it is connected at the end if and only if no datagram closed it and every tick after the start came at most the timeout after the time of the last datagram, not a keepalive, handled before without error, or after 0 if there was none |
| Liveness.LastReceivedIsLastHeard | cam_reverse/session.py:140-141 | After any run the time of the last received packet is that of the last such datagram, found by its index |
| Liveness.StillConnectedMeansHeard | cam_reverse/session.py:140-155 | A new session that was started and survives a tick handled a datagram other than a keepalive, without error, within its timeout |
| Liveness.KeepalivesDoNotExtend | cam_reverse/session.py:140-155 | Keepalives and datagrams whose handling raised never extend a session |
| Handlers.HandleUserAck | cam_reverse/handlers.py:137-141 | Takes over the four bytes at 0x18 as the ticket and sends, with that ticket, the two video commands or the Wi-Fi scan, which then wait for their acks |
| Handlers.StartVideoStream | cam_reverse/session.py:213-216 | Sends VideoParamSet, then StartVideo, under the next two ids and with the current ticket; both then wait for their acks |
| Handlers.SendCommand | cam_reverse/impl.py:17-49 | Builds and sends a command under the next id, under which it then waits |
| Handlers.LogIn | cam_reverse/handlers.py:138-139 | Taking over a ticket leaves those of the packets already sent or waiting in order |
| Handlers.HandleControl | cam_reverse/handlers.py:120-190 | Decodes in place, takes over a ticket on a ConnectUserAck and only then, answers that one with the login's commands, a readable WifiSettingsAck with ListWifi, and nothing else; raises exactly when decoding does, a field is missing, or the listener of a listing raises |
| Handlers.ReadAnswer | cam_reverse/handlers.py:71-76 | Reading a DevStatusAck raises exactly under 0x2C bytes, a listing under 20 or when its listener does |
| Handlers.DecodeInPlace | cam_reverse/handlers.py:121-135 | The decoded datagram, or an exception, for every length field, cropped payloads included |
| Handlers.HandleDrw | cam_reverse/handlers.py:312-322 | Acknowledges first, then hands the datagram to the assembler or to the control handler: the whole transcript, the commands that then wait, and when it raises |
| Handlers.HandleDrwAck | cam_reverse/handlers.py:305-309 | Every id that can be read is acknowledged, even when the datagram is shorter than announced and the handler raises: an entry still waits iff it waited before and its key is none of the 16-bit words from byte 8 on, as many as announced and there |
| Handlers.WaitsAfterAck | cam_reverse/handlers.py:305-309 | The same for the abstract channel |
| Answers.AckRoundTrip | cam_reverse/handlers.py:305-309 | From an ack that encodes any list of 16-bit ids, whatever follows it, exactly that list is read |
| Answers.AckIdsAreAcknowledged | cam_reverse/handlers.py:305-309 | The ids read in an ack are exactly the words in it that are announced and there |
| Handlers.MakeDrwAck | cam_reverse/handlers.py:289-302 | Builds the 32-byte ack, or raises for a datagram under 8 bytes |
| Answers.AckAcknowledges | cam_reverse/handlers.py:289-309 | The ack sent for a packet acknowledges exactly that packet, and is itself no command to be acknowledged |
| Handlers.HandleClose | cam_reverse/handlers.py:325-328 | Acknowledges, then disconnects and runs all "disconnect" listeners, exactly if the datagram is long enough for the ack; the commands that wait are left alone |
| Handlers.HandleP2pRdy | cam_reverse/handlers.py:38-40 | Answers with the user check for "admin", which then waits for its ack |
| Handlers.SendKeepalive | cam_reverse/impl.py:151-155 | Sends the four bytes, which are not remembered for resending |
| Handlers.ConnectionMade | cam_reverse/session.py:46-56 | Answers the PunchPkt with the P2pRdy, which is not remembered for resending, and starts the session |
| AnswerLaws.AcksReachChannel | cam_reverse/handlers.py:305-309 | After handling a DrwAck exactly those entries of the channel wait that did before and whose ids cannot be read in it |
| AnswerLaws.AnswersWait | cam_reverse/session.py:107-114 | After handling any other datagram exactly its answers wait, under the next ids, and all that waited before under another id |
| AnswerLaws.AckedFirst | cam_reverse/handlers.py:312-328 | Drw and Close datagrams are acknowledged before anything else is sent, with their id and stream |
| AnswerLaws.AliveAnswered | cam_reverse/handlers.py:27-35 | A P2PAlive is answered with F1 E1 00 00 and nothing else |
| AnswerLaws.OtherTypes | cam_reverse/session.py:131-134 | Datagrams of other types are neither answered nor raise |
| AnswerLaws.ReadyAnswered | cam_reverse/handlers.py:38-40 | A P2pRdy is answered with command 0x2010, which decodes to "admin" and "admin" in fields of 32 and 128 bytes |
| AnswerLaws.LoginBringsTicket | cam_reverse/handlers.py:137-139 | A ConnectUserAck as a camera builds it brings bytes 4 to 7 of its data as the ticket |
| AnswerLaws.StreamIsStarted | cam_reverse/session.py:213-216 | Starting the stream sends 0x1830 with the resolution, then 0x1030, under the next two ids and with the ticket |
| AnswerLaws.ControlAnswered | cam_reverse/handlers.py:137-168 | A login is answered with what its listener sends under the new ticket, readable Wi-Fi settings with a scan, other commands with nothing |
| AnswerLaws.BuiltControlRaisesIff | cam_reverse/handlers.py:120-190 | Of the control datagrams that a camera builds handling raises exactly for a status or settings with under 24 bytes of data, and for a listing whose listener raises |
| AnswerLaws.ShortRaises | cam_reverse/handlers.py:202-328 | Which short datagrams raise, in lengths and bytes, and when data datagrams do |
| AnswerLaws.FramesAreHandled | cam_reverse/handlers.py:202-249 | The datagrams of frames are handled without error unless a listener raises |
| SessionRuns.SessionRun | cam_reverse/session.py:46-59 | Any run of a new session, over any datagrams, rounds and ticks: assembler and emitted images are those of the assembler's run over its data, liveness that of the timer's run; it is connected exactly if nothing closed it and every tick found the camera heard within the timeout; the log is what the events add, one by one, its logins those of the datagrams received; if no id was shared every command sent waits or was acknowledged under its id of the moment; every video command carries the ticket of the login before it; and with rounds at most `period` apart nothing waits that was last sent more than 100 ms before the last round |
| SessionRuns.FramesReachListeners | cam_reverse/session.py:127-141 | If the datagrams with video in a run are those of some frames in order, with anything else in between, the images handed to the "frame" listeners are all of them but the last, and the session holds the last |
| SessionEvents.LoginsAreReceived | cam_reverse/handlers.py:137-141 | The logins in the log of a run are those of the ConnectUserAcks received, in order |
| SessionEvents.TranscriptCounts | cam_reverse/impl.py:40-41 | The transcript of a datagram uses up one id for each command in it, and logs in exactly on a ConnectUserAck |
| SessionRuns.GoodMeans | cam_reverse/session.py:107-169 | The invariants kept by every step give the results on commands and on tickets for the session object |
| SessionRuns.RunWaitIsBounded | cam_reverse/session.py:157-169 | The same for the bound on waiting times, over runs of events in time |
| DataView.DV.WriteU16 | cam_reverse/dataview.py:72-73 | Writes the low 16 bits, big-endian, at the cursor and nowhere else |
| DataView.DV.WriteByteArray | cam_reverse/dataview.py:81-83 | A slice assignment, which lengthens the buffer when it runs past the end |
| DataView.Alloc | cam_reverse/dataview.py:28-30 | A new buffer of zeros |
| Crypto.XqBytesDec | cam_reverse/crypto.py:16-23 | Decodes the window in place and nothing else; raises exactly when the buffer is too short or the rotation more than twice the length, with negative indices counted from the end as Python does |
| Crypto.XqBytesEnc | cam_reverse/crypto.py:26-33 | Encodes the window in place and nothing else; raises exactly when the window leaves the buffer or the rotation exceeds the length |
| Crypto.EncDecInverse | cam_reverse/crypto.py:16-33 | Encoding and decoding undo each other |
| Crypto.EncAt | cam_reverse/crypto.py:16-33 | Each byte comes from `rotate` places further on or back, around the end, with its lowest bit flipped |
| Crypto.FlipsBitZero | cam_reverse/crypto.py:12-13 | Exactly the lowest bit is flipped |
| Crypto.DecBeyond | cam_reverse/crypto.py:20-23 | A rotation beyond the length repeats the end of the flipped window and then writes the whole of it |
| Crypto.EncFamily | cam_reverse/crypto.py:16-33 | Encoding by `r` is decoding by `n - r`; two encodings are the plain rotation by the sum |
| Crypto.ScriptDec | scripts/dec.py:22-30 | The slicing decoder is the same transformation with rotation 4, or the plain flip for under four bytes |
| Impl.MakeDataReadWrite | cam_reverse/impl.py:17-49 | Builds the packet field by field under the next id and ticket, encoding a copy of the data, and changes nothing but the id counter |
| Impl.ControlPacketFields | cam_reverse/impl.py:34-46 | Every field of a built packet reads back |
| Impl.SendUsrChk | cam_reverse/impl.py:120-125 | Account and password at their offsets |
| ControlDecoding.ControlRoundTrip | cam_reverse/impl.py:17-49 | A built packet's lengths agree with its size, and the receive path recovers start code, command, little-endian payload length, ticket and, decoded in place, exactly the data |
| ControlDecoding.ShortDataIsDropped | cam_reverse/impl.py:26 | Data of at most four bytes is not in the packet |
| ControlDecoding.DecodeWhole | cam_reverse/handlers.py:120-135 | The receive path decodes a payload that fills the datagram as scripts/dec.py does |
| ControlDecoding.DecodeCropped | cam_reverse/handlers.py:124-135 | A cropped payload is decoded but for its last four bytes; with five bytes decoding raises, with fewer nothing is decoded |
| ControlDecoding.DecodeRaisesIff | cam_reverse/handlers.py:121-135 | Exactly which datagrams do not decode, in lengths and bytes |
| Wifi.ParseListWifi | cam_reverse/handlers.py:95-117 | Exactly the announced records, or as many as are there in full; raises exactly under 20 bytes |
| Wifi.RecordCount | cam_reverse/handlers.py:98-104 | The number of records read is as announced, unless the next one would cross the end |
| Wifi.ListingRoundTrip | cam_reverse/handlers.py:95-117 | What `ParseListWifi` returns for an encoded listing is its items, in order |
| Wifi.ItemsAreIndependent | cam_reverse/handlers.py:105-115 | Two datagrams of any lengths and announced counts that agree on the 92 bytes of a record parse to the same item there |
| WifiSettings.SendWifiDetails | cam_reverse/impl.py:95-117 | The command with all fields written in order; raises exactly without DHCP or for strings outside Latin-1, and then uses up no id |
| WifiSettings.ParseSettings | cam_reverse/handlers.py:152-167 | Reads the settings at their offsets; raises exactly under 0x2C bytes |
| WifiSettings.WritesDoNotOverlap | cam_reverse/impl.py:105-115 | When the strings fit, no write overlaps another |
| WifiSettings.WifiRoundTripIff | cam_reverse/handlers.py:152-167 | Name and password come back exactly iff they fit their fields and hold no NUL; then so do the addresses, and the channel comes back as `channel * 2^24` |
| Discovery.ParsePunchPkt | cam_reverse/impl.py:174-182 | The fields of a PunchPkt; raises exactly under 16 bytes |
| Discovery.PunchRoundTrip | cam_reverse/impl.py:174-182 | What a camera announces is read back: prefix, serial number, suffix and the id made of them |
| Discovery.MakeP2pRdy | cam_reverse/handlers.py:43-51 | The reply, with each field at its place |
| Discovery.CreateP2pRdy | cam_reverse/impl.py:142-148 | The header and the 20 bytes of the body, cropped or padded with NULs |
| Discovery.ReadyEchoesIff | cam_reverse/handlers.py:43-51 | The reply echoes bytes 4 to 23 of a 24-byte PunchPkt iff its string fields are padded with NULs, whatever the length of the prefix |
| Discovery.DevIdInjective | cam_reverse/impl.py:176-182 | Equal device ids mean equal prefix, serial number and suffix, if prefixes hold no digit and suffixes do not begin with one |
| Discovery.DevIdNotInjectiveWithDigits | cam_reverse/impl.py:181 | Without these conditions different cameras can share an id |
| Discovery.DecimalReadsBack | cam_reverse/impl.py:179 | Decimal printing can be read back |
| Registry.RegistryInvariant | cam_reverse/http_server.py:327-371 | Over every interleaving of discoveries, closes, timeouts and reconnections every stored session is connected and stored under its own name |
| Registry.StoredUntilDropped | cam_reverse/http_server.py:327-371 | Over whole runs with map entries: a session found when its device was not stored is stored at the end if and only if no later step disconnects a session of that device or reconnects it; being found again makes no difference |
| Registry.EntryMustBeMapIff | cam_reverse/http_server.py:342-371 | After a discovery the registry survives the session's end iff the camera's configuration entry is a map |
| Registry.DisconnectedForGood | cam_reverse/session.py:172-177 | A disconnected session stays disconnected, over every run and for every configuration |
| Registry.DisconnectBoth | cam_reverse/event_emitter.py:27-31 | Emitting "disconnect" runs both listeners, in order: the session is disconnected and its device dropped |
| Registry.ReconnectDrops | cam_reverse/http_server.py:87-103 | After any run with map entries a reconnection drops the device, its session is no longer connected, and every other session and stored device is as before |
| Registry.ReconnectedIsFound | cam_reverse/http_server.py:87-103 | A discovery that follows the reconnection stores the new, connected session |
| Registry.DisconnectKeepsLiveStoredIff | cam_reverse/http_server.py:367-371 | Live sessions stay reachable iff the disconnection does not come from a dead session whose device a new one holds |
| Registry.DeadSessionDropsLiveDevice | cam_reverse/http_server.py:367-371 | A run from the empty registry that gets there: the new session lives on and is no longer stored |
| HttpServer.Server.OnDiscover | cam_reverse/http_server.py:327-371 | Stores a new session for the ip, with a timeout of 5000 ms, its listeners and the defaults of its configuration; a device already stored is ignored; raises exactly for an entry that is no map, after storing the session |
| HttpServer.DefaultsKeepSettings | cam_reverse/http_server.py:344-349 | Settings that an entry has are kept, missing ones are no rotation, no mirror and sound |
| HttpServer.Server.EmitDisconnect | cam_reverse/event_emitter.py:27-31 | Emitting "disconnect" on a session object is the abstract disconnection; the other sessions are left alone |
| HttpServer.Server.HandleEvent | cam_reverse/http_server.py:367-371 | Any event of any session, stored or forgotten: it is the abstract disconnection if it is a Close or a timeout, and leaves the registry alone otherwise |
| ServerRuns.ServerRun | cam_reverse/http_server.py:327-371 | Any run of the server, over discoveries, reconnections and the events of all sessions ever made, is a registry run; if all entries of the configuration are maps, every session object stored is connected and stored under its own name |
| HttpServer.Server.Reconnect | cam_reverse/http_server.py:87-103 | The stored session, if any, is no longer connected, and exactly the devices of its listeners are dropped: its own when the server's listener is registered; tells whether the camera is known |
| Exif.ServedImage | cam_reverse/http_server.py:51-58 | Serving succeeds iff the rotation is known and the first chunk holds no FFE1; the result is the joined image with one segment behind its first two bytes, the first FFE1 in it, its length field right, its orientation read as one that shows the picture turned and mirrored as the settings ask, and the image as before without it, iff the first chunk has these two bytes |
| Exif.OrientationObeys | cam_reverse/http_server.py:27-29 | A reader that obeys the orientation served shows the picture turned by `rotate` quarters to the left and then, exactly if `mirror`, with left and right exchanged; on the coordinates of every picture |
| Exif.SegmentShape | cam_reverse/exif.py:5-17 | The segment has 36 bytes, its length field counts all but the marker, and a TIFF reader finds the orientation |

## Left out

- Sockets, asyncio tasks and sleeping: datagrams, ticks and clock readings are parameters; the log holds what is handed to the transport, which after the session's end drops it.
- Handlers.HandleIncoming: all sends made while handling one datagram share one clock reading; whether a listener raises is a parameter, and a "frame" listener that closes the session (single capture) is not modelled.
- Handlers.ConnectionMade: takes the strings of a device to be Latin-1, as `ParsePunchPkt` delivers them.
- Handlers.ReadAnswer: the fields of DevStatusAck are read, but not kept, as they are only logged; the listing is parsed by `Wifi.ParseListWifi` and handed to a listener that is not modelled (pairing then sends `WifiSettings.SendWifiDetails`).
- ServerRuns.ServerRun: lets a session get events after its end, too, which would no longer be delivered; what it states holds with them.
- Sessions.Session.Renumber: drops the old key before it writes the new id, the source the other way round; nothing looks in between.
- Wifi.ParseListWifi: keeps the MAC as its six bytes; printing it in hexadecimal is left out.
- WifiSettings.SendWifiDetails: takes a channel that is not negative, as the listing delivers it.
- `fix_packet_loss` is constant during a run, and the camera entries read by the assembler are maps.
- Registering and removing listeners in general (`cam_reverse/event_emitter.py:16-25`): only the "disconnect" list of a session is modelled.
- Audio payloads, viewer queues, HTTP routes and pages, settings files, logging, the command line, pairing beyond its login action, and discovery probing.
