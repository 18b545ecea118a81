# Verified model of winject

winject carries TCP and UDP streams over raw 802.11 frames: an ESP32 firmware injects and receives the frames, a
manager process on the host schedules and reassembles the streams. This project models the parts of both that are
easiest to get wrong and proves what they promise. `dafny verify dfyconfig.toml` checks all of it.

| files | subject |
|---|---|
| `arq_spec`, `arq_link`, `arq_steps`, `arq_safety`, `arq_round`, `arq_deliver`, `arq_stale`, `arq_hear`, `arq_sack`, `arq_end`, `tcp_stream` | the selective-repeat byte pipe: functions, two nodes with a lossy radio, their steps, safety over runs, one round, full delivery, the exact staleness bound, when a peer is heard, what an acknowledgement names, how a connection ends, the object |
| `gf`, `fec_matrix`, `fec_code`, `fec_stream`, `fec_timer`, `fec_receiver`, `fec_link`, `fec_timing`, `fec_class` | packet-block erasure coding: field, matrix, block code, encoder, when it sends, block table, end to end, the channel told by arrivals, the objects |
| `air_frame`, `air_seq`, `air_rx`, `air_end` | slot packing, MPDU, host tool; sequence numbers; demultiplexing; the air path end to end |
| `tx_spec`, `tx_frame`, `tx_run`, `tx_budget`, `tx_serve`, `tx_class` | the air scheduler: functions, one frame, bounds over runs, budgets, service, the object |
| `ota` | streaming multipart firmware update |
| `listing`, `wait_queue`, `wait_fifo`, `packet_pool`, `tcp_handoff` | hand-offs between tasks and threads as atomic steps, with their objects |
| `settings_blob` | the versioned settings blob |
| `bytes` | bytes, 16-bit words, concatenation |

Code that updates state in place is a class or a method with loops, proved equal to functions on the state; what the
system promises is then proved about those functions, over every run. "as it runs" in the table below marks the
imperative form.

What is assumed, as parameters of the statements:

- Time is a number passed in. A run's clock never runs backwards where a statement says so.
- The ISA-L library is a field on the bytes (`Laws`), an encoder that multiplies by a matrix column by column, a
  generator whose parity row i holds the reciprocals of i xor j, and an inverter that inverts every nonsingular matrix.
- FreeRTOS queue operations, atomic counters and critical sections are single steps.
- Sockets, the flash, the radio and the network are answers given by a parameter: any answer is allowed.
- The ARQ results need every delivered frame to be less than 65536 - 256 behind; from that lag on an acknowledgement of
  a full window is misread (`StaleBoundExact`).
- The content type of an update is the text the HTTP server hands over; one it cannot hand over within 160 bytes is
  `None`.
- Buses are distinct where `Linked` says so; the configuration refuses a duplicate bus (src/manager/config.cpp:519-530).

Where the code differs from what a reader may expect:

- A TCP stream repeats CONNECT only until it has heard the peer, so one lost CONNECT can leave one side established
  and the other deaf for good (`DeafForever`, `DeafReachable`). `HeardIff` and `CanHearIff` say exactly when a peer is
  heard and when it still can be; their runs end before the give-up after 30 s, which closes the client.
- docs/manager.md says of air sequence numbers that duplicates and backward numbers are ignored. That is true of the
  loss count; PDUs themselves are dropped only when they repeat the highest number (`DroppedIff`,
  `OlderRepeatAccepted`).
- The update handler collects the part header in a 1024-byte buffer together with whatever arrives in the same piece,
  so whether a body of more than 1024 bytes is accepted depends on how it is cut (`EveryChunkingFits`).
- Packet reference counts are 8 bits wide; the 257th handle of one buffer breaks them (`DropExact`, `WrapFreesLive`).
  Nothing in the tree calls packet::share (src/winject-esp32/radio/packet.cpp:58), so this is a limit of the class and
  not of a run of the firmware.
- A frame that the radio refuses keeps UDP packets queued but spends their sequence numbers (`EmitUdp`, `RefusedSpends`).

Budgets are positive wherever the program sets one: the configuration refuses 0 (src/manager/config.cpp:437-442) and so
does set_budget, so `BudgetBound` covers every stream of the program.

## Model

| member | source | states |
|---|---|---|
| `ArqSafety.DeliveredIsPrefix` | src/manager/stream/tcp_stream.cpp:161-381 | for every run of two connected streams over a radio that loses, repeats and reorders frames (each less than 65280 behind), across any number of 16-bit wraps: the bytes each side has put out are a prefix of what the other side's application wrote |
| `ArqSafety.WindowInvariant` | src/manager/stream/tcp_stream.cpp:161-325 | in every reachable state acked <= received <= sent <= acked + 256 on the true counters, `unacked` is exactly the segments between, the reorder map holds only genuine segments strictly ahead in the window, and a segment marked sacked is held by the peer |
| `ArqSteps.RunInv` | src/manager/stream/tcp_stream.cpp:42-504 | the distributed invariant over both nodes and every frame in flight holds after every allowed run |
| `ArqSteps.StepInv` | src/manager/stream/tcp_stream.cpp:42-504 | each step of either node, or of the radio, keeps that invariant |
| `ArqSafety.OldestNotSacked` | src/manager/stream/tcp_stream.cpp:229-325 | the oldest unacknowledged segment is never marked sacked, so a timeout always resends it |
| `ArqSteps.PullPacket` | src/manager/stream/tcp_stream.cpp:410-466 | every frame put on the air says the truth about its sender: its number, payload, acknowledgement and SACK blocks are those of a true counter at that moment |
| `ArqSteps.RecvStep` | src/manager/stream/tcp_stream.cpp:327-387 | accepting any frame still within the staleness bound keeps both halves of the invariant, however late or repeated it is |
| `ArqLink.AckStep` | src/manager/stream/tcp_stream.cpp:213-227 | a cumulative acknowledgement within the staleness bound moves the window to exactly the true acknowledged number, or leaves it alone if it is old |
| `ArqLink.SackStep` | src/manager/stream/tcp_stream.cpp:229-252 | SACK blocks mark only segments that the peer holds |
| `ArqLink.QueueStep` | src/manager/stream/tcp_stream.cpp:161-191 | cutting waiting bytes into segments keeps bytes, order and numbering |
| `ArqLink.DeliverStep` | src/manager/stream/tcp_stream.cpp:286-325 | a data frame within the staleness bound leaves the receiver with exactly the sender's segments, never moves it back, and an open receiver then holds the segment it carries |
| `ArqRound.RoundClearsWindow` | src/manager/stream/tcp_stream.cpp:229-504 | from any state of the invariant, one loss-free round after the retransmit time (tick, pull until empty, deliver, one frame back) leaves the receiver holding every segment sent and acknowledges all of them; nothing is outstanding if no bytes waited |
| `ArqRound.ReachableRound` | src/manager/stream/tcp_stream.cpp:394-504 | the same from every reachable state with both sides connected |
| `ArqDelivery.RoundsDeliver` | src/manager/stream/tcp_stream.cpp:161-504 | as many such rounds as windows hold the waiting bytes, and one more, put out every byte the application wrote and leave nothing outstanding, whatever their times |
| `ArqDelivery.ReachableDelivery` | src/manager/stream/tcp_stream.cpp:161-504 | the same from every reachable state with both sides connected |
| `ArqSpec.DecodeEncode` | src/manager/stream/tcp_stream.cpp:32-40 | every frame written is read back field by field |
| `ArqSpec.Cut` | src/manager/stream/tcp_stream.cpp:167-186 | segments are 1 to 1400 bytes, at most as many as the window has room, and together a prefix of the waiting bytes |
| `ArqSpec.SackBlocks` | src/manager/stream/tcp_stream.cpp:254-284 | at most 8 blocks and never more bytes than there is room |
| `ArqSpec.SackSound` | src/manager/stream/tcp_stream.cpp:254-284 | the block list of an ACK names only numbers that are buffered out of order |
| `ArqSpec.FirstReady` | src/manager/stream/tcp_stream.cpp:445-464 | the segment sent next is the oldest that is neither sacked nor in flight and fits |
| `ArqSpec.HasTxIff` | src/manager/stream/tcp_stream.cpp:394-466 | a stream of segments up to 1400 bytes says it has something to send if and only if some pull yields a frame, and something urgent if and only if some pull yields an acknowledgement or control frame; room for one segment suffices |
| `ArqSack.SackExact` | src/manager/stream/tcp_stream.cpp:254-284 | the block list covers exactly the buffered numbers of the first runs, as many runs as there are blocks |
| `ArqSack.AckNames` | src/manager/stream/tcp_stream.cpp:410-443 | the acknowledgement that a pull yields names exactly the numbers of the first runs buffered, at most eight runs and as many as it has room for |
| `ArqSack.AckNamesAll` | src/manager/stream/tcp_stream.cpp:410-443 | with at most eight runs and room for their blocks it names exactly what is buffered |
| `ArqSack.NamedMarked` | src/manager/stream/tcp_stream.cpp:229-252 | taking in an acknowledgement that names a segment leaves it marked or acknowledged |
| `ArqSack.NamedNotResent` | src/manager/stream/tcp_stream.cpp:229-504 | end to end, over every run: a segment so named is marked when the acknowledgement arrives, however late, stays marked, and no later pull takes it |
| `ArqEnd.EndsPeer` | src/manager/stream/tcp_stream.cpp:359-370 | a CLOSE or ABORT ends an established stream without losing or cutting a byte; any other stream keeps its standing and owes an acknowledgement |
| `ArqEnd.EndRepeats` | src/manager/stream/tcp_stream.cpp:359-370 | a second copy changes nothing but the owed acknowledgement |
| `ArqEnd.EndedStays` | src/manager/stream/tcp_stream.cpp:161-504 | until a new CONNECT no run of frames, ticks, pulls and writes revives an ended stream, gives the application a byte or numbers a segment |
| `ArqEnd.DownEnds` | src/manager/stream/tcp_stream.cpp:88-124 | going down announces itself three times behind the control frames that wait, an abort once; any one copy that arrives ends an established peer |
| `ArqEnd.DownQuiet` | src/manager/stream/tcp_stream.cpp:88-124 | after the last copy only an owed acknowledgement is sent and no unsent or unacknowledged data is left |
| `TcpStreamClass.TcpStream.Queue` | src/manager/stream/tcp_stream.cpp:161-191 | the loop over tcp_in and unacked does what QueueData says |
| `TcpStreamClass.TcpStream.PullTcp` | src/manager/stream/tcp_stream.cpp:193-211 | gives the first bytes of the output, up to the limit, and keeps the rest in order |
| `TcpStreamClass.TcpStream.TakeAck` | src/manager/stream/tcp_stream.cpp:213-227 | the popping loop equals dropping the acknowledged prefix |
| `TcpStreamClass.TcpStream.TakeSack` | src/manager/stream/tcp_stream.cpp:229-252 | the marking loops, which stop at the first match, mark exactly the covered segments |
| `TcpStreamClass.TcpStream.FillSack` | src/manager/stream/tcp_stream.cpp:254-284 | the scan over the reorder map writes exactly the block list |
| `TcpStreamClass.TcpStream.DrainBuffer` | src/manager/stream/tcp_stream.cpp:308-318 | the find-and-erase loop equals draining the reorder buffer |
| `TcpStreamClass.TcpStream.DeliverData` | src/manager/stream/tcp_stream.cpp:286-325 | all five outcomes of a data frame |
| `TcpStreamClass.TcpStream.ParseRadio` | src/manager/stream/tcp_stream.cpp:327-381 | a frame that is too short changes nothing; any other has the effect of its decoded fields |
| `TcpStreamClass.TcpStream.Transmittable` | src/manager/stream/tcp_stream.cpp:394-408 | as it runs: true exactly when a control frame, an acknowledgement or a segment neither in flight nor sacked waits, hence exactly when a pull can yield a frame (HasTxIff) |
| `TcpStreamClass.TcpStream.Pull` | src/manager/stream/tcp_stream.cpp:410-466 | as it runs: control frames first, then one ACK with the blocks of AckNames, then the oldest ready segment that fits; nothing when the limit is below the header |
| `TcpStreamClass.TcpStream.Tick` | src/manager/stream/tcp_stream.cpp:468-504 | expires timers, retries or gives up, and queues data, in that order |
| `TcpStreamClass.WriteBlocks` | src/manager/stream/tcp_stream.cpp:254-284 | the nested run-length loops write the block list of the specification |
| `ArqStale.StaleAckMisread` | src/manager/stream/tcp_stream.cpp:213-227 | an acknowledgement behind the window is taken for a new one if and only if it lags by at least 65536 less what is outstanding, and then the window ends up one wrap ahead of it |
| `ArqStale.StaleDataMisread` | src/manager/stream/tcp_stream.cpp:286-325 | a data frame behind an open receiver changes more than the owed acknowledgement if and only if it lags by more than 65280 and its number is not buffered; it is then kept as the segment one wrap later |
| `ArqStale.StaleBoundExact` | src/manager/stream/tcp_stream.cpp:213-227 | the bound 65280 is exact: a reachable state in which a frame that lags by just that much makes the sender drop a window the peer does not hold |
| `ArqHear.HeardIff` | src/manager/stream/tcp_stream.cpp:346-357 | over every run before a give-up, a side hears its peer at the end if and only if it took in a CONNECT |
| `ArqHear.CanHearIff` | src/manager/stream/tcp_stream.cpp:484-496 | from every reachable state and time, some continuation with a forward clock lets the peer hear a side if and only if it has heard it, or a CONNECT is queued or in flight, or the side is not up yet, or it is connecting and the retransmit time is over before the 30 s give-up; runs end before that give-up closes the client |
| `ArqHear.DeafForever` | src/manager/stream/tcp_stream.cpp:484-496 | once one side has heard the other but its own CONNECTs are gone, no run ever lets the other side hear it or put out a byte |
| `ArqHear.DeafReachable` | src/manager/stream/tcp_stream.cpp:484-496 | one lost frame leads there, with the deaf peer's partner believing itself established |
| `Gf.CauchyKernel` | src/manager/frames/basic_fec.cpp:74-74 | over any field of bytes, a Cauchy matrix with distinct points has no kernel: a vector it maps to zero is zero |
| `FecMatrix.AnyRowsNonsingular` | src/manager/frames/basic_fec.cpp:330-332 | every k distinct rows of the systematic Cauchy generator are nonsingular, for every k < n <= 255 |
| `FecMatrix.DecodeRowRecovers` | src/manager/frames/basic_fec.cpp:273-305 | applied to the survivors, the decode row of any shard, data or parity, gives that shard's column |
| `FecCode.UnpackPack` | src/manager/frames/basic_fec.cpp:108-147 | the shard header is read back for every legal block id, index, k and n |
| `FecCode.ParityPresent` | src/manager/frames/basic_fec.cpp:334-361 | whenever a data shard is missing a parity shard is present, so the padding width the decoder picks is the encoder's |
| `FecCode.DataOfEncoded` | src/manager/frames/basic_fec.cpp:363-434 | padding or rebuilding gives exactly the padded data rows of the encoder |
| `FecCode.PayloadsOfRows` | src/manager/frames/basic_fec.cpp:436-455 | reading the rows back gives the non-empty packets in order |
| `FecCode.DecodeEncoded` | src/manager/frames/basic_fec.cpp:149-461 | for any block of at most k packets and any k or more of its n shards, decoding gives exactly the non-empty packets in order and counts the rebuilt shards |
| `FecStream.EncodeSucceeds` | src/manager/frames/basic_fec.cpp:149-231 | encoding succeeds exactly on at most k packets within the size limit, every shard then fits one stream payload |
| `FecStream.EncoderKeeps` | src/manager/frames/basic_fec.cpp:463-514 | the encoder never discards an accepted packet: blocks sent and packets pending are, in order, the packets accepted, and block numbers count up modulo 65536 |
| `FecStream.EncoderRun` | src/manager/frames/basic_fec.cpp:463-548 | the same over every run from the start: no flush fails and no accepted packet is lost, repeated or reordered |
| `FecTimer.SendsExactly` | src/manager/frames/basic_fec.cpp:463-548 | over every run an event sends a block if and only if the block is full, or its oldest packet came a timeout ago, or a flush is asked for; and then everything accepted has gone out |
| `FecTimer.SentInTime` | src/manager/frames/basic_fec.cpp:463-548 | over every run with a forward clock a packet is in a sent block after the first tick a timeout after it was accepted |
| `FecReceiver.ExpireDoneExact` | src/manager/frames/basic_fec.cpp:573-593 | scanning only the front of the queue removes exactly the finished ids that are too old |
| `FecReceiver.ExpireKeeps` | src/manager/frames/basic_fec.cpp:550-593 | expiry removes exactly the stale open blocks and finished ids and keeps the table |
| `FecReceiver.MarkDoneKeeps` | src/manager/frames/basic_fec.cpp:595-612 | finishing a block keeps the queue duplicate-free, sorted, equal to the map and at most 128 long |
| `FecReceiver.PushAirKeeps` | src/manager/frames/basic_fec.cpp:614-701 | any datagram whatever keeps the table: at most 64 open blocks, each short of its k shards with indices below n, open and finished ids disjoint, the queue sorted and without duplicates |
| `FecReceiver.ReachableTable` | src/manager/frames/basic_fec.cpp:550-701 | that table holds in every reachable state, whatever datagrams came |
| `FecLink.ReceiveKeeps` | src/manager/frames/basic_fec.cpp:614-701 | one arriving shard of a live block keeps the relation between what was sent, what arrived and what came out |
| `FecLink.RunKeeps` | src/manager/frames/basic_fec.cpp:614-701 | the same over any run of arrivals |
| `FecLink.EndToEnd` | src/manager/frames/basic_fec.cpp:463-701 | over a channel that reorders, repeats and drops shards, each block comes out exactly once, whole and in order, if at least k different shards arrive, and otherwise not at all; if all do, every non-empty accepted packet has come out or is pending |
| `FecTiming.EndToEndOnTime` | src/manager/frames/basic_fec.cpp:463-701 | the same with the channel told by its arrivals alone: a forward clock, each shard before its block is given up or forgotten, fewer than 64 other blocks pending when a block begins, ids reused only when forgotten |
| `FecTiming.Arrive` | src/manager/frames/basic_fec.cpp:550-701 | such an arrival always finds its block's entry and never an eviction, and notes taken of the arrivals keep matching the table |
| `FecClass.BuildRows` | src/manager/frames/basic_fec.cpp:157-178 | length-prefixed rows and the longest; fails exactly on an oversized packet |
| `FecClass.WriteShards` | src/manager/frames/basic_fec.cpp:206-229 | each shard is the native row or the coded columns behind its header |
| `FecClass.Encode` | src/manager/frames/basic_fec.cpp:149-231 | encode_block as it runs equals EncodeBlock, failures included |
| `FecClass.ChooseRows` | src/manager/frames/basic_fec.cpp:257-272 | the first k rows not in the error list, or failure when fewer survive |
| `FecClass.ParityEntry` | src/manager/frames/basic_fec.cpp:289-303 | the xor loop down a column is the matrix product entry |
| `FecClass.DecodeRows` | src/manager/frames/basic_fec.cpp:277-305 | the decode matrix, data rows copied and parity rows multiplied |
| `FecClass.ScanFrags` | src/manager/frames/basic_fec.cpp:334-345 | the longest shard in any scan order; fails exactly on an index out of range |
| `FecClass.RebuildRows` | src/manager/frames/basic_fec.cpp:363-434 | data rows present are padded, the missing ones computed |
| `FecClass.ReadPayloads` | src/manager/frames/basic_fec.cpp:436-455 | the non-empty packets, or failure on a length that does not fit |
| `FecClass.Decode` | src/manager/frames/basic_fec.cpp:319-461 | decode_block as it runs equals DecodeBlock |
| `FecClass.BlockTable.ExpireDoneIds` | src/manager/frames/basic_fec.cpp:573-593 | the front-only loop |
| `FecClass.BlockTable.ExpireOpen` | src/manager/frames/basic_fec.cpp:559-570 | the erasing loop over the open blocks, in any order |
| `FecClass.BlockTable.TrimDone` | src/manager/frames/basic_fec.cpp:607-611 | keeps the newest 128 |
| `FecClass.BlockTable.FindOldest` | src/manager/frames/basic_fec.cpp:653-660 | finds a block first seen no later than any other |
| `FecClass.BlockTable.MakeRoom` | src/manager/frames/basic_fec.cpp:651-668 | gives up an oldest block only when 64 are open |
| `FecClass.BlockTable.FinishBlock` | src/manager/frames/basic_fec.cpp:686-700 | decodes, closes and books the block, also when decoding fails |
| `FecClass.BlockTable.Push` | src/manager/frames/basic_fec.cpp:614-701 | push_air as it runs equals PushAir |
| `FecClass.Encoder.Push` | src/manager/frames/basic_fec.cpp:463-490 | push_app as it runs: size check, deadline, flush at k |
| `Ota.Find` | src/winject-esp32/ota.cpp:93-108 | the first occurrence, or none at all |
| `Ota.FindBytes` | src/winject-esp32/ota.cpp:93-108 | findBytes as it runs finds the first occurrence; nothing for an empty pattern |
| `Ota.BoundaryRead` | src/winject-esp32/ota.cpp:52-91 | the writer's law: behind the first boundary=, in any case, and an opening quote if any, the token up to the end or to NUL, quote, semicolon or space gives the marker CRLF, two dashes, token, cut at 71 bytes; an empty token gives none |
| `Ota.NoBoundary` | src/winject-esp32/ota.cpp:52-66 | without the key, or without a content type, there is no marker |
| `Ota.Marker` | src/winject-esp32/ota.cpp:52-91 | the marker is CRLF, two dashes and 1 to 71 token bytes |
| `Ota.MultipartBoundary` | src/winject-esp32/ota.cpp:52-91 | the scan of the content type as it runs gives the marker of BoundaryRead |
| `Ota.WindowFinds` | src/winject-esp32/ota.cpp:191-222 | searching the kept tail and the new bytes finds exactly what searching the whole part would |
| `Ota.PourBytes` | src/winject-esp32/ota.cpp:191-222 | one piece through the window: what is flashed and kept is the part so far, and a found marker ends it at its first occurrence |
| `Ota.MultipartUpdate` | src/winject-esp32/ota.cpp:142-224 | for every chunking: success exactly when the header fits its buffer, a blank line and a later marker arrive and every write succeeds; then exactly the bytes between are flashed, otherwise a prefix of them; no buffer overflows |
| `Ota.RawUpdate` | src/winject-esp32/ota.cpp:182-189 | without a boundary every byte is flashed in order, success exactly when all arrive and all writes succeed |
| `Ota.HandleUpdate` | src/winject-esp32/ota.cpp:110-224 | the handler picks the multipart or the raw loop by the content type and keeps its promise |
| `Ota.EveryChunkingFits` | src/winject-esp32/ota.cpp:157-165 | the header fits the 1024-byte buffer under every chunking if and only if the whole body does; a longer body can always arrive so that it fails |
| `Ota.SomeChunkingFits` | src/winject-esp32/ota.cpp:157-165 | some chunking succeeds if and only if the part header ends within 1024 bytes |
| `AirFrame.Pack` | src/winject-esp32/radio/frame.cpp:116-136 | the twelve address bytes: group bit, then 8 bus bits and 11 size bits per slot, low bit first |
| `AirFrame.LayoutUnique` | src/winject-esp32/radio/frame.cpp:116-136 | no other bytes have that layout |
| `AirFrame.UnpackPack` | src/winject-esp32/radio/frame.cpp:116-155 | unpacking what was packed gives the slots back if and only if every size is below 2048; the bus always survives |
| `AirFrame.PackUnpack` | src/winject-esp32/radio/frame.cpp:116-155 | packing what was unpacked gives the bytes back if and only if their group bit is set |
| `AirFrame.EmitBits` | src/winject-esp32/radio/frame.cpp:89-100 | sets exactly the value's low bits at the cursor and changes no other bit |
| `AirFrame.TakeBits` | src/winject-esp32/radio/frame.cpp:102-114 | the number whose bits stand at the cursor |
| `AirFrame.PackSlots` | src/winject-esp32/radio/frame.cpp:116-136 | framePackSlots as it runs |
| `AirFrame.UnpackSlots` | src/winject-esp32/radio/frame.cpp:138-155 | frameUnpackSlots as it runs |
| `AirFrame.PayloadBytes` | src/winject-esp32/radio/frame.cpp:157-169 | the sum of the slot sizes |
| `AirFrame.StampHeader` | src/winject-esp32/radio/frame.cpp:210-228 | 24 header bytes; the bodies behind them are untouched |
| `AirFrame.HostEmitBits` | tools/mpdu.py:15-21 | testing bit i instead of shifting sets the same bits |
| `AirFrame.HostPackSlots` | tools/mpdu.py:35-43 | the host tool packs the same twelve bytes as the firmware, for lists of any length |
| `AirFrame.HostBuildMpdu` | tools/mpdu.py:65-93 | the host tool accepts exactly the documented ranges and builds the frame the firmware would |
| `AirFrame.HostUnpackMpdu` | tools/mpdu.py:96-112 | the host tool reads the PDUs the firmware would, and none from a frame it rejects |
| `AirFrame.MpduBuild` | src/manager/radio/mpdu.cpp:16-52 | mpdu_build as it runs: fails exactly as specified, else header and bodies back to back |
| `AirFrame.MpduUnpack` | src/manager/radio/mpdu.cpp:54-78 | mpdu_unpack as it runs |
| `AirFrame.MpduRoundTrip` | src/manager/radio/mpdu.cpp:16-78 | whatever is built is read back: the same slots and the same body bytes |
| `AirFrame.FrameCarries` | src/manager/radio/mpdu.cpp:16-78 | a built frame holds exactly the sender's PDUs, byte for byte and in slot order |
| `AirSeq.StampRead` | src/manager/frames/air_seq.cpp:22-45 | a stamped PDU carries its number and its bytes |
| `AirSeq.CountExact` | src/manager/frames/air_seq.cpp:87-94 | an arrival less than 65536 away keeps the loss count exact if and only if it is at most 32768 ahead of the highest or less than 32768 behind; an old one changes nothing |
| `AirSeq.LossExact` | src/manager/frames/air_seq.cpp:75-95 | over any such run, across any number of wraps, the loss count is the advance since the first frame less the frames that advanced |
| `AirSeq.DroppedIff` | src/manager/frames/air_seq.cpp:55-65 | an arrival is dropped if and only if it repeats the highest number seen |
| `AirSeq.FirstCopyAccepted` | src/manager/frames/air_seq.cpp:47-66 | the first copy of every PDU is handed on, the very first included, whatever was lost, repeated or reordered before |
| `AirSeq.AcceptNext` | src/manager/frames/air_seq.cpp:47-95 | one more arrival at a counter that began fresh: handed on unless it repeats the highest, with an exact loss count |
| `AirSeq.OlderRepeatAccepted` | src/manager/frames/air_seq.cpp:55-65 | a concrete run in which an older PDU that arrives twice is handed on twice |
| `AirRx.Target` | src/manager/tx_scheduler.cpp:433-438 | the first stream that listens on the bus; bus 0 reaches nobody |
| `AirRx.Receiver.Dispatch` | src/manager/tx_scheduler.cpp:433-447 | the inner loop: that stream takes the PDU or drops it as a repeat |
| `AirRx.Receiver.OnMpdu` | src/manager/tx_scheduler.cpp:409-449 | on_mpdu_rx as it runs; its length check never fires |
| `AirRx.LaneSees` | src/manager/tx_scheduler.cpp:419-448 | each stream ends as if only the PDUs of its bus had arrived |
| `AirRx.AirRoundTrip` | src/manager/tx_scheduler.cpp:312-449 | whatever frames arrive, in any order and number: the streams end as if the senders' PDUs had been handed over directly, byte for byte and in slot order |
| `AirRx.LaneDelivers` | src/manager/tx_scheduler.cpp:439-446 | a stream that has seen its first PDU hands on exactly the later ones that do not repeat the highest number, in order of arrival, with an exact loss count |
| `AirRx.FreshDelivers` | src/manager/tx_scheduler.cpp:439-446 | the same for a stream that has seen nothing, its first PDU included |
| `AirEnd.LogNumbered` | src/manager/frames/air_seq.cpp:22-45 | over any run of the scheduler the PDUs of a stream carry consecutive numbers modulo 65536, frames the radio refused included |
| `AirEnd.ForFrames` | src/manager/tx_scheduler.cpp:173-449 | whatever frames of a run arrive, a stream of the receiver sees exactly the PDUs of the sender's stream on its bus |
| `AirEnd.AirDelivers` | src/manager/tx_scheduler.cpp:173-449 | end to end: over any run of the sender and any arrivals of its frames, lost, repeated or reordered, a fresh stream is handed in order of arrival the payloads of exactly the sender's stream whose send bus is its receive bus, the first and all that do not repeat the highest number, hence each that arrives for the first time; its loss count is exact |
| `AirEnd.InOrderDelivers` | src/manager/tx_scheduler.cpp:173-449 | if no frame is lost, repeated or reordered it is handed exactly the payloads sent, in order, and counts no loss |
| `AirEnd.UdpDelivers` | src/manager/endpoint/udp_endpoint.cpp:103-362 | if also no frame is refused and no packet dropped as the oldest, every packet offered has reached the peer's stream, once and in order, or is still queued |
| `TxFrame.PullSound` | src/manager/stream/tcp_stream.cpp:410-466 | a pull stays within its limit; while a stream has acknowledgements it gives nothing else and each one pulled is one less |
| `TxFrame.PullFits` | src/manager/tx_scheduler.cpp:204-247 | the limit of try_pull keeps the PDU inside the frame, the tokens and the remaining budget; acks-only frames hold acknowledgements only |
| `TxFrame.FilledOk` | src/manager/tx_scheduler.cpp:181-309 | at most five PDUs from distinct streams, at most 1476 bytes, each from its stream's next number; all other streams untouched |
| `TxFrame.FrameBuilds` | src/manager/tx_scheduler.cpp:311-316 | mpdu_build never fails after a pull, and the frame carries exactly the PDUs pulled |
| `TxFrame.EmitProgress` | src/manager/tx_scheduler.cpp:138-338 | every successful transmission uses up an acknowledgement or one data frame of the quota, and none adds to either |
| `TxRun.CreditBound` | src/manager/tx_scheduler.cpp:119-136 | one refill never credits more than the exact rate: the 64-bit wrap and both truncations only lose |
| `TxRun.CreditExact` | src/manager/tx_scheduler.cpp:119-136 | a refill credits the whole rate but less than one token and one microsecond if and only if rate times microseconds stays below 2 to the 64 |
| `TxRun.RefillReaches` | src/manager/tx_scheduler.cpp:119-136 | so a refill fills the bucket or adds the rate but for that remainder |
| `TxRun.EmitPaid` | src/manager/tx_scheduler.cpp:276-295 | tokens pay for all data bytes of a frame but two per PDU, sent or not |
| `TxRun.RateBound` | src/manager/tx_scheduler.cpp:119-297 | over any run with fixed settings data bytes stay within the starting tokens plus rate times time plus two per data PDU, and the bucket never exceeds 2952 |
| `TxRun.EmitGate` | src/manager/tx_scheduler.cpp:150-171 | data frames passed the burst gate; acks-only frames carry no data |
| `TxRun.BurstKeeps` | src/manager/tx_scheduler.cpp:70-91 | frames one burst apart are at least one interval apart, in every run |
| `TxRun.BurstBound` | src/manager/tx_scheduler.cpp:70-91 | every half-open time window of the interval's length holds at most one burst of data frames |
| `TxRun.EmitNumbers` | src/manager/tx_scheduler.cpp:181-298 | a stream's next number moves exactly when it has a PDU in a frame that was built, whether the radio takes the frame or not, and that PDU carries it |
| `TxRun.EmitUdp` | src/manager/endpoint/udp_endpoint.cpp:323-362 | a packet leaves its queue exactly when the frame that carries it was accepted; a number is spent with the packet still queued if and only if the stream was in a frame that was refused |
| `TxRun.RefusedSpends` | src/manager/tx_scheduler.cpp:311-320 | a concrete refused frame: the packet stays queued and its number is spent |
| `TxRun.Ledger` | src/manager/endpoint/udp_endpoint.cpp:103-115 | every packet offered is, in order, one that flew in an accepted frame, one dropped as the oldest of a full queue, or one still queued |
| `TxServe.EmitServes` | src/manager/tx_scheduler.cpp:138-338 | a wired stream with a packet or frame that gate, tokens, quota, budget and frame have room for is served: a frame is built, its first PDU is exactly that packet or frame with the next number, and only the radio can refuse it |
| `TxServe.EmitAcks` | src/manager/tx_scheduler.cpp:138-338 | the same for a stream that owes an acknowledgement, whatever tokens, quota and gate |
| `TxServe.FrameFull` | src/manager/tx_scheduler.cpp:300-309 | no stream outside a data frame could still add a PDU to it |
| `TxServe.GateReopens` | src/manager/tx_scheduler.cpp:70-91 | over any run with fixed pacing the burst gate is open once an interval has passed since the last data frame |
| `TxBudget.NextWithin` | src/manager/tx_scheduler.cpp:204-297 | one transmission, sent or not, keeps what a stream spent and has left within its budget |
| `TxBudget.BudgetBound` | src/manager/tx_scheduler.cpp:366-402 | in one pass a stream sends at most its budget, or one full PDU if that is more, plus two bytes for every PDU |
| `TxScheduler.PullOne` | src/manager/tx_scheduler.cpp:181-298 | try_pull as it runs |
| `TxScheduler.PackFrame` | src/manager/tx_scheduler.cpp:300-309 | the packing loop as it runs |
| `TxScheduler.CommitPeeked` | src/manager/tx_scheduler.cpp:321-330 | the commit loops as they run |
| `TxScheduler.TxScheduler.EmitMpdu` | src/manager/tx_scheduler.cpp:138-338 | emit_mpdu as it runs, and the bytes offered to the radio are the frame of the pulled PDUs |
| `TxScheduler.TxScheduler.AckPhase` | src/manager/tx_scheduler.cpp:374-385 | the acknowledgement loop ends and is a run of the bounds' events; with a willing radio no stream owes an acknowledgement afterwards |
| `TxScheduler.TxScheduler.DataPhase` | src/manager/tx_scheduler.cpp:387-402 | the data loop ends, although `next` moves inside it; with a willing radio it stops only when no stream can be served |
| `TxScheduler.TxScheduler.Pass` | src/manager/tx_scheduler.cpp:351-402 | one pass: what each stream with a budget sends in it is within BudgetBound, and its tries are a stretch of the run; with a willing radio it leaves no stream that could be served |
| `TxScheduler.TxScheduler.Tick` | src/manager/tx_scheduler.cpp:340-407 | tick always ends, a nested call only asks for one more pass, the whole tick is a run of the events the bounds are proved about, each of its passes keeps every stream within its budget, and with a willing radio it ends with no stream that could be served: nothing offered, or gate, quota, tokens or budget used up |
| `TxScheduler.GiveUpIff` | src/manager/endpoint/tcp_endpoint.cpp:454-474 | with its socket open and writable a stream goes down in a tick if and only if it waited 30 s for its peer or 5 s for progress; then it drops its data and queues three CLOSE, or one ABORT if it had reached its peer |
| `TxScheduler.GiveUpEnds` | src/manager/endpoint/tcp_endpoint.cpp:454-474 | one of those frames ends the established peer it reaches |
| `WaitQueue.StepKeeps` | src/bfc-esp32/wait_free_queue.hpp:83-149 | every step of every task keeps free, filled and held indices a partition of 0..Cap-1 |
| `WaitQueue.PublishHasRoom` | src/bfc-esp32/wait_free_queue.hpp:99-104 | the filled queue is never full for a task about to publish: the branch that gives the item up is unreachable |
| `WaitQueue.RefusedIff` | src/bfc-esp32/wait_free_queue.hpp:89-93 | a push is refused if and only if every index is filled or in some task's hands |
| `WaitFifo.AdvanceOk` | src/bfc-esp32/wait_free_queue.hpp:83-149 | every step of every task keeps it that the items taken are, in order, a prefix of the items published, and the filled slots hold the rest |
| `WaitFifo.RunOk` | src/bfc-esp32/wait_free_queue.hpp:41-149 | from init on, under every interleaving: the partition holds, the items popped are, in order, a prefix of the items pushed, and the filled slots hold the rest |
| `WaitFifo.Delivered` | src/bfc-esp32/wait_free_queue.hpp:142-146 | what a popping task gets is the front item at the moment it took the index |
| `WaitFifo.PushAppends` | src/bfc-esp32/wait_free_queue.hpp:83-106 | a whole push appends its item |
| `WaitFifo.PopRemoves` | src/bfc-esp32/wait_free_queue.hpp:131-149 | a whole pop removes the front item |
| `WaitFifo.WaitFreeQueue.TryPush` | src/bfc-esp32/wait_free_queue.hpp:83-106 | try_push as it runs, other tasks holding indices |
| `WaitFifo.WaitFreeQueue.TryPop` | src/bfc-esp32/wait_free_queue.hpp:131-154 | pop as it runs |
| `PacketPool.StepKeeps` | src/winject-esp32/radio/packet.cpp:58-96 | every step of every task keeps the pool, a drop provided it is safe |
| `PacketPool.PoolSound` | src/winject-esp32/radio/packet.cpp:196-261 | a buffer is free or in transit exactly when it has no handle, never twice; below 256 handles the count is exact; free, in transit and distinct live buffers add up to the pool |
| `PacketPool.DropExact` | src/winject-esp32/radio/packet.cpp:241-261 | a drop keeps the pool if and only if the handle count is not 257, 513, ... |
| `PacketPool.RunSound` | src/winject-esp32/radio/packet.cpp:58-96 | callers who share only buffers with at most 255 handles keep the pool sound under every interleaving |
| `PacketPool.PlainExact` | src/winject-esp32/radio/packet.cpp:58-261 | under every interleaving whatever, the pool is sound at every point if and only if every drop met a count other than 257, 513, ... |
| `PacketPool.WrapFreesLive` | src/winject-esp32/radio/packet.cpp:231-261 | a run from the fresh pool to one in which dropping one of 257 handles frees the buffer under the other 256 |
| `PacketPool.PacketAllocator.Allocate` | src/winject-esp32/radio/packet.cpp:196-215 | gives the front free index, which nobody held, or none when the queue is empty |
| `PacketPool.PacketAllocator.Release` | src/winject-esp32/radio/packet.cpp:241-261 | the last handle, and only that, puts the index back |
| `TcpHandoff.StepKeeps` | src/manager/endpoint/tcp_endpoint.cpp:108-255 | every atomic step of the reader thread and the reactor keeps the hand-off invariant |
| `TcpHandoff.HandoffSafe` | src/manager/endpoint/tcp_endpoint.cpp:108-255 | in every reachable state received bytes are given ++ in hand ++ queued, both buffers keep their caps, no wake-up is lost, the reader is not left paused, and at most one closure is queued beyond stale ones; also across a peer end at which a server starts its stream over and keeps its client |
| `TcpHandoff.WakeDelivers` | src/manager/endpoint/tcp_endpoint.cpp:200-237 | a wake that finds bytes and room hands over at least one byte |
| `TcpHandoff.ReaderResumes` | src/manager/endpoint/tcp_endpoint.cpp:108-150 | a reader that looked at the queue goes on to recv if and only if there was room then and the reactor lets it now, whatever the reactor did in between, and takes nothing meanwhile |
| `TcpHandoff.Writer.SendPending` | src/manager/endpoint/tcp_endpoint.cpp:320-349 | written ++ unsent is unchanged by partial writes; it stops early only on a refusal |
| `TcpHandoff.Writer.Flush` | src/manager/endpoint/tcp_endpoint.cpp:311-362 | written ++ unsent ++ still in the stream is unchanged; it ends, with nothing left unless the socket refused |
| `SettingsBlob.UnpackCanonical` | src/winject-esp32/settings.cpp:167-374 | any accepted blob of version 3 to 7 gives a canonical snapshot that can be printed |
| `SettingsBlob.PackedReads` | src/winject-esp32/settings.cpp:106-374 | parsing what was printed gives the snapshot back up to the unused fields of absent endpoints; at most 40 bytes |
| `SettingsBlob.OldReads` | src/winject-esp32/settings.cpp:167-374 | a blob that firmware of version 3 to 6 wrote from these fields and its tables of 3, 7 and 6 byte rows parses to exactly these fields, with the endpoints of version 6 and none for the others; refused only if a mode is unknown or an endpoint has no address |
| `SettingsBlob.NoPrefixReads` | src/winject-esp32/settings.cpp:167-374 | a blob of any version with bytes missing or left over is refused |
| `SettingsBlob.RoundTripExact` | src/winject-esp32/settings.cpp:106-374 | for printable snapshots it is the identity if and only if the snapshot is canonical |
| `SettingsBlob.MigrationStable` | src/winject-esp32/settings.cpp:106-374 | whatever an old blob parses to prints to a version 7 blob that parses to the same snapshot |
| `SettingsBlob.PackBlob` | src/winject-esp32/settings.cpp:106-165 | pack_blob as it runs, its failures exactly as specified |
| `SettingsBlob.ParseTable` | src/winject-esp32/settings.cpp:274-288 | a counted table is skipped row by row, or refused when it runs short |
| `SettingsBlob.UnpackBlob` | src/winject-esp32/settings.cpp:167-374 | unpack_blob as it runs, for the blobs of OldReads and PackedReads and any other bytes |

## Left out

- FecLink.EndToEnd: takes from the table that no block expires, is evicted or has its id reused while it is live; FecTiming.EndToEndOnTime derives that from the arrivals. Without it the code drops blocks by design.
- FecClass.BlockTable.Push: the clock is read once per datagram, where the source reads it again for each use.
- ArqHear.CanHearIff: covers runs up to the first local close, abort or reset, so not the reconnection after a give-up.
- ArqSafety.DeliveredIsPrefix: covers one connection, up to the first local close, abort or reset; those discard unsent bytes and leave the counters of the two sides apart.
- TcpHandoff.HandoffSafe: stated on values, step by step, since Dafny methods do not interleave; covers one client while its socket stays open, and one reader thread; a client endpoint closes its socket when its peer ends the connection, which ends the run.
- WaitFifo.AdvanceOk: the steps are on values; the object runs each call alone while other tasks hold indices; blocking waits are left out.
- AirSeq.LossExact: the 64-bit loss counter is unbounded here.
- TcpStreamClass.TcpStream.Pull: queued control frames keep kind and number only; the rest of a queued header is overwritten before it is sent.
- TxScheduler.TxScheduler.EmitMpdu: the clock is read once for the gate and the pulls of one frame.
- TxScheduler.TxScheduler.Tick: of on_tick it covers the stream's timers, the give-up, what the socket takes and FEC flushes; opening client sockets and waking readers are left out.
- Ota.HandleUpdate: starts after the partition is opened and ends before it is made bootable; the one loop of the source is written as two, for its two constant modes.
- FecClass.Encode: matrices are lists of rows instead of one flat buffer.
- Encoder enable and disable, statistics, interval counters and logging.
- Handshake liveness: it does not hold, see above.
- Equal turns among streams: the scheduler's start index moves inside the loop that uses it.
- The last, unguarded copy of the frame rules after sixteen tries of the sequence lock.
- The upstream frame hijack, which shares raw memory with the driver.
- Sockets, reactors, drivers, NVS, HTTP responses, consoles, configuration text, the radio simulator and the bench tools.
- tools/fec.py and tools/tcp_mux_tunnel.py: the first repeats the block code over another library, the second is thread and socket plumbing.
