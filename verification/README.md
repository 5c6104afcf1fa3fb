# xiu verification

A model in Dafny of the codecs and stateful transforms of the xiu live media server, with proofs of what they promise each
other: what one side writes the other reads, whatever the order, the cuts or the interleaving.  Every method of the model
that changes state is proved against a specification function, and the theorems are about those functions, for all inputs
and all runs.  `dafny verify dfyconfig.toml` checks the whole project.

| files | what they model |
|---|---|
| Bytesio | fixed-width integers, the byte reader and the byte writer everything rests on |
| Chunk, ChunkPacketizer, ChunkUnpacketizer, ChunkSplit, ChunkRoundTrip, ChunkRuns, ChunkCuts, ChunkShortest, ChunkErrors, ServerSession | the RTMP chunk stream of section 5.3.1 of the Adobe RTMP 1.0 specification: both state machines, their header caches, and a session that drains its connection |
| AnnexB, Rtp, RtpPacking, RtpStreams, RtpH264, RtpH264Proofs, RtpH265, RtpH265Proofs, RtpAggregates | Annex B splitting, RTP packets (RFC 3550), fragmentation, aggregation and reassembly (RFC 6184, RFC 7798) |
| Mpeg4Avc, Mpeg4AvcProcessor, AvcRecord, Rtsp2Rtmp | the conversion between Annex B and length-prefixed AVC, and the RTSP to RTMP remuxer |
| Crc32, Psi, Pes, TsPacket, Ts, TsMuxer, TsRuns, TsClock, TsTables | the MPEG-TS muxer (ITU-T H.222.0) and a demultiplexer to hold it against |
| StreamHub, StreamHubProofs, StreamHubPrior, StreamHubLeaving, StreamHubNames, StreamHubCounts, StreamHubProgress, StreamHubRefused, StreamHubExamples | the stream hub as a system of steps of its concurrent loops |
| RtpQueue | the RTP reordering queue |
| Bits, ExpGolomb | bit reader and writer, Exp-Golomb codes (section 9.1 of ITU-T H.264) |
| Hls, HlsSegments, HlsRuns, HlsTiming, HlsContents | HLS segments and the sliding playlist (RFC 8216), on top of the muxer |
| Gop, Digest | the cache of groups of pictures, and the digest of the RTMP handshake |

Where the code does not do what it should for all inputs the code is modelled as it is, and the exact condition under
which it does is proved:

- The three-byte chunk basic header is written high byte first and read low byte first, so a chunk stream id beyond 318 comes
  back only when its two bytes are equal (`BasicHeaderRoundTrip`).
- A message compressed to format 3 leaves out the extended timestamp the reader expects; a reader keeps up with its writer
  exactly when no message does that (`KeepsUpExactly`, `DroppedExample`).
- What is written in front of a message is the shortest that says it, exactly but for messages sent in full on a new chunk
  stream, with a new stream id or going back in time, and deltas extended behind an extension (`ShortestExactly`,
  `NewStreamExample`).
- Chunk streams that open without a full header are let pass, six in a row; the seventh ends the session
  (`GivesUpExactly`, `SeventhExample`).
- A basic header of two or three bytes cut by a read loses a byte; draining between reads is harmless exactly when the bytes
  so far do not end inside such a header (`SplitIndependence`, `LostExactly`, `CutExample`).
- An H.264 unit sent alone is understood exactly when its type is 1 to 23, an H.265 unit when its type is not 48 to 50
  (`NaluArrives`), and a stream comes back exactly when all its units are (`StreamArrives`).
- Aggregation packets with decoding order numbers are understood exactly when the upper bits of their type byte are zero, and
  timestamp offsets of zero are taken for errors (`StapBArrives`, `MtapArrives`).
- Before a decoder configuration record is loaded the length fields of AVC have a width of zero, and converting a frame then
  never ends; the conversion ends exactly when there is a width or nothing to convert (`EndsExactly`, `NoWidthExample`).
- A frame with both kinds of parameter set becomes a sequence header and its other units are gone (`UnitsReachPlayer`).
- `find_stream` finds the right index exactly when no earlier program has streams (`FindStreamExactly`,
  `SecondProgramExample`).
- A subscription whose kind disagrees with its kind of data is not undone by unsubscribing (`UnSubscribeExactly`,
  `MismatchExample`).  No session of the repository sends one: WhepPull goes with packets and all others with frames.
- An event loop ends early when prior data cannot be sent, or when there are more unsubscriptions than subscribers; the
  names stay usable exactly when it never does so behind a name (`LiveExactly`), and otherwise that name is blocked for good
  (`EndSticks`, `StuckForever`, `StuckExample`).  The second cause is an underflow that panics in builds with overflow checks;
  the release profile (Cargo.toml:21) sets none, and there the count wraps and the loop goes on.
- A subscriber's prior data and the block it is sent afterwards overlap or leave a gap unless nothing but metadata lies between
  them (`PriorMeetsBlock`, `TwiceExample`, `MissedExample`).
- The reordering queue keeps its order exactly when nothing 2^15 numbers or more past its front is appended
  (`WriteKeepsOrderExactly`, `OrderedExactly`, `RestartExample`); out of order it may still be read in order, exactly when each
  packet taken follows the one before (`ReadsExactly`, `GapExample`, `BridgeExample`); once drained it compares with number
  zero (`DrainedExactly`).
- `write_n_bits` leaves a full byte in hand exactly when the bits after the first byte fill whole bytes (`WriteNBits`,
  `NBitsRefineBits`).
- An HLS segment starts with the tables, but a player can tune in at its first media packet exactly when a video key frame and
  not audio made the cut (`SegmentsOpen`).

Panics of the source, such as overflows in builds with overflow checks and reads past the end of a vector, are errors of the
model where the source meets them on its inputs, and preconditions of the methods otherwise.  Shifts and masks are divisions and remainders, except in
Crc32, which works on bit vectors, and Bits, which works on sequences of bits.

## Model

| member | source | states |
|---|---|---|
| Bytesio.BytesReader.ReadBytes | library/bytesio/src/bytes_reader.rs:32-39 | a read takes exactly the bytes asked for, or fails and takes none |
| Bytesio.BytesWriter.Prepend | library/bytesio/src/bytes_writer.rs:102-108 | puts bytes in front of all that was written |
| Bytesio.BytesWriter.OrU8At | library/bytesio/src/bytes_writer.rs:34-43 | ors into one byte already written and changes nothing else |
| Bytesio.BytesWriter.AddU8At | library/bytesio/src/bytes_writer.rs:45-54 | adds to one byte already written and changes nothing else |
| Bytesio.BytesWriter.Append | library/bytesio/src/bytes_writer.rs:110-112 | moves everything out of the other writer to the end of this one |
| ChunkUnpacketizer.ChunkUnpacketizer.ReadChunks | protocol/rtmp/src/chunk/unpacketizer.rs:128-168 | returns the complete messages up to and including a SET_CHUNK_SIZE, and leaves the state the step functions say |
| ChunkUnpacketizer.ChunkUnpacketizer.ReadChunk | protocol/rtmp/src/chunk/unpacketizer.rs:178-199 | runs the state machine until a message is complete, the bytes run out or parsing fails |
| ChunkUnpacketizer.ChunkUnpacketizer.ReadBasicHeader | protocol/rtmp/src/chunk/unpacketizer.rs:254-336 | reads one to three bytes, selects the chunk stream, counts orphan streams; a header cut short loses what was read |
| ChunkUnpacketizer.ChunkUnpacketizer.SelectStream | protocol/rtmp/src/chunk/unpacketizer.rs:284-331 | restores the cached header of another chunk stream, or counts an error for an unknown one without a full header |
| ChunkUnpacketizer.ChunkUnpacketizer.ReadMessageHeader | protocol/rtmp/src/chunk/unpacketizer.rs:354-505 | the header of each format, resumable between fields |
| ChunkUnpacketizer.ChunkUnpacketizer.ReadFullHeader | protocol/rtmp/src/chunk/unpacketizer.rs:383-423 | the four fields of a full header from wherever reading stopped |
| ChunkUnpacketizer.ChunkUnpacketizer.ReadDeltaHeader | protocol/rtmp/src/chunk/unpacketizer.rs:435-474 | the three fields of a format 1 header from wherever reading stopped |
| ChunkUnpacketizer.ChunkUnpacketizer.ReadExtendedTimestamp | protocol/rtmp/src/chunk/unpacketizer.rs:507-550 | four more bytes exactly when the last header announced them; the delta is added once for each message |
| ChunkUnpacketizer.ChunkUnpacketizer.ReadMessagePayload | protocol/rtmp/src/chunk/unpacketizer.rs:552-605 | one chunk of payload, and the message with its header cached once it is whole |
| ChunkUnpacketizer.PumpByChunk | protocol/rtmp/src/chunk/unpacketizer.rs:178-199 | draining a connection step by step is taking one complete message after the other, the chunk size applied in between |
| ChunkErrors.GivesUpExactly | protocol/rtmp/src/chunk/unpacketizer.rs:284-321 | a session closes at the seventh unknown chunk stream without a full header since the last unknown one with it, and at no other basic header, however its bytes are cut |
| ChunkErrors.SeventhExample | protocol/rtmp/src/chunk/unpacketizer.rs:303-317 | six chunk streams that open in format 3 pass as empty messages, and of any more the seventh ends the session |
| ChunkSplit.SplitIndependence | protocol/rtmp/src/chunk/unpacketizer.rs:178-605 | whatever state the reader is in, every continuation is parsed alike whether or not it drained first, if and only if draining did not stop inside a basic header |
| ChunkSplit.CutExample | protocol/rtmp/src/chunk/unpacketizer.rs:264-270 | one byte of a two-byte header, drained on its own, is enough for a loss |
| ChunkSplit.PiecesAgree | protocol/rtmp/src/chunk/unpacketizer.rs:128-605 | a stream cut so that no drain stops inside a basic header gives the same messages and the same final state as in one piece |
| ChunkSplit.NarrowNoneLost | protocol/rtmp/src/chunk/unpacketizer.rs:260-277 | a stream of one-byte basic headers can be cut anywhere |
| ChunkSplit.NoneLostExactly | protocol/rtmp/src/chunk/unpacketizer.rs:260-277 | whether draining in pieces loses a byte is decided by the positions of the cuts in the stream, not by what earlier drains made of it |
| ChunkSplit.LossShows | protocol/rtmp/src/chunk/unpacketizer.rs:260-277 | a byte lost inside a basic header changes what the reader makes of the rest |
| ChunkPacketizer.ChunkPacketizer.ZipChunkHeader | protocol/rtmp/src/chunk/packetizer.rs:39-84 | compresses a header against the last one of its chunk stream, to what `ChunkShortest.ShortestExactly` says of it |
| ChunkPacketizer.ChunkPacketizer.WriteBasicHeader | protocol/rtmp/src/chunk/packetizer.rs:86-98 | the one- to three-byte form, the three-byte one high byte first |
| ChunkPacketizer.ChunkPacketizer.WriteMessageHeader | protocol/rtmp/src/chunk/packetizer.rs:100-161 | the fields each format keeps, the timestamp capped at 24 bits |
| ChunkPacketizer.ChunkPacketizer.WriteChunk | protocol/rtmp/src/chunk/packetizer.rs:169-215 | appends exactly the chunks of the message and caches its header |
| ChunkPacketizer.ChunkPacketizer.WritePayload | protocol/rtmp/src/chunk/packetizer.rs:186-210 | cuts the payload, a basic header and the repeated extension between the pieces |
| ChunkRoundTrip.BasicHeaderRoundTrip | protocol/rtmp/src/chunk/packetizer.rs:86-98 | a chunk stream id is read back if and only if it is 2 to 318, or larger with equal low and high byte |
| ChunkRoundTrip.LeadRead | protocol/rtmp/src/chunk/unpacketizer.rs:254-550 | a reader whose cache mirrors the writer's decodes every compressed header to the absolute timestamp |
| ChunkRoundTrip.StaysSynced | protocol/rtmp/src/chunk/unpacketizer.rs:589-600 | after a message the reader's header cache again equals the writer's |
| ChunkRoundTrip.MessageRoundTrip | protocol/rtmp/src/chunk/packetizer.rs:169-215 | one message of any length and full 32-bit timestamp comes back whole, however many chunks repeat its extension |
| ChunkRuns.FreshSynced | protocol/rtmp/src/chunk/unpacketizer.rs:95-108 | a new writer and a new reader start in step |
| ChunkRuns.RunRoundTrip | protocol/rtmp/src/chunk/packetizer.rs:39-215 | any list of messages over any mix of ids comes back as that list, every byte used, both caches equal |
| ChunkRuns.SessionRoundTrip | protocol/rtmp/src/protocol_control_messages/writer.rs:25-42 | a session opened with the sixteen bytes that announce chunks of 4096, to a reader that starts at 128, brings back any messages of any sizes |
| ChunkRuns.ShortControlBreaks | protocol/rtmp/src/messages/parser.rs:88-91 | a SET_CHUNK_SIZE without its four bytes is handed on and ends the session |
| ChunkCuts.LostExactly | protocol/rtmp/src/chunk/unpacketizer.rs:254-605 | draining after the first k bytes of an encoded run loses a byte if and only if they end strictly inside a two- or three-byte basic header of the encoding |
| ChunkCuts.HarmlessExactly | protocol/rtmp/src/chunk/unpacketizer.rs:178-605 | draining there makes no difference to any continuation if and only if they do not |
| ChunkCuts.NoneLostInRun | protocol/rtmp/src/chunk/unpacketizer.rs:128-605 | receiving an encoded run in pieces loses nothing if and only if no cut is inside a basic header |
| ChunkCuts.CutRunRoundTrip | protocol/rtmp/src/chunk/unpacketizer.rs:128-605 | any run over any readable ids, cut anywhere but inside a basic header, comes back whole |
| ChunkCuts.NarrowRunRoundTrip | protocol/rtmp/src/chunk/unpacketizer.rs:128-605 | over one-byte ids it comes back however it is cut |
| ChunkRuns.KeepsUpExactly | protocol/rtmp/src/chunk/packetizer.rs:130-133 | on every run the reader keeps up with the writer if and only if no message drops an extended timestamp |
| ChunkRuns.DroppedFallsBehind | protocol/rtmp/src/chunk/unpacketizer.rs:511-522 | a message sent in format 3 after an extended timestamp leaves the reader in the middle of its first chunk |
| ChunkRuns.DroppedExample | protocol/rtmp/src/chunk/packetizer.rs:130-133 | two equal messages past 2^24 - 1 milliseconds: the second is never handed on |
| ChunkShortest.ShortestExactly | protocol/rtmp/src/chunk/packetizer.rs:39-84 | nothing that a reader in step decodes to the same message is shorter than what is written in front of it, if and only if the header is not sent in full for another reason and no extended delta comes after an extension |
| ChunkShortest.OrdinaryShortest | protocol/rtmp/src/chunk/packetizer.rs:46-66 | on a chunk stream whose messages keep their stream id and go forward in steps below 2^24 - 1 milliseconds nothing shorter would do |
| ChunkShortest.ShortExample | protocol/rtmp/src/chunk/packetizer.rs:57-66 | the second message of a kind has four bytes in front: 0x84 and the delta |
| ChunkShortest.NewStreamExample | protocol/rtmp/src/chunk/packetizer.rs:44-46 | a first message is sent with twelve bytes in front where eight would be understood |
| ChunkShortest.LeadBytes | protocol/rtmp/src/chunk/packetizer.rs:86-161 | every byte in front of a payload, for each format and for timestamps on either side of 2^24 - 1, in plain numbers |
| ServerSession.ServerSession.OnReceive | protocol/rtmp/src/session/server_session.rs:176-207 | a session handles exactly the messages its bytes complete, batch after batch, applying chunk sizes in between |
| ServerSession.BatchPumped | protocol/rtmp/src/session/server_session.rs:181-206 | reading in batches that stop at a SET_CHUNK_SIZE loses and reorders nothing |
| AnnexB.SplitNalus | protocol/rtmp/src/remuxer/rtsp2rtmp.rs:238-257 | the loop over start codes returns the units the specification splits |
| AnnexB.NextEnd | protocol/rtsp/src/rtp/utils.rs:86-101 | where a unit ends: before the zeros in front of the next start code |
| AnnexB.SplitIsSeparable | protocol/rtsp/src/rtp/utils.rs:82-110 | whatever it is given, the splitter hands out units without start codes and, but for the last, without a trailing zero |
| AnnexB.SplitOfJoin | protocol/rtsp/src/rtp/utils.rs:77-110 | joining units behind start codes and splitting again gives them back if and only if they are separable |
| Rtp.UnmarshalPacket | protocol/rtsp/src/rtp/mod.rs:33-69 | reads header, extension, payload and padding, or fails as the specification says |
| Rtp.MarshalPacket | protocol/rtsp/src/rtp/mod.rs:72-91 | writes the packet the specification describes |
| Rtp.UnmarshalConsistent | protocol/rtsp/src/rtp/mod.rs:33-69 | every packet read has counts and flags that agree with its contents |
| Rtp.PacketRoundTrip | protocol/rtsp/src/rtp/mod.rs:33-91 | a packet is read back as written if and only if its counts and flags agree with its contents |
| Rtp.UnmarshalInverts | protocol/rtsp/src/rtp/mod.rs:33-69 | bytes are read as a packet if and only if they are what some consistent packet marshals to, and what is read marshals to them again |
| Rtp.FixedBytes | protocol/rtsp/src/rtp/rtp_header.rs:66-80 | the twelve bytes every packet starts with, in plain numbers |
| RtpPacking.FragmentsWhole | protocol/rtsp/src/rtp/rtp_h264.rs:65-97 | fragments join to the whole and none exceeds the room |
| RtpPacking.NumberedInOrder | protocol/rtsp/src/rtp/rtp_h264.rs:84-95 | sequence numbers are consecutive modulo 2^16 and nothing else of the header varies but the marker |
| RtpH264.NaluPacketsFit | protocol/rtsp/src/rtp/rtp_h264.rs:55-120 | every packet fits the mtu, and only the last of a unit has the marker |
| RtpH264.RtpH264Packer.PackFuA | protocol/rtsp/src/rtp/rtp_h264.rs:55-100 | sends exactly the FU-A fragments of the unit |
| RtpH264Proofs.FragmentBytes | protocol/rtsp/src/rtp/rtp_h264.rs:55-100 | every byte of every fragment in plain numbers: type 28, 128 in the first, 64 in the last, the pieces in order, all but the last full |
| RtpH264.RtpH264Packer.Pack | protocol/rtsp/src/rtp/rtp_h264.rs:125-129 | sends the packets of every unit of the stream, in order |
| RtpH264.RtpH264UnPacker.Unpack | protocol/rtsp/src/rtp/rtp_h264.rs:165-194 | hands a packet to the branch of its type, or drops it |
| RtpH264.RtpH264UnPacker.UnpackFu | protocol/rtsp/src/rtp/rtp_h264.rs:266-301 | collects fragments, and emits the unit with its rebuilt header at the last |
| RtpH264Proofs.FragmentTaken | protocol/rtsp/src/rtp/rtp_h264.rs:266-301 | packets of types 28 and 29 are taken for fragments, which start, go on and end a unit as their second byte says |
| RtpH264.RtpH264UnPacker.UnpackStap | protocol/rtsp/src/rtp/rtp_h264.rs:346-375 | emits each aggregated unit until the payload ends or falls short |
| RtpH264.RtpH264UnPacker.UnpackMtap | protocol/rtsp/src/rtp/rtp_h264.rs:430-470 | emits each unit behind its size, order number and timestamp offset |
| RtpH264Proofs.FuReassembled | protocol/rtsp/src/rtp/rtp_h264.rs:266-301 | the fragments of a unit come out as that unit, behind whatever the buffer held, and leave it empty |
| RtpStreams.StreamArrives | protocol/rtsp/src/rtp/utils.rs:77-110 | for any codec that sends and reads single units as they should be: a stream's frames are its units in order if and only if every unit survives, as a frame missed once is never made up for |
| RtpH264Proofs.NaluArrives | protocol/rtsp/src/rtp/rtp_h264.rs:55-301 | a unit arrives as one frame if and only if it was fragmented or its type is 1 to 23 |
| RtpH264Proofs.StreamArrives | protocol/rtsp/src/rtp/rtp_h264.rs:55-301 | the frames of a stream are exactly its units in order if and only if every unit survives: a unit lost once is not made up for by any later packet |
| RtpH264Proofs.StreamRoundTrip | protocol/rtsp/src/rtp/rtp_h264.rs:55-301 | splitting, packing, marshalling, unmarshalling and unpacking return the units of a stream in order if and only if all survive, and the frames joined split to them again |
| RtpAggregates.StapAArrives | protocol/rtsp/src/rtp/rtp_h264.rs:346-375 | units behind two-byte sizes come out as those units |
| RtpAggregates.StapACut | protocol/rtsp/src/rtp/rtp_h264.rs:346-375 | of a payload that falls short the units before the cut come out and the packet is reported broken |
| RtpAggregates.StapBArrives | protocol/rtsp/src/rtp/rtp_h264.rs:346-375 | with a decoding order number they do if and only if the upper bits of the type byte are zero, as it is compared unmasked |
| RtpAggregates.MtapArrives | protocol/rtsp/src/rtp/rtp_h264.rs:430-470 | units with timestamp offsets do if and only if the upper bits of the type byte are zero and no offset is |
| RtpH265.NaluPacketsFit | protocol/rtsp/src/rtp/rtp_h265.rs:55-140 | every packet fits the mtu, and only the last of a unit has the marker |
| RtpH265.RtpH265Packer.PackFu | protocol/rtsp/src/rtp/rtp_h265.rs:55-122 | sends exactly the fragments of the unit while the sequence number does not overflow |
| RtpH265Proofs.FragmentBytes | protocol/rtsp/src/rtp/rtp_h265.rs:55-122 | every byte of every fragment in plain numbers: type 49, 128 in the first, and in the last 64 with bits that are not the type |
| RtpH265.RtpH265Packer.Pack | protocol/rtsp/src/rtp/rtp_h265.rs:143-147 | sends the packets of every unit of the stream, in order, while the sequence number does not overflow |
| RtpH265.RtpH265UnPacker.Unpack | protocol/rtsp/src/rtp/rtp_h265.rs:183-210 | hands a packet to the branch of its type |
| RtpH265.RtpH265UnPacker.UnpackFu | protocol/rtsp/src/rtp/rtp_h265.rs:323-358 | collects fragments, and emits the unit with its rebuilt two-byte header at the last |
| RtpH265Proofs.FragmentTaken | protocol/rtsp/src/rtp/rtp_h265.rs:323-358 | packets of type 49 are taken for fragments, which start, go on and end a unit as their third byte says |
| RtpH265.RtpH265UnPacker.UnpackAp | protocol/rtsp/src/rtp/rtp_h265.rs:260-288 | emits each aggregated unit until the payload ends or falls short |
| RtpH265Proofs.FuReassembled | protocol/rtsp/src/rtp/rtp_h265.rs:323-358 | the fragments come out as the unit, behind whatever the buffer held, although the last FU header is made from the wrong bits |
| RtpH265Proofs.NaluArrives | protocol/rtsp/src/rtp/rtp_h265.rs:55-358 | a unit arrives as one frame if and only if it was fragmented or its type is not 48, 49 or 50 |
| RtpH265Proofs.StreamArrives | protocol/rtsp/src/rtp/rtp_h265.rs:55-358 | the frames of a stream are exactly its units in order if and only if every unit survives |
| RtpH265Proofs.StreamRoundTrip | protocol/rtsp/src/rtp/rtp_h265.rs:55-358 | splitting, packing, marshalling, unmarshalling and unpacking return the units of a stream in order if and only if all survive, and the frames joined split to them again |
| RtpAggregates.ApArrives | protocol/rtsp/src/rtp/rtp_h265.rs:260-288 | the units of an aggregation packet come out as those units |
| RtpAggregates.ApCut | protocol/rtsp/src/rtp/rtp_h265.rs:260-288 | of a payload that falls short the units before the cut come out and the packet is reported broken |
| Mpeg4Avc.AvcRoundTrip | library/container/flv/src/mpeg4_avc.rs:228-297 | length-prefixing a frame and converting it back gives its units behind start codes, the stored parameter sets once in front if and only if an IDR unit comes before any |
| Mpeg4Avc.RemuxPreservesUnits | library/container/flv/src/mpeg4_avc.rs:228-297 | Annex B, length-prefixed, Annex B again: the same units, with the parameter sets where needed |
| Mpeg4Avc.EndsExactly | library/container/flv/src/mpeg4_avc.rs:228-271 | the conversion loop ends if and only if length fields have a width or there is nothing to convert |
| Mpeg4Avc.ConvertsExactly | library/container/flv/src/mpeg4_avc.rs:228-271 | bytes are converted and not refused if and only if they are whole units behind their lengths of which the last has a byte |
| Mpeg4Avc.NoWidthExample | library/container/flv/src/mpeg4_avc.rs:98-103 | a frame before any sequence header, when the width is still zero, is never done |
| Mpeg4AvcProcessor.Mpeg4AvcProcessor.NalusToMpeg4Avc | library/container/flv/src/mpeg4_avc.rs:287-297 | each unit behind its length in the configured width |
| Mpeg4AvcProcessor.Mpeg4AvcProcessor.ConvertUnit | library/container/flv/src/mpeg4_avc.rs:235-259 | one turn of the conversion loop, at any width, zero included |
| Mpeg4AvcProcessor.Mpeg4AvcProcessor.H264Mp4ToAnnexB | library/container/flv/src/mpeg4_avc.rs:228-262 | wherever the conversion loop ends it returns the specified stream |
| Mpeg4AvcProcessor.Mpeg4AvcProcessor.ReadNaluSize | library/container/flv/src/mpeg4_avc.rs:264-271 | a length of one to four bytes, high byte first |
| Mpeg4AvcProcessor.Mpeg4AvcProcessor.WriteNaluSize | library/container/flv/src/mpeg4_avc.rs:273-285 | the low bytes of the length, high byte first |
| Mpeg4Avc.FourBytesOfSize | library/container/flv/src/mpeg4_avc.rs:273-285 | a length of four bytes, highest first, in plain numbers |
| Mpeg4AvcProcessor.Mpeg4AvcProcessor.DecoderConfigurationRecordLoad | library/container/flv/src/mpeg4_avc.rs:145-226 | loads field width and both lists of parameter sets, or fails |
| Mpeg4AvcProcessor.ConfigRoundTrip | library/container/flv/src/mpeg4_avc.rs:145-333 | loading a saved configuration gives the field width and all parameter sets back exactly when every sequence parameter set is accepted, and fails otherwise |
| AvcRecord.RecordRead | library/container/flv/src/mpeg4_avc.rs:299-333 | a reader after ISO/IEC 14496-15 finds every field of a saved record, and chroma format and bit depths behind the sets of the twelve high profiles alone |
| Rtsp2Rtmp.OnRtspVideo | protocol/rtmp/src/remuxer/rtsp2rtmp.rs:230-315 | splits a frame, classifies its units and builds the sequence header or the frame tag |
| Rtsp2Rtmp.UnitsReachPlayer | protocol/rtmp/src/remuxer/rtsp2rtmp.rs:238-315 | a frame is refused exactly when it has an empty unit; of any other all units reach the player exactly when it does not hold both kinds of parameter set, and if it does the lost ones are named |
| Rtsp2Rtmp.SequenceHeaderLoads | protocol/rtmp/src/remuxer/rtsp2rtmp.rs:294-304 | the parameter sets of a sequence header are what the player loads |
| Rtsp2Rtmp.HeaderThenIdr | protocol/rtmp/src/remuxer/rtsp2rtmp.rs:294-315 | a player that gets a sequence header shows its two sets in front of the next IDR frame, and nothing else of the frame it came from |
| Crc32.GenCrc32 | library/container/mpegts/src/crc32.rs:38-48 | the loop folds the table step over the bytes |
| Crc32.TableCorrect | library/container/mpegts/src/crc32.rs:3-36 | each of the 256 entries is what its byte leaves in the shift register of Annex A of ITU-T H.222.0 |
| Crc32.CrcRefines | library/container/mpegts/src/crc32.rs:38-48 | the table-driven loop refines the bit-by-bit register of the standard, for all data |
| Crc32.ResidueIsZero | library/container/mpegts/src/crc32.rs:38-48 | over any data with its CRC behind it, low byte first, the register ends at zero |
| Psi.PatMuxer.Write | library/container/mpegts/src/pat.rs:52-94 | writes the program association section |
| Psi.PmtMuxer.Write | library/container/mpegts/src/pmt.rs:60-109 | writes the program map section |
| Psi.SectionAccepted | library/container/mpegts/src/pat.rs:78-80 | a decoder delimits a section by its length field, accepts its CRC and heeds it as current, whatever stuffing follows |
| Psi.PatRoundTrip | library/container/mpegts/src/pat.rs:52-94 | the association section, the only one of its kind and current, is as long as it says and names exactly the programs of transport stream 1 |
| Psi.PmtRoundTrip | library/container/mpegts/src/pmt.rs:60-109 | the map section, the only one of its kind and current, carries version, PCR PID and every stream with the type a decoder is to be told |
| Pes.TimestampRoundTrip | library/container/mpegts/src/pes.rs:126-159 | the five bytes carry any timestamp, negative ones too, modulo 2^33 with every marker bit set |
| Pes.PesMuxer.WritePesHeader | library/container/mpegts/src/pes.rs:81-183 | writes the header the specification lays out, lengths patched in |
| Pes.PesRoundTrip | library/container/mpegts/src/pes.rs:81-183 | a decoder reads id, alignment, timestamps modulo 2^33 (a DTS only where it differs) and the payload, behind the six delimiter bytes exactly for H.264 without delimiters |
| Pes.LengthIsTrue | library/container/mpegts/src/pes.rs:167-180 | the packet length is the exact number of bytes behind it, or zero if and only if that exceeds 16 bits |
| TsPacket.PcrRoundTrip | library/container/mpegts/src/utils.rs:6-18 | the six bytes carry the base modulo 2^33, and the extension exactly if and only if it is not negative |
| TsPacket.PacketWhole | library/container/mpegts/src/ts.rs:204-320 | 188 bytes, neither marked erroneous nor scrambled, from which a demultiplexer recovers header and data, with random access and clock exactly where they are due and nothing but 0xFF for stuffing |
| TsPacket.PacketsDeliver | library/container/mpegts/src/ts.rs:164-203 | from all packets of a unit a demultiplexer recovers PES header and payload; counters rise by one, only the first starts a unit or carries a PCR |
| TsPacket.PsiPacketRead | library/container/mpegts/src/ts.rs:135-162 | a section fills one packet of 188 bytes and is found behind the pointer field |
| Ts.FindStreamExactly | library/container/mpegts/src/ts.rs:322-354 | the index found is that of the stream if and only if no earlier program has streams |
| Ts.SecondProgramExample | library/container/mpegts/src/ts.rs:322-354 | the only stream of a second program is given index 1 |
| TsMuxer.TsMuxer.LookUp | library/container/mpegts/src/ts.rs:322-354 | the nested loops find what the specification finds |
| TsMuxer.TsMuxer.AddStream | library/container/mpegts/src/ts.rs:356-434 | a new stream gets the next PID and a new version is announced; a fifth is refused |
| TsMuxer.TsMuxer.Reset | library/container/mpegts/src/ts.rs:53-59 | the tables are due again |
| TsMuxer.TsMuxer.Write | library/container/mpegts/src/ts.rs:65-133 | puts out exactly the packets of the specification and reaches its state, or refuses an unknown PID and changes nothing that matters |
| TsMuxer.TsMuxer.Announce | library/container/mpegts/src/ts.rs:106-128 | association table and maps, each counter advanced |
| TsMuxer.TsMuxer.WritePes | library/container/mpegts/src/ts.rs:164-203 | the loop terminates and appends the packets of the unit |
| TsMuxer.TsMuxer.WriteTsHeaderForPes | library/container/mpegts/src/ts.rs:204-320 | appends the header of one packet with its flags, clock and stuffing; the clock is the one `ClockRuns` tells |
| TsRuns.RunIsSound | library/container/mpegts/src/ts.rs:53-133 | over every run counters rise by one modulo 16 on each PID, and at every packet a decoder that followed the tables knows its stream, and the PID of its PCR is the one announced |
| TsRuns.RunArrives | library/container/mpegts/src/ts.rs:65-320 | over every run each PID, cut at its start flags, gives one PES packet for each accepted write of data to it, in order, with the stream id of its codec, its times and its payload |
| TsRuns.TablesAfterReset | library/container/mpegts/src/ts.rs:53-128 | after a reset the next accepted write puts association table and map in front of its media |
| TsClock.ClockRuns | library/container/mpegts/src/ts.rs:79-90 | over every run the first media packet of an accepted write with data carries a PCR exactly when its PID is that of the last H.264 stream written to, or while there is none of the first stream; it tells the DTS, or the PTS if there is none |
| TsTables.TablesWhenDue | library/container/mpegts/src/ts.rs:76-128 | over every run an accepted write puts both tables in front exactly when none have gone out since the start, a reset or a new stream, 400 ms after the last ones (or after ones at time zero), or when the clock moves to it; otherwise none |
| TsTables.TablesTell | library/container/mpegts/src/ts.rs:76-434 | over every run those tables tell a fresh decoder the streams added so far in order with their types, a version for each change, and the PID of the clock |
| StreamHub.SendToAll | library/streamhub/src/lib.rs:76-129 | the loop over the senders, in any order, sends once for every entry |
| StreamHubProofs.FanOut | library/streamhub/src/lib.rs:76-148 | in every interleaving a subscriber has its prior data and one contiguous block of its publisher's data, in order and without repetition; while registered it misses nothing |
| StreamHubPrior.PriorMeetsBlock | library/streamhub/src/lib.rs:378-405 | prior data that ends at a position of the publisher's data joins the block without gap or repetition if and only if only metadata lies between that position and where the loop stood when the subscriber was added |
| StreamHubExamples.TwiceExample | protocol/rtmp/src/session/common.rs:203-228 | a frame cached while still in the mailbox is received twice |
| StreamHubExamples.MissedExample | library/streamhub/src/lib.rs:378-396 | a frame taken between prior data and registration is never received |
| StreamHubProofs.TakenBy | library/streamhub/src/lib.rs:76-148 | one step of a data loop gives the next data to every registered open channel once, metadata to none, and nothing to any other |
| StreamHubProofs.NextKeeps | library/streamhub/src/lib.rs:360-449 | every step of every loop keeps the invariant of channels, senders and mailboxes |
| StreamHubLeaving.SilentForever | library/streamhub/src/lib.rs:408-428 | a channel let go never receives anything again |
| StreamHubLeaving.UnSubscribeExactly | library/streamhub/src/lib.rs:408-416 | an unsubscription lets the channel go if and only if the kind of subscription agrees with the kind of data |
| StreamHubExamples.MismatchExample | library/streamhub/src/lib.rs:408-416 | a run from the start in which it does not, and the channel goes on receiving |
| StreamHubNames.LiveExactly | library/streamhub/src/lib.rs:378-421 | over every run every name taken stays one that unpublishing frees, if and only if no step ends early the event loop some name leads to |
| StreamHubNames.NamesLiveExactly | library/streamhub/src/lib.rs:1038-1101 | the same for every run from the start |
| StreamHubCounts.SubscribersCounted | library/streamhub/src/lib.rs:378-421 | over every run the count of a running transceiver is the subscribers added to it less the unsubscriptions it took; one too many ends it |
| StreamHubCounts.LiveByCounts | library/streamhub/src/lib.rs:378-421 | every name can be freed if and only if no step ends the event loop behind one: a failure to send prior data, or an unsubscription when as many have left as were added |
| StreamHubProgress.NeverStuck | library/streamhub/src/lib.rs:970-990 | in every reachable state in which the hub waits for a reply, the event loop that owes it can take a turn |
| StreamHubProgress.AnswerComes | library/streamhub/src/lib.rs:970-990 | however the loops are interleaved, the hub waits for no more turns of that loop than there are events in its mailbox, and the next ends the wait |
| StreamHubProgress.EndedMayStop | library/streamhub/src/lib.rs:423-428 | in every reachable state the data loops of a transceiver may stop if and only if its event loop has ended |
| StreamHubProgress.StopsForGood | library/streamhub/src/lib.rs:131-148 | a data loop that has stopped takes nothing and is sent nothing in any continuation |
| StreamHubNames.EndSticks | library/streamhub/src/lib.rs:378-421 | when sending prior data fails, or the count of subscribers underflows in a build with overflow checks, the name stays taken with no event loop behind it |
| StreamHubExamples.StuckExample | library/streamhub/src/lib.rs:378-421 | a run from the start that leaves its name stuck, and one that ends an event loop early but has freed the name |
| StreamHubNames.StuckForever | library/streamhub/src/lib.rs:1083-1101 | and that lasts for the rest of every run |
| StreamHubRefused.RefusedIsSilent | library/streamhub/src/lib.rs:1038-1081 | a publisher refused after its announcement failed is never heard: its subscribers have their prior data and nothing else |
| StreamHubRefused.RefusedLeavesNoTrace | library/streamhub/src/lib.rs:1038-1050 | a publisher refused because the name is taken changes no run it tries in, whatever comes before and after |
| StreamHubNames.NameKept | library/streamhub/src/lib.rs:1038-1101 | over every run a name leads to the publisher that took it until it is unpublished |
| RtpQueue.RtpQueue.Insert | protocol/webrtc/src/rtp_queue.rs:57-83 | the search from the back inserts as specified |
| RtpQueue.RtpQueue.WriteQueue | protocol/webrtc/src/rtp_queue.rs:94-169 | reaches the specified state |
| RtpQueue.RtpQueue.ReadQueue | protocol/webrtc/src/rtp_queue.rs:171-188 | gives the front of the cache when it is due or the cache is full, and nothing otherwise; `TakeExactly` says when over runs |
| RtpQueue.InsertedOrder | protocol/webrtc/src/rtp_queue.rs:57-83 | a late packet newer than the front finds its place unless its number is there |
| RtpQueue.WriteKeepsOrderExactly | protocol/webrtc/src/rtp_queue.rs:122-168 | a write to a cache that is not empty keeps it strictly increasing if and only if it does not append a number 2^15 or more past the front |
| RtpQueue.RestartExample | protocol/webrtc/src/rtp_queue.rs:150-165 | the writes 0, 1, 2, 40000, 40001 leave a cache that is out of order |
| RtpQueue.NewIsOrdered | protocol/webrtc/src/rtp_queue.rs:21-31 | a new queue is in order and holds nothing |
| RtpQueue.DrainedExactly | protocol/webrtc/src/rtp_queue.rs:32-46 | once drained the queue takes exactly the numbers 1 to 2999 |
| RtpQueue.SetApartExactly | protocol/webrtc/src/rtp_queue.rs:122-168 | a packet is set apart exactly when it is 3000 or more past the last and 100 or more short of the first |
| RtpQueue.RestartExactly | protocol/webrtc/src/rtp_queue.rs:150-165 | with one set apart, the next write restarts the queue with both exactly when it follows it; what is kept and what is forgotten otherwise |
| RtpQueue.RunConserves | protocol/webrtc/src/rtp_queue.rs:94-188 | over every run the packets read are among those written, no more often |
| RtpQueue.RunReadsInOrder | protocol/webrtc/src/rtp_queue.rs:94-188 | over every run of smooth writes each packet read is newer than the one before |
| RtpQueue.OrderedExactly | protocol/webrtc/src/rtp_queue.rs:86-188 | over every run the queue is in order at every moment if and only if every write is smooth: nothing appended 2^15 or more past the front, and to a drained queue nothing that does not follow the last packet read |
| RtpQueue.ReadsExactly | protocol/webrtc/src/rtp_queue.rs:171-188 | a run reads out of order if and only if it takes a packet that does not follow the one taken before |
| RtpQueue.TakeExactly | protocol/webrtc/src/rtp_queue.rs:171-188 | over every run a take gives a packet if and only if there is one, three have come in sequence, and it is the successor of the last one read (for the first, the front when the third came) or the cache is full |
| RtpQueue.GapExample | protocol/webrtc/src/rtp_queue.rs:150-188 | the writes 0, 1, 2, 40000, 40001 are read out of order |
| RtpQueue.BridgeExample | protocol/webrtc/src/rtp_queue.rs:57-83 | with 20000 written in time they are read in order all the same |
| Bits.BitsWriter.WriteBit | library/bytesio/src/bits_writer.rs:29-40 | one bit into the byte in hand, handed over when full |
| Bits.BitsWriter.WriteNBits | library/bytesio/src/bits_writer.rs:66-107 | appends exactly the low n bits, most significant first; leaves a full byte in hand if and only if the bits after the first byte fill whole bytes |
| Bits.BitsWriter.Align8 | library/bytesio/src/bits_writer.rs:109-113 | fills the byte up with zeros, a whole byte of them when none was begun |
| Bits.NBitsRefineBits | library/bytesio/src/bits_writer.rs:66-107 | what `write_n_bits` leaves is what writing the bits one by one leaves if and only if no full byte is left in hand |
| Bits.BitsReader.ReadBit | library/bytesio/src/bits_reader.rs:45-52 | takes the next bit of the stream, or fails at its end |
| Bits.BitsReader.ReadNBits | library/bytesio/src/bits_reader.rs:54-62 | the value of the next n bits |
| Bits.BitsRoundTrip | library/bytesio/src/bits_reader.rs:54-62 | the bits of a number are read back as the number |
| ExpGolomb.ReadUev | library/codec/h264/src/utils.rs:12-23 | counts zeros and reads as many bits, cut to 32 bits |
| ExpGolomb.UevRoundTrip | library/codec/h264/src/utils.rs:12-23 | the code of every number up to 2^32 - 2 is read back whatever follows, and its length is twice the logarithm plus one |
| ExpGolomb.ReadSev | library/codec/h264/src/utils.rs:26-32 | the signed value of the code number read |
| ExpGolomb.SignedBijection | library/codec/h264/src/utils.rs:26-32 | code numbers and signed values correspond one to one, as in section 9.1.1 of ITU-T H.264 |
| ExpGolomb.SevRoundTrip | library/codec/h264/src/utils.rs:26-32 | the code of every signed value below 2^31 in magnitude is read back |
| Hls.M3u8.AddSegment | protocol/hls/src/m3u8.rs:87-115 | slides the window, keeps the target above the duration, writes the file and deletes the oldest unless recording |
| Hls.M3u8.RefreshPlaylist | protocol/hls/src/m3u8.rs:136-178 | lists the segments up to the one that ends the stream |
| Hls.Flv2HlsRemuxer.ProcessDemuxData | protocol/hls/src/flv2hls.rs:128-207 | a frame cuts a segment when one is due, and is muxed behind the cut; `CutsWhenDue` says when, `SegmentsTell` what is muxed |
| Hls.Flv2HlsRemuxer.FlushRemainingData | protocol/hls/src/flv2hls.rs:111-126 | what remains becomes the last segment |
| HlsRuns.AnyRun | protocol/hls/src/flv2hls.rs:111-207 | over every run the playlist is the latest segments numbered from its sequence number, its file says so, the segment files match, the segments are all that was muxed; until a flush durations add up to the last cut and every segment starts with the tables |
| HlsRuns.StepKeeps | protocol/hls/src/flv2hls.rs:128-207 | every frame and every flush keeps that |
| HlsRuns.LiveFile | protocol/hls/src/m3u8.rs:152-178 | until a flush the playlist file lists exactly the segments from its media sequence number to the newest, without an end; each has its file with its packets and lasts no longer than the target |
| HlsRuns.FlushEnds | protocol/hls/src/flv2hls.rs:111-126 | after the flush the playlist file ends with the last segment and says so, it is marked discontinuous exactly when longer than 15 seconds, the durations add up to the last timestamp, and the segments are all that was muxed |
| HlsRuns.SegmentsOpen | protocol/hls/src/flv2hls.rs:141-177 | the first media packet of a segment is marked for random access if and only if a video key frame, and not audio, made the cut |
| HlsSegments.FillKeeps | protocol/hls/src/flv2hls.rs:200-207 | muxing keeps a segment such that a fresh decoder understands all its packets behind the tables it starts with, and its media starts with its first frame that has data, marked exactly when that is a key frame |
| HlsRuns.TargetCovers | protocol/hls/src/m3u8.rs:136-140 | the target in the playlist file is no less than any segment there ever was |
| HlsTiming.CutsWhenDue | protocol/hls/src/flv2hls.rs:128-198 | over every run a segment ends before the first key frame at least 1000 times the configured seconds past its start, or the first audio with data that many times the ratio past it, and before no other frame; its duration and mark tell the time between |
| HlsTiming.LongEnough | protocol/hls/src/flv2hls.rs:141-177 | so every segment lasts at least as long as configured |
| HlsTiming.TargetLeast | protocol/hls/src/m3u8.rs:136-140 | the target in the file is the least whole number of seconds that covers the longest segment there was |
| HlsContents.SegmentsTell | protocol/hls/src/flv2hls.rs:128-207 | over every run the segments hold all video and all audio with data once and in order, and each PID of a segment decodes to exactly its frames with their times at 90 kHz |
| HlsContents.DurationsTell | protocol/hls/src/flv2hls.rs:111-126 | after the flush the durations add up to the time of the last frame of the run |
| Gop.Gops.SaveFrameData | protocol/rtmp/src/cache/gop.rs:55-73 | saves a frame, dropping the oldest group when a key frame needs its place |
| Gop.CacheIsGroups | protocol/rtmp/src/cache/gop.rs:55-73 | the cache is the last groups of the history, as many as it may hold |
| Gop.CacheIsSuffix | protocol/rtmp/src/cache/gop.rs:55-81 | what is cached is the history from the size-th most recent key frame on, or all of it |
| Gop.NothingCached | protocol/rtmp/src/cache/gop.rs:55-58 | a cache of no groups stays as it was made |
| Gop.GroupsStartWithKeys | protocol/rtmp/src/cache/gop.rs:60-66 | every group but the initial one starts with its only key frame |
| Digest.DigestProcessor.GenerateAndFillDigest | protocol/rtmp/src/handshake/digest.rs:36-44 | fills the digest in where the message says |
| Digest.DigestProcessor.ReadDigest | protocol/rtmp/src/handshake/digest.rs:27-34 | the digest of the first schema that validates |
| Digest.PlacementFits | protocol/rtmp/src/handshake/digest.rs:54-83 | in a handshake message the digest lies behind the bytes that place it and within the message |
| Digest.AcceptedExactly | protocol/rtmp/src/handshake/digest.rs:46-83 | a message of any length is accepted under a schema exactly when the 32 bytes as far behind the four at 772 (or 8) as these add up to, modulo 728, are the hash of the rest |
| Digest.FilledThere | protocol/rtmp/src/handshake/digest.rs:36-44 | filling changes those 32 bytes and no other |
| Digest.FilledIsAccepted | protocol/rtmp/src/handshake/digest.rs:27-44 | a filled message is as long as before and is accepted with that digest under the first schema |
| Digest.OnlyFilledIsAccepted | protocol/rtmp/src/handshake/digest.rs:127-140 | a message is accepted under the first schema if and only if filling would not change it |

## Left out

- Sockets, tasks, timeouts and channels' capacities: a flush appends to a sequence of bytes, a channel is a sequence of what was sent.
- Logging, statistics but for the count of subscribers, the HTTP API, notifiers and configuration files: they do not feed back into what is modelled.
- AMF, protocol control messages other than SET_CHUNK_SIZE, and the handshake's state machine: a session is modelled as far as it drains its connection.
- `write_chunk` also changes the format and timestamp in the caller's copy of the message; the model returns nothing to the caller.
- ChunkRuns.RunRoundTrip: chunk sizes of both ends are taken to agree, or payloads to fit in one chunk, and a SET_CHUNK_SIZE message to have its four bytes, as the protocol asks.
- RtpH264.RtpH264Packer.Pack: an mtu of 14 or less, with which fragments have no room and the source's subtraction underflows, is outside its precondition.
- RtpH265.RtpH265Packer.PackFu: sequence numbers that would pass 65535 are outside its precondition, as the addition overflows (it wraps in builds without overflow checks); the decoding order numbers, which the packer never writes, are not read.
- Mpeg4Avc.RemuxPreservesUnits: units no longer than the length field can say; longer ones are written with their length cut off.
- Mpeg4AvcProcessor.Mpeg4AvcProcessor.H264Mp4ToAnnexB: a width of zero with something to convert, with which the source's loop does not end, is outside its precondition; `ConvertUnit` is one turn at any width and `EndsExactly` says when the turns end.
- Mpeg4AvcProcessor.ConfigRoundTrip: parsing inside a sequence parameter set is not part of this model; whether it succeeds is a parameter, and width and height are left out.
- The composition time of FLV video tags, AAC configuration and the metadata message.
- TsMuxer.TsMuxer.Write: one program, without descriptors; timestamps whose 300-fold or whose sum with the table period leaves 64 bits are outside its precondition; the unused counters `packet_number` and `pcr_clock` are left out.
- Elementary streams and programs of the muxer are values in its `pmts` field, replaced where the source updates them in place.
- StreamHub.SendToAll: the hub is modelled on values, one function for each atomic step, because its loops run concurrently; events that only report (statistics, information requests, kicking clients, relays) are left out.
- RtpQueue.RtpQueue.WriteQueue: the cycle counter, which nothing reads, is left out.
- Bits.BitsWriter.WriteNBits: writing zero bits, whose shift by 64 overflows, is outside its precondition; `write_8bit`, `read_byte` and `write_bytes` are left out as one-branch members.
- Hls.M3u8.RefreshPlaylist: the playlist is a structure rather than text, durations are whole milliseconds, and the VOD playlist is the list of its segments; the hub's notification of each segment is left out.
- Hls.M3u8.AddSegment: a window of no segments, which panics, is outside its precondition.
- Digest.DigestProcessor.ReadDigest: the keyed hash is any function to 32 bytes, so nothing is said about its strength.
- The WebRTC sessions, RTSP and HTTP parsing, SDP, RTCP, and the transcoder.
