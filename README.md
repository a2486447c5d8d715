# ST 2110 media extraction: a Dafny model

This project models the media core of truc-toolkit's `dtk` package. The core reads RTP packets captured from an SMPTE ST 2110 network and turns them into media:

- **RTP extraction** (`dtk/media/rtp_extractor.py`) covers three steps:
  - parsing an RTP header out of a UDP payload (the layout of section 5.1 of RFC 3550, with the extension of section 5.3.1);
  - demultiplexing records by SSRC and sorting each stream by sequence number;
  - the per-stream statistics: loss, out-of-order count and loss rate.

  It also covers the lookups the extractor offers afterwards: stream info, joined payload, payload-type name, and the stream list in SSRC order.
- **ST 2110-20 video** (`dtk/media/decoders/st2110_20.py`) covers:
  - marker-bit framing;
  - frame-size arithmetic;
  - the search that guesses resolution, bit depth and pixel format from the average frame size;
  - the 8- and 10-bit 4:2:2 and the 4:4:4 / RGB pixel unpackers.
- **ST 2110-30 audio** (`dtk/media/decoders/st2110_30.py`) covers:
  - truncation to whole frames;
  - the 16-, 20- and 24-bit big-endian sample decoders;
  - channel-major de-interleaving;
  - the search that guesses sample rate, bit depth and channel count from the RTP timestamp span.
- **ST 2110-40 ancillary data** (`dtk/media/decoders/st2110_40.py`) covers:
  - the byte-resync scan for SMPTE 291 packets;
  - the packet parser;
  - SMPTE 12M timecode and its string form;
  - CEA-608 and CEA-708 caption extraction;
  - the per-type summary, the timecode range and the joined caption text.

There is one module per source file: `RtpExtractor`, `St2110Video`, `St2110Audio` and `St2110Anc`. Five small support modules sit beside them:

- `Wrappers`: Option and Result.
- `Bytes`: bytes, big-endian fields and payload concatenation.
- `Text`: decimal and hexadecimal formatting.
- `Search`: the first index of a minimum, which is what every "strictly smaller error wins" loop computes.
- `Arith`: a few lemmas on multiplication and row-major indices.

How the model follows the source's form:

- State the source updates in place is modelled as classes: `RtpStreamExtractor`, `St2110VideoDecoder`, `St2110AudioDecoder` and `St2110AncDecoder`.
- Their methods are proved against specification functions:
  - the stream statistics loop;
  - frame grouping;
  - the nested parameter-search loops;
  - the 20- and 24-bit sample loops;
  - the ANC scan;
  - the caption loops;
  - the summary count.
- Straight-line parsing and unpacking are modelled as functions.

Behaviour worth knowing, modelled as the code has it:

- **Out-of-order count.** In `_analyze_stream` the sequence difference is masked with `& 0xFFFF`, so it is never negative. The out-of-order count is therefore always 0 (`NeverOutOfOrder`), and a repeated sequence number counts as 65535 lost packets (`AdjacentDuplicateCounts65535`).
- **Video fallback frame rate.** When the best candidate's error exceeds 20% of the average frame size, the video fallback resets resolution, sampling and depth to 1920×1080 4:2:2 10-bit but keeps the detected frame rate. The 25 fps default applies only when there are no frames at all (`DetectedParamsChoice`).
- **20-bit audio frame size.** For 20-bit audio, `bytes_per_sample` is 2 while the decoder reads 3-byte samples. As a result, 20-bit can never win parameter detection (`TwentyBitsNeverFirst`), and a 20-bit decode can fail its reshape (`TwentyBitReshape`).
- **ANC checksum default.** The ANC checksum "default 0" can never apply, because a parsed packet always has its trailing byte (`ParsedBytes`).
- **Back-to-back ANC packets.** The scan resumes at `offset + 6 + data_count`, two bytes past the end of a packet's own `4 + data_count` bytes. Two packets written back to back therefore lose the second (`BackToBackLosesSecond`), while packets separated by two bytes are all found (`ScanLayout`).
- **10-bit 4:2:2 to 8 bits.** `_decode_422` shifts each 16-bit word right by 6 and casts to 8 bits. A 10-bit sample in the low bits of its word therefore comes out as its top four bits (`Decode422WordsScale`), and one in the top bits of its word comes out as its low eight bits (`Decode422TopAligned`). Neither is the sample's top eight bits.

## Model

| member | source | states |
|---|---|---|
| RtpExtractor.ParseRtpFromUdp | dtk/media/rtp_extractor.py:73-157 | rejects fewer than 12 bytes and a version other than 2; accepts exactly when the CSRC list and any extension fit; the header fields are the fixed header's, and the payload is the bytes between the grown header and the padding trim |
| RtpExtractor.ParsedPayloadBound | dtk/media/rtp_extractor.py:131-142 | the payload is never longer than the datagram minus the fixed header and the CSRC list |
| RtpExtractor.ParseBuildRoundTrip | dtk/media/rtp_extractor.py:73-157 | for every marker, payload type, sequence, timestamp, SSRC, CSRC list, optional extension, payload and padding count, parsing a packet laid out per RFC 3550 gives back exactly those header fields and that payload |
| RtpExtractor.ManualMinimalHeader | dtk/media/rtp_extractor.py:83-142 | a concrete 18-byte packet parses to PT 96, sequence 1000, timestamp 90000, SSRC 0x12345678 and a 6-byte payload |
| RtpExtractor.ManualTwoCsrcs | dtk/media/rtp_extractor.py:107-115 | with two CSRCs the payload starts after 20 bytes, and the marker and PT 97 are decoded from the second octet |
| RtpExtractor.ManualRejections | dtk/media/rtp_extractor.py:83-95 | a version-1 packet and a 4-byte datagram are rejected |
| RtpExtractor.AnalyzeStream | dtk/media/rtp_extractor.py:263-307 | fails exactly on the empty list; otherwise the loop's counters equal the statistics record of the list |
| RtpExtractor.NeverOutOfOrder | dtk/media/rtp_extractor.py:283-289 | the masked sequence difference is never negative, so the out-of-order count is 0 for every list |
| RtpExtractor.LostInIncreasingRun | dtk/media/rtp_extractor.py:279-289 | for strictly increasing sequence numbers, the loss after n packets is the sequence span minus n |
| RtpExtractor.AdjacentDuplicateCounts65535 | dtk/media/rtp_extractor.py:284-289 | a packet repeating its predecessor's sequence number adds 65535 to the loss |
| RtpExtractor.StreamStatsFacts | dtk/media/rtp_extractor.py:294-307 | the packet count is the list length, nothing is out of order, and an increasing list loses exactly span − count |
| RtpExtractor.GapFreeStreamHasNoLoss | dtk/media/rtp_extractor.py:279-289 | an increasing gap-free stream has no loss and a loss rate of 0 |
| RtpExtractor.SingleGapStreamLosesGap | dtk/media/rtp_extractor.py:279-289 | an increasing stream whose span exceeds its count by k has lost k packets |
| RtpExtractor.PacketLossRate | dtk/media/rtp_extractor.py:43-49 | 0 when the 16-bit span is 0 or nothing is lost, never negative, and at most 100% when the loss does not exceed the span |
| RtpExtractor.RecordOf | dtk/media/rtp_extractor.py:176-231 | an RTP layer always yields a record carrying its own sequence number, timestamp, SSRC, payload type, marker and payload; a UDP layer yields one exactly when the hand parser accepts it, carrying the parsed header fields and payload; anything else is skipped; every record keeps the frame's arrival time, and the PTP value only when PTP use was requested |
| RtpExtractor.BySsrc | dtk/media/rtp_extractor.py:199-231 | a stream's list holds only packets of that SSRC |
| RtpExtractor.BySsrcNonEmpty | dtk/media/rtp_extractor.py:199-231 | an SSRC has a non-empty list exactly when some record carries it |
| RtpExtractor.BySsrcPartition | dtk/media/rtp_extractor.py:199-231 | a stream's packets plus all the other packets are, as a multiset, every record |
| RtpExtractor.InsertKeepsOrder | dtk/media/rtp_extractor.py:234-235 | inserting into a list sorted by sequence keeps it sorted |
| RtpExtractor.InsertPermutes | dtk/media/rtp_extractor.py:234-235 | insertion adds exactly the inserted packet to the multiset |
| RtpExtractor.InsertIsStable | dtk/media/rtp_extractor.py:234-235 | insertion puts the new packet after every packet of equal sequence number |
| RtpExtractor.SortBySequence | dtk/media/rtp_extractor.py:234-235 | the sorted list is ordered by sequence, is a permutation of the input, and keeps the capture order among equal sequence numbers (a stable sort) |
| RtpExtractor.PayloadTypeName | dtk/media/rtp_extractor.py:336-345 | the table name for 96, 97 and 98, and otherwise "Unknown (PT n)" with n written in decimal |
| RtpExtractor.UnknownPayloadTypeNumber | dtk/media/rtp_extractor.py:345 | the number inside "Unknown (PT n)" reads back as the payload type |
| RtpExtractor.SortedItems | dtk/media/rtp_extractor.py:347-353 | one item per stream |
| RtpExtractor.SortedItemsAscending | dtk/media/rtp_extractor.py:347-353 | the items are the map's own pairs, strictly ascending by SSRC |
| RtpExtractor.SortedItemsCoversKeys | dtk/media/rtp_extractor.py:347-353 | every SSRC in the map appears among the items |
| RtpExtractor.JoinedPayloads | dtk/media/rtp_extractor.py:322-334 | the joined bytes are as long as all payloads together, and each payload sits at the offset given by the lengths before it |
| RtpExtractor.AppendToStream | dtk/media/rtp_extractor.py:199-231 | appending a record to its SSRC's list keeps every list equal to the SSRC filter of the records seen so far |
| RtpExtractor.RtpStreamExtractor.constructor | dtk/media/rtp_extractor.py:63-71 | a new extractor has the given PTP flag and no streams or stream info |
| RtpExtractor.RtpStreamExtractor.ExtractFromPackets | dtk/media/rtp_extractor.py:159-238 | afterwards there is one stream per SSRC seen, holding that SSRC's records sorted by sequence, and each stream's info is the statistics of its sorted list |
| RtpExtractor.RtpStreamExtractor.CollectStreams | dtk/media/rtp_extractor.py:176-231 | the capture loop leaves, for every SSRC seen, that SSRC's records in capture order |
| RtpExtractor.RtpStreamExtractor.SortAndAnalyze | dtk/media/rtp_extractor.py:233-236 | every stream is replaced by its stable sort, and its info by the statistics of the sorted list |
| RtpExtractor.RtpStreamExtractor.GetStreamInfo | dtk/media/rtp_extractor.py:309-320 | no SSRC gives all stream info; an SSRC gives its single entry, or nothing when unknown |
| RtpExtractor.RtpStreamExtractor.GetPayloadData | dtk/media/rtp_extractor.py:322-334 | an unknown SSRC is an error naming it; otherwise the stream's payloads joined in order |
| RtpExtractor.RtpStreamExtractor.ListStreams | dtk/media/rtp_extractor.py:347-353 | every stream exactly once with its own info, in strictly ascending SSRC order |
| RtpExtractor.DemultiplexedStream | dtk/media/rtp_extractor.py:176-236 | a demultiplexed stream carries only its SSRC, together with the other streams it partitions the records, and it is sorted while keeping capture order within each sequence number |
| Search.FirstMinIndex | dtk/media/decoders/st2110_20.py:148-151 | the index is the first one whose error no other error is below |
| Search.FirstMinNotATwin | dtk/media/decoders/st2110_30.py:102-104 | with a strict `<` a candidate scoring the same as an earlier one never wins |
| St2110Video.FrameSizeIsWhatUnpackerReads | dtk/media/decoders/st2110_20.py:22-40 | the announced frame size equals the byte count each supported unpacker reads, with 8 bits taking one byte per component and 10 or 12 bits two |
| St2110Video.PadOrTruncate | dtk/media/decoders/st2110_20.py:229-235 | the result has exactly the expected size, keeps the input's bytes and fills the rest with zeros |
| St2110Video.DecodeUyvy | dtk/media/decoders/st2110_20.py:227-251 | the 8-bit 4:2:2 unpacker yields a height × width frame whose pixels are the UYVY group bytes |
| St2110Video.UyvyGroups | dtk/media/decoders/st2110_20.py:234-251 | group k of row r gives pixel 2k = (Y0, U, V) and pixel 2k+1 = (Y1, U, V), so the chroma is shared |
| St2110Video.Decode422Words | dtk/media/decoders/st2110_20.py:253-269 | the 10-bit 4:2:2 unpacker yields a full frame, two big-endian words per pixel, whose two chroma channels are always equal |
| St2110Video.DecodeByteTriplets | dtk/media/decoders/st2110_20.py:293-295 | the 8-bit 4:4:4 / RGB frame copies byte triplets in row-major order |
| St2110Video.DecodeWordTriplets | dtk/media/decoders/st2110_20.py:296-300 | the 9- to 16-bit 4:4:4 / RGB unpacker yields a full frame, three big-endian words per pixel |
| St2110Video.DecodeFrame | dtk/media/decoders/st2110_20.py:190-213 | a frame is produced exactly for the supported format and depth combinations, and it always has the configured size |
| St2110Video.DecodeReadsFrameSizeBytes | dtk/media/decoders/st2110_20.py:215-330 | decoding depends only on the first frame-size bytes: padding or truncating first changes nothing, nor do extra trailing bytes |
| St2110Video.TripletRoundTrip | dtk/media/decoders/st2110_20.py:276-330 | an 8-bit 4:4:4 or RGB frame written out as byte triplets decodes back to itself |
| St2110Video.ByteTripletsRoundTrip | dtk/media/decoders/st2110_20.py:293-295 | unpacking the triplet bytes of a frame gives the frame back |
| St2110Video.ShiftedWordScales | dtk/media/decoders/st2110_20.py:262 | `(word >> shift).astype(uint8)` of a word below 2^(shift+8) is the word divided by 2^shift: the 8-bit cast never wraps it |
| St2110Video.ShiftedWordOfScaled | dtk/media/decoders/st2110_20.py:262 | a word holding an 8-bit value moved up by `shift` bits reads back as that value |
| St2110Video.ShiftedWordTopAligned | dtk/media/decoders/st2110_20.py:262 | a 10-bit sample stored in the top bits of its word comes out as the sample modulo 256, its low eight bits |
| St2110Video.Decode422WordsScale | dtk/media/decoders/st2110_20.py:261-269 | for words below 2^14, luma is the first word of the pixel divided by 64 and both chroma channels the second word divided by 64 |
| St2110Video.Decode422TopAligned | dtk/media/decoders/st2110_20.py:261-269 | with top-aligned 10-bit samples y and c the pixel is (y mod 256, c mod 256, c mod 256) |
| St2110Video.WordPairsRoundTrip | dtk/media/decoders/st2110_20.py:253-269 | an 8-bit frame with equal chroma channels, written as 10-bit 4:2:2 words moved up by 6 bits, decodes back to itself |
| St2110Video.WordTripletsScaleToEightBits | dtk/media/decoders/st2110_20.py:288-302 | at 9 to 16 bits, a 4:4:4 or RGB component whose word is below 2^depth is that word divided by 2^(depth − 8), its top eight bits |
| St2110Video.WordTripletsRoundTrip | dtk/media/decoders/st2110_20.py:288-302 | an 8-bit frame written as 4:4:4 or RGB words moved up by depth − 8 bits decodes back to itself at every depth from 9 to 16 |
| St2110Video.SplitFramesFacts | dtk/media/decoders/st2110_20.py:175-188 | grouping loses and reorders nothing, every frame is non-empty, a marker only ends a frame, and only the last frame may lack one |
| St2110Video.SplitFramesConcat | dtk/media/decoders/st2110_20.py:175-188 | the frames concatenate back to the open frame followed by the remaining packets |
| St2110Video.SplitFramesWellFramed | dtk/media/decoders/st2110_20.py:175-188 | the frames are non-empty, with markers exactly at the frame ends except an open last frame |
| St2110Video.GroupIntoFrames | dtk/media/decoders/st2110_20.py:166-188 | the loop's frames concatenate to the input and are well framed |
| St2110Video.MarkersAtTwoAndFive | dtk/media/decoders/st2110_20.py:178-186 | seven packets with markers at 2 and 5 give frames of 3, 3 and 1 packets |
| St2110Video.SnapRate | dtk/media/decoders/st2110_20.py:128 | the snapped rate is a common rate no farther from the measured rate than any other common rate |
| St2110Video.SnapRateKeepsCommonRates | dtk/media/decoders/st2110_20.py:128 | a common rate snaps to itself |
| St2110Video.DetectedRate | dtk/media/decoders/st2110_20.py:124-130 | the detected rate is always one of the common rates |
| St2110Video.DetectedParamsChoice | dtk/media/decoders/st2110_20.py:104-164 | no frame gives the 25 fps 1080p default; otherwise the default at the detected rate when every candidate misses by more than 20% of the average, and else the first candidate in loop order with the smallest miss |
| St2110Video.UniformAverage | dtk/media/decoders/st2110_20.py:119-121 | frames of one size average to that size |
| St2110Video.FirstCandidateOf720p8Bit | dtk/media/decoders/st2110_20.py:136-151 | an average of 1843200 bytes makes candidate 9 (720p, 8-bit, 4:2:2) the first best |
| St2110Video.Candidate720p8Bit | dtk/media/decoders/st2110_20.py:136-146 | candidate 9 is 1280×720 8-bit 4:2:2 and its frame is 1843200 bytes |
| St2110Video.Candidate1080pSize | dtk/media/decoders/st2110_20.py:136-148 | every 1080p candidate's frame is larger than 1843200 bytes |
| St2110Video.Detects720p8Bit | dtk/media/decoders/st2110_20.py:93-164 | a stream of 1843200-byte frames is detected as 720p 8-bit 4:2:2 at its detected rate |
| St2110Video.DetectsFromAverage720p | dtk/media/decoders/st2110_20.py:132-164 | an average frame size of 1843200 bytes is detected as 720p 8-bit 4:2:2 |
| St2110Video.SearchFormats | dtk/media/decoders/st2110_20.py:138-151 | the innermost loop over formats keeps the best-so-far as the first minimum over the candidates seen |
| St2110Video.SearchDepths | dtk/media/decoders/st2110_20.py:137-151 | the loop over depths keeps that invariant over nine more candidates |
| St2110Video.SearchCandidates | dtk/media/decoders/st2110_20.py:133-151 | the triple loop ends with the first candidate of smallest error and that error |
| St2110Video.DetectParams | dtk/media/decoders/st2110_20.py:93-164 | `_detect_params` returns the parameters characterised by DetectedParamsChoice |
| St2110Video.DecodedFramesBound | dtk/media/decoders/st2110_20.py:84-91 | at most one frame per group, each of the configured width and height |
| St2110Video.DecodedFramesAll | dtk/media/decoders/st2110_20.py:84-91 | with supported parameters every group gives its frame, decoded from its joined payloads, in order |
| St2110Video.DecodedFramesNone | dtk/media/decoders/st2110_20.py:84-91 | with unsupported parameters every frame is dropped |
| St2110Video.DecodeGroups | dtk/media/decoders/st2110_20.py:84-89 | the decode loop keeps exactly the frames that decode, in group order |
| St2110Video.St2110VideoDecoder.constructor | dtk/media/decoders/st2110_20.py:58-65 | a new decoder holds the given parameters and no frames |
| St2110Video.St2110VideoDecoder.Decode | dtk/media/decoders/st2110_20.py:67-91 | given parameters are kept and missing ones detected; the frame list is replaced by this call's decoded frames |
| St2110Audio.Sample16RoundTrip | dtk/media/decoders/st2110_30.py:143-148 | a signed 16-bit value written big-endian decodes to the value / 32768 |
| St2110Audio.Sample24RoundTrip | dtk/media/decoders/st2110_30.py:177-185 | a signed 24-bit value written big-endian decodes to the value / 2^23 |
| St2110Audio.Sample20RoundTrip | dtk/media/decoders/st2110_30.py:205-213 | a signed 20-bit value in the top 20 bits of 3 bytes decodes to the value / 2^19, whatever the padding nibble |
| St2110Audio.SampleRanges | dtk/media/decoders/st2110_30.py:143-213 | every decoded sample lies in [−1, 1); the extreme codes give −1 and 1 − 2^-15 or 1 − 2^-23 |
| St2110Audio.Sample16Range | dtk/media/decoders/st2110_30.py:143-148 | every 16-bit sample lies in [−1, 1) |
| St2110Audio.Sample24Range | dtk/media/decoders/st2110_30.py:177-185 | every 24-bit sample lies in [−1, 1) |
| St2110Audio.Sample20Range | dtk/media/decoders/st2110_30.py:205-213 | every 20-bit sample lies in [−1, 1) |
| St2110Audio.FullScale | dtk/media/decoders/st2110_30.py:177-185 | `80 00 00` is −1 and `7F FF FF` is 1 − 2^-23; likewise at 16 bits |
| St2110Audio.Sample20IgnoresLowNibble | dtk/media/decoders/st2110_30.py:208-209 | the low nibble of the third byte never affects a 20-bit sample |
| St2110Audio.Samples16 | dtk/media/decoders/st2110_30.py:145 | one sample per 2 bytes |
| St2110Audio.Samples24 | dtk/media/decoders/st2110_30.py:174-185 | one sample per whole 3 bytes |
| St2110Audio.Samples20 | dtk/media/decoders/st2110_30.py:202-213 | one sample per whole 3 bytes |
| St2110Audio.Deinterleave | dtk/media/decoders/st2110_30.py:146 | one row per channel, each holding the sample count divided by the channel count |
| St2110Audio.DeinterleaveIsChannelMajor | dtk/media/decoders/st2110_30.py:186-188 | row c, column i is flat sample i·channels + c |
| St2110Audio.InterleaveDeinterleave | dtk/media/decoders/st2110_30.py:188 | interleaving the rows gives the flat samples back |
| St2110Audio.DeinterleaveInterleave | dtk/media/decoders/st2110_30.py:216 | de-interleaving interleaved rows gives the rows back |
| St2110Audio.Reshape | dtk/media/decoders/st2110_30.py:146 | the reshape succeeds exactly when the channel count is positive and divides the sample count |
| St2110Audio.ValidData | dtk/media/decoders/st2110_30.py:139-141 | the decoded bytes are the longest prefix made of whole frames |
| St2110Audio.DecodeWholeFrames | dtk/media/decoders/st2110_30.py:123-161 | at 16 and 24 bits with channels, decoding always succeeds with one row per channel and one sample per whole frame |
| St2110Audio.DecodeErrors | dtk/media/decoders/st2110_30.py:123-161 | a zero frame size fails, an unsupported depth fails exactly when the frame size is positive and the depth is not 16, 20 or 24, and only 20-bit decoding can fail its reshape |
| St2110Audio.TwentyBitReshape | dtk/media/decoders/st2110_30.py:191-217 | mono 20-bit always decodes, while 4 bytes of stereo 20-bit give one 3-byte sample that two channels cannot reshape |
| St2110Audio.Decode24Bit | dtk/media/decoders/st2110_30.py:163-189 | the sample loop and reshape give the 24-bit samples of the data, channel-major, or the reshape error |
| St2110Audio.Decode20Bit | dtk/media/decoders/st2110_30.py:191-217 | the sample loop and reshape give the 20-bit samples of the data, channel-major, or the reshape error |
| St2110Audio.DecodeSamplesOf | dtk/media/decoders/st2110_30.py:123-161 | `_decode_samples` returns what DecodeErrors and DecodeWholeFrames characterise |
| St2110Audio.RateDoesNotScore | dtk/media/decoders/st2110_30.py:91-102 | candidates differing only in sample rate score the same |
| St2110Audio.TwentyScoresAsSixteen | dtk/media/decoders/st2110_30.py:92-102 | a 20-bit candidate scores the same as the 16-bit one before it |
| St2110Audio.LaterRateNeverFirst | dtk/media/decoders/st2110_30.py:91-110 | no candidate at 96, 44.1 or 88.2 kHz is ever the first best |
| St2110Audio.TwentyBitsNeverFirst | dtk/media/decoders/st2110_30.py:92-110 | no 20-bit candidate is ever the first best |
| St2110Audio.AudioWinnerRange | dtk/media/decoders/st2110_30.py:87-110 | the first best candidate is always at 48 kHz and 16 or 24 bits |
| St2110Audio.DetectedAudioFacts | dtk/media/decoders/st2110_30.py:69-121 | detection always reports 48 kHz at 16 or 24 bits, and reports the 48 kHz 24-bit stereo default when the timestamp span is not positive |
| St2110Audio.DetectsStereo16 | dtk/media/decoders/st2110_30.py:81-121 | 4 payload bytes per timestamp tick are detected as 48 kHz 16-bit stereo |
| St2110Audio.ConsiderAudioCandidate | dtk/media/decoders/st2110_30.py:94-110 | one loop step keeps the best-so-far as the first minimum over the candidates seen, and nothing is chosen while the span is not positive |
| St2110Audio.SearchChannels | dtk/media/decoders/st2110_30.py:93-110 | the channel loop keeps that invariant over five candidates |
| St2110Audio.SearchBitDepths | dtk/media/decoders/st2110_30.py:92-110 | the depth loop keeps it over fifteen candidates |
| St2110Audio.SearchAudioCandidates | dtk/media/decoders/st2110_30.py:87-110 | the triple loop chooses nothing for a non-positive span, and otherwise the first candidate of smallest error with that error |
| St2110Audio.DetectAudioParams | dtk/media/decoders/st2110_30.py:69-121 | `_detect_params` returns the parameters characterised by DetectedAudioFacts |
| St2110Audio.St2110AudioDecoder.constructor | dtk/media/decoders/st2110_30.py:38-45 | a new decoder holds the given parameters and no samples |
| St2110Audio.St2110AudioDecoder.Decode | dtk/media/decoders/st2110_30.py:47-67 | given parameters are kept and missing ones detected; the result is the decode of the joined payloads, kept as the samples when it succeeds |
| St2110Anc.DidSdid | dtk/media/decoders/st2110_40.py:21-24 | five characters `DD/SS` whose two-digit upper-case hex fields read back as the DID and the SDID |
| St2110Anc.TypeName | dtk/media/decoders/st2110_40.py:26-44 | the table name of a known (DID, SDID) pair, and "Unknown" exactly for the other pairs |
| St2110Anc.SummaryKey | dtk/media/decoders/st2110_40.py:317 | the key is the type name followed by ` (DD/SS)` |
| St2110Anc.SummaryKeyInjective | dtk/media/decoders/st2110_40.py:317 | equal keys mean equal (DID, SDID) pairs |
| St2110Anc.TimecodeSummaryKey | dtk/media/decoders/st2110_40.py:21-34 | DID 0x60, SDID 0x60 gives the key "SMPTE 12M Timecode (60/60)" |
| St2110Anc.UnknownSummaryKey | dtk/media/decoders/st2110_40.py:21-29 | an unlisted pair such as AB/0C gives "Unknown (AB/0C)" |
| St2110Anc.ParseAncPacket | dtk/media/decoders/st2110_40.py:154-191 | rejects fewer than 6 bytes, a zero data count, or fewer than 4 + count bytes; a parsed packet has 1 to 255 user words exactly as many as its count, and the given timestamp |
| St2110Anc.ParsedBytes | dtk/media/decoders/st2110_40.py:171-183 | a parsed packet is the DID, SDID, count, user words and checksum at the front of the data, so the checksum byte is always present |
| St2110Anc.ParseEncoded | dtk/media/decoders/st2110_40.py:154-191 | an encoded packet followed by anything that makes 6 bytes parses back to itself |
| St2110Anc.ShortestPacketNeedsTrailer | dtk/media/decoders/st2110_40.py:164-165 | a packet with one user word alone is too short to parse |
| St2110Anc.ScanSitesParse | dtk/media/decoders/st2110_40.py:128-150 | every packet the scan returns is the parse of the payload at an offset no earlier than the start |
| St2110Anc.ScanSitesOrdered | dtk/media/decoders/st2110_40.py:128-150 | the packets come in offset order, each site at least 6 + count bytes after the previous one |
| St2110Anc.ScanLayout | dtk/media/decoders/st2110_40.py:115-152 | packets each followed by two filler bytes are all found, in order |
| St2110Anc.BackToBackLosesSecond | dtk/media/decoders/st2110_40.py:141-146 | two packets written back to back give only the first, because the scan skips two bytes past it |
| St2110Anc.ParsePayload | dtk/media/decoders/st2110_40.py:115-152 | the scan loop returns the packets characterised by ScanSitesParse and ScanSitesOrdered |
| St2110Anc.DecodeTimecode | dtk/media/decoders/st2110_40.py:193-229 | fails exactly when fewer than 4 user words exist; otherwise frames and hours are below 64, seconds and minutes below 128, and the packet's timestamp is kept |
| St2110Anc.TimecodeRoundTrip | dtk/media/decoders/st2110_40.py:212-227 | any timecode within those bounds written into the first four user words decodes back to itself |
| St2110Anc.TimecodeKeepsMaskedBits | dtk/media/decoders/st2110_40.py:212-215 | re-encoding a decoded timecode gives the user words masked to 7, 7, 7 and 6 bits |
| St2110Anc.TimecodeString | dtk/media/decoders/st2110_40.py:57-60 | at least 11 characters |
| St2110Anc.TimecodeStringFields | dtk/media/decoders/st2110_40.py:57-60 | for two-digit fields: `HH:MM:SS` then `;` exactly for drop frame or `:` otherwise, then `FF`, each field reading back as its value |
| St2110Anc.TimecodeExample | dtk/media/decoders/st2110_40.py:202-227 | user words 1, 2, 3, 4 decode to 04:03:02:01 without drop frame |
| St2110Anc.CaptionTextAppend | dtk/media/decoders/st2110_40.py:331-337 | the joined text of two caption lists is the text of the first followed by that of the second |
| St2110Anc.Mask7 | dtk/media/decoders/st2110_40.py:262-263 | masking keeps the low seven bits and leaves ASCII unchanged |
| St2110Anc.Cea608UptoFacts | dtk/media/decoders/st2110_40.py:261-281 | one caption per printable pair read, so never more than the pairs read; each is a 2-character channel-1 CEA-608 caption of printable characters with the packet's timestamp |
| St2110Anc.Cea608Facts | dtk/media/decoders/st2110_40.py:261-281 | at most one caption per two user words, and a trailing odd word is ignored |
| St2110Anc.Cea608RoundTrip | dtk/media/decoders/st2110_40.py:261-281 | printable ASCII text written as user words comes back as the caption text, pair by pair |
| St2110Anc.Cea608CountOfPrintable | dtk/media/decoders/st2110_40.py:261-281 | printable text of 2n characters gives n captions |
| St2110Anc.Cea708UptoFacts | dtk/media/decoders/st2110_40.py:298-305 | the captions' text is the printable words in order, each a 1-character channel-1 CEA-708 caption with the packet's timestamp |
| St2110Anc.Cea708RoundTrip | dtk/media/decoders/st2110_40.py:298-305 | printable ASCII text written as user words comes back as the caption text |
| St2110Anc.DecodeCaptions | dtk/media/decoders/st2110_40.py:231-247 | SDIDs other than 1 and 2 give no caption; every caption keeps the timestamp and is CEA-608 for SDID 2, CEA-708 otherwise |
| St2110Anc.DecodeCea608 | dtk/media/decoders/st2110_40.py:249-283 | the pair loop returns the captions characterised by Cea608UptoFacts |
| St2110Anc.DecodeCea708 | dtk/media/decoders/st2110_40.py:285-307 | the byte loop returns the captions characterised by Cea708UptoFacts |
| St2110Anc.DecodeCaptionsOf | dtk/media/decoders/st2110_40.py:231-247 | the dispatch returns the captions of DecodeCaptions |
| St2110Anc.AncOfFacts | dtk/media/decoders/st2110_40.py:95-98 | every ANC packet is well formed and carries the arrival time of some RTP packet |
| St2110Anc.ExtractedProvenance | dtk/media/decoders/st2110_40.py:100-111 | every timecode comes from a DID 0x60 / SDID 0x60 packet and every caption from a DID 0x61 packet with SDID 1 or 2 |
| St2110Anc.Bump | dtk/media/decoders/st2110_40.py:318 | one more count under the key, no other count changed |
| St2110Anc.SummaryCounts | dtk/media/decoders/st2110_40.py:309-319 | a key is present exactly when some packet has it, and its count is the number of such packets |
| St2110Anc.KeyCountIsPairCount | dtk/media/decoders/st2110_40.py:309-319 | a key counts exactly the packets with that packet's (DID, SDID) pair |
| St2110Anc.SummaryTotal | dtk/media/decoders/st2110_40.py:309-319 | the summary's counts add up to the number of ANC packets |
| St2110Anc.CountSummary | dtk/media/decoders/st2110_40.py:315-319 | the counting loop builds the summary characterised by SummaryCounts and SummaryTotal |
| St2110Anc.St2110AncDecoder.constructor | dtk/media/decoders/st2110_40.py:75-79 | a new decoder has no packets, timecodes or captions |
| St2110Anc.St2110AncDecoder.Extract | dtk/media/decoders/st2110_40.py:101-111 | one packet adds its timecode or its captions and nothing else |
| St2110Anc.St2110AncDecoder.Absorb | dtk/media/decoders/st2110_40.py:95-111 | one RTP packet's ANC packets are appended, and the timecode and caption lists stay those of all packets so far |
| St2110Anc.St2110AncDecoder.Decode | dtk/media/decoders/st2110_40.py:81-113 | the lists are reset, then hold the scans of all payloads in order with their timecodes and captions |
| St2110Anc.St2110AncDecoder.GetAncSummary | dtk/media/decoders/st2110_40.py:309-319 | the summary of the current ANC packets |
| St2110Anc.St2110AncDecoder.GetTimecodeRange | dtk/media/decoders/st2110_40.py:321-329 | nothing exactly when there is no timecode, else the first and the last |
| St2110Anc.St2110AncDecoder.GetCaptionText | dtk/media/decoders/st2110_40.py:331-337 | all caption texts joined in order |

## Left out

- Capture-file reading (scapy `rdpcap` and `haslayer`) is left out. What a frame yields is the `CapturedPacket` datatype: an already decoded RTP layer, a UDP payload, or neither.
- `_extract_ptp_timestamp` depends on a PTP layer outside this core. Its result enters as the `ptp` value carried by each captured packet.
- Arrival times, frame rates, samples and error margins are exact reals. Float and float32 rounding is not modelled.
- numpy is modelled by its effect on sequences. The edge cases of empty or zero-area arrays, such as a zero width or height, are not distinguished from ordinary frames.
- The "parameters not set" exceptions in `_decode_frame` and `_decode_samples` are left out. `decode` always sets the parameters first, so those branches cannot be reached from it.
- The `stream_info` argument of the video and ANC `decode` methods is not used by the source. The model accepts it and ignores it.
- The ANC checksum is stored but never verified, as in the source.
- The `try`/`except` blocks in the ANC scan and in `_decode_timecode` cannot fire on byte input and are not modelled.
- `_analyze_stream`'s out-of-order branch is kept in the loop; `NeverOutOfOrder` shows that it is dead.
- Python dictionary insertion order of `self.streams` is not modelled. Streams are a map keyed by SSRC, and the clearing at the start of `extract_from_pcap` is the requirement that the collection start empty.
- `RTPStreamInfo.duration`, `get_video_info`, `get_audio_info` and `_format_duration` are left out. They only format float durations.
- Stream-type classification (`_detect_stream_type`) is not part of this model.
- Exporters, the GStreamer streamer, CLIs and network packet tools are not part of this model.
- `_decode_422`'s 10-bit path and the ANC byte-resync scan are modelled as the source has them. They are not the SMPTE 2110-20 pgroup packing or the SMPTE 291 ancillary-data-flag framing.
