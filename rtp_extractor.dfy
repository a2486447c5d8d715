/** RTP header parsing, per-SSRC demultiplexing and stream statistics
  * (dtk/media/rtp_extractor.py). The fixed header layout is the one of
  * section 5.1 of RFC 3550, the header extension that of section 5.3.1. */
module RtpExtractor {
  import opened Wrappers
  import opened Bytes
  import opened Text

  /** RTPPacketInfo: one RTP packet as the extractor records it. */
  datatype RtpPacketInfo = RtpPacketInfo(
    sequence: U16,
    timestamp: U32,
    ssrc: U32,
    payloadType: int,
    marker: bool,
    payload: seq<Byte>,
    arrivalTime: real,
    ptpTimestamp: Option<int>)

  /** RTPStreamInfo: statistics of one SSRC's sorted packet list. */
  datatype RtpStreamInfo = RtpStreamInfo(
    ssrc: U32,
    payloadType: int,
    packetCount: nat,
    firstSeq: U16,
    lastSeq: U16,
    firstTimestamp: U32,
    lastTimestamp: U32,
    packetsLost: nat,
    packetsOutOfOrder: nat,
    startTime: real,
    endTime: real,
    hasPtp: bool)

  /** The header dictionary that `_parse_rtp_from_udp` returns beside the payload. */
  datatype RtpHeader = RtpHeader(
    version: nat,
    padding: bool,
    extension: bool,
    csrcCount: nat,
    marker: bool,
    payloadType: nat,
    sequence: U16,
    timestamp: U32,
    ssrc: U32)

  // ---------------------------------------------------------------------------
  // Header parsing

  /** Version field: the top two bits of the first octet. */
  function Version(b: Byte): nat { b / 64 }
  function PaddingBit(b: Byte): bool { (b / 32) % 2 == 1 }
  function ExtensionBit(b: Byte): bool { (b / 16) % 2 == 1 }
  function CsrcCount(b: Byte): nat { b % 16 }

  /** The header fields read from the twelve fixed octets. */
  function FixedHeader(udp: seq<Byte>): RtpHeader
    requires |udp| >= 12
  {
    RtpHeader(Version(udp[0]), PaddingBit(udp[0]), ExtensionBit(udp[0]), CsrcCount(udp[0]),
              udp[1] >= 128, udp[1] % 128,
              BE16(udp[2], udp[3]),
              BE32(udp[4], udp[5], udp[6], udp[7]),
              BE32(udp[8], udp[9], udp[10], udp[11]))
  }

  /** Size of the header with its CSRC list and, when the X bit is set, the extension;
    * `None` when the buffer ends before the size is known or before the header does. */
  function HeaderSize(udp: seq<Byte>): Option<nat>
    requires |udp| >= 12
  {
    var fixed := 12 + 4 * CsrcCount(udp[0]);
    if |udp| < fixed then None
    else if !ExtensionBit(udp[0]) then Some(fixed)
    else if |udp| < fixed + 4 then None
    else
      var size := fixed + 4 + 4 * BE16(udp[fixed + 2], udp[fixed + 3]);
      if |udp| < size then None else Some(size)
  }

  /** Number of octets trimmed from the tail: the last octet, when the P bit is set, the
    * buffer goes past the header and that count is between 1 and the bytes after the header. */
  function PaddingLength(udp: seq<Byte>, headerSize: nat): nat
    requires 1 <= |udp|
  {
    if PaddingBit(udp[0]) && |udp| > headerSize
       && udp[|udp| - 1] > 0 && udp[|udp| - 1] <= |udp| - headerSize
    then udp[|udp| - 1]
    else 0
  }

  /** `_parse_rtp_from_udp`: the header fields and the payload of an RTP packet carried in a
    * UDP payload, or `None` for a buffer that is too short or not RTP version 2. */
  function ParseRtpFromUdp(udp: seq<Byte>): (r: Option<(RtpHeader, seq<Byte>)>)
    ensures |udp| < 12 ==> r.None?
    ensures |udp| >= 12 && Version(udp[0]) != 2 ==> r.None?
    ensures r.Some? <==> |udp| >= 12 && Version(udp[0]) == 2 && HeaderSize(udp).Some?
    ensures r.Some? ==> r.value.0 == FixedHeader(udp) && r.value.0.version == 2
    ensures r.Some? ==>
      var size := HeaderSize(udp).value;
      var pad := PaddingLength(udp, size);
      12 + 4 * r.value.0.csrcCount <= size && size + |r.value.1| + pad == |udp| &&
      r.value.1 == udp[size .. |udp| - pad]
  {
    if |udp| < 12 then None
    else if Version(udp[0]) != 2 then None
    else match HeaderSize(udp)
      case None => None
      case Some(size) =>
        var pad := PaddingLength(udp, size);
        Some((FixedHeader(udp), udp[size .. |udp| - pad]))
  }

  /** The payload is never longer than the buffer minus the header, CSRC list and extension. */
  lemma ParsedPayloadBound(udp: seq<Byte>)
    requires ParseRtpFromUdp(udp).Some?
    ensures |ParseRtpFromUdp(udp).value.1| <= |udp| - 12 - 4 * CsrcCount(udp[0])
  {
  }

  // ---------------------------------------------------------------------------
  // Building a packet: the inverse of the parser

  /** A header extension: its 16-bit profile word and its body of 32-bit words. */
  datatype Extension = Extension(profile: U16, words: seq<U32>)

  /** The octets of a list of 32-bit words, each most significant first. */
  function WordBytes(ws: seq<U32>): (r: seq<Byte>)
    ensures |r| == 4 * |ws|
  {
    if ws == [] then [] else WordBytes(ws[..|ws| - 1]) + U32Bytes(ws[|ws| - 1])
  }

  function ExtensionBytes(ext: Option<Extension>): (r: seq<Byte>)
    requires ext.Some? ==> |ext.value.words| < 0x1_0000
    ensures ext.None? ==> r == []
    ensures ext.Some? ==> |r| == 4 + 4 * |ext.value.words|
  {
    match ext
      case None => []
      case Some(e) => U16Bytes(e.profile) + U16Bytes(|e.words|) + WordBytes(e.words)
  }

  /** `padCount` octets of padding: zeros, then the count itself in the last octet. */
  function PaddingBytes(padCount: nat): (r: seq<Byte>)
    requires padCount < 256
    ensures |r| == padCount
    ensures padCount > 0 ==> r[padCount - 1] == padCount
  {
    if padCount == 0 then [] else seq(padCount - 1, _ => 0) + [padCount]
  }

  /** First octet of a version 2 header with the given P and X bits and CSRC count. */
  function FirstOctet(padding: bool, extension: bool, csrcCount: nat): (b0: Byte)
    requires csrcCount < 16
    ensures Version(b0) == 2 && PaddingBit(b0) == padding && ExtensionBit(b0) == extension
    ensures CsrcCount(b0) == csrcCount
  {
    128 + (if padding then 32 else 0) + (if extension then 16 else 0) + csrcCount
  }

  /** The twelve fixed octets, fields most significant first. */
  function FixedHeaderBytes(b0: Byte, marker: bool, payloadType: nat, sequence: U16, timestamp: U32, ssrc: U32): (r: seq<Byte>)
    requires payloadType < 128
    ensures |r| == 12
  {
    [b0, (if marker then 128 else 0) + payloadType] + U16Bytes(sequence) + U32Bytes(timestamp) + U32Bytes(ssrc)
  }

  /** Lays out an RTP version 2 packet: fixed header, CSRC list, optional extension,
    * payload and `padCount` octets of padding (the P bit is set when `padCount > 0`). */
  function BuildRtpPacket(marker: bool, payloadType: nat, sequence: U16, timestamp: U32, ssrc: U32,
                          csrcs: seq<U32>, ext: Option<Extension>, payload: seq<Byte>, padCount: nat): (r: seq<Byte>)
    requires payloadType < 128 && |csrcs| < 16 && padCount < 256
    requires ext.Some? ==> |ext.value.words| < 0x1_0000
    ensures |r| == 12 + 4 * |csrcs| + |ExtensionBytes(ext)| + |payload| + padCount
  {
    FixedHeaderBytes(FirstOctet(padCount > 0, ext.Some?, |csrcs|), marker, payloadType, sequence, timestamp, ssrc)
      + WordBytes(csrcs) + ExtensionBytes(ext) + payload + PaddingBytes(padCount)
  }

  /** The fixed-header fields depend on the first twelve octets only. */
  lemma FixedHeaderOfPrefix(udp: seq<Byte>, head: seq<Byte>)
    requires |head| == 12 && |udp| >= 12 && udp[..12] == head
    ensures FixedHeader(udp) == FixedHeader(head)
  {
    assert forall i :: 0 <= i < 12 ==> udp[i] == head[i];
  }

  /** The twelve octets `BuildRtpPacket` starts with read back as the header it was given. */
  lemma FixedHeaderOfBuilt(b0: Byte, marker: bool, payloadType: nat, sequence: U16, timestamp: U32, ssrc: U32)
    requires payloadType < 128
    ensures FixedHeader(FixedHeaderBytes(b0, marker, payloadType, sequence, timestamp, ssrc))
         == RtpHeader(Version(b0), PaddingBit(b0), ExtensionBit(b0), CsrcCount(b0),
                      marker, payloadType, sequence, timestamp, ssrc)
  {
    var a, b, c, d := [b0, (if marker then 128 else 0) + payloadType], U16Bytes(sequence), U32Bytes(timestamp), U32Bytes(ssrc);
    var head := FixedHeaderBytes(b0, marker, payloadType, sequence, timestamp, ssrc);
    assert head == a + b + c + d;
    assert head[2..4] == b;
    assert head[4..8] == c;
    assert head[8..12] == d;
  }

  /** With the extension octets right after the CSRC list, the header ends where they do. */
  lemma HeaderSizeOfBuilt(udp: seq<Byte>, csrcCount: nat, ext: Option<Extension>)
    requires |udp| >= 12 && CsrcCount(udp[0]) == csrcCount && ExtensionBit(udp[0]) == ext.Some?
    requires ext.Some? ==> |ext.value.words| < 0x1_0000
    requires 12 + 4 * csrcCount + |ExtensionBytes(ext)| <= |udp|
    requires udp[12 + 4 * csrcCount .. 12 + 4 * csrcCount + |ExtensionBytes(ext)|] == ExtensionBytes(ext)
    ensures HeaderSize(udp) == Some(12 + 4 * csrcCount + |ExtensionBytes(ext)|)
  {
    var fixed := 12 + 4 * csrcCount;
    if ext.Some? {
      var e := ext.value;
      assert ExtensionBytes(ext)[2..4] == U16Bytes(|e.words|);
      assert udp[fixed + 2] == ExtensionBytes(ext)[2];
      assert udp[fixed + 3] == ExtensionBytes(ext)[3];
    }
  }

  /** Behind a header of `size` octets, the payload and its padding trim back to the payload. */
  lemma PayloadOfBuilt(udp: seq<Byte>, size: nat, payload: seq<Byte>, padCount: nat)
    requires padCount < 256 && 1 <= size <= |udp| && PaddingBit(udp[0]) == (padCount > 0)
    requires udp[size..] == payload + PaddingBytes(padCount)
    ensures PaddingLength(udp, size) == padCount
    ensures udp[size .. |udp| - padCount] == payload
  {
    var tail := payload + PaddingBytes(padCount);
    if padCount > 0 {
      assert udp[|udp| - 1] == tail[|tail| - 1] == padCount;
    }
    assert udp[size .. |udp| - padCount] == tail[..|payload|];
  }

  /** Where each of four concatenated pieces sits in the whole. */
  lemma PiecesOfConcat(a: seq<Byte>, b: seq<Byte>, c: seq<Byte>, d: seq<Byte>)
    ensures var w := a + b + c + d;
      w[..|a|] == a && w[|a| + |b| .. |a| + |b| + |c|] == c && w[|a| + |b| + |c|..] == d
  {
  }

  /** The parse succeeds with the fixed header and payload once each piece has been located. */
  lemma ParseOfLocatedPieces(udp: seq<Byte>, size: nat, header: RtpHeader, payload: seq<Byte>, padCount: nat)
    requires |udp| >= 12 && Version(udp[0]) == 2 && FixedHeader(udp) == header
    requires HeaderSize(udp) == Some(size)
    requires PaddingLength(udp, size) == padCount && size + padCount <= |udp|
    requires udp[size .. |udp| - padCount] == payload
    ensures ParseRtpFromUdp(udp) == Some((header, payload))
  {
  }

  /** Where the pieces of a built packet sit. */
  lemma BuiltLayout(marker: bool, payloadType: nat, sequence: U16, timestamp: U32, ssrc: U32,
                    csrcs: seq<U32>, ext: Option<Extension>, payload: seq<Byte>, padCount: nat)
    requires payloadType < 128 && |csrcs| < 16 && padCount < 256
    requires ext.Some? ==> |ext.value.words| < 0x1_0000
    ensures var udp := BuildRtpPacket(marker, payloadType, sequence, timestamp, ssrc, csrcs, ext, payload, padCount);
      var size := 12 + 4 * |csrcs| + |ExtensionBytes(ext)|;
      udp[..12] == FixedHeaderBytes(FirstOctet(padCount > 0, ext.Some?, |csrcs|), marker, payloadType, sequence, timestamp, ssrc) &&
      udp[12 + 4 * |csrcs| .. size] == ExtensionBytes(ext) &&
      udp[size..] == payload + PaddingBytes(padCount)
  {
    var udp := BuildRtpPacket(marker, payloadType, sequence, timestamp, ssrc, csrcs, ext, payload, padCount);
    var head := FixedHeaderBytes(FirstOctet(padCount > 0, ext.Some?, |csrcs|), marker, payloadType, sequence, timestamp, ssrc);
    var tail := payload + PaddingBytes(padCount);
    assert udp == head + WordBytes(csrcs) + ExtensionBytes(ext) + tail;
    PiecesOfConcat(head, WordBytes(csrcs), ExtensionBytes(ext), tail);
  }

  /** Parsing a built packet gives back every header field and exactly the payload. */
  lemma ParseBuildRoundTrip(marker: bool, payloadType: nat, sequence: U16, timestamp: U32, ssrc: U32,
                            csrcs: seq<U32>, ext: Option<Extension>, payload: seq<Byte>, padCount: nat)
    requires payloadType < 128 && |csrcs| < 16 && padCount < 256
    requires ext.Some? ==> |ext.value.words| < 0x1_0000
    ensures ParseRtpFromUdp(BuildRtpPacket(marker, payloadType, sequence, timestamp, ssrc, csrcs, ext, payload, padCount))
         == Some((RtpHeader(2, padCount > 0, ext.Some?, |csrcs|, marker, payloadType, sequence, timestamp, ssrc), payload))
  {
    var udp := BuildRtpPacket(marker, payloadType, sequence, timestamp, ssrc, csrcs, ext, payload, padCount);
    var b0 := FirstOctet(padCount > 0, ext.Some?, |csrcs|);
    var head := FixedHeaderBytes(b0, marker, payloadType, sequence, timestamp, ssrc);
    var size := 12 + 4 * |csrcs| + |ExtensionBytes(ext)|;
    BuiltLayout(marker, payloadType, sequence, timestamp, ssrc, csrcs, ext, payload, padCount);
    assert udp[0] == head[0] == b0;
    FixedHeaderOfBuilt(b0, marker, payloadType, sequence, timestamp, ssrc);
    FixedHeaderOfPrefix(udp, head);
    HeaderSizeOfBuilt(udp, |csrcs|, ext);
    PayloadOfBuilt(udp, size, payload, padCount);
    ParseOfLocatedPieces(udp, size, RtpHeader(2, padCount > 0, ext.Some?, |csrcs|, marker, payloadType, sequence, timestamp, ssrc),
                         payload, padCount);
  }

  /** The vectors of the manual parser test: a minimal header, a header with two CSRC
    * identifiers, a version 1 header and a four-octet buffer. */
  lemma ManualMinimalHeader()
    ensures var r := ParseRtpFromUdp([0x80, 0x60, 0x03, 0xE8, 0x00, 0x01, 0x5F, 0x90, 0x12, 0x34, 0x56, 0x78,
                                      0xDE, 0xAD, 0xBE, 0xEF, 0xCA, 0xFE]);
      r.Some? && r.value.0.payloadType == 96 && !r.value.0.marker && r.value.0.sequence == 1000 &&
      r.value.0.timestamp == 90000 && r.value.0.ssrc == 0x12345678 && |r.value.1| == 6
  {
  }

  lemma ManualTwoCsrcs()
    ensures var r := ParseRtpFromUdp([0x82, 0xE1, 0x00, 0x10, 0x00, 0x00, 0x10, 0x00, 0xAA, 0xBB, 0xCC, 0xDD,
                                      0x11, 0x11, 0x11, 0x11, 0x22, 0x22, 0x22, 0x22, 0x00, 0x11, 0x22, 0x33]);
      r.Some? && r.value.0.csrcCount == 2 && r.value.0.marker && r.value.0.payloadType == 97 &&
      r.value.0.sequence == 16 && r.value.0.timestamp == 4096 && r.value.1 == [0x00, 0x11, 0x22, 0x33]
  {
  }

  lemma ManualRejections()
    ensures ParseRtpFromUdp([0x40, 0x60, 0x00, 0x01, 0x00, 0x00, 0x00, 0x00, 0x12, 0x34, 0x56, 0x78]).None?
    ensures ParseRtpFromUdp([0x80, 0x60, 0x00, 0x01]).None?
  {
  }

  // ---------------------------------------------------------------------------
  // Stream statistics (`_analyze_stream`)

  /** The sequence number the loop expects at position `i`: the first packet's own number,
    * then one past the previous packet's number, modulo 2^16. */
  function ExpectedSeq(packets: seq<RtpPacketInfo>, i: nat): U16
    requires i < |packets|
  {
    if i == 0 then packets[0].sequence else (packets[i - 1].sequence + 1) % 0x1_0000
  }

  /** `(pkt.sequence - expected_seq) & 0xFFFF` at position `i`; Python's `&` with a positive
    * mask and Dafny's `%` both give the least non-negative residue. */
  function SeqDiff(packets: seq<RtpPacketInfo>, i: nat): int
    requires i < |packets|
  {
    (packets[i].sequence - ExpectedSeq(packets, i)) % 0x1_0000
  }

  /** Loss counted over the first `n` packets: the sum of the positive differences. */
  function LostUpTo(packets: seq<RtpPacketInfo>, n: nat): nat
    requires n <= |packets|
  {
    if n == 0 then 0 else LostUpTo(packets, n - 1) + (if SeqDiff(packets, n - 1) > 0 then SeqDiff(packets, n - 1) else 0)
  }

  /** Out-of-order count over the first `n` packets: the differences below zero. */
  function OutOfOrderUpTo(packets: seq<RtpPacketInfo>, n: nat): nat
    requires n <= |packets|
  {
    if n == 0 then 0 else OutOfOrderUpTo(packets, n - 1) + (if SeqDiff(packets, n - 1) < 0 then 1 else 0)
  }

  predicate HasPtp(packets: seq<RtpPacketInfo>)
  {
    exists i :: 0 <= i < |packets| && packets[i].ptpTimestamp.Some?
  }

  /** The statistics record `_analyze_stream` builds for a non-empty packet list. */
  function StreamStats(packets: seq<RtpPacketInfo>): RtpStreamInfo
    requires packets != []
  {
    var first, last := packets[0], packets[|packets| - 1];
    RtpStreamInfo(first.ssrc, first.payloadType, |packets|, first.sequence, last.sequence,
                  first.timestamp, last.timestamp,
                  LostUpTo(packets, |packets|), OutOfOrderUpTo(packets, |packets|),
                  first.arrivalTime, last.arrivalTime, HasPtp(packets))
  }

  /** The error `_analyze_stream` raises. */
  datatype StreamError = EmptyStream

  /** `_analyze_stream`: walks the list once with an `expected_seq` counter. */
  method AnalyzeStream(packets: seq<RtpPacketInfo>) returns (r: Result<RtpStreamInfo, StreamError>)
    ensures packets == [] <==> r.Err?
    ensures r.Ok? ==> r.value == StreamStats(packets)
  {
    if packets == [] {
      return Err(EmptyStream);
    }
    var first, last := packets[0], packets[|packets| - 1];
    var packetsLost: nat := 0;
    var packetsOutOfOrder := 0;
    var expectedSeq: U16 := first.sequence;
    var i := 0;
    while i < |packets|
      invariant 0 <= i <= |packets|
      invariant i == 0 ==> expectedSeq == first.sequence
      invariant 0 < i ==> expectedSeq == (packets[i - 1].sequence + 1) % 0x1_0000
      invariant packetsLost == LostUpTo(packets, i)
      invariant packetsOutOfOrder == OutOfOrderUpTo(packets, i)
    {
      var pkt := packets[i];
      var seqDiff := (pkt.sequence - expectedSeq) % 0x1_0000;
      if seqDiff > 0 {
        packetsLost := packetsLost + seqDiff;
      } else if seqDiff < 0 {
        packetsOutOfOrder := packetsOutOfOrder + 1;
      }
      expectedSeq := (pkt.sequence + 1) % 0x1_0000;
      i := i + 1;
    }
    var hasPtp := exists j :: 0 <= j < |packets| && packets[j].ptpTimestamp.Some?;
    return Ok(RtpStreamInfo(first.ssrc, first.payloadType, |packets|, first.sequence, last.sequence,
                            first.timestamp, last.timestamp, packetsLost, packetsOutOfOrder,
                            first.arrivalTime, last.arrivalTime, hasPtp));
  }

  /** The masked difference is never negative, so no packet is ever counted out of order. */
  lemma {:induction false} NeverOutOfOrder(packets: seq<RtpPacketInfo>, n: nat)
    requires n <= |packets|
    ensures OutOfOrderUpTo(packets, n) == 0
  {
    if n > 0 {
      NeverOutOfOrder(packets, n - 1);
    }
  }

  predicate StrictlyIncreasing(packets: seq<RtpPacketInfo>)
  {
    forall i :: 0 < i < |packets| ==> packets[i - 1].sequence < packets[i].sequence
  }

  /** Over a strictly increasing run of sequence numbers the loss count is the size of the
    * span minus the packets present: zero without gaps, `k` for one gap of `k`. */
  lemma {:induction false} LostInIncreasingRun(packets: seq<RtpPacketInfo>, n: nat)
    requires StrictlyIncreasing(packets) && 0 < n <= |packets|
    ensures LostUpTo(packets, n) == packets[n - 1].sequence - packets[0].sequence + 1 - n
  {
    if n > 1 {
      LostInIncreasingRun(packets, n - 1);
      LossStep(packets, n);
    }
  }

  /** In an increasing run each packet adds the numbers skipped before it. */
  lemma LossStep(packets: seq<RtpPacketInfo>, n: nat)
    requires StrictlyIncreasing(packets) && 1 < n <= |packets|
    ensures LostUpTo(packets, n) == LostUpTo(packets, n - 1) + (packets[n - 1].sequence - packets[n - 2].sequence - 1)
  {
    var prev, cur := packets[n - 2].sequence, packets[n - 1].sequence;
    assert prev < cur;
    assert ExpectedSeq(packets, n - 1) == prev + 1;
    assert SeqDiff(packets, n - 1) == cur - (prev + 1);
  }

  /** A sequence number repeated by its neighbour adds 65535 to the loss count. */
  lemma AdjacentDuplicateCounts65535(packets: seq<RtpPacketInfo>, i: nat)
    requires 0 < i < |packets| && packets[i - 1].sequence == packets[i].sequence
    ensures LostUpTo(packets, i + 1) == LostUpTo(packets, i) + 65535
  {
  }

  /** The statistics of a non-empty list: its bounds come from the first and last packets,
    * nothing is out of order, and a gap-free increasing run loses nothing. */
  lemma StreamStatsFacts(packets: seq<RtpPacketInfo>)
    requires packets != []
    ensures StreamStats(packets).packetCount == |packets|
    ensures StreamStats(packets).packetsOutOfOrder == 0
    ensures StrictlyIncreasing(packets) ==>
      StreamStats(packets).packetsLost == StreamStats(packets).lastSeq - StreamStats(packets).firstSeq + 1 - |packets|
  {
    NeverOutOfOrder(packets, |packets|);
    if StrictlyIncreasing(packets) {
      LostInIncreasingRun(packets, |packets|);
    }
  }

  /** `RTPStreamInfo.packet_loss_rate`: lost packets as a percentage of the expected span,
    * zero when the 16-bit span is zero. */
  function PacketLossRate(info: RtpStreamInfo): (r: real)
    ensures (info.lastSeq - info.firstSeq + 1) % 0x1_0000 == 0 ==> r == 0.0
    ensures r >= 0.0
    ensures info.packetsLost == 0 ==> r == 0.0
    ensures 0 < (info.lastSeq - info.firstSeq + 1) % 0x1_0000 && info.packetsLost <= (info.lastSeq - info.firstSeq + 1) % 0x1_0000 ==>
      r <= 100.0
  {
    var totalExpected := (info.lastSeq - info.firstSeq + 1) % 0x1_0000;
    if totalExpected == 0 then 0.0
    else
      var fraction := info.packetsLost as real / totalExpected as real;
      assert info.packetsLost <= totalExpected ==> fraction <= 1.0;
      fraction * 100.0
  }

  /** A gap-free increasing stream has a loss rate of zero. */
  lemma GapFreeStreamHasNoLoss(packets: seq<RtpPacketInfo>)
    requires packets != [] && StrictlyIncreasing(packets)
    requires packets[|packets| - 1].sequence - packets[0].sequence + 1 == |packets|
    ensures StreamStats(packets).packetsLost == 0
    ensures PacketLossRate(StreamStats(packets)) == 0.0
  {
    StreamStatsFacts(packets);
  }

  /** One gap of `k` sequence numbers in an increasing stream shows as `k` lost packets. */
  lemma SingleGapStreamLosesGap(packets: seq<RtpPacketInfo>, k: nat)
    requires packets != [] && StrictlyIncreasing(packets)
    requires packets[|packets| - 1].sequence - packets[0].sequence + 1 == |packets| + k
    ensures StreamStats(packets).packetsLost == k
  {
    StreamStatsFacts(packets);
  }

  // ---------------------------------------------------------------------------
  // Demultiplexing (`extract_from_pcap` without the capture-file reader)

  /** What the capture reader yields for one frame: an RTP layer it has already decoded,
    * the payload of a UDP layer for the hand parser, or neither. `ptp` is what the PTP
    * layer lookup would give for the frame. */
  datatype CapturedPacket =
    | RtpLayer(sequence: U16, timestamp: U32, ssrc: U32, payloadType: int, marker: bool,
               payload: seq<Byte>, arrivalTime: real, ptp: Option<int>)
    | UdpLayer(udpPayload: seq<Byte>, arrivalTime: real, ptp: Option<int>)
    | OtherLayer

  /** The record built for one captured frame; `None` when it is skipped. */
  function RecordOf(c: CapturedPacket, usePtp: bool): (r: Option<RtpPacketInfo>)
    ensures c.OtherLayer? ==> r.None?
    ensures c.RtpLayer? ==> r.Some?
    ensures c.RtpLayer? ==> r.value.sequence == c.sequence && r.value.timestamp == c.timestamp
    ensures c.RtpLayer? ==> r.value.ssrc == c.ssrc && r.value.payloadType == c.payloadType
    ensures c.RtpLayer? ==> r.value.marker == c.marker && r.value.payload == c.payload
    ensures c.UdpLayer? ==> (r.Some? <==> ParseRtpFromUdp(c.udpPayload).Some?)
    ensures c.UdpLayer? && r.Some? ==>
      var h := ParseRtpFromUdp(c.udpPayload).value.0;
      r.value.sequence == h.sequence && r.value.timestamp == h.timestamp && r.value.ssrc == h.ssrc &&
      r.value.payloadType == h.payloadType && r.value.marker == h.marker
    ensures c.UdpLayer? && r.Some? ==> r.value.payload == ParseRtpFromUdp(c.udpPayload).value.1
    ensures r.Some? ==> r.value.arrivalTime == c.arrivalTime
    ensures r.Some? ==> r.value.ptpTimestamp == (if usePtp then c.ptp else None)
  {
    match c
      case RtpLayer(sq, ts, ssrc, pt, m, payload, t, _) =>
        Some(RtpPacketInfo(sq, ts, ssrc, pt, m, payload, t, if usePtp then c.ptp else None))
      case UdpLayer(udp, t, _) =>
        (match ParseRtpFromUdp(udp)
           case None => None
           case Some((h, payload)) =>
             Some(RtpPacketInfo(h.sequence, h.timestamp, h.ssrc, h.payloadType, h.marker, payload, t,
                                if usePtp then c.ptp else None)))
      case OtherLayer => None
  }

  /** The records of all captured frames that yield one, in capture order. */
  function Records(captured: seq<CapturedPacket>, usePtp: bool): seq<RtpPacketInfo>
  {
    if captured == [] then []
    else
      var last := RecordOf(captured[|captured| - 1], usePtp);
      Records(captured[..|captured| - 1], usePtp) + (if last.Some? then [last.value] else [])
  }

  /** The packets of one SSRC, in the order they were seen. */
  function BySsrc(packets: seq<RtpPacketInfo>, ssrc: U32): (r: seq<RtpPacketInfo>)
    ensures forall i :: 0 <= i < |r| ==> r[i].ssrc == ssrc
    ensures |r| <= |packets|
  {
    if packets == [] then []
    else
      var last := packets[|packets| - 1];
      BySsrc(packets[..|packets| - 1], ssrc) + (if last.ssrc == ssrc then [last] else [])
  }

  function Ssrcs(packets: seq<RtpPacketInfo>): set<U32>
  {
    set i | 0 <= i < |packets| :: packets[i].ssrc
  }

  /** Appending a packet extends its own SSRC's list and leaves the others alone. */
  lemma BySsrcSnoc(packets: seq<RtpPacketInfo>, p: RtpPacketInfo, ssrc: U32)
    ensures BySsrc(packets + [p], ssrc) == BySsrc(packets, ssrc) + (if p.ssrc == ssrc then [p] else [])
  {
    assert (packets + [p])[..|packets|] == packets;
  }

  /** An SSRC has packets in its list exactly when some packet carries it. */
  lemma {:induction false} BySsrcNonEmpty(packets: seq<RtpPacketInfo>, ssrc: U32)
    ensures BySsrc(packets, ssrc) != [] <==> ssrc in Ssrcs(packets)
  {
    if packets != [] {
      var init := packets[..|packets| - 1];
      BySsrcNonEmpty(init, ssrc);
      assert packets == init + [packets[|packets| - 1]];
      assert Ssrcs(packets) == Ssrcs(init) + {packets[|packets| - 1].ssrc};
    }
  }

  /** Splitting by one SSRC loses and invents no packet: its list and the other packets
    * together are the capture. */
  lemma {:induction false} BySsrcPartition(packets: seq<RtpPacketInfo>, ssrc: U32)
    ensures multiset(BySsrc(packets, ssrc)) + multiset(Others(packets, ssrc)) == multiset(packets)
  {
    if packets != [] {
      var init := packets[..|packets| - 1];
      BySsrcPartition(init, ssrc);
      assert packets == init + [packets[|packets| - 1]];
    }
  }

  /** The packets of every other SSRC, in the order they were seen. */
  function Others(packets: seq<RtpPacketInfo>, ssrc: U32): (r: seq<RtpPacketInfo>)
    ensures forall i :: 0 <= i < |r| ==> r[i].ssrc != ssrc
  {
    if packets == [] then []
    else
      var last := packets[|packets| - 1];
      Others(packets[..|packets| - 1], ssrc) + (if last.ssrc != ssrc then [last] else [])
  }

  // ---------------------------------------------------------------------------
  // Stable sort by sequence number (`list.sort(key=lambda p: p.sequence)`)

  predicate SortedBySequence(s: seq<RtpPacketInfo>)
  {
    forall i, j :: 0 <= i < j < |s| ==> s[i].sequence <= s[j].sequence
  }

  /** The packets of a list that carry sequence number `k`, in list order. */
  function WithSequence(s: seq<RtpPacketInfo>, k: U16): seq<RtpPacketInfo>
  {
    if s == [] then [] else (if s[0].sequence == k then [s[0]] else []) + WithSequence(s[1..], k)
  }

  lemma {:induction false} WithSequenceAppend(a: seq<RtpPacketInfo>, b: seq<RtpPacketInfo>, k: U16)
    ensures WithSequence(a + b, k) == WithSequence(a, k) + WithSequence(b, k)
  {
    if a == [] {
      assert a + b == b;
    } else {
      var head := if a[0].sequence == k then [a[0]] else [];
      assert (a + b)[0] == a[0];
      assert (a + b)[1..] == a[1..] + b;
      WithSequenceAppend(a[1..], b, k);
      assert WithSequence(a + b, k) == head + WithSequence(a[1..] + b, k);
      assert WithSequence(a, k) == head + WithSequence(a[1..], k);
    }
  }

  /** No packet of a sorted list carries a number below its first one. */
  lemma {:induction false} WithSequenceBelowHead(s: seq<RtpPacketInfo>, k: U16)
    requires SortedBySequence(s) && s != [] && k < s[0].sequence
    ensures WithSequence(s, k) == []
  {
    if |s| > 1 {
      assert s[1].sequence >= s[0].sequence;
      WithSequenceBelowHead(s[1..], k);
    }
  }

  /** Inserts `p` into a list after every leading packet whose number is not above its own. */
  function InsertBySequence(p: RtpPacketInfo, s: seq<RtpPacketInfo>): (r: seq<RtpPacketInfo>)
    ensures |r| == |s| + 1
  {
    if s == [] then [p]
    else if p.sequence < s[0].sequence then [p] + s
    else [s[0]] + InsertBySequence(p, s[1..])
  }

  lemma {:induction false} InsertKeepsOrder(p: RtpPacketInfo, s: seq<RtpPacketInfo>)
    requires SortedBySequence(s)
    ensures SortedBySequence(InsertBySequence(p, s))
    ensures InsertBySequence(p, s)[0] == p || (s != [] && InsertBySequence(p, s)[0] == s[0])
  {
    if s != [] && p.sequence >= s[0].sequence {
      var tail := InsertBySequence(p, s[1..]);
      InsertKeepsOrder(p, s[1..]);
      var r := [s[0]] + tail;
      assert r == InsertBySequence(p, s);
      assert s[0].sequence <= tail[0].sequence;
      forall i, j | 0 <= i < j < |r|
        ensures r[i].sequence <= r[j].sequence
      {
        assert r[j] == tail[j - 1];
        if i > 0 {
          assert r[i] == tail[i - 1];
        } else if j > 1 {
          assert tail[0].sequence <= tail[j - 1].sequence;
        }
      }
    }
  }

  /** Inserting adds exactly the one packet. */
  lemma {:induction false} InsertPermutes(p: RtpPacketInfo, s: seq<RtpPacketInfo>)
    ensures multiset(InsertBySequence(p, s)) == multiset(s) + multiset{p}
  {
    if s != [] && p.sequence >= s[0].sequence {
      InsertPermutes(p, s[1..]);
      assert s == [s[0]] + s[1..];
    }
  }

  /** Inserting after equal numbers: among the packets with any one number, `p` comes last. */
  lemma {:induction false} InsertIsStable(p: RtpPacketInfo, s: seq<RtpPacketInfo>, k: U16)
    requires SortedBySequence(s)
    ensures WithSequence(InsertBySequence(p, s), k) == WithSequence(s, k) + (if p.sequence == k then [p] else [])
  {
    var r := InsertBySequence(p, s);
    if s == [] {
      assert r[1..] == [];
    } else if p.sequence < s[0].sequence {
      assert r[1..] == s;
      if p.sequence == k {
        WithSequenceBelowHead(s, k);
      }
    } else {
      InsertIsStable(p, s[1..], k);
      assert r[1..] == InsertBySequence(p, s[1..]);
    }
  }

  /** The stable insertion sort that Python's list sort agrees with on these keys: sorted,
    * a permutation of its input, and with every run of equal numbers in input order. */
  function SortBySequence(s: seq<RtpPacketInfo>): (r: seq<RtpPacketInfo>)
    ensures SortedBySequence(r) && multiset(r) == multiset(s) && |r| == |s|
    ensures forall k :: WithSequence(r, k) == WithSequence(s, k)
  {
    if s == [] then []
    else
      var init := SortBySequence(s[..|s| - 1]);
      SortStep(s, init);
      InsertBySequence(s[|s| - 1], init)
  }

  /** Inserting the last packet into the sorted rest sorts the whole list. */
  lemma SortStep(s: seq<RtpPacketInfo>, init: seq<RtpPacketInfo>)
    requires s != [] && SortedBySequence(init) && multiset(init) == multiset(s[..|s| - 1])
    requires forall k :: WithSequence(init, k) == WithSequence(s[..|s| - 1], k)
    ensures var r := InsertBySequence(s[|s| - 1], init);
      SortedBySequence(r) && multiset(r) == multiset(s) && |r| == |s|
    ensures forall k :: WithSequence(InsertBySequence(s[|s| - 1], init), k) == WithSequence(s, k)
  {
    var last := s[|s| - 1];
    InsertKeepsOrder(last, init);
    InsertPermutes(last, init);
    assert s == s[..|s| - 1] + [last];
    assert |init| == |s| - 1 by {
      assert |multiset(init)| == |multiset(s[..|s| - 1])|;
    }
    InsertAtEndKeepsRuns(s, init);
  }

  /** Inserting the last packet into the sorted rest keeps each number's run in input order. */
  lemma InsertAtEndKeepsRuns(s: seq<RtpPacketInfo>, init: seq<RtpPacketInfo>)
    requires s != [] && SortedBySequence(init)
    requires forall k :: WithSequence(init, k) == WithSequence(s[..|s| - 1], k)
    ensures forall k :: WithSequence(InsertBySequence(s[|s| - 1], init), k) == WithSequence(s, k)
  {
    forall k
      ensures WithSequence(InsertBySequence(s[|s| - 1], init), k) == WithSequence(s, k)
    {
      InsertAtEndKeepsRun(s, init, k);
    }
  }

  /** The same, for the run of one number `k`. */
  lemma InsertAtEndKeepsRun(s: seq<RtpPacketInfo>, init: seq<RtpPacketInfo>, k: U16)
    requires s != [] && SortedBySequence(init)
    requires WithSequence(init, k) == WithSequence(s[..|s| - 1], k)
    ensures WithSequence(InsertBySequence(s[|s| - 1], init), k) == WithSequence(s, k)
  {
    var last := s[|s| - 1];
    assert s == s[..|s| - 1] + [last];
    InsertIsStable(last, init, k);
    WithSequenceAppend(s[..|s| - 1], [last], k);
    assert [last][1..] == [];
    assert WithSequence([last], k) == (if last.sequence == k then [last] else []);
  }

  // ---------------------------------------------------------------------------
  // Lookups

  /** `PAYLOAD_TYPES`: the friendly names of the ST 2110 payload types. */
  const PayloadTypes: map<int, string> :=
    map[96 := "ST2110-20 Video", 97 := "ST2110-30 Audio", 98 := "ST2110-40 Ancillary"]

  /** `get_payload_type_name`: the table entry, or `Unknown (PT n)`. */
  function PayloadTypeName(payloadType: int): (r: string)
    ensures payloadType in PayloadTypes ==> r == PayloadTypes[payloadType]
    ensures payloadType !in PayloadTypes ==>
      |r| > 13 && r[..12] == "Unknown (PT " && r[|r| - 1] == ')' &&
      r[12..|r| - 1] == IntString(payloadType)
  {
    if payloadType in PayloadTypes then PayloadTypes[payloadType]
    else "Unknown (PT " + IntString(payloadType) + ")"
  }

  /** The number in an unknown payload type's name reads back as that payload type. */
  lemma UnknownPayloadTypeNumber(payloadType: nat)
    requires payloadType !in PayloadTypes
    ensures var r := PayloadTypeName(payloadType); DecimalValue(r[12..|r| - 1]) == payloadType
  {
    NatStringValue(payloadType);
  }

  predicate IsLeast(m: U32, s: set<U32>)
  {
    m in s && forall x :: x in s ==> m <= x
  }

  lemma {:induction false} LeastExists(s: set<U32>)
    requires s != {}
    ensures exists m :: IsLeast(m, s)
    decreases |s|
  {
    var x :| x in s;
    if s == {x} {
      assert IsLeast(x, s);
    } else {
      assert forall z :: z in s ==> z == x || z in s - {x};
      LeastExists(s - {x});
      var y :| IsLeast(y, s - {x});
      if x < y {
        assert IsLeast(x, s);
      } else {
        assert IsLeast(y, s);
      }
    }
  }

  /** The least of a non-empty set of SSRC values. */
  function MinSsrc(s: set<U32>): (m: U32)
    requires s != {}
    ensures IsLeast(m, s)
  {
    LeastExists(s);
    var m :| IsLeast(m, s);
    m
  }

  /** `sorted(d.items())` for a dictionary keyed by SSRC: least key first. */
  function SortedItems(m: map<U32, RtpStreamInfo>): (r: seq<(U32, RtpStreamInfo)>)
    ensures |r| == |m.Keys|
    decreases |m.Keys|
  {
    if m.Keys == {} then []
    else
      var k := MinSsrc(m.Keys);
      assert (m - {k}).Keys == m.Keys - {k};
      [(k, m[k])] + SortedItems(m - {k})
  }

  /** Each listed pair is an entry of the dictionary, and keys strictly ascend. */
  lemma {:induction false} SortedItemsAscending(m: map<U32, RtpStreamInfo>)
    ensures forall i :: 0 <= i < |SortedItems(m)| ==>
      SortedItems(m)[i].0 in m && SortedItems(m)[i].1 == m[SortedItems(m)[i].0]
    ensures forall i, j :: 0 <= i < j < |SortedItems(m)| ==> SortedItems(m)[i].0 < SortedItems(m)[j].0
    decreases |m.Keys|
  {
    if m.Keys != {} {
      var k := MinSsrc(m.Keys);
      var rest := m - {k};
      assert rest.Keys == m.Keys - {k};
      SortedItemsAscending(rest);
      var tail := SortedItems(rest);
      var r := SortedItems(m);
      assert r == [(k, m[k])] + tail;
      forall i | 0 <= i < |tail| ensures tail[i].0 in m && k < tail[i].0 && tail[i].1 == m[tail[i].0] {
        assert tail[i].0 in rest.Keys;
      }
      forall i | 0 <= i < |r| ensures r[i].0 in m && r[i].1 == m[r[i].0] {
        if i > 0 {
          assert r[i] == tail[i - 1];
        }
      }
      forall i, j | 0 <= i < j < |r| ensures r[i].0 < r[j].0 {
        assert r[j] == tail[j - 1];
        if i > 0 {
          assert r[i] == tail[i - 1];
        }
      }
    }
  }

  /** Every key of the dictionary is listed. */
  lemma {:induction false} SortedItemsCoversKeys(m: map<U32, RtpStreamInfo>, k: U32)
    requires k in m
    ensures exists i :: 0 <= i < |SortedItems(m)| && SortedItems(m)[i].0 == k
    decreases |m.Keys|
  {
    var least := MinSsrc(m.Keys);
    var rest := m - {least};
    assert SortedItems(m) == [(least, m[least])] + SortedItems(rest);
    if k == least {
      assert SortedItems(m)[0].0 == k;
    } else {
      assert rest.Keys == m.Keys - {least};
      SortedItemsCoversKeys(rest, k);
      var i :| 0 <= i < |SortedItems(rest)| && SortedItems(rest)[i].0 == k;
      assert SortedItems(m)[i + 1].0 == k;
    }
  }

  /** The concatenated payloads of a packet list, in list order. */
  function Payloads(packets: seq<RtpPacketInfo>): (r: seq<seq<Byte>>)
    ensures |r| == |packets| && forall i :: 0 <= i < |packets| ==> r[i] == packets[i].payload
  {
    seq(|packets|, i requires 0 <= i < |packets| => packets[i].payload)
  }

  /** A stream's payloads joined in list order: as long as all of them together, with each
    * packet's payload right after those of the packets before it. */
  function JoinedPayloads(packets: seq<RtpPacketInfo>): (r: seq<Byte>)
    ensures |r| == TotalLength(Payloads(packets))
    ensures forall i :: 0 <= i < |packets| ==>
      PlacedAt(r, packets[i].payload, TotalLength(Payloads(packets)[..i]))
  {
    JoinLength(Payloads(packets));
    JoinPlacesParts(Payloads(packets));
    Join(Payloads(packets))
  }

  /** The error `get_payload_data` raises for an SSRC it has no stream for. */
  datatype LookupError = NoStream(ssrc: int)

  /** Appending one record to the list of its SSRC keeps the lists equal to the per-SSRC
    * filters of the records seen so far. */
  lemma AppendToStream(records: seq<RtpPacketInfo>, streams: map<U32, seq<RtpPacketInfo>>, p: RtpPacketInfo)
    requires streams.Keys == Ssrcs(records)
    requires forall ssrc :: ssrc in streams ==> streams[ssrc] == BySsrc(records, ssrc)
    ensures var list := if p.ssrc in streams then streams[p.ssrc] else [];
      var next := streams[p.ssrc := list + [p]];
      next.Keys == Ssrcs(records + [p]) &&
      forall ssrc :: ssrc in next ==> next[ssrc] == BySsrc(records + [p], ssrc)
  {
    var list := if p.ssrc in streams then streams[p.ssrc] else [];
    var next := streams[p.ssrc := list + [p]];
    forall ssrc | ssrc in next ensures next[ssrc] == BySsrc(records + [p], ssrc) {
      BySsrcSnoc(records, p, ssrc);
      BySsrcNonEmpty(records, ssrc);
    }
    assert Ssrcs(records + [p]) == Ssrcs(records) + {p.ssrc} by {
      assert forall i :: 0 <= i < |records| ==> (records + [p])[i] == records[i];
      assert (records + [p])[|records|] == p;
    }
  }

  // ---------------------------------------------------------------------------
  // The extractor object

  /** `RTPStreamExtractor`: per-SSRC packet lists and their statistics. */
  class RtpStreamExtractor {
    var usePtp: bool
    var streams: map<U32, seq<RtpPacketInfo>>
    var streamInfo: map<U32, RtpStreamInfo>

    constructor (usePtp: bool)
      ensures this.usePtp == usePtp && streams == map[] && streamInfo == map[]
    {
      this.usePtp := usePtp;
      streams := map[];
      streamInfo := map[];
    }

    /** `extract_from_pcap` on the frames the capture reader produced: records every frame that
      * yields an RTP packet under its SSRC, sorts each list by sequence and analyses it. */
    method ExtractFromPackets(captured: seq<CapturedPacket>) returns (r: map<U32, seq<RtpPacketInfo>>)
      modifies this
      ensures usePtp == old(usePtp) && r == streams
      ensures streams.Keys == Ssrcs(Records(captured, usePtp))
      ensures forall ssrc :: ssrc in streams ==> streams[ssrc] == SortBySequence(BySsrc(Records(captured, usePtp), ssrc))
      ensures streamInfo.Keys == streams.Keys
      ensures forall ssrc :: ssrc in streamInfo ==> streams[ssrc] != [] && streamInfo[ssrc] == StreamStats(streams[ssrc])
    {
      streams := map[];
      streamInfo := map[];
      CollectStreams(captured);
      forall ssrc | ssrc in streams ensures streams[ssrc] != [] {
        BySsrcNonEmpty(Records(captured, usePtp), ssrc);
      }
      SortAndAnalyze();
      r := streams;
    }

    /** The capture loop: appends each record to the list of its SSRC. */
    method CollectStreams(captured: seq<CapturedPacket>)
      requires streams == map[]
      modifies this`streams
      ensures streams.Keys == Ssrcs(Records(captured, usePtp))
      ensures forall ssrc :: ssrc in streams ==> streams[ssrc] == BySsrc(Records(captured, usePtp), ssrc)
    {
      ghost var records: seq<RtpPacketInfo> := [];
      var i := 0;
      while i < |captured|
        invariant 0 <= i <= |captured|
        invariant records == Records(captured[..i], usePtp)
        invariant streams.Keys == Ssrcs(records)
        invariant forall ssrc :: ssrc in streams ==> streams[ssrc] == BySsrc(records, ssrc)
      {
        assert captured[..i + 1][..i] == captured[..i];
        var rec := RecordOf(captured[i], usePtp);
        if rec.Some? {
          var p := rec.value;
          var list := if p.ssrc in streams then streams[p.ssrc] else [];
          AppendToStream(records, streams, p);
          streams := streams[p.ssrc := list + [p]];
          records := records + [p];
        }
        i := i + 1;
      }
      assert captured[..|captured|] == captured;
    }

    /** The sorting loop: sorts every list by sequence and records its statistics. */
    method SortAndAnalyze()
      requires streamInfo == map[]
      requires forall ssrc :: ssrc in streams ==> streams[ssrc] != []
      modifies this`streams, this`streamInfo
      ensures streams.Keys == old(streams).Keys && streamInfo.Keys == streams.Keys
      ensures forall ssrc :: ssrc in streams ==> streams[ssrc] == SortBySequence(old(streams)[ssrc])
      ensures forall ssrc :: ssrc in streamInfo ==> streams[ssrc] != [] && streamInfo[ssrc] == StreamStats(streams[ssrc])
    {
      var groups := streams;
      var sortedStreams, infos := groups, map[];
      var pending := groups.Keys;
      while pending != {}
        invariant pending <= sortedStreams.Keys == groups.Keys
        invariant infos.Keys == groups.Keys - pending
        invariant forall ssrc :: ssrc in pending ==> sortedStreams[ssrc] == groups[ssrc]
        invariant forall ssrc :: ssrc in infos ==>
          sortedStreams[ssrc] == SortBySequence(groups[ssrc]) && sortedStreams[ssrc] != [] &&
          infos[ssrc] == StreamStats(sortedStreams[ssrc])
        decreases pending
      {
        var ssrc :| ssrc in pending;
        var sorted := SortBySequence(sortedStreams[ssrc]);
        var info := AnalyzeStream(sorted);
        sortedStreams, infos := sortedStreams[ssrc := sorted], infos[ssrc := info.value];
        pending := pending - {ssrc};
      }
      streams, streamInfo := sortedStreams, infos;
    }

    /** `get_stream_info`: one SSRC's statistics (nothing if unknown), or all of them. */
    function GetStreamInfo(ssrc: Option<U32>): (r: map<U32, RtpStreamInfo>)
      reads this
      ensures ssrc.None? ==> r == streamInfo
      ensures ssrc.Some? ==> r.Keys == (if ssrc.value in streamInfo then {ssrc.value} else {})
      ensures forall k :: k in r ==> k in streamInfo && r[k] == streamInfo[k]
    {
      if ssrc.None? then streamInfo
      else if ssrc.value in streamInfo then map[ssrc.value := streamInfo[ssrc.value]]
      else map[]
    }

    /** `get_payload_data`: the joined payloads of a known stream, an error otherwise. */
    function GetPayloadData(ssrc: int): (r: Result<seq<Byte>, LookupError>)
      reads this
      ensures r.Err? <==> ssrc !in streams
      ensures r.Err? ==> r.error == NoStream(ssrc)
      ensures r.Ok? ==> r.value == JoinedPayloads(streams[ssrc])
    {
      if ssrc !in streams then Err(NoStream(ssrc)) else Ok(JoinedPayloads(streams[ssrc]))
    }

    /** `list_streams`: the statistics as (SSRC, info) pairs in ascending SSRC order. */
    function ListStreams(): (r: seq<(U32, RtpStreamInfo)>)
      reads this
      ensures |r| == |streamInfo.Keys|
      ensures forall i :: 0 <= i < |r| ==> r[i].0 in streamInfo && r[i].1 == streamInfo[r[i].0]
      ensures forall i, j :: 0 <= i < j < |r| ==> r[i].0 < r[j].0
      ensures forall k :: k in streamInfo ==> exists i :: 0 <= i < |r| && r[i].0 == k
    {
      SortedItemsAscending(streamInfo);
      forall k | k in streamInfo ensures exists i :: 0 <= i < |SortedItems(streamInfo)| && SortedItems(streamInfo)[i].0 == k {
        SortedItemsCoversKeys(streamInfo, k);
      }
      SortedItems(streamInfo)
    }
  }

  /** What a demultiplexed stream holds: packets of its own SSRC only, every packet of that
    * SSRC from the capture, sorted by sequence number, and equal numbers in capture order. */
  lemma DemultiplexedStream(captured: seq<CapturedPacket>, usePtp: bool, ssrc: U32)
    ensures var records := Records(captured, usePtp);
      var stream := SortBySequence(BySsrc(records, ssrc));
      (forall i :: 0 <= i < |stream| ==> stream[i].ssrc == ssrc) &&
      multiset(stream) + multiset(Others(records, ssrc)) == multiset(records) &&
      SortedBySequence(stream) &&
      (forall k :: WithSequence(stream, k) == WithSequence(BySsrc(records, ssrc), k))
  {
    var records := Records(captured, usePtp);
    BySsrcPartition(records, ssrc);
    var stream := SortBySequence(BySsrc(records, ssrc));
    assert forall i :: 0 <= i < |stream| ==> stream[i] in multiset(BySsrc(records, ssrc));
  }
}
