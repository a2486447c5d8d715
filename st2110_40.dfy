/** ST 2110-40 ancillary data: the byte-resync scan for DID/SDID/DC/UDW/checksum packets,
  * SMPTE 12M-style timecode fields, printable CEA-608 and CEA-708 characters, and the
  * per-type summary, after dtk/media/decoders/st2110_40.py. The packet layout is the
  * simplified 8-bit one the decoder reads: DID, SDID, DC, DC user bytes, checksum. */
module St2110Anc {
  import opened Wrappers
  import opened Bytes
  import opened Text
  import opened RtpExtractor

  /** ANCPacket: one parsed ancillary packet. */
  datatype AncPacket = AncPacket(
    did: Byte,
    sdid: Byte,
    dataCount: nat,
    userData: seq<Byte>,
    checksum: Byte,
    timestamp: real,
    lineNumber: Option<int>,
    horizontalOffset: Option<int>)

  /** What the parser can produce: a data count of one octet, that many user bytes, and no
    * line number or horizontal offset (the simplified layout carries neither). */
  predicate WellFormed(a: AncPacket)
  {
    1 <= a.dataCount <= 255 && |a.userData| == a.dataCount &&
    a.lineNumber.None? && a.horizontalOffset.None?
  }

  /** ANC_TYPES: the friendly names of the common (DID, SDID) pairs. */
  const AncTypes: map<(Byte, Byte), string> := map[
    (0x60, 0x60) := "SMPTE 12M Timecode",
    (0x61, 0x01) := "CEA-708 Closed Captions",
    (0x61, 0x02) := "CEA-608 Closed Captions",
    (0x41, 0x05) := "AFD/Bar Data",
    (0x41, 0x07) := "SCTE-104 Messages",
    (0x43, 0x02) := "OP-47 Teletext (VITC)",
    (0x43, 0x03) := "OP-47 Teletext (WSS)",
    (0x51, 0x51) := "MPEG Recoding Data",
    (0x64, 0x64) := "LTC (Linear Timecode)",
    (0x64, 0x7F) := "VITC (Vertical Interval Timecode)"]

  /** `did_sdid`: both identifiers as two upper-case hexadecimal digits, slash-separated;
    * the digits read back as the identifiers. */
  function DidSdid(a: AncPacket): (r: string)
    ensures |r| == 5 && r[2] == '/'
    ensures HexDigitValue(r[0]) * 16 + HexDigitValue(r[1]) == a.did
    ensures HexDigitValue(r[3]) * 16 + HexDigitValue(r[4]) == a.sdid
  {
    Hex2(a.did) + "/" + Hex2(a.sdid)
  }

  /** `type_name`: the table's name, "Unknown" exactly for the pairs the table lacks. */
  function TypeName(a: AncPacket): (r: string)
    ensures (a.did, a.sdid) in AncTypes ==> r == AncTypes[(a.did, a.sdid)]
    ensures r == "Unknown" <==> (a.did, a.sdid) !in AncTypes
  {
    if (a.did, a.sdid) in AncTypes then AncTypes[(a.did, a.sdid)] else "Unknown"
  }

  /** The key `get_anc_summary` counts under: `"name (DD/SS)"`. */
  function SummaryKey(a: AncPacket): (r: string)
    ensures |r| == |TypeName(a)| + 8
    ensures r[..|TypeName(a)|] == TypeName(a) && r[|r| - 6..|r| - 1] == DidSdid(a)
  {
    TypeName(a) + " (" + DidSdid(a) + ")"
  }

  /** Two packets share a summary key only when they share DID and SDID. */
  lemma SummaryKeyInjective(a: AncPacket, b: AncPacket)
    requires SummaryKey(a) == SummaryKey(b)
    ensures a.did == b.did && a.sdid == b.sdid
  {
    var k := SummaryKey(a);
    assert DidSdid(a) == k[|k| - 6..|k| - 1] == DidSdid(b);
  }

  /** The key of a timecode packet. */
  lemma TimecodeSummaryKey(a: AncPacket)
    requires a.did == 0x60 && a.sdid == 0x60
    ensures SummaryKey(a) == "SMPTE 12M Timecode (60/60)"
  {
    assert AncTypes[(0x60, 0x60)] == "SMPTE 12M Timecode";
    assert TypeName(a) == "SMPTE 12M Timecode";
    assert Hex2(0x60) == "60";
    assert DidSdid(a) == "60/60";
  }

  /** The key of a pair the table does not know. */
  lemma UnknownSummaryKey(a: AncPacket)
    requires a.did == 0xAB && a.sdid == 0x0C
    ensures SummaryKey(a) == "Unknown (AB/0C)"
  {
    assert (0xAB, 0x0C) !in AncTypes;
    assert TypeName(a) == "Unknown";
    assert Hex2(0xAB) == "AB" && Hex2(0x0C) == "0C";
    assert DidSdid(a) == "AB/0C";
  }

  // ---------------------------------------------------------------------------------------
  // One packet
  // ---------------------------------------------------------------------------------------

  /** `_parse_anc_packet`: None for fewer than 6 bytes, a zero data count, or fewer bytes
    * than the count announces; otherwise the identifiers, the user bytes right after the
    * count, and the byte after them as checksum. */
  function ParseAncPacket(data: seq<Byte>, timestamp: real): (r: Option<AncPacket>)
    ensures r.None? <==> |data| < 6 || data[2] == 0 || |data| < 4 + data[2] as int
    ensures r.Some? ==> WellFormed(r.value) && r.value.timestamp == timestamp
  {
    if |data| < 6 then None
    else
      var dataCount: int := data[2];
      if dataCount == 0 || dataCount > 255 then None
      else if |data| < 4 + dataCount then None
      else
        var userData := data[3..3 + dataCount];
        var checksum: int := if |data| > 3 + dataCount then data[3 + dataCount] else 0;
        Some(AncPacket(data[0], data[1], dataCount, userData, checksum, timestamp, None, None))
  }

  /** The bytes of a packet in the layout the parser reads. */
  function EncodeAncPacket(a: AncPacket): (r: seq<Byte>)
    requires WellFormed(a)
    ensures |r| == 4 + a.dataCount
  {
    [a.did, a.sdid, a.dataCount] + a.userData + [a.checksum]
  }

  /** A parsed packet is exactly the bytes it was read from: encoding it gives the first
    * 4 + DC bytes of the input. */
  lemma ParsedBytes(data: seq<Byte>, timestamp: real)
    requires ParseAncPacket(data, timestamp).Some?
    ensures var a := ParseAncPacket(data, timestamp).value;
      4 + a.dataCount <= |data| && data[..4 + a.dataCount] == EncodeAncPacket(a)
  {
  }

  /** Parsing an encoded packet gives it back, whatever follows it, as long as the whole is
    * at least the 6 bytes the parser asks for. */
  lemma ParseEncoded(a: AncPacket, rest: seq<Byte>)
    requires WellFormed(a)
    requires 4 + a.dataCount + |rest| >= 6
    ensures ParseAncPacket(EncodeAncPacket(a) + rest, a.timestamp) == Some(a)
  {
    var data := EncodeAncPacket(a) + rest;
    assert data[3..3 + a.dataCount] == a.userData;
  }

  /** A packet with one user byte and nothing after it is too short for the parser. */
  lemma ShortestPacketNeedsTrailer(a: AncPacket)
    requires WellFormed(a) && a.dataCount == 1
    ensures ParseAncPacket(EncodeAncPacket(a), a.timestamp).None?
  {
  }

  // ---------------------------------------------------------------------------------------
  // The payload scan
  // ---------------------------------------------------------------------------------------

  /** The packets `_parse_st2110_40_payload` finds from `offset` on: stop once fewer than 4
    * bytes remain; after a packet resume 6 + DC bytes further, otherwise one byte further. */
  function ScanFrom(payload: seq<Byte>, offset: nat, timestamp: real): seq<AncPacket>
    decreases |payload| - offset
  {
    if offset >= |payload| || offset + 4 > |payload| then []
    else
      match ParseAncPacket(payload[offset..], timestamp)
      case Some(a) => [a] + ScanFrom(payload, offset + 6 + a.dataCount, timestamp)
      case None => ScanFrom(payload, offset + 1, timestamp)
  }

  /** The offsets at which the scan finds its packets. */
  ghost function ScanSites(payload: seq<Byte>, offset: nat, timestamp: real): seq<nat>
    decreases |payload| - offset
  {
    if offset >= |payload| || offset + 4 > |payload| then []
    else
      match ParseAncPacket(payload[offset..], timestamp)
      case Some(a) => [offset] + ScanSites(payload, offset + 6 + a.dataCount, timestamp)
      case None => ScanSites(payload, offset + 1, timestamp)
  }

  /** One site per packet found. */
  lemma {:induction false} ScanSitesLength(payload: seq<Byte>, offset: nat, timestamp: real)
    ensures |ScanSites(payload, offset, timestamp)| == |ScanFrom(payload, offset, timestamp)|
    decreases |payload| - offset
  {
    if offset >= |payload| || offset + 4 > |payload| {
    } else {
      match ParseAncPacket(payload[offset..], timestamp)
      case Some(a) =>
        ScanSitesLength(payload, offset + 6 + a.dataCount, timestamp);
      case None =>
        ScanSitesLength(payload, offset + 1, timestamp);
    }
  }

  /** Each packet found is the parse at its site, a well-formed packet with the payload's
    * time; its site lies at or after the start, and its 4 + DC bytes fit in the payload. */
  lemma {:induction false} ScanSitesParse(payload: seq<Byte>, offset: nat, timestamp: real)
    ensures |ScanSites(payload, offset, timestamp)| == |ScanFrom(payload, offset, timestamp)|
    ensures forall i :: 0 <= i < |ScanSites(payload, offset, timestamp)| ==>
      offset <= ScanSites(payload, offset, timestamp)[i] &&
      ScanSites(payload, offset, timestamp)[i] + 4 + ScanFrom(payload, offset, timestamp)[i].dataCount <= |payload| &&
      WellFormed(ScanFrom(payload, offset, timestamp)[i]) && ScanFrom(payload, offset, timestamp)[i].timestamp == timestamp &&
      ParseAncPacket(payload[ScanSites(payload, offset, timestamp)[i]..], timestamp) ==
        Some(ScanFrom(payload, offset, timestamp)[i])
    decreases |payload| - offset
  {
    ScanSitesLength(payload, offset, timestamp);
    if offset >= |payload| || offset + 4 > |payload| {
    } else {
      match ParseAncPacket(payload[offset..], timestamp)
      case Some(a) =>
        ScanSitesParse(payload, offset + 6 + a.dataCount, timestamp);
      case None =>
        ScanSitesParse(payload, offset + 1, timestamp);
    }
  }

  /** Sites increase: after each packet's 4 + DC bytes come at least two more bytes before
    * the next site. */
  lemma {:induction false} ScanSitesOrdered(payload: seq<Byte>, offset: nat, timestamp: real)
    ensures |ScanSites(payload, offset, timestamp)| == |ScanFrom(payload, offset, timestamp)|
    ensures forall i :: 0 <= i < |ScanSites(payload, offset, timestamp)| ==> offset <= ScanSites(payload, offset, timestamp)[i]
    ensures forall i :: 0 <= i < |ScanSites(payload, offset, timestamp)| - 1 ==>
      ScanSites(payload, offset, timestamp)[i] + 6 + ScanFrom(payload, offset, timestamp)[i].dataCount <=
        ScanSites(payload, offset, timestamp)[i + 1]
    decreases |payload| - offset
  {
    ScanSitesLength(payload, offset, timestamp);
    if offset >= |payload| || offset + 4 > |payload| {
    } else {
      match ParseAncPacket(payload[offset..], timestamp)
      case Some(a) =>
        ScanSitesOrdered(payload, offset + 6 + a.dataCount, timestamp);
      case None =>
        ScanSitesOrdered(payload, offset + 1, timestamp);
    }
  }

  /** Where the scan goes on after trying `offset`. */
  function NextOffset(payload: seq<Byte>, offset: nat, timestamp: real): nat
    requires offset <= |payload|
  {
    match ParseAncPacket(payload[offset..], timestamp)
    case Some(a) => offset + 6 + a.dataCount
    case None => offset + 1
  }

  /** What the scan keeps from `offset`: the packet there, if any. */
  function FoundAt(payload: seq<Byte>, offset: nat, timestamp: real): seq<AncPacket>
    requires offset <= |payload|
  {
    match ParseAncPacket(payload[offset..], timestamp)
    case Some(a) => [a]
    case None => []
  }

  /** One step of the scan while at least 4 bytes remain. */
  lemma ScanUnfold(payload: seq<Byte>, offset: nat, timestamp: real)
    requires offset + 4 <= |payload|
    ensures ScanFrom(payload, offset, timestamp) ==
      FoundAt(payload, offset, timestamp) + ScanFrom(payload, NextOffset(payload, offset, timestamp), timestamp)
  {
  }

  /** A step taken after a prefix is the same step, moved by the prefix's length. */
  lemma ShiftedStep(prefix: seq<Byte>, s: seq<Byte>, offset: nat, timestamp: real)
    requires offset <= |s|
    ensures FoundAt(prefix + s, |prefix| + offset, timestamp) == FoundAt(s, offset, timestamp)
    ensures NextOffset(prefix + s, |prefix| + offset, timestamp) == |prefix| + NextOffset(s, offset, timestamp)
  {
    assert (prefix + s)[|prefix| + offset..] == s[offset..];
  }

  /** What the scan finds from an offset depends only on the bytes from there on. */
  lemma {:induction false} ScanShift(prefix: seq<Byte>, s: seq<Byte>, offset: nat, timestamp: real)
    ensures ScanFrom(prefix + s, |prefix| + offset, timestamp) == ScanFrom(s, offset, timestamp)
    decreases |s| - offset
  {
    if offset + 4 <= |s| {
      var next := NextOffset(s, offset, timestamp);
      ScanUnfold(prefix + s, |prefix| + offset, timestamp);
      ScanUnfold(s, offset, timestamp);
      ShiftedStep(prefix, s, offset, timestamp);
      ScanShift(prefix, s, next, timestamp);
    }
  }

  /** Packets laid out one after another, each followed by two filler bytes. */
  function Layout(packets: seq<AncPacket>): (r: seq<Byte>)
    requires forall i :: 0 <= i < |packets| ==> WellFormed(packets[i])
  {
    if packets == [] then [] else EncodeAncPacket(packets[0]) + [0, 0] + Layout(packets[1..])
  }

  /** A packet with its filler at the front: the scan takes it, resumes after the filler,
    * and scans what follows as if on its own. */
  lemma ScanLayoutStep(a: AncPacket, rest: seq<Byte>)
    requires WellFormed(a)
    ensures ScanFrom(EncodeAncPacket(a) + [0, 0] + rest, 0, a.timestamp) == [a] + ScanFrom(rest, 0, a.timestamp)
  {
    var head := EncodeAncPacket(a) + [0, 0];
    var whole := head + rest;
    assert whole == EncodeAncPacket(a) + ([0, 0] + rest);
    ParseEncoded(a, [0, 0] + rest);
    assert whole[0..] == whole;
    assert ScanFrom(whole, 0, a.timestamp) == [a] + ScanFrom(whole, |head|, a.timestamp);
    ScanShift(head, rest, 0, a.timestamp);
  }

  /** The scan recovers every packet of such a layout, in order. */
  lemma {:induction false} ScanLayout(packets: seq<AncPacket>, timestamp: real)
    requires forall i :: 0 <= i < |packets| ==> WellFormed(packets[i]) && packets[i].timestamp == timestamp
    ensures ScanFrom(Layout(packets), 0, timestamp) == packets
  {
    if packets != [] {
      ScanLayoutStep(packets[0], Layout(packets[1..]));
      ScanLayout(packets[1..], timestamp);
      assert packets == [packets[0]] + packets[1..];
    }
  }

  /** Two packets written back to back: the scan resumes two bytes into the second one
    * and finds only the first. */
  lemma BackToBackLosesSecond(timestamp: real)
    ensures ScanFrom([0x60, 0x60, 0x01, 0x05, 0xAA, 0x61, 0x02, 0x02, 0x41, 0x42, 0xCC], 0, timestamp) ==
      [AncPacket(0x60, 0x60, 1, [0x05], 0xAA, timestamp, None, None)]
  {
    var p: seq<Byte> := [0x60, 0x60, 0x01, 0x05, 0xAA, 0x61, 0x02, 0x02, 0x41, 0x42, 0xCC];
    assert p[0..] == p;
    assert p[0..][3..4] == [0x05];
    assert p[7..] == [0x02, 0x41, 0x42, 0xCC];
  }

  /** `_parse_st2110_40_payload`. */
  method ParsePayload(payload: seq<Byte>, timestamp: real) returns (packets: seq<AncPacket>)
    ensures packets == ScanFrom(payload, 0, timestamp)
  {
    packets := [];
    var offset: nat := 0;
    while offset < |payload|
      invariant packets + ScanFrom(payload, offset, timestamp) == ScanFrom(payload, 0, timestamp)
      decreases |payload| - offset
    {
      if offset + 4 > |payload| {
        break;
      }
      var anc := ParseAncPacket(payload[offset..], timestamp);
      if anc.Some? {
        packets := packets + [anc.value];
        offset := offset + 6 + anc.value.dataCount;
      } else {
        offset := offset + 1;
      }
    }
  }

  // ---------------------------------------------------------------------------------------
  // Timecode
  // ---------------------------------------------------------------------------------------

  /** Timecode: SMPTE 12M-style fields and the packet's time. */
  datatype Timecode = Timecode(hours: nat, minutes: nat, seconds: nat, frames: nat,
                               dropFrame: bool, timestamp: real)

  /** `_decode_timecode`: None below 4 user bytes; otherwise the low 6, 7, 7 and 6 bits of
    * the first four bytes as frames, seconds, minutes and hours, and bit 6 of the first
    * byte as the drop-frame flag. */
  function DecodeTimecode(a: AncPacket): (r: Option<Timecode>)
    ensures r.None? <==> |a.userData| < 4
    ensures r.Some? ==> (r.value.frames < 64 && r.value.hours < 64 &&
      r.value.seconds < 128 && r.value.minutes < 128 && r.value.timestamp == a.timestamp)
  {
    if |a.userData| < 4 then None
    else
      var ud := a.userData;
      Some(Timecode(ud[3] % 0x40, ud[2] % 0x80, ud[1] % 0x80, ud[0] % 0x40,
                    (ud[0] / 0x40) % 2 == 1, a.timestamp))
  }

  /** The four bytes that carry a timecode whose fields fit their bit widths. */
  function TimecodeBytes(tc: Timecode): (r: seq<Byte>)
    requires tc.frames < 64 && tc.hours < 64 && tc.seconds < 128 && tc.minutes < 128
    ensures |r| == 4
  {
    [tc.frames + (if tc.dropFrame then 0x40 else 0), tc.seconds, tc.minutes, tc.hours]
  }

  /** Decoding the bytes of a timecode gives it back, whatever user bytes follow. */
  lemma TimecodeRoundTrip(tc: Timecode, a: AncPacket)
    requires tc.frames < 64 && tc.hours < 64 && tc.seconds < 128 && tc.minutes < 128
    requires |a.userData| >= 4 && a.userData[..4] == TimecodeBytes(tc) && a.timestamp == tc.timestamp
    ensures DecodeTimecode(a) == Some(tc)
  {
    assert a.userData[0] == TimecodeBytes(tc)[0];
  }

  /** Decoding keeps exactly the low 7, 7, 7 and 6 bits of the four bytes: encoding the
    * decoded timecode gives the masked bytes. */
  lemma TimecodeKeepsMaskedBits(a: AncPacket)
    requires |a.userData| >= 4
    ensures var tc := DecodeTimecode(a).value;
      TimecodeBytes(tc) == [a.userData[0] % 0x80, a.userData[1] % 0x80, a.userData[2] % 0x80,
                            a.userData[3] % 0x40]
  {
  }

  /** `Timecode.__str__`: `HH:MM:SS`, then `;` for drop frame or `:` otherwise, then `FF`. */
  function TimecodeString(tc: Timecode): (r: string)
    ensures |r| >= 11
  {
    ZeroPad2(tc.hours) + ":" + ZeroPad2(tc.minutes) + ":" + ZeroPad2(tc.seconds) +
    (if tc.dropFrame then ";" else ":") + ZeroPad2(tc.frames)
  }

  /** With every field below 100 the string is 11 characters whose digit pairs read back
    * as hours, minutes, seconds and frames, and whose last separator tells drop frame. */
  lemma TimecodeStringFields(tc: Timecode)
    requires tc.hours < 100 && tc.minutes < 100 && tc.seconds < 100 && tc.frames < 100
    ensures var r := TimecodeString(tc);
      |r| == 11 && r[2] == ':' && r[5] == ':' && (r[8] == ';' <==> tc.dropFrame) &&
      (r[8] == ':' <==> !tc.dropFrame) &&
      DecimalValue(r[0..2]) == tc.hours && DecimalValue(r[3..5]) == tc.minutes &&
      DecimalValue(r[6..8]) == tc.seconds && DecimalValue(r[9..11]) == tc.frames
  {
    FieldLayout(ZeroPad2(tc.hours), ZeroPad2(tc.minutes), ZeroPad2(tc.seconds),
                if tc.dropFrame then ";" else ":", ZeroPad2(tc.frames));
  }

  /** Where the pieces of `HH:MM:SS?FF` sit when each field has two characters. */
  lemma FieldLayout(h: string, m: string, s: string, sep: string, f: string)
    requires |h| == 2 && |m| == 2 && |s| == 2 && |sep| == 1 && |f| == 2
    ensures var r := h + ":" + m + ":" + s + sep + f;
      |r| == 11 && r[0..2] == h && r[2] == ':' && r[3..5] == m && r[5] == ':' &&
      r[6..8] == s && r[8] == sep[0] && r[9..11] == f
  {
    var r := h + ":" + m + ":" + s + sep + f;
    assert r[0..2] == h;
    assert r[3..5] == m;
    assert r[6..8] == s;
    assert r[9..11] == f;
  }

  /** User bytes 1, 2, 3, 4 read as 04:03:02:01 without drop frame. */
  lemma TimecodeExample(a: AncPacket)
    requires a.userData == [1, 2, 3, 4]
    ensures DecodeTimecode(a) == Some(Timecode(4, 3, 2, 1, false, a.timestamp))
    ensures TimecodeString(DecodeTimecode(a).value) == "04:03:02:01"
  {
    assert ZeroPad2(4) == "04" && ZeroPad2(3) == "03" && ZeroPad2(2) == "02" && ZeroPad2(1) == "01";
  }

  // ---------------------------------------------------------------------------------------
  // Captions
  // ---------------------------------------------------------------------------------------

  /** Caption: text with its packet's time, channel and standard. */
  datatype Caption = Caption(timestamp: real, text: string, channel: int, kind: string)

  /** `get_caption_text`: the caption texts joined in order. */
  function CaptionText(captions: seq<Caption>): (r: string)
  {
    if captions == [] then "" else CaptionText(captions[..|captions| - 1]) + captions[|captions| - 1].text
  }

  /** Appending a caption appends its text. */
  lemma CaptionTextSnoc(xs: seq<Caption>, c: Caption)
    ensures CaptionText(xs + [c]) == CaptionText(xs) + c.text
  {
    assert (xs + [c])[..|xs + [c]| - 1] == xs;
  }

  /** Joining texts distributes over concatenation of caption lists. */
  lemma {:induction false} CaptionTextAppend(xs: seq<Caption>, ys: seq<Caption>)
    ensures CaptionText(xs + ys) == CaptionText(xs) + CaptionText(ys)
    decreases |ys|
  {
    if ys != [] {
      var init, last := ys[..|ys| - 1], ys[|ys| - 1];
      assert ys == init + [last];
      assert xs + ys == (xs + init) + [last];
      CaptionTextSnoc(xs + init, last);
      CaptionTextSnoc(init, last);
      CaptionTextAppend(xs, init);
    } else {
      assert xs + ys == xs;
    }
  }

  /** `b & 0x7F` for an octet: the octet without its top bit. */
  function Mask7(b: Byte): (r: int)
    ensures r == b % 0x80 && 0 <= r < 0x80
    ensures b < 0x80 ==> r == b
  {
    if b >= 0x80 then b - 0x80 else b
  }

  /** The caption of CEA-608 byte pair `k`: both bytes masked to 7 bits; nothing for a null
    * pair or when either byte is a control code, else their two characters. */
  function PairCaption(userData: seq<Byte>, k: nat, timestamp: real): Option<Caption>
    requires 2 * k + 1 < |userData|
  {
    var b1 := Mask7(userData[2 * k]);
    var b2 := Mask7(userData[2 * k + 1]);
    if b1 == 0 && b2 == 0 then None
    else if b1 >= 0x20 && b2 >= 0x20 then
      Some(Caption(timestamp, [b1 as char, b2 as char], 1, "CEA-608"))
    else None
  }

  /** Whether both masked bytes of pair `k` are printable. */
  predicate PrintablePair(userData: seq<Byte>, k: nat)
    requires 2 * k + 1 < |userData|
  {
    Mask7(userData[2 * k]) >= 0x20 && Mask7(userData[2 * k + 1]) >= 0x20
  }

  /** How many of the first `n` pairs are printable. */
  function PrintablePairCount(userData: seq<Byte>, n: nat): nat
    requires 2 * n <= |userData|
  {
    if n == 0 then 0
    else PrintablePairCount(userData, n - 1) + (if PrintablePair(userData, n - 1) then 1 else 0)
  }

  /** The CEA-608 captions of the first `n` byte pairs: one two-character caption per
    * printable pair, so at most `n`, each with characters 0x20..0x7F. */
  function Cea608Upto(userData: seq<Byte>, timestamp: real, n: nat): seq<Caption>
    requires 2 * n <= |userData|
  {
    if n == 0 then []
    else
      match PairCaption(userData, n - 1, timestamp)
      case Some(c) => Cea608Upto(userData, timestamp, n - 1) + [c]
      case None => Cea608Upto(userData, timestamp, n - 1)
  }

  /** What the captions of the first `n` pairs are like. */
  lemma {:induction false} Cea608UptoFacts(userData: seq<Byte>, timestamp: real, n: nat)
    requires 2 * n <= |userData|
    ensures |Cea608Upto(userData, timestamp, n)| == PrintablePairCount(userData, n) <= n
    ensures forall c :: c in Cea608Upto(userData, timestamp, n) ==>
      c.timestamp == timestamp && c.channel == 1 && c.kind == "CEA-608" &&
      |c.text| == 2 && 0x20 <= c.text[0] as int < 0x80 && 0x20 <= c.text[1] as int < 0x80
  {
    if n > 0 {
      Cea608UptoFacts(userData, timestamp, n - 1);
    }
  }

  /** `_decode_cea608`: the pairs at even indices `i` with `i + 1` inside the user data. */
  function Cea608(a: AncPacket): seq<Caption>
  {
    Cea608Upto(a.userData, a.timestamp, |a.userData| / 2)
  }

  /** At most one caption per pair, and a trailing odd byte is ignored. */
  lemma Cea608Facts(a: AncPacket, extra: Byte)
    ensures |Cea608(a)| <= |a.userData| / 2
    ensures |a.userData| % 2 == 0 ==>
      Cea608(a.(userData := a.userData + [extra])) == Cea608(a)
  {
    Cea608UptoFacts(a.userData, a.timestamp, |a.userData| / 2);
    if |a.userData| % 2 == 0 {
      Cea608UptoPrefix(a.userData, a.userData + [extra], a.timestamp, |a.userData| / 2);
    }
  }

  /** The captions of the first `n` pairs only look at the first `2n` bytes. */
  lemma {:induction false} Cea608UptoPrefix(u: seq<Byte>, v: seq<Byte>, timestamp: real, n: nat)
    requires 2 * n <= |u| && 2 * n <= |v| && u[..2 * n] == v[..2 * n]
    ensures Cea608Upto(u, timestamp, n) == Cea608Upto(v, timestamp, n)
  {
    if n > 0 {
      assert u[2 * n - 2] == u[..2 * n][2 * n - 2] == v[2 * n - 2];
      assert u[2 * n - 1] == u[..2 * n][2 * n - 1] == v[2 * n - 1];
      assert u[..2 * (n - 1)] == u[..2 * n][..2 * (n - 1)];
      assert v[..2 * (n - 1)] == v[..2 * n][..2 * (n - 1)];
      Cea608UptoPrefix(u, v, timestamp, n - 1);
    }
  }

  /** Bytes of a string of 7-bit characters. */
  function AsciiBytes(s: string): (r: seq<Byte>)
    requires forall i :: 0 <= i < |s| ==> s[i] as int < 0x80
    ensures |r| == |s| && forall i :: 0 <= i < |s| ==> r[i] == s[i] as int
  {
    if s == [] then [] else AsciiBytes(s[..|s| - 1]) + [s[|s| - 1] as int]
  }

  /** A text CEA-608 can carry as printable pairs: characters 0x20..0x7F. */
  predicate Printable608Text(s: string)
  {
    forall i :: 0 <= i < |s| ==> 0x20 <= s[i] as int < 0x80
  }

  /** The caption of pair `k` of a printable text: its two characters. */
  lemma AsciiPair(s: string, timestamp: real, k: nat)
    requires Printable608Text(s)
    requires 2 * k + 1 < |s|
    ensures PairCaption(AsciiBytes(s), k, timestamp) ==
      Some(Caption(timestamp, [s[2 * k], s[2 * k + 1]], 1, "CEA-608"))
  {
    var u := AsciiBytes(s);
    var c1, c2 := s[2 * k], s[2 * k + 1];
    assert u[2 * k] == c1 as int && u[2 * k + 1] == c2 as int;
    assert 0x20 <= c1 as int < 0x80 && 0x20 <= c2 as int < 0x80;
    assert (c1 as int) as char == c1 && (c2 as int) as char == c2;
  }

  /** A prefix two characters longer ends with those two characters. */
  lemma PrefixPair(s: string, m: nat)
    requires m + 2 <= |s|
    ensures s[..m + 2] == s[..m] + [s[m], s[m + 1]]
  {
  }

  /** One more pair of a printable text adds one caption holding its two characters. */
  lemma Cea608Snoc(s: string, timestamp: real, n: nat)
    requires Printable608Text(s)
    requires 0 < n && 2 * n <= |s|
    ensures Cea608Upto(AsciiBytes(s), timestamp, n) ==
      Cea608Upto(AsciiBytes(s), timestamp, n - 1) + [Caption(timestamp, [s[2 * n - 2], s[2 * n - 1]], 1, "CEA-608")]
  {
    AsciiPair(s, timestamp, n - 1);
  }

  /** The inductive step of the round trip below: one more pair adds its two characters. */
  lemma Cea608TextStep(s: string, timestamp: real, n: nat)
    requires Printable608Text(s)
    requires 0 < n && 2 * n <= |s|
    requires CaptionText(Cea608Upto(AsciiBytes(s), timestamp, n - 1)) == s[..2 * (n - 1)]
    ensures CaptionText(Cea608Upto(AsciiBytes(s), timestamp, n)) == s[..2 * n]
  {
    var m := 2 * n - 2;
    var prev := Cea608Upto(AsciiBytes(s), timestamp, n - 1);
    Cea608Snoc(s, timestamp, n);
    CaptionTextSnoc(prev, Caption(timestamp, [s[m], s[m + 1]], 1, "CEA-608"));
    PrefixPair(s, m);
  }

  /** An even-length text of printable characters, sent as CEA-608 pairs, comes back as
    * that text, one caption per pair. */
  lemma {:induction false} Cea608RoundTrip(s: string, timestamp: real, n: nat)
    requires Printable608Text(s)
    requires 2 * n <= |s|
    ensures CaptionText(Cea608Upto(AsciiBytes(s), timestamp, n)) == s[..2 * n]
  {
    if n > 0 {
      Cea608RoundTrip(s, timestamp, n - 1);
      Cea608TextStep(s, timestamp, n);
    } else {
      assert Cea608Upto(AsciiBytes(s), timestamp, n) == [];
      assert s[..0] == [];
    }
  }

  /** Every pair of a printable text is printable, so each gives one caption. */
  lemma Cea608CountOfPrintable(s: string, timestamp: real, n: nat)
    requires Printable608Text(s)
    requires 2 * n <= |s|
    ensures |Cea608Upto(AsciiBytes(s), timestamp, n)| == n
  {
    Cea608UptoFacts(AsciiBytes(s), timestamp, n);
    PrintablePairsOfText(s, n);
  }

  lemma {:induction false} PrintablePairsOfText(s: string, n: nat)
    requires Printable608Text(s)
    requires 2 * n <= |s|
    ensures PrintablePairCount(AsciiBytes(s), n) == n
  {
    if n > 0 {
      PrintablePairsOfText(s, n - 1);
      var u := AsciiBytes(s);
      assert u[2 * n - 2] == s[2 * n - 2] as int && u[2 * n - 1] == s[2 * n - 1] as int;
      assert PrintablePair(u, n - 1);
    }
  }

  /** The characters CEA-708 decoding keeps: user bytes 0x20..0x7E, in order. */
  function PrintableText(bytes: seq<Byte>): string
  {
    if bytes == [] then ""
    else
      var b := bytes[|bytes| - 1];
      PrintableText(bytes[..|bytes| - 1]) + (if 0x20 <= b <= 0x7E then [b as char] else "")
  }

  /** The CEA-708 captions of the first `n` user bytes. */
  function Cea708Upto(userData: seq<Byte>, timestamp: real, n: nat): seq<Caption>
    requires n <= |userData|
  {
    if n == 0 then []
    else
      var prev := Cea708Upto(userData, timestamp, n - 1);
      var b := userData[n - 1];
      if 0x20 <= b <= 0x7E then prev + [Caption(timestamp, [b as char], 1, "CEA-708")] else prev
  }

  /** One one-character caption per printable byte, in order, so that the texts join to
    * the printable characters of the first `n` bytes. */
  lemma {:induction false} Cea708UptoFacts(userData: seq<Byte>, timestamp: real, n: nat)
    requires n <= |userData|
    ensures CaptionText(Cea708Upto(userData, timestamp, n)) == PrintableText(userData[..n])
    ensures forall c :: c in Cea708Upto(userData, timestamp, n) ==>
      c.timestamp == timestamp && c.channel == 1 && c.kind == "CEA-708" && |c.text| == 1
  {
    if n > 0 {
      Cea708UptoFacts(userData, timestamp, n - 1);
      assert userData[..n][..n - 1] == userData[..n - 1];
      var prev := Cea708Upto(userData, timestamp, n - 1);
      var b := userData[n - 1];
      if 0x20 <= b <= 0x7E {
        CaptionTextSnoc(prev, Caption(timestamp, [b as char], 1, "CEA-708"));
      }
    }
  }

  /** `_decode_cea708`. */
  function Cea708(a: AncPacket): seq<Caption>
  {
    Cea708Upto(a.userData, a.timestamp, |a.userData|)
  }

  /** A text of printable ASCII characters sent as CEA-708 bytes comes back whole. */
  lemma {:induction false} Cea708RoundTrip(s: string, a: AncPacket)
    requires forall i :: 0 <= i < |s| ==> 0x20 <= s[i] as int <= 0x7E
    requires a.userData == AsciiBytes(s)
    ensures CaptionText(Cea708(a)) == s
  {
    assert a.userData[..|a.userData|] == a.userData;
    Cea708UptoFacts(a.userData, a.timestamp, |a.userData|);
    PrintableTextOfAscii(s);
  }

  lemma {:induction false} PrintableTextOfAscii(s: string)
    requires forall i :: 0 <= i < |s| ==> 0x20 <= s[i] as int <= 0x7E
    ensures PrintableText(AsciiBytes(s)) == s
  {
    if s != [] {
      var u := AsciiBytes(s);
      assert u[..|u| - 1] == AsciiBytes(s[..|s| - 1]);
      PrintableTextOfAscii(s[..|s| - 1]);
      assert s == s[..|s| - 1] + [s[|s| - 1]];
    }
  }

  /** `_decode_captions`: CEA-608 for SDID 2, CEA-708 for SDID 1, nothing otherwise. */
  function DecodeCaptions(a: AncPacket): (r: seq<Caption>)
    ensures a.sdid != 1 && a.sdid != 2 ==> r == []
    ensures forall c :: c in r ==>
      c.timestamp == a.timestamp && c.kind == (if a.sdid == 2 then "CEA-608" else "CEA-708")
  {
    if a.sdid == 0x02 then
      Cea608UptoFacts(a.userData, a.timestamp, |a.userData| / 2);
      Cea608(a)
    else if a.sdid == 0x01 then
      Cea708UptoFacts(a.userData, a.timestamp, |a.userData|);
      Cea708(a)
    else []
  }

  /** `_decode_cea608` as the loop over even indices. */
  method DecodeCea608(a: AncPacket) returns (captions: seq<Caption>)
    ensures captions == Cea608(a)
  {
    captions := [];
    var ud := a.userData;
    var i := 0;
    while i < |ud| - 1
      invariant 0 <= i <= |ud| && i % 2 == 0
      invariant captions == Cea608Upto(ud, a.timestamp, i / 2)
    {
      var b1 := Mask7(ud[i]);
      var b2 := Mask7(ud[i + 1]);
      if b1 == 0 && b2 == 0 {
        i := i + 2;
        continue;
      }
      if b1 >= 0x20 && b2 >= 0x20 {
        captions := captions + [Caption(a.timestamp, [b1 as char, b2 as char], 1, "CEA-608")];
      }
      i := i + 2;
    }
    assert i / 2 == |ud| / 2;
  }

  /** `_decode_cea708` as the loop over the user bytes. */
  method DecodeCea708(a: AncPacket) returns (captions: seq<Caption>)
    ensures captions == Cea708(a)
  {
    captions := [];
    var ud := a.userData;
    for i := 0 to |ud|
      invariant captions == Cea708Upto(ud, a.timestamp, i)
    {
      var b: int := ud[i];
      if 0x20 <= b <= 0x7E {
        captions := captions + [Caption(a.timestamp, [b as char], 1, "CEA-708")];
      }
    }
  }

  /** `_decode_captions`. */
  method DecodeCaptionsOf(a: AncPacket) returns (captions: seq<Caption>)
    ensures captions == DecodeCaptions(a)
  {
    captions := [];
    if a.sdid == 0x02 {
      var found := DecodeCea608(a);
      captions := captions + found;
    } else if a.sdid == 0x01 {
      var found := DecodeCea708(a);
      captions := captions + found;
    }
  }

  // ---------------------------------------------------------------------------------------
  // What `decode` collects
  // ---------------------------------------------------------------------------------------

  /** The ANC packets of a list of RTP packets: each payload scanned with its arrival time. */
  function AncOf(packets: seq<RtpPacketInfo>): seq<AncPacket>
  {
    if packets == [] then []
    else
      var last := packets[|packets| - 1];
      AncOf(packets[..|packets| - 1]) + ScanFrom(last.payload, 0, last.arrivalTime)
  }

  /** Every ANC packet decoded is well formed and carries the arrival time of an RTP packet. */
  lemma {:induction false} AncOfFacts(packets: seq<RtpPacketInfo>)
    ensures forall a :: a in AncOf(packets) ==>
      WellFormed(a) && exists p :: p in packets && a.timestamp == p.arrivalTime
  {
    if packets != [] {
      AncOfFacts(packets[..|packets| - 1]);
      var last := packets[|packets| - 1];
      ScanSitesParse(last.payload, 0, last.arrivalTime);
      forall a | a in AncOf(packets)
        ensures WellFormed(a) && exists p :: p in packets && a.timestamp == p.arrivalTime
      {
        if a in AncOf(packets[..|packets| - 1]) {
          var p :| p in packets[..|packets| - 1] && a.timestamp == p.arrivalTime;
          assert p in packets;
        } else {
          assert a in ScanFrom(last.payload, 0, last.arrivalTime);
          assert last in packets;
        }
      }
    }
  }

  /** Whether a packet is SMPTE 12M timecode (0x60/0x60). */
  predicate IsTimecodePacket(a: AncPacket)
  {
    a.did == 0x60 && a.sdid == 0x60
  }

  /** Whether a packet carries CEA-608 or CEA-708 captions (0x61 with SDID 1 or 2). */
  predicate IsCaptionPacket(a: AncPacket)
  {
    a.did == 0x61 && (a.sdid == 0x01 || a.sdid == 0x02)
  }

  /** The timecode one packet adds. */
  function TimecodeOf(a: AncPacket): seq<Timecode>
  {
    if IsTimecodePacket(a) && DecodeTimecode(a).Some? then [DecodeTimecode(a).value] else []
  }

  /** The captions one packet adds. */
  function CaptionsFrom(a: AncPacket): seq<Caption>
  {
    if IsTimecodePacket(a) then [] else if IsCaptionPacket(a) then DecodeCaptions(a) else []
  }

  /** The timecodes of a packet list, in order. */
  function TimecodesOf(ancs: seq<AncPacket>): seq<Timecode>
  {
    if ancs == [] then [] else TimecodesOf(ancs[..|ancs| - 1]) + TimecodeOf(ancs[|ancs| - 1])
  }

  /** The captions of a packet list, in order. */
  function CaptionsOf(ancs: seq<AncPacket>): seq<Caption>
  {
    if ancs == [] then [] else CaptionsOf(ancs[..|ancs| - 1]) + CaptionsFrom(ancs[|ancs| - 1])
  }

  /** Taking one more element of `ys` appends it. */
  lemma PrefixSnoc(xs: seq<AncPacket>, ys: seq<AncPacket>, j: nat)
    requires j < |ys|
    ensures xs + ys[..j + 1] == (xs + ys[..j]) + [ys[j]]
  {
    assert ys[..j + 1] == ys[..j] + [ys[j]];
  }

  /** One more packet adds what it carries. */
  lemma ExtractStep(ancs: seq<AncPacket>, a: AncPacket)
    ensures TimecodesOf(ancs + [a]) == TimecodesOf(ancs) + TimecodeOf(a)
    ensures CaptionsOf(ancs + [a]) == CaptionsOf(ancs) + CaptionsFrom(a)
  {
    assert (ancs + [a])[..|ancs|] == ancs;
  }

  lemma {:induction false} TimecodesAppend(xs: seq<AncPacket>, ys: seq<AncPacket>)
    ensures TimecodesOf(xs + ys) == TimecodesOf(xs) + TimecodesOf(ys)
    decreases |ys|
  {
    if ys != [] {
      var init, last := ys[..|ys| - 1], ys[|ys| - 1];
      assert (xs + ys)[..|xs + ys| - 1] == xs + init;
      assert TimecodesOf(xs + ys) == TimecodesOf(xs + init) + TimecodeOf(last);
      assert TimecodesOf(ys) == TimecodesOf(init) + TimecodeOf(last);
      TimecodesAppend(xs, init);
    } else {
      assert xs + ys == xs;
    }
  }

  lemma {:induction false} CaptionsAppend(xs: seq<AncPacket>, ys: seq<AncPacket>)
    ensures CaptionsOf(xs + ys) == CaptionsOf(xs) + CaptionsOf(ys)
    decreases |ys|
  {
    if ys != [] {
      var init, last := ys[..|ys| - 1], ys[|ys| - 1];
      assert (xs + ys)[..|xs + ys| - 1] == xs + init;
      assert CaptionsOf(xs + ys) == CaptionsOf(xs + init) + CaptionsFrom(last);
      assert CaptionsOf(ys) == CaptionsOf(init) + CaptionsFrom(last);
      CaptionsAppend(xs, init);
    } else {
      assert xs + ys == xs;
    }
  }

  /** Timecodes come only from timecode packets with at least four user bytes, and captions
    * only from caption packets. */
  lemma {:induction false} ExtractedProvenance(ancs: seq<AncPacket>)
    ensures forall tc :: tc in TimecodesOf(ancs) ==>
      exists a :: a in ancs && IsTimecodePacket(a) && DecodeTimecode(a) == Some(tc)
    ensures forall c :: c in CaptionsOf(ancs) ==>
      exists a :: a in ancs && IsCaptionPacket(a) && c in DecodeCaptions(a)
  {
    if ancs != [] {
      var prefix := ancs[..|ancs| - 1];
      var last := ancs[|ancs| - 1];
      ExtractedProvenance(prefix);
      forall tc | tc in TimecodesOf(ancs)
        ensures exists a :: a in ancs && IsTimecodePacket(a) && DecodeTimecode(a) == Some(tc)
      {
        if tc in TimecodesOf(prefix) {
          var a :| a in prefix && IsTimecodePacket(a) && DecodeTimecode(a) == Some(tc);
          assert a in ancs;
        } else {
          assert last in ancs;
        }
      }
      forall c | c in CaptionsOf(ancs)
        ensures exists a :: a in ancs && IsCaptionPacket(a) && c in DecodeCaptions(a)
      {
        if c in CaptionsOf(prefix) {
          var a :| a in prefix && IsCaptionPacket(a) && c in DecodeCaptions(a);
          assert a in ancs;
        } else {
          assert last in ancs;
        }
      }
    }
  }

  // ---------------------------------------------------------------------------------------
  // The summary
  // ---------------------------------------------------------------------------------------

  /** One more under `key`; a new key starts at one. */
  function Bump(m: map<string, nat>, key: string): (r: map<string, nat>)
    ensures r.Keys == m.Keys + {key}
    ensures r[key] == (if key in m then m[key] else 0) + 1
    ensures forall k :: k in m && k != key ==> r[k] == m[k]
  {
    m[key := (if key in m then m[key] else 0) + 1]
  }

  /** `get_anc_summary` as a function: one count per summary key. */
  function SummaryOf(ancs: seq<AncPacket>): map<string, nat>
  {
    if ancs == [] then map[]
    else
      var s := SummaryOf(ancs[..|ancs| - 1]);
      var key := SummaryKey(ancs[|ancs| - 1]);
      Bump(s, key)
  }

  /** How many packets have summary key `key`. */
  function KeyCount(ancs: seq<AncPacket>, key: string): nat
  {
    if ancs == [] then 0
    else KeyCount(ancs[..|ancs| - 1], key) + (if SummaryKey(ancs[|ancs| - 1]) == key then 1 else 0)
  }

  /** How many packets have the given DID and SDID. */
  function PairCount(ancs: seq<AncPacket>, did: Byte, sdid: Byte): nat
  {
    if ancs == [] then 0
    else
      var last := ancs[|ancs| - 1];
      PairCount(ancs[..|ancs| - 1], did, sdid) + (if last.did == did && last.sdid == sdid then 1 else 0)
  }

  /** Counting one more packet bumps its key. */
  lemma SummarySnoc(ancs: seq<AncPacket>, i: nat)
    requires i < |ancs|
    ensures SummaryOf(ancs[..i + 1]) == Bump(SummaryOf(ancs[..i]), SummaryKey(ancs[i]))
  {
    assert ancs[..i + 1][..i] == ancs[..i];
  }

  /** The summary has exactly the keys of the packets, each with its number of packets. */
  lemma {:induction false} SummaryCounts(ancs: seq<AncPacket>)
    ensures forall key :: key in SummaryOf(ancs) <==> KeyCount(ancs, key) > 0
    ensures forall key :: key in SummaryOf(ancs) ==> SummaryOf(ancs)[key] == KeyCount(ancs, key)
  {
    if ancs != [] {
      SummaryCounts(ancs[..|ancs| - 1]);
    }
  }

  /** The count under a packet's key is the number of packets with its DID and SDID. */
  lemma {:induction false} KeyCountIsPairCount(ancs: seq<AncPacket>, a: AncPacket)
    ensures KeyCount(ancs, SummaryKey(a)) == PairCount(ancs, a.did, a.sdid)
  {
    if ancs != [] {
      var last := ancs[|ancs| - 1];
      KeyCountIsPairCount(ancs[..|ancs| - 1], a);
      if SummaryKey(last) == SummaryKey(a) {
        SummaryKeyInjective(last, a);
      }
    }
  }

  /** The sum of a map's counts. */
  ghost function MapSum(m: map<string, nat>): nat
    decreases |m.Keys|
  {
    if m == map[] then 0
    else
      var k :| k in m;
      m[k] + MapSum(m - {k})
  }

  /** The sum does not depend on which key is taken out first. */
  lemma {:induction false} MapSumRemove(m: map<string, nat>, k: string)
    requires k in m
    ensures MapSum(m) == m[k] + MapSum(m - {k})
    decreases |m.Keys|
  {
    var j :| j in m && MapSum(m) == m[j] + MapSum(m - {j});
    if j != k {
      assert |(m - {j}).Keys| < |m.Keys| by { assert (m - {j}).Keys < m.Keys; }
      assert |(m - {k}).Keys| < |m.Keys| by { assert (m - {k}).Keys < m.Keys; }
      MapSumRemove(m - {j}, k);
      MapSumRemove(m - {k}, j);
      assert m - {j} - {k} == m - {k} - {j};
    }
  }

  /** Adding one to a key's count (a new key starting at one) adds one to the sum. */
  lemma MapSumIncrement(m: map<string, nat>, k: string)
    ensures MapSum(Bump(m, k)) == MapSum(m) + 1
  {
    var m' := Bump(m, k);
    MapSumRemove(m', k);
    if k in m {
      MapSumRemove(m, k);
      assert m' - {k} == m - {k};
    } else {
      assert m' - {k} == m;
    }
  }

  /** The summary's counts add up to the number of ANC packets. */
  lemma {:induction false} SummaryTotal(ancs: seq<AncPacket>)
    ensures MapSum(SummaryOf(ancs)) == |ancs|
  {
    if ancs != [] {
      var init := ancs[..|ancs| - 1];
      SummaryTotal(init);
      MapSumIncrement(SummaryOf(init), SummaryKey(ancs[|ancs| - 1]));
    }
  }

  /** The loop of `get_anc_summary`: count the packets under their "type (DID/SDID)" keys. */
  method CountSummary(ancs: seq<AncPacket>) returns (summary: map<string, nat>)
    ensures summary == SummaryOf(ancs)
  {
    summary := map[];
    for i := 0 to |ancs|
      invariant summary == SummaryOf(ancs[..i])
    {
      var key := SummaryKey(ancs[i]);
      SummarySnoc(ancs, i);
      summary := summary[key := (if key in summary then summary[key] else 0) + 1];
    }
    assert ancs[..|ancs|] == ancs;
  }

  // ---------------------------------------------------------------------------------------
  // The decoder
  // ---------------------------------------------------------------------------------------

  /** ST211040Decoder: the ANC packets, timecodes and captions of the last decode. */
  class St2110AncDecoder {
    var ancPackets: seq<AncPacket>
    var timecodes: seq<Timecode>
    var captions: seq<Caption>

    constructor()
      ensures ancPackets == [] && timecodes == [] && captions == []
    {
      ancPackets := [];
      timecodes := [];
      captions := [];
    }

    /** The body of `decode`'s inner loop: a timecode packet adds its timecode when it has
      * one, a caption packet adds its captions. */
    method Extract(anc: AncPacket)
      modifies this
      ensures ancPackets == old(ancPackets)
      ensures timecodes == old(timecodes) + TimecodeOf(anc)
      ensures captions == old(captions) + CaptionsFrom(anc)
    {
      if anc.did == 0x60 && anc.sdid == 0x60 {
        var tc := DecodeTimecode(anc);
        if tc.Some? {
          timecodes := timecodes + [tc.value];
        }
      } else if anc.did == 0x61 && (anc.sdid == 0x01 || anc.sdid == 0x02) {
        var found := DecodeCaptionsOf(anc);
        captions := captions + found;
      }
    }

    /** One pass of `decode`'s outer loop: keep the packets of one payload and extract what
      * each of them carries, keeping the lists in step. */
    method Absorb(ancs: seq<AncPacket>)
      requires timecodes == TimecodesOf(ancPackets) && captions == CaptionsOf(ancPackets)
      modifies this
      ensures ancPackets == old(ancPackets) + ancs
      ensures timecodes == TimecodesOf(ancPackets) && captions == CaptionsOf(ancPackets)
    {
      var before := ancPackets;
      ancPackets := ancPackets + ancs;
      assert before + ancs[..0] == before;
      for j := 0 to |ancs|
        invariant ancPackets == before + ancs
        invariant timecodes == TimecodesOf(before + ancs[..j])
        invariant captions == CaptionsOf(before + ancs[..j])
      {
        PrefixSnoc(before, ancs, j);
        ExtractStep(before + ancs[..j], ancs[j]);
        Extract(ancs[j]);
      }
      assert ancs[..|ancs|] == ancs;
    }

    /** `decode`: clear the three lists, then scan each RTP payload with its arrival time,
      * keeping every ANC packet and the timecodes and captions they carry. */
    method Decode(packets: seq<RtpPacketInfo>, streamInfo: RtpStreamInfo) returns (r: seq<AncPacket>)
      modifies this
      ensures ancPackets == AncOf(packets) && r == ancPackets
      ensures timecodes == TimecodesOf(ancPackets) && captions == CaptionsOf(ancPackets)
    {
      ancPackets := [];
      timecodes := [];
      captions := [];
      for k := 0 to |packets|
        invariant ancPackets == AncOf(packets[..k])
        invariant timecodes == TimecodesOf(ancPackets) && captions == CaptionsOf(ancPackets)
      {
        var rtpPacket := packets[k];
        var ancs := ParsePayload(rtpPacket.payload, rtpPacket.arrivalTime);
        assert packets[..k + 1][..k] == packets[..k];
        Absorb(ancs);
      }
      assert packets[..|packets|] == packets;
      r := ancPackets;
    }

    /** `get_anc_summary`. */
    method GetAncSummary() returns (summary: map<string, nat>)
      ensures summary == SummaryOf(ancPackets)
    {
      summary := CountSummary(ancPackets);
    }

    /** `get_timecode_range`: nothing without timecodes, otherwise the first and the last. */
    function GetTimecodeRange(): (r: Option<(Timecode, Timecode)>)
      reads this
      ensures r.None? <==> timecodes == []
      ensures r.Some? ==> r.value.0 == timecodes[0] && r.value.1 == timecodes[|timecodes| - 1]
    {
      if timecodes == [] then None else Some((timecodes[0], timecodes[|timecodes| - 1]))
    }

    /** `get_caption_text`: the captions' texts joined in order. */
    method GetCaptionText() returns (text: string)
      ensures text == CaptionText(captions)
    {
      text := "";
      for i := 0 to |captions|
        invariant text == CaptionText(captions[..i])
      {
        assert captions[..i + 1][..i] == captions[..i];
        text := text + captions[i].text;
      }
      assert captions[..|captions|] == captions;
    }
  }
}
