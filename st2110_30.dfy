/** ST 2110-30 linear PCM audio: payload concatenation, the 16-, 20- and 24-bit sample
  * decoders, de-interleaving into one row per channel, and parameter detection, after
  * dtk/media/decoders/st2110_30.py. Samples are exact rationals in [-1, 1). */
module St2110Audio {
  import opened Wrappers
  import opened Bytes
  import opened Search
  import opened Arith
  import opened RtpExtractor

  /** AudioStreamParams. */
  datatype AudioStreamParams = AudioStreamParams(sampleRate: nat, bitDepth: nat, channels: nat, encoding: string)

  /** `bytes_per_sample`: whole bytes of the bit depth, so 2 for 20-bit audio. */
  function BytesPerSample(p: AudioStreamParams): nat
  {
    p.bitDepth / 8
  }

  /** `frame_size`: one sample for each channel. */
  function FrameSize(p: AudioStreamParams): nat
  {
    p.channels * BytesPerSample(p)
  }

  /** The ways `_decode_samples` fails: a zero frame size divides by zero, an unknown bit depth
    * is refused, and a sample count the channel count does not divide cannot be reshaped. */
  datatype AudioError = ZeroFrameSize | UnsupportedBitDepth(bitDepth: nat) | ReshapeMismatch

  /** Decoded audio: one row of samples per channel. */
  type Samples = seq<seq<real>>

  // ---------------------------------------------------------------------------
  // Sample formats

  /** A 16-bit big-endian two's-complement sample scaled by 2^-15. */
  function Sample16(b1: Byte, b2: Byte): real
  {
    var v := BE16(b1, b2);
    (if v >= 0x8000 then v - 0x1_0000 else v) as real / 32768.0
  }

  /** A 24-bit big-endian two's-complement sample scaled by 2^-23. */
  function Sample24(b1: Byte, b2: Byte, b3: Byte): real
  {
    var v := b1 * 0x1_0000 + b2 * 0x100 + b3;
    (if (v / 0x80_0000) % 2 == 1 then v - 0x100_0000 else v) as real / 8388608.0
  }

  /** A 20-bit sample in the top 20 bits of a 3-byte container, scaled by 2^-19. */
  function Sample20(b1: Byte, b2: Byte, b3: Byte): real
  {
    var v := b1 * 0x1000 + b2 * 0x10 + b3 / 0x10;
    (if (v / 0x8_0000) % 2 == 1 then v - 0x10_0000 else v) as real / 524288.0
  }

  /** The big-endian bytes of a signed 16-bit value. */
  function Encode16(v: int): (r: seq<Byte>)
    requires -0x8000 <= v < 0x8000
    ensures |r| == 2
  {
    U16Bytes(if v < 0 then v + 0x1_0000 else v)
  }

  /** The big-endian bytes of a signed 24-bit value. */
  function Encode24(v: int): (r: seq<Byte>)
    requires -0x80_0000 <= v < 0x80_0000
    ensures |r| == 3
  {
    var u := if v < 0 then v + 0x100_0000 else v;
    [u / 0x1_0000, (u / 0x100) % 0x100, u % 0x100]
  }

  /** A signed 20-bit value in the top 20 bits of three bytes; `pad` fills the low nibble. */
  function Encode20(v: int, pad: nat): (r: seq<Byte>)
    requires -0x8_0000 <= v < 0x8_0000 && pad < 16
    ensures |r| == 3
  {
    var u := if v < 0 then v + 0x10_0000 else v;
    [u / 0x1000, (u / 0x10) % 0x100, (u % 0x10) * 0x10 + pad]
  }

  lemma Sample16RoundTrip(v: int)
    requires -0x8000 <= v < 0x8000
    ensures Sample16(Encode16(v)[0], Encode16(v)[1]) == v as real / 32768.0
  {
  }

  lemma Sample24RoundTrip(v: int)
    requires -0x80_0000 <= v < 0x80_0000
    ensures Sample24(Encode24(v)[0], Encode24(v)[1], Encode24(v)[2]) == v as real / 8388608.0
  {
    var u := if v < 0 then v + 0x100_0000 else v;
    var b := Encode24(v);
    assert b[0] as int * 0x1_0000 + b[1] as int * 0x100 + b[2] as int == u;
    assert (u / 0x80_0000) % 2 == 1 <==> v < 0;
  }

  lemma Sample20RoundTrip(v: int, pad: nat)
    requires -0x8_0000 <= v < 0x8_0000 && pad < 16
    ensures Sample20(Encode20(v, pad)[0], Encode20(v, pad)[1], Encode20(v, pad)[2]) == v as real / 524288.0
  {
    var u := if v < 0 then v + 0x10_0000 else v;
    var b := Encode20(v, pad);
    assert b[2] / 0x10 == u % 0x10;
    assert b[0] as int * 0x1000 + b[1] as int * 0x10 + b[2] as int / 0x10 == u;
    assert (u / 0x8_0000) % 2 == 1 <==> v < 0;
  }

  /** Every sample lies in [-1, 1); full scale negative is exactly -1, full scale positive one
    * step below 1. */
  lemma SampleRanges(b1: Byte, b2: Byte, b3: Byte)
    ensures -1.0 <= Sample16(b1, b2) < 1.0
    ensures -1.0 <= Sample24(b1, b2, b3) < 1.0
    ensures -1.0 <= Sample20(b1, b2, b3) < 1.0
    ensures Sample16(0x80, 0x00) == -1.0 && Sample16(0x7F, 0xFF) == 1.0 - 1.0 / 32768.0
    ensures Sample24(0x80, 0x00, 0x00) == -1.0 && Sample24(0x7F, 0xFF, 0xFF) == 1.0 - 1.0 / 8388608.0
  {
    Sample16Range(b1, b2);
    Sample24Range(b1, b2, b3);
    Sample20Range(b1, b2, b3);
    FullScale();
  }

  lemma Sample16Range(b1: Byte, b2: Byte)
    ensures -1.0 <= Sample16(b1, b2) < 1.0
  {
    var v: int := BE16(b1, b2);
    ScaledRange(if v >= 0x8000 then v - 0x1_0000 else v, 32768);
  }

  lemma Sample24Range(b1: Byte, b2: Byte, b3: Byte)
    ensures -1.0 <= Sample24(b1, b2, b3) < 1.0
  {
    var v: int := b1 * 0x1_0000 + b2 * 0x100 + b3;
    assert 0 <= v < 0x100_0000;
    assert (v / 0x80_0000) % 2 == 1 <==> v >= 0x80_0000;
    ScaledRange(if (v / 0x80_0000) % 2 == 1 then v - 0x100_0000 else v, 8388608);
  }

  lemma Sample20Range(b1: Byte, b2: Byte, b3: Byte)
    ensures -1.0 <= Sample20(b1, b2, b3) < 1.0
  {
    var v: int := b1 * 0x1000 + b2 * 0x10 + b3 / 0x10;
    assert 0 <= v < 0x10_0000;
    assert (v / 0x8_0000) % 2 == 1 <==> v >= 0x8_0000;
    ScaledRange(if (v / 0x8_0000) % 2 == 1 then v - 0x10_0000 else v, 524288);
  }

  /** A signed value below `half` in magnitude, scaled by `1 / half`, lies in [-1, 1). */
  lemma ScaledRange(v: int, half: int)
    requires half > 0 && -half <= v < half
    ensures -1.0 <= v as real / half as real < 1.0
  {
  }

  lemma FullScale()
    ensures Sample16(0x80, 0x00) == -1.0 && Sample16(0x7F, 0xFF) == 1.0 - 1.0 / 32768.0
    ensures Sample24(0x80, 0x00, 0x00) == -1.0 && Sample24(0x7F, 0xFF, 0xFF) == 1.0 - 1.0 / 8388608.0
  {
    assert BE16(0x80, 0x00) == 0x8000 && BE16(0x7F, 0xFF) == 0x7FFF;
  }

  /** The low nibble of the third byte is padding in the 20-bit format. */
  lemma Sample20IgnoresLowNibble(b1: Byte, b2: Byte, b3: Byte, b3': Byte)
    requires b3 / 16 == b3' / 16
    ensures Sample20(b1, b2, b3) == Sample20(b1, b2, b3')
  {
  }

  // ---------------------------------------------------------------------------
  // Flat sample lists and channel rows

  function Samples16(data: seq<Byte>): (r: seq<real>)
    ensures |r| == |data| / 2
  {
    seq(|data| / 2, i requires 0 <= i < |data| / 2 => Sample16(data[2 * i], data[2 * i + 1]))
  }

  function Samples24(data: seq<Byte>): (r: seq<real>)
    ensures |r| == |data| / 3
  {
    seq(|data| / 3, i requires 0 <= i < |data| / 3 => Sample24(data[3 * i], data[3 * i + 1], data[3 * i + 2]))
  }

  function Samples20(data: seq<Byte>): (r: seq<real>)
    ensures |r| == |data| / 3
  {
    seq(|data| / 3, i requires 0 <= i < |data| / 3 => Sample20(data[3 * i], data[3 * i + 1], data[3 * i + 2]))
  }

  /** `reshape(-1, channels).T` of a flat interleaved list: row `c` holds every sample of
    * channel `c`, so row `c`, column `i` is flat sample `i * channels + c`. */
  function Deinterleave(flat: seq<real>, channels: nat): (rows: Samples)
    requires channels > 0 && |flat| % channels == 0
    ensures |rows| == channels
    ensures forall c :: 0 <= c < channels ==> |rows[c]| == |flat| / channels
  {
    seq(channels, c requires 0 <= c < channels =>
      seq(|flat| / channels, i requires 0 <= i < |flat| / channels =>
        RowMajorBound(i, c, channels, |flat| / channels);
        flat[i * channels + c]))
  }

  /** The interleaved list of channel rows of equal length. */
  function Interleave(rows: Samples, n: nat): (flat: seq<real>)
    requires |rows| > 0 && forall c :: 0 <= c < |rows| ==> |rows[c]| == n
    ensures |flat| == n * |rows|
  {
    seq(n * |rows|, k requires 0 <= k < n * |rows| => InterleavedAt(rows, n, k))
  }

  /** Flat position `k` of the interleaved list: channel `k % channels`, sample `k / channels`. */
  function InterleavedAt(rows: Samples, n: nat, k: nat): real
    requires |rows| > 0 && forall c :: 0 <= c < |rows| ==> |rows[c]| == n
    requires k < n * |rows|
  {
    var ch := |rows|;
    assert k < ch * n;
    RowMajorSplit(k, ch, n);
    rows[k % ch][k / ch]
  }

  lemma DeinterleaveIsChannelMajor(flat: seq<real>, channels: nat, c: nat, i: nat)
    requires channels > 0 && |flat| % channels == 0 && c < channels && i < |flat| / channels
    ensures i * channels + c < |flat| && Deinterleave(flat, channels)[c][i] == flat[i * channels + c]
  {
    RowMajorBound(i, c, channels, |flat| / channels);
  }

  /** Interleaving the channel rows gives the flat list back. */
  lemma InterleaveDeinterleave(flat: seq<real>, channels: nat)
    requires channels > 0 && |flat| % channels == 0
    ensures Interleave(Deinterleave(flat, channels), |flat| / channels) == flat
  {
    var n := |flat| / channels;
    var rows := Deinterleave(flat, channels);
    var back := Interleave(rows, n);
    forall k | 0 <= k < |flat|
      ensures back[k] == flat[k]
    {
      RowMajorSplit(k, channels, n);
      var i, c := k / channels, k % channels;
      assert k == i * channels + c;
      DeinterleaveIsChannelMajor(flat, channels, c, i);
    }
  }

  /** De-interleaving interleaved rows gives the rows back. */
  lemma DeinterleaveInterleave(rows: Samples, n: nat)
    requires |rows| > 0 && forall c :: 0 <= c < |rows| ==> |rows[c]| == n
    ensures |Interleave(rows, n)| % |rows| == 0
    ensures Deinterleave(Interleave(rows, n), |rows|) == rows
  {
    var ch := |rows|;
    var flat := Interleave(rows, n);
    assert |flat| == n * ch;
    RowMajorDivMod(n, 0, ch);
    var back := Deinterleave(flat, ch);
    forall c | 0 <= c < ch
      ensures back[c] == rows[c]
    {
      forall i | 0 <= i < n
        ensures back[c][i] == rows[c][i]
      {
        DeinterleaveIsChannelMajor(flat, ch, c, i);
        RowMajorDivMod(i, c, ch);
      }
    }
  }

  // ---------------------------------------------------------------------------
  // Decoding

  /** The reshape: a channel count that does not divide the sample count is an error. */
  function Reshape(flat: seq<real>, channels: nat): (r: Result<Samples, AudioError>)
    ensures r.Ok? <==> channels > 0 && |flat| % channels == 0
  {
    if channels == 0 || |flat| % channels != 0 then Err(ReshapeMismatch) else Ok(Deinterleave(flat, channels))
  }

  /** The bytes of whole frames at the front of `data`. */
  function ValidData(data: seq<Byte>, frameSize: nat): (r: seq<Byte>)
    requires frameSize > 0
    ensures |r| % frameSize == 0 && |r| <= |data| && |data| - |r| < frameSize
    ensures |r| == (|data| / frameSize) * frameSize
    ensures r == data[..|r|]
  {
    var n := (|data| / frameSize) * frameSize;
    assert |data| == n + |data| % frameSize;
    RowMajorDivMod(|data| / frameSize, 0, frameSize);
    data[..n]
  }

  /** `_decode_samples`. */
  function DecodeSamples(p: AudioStreamParams, data: seq<Byte>): Result<Samples, AudioError>
  {
    if FrameSize(p) == 0 then Err(ZeroFrameSize)
    else
      var valid := ValidData(data, FrameSize(p));
      if p.bitDepth == 16 then Reshape(Samples16(valid), p.channels)
      else if p.bitDepth == 24 then Reshape(Samples24(valid), p.channels)
      else if p.bitDepth == 20 then Reshape(Samples20(valid), p.channels)
      else Err(UnsupportedBitDepth(p.bitDepth))
  }

  /** At 16 and 24 bits a frame holds exactly one sample per channel, so decoding never fails
    * and yields one row per channel with one sample per whole frame of input. */
  lemma DecodeWholeFrames(p: AudioStreamParams, data: seq<Byte>)
    requires p.bitDepth == 16 || p.bitDepth == 24
    requires p.channels > 0
    ensures DecodeSamples(p, data).Ok?
    ensures |DecodeSamples(p, data).value| == p.channels
    ensures forall c :: 0 <= c < p.channels ==> |DecodeSamples(p, data).value[c]| == |data| / FrameSize(p)
  {
    var bps := BytesPerSample(p);
    var fs := FrameSize(p);
    var valid := ValidData(data, fs);
    var nf := |data| / fs;
    var flat := if p.bitDepth == 16 then Samples16(valid) else Samples24(valid);
    WholeFrameSampleCount(nf, p.channels, bps, |valid|);
    assert |flat| == |valid| / bps;
    ReshapeWhole(flat, p.channels, nf);
    assert DecodeSamples(p, data) == Reshape(flat, p.channels);
  }

  /** `frames` whole frames of `channels` samples of `width` bytes make `frames * channels`
    * samples. */
  lemma WholeFrameSampleCount(frames: nat, channels: nat, width: nat, length: nat)
    requires channels > 0 && width > 0 && length == frames * (channels * width)
    ensures length / width == frames * channels
  {
    SampleCount(frames, channels, width);
  }

  lemma ReshapeWhole(flat: seq<real>, channels: nat, frames: nat)
    requires channels > 0 && |flat| == frames * channels
    ensures Reshape(flat, channels).Ok?
    ensures |Reshape(flat, channels).value| == channels
    ensures forall c :: 0 <= c < channels ==> |Reshape(flat, channels).value[c]| == frames
  {
    RowMajorDivMod(frames, 0, channels);
  }

  /** `frames` whole frames of `channels` samples of `width` bytes hold `frames * channels`
    * samples, a multiple of the channel count. */
  lemma SampleCount(frames: nat, channels: nat, width: nat)
    requires channels > 0 && width > 0
    ensures (frames * channels * width) / width == frames * channels
    ensures (frames * channels) % channels == 0 && (frames * channels) / channels == frames
    ensures frames * (channels * width) == frames * channels * width
  {
    RowMajorDivMod(frames * channels, 0, width);
    RowMajorDivMod(frames, 0, channels);
  }

  /** Which errors arise: none for a supported depth and a positive frame size except the
    * 20-bit reshape, a zero frame size before the depth is looked at, and the depth error for
    * every other depth. */
  lemma DecodeErrors(p: AudioStreamParams, data: seq<Byte>)
    ensures DecodeSamples(p, data) == Err(ZeroFrameSize) <==> FrameSize(p) == 0
    ensures DecodeSamples(p, data) == Err(UnsupportedBitDepth(p.bitDepth)) <==>
      FrameSize(p) > 0 && p.bitDepth != 16 && p.bitDepth != 20 && p.bitDepth != 24
    ensures DecodeSamples(p, data) == Err(ReshapeMismatch) ==> p.bitDepth == 20
  {
    if FrameSize(p) > 0 && (p.bitDepth == 16 || p.bitDepth == 24) {
      DecodeWholeFrames(p, data);
    }
  }

  /** Mono 20-bit audio always decodes; stereo 20-bit audio of one frame (four bytes, read
    * as one 3-byte sample) cannot be reshaped into two channels. */
  lemma TwentyBitReshape(data: seq<Byte>)
    ensures DecodeSamples(AudioStreamParams(48000, 20, 1, "L"), data).Ok?
    ensures |data| == 4 ==> DecodeSamples(AudioStreamParams(48000, 20, 2, "L"), data) == Err(ReshapeMismatch)
  {
    if |data| == 4 {
      var p := AudioStreamParams(48000, 20, 2, "L");
      assert FrameSize(p) == 4;
      assert ValidData(data, 4) == data;
    }
  }

  /** `_decode_24bit`: fill a zeroed array sample by sample, then reshape. */
  method Decode24Bit(data: seq<Byte>, channels: nat) returns (r: Result<Samples, AudioError>)
    ensures r == Reshape(Samples24(data), channels)
  {
    var numSamples := |data| / 3;
    var samples := new real[numSamples](_ => 0.0);
    for i := 0 to numSamples
      invariant forall j :: 0 <= j < i ==> samples[j] == Samples24(data)[j]
    {
      var b1: int, b2: int, b3: int := data[3 * i], data[3 * i + 1], data[3 * i + 2];
      var value: int := b1 * 0x1_0000 + b2 * 0x100 + b3;
      if (value / 0x80_0000) % 2 == 1 {
        value := value - 0x100_0000;
      }
      samples[i] := value as real / 8388608.0;
    }
    assert samples[..] == Samples24(data);
    r := Reshape(samples[..], channels);
  }

  /** `_decode_20bit`: as the 24-bit loop, with the low nibble of the third byte dropped. */
  method Decode20Bit(data: seq<Byte>, channels: nat) returns (r: Result<Samples, AudioError>)
    ensures r == Reshape(Samples20(data), channels)
  {
    var numSamples := |data| / 3;
    var samples := new real[numSamples](_ => 0.0);
    for i := 0 to numSamples
      invariant forall j :: 0 <= j < i ==> samples[j] == Samples20(data)[j]
    {
      var b1: int, b2: int, b3: int := data[3 * i], data[3 * i + 1], data[3 * i + 2];
      var value: int := b1 * 0x1000 + b2 * 0x10 + b3 / 0x10;
      if (value / 0x8_0000) % 2 == 1 {
        value := value - 0x10_0000;
      }
      samples[i] := value as real / 524288.0;
    }
    assert samples[..] == Samples20(data);
    r := Reshape(samples[..], channels);
  }

  /** `_decode_samples`, calling the 24- and 20-bit loops. */
  method DecodeSamplesOf(p: AudioStreamParams, data: seq<Byte>) returns (r: Result<Samples, AudioError>)
    ensures r == DecodeSamples(p, data)
  {
    var frameSize := FrameSize(p);
    if frameSize == 0 {
      return Err(ZeroFrameSize);
    }
    var validData := ValidData(data, frameSize);
    if p.bitDepth == 16 {
      r := Reshape(Samples16(validData), p.channels);
    } else if p.bitDepth == 24 {
      r := Decode24Bit(validData, p.channels);
    } else if p.bitDepth == 20 {
      r := Decode20Bit(validData, p.channels);
    } else {
      r := Err(UnsupportedBitDepth(p.bitDepth));
    }
  }

  // ---------------------------------------------------------------------------
  // Parameter detection

  const CommonSampleRates: seq<nat> := [48000, 96000, 44100, 88200]
  const SupportedBitDepths: seq<nat> := [16, 20, 24]
  const ChannelCounts: seq<nat> := [1, 2, 4, 8, 16]

  /** 48 kHz, 24-bit stereo. */
  function DefaultAudioParams(): AudioStreamParams
  {
    AudioStreamParams(48000, 24, 2, "L")
  }

  /** Candidate number `k` in loop order (rate, then depth, then channel count). */
  function AudioCandidate(k: nat): AudioStreamParams
    requires k < 60
  {
    AudioStreamParams(CommonSampleRates[k / 15], SupportedBitDepths[(k / 5) % 3], ChannelCounts[k % 5], "L")
  }

  /** How far `timestampDiff` samples of candidate `k` are from the payload byte count. */
  function CandidateError(k: nat, timestampDiff: int, total: nat): real
    requires k < 60
  {
    Abs((timestampDiff * ChannelCounts[k % 5] * (SupportedBitDepths[(k / 5) % 3] / 8) - total) as real)
  }

  function AudioErrors(timestampDiff: int, total: nat): seq<real>
  {
    seq(60, k requires 0 <= k < 60 => CandidateError(k, timestampDiff, total))
  }

  function TotalPayload(packets: seq<RtpPacketInfo>): nat
  {
    TotalLength(Payloads(packets))
  }

  function TimestampDiff(info: RtpStreamInfo): int
  {
    info.lastTimestamp - info.firstTimestamp
  }

  /** The parameters `_detect_params` returns. */
  function DetectedAudioParams(packets: seq<RtpPacketInfo>, info: RtpStreamInfo): AudioStreamParams
  {
    var diff := TimestampDiff(info);
    var total := TotalPayload(packets);
    if diff <= 0 then DefaultAudioParams()
    else
      var errs := AudioErrors(diff, total);
      var k := FirstMinIndex(errs);
      if errs[k] > total as real * 0.1 then DefaultAudioParams() else AudioCandidate(k)
  }

  /** Candidates fifteen apart differ only in their sample rate and score the same. */
  lemma RateDoesNotScore(k: nat, timestampDiff: int, total: nat)
    requires 15 <= k < 60
    ensures CandidateError(k, timestampDiff, total) == CandidateError(k - 15, timestampDiff, total)
  {
    assert (k - 15) % 5 == k % 5;
    assert (k - 15) / 5 == k / 5 - 3;
  }

  /** A 20-bit candidate scores as the 16-bit candidate just before it. */
  lemma TwentyScoresAsSixteen(k: nat, timestampDiff: int, total: nat)
    requires 5 <= k < 60 && (k / 5) % 3 == 1
    ensures CandidateError(k, timestampDiff, total) == CandidateError(k - 5, timestampDiff, total)
  {
    assert (k - 5) % 5 == k % 5;
    assert (k - 5) / 5 == k / 5 - 1;
  }

  /** The first smallest error is at 48 kHz and not at 20 bits: every later rate and every
    * 20-bit candidate repeats an earlier candidate's error. */
  lemma AudioWinnerRange(diff: int, total: nat)
    ensures FirstMinIndex(AudioErrors(diff, total)) < 15
    ensures (FirstMinIndex(AudioErrors(diff, total)) / 5) % 3 != 1
  {
    var m := FirstMinIndex(AudioErrors(diff, total));
    LaterRateNeverFirst(diff, total, m);
    TwentyBitsNeverFirst(diff, total, m);
  }

  lemma LaterRateNeverFirst(diff: int, total: nat, j: nat)
    ensures 15 <= j < 60 ==> !IsFirstMin(AudioErrors(diff, total), j)
  {
    if 15 <= j < 60 {
      RateDoesNotScore(j, diff, total);
      FirstMinNotATwin(AudioErrors(diff, total), j, 15);
    }
  }

  lemma TwentyBitsNeverFirst(diff: int, total: nat, j: nat)
    ensures 5 <= j < 60 && (j / 5) % 3 == 1 ==> !IsFirstMin(AudioErrors(diff, total), j)
  {
    if 5 <= j < 60 && (j / 5) % 3 == 1 {
      TwentyScoresAsSixteen(j, diff, total);
      FirstMinNotATwin(AudioErrors(diff, total), j, 5);
    }
  }

  /** The sample rate never changes the error, so the first rate, 48 kHz, always wins; 20-bit
    * audio has the same two bytes per sample as 16-bit audio and comes after it, so it is
    * never chosen. */
  lemma DetectedAudioFacts(packets: seq<RtpPacketInfo>, info: RtpStreamInfo)
    ensures DetectedAudioParams(packets, info).sampleRate == 48000
    ensures DetectedAudioParams(packets, info).bitDepth == 16 || DetectedAudioParams(packets, info).bitDepth == 24
    ensures TimestampDiff(info) <= 0 ==> DetectedAudioParams(packets, info) == DefaultAudioParams()
  {
    AudioWinnerRange(TimestampDiff(info), TotalPayload(packets));
  }

  /** A payload of exactly four bytes per timestamp tick is detected as 16-bit stereo. */
  lemma DetectsStereo16(packets: seq<RtpPacketInfo>, info: RtpStreamInfo)
    requires TimestampDiff(info) > 0 && TotalPayload(packets) == 4 * TimestampDiff(info)
    ensures DetectedAudioParams(packets, info) == AudioStreamParams(48000, 16, 2, "L")
  {
    var errs := AudioErrors(TimestampDiff(info), TotalPayload(packets));
    Stereo16Errors(TimestampDiff(info));
    assert errs[1] == 0.0 && errs[0] > 0.0;
    FirstMinUnique(errs, 1, FirstMinIndex(errs));
  }

  /** Four bytes per tick: mono 16-bit misses by half, stereo 16-bit matches exactly. */
  lemma Stereo16Errors(diff: int)
    requires diff > 0
    ensures CandidateError(0, diff, 4 * diff) == (2 * diff) as real
    ensures CandidateError(1, diff, 4 * diff) == 0.0
  {
    assert ChannelCounts[0] == 1 && ChannelCounts[1] == 2 && SupportedBitDepths[0] / 8 == 2;
    assert diff * 1 * 2 - 4 * diff == -2 * diff;
    assert diff * 2 * 2 - 4 * diff == 0;
  }

  /** Where the detection loops stand after the first `k` candidates: nothing kept when the
    * timestamp span is not positive, otherwise the first smallest error so far. */
  ghost predicate AudioSearchState(timestampDiff: int, errs: seq<real>, k: nat, best: Option<AudioStreamParams>, bestError: real)
  {
    |errs| == 60 && k <= 60 &&
    if timestampDiff <= 0 || k == 0 then best.None?
    else
      var m := FirstMinIndex(errs[..k]);
      best == Some(AudioCandidate(m)) && bestError == errs[m]
  }

  lemma AudioSearchStep(timestampDiff: int, total: nat, k: nat, best: Option<AudioStreamParams>, bestError: real,
                        best': Option<AudioStreamParams>, bestError': real)
    requires AudioSearchState(timestampDiff, AudioErrors(timestampDiff, total), k, best, bestError) && k < 60
    requires timestampDiff <= 0 ==> best' == best
    requires timestampDiff > 0 ==>
      if best.None? || AudioErrors(timestampDiff, total)[k] < bestError
      then best' == Some(AudioCandidate(k)) && bestError' == AudioErrors(timestampDiff, total)[k]
      else best' == best && bestError' == bestError
    ensures AudioSearchState(timestampDiff, AudioErrors(timestampDiff, total), k + 1, best', bestError')
  {
    var errs := AudioErrors(timestampDiff, total);
    assert errs[..k + 1][..k] == errs[..k];
  }

  /** Candidate `15 * ri + 5 * bi + ci` is the one the loops build from rate `ri`, depth `bi`
    * and channel count `ci`. */
  lemma AudioLoopIndex(ri: nat, bi: nat, ci: nat, timestampDiff: int, total: nat)
    requires ri < 4 && bi < 3 && ci < 5
    ensures 15 * ri + 5 * bi + ci < 60
    ensures AudioCandidate(15 * ri + 5 * bi + ci) ==
      AudioStreamParams(CommonSampleRates[ri], SupportedBitDepths[bi], ChannelCounts[ci], "L")
    ensures AudioErrors(timestampDiff, total)[15 * ri + 5 * bi + ci] ==
      Abs((timestampDiff * ChannelCounts[ci] * (SupportedBitDepths[bi] / 8) - total) as real)
  {
    var k := 15 * ri + 5 * bi + ci;
    assert k / 5 == 3 * ri + bi;
    assert k / 15 == ri && k % 5 == ci && (k / 5) % 3 == bi;
  }

  /** The body of the innermost candidate loop: score one candidate and keep it when its
    * error is strictly smaller than the best so far. */
  method ConsiderAudioCandidate(timestampDiff: int, total: nat, ri: nat, bi: nat, ci: nat,
                                best: Option<AudioStreamParams>, error: real)
    returns (bestParams: Option<AudioStreamParams>, bestError: real)
    requires ri < 4 && bi < 3 && ci < 5
    requires AudioSearchState(timestampDiff, AudioErrors(timestampDiff, total), 15 * ri + 5 * bi + ci, best, error)
    ensures AudioSearchState(timestampDiff, AudioErrors(timestampDiff, total), 15 * ri + 5 * bi + ci + 1, bestParams, bestError)
  {
    var sampleRate, bitDepth, channels := CommonSampleRates[ri], SupportedBitDepths[bi], ChannelCounts[ci];
    var bytesPerSample := bitDepth / 8;
    AudioLoopIndex(ri, bi, ci, timestampDiff, total);
    bestParams, bestError := best, error;
    if timestampDiff > 0 {
      var expectedBytes := timestampDiff * channels * bytesPerSample;
      var candidateError := Abs((expectedBytes - total) as real);
      if bestParams.None? || candidateError < bestError {
        bestError := candidateError;
        bestParams := Some(AudioStreamParams(sampleRate, bitDepth, channels, "L"));
      }
    }
    AudioSearchStep(timestampDiff, total, 15 * ri + 5 * bi + ci, best, error, bestParams, bestError);
  }

  /** The innermost candidate loop: the five channel counts at one rate and depth. */
  method SearchChannels(timestampDiff: int, total: nat, ri: nat, bi: nat, best: Option<AudioStreamParams>, error: real)
    returns (bestParams: Option<AudioStreamParams>, bestError: real)
    requires ri < 4 && bi < 3
    requires AudioSearchState(timestampDiff, AudioErrors(timestampDiff, total), 15 * ri + 5 * bi, best, error)
    ensures AudioSearchState(timestampDiff, AudioErrors(timestampDiff, total), 15 * ri + 5 * bi + 5, bestParams, bestError)
  {
    bestParams, bestError := best, error;
    for ci := 0 to 5
      invariant AudioSearchState(timestampDiff, AudioErrors(timestampDiff, total), 15 * ri + 5 * bi + ci, bestParams, bestError)
    {
      bestParams, bestError := ConsiderAudioCandidate(timestampDiff, total, ri, bi, ci, bestParams, bestError);
    }
  }

  /** The middle candidate loop: the three bit depths at one sample rate. */
  method SearchBitDepths(timestampDiff: int, total: nat, ri: nat, best: Option<AudioStreamParams>, error: real)
    returns (bestParams: Option<AudioStreamParams>, bestError: real)
    requires ri < 4
    requires AudioSearchState(timestampDiff, AudioErrors(timestampDiff, total), 15 * ri, best, error)
    ensures AudioSearchState(timestampDiff, AudioErrors(timestampDiff, total), 15 * ri + 15, bestParams, bestError)
  {
    bestParams, bestError := best, error;
    for bi := 0 to 3
      invariant AudioSearchState(timestampDiff, AudioErrors(timestampDiff, total), 15 * ri + 5 * bi, bestParams, bestError)
    {
      bestParams, bestError := SearchChannels(timestampDiff, total, ri, bi, bestParams, bestError);
    }
  }

  /** The candidate loops of `_detect_params`. With no positive timestamp span no candidate
    * is scored and none is kept. */
  method SearchAudioCandidates(timestampDiff: int, total: nat) returns (bestParams: Option<AudioStreamParams>, bestError: real)
    ensures timestampDiff <= 0 ==> bestParams.None?
    ensures timestampDiff > 0 ==>
      bestParams == Some(AudioCandidate(FirstMinIndex(AudioErrors(timestampDiff, total)))) &&
      bestError == AudioErrors(timestampDiff, total)[FirstMinIndex(AudioErrors(timestampDiff, total))]
  {
    ghost var errs := AudioErrors(timestampDiff, total);
    bestParams := None;
    bestError := 0.0;
    for ri := 0 to 4
      invariant AudioSearchState(timestampDiff, errs, 15 * ri, bestParams, bestError)
    {
      bestParams, bestError := SearchBitDepths(timestampDiff, total, ri, bestParams, bestError);
    }
    assert errs[..60] == errs;
  }

  /** `_detect_params`. */
  method DetectAudioParams(packets: seq<RtpPacketInfo>, info: RtpStreamInfo) returns (p: AudioStreamParams)
    ensures p == DetectedAudioParams(packets, info)
  {
    var total := TotalPayload(packets);
    var timestampDiff := info.lastTimestamp - info.firstTimestamp;
    var bestParams, bestError := SearchAudioCandidates(timestampDiff, total);
    if bestParams.None? || bestError > total as real * 0.1 {
      bestParams := Some(DefaultAudioParams());
    }
    p := bestParams.value;
  }

  // ---------------------------------------------------------------------------
  // The decoder

  /** ST211030Decoder. */
  class St2110AudioDecoder {
    var params: Option<AudioStreamParams>
    var samples: Option<Samples>

    constructor(params: Option<AudioStreamParams>)
      ensures this.params == params && samples == None
    {
      this.params := params;
      samples := None;
    }

    /** `decode`: detect parameters only when none were given, decode the joined payloads,
      * and keep the samples; a failed decode leaves the previous samples in place. */
    method Decode(packets: seq<RtpPacketInfo>, streamInfo: RtpStreamInfo) returns (r: Result<Samples, AudioError>)
      modifies this
      ensures old(params).Some? ==> params == old(params)
      ensures old(params).None? ==> params == Some(DetectedAudioParams(packets, streamInfo))
      ensures params.Some? && r == DecodeSamples(params.value, JoinedPayloads(packets))
      ensures samples == (if r.Ok? then Some(r.value) else old(samples))
    {
      if params.None? {
        var detected := DetectAudioParams(packets, streamInfo);
        params := Some(detected);
      }
      var payloadData := JoinedPayloads(packets);
      r := DecodeSamplesOf(params.value, payloadData);
      if r.Ok? {
        samples := Some(r.value);
      }
    }
  }
}
