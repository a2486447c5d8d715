/** ST 2110-20 uncompressed video: marker-bit framing, parameter detection and the pixel
  * unpackers of dtk/media/decoders/st2110_20.py. The RFC 4175 payload header is not
  * stripped and the 10-bit 4:2:2 path is not the RFC 4175 pgroup packing; both are kept
  * as the decoder has them. */
module St2110Video {
  import opened Wrappers
  import opened Bytes
  import opened Search
  import opened RtpExtractor
  import opened Arith

  datatype PixelFormat = YCbCr422 | YCbCr444 | Rgb | OtherFormat(name: string)

  /** VideoStreamParams. */
  datatype VideoStreamParams = VideoStreamParams(
    width: nat,
    height: nat,
    pixelFormat: PixelFormat,
    bitDepth: nat,
    frameRate: real,
    interlaced: bool,
    packingMode: string)

  /** One decoded pixel: three 8-bit channels (Y, Cb, Cr or R, G, B). */
  datatype Pixel = Pixel(c0: Byte, c1: Byte, c2: Byte)

  /** A decoded frame: `height` rows of `width` pixels. */
  type Frame = seq<seq<Pixel>>

  predicate IsFrame(f: Frame, width: nat, height: nat)
  {
    |f| == height && forall r :: 0 <= r < height ==> |f[r]| == width
  }

  // ---------------------------------------------------------------------------
  // Sizes

  function ComponentsPerPixel(format: PixelFormat): nat
  {
    if format == YCbCr422 then 2 else 3
  }

  function BytesPerComponent(bitDepth: nat): nat
  {
    (bitDepth + 7) / 8
  }

  /** `bytes_per_pixel`: two components per pixel on average in 4:2:2, three otherwise. */
  function BytesPerPixel(p: VideoStreamParams): nat
  {
    ComponentsPerPixel(p.pixelFormat) * BytesPerComponent(p.bitDepth)
  }

  /** `frame_size_bytes`. */
  function FrameSizeBytes(p: VideoStreamParams): nat
  {
    p.width * p.height * BytesPerPixel(p)
  }

  /** The size each unpacker pads or truncates its input to. */
  function ExpectedSize(p: VideoStreamParams): nat
  {
    match p.pixelFormat
      case YCbCr422 => if p.bitDepth == 8 then p.width * p.height * 2 else p.width * p.height * 2 * 2
      case _ => p.width * p.height * 3 * BytesPerComponent(p.bitDepth)
  }

  /** The frame size the parameters announce is what the unpacker reads, for every 4:4:4 or RGB
    * depth and for the two 4:2:2 depths it supports; 8 and 10 bits take 1 and 2 bytes per
    * component, 12 bits 2. */
  lemma FrameSizeIsWhatUnpackerReads(p: VideoStreamParams)
    requires p.pixelFormat != YCbCr422 || p.bitDepth == 8 || p.bitDepth == 10
    ensures FrameSizeBytes(p) == ExpectedSize(p)
    ensures p.bitDepth == 8 ==> BytesPerComponent(p.bitDepth) == 1
    ensures p.bitDepth == 10 || p.bitDepth == 12 ==> BytesPerComponent(p.bitDepth) == 2
  {
    var wh := p.width * p.height;
    assert FrameSizeBytes(p) == wh * BytesPerPixel(p);
    if p.pixelFormat == YCbCr422 {
      if p.bitDepth == 8 {
        assert BytesPerPixel(p) == 2;
      } else {
        assert BytesPerPixel(p) == 4;
      }
    }
  }

  // ---------------------------------------------------------------------------
  // Pixel unpacking

  /** `data` zero-padded when short, then cut to `n` bytes. */
  function PadOrTruncate(data: seq<Byte>, n: nat): (r: seq<Byte>)
    ensures |r| == n
    ensures forall i :: 0 <= i < n ==> r[i] == (if i < |data| then data[i] else 0)
  {
    if |data| < n then data + seq(n - |data|, _ => 0) else data[..n]
  }

  function Pow2(n: nat): (r: nat)
    ensures r >= 1
  {
    if n == 0 then 1 else 2 * Pow2(n - 1)
  }

  /** The 8-bit result of a 16-bit big-endian word shifted right by `shift` bits
    * (`(word >> shift).astype(uint8)`). */
  function ShiftedWord(d: seq<Byte>, w: nat, shift: nat): (r: Byte)
    requires 2 * w + 1 < |d|
  {
    (BE16(d[2 * w], d[2 * w + 1]) / Pow2(shift)) % 256
  }

  /** 8-bit 4:2:2 as UYVY: pixel (r, c) takes its luma from the second or fourth byte of its
    * four-byte group and its chroma from the first and third. */
  function UyvyPixel(d: seq<Byte>, width: nat, height: nat, r: nat, c: nat): Pixel
    requires width % 2 == 0 && |d| == width * height * 2 && r < height && c < width
  {
    UyvyGroupBound(r, c / 2, width, height);
    var g := r * 2 * width + 4 * (c / 2);
    Pixel(d[g + 1 + 2 * (c % 2)], d[g], d[g + 2])
  }

  lemma UyvyGroupBound(r: nat, k: nat, width: nat, height: nat)
    requires width % 2 == 0 && r < height && k < width / 2
    ensures r * 2 * width + 4 * k + 3 < width * height * 2
  {
    RowMajorBound(r, 2 * k + 1, width, height);
    assert r * 2 * width + 4 * k + 3 == 2 * (r * width + 2 * k + 1) + 1;
  }

  function DecodeUyvy(d: seq<Byte>, width: nat, height: nat): (f: Frame)
    requires width % 2 == 0 && |d| == width * height * 2
    ensures IsFrame(f, width, height)
    ensures forall r, c :: 0 <= r < height && 0 <= c < width ==> f[r][c] == UyvyPixel(d, width, height, r, c)
  {
    seq(height, r requires 0 <= r < height =>
      seq(width, c requires 0 <= c < width => UyvyPixel(d, width, height, r, c)))
  }

  /** The four bytes U Y0 V Y1 of group `k` in row `r` give pixel (r, 2k) = (Y0, U, V) and
    * pixel (r, 2k+1) = (Y1, U, V). */
  lemma UyvyGroups(d: seq<Byte>, width: nat, height: nat, r: nat, k: nat)
    requires width % 2 == 0 && |d| == width * height * 2 && r < height && k < width / 2
    ensures var g := r * 2 * width + 4 * k;
      g + 3 < |d| &&
      DecodeUyvy(d, width, height)[r][2 * k] == Pixel(d[g + 1], d[g], d[g + 2]) &&
      DecodeUyvy(d, width, height)[r][2 * k + 1] == Pixel(d[g + 3], d[g], d[g + 2])
  {
    UyvyGroupBound(r, k, width, height);
    assert (2 * k) / 2 == k && (2 * k) % 2 == 0;
    assert (2 * k + 1) / 2 == k && (2 * k + 1) % 2 == 1;
  }

  /** Word `w` of a pixel stored as consecutive 16-bit big-endian words, `n` words per pixel. */
  lemma WordBound(r: nat, c: nat, width: nat, height: nat, n: nat, j: nat)
    requires r < height && c < width && j < n
    ensures 2 * (n * (r * width + c) + j) + 1 < width * height * n * 2
  {
    RowMajorBound(r, c, width, height);
    var p := r * width + c;
    var wh := width * height;
    assert p + 1 <= wh;
    MulMonotone(n, p + 1, wh);
    assert n * (p + 1) == n * p + n;
    assert width * height * n * 2 == 2 * (n * wh);
  }

  /** The 10-bit 4:2:2 approximation: two big-endian 16-bit words per pixel, shifted right by 6;
    * the first is luma and the second fills both chroma channels. */
  function WordPairPixel(d: seq<Byte>, width: nat, height: nat, r: nat, c: nat): Pixel
    requires |d| == width * height * 2 * 2 && r < height && c < width
  {
    WordBound(r, c, width, height, 2, 0);
    WordBound(r, c, width, height, 2, 1);
    var p := r * width + c;
    var chroma := ShiftedWord(d, 2 * p + 1, 6);
    Pixel(ShiftedWord(d, 2 * p, 6), chroma, chroma)
  }

  function Decode422Words(d: seq<Byte>, width: nat, height: nat): (f: Frame)
    requires |d| == width * height * 2 * 2
    ensures IsFrame(f, width, height)
    ensures forall r, c :: 0 <= r < height && 0 <= c < width ==> f[r][c] == WordPairPixel(d, width, height, r, c)
    ensures SharedChroma(f)
  {
    seq(height, r requires 0 <= r < height =>
      seq(width, c requires 0 <= c < width => WordPairPixel(d, width, height, r, c)))
  }

  /** Three bytes per pixel, copied in order. */
  function BytePixel(d: seq<Byte>, width: nat, height: nat, r: nat, c: nat): Pixel
    requires |d| == width * height * 3 * 1 && r < height && c < width
  {
    RowMajorBound(r, c, width, height);
    var p := r * width + c;
    assert 3 * p + 2 < |d| by {
      assert 3 * (p + 1) <= 3 * (width * height);
    }
    Pixel(d[3 * p], d[3 * p + 1], d[3 * p + 2])
  }

  function DecodeByteTriplets(d: seq<Byte>, width: nat, height: nat): (f: Frame)
    requires |d| == width * height * 3 * 1
    ensures IsFrame(f, width, height)
    ensures forall r, c :: 0 <= r < height && 0 <= c < width ==> f[r][c] == BytePixel(d, width, height, r, c)
  {
    seq(height, r requires 0 <= r < height =>
      seq(width, c requires 0 <= c < width => BytePixel(d, width, height, r, c)))
  }

  /** Three big-endian 16-bit words per pixel, each shifted right by `shift` bits. */
  function WordPixel(d: seq<Byte>, width: nat, height: nat, shift: nat, r: nat, c: nat): Pixel
    requires |d| == width * height * 3 * 2 && r < height && c < width
  {
    WordBound(r, c, width, height, 3, 0);
    WordBound(r, c, width, height, 3, 1);
    WordBound(r, c, width, height, 3, 2);
    var p := r * width + c;
    Pixel(ShiftedWord(d, 3 * p, shift), ShiftedWord(d, 3 * p + 1, shift), ShiftedWord(d, 3 * p + 2, shift))
  }

  function DecodeWordTriplets(d: seq<Byte>, width: nat, height: nat, shift: nat): (f: Frame)
    requires |d| == width * height * 3 * 2
    ensures IsFrame(f, width, height)
    ensures forall r, c :: 0 <= r < height && 0 <= c < width ==> f[r][c] == WordPixel(d, width, height, shift, r, c)
  {
    seq(height, r requires 0 <= r < height =>
      seq(width, c requires 0 <= c < width => WordPixel(d, width, height, shift, r, c)))
  }

  // ---------------------------------------------------------------------------
  // Frame decoding

  /** The parameter combinations `_decode_frame` returns a frame for: 8-bit 4:2:2 needs an even
    * width (two pixels per UYVY group), 10-bit 4:2:2 always works, and 4:4:4 or RGB work at 8
    * bits and at every depth whose components take two bytes. */
  predicate Decodable(p: VideoStreamParams)
  {
    match p.pixelFormat
      case YCbCr422 => (p.bitDepth == 8 && p.width % 2 == 0) || p.bitDepth == 10
      case YCbCr444 => p.bitDepth == 8 || 9 <= p.bitDepth <= 16
      case Rgb => p.bitDepth == 8 || 9 <= p.bitDepth <= 16
      case OtherFormat(_) => false
  }

  /** `_decode_444` and `_decode_rgb`, which are the same code. */
  function DecodeTriplets(p: VideoStreamParams, data: seq<Byte>): Option<Frame>
  {
    if p.bitDepth == 8 then
      Some(DecodeByteTriplets(PadOrTruncate(data, p.width * p.height * 3 * 1), p.width, p.height))
    else if 9 <= p.bitDepth <= 16 then
      Some(DecodeWordTriplets(PadOrTruncate(data, p.width * p.height * 3 * 2), p.width, p.height, p.bitDepth - 8))
    else
      None
  }

  /** `_decode_frame`: dispatch on the pixel format; every failure (an unsupported format or
    * depth, a reshape that does not fit) becomes None. */
  function DecodeFrame(p: VideoStreamParams, data: seq<Byte>): (r: Option<Frame>)
    ensures r.Some? <==> Decodable(p)
    ensures r.Some? ==> IsFrame(r.value, p.width, p.height)
  {
    match p.pixelFormat
      case YCbCr422 =>
        if p.bitDepth == 8 then
          if p.width % 2 == 0 then Some(DecodeUyvy(PadOrTruncate(data, p.width * p.height * 2), p.width, p.height))
          else None
        else if p.bitDepth == 10 then
          Some(Decode422Words(PadOrTruncate(data, p.width * p.height * 2 * 2), p.width, p.height))
        else None
      case YCbCr444 => DecodeTriplets(p, data)
      case Rgb => DecodeTriplets(p, data)
      case OtherFormat(_) => None
  }

  lemma PadOrTruncateTwice(data: seq<Byte>, n: nat)
    ensures PadOrTruncate(PadOrTruncate(data, n), n) == PadOrTruncate(data, n)
  {
  }

  lemma PadOrTruncateExtended(data: seq<Byte>, extra: seq<Byte>, n: nat)
    requires n <= |data|
    ensures PadOrTruncate(data + extra, n) == PadOrTruncate(data, n)
  {
    assert (data + extra)[..n] == data[..n];
  }

  /** A short frame decodes as if zero-padded to the frame size and a long one as if cut to it:
    * the bytes past `frame_size_bytes` never matter. */
  lemma DecodeReadsFrameSizeBytes(p: VideoStreamParams, data: seq<Byte>, extra: seq<Byte>)
    requires p.pixelFormat != YCbCr422 || p.bitDepth == 8 || p.bitDepth == 10
    ensures DecodeFrame(p, data) == DecodeFrame(p, PadOrTruncate(data, FrameSizeBytes(p)))
    ensures FrameSizeBytes(p) <= |data| ==> DecodeFrame(p, data + extra) == DecodeFrame(p, data)
  {
    FrameSizeIsWhatUnpackerReads(p);
    var n := ExpectedSize(p);
    PadOrTruncateTwice(data, n);
    if n <= |data| {
      PadOrTruncateExtended(data, extra, n);
    }
    match p.pixelFormat
      case YCbCr422 =>
        if p.bitDepth == 8 {
          assert n == p.width * p.height * 2;
        } else {
          assert n == p.width * p.height * 2 * 2;
        }
      case YCbCr444 =>
        TripletsSize(p);
      case Rgb =>
        TripletsSize(p);
      case OtherFormat(_) =>
  }

  lemma TripletsSize(p: VideoStreamParams)
    ensures p.bitDepth == 8 ==> p.width * p.height * 3 * BytesPerComponent(p.bitDepth) == p.width * p.height * 3 * 1
    ensures 9 <= p.bitDepth <= 16 ==> p.width * p.height * 3 * BytesPerComponent(p.bitDepth) == p.width * p.height * 3 * 2
  {
  }

  /** The 8-bit 4:4:4 and RGB layouts are plain row-major component bytes, so writing a frame
    * out that way and decoding it gives the frame back. */
  function TripletBytes(f: Frame, width: nat, height: nat): (d: seq<Byte>)
    requires IsFrame(f, width, height)
    ensures |d| == width * height * 3 * 1
  {
    seq(width * height * 3, i requires 0 <= i < width * height * 3 => TripletComponent(f, width, height, i))
  }

  /** Byte `i` of the row-major layout: component `i % 3` of pixel `i / 3`. */
  function TripletComponent(f: Frame, width: nat, height: nat, i: nat): Byte
    requires IsFrame(f, width, height) && i < width * height * 3
  {
    var q := i / 3;
    RowMajorSplit(q, width, height);
    var px := f[q / width][q % width];
    if i % 3 == 0 then px.c0 else if i % 3 == 1 then px.c1 else px.c2
  }

  lemma TripletRoundTrip(p: VideoStreamParams, f: Frame)
    requires p.pixelFormat == YCbCr444 || p.pixelFormat == Rgb
    requires p.bitDepth == 8 && IsFrame(f, p.width, p.height)
    ensures DecodeFrame(p, TripletBytes(f, p.width, p.height)) == Some(f)
  {
    var d := TripletBytes(f, p.width, p.height);
    assert PadOrTruncate(d, |d|) == d;
    ByteTripletsRoundTrip(f, p.width, p.height);
  }

  lemma ByteTripletsRoundTrip(f: Frame, width: nat, height: nat)
    requires IsFrame(f, width, height)
    ensures DecodeByteTriplets(TripletBytes(f, width, height), width, height) == f
  {
    var d := TripletBytes(f, width, height);
    var g := DecodeByteTriplets(d, width, height);
    forall r, c | 0 <= r < height && 0 <= c < width
      ensures g[r][c] == f[r][c]
    {
      RowMajorBound(r, c, width, height);
      RowMajorDivMod(r, c, width);
      var q := r * width + c;
      assert (3 * q) / 3 == q && (3 * q + 1) / 3 == q && (3 * q + 2) / 3 == q;
      assert (3 * q) % 3 == 0 && (3 * q + 1) % 3 == 1 && (3 * q + 2) % 3 == 2;
    }
    forall r | 0 <= r < height
      ensures g[r] == f[r]
    {
    }
  }

  // ---------------------------------------------------------------------------
  // What a 16-bit word becomes

  /** Big-endian word `k` of `d`, or 0 past its end. */
  function WordAt(d: seq<Byte>, k: nat): U16
  {
    if 2 * k + 1 < |d| then BE16(d[2 * k], d[2 * k + 1]) else 0
  }

  lemma JoinedWordAt(ws: seq<U16>, k: nat)
    requires k < |ws|
    ensures 2 * k + 1 < |JoinWords(ws)| && WordAt(JoinWords(ws), k) == ws[k]
  {
    JoinWordsAt(ws, k);
  }

  lemma {:induction false} Pow2Shift8(shift: nat)
    ensures Pow2(shift + 8) == Pow2(shift) * 256
  {
    if shift > 0 {
      Pow2Shift8(shift - 1);
    } else {
      assert Pow2(8) == 256 by {
        assert Pow2(1) == 2 && Pow2(2) == 4 && Pow2(3) == 8 && Pow2(4) == 16;
        assert Pow2(5) == 32 && Pow2(6) == 64 && Pow2(7) == 128;
      }
    }
  }

  lemma {:induction false} Pow2AtMost256(shift: nat)
    requires shift <= 8
    ensures Pow2(shift) <= 256
    decreases 8 - shift
  {
    Pow2Shift8(shift);
    if shift < 8 {
      Pow2AtMost256(shift + 1);
    }
  }

  lemma Pow2Six()
    ensures Pow2(6) == 64
  {
    assert Pow2(1) == 2 && Pow2(2) == 4 && Pow2(3) == 8 && Pow2(4) == 16 && Pow2(5) == 32;
  }

  lemma DivBelow(x: nat, m: nat, k: nat)
    requires m > 0 && x < m * k
    ensures x / m < k
  {
    var q, rem := x / m, x % m;
    assert x == q * m + rem;
    if q >= k {
      MulMonotone(m, k, q);
    }
  }

  lemma DivOfMultiple(v: nat, m: nat)
    requires m > 0
    ensures (v * m) / m == v
  {
    RowMajorDivMod(v, 0, m);
  }

  /** An 8-bit value moved up by `shift` bits: the word an encoder writes for `v` at
    * `8 + shift` bits. */
  function ScaleUp(v: Byte, shift: nat): U16
    requires shift <= 8
  {
    Pow2AtMost256(shift);
    MulMonotone(v, Pow2(shift), 256);
    v * Pow2(shift)
  }

  /** `(word >> shift).astype(uint8)` of a word with at most `shift + 8` significant bits is
    * its top eight bits: the cast to eight bits never wraps such a word. */
  lemma ShiftedWordScales(d: seq<Byte>, w: nat, shift: nat)
    requires 2 * w + 1 < |d| && WordAt(d, w) < Pow2(shift + 8)
    ensures ShiftedWord(d, w, shift) == WordAt(d, w) / Pow2(shift)
  {
    Pow2Shift8(shift);
    TopEightBits(WordAt(d, w), Pow2(shift));
  }

  /** Dividing a number below `m * 256` by `m` leaves a value that survives the 8-bit cast. */
  lemma TopEightBits(x: nat, m: nat)
    requires m > 0 && x < m * 256
    ensures (x / m) % 256 == x / m
  {
    DivBelow(x, m, 256);
  }

  /** A word written as `ScaleUp(v, shift)` reads back as `v`. */
  lemma ShiftedWordOfScaled(d: seq<Byte>, w: nat, shift: nat, v: Byte)
    requires shift <= 8 && 2 * w + 1 < |d| && WordAt(d, w) == ScaleUp(v, shift)
    ensures ShiftedWord(d, w, shift) == v
  {
    DivOfMultiple(v, Pow2(shift));
  }

  /** A 10-bit sample `v` stored in the top bits of its 16-bit word (`v * 64`) comes out of the
    * `>> 6` as `v % 256`: the cast keeps the sample's low eight bits, not its top eight. */
  lemma ShiftedWordTopAligned(d: seq<Byte>, w: nat, v: nat)
    requires 2 * w + 1 < |d| && v < 1024 && WordAt(d, w) == v * 64
    ensures ShiftedWord(d, w, 6) == v % 256
  {
    Pow2Six();
    DivOfMultiple(v, 64);
  }

  /** 10-bit 4:2:2 on words of at most 14 significant bits: luma is the first word divided by
    * 64 and both chroma channels are the second word divided by 64. */
  lemma Decode422WordsScale(d: seq<Byte>, width: nat, height: nat, r: nat, c: nat)
    requires |d| == width * height * 2 * 2 && r < height && c < width
    requires WordAt(d, 2 * (r * width + c)) < 0x4000 && WordAt(d, 2 * (r * width + c) + 1) < 0x4000
    ensures Decode422Words(d, width, height)[r][c].c0 == WordAt(d, 2 * (r * width + c)) / 64
    ensures Decode422Words(d, width, height)[r][c].c1 == WordAt(d, 2 * (r * width + c) + 1) / 64
    ensures Decode422Words(d, width, height)[r][c].c2 == WordAt(d, 2 * (r * width + c) + 1) / 64
  {
    var q := r * width + c;
    WordBound(r, c, width, height, 2, 0);
    WordBound(r, c, width, height, 2, 1);
    Pow2Six();
    Pow2Shift8(6);
    ShiftedWordScales(d, 2 * q, 6);
    ShiftedWordScales(d, 2 * q + 1, 6);
  }

  /** 10-bit 4:2:2 with each 10-bit sample in the top bits of its word: the pixel holds the low
    * eight bits of the luma sample and, twice, of the chroma sample. */
  lemma Decode422TopAligned(d: seq<Byte>, width: nat, height: nat, r: nat, c: nat, y: nat, ch: nat)
    requires |d| == width * height * 2 * 2 && r < height && c < width && y < 1024 && ch < 1024
    requires WordAt(d, 2 * (r * width + c)) == y * 64 && WordAt(d, 2 * (r * width + c) + 1) == ch * 64
    ensures Decode422Words(d, width, height)[r][c] == Pixel(y % 256, ch % 256, ch % 256)
  {
    var q := r * width + c;
    WordBound(r, c, width, height, 2, 0);
    WordBound(r, c, width, height, 2, 1);
    ShiftedWordTopAligned(d, 2 * q, y);
    ShiftedWordTopAligned(d, 2 * q + 1, ch);
  }

  /** Every decoded 10-bit 4:2:2 pixel carries the same value in both chroma channels. */
  predicate SharedChroma(f: Frame)
  {
    forall r, c :: 0 <= r < |f| && 0 <= c < |f[r]| ==> f[r][c].c1 == f[r][c].c2
  }

  /** The words a 10-bit 4:2:2 encoder writes for a frame whose chroma channels agree: per
    * pixel, luma then chroma, each moved up by 6 bits. */
  function PairWords(f: Frame, width: nat, height: nat): (ws: seq<U16>)
    requires IsFrame(f, width, height)
    ensures |ws| == width * height * 2
  {
    seq(width * height * 2, k requires 0 <= k < width * height * 2 => PairWord(f, width, height, k))
  }

  function PairWord(f: Frame, width: nat, height: nat, k: nat): U16
    requires IsFrame(f, width, height) && k < width * height * 2
  {
    var q := k / 2;
    RowMajorSplit(q, width, height);
    var px := f[q / width][q % width];
    ScaleUp(if k % 2 == 0 then px.c0 else px.c1, 6)
  }

  lemma PairWordsAt(f: Frame, width: nat, height: nat, r: nat, c: nat)
    requires IsFrame(f, width, height) && r < height && c < width
    ensures 2 * (r * width + c) + 1 < width * height * 2
    ensures PairWords(f, width, height)[2 * (r * width + c)] == ScaleUp(f[r][c].c0, 6)
    ensures PairWords(f, width, height)[2 * (r * width + c) + 1] == ScaleUp(f[r][c].c1, 6)
  {
    RowMajorBound(r, c, width, height);
    RowMajorDivMod(r, c, width);
    var q := r * width + c;
    assert (2 * q) / 2 == q && (2 * q + 1) / 2 == q;
    assert (2 * q) % 2 == 0 && (2 * q + 1) % 2 == 1;
  }

  lemma PairPixelRoundTrip(f: Frame, width: nat, height: nat, r: nat, c: nat)
    requires IsFrame(f, width, height) && SharedChroma(f) && r < height && c < width
    ensures WordPairPixel(JoinWords(PairWords(f, width, height)), width, height, r, c) == f[r][c]
  {
    var ws := PairWords(f, width, height);
    var d := JoinWords(ws);
    var q := r * width + c;
    PairWordsAt(f, width, height, r, c);
    JoinedWordAt(ws, 2 * q);
    JoinedWordAt(ws, 2 * q + 1);
    ShiftedWordOfScaled(d, 2 * q, 6, f[r][c].c0);
    ShiftedWordOfScaled(d, 2 * q + 1, 6, f[r][c].c1);
  }

  /** Writing an 8-bit frame with shared chroma as 10-bit 4:2:2 words and decoding it gives the
    * frame back. */
  lemma WordPairsRoundTrip(p: VideoStreamParams, f: Frame)
    requires p.pixelFormat == YCbCr422 && p.bitDepth == 10
    requires IsFrame(f, p.width, p.height) && SharedChroma(f)
    ensures DecodeFrame(p, JoinWords(PairWords(f, p.width, p.height))) == Some(f)
  {
    var width, height := p.width, p.height;
    var d := JoinWords(PairWords(f, width, height));
    assert |d| == width * height * 2 * 2;
    assert PadOrTruncate(d, |d|) == d;
    var g := Decode422Words(d, width, height);
    forall r, c | 0 <= r < height && 0 <= c < width
      ensures g[r][c] == f[r][c]
    {
      PairPixelRoundTrip(f, width, height, r, c);
    }
    forall r | 0 <= r < height
      ensures g[r] == f[r]
    {
    }
    assert g == f;
  }

  lemma WordPixelScales(d: seq<Byte>, width: nat, height: nat, shift: nat, r: nat, c: nat)
    requires |d| == width * height * 3 * 2 && r < height && c < width
    requires WordAt(d, 3 * (r * width + c)) < Pow2(shift + 8)
    requires WordAt(d, 3 * (r * width + c) + 1) < Pow2(shift + 8)
    requires WordAt(d, 3 * (r * width + c) + 2) < Pow2(shift + 8)
    ensures WordPixel(d, width, height, shift, r, c).c0 == WordAt(d, 3 * (r * width + c)) / Pow2(shift)
    ensures WordPixel(d, width, height, shift, r, c).c1 == WordAt(d, 3 * (r * width + c) + 1) / Pow2(shift)
    ensures WordPixel(d, width, height, shift, r, c).c2 == WordAt(d, 3 * (r * width + c) + 2) / Pow2(shift)
  {
    var q := r * width + c;
    WordBound(r, c, width, height, 3, 0);
    WordBound(r, c, width, height, 3, 1);
    WordBound(r, c, width, height, 3, 2);
    ShiftedWordScales(d, 3 * q, shift);
    ShiftedWordScales(d, 3 * q + 1, shift);
    ShiftedWordScales(d, 3 * q + 2, shift);
  }

  /** 4:4:4 and RGB at 9 to 16 bits on words below `2^bitDepth`: each component is its word
    * divided by `2^(bitDepth - 8)`, the word's top eight bits. */
  lemma WordTripletsScaleToEightBits(p: VideoStreamParams, data: seq<Byte>, r: nat, c: nat)
    requires (p.pixelFormat == YCbCr444 || p.pixelFormat == Rgb) && 9 <= p.bitDepth <= 16
    requires |data| == FrameSizeBytes(p) && r < p.height && c < p.width
    requires WordAt(data, 3 * (r * p.width + c)) < Pow2(p.bitDepth)
    requires WordAt(data, 3 * (r * p.width + c) + 1) < Pow2(p.bitDepth)
    requires WordAt(data, 3 * (r * p.width + c) + 2) < Pow2(p.bitDepth)
    ensures DecodeFrame(p, data).Some?
    ensures DecodeFrame(p, data).value[r][c].c0 == WordAt(data, 3 * (r * p.width + c)) / Pow2(p.bitDepth - 8)
    ensures DecodeFrame(p, data).value[r][c].c1 == WordAt(data, 3 * (r * p.width + c) + 1) / Pow2(p.bitDepth - 8)
    ensures DecodeFrame(p, data).value[r][c].c2 == WordAt(data, 3 * (r * p.width + c) + 2) / Pow2(p.bitDepth - 8)
  {
    var shift := p.bitDepth - 8;
    FrameSizeIsWhatUnpackerReads(p);
    TripletsSize(p);
    assert PadOrTruncate(data, |data|) == data;
    assert DecodeFrame(p, data) == Some(DecodeWordTriplets(data, p.width, p.height, shift));
    assert shift + 8 == p.bitDepth;
    WordPixelScales(data, p.width, p.height, shift, r, c);
  }

  /** The words a 4:4:4 or RGB encoder writes at `8 + shift` bits: every component moved up by
    * `shift` bits, in row-major order. */
  function TripletWords(f: Frame, width: nat, height: nat, shift: nat): (ws: seq<U16>)
    requires IsFrame(f, width, height) && shift <= 8
    ensures |ws| == width * height * 3
  {
    seq(width * height * 3, k requires 0 <= k < width * height * 3 =>
      ScaleUp(TripletComponent(f, width, height, k), shift))
  }

  lemma TripletWordsAt(f: Frame, width: nat, height: nat, shift: nat, r: nat, c: nat)
    requires IsFrame(f, width, height) && shift <= 8 && r < height && c < width
    ensures 3 * (r * width + c) + 2 < width * height * 3
    ensures TripletWords(f, width, height, shift)[3 * (r * width + c)] == ScaleUp(f[r][c].c0, shift)
    ensures TripletWords(f, width, height, shift)[3 * (r * width + c) + 1] == ScaleUp(f[r][c].c1, shift)
    ensures TripletWords(f, width, height, shift)[3 * (r * width + c) + 2] == ScaleUp(f[r][c].c2, shift)
  {
    RowMajorBound(r, c, width, height);
    RowMajorDivMod(r, c, width);
    var q := r * width + c;
    assert (3 * q) / 3 == q && (3 * q + 1) / 3 == q && (3 * q + 2) / 3 == q;
    assert (3 * q) % 3 == 0 && (3 * q + 1) % 3 == 1 && (3 * q + 2) % 3 == 2;
  }

  lemma TripletPixelRoundTrip(f: Frame, width: nat, height: nat, shift: nat, r: nat, c: nat)
    requires IsFrame(f, width, height) && shift <= 8 && r < height && c < width
    ensures WordPixel(JoinWords(TripletWords(f, width, height, shift)), width, height, shift, r, c) == f[r][c]
  {
    var ws := TripletWords(f, width, height, shift);
    var d := JoinWords(ws);
    var q := r * width + c;
    TripletWordsAt(f, width, height, shift, r, c);
    JoinedWordAt(ws, 3 * q);
    JoinedWordAt(ws, 3 * q + 1);
    JoinedWordAt(ws, 3 * q + 2);
    ShiftedWordOfScaled(d, 3 * q, shift, f[r][c].c0);
    ShiftedWordOfScaled(d, 3 * q + 1, shift, f[r][c].c1);
    ShiftedWordOfScaled(d, 3 * q + 2, shift, f[r][c].c2);
  }

  /** Writing an 8-bit frame as 4:4:4 or RGB words at 9 to 16 bits and decoding it gives the
    * frame back. */
  lemma WordTripletsRoundTrip(p: VideoStreamParams, f: Frame)
    requires (p.pixelFormat == YCbCr444 || p.pixelFormat == Rgb) && 9 <= p.bitDepth <= 16
    requires IsFrame(f, p.width, p.height)
    ensures DecodeFrame(p, JoinWords(TripletWords(f, p.width, p.height, p.bitDepth - 8))) == Some(f)
  {
    var width, height, shift := p.width, p.height, p.bitDepth - 8;
    var d := JoinWords(TripletWords(f, width, height, shift));
    assert |d| == width * height * 3 * 2;
    assert PadOrTruncate(d, |d|) == d;
    var g := DecodeWordTriplets(d, width, height, shift);
    forall r, c | 0 <= r < height && 0 <= c < width
      ensures g[r][c] == f[r][c]
    {
      TripletPixelRoundTrip(f, width, height, shift, r, c);
    }
    forall r | 0 <= r < height
      ensures g[r] == f[r]
    {
    }
    assert g == f;
  }

  // ---------------------------------------------------------------------------
  // Marker-bit framing

  /** The frames a scan produces from an open frame `current` and the packets still to come:
    * a packet with the marker bit closes the frame it joins; a non-empty open frame at the end
    * is kept as an incomplete frame. */
  function SplitFrames(current: seq<RtpPacketInfo>, rest: seq<RtpPacketInfo>): seq<seq<RtpPacketInfo>>
    decreases |rest|
  {
    if rest == [] then
      if current == [] then [] else [current]
    else if rest[0].marker then
      [current + [rest[0]]] + SplitFrames([], rest[1..])
    else
      SplitFrames(current + [rest[0]], rest[1..])
  }

  function FramesOf(packets: seq<RtpPacketInfo>): seq<seq<RtpPacketInfo>>
  {
    SplitFrames([], packets)
  }

  function Concat(frames: seq<seq<RtpPacketInfo>>): seq<RtpPacketInfo>
  {
    if frames == [] then [] else frames[0] + Concat(frames[1..])
  }

  predicate NoMarker(packets: seq<RtpPacketInfo>)
  {
    forall j :: 0 <= j < |packets| ==> !packets[j].marker
  }

  /** A non-empty frame whose only marker packet, if any, is its last. */
  predicate MarkerOnlyAtEnd(frame: seq<RtpPacketInfo>)
  {
    |frame| > 0 && forall j :: 0 <= j < |frame| - 1 ==> !frame[j].marker
  }

  /** What marker framing guarantees: frames are non-empty, a marker packet is always the last
    * of its frame, and every frame but the last ends with one. */
  predicate WellFramed(frames: seq<seq<RtpPacketInfo>>)
  {
    (forall i :: 0 <= i < |frames| ==> MarkerOnlyAtEnd(frames[i])) &&
    (forall i :: 0 <= i < |frames| - 1 ==> frames[i][|frames[i]| - 1].marker)
  }

  lemma {:induction false} SplitFramesFacts(current: seq<RtpPacketInfo>, rest: seq<RtpPacketInfo>)
    requires NoMarker(current)
    ensures Concat(SplitFrames(current, rest)) == current + rest
    ensures WellFramed(SplitFrames(current, rest))
  {
    SplitFramesConcat(current, rest);
    SplitFramesWellFramed(current, rest);
  }

  lemma {:induction false} SplitFramesConcat(current: seq<RtpPacketInfo>, rest: seq<RtpPacketInfo>)
    ensures Concat(SplitFrames(current, rest)) == current + rest
    decreases |rest|
  {
    if rest == [] {
      if current != [] {
        assert Concat(SplitFrames(current, rest)) == current + Concat([]);
      }
    } else {
      assert current + rest == (current + [rest[0]]) + rest[1..];
      if rest[0].marker {
        SplitFramesConcat([], rest[1..]);
        var fs := SplitFrames(current, rest);
        assert fs[1..] == SplitFrames([], rest[1..]);
      } else {
        SplitFramesConcat(current + [rest[0]], rest[1..]);
      }
    }
  }

  lemma {:induction false} SplitFramesWellFramed(current: seq<RtpPacketInfo>, rest: seq<RtpPacketInfo>)
    requires NoMarker(current)
    ensures WellFramed(SplitFrames(current, rest))
    decreases |rest|
  {
    if rest == [] {
    } else if rest[0].marker {
      SplitFramesWellFramed([], rest[1..]);
      ClosedFrameFirst(current + [rest[0]], SplitFrames([], rest[1..]));
    } else {
      SplitFramesWellFramed(current + [rest[0]], rest[1..]);
    }
  }

  /** A frame closed by its marker, put before well-framed frames, keeps them well framed. */
  lemma ClosedFrameFirst(head: seq<RtpPacketInfo>, tail: seq<seq<RtpPacketInfo>>)
    requires MarkerOnlyAtEnd(head) && head[|head| - 1].marker && WellFramed(tail)
    ensures WellFramed([head] + tail)
  {
    var fs := [head] + tail;
    assert forall i :: 0 < i < |fs| ==> fs[i] == tail[i - 1];
  }

  /** `_group_into_frames`. */
  method GroupIntoFrames(packets: seq<RtpPacketInfo>) returns (frames: seq<seq<RtpPacketInfo>>)
    ensures frames == FramesOf(packets)
    ensures Concat(frames) == packets && WellFramed(frames)
  {
    frames := [];
    var current: seq<RtpPacketInfo> := [];
    for i := 0 to |packets|
      invariant frames + SplitFrames(current, packets[i..]) == FramesOf(packets)
    {
      assert packets[i..][1..] == packets[i + 1..];
      current := current + [packets[i]];
      if packets[i].marker {
        frames := frames + [current];
        current := [];
      }
    }
    if current != [] {
      frames := frames + [current];
    }
    SplitFramesFacts([], packets);
  }

  /** Seven packets with markers at positions 2 and 5 make frames of three, three and one. */
  lemma MarkersAtTwoAndFive(packets: seq<RtpPacketInfo>)
    requires |packets| == 7
    requires forall j :: 0 <= j < 7 ==> (packets[j].marker <==> j == 2 || j == 5)
    ensures FramesOf(packets) == [packets[..3], packets[3..6], packets[6..]]
  {
    var p := packets;
    assert SplitFrames([], p) == SplitFrames(p[..1], p[1..]) by {
      assert p[1..] == p[1..] && [] + [p[0]] == p[..1];
    }
    assert SplitFrames(p[..1], p[1..]) == SplitFrames(p[..2], p[2..]) by {
      assert p[1..][1..] == p[2..] && p[..1] + [p[1]] == p[..2];
    }
    assert SplitFrames(p[..2], p[2..]) == [p[..3]] + SplitFrames([], p[3..]) by {
      assert p[2..][1..] == p[3..] && p[..2] + [p[2]] == p[..3];
    }
    assert SplitFrames([], p[3..]) == SplitFrames(p[3..4], p[4..]) by {
      assert p[3..][1..] == p[4..] && [] + [p[3]] == p[3..4];
    }
    assert SplitFrames(p[3..4], p[4..]) == SplitFrames(p[3..5], p[5..]) by {
      assert p[4..][1..] == p[5..] && p[3..4] + [p[4]] == p[3..5];
    }
    assert SplitFrames(p[3..5], p[5..]) == [p[3..6]] + SplitFrames([], p[6..]) by {
      assert p[5..][1..] == p[6..] && p[3..5] + [p[5]] == p[3..6];
    }
    assert SplitFrames([], p[6..]) == SplitFrames(p[6..], []) by {
      assert p[6..][1..] == [] && [] + [p[6]] == p[6..];
    }
  }

  // ---------------------------------------------------------------------------
  // Parameter detection

  const CommonResolutions: seq<(nat, nat)> := [(1920, 1080), (1280, 720), (3840, 2160), (4096, 2160), (7680, 4320)]
  const CandidateDepths: seq<nat> := [8, 10, 12]
  const CandidateFormats: seq<PixelFormat> := [YCbCr422, YCbCr444, Rgb]
  const CommonFrameRates: seq<real> := [23.976, 24.0, 25.0, 29.97, 30.0, 50.0, 59.94, 60.0]

  /** The 1080p 10-bit 4:2:2 parameters the detector falls back to. */
  function DefaultParams(frameRate: real): VideoStreamParams
  {
    VideoStreamParams(1920, 1080, YCbCr422, 10, frameRate, false, "general")
  }

  /** The candidate the detection loops build from resolution `ri`, depth `bi`, format `fi`. */
  function CandidateParams(ri: nat, bi: nat, fi: nat, frameRate: real): VideoStreamParams
    requires ri < 5 && bi < 3 && fi < 3
  {
    VideoStreamParams(CommonResolutions[ri].0, CommonResolutions[ri].1, CandidateFormats[fi], CandidateDepths[bi],
      frameRate, false, "general")
  }

  /** Candidate number `k` in loop order (resolution, then depth, then format). */
  function Candidate(k: nat, frameRate: real): VideoStreamParams
    requires k < 45
  {
    CandidateParams(k / 9, (k / 3) % 3, k % 3, frameRate)
  }

  function CandidateErrors(avg: real): seq<real>
  {
    seq(45, k requires 0 <= k < 45 => Abs(FrameSizeBytes(Candidate(k, 0.0)) as real - avg))
  }

  /** The payload bytes of one frame. */
  function FrameSize(frame: seq<RtpPacketInfo>): nat
  {
    TotalLength(Payloads(frame))
  }

  function SumFrameSizes(frames: seq<seq<RtpPacketInfo>>): nat
  {
    if frames == [] then 0 else SumFrameSizes(frames[..|frames| - 1]) + FrameSize(frames[|frames| - 1])
  }

  function AverageFrameSize(frames: seq<seq<RtpPacketInfo>>): real
    requires frames != []
  {
    SumFrameSizes(frames) as real / |frames| as real
  }

  /** The common frame rate nearest to `x`, the earliest one on a tie. */
  function SnapRate(x: real): (r: real)
    ensures r in CommonFrameRates
    ensures forall j :: 0 <= j < |CommonFrameRates| ==> Abs(r - x) <= Abs(CommonFrameRates[j] - x)
  {
    var errs := seq(8, i requires 0 <= i < 8 => Abs(CommonFrameRates[i] - x));
    var k := FirstMinIndex(errs);
    assert forall j :: 0 <= j < 8 ==> errs[j] == Abs(CommonFrameRates[j] - x);
    CommonFrameRates[k]
  }

  /** A common rate is its own nearest common rate. */
  lemma SnapRateKeepsCommonRates(i: nat)
    requires i < |CommonFrameRates|
    ensures SnapRate(CommonFrameRates[i]) == CommonFrameRates[i]
  {
    var x := CommonFrameRates[i];
    var r := SnapRate(x);
    assert Abs(r - x) <= Abs(CommonFrameRates[i] - x);
  }

  /** The frame rate the detector reports: frames counted between the first packet's and the
    * last packet's arrival, snapped to a common rate; 25 when there is a single frame or no
    * positive time span. */
  function DetectedRate(frames: seq<seq<RtpPacketInfo>>): (r: real)
    requires forall i :: 0 <= i < |frames| ==> |frames[i]| > 0
    ensures r in CommonFrameRates
  {
    if |frames| > 1 then
      var last := frames[|frames| - 1];
      var timeDiff := last[|last| - 1].arrivalTime - frames[0][0].arrivalTime;
      SnapRate(if timeDiff > 0.0 then (|frames| - 1) as real / timeDiff else 25.0)
    else
      assert CommonFrameRates[2] == 25.0;
      25.0
  }

  /** The average payload size of the stream's frames. */
  function StreamAverage(packets: seq<RtpPacketInfo>): real
    requires FramesOf(packets) != []
  {
    AverageFrameSize(FramesOf(packets))
  }

  /** The frame rate detected for the stream's frames. */
  function StreamRate(packets: seq<RtpPacketInfo>): real
  {
    SplitFramesFacts([], packets);
    DetectedRate(FramesOf(packets))
  }

  /** The parameters `_detect_params` returns for a packet list. */
  function DetectedParams(packets: seq<RtpPacketInfo>): VideoStreamParams
  {
    if FramesOf(packets) == [] then DefaultParams(25.0)
    else
      var avg := StreamAverage(packets);
      var rate := StreamRate(packets);
      var errs := CandidateErrors(avg);
      var k := FirstMinIndex(errs);
      if errs[k] > avg * 0.2 then DefaultParams(rate) else Candidate(k, rate)
  }

  /** With no frame the result is the 25 fps default. Otherwise it is the default at the
    * detected rate when every candidate misses the average frame size by more than 20%, and
    * else the first candidate in loop order whose miss is the smallest. */
  lemma DetectedParamsChoice(packets: seq<RtpPacketInfo>)
    ensures FramesOf(packets) == [] ==> DetectedParams(packets) == DefaultParams(25.0)
    ensures FramesOf(packets) != [] ==>
      DetectedParams(packets).frameRate == StreamRate(packets) &&
      ((forall k :: 0 <= k < 45 ==> CandidateErrors(StreamAverage(packets))[k] > StreamAverage(packets) * 0.2) ==>
        DetectedParams(packets) == DefaultParams(StreamRate(packets))) &&
      (forall k :: 0 <= k < 45 && IsFirstMin(CandidateErrors(StreamAverage(packets)), k) &&
                   CandidateErrors(StreamAverage(packets))[k] <= StreamAverage(packets) * 0.2 ==>
         DetectedParams(packets) == Candidate(k, StreamRate(packets)))
  {
    if FramesOf(packets) != [] {
      var errs := CandidateErrors(StreamAverage(packets));
      var m := FirstMinIndex(errs);
      forall k | 0 <= k < 45 && IsFirstMin(errs, k)
        ensures k == m
      {
        FirstMinUnique(errs, k, m);
      }
    }
  }

  lemma {:induction false} UniformFrameSizes(frames: seq<seq<RtpPacketInfo>>, size: nat)
    requires forall i :: 0 <= i < |frames| ==> FrameSize(frames[i]) == size
    ensures SumFrameSizes(frames) == |frames| * size
  {
    if frames != [] {
      UniformFrameSizes(frames[..|frames| - 1], size);
    }
  }

  /** Among the candidates, 720p 8-bit 4:2:2 (number 9) is the first whose frame size is
    * 1280 * 720 * 2 bytes. */
  lemma FirstCandidateOf720p8Bit()
    ensures FirstMinIndex(CandidateErrors(1843200.0)) == 9
  {
    var errs := CandidateErrors(1843200.0);
    Candidate720p8Bit(0.0);
    assert errs[9] == 0.0;
    forall j | 0 <= j < 9
      ensures errs[j] > 0.0
    {
      Candidate1080pSize(j);
    }
    assert forall j :: 0 <= j < 45 ==> errs[9] <= errs[j];
    assert IsFirstMin(errs, 9);
    FirstMinUnique(errs, 9, FirstMinIndex(errs));
  }

  /** Candidate 9 is 720p 8-bit 4:2:2, of 1280 * 720 * 2 bytes. */
  lemma Candidate720p8Bit(rate: real)
    ensures Candidate(9, rate) == VideoStreamParams(1280, 720, YCbCr422, 8, rate, false, "general")
    ensures FrameSizeBytes(Candidate(9, rate)) == 1843200
  {
    LoopIndex(1, 0, 0);
    assert BytesPerComponent(8) == 1;
  }

  /** The first nine candidates are 1080p, each larger than 1843200 bytes. */
  lemma Candidate1080pSize(j: nat)
    requires j < 9
    ensures FrameSizeBytes(Candidate(j, 0.0)) > 1843200
  {
    assert j / 9 == 0;
    var p := Candidate(j, 0.0);
    assert p.width == 1920 && p.height == 1080;
    assert BytesPerPixel(p) >= 2;
    assert 1920 * 1080 * BytesPerPixel(p) >= 1920 * 1080 * 2;
  }

  lemma UniformAverage(frames: seq<seq<RtpPacketInfo>>, size: nat)
    requires frames != []
    requires forall i :: 0 <= i < |frames| ==> FrameSize(frames[i]) == size
    ensures AverageFrameSize(frames) == size as real
  {
    UniformFrameSizes(frames, size);
    var n := |frames|;
    RealOfProduct(n, size);
    DivideOut(n, size as real);
  }

  lemma DivideOut(n: nat, s: real)
    requires n > 0
    ensures (n as real * s) / n as real == s
  {
  }

  lemma RealOfProduct(a: nat, b: nat)
    ensures (a * b) as real == a as real * b as real
  {
  }

  /** A stream whose frames all carry 1280 * 720 * 2 payload bytes is detected as 720p 8-bit
    * 4:2:2. */
  lemma Detects720p8Bit(packets: seq<RtpPacketInfo>)
    requires FramesOf(packets) != []
    requires forall i :: 0 <= i < |FramesOf(packets)| ==> FrameSize(FramesOf(packets)[i]) == 1843200
    ensures DetectedParams(packets) == VideoStreamParams(1280, 720, YCbCr422, 8, StreamRate(packets), false, "general")
  {
    UniformAverage(FramesOf(packets), 1843200);
    DetectsFromAverage720p(packets);
  }

  lemma DetectsFromAverage720p(packets: seq<RtpPacketInfo>)
    requires FramesOf(packets) != [] && StreamAverage(packets) == 1843200.0
    ensures DetectedParams(packets) == VideoStreamParams(1280, 720, YCbCr422, 8, StreamRate(packets), false, "general")
  {
    FirstCandidateOf720p8Bit();
    Candidate720p8Bit(StreamRate(packets));
    Candidate720p8Bit(0.0);
    assert CandidateErrors(1843200.0)[9] == 0.0;
  }

  /** Whether the first `k` candidates have been scanned with `best`/`bestError` kept as the
    * detection loops keep them. */
  ghost predicate BestSoFar(errs: seq<real>, k: nat, rate: real, best: Option<VideoStreamParams>, bestError: real)
  {
    |errs| == 45 && k <= 45 &&
    if k == 0 then best.None?
    else
      var m := FirstMinIndex(errs[..k]);
      best == Some(Candidate(m, rate)) && bestError == errs[m]
  }

  lemma BestStep(errs: seq<real>, k: nat, rate: real, best: Option<VideoStreamParams>, bestError: real,
                 best': Option<VideoStreamParams>, bestError': real)
    requires BestSoFar(errs, k, rate, best, bestError) && k < 45
    requires if best.None? || errs[k] < bestError
      then best' == Some(Candidate(k, rate)) && bestError' == errs[k]
      else best' == best && bestError' == bestError
    ensures BestSoFar(errs, k + 1, rate, best', bestError')
  {
    assert errs[..k + 1][..k] == errs[..k];
  }

  lemma LoopIndex(ri: nat, bi: nat, fi: nat)
    requires ri < 5 && bi < 3 && fi < 3
    ensures 9 * ri + 3 * bi + fi < 45
    ensures (9 * ri + 3 * bi + fi) / 9 == ri && ((9 * ri + 3 * bi + fi) / 3) % 3 == bi && (9 * ri + 3 * bi + fi) % 3 == fi
  {
    var k := 9 * ri + 3 * bi + fi;
    assert k / 3 == 3 * ri + bi;
  }

  lemma CandidateIndex(ri: nat, bi: nat, fi: nat, rate: real, avg: real)
    requires ri < 5 && bi < 3 && fi < 3
    ensures 9 * ri + 3 * bi + fi < 45
    ensures Candidate(9 * ri + 3 * bi + fi, rate) == CandidateParams(ri, bi, fi, rate)
    ensures CandidateErrors(avg)[9 * ri + 3 * bi + fi] == Abs(FrameSizeBytes(CandidateParams(ri, bi, fi, rate)) as real - avg)
  {
    LoopIndex(ri, bi, fi);
  }

  /** The innermost candidate loop: the three formats at one resolution and depth. */
  method SearchFormats(avg: real, rate: real, ri: nat, bi: nat, best: Option<VideoStreamParams>, error: real)
    returns (bestParams: Option<VideoStreamParams>, bestError: real)
    requires ri < 5 && bi < 3
    requires BestSoFar(CandidateErrors(avg), 9 * ri + 3 * bi, rate, best, error)
    ensures BestSoFar(CandidateErrors(avg), 9 * ri + 3 * bi + 3, rate, bestParams, bestError)
  {
    ghost var errs := CandidateErrors(avg);
    bestParams, bestError := best, error;
    for fi := 0 to 3
      invariant BestSoFar(errs, 9 * ri + 3 * bi + fi, rate, bestParams, bestError)
    {
      var params := CandidateParams(ri, bi, fi, rate);
      var error := Abs(FrameSizeBytes(params) as real - avg);
      CandidateIndex(ri, bi, fi, rate, avg);
      ghost var oldBest, oldError := bestParams, bestError;
      if bestParams.None? || error < bestError {
        bestError := error;
        bestParams := Some(params);
      }
      BestStep(errs, 9 * ri + 3 * bi + fi, rate, oldBest, oldError, bestParams, bestError);
    }
  }

  /** The middle candidate loop: the three depths at one resolution. */
  method SearchDepths(avg: real, rate: real, ri: nat, best: Option<VideoStreamParams>, error: real)
    returns (bestParams: Option<VideoStreamParams>, bestError: real)
    requires ri < 5
    requires BestSoFar(CandidateErrors(avg), 9 * ri, rate, best, error)
    ensures BestSoFar(CandidateErrors(avg), 9 * ri + 9, rate, bestParams, bestError)
  {
    bestParams, bestError := best, error;
    for bi := 0 to 3
      invariant BestSoFar(CandidateErrors(avg), 9 * ri + 3 * bi, rate, bestParams, bestError)
    {
      bestParams, bestError := SearchFormats(avg, rate, ri, bi, bestParams, bestError);
    }
  }

  /** The candidate loops of `_detect_params`: scan resolution, depth and format in order,
    * keeping a candidate only when its size error is strictly smaller than the best so far. */
  method SearchCandidates(avg: real, rate: real) returns (bestParams: Option<VideoStreamParams>, bestError: real)
    ensures bestParams == Some(Candidate(FirstMinIndex(CandidateErrors(avg)), rate))
    ensures bestError == CandidateErrors(avg)[FirstMinIndex(CandidateErrors(avg))]
  {
    ghost var errs := CandidateErrors(avg);
    bestParams := None;
    bestError := 0.0;
    for ri := 0 to 5
      invariant BestSoFar(errs, 9 * ri, rate, bestParams, bestError)
    {
      bestParams, bestError := SearchDepths(avg, rate, ri, bestParams, bestError);
    }
    assert errs[..45] == errs;
  }

  /** `_detect_params`. */
  method DetectParams(packets: seq<RtpPacketInfo>, streamInfo: RtpStreamInfo) returns (p: VideoStreamParams)
    ensures p == DetectedParams(packets)
  {
    var frames := GroupIntoFrames(packets);
    if frames == [] {
      return DefaultParams(25.0);
    }
    var avg := AverageFrameSize(frames);
    SplitFramesFacts([], packets);
    var rate := DetectedRate(frames);
    var bestParams, bestError := SearchCandidates(avg, rate);
    if bestParams.None? || bestError > avg * 0.2 {
      bestParams := Some(DefaultParams(rate));
    }
    p := bestParams.value;
  }

  // ---------------------------------------------------------------------------
  // The decoder

  /** The frames `decode` keeps: the decodable ones among the marker-delimited groups, each
    * decoded from its packets' payloads joined in order. */
  function DecodedFrames(p: VideoStreamParams, groups: seq<seq<RtpPacketInfo>>): seq<Frame>
  {
    if groups == [] then []
    else
      var rest := DecodedFrames(p, groups[..|groups| - 1]);
      match DecodeFrame(p, JoinedPayloads(groups[|groups| - 1]))
        case Some(f) => rest + [f]
        case None => rest
  }

  /** At most one frame per group, each of the configured size. */
  lemma {:induction false} DecodedFramesBound(p: VideoStreamParams, groups: seq<seq<RtpPacketInfo>>)
    ensures |DecodedFrames(p, groups)| <= |groups|
    ensures forall i :: 0 <= i < |DecodedFrames(p, groups)| ==> IsFrame(DecodedFrames(p, groups)[i], p.width, p.height)
  {
    if groups != [] {
      DecodedFramesBound(p, groups[..|groups| - 1]);
    }
  }

  /** With decodable parameters every group gives its frame, in group order. */
  lemma {:induction false} DecodedFramesAll(p: VideoStreamParams, groups: seq<seq<RtpPacketInfo>>)
    requires Decodable(p)
    ensures |DecodedFrames(p, groups)| == |groups|
    ensures forall i :: 0 <= i < |groups| ==> Some(DecodedFrames(p, groups)[i]) == DecodeFrame(p, JoinedPayloads(groups[i]))
  {
    if groups != [] {
      var init := groups[..|groups| - 1];
      var rest := DecodedFrames(p, init);
      var f := DecodeFrame(p, JoinedPayloads(groups[|groups| - 1]));
      DecodedFramesAll(p, init);
      assert f.Some?;
      var all := rest + [f.value];
      assert DecodedFrames(p, groups) == all;
      forall i | 0 <= i < |groups|
        ensures Some(all[i]) == DecodeFrame(p, JoinedPayloads(groups[i]))
      {
        if i < |groups| - 1 {
          assert groups[i] == init[i] && all[i] == rest[i];
        }
      }
    }
  }

  /** With parameters no unpacker supports, every frame is dropped. */
  lemma {:induction false} DecodedFramesNone(p: VideoStreamParams, groups: seq<seq<RtpPacketInfo>>)
    requires !Decodable(p)
    ensures DecodedFrames(p, groups) == []
  {
    if groups != [] {
      DecodedFramesNone(p, groups[..|groups| - 1]);
    }
  }

  /** The loop of `decode`: decode each group's joined payloads and keep the frames that
    * decode. */
  method DecodeGroups(p: VideoStreamParams, groups: seq<seq<RtpPacketInfo>>) returns (decoded: seq<Frame>)
    ensures decoded == DecodedFrames(p, groups)
  {
    decoded := [];
    for i := 0 to |groups|
      invariant decoded == DecodedFrames(p, groups[..i])
    {
      assert groups[..i + 1][..i] == groups[..i];
      var frame := DecodeFrame(p, JoinedPayloads(groups[i]));
      if frame.Some? {
        decoded := decoded + [frame.value];
      }
    }
    assert groups[..|groups|] == groups;
  }

  /** ST211020Decoder. */
  class St2110VideoDecoder {
    var params: Option<VideoStreamParams>
    var frames: seq<Frame>

    constructor(params: Option<VideoStreamParams>)
      ensures this.params == params && frames == []
    {
      this.params := params;
      frames := [];
    }

    /** `decode`: detect parameters only when none were given, then replace the frame list by
      * the frames of this call. */
    method Decode(packets: seq<RtpPacketInfo>, streamInfo: RtpStreamInfo) returns (r: seq<Frame>)
      modifies this
      ensures old(params).Some? ==> params == old(params)
      ensures old(params).None? ==> params == Some(DetectedParams(packets))
      ensures params.Some? && frames == DecodedFrames(params.value, FramesOf(packets)) && r == frames
    {
      if params.None? {
        var detected := DetectParams(packets, streamInfo);
        params := Some(detected);
      }
      var groups := GroupIntoFrames(packets);
      var decoded := DecodeGroups(params.value, groups);
      frames := decoded;
      r := frames;
    }
  }
}
