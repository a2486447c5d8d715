/** Octets, big-endian integers and the byte-string joins shared by the decoders. */
module Bytes {
  /** One octet of a packet buffer. */
  type Byte = x: int | 0 <= x < 256

  /** An unsigned 16-bit value (RTP sequence numbers). */
  type U16 = x: int | 0 <= x < 0x1_0000

  /** An unsigned 32-bit value (RTP timestamps and SSRC identifiers). */
  type U32 = x: int | 0 <= x < 0x1_0000_0000

  /** Big-endian unsigned 16-bit value of two octets. */
  function BE16(hi: Byte, lo: Byte): (r: U16)
    ensures r / 256 == hi && r % 256 == lo
  {
    hi * 256 + lo
  }

  /** Big-endian unsigned 32-bit value of four octets. */
  function BE32(b0: Byte, b1: Byte, b2: Byte, b3: Byte): U32
  {
    BE16(b0, b1) * 0x1_0000 + BE16(b2, b3)
  }

  /** The two octets of a 16-bit value, most significant first. */
  function U16Bytes(x: U16): (r: seq<Byte>)
    ensures |r| == 2 && BE16(r[0], r[1]) == x
  {
    [x / 256, x % 256]
  }

  /** The four octets of a 32-bit value, most significant first. */
  function U32Bytes(x: U32): (r: seq<Byte>)
    ensures |r| == 4 && BE32(r[0], r[1], r[2], r[3]) == x
  {
    U16Bytes(x / 0x1_0000) + U16Bytes(x % 0x1_0000)
  }

  /** `b''.join(...)`: the in-order concatenation of a list of byte strings. */
  function Join(parts: seq<seq<Byte>>): (r: seq<Byte>)
  {
    if parts == [] then [] else Join(parts[..|parts| - 1]) + parts[|parts| - 1]
  }

  /** Total length of a list of byte strings. */
  function TotalLength(parts: seq<seq<Byte>>): nat
  {
    if parts == [] then 0 else TotalLength(parts[..|parts| - 1]) + |parts[|parts| - 1]|
  }

  /** Joining two lists of parts is joining each and concatenating the results. */
  lemma {:induction false} JoinAppend(a: seq<seq<Byte>>, b: seq<seq<Byte>>)
    ensures Join(a + b) == Join(a) + Join(b)
  {
    if b == [] {
      assert a + b == a;
    } else {
      var init := b[..|b| - 1];
      assert (a + b)[..|a + b| - 1] == a + init;
      assert (a + b)[|a + b| - 1] == b[|b| - 1];
      JoinAppend(a, init);
      assert Join(a + b) == Join(a + init) + b[|b| - 1];
      assert Join(b) == Join(init) + b[|b| - 1];
    }
  }

  /** The joined string is exactly as long as all the parts together. */
  lemma {:induction false} JoinLength(parts: seq<seq<Byte>>)
    ensures |Join(parts)| == TotalLength(parts)
  {
    if parts != [] {
      JoinLength(parts[..|parts| - 1]);
    }
  }

  /** Part `i` occupies the joined string right after the parts before it. */
  lemma {:induction false} JoinSlice(parts: seq<seq<Byte>>, i: nat)
    requires i < |parts|
    ensures TotalLength(parts[..i]) + |parts[i]| <= |Join(parts)|
    ensures Join(parts)[TotalLength(parts[..i]) .. TotalLength(parts[..i]) + |parts[i]|] == parts[i]
  {
    assert parts == parts[..i] + [parts[i]] + parts[i + 1..];
    JoinAppend(parts[..i] + [parts[i]], parts[i + 1..]);
    JoinAppend(parts[..i], [parts[i]]);
    assert Join([parts[i]]) == parts[i] by {
      assert [parts[i]][..0] == parts[..0];
    }
    JoinLength(parts[..i]);
  }

  /** `part` occurs in `whole` starting at offset `at`. */
  predicate PlacedAt(whole: seq<Byte>, part: seq<Byte>, at: nat)
  {
    at + |part| <= |whole| && whole[at .. at + |part|] == part
  }

  /** Every part occupies the joined string right after the parts before it. */
  lemma JoinPlacesParts(parts: seq<seq<Byte>>)
    ensures forall i :: 0 <= i < |parts| ==> PlacedAt(Join(parts), parts[i], TotalLength(parts[..i]))
  {
    forall i | 0 <= i < |parts| ensures PlacedAt(Join(parts), parts[i], TotalLength(parts[..i])) {
      JoinSlice(parts, i);
    }
  }

  /** 16-bit values written out big-endian, one after another. */
  function JoinWords(ws: seq<U16>): (d: seq<Byte>)
    ensures |d| == 2 * |ws|
  {
    seq(2 * |ws|, i requires 0 <= i < 2 * |ws| => if i % 2 == 0 then ws[i / 2] / 256 else ws[i / 2] % 256)
  }

  /** Word `k` of the written-out sequence reads back as the `k`-th value. */
  lemma JoinWordsAt(ws: seq<U16>, k: nat)
    requires k < |ws|
    ensures 2 * k + 1 < |JoinWords(ws)| && BE16(JoinWords(ws)[2 * k], JoinWords(ws)[2 * k + 1]) == ws[k]
  {
    assert (2 * k) / 2 == k && (2 * k) % 2 == 0;
    assert (2 * k + 1) / 2 == k && (2 * k + 1) % 2 == 1;
  }
}
