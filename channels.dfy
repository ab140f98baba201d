// RC channel packing of the CRSF RC-channels frame (src/input.cpp): sixteen
// 11-bit channel values packed into 22 bytes, read as one little-endian bit
// stream. Byte j contributes stream bits [8j, 8j + 8), least significant
// first, and channel i occupies stream bits [11i, 11i + 11).
//
// The reference definitions work on that bit stream as a sequence of
// booleans; the firmware's sixteen shift-and-mask formulas are checked
// against them channel by channel.

module Channels {

  const NUM_CHANNELS: nat := 16
  const PAYLOAD_SIZE: nat := 22
  const CHANNEL_MASK: bv16 := 0x07FF

  // ----- Bit streams cut into fixed-width chunks -----

  /** The concatenation of a sequence of bit strings. */
  function Flatten(xs: seq<seq<bool>>): seq<bool>
    decreases |xs|
  {
    if |xs| == 0 then [] else xs[0] + Flatten(xs[1..])
  }

  /** `s` cut into `n` consecutive chunks of `w` bits. */
  function Chunks(s: seq<bool>, w: nat, n: nat): (cs: seq<seq<bool>>)
    requires |s| == w * n
    ensures |cs| == n
    ensures forall i | 0 <= i < n :: |cs[i]| == w
    decreases n
  {
    if n == 0 then [] else [s[..w]] + Chunks(s[w..], w, n - 1)
  }

  /** Concatenating `n` strings of width `w` gives `w * n` bits. */
  lemma {:induction false} FlattenLength(xs: seq<seq<bool>>, w: nat)
    requires forall i | 0 <= i < |xs| :: |xs[i]| == w
    ensures |Flatten(xs)| == w * |xs|
    decreases |xs|
  {
    if |xs| > 0 {
      FlattenLength(xs[1..], w);
    }
  }

  /** Flattening distributes over a leading string. */
  lemma FlattenCons(x: seq<bool>, xs: seq<seq<bool>>)
    ensures Flatten([x] + xs) == x + Flatten(xs)
  {
    assert ([x] + xs)[1..] == xs;
  }

  /** Cutting a concatenation of width-`w` strings at width `w` gives back the strings. */
  lemma {:induction false} ChunksOfFlatten(xs: seq<seq<bool>>, w: nat)
    requires forall i | 0 <= i < |xs| :: |xs[i]| == w
    ensures |Flatten(xs)| == w * |xs|
    ensures Chunks(Flatten(xs), w, |xs|) == xs
    decreases |xs|
  {
    FlattenLength(xs, w);
    if |xs| > 0 {
      var f, rest := Flatten(xs), Flatten(xs[1..]);
      assert f == xs[0] + rest;
      ChunksOfFlatten(xs[1..], w);
      assert f[..w] == xs[0];
      assert f[w..] == rest;
      assert [xs[0]] + xs[1..] == xs;
    }
  }

  /** Concatenating the chunks of `s` gives back `s`. */
  lemma {:induction false} FlattenOfChunks(s: seq<bool>, w: nat, n: nat)
    requires |s| == w * n
    ensures Flatten(Chunks(s, w, n)) == s
    decreases n
  {
    if n > 0 {
      assert w * n == w + w * (n - 1);
      var rest := s[w..];
      FlattenOfChunks(rest, w, n - 1);
      assert Chunks(s, w, n) == [s[..w]] + Chunks(rest, w, n - 1);
      FlattenCons(s[..w], Chunks(rest, w, n - 1));
      assert s[..w] + rest == s;
    }
  }

  /** Chunk `i` of `s` is the slice `[w*i, w*i + w)`. */
  lemma {:induction false} ChunkAt(s: seq<bool>, w: nat, n: nat, i: nat)
    requires |s| == w * n && i < n
    ensures w * i + w <= |s|
    ensures Chunks(s, w, n)[i] == s[w * i .. w * i + w]
    decreases n
  {
    assert w * n == w + w * (n - 1);
    var rest := s[w..];
    if i == 0 {
      assert w * i == 0;
    } else {
      var k := w * (i - 1);
      assert w * i == w + k;
      ChunkAt(rest, w, n - 1, i - 1);
      assert Chunks(s, w, n)[i] == Chunks(rest, w, n - 1)[i - 1];
      assert rest[k .. k + w] == s[w + k .. w + k + w];
    }
  }

  /** String `i` of a concatenation of width-`w` strings sits at bits `[w*i, w*i + w)`. */
  lemma SliceOfFlatten(xs: seq<seq<bool>>, w: nat, i: nat)
    requires forall k | 0 <= k < |xs| :: |xs[k]| == w
    requires i < |xs|
    ensures w * i + w <= |Flatten(xs)|
    ensures Flatten(xs)[w * i .. w * i + w] == xs[i]
  {
    ChunksOfFlatten(xs, w);
    ChunkAt(Flatten(xs), w, |xs|, i);
  }

  // ----- Bytes and fields as bit strings -----

  function BitValue8(x: bool): bv8 { if x then 1 else 0 }
  function BitValue16(x: bool): bv16 { if x then 1 else 0 }

  /** Bit `m` of a byte. */
  function ByteBit(b: bv8, m: nat): bool
    requires m < 8
  {
    (b >> m) & 1 == 1
  }

  /** Bit `m` of a 16-bit value. */
  function WordBit(v: bv16, m: nat): bool
    requires m < 16
  {
    (v >> m) & 1 == 1
  }

  /** The eight bits of a byte, least significant first. */
  function ByteBits(b: bv8): (bs: seq<bool>)
    ensures |bs| == 8
  {
    seq(8, m requires 0 <= m < 8 => ByteBit(b, m))
  }

  /** The byte whose bits, least significant first, are `bs`. */
  function ByteOfBits(bs: seq<bool>): bv8
    requires |bs| == 8
  {
    BitValue8(bs[0]) | (BitValue8(bs[1]) << 1) | (BitValue8(bs[2]) << 2) | (BitValue8(bs[3]) << 3)
    | (BitValue8(bs[4]) << 4) | (BitValue8(bs[5]) << 5) | (BitValue8(bs[6]) << 6) | (BitValue8(bs[7]) << 7)
  }

  /** The low eleven bits of a channel value, least significant first. */
  function FieldBits(v: bv16): (bs: seq<bool>)
    ensures |bs| == 11
  {
    seq(11, m requires 0 <= m < 11 => WordBit(v, m))
  }

  /** The 11-bit value whose bits, least significant first, are `bs`. */
  function FieldOfBits(bs: seq<bool>): bv16
    requires |bs| == 11
  {
    BitValue16(bs[0]) | (BitValue16(bs[1]) << 1) | (BitValue16(bs[2]) << 2) | (BitValue16(bs[3]) << 3)
    | (BitValue16(bs[4]) << 4) | (BitValue16(bs[5]) << 5) | (BitValue16(bs[6]) << 6) | (BitValue16(bs[7]) << 7)
    | (BitValue16(bs[8]) << 8) | (BitValue16(bs[9]) << 9) | (BitValue16(bs[10]) << 10)
  }

  lemma ByteOfByteBits(b: bv8)
    ensures ByteOfBits(ByteBits(b)) == b
  {
  }

  lemma ByteBitsOfByte(bs: seq<bool>)
    requires |bs| == 8
    ensures ByteBits(ByteOfBits(bs)) == bs
  {
  }

  lemma FieldOfFieldBits(v: bv16)
    ensures FieldOfBits(FieldBits(v)) == v & CHANNEL_MASK
  {
  }

  lemma FieldBitsOfField(bs: seq<bool>)
    requires |bs| == 11
    ensures FieldOfBits(bs) < 0x800
    ensures FieldBits(FieldOfBits(bs)) == bs
  {
  }

  // ----- Payload and channels as one bit stream -----

  /** The 176-bit stream a payload carries. */
  function PayloadStream(p: seq<bv8>): seq<bool> {
    Flatten(seq(|p|, j requires 0 <= j < |p| => ByteBits(p[j])))
  }

  /** The 176-bit stream sixteen channels form. */
  function ChannelStream(ch: seq<bv16>): seq<bool> {
    Flatten(seq(|ch|, i requires 0 <= i < |ch| => FieldBits(ch[i])))
  }

  lemma PayloadStreamLength(p: seq<bv8>)
    ensures |PayloadStream(p)| == 8 * |p|
  {
    FlattenLength(seq(|p|, j requires 0 <= j < |p| => ByteBits(p[j])), 8);
  }

  lemma ChannelStreamLength(ch: seq<bv16>)
    ensures |ChannelStream(ch)| == 11 * |ch|
  {
    FlattenLength(seq(|ch|, i requires 0 <= i < |ch| => FieldBits(ch[i])), 11);
  }

  /** Byte `j` of a payload occupies stream bits [8j, 8j + 8). */
  lemma PayloadStreamSlice(p: seq<bv8>, j: nat)
    requires j < |p|
    ensures 8 * j + 8 <= |PayloadStream(p)|
    ensures PayloadStream(p)[8 * j .. 8 * j + 8] == ByteBits(p[j])
  {
    SliceOfFlatten(seq(|p|, j requires 0 <= j < |p| => ByteBits(p[j])), 8, j);
  }

  /** Channel `i` occupies stream bits [11i, 11i + 11) of the channel stream. */
  lemma ChannelStreamSlice(ch: seq<bv16>, i: nat)
    requires i < |ch|
    ensures 11 * i + 11 <= |ChannelStream(ch)|
    ensures ChannelStream(ch)[11 * i .. 11 * i + 11] == FieldBits(ch[i])
  {
    SliceOfFlatten(seq(|ch|, i requires 0 <= i < |ch| => FieldBits(ch[i])), 11, i);
  }

  /** The sixteen channel values a 22-byte payload encodes. */
  function Unpacked(p: seq<bv8>): (ch: seq<bv16>)
    requires |p| == PAYLOAD_SIZE
    ensures |ch| == NUM_CHANNELS
  {
    PayloadStreamLength(p);
    var s := PayloadStream(p);
    seq(NUM_CHANNELS, i requires 0 <= i < NUM_CHANNELS => FieldOfBits(s[11 * i .. 11 * i + 11]))
  }

  /** Every unpacked channel fits in 11 bits. */
  lemma UnpackedInRange(p: seq<bv8>)
    requires |p| == PAYLOAD_SIZE
    ensures forall i | 0 <= i < NUM_CHANNELS :: Unpacked(p)[i] < 0x800
  {
    PayloadStreamLength(p);
    var s := PayloadStream(p);
    forall i | 0 <= i < NUM_CHANNELS
      ensures Unpacked(p)[i] < 0x800
    {
      FieldBitsOfField(s[11 * i .. 11 * i + 11]);
    }
  }

  /** The 22-byte payload a transmitter sends for sixteen channel values. */
  function Pack(ch: seq<bv16>): (p: seq<bv8>)
    requires |ch| == NUM_CHANNELS
    ensures |p| == PAYLOAD_SIZE
  {
    ChannelStreamLength(ch);
    var s := ChannelStream(ch);
    seq(PAYLOAD_SIZE, j requires 0 <= j < PAYLOAD_SIZE => ByteOfBits(s[8 * j .. 8 * j + 8]))
  }

  // ----- Round trips -----

  /** The bits of packed byte `j` are stream bits [8j, 8j + 8) of the channels. */
  lemma PackedByteBits(ch: seq<bv16>, j: nat)
    requires |ch| == NUM_CHANNELS && j < PAYLOAD_SIZE
    ensures 8 * j + 8 <= |ChannelStream(ch)|
    ensures ByteBits(Pack(ch)[j]) == ChannelStream(ch)[8 * j .. 8 * j + 8]
  {
    ChannelStreamLength(ch);
    ByteBitsOfByte(ChannelStream(ch)[8 * j .. 8 * j + 8]);
  }

  /** The bits of unpacked channel `i` are stream bits [11i, 11i + 11) of the payload. */
  lemma UnpackedFieldBits(p: seq<bv8>, i: nat)
    requires |p| == PAYLOAD_SIZE && i < NUM_CHANNELS
    ensures 11 * i + 11 <= |PayloadStream(p)|
    ensures FieldBits(Unpacked(p)[i]) == PayloadStream(p)[11 * i .. 11 * i + 11]
  {
    PayloadStreamLength(p);
    FieldBitsOfField(PayloadStream(p)[11 * i .. 11 * i + 11]);
  }

  /** A packed payload carries exactly the channel stream it was packed from. */
  lemma PayloadStreamOfPack(ch: seq<bv16>)
    requires |ch| == NUM_CHANNELS
    ensures PayloadStream(Pack(ch)) == ChannelStream(ch)
  {
    var s := ChannelStream(ch);
    ChannelStreamLength(ch);
    var p := Pack(ch);
    var bytes := Chunks(s, 8, PAYLOAD_SIZE);
    var byteList := seq(PAYLOAD_SIZE, j requires 0 <= j < PAYLOAD_SIZE => ByteBits(p[j]));
    forall j | 0 <= j < PAYLOAD_SIZE
      ensures byteList[j] == bytes[j]
    {
      ChunkAt(s, 8, PAYLOAD_SIZE, j);
      PackedByteBits(ch, j);
    }
    assert byteList == bytes;
    FlattenOfChunks(s, 8, PAYLOAD_SIZE);
  }

  /** The channels unpacked from a payload form exactly the payload's stream. */
  lemma ChannelStreamOfUnpacked(p: seq<bv8>)
    requires |p| == PAYLOAD_SIZE
    ensures ChannelStream(Unpacked(p)) == PayloadStream(p)
  {
    var s := PayloadStream(p);
    PayloadStreamLength(p);
    var ch := Unpacked(p);
    var fields := Chunks(s, 11, NUM_CHANNELS);
    var fieldList := seq(NUM_CHANNELS, i requires 0 <= i < NUM_CHANNELS => FieldBits(ch[i]));
    forall i | 0 <= i < NUM_CHANNELS
      ensures fieldList[i] == fields[i]
    {
      ChunkAt(s, 11, NUM_CHANNELS, i);
      UnpackedFieldBits(p, i);
    }
    assert fieldList == fields;
    FlattenOfChunks(s, 11, NUM_CHANNELS);
  }

  /** Unpacking what a transmitter packed returns the sixteen channel values. */
  lemma UnpackOfPack(ch: seq<bv16>)
    requires |ch| == NUM_CHANNELS
    requires forall i | 0 <= i < NUM_CHANNELS :: ch[i] < 0x800
    ensures Unpacked(Pack(ch)) == ch
  {
    PayloadStreamOfPack(ch);
    forall i | 0 <= i < NUM_CHANNELS
      ensures Unpacked(Pack(ch))[i] == ch[i]
    {
      ChannelStreamSlice(ch, i);
      FieldOfFieldBits(ch[i]);
    }
  }

  /** Packing the channels decoded from any 22-byte payload reproduces the payload. */
  lemma PackOfUnpack(p: seq<bv8>)
    requires |p| == PAYLOAD_SIZE
    ensures Pack(Unpacked(p)) == p
  {
    ChannelStreamOfUnpacked(p);
    forall j | 0 <= j < PAYLOAD_SIZE
      ensures Pack(Unpacked(p))[j] == p[j]
    {
      PayloadStreamSlice(p, j);
      ByteOfByteBits(p[j]);
    }
  }

  // ----- The firmware's unpacking -----

  /** Two consecutive payload bytes occupy stream bits [8j, 8j + 16). */
  lemma TwoBytesInStream(p: seq<bv8>, j: nat)
    requires j + 1 < |p|
    ensures 8 * j + 16 <= |PayloadStream(p)|
    ensures PayloadStream(p)[8 * j .. 8 * j + 16] == ByteBits(p[j]) + ByteBits(p[j + 1])
  {
    var s := PayloadStream(p);
    PayloadStreamSlice(p, j);
    PayloadStreamSlice(p, j + 1);
    assert s[8 * j .. 8 * j + 16] == s[8 * j .. 8 * j + 8] + s[8 * (j + 1) .. 8 * (j + 1) + 8];
  }

  /** Three consecutive payload bytes occupy stream bits [8j, 8j + 24). */
  lemma ThreeBytesInStream(p: seq<bv8>, j: nat)
    requires j + 2 < |p|
    ensures 8 * j + 24 <= |PayloadStream(p)|
    ensures PayloadStream(p)[8 * j .. 8 * j + 24] == ByteBits(p[j]) + ByteBits(p[j + 1]) + ByteBits(p[j + 2])
  {
    var s := PayloadStream(p);
    TwoBytesInStream(p, j);
    PayloadStreamSlice(p, j + 2);
    assert s[8 * j .. 8 * j + 24] == s[8 * j .. 8 * j + 16] + s[8 * (j + 2) .. 8 * (j + 2) + 8];
  }

  /** The eleven bits starting at bit `r` of byte `a`, continuing into byte `b`. */
  function TwoByteWindow(a: bv8, b: bv8, r: nat): (w: seq<bool>)
    requires r + 11 <= 16
    ensures |w| == 11
  {
    (ByteBits(a) + ByteBits(b))[r .. r + 11]
  }

  /** The eleven bits starting at bit `r` of byte `a`, continuing into bytes `b` and `c`. */
  function ThreeByteWindow(a: bv8, b: bv8, c: bv8, r: nat): (w: seq<bool>)
    requires r + 11 <= 24
    ensures |w| == 11
  {
    (ByteBits(a) + ByteBits(b) + ByteBits(c))[r .. r + 11]
  }

  /** Channel `i`'s stream bits, when it starts at bit `r` of byte `j` and ends within byte `j + 1`. */
  lemma ChannelInTwoBytes(p: seq<bv8>, i: nat, j: nat, r: nat, a: bv8, b: bv8)
    requires |p| == PAYLOAD_SIZE && i < NUM_CHANNELS
    requires j + 1 < |p| && r + 11 <= 16 && 11 * i == 8 * j + r
    requires a == p[j] && b == p[j + 1]
    ensures 11 * i + 11 <= |PayloadStream(p)|
    ensures PayloadStream(p)[11 * i .. 11 * i + 11] == TwoByteWindow(a, b, r)
  {
    var s := PayloadStream(p);
    TwoBytesInStream(p, j);
    assert s[8 * j .. 8 * j + 16][r .. r + 11] == s[8 * j + r .. 8 * j + r + 11];
    assert s[11 * i .. 11 * i + 11] == s[8 * j .. 8 * j + 16][r .. r + 11];
  }

  /** Channel `i`'s stream bits, when it starts at bit `r` of byte `j` and ends within byte `j + 2`. */
  lemma ChannelInThreeBytes(p: seq<bv8>, i: nat, j: nat, r: nat, a: bv8, b: bv8, c: bv8)
    requires |p| == PAYLOAD_SIZE && i < NUM_CHANNELS
    requires j + 2 < |p| && r + 11 <= 24 && 11 * i == 8 * j + r
    requires a == p[j] && b == p[j + 1] && c == p[j + 2]
    ensures 11 * i + 11 <= |PayloadStream(p)|
    ensures PayloadStream(p)[11 * i .. 11 * i + 11] == ThreeByteWindow(a, b, c, r)
  {
    var s := PayloadStream(p);
    ThreeBytesInStream(p, j);
    assert s[8 * j .. 8 * j + 24][r .. r + 11] == s[8 * j + r .. 8 * j + r + 11];
    assert s[11 * i .. 11 * i + 11] == s[8 * j .. 8 * j + 24][r .. r + 11];
  }

  // The eight bit patterns of the firmware's formulas: channel i and channel
  // i + 8 start at the same bit of a byte, 88 bits (11 bytes) apart.

  lemma Pattern0(a: bv8, b: bv8)
    ensures FieldOfBits(TwoByteWindow(a, b, 0)) == (a as bv16 | (b as bv16 << 8)) & CHANNEL_MASK
  {
  }

  lemma Pattern1(a: bv8, b: bv8)
    ensures FieldOfBits(TwoByteWindow(a, b, 3)) == ((a as bv16 >> 3) | (b as bv16 << 5)) & CHANNEL_MASK
  {
  }

  lemma Pattern2(a: bv8, b: bv8, c: bv8)
    ensures FieldOfBits(ThreeByteWindow(a, b, c, 6)) == ((a as bv16 >> 6) | (b as bv16 << 2) | (c as bv16 << 10)) & CHANNEL_MASK
  {
  }

  lemma Pattern3(a: bv8, b: bv8)
    ensures FieldOfBits(TwoByteWindow(a, b, 1)) == ((a as bv16 >> 1) | (b as bv16 << 7)) & CHANNEL_MASK
  {
  }

  lemma Pattern4(a: bv8, b: bv8)
    ensures FieldOfBits(TwoByteWindow(a, b, 4)) == ((a as bv16 >> 4) | (b as bv16 << 4)) & CHANNEL_MASK
  {
  }

  lemma Pattern5(a: bv8, b: bv8, c: bv8)
    ensures FieldOfBits(ThreeByteWindow(a, b, c, 7)) == ((a as bv16 >> 7) | (b as bv16 << 1) | (c as bv16 << 9)) & CHANNEL_MASK
  {
  }

  lemma Pattern6(a: bv8, b: bv8)
    ensures FieldOfBits(TwoByteWindow(a, b, 2)) == ((a as bv16 >> 2) | (b as bv16 << 6)) & CHANNEL_MASK
  {
  }

  lemma Pattern7(a: bv8, b: bv8)
    ensures FieldOfBits(TwoByteWindow(a, b, 5)) == ((a as bv16 >> 5) | (b as bv16 << 3)) & CHANNEL_MASK
  {
  }

  /** The firmware's formula for channel 0 reads stream bits [0, 11). */
  lemma Formula0(p: seq<bv8>)
    requires |p| == PAYLOAD_SIZE
    ensures Unpacked(p)[0] == (p[0] as bv16 | (p[1] as bv16 << 8)) & CHANNEL_MASK
  {
    ChannelInTwoBytes(p, 0, 0, 0, p[0], p[1]);
    Pattern0(p[0], p[1]);
  }

  /** The firmware's formula for channel 8 reads stream bits [88, 99). */
  lemma Formula8(p: seq<bv8>)
    requires |p| == PAYLOAD_SIZE
    ensures Unpacked(p)[8] == (p[11] as bv16 | (p[12] as bv16 << 8)) & CHANNEL_MASK
  {
    ChannelInTwoBytes(p, 8, 11, 0, p[11], p[12]);
    Pattern0(p[11], p[12]);
  }

  /** The firmware's formula for channel 1 reads stream bits [11, 22). */
  lemma Formula1(p: seq<bv8>)
    requires |p| == PAYLOAD_SIZE
    ensures Unpacked(p)[1] == ((p[1] as bv16 >> 3) | (p[2] as bv16 << 5)) & CHANNEL_MASK
  {
    ChannelInTwoBytes(p, 1, 1, 3, p[1], p[2]);
    Pattern1(p[1], p[2]);
  }

  /** The firmware's formula for channel 9 reads stream bits [99, 110). */
  lemma Formula9(p: seq<bv8>)
    requires |p| == PAYLOAD_SIZE
    ensures Unpacked(p)[9] == ((p[12] as bv16 >> 3) | (p[13] as bv16 << 5)) & CHANNEL_MASK
  {
    ChannelInTwoBytes(p, 9, 12, 3, p[12], p[13]);
    Pattern1(p[12], p[13]);
  }

  /** The firmware's formula for channel 2 reads stream bits [22, 33). */
  lemma Formula2(p: seq<bv8>)
    requires |p| == PAYLOAD_SIZE
    ensures Unpacked(p)[2] == ((p[2] as bv16 >> 6) | (p[3] as bv16 << 2) | (p[4] as bv16 << 10)) & CHANNEL_MASK
  {
    ChannelInThreeBytes(p, 2, 2, 6, p[2], p[3], p[4]);
    Pattern2(p[2], p[3], p[4]);
  }

  /** The firmware's formula for channel 10 reads stream bits [110, 121). */
  lemma Formula10(p: seq<bv8>)
    requires |p| == PAYLOAD_SIZE
    ensures Unpacked(p)[10] == ((p[13] as bv16 >> 6) | (p[14] as bv16 << 2) | (p[15] as bv16 << 10)) & CHANNEL_MASK
  {
    ChannelInThreeBytes(p, 10, 13, 6, p[13], p[14], p[15]);
    Pattern2(p[13], p[14], p[15]);
  }

  /** The firmware's formula for channel 3 reads stream bits [33, 44). */
  lemma Formula3(p: seq<bv8>)
    requires |p| == PAYLOAD_SIZE
    ensures Unpacked(p)[3] == ((p[4] as bv16 >> 1) | (p[5] as bv16 << 7)) & CHANNEL_MASK
  {
    ChannelInTwoBytes(p, 3, 4, 1, p[4], p[5]);
    Pattern3(p[4], p[5]);
  }

  /** The firmware's formula for channel 11 reads stream bits [121, 132). */
  lemma Formula11(p: seq<bv8>)
    requires |p| == PAYLOAD_SIZE
    ensures Unpacked(p)[11] == ((p[15] as bv16 >> 1) | (p[16] as bv16 << 7)) & CHANNEL_MASK
  {
    ChannelInTwoBytes(p, 11, 15, 1, p[15], p[16]);
    Pattern3(p[15], p[16]);
  }

  /** The firmware's formula for channel 4 reads stream bits [44, 55). */
  lemma Formula4(p: seq<bv8>)
    requires |p| == PAYLOAD_SIZE
    ensures Unpacked(p)[4] == ((p[5] as bv16 >> 4) | (p[6] as bv16 << 4)) & CHANNEL_MASK
  {
    ChannelInTwoBytes(p, 4, 5, 4, p[5], p[6]);
    Pattern4(p[5], p[6]);
  }

  /** The firmware's formula for channel 12 reads stream bits [132, 143). */
  lemma Formula12(p: seq<bv8>)
    requires |p| == PAYLOAD_SIZE
    ensures Unpacked(p)[12] == ((p[16] as bv16 >> 4) | (p[17] as bv16 << 4)) & CHANNEL_MASK
  {
    ChannelInTwoBytes(p, 12, 16, 4, p[16], p[17]);
    Pattern4(p[16], p[17]);
  }

  /** The firmware's formula for channel 5 reads stream bits [55, 66). */
  lemma Formula5(p: seq<bv8>)
    requires |p| == PAYLOAD_SIZE
    ensures Unpacked(p)[5] == ((p[6] as bv16 >> 7) | (p[7] as bv16 << 1) | (p[8] as bv16 << 9)) & CHANNEL_MASK
  {
    ChannelInThreeBytes(p, 5, 6, 7, p[6], p[7], p[8]);
    Pattern5(p[6], p[7], p[8]);
  }

  /** The firmware's formula for channel 13 reads stream bits [143, 154). */
  lemma Formula13(p: seq<bv8>)
    requires |p| == PAYLOAD_SIZE
    ensures Unpacked(p)[13] == ((p[17] as bv16 >> 7) | (p[18] as bv16 << 1) | (p[19] as bv16 << 9)) & CHANNEL_MASK
  {
    ChannelInThreeBytes(p, 13, 17, 7, p[17], p[18], p[19]);
    Pattern5(p[17], p[18], p[19]);
  }

  /** The firmware's formula for channel 6 reads stream bits [66, 77). */
  lemma Formula6(p: seq<bv8>)
    requires |p| == PAYLOAD_SIZE
    ensures Unpacked(p)[6] == ((p[8] as bv16 >> 2) | (p[9] as bv16 << 6)) & CHANNEL_MASK
  {
    ChannelInTwoBytes(p, 6, 8, 2, p[8], p[9]);
    Pattern6(p[8], p[9]);
  }

  /** The firmware's formula for channel 14 reads stream bits [154, 165). */
  lemma Formula14(p: seq<bv8>)
    requires |p| == PAYLOAD_SIZE
    ensures Unpacked(p)[14] == ((p[19] as bv16 >> 2) | (p[20] as bv16 << 6)) & CHANNEL_MASK
  {
    ChannelInTwoBytes(p, 14, 19, 2, p[19], p[20]);
    Pattern6(p[19], p[20]);
  }

  /** The firmware's formula for channel 7 reads stream bits [77, 88). */
  lemma Formula7(p: seq<bv8>)
    requires |p| == PAYLOAD_SIZE
    ensures Unpacked(p)[7] == ((p[9] as bv16 >> 5) | (p[10] as bv16 << 3)) & CHANNEL_MASK
  {
    ChannelInTwoBytes(p, 7, 9, 5, p[9], p[10]);
    Pattern7(p[9], p[10]);
  }

  /** The firmware's formula for channel 15 reads stream bits [165, 176). */
  lemma Formula15(p: seq<bv8>)
    requires |p| == PAYLOAD_SIZE
    ensures Unpacked(p)[15] == ((p[20] as bv16 >> 5) | (p[21] as bv16 << 3)) & CHANNEL_MASK
  {
    ChannelInTwoBytes(p, 15, 20, 5, p[20], p[21]);
    Pattern7(p[20], p[21]);
  }

  /** The firmware's formulas for channels 0 to 7 are the reference unpacking. */
  lemma LowChannelsByFormulas(p: seq<bv8>)
    requires |p| == PAYLOAD_SIZE
    ensures Unpacked(p)[..8] == [
      (p[0] as bv16 | (p[1] as bv16 << 8)) & CHANNEL_MASK,
      ((p[1] as bv16 >> 3) | (p[2] as bv16 << 5)) & CHANNEL_MASK,
      ((p[2] as bv16 >> 6) | (p[3] as bv16 << 2) | (p[4] as bv16 << 10)) & CHANNEL_MASK,
      ((p[4] as bv16 >> 1) | (p[5] as bv16 << 7)) & CHANNEL_MASK,
      ((p[5] as bv16 >> 4) | (p[6] as bv16 << 4)) & CHANNEL_MASK,
      ((p[6] as bv16 >> 7) | (p[7] as bv16 << 1) | (p[8] as bv16 << 9)) & CHANNEL_MASK,
      ((p[8] as bv16 >> 2) | (p[9] as bv16 << 6)) & CHANNEL_MASK,
      ((p[9] as bv16 >> 5) | (p[10] as bv16 << 3)) & CHANNEL_MASK]
  {
    Formula0(p);
    Formula1(p);
    Formula2(p);
    Formula3(p);
    Formula4(p);
    Formula5(p);
    Formula6(p);
    Formula7(p);
  }

  /** The firmware's formulas for channels 8 to 15 are the reference unpacking. */
  lemma HighChannelsByFormulas(p: seq<bv8>)
    requires |p| == PAYLOAD_SIZE
    ensures Unpacked(p)[8..] == [
      (p[11] as bv16 | (p[12] as bv16 << 8)) & CHANNEL_MASK,
      ((p[12] as bv16 >> 3) | (p[13] as bv16 << 5)) & CHANNEL_MASK,
      ((p[13] as bv16 >> 6) | (p[14] as bv16 << 2) | (p[15] as bv16 << 10)) & CHANNEL_MASK,
      ((p[15] as bv16 >> 1) | (p[16] as bv16 << 7)) & CHANNEL_MASK,
      ((p[16] as bv16 >> 4) | (p[17] as bv16 << 4)) & CHANNEL_MASK,
      ((p[17] as bv16 >> 7) | (p[18] as bv16 << 1) | (p[19] as bv16 << 9)) & CHANNEL_MASK,
      ((p[19] as bv16 >> 2) | (p[20] as bv16 << 6)) & CHANNEL_MASK,
      ((p[20] as bv16 >> 5) | (p[21] as bv16 << 3)) & CHANNEL_MASK]
  {
    Formula8(p);
    Formula9(p);
    Formula10(p);
    Formula11(p);
    Formula12(p);
    Formula13(p);
    Formula14(p);
    Formula15(p);
  }

  /**
   * `crsf_unpack_channels`: decodes the 22 payload bytes starting at
   * `payload[off]` into `channels[0..16]`, one shift-and-mask formula per
   * channel (`p` names the payload bytes, which the method does not change).
   * The shifts are done in 16-bit arithmetic, the width of `int` on the
   * target; bits shifted out lie above bit 10 and are masked away.
   */
  method UnpackChannels(payload: array<bv8>, off: nat, channels: array<bv16>)
    requires off + PAYLOAD_SIZE <= payload.Length
    requires channels.Length == NUM_CHANNELS
    modifies channels
    ensures channels[..] == Unpacked(payload[off .. off + PAYLOAD_SIZE])
  {
    var p := payload[off .. off + PAYLOAD_SIZE];
    var values := [
      (p[0] as bv16 | (p[1] as bv16 << 8)) & CHANNEL_MASK,
      ((p[1] as bv16 >> 3) | (p[2] as bv16 << 5)) & CHANNEL_MASK,
      ((p[2] as bv16 >> 6) | (p[3] as bv16 << 2) | (p[4] as bv16 << 10)) & CHANNEL_MASK,
      ((p[4] as bv16 >> 1) | (p[5] as bv16 << 7)) & CHANNEL_MASK,
      ((p[5] as bv16 >> 4) | (p[6] as bv16 << 4)) & CHANNEL_MASK,
      ((p[6] as bv16 >> 7) | (p[7] as bv16 << 1) | (p[8] as bv16 << 9)) & CHANNEL_MASK,
      ((p[8] as bv16 >> 2) | (p[9] as bv16 << 6)) & CHANNEL_MASK,
      ((p[9] as bv16 >> 5) | (p[10] as bv16 << 3)) & CHANNEL_MASK] + [
      (p[11] as bv16 | (p[12] as bv16 << 8)) & CHANNEL_MASK,
      ((p[12] as bv16 >> 3) | (p[13] as bv16 << 5)) & CHANNEL_MASK,
      ((p[13] as bv16 >> 6) | (p[14] as bv16 << 2) | (p[15] as bv16 << 10)) & CHANNEL_MASK,
      ((p[15] as bv16 >> 1) | (p[16] as bv16 << 7)) & CHANNEL_MASK,
      ((p[16] as bv16 >> 4) | (p[17] as bv16 << 4)) & CHANNEL_MASK,
      ((p[17] as bv16 >> 7) | (p[18] as bv16 << 1) | (p[19] as bv16 << 9)) & CHANNEL_MASK,
      ((p[19] as bv16 >> 2) | (p[20] as bv16 << 6)) & CHANNEL_MASK,
      ((p[20] as bv16 >> 5) | (p[21] as bv16 << 3)) & CHANNEL_MASK];
    forall k | 0 <= k < NUM_CHANNELS {
      channels[k] := values[k];
    }
    assert channels[..] == values;
    assert payload[off .. off + PAYLOAD_SIZE] == p;
    LowChannelsByFormulas(p);
    HighChannelsByFormulas(p);
    assert Unpacked(p) == Unpacked(p)[..8] + Unpacked(p)[8..];
  }
}
